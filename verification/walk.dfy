/** pager.Walk: calls back once per page until the reported total is
    covered. */
module Walker {
  import opened Results
  import opened Errors
  import opened Pagers

  /** What the callback returns for a page: the total item count (an
      int64), or an error. */
  datatype Response = Total(count: int) | Failed(err: GoError)

  /** The consecutive pages lo, lo + 1, ..., hi - 1. */
  function Range(lo: int, hi: int): (r: seq<int>)
    ensures |r| == if hi > lo then hi - lo else 0
    ensures forall i :: 0 <= i < |r| ==> r[i] == lo + i
    decreases hi - lo
  {
    if hi <= lo then [] else [lo] + Range(lo + 1, hi)
  }

  /** The walk from `page` on, with page size `size`: the error Walk
      returns (None for nil) and the pages the callback was called with. */
  function WalkFrom(fetch: int -> Response, size: int, page: int): (r: (Option<GoError>, seq<int>))
    requires 1 <= size && 1 <= page <= MaxInt32
    ensures |r.1| >= 1 && r.1[0] == page
    decreases MaxInt32 - page
  {
    match fetch(page)
    case Failed(e) => (Some(e), [page])
    case Total(n) =>
      var t := Wrap32(n);
      if page * size >= t then (None, [page])
      else
        MulMono(1, page, size);
        var rest := WalkFrom(fetch, size, page + 1);
        (rest.0, [page] + rest.1)
  }

  /** The callback is called with consecutive pages, starting at `page`. */
  lemma {:induction false} WalkPagesConsecutive(fetch: int -> Response, size: int, page: int)
    requires 1 <= size && 1 <= page <= MaxInt32
    ensures var pages := WalkFrom(fetch, size, page).1;
      pages == Range(page, page + |pages|)
    decreases MaxInt32 - page
  {
    var r := fetch(page);
    if r.Total? && page * size < Wrap32(r.count) {
      WalkStep(fetch, size, page);
      WalkPagesConsecutive(fetch, size, page + 1);
      var rest := WalkFrom(fetch, size, page + 1).1;
      assert Range(page, page + 1 + |rest|) == [page] + Range(page + 1, page + 1 + |rest|);
    } else {
      assert Range(page, page + 1) == [page];
    }
  }

  /** Walk */
  method Walk(pageSize: int, fetch: int -> Response) returns (err: Option<GoError>, pages: seq<int>)
    ensures var size := NewPagerWithPageSize(1, pageSize).pageSize;
      (err, pages) == WalkFrom(fetch, size, 1)
  {
    var p := NewPagerWithPageSize(1, pageSize);
    err, pages := WalkLoop(p, fetch);
  }

  /** Walk's loop, from the page `p` is on. */
  method WalkLoop(p0: Pager, fetch: int -> Response) returns (err: Option<GoError>, pages: seq<int>)
    requires p0.pageSize >= 1 && 1 <= p0.page <= MaxInt32
    ensures (err, pages) == WalkFrom(fetch, p0.pageSize, p0.page)
  {
    var p := p0;
    var size := p.pageSize;
    ghost var whole := WalkFrom(fetch, size, p.page);
    pages := [];
    assert whole.1 == pages + whole.1;
    while true
      invariant p.pageSize == size && 1 <= p.page <= MaxInt32
      invariant whole.0 == WalkFrom(fetch, size, p.page).0
      invariant whole.1 == pages + WalkFrom(fetch, size, p.page).1
      decreases MaxInt32 - p.page
    {
      ghost var here := WalkFrom(fetch, size, p.page);
      var stop, e, next := VisitPage(p, fetch);
      ghost var visited := pages;
      pages := pages + [p.page];
      if stop {
        assert here == (e, [p.page]);
        return e, pages;
      }
      ghost var rest := WalkFrom(fetch, size, next.page);
      assert here.1 == [p.page] + rest.1;
      assert visited + ([p.page] + rest.1) == pages + rest.1;
      p := next;
    }
  }

  /** One turn of Walk's loop: the callback for the current page, then
      SetTotalItems and NextPage. It stops on the callback's error or on
      the last page, and otherwise hands on the pager of the next page. */
  method VisitPage(p: Pager, fetch: int -> Response) returns (stop: bool, err: Option<GoError>, next: Pager)
    requires p.pageSize >= 1 && 1 <= p.page <= MaxInt32
    ensures stop ==> WalkFrom(fetch, p.pageSize, p.page) == (err, [p.page])
    ensures !stop ==>
      next.pageSize == p.pageSize && next.page == p.page + 1 <= MaxInt32 &&
      WalkFrom(fetch, p.pageSize, p.page) ==
        (WalkFrom(fetch, p.pageSize, next.page).0, [p.page] + WalkFrom(fetch, p.pageSize, next.page).1)
  {
    var page, size := p.page, p.pageSize;
    var response := fetch(page);
    if response.Failed? {
      return true, Some(response.err), p;
    }
    var total := Wrap32(response.count);
    NextAfterTotal(p, total);
    var counted := SetTotalItems(p, total);
    var after := NextPage(counted);
    // After SetTotalItems the only error is the tagged last-page one
    // (NextPageFailsOnlyOnLastPage), so the untagged branch is absent.
    if after.Err? {
      NextPageFailsOnlyOnLastPage(p, total);
      return true, None, p;
    }
    WalkStep(fetch, size, page);
    return false, None, after.value;
  }

  /** The number of pages a total spans: at least one, and enough pages
      of `size` items to hold `t` items. */
  function PageCount(t: int, size: int): (n: int)
    requires size >= 1
    ensures n >= 1
    ensures t >= 1 ==> (n - 1) * size < t <= n * size
    ensures t < 1 ==> n == 1
  {
    if t < 1 then 1 else CeilDiv(t, size); (t + size - 1) / size
  }

  /** Once the total is known, NextPage moves on exactly while the page
      does not reach it, and then to the following page. */
  lemma NextAfterTotal(p: Pager, total: int)
    requires p.pageSize >= 1 && p.page >= 1 && IsInt32(total)
    ensures var next := NextPage(SetTotalItems(p, total));
      (next.Ok? <==> p.page * p.pageSize < total) &&
      (next.Ok? ==> next.value.page == p.page + 1 && next.value.pageSize == p.pageSize)
  {
    MulMono(1, p.pageSize, p.page);
  }

  /** A page whose total lies beyond it is followed by the walk from the
      next page. */
  lemma WalkStep(fetch: int -> Response, size: int, page: int)
    requires 1 <= size && 1 <= page <= MaxInt32
    requires fetch(page).Total? && page * size < Wrap32(fetch(page).count)
    ensures page + 1 <= MaxInt32
    ensures WalkFrom(fetch, size, page) ==
      (WalkFrom(fetch, size, page + 1).0, [page] + WalkFrom(fetch, size, page + 1).1)
  {
    MulMono(1, page, size);
  }

  /** Walk with a callback that always reports the same total calls it for
      every page from `page` up to the page count, then returns nil. */
  lemma {:induction false} WalkConstantFrom(t: int, size: int, page: int)
    requires 1 <= size && 1 <= page && IsInt32(t)
    requires page <= MaxInt32 && page <= PageCount(t, size)
    ensures WalkFrom(_ => Total(t), size, page) == (None, Range(page, PageCount(t, size) + 1))
    decreases MaxInt32 - page
  {
    var n := PageCount(t, size);
    if page * size < t {
      assert page < n by {
        if page >= n { MulMono(n, page, size); }
      }
      MulMono(1, page, size);
      WalkConstantFrom(t, size, page + 1);
      assert Range(page, n + 1) == [page] + Range(page + 1, n + 1);
    } else {
      if t >= 1 {
        assert page >= n by {
          if page < n { MulMono(page, n - 1, size); }
        }
      }
      assert Range(page, n + 1) == [page];
    }
  }

  /** Whatever the callback reports, the walk calls it for no more pages
      than the largest total it can report spans. */
  lemma {:induction false} WalkBoundedFrom(fetch: int -> Response, size: int, page: int, m: int)
    requires 1 <= size && 1 <= page <= MaxInt32
    requires forall q :: fetch(q).Total? ==> Wrap32(fetch(q).count) <= m
    requires page <= PageCount(m, size)
    ensures page - 1 + |WalkFrom(fetch, size, page).1| <= PageCount(m, size)
    decreases MaxInt32 - page
  {
    var r := fetch(page);
    if r.Total? && page * size < Wrap32(r.count) {
      var n := PageCount(m, size);
      MulMono(1, page, size);
      assert page < n by {
        if page >= n { MulMono(n, page, size); }
      }
      WalkStep(fetch, size, page);
      WalkBoundedFrom(fetch, size, page + 1, m);
    }
  }

  /** Walk makes at most max(1, ceil(m / size)) calls when no total
      exceeds m. */
  lemma WalkBounded(fetch: int -> Response, pageSize: int, m: int)
    requires forall q :: fetch(q).Total? ==> Wrap32(fetch(q).count) <= m
    ensures var size := NewPagerWithPageSize(1, pageSize).pageSize;
      |WalkFrom(fetch, size, 1).1| <= PageCount(m, size)
  {
    WalkBoundedFrom(fetch, NewPagerWithPageSize(1, pageSize).pageSize, 1, m);
  }

  /** The walk as written, for at most `fuel` calls of the callback: its
      NextPage compares the wrapped int32 product page * size, and the page
      counter wraps too. None means the walk has not returned within `fuel`
      calls. */
  function WalkAsWrittenFrom(fetch: int -> Response, size: int, page: int, fuel: nat)
    : (r: Option<(Option<GoError>, seq<int>)>)
    ensures r.Some? ==> 1 <= |r.value.1| <= fuel && r.value.1[0] == page
    decreases fuel
  {
    if fuel == 0 then None
    else
      match fetch(page)
      case Failed(e) => Some((Some(e), [page]))
      case Total(n) =>
        match NextPageAsWritten(SetTotalItems(Pager(page, size, None), Wrap32(n)))
        case Err(_) => Some((None, [page]))
        case Ok(next) =>
          match WalkAsWrittenFrom(fetch, size, next.page, fuel - 1)
          case None => None
          case Some(rest) => Some((rest.0, [page] + rest.1))
  }

  /** As written, a callback that always reports the full int32 total
      under an even page size keeps the walk going whatever the fuel. */
  lemma {:induction false} WalkAsWrittenNeverEnds(k: int, page: int, fuel: nat)
    requires k >= 1
    ensures WalkAsWrittenFrom(_ => Total(MaxInt32), 2 * k, page, fuel).None?
    decreases fuel
  {
    if fuel > 0 {
      var p := Pager(page, 2 * k, Some(MaxInt32));
      NextPageAsWrittenNeverEnds(page, k);
      assert SetTotalItems(Pager(page, 2 * k, None), Wrap32(MaxInt32)) == p;
      WalkAsWrittenNeverEnds(k, NextPageAsWritten(p).value.page, fuel - 1);
    }
  }

  /** Walk(1000, ...) with a callback reporting the full int32 total:
      the corrected walk returns nil, the walk as written never returns. */
  lemma WalkWrapCounterexample(fuel: nat)
    ensures NewPagerWithPageSize(1, 1000).pageSize == 1000
    ensures WalkFrom(_ => Total(MaxInt32), 1000, 1).0.None?
    ensures WalkAsWrittenFrom(_ => Total(MaxInt32), 1000, 1, fuel).None?
  {
    WalkConstantFrom(MaxInt32, 1000, 1);
    WalkAsWrittenNeverEnds(500, 1, fuel);
  }

  /** While no total comes within one page of the int32 limit, no product
      wraps, and the walk as written, given fuel for every call, is the
      corrected walk. */
  lemma {:induction false} WalkAgreesBelowWrap(fetch: int -> Response, size: int, page: int, fuel: nat)
    requires 1 <= size && 1 <= page <= MaxInt32 && page * size <= MaxInt32
    requires forall q :: fetch(q).Total? ==> Wrap32(fetch(q).count) <= MaxInt32 - size
    requires fuel >= |WalkFrom(fetch, size, page).1|
    ensures WalkAsWrittenFrom(fetch, size, page, fuel) == Some(WalkFrom(fetch, size, page))
    decreases MaxInt32 - page
  {
    var r := fetch(page);
    if r.Total? && page * size < Wrap32(r.count) {
      WalkStep(fetch, size, page);
      assert (page + 1) * size == page * size + size;
      var rest := WalkFrom(fetch, size, page + 1);
      WalkAgreesBelowWrap(fetch, size, page + 1, fuel - 1);
      assert WalkAsWrittenFrom(fetch, size, page + 1, fuel - 1) == Some(rest);
      AsWrittenAdvances(fetch, size, page, fuel);
      assert WalkAsWrittenFrom(fetch, size, page, fuel) == Some((rest.0, [page] + rest.1));
    } else {
      AsWrittenStops(fetch, size, page, fuel);
    }
  }

  /** A step of the walk as written whose product does not wrap: it moves
      on to the next page. */
  lemma AsWrittenAdvances(fetch: int -> Response, size: int, page: int, fuel: nat)
    requires 1 <= size && 1 <= page && page * size <= MaxInt32 && fuel >= 1
    requires fetch(page).Total? && page * size < Wrap32(fetch(page).count)
    ensures var rest := WalkAsWrittenFrom(fetch, size, page + 1, fuel - 1);
      WalkAsWrittenFrom(fetch, size, page, fuel) ==
        if rest.None? then None else Some((rest.value.0, [page] + rest.value.1))
  {
    MulMono(1, page, size);
    var t := Wrap32(fetch(page).count);
    assert Wrap32(page * size) == page * size;
    assert NextPageAsWritten(SetTotalItems(Pager(page, size, None), t)) == Ok(Pager(page + 1, size, Some(t)));
  }

  /** A step of the walk as written whose product does not wrap, on a page
      where the corrected walk stops: it stops there too. */
  lemma AsWrittenStops(fetch: int -> Response, size: int, page: int, fuel: nat)
    requires 1 <= size && 1 <= page <= MaxInt32 && page * size <= MaxInt32 && fuel >= 1
    requires !(fetch(page).Total? && page * size < Wrap32(fetch(page).count))
    ensures WalkAsWrittenFrom(fetch, size, page, fuel) == Some(WalkFrom(fetch, size, page))
  {
    MulMono(1, page, size);
    assert Wrap32(page * size) == page * size;
  }

  /** The walk example with a total of 7 and 10 items per page takes one
      call. */
  lemma WalkOnePage()
    ensures WalkFrom(_ => Total(7), 10, 1) == (None, [1])
  {
    WalkConstantFrom(7, 10, 1);
    assert PageCount(7, 10) == 1;
    assert Range(1, 2) == [1];
  }

  /** The walk examples with totals of 55 and 60 and 10 items per page
      take six calls. */
  lemma WalkSixPages()
    ensures WalkFrom(_ => Total(55), 10, 1) == (None, [1, 2, 3, 4, 5, 6])
    ensures WalkFrom(_ => Total(60), 10, 1) == (None, [1, 2, 3, 4, 5, 6])
  {
    WalkConstantFrom(55, 10, 1);
    WalkConstantFrom(60, 10, 1);
    assert PageCount(55, 10) == 6 && PageCount(60, 10) == 6;
    assert Range(1, 7) == [1, 2, 3, 4, 5, 6];
  }
}
