/** pager: page-number pagination over int32 counters. */
module Pagers {
  import opened Results
  import opened Errors
  import opened Queries
  import RepoPager
  import Text

  const MinInt32 := -0x8000_0000
  const MaxInt32 := 0x7fff_ffff

  predicate IsInt32(x: int)
  {
    MinInt32 <= x <= MaxInt32
  }

  /** Two's-complement wrap-around of int32 arithmetic, and the int64 to
      int32 conversion. */
  function Wrap32(x: int): (r: int)
    ensures IsInt32(r)
    ensures IsInt32(x) ==> r == x
    ensures (x - r) % 0x1_0000_0000 == 0
  {
    (x + 0x8000_0000) % 0x1_0000_0000 - 0x8000_0000
  }

  const DefaultPageSize := 100
  const DefaultMaxPageSize := 1000

  /** Options */
  datatype Options = Options(pageSize: int, maxPageSize: int)

  /** NewOptions */
  function NewOptions(): (o: Options)
    ensures o.pageSize == DefaultPageSize && o.maxPageSize == DefaultMaxPageSize
  {
    Options(DefaultPageSize, DefaultMaxPageSize)
  }

  /** WithPageSize */
  function WithPageSize(o: Options, pageSize: int): (r: Options)
    ensures r.pageSize == pageSize && r.maxPageSize == o.maxPageSize
  {
    o.(pageSize := pageSize)
  }

  /** WithMaxPageSize */
  function WithMaxPageSize(o: Options, maxPageSize: int): (r: Options)
    ensures r.maxPageSize == maxPageSize && r.pageSize == o.pageSize
  {
    o.(maxPageSize := maxPageSize)
  }

  /** The pager: current page, page size, and the total item count once it
      is known. */
  datatype Pager = Pager(page: int, pageSize: int, total: Option<int>)

  /** NewPager: a page below 1 becomes 1; a page size below 1 becomes the
      default, and one above the maximum becomes the maximum. */
  function NewPager(page: int, opt: Options): (p: Pager)
    ensures p.page == if page < 1 then 1 else page
    ensures p.pageSize <= opt.maxPageSize
    ensures opt.pageSize > opt.maxPageSize ==> p.pageSize == opt.maxPageSize
    ensures 1 <= opt.pageSize <= opt.maxPageSize ==> p.pageSize == opt.pageSize
    ensures opt.pageSize < 1 ==> p.pageSize == if DefaultPageSize > opt.maxPageSize then opt.maxPageSize else DefaultPageSize
    ensures opt.maxPageSize >= 1 ==> p.pageSize >= 1
    ensures p.total.None?
  {
    var page := if page < 1 then 1 else page;
    var size := if opt.pageSize < 1 then DefaultPageSize else opt.pageSize;
    var size := if size > opt.maxPageSize then opt.maxPageSize else size;
    Pager(page, size, None)
  }

  /** NewPagerWithPageSize */
  function NewPagerWithPageSize(page: int, pageSize: int): (p: Pager)
    ensures p.page == (if page < 1 then 1 else page) && 1 <= p.pageSize <= DefaultMaxPageSize
    ensures 1 <= pageSize <= DefaultMaxPageSize ==> p.pageSize == pageSize
    ensures pageSize < 1 ==> p.pageSize == DefaultPageSize
    ensures pageSize > DefaultMaxPageSize ==> p.pageSize == DefaultMaxPageSize
  {
    NewPager(page, WithPageSize(NewOptions(), pageSize))
  }

  /** NewRequestPager: a request's page and page size, through the same
      defaults as NewPagerWithPageSize. */
  function NewRequestPager(reqPage: int, reqPageSize: int): (p: Pager)
    ensures p == NewPagerWithPageSize(reqPage, reqPageSize)
    ensures p.page == if reqPage < 1 then 1 else reqPage
  {
    NewPager(reqPage, WithPageSize(NewOptions(), reqPageSize))
  }

  /** GetOffset: the items of earlier pages, in int32 arithmetic. */
  function GetOffset(p: Pager): int
  {
    Wrap32((p.page - 1) * p.pageSize)
  }

  /** GetLimit */
  function GetLimit(p: Pager): int
  {
    p.pageSize
  }

  /** GetTotalItems */
  function GetTotalItems(p: Pager): (r: int)
    ensures p.total.Some? ==> r == p.total.value
    ensures p.total.None? ==> r == 0
  {
    if p.total.None? then 0 else p.total.value
  }

  /** SetTotalItems */
  function SetTotalItems(p: Pager, total: int): (r: Pager)
    ensures GetTotalItems(r) == total
    ensures r.page == p.page && r.pageSize == p.pageSize
  {
    p.(total := Some(total))
  }

  /** GetTotalPages: the pages needed for all items. The source divides in
      float64 and rounds up. For int32 operands the quotient's rounding
      error is far below its distance to the next integer, so for a
      non-zero page size this is the exact ceiling (negative for a negative
      size). A zero size, which a maximum page size below 1 lets NewPager
      produce, divides to +Inf, and Go leaves the int32 conversion of +Inf
      to the platform: `infinity` is what the platform gives. */
  function GetTotalPages(p: Pager, infinity: int): (r: int)
    ensures p.total.None? || p.total.value < 1 ==> r == 0
    ensures p.total.Some? && p.total.value >= 1 && p.pageSize >= 1 ==>
      r >= 1 && (r - 1) * p.pageSize < p.total.value <= r * p.pageSize
    ensures p.total.Some? && p.total.value >= 1 && p.pageSize < 0 ==>
      r <= 0 && r * p.pageSize <= p.total.value < (r - 1) * p.pageSize
    ensures p.total.Some? && p.total.value >= 1 && p.pageSize == 0 ==> r == infinity
  {
    if p.total.None? || p.total.value < 1 then 0
    else
      var t, s := p.total.value, p.pageSize;
      if s == 0 then infinity
      else if s < 0 then
        CeilDivNeg(t, s);
        -(t / -s)
      else
        CeilDiv(t, s);
        (t + s - 1) / s
  }

  lemma CeilDiv(t: int, s: int)
    requires t >= 1 && s >= 1
    ensures ((t + s - 1) / s - 1) * s < t <= ((t + s - 1) / s) * s
  {
    var q := (t + s - 1) / s;
    var m := (t + s - 1) % s;
    assert t + s - 1 == q * s + m;
    assert (q - 1) * s == q * s - s;
  }

  lemma CeilDivNeg(t: int, s: int)
    requires t >= 1 && s < 0
    ensures -(t / -s) * s <= t < (-(t / -s) - 1) * s
  {
    var u := -s;
    var q := t / u;
    var m := t % u;
    assert t == q * u + m && 0 <= m < u;
    assert -q * s == q * u;
    assert (-q - 1) * s == q * u + u;
  }

  /** Tag of the error NextPage reports on the last page. */
  const LastPageTag := Tag(0)

  /** The error NextPage reports when the total is unknown. */
  const TotalUnset := NewError(Internal, Some(Plain("total items must be set")))

  /** The error NextPage reports on the last page. */
  function LastPage(page: int): DbError
  {
    WithTag(NewError(Internal, Some(Plain("last page is " + Text.DecimalText(page)))), LastPageTag)
  }

  /** NextPage with the product page * pageSize computed exactly. */
  function NextPage(p: Pager): (r: Result<Pager, DbError>)
    ensures p.total.None? ==> r == Err(TotalUnset)
    ensures p.total.Some? && p.page * p.pageSize >= p.total.value ==> r == Err(LastPage(p.page))
    ensures p.total.Some? && p.page * p.pageSize < p.total.value ==> r == Ok(p.(page := Wrap32(p.page + 1)))
  {
    if p.total.None? then Err(TotalUnset)
    else if p.page * p.pageSize >= p.total.value then Err(LastPage(p.page))
    else Ok(p.(page := Wrap32(p.page + 1)))
  }

  /** NextPage as written: the product is an int32 product and wraps. */
  function NextPageAsWritten(p: Pager): (r: Result<Pager, DbError>)
    ensures p.total.None? ==> r == Err(TotalUnset)
    ensures r.Err? && p.total.Some? ==> r == Err(LastPage(p.page))
  {
    if p.total.None? then Err(TotalUnset)
    else if Wrap32(p.page * p.pageSize) >= p.total.value then Err(LastPage(p.page))
    else Ok(p.(page := Wrap32(p.page + 1)))
  }

  /** NextPage advances exactly while the current page is not the last of
      the known total, and steps to the following page. */
  lemma NextPageAdvancesBeforeLast(p: Pager, infinity: int)
    requires p.total.Some? && 1 <= p.page < MaxInt32 && p.pageSize >= 1
    ensures NextPage(p).Ok? <==> p.page < GetTotalPages(p, infinity)
    ensures NextPage(p).Ok? ==> NextPage(p).value.page == p.page + 1
  {
    var t, s := p.total.value, p.pageSize;
    var n := GetTotalPages(p, infinity);
    if t >= 1 {
      if p.page < n {
        MulMono(p.page, n - 1, s);
      } else {
        MulMono(n, p.page, s);
      }
    } else {
      MulMono(1, p.page, s);
    }
  }

  /** Products with a positive factor keep the order of the other. */
  lemma MulMono(a: int, b: int, s: int)
    requires a <= b && s >= 1
    ensures a * s <= b * s
  {
  }

  /** After SetTotalItems NextPage's only error is the tagged last-page
      one. */
  lemma NextPageFailsOnlyOnLastPage(p: Pager, total: int)
    ensures NextPage(SetTotalItems(p, total)).Err? ==>
      IsTagged(LastPageTag, Some(Pkg(NextPage(SetTotalItems(p, total)).error)))
  {
  }

  /** The as-written comparison is fooled once page * pageSize exceeds the
      int32 range: with a full int32 total and 1000 items per page, page
      2147484 already lies past the end, yet NextPage moves on. */
  lemma NextPageWrapCounterexample()
    ensures var p := Pager(2147484, 1000, Some(MaxInt32));
      p.page * p.pageSize > MaxInt32 &&
      NextPage(p).Err? && NextPageAsWritten(p).Ok?
  {
    var x := 2147484 * 1000;
    assert x == 2147484000;
    assert Wrap32(x) == 2147484000 + 0x8000_0000 - 0x1_0000_0000 - 0x8000_0000;
  }

  /** Worse, with an even page size and the full int32 total the wrapped
      product is always even and the total odd, so NextPage as written never
      reports the last page and Walk never returns. */
  lemma NextPageAsWrittenNeverEnds(page: int, k: int)
    requires k >= 1
    ensures NextPageAsWritten(Pager(page, 2 * k, Some(MaxInt32))).Ok?
  {
    var y := page * k;
    assert page * (2 * k) == 2 * y;
    WrapEven(y);
  }

  lemma WrapEven(y: int)
    ensures Wrap32(2 * y) % 2 == 0
  {
    var a := 2 * y + 0x8000_0000;
    var m := a / 0x1_0000_0000;
    assert a % 0x1_0000_0000 == a - 0x1_0000_0000 * m;
    assert Wrap32(2 * y) == 2 * (y - 0x8000_0000 * m);
  }

  /** GetApplyFn: the offset/limit window of the current page. */
  function GetApplyFn(p: Pager): (t: Transform)
    ensures t == RepoPager.New(GetOffset(p), GetLimit(p))
  {
    RepoPager.New(GetOffset(p), GetLimit(p))
  }

  /** Without wrap-around, consecutive pages tile the items: page k's
      window starts where page k - 1's ends. */
  lemma PagesTile(p: Pager)
    requires 1 <= p.page && p.pageSize >= 1 && IsInt32(p.page * p.pageSize)
    ensures GetOffset(p.(page := p.page + 1)) == GetOffset(p) + GetLimit(p)
    ensures GetOffset(Pager(1, p.pageSize, p.total)) == 0
  {
    var s, a := p.pageSize, p.page * p.pageSize;
    assert (p.page - 1) * s == a - s;
    assert (p.page + 1 - 1) * s == a;
    assert 0 <= a - s;
  }
}
