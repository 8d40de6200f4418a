/** repository/opt: query options assembled from option functions, and the
    query transforms they yield. */
module Opts {
  import opened Results
  import opened Values
  import opened Queries
  import opened Conditions
  import Filters
  import Orders
  import Pagers
  import Text

  /** Opt: paging, sorting, filter and custom transforms. */
  datatype Opt = Opt(
    page: int,
    pageSize: int,
    sortBy: string,
    sortOrder: string,
    filter: seq<Cond>,
    fns: seq<Transform>)

  /** The options New starts from. */
  const Blank := Opt(0, 0, "", "", [], [])

  /** Or, And and Not option groups. */
  datatype GroupKind = AnyOf | AllOf | NoneOf

  /** FnOpt: the option functions of this package, by what they do. Builders
      that append a condition are AddCond; Or, And and Not are Group; Nil is
      a nil FnOpt, which New skips. */
  datatype FnOpt =
    | Nil
    | AddFns(transforms: seq<Transform>)
    | SetPage(newPage: int)
    | SetPageSize(newSize: int)
    | SetPaging(pagingPage: int, pagingSize: int)
    | SortAsc(ascColumn: string)
    | SortDesc(descColumn: string)
    | SortSpec(spec: string)
    | AddCond(cond: Cond)
    | Group(kind: GroupKind, members: seq<FnOpt>)

  /** Order: the column before the first space and, after it, one of the
      six directions in any letter case and surrounded by any white space.
      No direction means ascending; anything else panics. */
  function ParseOrder(spec: string): (r: Result<(string, string), string>)
    ensures r.Ok? ==> ' ' !in r.value.0 && Orders.Expr(r.value.0, r.value.1).Some?
  {
    var k := Text.IndexOfSpace(spec);
    if k == -1 then
      Orders.ExprRoundTrip(spec, Orders.Asc);
      Ok((spec, Orders.DirName(Orders.Asc)))
    else
      var column, rest := spec[..k], spec[k + 1..];
      var dir := Text.ToUpper(Text.TrimSpace(rest));
      var e := Orders.Expr(column, dir);
      if e.Some? then Ok((column, dir)) else Err("Unknown order rule: " + rest)
  }

  /** Applies one option function; None is a panic. */
  function ApplyOpt(o: Opt, fn: FnOpt): Result<Opt, string>
    decreases fn
  {
    match fn
    case Nil => Ok(o)
    case AddFns(ts) => Ok(o.(fns := o.fns + ts))
    case SetPage(p) => Ok(o.(page := p))
    case SetPageSize(s) => Ok(o.(pageSize := s))
    case SetPaging(p, s) => Ok(o.(page := p, pageSize := s))
    case SortAsc(c) => Ok(o.(sortBy := c, sortOrder := Orders.DirName(Orders.Asc)))
    case SortDesc(c) => Ok(o.(sortBy := c, sortOrder := Orders.DirName(Orders.Desc)))
    case SortSpec(spec) =>
      var parsed := ParseOrder(spec);
      if parsed.Err? then Err(parsed.error)
      else Ok(o.(sortBy := parsed.value.0, sortOrder := parsed.value.1))
    case AddCond(c) => Ok(o.(filter := o.filter + [c]))
    case Group(k, members) =>
      var inner := NewFrom(Blank, members);
      if inner.Err? then Err(inner.error)
      else
        var cs := inner.value.filter;
        Ok(o.(filter := o.filter + [match k case AnyOf => Or(cs) case AllOf => And(cs) case NoneOf => Not(cs)]))
  }

  /** Applies the option functions in order, skipping nil ones. */
  function NewFrom(o: Opt, fns: seq<FnOpt>): Result<Opt, string>
    decreases fns
  {
    if |fns| == 0 then Ok(o)
    else if fns[0].Nil? then NewFrom(o, fns[1..])
    else
      var next := ApplyOpt(o, fns[0]);
      if next.Err? then next else NewFrom(next.value, fns[1..])
  }

  /** New */
  function New(fns: seq<FnOpt>): Result<Opt, string>
  {
    NewFrom(Blank, fns)
  }

  // ---------------------------------------------------------------------
  // Builders
  // ---------------------------------------------------------------------

  function Fn(ts: seq<Transform>): FnOpt { AddFns(ts) }
  function Page(p: int): FnOpt { SetPage(p) }
  function PageSize(s: int): FnOpt { SetPageSize(s) }
  /** Limit is PageSize. */
  function Limit(s: int): FnOpt { SetPageSize(s) }
  function Paging(p: int, s: int): FnOpt { SetPaging(p, s) }
  function Asc(column: string): FnOpt { SortAsc(column) }
  function Desc(column: string): FnOpt { SortDesc(column) }
  function Order(spec: string): FnOpt { SortSpec(spec) }
  function Eq(column: string, v: Value): FnOpt { AddCond(Compare(OpEq, Some(Entry(column, v)))) }
  function Neq(column: string, v: Value): FnOpt { AddCond(Compare(OpNe, Some(Entry(column, v)))) }
  function Lt(column: string, v: Value): FnOpt { AddCond(Compare(OpLt, Some(Entry(column, v)))) }
  function Le(column: string, v: Value): FnOpt { AddCond(Compare(OpLe, Some(Entry(column, v)))) }
  function Gt(column: string, v: Value): FnOpt { AddCond(Compare(OpGt, Some(Entry(column, v)))) }
  function Ge(column: string, v: Value): FnOpt { AddCond(Compare(OpGe, Some(Entry(column, v)))) }
  function EqLower(column: string, v: string): FnOpt { AddCond(Conditions.EqLower(Some(Entry(column, v)))) }
  function Between(column: string, from: Value, to: Value): FnOpt
  {
    AddCond(Conditions.Between(Some(Entry(column, [from, to]))))
  }
  function Contains(column: string, v: string): FnOpt { AddCond(Pattern(Conditions.Contains, Some(Entry(column, v)))) }
  function Starts(column: string, v: string): FnOpt { AddCond(Pattern(Conditions.Starts, Some(Entry(column, v)))) }
  function Ends(column: string, v: string): FnOpt { AddCond(Pattern(Conditions.Ends, Some(Entry(column, v)))) }
  function JsonEq(column: string, v: Value, path: seq<string>): FnOpt
  {
    AddCond(Conditions.JsonEq(column, path, v))
  }
  function JsonContains(column: string, paths: seq<JsonPath>): FnOpt
  {
    AddCond(Conditions.JsonContains(column, paths))
  }
  function JsonContainsValue(column: string, v: string, path: seq<string>): FnOpt
  {
    AddCond(Conditions.JsonContainsValue(column, path, Str(v)))
  }
  function NotNull(column: string): FnOpt { AddCond(Conditions.NotNull(column)) }
  function IsNull(column: string): FnOpt { AddCond(Conditions.IsNull(column)) }
  function OrOf(members: seq<FnOpt>): FnOpt { Group(AnyOf, members) }
  function AndOf(members: seq<FnOpt>): FnOpt { Group(AllOf, members) }
  function NotOf(members: seq<FnOpt>): FnOpt { Group(NoneOf, members) }

  /** In: the elements of a slice value, or the value itself as the only
      element. */
  function In(column: string, vals: Value): (r: FnOpt)
    ensures r.AddCond? && r.cond.In? && r.cond.members.Some? && r.cond.members.value.key == column
    ensures vals.List? ==> r.cond.members.value.val == vals.items
    ensures !vals.List? ==> r.cond.members.value.val == [vals]
  {
    var items := if vals.List? then vals.items else [vals];
    AddCond(Conditions.In(Some(Entry(column, items))))
  }

  /** MayIn: nil for an empty slice, In otherwise. */
  function MayIn(column: string, vals: Value): (r: FnOpt)
    ensures r.Nil? <==> vals.List? && |vals.items| == 0
    ensures !r.Nil? ==> r == In(column, vals)
  {
    if vals.List? && |vals.items| == 0 then Nil else In(column, vals)
  }

  // ---------------------------------------------------------------------
  // Predicates and transforms
  // ---------------------------------------------------------------------

  predicate IsFn(o: Opt) { |o.fns| > 0 }
  predicate IsPaging(o: Opt) { o.pageSize > 0 || o.page > 0 }
  predicate IsSorting(o: Opt) { o.sortOrder != "" && o.sortBy != "" }
  predicate IsFilter(o: Opt) { |o.filter| > 0 }

  /** Opt.ApplyFilter; a nil Opt leaves the query alone. */
  function ApplyFilter(o: Option<Opt>, q: Query): Step
  {
    if o.Some? && IsFilter(o.value) then Filters.Apply(o.value.filter, q) else Done(q)
  }

  /** Opt.ApplyFn */
  function ApplyFn(o: Option<Opt>, q: Query): Query
  {
    if o.Some? && IsFn(o.value) then RunAll(q, o.value.fns) else q
  }

  /** The pager ApplyPaging uses. */
  function PagerOf(o: Opt): Pagers.Pager
  {
    Pagers.NewPagerWithPageSize(o.page, o.pageSize)
  }

  /** Opt.ApplyPaging: the page window, then the sort expression; an
      unknown sort direction yields a nil expression, which panics. */
  function ApplyPaging(o: Option<Opt>, q: Query): Step
  {
    if o.None? then Done(q)
    else
      var opt := o.value;
      var q1 := if IsPaging(opt) then Run(q, Pagers.GetApplyFn(PagerOf(opt))) else q;
      if IsSorting(opt) then Orders.Apply([Orders.Expr(opt.sortBy, opt.sortOrder)], q1) else Done(q1)
  }

  /** Opt.Apply: filter, then custom transforms, then paging and sorting. */
  function Apply(o: Option<Opt>, q: Query): Step
  {
    match ApplyFilter(o, q)
    case Panic(why) => Panic(why)
    case Done(q1) => ApplyPaging(o, ApplyFn(o, q1))
  }

  /** The package-level ApplyFilter, ApplyPaging and Apply: New, then the
      method; a panic in New aborts too. */
  function ApplyFilterOf(fns: seq<FnOpt>, q: Query): Step
  {
    var o := New(fns);
    if o.Err? then Panic(o.error) else ApplyFilter(Some(o.value), q)
  }

  function ApplyPagingOf(fns: seq<FnOpt>, q: Query): Step
  {
    var o := New(fns);
    if o.Err? then Panic(o.error) else ApplyPaging(Some(o.value), q)
  }

  function ApplyOf(fns: seq<FnOpt>, q: Query): Step
  {
    var o := New(fns);
    if o.Err? then Panic(o.error) else Apply(Some(o.value), q)
  }
}

/** What assembling and applying options guarantees. */
module OptFacts {
  import opened Results
  import opened Values
  import opened Queries
  import opened Conditions
  import opened Opts
  import Filters
  import Orders
  import Pagers
  import Text

  /** Applying two lists of option functions one after the other is
      applying their concatenation; a panic stops everything. */
  lemma {:induction false} NewFromAppend(o: Opt, f1: seq<FnOpt>, f2: seq<FnOpt>)
    ensures NewFrom(o, f1 + f2) ==
      (var r := NewFrom(o, f1); if r.Err? then r else NewFrom(r.value, f2))
    decreases |f1|
  {
    if |f1| == 0 {
      assert f1 + f2 == f2;
    } else {
      assert (f1 + f2)[0] == f1[0];
      assert (f1 + f2)[1..] == f1[1..] + f2;
      if f1[0].Nil? {
        NewFromAppend(o, f1[1..], f2);
      } else {
        var next := ApplyOpt(o, f1[0]);
        if next.Ok? {
          NewFromAppend(next.value, f1[1..], f2);
        }
      }
    }
  }

  /** Conditions only accumulate: the filter built so far is a prefix of
      the final one. */
  lemma {:induction false} FilterGrows(o: Opt, fns: seq<FnOpt>)
    ensures NewFrom(o, fns).Ok? ==>
      |o.filter| <= |NewFrom(o, fns).value.filter| &&
      NewFrom(o, fns).value.filter[..|o.filter|] == o.filter
    decreases |fns|
  {
    if |fns| > 0 {
      if fns[0].Nil? {
        FilterGrows(o, fns[1..]);
      } else {
        var next := ApplyOpt(o, fns[0]);
        if next.Ok? {
          assert |o.filter| <= |next.value.filter| && next.value.filter[..|o.filter|] == o.filter;
          FilterGrows(next.value, fns[1..]);
        }
      }
    }
  }

  /** Condition builders alone produce exactly their conditions, in
      order, and leave everything else blank. */
  lemma {:induction false} ConditionsInOrder(o: Opt, fns: seq<FnOpt>)
    requires forall i :: 0 <= i < |fns| ==> fns[i].AddCond?
    ensures NewFrom(o, fns).Ok?
    ensures NewFrom(o, fns).value ==
      o.(filter := o.filter + seq(|fns|, i requires 0 <= i < |fns| => fns[i].cond))
    decreases |fns|
  {
    var all := seq(|fns|, i requires 0 <= i < |fns| => fns[i].cond);
    if |fns| == 0 {
      assert o.filter + all == o.filter;
    } else {
      var o' := o.(filter := o.filter + [fns[0].cond]);
      ConditionsInOrder(o', fns[1..]);
      var rest := seq(|fns[1..]|, i requires 0 <= i < |fns[1..]| => fns[1..][i].cond);
      assert all == [fns[0].cond] + rest;
      assert o.filter + [fns[0].cond] + rest == o.filter + all;
    }
  }

  /** New over two option functions applies the first, then the second. */
  lemma NewOfTwo(f: FnOpt, g: FnOpt)
    ensures New([f, g]) ==
      (var r := NewFrom(Blank, [f]); if r.Err? then r else NewFrom(r.value, [g]))
  {
    assert [f, g] == [f] + [g];
    NewFromAppend(Blank, [f], [g]);
  }

  /** A later setting overwrites an earlier one. */
  lemma LaterSettingWins(a: int, b: int, c1: string, c2: string)
    ensures New([Page(a), Page(b)]).Ok? && New([Page(a), Page(b)]).value.page == b
    ensures New([Paging(a, a), PageSize(b)]).Ok? && New([Paging(a, a), PageSize(b)]).value.pageSize == b
    ensures New([Asc(c1), Desc(c2)]).Ok? && New([Asc(c1), Desc(c2)]).value.sortBy == c2
    ensures New([Asc(c1), Desc(c2)]).value.sortOrder == Orders.DirName(Orders.Desc)
  {
    NewOfTwo(Page(a), Page(b));
    NewOfTwo(Paging(a, a), PageSize(b));
    NewOfTwo(Asc(c1), Desc(c2));
  }

  /** Or, And and Not append one combined condition and discard whatever
      paging, sorting and custom transforms their members set. */
  lemma GroupKeepsOnlyConditions(o: Opt, k: GroupKind, members: seq<FnOpt>)
    requires New(members).Ok?
    ensures ApplyOpt(o, Group(k, members)).Ok?
    ensures var r := ApplyOpt(o, Group(k, members)).value;
      var cs := New(members).value.filter;
      r.page == o.page && r.pageSize == o.pageSize && r.sortBy == o.sortBy &&
      r.sortOrder == o.sortOrder && r.fns == o.fns &&
      r.filter == o.filter + [match k case AnyOf => Or(cs) case AllOf => And(cs) case NoneOf => Not(cs)]
  {
  }

  /** Every direction name is already upper case and trimmed. */
  lemma DirNameCanonical(d: Orders.Direction)
    ensures Text.TrimSpace(Orders.DirName(d)) == Orders.DirName(d)
    ensures Text.ToUpper(Orders.DirName(d)) == Orders.DirName(d)
  {
    var s := Orders.DirName(d);
    assert !Text.IsSpace(s[0]) && !Text.IsSpace(s[|s| - 1]);
    assert Text.TrimLeft(s) == s;
    UpperCaseFixed(s);
  }

  /** Text with no lower-case letter is its own upper case. */
  lemma UpperCaseFixed(s: string)
    requires forall i :: 0 <= i < |s| ==> !('a' <= s[i] <= 'z')
    ensures Text.ToUpper(s) == s
  {
  }

  /** Order round trip: "column direction" sets exactly that column and
      direction; a bare column sorts ascending. */
  lemma ParseOrderRoundTrip(column: string, d: Orders.Direction)
    requires ' ' !in column
    ensures ParseOrder(column + " " + Orders.DirName(d)) == Ok((column, Orders.DirName(d)))
    ensures ParseOrder(column) == Ok((column, Orders.DirName(Orders.Asc)))
  {
    var spec := column + " " + Orders.DirName(d);
    assert spec[|column|] == ' ';
    assert forall i :: 0 <= i < |column| ==> spec[i] == column[i];
    assert Text.IndexOfSpace(spec) == |column|;
    assert spec[..|column|] == column;
    assert spec[|column| + 1..] == Orders.DirName(d);
    DirNameCanonical(d);
    Orders.ExprRoundTrip(column, d);
    assert forall i :: 0 <= i < |column| ==> column[i] != ' ';
  }

  /** Order panics exactly when the text after the first space is not a
      direction once trimmed and upper-cased. */
  lemma ParseOrderRejects(spec: string)
    ensures var k := Text.IndexOfSpace(spec);
      ParseOrder(spec).Err? <==>
        k >= 0 && Orders.Expr("", Text.ToUpper(Text.TrimSpace(spec[k + 1..]))).None?
  {
    var k := Text.IndexOfSpace(spec);
    if k >= 0 {
      Orders.ExprIgnoresField(spec[..k], "", Text.ToUpper(Text.TrimSpace(spec[k + 1..])));
    }
  }

  /** Option functions whose conditions are well-formed, as the builders
      make them (JsonEq's value aside, every builder's condition is). */
  predicate Sound(fn: FnOpt)
    decreases fn
  {
    match fn
    case AddCond(c) => WellFormed(c)
    case Group(_, ms) => forall i :: 0 <= i < |ms| ==> Sound(ms[i])
    case _ => true
  }

  /** Options whose filter renders and whose sort, when set, names a
      direction. */
  predicate OptSound(o: Opt)
  {
    (forall i :: 0 <= i < |o.filter| ==> WellFormed(o.filter[i])) &&
    (o.sortOrder == "" || Orders.Expr(o.sortBy, o.sortOrder).Some?)
  }

  lemma {:induction false} ApplyOptSound(o: Opt, fn: FnOpt)
    requires OptSound(o) && Sound(fn) && ApplyOpt(o, fn).Ok?
    ensures OptSound(ApplyOpt(o, fn).value)
    decreases fn
  {
    match fn
    case SortAsc(c) => Orders.ExprRoundTrip(c, Orders.Asc);
    case SortDesc(c) => Orders.ExprRoundTrip(c, Orders.Desc);
    case SortSpec(spec) =>
      var parsed := ParseOrder(spec).value;
      assert Orders.Expr(parsed.0, parsed.1).Some?;
    case AddCond(c) =>
      var r := ApplyOpt(o, fn).value;
      assert r.filter == o.filter + [c];
    case Group(k, ms) =>
      NewFromSound(Blank, ms);
      var cs := NewFrom(Blank, ms).value.filter;
      var g := match k case AnyOf => Or(cs) case AllOf => And(cs) case NoneOf => Not(cs);
      assert WellFormed(g);
      assert ApplyOpt(o, fn).value.filter == o.filter + [g];
    case _ =>
  }

  lemma {:induction false} NewFromSound(o: Opt, fns: seq<FnOpt>)
    requires OptSound(o) && forall i :: 0 <= i < |fns| ==> Sound(fns[i])
    requires NewFrom(o, fns).Ok?
    ensures OptSound(NewFrom(o, fns).value)
    decreases fns
  {
    if |fns| > 0 {
      if fns[0].Nil? {
        NewFromSound(o, fns[1..]);
      } else {
        ApplyOptSound(o, fns[0]);
        NewFromSound(ApplyOpt(o, fns[0]).value, fns[1..]);
      }
    }
  }

  /** The stages of Opt.Apply: the filter adds its WHERE clauses, the
      custom transforms run in order, the page window is set when paging,
      and one ORDER BY is added when sorting. It panics exactly when a
      condition cannot render or the sort direction is unknown. */
  lemma ApplyStages(o: Opt, q: Query)
    ensures Apply(Some(o), q).Done? <==>
      (IsFilter(o) ==> Filters.AllRender(o.filter)) &&
      (IsSorting(o) ==> Orders.Expr(o.sortBy, o.sortOrder).Some?)
    ensures Apply(Some(o), q).Done? ==>
      var r := Apply(Some(o), q).q;
      r.wheres == q.wheres + (if IsFilter(o) then Filters.Wheres(o.filter) else []) &&
      r.trace == q.trace + (if IsFn(o) then CustomIds(o.fns) else []) &&
      (IsPaging(o) ==>
        r.offset == Some(Pagers.GetOffset(PagerOf(o))) && r.limit == Some(Pagers.GetLimit(PagerOf(o)))) &&
      (!IsPaging(o) && (IsFn(o) ==> forall i :: 0 <= i < |o.fns| ==> o.fns[i].Custom?) ==>
        r.offset == q.offset && r.limit == q.limit) &&
      r.orders == q.orders + (if IsSorting(o) then [Orders.OrderBy(Orders.Expr(o.sortBy, o.sortOrder).value)] else [])
  {
    var f := ApplyFilter(Some(o), q);
    FilterFnStage(o, q);
    if f.Done? {
      PagingStage(o, ApplyFn(Some(o), f.q));
    }
  }

  /** The filter and custom-transform stages of Apply. */
  lemma FilterFnStage(o: Opt, q: Query)
    ensures ApplyFilter(Some(o), q).Done? <==> (IsFilter(o) ==> Filters.AllRender(o.filter))
    ensures ApplyFilter(Some(o), q).Done? ==>
      var r := ApplyFn(Some(o), ApplyFilter(Some(o), q).q);
      r.wheres == q.wheres + (if IsFilter(o) then Filters.Wheres(o.filter) else []) &&
      r.trace == q.trace + (if IsFn(o) then CustomIds(o.fns) else []) &&
      r.orders == q.orders &&
      ((IsFn(o) ==> forall i :: 0 <= i < |o.fns| ==> o.fns[i].Custom?) ==>
        r.offset == q.offset && r.limit == q.limit)
  {
    var f := ApplyFilter(Some(o), q);
    if f.Done? {
      if IsFn(o) { RunAllTrace(f.q, o.fns); }
      assert IsFilter(o) ==> f.q == q.(wheres := q.wheres + Filters.Wheres(o.filter));
    }
  }

  /** The paging and sorting stage of Apply. */
  lemma PagingStage(o: Opt, q: Query)
    ensures ApplyPaging(Some(o), q).Done? <==> (IsSorting(o) ==> Orders.Expr(o.sortBy, o.sortOrder).Some?)
    ensures ApplyPaging(Some(o), q).Done? ==>
      var r := ApplyPaging(Some(o), q).q;
      r.wheres == q.wheres && r.trace == q.trace &&
      (IsPaging(o) ==>
        r.offset == Some(Pagers.GetOffset(PagerOf(o))) && r.limit == Some(Pagers.GetLimit(PagerOf(o)))) &&
      (!IsPaging(o) ==> r.offset == q.offset && r.limit == q.limit) &&
      r.orders == q.orders + (if IsSorting(o) then [Orders.OrderBy(Orders.Expr(o.sortBy, o.sortOrder).value)] else [])
  {
    var q1 := if IsPaging(o) then Run(q, Pagers.GetApplyFn(PagerOf(o))) else q;
    assert q1.wheres == q.wheres && q1.trace == q.trace && q1.orders == q.orders;
    if IsSorting(o) {
      var e := Orders.Expr(o.sortBy, o.sortOrder);
      var r := Orders.Apply([e], q1);
      if r.Done? {
        assert r.q.orders == q1.orders + [Orders.OrderBy(e.value)];
      }
    }
  }

  /** A nil Opt leaves the query as it is. */
  lemma NilOptIsIdentity(q: Query)
    ensures Apply(None, q) == Done(q)
    ensures ApplyFilter(None, q) == Done(q) && ApplyPaging(None, q) == Done(q) && ApplyFn(None, q) == q
  {
  }

  /** Options assembled from builder-made option functions never panic
      when applied. */
  lemma BuiltOptionsNeverPanic(fns: seq<FnOpt>, q: Query)
    requires forall i :: 0 <= i < |fns| ==> Sound(fns[i])
    requires New(fns).Ok?
    ensures ApplyOf(fns, q).Done?
  {
    var o := New(fns).value;
    NewFromSound(Blank, fns);
    Filters.WellFormedFilter(o.filter, q);
    ApplyStages(o, q);
  }
}
