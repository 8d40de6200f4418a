/** repository/filter: a filter is a list of conditions, each added to the
    query as one WHERE clause. */
module Filters {
  import opened Results
  import opened Values
  import opened Queries
  import opened Conditions
  import Text

  /** The WHERE clause a condition contributes. */
  function Where(c: Cond): Clause
    requires Renders(c)
  {
    Clause(Fragment(c), Params(c))
  }

  /** Every condition of the filter renders. */
  predicate AllRender(f: seq<Cond>)
  {
    forall i :: 0 <= i < |f| ==> Renders(f[i])
  }

  /** The WHERE clauses of a filter, in order. */
  function Wheres(f: seq<Cond>): (r: seq<Clause>)
    requires AllRender(f)
    ensures |r| == |f|
  {
    seq(|f|, i requires 0 <= i < |f| => Where(f[i]))
  }

  lemma AllRenderTail(f: seq<Cond>)
    requires |f| > 0
    ensures AllRender(f) <==> Renders(f[0]) && AllRender(f[1..])
  {
    if Renders(f[0]) && AllRender(f[1..]) {
      forall i | 0 <= i < |f| ensures Renders(f[i]) {
        if i > 0 { assert f[i] == f[1..][i - 1]; }
      }
    }
  }

  lemma WheresTail(f: seq<Cond>)
    requires |f| > 0 && AllRender(f)
    ensures AllRender(f[1..]) && Wheres(f) == [Where(f[0])] + Wheres(f[1..])
  {
    AllRenderTail(f);
  }

  /** Filter.Apply: one WHERE per condition, in order, and nothing else
      changes. Rendering a condition that cannot be rendered panics, which
      aborts the whole query build. */
  function Apply(f: seq<Cond>, q: Query): (r: Step)
    ensures r.Done? <==> AllRender(f)
    ensures r.Done? ==> r.q == q.(wheres := q.wheres + Wheres(f))
    decreases |f|
  {
    if |f| == 0 then Done(q)
    else if !Renders(f[0]) then
      AllRenderTail(f);
      Panic("condition cannot be rendered")
    else
      var r := Apply(f[1..], q.(wheres := q.wheres + [Where(f[0])]));
      AllRenderTail(f);
      if r.Done? then
        WheresTail(f);
        assert q.wheres + [Where(f[0])] + Wheres(f[1..]) == q.wheres + Wheres(f);
        r
      else r
  }

  /** Continues a query build that has not panicked. */
  function Then(s: Step, f: seq<Cond>): Step
  {
    match s
    case Done(q) => Apply(f, q)
    case Panic(why) => Panic(why)
  }

  /** Applying two filters one after the other is applying their
      concatenation. */
  lemma {:induction false} ApplyAppend(f1: seq<Cond>, f2: seq<Cond>, q: Query)
    ensures Apply(f1 + f2, q) == Then(Apply(f1, q), f2)
    decreases |f1|
  {
    if |f1| == 0 {
      assert f1 + f2 == f2;
    } else {
      assert (f1 + f2)[0] == f1[0];
      assert (f1 + f2)[1..] == f1[1..] + f2;
      if Renders(f1[0]) {
        ApplyAppend(f1[1..], f2, q.(wheres := q.wheres + [Where(f1[0])]));
      }
    }
  }

  /** A filter of well-formed conditions never panics, and every WHERE
      clause it adds binds exactly as many parameters as it has
      placeholders. */
  lemma WellFormedFilter(f: seq<Cond>, q: Query)
    requires forall i :: 0 <= i < |f| ==> WellFormed(f[i])
    ensures AllRender(f) && Apply(f, q).Done?
    ensures forall i :: 0 <= i < |f| ==>
      Text.Placeholders(Wheres(f)[i].fragment) == |Wheres(f)[i].params|
  {
    forall i | 0 <= i < |f| ensures Renders(f[i]) && Text.Placeholders(Fragment(f[i])) == |Params(f[i])| {
      PlaceholdersMatchParams(f[i]);
    }
  }
}
