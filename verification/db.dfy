/** PerformTransaction (db.go): begin a transaction, run the functions in
    order on the transactional client, roll back at the first failure, and
    commit when all succeed. Each function is given by the error it
    returns; the database by the errors of Begin and Commit. Rollback's own
    error is discarded. */
module Transactions {
  import opened Results
  import opened Errors

  /** What happens on the database and to the functions, in order. */
  datatype Event = Begin | Call(index: nat) | Commit | Rollback

  /** Calls of the functions numbered lo .. hi - 1, in order. */
  function Calls(lo: nat, hi: nat): (r: seq<Event>)
    requires lo <= hi
    ensures |r| == hi - lo
    ensures forall j :: 0 <= j < |r| ==> r[j] == Call(lo + j)
    decreases hi - lo
  {
    if lo == hi then [] else [Call(lo)] + Calls(lo + 1, hi)
  }

  /** The index of the first failing function at or after `i`, or the
      number of functions when none fails. */
  function FirstFailure(outcomes: seq<Option<GoError>>, i: nat): (k: nat)
    requires i <= |outcomes|
    ensures i <= k <= |outcomes|
    ensures k < |outcomes| ==> outcomes[k].Some?
    ensures forall j :: i <= j < k ==> outcomes[j].None?
    decreases |outcomes| - i
  {
    if i == |outcomes| || outcomes[i].Some? then i else FirstFailure(outcomes, i + 1)
  }

  /** The outcome PerformTransaction promises: the error it returns and the
      events it causes. */
  function Expected(beginErr: Option<GoError>, outcomes: seq<Option<GoError>>, commitErr: Option<GoError>)
    : (Option<GoError>, seq<Event>)
  {
    if beginErr.Some? then (beginErr, [Begin])
    else
      var k := FirstFailure(outcomes, 0);
      if k < |outcomes| then (outcomes[k], [Begin] + Calls(0, k + 1) + [Rollback])
      else (commitErr, [Begin] + Calls(0, |outcomes|) + [Commit])
  }

  /** PerformTransaction */
  method PerformTransaction(beginErr: Option<GoError>, outcomes: seq<Option<GoError>>, commitErr: Option<GoError>)
    returns (err: Option<GoError>, trace: seq<Event>)
    ensures (err, trace) == Expected(beginErr, outcomes, commitErr)
  {
    trace := [Begin];
    if beginErr.Some? {
      return beginErr, trace;
    }
    var i := 0;
    while i < |outcomes|
      invariant 0 <= i <= |outcomes|
      invariant forall j :: 0 <= j < i ==> outcomes[j].None?
      invariant trace == [Begin] + Calls(0, i)
    {
      trace := trace + [Call(i)];
      assert Calls(0, i) + [Call(i)] == Calls(0, i + 1);
      assert trace == [Begin] + Calls(0, i + 1);
      if outcomes[i].Some? {
        assert FirstFailure(outcomes, 0) == i by { FirstFailureAt(outcomes, 0, i); }
        return outcomes[i], trace + [Rollback];
      }
      i := i + 1;
    }
    FirstFailureAt(outcomes, 0, |outcomes|);
    return commitErr, trace + [Commit];
  }

  /** The first failure is the index where the outcomes first fail. */
  lemma {:induction false} FirstFailureAt(outcomes: seq<Option<GoError>>, i: nat, k: nat)
    requires i <= k <= |outcomes|
    requires forall j :: i <= j < k ==> outcomes[j].None?
    requires k < |outcomes| ==> outcomes[k].Some?
    ensures FirstFailure(outcomes, i) == k
    decreases k - i
  {
    if i < k {
      FirstFailureAt(outcomes, i + 1, k);
    }
  }

  /** Once begun, a transaction ends in exactly one commit or one rollback:
      a commit exactly when every function succeeded. The functions run in
      order, each at most once, up to and including the first failure. */
  lemma TransactionEnds(beginErr: Option<GoError>, outcomes: seq<Option<GoError>>, commitErr: Option<GoError>)
    requires beginErr.None?
    ensures var trace := Expected(beginErr, outcomes, commitErr).1;
      |trace| >= 2 && trace[0] == Begin &&
      (trace[|trace| - 1] == Commit <==> forall j :: 0 <= j < |outcomes| ==> outcomes[j].None?) &&
      (trace[|trace| - 1] == Commit || trace[|trace| - 1] == Rollback) &&
      (forall j :: 1 <= j < |trace| - 1 ==> trace[j] == Call(j - 1))
  {
    var k := FirstFailure(outcomes, 0);
    var trace := Expected(beginErr, outcomes, commitErr).1;
    if k < |outcomes| {
      assert trace == [Begin] + Calls(0, k + 1) + [Rollback];
      assert outcomes[k].Some?;
    } else {
      assert trace == [Begin] + Calls(0, |outcomes|) + [Commit];
    }
  }

  /** With no functions, PerformTransaction begins and commits. */
  lemma NoFunctions(commitErr: Option<GoError>)
    ensures Expected(None, [], commitErr) == (commitErr, [Begin, Commit])
  {
    assert Calls(0, 0) == [];
    assert [Begin] + Calls(0, 0) + [Commit] == [Begin, Commit];
  }
}
