/** The advisory-lock mutex (mutex.go) over an abstract lock table: each
    session-level advisory lock key is held by one database session with a
    count (PostgreSQL's session-level advisory locks stack). A Mutex
    works through a pool of one connection, hence one session. The errors
    the two statements may report are parameters. */
module Mutexes {
  import opened Results
  import opened Errors

  /** 2^32: a bigint advisory key is shown in pg_locks split into two
      32-bit halves. */
  const Two32: int := 0x1_0000_0000

  /** The holder of a key and how many times it acquired it. */
  datatype Hold = Hold(session: nat, count: nat)

  /** The server's advisory locks, by key. */
  type Locks = map<int, Hold>

  /** Every held key has been acquired at least once. */
  predicate LocksOk(locks: Locks)
  {
    forall k :: k in locks ==> locks[k].count >= 1
  }

  /** Mutex: the session of its one-connection pool and the lock key. */
  datatype Mutex = Mutex(session: nat, lockID: int)

  const PoolSizeError := "pool size for mutex cannot be greater than 1"

  /** NewMutex: refuses a pool of more than one connection. */
  function NewMutex(poolSize: int, session: nat, id: int): (r: Result<Mutex, string>)
    ensures r.Err? <==> poolSize > 1
    ensures r.Ok? ==> r.value.session == session && r.value.lockID == id
  {
    if poolSize > 1 then Err(PoolSizeError) else Ok(Mutex(session, id))
  }

  /** The objid column of a bigint key's pg_locks row: its low 32 bits. */
  function ObjId(key: int): (r: int)
    ensures 0 <= r < Two32
  {
    key % Two32
  }

  /** The session holds `key` itself. */
  predicate Held(locks: Locks, session: nat, key: int)
  {
    key in locks && locks[key].session == session
  }

  /** 2^31: the bound of the int4 range. */
  const Two31: int := 0x8000_0000

  /** The lock IDs the held-check can compare with `objid`. The ID is
      written into the statement as an integer literal, typed int4 when it
      fits 32 signed bits and int8 otherwise. An int4 is reinterpreted as an
      oid (-1 reads as 2^32 - 1); an int8 is converted to oid and must lie
      in 0 .. 2^32 - 1. */
  predicate OidComparable(lockID: int)
  {
    -Two31 <= lockID < Two32
  }

  /** What PostgreSQL reports when an int8 does not convert to oid. */
  const OidOutOfRange: GoError := PgError("22003", "ERROR", "OID out of range")

  /** The held-check as written, for an ID in the comparable range: some
      advisory lock of the session has objid equal to the ID read as an
      oid, that is, the same low 32 bits. */
  predicate HeldAsWritten(locks: Locks, session: nat, lockID: int)
  {
    exists k :: k in locks && locks[k].session == session && ObjId(k) == ObjId(lockID)
  }

  /** pg_try_advisory_lock: free keys are taken, a key the session holds
      is taken once more, a key of another session is refused. */
  function TryAcquire(locks: Locks, session: nat, key: int): (r: (bool, Locks))
    ensures r.0 <==> !(key in locks && locks[key].session != session)
    ensures r.0 ==> r.1 == locks[key := Hold(session, if key in locks then locks[key].count + 1 else 1)]
    ensures !r.0 ==> r.1 == locks
  {
    if key in locks && locks[key].session != session then (false, locks)
    else if key in locks then (true, locks[key := Hold(session, locks[key].count + 1)])
    else (true, locks[key := Hold(session, 1)])
  }

  /** pg_advisory_unlock: the session's hold on the key is released once;
      a key it does not hold is left alone. */
  function Release(locks: Locks, session: nat, key: int): (r: Locks)
    ensures !Held(locks, session, key) ==> r == locks
    ensures Held(locks, session, key) && locks[key].count <= 1 ==> r == locks - {key}
    ensures Held(locks, session, key) && locks[key].count > 1 ==> r == locks[key := Hold(session, locks[key].count - 1)]
  {
    if !Held(locks, session, key) then locks
    else if locks[key].count <= 1 then locks - {key}
    else locks[key := Hold(session, locks[key].count - 1)]
  }

  /** The result of TryLock: whether the lock is reported held, the error,
      and the lock table afterwards. */
  datatype LockResult = LockResult(ok: bool, err: Option<GoError>, locks: Locks)

  /** TryLock as written. `checkErr` and `acquireErr` are the errors the
      two statements report for reasons other than the ID's range; an ID
      outside the comparable range makes the held-check fail. */
  function TryLockAsWritten(m: Mutex, locks: Locks, checkErr: Option<GoError>, acquireErr: Option<GoError>): LockResult
  {
    if checkErr.Some? then LockResult(false, checkErr, locks)
    else if !OidComparable(m.lockID) then LockResult(false, Some(OidOutOfRange), locks)
    else if HeldAsWritten(locks, m.session, m.lockID) then LockResult(true, None, locks)
    else if acquireErr.Some? then LockResult(false, acquireErr, locks)
    else
      var (ok, after) := TryAcquire(locks, m.session, m.lockID);
      LockResult(ok, None, after)
  }

  /** TryLock, corrected: the held-check looks for the lock ID itself. */
  function TryLock(m: Mutex, locks: Locks, checkErr: Option<GoError>, acquireErr: Option<GoError>): (r: LockResult)
    ensures checkErr.Some? ==> r == LockResult(false, checkErr, locks)
    ensures checkErr.None? && Held(locks, m.session, m.lockID) ==> r == LockResult(true, None, locks)
    ensures checkErr.None? && !Held(locks, m.session, m.lockID) && acquireErr.Some? ==>
      r == LockResult(false, acquireErr, locks)
  {
    if checkErr.Some? then LockResult(false, checkErr, locks)
    else if Held(locks, m.session, m.lockID) then LockResult(true, None, locks)
    else if acquireErr.Some? then LockResult(false, acquireErr, locks)
    else
      var (ok, after) := TryAcquire(locks, m.session, m.lockID);
      LockResult(ok, None, after)
  }

  /** Unlock: releases one hold; only the statement's error is reported. */
  function Unlock(m: Mutex, locks: Locks, err: Option<GoError>): (r: (Option<GoError>, Locks))
    ensures r.0 == err
    ensures r.1 == Release(locks, m.session, m.lockID)
  {
    (err, Release(locks, m.session, m.lockID))
  }

  /** Mutual exclusion: TryLock reports success exactly when afterwards the
      session holds the key and no other session does, and failure without
      an error exactly when another session holds it. Other keys are
      untouched, and the table stays well formed. */
  lemma TryLockExclusive(m: Mutex, locks: Locks)
    requires LocksOk(locks)
    ensures var r := TryLock(m, locks, None, None);
      r.err.None? &&
      (r.ok <==> !(m.lockID in locks && locks[m.lockID].session != m.session)) &&
      (r.ok ==> Held(r.locks, m.session, m.lockID)) &&
      (!r.ok ==> r.locks == locks) &&
      (forall k :: k != m.lockID ==> (k in r.locks <==> k in locks)) &&
      (forall k :: k != m.lockID && k in locks ==> r.locks[k] == locks[k]) &&
      LocksOk(r.locks)
  {
  }

  /** A repeated TryLock does not stack: TryLock, TryLock, Unlock on a free
      key leaves it free. */
  lemma RepeatedTryLockDoesNotStack(m: Mutex, locks: Locks)
    requires m.lockID !in locks
    ensures var first := TryLock(m, locks, None, None);
      var second := TryLock(m, first.locks, None, None);
      first.ok && second.ok &&
      m.lockID !in Unlock(m, second.locks, None).1
  {
    var first := TryLock(m, locks, None, None);
    assert first.locks == locks[m.lockID := Hold(m.session, 1)];
    assert Held(first.locks, m.session, m.lockID);
  }

  /** The lock taken by one session is refused to another until released,
      then granted (two connections in turn, as the tests run them). */
  lemma SecondSessionRefused(id: int, s1: nat, s2: nat)
    requires s1 != s2
    ensures var a := TryLock(Mutex(s1, id), map[], None, None);
      var b := TryLock(Mutex(s2, id), a.locks, None, None);
      var c := TryLock(Mutex(s2, id), Unlock(Mutex(s1, id), a.locks, None).1, None, None);
      a.ok && !b.ok && c.ok
  {
    var a := TryLock(Mutex(s1, id), map[], None, None);
    assert a.locks == map[id := Hold(s1, 1)];
    var freed := Unlock(Mutex(s1, id), a.locks, None).1;
    assert freed == map[];
  }

  /** As written, a session holding the key 2^32 + 111 is told it holds
      111, which it does not; a second session then takes 111 as well, so
      both believe they hold the lock. */
  lemma HeldCheckConflatesKeys()
    ensures var locks := map[Two32 + 111 := Hold(1, 1)];
      var mine := TryLockAsWritten(Mutex(1, 111), locks, None, None);
      var theirs := TryLockAsWritten(Mutex(2, 111), mine.locks, None, None);
      mine.ok && !Held(mine.locks, 1, 111) && theirs.ok && Held(theirs.locks, 2, 111)
  {
    var locks := map[Two32 + 111 := Hold(1, 1)];
    assert ObjId(Two32 + 111) == 111 == ObjId(111);
    assert HeldAsWritten(locks, 1, 111);
    var mine := TryLockAsWritten(Mutex(1, 111), locks, None, None);
    assert !HeldAsWritten(mine.locks, 2, 111) by {
      forall k | k in mine.locks ensures mine.locks[k].session != 2 {
      }
    }
  }

  /** `n` TryLocks in a row as written, with no other statement errors. */
  function TryLockRepeatedAsWritten(m: Mutex, locks: Locks, n: nat): Locks
    decreases n
  {
    if n == 0 then locks
    else TryLockRepeatedAsWritten(m, TryLockAsWritten(m, locks, None, None).locks, n - 1)
  }

  /** As written, a lock ID of 2^32 or more, or below -2^31, never locks:
      every TryLock fails with an error and leaves the lock table as it
      was, however often it is repeated. */
  lemma {:induction false} LargeKeyNeverLocks(m: Mutex, locks: Locks, checkErr: Option<GoError>, acquireErr: Option<GoError>, n: nat)
    requires !OidComparable(m.lockID)
    ensures var r := TryLockAsWritten(m, locks, checkErr, acquireErr);
      !r.ok && r.err.Some? && r.locks == locks &&
      (checkErr.None? ==> r.err == Some(OidOutOfRange))
    ensures TryLockRepeatedAsWritten(m, locks, n) == locks
    decreases n
  {
    if n > 0 {
      LargeKeyNeverLocks(m, locks, None, None, n - 1);
    }
  }

  /** For an ID in the comparable range (-2^31 .. 2^32 - 1) and a session
      holding no other key with the same low half, the check as written and
      the corrected one agree. */
  lemma AgreesOnPlainKeys(m: Mutex, locks: Locks, checkErr: Option<GoError>, acquireErr: Option<GoError>)
    requires OidComparable(m.lockID)
    requires forall k :: k in locks && locks[k].session == m.session && k != m.lockID ==> ObjId(k) != ObjId(m.lockID)
    ensures TryLockAsWritten(m, locks, checkErr, acquireErr) == TryLock(m, locks, checkErr, acquireErr)
  {
    assert HeldAsWritten(locks, m.session, m.lockID) <==> Held(locks, m.session, m.lockID);
  }
}
