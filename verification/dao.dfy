/** The data access object (repository/dao): transactions, the queries the
    finders build, and the argument checks and clauses of the updates and
    the upsert. The database is a parameter: a function from the statement
    a call builds to the error the database reports for it. */
module Dao {
  import opened Results
  import opened Values
  import opened Queries
  import opened Errors
  import Converter
  import Transactions
  import Opts
  import Filters
  import Text

  /** How a DAO call ends: it returns an error (or nil), or it panics. */
  datatype Outcome = Returned(err: Option<GoError>) | Panicked(reason: string)

  /** pkgerr.Convert applied to a driver error, as the DAO returns it. */
  function Converted(e: GoError): GoError
  {
    Pkg(Converter.Convert(e))
  }

  /** A database error converted; no error stays no error. */
  function ConvertedOpt(e: Option<GoError>): Option<GoError>
  {
    if e.Some? then Some(Converted(e.value)) else None
  }

  // ---------------------------------------------------------------------
  // WithTX
  // ---------------------------------------------------------------------

  /** WithTX. `inTx` says whether the client in the context already has a
      transaction; `beginErr` and `commitErr` are what Begin and Commit
      report; `body` is what fn returns. A rollback failure is only logged,
      so it does not appear. */
  function WithTX(inTx: bool, beginErr: Option<GoError>, body: Option<GoError>, commitErr: Option<GoError>)
    : (r: (Option<GoError>, seq<Transactions.Event>))
    ensures inTx ==> r == (body, [Transactions.Call(0)])
    ensures !inTx && beginErr.Some? ==> r == (Some(Converted(beginErr.value)), [Transactions.Begin])
    ensures !inTx && beginErr.None? ==>
      r.1 == Transactions.Expected(None, [body], commitErr).1 &&
      r.0 == (if body.Some? then body else ConvertedOpt(commitErr))
  {
    if inTx then (body, [Transactions.Call(0)])
    else if beginErr.Some? then (Some(Converted(beginErr.value)), [Transactions.Begin])
    else if body.Some? then (body, [Transactions.Begin, Transactions.Call(0), Transactions.Rollback])
    else (ConvertedOpt(commitErr), [Transactions.Begin, Transactions.Call(0), Transactions.Commit])
  }

  /** Number of occurrences of `e` in `trace`. */
  function Count(trace: seq<Transactions.Event>, e: Transactions.Event): nat
  {
    if |trace| == 0 then 0
    else (if trace[0] == e then 1 else 0) + Count(trace[1..], e)
  }

  /** A WithTX inside a WithTX joins the outer transaction: an inner failure
      is returned unchanged by both, with one begin, one rollback and no
      commit in all. */
  lemma NestedFailureRollsBackOnce(innerErr: GoError, commitErr: Option<GoError>)
    ensures var inner := WithTX(true, None, Some(innerErr), commitErr);
      var outer := WithTX(false, None, inner.0, commitErr);
      inner.1 == [Transactions.Call(0)] &&
      outer.0 == Some(innerErr) &&
      Count(outer.1, Transactions.Begin) == 1 &&
      Count(outer.1, Transactions.Rollback) == 1 &&
      Count(outer.1, Transactions.Commit) == 0
  {
    var outer := WithTX(false, None, Some(innerErr), commitErr);
    assert outer.1 == [Transactions.Begin, Transactions.Call(0), Transactions.Rollback];
    assert outer.1[1..] == [Transactions.Call(0), Transactions.Rollback];
    assert outer.1[1..][1..] == [Transactions.Rollback];
  }

  /** Errors of Begin and Commit come back classified: their kind is the
      one the converter assigns, so a duplicate key on commit is a conflict. */
  lemma WithTXClassifiesDatabaseErrors(beginErr: Option<GoError>, commitErr: GoError)
    ensures beginErr.Some? ==>
      var r := WithTX(false, beginErr, None, Some(commitErr)).0;
      r.Some? && r.value.Pkg? && r.value.e.typ == Converter.ExpectedType(Converter.Core(beginErr.value))
    ensures beginErr.None? ==>
      var r := WithTX(false, beginErr, None, Some(commitErr)).0;
      r.Some? && r.value.Pkg? && r.value.e.typ == Converter.ExpectedType(Converter.Core(commitErr))
  {
    if beginErr.Some? {
      Converter.ConvertClassifies(beginErr.value);
    }
    Converter.ConvertClassifies(commitErr);
  }

  // ---------------------------------------------------------------------
  // Finders
  // ---------------------------------------------------------------------

  /** The query FindOne runs: the whole option pipeline. */
  function FindOneQuery(fns: seq<Opts.FnOpt>): Step
  {
    Opts.ApplyOf(fns, Empty)
  }

  /** The query FindList, FindListWithTotal (for its rows) run: the filter
      stage, then the paging stage; custom transforms are not applied. */
  function FindListQuery(fns: seq<Opts.FnOpt>): Step
  {
    match Opts.ApplyFilterOf(fns, Empty)
    case Panic(why) => Panic(why)
    case Done(q) => Opts.ApplyPagingOf(fns, q)
  }

  /** The query GetTotal, FindListWithTotal (for its count),
      HardDeleteWhere and UpdateWhere run: the filter stage only. */
  function FilterQuery(fns: seq<Opts.FnOpt>): Step
  {
    Opts.ApplyFilterOf(fns, Empty)
  }

  /** FindOne: runs the query; a database error is converted. */
  function FindOne(fns: seq<Opts.FnOpt>, db: Query -> Option<GoError>): Outcome
  {
    match FindOneQuery(fns)
    case Panic(why) => Panicked(why)
    case Done(q) => Returned(ConvertedOpt(db(q)))
  }

  /** FindList */
  function FindList(fns: seq<Opts.FnOpt>, db: Query -> Option<GoError>): Outcome
  {
    match FindListQuery(fns)
    case Panic(why) => Panicked(why)
    case Done(q) => Returned(ConvertedOpt(db(q)))
  }

  /** FindList and FindOne build the same query except for the custom
      transforms: FindList's trace of custom transforms stays empty, and
      when the options hold none the two queries coincide. */
  lemma FindListSkipsCustomTransforms(fns: seq<Opts.FnOpt>)
    requires Opts.New(fns).Ok?
    ensures FindListQuery(fns).Done? ==> FindListQuery(fns).q.trace == []
    ensures !Opts.IsFn(Opts.New(fns).value) ==> FindListQuery(fns) == FindOneQuery(fns)
  {
    var o := Opts.New(fns).value;
    match Opts.ApplyFilterOf(fns, Empty)
    case Panic(_) =>
    case Done(q) =>
      if Opts.IsFilter(o) {
        assert q == Empty.(wheres := Filters.Wheres(o.filter));
      }
      assert q.trace == [];
  }

  /** FindListWithTotal: counts the filtered rows, then selects a page of
      them (the query FindList runs); either error is converted and comes
      with a zero total. */
  function FindListWithTotal(fns: seq<Opts.FnOpt>, count: Query -> Result<int, GoError>, select: Query -> Option<GoError>)
    : (r: (Outcome, int))
    ensures r.0 == Returned(None) <==>
      FilterQuery(fns).Done? && count(FilterQuery(fns).q).Ok? &&
      FindListQuery(fns).Done? && select(FindListQuery(fns).q).None?
    ensures r.0 == Returned(None) ==> r.1 == count(FilterQuery(fns).q).value
    ensures r.0.Returned? && r.0.err.Some? ==> r.1 == 0
    ensures FilterQuery(fns).Done? && count(FilterQuery(fns).q).Err? ==>
      r.0 == Returned(Some(Converted(count(FilterQuery(fns).q).error)))
    ensures (FilterQuery(fns).Done? && count(FilterQuery(fns).q).Ok? &&
             FindListQuery(fns).Done? && select(FindListQuery(fns).q).Some?) ==>
      r.0 == Returned(Some(Converted(select(FindListQuery(fns).q).value)))
  {
    match FilterQuery(fns)
    case Panic(why) => (Panicked(why), 0)
    case Done(q) =>
      match count(q)
      case Err(e) => (Returned(Some(Converted(e))), 0)
      case Ok(total) =>
        match Opts.ApplyPagingOf(fns, q)
        case Panic(why) => (Panicked(why), 0)
        case Done(page) =>
          var e := select(page);
          if e.Some? then (Returned(Some(Converted(e.value))), 0) else (Returned(None), total)
  }

  /** GetTotal: the count of the filtered rows, or the converted error with
      a zero total. */
  function GetTotal(fns: seq<Opts.FnOpt>, count: Query -> Result<int, GoError>): (r: (Outcome, int))
    ensures r.0 == Returned(None) <==> FilterQuery(fns).Done? && count(FilterQuery(fns).q).Ok?
    ensures r.0 == Returned(None) ==> r.1 == count(FilterQuery(fns).q).value
    ensures r.0.Returned? && r.0.err.Some? ==>
      r.1 == 0 && FilterQuery(fns).Done? && count(FilterQuery(fns).q).Err? &&
      r.0.err == Some(Converted(count(FilterQuery(fns).q).error))
  {
    match FilterQuery(fns)
    case Panic(why) => (Panicked(why), 0)
    case Done(q) =>
      match count(q)
      case Err(e) => (Returned(Some(Converted(e))), 0)
      case Ok(total) => (Returned(None), total)
  }

  /** FindListWithTotal is GetTotal followed by FindList: a failed count
      is GetTotal's failure, and after a count the outcome is FindList's,
      with GetTotal's total when FindList succeeds. */
  lemma FindListWithTotalCombines(fns: seq<Opts.FnOpt>, count: Query -> Result<int, GoError>,
                                  select: Query -> Option<GoError>)
    ensures GetTotal(fns, count).0 != Returned(None) ==>
      FindListWithTotal(fns, count, select) == GetTotal(fns, count)
    ensures GetTotal(fns, count).0 == Returned(None) ==>
      FindListWithTotal(fns, count, select).0 == FindList(fns, select) &&
      FindListWithTotal(fns, count, select).1 ==
        (if FindList(fns, select) == Returned(None) then GetTotal(fns, count).1 else 0)
  {
  }

  // ---------------------------------------------------------------------
  // Updates
  // ---------------------------------------------------------------------

  /** The column list and primary-key condition of an UPDATE. */
  datatype UpdatePlan = UpdatePlan(columns: seq<string>, wherePK: bool)

  /** The plan of an UPDATE of `columns`: the given columns and "updated";
      a single record is matched by its primary key, a slice of records is
      not filtered further. */
  function PlanOf(isSlice: bool, columns: seq<string>): UpdatePlan
  {
    UpdatePlan(columns + ["updated"], !isSlice)
  }

  /** Update: the statement fails exactly when the database reports an
      error, and that error comes back classified by the converter. */
  function Update(isSlice: bool, columns: seq<string>, db: UpdatePlan -> Option<GoError>): (r: Option<GoError>)
    ensures r.None? <==> db(PlanOf(isSlice, columns)).None?
    ensures r.Some? ==>
      r.value.Pkg? && r.value.e.typ == Converter.ExpectedType(Converter.Core(db(PlanOf(isSlice, columns)).value))
  {
    var e := db(PlanOf(isSlice, columns));
    if e.Some? then
      Converter.ConvertClassifies(e.value);
      Some(Converted(e.value))
    else None
  }

  /** The plan Update sends keeps the caller's columns in order, adds
      "updated" last, and has the primary-key condition exactly for a single
      record: a database that refuses every other plan lets Update through. */
  lemma UpdateColumns(isSlice: bool, columns: seq<string>, db: UpdatePlan -> Option<GoError>)
    requires forall plan :: db(plan).None? <==>
      (|plan.columns| == |columns| + 1 && plan.columns[..|columns|] == columns &&
       plan.columns[|columns|] == "updated" && (plan.wherePK <==> !isSlice))
    ensures Update(isSlice, columns, db).None?
    ensures Update(!isSlice, columns, db).Some?
  {
    assert (columns + ["updated"])[..|columns|] == columns;
  }

  /** SoftDelete: sets the deletion time on the record (the clock is not
      modelled) and updates "deleted"; Update's already converted error is
      converted again. */
  function SoftDelete(db: UpdatePlan -> Option<GoError>): Option<GoError>
  {
    var e := Update(false, ["deleted"], db);
    if e.Some? then Some(Converted(e.value)) else None
  }

  /** Whatever the database reports during a soft delete, the caller sees an
      internal error: the second conversion does not look inside errors of
      this package. */
  lemma SoftDeleteErrorsAreInternal(db: UpdatePlan -> Option<GoError>)
    requires db(UpdatePlan(["deleted", "updated"], true)).Some?
    ensures SoftDelete(db).Some?
    ensures IsInternal(SoftDelete(db))
    ensures !IsNotFound(SoftDelete(db)) && !IsConflict(SoftDelete(db))
  {
    assert ["deleted"] + ["updated"] == ["deleted", "updated"];
    var e := db(UpdatePlan(["deleted", "updated"], true)).value;
    Converter.ReconvertIsInternal(e);
    ClassifiersPartition(SoftDelete(db));
  }

  /** The field and the value of the `j`-th pair of UpdateWhere's
      arguments (field, value, field, value, ...). */
  function FieldAt(pairs: seq<Value>, j: nat): Value
    requires j < |pairs| / 2
  {
    pairs[2 * j]
  }

  function ValueAt(pairs: seq<Value>, j: nat): Value
    requires j < |pairs| / 2
  {
    pairs[2 * j + 1]
  }

  /** Every field is a string. */
  predicate FieldsAreStrings(pairs: seq<Value>)
  {
    forall j: nat :: j < |pairs| / 2 ==> FieldAt(pairs, j).Str?
  }

  /** The SET clause for one pair: "<field> = ?" bound to the value. */
  function SetClause(pairs: seq<Value>, j: nat): Clause
    requires j < |pairs| / 2 && FieldAt(pairs, j).Str?
  {
    Clause(FieldAt(pairs, j).s + " = ?", [Val(ValueAt(pairs, j))])
  }

  /** The SET clauses for the pairs from the `j`-th on, or nothing when
      one of their fields is not a string. */
  function SetClausesFrom(pairs: seq<Value>, j: nat): (r: Option<seq<Clause>>)
    requires j <= |pairs| / 2
    ensures r.Some? <==> forall i: nat :: j <= i < |pairs| / 2 ==> FieldAt(pairs, i).Str?
    ensures r.Some? ==> |r.value| == |pairs| / 2 - j
    ensures r.Some? ==> forall i: nat :: j <= i < |pairs| / 2 ==> r.value[i - j] == SetClause(pairs, i)
    decreases |pairs| / 2 - j
  {
    if j == |pairs| / 2 then Some([])
    else if !FieldAt(pairs, j).Str? then None
    else
      var tail := SetClausesFrom(pairs, j + 1);
      if tail.None? then None else Some([SetClause(pairs, j)] + tail.value)
  }

  /** The SET clauses of UpdateWhere, one per pair in order, or nothing
      when some field is not a string. */
  function SetClauses(pairs: seq<Value>): (r: Option<seq<Clause>>)
    ensures r.Some? <==> FieldsAreStrings(pairs)
    ensures r.Some? ==> |r.value| == |pairs| / 2
    ensures r.Some? ==> forall j: nat :: j < |pairs| / 2 ==> r.value[j] == SetClause(pairs, j)
  {
    SetClausesFrom(pairs, 0)
  }

  /** The message of the odd-count error. */
  function OddPairsText(n: nat): string
  {
    "UpdateWhere: setFieldValuePairs must be even, got " + Text.DecimalText(n)
  }

  /** UpdateWhere: `now` stands for time.Now(). An odd number of arguments
      is an internal error before any query is built; the ("updated", now)
      pair is appended; the filter is applied; a field that is not a string
      is an internal error; otherwise the update runs with one SET clause
      per pair and its error is converted. */
  function UpdateWhere(fns: seq<Opts.FnOpt>, pairs: seq<Value>, now: Value, db: (Query, seq<Clause>) -> Option<GoError>)
    : Outcome
  {
    if |pairs| % 2 != 0 then
      Returned(Some(Pkg(NewError(Internal, Some(Plain(OddPairsText(|pairs|)))))))
    else
      var all := pairs + [Str("updated"), now];
      match FilterQuery(fns)
      case Panic(why) => Panicked(why)
      case Done(q) =>
        match SetClauses(all)
        case None => Returned(Some(Pkg(NewError(Internal, Some(Plain("UpdateWhere: field must be string"))))))
        case Some(sets) => Returned(ConvertedOpt(db(q, sets)))
  }

  /** The pairs with ("updated", now) appended: the caller's pairs first,
      then the new one. */
  lemma AppendedPairs(pairs: seq<Value>, now: Value)
    requires |pairs| % 2 == 0
    ensures var all := pairs + [Str("updated"), now];
      |all| % 2 == 0 && |all| / 2 == |pairs| / 2 + 1 &&
      FieldAt(all, |pairs| / 2) == Str("updated") && ValueAt(all, |pairs| / 2) == now &&
      forall j: nat :: j < |pairs| / 2 ==> FieldAt(all, j) == FieldAt(pairs, j) && ValueAt(all, j) == ValueAt(pairs, j)
  {
  }

  /** Appending the ("updated", now) pair adds its clause after the
      caller's clauses. */
  lemma AppendUpdated(pairs: seq<Value>, now: Value)
    requires |pairs| % 2 == 0
    ensures SetClauses(pairs + [Str("updated"), now]).Some? <==> FieldsAreStrings(pairs)
    ensures FieldsAreStrings(pairs) ==>
      SetClauses(pairs + [Str("updated"), now]).value ==
        SetClauses(pairs).value + [Clause("updated = ?", [Val(now)])]
  {
    var all := pairs + [Str("updated"), now];
    var n := |pairs| / 2;
    AppendedPairs(pairs, now);
    if FieldsAreStrings(pairs) {
      assert FieldsAreStrings(all) by {
        forall j: nat | j < n + 1 ensures FieldAt(all, j).Str? {
          if j < n { assert FieldAt(pairs, j).Str?; }
        }
      }
      var r := SetClauses(all).value;
      var p := SetClauses(pairs).value;
      assert forall j: nat :: j < n ==> r[j] == SetClause(all, j) == SetClause(pairs, j) == p[j];
      assert r[n] == SetClause(all, n);
      assert SetClause(all, n) == Clause("updated = ?", [Val(now)]);
      assert r == p + [Clause("updated = ?", [Val(now)])];
    } else {
      var j: nat :| j < n && !FieldAt(pairs, j).Str?;
      assert !FieldAt(all, j).Str?;
    }
  }

  /** UpdateWhere's argument checks: an odd count or a non-string field is
      an internal error and the database is not consulted; with string
      fields the update carries the caller's SET clauses in order followed
      by "updated = ?" bound to the current time. */
  lemma UpdateWhereChecks(fns: seq<Opts.FnOpt>, pairs: seq<Value>, now: Value, db: (Query, seq<Clause>) -> Option<GoError>)
    ensures |pairs| % 2 != 0 ==>
      UpdateWhere(fns, pairs, now, db).Returned? && IsInternal(UpdateWhere(fns, pairs, now, db).err)
    ensures |pairs| % 2 == 0 && FilterQuery(fns).Done? && !FieldsAreStrings(pairs) ==>
      UpdateWhere(fns, pairs, now, db).Returned? && IsInternal(UpdateWhere(fns, pairs, now, db).err)
    ensures |pairs| % 2 == 0 && FilterQuery(fns).Done? && FieldsAreStrings(pairs) ==>
      UpdateWhere(fns, pairs, now, db) ==
        Returned(ConvertedOpt(db(FilterQuery(fns).q, SetClauses(pairs).value + [Clause("updated = ?", [Val(now)])])))
  {
    if |pairs| % 2 == 0 {
      AppendUpdated(pairs, now);
    }
  }

  /** A SET clause binds exactly one parameter to its one placeholder when
      the column name has no '?'. */
  lemma SetClauseAligned(column: string, v: Value)
    requires '?' !in column
    ensures Text.Placeholders(column + " = ?") == |[Val(v)]|
  {
    Text.PlaceholdersAppend(column, " = ?");
    Text.NoPlaceholders(column);
    assert multiset(" = ?")['?'] == 1;
  }

  // ---------------------------------------------------------------------
  // Upsert
  // ---------------------------------------------------------------------

  /** A record: its Go field values by Go field name. */
  type Record = map<string, Value>

  /** What Upsert is given: a slice of records, a pointer to one record, or
      a value of some other kind (a struct by value, a map, a number...). */
  datatype Recs = SliceOf(items: seq<Record>) | PtrTo(item: Record) | OtherKind(kind: Kind)

  /** The rows Upsert inserts: the unique records of a slice by key, or the
      one record a pointer designates. */
  datatype Models = Unique(rows: map<string, Record>) | Single(rec: Record)

  /** The statement Upsert sends: rows, ON CONFLICT target and SET list. */
  datatype UpsertPlan = UpsertPlan(models: Models, conflict: string, sets: seq<string>)

  /** fmt.Sprint of a field FieldByName does not find. */
  const InvalidValue := "<invalid reflect.Value>"

  /** The dedup key of a record: its key fields' values joined by "_". */
  function KeyOf(goNames: seq<string>, rec: Record): string
  {
    Text.Join(seq(|goNames|, i requires 0 <= i < |goNames| =>
      if goNames[i] in rec then Show(rec[goNames[i]]) else InvalidValue), "_")
  }

  /** The dedup key function Upsert hands to GetUniqueModels. */
  function KeyFn(goNames: seq<string>): Record -> string
  {
    r => KeyOf(goNames, r)
  }

  /** GetUniqueModels: a map from key to record, later records replacing
      earlier ones with the same key. Go returns the map's values in its
      unspecified iteration order; the map itself is the model. */
  function GetUniqueModels(ms: seq<Record>, key: Record -> string): (r: map<string, Record>)
    ensures forall k :: k in r <==> exists i :: 0 <= i < |ms| && key(ms[i]) == k
    ensures forall k :: k in r ==> key(r[k]) == k
    decreases |ms|
  {
    if |ms| == 0 then map[]
    else
      var init := ms[..|ms| - 1];
      var last := ms[|ms| - 1];
      var prev := GetUniqueModels(init, key);
      assert forall i :: 0 <= i < |ms| - 1 ==> ms[i] == init[i];
      prev[key(last) := last]
  }

  /** The last record with a key is the one kept for it. */
  lemma {:induction false} UniqueLastWins(ms: seq<Record>, key: Record -> string, i: nat)
    requires i < |ms|
    requires forall j :: i < j < |ms| ==> key(ms[j]) != key(ms[i])
    ensures key(ms[i]) in GetUniqueModels(ms, key)
    ensures GetUniqueModels(ms, key)[key(ms[i])] == ms[i]
    decreases |ms|
  {
    if i < |ms| - 1 {
      var init := ms[..|ms| - 1];
      assert init[i] == ms[i];
      UniqueLastWins(init, key, i);
    }
  }

  /** Two records with the same key leave one row, the later record. */
  lemma UniqueKeepsLast(a: Record, b: Record, key: Record -> string)
    requires key(a) == key(b)
    ensures GetUniqueModels([a, b], key) == map[key(b) := b]
  {
    var r := GetUniqueModels([a, b], key);
    UniqueLastWins([a, b], key, 1);
  }

  /** The Go field names of the key columns; a key the table does not map
      is a nil field, dereferenced. */
  function GoNames(keys: seq<string>, table: Option<map<string, string>>): (r: Result<seq<string>, string>)
    ensures table.None? ==> r == Ok([])
    ensures table.Some? ==> (r.Ok? <==> forall i :: 0 <= i < |keys| ==> keys[i] in table.value)
    ensures table.Some? && r.Ok? ==> |r.value| == |keys|
    ensures table.Some? && r.Ok? ==> forall i :: 0 <= i < |keys| ==> r.value[i] == table.value[keys[i]]
    decreases |keys|
  {
    if table.None? || |keys| == 0 then Ok([])
    else if keys[0] !in table.value then Err("nil pointer dereference")
    else
      var rest := GoNames(keys[1..], table);
      assert forall i :: 1 <= i < |keys| ==> keys[i] == keys[1..][i - 1];
      if rest.Err? then rest else Ok([table.value[keys[0]]] + rest.value)
  }

  /** The ON CONFLICT target and the SET list of an upsert. */
  function ConflictClause(keys: seq<string>): string
  {
    "(" + Text.Join(keys, ",") + ") DO UPDATE"
  }

  function ExcludedSets(columns: seq<string>): (r: seq<string>)
    ensures |r| == |columns|
    ensures forall i :: 0 <= i < |columns| ==> r[i] == columns[i] + " = EXCLUDED." + columns[i]
  {
    seq(|columns|, i requires 0 <= i < |columns| => columns[i] + " = EXCLUDED." + columns[i])
  }

  function BadRequestOf(text: string): Outcome
  {
    Returned(Some(Pkg(NewError(BadRequest, Some(Plain(text))))))
  }

  /** Upsert as written. `table` is what orm.GetTable finds for the record
      type (its column-to-field map, or nothing); `insert` is the database.
      The record type is taken from the first element of a slice before the
      emptiness check. The insert error is returned unconverted. */
  function UpsertAsWritten(recs: Recs, keys: seq<string>, columns: seq<string>,
                           table: Option<map<string, string>>, insert: UpsertPlan -> Option<GoError>): Outcome
  {
    if |keys| == 0 then BadRequestOf("keys cannot be empty")
    else if recs.SliceOf? && |recs.items| == 0 then Panicked("index out of range")
    else if recs.OtherKind? && recs.kind != Struct then Panicked("nil reflect.Type")
    else
      match GoNames(keys, table)
      case Err(why) => Panicked(why)
      case Ok(goNames) =>
        if recs.OtherKind? then BadRequestOf("recs must be slice or pointer to struct")
        else
          var models := ModelsOf(recs, goNames);
          if NoModels(models) then BadRequestOf("models cannot be empty")
          else Returned(insert(UpsertPlan(models, ConflictClause(keys), ExcludedSets(columns))))
  }

  /** The rows of a slice or of a pointer. */
  function ModelsOf(recs: Recs, goNames: seq<string>): Models
    requires !recs.OtherKind?
  {
    if recs.SliceOf? then Unique(GetUniqueModels(recs.items, KeyFn(goNames))) else Single(recs.item)
  }

  /** The emptiness check of Upsert. */
  predicate NoModels(m: Models)
  {
    m.Unique? && |m.rows| == 0
  }

  /** As written, an empty slice of records panics (the record type is read
      from its first element) before the emptiness check is reached. */
  lemma UpsertEmptySlicePanics(keys: seq<string>, columns: seq<string>,
                               table: Option<map<string, string>>, insert: UpsertPlan -> Option<GoError>)
    requires |keys| > 0
    ensures UpsertAsWritten(SliceOf([]), keys, columns, table, insert).Panicked?
  {
  }

  /** Every input that gets past the panic has at least one row, so the
      emptiness check never fires. */
  lemma EmptinessCheckUnreachable(recs: Recs, goNames: seq<string>)
    requires !recs.OtherKind? && !(recs.SliceOf? && |recs.items| == 0)
    ensures !NoModels(ModelsOf(recs, goNames))
  {
    if recs.SliceOf? {
      var rows := GetUniqueModels(recs.items, KeyFn(goNames));
      assert KeyFn(goNames)(recs.items[0]) in rows.Keys;
      assert |rows.Keys| > 0;
    }
  }

  /** Upsert, corrected: an empty slice of records is a bad request, as the
      emptiness check intends; otherwise as written. */
  function Upsert(recs: Recs, keys: seq<string>, columns: seq<string>,
                  table: Option<map<string, string>>, insert: UpsertPlan -> Option<GoError>): (r: Outcome)
    ensures recs.SliceOf? && |recs.items| == 0 ==> r.Returned? && IsBadRequest(r.err)
    ensures !(recs.SliceOf? && |recs.items| == 0) ==> r == UpsertAsWritten(recs, keys, columns, table, insert)
  {
    if |keys| == 0 then BadRequestOf("keys cannot be empty")
    else if recs.SliceOf? && |recs.items| == 0 then BadRequestOf("models cannot be empty")
    else UpsertAsWritten(recs, keys, columns, table, insert)
  }

  /** What Upsert sends: with keys the table maps and a non-empty slice,
      one row per distinct key (the last record with it), the conflict
      target listing the keys, and one "col = EXCLUDED.col" per column in
      order; the database's answer is returned as it is. */
  lemma UpsertStatement(items: seq<Record>, keys: seq<string>, columns: seq<string>,
                        table: map<string, string>, insert: UpsertPlan -> Option<GoError>)
    requires |keys| > 0 && |items| > 0
    requires forall i :: 0 <= i < |keys| ==> keys[i] in table
    ensures GoNames(keys, Some(table)).Ok?
    ensures Upsert(SliceOf(items), keys, columns, Some(table), insert) ==
      Returned(insert(UpsertPlan(Unique(GetUniqueModels(items, KeyFn(GoNames(keys, Some(table)).value))),
                                 ConflictClause(keys), ExcludedSets(columns))))
  {
    var names := GoNames(keys, Some(table)).value;
    assert KeyFn(names)(items[0]) in GetUniqueModels(items, KeyFn(names));
  }

  /** Upsert rejects missing keys, and a struct passed by value, with a bad
      request before anything is sent. Any other kind has no record type,
      and looking up the table of none panics. */
  lemma UpsertRejects(recs: Recs, keys: seq<string>, columns: seq<string>,
                      table: Option<map<string, string>>, insert: UpsertPlan -> Option<GoError>)
    ensures |keys| == 0 ==> IsBadRequest(Upsert(recs, keys, columns, table, insert).err)
    ensures |keys| > 0 && recs == OtherKind(Struct) && GoNames(keys, table).Ok? ==>
      IsBadRequest(Upsert(recs, keys, columns, table, insert).err)
    ensures |keys| > 0 && recs.OtherKind? && recs.kind != Struct ==>
      Upsert(recs, keys, columns, table, insert).Panicked?
  {
  }
}
