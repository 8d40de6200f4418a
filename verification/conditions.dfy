/** The predicate algebra of repository/filter: every condition yields a
    fragment template with `?` placeholders and the ordered parameters bound
    to them; Or, And and Not compose their children. */
module Conditions {
  import opened Results
  import opened Values
  import Text

  /** The single (key, value) entry of the map-keyed condition types. The
      option builders always construct these maps with exactly one entry;
      `None` stands for an empty map. */
  datatype Entry<V> = Entry(key: string, val: V)

  /** Eq, Ne, Lt, Le, Gt, Ge */
  datatype CmpOp = OpEq | OpNe | OpLt | OpLe | OpGt | OpGe

  /** Starts, Ends, Contains */
  datatype PatternOp = Starts | Ends | Contains

  /** One (path, value) item of JsonContains. */
  datatype JsonPath = JsonPath(path: string, value: Value)

  datatype Cond =
    | Compare(op: CmpOp, cmp: Option<Entry<Value>>)
    | EqLower(lower: Option<Entry<string>>)
    | Between(range: Option<Entry<seq<Value>>>)
    | In(members: Option<Entry<seq<Value>>>)
    | NotIn(excluded: Option<Entry<seq<Value>>>)
    | Pattern(pat: PatternOp, like: Option<Entry<string>>)
    | Match(search: Option<Entry<string>>)
    /** keyed by the search value; the entry's value lists the columns */
    | MatchMany(terms: Option<Entry<seq<string>>>)
    | IsNull(nullColumn: string)
    | NotNull(notNullColumn: string)
    | JsonContains(containsColumn: string, paths: seq<JsonPath>)
    | JsonEq(eqColumn: string, eqPath: seq<string>, eqValue: Value)
    | JsonContainsValue(cvColumn: string, cvPath: seq<string>, cvValue: Value)
    | Raw(query: string, queryParams: seq<Param>)
    | Or(anyOf: seq<Cond>)
    | And(allOf: seq<Cond>)
    | Not(noneOf: seq<Cond>)

  /** InInt64: In over a list of int64 values. */
  function InInt64(column: string, xs: seq<int>): Cond
  {
    In(Some(Entry(column, seq(|xs|, i requires 0 <= i < |xs| => Integer(Int64, xs[i])))))
  }

  /** InStr: In over a list of strings. */
  function InStr(column: string, xs: seq<string>): Cond
  {
    In(Some(Entry(column, seq(|xs|, i requires 0 <= i < |xs| => Str(xs[i])))))
  }

  /** NotInStr: NotIn over a list of strings. */
  function NotInStr(column: string, xs: seq<string>): Cond
  {
    NotIn(Some(Entry(column, seq(|xs|, i requires 0 <= i < |xs| => Str(xs[i])))))
  }

  const Q := "?"

  /** Placeholder-free pieces of the full-text-search fragments. */
  const TsVector := "to_tsvector('russian',"
  const TsQuery := "plainto_tsquery('russian',"

  lemma PiecesHaveNoPlaceholders()
    ensures '?' !in TsVector && '?' !in TsQuery
    ensures '?' !in ") @@ (" + TsVector && '?' !in ") @@ " + TsQuery && '?' !in "||" + TsVector
  {
  }

  /** Element kinds JsonEq casts to int, bigint and float. */
  const IntKinds := {Int8, Int16, Int32, Uint, Uint8, Uint16}
  const BigintKinds := {Int64, Uint64}
  const FloatKinds := {Float32, Float64}

  /** Kinds JsonEq compares as text after formatting them with %v. */
  const ScalarJsonKinds := {String} + IntKinds + BigintKinds + FloatKinds

  /** Condition() does not panic: MatchMany's repeat count cnt-1 must not be
      negative. */
  predicate FragmentOk(c: Cond)
  {
    match c
    case MatchMany(Some(Entry(_, cols))) => |cols| >= 1
    case Or(cs) => forall i :: 0 <= i < |cs| ==> FragmentOk(cs[i])
    case And(cs) => forall i :: 0 <= i < |cs| ==> FragmentOk(cs[i])
    case Not(cs) => forall i :: 0 <= i < |cs| ==> FragmentOk(cs[i])
    case _ => true
  }

  /** Params() does not panic: JsonEq accepts the scalar kinds it formats and,
      among slices, only slices of int64. */
  predicate ParamsOk(c: Cond)
  {
    match c
    case JsonEq(_, _, v) => KindOf(v) in ScalarJsonKinds || (v.List? && v.elem == Int64)
    case Or(cs) => forall i :: 0 <= i < |cs| ==> ParamsOk(cs[i])
    case And(cs) => forall i :: 0 <= i < |cs| ==> ParamsOk(cs[i])
    case Not(cs) => forall i :: 0 <= i < |cs| ==> ParamsOk(cs[i])
    case _ => true
  }

  /** Both halves of a condition can be produced. */
  predicate Renders(c: Cond)
  {
    FragmentOk(c) && ParamsOk(c)
  }

  /** Column count MatchMany sizes its fragment by: that of its entry, or 1
      for an empty map. */
  function MatchCount(e: Option<Entry<seq<string>>>): int
  {
    match e
    case None => 1
    case Some(Entry(_, cols)) => |cols|
  }

  predicate IsGroup(c: Cond)
  {
    c.Or? || c.And? || c.Not?
  }

  /** Condition() */
  function Fragment(c: Cond): string
    requires FragmentOk(c)
  {
    match c
    case Or(cs) => "(" + Text.Join(Parts(cs), " OR ") + ")"
    case And(cs) => "(" + Text.Join(Parts(cs), " AND ") + ")"
    case Not(cs) => "NOT (" + Text.Join(Parts(cs), " AND ") + ")"
    case _ => LeafFragment(c)
  }

  /** Each child's fragment in parentheses. */
  function Parts(cs: seq<Cond>): (r: seq<string>)
    requires forall i :: 0 <= i < |cs| ==> FragmentOk(cs[i])
    ensures |r| == |cs|
  {
    seq(|cs|, i requires 0 <= i < |cs| => "(" + Fragment(cs[i]) + ")")
  }

  /** Condition() of the non-composite variants. */
  function LeafFragment(c: Cond): string
    requires !IsGroup(c) && FragmentOk(c)
  {
    match c
    case Compare(op, _) => CompareFragment(op)
    case EqLower(_) => EqLowerFragment
    case Between(_) => BetweenFragment
    case In(_) => InFragment
    case NotIn(_) => NotInFragment
    case Pattern(p, _) => PatternFragment(p)
    case Match(_) => MatchFragment
    case MatchMany(e) => MatchManyFragment(MatchCount(e))
    case IsNull(_) => IsNullFragment
    case NotNull(_) => NotNullFragment
    case JsonContains(_, _) => JsonContainsFragment
    case JsonEq(_, _, v) => JsonEqFragment(v)
    case JsonContainsValue(_, _, _) => JsonContainsValueFragment
    case Raw(query, _) => query
  }

  /** Templates with one, two and three `?` placeholders between
      placeholder-free pieces. */
  function Template1(a: string, b: string): string
  {
    a + Q + b
  }

  function Template2(a: string, b: string, c: string): string
  {
    a + Q + b + Q + c
  }

  function Template3(a: string, b: string, c: string, d: string): string
  {
    a + Q + b + Q + c + Q + d
  }

  function CompareFragment(op: CmpOp): string
  {
    match op
    case OpEq => Template2("", " = ", "")
    case OpNe => Template2("", " != ", "")
    case OpLt => Template2("", " < ", "")
    case OpLe => Template2("", " <= ", "")
    case OpGt => Template2("", " > ", "")
    case OpGe => Template2("", " >= ", "")
  }

  const EqLowerFragment := Template2("LOWER(", ") = ", "")
  const BetweenFragment := Template3("", " BETWEEN ", " AND ", "")
  const InFragment := Template2("", " IN (", ")")
  const NotInFragment := Template2("", " NOT IN (", ")")
  const MatchFragment := Template2(TsVector, ") @@ " + TsQuery, ")")
  const IsNullFragment := Template1("", " IS NULL")
  const NotNullFragment := Template1("", " IS NOT NULL")
  const JsonContainsFragment := Template2("", " @> ", "")
  const JsonContainsValueFragment := Template3("", " #>> ", " ILIKE ", "")

  function PatternFragment(p: PatternOp): string
  {
    if p == Contains then Template2("CAST(", " AS text) ILIKE ", "") else Template2("", " ILIKE ", "")
  }

  /** One search column of MatchMany beyond the first. */
  const MatchUnit := Template1("||" + TsVector, ")")
  const MatchHead := Template2(TsQuery, ") @@ (" + TsVector, ")")

  /** MatchMany's fragment over `cnt` columns; strings.Repeat panics on a
      negative count, hence cnt >= 1. */
  function MatchManyFragment(cnt: int): string
    requires cnt >= 1
  {
    MatchHead + Text.Repeat(MatchUnit, cnt - 1) + ")"
  }

  /** JsonEq's fragment: the cast follows the element kind of a slice value. */
  function JsonEqFragment(v: Value): string
  {
    if v.List? then
      if v.elem in IntKinds then Template3("(", " #>> ", ")::int IN (", ")")
      else if v.elem in BigintKinds then Template3("(", " #>> ", ")::bigint IN (", ")")
      else if v.elem in FloatKinds then Template3("(", " #>> ", ")::float IN (", ")")
      else Template3("", " #>> ", " IN (", ")")
    else Template3("", " #>> ", " = ", "")
  }

  /** The ILIKE pattern of Starts, Ends and Contains. */
  function PatternText(p: PatternOp, v: string): string
  {
    match p
    case Starts => v + "%"
    case Ends => "%" + v
    case Contains => "%" + v + "%"
  }

  /** The `{a,b,c}` text-array literal of a JSON path. */
  function PathLiteral(path: seq<string>): string
  {
    "{" + Text.Join(path, ",") + "}"
  }

  /** The object JsonContains marshals: one key per path, a later item
      overwriting an earlier one with the same path. */
  function CheckObject(paths: seq<JsonPath>): map<string, Value>
  {
    if |paths| == 0 then map[]
    else CheckObject(paths[..|paths| - 1])[paths[|paths| - 1].path := paths[|paths| - 1].value]
  }

  /** Concatenation of parameter lists, in order. */
  function Flatten(pss: seq<seq<Param>>): seq<Param>
  {
    if |pss| == 0 then [] else Flatten(pss[..|pss| - 1]) + pss[|pss| - 1]
  }

  /** Params() */
  function Params(c: Cond): seq<Param>
    requires ParamsOk(c)
  {
    match c
    case Or(cs) => Flatten(ParamLists(cs))
    case And(cs) => Flatten(ParamLists(cs))
    case Not(cs) => Flatten(ParamLists(cs))
    case _ => LeafParams(c)
  }

  /** Each child's parameter list. */
  function ParamLists(cs: seq<Cond>): (r: seq<seq<Param>>)
    requires forall i :: 0 <= i < |cs| ==> ParamsOk(cs[i])
    ensures |r| == |cs|
  {
    seq(|cs|, i requires 0 <= i < |cs| => Params(cs[i]))
  }

  /** Params() of the non-composite variants. */
  function LeafParams(c: Cond): seq<Param>
    requires !IsGroup(c) && ParamsOk(c)
  {
    match c
    case Compare(_, e) => if e.None? then [] else [Ident(e.value.key), Val(e.value.val)]
    case EqLower(e) => if e.None? then [] else [Ident(e.value.key), Lowered(e.value.val)]
    case Between(e) => if e.None? then [] else [Ident(e.value.key)] + Vals(e.value.val)
    case In(e) => if e.None? then [] else [Ident(e.value.key), InList(e.value.val)]
    case NotIn(e) => if e.None? then [] else [Ident(e.value.key), InList(e.value.val)]
    case Pattern(p, e) =>
      if e.None? then [] else [Ident(e.value.key), Val(Str(PatternText(p, e.value.val)))]
    case Match(e) => if e.None? then [] else [Ident(e.value.key), Val(Str(e.value.val))]
    case MatchMany(e) => if e.None? then [] else [Val(Str(e.value.key))] + Idents(e.value.val)
    case IsNull(col) => [Ident(col)]
    case NotNull(col) => [Ident(col)]
    case JsonContains(col, paths) => [Ident(col), JsonDoc(CheckObject(paths))]
    case JsonEq(col, path, v) =>
      [Ident(col), Val(Str(PathLiteral(path))), if v.List? then InList(v.items) else Val(Str(Show(v)))]
    case JsonContainsValue(col, path, v) =>
      [Ident(col), Val(Str(PathLiteral(path))), Val(Str("%" + Show(v) + "%"))]
    case Raw(_, ps) => ps
  }

  /** The shape the option builders produce: every map has its one entry,
      Between has two bounds, MatchMany names at least one column, JsonEq's
      value has a supported kind, and a Raw fragment has as many
      placeholders as parameters. */
  predicate WellFormed(c: Cond)
  {
    match c
    case Compare(_, e) => e.Some?
    case EqLower(e) => e.Some?
    case Between(e) => e.Some? && |e.value.val| == 2
    case In(e) => e.Some?
    case NotIn(e) => e.Some?
    case Pattern(_, e) => e.Some?
    case Match(e) => e.Some?
    case MatchMany(e) => e.Some? && |e.value.val| >= 1
    case IsNull(_) => true
    case NotNull(_) => true
    case JsonContains(_, _) => true
    case JsonEq(_, _, _) => ParamsOk(c)
    case JsonContainsValue(_, _, _) => true
    case Raw(query, ps) => Text.Placeholders(query) == |ps|
    case Or(cs) => forall i :: 0 <= i < |cs| ==> WellFormed(cs[i])
    case And(cs) => forall i :: 0 <= i < |cs| ==> WellFormed(cs[i])
    case Not(cs) => forall i :: 0 <= i < |cs| ==> WellFormed(cs[i])
  }

  lemma {:induction false} WellFormedRenders(c: Cond)
    requires WellFormed(c)
    ensures FragmentOk(c) && ParamsOk(c)
    decreases c
  {
    match c
    case Or(cs) =>
      forall i | 0 <= i < |cs| ensures FragmentOk(cs[i]) && ParamsOk(cs[i]) {
        WellFormedRenders(cs[i]);
      }
    case And(cs) =>
      forall i | 0 <= i < |cs| ensures FragmentOk(cs[i]) && ParamsOk(cs[i]) {
        WellFormedRenders(cs[i]);
      }
    case Not(cs) =>
      forall i | 0 <= i < |cs| ensures FragmentOk(cs[i]) && ParamsOk(cs[i]) {
        WellFormedRenders(cs[i]);
      }
    case _ =>
  }

  // ---------------------------------------------------------------------
  // Placeholder counting
  // ---------------------------------------------------------------------

  lemma Holes1(a: string, b: string)
    requires '?' !in a && '?' !in b
    ensures Text.Placeholders(Template1(a, b)) == 1
  {
    Text.PlaceholdersAppend(a + Q, b);
    Text.PlaceholdersAppend(a, Q);
  }

  lemma Holes2(a: string, b: string, c: string)
    requires '?' !in a && '?' !in b && '?' !in c
    ensures Text.Placeholders(Template2(a, b, c)) == 2
  {
    Holes1(a, b);
    Text.PlaceholdersAppend(a + Q + b + Q, c);
    Text.PlaceholdersAppend(a + Q + b, Q);
  }

  lemma Holes3(a: string, b: string, c: string, d: string)
    requires '?' !in a && '?' !in b && '?' !in c && '?' !in d
    ensures Text.Placeholders(Template3(a, b, c, d)) == 3
  {
    Holes2(a, b, c);
    Text.PlaceholdersAppend(a + Q + b + Q + c + Q, d);
    Text.PlaceholdersAppend(a + Q + b + Q + c, Q);
  }

  /** Total length of the parameter lists equals the total placeholder
      count of the parts when each part matches its list. */
  lemma {:induction false} FlattenMatchesParts(parts: seq<string>, pss: seq<seq<Param>>)
    requires |parts| == |pss|
    requires forall i :: 0 <= i < |parts| ==> Text.Placeholders(parts[i]) == |pss[i]|
    ensures Text.PlaceholdersAll(parts) == |Flatten(pss)|
  {
    if |parts| > 0 {
      FlattenMatchesParts(parts[..|parts| - 1], pss[..|pss| - 1]);
    }
  }

  /** A composite's fragment has as many placeholders as its children's
      parameter lists together, given that each child does. */
  lemma GroupAligned(open: string, sep: string, cs: seq<Cond>)
    requires '?' !in open && '?' !in sep
    requires forall i :: 0 <= i < |cs| ==> FragmentOk(cs[i]) && ParamsOk(cs[i])
    requires forall i :: 0 <= i < |cs| ==> Text.Placeholders(Fragment(cs[i])) == |Params(cs[i])|
    ensures Text.Placeholders(open + Text.Join(Parts(cs), sep) + ")") == |Flatten(ParamLists(cs))|
  {
    var parts, pss := Parts(cs), ParamLists(cs);
    forall i | 0 <= i < |cs| ensures Text.Placeholders(parts[i]) == |pss[i]| {
      Text.PlaceholdersAppend("(" + Fragment(cs[i]), ")");
      Text.PlaceholdersAppend("(", Fragment(cs[i]));
    }
    FlattenMatchesParts(parts, pss);
    Text.PlaceholdersJoin(parts, sep);
    Text.PlaceholdersAppend(open + Text.Join(parts, sep), ")");
    Text.PlaceholdersAppend(open, Text.Join(parts, sep));
  }

  lemma CompareFragmentHoles(op: CmpOp)
    ensures Text.Placeholders(CompareFragment(op)) == 2
  {
    match op
    case OpEq => Holes2("", " = ", "");
    case OpNe => Holes2("", " != ", "");
    case OpLt => Holes2("", " < ", "");
    case OpLe => Holes2("", " <= ", "");
    case OpGt => Holes2("", " > ", "");
    case OpGe => Holes2("", " >= ", "");
  }

  lemma PatternFragmentHoles(p: PatternOp)
    ensures Text.Placeholders(PatternFragment(p)) == 2
  {
    if p == Contains { Holes2("CAST(", " AS text) ILIKE ", ""); } else { Holes2("", " ILIKE ", ""); }
  }

  lemma EqLowerFragmentHoles()
    ensures Text.Placeholders(EqLowerFragment) == 2
  {
    Holes2("LOWER(", ") = ", "");
  }

  lemma BetweenFragmentHoles()
    ensures Text.Placeholders(BetweenFragment) == 3
  {
    Holes3("", " BETWEEN ", " AND ", "");
  }

  lemma InFragmentHoles()
    ensures Text.Placeholders(InFragment) == 2
  {
    Holes2("", " IN (", ")");
  }

  lemma NotInFragmentHoles()
    ensures Text.Placeholders(NotInFragment) == 2
  {
    Holes2("", " NOT IN (", ")");
  }

  lemma MatchFragmentHoles()
    ensures Text.Placeholders(MatchFragment) == 2
  {
    PiecesHaveNoPlaceholders();
    Holes2(TsVector, ") @@ " + TsQuery, ")");
  }

  lemma IsNullFragmentHoles()
    ensures Text.Placeholders(IsNullFragment) == 1
  {
    Holes1("", " IS NULL");
  }

  lemma NotNullFragmentHoles()
    ensures Text.Placeholders(NotNullFragment) == 1
  {
    Holes1("", " IS NOT NULL");
  }

  lemma JsonContainsFragmentHoles()
    ensures Text.Placeholders(JsonContainsFragment) == 2
  {
    Holes2("", " @> ", "");
  }

  lemma JsonContainsValueFragmentHoles()
    ensures Text.Placeholders(JsonContainsValueFragment) == 3
  {
    Holes3("", " #>> ", " ILIKE ", "");
  }

  /** MatchMany's fragment over cnt columns has 1 + cnt placeholders. */
  lemma MatchManyFragmentHoles(cnt: int)
    requires cnt >= 1
    ensures Text.Placeholders(MatchManyFragment(cnt)) == 1 + cnt
  {
    MatchRepeatHoles(cnt - 1);
  }

  /** The pieces of MatchMany's fragment: the head binds the search value
      and the first column, each further unit one more column. */
  lemma MatchRepeatHoles(n: nat)
    ensures Text.Placeholders(MatchHead + Text.Repeat(MatchUnit, n) + ")") == 2 + n
  {
    MatchPiecesHoles();
    Text.PlaceholdersRepeat(MatchUnit, n);
    Text.PlaceholdersAppend(MatchHead + Text.Repeat(MatchUnit, n), ")");
    Text.PlaceholdersAppend(MatchHead, Text.Repeat(MatchUnit, n));
  }

  lemma MatchPiecesHoles()
    ensures Text.Placeholders(MatchHead) == 2 && Text.Placeholders(MatchUnit) == 1
  {
    PiecesHaveNoPlaceholders();
    Holes2(TsQuery, ") @@ (" + TsVector, ")");
    Holes1("||" + TsVector, ")");
  }


  lemma JsonEqFragmentHoles(v: Value)
    ensures Text.Placeholders(JsonEqFragment(v)) == 3
  {
    if v.List? {
      if v.elem in IntKinds {
        Holes3("(", " #>> ", ")::int IN (", ")");
      } else if v.elem in BigintKinds {
        Holes3("(", " #>> ", ")::bigint IN (", ")");
      } else if v.elem in FloatKinds {
        Holes3("(", " #>> ", ")::float IN (", ")");
      } else {
        Holes3("", " #>> ", " IN (", ")");
      }
    } else {
      Holes3("", " #>> ", " = ", "");
    }
  }

  lemma CompareAligned(c: Cond)
    requires c.Compare? && WellFormed(c)
    ensures Text.Placeholders(LeafFragment(c)) == |LeafParams(c)|
  {
    assert LeafFragment(c) == CompareFragment(c.op);
    assert |LeafParams(c)| == 2;
    CompareFragmentHoles(c.op);
  }

  lemma EqLowerAligned(c: Cond)
    requires c.EqLower? && WellFormed(c)
    ensures Text.Placeholders(LeafFragment(c)) == |LeafParams(c)|
  {
    assert LeafFragment(c) == EqLowerFragment;
    assert |LeafParams(c)| == 2;
    EqLowerFragmentHoles();
  }

  lemma BetweenAligned(c: Cond)
    requires c.Between? && WellFormed(c)
    ensures Text.Placeholders(LeafFragment(c)) == |LeafParams(c)|
  {
    assert LeafFragment(c) == BetweenFragment;
    assert |LeafParams(c)| == 3;
    BetweenFragmentHoles();
  }

  lemma InAligned(c: Cond)
    requires c.In? && WellFormed(c)
    ensures Text.Placeholders(LeafFragment(c)) == |LeafParams(c)|
  {
    assert LeafFragment(c) == InFragment;
    assert |LeafParams(c)| == 2;
    InFragmentHoles();
  }

  lemma NotInAligned(c: Cond)
    requires c.NotIn? && WellFormed(c)
    ensures Text.Placeholders(LeafFragment(c)) == |LeafParams(c)|
  {
    assert LeafFragment(c) == NotInFragment;
    assert |LeafParams(c)| == 2;
    NotInFragmentHoles();
  }

  lemma PatternAligned(c: Cond)
    requires c.Pattern? && WellFormed(c)
    ensures Text.Placeholders(LeafFragment(c)) == |LeafParams(c)|
  {
    assert LeafFragment(c) == PatternFragment(c.pat);
    assert |LeafParams(c)| == 2;
    PatternFragmentHoles(c.pat);
  }

  lemma MatchAligned(c: Cond)
    requires c.Match? && WellFormed(c)
    ensures Text.Placeholders(LeafFragment(c)) == |LeafParams(c)|
  {
    assert LeafFragment(c) == MatchFragment;
    assert |LeafParams(c)| == 2;
    MatchFragmentHoles();
  }

  lemma IsNullAligned(c: Cond)
    requires c.IsNull? && WellFormed(c)
    ensures Text.Placeholders(LeafFragment(c)) == |LeafParams(c)|
  {
    assert LeafFragment(c) == IsNullFragment;
    assert |LeafParams(c)| == 1;
    IsNullFragmentHoles();
  }

  lemma NotNullAligned(c: Cond)
    requires c.NotNull? && WellFormed(c)
    ensures Text.Placeholders(LeafFragment(c)) == |LeafParams(c)|
  {
    assert LeafFragment(c) == NotNullFragment;
    assert |LeafParams(c)| == 1;
    NotNullFragmentHoles();
  }

  lemma JsonContainsAligned(c: Cond)
    requires c.JsonContains? && WellFormed(c)
    ensures Text.Placeholders(LeafFragment(c)) == |LeafParams(c)|
  {
    assert LeafFragment(c) == JsonContainsFragment;
    assert |LeafParams(c)| == 2;
    JsonContainsFragmentHoles();
  }

  lemma JsonEqAligned(c: Cond)
    requires c.JsonEq? && WellFormed(c)
    ensures Text.Placeholders(LeafFragment(c)) == |LeafParams(c)|
  {
    assert LeafFragment(c) == JsonEqFragment(c.eqValue);
    assert |LeafParams(c)| == 3;
    JsonEqFragmentHoles(c.eqValue);
  }

  lemma JsonContainsValueAligned(c: Cond)
    requires c.JsonContainsValue? && WellFormed(c)
    ensures Text.Placeholders(LeafFragment(c)) == |LeafParams(c)|
  {
    assert LeafFragment(c) == JsonContainsValueFragment;
    assert |LeafParams(c)| == 3;
    JsonContainsValueFragmentHoles();
  }

  lemma MatchManyAligned(c: Cond)
    requires c.MatchMany? && WellFormed(c)
    ensures Text.Placeholders(LeafFragment(c)) == |LeafParams(c)|
  {
    var cols := c.terms.value.val;
    assert LeafFragment(c) == MatchManyFragment(|cols|);
    assert |LeafParams(c)| == 1 + |cols|;
    MatchManyFragmentHoles(|cols|);
  }

  /** Placeholder/parameter alignment of the non-composite variants. */
  lemma LeafAligned(c: Cond)
    requires !IsGroup(c) && WellFormed(c)
    ensures Text.Placeholders(LeafFragment(c)) == |LeafParams(c)|
  {
    match c
    case Compare(_, _) => CompareAligned(c);
    case EqLower(_) => EqLowerAligned(c);
    case Between(_) => BetweenAligned(c);
    case In(_) => InAligned(c);
    case NotIn(_) => NotInAligned(c);
    case Pattern(_, _) => PatternAligned(c);
    case Match(_) => MatchAligned(c);
    case IsNull(_) => IsNullAligned(c);
    case NotNull(_) => NotNullAligned(c);
    case JsonContains(_, _) => JsonContainsAligned(c);
    case JsonEq(_, _, _) => JsonEqAligned(c);
    case JsonContainsValue(_, _, _) => JsonContainsValueAligned(c);
    case MatchMany(_) => MatchManyAligned(c);
    case Raw(_, _) =>
  }

  /** The central invariant: a well-formed condition's fragment has exactly
      one placeholder per parameter, and Or, And and Not preserve this. */
  lemma {:induction false} PlaceholdersMatchParams(c: Cond)
    requires WellFormed(c)
    ensures FragmentOk(c) && ParamsOk(c)
    ensures Text.Placeholders(Fragment(c)) == |Params(c)|
    decreases c
  {
    WellFormedRenders(c);
    if !IsGroup(c) {
      LeafAligned(c);
    } else {
      var cs := if c.Or? then c.anyOf else if c.And? then c.allOf else c.noneOf;
      forall i | 0 <= i < |cs| ensures Text.Placeholders(Fragment(cs[i])) == |Params(cs[i])| {
        PlaceholdersMatchParams(cs[i]);
      }
      match c
      case Or(_) => GroupAligned("(", " OR ", cs);
      case And(_) => GroupAligned("(", " AND ", cs);
      case Not(_) => GroupAligned("NOT (", " AND ", cs);
    }
  }
}

/** Algebraic facts about rendering conditions. */
module ConditionFacts {
  import opened Results
  import opened Values
  import opened Conditions
  import Text

  /** An empty group renders its bare parentheses and binds nothing. */
  lemma EmptyGroups()
    ensures Fragment(Or([])) == "()" && Params(Or([])) == []
    ensures Fragment(And([])) == "()" && Params(And([])) == []
    ensures Fragment(Not([])) == "NOT ()" && Params(Not([])) == []
  {
  }

  /** Not differs from And only by its NOT prefix. */
  lemma NotIsNegatedAnd(cs: seq<Cond>)
    requires forall i :: 0 <= i < |cs| ==> FragmentOk(cs[i])
    ensures Fragment(Not(cs)) == "NOT " + Fragment(And(cs))
  {
  }

  /** A one-child group wraps the child's fragment in two pairs of
      parentheses. */
  lemma SingletonFragment(c: Cond)
    requires Renders(c)
    ensures Fragment(Or([c])) == "(" + ("(" + Fragment(c) + ")") + ")"
    ensures Fragment(And([c])) == "(" + ("(" + Fragment(c) + ")") + ")"
  {
    assert Parts([c]) == ["(" + Fragment(c) + ")"];
  }

  /** A one-child group, negated or not, binds exactly the child's
      parameters. */
  lemma SingletonParams(c: Cond)
    requires Renders(c)
    ensures Params(Or([c])) == Params(c) && Params(And([c])) == Params(c) && Params(Not([c])) == Params(c)
  {
    OrParams([c]);
    AndParams([c]);
    NotParams([c]);
    assert ParamLists([c]) == [Params(c)];
    assert Flatten([Params(c)]) == Flatten([]) + Params(c);
  }

  /** Concatenating parameter lists distributes over concatenation. */
  lemma {:induction false} FlattenAppend(a: seq<seq<Param>>, b: seq<seq<Param>>)
    ensures Flatten(a + b) == Flatten(a) + Flatten(b)
    decreases |b|
  {
    if |b| > 0 {
      var b' := b[..|b| - 1];
      assert (a + b)[..|a + b| - 1] == a + b';
      FlattenAppend(a, b');
    } else {
      assert a + b == a;
    }
  }

  /** Splitting a group's children splits its parameters: the parameters of
      Or, And and Not are their children's parameters in order. */
  lemma GroupParamsAppend(cs1: seq<Cond>, cs2: seq<Cond>)
    requires forall i :: 0 <= i < |cs1| ==> ParamsOk(cs1[i])
    requires forall i :: 0 <= i < |cs2| ==> ParamsOk(cs2[i])
    ensures Params(Or(cs1 + cs2)) == Params(Or(cs1)) + Params(Or(cs2))
    ensures Params(And(cs1 + cs2)) == Params(And(cs1)) + Params(And(cs2))
    ensures Params(Not(cs1 + cs2)) == Params(Not(cs1)) + Params(Not(cs2))
  {
    FlatParamsAppend(cs1, cs2);
    OrParams(cs1);
    OrParams(cs2);
    OrParams(cs1 + cs2);
    AndParams(cs1);
    AndParams(cs2);
    AndParams(cs1 + cs2);
    NotParams(cs1);
    NotParams(cs2);
    NotParams(cs1 + cs2);
  }

  lemma OrParams(cs: seq<Cond>)
    requires forall i :: 0 <= i < |cs| ==> ParamsOk(cs[i])
    ensures Params(Or(cs)) == Flatten(ParamLists(cs))
  {
    assert ParamsOk(Or(cs));
  }

  lemma AndParams(cs: seq<Cond>)
    requires forall i :: 0 <= i < |cs| ==> ParamsOk(cs[i])
    ensures Params(And(cs)) == Flatten(ParamLists(cs))
  {
    assert ParamsOk(And(cs));
  }

  lemma NotParams(cs: seq<Cond>)
    requires forall i :: 0 <= i < |cs| ==> ParamsOk(cs[i])
    ensures Params(Not(cs)) == Flatten(ParamLists(cs))
  {
    assert ParamsOk(Not(cs));
  }

  lemma FlatParamsAppend(cs1: seq<Cond>, cs2: seq<Cond>)
    requires forall i :: 0 <= i < |cs1| ==> ParamsOk(cs1[i])
    requires forall i :: 0 <= i < |cs2| ==> ParamsOk(cs2[i])
    ensures Flatten(ParamLists(cs1 + cs2)) == Flatten(ParamLists(cs1)) + Flatten(ParamLists(cs2))
  {
    ParamListsAppend(cs1, cs2);
    FlattenAppend(ParamLists(cs1), ParamLists(cs2));
  }

  lemma ParamListsAppend(cs1: seq<Cond>, cs2: seq<Cond>)
    requires forall i :: 0 <= i < |cs1| ==> ParamsOk(cs1[i])
    requires forall i :: 0 <= i < |cs2| ==> ParamsOk(cs2[i])
    ensures ParamLists(cs1 + cs2) == ParamLists(cs1) + ParamLists(cs2)
  {
    var cs := cs1 + cs2;
    var l1, l2, l := ParamLists(cs1), ParamLists(cs2), ParamLists(cs);
    assert l[..|cs1|] == l1;
    assert l[|cs1|..] == l2;
    assert l == l[..|cs1|] + l[|cs1|..];
  }

  /** An empty map yields no parameters; a one-entry map binds its key as
      an identifier first (MatchMany binds its search value first and its
      columns after it). */
  lemma EntryParams(c: Cond)
    requires !IsGroup(c) && ParamsOk(c)
    ensures c.Compare? || c.EqLower? || c.Between? || c.In? || c.NotIn? || c.Pattern? || c.Match? ==>
      var e := EntryKey(c);
      (e.None? <==> LeafParams(c) == []) &&
      (e.Some? ==> LeafParams(c)[0] == Ident(e.value))
    ensures c.MatchMany? && c.terms.None? ==> LeafParams(c) == []
    ensures c.MatchMany? && c.terms.Some? ==>
      LeafParams(c) == [Val(Str(c.terms.value.key))] + Idents(c.terms.value.val)
  {
  }

  /** The key of a map-keyed leaf, if its map has an entry. */
  function EntryKey(c: Cond): Option<string>
  {
    match c
    case Compare(_, e) => if e.None? then None else Some(e.value.key)
    case EqLower(e) => if e.None? then None else Some(e.value.key)
    case Between(e) => if e.None? then None else Some(e.value.key)
    case In(e) => if e.None? then None else Some(e.value.key)
    case NotIn(e) => if e.None? then None else Some(e.value.key)
    case Pattern(_, e) => if e.None? then None else Some(e.value.key)
    case Match(e) => if e.None? then None else Some(e.value.key)
    case _ => None
  }

  /** Starts anchors the value at the beginning of the text, Ends at the
      end, and Contains anywhere: the ILIKE pattern is the value with a `%`
      wildcard on the open side(s). */
  lemma PatternShape(p: PatternOp, v: string)
    ensures var r := PatternText(p, v);
      |r| == |v| + (if p == Contains then 2 else 1) &&
      (p == Starts ==> r[..|v|] == v && r[|v|] == '%') &&
      (p == Ends ==> r[0] == '%' && r[1..] == v) &&
      (p == Contains ==> r[0] == '%' && r[1..|v| + 1] == v && r[|v| + 1] == '%')
  {
  }

  /** The object JsonContains marshals has exactly the listed paths as
      keys. */
  lemma {:induction false} CheckObjectKeys(paths: seq<JsonPath>)
    ensures forall k :: k in CheckObject(paths) <==> exists i :: 0 <= i < |paths| && paths[i].path == k
  {
    if |paths| > 0 {
      var init := paths[..|paths| - 1];
      CheckObjectKeys(init);
      var last := paths[|paths| - 1];
      assert CheckObject(paths) == CheckObject(init)[last.path := last.value];
      forall k ensures k in CheckObject(paths) <==> exists i :: 0 <= i < |paths| && paths[i].path == k {
        if k in CheckObject(paths) && k != last.path {
          assert k in CheckObject(init);
          var i :| 0 <= i < |init| && init[i].path == k;
          assert paths[i].path == k;
        }
        if exists i :: 0 <= i < |paths| && paths[i].path == k {
          var i :| 0 <= i < |paths| && paths[i].path == k;
          if i < |init| { assert init[i].path == k; }
        }
      }
    }
  }

  /** Each key maps to the value of the LAST item with that path: a later
      duplicate overwrites an earlier one. */
  lemma {:induction false} CheckObjectLastWins(paths: seq<JsonPath>, i: int)
    requires 0 <= i < |paths|
    requires forall j :: i < j < |paths| ==> paths[j].path != paths[i].path
    ensures paths[i].path in CheckObject(paths)
    ensures CheckObject(paths)[paths[i].path] == paths[i].value
  {
    if i < |paths| - 1 {
      var init := paths[..|paths| - 1];
      assert init[i] == paths[i];
      CheckObjectLastWins(init, i);
    }
  }

  /** Or of two equality conditions, as the option builders produce it. */
  lemma OrOfTwoEqualities(a: string, x: Value, b: string, y: Value)
    ensures var c := Or([Compare(OpEq, Some(Entry(a, x))), Compare(OpEq, Some(Entry(b, y)))]);
      Params(c) == [Ident(a), Val(x), Ident(b), Val(y)] &&
      Fragment(c) == "(" + (("(" + CompareFragment(OpEq) + ")") + " OR " + ("(" + CompareFragment(OpEq) + ")")) + ")"
  {
    var c1, c2 := Compare(OpEq, Some(Entry(a, x))), Compare(OpEq, Some(Entry(b, y)));
    OrPairParams(c1, c2);
    OrPairFragment(c1, c2);
    assert Params(c1) == [Ident(a), Val(x)] && Params(c2) == [Ident(b), Val(y)];
    assert Fragment(c1) == CompareFragment(OpEq) == Fragment(c2);
  }

  /** An Or of two conditions binds the first one's parameters, then the
      second's. */
  lemma OrPairParams(c1: Cond, c2: Cond)
    requires ParamsOk(c1) && ParamsOk(c2)
    ensures Params(Or([c1, c2])) == Params(c1) + Params(c2)
  {
    var cs := [c1, c2];
    OrParams(cs);
    var ls := ParamLists(cs);
    assert ls[0] == Params(c1) && ls[1] == Params(c2);
    assert ls == [Params(c1), Params(c2)];
    FlattenTwo(Params(c1), Params(c2));
  }

  lemma FlattenTwo(a: seq<Param>, b: seq<Param>)
    ensures Flatten([a, b]) == a + b
  {
    assert [a, b][..1] == [a];
    assert [a][..0] == [];
    assert Flatten([a]) == Flatten([]) + a == a;
  }

  /** An Or of two conditions joins their parenthesised fragments. */
  lemma OrPairFragment(c1: Cond, c2: Cond)
    requires FragmentOk(c1) && FragmentOk(c2)
    ensures Fragment(Or([c1, c2])) == "(" + (("(" + Fragment(c1) + ")") + " OR " + ("(" + Fragment(c2) + ")")) + ")"
  {
    var cs := [c1, c2];
    OrFragment(cs);
    PartsPair(c1, c2);
    JoinTwo("(" + Fragment(c1) + ")", "(" + Fragment(c2) + ")", " OR ");
  }

  lemma PartsPair(c1: Cond, c2: Cond)
    requires FragmentOk(c1) && FragmentOk(c2)
    ensures Parts([c1, c2]) == ["(" + Fragment(c1) + ")", "(" + Fragment(c2) + ")"]
  {
  }

  lemma OrFragment(cs: seq<Cond>)
    requires forall i :: 0 <= i < |cs| ==> FragmentOk(cs[i])
    ensures Fragment(Or(cs)) == "(" + Text.Join(Parts(cs), " OR ") + ")"
  {
  }

  lemma JoinTwo(f1: string, f2: string, sep: string)
    ensures Text.Join([f1, f2], sep) == f1 + sep + f2
  {
    assert [f1, f2][..1] == [f1];
  }
}
