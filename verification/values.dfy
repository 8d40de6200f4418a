/** Dynamically typed Go values as they flow through `interface{}` parameters,
    and the parameters a fragment template binds to its `?` placeholders. */
module Values {
  import Text

  /** The reflect kinds the toolkit inspects. */
  datatype Kind =
    | String | Bool
    | Int | Int8 | Int16 | Int32 | Int64
    | Uint | Uint8 | Uint16 | Uint32 | Uint64
    | Float32 | Float64
    | Slice | Struct | Ptr | Map

  /** A value behind an `interface{}`. Floating-point numbers and opaque
      values (structs, times, ...) are carried by their `%v` rendering. */
  datatype Value =
    | Str(s: string)
    | Boolean(b: bool)
    | Integer(intKind: Kind, n: int)
    | Float(floatKind: Kind, text: string)
    | List(elem: Kind, items: seq<Value>)
    | Opaque(opaqueKind: Kind, text: string)

  /** reflect.TypeOf(v).Kind() */
  function KindOf(v: Value): Kind
  {
    match v
    case Str(_) => String
    case Boolean(_) => Bool
    case Integer(k, _) => k
    case Float(k, _) => k
    case List(_, _) => Slice
    case Opaque(k, _) => k
  }

  /** fmt.Sprintf("%v", v) */
  function Show(v: Value): string
  {
    match v
    case Str(s) => s
    case Boolean(b) => if b then "true" else "false"
    case Integer(_, n) => Text.DecimalText(n)
    case Float(_, t) => t
    case List(_, items) =>
      "[" + Text.Join(seq(|items|, i requires 0 <= i < |items| => Show(items[i])), " ") + "]"
    case Opaque(_, t) => t
  }

  /** A parameter bound to one placeholder of a fragment:
      an escaped identifier (pg.Ident), a plain value, a value list (pg.In),
      the lower-cased form of a string (strings.ToLower), or the JSON
      encoding of an object (json.Marshal). The last two stand for the
      library functions' results without interpreting them. */
  datatype Param =
    | Ident(name: string)
    | Val(v: Value)
    | InList(vs: seq<Value>)
    | Lowered(s: string)
    | JsonDoc(doc: map<string, Value>)

  /** The identifiers for `names`, in order. */
  function Idents(names: seq<string>): (r: seq<Param>)
    ensures |r| == |names|
    ensures forall i :: 0 <= i < |names| ==> r[i] == Ident(names[i])
  {
    if |names| == 0 then [] else [Ident(names[0])] + Idents(names[1..])
  }

  /** One plain parameter per value, in order. */
  function Vals(vs: seq<Value>): (r: seq<Param>)
    ensures |r| == |vs|
    ensures forall i :: 0 <= i < |vs| ==> r[i] == Val(vs[i])
  {
    if |vs| == 0 then [] else [Val(vs[0])] + Vals(vs[1..])
  }
}

/** The query under construction (go-pg's orm.Query), reduced to the clauses
    this toolkit adds to it. */
module Queries {
  import opened Results
  import opened Values

  /** A fragment template with its ordered parameters. */
  datatype Clause = Clause(fragment: string, params: seq<Param>)

  /** A query transform (repository.QueryApply): either a caller-supplied
      function, recorded by its identity when it runs, or the offset/limit
      window of repository/pager. */
  datatype Transform = Custom(id: nat) | Window(offset: int, limit: int)

  /** WHERE clauses, the trace of custom transforms that ran, OFFSET, LIMIT
      and ORDER BY clauses. */
  datatype Query = Query(
    wheres: seq<Clause>,
    trace: seq<nat>,
    offset: Option<int>,
    limit: Option<int>,
    orders: seq<Clause>)

  /** The query a data-access call starts from. */
  const Empty := Query([], [], None, None, [])

  /** The outcome of building a query: the query, or a Go panic. */
  datatype Step = Done(q: Query) | Panic(reason: string)

  /** query.Apply(t) */
  function Run(q: Query, t: Transform): Query
  {
    match t
    case Custom(id) => q.(trace := q.trace + [id])
    case Window(o, l) => q.(offset := Some(o), limit := Some(l))
  }

  /** Runs the transforms in order. */
  function RunAll(q: Query, ts: seq<Transform>): Query
    decreases |ts|
  {
    if |ts| == 0 then q else RunAll(Run(q, ts[0]), ts[1..])
  }

  /** Custom transforms among `ts`, by identity, in order. */
  function CustomIds(ts: seq<Transform>): seq<nat>
  {
    if |ts| == 0 then []
    else (if ts[0].Custom? then [ts[0].id] else []) + CustomIds(ts[1..])
  }

  /** Running transforms appends exactly the custom ones to the trace and
      touches neither WHERE nor ORDER BY; only a page window moves OFFSET
      and LIMIT. */
  lemma {:induction false} RunAllTrace(q: Query, ts: seq<Transform>)
    ensures RunAll(q, ts).trace == q.trace + CustomIds(ts)
    ensures RunAll(q, ts).wheres == q.wheres
    ensures RunAll(q, ts).orders == q.orders
    ensures (forall i :: 0 <= i < |ts| ==> ts[i].Custom?) ==>
      RunAll(q, ts).offset == q.offset && RunAll(q, ts).limit == q.limit
    decreases |ts|
  {
    if |ts| > 0 {
      RunAllTrace(Run(q, ts[0]), ts[1..]);
    }
  }
}
