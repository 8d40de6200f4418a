/** repository/order: sort expressions, each added to the query as one
    ORDER BY clause. */
module Orders {
  import opened Results
  import opened Values
  import opened Queries
  import Text

  /** The six order directions. */
  datatype Direction = Asc | AscNullsFirst | AscNullsLast | Desc | DescNullsFirst | DescNullsLast

  /** The direction constants DirAsc ... DirDescNullsLast. */
  function DirName(d: Direction): string
  {
    match d
    case Asc => "ASC"
    case AscNullsFirst => "ASC NULLS FIRST"
    case AscNullsLast => "ASC NULLS LAST"
    case Desc => "DESC"
    case DescNullsFirst => "DESC NULLS FIRST"
    case DescNullsLast => "DESC NULLS LAST"
  }

  /** A sort expression: the column and its direction. */
  datatype Expression = Expression(column: string, dir: Direction)

  /** Expression(): the column placeholder followed by the direction. */
  function ExprFragment(e: Expression): string
  {
    "? " + DirName(e.dir)
  }

  /** Params(): the column as an identifier. */
  function ExprParams(e: Expression): seq<Param>
  {
    [Ident(e.column)]
  }

  /** Expr: the expression for a direction constant, or nil for any other
      string. */
  function Expr(field: string, dir: string): (r: Option<Expression>)
    ensures r.Some? ==> r.value.column == field && DirName(r.value.dir) == dir
  {
    if dir == "ASC" then Some(Expression(field, Asc))
    else if dir == "ASC NULLS FIRST" then Some(Expression(field, AscNullsFirst))
    else if dir == "ASC NULLS LAST" then Some(Expression(field, AscNullsLast))
    else if dir == "DESC" then Some(Expression(field, Desc))
    else if dir == "DESC NULLS FIRST" then Some(Expression(field, DescNullsFirst))
    else if dir == "DESC NULLS LAST" then Some(Expression(field, DescNullsLast))
    else None
  }

  /** Every direction constant maps back to its own direction. */
  lemma ExprRoundTrip(field: string, d: Direction)
    ensures Expr(field, DirName(d)) == Some(Expression(field, d))
  {
    match d
    case Asc =>
    case AscNullsFirst => assert "ASC NULLS FIRST" != "ASC";
    case AscNullsLast =>
      assert "ASC NULLS LAST" != "ASC";
      assert "ASC NULLS LAST"[11] != "ASC NULLS FIRST"[11];
    case Desc => assert "DESC"[0] != "ASC"[0];
    case DescNullsFirst => assert "DESC NULLS FIRST"[0] != "ASC"[0];
    case DescNullsLast => assert "DESC NULLS LAST"[0] != "ASC"[0];
  }

  /** Whether Expr is nil depends on the direction alone. */
  lemma ExprIgnoresField(a: string, b: string, dir: string)
    ensures Expr(a, dir).None? <==> Expr(b, dir).None?
  {
  }

  /** Expr is nil exactly for strings that are not a direction constant. */
  lemma ExprNil(field: string, dir: string)
    ensures Expr(field, dir).None? <==> forall d: Direction :: DirName(d) != dir
  {
    if Expr(field, dir).None? {
      forall d: Direction ensures DirName(d) != dir {
        ExprRoundTrip(field, d);
      }
    }
  }

  /** The ORDER BY clause of an expression. */
  function OrderBy(e: Expression): Clause
  {
    Clause(ExprFragment(e), ExprParams(e))
  }

  /** The ORDER BY clauses of an order, if none of its expressions is nil. */
  function OrderBys(s: seq<Option<Expression>>): (r: Option<seq<Clause>>)
    ensures r.Some? <==> forall i :: 0 <= i < |s| ==> s[i].Some?
    ensures r.Some? ==> (|r.value| == |s| &&
      forall i :: 0 <= i < |s| ==> r.value[i] == OrderBy(s[i].value))
  {
    if |s| == 0 then Some([])
    else if s[0].None? then None
    else
      var rest := OrderBys(s[1..]);
      if rest.None? then
        assert exists i :: 1 <= i < |s| && s[i].None? by {
          var j :| 0 <= j < |s[1..]| && s[1..][j].None?;
          assert s[j + 1].None?;
        }
        None
      else Some([OrderBy(s[0].value)] + rest.value)
  }

  /** Order.Apply: one ORDER BY per expression, in order; a nil expression
      (an Expr of an unknown direction) panics. */
  function Apply(s: seq<Option<Expression>>, q: Query): (r: Step)
    ensures r.Done? <==> forall i :: 0 <= i < |s| ==> s[i].Some?
    ensures r.Done? ==> (r.q.wheres == q.wheres && r.q.trace == q.trace &&
      r.q.offset == q.offset && r.q.limit == q.limit &&
      |r.q.orders| == |q.orders| + |s| && r.q.orders[..|q.orders|] == q.orders &&
      forall i :: 0 <= i < |s| ==> r.q.orders[|q.orders| + i] == OrderBy(s[i].value))
  {
    var bys := OrderBys(s);
    if bys.None? then Panic("nil order expression")
    else
      var orders := q.orders + bys.value;
      assert orders[..|q.orders|] == q.orders;
      Done(q.(orders := orders))
  }

  /** Each sort expression has one placeholder and binds one identifier. */
  lemma ExprAligned(e: Expression)
    ensures Text.Placeholders(ExprFragment(e)) == |ExprParams(e)| == 1
  {
    DirNameHasNoPlaceholder(e.dir);
    Text.NoPlaceholders(" " + DirName(e.dir));
    Text.PlaceholdersAppend("?", " " + DirName(e.dir));
  }

  lemma DirNameHasNoPlaceholder(d: Direction)
    ensures '?' !in " " + DirName(d)
  {
  }
}

/** repository/pager: a fixed offset/limit window as a query transform. */
module RepoPager {
  import opened Results
  import opened Queries

  /** New */
  function New(offset: int, limit: int): (t: Transform)
    ensures forall q: Query :: Run(q, t) == q.(offset := Some(offset), limit := Some(limit))
  {
    Window(offset, limit)
  }
}
