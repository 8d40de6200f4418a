/** The client handle (dbWrapper): a connection pool, optionally a
    transaction begun on it, and an optional wrapped query processor.
    Every statement goes to the transaction when there is one, otherwise to
    the pool. The database and the processor are parameters: the database
    is a function from the target of a statement to its outcome, the
    processor a function of the context, the query text and the outcome the
    unwrapped statement produces. */
module Wrapper {
  import opened Results
  import opened Errors
  import Converter

  /** A connection pool (pg.DB) with the context bound to it. */
  datatype Conn = Conn(pool: nat, ctx: nat)

  /** A transaction (pg.Tx) and the context it was begun under. */
  datatype Txn = Txn(id: nat, ctx: nat)

  /** A wrapped query processor, identified by the function value. */
  type Processor = (nat, string, Result<int, GoError>) -> Result<int, GoError>

  /** dbWrapper: the context set by WithContext, the pool, the transaction
      and the processor. */
  datatype Handle = Handle(
    ctx: Option<nat>,
    conn: Conn,
    txn: Option<Txn>,
    processor: Option<Processor>)

  /** Where a statement is sent. */
  datatype Target = OnTxn(txn: Txn) | OnConn(conn: Conn)

  /** What a statement is given as its query: a string, a query appender
      (orm.QueryAppender), given by what its AppendQuery renders with the
      formatter of a target (the text, or the error it reports), or any
      other value. */
  datatype QueryArg = Text(s: string) | Appender(render: Target -> Result<string, GoError>) | Other

  /** The text queryString takes from an appender rendered with the
      formatter of `f`: the rendering, or "" when AppendQuery fails. */
  function Rendered(render: Target -> Result<string, GoError>, f: Target): string
  {
    if render(f).Ok? then render(f).value else ""
  }

  /** NewDbClient */
  function NewDbClient(conn: Conn): (h: Handle)
    ensures h.txn.None? && h.processor.None? && h.conn == conn
  {
    Handle(None, conn, None, None)
  }

  /** The routing of Select, Insert, Update, Delete, Exec, Query, CopyFrom,
      CopyTo, FormatQuery, ForceDelete and the *Context variants. */
  function Route(h: Handle): (t: Target)
    ensures t.OnTxn? <==> h.txn.Some?
    ensures t.OnTxn? ==> t.txn == h.txn.value
    ensures t.OnConn? ==> t.conn == h.conn
  {
    if h.txn.Some? then OnTxn(h.txn.value) else OnConn(h.conn)
  }

  /** Context: the transaction's context, else the pool's. */
  function Context(h: Handle): nat
  {
    match Route(h)
    case OnTxn(t) => t.ctx
    case OnConn(c) => c.ctx
  }

  /** WithContext: records the context on the handle itself. */
  function WithContext(h: Handle, ctx: nat): (r: Handle)
    ensures r.ctx == Some(ctx) && Route(r) == Route(h)
  {
    h.(ctx := Some(ctx))
  }

  /** WrapWithContext: a new handle on the same pool bound to `ctx`,
      keeping the processor; the transaction is not carried over. */
  function WrapWithContext(h: Handle, ctx: nat): (r: Handle)
    ensures Route(r) == OnConn(h.conn.(ctx := ctx))
    ensures r.processor == h.processor && r.ctx.None?
  {
    Handle(None, h.conn.(ctx := ctx), None, h.processor)
  }

  /** StartTransaction: `begin` is what the pool's Begin returns, a fresh
      transaction id or an error; the error is passed through unchanged. */
  function StartTransaction(h: Handle, begin: Result<nat, GoError>): (r: Result<Handle, GoError>)
    ensures r.Err? <==> begin.Err?
    ensures r.Err? ==> r.error == begin.error
    ensures r.Ok? ==> Route(r.value) == OnTxn(Txn(begin.value, h.conn.ctx))
    ensures r.Ok? ==> r.value.conn == h.conn && r.value.processor == h.processor
  {
    match begin
    case Err(e) => Err(e)
    case Ok(id) => Ok(Handle(None, h.conn, Some(Txn(id, h.conn.ctx)), h.processor))
  }

  /** Formatter as written: the method calls itself on the same receiver.
      Each call uses one unit of `stack`; `None` is the stack running out,
      so no amount of stack makes it return. */
  function FormatterAsWritten(h: Handle, stack: nat): Option<Target>
  {
    if stack == 0 then None else FormatterAsWritten(h, stack - 1)
  }

  lemma {:induction false} FormatterNeverReturns(h: Handle, stack: nat)
    ensures FormatterAsWritten(h, stack).None?
  {
    if stack > 0 {
      FormatterNeverReturns(h, stack - 1);
    }
  }

  /** queryString as written: an appender needs the formatter, which never
      returns, so its text is never produced (`None`) whatever the stack. */
  function QueryStringAsWritten(h: Handle, q: QueryArg, stack: nat): Option<string>
  {
    match q
    case Appender(render) =>
      (match FormatterAsWritten(h, stack)
       case None => None
       case Some(f) => Some(Rendered(render, f)))
    case Text(s) => Some(s)
    case Other => Some("")
  }

  lemma QueryStringOfAppenderNeverReturns(h: Handle, render: Target -> Result<string, GoError>, stack: nat)
    ensures QueryStringAsWritten(h, Appender(render), stack).None?
  {
    FormatterNeverReturns(h, stack);
  }

  /** Formatter, corrected: the formatter of the transaction when there is
      one, else the pool's, as FormatQuery chooses. */
  function Formatter(h: Handle): Target
  {
    if h.txn.Some? then OnTxn(h.txn.value) else OnConn(h.conn)
  }

  /** queryString with the corrected formatter: a string as it is, an
      appender rendered with the formatter of the target the statement is
      sent to, and "" for anything else. */
  function QueryString(h: Handle, q: QueryArg): (r: string)
    ensures q.Text? ==> r == q.s
    ensures q.Other? ==> r == ""
    ensures q.Appender? ==> r == Rendered(q.render, Route(h))
  {
    match q
    case Appender(render) => Rendered(render, Formatter(h))
    case Text(s) => s
    case Other => ""
  }

  /** Only appenders need the formatter: on strings and other values
      queryString as written returns, with the corrected text. */
  lemma QueryStringAgreesBesideAppenders(h: Handle, q: QueryArg, stack: nat)
    requires stack > 0 && !q.Appender?
    ensures QueryStringAsWritten(h, q, stack) == Some(QueryString(h, q))
  {
  }

  /** A handle from StartTransaction renders appenders with the
      transaction's formatter; wrapping it with a context renders them with
      the pool's again. */
  lemma TransactionFormatsQueries(h: Handle, id: nat, ctx: nat, render: Target -> Result<string, GoError>)
    ensures StartTransaction(h, Ok(id)).Ok?
    ensures QueryString(StartTransaction(h, Ok(id)).value, Appender(render)) ==
      Rendered(render, OnTxn(Txn(id, h.conn.ctx)))
    ensures QueryString(WrapWithContext(StartTransaction(h, Ok(id)).value, ctx), Appender(render)) ==
      Rendered(render, OnConn(h.conn.(ctx := ctx)))
  {
  }

  /** Exec and Query (the two differ only in the receiver they pass along):
      the statement goes to the handle's target; a processor, when set,
      decides the outcome from the pool's context, the query text and the
      outcome of the unwrapped statement. The corrected queryString is
      used. */
  function Exec(h: Handle, q: QueryArg, db: Target -> Result<int, GoError>): (r: Result<int, GoError>)
    ensures h.processor.None? ==> r == db(Route(h))
    ensures h.processor.Some? ==> r == h.processor.value(h.conn.ctx, QueryString(h, q), db(Route(h)))
  {
    var inner := db(if h.txn.Some? then OnTxn(h.txn.value) else OnConn(h.conn));
    if h.processor.None? then inner
    else h.processor.value(h.conn.ctx, QueryString(h, q), inner)
  }

  /** Under a processor, the text it is shown and the outcome it is given
      come from the same target: an appender is rendered by the formatter
      of the pool or transaction that runs it. */
  lemma ProcessorSeesTargetRendering(h: Handle, render: Target -> Result<string, GoError>,
                                     db: Target -> Result<int, GoError>)
    requires h.processor.Some?
    ensures Exec(h, Appender(render), db) ==
      h.processor.value(h.conn.ctx, Rendered(render, Route(h)), db(Route(h)))
  {
  }

  /** Exec as written: the query text is computed before the processor is
      called, so with a processor and an appender Exec never returns
      (`None`). */
  function ExecAsWritten(h: Handle, q: QueryArg, db: Target -> Result<int, GoError>, stack: nat)
    : Option<Result<int, GoError>>
  {
    var inner := db(if h.txn.Some? then OnTxn(h.txn.value) else OnConn(h.conn));
    if h.processor.None? then Some(inner)
    else
      match QueryStringAsWritten(h, q, stack)
      case None => None
      case Some(text) => Some(h.processor.value(h.conn.ctx, text, inner))
  }

  lemma ExecOfAppenderNeverReturns(h: Handle, render: Target -> Result<string, GoError>,
                                   db: Target -> Result<int, GoError>, stack: nat)
    requires h.processor.Some?
    ensures ExecAsWritten(h, Appender(render), db, stack).None?
  {
    QueryStringOfAppenderNeverReturns(h, render, stack);
  }

  /** Without a processor, or with a query that is not an appender, Exec as
      written returns what the corrected Exec returns. */
  lemma ExecAgreesBesideAppenders(h: Handle, q: QueryArg, db: Target -> Result<int, GoError>, stack: nat)
    requires stack > 0 && (h.processor.None? || !q.Appender?)
    ensures ExecAsWritten(h, q, db, stack) == Some(Exec(h, q, db))
  {
    if h.processor.Some? {
      QueryStringAgreesBesideAppenders(h, q, stack);
    }
  }

  /** assertOneRow: no row is pg.ErrNoRows, more than one is
      pg.ErrMultiRows. A negative count (the driver's "no row count") passes. */
  function AssertOneRow(affected: int): (r: Option<GoError>)
    ensures r.None? <==> affected == 1 || affected < 0
    ensures r == Some(NoRows) <==> affected == 0
    ensures r == Some(MultiRows) <==> affected > 1
  {
    if affected == 0 then Some(NoRows)
    else if affected > 1 then Some(MultiRows)
    else None
  }

  /** ExecOne and QueryOne: a statement error is returned unchanged, without
      the row check; otherwise the row count must be one. */
  function ExecOne(h: Handle, q: QueryArg, db: Target -> Result<int, GoError>): (r: Result<int, GoError>)
    ensures Exec(h, q, db).Err? ==> r == Exec(h, q, db)
    ensures Exec(h, q, db).Ok? ==>
      var n := Exec(h, q, db).value;
      (r.Ok? <==> n == 1 || n < 0) &&
      (r.Ok? ==> r.value == n) &&
      (r.Err? ==> r.error == (if n == 0 then NoRows else MultiRows))
  {
    match Exec(h, q, db)
    case Err(e) => Err(e)
    case Ok(n) =>
      var check := AssertOneRow(n);
      if check.Some? then Err(check.value) else Ok(n)
  }

  /** The one-row check's errors are the sentinels the error converter
      classifies: no row is "not found", several are a "bad request". */
  lemma OneRowErrorsClassify(affected: int)
    requires AssertOneRow(affected).Some?
    ensures affected == 0 ==> IsNotFound(Some(Pkg(Converter.Convert(AssertOneRow(affected).value))))
    ensures affected > 1 ==> IsBadRequest(Some(Pkg(Converter.Convert(AssertOneRow(affected).value))))
  {
    Converter.ConvertedClassifiers(AssertOneRow(affected).value);
  }

  /** A handle from StartTransaction sends its statements to the new
      transaction; wrapping it with a context sends them back to the pool. */
  lemma TransactionRouting(h: Handle, id: nat, ctx: nat, q: QueryArg, db: Target -> Result<int, GoError>)
    requires h.processor.None?
    ensures StartTransaction(h, Ok(id)).Ok?
    ensures Exec(StartTransaction(h, Ok(id)).value, q, db) == db(OnTxn(Txn(id, h.conn.ctx)))
    ensures Exec(WrapWithContext(StartTransaction(h, Ok(id)).value, ctx), q, db) == db(OnConn(h.conn.(ctx := ctx)))
    ensures Context(StartTransaction(h, Ok(id)).value) == Context(h) || h.txn.Some?
  {
  }
}
