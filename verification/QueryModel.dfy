/** What a query builder selects: the two compilers, the selector they target, and the terminal
    operations, as functions of the builder's state. */
module QueryModel {
  import opened Schema
  import opened RowCodec
  import opened Create

  const MAX_INT32: nat := 0x7FFF_FFFF

  datatype Filter = Filter(holds: Row -> bool)

  datatype OrderKey = OrderKey(field: Field, descending: bool)

  /** The traversal that precedes a query: the rows it leads to (a row once per way of reaching it),
      or an error. */
  datatype Path = PathRows(rows: seq<Row>) | PathFails(code: int)

  /** The state of an APIKeyQuery with its context. */
  datatype Query = Query(
    unique: Option<bool>,
    limit: Option<int>,
    offset: Option<int>,
    fields: seq<Column>,
    orders: seq<OrderKey>,
    filters: seq<Filter>,
    path: Option<Path>,
    sql: Option<seq<Row>>)

  /** The database's ORDER BY. */
  datatype Engine = Engine(sort: (seq<OrderKey>, seq<Row>) -> seq<Row>) {
    ghost predicate Lawful() {
      forall keys, rows :: multiset(sort(keys, rows)) == multiset(rows)
    }
  }

  datatype QueryError =
    | InvalidField(column: Column)
    | PathError(code: int)
    | BadWindow
    | ScanFailed(reason: AssignError)
    | TooManyColumns(count: nat)
    | NotFound
    | NotSingular
    | CheckExistence(cause: QueryError)

  // ---------- selectors and their meaning ----------

  datatype Selector = Selector(
    source: seq<Row>,
    columns: seq<Column>,
    filters: seq<Filter>,
    orders: seq<OrderKey>,
    distinct: bool,
    offset: Option<int>,
    limit: Option<int>)

  predicate Passes(filters: seq<Filter>, r: Row) {
    forall k :: 0 <= k < |filters| ==> filters[k].holds(r)
  }

  function Keep(filters: seq<Filter>, rows: seq<Row>): seq<Row> {
    if rows == [] then []
    else
      var last := rows[|rows| - 1];
      Keep(filters, rows[..|rows| - 1]) + if Passes(filters, last) then [last] else []
  }

  predicate SameOn(cols: seq<Column>, r: Row, s: Row) {
    forall k :: 0 <= k < |cols| ==> At(r, cols[k]) == At(s, cols[k])
  }

  /** SELECT DISTINCT: the first row of each class of rows that agree on the selected columns. */
  function Dedup(cols: seq<Column>, rows: seq<Row>): seq<Row> {
    if rows == [] then []
    else
      var k := |rows| - 1;
      Dedup(cols, rows[..k]) + if exists j :: 0 <= j < k && SameOn(cols, rows[j], rows[k]) then [] else [rows[k]]
  }

  function Drop<T>(n: nat, s: seq<T>): seq<T> {
    if n < |s| then s[n..] else []
  }

  function Take<T>(n: nat, s: seq<T>): seq<T> {
    if n < |s| then s[..n] else s
  }

  /** OFFSET and LIMIT; a negative one is an error. */
  function Window(offset: Option<int>, limit: Option<int>, rows: seq<Row>): Result<seq<Row>, QueryError> {
    if (offset.Some? && offset.value < 0) || (limit.Some? && limit.value < 0) then Err(BadWindow)
    else
      var rest := if offset.Some? then Drop(offset.value, rows) else rows;
      Ok(if limit.Some? then Take(limit.value, rest) else rest)
  }

  function Sorted(e: Engine, orders: seq<OrderKey>, filters: seq<Filter>, source: seq<Row>): seq<Row> {
    e.sort(orders, Keep(filters, source))
  }

  function Selected(e: Engine, s: Selector): Result<seq<Row>, QueryError> {
    var rows := Sorted(e, s.orders, s.filters, s.source);
    Window(s.offset, s.limit, if s.distinct then Dedup(s.columns, rows) else rows)
  }

  // ---------- the two compilers ----------

  function DropID(fields: seq<Column>): seq<Column> {
    if fields == [] then []
    else
      var last := fields[|fields| - 1];
      DropID(fields[..|fields| - 1]) + if last != Known(ID) then [last] else []
  }

  /** The columns querySpec reads: all of them, or the ID and then the selected fields. */
  function SpecColumns(fields: seq<Column>): seq<Column> {
    if fields == [] then AllColumns() else [Known(ID)] + DropID(fields)
  }

  /** The graph library's query spec. A zero limit or offset means that there is none. */
  datatype QuerySpec = QuerySpec(
    columns: seq<Column>,
    from: Option<seq<Row>>,
    unique: bool,
    filters: seq<Filter>,
    orders: seq<OrderKey>,
    limit: int,
    offset: int)

  function CompileSpec(q: Query): QuerySpec {
    QuerySpec(
      SpecColumns(q.fields),
      q.sql,
      if q.unique.Some? then q.unique.value else q.path.Some?,
      q.filters,
      q.orders,
      if q.limit.Some? then q.limit.value else 0,
      if q.offset.Some? then q.offset.value else 0)
  }

  /** The selector that a query spec describes. */
  function SpecSelector(spec: QuerySpec, table: seq<Row>): Selector {
    Selector(
      if spec.from.Some? then spec.from.value else table,
      spec.columns, spec.filters, spec.orders, spec.unique,
      if spec.offset != 0 then Some(spec.offset) else None,
      if spec.limit != 0 then Some(spec.limit) else None)
  }

  /** sqlQuery. */
  function CompileSelector(q: Query, table: seq<Row>): Selector {
    Selector(
      if q.sql.Some? then q.sql.value else table,
      if q.fields == [] then AllColumns() else q.fields,
      q.filters, q.orders,
      q.unique == Some(true),
      q.offset,
      if q.limit.Some? then q.limit
      else if q.offset.Some? then Some(MAX_INT32)
      else None)
  }

  function SourceOf(q: Query, table: seq<Row>): seq<Row> {
    if q.sql.Some? then q.sql.value else table
  }

  function BySpec(e: Engine, q: Query, table: seq<Row>): Result<seq<Row>, QueryError> {
    Selected(e, SpecSelector(CompileSpec(q), table))
  }

  function BySelector(e: Engine, q: Query, table: seq<Row>): Result<seq<Row>, QueryError> {
    Selected(e, CompileSelector(q, table))
  }

  // ---------- prepareQuery and the terminal operations ----------

  /** The first field that is no column of the table, from position k on. */
  function FirstInvalid(fields: seq<Column>, k: nat): Option<Column>
    requires k <= |fields|
    decreases |fields| - k
  {
    if k == |fields| then None
    else if !ValidColumn(fields[k]) then Some(fields[k])
    else FirstInvalid(fields, k + 1)
  }

  function Prepared(q: Query): (Query, Option<QueryError>) {
    if FirstInvalid(q.fields, 0).Some? then (q, Some(InvalidField(FirstInvalid(q.fields, 0).value)))
    else
      match q.path
      case None => (q, None)
      case Some(PathFails(code)) => (q, Some(PathError(code)))
      case Some(PathRows(rows)) => (q.(sql := Some(rows)), None)
  }

  function ReadAll(codec: Codec, cols: seq<Column>, rows: seq<Row>): Result<seq<Node>, QueryError> {
    if rows == [] then Ok([])
    else
      var init := ReadAll(codec, cols, rows[..|rows| - 1]);
      if init.Err? then init
      else
        var r := Read(codec, cols, rows[|rows| - 1]);
        if r.1.Some? then Err(ScanFailed(r.1.value)) else Ok(init.value + [r.0])
  }

  /** The store as the query sees it. */
  datatype Store = Store(engine: Engine, codec: Codec, table: seq<Row>)

  function All(d: Store, q: Query): (Query, Result<seq<Node>, QueryError>) {
    var (p, err) := Prepared(q);
    if err.Some? then (p, Err(err.value))
    else
      match BySpec(d.engine, p, d.table)
      case Err(e) => (p, Err(e))
      case Ok(rows) => (p, ReadAll(d.codec, CompileSpec(p).columns, rows))
  }

  function First(d: Store, q: Query): (Query, Result<Node, QueryError>) {
    var (p, r) := All(d, q.(limit := Some(1)));
    (p, match r
        case Err(e) => Err(e)
        case Ok(nodes) => if |nodes| == 0 then Err(NotFound) else Ok(nodes[0]))
  }

  function Only(d: Store, q: Query): (Query, Result<Node, QueryError>) {
    var (p, r) := All(d, q.(limit := Some(2)));
    (p, match r
        case Err(e) => Err(e)
        case Ok(nodes) =>
          if |nodes| == 1 then Ok(nodes[0])
          else if |nodes| == 0 then Err(NotFound)
          else Err(NotSingular))
  }

  function RowID(r: Row): int {
    match At(r, Known(ID)) case DbInt(n) => n case _ => 0
  }

  function RowIDs(rows: seq<Row>): (ids: seq<int>)
    ensures |ids| == |rows| && forall k :: 0 <= k < |rows| ==> ids[k] == RowID(rows[k])
  {
    seq(|rows|, k requires 0 <= k < |rows| => RowID(rows[k]))
  }

  /** What IDs does to the builder before it scans. */
  function ForIDs(q: Query): Query {
    var q := if q.unique.None? && q.path.Some? then q.(unique := Some(true)) else q;
    q.(fields := q.fields + [Known(ID)])
  }

  function IDs(d: Store, q: Query): (Query, Result<seq<int>, QueryError>) {
    ScanInts(d, ForIDs(q))
  }

  /** Scanning the selected fields into a slice of int takes rows of one column. */
  function ScanInts(d: Store, q: Query): (Query, Result<seq<int>, QueryError>) {
    var (p, err) := Prepared(q);
    if err.Some? then (p, Err(err.value))
    else
      match BySelector(d.engine, p, d.table)
      case Err(e) => (p, Err(e))
      case Ok(rows) =>
        if |p.fields| != 1 then (p, Err(TooManyColumns(|p.fields|))) else (p, Ok(RowIDs(rows)))
  }

  function FirstID(d: Store, q: Query): (Query, Result<int, QueryError>) {
    var (p, r) := IDs(d, q.(limit := Some(1)));
    (p, match r
        case Err(e) => Err(e)
        case Ok(ids) => if |ids| == 0 then Err(NotFound) else Ok(ids[0]))
  }

  function OnlyID(d: Store, q: Query): (Query, Result<int, QueryError>) {
    var (p, r) := IDs(d, q.(limit := Some(2)));
    (p, match r
        case Err(e) => Err(e)
        case Ok(ids) =>
          if |ids| == 1 then Ok(ids[0])
          else if |ids| == 0 then Err(NotFound)
          else Err(NotSingular))
  }

  function Exist(d: Store, q: Query): (Query, Result<bool, QueryError>) {
    var (p, r) := FirstID(d, q);
    (p, match r
        case Ok(_) => Ok(true)
        case Err(NotFound) => Ok(false)
        case Err(e) => Err(CheckExistence(e)))
  }

  // ---------- the terminal operations together ----------

  datatype Terminal = AllOf | FirstOf | OnlyOf | IDsOf | FirstIDOf | OnlyIDOf | ExistOf

  /** What a terminal operation leaves of the builder. */
  function StateAfter(d: Store, q: Query, t: Terminal): Query {
    match t
    case AllOf => All(d, q).0
    case FirstOf => First(d, q).0
    case OnlyOf => Only(d, q).0
    case IDsOf => IDs(d, q).0
    case FirstIDOf => FirstID(d, q).0
    case OnlyIDOf => OnlyID(d, q).0
    case ExistOf => Exist(d, q).0
  }

  datatype Answer =
    | Nodes(nodes: Result<seq<Node>, QueryError>)
    | OneNode(node: Result<Node, QueryError>)
    | IDList(ids: Result<seq<int>, QueryError>)
    | OneID(id: Result<int, QueryError>)
    | Found(found: Result<bool, QueryError>)

  /** What it returns. */
  function Answered(d: Store, q: Query, t: Terminal): Answer {
    match t
    case AllOf => Nodes(All(d, q).1)
    case FirstOf => OneNode(First(d, q).1)
    case OnlyOf => OneNode(Only(d, q).1)
    case IDsOf => IDList(IDs(d, q).1)
    case FirstIDOf => OneID(FirstID(d, q).1)
    case OnlyIDOf => OneID(OnlyID(d, q).1)
    case ExistOf => Found(Exist(d, q).1)
  }

  /** How it reports an error. */
  function Failing(t: Terminal, e: QueryError): Answer {
    match t
    case AllOf => Nodes(Err(e))
    case FirstOf | OnlyOf => OneNode(Err(e))
    case IDsOf => IDList(Err(e))
    case FirstIDOf | OnlyIDOf => OneID(Err(e))
    case ExistOf => Found(Err(CheckExistence(e)))
  }

  function Failed(a: Answer): bool {
    match a
    case Nodes(r) => r.Err?
    case OneNode(r) => r.Err?
    case IDList(r) => r.Err?
    case OneID(r) => r.Err?
    case Found(r) => r.Err?
  }

  /** The operations that go through IDs. */
  predicate ThroughIDs(t: Terminal) {
    t.IDsOf? || t.FirstIDOf? || t.OnlyIDOf? || t.ExistOf?
  }
}
