/** The query builder as an object over Go slices, its compilers and its terminal operations. */
module QueryBuilder {
  import opened Schema
  import opened RowCodec
  import opened Create
  import opened QueryModel

  /** A Go slice: a window on a backing array that other slices may share. */
  datatype Slice<!T> = Slice(store: array<T>, len: nat) {
    predicate Valid() { len <= store.Length }

    ghost function View(): seq<T>
      requires Valid()
      reads store
    {
      store[..len]
    }
  }

  /** append: writes into spare capacity when there is enough, otherwise moves to a new array. */
  method Append<T>(s: Slice<T>, xs: seq<T>) returns (r: Slice<T>)
    requires s.Valid()
    modifies s.store
    ensures r.Valid() && r.View() == old(s.View()) + xs
    ensures r.store == s.store || fresh(r.store)
    ensures s.View() == old(s.View())
  {
    if s.len + |xs| <= s.store.Length {
      forall i | 0 <= i < |xs| { s.store[s.len + i] := xs[i]; }
      r := Slice(s.store, s.len + |xs|);
    } else {
      var prefix := s.store[..s.len];
      var all := prefix + xs;
      var grown := new T[2 * |all|](i => if 0 <= i < |all| then all[i] else all[0]);
      r := Slice(grown, |all|);
      assert grown[..|all|] == all;
    }
  }

  /** append to an empty slice literal: always a new array. */
  method CopyOf<T>(s: Slice<T>) returns (r: Slice<T>)
    requires s.Valid()
    ensures r.Valid() && r.View() == s.View() && fresh(r.store)
  {
    var all := s.store[..s.len];
    var copy := new T[|all|](i requires 0 <= i < |all| => all[i]);
    r := Slice(copy, |all|);
    assert copy[..] == all;
  }

  class QueryContext {
    var unique: Option<bool>
    var limit: Option<int>
    var offset: Option<int>
    var fields: Slice<Column>

    constructor (unique: Option<bool>, limit: Option<int>, offset: Option<int>, fields: Slice<Column>)
      ensures this.unique == unique && this.limit == limit && this.offset == offset && this.fields == fields
    {
      this.unique, this.limit, this.offset, this.fields := unique, limit, offset, fields;
    }
  }

  class APIKeyQuery {
    var ctx: QueryContext
    var order: Slice<OrderKey>
    var predicates: Slice<Filter>
    var path: Option<Path>
    var sql: Option<seq<Row>>

    ghost function Repr(): set<object>
      reads this, ctx
    {
      {this, ctx, ctx.fields.store, order.store, predicates.store}
    }

    ghost predicate Valid()
      reads this, ctx
    {
      && ctx.fields.Valid() && order.Valid() && predicates.Valid()
      && ctx.fields.store as object != order.store && ctx.fields.store as object != predicates.store
      && order.store as object != predicates.store
    }

    ghost function View(): Query
      requires Valid()
      reads this, ctx, Repr()
    {
      Query(ctx.unique, ctx.limit, ctx.offset, ctx.fields.View(), order.View(), predicates.View(), path, sql)
    }

    constructor (c: QueryContext, o: Slice<OrderKey>, p: Slice<Filter>, path: Option<Path>, sql: Option<seq<Row>>)
      ensures ctx == c && order == o && predicates == p && this.path == path && this.sql == sql
    {
      ctx, order, predicates, this.path, this.sql := c, o, p, path, sql;
    }

    // ---------- builder methods ----------

    method Where(ps: seq<Filter>)
      requires Valid()
      modifies Repr()
      ensures Valid() && fresh(Repr() - old(Repr()))
      ensures View() == old(View()).(filters := old(View()).filters + ps)
    {
      predicates := Append(predicates, ps);
    }

    method Order(o: seq<OrderKey>)
      requires Valid()
      modifies Repr()
      ensures Valid() && fresh(Repr() - old(Repr()))
      ensures View() == old(View()).(orders := old(View()).orders + o)
    {
      order := Append(order, o);
    }

    method Select(fields: seq<Column>)
      requires Valid()
      modifies Repr()
      ensures Valid() && fresh(Repr() - old(Repr()))
      ensures View() == old(View()).(fields := old(View()).fields + fields)
    {
      ctx.fields := Append(ctx.fields, fields);
    }

    method Limit(limit: int)
      requires Valid()
      modifies Repr()
      ensures Valid() && Repr() == old(Repr())
      ensures View() == old(View()).(limit := Some(limit))
    {
      ctx.limit := Some(limit);
    }

    method Offset(offset: int)
      requires Valid()
      modifies Repr()
      ensures Valid() && Repr() == old(Repr())
      ensures View() == old(View()).(offset := Some(offset))
    {
      ctx.offset := Some(offset);
    }

    method Unique(unique: bool)
      requires Valid()
      modifies Repr()
      ensures Valid() && Repr() == old(Repr())
      ensures View() == old(View()).(unique := Some(unique))
    {
      ctx.unique := Some(unique);
    }

    /** A duplicate that shares no memory with the original; the duplicate of nil is nil. */
    static method Clone(q: APIKeyQuery?) returns (c: APIKeyQuery?)
      requires q != null ==> q.Valid()
      ensures c == null <==> q == null
      ensures c != null ==> c.Valid() && fresh(c.Repr()) && c.View() == q.View()
    {
      if q == null {
        return null;
      }
      c := q.Duplicate();
    }

    method Duplicate() returns (c: APIKeyQuery)
      requires Valid()
      ensures c.Valid() && fresh(c.Repr())
      ensures c.View() == View()
    {
      var fields := CopyOf(ctx.fields);
      var context := new QueryContext(ctx.unique, ctx.limit, ctx.offset, fields);
      var o := CopyOf(order);
      var p := CopyOf(predicates);
      c := new APIKeyQuery(context, o, p, path, sql);
    }

    // ---------- compilers ----------

    method PrepareQuery() returns (err: Option<QueryError>)
      requires Valid()
      modifies `sql
      ensures Valid() && Repr() == old(Repr())
      ensures (View(), err) == Prepared(old(View()))
    {
      var k := 0;
      while k < ctx.fields.len
        invariant 0 <= k <= ctx.fields.len
        invariant FirstInvalid(View().fields, 0) == FirstInvalid(View().fields, k)
      {
        var f := ctx.fields.store[k];
        if !ValidColumn(f) {
          return Some(InvalidField(f));
        }
        k := k + 1;
      }
      match path
      case None => return None;
      case Some(PathFails(code)) => return Some(PathError(code));
      case Some(PathRows(rows)) =>
        sql := Some(rows);
        return None;
    }

    method MakeQuerySpec() returns (spec: QuerySpec)
      requires Valid()
      ensures spec == CompileSpec(View())
    {
      var unique := false;
      if ctx.unique.Some? {
        unique := ctx.unique.value;
      } else if path.Some? {
        unique := true;
      }
      var columns := AllColumns();
      if ctx.fields.len > 0 {
        columns := [Known(ID)];
        for i := 0 to ctx.fields.len
          invariant columns == [Known(ID)] + DropID(ctx.fields.View()[..i])
        {
          assert ctx.fields.View()[..i + 1][..i] == ctx.fields.View()[..i];
          if ctx.fields.store[i] != Known(ID) {
            columns := columns + [ctx.fields.store[i]];
          }
        }
        assert ctx.fields.View()[..ctx.fields.len] == ctx.fields.View();
      }
      var limit, offset := 0, 0;
      if ctx.limit.Some? { limit := ctx.limit.value; }
      if ctx.offset.Some? { offset := ctx.offset.value; }
      spec := QuerySpec(columns, sql, unique,
                        predicates.store[..predicates.len], order.store[..order.len], limit, offset);
    }

    method SqlQuery(table: seq<Row>) returns (s: Selector)
      requires Valid()
      ensures s == CompileSelector(View(), table)
    {
      var columns := ctx.fields.store[..ctx.fields.len];
      if |columns| == 0 {
        columns := AllColumns();
      }
      s := Selector(table, columns, [], [], false, None, None);
      if sql.Some? {
        s := s.(source := sql.value);
      }
      if ctx.unique.Some? && ctx.unique.value {
        s := s.(distinct := true);
      }
      for k := 0 to predicates.len
        invariant s == Selector(s.source, columns, predicates.View()[..k], [], s.distinct, None, None)
        invariant s.source == (if sql.Some? then sql.value else table) && s.distinct == (ctx.unique == Some(true))
      {
        s := s.(filters := s.filters + [predicates.store[k]]);
        assert predicates.View()[..k + 1] == predicates.View()[..k] + [predicates.View()[k]];
      }
      assert predicates.View()[..predicates.len] == predicates.View();
      for k := 0 to order.len
        invariant s == Selector(s.source, columns, predicates.View(), order.View()[..k], s.distinct, None, None)
        invariant s.source == (if sql.Some? then sql.value else table) && s.distinct == (ctx.unique == Some(true))
      {
        s := s.(orders := s.orders + [order.store[k]]);
        assert order.View()[..k + 1] == order.View()[..k] + [order.View()[k]];
      }
      assert order.View()[..order.len] == order.View();
      if ctx.offset.Some? {
        s := s.(offset := ctx.offset, limit := Some(MAX_INT32));
      }
      if ctx.limit.Some? {
        s := s.(limit := ctx.limit);
      }
    }

    // ---------- terminal operations ----------

    method RunAll(d: Store) returns (r: Result<seq<Node>, QueryError>)
      requires Valid()
      modifies Repr()
      ensures Valid() && fresh(Repr() - old(Repr()))
      ensures (View(), r) == All(d, old(View()))
    {
      var err := PrepareQuery();
      if err.Some? {
        return Err(err.value);
      }
      var spec := MakeQuerySpec();
      match Selected(d.engine, SpecSelector(spec, d.table))
      case Err(e) => r := Err(e);
      case Ok(rows) => r := ReadAll(d.codec, spec.columns, rows);
    }

    method RunFirst(d: Store) returns (r: Result<Node, QueryError>)
      requires Valid()
      modifies Repr()
      ensures Valid() && fresh(Repr() - old(Repr()))
      ensures (View(), r) == First(d, old(View()))
    {
      Limit(1);
      var nodes := RunAll(d);
      match nodes
      case Err(e) => r := Err(e);
      case Ok(ns) => r := if |ns| == 0 then Err(NotFound) else Ok(ns[0]);
    }

    method RunOnly(d: Store) returns (r: Result<Node, QueryError>)
      requires Valid()
      modifies Repr()
      ensures Valid() && fresh(Repr() - old(Repr()))
      ensures (View(), r) == Only(d, old(View()))
    {
      Limit(2);
      var nodes := RunAll(d);
      match nodes
      case Err(e) => r := Err(e);
      case Ok(ns) =>
        r := if |ns| == 1 then Ok(ns[0]) else if |ns| == 0 then Err(NotFound) else Err(NotSingular);
    }

    method RunIDs(d: Store) returns (r: Result<seq<int>, QueryError>)
      requires Valid()
      modifies Repr()
      ensures Valid() && fresh(Repr() - old(Repr()))
      ensures (View(), r) == IDs(d, old(View()))
    {
      if ctx.unique.None? && path.Some? {
        Unique(true);
      }
      Select([Known(ID)]);
      r := RunScan(d);
    }

    method RunScan(d: Store) returns (r: Result<seq<int>, QueryError>)
      requires Valid()
      modifies `sql
      ensures Valid() && Repr() == old(Repr())
      ensures (View(), r) == ScanInts(d, old(View()))
    {
      var err := PrepareQuery();
      if err.Some? {
        return Err(err.value);
      }
      var s := SqlQuery(d.table);
      match Selected(d.engine, s)
      case Err(e) => r := Err(e);
      case Ok(rows) =>
        r := if ctx.fields.len != 1 then Err(TooManyColumns(ctx.fields.len)) else Ok(RowIDs(rows));
    }

    method RunFirstID(d: Store) returns (r: Result<int, QueryError>)
      requires Valid()
      modifies Repr()
      ensures Valid() && fresh(Repr() - old(Repr()))
      ensures (View(), r) == FirstID(d, old(View()))
    {
      Limit(1);
      var ids := RunIDs(d);
      match ids
      case Err(e) => r := Err(e);
      case Ok(xs) => r := if |xs| == 0 then Err(NotFound) else Ok(xs[0]);
    }

    method RunOnlyID(d: Store) returns (r: Result<int, QueryError>)
      requires Valid()
      modifies Repr()
      ensures Valid() && fresh(Repr() - old(Repr()))
      ensures (View(), r) == OnlyID(d, old(View()))
    {
      Limit(2);
      var ids := RunIDs(d);
      match ids
      case Err(e) => r := Err(e);
      case Ok(xs) =>
        r := if |xs| == 1 then Ok(xs[0]) else if |xs| == 0 then Err(NotFound) else Err(NotSingular);
    }

    method RunExist(d: Store) returns (r: Result<bool, QueryError>)
      requires Valid()
      modifies Repr()
      ensures Valid() && fresh(Repr() - old(Repr()))
      ensures (View(), r) == Exist(d, old(View()))
    {
      var id := RunFirstID(d);
      match id
      case Ok(_) => r := Ok(true);
      case Err(e) => r := if e == NotFound then Ok(false) else Err(CheckExistence(e));
    }
  }

  // ---------- clone isolation ----------

  datatype Op =
    | DoWhere(ps: seq<Filter>) | DoOrder(keys: seq<OrderKey>) | DoSelect(fields: seq<Column>)
    | DoLimit(n: int) | DoOffset(n: int) | DoUnique(on: bool)
    | Run(t: Terminal, d: Store)

  function Applied(q: Query, op: Op): Query {
    match op
    case DoWhere(ps) => q.(filters := q.filters + ps)
    case DoOrder(keys) => q.(orders := q.orders + keys)
    case DoSelect(fields) => q.(fields := q.fields + fields)
    case DoLimit(n) => q.(limit := Some(n))
    case DoOffset(n) => q.(offset := Some(n))
    case DoUnique(on) => q.(unique := Some(on))
    case Run(t, d) => StateAfter(d, q, t)
  }

  function AppliedAll(q: Query, ops: seq<Op>): Query
    decreases |ops|
  {
    if ops == [] then q else AppliedAll(Applied(q, ops[0]), ops[1..])
  }

  method RunTerminal(q: APIKeyQuery, t: Terminal, d: Store)
    requires q.Valid()
    modifies q.Repr()
    ensures q.Valid() && fresh(q.Repr() - old(q.Repr()))
    ensures q.View() == StateAfter(d, old(q.View()), t)
  {
    match t
    case AllOf => var _ := q.RunAll(d);
    case FirstOf => var _ := q.RunFirst(d);
    case OnlyOf => var _ := q.RunOnly(d);
    case IDsOf => var _ := q.RunIDs(d);
    case FirstIDOf => var _ := q.RunFirstID(d);
    case OnlyIDOf => var _ := q.RunOnlyID(d);
    case ExistOf => var _ := q.RunExist(d);
  }

  method Perform(q: APIKeyQuery, op: Op)
    requires q.Valid()
    modifies q.Repr()
    ensures q.Valid() && fresh(q.Repr() - old(q.Repr()))
    ensures q.View() == Applied(old(q.View()), op)
  {
    match op
    case DoWhere(ps) => q.Where(ps);
    case DoOrder(keys) => q.Order(keys);
    case DoSelect(fields) => q.Select(fields);
    case DoLimit(n) => q.Limit(n);
    case DoOffset(n) => q.Offset(n);
    case DoUnique(on) => q.Unique(on);
    case Run(t, d) => RunTerminal(q, t, d);
  }

  /** One operation on a builder leaves a builder with separate memory untouched, and the memories
      stay separate. */
  method PerformBeside(q: APIKeyQuery, op: Op, other: APIKeyQuery)
    requires q.Valid() && other.Valid() && q.Repr() !! other.Repr()
    modifies q.Repr()
    ensures q.Valid() && q.View() == Applied(old(q.View()), op)
    ensures other.Valid() && other.View() == old(other.View()) && other.Repr() == old(other.Repr())
    ensures q.Repr() !! other.Repr() && fresh(q.Repr() - old(q.Repr()))
  {
    Perform(q, op);
  }

  /** An operation on the first or on the second of two builders. */
  datatype Turn = OnFirst(op: Op) | OnSecond(op: Op)

  function FirstOps(turns: seq<Turn>): seq<Op> {
    if turns == [] then []
    else if turns[0].OnFirst? then [turns[0].op] + FirstOps(turns[1..])
    else FirstOps(turns[1..])
  }

  function SecondOps(turns: seq<Turn>): seq<Op> {
    if turns == [] then []
    else if turns[0].OnSecond? then [turns[0].op] + SecondOps(turns[1..])
    else SecondOps(turns[1..])
  }

  lemma AppliedNext(q: Query, op: Op, ops: seq<Op>)
    ensures AppliedAll(q, [op] + ops) == AppliedAll(Applied(q, op), ops)
  {
    assert ([op] + ops)[1..] == ops;
  }

  /** Operations on two builders with separate memory, in any interleaving: each builder ends as if only
      its own operations had been performed. */
  method PerformAll(q: APIKeyQuery, other: APIKeyQuery, turns: seq<Turn>)
    requires q.Valid() && other.Valid() && q.Repr() !! other.Repr()
    modifies q.Repr() + other.Repr()
    ensures q.Valid() && q.View() == AppliedAll(old(q.View()), FirstOps(turns))
    ensures other.Valid() && other.View() == AppliedAll(old(other.View()), SecondOps(turns))
    ensures q.Repr() !! other.Repr()
    decreases |turns|
  {
    if turns != [] {
      ghost var v, w := q.View(), other.View();
      match turns[0] {
        case OnFirst(op) =>
          AppliedNext(v, op, FirstOps(turns[1..]));
          PerformBeside(q, op, other);
        case OnSecond(op) =>
          AppliedNext(w, op, SecondOps(turns[1..]));
          PerformBeside(other, op, q);
      }
      PerformAll(q, other, turns[1..]);
    }
  }

  /** After Clone, operations on the original and on the clone in any interleaving: each ends as if the
      other had never been touched. */
  method CloneThenDiverge(q: APIKeyQuery, turns: seq<Turn>) returns (c: APIKeyQuery)
    requires q.Valid()
    modifies q.Repr()
    ensures q.Valid() && c.Valid() && q.Repr() !! c.Repr()
    ensures q.View() == AppliedAll(old(q.View()), FirstOps(turns))
    ensures c.View() == AppliedAll(old(q.View()), SecondOps(turns))
  {
    c := APIKeyQuery.Clone(q);
    PerformAll(q, c, turns);
  }
}
