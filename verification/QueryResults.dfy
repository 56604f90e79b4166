/** First, Only, IDs, FirstID, OnlyID and Exist against the unbounded result list. */
module QueryResults {
  import opened Schema
  import opened RowCodec
  import opened Create
  import opened QueryModel
  import opened QueryTheorems

  /** The builder can run: its fields are columns and its traversal, if any, succeeds. */
  ghost predicate Runs(q: Query) {
    Prepared(q).1 == None
  }

  /** Everything the query matches after its offset: the result of All with no limit. */
  function Unbounded(d: Store, q: Query): Result<seq<Row>, QueryError> {
    BySpec(d.engine, Prepared(q).0.(limit := None), d.table)
  }

  ghost predicate WellStored(d: Store, q: Query) {
    && d.engine.Lawful()
    && Keyed(SourceOf(Prepared(q).0, d.table))
  }

  ghost predicate RowsReadable(codec: Codec, rows: seq<Row>) {
    forall k :: 0 <= k < |rows| ==> Readable(codec, rows[k])
  }

  function NodeFrom(d: Store, q: Query, r: Row): Node {
    Read(d.codec, SpecColumns(q.fields), r).0
  }

  /** A positive limit cuts the unbounded list and does nothing else. */
  lemma LimitCuts(d: Store, q: Query, n: nat)
    requires Runs(q) && n > 0
    ensures Prepared(q.(limit := Some(n))) == (Prepared(q).0.(limit := Some(n)), None)
    ensures BySpec(d.engine, Prepared(q).0.(limit := Some(n)), d.table)
         == match Unbounded(d, q) case Ok(rows) => Ok(Take(n, rows)) case Err(e) => Err(e)
  {
  }

  lemma {:induction false} ReadableRowsRead(codec: Codec, cols: seq<Column>, rows: seq<Row>)
    requires RowsReadable(codec, rows)
    ensures ReadAll(codec, cols, rows).Ok?
    ensures |ReadAll(codec, cols, rows).value| == |rows|
    ensures forall k :: 0 <= k < |rows| ==> ReadAll(codec, cols, rows).value[k] == Read(codec, cols, rows[k]).0
  {
    if rows != [] {
      var k := |rows| - 1;
      assert RowsReadable(codec, rows[..k]) by {
        forall j | 0 <= j < k ensures Readable(codec, rows[..k][j]) { assert rows[..k][j] == rows[j]; }
      }
      ReadableRowsRead(codec, cols, rows[..k]);
      ReadIsPicture(codec, cols, rows[k]);
    }
  }

  lemma TakeReadable(codec: Codec, rows: seq<Row>, n: nat)
    requires RowsReadable(codec, rows)
    ensures RowsReadable(codec, Take(n, rows))
  {
  }

  /** All under a positive limit returns the nodes of the first rows of the unbounded list. */
  lemma LimitedAll(d: Store, q: Query, n: nat, rows: seq<Row>)
    requires Runs(q) && n > 0 && Unbounded(d, q) == Ok(rows) && RowsReadable(d.codec, rows)
    ensures All(d, q.(limit := Some(n))).1.Ok?
    ensures var nodes := All(d, q.(limit := Some(n))).1.value;
            && |nodes| == |Take(n, rows)|
            && forall k :: 0 <= k < |nodes| ==> nodes[k] == NodeFrom(d, q, rows[k])
  {
    AllIsRead(d, q, n, rows);
    TakeReadable(d.codec, rows, n);
    ReadableRowsRead(d.codec, SpecColumns(q.fields), Take(n, rows));
    forall k | 0 <= k < |Take(n, rows)| ensures Take(n, rows)[k] == rows[k] {}
  }

  lemma AllIsRead(d: Store, q: Query, n: nat, rows: seq<Row>)
    requires Runs(q) && n > 0 && Unbounded(d, q) == Ok(rows)
    ensures All(d, q.(limit := Some(n))).1 == ReadAll(d.codec, SpecColumns(q.fields), Take(n, rows))
  {
    LimitCuts(d, q, n);
  }

  /** First returns the node of the first match, whatever limit was set before, and not-found
      exactly when nothing matches. */
  lemma FirstRefinesUnbounded(d: Store, q: Query, rows: seq<Row>)
    requires Runs(q) && Unbounded(d, q) == Ok(rows) && RowsReadable(d.codec, rows)
    ensures First(d, q).1 == if |rows| == 0 then Err(NotFound) else Ok(NodeFrom(d, q, rows[0]))
  {
    LimitedAll(d, q, 1, rows);
  }

  /** Only returns the row if and only if there is exactly one match, not-found if and only if there
      is none, not-singular if and only if there are two or more. */
  lemma OnlyRefinesUnbounded(d: Store, q: Query, rows: seq<Row>)
    requires Runs(q) && Unbounded(d, q) == Ok(rows) && RowsReadable(d.codec, rows)
    ensures Only(d, q).1 == if |rows| == 0 then Err(NotFound)
                            else if |rows| == 1 then Ok(NodeFrom(d, q, rows[0]))
                            else Err(NotSingular)
  {
    LimitedAll(d, q, 2, rows);
  }

  // ---------- IDs ----------

  /** Whatever the builder, IDs leaves it in a state in which DISTINCT means the same to both
      compilers, so that only the window can still make them differ. */
  lemma IDsEstablishesAgreement(q: Query)
    ensures DistinctAgrees(ForIDs(q))
    ensures q.limit != Some(0) ==> ShapeAgrees(ForIDs(q))
  {
    assert ForIDs(q).fields[|q.fields|] == Known(ID);
  }

  lemma {:induction false} InvalidFieldPersists(fields: seq<Column>, c: Column, k: nat)
    requires k <= |fields| && ValidColumn(c)
    ensures FirstInvalid(fields + [c], k) == FirstInvalid(fields, k)
    decreases |fields| - k
  {
    if k < |fields| { InvalidFieldPersists(fields, c, k + 1); }
  }

  lemma PreparedForIDs(q: Query)
    ensures Prepared(ForIDs(q)).1 == Prepared(q).1
    ensures Runs(q) ==> Prepared(ForIDs(q)).0 == ForIDs(Prepared(q).0)
  {
    FieldIsListed(ID);
    InvalidFieldPersists(q.fields, Known(ID), 0);
  }

  /** The rows behind IDs are the rows behind All. */
  lemma IDsSeeTheRowsOfAll(e: Engine, q: Query, table: seq<Row>)
    requires e.Lawful() && Keyed(SourceOf(q, table))
    ensures BySpec(e, ForIDs(q), table) == BySpec(e, q, table)
  {
    SpecRowsForIDs(e, q, ForIDs(q), table);
    WindowOf(e, q, table);
    WindowOf(e, ForIDs(q), table);
  }

  lemma SpecRowsForIDs(e: Engine, q: Query, p: Query, table: seq<Row>)
    requires e.Lawful() && Keyed(SourceOf(q, table))
    requires p.orders == q.orders && p.filters == q.filters && p.sql == q.sql
    requires CompileSpec(p).unique == CompileSpec(q).unique
    ensures SpecRows(e, p, table) == SpecRows(e, q, table)
  {
    SpecColumnsHaveKey(q.fields);
    SpecColumnsHaveKey(p.fields);
    SortedKeyed(e, q.orders, q.filters, SourceOf(q, table));
    KeyedDedup(SpecColumns(q.fields), SpecColumns(p.fields), Sorted(e, q.orders, q.filters, SourceOf(q, table)));
  }

  /** On a builder with no field selection, IDs returns the IDs of the rows that All reads, in the
      same order, unless the limit is zero or more than MaxInt32 rows follow an unlimited offset. */
  lemma IDsMatchAll(d: Store, q: Query)
    requires Runs(q) && WellStored(d, q) && q.fields == [] && q.limit != Some(0)
    requires WindowFits(d.engine, Prepared(ForIDs(q)).0, d.table)
    ensures IDs(d, q).1 == IDsOf(BySpec(d.engine, Prepared(q).0, d.table))
  {
    PreparedForIDs(q);
    IDsMatchRows(d, q, Prepared(q).0);
  }

  function IDsOf(r: Result<seq<Row>, QueryError>): Result<seq<int>, QueryError> {
    match r
    case Ok(rows) => Ok(RowIDs(rows))
    case Err(e) => Err(e)
  }

  lemma IDsMatchRows(d: Store, q: Query, p: Query)
    requires Prepared(ForIDs(q)) == (ForIDs(p), None) && p.fields == [] && p.limit != Some(0)
    requires d.engine.Lawful() && Keyed(SourceOf(p, d.table)) && WindowFits(d.engine, ForIDs(p), d.table)
    ensures IDs(d, q).1 == IDsOf(BySpec(d.engine, p, d.table))
  {
    SelectorSeesRowsOfAll(d.engine, p, ForIDs(p), d.table);
    IDsOfRows(d, q, ForIDs(p), BySpec(d.engine, p, d.table));
  }

  lemma SelectorSeesRowsOfAll(e: Engine, p: Query, ids: Query, table: seq<Row>)
    requires ids == ForIDs(p) && p.limit != Some(0)
    requires e.Lawful() && Keyed(SourceOf(p, table)) && WindowFits(e, ids, table)
    ensures BySelector(e, ids, table) == BySpec(e, p, table)
  {
    IDsSeeTheRowsOfAll(e, p, table);
    IDsEstablishesAgreement(p);
    IDRowsAgree(e, ids, table);
  }

  lemma IDsOfRows(d: Store, q: Query, p: Query, rows: Result<seq<Row>, QueryError>)
    requires Prepared(ForIDs(q)) == (p, None) && |p.fields| == 1 && BySelector(d.engine, p, d.table) == rows
    ensures IDs(d, q).1 == IDsOf(rows)
  {
  }

  lemma IDRowsAgree(e: Engine, p: Query, table: seq<Row>)
    requires e.Lawful() && Keyed(SourceOf(p, table)) && ShapeAgrees(p) && WindowFits(e, p, table)
    ensures BySelector(e, p, table) == BySpec(e, p, table)
  {
    CompilersAgree(e, p, table);
    assert AgreeOn(e, p, table);
  }

  /** IDs succeeds if and only if no field was selected, the builder can run, and neither bound of its
      window is negative. */
  lemma IDsSucceedIff(d: Store, q: Query)
    ensures IDs(d, q).1.Ok? <==>
              q.fields == [] && Runs(q) && Start(q) >= 0 && (q.limit.Some? ==> q.limit.value >= 0)
  {
    PreparedForIDs(q);
  }

  lemma SelectedFieldsFail(d: Store, q: Query, t: Terminal)
    requires q.fields != [] && ThroughIDs(t)
    ensures Failed(Answered(d, q, t))
  {
    IDsSucceedIff(d, q);
    IDsSucceedIff(d, q.(limit := Some(1)));
    IDsSucceedIff(d, q.(limit := Some(2)));
    NoNotFound(d, q.(limit := Some(1)));
  }

  lemma NoNotFound(d: Store, q: Query)
    ensures IDs(d, q).1 != Err(NotFound) && IDs(d, q).1 != Err(NotSingular)
  {
  }

  /** Each operation that goes through IDs fails on a builder that already has selected fields, and
      leaves every builder in that state: after any of them, none of them succeeds again on the same
      builder, whatever the store holds by then. In particular Exist reports an error and not that
      there is no match. */
  lemma IDsOnlyOnce(d: Store, later: Store, first: Terminal, second: Terminal, q: Query)
    requires ThroughIDs(first) && ThroughIDs(second)
    ensures q.fields != [] ==> Failed(Answered(d, q, first))
    ensures Failed(Answered(later, StateAfter(d, q, first), second))
  {
    if q.fields != [] { SelectedFieldsFail(d, q, first); }
    TerminalsLeave(d, q, first);
    assert (q.fields + [Known(ID)])[|q.fields|] == Known(ID);
    SelectedFieldsFail(later, StateAfter(d, q, first), second);
  }

  // ---------- what an operation leaves of the builder ----------

  predicate AllKnown(fields: seq<Column>) {
    forall k :: 0 <= k < |fields| ==> fields[k].Known?
  }

  /** The first unknown field from k on is found; if there is none, neither is an error. */
  lemma {:induction false} FirstInvalidFrom(fields: seq<Column>, k: nat)
    requires k <= |fields|
    ensures (forall j :: k <= j < |fields| ==> fields[j].Known?) ==> FirstInvalid(fields, k) == None
    ensures forall i | k <= i < |fields| && fields[i].Other? && (forall j :: k <= j < i ==> fields[j].Known?) ::
              FirstInvalid(fields, k) == Some(fields[i])
    decreases |fields| - k
  {
    if k < |fields| {
      ValidColumnIsKnown(fields[k]);
      FirstInvalidFrom(fields, k + 1);
    }
  }

  /** What preparing does, in terms of the builder alone. */
  lemma PreparedMeans(q: Query)
    ensures AllKnown(q.fields) && q.path == None ==> Prepared(q) == (q, None)
    ensures AllKnown(q.fields) && q.path.Some? && q.path.value.PathRows? ==>
              Prepared(q) == (q.(sql := Some(q.path.value.rows)), None)
    ensures AllKnown(q.fields) && q.path.Some? && q.path.value.PathFails? ==>
              Prepared(q) == (q, Some(PathError(q.path.value.code)))
    ensures forall i | 0 <= i < |q.fields| && q.fields[i].Other? && AllKnown(q.fields[..i]) ::
              Prepared(q) == (q, Some(InvalidField(q.fields[i])))
  {
    if AllKnown(q.fields) { FirstInvalidFrom(q.fields, 0); }
    forall i | 0 <= i < |q.fields| && q.fields[i].Other? && AllKnown(q.fields[..i])
      ensures Prepared(q) == (q, Some(InvalidField(q.fields[i])))
    {
      UnknownFieldFails(q, i);
    }
  }

  lemma UnknownFieldFails(q: Query, i: nat)
    requires i < |q.fields| && q.fields[i].Other? && AllKnown(q.fields[..i])
    ensures Prepared(q) == (q, Some(InvalidField(q.fields[i])))
  {
    assert forall j :: 0 <= j < i ==> q.fields[..i][j] == q.fields[j];
    FirstInvalidFrom(q.fields, 0);
  }

  /** What each operation leaves: First and Exist a limit of one, Only a limit of two, those through IDs
      the ID among the fields and Unique after a traversal; a traversal that was taken stays taken, and
      everything else is as it was. */
  lemma TerminalsLeave(d: Store, q: Query, t: Terminal)
    ensures var p := StateAfter(d, q, t);
            && p.filters == q.filters && p.orders == q.orders && p.offset == q.offset && p.path == q.path
            && p.fields == q.fields + (if ThroughIDs(t) then [Known(ID)] else [])
            && p.unique == (if ThroughIDs(t) && q.unique.None? && q.path.Some? then Some(true) else q.unique)
            && p.limit == (match t
                           case FirstOf | FirstIDOf | ExistOf => Some(1)
                           case OnlyOf | OnlyIDOf => Some(2)
                           case _ => q.limit)
            && p.sql == (if AllKnown(q.fields) && q.path.Some? && q.path.value.PathRows?
                         then Some(q.path.value.rows) else q.sql)
  {
    assert q.fields + [] == q.fields;
    var l := if t.FirstOf? || t.FirstIDOf? || t.ExistOf? then q.(limit := Some(1))
             else if t.OnlyOf? || t.OnlyIDOf? then q.(limit := Some(2)) else q;
    if ThroughIDs(t) { IDsLeave(d, l); } else { AllLeaves(d, l); }
  }

  lemma PreparedLeaves(q: Query)
    ensures Prepared(q).0 == q.(sql := if AllKnown(q.fields) && q.path.Some? && q.path.value.PathRows?
                                       then Some(q.path.value.rows) else q.sql)
  {
    PreparedMeans(q);
    if !AllKnown(q.fields) { FirstUnknown(q.fields); }
  }

  lemma {:induction false} FirstUnknown(fields: seq<Column>)
    requires !AllKnown(fields)
    ensures exists i :: 0 <= i < |fields| && fields[i].Other? && AllKnown(fields[..i])
  {
    var n := |fields| - 1;
    if AllKnown(fields[..n]) {
      assert forall j :: 0 <= j < n ==> fields[..n][j] == fields[j];
      assert fields[n].Other?;
    } else {
      FirstUnknown(fields[..n]);
      var i :| 0 <= i < n && fields[..n][i].Other? && AllKnown(fields[..n][..i]);
      assert fields[..n][..i] == fields[..i] && fields[i].Other?;
    }
  }

  lemma AllLeaves(d: Store, q: Query)
    ensures All(d, q).0 == Prepared(q).0
    ensures Prepared(q).0 == q.(sql := if AllKnown(q.fields) && q.path.Some? && q.path.value.PathRows?
                                       then Some(q.path.value.rows) else q.sql)
  {
    PreparedLeaves(q);
  }

  lemma IDsLeave(d: Store, q: Query)
    ensures IDs(d, q).0 == ForIDs(q).(sql := if AllKnown(q.fields) && q.path.Some? && q.path.value.PathRows?
                                             then Some(q.path.value.rows) else q.sql)
  {
    PreparedLeaves(ForIDs(q));
    assert IDs(d, q).0 == Prepared(ForIDs(q)).0;
    var longer := q.fields + [Known(ID)];
    assert AllKnown(longer) <==> AllKnown(q.fields) by {
      assert forall k :: 0 <= k < |q.fields| ==> longer[k] == q.fields[k];
    }
  }

  lemma LimitedIDs(d: Store, q: Query, n: nat, rows: seq<Row>)
    requires Runs(q) && WellStored(d, q) && q.fields == [] && n > 0 && Unbounded(d, q) == Ok(rows)
    ensures IDs(d, q.(limit := Some(n))).1 == Ok(RowIDs(Take(n, rows)))
  {
    var l := q.(limit := Some(n));
    LimitCuts(d, q, n);
    PreparedForIDs(l);
    IDsMatchAll(d, l);
  }

  /** FirstID, OnlyID and Exist against the unbounded list, for any previously set limit. */
  lemma IDOperationsRefineUnbounded(d: Store, q: Query, rows: seq<Row>)
    requires Runs(q) && WellStored(d, q) && q.fields == [] && Unbounded(d, q) == Ok(rows)
    ensures FirstID(d, q).1 == if |rows| == 0 then Err(NotFound) else Ok(RowID(rows[0]))
    ensures OnlyID(d, q).1 == if |rows| == 0 then Err(NotFound)
                              else if |rows| == 1 then Ok(RowID(rows[0]))
                              else Err(NotSingular)
    ensures Exist(d, q).1 == Ok(|rows| > 0)
  {
    LimitedIDs(d, q, 1, rows);
    LimitedIDs(d, q, 2, rows);
  }

  ghost predicate SomeMatch(filters: seq<Filter>, rows: seq<Row>) {
    exists k :: 0 <= k < |rows| && Passes(filters, rows[k])
  }

  /** Without an offset, Exist is true if and only if some row of the source passes every filter. */
  lemma ExistFindsMatch(d: Store, q: Query)
    requires Runs(q) && WellStored(d, q) && q.fields == [] && q.offset == None
    ensures Exist(d, q).1 == Ok(SomeMatch(q.filters, SourceOf(Prepared(q).0, d.table)))
  {
    var p := Prepared(q).0.(limit := None);
    ExistCounts(d, q, p);
    MatchesRemain(d.engine, p, d.table);
    PreparedKeepsFilters(q);
  }

  lemma PreparedKeepsFilters(q: Query)
    ensures Prepared(q).0.filters == q.filters
  {
  }

  lemma ExistCounts(d: Store, q: Query, p: Query)
    requires Runs(q) && WellStored(d, q) && q.fields == [] && q.offset == None && p == Prepared(q).0.(limit := None)
    ensures Exist(d, q).1 == Ok(|SpecRows(d.engine, p, d.table)| > 0)
  {
    UnboundedRows(d, q, p);
    IDOperationsRefineUnbounded(d, q, SpecRows(d.engine, p, d.table));
  }

  lemma UnboundedRows(d: Store, q: Query, p: Query)
    requires Runs(q) && q.offset == None && p == Prepared(q).0.(limit := None)
    ensures Unbounded(d, q) == Ok(SpecRows(d.engine, p, d.table))
  {
    WindowOf(d.engine, p, d.table);
  }

  /** Sorting and removing duplicates leave some row exactly when some row passes the filters. */
  lemma MatchesRemain(e: Engine, p: Query, table: seq<Row>)
    requires e.Lawful()
    ensures |SpecRows(e, p, table)| > 0 <==> SomeMatch(p.filters, SourceOf(p, table))
  {
    var source := SourceOf(p, table);
    var sorted := Sorted(e, p.orders, p.filters, source);
    if sorted != [] {
      DedupKeepsFirst(SpecColumns(p.fields), sorted);
      SortedRows(e, p.orders, p.filters, source, sorted[0]);
      var k :| 0 <= k < |source| && source[k] == sorted[0];
      assert Passes(p.filters, source[k]);
    }
    forall k | 0 <= k < |source| && Passes(p.filters, source[k]) ensures sorted != [] {
      SortedRows(e, p.orders, p.filters, source, source[k]);
    }
  }

  /** A builder that cannot run makes every operation report why, whatever the store holds. */
  lemma FailuresAreReported(d: Store, q: Query, e: QueryError, t: Terminal)
    requires Prepared(q).1 == Some(e)
    ensures Answered(d, q, t) == Failing(t, e)
  {
    PreparedForIDs(q);
    PreparedForIDs(q.(limit := Some(1)));
    PreparedForIDs(q.(limit := Some(2)));
    assert e != NotFound;
  }

  /** The first selected field that is no column of the table is reported by every operation, before any
      traversal is taken. */
  lemma UnknownFieldIsReported(d: Store, q: Query, t: Terminal, i: nat)
    requires i < |q.fields| && q.fields[i].Other? && AllKnown(q.fields[..i])
    ensures Answered(d, q, t) == Failing(t, InvalidField(q.fields[i]))
  {
    PreparedMeans(q);
    FailuresAreReported(d, q, InvalidField(q.fields[i]), t);
  }

  /** With valid fields, so is the error of a traversal that fails. */
  lemma FailingTraversalIsReported(d: Store, q: Query, t: Terminal, code: int)
    requires AllKnown(q.fields) && q.path == Some(PathFails(code))
    ensures Answered(d, q, t) == Failing(t, PathError(code))
  {
    PreparedMeans(q);
    FailuresAreReported(d, q, PathError(code), t);
  }

  /** A negative offset is an error of every operation. */
  lemma NegativeOffsetIsReported(d: Store, q: Query, t: Terminal)
    requires AllKnown(q.fields) && (q.path.Some? ==> q.path.value.PathRows?) && Start(q) < 0
    ensures Answered(d, q, t) == Failing(t, BadWindow)
  {
    PreparedMeans(q);
    PreparedForIDs(q);
    NegativeOffset(d, q);
    NegativeOffset(d, q.(limit := Some(1)));
    NegativeOffset(d, q.(limit := Some(2)));
  }

  lemma NegativeOffset(d: Store, q: Query)
    requires AllKnown(q.fields) && (q.path.Some? ==> q.path.value.PathRows?) && Start(q) < 0
    ensures All(d, q).1 == Err(BadWindow) && IDs(d, q).1 == Err(BadWindow)
  {
    PreparedMeans(q);
    PreparedForIDs(q);
  }

  // ---------- traversals ----------

  /** The same builder without the traversal; a traversal means Unique unless it was set. */
  function WithoutPath(q: Query): Query {
    q.(path := None, sql := None, unique := if q.unique.None? then Some(true) else q.unique)
  }

  /** After a traversal every operation answers from the rows that the traversal leads to, as it would
      from a table with these rows; what the table itself holds does not matter. */
  lemma TraversalDecidesAnswer(d: Store, q: Query, rows: seq<Row>, t: Terminal)
    requires AllKnown(q.fields) && q.path == Some(PathRows(rows))
    ensures Answered(d, q, t) == Answered(d.(table := rows), WithoutPath(q), t)
  {
    match t
    case AllOf => TraversalDecidesAll(d, q, rows);
    case FirstOf => SameNodesSameAnswers(d, q, rows);
    case OnlyOf => SameNodesSameAnswers(d, q, rows);
    case IDsOf => TraversalDecidesIDs(d, q, rows);
    case FirstIDOf => SameIDsSameAnswers(d, q, rows);
    case OnlyIDOf => SameIDsSameAnswers(d, q, rows);
    case ExistOf => SameIDsSameAnswers(d, q, rows);
  }

  lemma SameNodesSameAnswers(d: Store, q: Query, rows: seq<Row>)
    requires AllKnown(q.fields) && q.path == Some(PathRows(rows))
    ensures First(d, q).1 == First(d.(table := rows), WithoutPath(q)).1
    ensures Only(d, q).1 == Only(d.(table := rows), WithoutPath(q)).1
  {
    TraversalDecidesAll(d, q.(limit := Some(1)), rows);
    TraversalDecidesAll(d, q.(limit := Some(2)), rows);
  }

  lemma SameIDsSameAnswers(d: Store, q: Query, rows: seq<Row>)
    requires AllKnown(q.fields) && q.path == Some(PathRows(rows))
    ensures FirstID(d, q).1 == FirstID(d.(table := rows), WithoutPath(q)).1
    ensures OnlyID(d, q).1 == OnlyID(d.(table := rows), WithoutPath(q)).1
    ensures Exist(d, q).1 == Exist(d.(table := rows), WithoutPath(q)).1
  {
    TraversalDecidesIDs(d, q.(limit := Some(1)), rows);
    TraversalDecidesIDs(d, q.(limit := Some(2)), rows);
  }

  lemma TraversalDecidesAll(d: Store, q: Query, rows: seq<Row>)
    requires AllKnown(q.fields) && q.path == Some(PathRows(rows))
    ensures All(d, q).1 == All(d.(table := rows), WithoutPath(q)).1
  {
    PreparedMeans(q);
    PreparedMeans(WithoutPath(q));
    assert SpecSelector(CompileSpec(q.(sql := Some(rows))), d.table)
        == SpecSelector(CompileSpec(WithoutPath(q)), rows);
  }

  lemma TraversalDecidesIDs(d: Store, q: Query, rows: seq<Row>)
    requires AllKnown(q.fields) && q.path == Some(PathRows(rows))
    ensures IDs(d, q).1 == IDs(d.(table := rows), WithoutPath(q)).1
  {
    var p, o := ForIDs(q), ForIDs(WithoutPath(q));
    KnownWithID(q.fields);
    PreparedMeans(p);
    PreparedMeans(o);
    assert CompileSelector(p.(sql := Some(rows)), d.table) == CompileSelector(o, rows);
  }

  lemma KnownWithID(fields: seq<Column>)
    requires AllKnown(fields)
    ensures AllKnown(fields + [Known(ID)])
  {
  }

  /** The rows that a builder draws from: those of its traversal, or the table. */
  function Drawing(q: Query, table: seq<Row>): seq<Row> {
    if q.path.Some? && q.path.value.PathRows? then q.path.value.rows else table
  }

  /** Without an offset and without selected fields, Exist is true if and only if some row that the
      traversal leads to, or some row of the table when there is none, passes every filter. */
  lemma ExistFindsRow(d: Store, q: Query)
    requires q.fields == [] && q.offset == None && d.engine.Lawful()
    requires if q.path.Some? then q.path.value.PathRows? else q.sql == None
    requires Keyed(Drawing(q, d.table))
    ensures Exist(d, q).1 ==
            Ok(exists k :: 0 <= k < |Drawing(q, d.table)| && AllHold(q.filters, Drawing(q, d.table)[k]))
  {
    PreparedMeans(q);
    ExistFindsMatch(d, q);
    SomeMatchMeans(q.filters, Drawing(q, d.table));
  }

  ghost predicate AllHold(filters: seq<Filter>, r: Row) {
    forall j :: 0 <= j < |filters| ==> filters[j].holds(r)
  }

  lemma SomeMatchMeans(filters: seq<Filter>, rows: seq<Row>)
    ensures SomeMatch(filters, rows) <==> exists k :: 0 <= k < |rows| && AllHold(filters, rows[k])
  {
    forall k | 0 <= k < |rows| ensures Passes(filters, rows[k]) <==> AllHold(filters, rows[k]) {}
    if SomeMatch(filters, rows) {
      var k :| 0 <= k < |rows| && Passes(filters, rows[k]);
      assert AllHold(filters, rows[k]);
    }
  }

  // ---------- what All reads ----------

  lemma KeepSnoc(filters: seq<Filter>, rows: seq<Row>, r: Row)
    ensures Keep(filters, rows + [r]) == Keep(filters, rows) + if Passes(filters, r) then [r] else []
  {
    assert (rows + [r])[..|rows|] == rows;
  }

  /** Filtering goes row by row and keeps the order. */
  lemma {:induction false} KeepGoesByRow(filters: seq<Filter>, a: seq<Row>, b: seq<Row>)
    ensures Keep(filters, a + b) == Keep(filters, a) + Keep(filters, b)
  {
    if b == [] {
      assert a + b == a;
    } else {
      var n := |b| - 1;
      KeepGoesByRow(filters, a, b[..n]);
      KeepStep(filters, a, b[..n], b[n]);
      assert b == b[..n] + [b[n]];
    }
  }

  lemma Regroup(a: seq<Row>, b: seq<Row>, c: seq<Row>)
    ensures a + (b + c) == (a + b) + c
  {
  }

  lemma KeepStep(filters: seq<Filter>, a: seq<Row>, b: seq<Row>, r: Row)
    requires Keep(filters, a + b) == Keep(filters, a) + Keep(filters, b)
    ensures Keep(filters, a + (b + [r])) == Keep(filters, a) + Keep(filters, b + [r])
  {
    var kept := if Passes(filters, r) then [r] else [];
    Regroup(a, b, [r]);
    KeepSnoc(filters, a + b, r);
    KeepSnoc(filters, b, r);
    Regroup(Keep(filters, a), Keep(filters, b), kept);
  }

  /** A row is kept exactly when every filter holds of it. */
  lemma KeepOfOne(filters: seq<Filter>, r: Row)
    ensures Keep(filters, [r]) == if AllHold(filters, r) then [r] else []
  {
    assert [r][..0] == [];
    assert Passes(filters, r) <==> AllHold(filters, r);
  }

  /** The rows that All reads: those of the traversal or the table, filtered, sorted, without duplicates
      when Unique is set or a traversal did not say otherwise, from the offset on, up to a limit that is
      not zero. */
  function RowsOfAll(d: Store, q: Query): Result<seq<Row>, QueryError> {
    var sorted := d.engine.sort(q.orders, Keep(q.filters, Drawing(q, d.table)));
    var distinct := if q.unique.Some? then q.unique.value else q.path.Some?;
    Window(q.offset, if q.limit == Some(0) then None else q.limit,
           if distinct then Dedup(SpecColumns(q.fields), sorted) else sorted)
  }

  lemma AllReadsRows(d: Store, q: Query)
    requires AllKnown(q.fields) && if q.path.Some? then q.path.value.PathRows? else q.sql == None
    ensures All(d, q).1 == match RowsOfAll(d, q)
                           case Err(e) => Err(e)
                           case Ok(rows) => ReadAll(d.codec, SpecColumns(q.fields), rows)
  {
    PreparedMeans(q);
    WindowOf(d.engine, Prepared(q).0, d.table);
  }

  ghost predicate ReadsUpTo(codec: Codec, cols: seq<Column>, rows: seq<Row>, k: nat)
    requires k <= |rows|
  {
    forall j :: 0 <= j < k ==> Read(codec, cols, rows[j]).1 == None
  }

  ghost predicate NodesOf(codec: Codec, cols: seq<Column>, rows: seq<Row>, nodes: seq<Node>) {
    |nodes| == |rows| && forall k :: 0 <= k < |rows| ==> nodes[k] == Read(codec, cols, rows[k]).0
  }

  /** Reading rows succeeds if and only if each of them reads, and then the nodes are theirs by
      position. */
  lemma {:induction false} ReadAllOutcome(codec: Codec, cols: seq<Column>, rows: seq<Row>)
    ensures ReadAll(codec, cols, rows).Ok? <==> ReadsUpTo(codec, cols, rows, |rows|)
    ensures ReadAll(codec, cols, rows).Ok? ==> NodesOf(codec, cols, rows, ReadAll(codec, cols, rows).value)
  {
    if rows != [] {
      var n := |rows| - 1;
      ReadAllOutcome(codec, cols, rows[..n]);
      ReadsPrefix(codec, cols, rows, n);
      if ReadAll(codec, cols, rows).Ok? {
        NodesOfNext(codec, cols, rows, n, ReadAll(codec, cols, rows[..n]).value);
      }
    }
  }

  lemma NodesOfNext(codec: Codec, cols: seq<Column>, rows: seq<Row>, n: nat, nodes: seq<Node>)
    requires n + 1 == |rows| && NodesOf(codec, cols, rows[..n], nodes)
    ensures NodesOf(codec, cols, rows, nodes + [Read(codec, cols, rows[n]).0])
  {
    assert forall j :: 0 <= j < n ==> rows[..n][j] == rows[j];
  }

  lemma ReadAllNext(codec: Codec, cols: seq<Column>, rows: seq<Row>, n: nat)
    requires n + 1 == |rows|
    ensures ReadAll(codec, cols, rows[..n]).Err? ==> ReadAll(codec, cols, rows) == ReadAll(codec, cols, rows[..n])
    ensures ReadAll(codec, cols, rows[..n]).Ok? && Read(codec, cols, rows[n]).1.Some? ==>
              ReadAll(codec, cols, rows) == Err(ScanFailed(Read(codec, cols, rows[n]).1.value))
  {
  }

  /** Otherwise the error is that of the first row that does not read. */
  lemma {:induction false} ReadAllNamesFirstFault(codec: Codec, cols: seq<Column>, rows: seq<Row>, i: nat)
    requires i < |rows| && ReadsUpTo(codec, cols, rows, i) && Read(codec, cols, rows[i]).1.Some?
    ensures ReadAll(codec, cols, rows) == Err(ScanFailed(Read(codec, cols, rows[i]).1.value))
  {
    var n := |rows| - 1;
    ReadsPrefix(codec, cols, rows, n);
    ReadAllNext(codec, cols, rows, n);
    if i < n {
      assert rows[..n][i] == rows[i];
      ReadAllNamesFirstFault(codec, cols, rows[..n], i);
    } else {
      ReadAllOutcome(codec, cols, rows[..n]);
    }
  }

  lemma ReadsPrefix(codec: Codec, cols: seq<Column>, rows: seq<Row>, n: nat)
    requires n + 1 == |rows|
    ensures forall i :: 0 <= i <= n ==> (ReadsUpTo(codec, cols, rows[..n], i) <==> ReadsUpTo(codec, cols, rows, i))
    ensures ReadsUpTo(codec, cols, rows, |rows|)
       <==> ReadsUpTo(codec, cols, rows, n) && Read(codec, cols, rows[n]).1 == None
  {
    assert forall j :: 0 <= j < n ==> rows[..n][j] == rows[j];
  }

  /** A row that reads through columns with the ID gives a node with the row's ID. */
  lemma ReadGivesID(codec: Codec, fields: seq<Column>, row: Row)
    requires Read(codec, SpecColumns(fields), row).1 == None
    ensures Read(codec, SpecColumns(fields), row).0.id == RowID(row)
  {
    var cols := SpecColumns(fields);
    var cells := FilledCells(cols, row);
    AssignOutcome(codec, ZeroNode(), cols, cells, |cols|);
    LastIDWins(codec, ZeroNode(), cols, cells, |cols|);
    OnlyFirstIsID(fields);
    assert LastIDColumn(cols, |cols|, 0);
  }

  lemma OnlyFirstIsID(fields: seq<Column>)
    ensures SpecColumns(fields) != [] && SpecColumns(fields)[0] == Known(ID)
    ensures forall k :: 0 < k < |SpecColumns(fields)| ==> SpecColumns(fields)[k] != Known(ID)
  {
    if fields == [] {
      forall k | 0 < k < WIDTH ensures AllColumns()[k] != Known(ID) {
        ListedOnce(k);
        ListedOnce(0);
      }
    } else {
      ProjectedColumns(fields);
    }
  }

  /** IDs returns the IDs of the nodes that All returns, by position. */
  lemma IDsAreNodeIDs(d: Store, q: Query, nodes: seq<Node>)
    requires Runs(q) && WellStored(d, q) && q.fields == [] && q.limit != Some(0)
    requires WindowFits(d.engine, Prepared(ForIDs(q)).0, d.table)
    requires All(d, q).1 == Ok(nodes)
    ensures IDs(d, q).1.Ok? && |IDs(d, q).1.value| == |nodes|
    ensures forall k :: 0 <= k < |nodes| ==> IDs(d, q).1.value[k] == nodes[k].id
  {
    IDsMatchAll(d, q);
    var rows := BySpec(d.engine, Prepared(q).0, d.table).value;
    NodesHaveRowIDs(d.codec, rows, nodes);
  }

  lemma NodesHaveRowIDs(codec: Codec, rows: seq<Row>, nodes: seq<Node>)
    requires ReadAll(codec, SpecColumns([]), rows) == Ok(nodes)
    ensures |nodes| == |rows| && forall k :: 0 <= k < |rows| ==> nodes[k].id == RowID(rows[k])
  {
    ReadAllOutcome(codec, SpecColumns([]), rows);
    forall k | 0 <= k < |rows| ensures nodes[k].id == RowID(rows[k]) { ReadGivesID(codec, [], rows[k]); }
  }

  /** A limit of zero: IDs then returns nothing, while All reads everything from the offset on. */
  lemma ZeroLimitSplitsIDsFromAll(d: Store, q: Query)
    requires AllKnown(q.fields) && q.fields == [] && q.limit == Some(0) && Start(q) >= 0
    requires if q.path.Some? then q.path.value.PathRows? else q.sql == None
    ensures IDs(d, q).1 == Ok([])
    ensures All(d, q).1 == All(d, q.(limit := None)).1
  {
    ZeroLimitIDs(d, q);
    ZeroLimitAll(d, q);
  }

  lemma ZeroLimitIDs(d: Store, q: Query)
    requires AllKnown(q.fields) && q.fields == [] && q.limit == Some(0) && Start(q) >= 0
    requires if q.path.Some? then q.path.value.PathRows? else q.sql == None
    ensures IDs(d, q).1 == Ok([])
  {
    PreparedMeans(q);
    PreparedForIDs(q);
    NoRows(d.engine, Prepared(ForIDs(q)).0, d.table);
    IDsOfRows(d, q, Prepared(ForIDs(q)).0, Ok([]));
  }

  lemma NoRows(e: Engine, p: Query, table: seq<Row>)
    requires p.limit == Some(0) && Start(p) >= 0
    ensures BySelector(e, p, table) == Ok([])
  {
    WindowOf(e, p, table);
  }

  lemma ZeroLimitAll(d: Store, q: Query)
    requires AllKnown(q.fields) && q.limit == Some(0)
    requires if q.path.Some? then q.path.value.PathRows? else q.sql == None
    ensures All(d, q).1 == All(d, q.(limit := None)).1
  {
    AllReadsRows(d, q);
    AllReadsRows(d, q.(limit := None));
    assert RowsOfAll(d, q) == RowsOfAll(d, q.(limit := None));
  }

  // ---------- projection ----------

  lemma {:induction false} DropIDFilters(fields: seq<Column>, c: Column)
    ensures c in DropID(fields) <==> c in fields && c != Known(ID)
  {
    if fields != [] {
      var k := |fields| - 1;
      DropIDFilters(fields[..k], c);
      assert fields == fields[..k] + [fields[k]];
    }
  }

  /** where maps each kept position to its position in the selection, in increasing order, and
      misses only IDs. */
  ghost predicate Places(fields: seq<Column>, kept: seq<Column>, where: seq<nat>) {
    && |where| == |kept|
    && (forall k :: 0 <= k < |where| ==> where[k] < |fields| && fields[where[k]] == kept[k])
    && (forall j, k :: 0 <= j < k < |where| ==> where[j] < where[k])
    && (forall i :: 0 <= i < |fields| && fields[i] != Known(ID) ==> i in where)
  }

  /** Dropping the ID keeps every other selected field, in order. */
  lemma {:induction false} DropIDKeepsOrder(fields: seq<Column>) returns (where: seq<nat>)
    ensures Places(fields, DropID(fields), where)
  {
    if fields == [] {
      where := [];
    } else {
      var n := |fields| - 1;
      var init := DropIDKeepsOrder(fields[..n]);
      assert fields == fields[..n] + [fields[n]];
      where := PlacesSnoc(fields[..n], DropID(fields[..n]), init, fields[n]);
    }
  }

  lemma PlacesSnoc(fields: seq<Column>, kept: seq<Column>, init: seq<nat>, c: Column) returns (where: seq<nat>)
    requires Places(fields, kept, init)
    ensures Places(fields + [c], kept + if c != Known(ID) then [c] else [], where)
  {
    if c == Known(ID) {
      where := init;
      assert kept + [] == kept;
      PlacesSkip(fields, kept, init, c);
    } else {
      where := init + [|fields|];
      PlacesKeep(fields, kept, init, c);
    }
  }

  lemma PlacesSkip(fields: seq<Column>, kept: seq<Column>, where: seq<nat>, c: Column)
    requires Places(fields, kept, where) && c == Known(ID)
    ensures Places(fields + [c], kept, where)
  {
    var longer := fields + [c];
    assert longer[|fields|] == Known(ID) && forall i :: 0 <= i < |fields| ==> longer[i] == fields[i];
  }

  lemma PlacesKeep(fields: seq<Column>, kept: seq<Column>, init: seq<nat>, c: Column)
    requires Places(fields, kept, init)
    ensures Places(fields + [c], kept + [c], init + [|fields|])
  {
    var longer, where := fields + [c], init + [|fields|];
    assert longer[|fields|] == c && forall i :: 0 <= i < |fields| ==> longer[i] == fields[i];
    assert forall k :: 0 <= k < |init| ==> where[k] == init[k];
    forall i | 0 <= i < |longer| && longer[i] != Known(ID) ensures i in where {
      if i < |fields| { assert i in init; } else { assert where[|init|] == i; }
    }
  }

  /** The columns of a query with selected fields start with the ID, hold it once, and otherwise are
      the selected fields in their order. */
  lemma ProjectedColumns(fields: seq<Column>)
    requires fields != []
    ensures SpecColumns(fields)[0] == Known(ID)
    ensures forall k :: 0 < k < |SpecColumns(fields)| ==> SpecColumns(fields)[k] != Known(ID)
    ensures SpecColumns(fields)[1..] == DropID(fields)
    ensures forall c: Column :: c in SpecColumns(fields) <==> c == Known(ID) || c in fields
  {
    var cols := SpecColumns(fields);
    assert cols[1..] == DropID(fields);
    forall k | 0 < k < |cols| ensures cols[k] != Known(ID) {
      assert cols[k] == DropID(fields)[k - 1];
      DropIDFilters(fields, cols[k]);
      assert cols[k] in DropID(fields);
    }
    forall c: Column ensures c in cols <==> c == Known(ID) || c in fields {
      DropIDFilters(fields, c);
      if c in DropID(fields) {
        var k :| 0 <= k < |DropID(fields)| && DropID(fields)[k] == c;
        assert cols[k + 1] == c;
      }
    }
  }

  /** Reading a row through the projected columns agrees with the full read on the ID and on the
      selected fields, and leaves every other member as in a fresh struct. */
  lemma ProjectedReadRefinesFullRead(codec: Codec, fields: seq<Column>, row: Row, f: Field)
    requires Readable(codec, row) && fields != [] && f != ID
    requires forall c :: c in fields ==> ValidColumn(c)
    ensures var part, whole := Read(codec, SpecColumns(fields), row), Read(codec, SpecColumns([]), row);
            && part.1 == None && whole.1 == None && part.0.id == whole.0.id
            && f in part.0.members && f in whole.0.members
            && part.0.members[f] == if Known(f) in fields then whole.0.members[f] else ZeroMember(f)
  {
    ProjectedColumns(fields);
    forall c | c in SpecColumns(fields) ensures c in AllColumns() {
      FieldIsListed(if c.Known? then c.field else ID);
      assert AllColumns()[Position(c.field)] == c;
    }
    ProjectionRefinesFullRead(codec, SpecColumns(fields), AllColumns(), row, f);
  }
}
