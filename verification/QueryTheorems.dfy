/** When the two query compilers agree, and what the terminal operations return. */
module QueryTheorems {
  import opened Schema
  import opened RowCodec
  import opened Create
  import opened QueryModel

  // ---------- rows with keys ----------

  /** Rows of this table: the ID and the prefix (unique index) each determine the row. A traversal
      may reach the same row several times. */
  ghost predicate Keyed(rows: seq<Row>) {
    forall j, k :: 0 <= j < |rows| && 0 <= k < |rows| ==> KeyedPair(rows[j], rows[k])
  }

  ghost predicate KeyedPair(r: Row, s: Row) {
    At(r, Known(ID)) == At(s, Known(ID)) || At(r, Known(Prefix)) == At(s, Known(Prefix)) ==> r == s
  }

  predicate HasKey(cols: seq<Column>) {
    Known(ID) in cols || Known(Prefix) in cols
  }

  lemma KeyDecides(cols: seq<Column>, r: Row, s: Row)
    requires HasKey(cols) && KeyedPair(r, s)
    ensures SameOn(cols, r, s) <==> r == s
  {
  }

  /** On keyed rows, DISTINCT over any columns that include a key keeps the same rows. */
  lemma {:induction false} KeyedDedup(a: seq<Column>, b: seq<Column>, rows: seq<Row>)
    requires Keyed(rows) && HasKey(a) && HasKey(b)
    ensures Dedup(a, rows) == Dedup(b, rows)
  {
    if rows != [] {
      var k := |rows| - 1;
      KeyedDedup(a, b, rows[..k]);
      forall j | 0 <= j < k
        ensures SameOn(a, rows[j], rows[k]) <==> SameOn(b, rows[j], rows[k])
      {
        KeyDecides(a, rows[j], rows[k]);
        KeyDecides(b, rows[j], rows[k]);
      }
    }
  }

  lemma {:induction false} DedupKeepsFirst(cols: seq<Column>, rows: seq<Row>)
    requires rows != []
    ensures Dedup(cols, rows) != [] && Dedup(cols, rows)[0] == rows[0]
  {
    if |rows| > 1 { DedupKeepsFirst(cols, rows[..|rows| - 1]); }
  }

  lemma {:induction false} KeptRows(filters: seq<Filter>, rows: seq<Row>, r: Row)
    ensures r in Keep(filters, rows) <==> r in rows && Passes(filters, r)
  {
    if rows != [] {
      var k := |rows| - 1;
      KeptRows(filters, rows[..k], r);
      assert rows == rows[..k] + [rows[k]];
    }
  }

  lemma SortedRows(e: Engine, orders: seq<OrderKey>, filters: seq<Filter>, source: seq<Row>, r: Row)
    requires e.Lawful()
    ensures r in Sorted(e, orders, filters, source) <==> r in source && Passes(filters, r)
  {
    var kept := Keep(filters, source);
    assert r in multiset(e.sort(orders, kept)) <==> r in multiset(kept);
    KeptRows(filters, source, r);
  }

  lemma SortedKeyed(e: Engine, orders: seq<OrderKey>, filters: seq<Filter>, source: seq<Row>)
    requires e.Lawful() && Keyed(source)
    ensures Keyed(Sorted(e, orders, filters, source))
  {
    var rows := Sorted(e, orders, filters, source);
    forall j, k | 0 <= j < |rows| && 0 <= k < |rows| ensures KeyedPair(rows[j], rows[k]) {
      SortedRows(e, orders, filters, source, rows[j]);
      SortedRows(e, orders, filters, source, rows[k]);
      var x :| 0 <= x < |source| && source[x] == rows[j];
      var y :| 0 <= y < |source| && source[y] == rows[k];
      assert KeyedPair(source[x], source[y]);
    }
  }

  // ---------- the two compilers ----------

  /** The traversal has been taken exactly when there is one. */
  predicate Ready(q: Query) {
    q.path.Some? <==> q.sql.Some?
  }

  function Start(q: Query): int { if q.offset.Some? then q.offset.value else 0 }

  /** The rows before the window, as each compiler sees them. */
  function SpecRows(e: Engine, q: Query, table: seq<Row>): seq<Row> {
    var rows := Sorted(e, q.orders, q.filters, SourceOf(q, table));
    if CompileSpec(q).unique then Dedup(SpecColumns(q.fields), rows) else rows
  }

  function SelectorRows(e: Engine, q: Query, table: seq<Row>): seq<Row> {
    var rows := Sorted(e, q.orders, q.filters, SourceOf(q, table));
    if q.unique == Some(true) then Dedup(if q.fields == [] then AllColumns() else q.fields, rows) else rows
  }

  /** DISTINCT means the same to both: neither asks for it, or both do over a key. */
  predicate DistinctAgrees(q: Query) {
    if q.unique.None? then q.path.None?
    else q.unique == Some(true) ==> q.fields == [] || HasKey(q.fields)
  }

  /** What a caller can check of the builder: the window is an error to both, or the limit is not
      zero and either DISTINCT agrees or only the very first row is wanted. */
  predicate ShapeAgrees(q: Query) {
    || Start(q) < 0
    || (q.limit.Some? && q.limit.value < 0)
    || (q.limit != Some(0) && (DistinctAgrees(q) || (q.limit == Some(1) && Start(q) == 0)))
  }

  /** sqlQuery bounds an offset without a limit by MaxInt32; the rows after the offset must fit. */
  ghost predicate WindowFits(e: Engine, q: Query, table: seq<Row>) {
    q.offset.Some? && q.limit.None? && Start(q) >= 0 ==>
      |Drop(Start(q), SpecRows(e, q, table))| <= MAX_INT32
  }

  ghost predicate AgreeOn(e: Engine, q: Query, table: seq<Row>) {
    BySpec(e, q, table) == BySelector(e, q, table)
  }

  lemma SpecColumnsHaveKey(fields: seq<Column>)
    ensures HasKey(SpecColumns(fields)) && HasKey(AllColumns())
  {
    assert AllColumns()[Position(ID)] == Known(ID);
    if fields != [] { assert SpecColumns(fields)[0] == Known(ID); }
  }

  lemma SameRows(e: Engine, q: Query, table: seq<Row>)
    requires e.Lawful() && Keyed(SourceOf(q, table)) && DistinctAgrees(q)
    ensures SpecRows(e, q, table) == SelectorRows(e, q, table)
  {
    var rows := Sorted(e, q.orders, q.filters, SourceOf(q, table));
    SortedKeyed(e, q.orders, q.filters, SourceOf(q, table));
    SpecColumnsHaveKey(q.fields);
    if q.unique == Some(true) {
      KeyedDedup(SpecColumns(q.fields), if q.fields == [] then AllColumns() else q.fields, rows);
    }
  }

  lemma SameFirstRow(e: Engine, q: Query, table: seq<Row>)
    ensures Take(1, SpecRows(e, q, table)) == Take(1, SelectorRows(e, q, table))
  {
    var rows := Sorted(e, q.orders, q.filters, SourceOf(q, table));
    if rows != [] {
      DedupKeepsFirst(SpecColumns(q.fields), rows);
      DedupKeepsFirst(if q.fields == [] then AllColumns() else q.fields, rows);
    }
  }

  /** The windows differ only where there is an offset and no limit. */
  lemma SameWindow(offset: Option<int>, limit: Option<int>, rows: seq<Row>)
    requires limit != Some(0)
    ensures var spec := Window(if offset.Some? && offset.value != 0 then offset else None, limit, rows);
            var selector := Window(offset, if limit.None? && offset.Some? then Some(MAX_INT32) else limit, rows);
            spec == selector <==>
              (limit.None? && offset.Some? && offset.value >= 0 ==> |Drop(offset.value, rows)| <= MAX_INT32)
  {
  }

  lemma WindowOf(e: Engine, q: Query, table: seq<Row>)
    ensures BySpec(e, q, table)
         == Window(if Start(q) != 0 then q.offset else None, if q.limit == Some(0) then None else q.limit,
                   SpecRows(e, q, table))
    ensures BySelector(e, q, table)
         == Window(q.offset, if q.limit.None? && q.offset.Some? then Some(MAX_INT32) else q.limit,
                   SelectorRows(e, q, table))
  {
  }

  /** For a builder of agreeing shape, over any table or traversal of keyed rows, the two compilers
      select the same rows in the same order exactly when the rows after an unlimited offset fit
      the bound that sqlQuery puts on them. */
  lemma CompilersAgree(e: Engine, q: Query, table: seq<Row>)
    requires e.Lawful() && Keyed(SourceOf(q, table)) && ShapeAgrees(q)
    ensures AgreeOn(e, q, table) <==> WindowFits(e, q, table)
  {
    WindowOf(e, q, table);
    if Start(q) < 0 || (q.limit.Some? && q.limit.value < 0) {
    } else if DistinctAgrees(q) {
      SameRows(e, q, table);
      SameWindow(q.offset, q.limit, SpecRows(e, q, table));
    } else {
      SameFirstRow(e, q, table);
    }
  }

  // ---------- and when they do not ----------

  /** Row i of a table in which rows differ only in ID and prefix. */
  function Plain(i: nat): Row {
    map[Known(ID) := DbInt(i), Known(Prefix) := DbString(seq(i, _ => 'x'))]
  }

  function PlainRows(n: nat): (rows: seq<Row>)
    ensures |rows| == n && forall k :: 0 <= k < n ==> rows[k] == Plain(k)
  {
    seq(n, k requires 0 <= k < n => Plain(k))
  }

  function Copies(n: nat): (rows: seq<Row>)
    ensures |rows| == n && forall k :: 0 <= k < n ==> rows[k] == Plain(0)
  {
    seq(n, _ => Plain(0))
  }

  lemma PlainPair(i: nat, j: nat)
    ensures KeyedPair(Plain(i), Plain(j))
    ensures Plain(i) == Plain(j) <==> i == j
  {
    assert At(Plain(i), Known(ID)) == DbInt(i) && At(Plain(j), Known(ID)) == DbInt(j);
    assert At(Plain(i), Known(Prefix)) == DbString(seq(i, _ => 'x'));
    assert At(Plain(j), Known(Prefix)) == DbString(seq(j, _ => 'x'));
    if seq(i, _ => 'x') == seq(j, _ => 'x') {
      assert |seq(i, _ => 'x')| == i && |seq(j, _ => 'x')| == j;
    }
  }

  lemma PlainRowsAreKeyed(n: nat)
    ensures Keyed(PlainRows(n)) && Keyed(Copies(n))
  {
    forall j: nat, k: nat { PlainPair(j, k); }
  }

  lemma {:induction false} KeepAll(rows: seq<Row>)
    ensures Keep([], rows) == rows
  {
    if rows != [] {
      KeepAll(rows[..|rows| - 1]);
    }
  }

  lemma {:induction false} DedupPlain(cols: seq<Column>, n: nat)
    requires HasKey(cols)
    ensures Dedup(cols, PlainRows(n)) == PlainRows(n)
  {
    if n > 0 {
      var rows := PlainRows(n);
      assert rows[..n - 1] == PlainRows(n - 1);
      DedupPlain(cols, n - 1);
      forall j | 0 <= j < n - 1 ensures !SameOn(cols, rows[j], rows[n - 1]) {
        PlainPair(j, n - 1);
        KeyDecides(cols, rows[j], rows[n - 1]);
      }
    }
  }

  lemma {:induction false} DedupAlike(cols: seq<Column>, rows: seq<Row>)
    requires rows != [] && forall k :: 0 <= k < |rows| ==> SameOn(cols, rows[0], rows[k])
    ensures Dedup(cols, rows) == [rows[0]]
  {
    var k := |rows| - 1;
    if k > 0 {
      DedupAlike(cols, rows[..k]);
      assert SameOn(cols, rows[0], rows[k]);
    } else {
      assert Dedup(cols, rows[..0]) == [];
    }
  }

  function Unsorted(): Engine { Engine((_, rows) => rows) }

  /** q with no filters and no order, over the given rows. */
  function Bare(q: Query, rows: seq<Row>): Query {
    q.(filters := [], orders := [],
       path := if q.path.Some? then Some(PathRows(rows)) else None,
       sql := if q.path.Some? then Some(rows) else None)
  }

  /** The parts of the builder that ShapeAgrees reads. */
  predicate SameShape(q: Query, p: Query) {
    q.unique == p.unique && q.limit == p.limit && q.offset == p.offset && q.fields == p.fields
    && (q.path.Some? <==> p.path.Some?)
  }

  lemma UnsortedIsLawful()
    ensures Unsorted().Lawful()
  {
  }

  lemma BareRows(q: Query, rows: seq<Row>)
    ensures SameShape(q, Bare(q, rows)) && Ready(Bare(q, rows)) && SourceOf(Bare(q, rows), rows) == rows
    ensures Sorted(Unsorted(), [], [], rows) == rows
  {
    KeepAll(rows);
  }

  /** Limit(0): the spec has no limit, the selector has LIMIT 0. */
  lemma ZeroLimitDisagrees(q: Query)
    requires q.limit == Some(0) && Start(q) >= 0
    ensures var table := PlainRows(Start(q) + 2);
            var p := Bare(q, table);
            WindowFits(Unsorted(), p, table) && !AgreeOn(Unsorted(), p, table)
  {
    var table := PlainRows(Start(q) + 2);
    var p := Bare(q, table);
    BareRows(q, table);
    SpecColumnsHaveKey(q.fields);
    DedupPlain(SpecColumns(q.fields), |table|);
    WindowOf(Unsorted(), p, table);
    assert SpecRows(Unsorted(), p, table) == table;
    assert BySelector(Unsorted(), p, table).value == [];
    assert |BySpec(Unsorted(), p, table).value| == 2;
  }

  ghost predicate WantsMore(q: Query) {
    && Start(q) >= 0 && (q.limit.Some? ==> q.limit.value > 0)
    && !(q.limit == Some(1) && Start(q) == 0)
  }

  /** Unique over fields without a key: the selector merges rows that the spec, which adds the ID,
      keeps apart. */
  lemma KeylessDistinctDisagrees(q: Query)
    requires q.unique == Some(true) && q.fields != [] && !HasKey(q.fields) && WantsMore(q)
    ensures var table := PlainRows(Start(q) + 2);
            var p := Bare(q, table);
            WindowFits(Unsorted(), p, table) && !AgreeOn(Unsorted(), p, table)
  {
    var table := PlainRows(Start(q) + 2);
    var p := Bare(q, table);
    BareRows(q, table);
    SpecColumnsHaveKey(q.fields);
    DedupPlain(SpecColumns(q.fields), |table|);
    assert SpecRows(Unsorted(), p, table) == table;
    KeylessRowsLookAlike(q.fields, |table|);
    DedupAlike(q.fields, table);
    assert SelectorRows(Unsorted(), p, table) == [table[0]];
    WindowOf(Unsorted(), p, table);
    ManyAgainstOne(Start(q), q.limit, table, [table[0]]);
  }

  /** A traversal without Unique: the spec removes duplicates, the selector does not. */
  lemma TraversalDisagrees(q: Query)
    requires q.unique == None && q.path.Some? && WantsMore(q)
    ensures var table := Copies(Start(q) + 2);
            var p := Bare(q, table);
            WindowFits(Unsorted(), p, table) && !AgreeOn(Unsorted(), p, table)
  {
    var table := Copies(Start(q) + 2);
    var p := Bare(q, table);
    BareRows(q, table);
    DedupAlike(SpecColumns(q.fields), table);
    assert SpecRows(Unsorted(), p, table) == [table[0]];
    assert SelectorRows(Unsorted(), p, table) == table;
    WindowOf(Unsorted(), p, table);
    ManyAgainstOne(Start(q), q.limit, table, [table[0]]);
  }

  /** A window that wants more than the first row tells two rows past the offset from one row. */
  lemma ManyAgainstOne(o: nat, limit: Option<int>, many: seq<Row>, one: seq<Row>)
    requires |many| == o + 2 && |one| == 1
    requires limit.Some? ==> limit.value > 0 && !(limit.value == 1 && o == 0)
    ensures var l := if limit.Some? then limit.value else MAX_INT32;
            |Drop(o, many)| == 2 && |Take(l, Drop(o, many))| > |Take(l, Drop(o, one))|
            && |Take(l, Drop(o, many))| > |Drop(o, one)| && |Drop(o, many)| > |Take(l, Drop(o, one))|
  {
  }

  /** A builder of disagreeing shape has a store with two rows more than its offset on which the
      compilers select different rows. */
  lemma CompilersDisagree(q: Query) returns (e: Engine, p: Query, table: seq<Row>)
    requires !ShapeAgrees(q)
    ensures SameShape(q, p) && Ready(p) && e.Lawful() && Keyed(SourceOf(p, table)) && WindowFits(e, p, table)
    ensures !AgreeOn(e, p, table)
  {
    e := Unsorted();
    UnsortedIsLawful();
    PlainRowsAreKeyed(Start(q) + 2);
    if q.limit == Some(0) {
      table := PlainRows(Start(q) + 2);
      ZeroLimitDisagrees(q);
    } else if q.unique.Some? {
      table := PlainRows(Start(q) + 2);
      KeylessDistinctDisagrees(q);
    } else {
      table := Copies(Start(q) + 2);
      TraversalDisagrees(q);
    }
    p := Bare(q, table);
    BareRows(q, table);
  }

  lemma KeylessRowsLookAlike(cols: seq<Column>, n: nat)
    requires n > 0 && !HasKey(cols)
    ensures forall k :: 0 <= k < n ==> SameOn(cols, PlainRows(n)[0], PlainRows(n)[k])
  {
  }

  /** The exact condition: every builder of a shape compiles to the same rows both ways, on every
      store of keyed rows whose windows fit, if and only if the shape agrees. */
  lemma CompilersAgreeExactly(q: Query)
    ensures ShapeAgrees(q) <==>
              forall e: Engine, p: Query, table: seq<Row> ::
                (SameShape(q, p) && Ready(p) && e.Lawful() && Keyed(SourceOf(p, table)) && WindowFits(e, p, table))
                ==> AgreeOn(e, p, table)
  {
    if ShapeAgrees(q) {
      forall e: Engine, p: Query, table: seq<Row> |
        SameShape(q, p) && Ready(p) && e.Lawful() && Keyed(SourceOf(p, table)) && WindowFits(e, p, table)
        ensures AgreeOn(e, p, table)
      {
        CompilersAgree(e, p, table);
      }
    } else {
      var e, p, table := CompilersDisagree(q);
    }
  }
}
