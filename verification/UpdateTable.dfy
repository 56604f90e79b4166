/** What the two update forms do to a table whose store keeps prefixes unique, and exactly when they do
    the same. */
module UpdateTable {
  import opened Schema
  import opened RowCodec
  import opened Create
  import opened QueryModel
  import opened Update

  // ---------- one statement ----------

  /** The prefix that a list of actions sets, if it sets one. */
  function PrefixSet(actions: seq<Action>): Option<DbValue> {
    if actions == [] then None
    else
      match actions[|actions| - 1]
      case SetField(Prefix, _, StringValue(s)) => Some(DbString(s))
      case _ => PrefixSet(actions[..|actions| - 1])
  }

  /** What the store does to one row, and the code with which it refuses a statement. It never touches
      the ID, and leaves the prefix alone unless the actions set it. */
  datatype Effect = Effect(apply: (seq<Action>, Row) -> Row, refusal: int) {
    ghost predicate Lawful() {
      forall actions, r ::
        && At(apply(actions, r), Known(ID)) == At(r, Known(ID))
        && At(apply(actions, r), Known(Prefix))
           == (if PrefixSet(actions).Some? then PrefixSet(actions).value else At(r, Known(Prefix)))
    }
  }

  /** The unique index on the prefix, which like any does not compare NULLs. */
  predicate UniquePrefix(table: seq<Row>) {
    forall j, k :: 0 <= j < k < |table| && At(table[j], Known(Prefix)) != DbNull ==>
      At(table[j], Known(Prefix)) != At(table[k], Known(Prefix))
  }

  /** The store takes a statement whole or, if the index would break, not at all. */
  function Attempted(e: Effect, before: seq<Row>, after: seq<Row>): (seq<Row>, Option<UpdateError>) {
    if UniquePrefix(after) then (after, None) else (before, Some(Translated(GraphConstraint(e.refusal))))
  }

  function Matching(e: Effect, actions: seq<Action>, filters: seq<Filter>, table: seq<Row>): (t: seq<Row>)
    ensures |t| == |table|
    ensures forall k :: 0 <= k < |table| ==>
              t[k] == if Passes(filters, table[k]) then e.apply(actions, table[k]) else table[k]
  {
    seq(|table|, k requires 0 <= k < |table| =>
      if Passes(filters, table[k]) then e.apply(actions, table[k]) else table[k])
  }

  /** The batch form: every row that passes the filters, in one statement. */
  function UpdateMatching(e: Effect, actions: seq<Action>, filters: seq<Filter>, table: seq<Row>)
    : (seq<Row>, Option<UpdateError>)
  {
    Attempted(e, table, Matching(e, actions, filters, table))
  }

  predicate Hit(filters: seq<Filter>, id: int, r: Row) {
    RowID(r) == id && Passes(filters, r)
  }

  function HitRow(e: Effect, actions: seq<Action>, filters: seq<Filter>, id: int, table: seq<Row>): (t: seq<Row>)
    ensures |t| == |table|
    ensures forall k :: 0 <= k < |table| ==>
              t[k] == if Hit(filters, id, table[k]) then e.apply(actions, table[k]) else table[k]
  {
    seq(|table|, k requires 0 <= k < |table| =>
      if Hit(filters, id, table[k]) then e.apply(actions, table[k]) else table[k])
  }

  /** The single form: the row with the given ID, if it passes the filters; not-found otherwise. */
  function UpdateRow(e: Effect, actions: seq<Action>, filters: seq<Filter>, id: int, table: seq<Row>)
    : (seq<Row>, Option<UpdateError>)
  {
    if exists k :: 0 <= k < |table| && Hit(filters, id, table[k]) then
      Attempted(e, table, HitRow(e, actions, filters, id, table))
    else (table, Some(Translated(GraphNotFound)))
  }

  /** The single form once per ID, the j-th time with actions(j), stopping at the first error. */
  function UpdateEach(e: Effect, actions: nat -> seq<Action>, filters: seq<Filter>, ids: seq<int>, table: seq<Row>)
    : (seq<Row>, Option<UpdateError>)
  {
    if ids == [] then (table, None)
    else
      var k := |ids| - 1;
      var r := UpdateEach(e, actions, filters, ids[..k], table);
      if r.1.Some? then r else UpdateRow(e, actions(k), filters, ids[k], r.0)
  }

  // ---------- the single form, ID after ID ----------

  ghost predicate DistinctIDs(table: seq<Row>) {
    forall j, k :: 0 <= j < k < |table| ==> RowID(table[j]) != RowID(table[k])
  }

  ghost predicate NoRepeats(ids: seq<int>) {
    forall j, k :: 0 <= j < k < |ids| ==> ids[j] != ids[k]
  }

  /** ids names rows that match at the start: each is the ID of a row that passes both filter lists. */
  ghost predicate NamesMatches(ids: seq<int>, batch: seq<Filter>, single: seq<Filter>, table: seq<Row>) {
    forall i :: 0 <= i < |ids| ==> NamesMatch(ids[i], batch, single, table)
  }

  ghost predicate NamesMatch(id: int, batch: seq<Filter>, single: seq<Filter>, table: seq<Row>) {
    exists k :: 0 <= k < |table| && Hit(batch, id, table[k]) && Passes(single, table[k])
  }

  /** t is the table with exactly the named rows changed, the j-th by actions(j). */
  ghost predicate RowsChanged(e: Effect, actions: nat -> seq<Action>, ids: seq<int>, table: seq<Row>, t: seq<Row>) {
    && |t| == |table|
    && (forall k :: 0 <= k < |table| && RowID(table[k]) !in ids ==> t[k] == table[k])
    && (forall j, k :: 0 <= j < |ids| && 0 <= k < |table| && RowID(table[k]) == ids[j] ==>
          t[k] == e.apply(actions(j), table[k]))
  }

  /** The first n saves changed exactly their rows; if that is not all, the next one was refused because
      it would have broken the index. */
  ghost predicate Reaches(e: Effect, actions: nat -> seq<Action>, single: seq<Filter>, ids: seq<int>,
                          table: seq<Row>, r: (seq<Row>, Option<UpdateError>), n: nat) {
    && n <= |ids| && UniquePrefix(r.0) && RowsChanged(e, actions, ids[..n], table, r.0)
    && (if n == |ids| then r.1 == None
        else && r.1 == Some(UpdateConflict(e.refusal))
             && !UniquePrefix(HitRow(e, actions(n), single, ids[n], r.0)))
  }

  /** Saving the single form for distinct matching IDs, each time with its own actions, changes exactly
      the named rows up to the first that the index refuses. */
  lemma {:induction false} EachUpdatesItsRow(e: Effect, actions: nat -> seq<Action>, batch: seq<Filter>,
                                             single: seq<Filter>, ids: seq<int>, table: seq<Row>) returns (n: nat)
    requires e.Lawful() && DistinctIDs(table) && UniquePrefix(table)
    requires NoRepeats(ids) && NamesMatches(ids, batch, single, table)
    ensures Reaches(e, actions, single, ids, table, UpdateEach(e, actions, single, ids, table), n)
  {
    n := 0;
    if ids != [] {
      var m := |ids| - 1;
      assert ids == ids[..m] + [ids[m]];
      assert NamesMatch(ids[m], batch, single, table);
      n := EachUpdatesItsRow(e, actions, batch, single, ids[..m], table);
      assert ids[..m][..n] == ids[..n];
      var r := UpdateEach(e, actions, single, ids[..m], table);
      if r.1 == None { n := ReachesNext(e, actions, batch, single, ids, table, r.0); }
    }
  }

  /** The last save, when all before it went through. */
  lemma ReachesNext(e: Effect, actions: nat -> seq<Action>, batch: seq<Filter>, single: seq<Filter>, ids: seq<int>,
                    table: seq<Row>, t: seq<Row>) returns (n: nat)
    requires e.Lawful() && DistinctIDs(table) && ids != [] && NoRepeats(ids) && UniquePrefix(t)
    requires NamesMatch(ids[|ids| - 1], batch, single, table)
    requires RowsChanged(e, actions, ids[..|ids| - 1], table, t)
    ensures var m := |ids| - 1;
            Reaches(e, actions, single, ids, table, UpdateRow(e, actions(m), single, ids[m], t), n)
  {
    var m := |ids| - 1;
    NextRow(e, actions, batch, single, ids, table, t);
    n := if UniquePrefix(HitRow(e, actions(m), single, ids[m], t)) then |ids| else m;
    assert ids[..|ids|] == ids;
  }

  lemma NextRow(e: Effect, actions: nat -> seq<Action>, batch: seq<Filter>, single: seq<Filter>, ids: seq<int>,
                table: seq<Row>, t: seq<Row>)
    requires e.Lawful() && DistinctIDs(table) && ids != [] && NoRepeats(ids)
    requires NamesMatch(ids[|ids| - 1], batch, single, table)
    requires RowsChanged(e, actions, ids[..|ids| - 1], table, t)
    ensures var n := |ids| - 1;
            && (exists k :: 0 <= k < |t| && Hit(single, ids[n], t[k]))
            && RowsChanged(e, actions, ids, table, HitRow(e, actions(n), single, ids[n], t))
  {
    var n := |ids| - 1;
    var id := ids[n];
    var x :| 0 <= x < |table| && Hit(batch, id, table[x]) && Passes(single, table[x]);
    assert id !in ids[..n];
    assert t[x] == table[x] && Hit(single, id, t[x]);
    forall k | 0 <= k < |table| ensures RowID(t[k]) == RowID(table[k]) {
      RowKeepsID(e, actions, ids[..n], table, t, k);
    }
    forall k | 0 <= k < |table| ensures Hit(single, id, t[k]) <==> k == x {
      if k != x { assert RowID(table[k]) != RowID(table[x]); }
    }
    assert ids == ids[..n] + [id];
  }

  lemma RowKeepsID(e: Effect, actions: nat -> seq<Action>, ids: seq<int>, table: seq<Row>, t: seq<Row>, k: nat)
    requires e.Lawful() && RowsChanged(e, actions, ids, table, t) && k < |table|
    ensures RowID(t[k]) == RowID(table[k])
  {
    if RowID(table[k]) in ids {
      var j :| 0 <= j < |ids| && ids[j] == RowID(table[k]);
      assert At(e.apply(actions(j), table[k]), Known(ID)) == At(table[k], Known(ID));
    }
  }

  /** ids names the rows that match at the start. */
  ghost predicate NamesAll(ids: seq<int>, batch: seq<Filter>, table: seq<Row>) {
    forall id :: id in ids <==> exists k :: 0 <= k < |table| && Hit(batch, id, table[k])
  }

  lemma NamedIffMatching(batch: seq<Filter>, ids: seq<int>, table: seq<Row>, k: nat)
    requires DistinctIDs(table) && k < |table| && NamesAll(ids, batch, table)
    ensures RowID(table[k]) in ids <==> Passes(batch, table[k])
  {
    if Passes(batch, table[k]) { assert Hit(batch, RowID(table[k]), table[k]); }
    if RowID(table[k]) in ids {
      var j :| 0 <= j < |table| && Hit(batch, RowID(table[k]), table[j]);
      assert j == k;
    }
  }

  lemma NamedRowsMatch(ids: seq<int>, batch: seq<Filter>, single: seq<Filter>, table: seq<Row>)
    requires NamesAll(ids, batch, table) && (single == batch || single == [])
    ensures NamesMatches(ids, batch, single, table)
  {
    forall i | 0 <= i < |ids| ensures NamesMatch(ids[i], batch, single, table) {
      assert ids[i] in ids;
      var k :| 0 <= k < |table| && Hit(batch, ids[i], table[k]);
      assert Passes(single, table[k]);
    }
  }

  lemma NamedRow(ids: seq<int>, batch: seq<Filter>, table: seq<Row>, j: nat) returns (x: nat)
    requires NamesAll(ids, batch, table) && j < |ids|
    ensures x < |table| && Hit(batch, ids[j], table[x])
  {
    assert ids[j] in ids;
    x :| 0 <= x < |table| && Hit(batch, ids[j], table[x]);
  }

  // ---------- how far the single form gets ----------

  function PrefixAt(r: Row): DbValue { At(r, Known(Prefix)) }

  /** Some row other than the one with this ID has prefix p. */
  predicate Taken(p: DbValue, id: int, table: seq<Row>) {
    exists k :: 0 <= k < |table| && RowID(table[k]) != id && PrefixAt(table[k]) == p
  }

  lemma SamePrefixes(before: seq<Row>, after: seq<Row>)
    requires UniquePrefix(before) && |after| == |before|
    requires forall k :: 0 <= k < |before| ==> PrefixAt(after[k]) == PrefixAt(before[k])
    ensures UniquePrefix(after)
  {
    forall j, k | 0 <= j < k < |after| && PrefixAt(after[j]) != DbNull
      ensures PrefixAt(after[j]) != PrefixAt(after[k])
    {
      assert PrefixAt(before[j]) != PrefixAt(before[k]);
    }
  }

  /** Giving row x a prefix that no other row has keeps prefixes unique. */
  lemma NewPrefix(before: seq<Row>, after: seq<Row>, x: nat, p: DbValue)
    requires UniquePrefix(before) && |after| == |before| && x < |before| && PrefixAt(after[x]) == p
    requires forall k :: 0 <= k < |before| && k != x ==> after[k] == before[k] && PrefixAt(before[k]) != p
    ensures UniquePrefix(after)
  {
    forall j, k | 0 <= j < k < |after| && PrefixAt(after[j]) != DbNull
      ensures PrefixAt(after[j]) != PrefixAt(after[k])
    {
      assert j != x && k != x ==> PrefixAt(before[j]) != PrefixAt(before[k]);
    }
  }

  lemma TwoAlike(table: seq<Row>, x: nat, y: nat, p: DbValue)
    requires x < |table| && y < |table| && x != y && p != DbNull
    requires PrefixAt(table[x]) == p && PrefixAt(table[y]) == p
    ensures !UniquePrefix(table)
  {
    assert x < y || y < x;
  }

  lemma AppliedPrefix(e: Effect, actions: seq<Action>, r: Row)
    requires e.Lawful()
    ensures PrefixAt(e.apply(actions, r)) == if PrefixSet(actions).Some? then PrefixSet(actions).value else PrefixAt(r)
  {
  }

  /** When the actions set no prefix, every save goes through. */
  lemma ReachesAll(e: Effect, actions: nat -> seq<Action>, single: seq<Filter>, ids: seq<int>, table: seq<Row>,
                   r: (seq<Row>, Option<UpdateError>), n: nat)
    requires e.Lawful() && Reaches(e, actions, single, ids, table, r, n)
    requires forall j :: 0 <= j < |ids| ==> PrefixSet(actions(j)) == None
    ensures n == |ids|
  {
    if n < |ids| { RowWithoutPrefix(e, actions(n), single, ids[n], r.0); }
  }

  lemma RowWithoutPrefix(e: Effect, actions: seq<Action>, single: seq<Filter>, id: int, table: seq<Row>)
    requires e.Lawful() && UniquePrefix(table) && PrefixSet(actions) == None
    ensures UniquePrefix(HitRow(e, actions, single, id, table))
  {
    var after := HitRow(e, actions, single, id, table);
    forall k | 0 <= k < |table| ensures PrefixAt(after[k]) == PrefixAt(table[k]) {
      AppliedPrefix(e, actions, table[k]);
    }
    SamePrefixes(table, after);
  }

  /** When they all set prefix p: none goes through if another row has p, and otherwise exactly the
      first does. */
  lemma ReachesOne(e: Effect, actions: nat -> seq<Action>, batch: seq<Filter>, single: seq<Filter>, ids: seq<int>,
                   table: seq<Row>, r: (seq<Row>, Option<UpdateError>), n: nat, p: DbValue)
    requires e.Lawful() && DistinctIDs(table) && UniquePrefix(table) && p != DbNull
    requires ids != [] && NoRepeats(ids) && NamesAll(ids, batch, table) && (single == batch || single == [])
    requires Reaches(e, actions, single, ids, table, r, n)
    requires forall j :: 0 <= j < |ids| ==> PrefixSet(actions(j)) == Some(p)
    ensures n == if Taken(p, ids[0], table) then 0 else 1
  {
    var x := NamedRow(ids, batch, table, 0);
    if !Taken(p, ids[0], table) { FirstGoesThrough(e, actions(0), single, ids[0], table, x, p); }
    if n > 0 {
      ChangedPrefix(e, actions, ids[..n], table, r.0, x, p);
      if Taken(p, ids[0], table) {
        var y: nat :| y < |table| && RowID(table[y]) != ids[0] && PrefixAt(table[y]) == p;
        KeptPrefix(e, actions, ids[..n], table, r.0, y, p);
        TwoAlike(r.0, x, y, p);
      } else if n > 1 {
        var y := NamedRow(ids, batch, table, 1);
        ChangedPrefix(e, actions, ids[..n], table, r.0, y, p);
        TwoAlike(r.0, x, y, p);
      }
    }
  }

  lemma ChangedPrefix(e: Effect, actions: nat -> seq<Action>, ids: seq<int>, table: seq<Row>, t: seq<Row>, x: nat,
                      p: DbValue)
    requires e.Lawful() && RowsChanged(e, actions, ids, table, t) && x < |table| && RowID(table[x]) in ids
    requires forall j :: 0 <= j < |ids| ==> PrefixSet(actions(j)) == Some(p)
    ensures PrefixAt(t[x]) == p
  {
    var j :| 0 <= j < |ids| && ids[j] == RowID(table[x]);
    AppliedPrefix(e, actions(j), table[x]);
  }

  lemma KeptPrefix(e: Effect, actions: nat -> seq<Action>, ids: seq<int>, table: seq<Row>, t: seq<Row>, y: nat,
                   p: DbValue)
    requires e.Lawful() && RowsChanged(e, actions, ids, table, t) && y < |table| && PrefixAt(table[y]) == p
    requires forall j :: 0 <= j < |ids| ==> PrefixSet(actions(j)) == Some(p)
    ensures PrefixAt(t[y]) == p
  {
    if RowID(table[y]) in ids { ChangedPrefix(e, actions, ids, table, t, y, p); }
  }

  lemma FirstGoesThrough(e: Effect, actions: seq<Action>, single: seq<Filter>, id: int, table: seq<Row>, x: nat,
                         p: DbValue)
    requires e.Lawful() && DistinctIDs(table) && UniquePrefix(table) && x < |table| && Hit(single, id, table[x])
    requires PrefixSet(actions) == Some(p) && !Taken(p, id, table)
    ensures UniquePrefix(HitRow(e, actions, single, id, table))
  {
    var after := HitRow(e, actions, single, id, table);
    AppliedPrefix(e, actions, table[x]);
    forall k | 0 <= k < |table| && k != x ensures after[k] == table[k] && PrefixAt(table[k]) != p {
      assert RowID(table[k]) != id;
    }
    NewPrefix(table, after, x, p);
  }

  // ---------- what the batch form does ----------

  lemma BatchWithoutPrefix(e: Effect, actions: seq<Action>, batch: seq<Filter>, table: seq<Row>)
    requires e.Lawful() && UniquePrefix(table) && PrefixSet(actions) == None
    ensures UniquePrefix(Matching(e, actions, batch, table))
  {
    var after := Matching(e, actions, batch, table);
    forall k | 0 <= k < |table| ensures PrefixAt(after[k]) == PrefixAt(table[k]) {
      AppliedPrefix(e, actions, table[k]);
    }
    SamePrefixes(table, after);
  }

  /** A batch that sets prefix p is taken exactly when it matches one row and no other row has p. */
  lemma BatchWithPrefix(e: Effect, actions: seq<Action>, batch: seq<Filter>, ids: seq<int>, table: seq<Row>,
                        p: DbValue)
    requires e.Lawful() && DistinctIDs(table) && UniquePrefix(table) && p != DbNull
    requires ids != [] && NoRepeats(ids) && NamesAll(ids, batch, table) && PrefixSet(actions) == Some(p)
    ensures UniquePrefix(Matching(e, actions, batch, table)) <==> |ids| == 1 && !Taken(p, ids[0], table)
  {
    var after := Matching(e, actions, batch, table);
    var x := NamedRow(ids, batch, table, 0);
    AppliedPrefix(e, actions, table[x]);
    if |ids| > 1 {
      var y := NamedRow(ids, batch, table, 1);
      AppliedPrefix(e, actions, table[y]);
      TwoAlike(after, x, y, p);
    } else if Taken(p, ids[0], table) {
      var y: nat :| y < |table| && RowID(table[y]) != ids[0] && PrefixAt(table[y]) == p;
      AppliedPrefix(e, actions, table[y]);
      TwoAlike(after, x, y, p);
    } else {
      forall k | 0 <= k < |table| && k != x ensures after[k] == table[k] && PrefixAt(table[k]) != p {
        NamedIffMatching(batch, ids, table, k);
        assert RowID(table[k]) != RowID(table[x]);
      }
      NewPrefix(table, after, x, p);
    }
  }

  // ---------- the two forms of Save ----------

  /** Save of the batch form: defaults with its own clock reading, then the spec, then the rows. */
  function SaveBatch(e: Effect, c: Changes, filters: seq<Filter>, now: int, table: seq<Row>)
    : (seq<Row>, Option<UpdateError>)
  {
    match BatchSpec(WithUpdateTime(c, now), filters)
    case Err(error) => (table, Some(error))
    case Ok(spec) => UpdateMatching(e, spec.actions, spec.filters, table)
  }

  /** What the store does with the spec of a single update; a spec without an ID finds nothing. */
  function UpdateTarget(e: Effect, spec: UpdateSpec, table: seq<Row>): (seq<Row>, Option<UpdateError>) {
    if spec.id.Some? then UpdateRow(e, spec.actions, spec.filters, spec.id.value, table)
    else (table, Some(Translated(GraphNotFound)))
  }

  /** An ID that no row has, or whose row does not pass the filters, is not found, and nothing changes. */
  lemma MissingRowIsNotFound(e: Effect, actions: seq<Action>, filters: seq<Filter>, id: int, table: seq<Row>)
    requires forall k :: 0 <= k < |table| && RowID(table[k]) == id ==> !Passes(filters, table[k])
    ensures UpdateRow(e, actions, filters, id, table) == (table, Some(UpdateNotFound))
  {
  }

  /** Save of the single form for one ID. */
  function SaveOne(e: Effect, c: Changes, fields: seq<Column>, filters: seq<Filter>, now: int, id: int, table: seq<Row>)
    : (seq<Row>, Option<UpdateError>)
  {
    match SingleSpec(Some(id), fields, WithUpdateTime(c, now), filters)
    case Err(error) => (table, Some(error))
    case Ok(spec) => UpdateTarget(e, spec, table)
  }

  /** Save of the single form once per ID, each with its own clock reading, stopping at the first error
      with the table as it is then. */
  function SaveEach(e: Effect, c: Changes, fields: seq<Column>, filters: seq<Filter>, clock: nat -> int,
                    ids: seq<int>, table: seq<Row>)
    : (seq<Row>, Option<UpdateError>)
  {
    if ids == [] then (table, None)
    else
      var k := |ids| - 1;
      var r := SaveEach(e, c, fields, filters, clock, ids[..k], table);
      if r.1.Some? then r else SaveOne(e, c, fields, filters, clock(k), ids[k], r.0)
  }

  lemma UpdateTimeKeepsRest(c: Changes, now: int)
    ensures CheckUpdate(WithUpdateTime(c, now)) == CheckUpdate(c)
    ensures NewPrefixOf(WithUpdateTime(c, now)) == NewPrefixOf(c)
  {
  }

  function ActionsAt(c: Changes, clock: nat -> int): nat -> seq<Action> {
    (j: nat) => SingleActions(WithUpdateTime(c, clock(j)))
  }

  /** Without an error in the spec, saving each is updating each. */
  lemma {:induction false} ValidSaves(e: Effect, c: Changes, fields: seq<Column>, filters: seq<Filter>,
                                      clock: nat -> int, ids: seq<int>, table: seq<Row>)
    requires CheckUpdate(c) == None && FirstInvalid(fields, 0) == None
    ensures SaveEach(e, c, fields, filters, clock, ids, table)
         == UpdateEach(e, ActionsAt(c, clock), filters, ids, table)
  {
    if ids != [] {
      var k := |ids| - 1;
      ValidSaves(e, c, fields, filters, clock, ids[..k], table);
      UpdateTimeKeepsRest(c, clock(k));
    }
  }

  /** With an error in the spec, the first save fails with it and nothing follows. */
  lemma {:induction false} InvalidSaves(e: Effect, c: Changes, fields: seq<Column>, filters: seq<Filter>,
                                        clock: nat -> int, ids: seq<int>, table: seq<Row>, error: UpdateError)
    requires ids != []
    requires if CheckUpdate(c).Some? then error == UpdateInvalid(CheckUpdate(c).value)
             else FirstInvalid(fields, 0).Some? && error == UnknownField(FirstInvalid(fields, 0).value)
    ensures SaveEach(e, c, fields, filters, clock, ids, table) == (table, Some(error))
  {
    var k := |ids| - 1;
    UpdateTimeKeepsRest(c, clock(k));
    if k > 0 {
      InvalidSaves(e, c, fields, filters, clock, ids[..k], table, error);
    } else {
      assert SaveEach(e, c, fields, filters, clock, ids[..k], table) == (table, None);
    }
  }

  /** The prefix that a mutation sets, as it is stored. */
  function NewPrefixOf(c: Changes): Option<DbValue> {
    if Prefix in c.toSet && c.toSet[Prefix].StringValue? then Some(DbString(c.toSet[Prefix].s)) else None
  }

  lemma {:induction false} PrefixSetIsListed(actions: seq<Action>)
    ensures PrefixSet(actions).Some? ==>
              exists k, s :: SetField(Prefix, k, StringValue(s)) in actions && PrefixSet(actions) == Some(DbString(s))
    ensures PrefixSet(actions).None? ==> forall k, s :: SetField(Prefix, k, StringValue(s)) !in actions
  {
    if actions != [] {
      var n := |actions| - 1;
      PrefixSetIsListed(actions[..n]);
      assert actions == actions[..n] + [actions[n]];
      match actions[n] {
        case SetField(Prefix, k, StringValue(s)) => assert SetField(Prefix, k, StringValue(s)) in actions;
        case _ =>
      }
    }
  }

  /** The actions of a mutation set the prefix that the mutation sets. */
  lemma ActionsSetPrefix(c: Changes)
    ensures PrefixSet(BatchActions(c)) == NewPrefixOf(c)
  {
    var actions := BatchActions(c);
    PrefixSetIsListed(actions);
    if PrefixSet(actions).Some? {
      var k, s :| SetField(Prefix, k, StringValue(s)) in actions && PrefixSet(actions) == Some(DbString(s));
      ActionsAreDemanded(c, SetField(Prefix, k, StringValue(s)));
    } else if NewPrefixOf(c).Some? {
      ActionsAreDemanded(c, SetField(Prefix, StringKind, c.toSet[Prefix]));
    }
  }

  lemma SetPrefixIsNotNull(c: Changes)
    ensures NewPrefixOf(c) != Some(DbNull)
    ensures CheckUpdate(c) == None ==> (NewPrefixOf(c).Some? <==> Prefix in c.toSet)
  {
  }

  // ---------- when they do the same ----------

  /** The update time was set by the caller, or every single save reads what the batch reads. */
  predicate TimesAgree(c: Changes, clock: nat -> int, now: int, ids: seq<int>) {
    UpdatedAt in c.toSet || forall j :: 0 <= j < |ids| ==> clock(j) == now
  }

  /** What decides whether the two forms do the same. When a validator fails: that there is an ID to
      report it for. Otherwise, unless nothing matches: that the selection is valid, and either the new
      prefix belongs to a row other than the first, so that nothing can be saved at all, or the prefix is
      not set or only one row matches, and the update times agree. */
  predicate SavesAgree(c: Changes, fields: seq<Column>, clock: nat -> int, now: int, ids: seq<int>, table: seq<Row>) {
    if CheckUpdate(c).Some? then ids != []
    else
      ids == [] || (&& FirstInvalid(fields, 0) == None
                    && (if NewPrefixOf(c).Some? && Taken(NewPrefixOf(c).value, ids[0], table) then true
                        else (NewPrefixOf(c) == None || |ids| == 1) && TimesAgree(c, clock, now, ids)))
  }

  ghost predicate Comparable(batch: seq<Filter>, single: seq<Filter>, ids: seq<int>, table: seq<Row>) {
    && DistinctIDs(table) && UniquePrefix(table)
    && NoRepeats(ids) && NamesAll(ids, batch, table) && (single == batch || single == [])
  }

  /** If every single update has the actions of the batch, changing the named rows is changing the
      matching ones. */
  lemma SameRowsChanged(e: Effect, actions: nat -> seq<Action>, one: seq<Action>, batch: seq<Filter>, ids: seq<int>,
                        table: seq<Row>, t: seq<Row>)
    requires DistinctIDs(table) && NamesAll(ids, batch, table) && RowsChanged(e, actions, ids, table, t)
    requires forall j :: 0 <= j < |ids| ==> actions(j) == one
    ensures t == Matching(e, one, batch, table)
  {
    var u := Matching(e, one, batch, table);
    forall k | 0 <= k < |table| ensures t[k] == u[k] {
      NamedIffMatching(batch, ids, table, k);
      if RowID(table[k]) in ids {
        var j :| 0 <= j < |ids| && ids[j] == RowID(table[k]);
        assert actions(j) == one;
      }
    }
  }

  /** How far the single form gets, and whether the batch is taken, by the prefix that the mutation
      sets. */
  lemma SavesReach(e: Effect, c: Changes, fields: seq<Column>, batch: seq<Filter>, single: seq<Filter>,
                   clock: nat -> int, now: int, ids: seq<int>, table: seq<Row>) returns (n: nat)
    requires e.Lawful() && Comparable(batch, single, ids, table) && ids != []
    requires CheckUpdate(c) == None && FirstInvalid(fields, 0) == None
    ensures Reaches(e, ActionsAt(c, clock), single, ids, table, SaveEach(e, c, fields, single, clock, ids, table), n)
    ensures var p := NewPrefixOf(c);
            && n == (if p == None then |ids| else if Taken(p.value, ids[0], table) then 0 else 1)
            && (UniquePrefix(Matching(e, BatchActions(WithUpdateTime(c, now)), batch, table)) <==>
                  p == None || (|ids| == 1 && !Taken(p.value, ids[0], table)))
  {
    var actions, one := ActionsAt(c, clock), BatchActions(WithUpdateTime(c, now));
    NamedRowsMatch(ids, batch, single, table);
    ValidSaves(e, c, fields, single, clock, ids, table);
    n := EachUpdatesItsRow(e, actions, batch, single, ids, table);
    var r := UpdateEach(e, actions, single, ids, table);
    forall j | 0 <= j < |ids| ensures PrefixSet(actions(j)) == NewPrefixOf(c) {
      PrefixOfSave(c, clock(j));
    }
    PrefixOfSave(c, now);
    SetPrefixIsNotNull(c);
    if NewPrefixOf(c) == None {
      ReachesAll(e, actions, single, ids, table, r, n);
      BatchWithoutPrefix(e, one, batch, table);
    } else {
      ReachesOne(e, actions, batch, single, ids, table, r, n, NewPrefixOf(c).value);
      BatchWithPrefix(e, one, batch, ids, table, NewPrefixOf(c).value);
    }
  }

  lemma PrefixOfSave(c: Changes, now: int)
    ensures PrefixSet(SingleActions(WithUpdateTime(c, now))) == NewPrefixOf(c)
    ensures PrefixSet(BatchActions(WithUpdateTime(c, now))) == NewPrefixOf(c)
  {
    FormsBuildSameActions(WithUpdateTime(c, now));
    ActionsSetPrefix(WithUpdateTime(c, now));
    UpdateTimeKeepsRest(c, now);
  }

  lemma SameActions(c: Changes, clock: nat -> int, now: int, ids: seq<int>, j: nat)
    requires TimesAgree(c, clock, now, ids) && j < |ids|
    ensures ActionsAt(c, clock)(j) == BatchActions(WithUpdateTime(c, now))
  {
    FormsBuildSameActions(WithUpdateTime(c, now));
    assert WithUpdateTime(c, clock(j)) == WithUpdateTime(c, now);
  }

  lemma NothingMatches(e: Effect, actions: seq<Action>, batch: seq<Filter>, table: seq<Row>)
    requires DistinctIDs(table) && UniquePrefix(table) && NamesAll([], batch, table)
    ensures UpdateMatching(e, actions, batch, table) == (table, None)
  {
    forall k | 0 <= k < |table| ensures !Passes(batch, table[k]) { NamedIffMatching(batch, [], table, k); }
    assert Matching(e, actions, batch, table) == table;
  }

  lemma AgreeingSaves(e: Effect, c: Changes, fields: seq<Column>, batch: seq<Filter>, single: seq<Filter>,
                      clock: nat -> int, now: int, ids: seq<int>, table: seq<Row>)
    requires e.Lawful() && Comparable(batch, single, ids, table)
    requires SavesAgree(c, fields, clock, now, ids, table)
    ensures SaveEach(e, c, fields, single, clock, ids, table) == SaveBatch(e, c, batch, now, table)
  {
    UpdateTimeKeepsRest(c, now);
    if CheckUpdate(c).Some? {
      InvalidSaves(e, c, fields, single, clock, ids, table, UpdateInvalid(CheckUpdate(c).value));
    } else if ids == [] {
      NothingMatches(e, BatchActions(WithUpdateTime(c, now)), batch, table);
    } else {
      var n := SavesReach(e, c, fields, batch, single, clock, now, ids, table);
      var t := SaveEach(e, c, fields, single, clock, ids, table).0;
      if n == |ids| {
        forall j | 0 <= j < |ids| ensures ActionsAt(c, clock)(j) == BatchActions(WithUpdateTime(c, now)) {
          SameActions(c, clock, now, ids, j);
        }
        assert ids[..n] == ids;
        SameRowsChanged(e, ActionsAt(c, clock), BatchActions(WithUpdateTime(c, now)), batch, ids, table, t);
      } else {
        assert n == 0 && t == table;
      }
    }
  }

  // ---------- and when they do not ----------

  /** A store that sets the prefix when told to, and always changes the update time: to now if that is
      what it is told, and otherwise to something that is neither now nor what was there. */
  function Telltale(now: int): Effect {
    Effect((actions: seq<Action>, r: Row) => Marked(now, actions, r), 0)
  }

  function Marked(now: int, actions: seq<Action>, r: Row): Row {
    var u := if PrefixSet(actions).Some? then r[Known(Prefix) := PrefixSet(actions).value] else r;
    u[Known(UpdatedAt) := if SetField(UpdatedAt, TimeKind, TimeValue(now)) in actions then Mark(r, 0) else Mark(r, 2)]
  }

  /** One of two values, whichever the row does not have. */
  function Mark(r: Row, n: int): DbValue {
    if At(r, Known(UpdatedAt)) == DbTime(n) then DbTime(n + 1) else DbTime(n)
  }

  lemma MarkedIsLawful(now: int, actions: seq<Action>, r: Row)
    ensures At(Marked(now, actions, r), Known(ID)) == At(r, Known(ID))
    ensures At(Marked(now, actions, r), Known(Prefix))
         == (if PrefixSet(actions).Some? then PrefixSet(actions).value else At(r, Known(Prefix)))
    ensures Marked(now, actions, r) != r
  {
    assert At(Marked(now, actions, r), Known(UpdatedAt)) != At(r, Known(UpdatedAt));
  }

  lemma TelltaleIsLawful(now: int)
    ensures Telltale(now).Lawful()
  {
    forall actions, r { MarkedIsLawful(now, actions, r); }
  }

  lemma OneTimeIsSet(c: Changes, now: int, other: int)
    requires UpdatedAt !in c.toSet && now != other
    ensures SetField(UpdatedAt, TimeKind, TimeValue(now)) in BatchActions(WithUpdateTime(c, now))
    ensures SetField(UpdatedAt, TimeKind, TimeValue(now)) !in SingleActions(WithUpdateTime(c, other))
  {
    var a := SetField(UpdatedAt, TimeKind, TimeValue(now));
    ActionsAreDemanded(WithUpdateTime(c, now), a);
    ActionsAreDemanded(WithUpdateTime(c, other), a);
    FormsBuildSameActions(WithUpdateTime(c, other));
  }

  lemma DisagreeingSaves(c: Changes, fields: seq<Column>, batch: seq<Filter>, single: seq<Filter>,
                         clock: nat -> int, now: int, ids: seq<int>, table: seq<Row>)
    requires Comparable(batch, single, ids, table) && !SavesAgree(c, fields, clock, now, ids, table)
    ensures SaveEach(Telltale(now), c, fields, single, clock, ids, table)
         != SaveBatch(Telltale(now), c, batch, now, table)
  {
    UpdateTimeKeepsRest(c, now);
    var e := Telltale(now);
    TelltaleIsLawful(now);
    if CheckUpdate(c).Some? {
    } else if FirstInvalid(fields, 0).Some? {
      InvalidSaves(e, c, fields, single, clock, ids, table, UnknownField(FirstInvalid(fields, 0).value));
    } else if NewPrefixOf(c).Some? && |ids| > 1 {
      PartialSaveShows(c, fields, batch, single, clock, now, ids, table);
    } else {
      var j :| 0 <= j < |ids| && clock(j) != now;
      LateSaveShows(c, fields, batch, single, clock, now, ids, table, j);
    }
  }

  /** The batch is refused whole, but the first single save has gone through. */
  lemma PartialSaveShows(c: Changes, fields: seq<Column>, batch: seq<Filter>, single: seq<Filter>,
                         clock: nat -> int, now: int, ids: seq<int>, table: seq<Row>)
    requires Comparable(batch, single, ids, table) && |ids| > 1
    requires CheckUpdate(c) == None && FirstInvalid(fields, 0) == None
    requires NewPrefixOf(c).Some? && !Taken(NewPrefixOf(c).value, ids[0], table)
    ensures SaveEach(Telltale(now), c, fields, single, clock, ids, table).0 != table
    ensures SaveBatch(Telltale(now), c, batch, now, table).0 == table
  {
    TelltaleIsLawful(now);
    UpdateTimeKeepsRest(c, now);
    var n := SavesReach(Telltale(now), c, fields, batch, single, clock, now, ids, table);
    var x := NamedRow(ids, batch, table, 0);
    assert ids[..n][0] == ids[0];
    MarkedIsLawful(now, ActionsAt(c, clock)(0), table[x]);
  }

  lemma LateSaveShows(c: Changes, fields: seq<Column>, batch: seq<Filter>, single: seq<Filter>,
                      clock: nat -> int, now: int, ids: seq<int>, table: seq<Row>, j: nat)
    requires Comparable(batch, single, ids, table)
    requires CheckUpdate(c) == None && FirstInvalid(fields, 0) == None
    requires UpdatedAt !in c.toSet && j < |ids| && clock(j) != now
    requires NewPrefixOf(c) == None || (|ids| == 1 && !Taken(NewPrefixOf(c).value, ids[0], table))
    ensures SaveEach(Telltale(now), c, fields, single, clock, ids, table).0
         != SaveBatch(Telltale(now), c, batch, now, table).0
  {
    TelltaleIsLawful(now);
    UpdateTimeKeepsRest(c, now);
    var n := SavesReach(Telltale(now), c, fields, batch, single, clock, now, ids, table);
    assert ids[..n] == ids;
    OneTimeIsSet(c, now, clock(j));
    var x := NamedRow(ids, batch, table, j);
    MarksDiffer(now, BatchActions(WithUpdateTime(c, now)), ActionsAt(c, clock)(j), table[x]);
  }

  lemma MarksDiffer(now: int, one: seq<Action>, other: seq<Action>, r: Row)
    requires SetField(UpdatedAt, TimeKind, TimeValue(now)) in one
    requires SetField(UpdatedAt, TimeKind, TimeValue(now)) !in other
    ensures Marked(now, one, r) != Marked(now, other, r)
  {
    assert Marked(now, one, r)[Known(UpdatedAt)] != Marked(now, other, r)[Known(UpdatedAt)];
  }

  /** Batch update against pointwise update, as Save does them: each with its own defaults and clock
      reading, through its own spec, on a store that refuses what would break the unique prefix. Whatever
      else the store does to a row, saving the batch form for all matching rows gives the same table and
      the same error as saving the single form once for each initially matching ID, in the given order
      and up to the first error, with the batch's filters or with none, if and only if SavesAgree. */
  lemma BatchEqualsPointwise(c: Changes, fields: seq<Column>, batch: seq<Filter>, single: seq<Filter>,
                             clock: nat -> int, now: int, ids: seq<int>, table: seq<Row>)
    requires Comparable(batch, single, ids, table)
    ensures SavesAgree(c, fields, clock, now, ids, table) <==>
              forall e: Effect :: e.Lawful() ==>
                SaveEach(e, c, fields, single, clock, ids, table) == SaveBatch(e, c, batch, now, table)
  {
    if SavesAgree(c, fields, clock, now, ids, table) {
      forall e: Effect | e.Lawful()
        ensures SaveEach(e, c, fields, single, clock, ids, table) == SaveBatch(e, c, batch, now, table)
      {
        AgreeingSaves(e, c, fields, batch, single, clock, now, ids, table);
      }
    } else {
      TelltaleIsLawful(now);
      DisagreeingSaves(c, fields, batch, single, clock, now, ids, table);
    }
  }
}
