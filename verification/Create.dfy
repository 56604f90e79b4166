/** The create builder: setters, defaults, checks, and the pair of node and insert spec. */
module Create {
  import opened Schema
  import opened RowCodec

  /** The fields set in a mutation. A field that is not a key has not been set. */
  type Values = map<Field, Value>

  ghost predicate WellTyped(m: Values) {
    forall f :: f in m ==> f != ID && HasKind(m[f], KindOf(f))
  }

  // ---------- setters ----------

  /** One call of a SetX or SetNillableX method of the builder. */
  datatype SetterCall = Set(field: Field, value: Value) | SetNillable(field: Field, arg: Option<Value>)

  /** What a call writes; nothing when a nillable setter receives nil. */
  function Written(c: SetterCall): Option<Value> {
    match c
    case Set(_, v) => Some(v)
    case SetNillable(_, arg) => arg
  }

  function ApplyCall(m: Values, c: SetterCall): Values {
    match c
    case Set(f, v) => m[f := v]
    case SetNillable(f, arg) => if arg.Some? then m[f := arg.value] else m
  }

  function RunCalls(m: Values, calls: seq<SetterCall>): Values {
    if calls == [] then m
    else ApplyCall(RunCalls(m, calls[..|calls| - 1]), calls[|calls| - 1])
  }

  /** What one call does to each field: Set stores its value, SetNillable stores what its argument
      points to and does nothing when it is nil, and no call touches another field. */
  lemma SetterEffects(m: Values, f: Field, v: Value, g: Field)
    ensures Lookup(ApplyCall(m, Set(f, v)), g) == if g == f then Some(v) else Lookup(m, g)
    ensures Lookup(ApplyCall(m, SetNillable(f, Some(v))), g) == if g == f then Some(v) else Lookup(m, g)
    ensures ApplyCall(m, SetNillable(f, None)) == m
  {
  }

  ghost predicate Writes(calls: seq<SetterCall>, i: nat, f: Field)
    requires i < |calls|
  {
    calls[i].field == f && Written(calls[i]).Some?
  }

  ghost predicate WritesLast(calls: seq<SetterCall>, i: nat, f: Field)
    requires i < |calls|
  {
    Writes(calls, i, f) && forall j :: i < j < |calls| ==> !Writes(calls, j, f)
  }

  /** v is what the last writing call for field f wrote, or there was no such call. */
  ghost predicate LastWritten(calls: seq<SetterCall>, f: Field, v: Option<Value>) {
    if v == None then forall i :: 0 <= i < |calls| ==> !Writes(calls, i, f)
    else exists i :: 0 <= i < |calls| && WritesLast(calls, i, f) && Written(calls[i]) == v
  }

  function Lookup(m: Values, f: Field): Option<Value> {
    if f in m then Some(m[f]) else None
  }

  lemma LastWrittenSnoc(calls: seq<SetterCall>, f: Field, v: Option<Value>)
    requires calls != [] && LastWritten(calls[..|calls| - 1], f, v)
    ensures LastWritten(calls, f, if Writes(calls, |calls| - 1, f) then Written(calls[|calls| - 1]) else v)
  {
    var k := |calls| - 1;
    var init := calls[..k];
    forall i | 0 <= i < k ensures Writes(calls, i, f) <==> Writes(init, i, f) {}
    if Writes(calls, k, f) {
      assert WritesLast(calls, k, f);
    } else if v.Some? {
      var i :| 0 <= i < |init| && WritesLast(init, i, f) && Written(init[i]) == v;
      assert WritesLast(calls, i, f);
    }
  }

  lemma {:induction false} CallsKeepLastWrite(calls: seq<SetterCall>, f: Field)
    ensures LastWritten(calls, f, Lookup(RunCalls(map[], calls), f))
  {
    if calls != [] {
      var init := calls[..|calls| - 1];
      CallsKeepLastWrite(init, f);
      LastWrittenSnoc(calls, f, Lookup(RunCalls(map[], init), f));
    }
  }

  // ---------- defaults ----------

  /** The two readings of the clock that defaults may take. */
  datatype Times = Times(created: int, updated: int)

  function DefaultOf(f: Field, t: Times): Option<Value> {
    match f
    case CreatedAt => Some(TimeValue(t.created))
    case UpdatedAt => Some(TimeValue(t.updated))
    case Status => Some(StringValue("active"))
    case CostUsed | CostUsed5h | CostUsed1d | CostUsed7d => Some(StringValue("0.00000000"))
    case _ => None
  }

  function DefaultOne(m: Values, f: Field, t: Times): Values {
    if f !in m && DefaultOf(f, t).Some? then m[f := DefaultOf(f, t).value] else m
  }

  function DefaultList(m: Values, fs: seq<Field>, t: Times): Values {
    if fs == [] then m else DefaultOne(DefaultList(m, fs[..|fs| - 1], t), fs[|fs| - 1], t)
  }

  function DefaultOrder(): seq<Field> {
    [CreatedAt, UpdatedAt, Status, CostUsed, CostUsed5h, CostUsed1d, CostUsed7d]
  }

  function Defaulted(m: Values, t: Times): Values {
    DefaultList(m, DefaultOrder(), t)
  }

  lemma {:induction false} DefaultListFills(m: Values, fs: seq<Field>, t: Times, f: Field)
    ensures Lookup(DefaultList(m, fs, t), f)
         == if f in m then Some(m[f]) else if f in fs then DefaultOf(f, t) else None
  {
    if fs != [] {
      var k := |fs| - 1;
      DefaultListFills(m, fs[..k], t, f);
      assert fs == fs[..k] + [fs[k]];
    }
  }

  lemma DefaultsAreOrdered(f: Field, t: Times)
    ensures DefaultOf(f, t).Some? ==> f in DefaultOrder()
  {
    var fs := DefaultOrder();
    assert fs[0] == CreatedAt && fs[1] == UpdatedAt && fs[2] == Status && fs[3] == CostUsed
        && fs[4] == CostUsed5h && fs[5] == CostUsed1d && fs[6] == CostUsed7d;
  }

  /** Defaults fill exactly the unset fields that have one and never overwrite. */
  lemma DefaultsFillGaps(m: Values, t: Times, f: Field)
    ensures Lookup(Defaulted(m, t), f) == if f in m then Some(m[f]) else DefaultOf(f, t)
  {
    DefaultListFills(m, DefaultOrder(), t, f);
    DefaultsAreOrdered(f, t);
  }

  /** A second round of defaults changes nothing, even when the clock has moved on. */
  lemma DefaultsAreIdempotent(m: Values, t: Times, later: Times)
    ensures Defaulted(Defaulted(m, t), later) == Defaulted(m, t)
  {
    var once := Defaulted(m, t);
    var twice := Defaulted(once, later);
    forall f: Field ensures Lookup(twice, f) == Lookup(once, f) {
      DefaultsFillGaps(m, t, f);
      DefaultsFillGaps(once, later, f);
    }
    assert forall f: Field :: f in twice <==> Lookup(twice, f).Some?;
    assert forall f: Field :: f in once <==> Lookup(once, f).Some?;
    assert twice == once;
  }

  // ---------- check ----------

  datatype CheckError = Missing(field: Field) | Invalid(field: Field)

  predicate NotEmpty(v: Value) { v.StringValue? && v.s != "" }

  function CheckOne(m: Values, f: Field): Option<CheckError> {
    if f !in m then Some(Missing(f))
    else if (f == Name || f == Prefix) && !NotEmpty(m[f]) then Some(Invalid(f))
    else None
  }

  function CheckList(m: Values, fs: seq<Field>): Option<CheckError> {
    if fs == [] then None
    else if CheckOne(m, fs[0]).Some? then CheckOne(m, fs[0])
    else CheckList(m, fs[1..])
  }

  function CheckOrder(): seq<Field> {
    [CreatedAt, UpdatedAt, UserID, Name, Prefix, Hash, Status, CostUsed, CostUsed5h, CostUsed1d, CostUsed7d]
  }

  function Check(m: Values): Option<CheckError> {
    CheckList(m, CheckOrder())
  }

  predicate Required(f: Field) {
    f.CreatedAt? || f.UpdatedAt? || f.UserID? || f.Name? || f.Prefix? || f.Hash? || f.Status?
    || f.CostUsed? || f.CostUsed5h? || f.CostUsed1d? || f.CostUsed7d?
  }

  /** Field f is as the schema demands of a new row. */
  predicate Acceptable(m: Values, f: Field) {
    && (Required(f) ==> f in m)
    && (f == Name || f == Prefix ==> f in m && NotEmpty(m[f]))
  }

  lemma {:induction false} CheckListNames(m: Values, fs: seq<Field>)
    ensures CheckList(m, fs) == None <==> forall k :: 0 <= k < |fs| ==> CheckOne(m, fs[k]) == None
    ensures CheckList(m, fs).Some? ==>
              exists k :: && 0 <= k < |fs| && CheckOne(m, fs[k]) == CheckList(m, fs)
                          && forall j :: 0 <= j < k ==> CheckOne(m, fs[j]) == None
  {
    if fs != [] {
      CheckListNames(m, fs[1..]);
      if CheckOne(m, fs[0]).Some? {
        assert CheckOne(m, fs[0]) == CheckList(m, fs);
      } else if CheckList(m, fs).Some? {
        var k :| && 0 <= k < |fs[1..]| && CheckOne(m, fs[1..][k]) == CheckList(m, fs[1..])
                 && forall j :: 0 <= j < k ==> CheckOne(m, fs[1..][j]) == None;
        forall j | 0 <= j < k + 1 ensures CheckOne(m, fs[j]) == None {
          if j > 0 { assert fs[1..][j - 1] == fs[j]; }
        }
        assert CheckOne(m, fs[k + 1]) == CheckList(m, fs);
      } else {
        forall k | 0 <= k < |fs| ensures CheckOne(m, fs[k]) == None {
          if k > 0 { assert fs[1..][k - 1] == fs[k]; }
        }
      }
    }
  }

  /** The place of a required field in the order of the checks. */
  function CheckRank(f: Field): nat
    requires Required(f)
  {
    match f
    case CreatedAt => 0 case UpdatedAt => 1 case UserID => 2 case Name => 3 case Prefix => 4 case Hash => 5
    case Status => 6 case CostUsed => 7 case CostUsed5h => 8 case CostUsed1d => 9 case CostUsed7d => 10
  }

  lemma CheckOrderIsColumnOrder(f: Field, k: nat)
    requires k < 11
    ensures Required(f) ==> CheckOrder()[CheckRank(f)] == f
    ensures Required(CheckOrder()[k])
    ensures Required(f) && Position(f) < Position(CheckOrder()[k]) ==> CheckRank(f) < k
  {
  }

  /** The check passes exactly when every field is acceptable, and otherwise names the first
      unacceptable field in column order. */
  lemma CheckNamesFirstFault(m: Values)
    ensures Check(m) == None <==> forall f: Field :: Acceptable(m, f)
    ensures Check(m).Some? ==>
              && !Acceptable(m, Check(m).value.field)
              && (Check(m).value.Missing? <==> Check(m).value.field !in m)
              && forall f: Field :: Position(f) < Position(Check(m).value.field) ==> Acceptable(m, f)
  {
    var fs := CheckOrder();
    CheckListNames(m, fs);
    if Check(m) == None {
      forall f: Field ensures Acceptable(m, f) {
        CheckOrderIsColumnOrder(f, 0);
        if Required(f) { assert CheckOne(m, fs[CheckRank(f)]) == None; }
      }
    } else {
      var k :| && 0 <= k < |fs| && CheckOne(m, fs[k]) == Check(m)
               && forall j :: 0 <= j < k ==> CheckOne(m, fs[j]) == None;
      CheckOrderIsColumnOrder(fs[k], k);
      assert !Acceptable(m, fs[k]);
      forall f: Field | Position(f) < Position(fs[k]) ensures Acceptable(m, f) {
        CheckOrderIsColumnOrder(f, k);
        if Required(f) { assert CheckOne(m, fs[CheckRank(f)]) == None; }
      }
    }
  }

  /** After defaults only the four fields without one can fail the check. */
  lemma DefaultsLeaveFourFaults(m: Values, t: Times)
    ensures Check(Defaulted(m, t)).Some? ==> Check(Defaulted(m, t)).value.field in {UserID, Name, Prefix, Hash}
    ensures Check(Defaulted(m, t)) == None <==>
              && UserID in m && Hash in m && Name in m && Prefix in m
              && m[Name].StringValue? && m[Name].s != "" && m[Prefix].StringValue? && m[Prefix].s != ""
  {
    forall f: Field { DefaultsFillGaps(m, t, f); }
    FourFaults(m, t, Defaulted(m, t));
  }

  lemma FourFaults(m: Values, t: Times, d: Values)
    requires forall f: Field :: Lookup(d, f) == if f in m then Some(m[f]) else DefaultOf(f, t)
    ensures Check(d).Some? ==> Check(d).value.field in {UserID, Name, Prefix, Hash}
    ensures Check(d) == None <==>
              && UserID in m && Hash in m && Name in m && Prefix in m
              && m[Name].StringValue? && m[Name].s != "" && m[Prefix].StringValue? && m[Prefix].s != ""
  {
    CheckNamesFirstFault(d);
    forall f: Field
      ensures f in d <==> f in m || DefaultOf(f, t).Some?
      ensures f in m ==> d[f] == m[f]
    {
      assert f in d <==> Lookup(d, f).Some?;
    }
    if Check(d) == None {
      assert Acceptable(d, UserID) && Acceptable(d, Hash) && Acceptable(d, Name) && Acceptable(d, Prefix);
    } else {
      assert !Acceptable(d, Check(d).value.field);
    }
  }

  // ---------- createSpec ----------

  datatype FieldSpec = FieldSpec(field: Field, kind: Kind, value: Value)

  /** The entries that createSpec adds for a list of columns; the ID column gets none. */
  function SpecFields(m: Values, fs: seq<Field>): seq<FieldSpec> {
    if fs == [] then []
    else
      var f := fs[|fs| - 1];
      SpecFields(m, fs[..|fs| - 1]) + if f != ID && f in m then [FieldSpec(f, KindOf(f), m[f])] else []
  }

  function Entries(m: Values): seq<FieldSpec> { SpecFields(m, Columns()) }

  /** The members that createSpec sets beside them. */
  function NodeMembers(m: Values, fs: seq<Field>): map<Field, Option<Value>> {
    if fs == [] then ZeroNode().members
    else
      var f := fs[|fs| - 1];
      var before := NodeMembers(m, fs[..|fs| - 1]);
      if f != ID && f in m then before[f := Some(m[f])] else before
  }

  function NodeOf(m: Values): Node { Node(0, NodeMembers(m, Columns()), map[]) }

  /** The value an insert spec holds for a column. */
  function SpecValue(fs: seq<FieldSpec>, f: Field): Option<Value> {
    if fs == [] then None
    else if fs[|fs| - 1].field == f then Some(fs[|fs| - 1].value)
    else SpecValue(fs[..|fs| - 1], f)
  }

  lemma SpecSnoc(es: seq<FieldSpec>, e: FieldSpec, f: Field)
    ensures SpecValue(es + [e], f) == if e.field == f then Some(e.value) else SpecValue(es, f)
  {
    assert (es + [e])[..|es|] == es;
  }

  lemma {:induction false} SpecHolds(m: Values, fs: seq<Field>, f: Field)
    ensures SpecValue(SpecFields(m, fs), f) == if f != ID && f in fs then Lookup(m, f) else None
  {
    if fs != [] {
      var k := |fs| - 1;
      var g := fs[k];
      SpecHolds(m, fs[..k], f);
      assert fs == fs[..k] + [g];
      if g != ID && g in m {
        SpecSnoc(SpecFields(m, fs[..k]), FieldSpec(g, KindOf(g), m[g]), f);
      } else {
        assert SpecFields(m, fs) == SpecFields(m, fs[..k]);
      }
    }
  }

  lemma SpecHoldsMutation(m: Values, f: Field)
    ensures SpecValue(Entries(m), f) == if f != ID then Lookup(m, f) else None
  {
    SpecHolds(m, Columns(), f);
    FieldIsListed(f);
  }

  lemma {:induction false} NodeHolds(m: Values, fs: seq<Field>, f: Field)
    ensures f in NodeMembers(m, fs) <==> f != ID
    ensures f != ID ==> NodeMembers(m, fs)[f] == if f in m && f in fs then Some(m[f]) else ZeroMember(f)
  {
    if fs != [] {
      var k := |fs| - 1;
      NodeHolds(m, fs[..k], f);
      assert fs == fs[..k] + [fs[k]];
    }
  }

  lemma NodeHoldsMutation(m: Values, f: Field)
    ensures NodeOf(m).id == 0 && NodeOf(m).selected == map[]
    ensures f in NodeOf(m).members <==> f != ID
    ensures f != ID ==> NodeOf(m).members[f] == if f in m then Some(m[f]) else ZeroMember(f)
  {
    NodeHolds(m, Columns(), f);
    FieldIsListed(f);
  }

  /** After any sequence of setter calls, then defaults, then createSpec, each column holds the last
      non-nil value set, else its default, else is absent; the node shows the same values. */
  lemma SettersDecideColumns(calls: seq<SetterCall>, t: Times, f: Field)
    requires f != ID
    ensures var m := Defaulted(RunCalls(map[], calls), t);
            exists last :: && LastWritten(calls, f, last)
                           && SpecValue(Entries(m), f) == (if last.Some? then last else DefaultOf(f, t))
                           && f in NodeOf(m).members
                           && NodeOf(m).members[f] == (if last.Some? then last
                                                       else if DefaultOf(f, t).Some? then DefaultOf(f, t)
                                                       else ZeroMember(f))
  {
    var written := RunCalls(map[], calls);
    var m := Defaulted(written, t);
    CallsKeepLastWrite(calls, f);
    DefaultsFillGaps(written, t, f);
    SpecHoldsMutation(m, f);
    NodeHoldsMutation(m, f);
    assert LastWritten(calls, f, Lookup(written, f));
  }

  lemma {:induction false} EntriesOf(m: Values, fs: seq<Field>, e: FieldSpec)
    ensures e in SpecFields(m, fs) <==>
              e.field in fs && e.field != ID && e.field in m && e.kind == KindOf(e.field) && e.value == m[e.field]
  {
    if fs != [] {
      var k := |fs| - 1;
      EntriesOf(m, fs[..k], e);
      assert fs == fs[..k] + [fs[k]];
    }
  }

  /** The insert spec has an entry exactly for each set field but the ID, of the field's type and with
      the value set. */
  lemma EntriesAreTheSetFields(m: Values, e: FieldSpec)
    ensures e in Entries(m) <==>
              e.field != ID && e.field in m && e.kind == KindOf(e.field) && e.value == m[e.field]
  {
    EntriesOf(m, Columns(), e);
    FieldIsListed(e.field);
  }

  ghost predicate InColumnOrder(es: seq<FieldSpec>) {
    forall j, k :: 0 <= j < k < |es| ==> Position(es[j].field) < Position(es[k].field)
  }

  lemma {:induction false} EntriesInOrderUpTo(m: Values, n: nat)
    requires n <= WIDTH
    ensures InColumnOrder(SpecFields(m, Columns()[..n]))
    ensures forall j :: 0 <= j < |SpecFields(m, Columns()[..n])| ==>
              Position(SpecFields(m, Columns()[..n])[j].field) < n
  {
    if n > 0 {
      EntriesInOrderUpTo(m, n - 1);
      assert Columns()[..n][..n - 1] == Columns()[..n - 1];
      ListedOnce(n - 1);
    }
  }

  /** The entries come in the order of the columns, no field twice. */
  lemma EntriesAreInOrder(m: Values)
    ensures InColumnOrder(Entries(m))
  {
    EntriesInOrderUpTo(m, WIDTH);
    assert Columns()[..WIDTH] == Columns();
  }

  // ---------- write, then read ----------

  function Encode(codec: Codec, v: Value): DbValue {
    match v
    case IntValue(n) => DbInt(n)
    case StringValue(s) => DbString(s)
    case TimeValue(t) => DbTime(t)
    case ListValue(l) => DbBytes(codec.encode(l))
  }

  /** The row that an insert of these entries leaves in the table; unset columns are NULL. */
  function StoredRow(codec: Codec, fs: seq<FieldSpec>, id: int): Row {
    if fs == [] then map[Known(ID) := DbInt(id)]
    else
      var last := fs[|fs| - 1];
      StoredRow(codec, fs[..|fs| - 1], id)[Known(last.field) := Encode(codec, last.value)]
  }

  lemma {:induction false} RowHoldsSpec(codec: Codec, fs: seq<FieldSpec>, id: int, c: Column)
    ensures At(StoredRow(codec, fs, id), c)
         == if c.Known? && SpecValue(fs, c.field).Some? then Encode(codec, SpecValue(fs, c.field).value)
            else if c == Known(ID) then DbInt(id) else DbNull
  {
    if fs != [] { RowHoldsSpec(codec, fs[..|fs| - 1], id, c); }
  }

  lemma EncodeThenContent(codec: Codec, f: Field, v: Value)
    requires codec.Lawful() && HasKind(v, KindOf(f))
    ensures Content(codec, f, Encode(codec, v)) == Some(v)
    ensures Encode(codec, v).DbBytes? ==> Decodes(codec, Encode(codec, v).data)
  {
    if v.ListValue? { assert codec.Restores(v.list); }
  }

  lemma StoredRowOf(codec: Codec, m: Values, id: int, f: Field)
    requires codec.Lawful() && WellTyped(m)
    ensures var v := At(StoredRow(codec, Entries(m), id), Known(f));
            && (f == ID ==> v == DbInt(id))
            && (f != ID ==> Content(codec, f, v) == Lookup(m, f))
            && (v.DbBytes? ==> Decodes(codec, v.data))
  {
    RowHoldsSpec(codec, Entries(m), id, Known(f));
    SpecHoldsMutation(m, f);
    if f in m { EncodeThenContent(codec, f, m[f]); }
  }

  /** Reading a stored row through any list of columns of the table gives, on the listed columns,
      the node that createSpec built with the stored ID, and fresh members elsewhere. */
  lemma PartialRoundTrip(codec: Codec, m: Values, id: int, cols: seq<Column>, f: Field)
    requires codec.Lawful() && WellTyped(m) && f != ID
    ensures var r := Read(codec, cols, StoredRow(codec, Entries(m), id));
            && r.1 == None
            && r.0.id == (if Known(ID) in cols then id else 0)
            && Shaped(r.0) && f in NodeOf(m).members
            && r.0.members[f] == (if Known(f) in cols then NodeOf(m).members[f] else ZeroMember(f))
            && r.0.selected.Keys == UnknownNames(cols)
  {
    var row := StoredRow(codec, Entries(m), id);
    assert Readable(codec, row) by {
      forall g: Field { StoredRowOf(codec, m, id, g); }
    }
    ReadIsPicture(codec, cols, row);
    StoredRowOf(codec, m, id, f);
    StoredRowOf(codec, m, id, ID);
    NodeHoldsMutation(m, f);
    assert f in Read(codec, cols, row).0.members;
  }

  /** Write/read round trip: for a mutation that passes defaults and check, reading the stored row
      back under any permutation of the table's columns gives exactly the node createSpec built, once
      the stored ID is assigned to it. */
  lemma RoundTrip(codec: Codec, m: Values, t: Times, id: int, cols: seq<Column>)
    requires codec.Lawful() && WellTyped(m)
    requires Check(Defaulted(m, t)) == None
    requires multiset(cols) == multiset(AllColumns())
    ensures Read(codec, cols, StoredRow(codec, Entries(Defaulted(m, t)), id))
         == (NodeOf(Defaulted(m, t)).(id := id), None)
  {
    var d := Defaulted(m, t);
    assert WellTyped(d) by { DefaultsKeepTypes(m, t); }
    forall c: Column ensures c in cols <==> c.Known? { PermutationCovers(cols, c); }
    RoundTripAnyCover(codec, d, id, cols);
  }

  lemma DefaultsKeepTypes(m: Values, t: Times)
    requires WellTyped(m)
    ensures WellTyped(Defaulted(m, t))
  {
    var d := Defaulted(m, t);
    forall f | f in d ensures f != ID && HasKind(d[f], KindOf(f)) {
      DefaultsFillGaps(m, t, f);
    }
  }

  lemma PermutationCovers(cols: seq<Column>, c: Column)
    requires multiset(cols) == multiset(AllColumns())
    ensures c in cols <==> c.Known?
  {
    assert c in multiset(cols) <==> c in cols;
    assert c in multiset(AllColumns()) <==> c in AllColumns();
    if c.Known? {
      FieldIsListed(c.field);
      assert AllColumns()[Position(c.field)] == c;
    }
  }

  function AllColumns(): (cs: seq<Column>)
    ensures |cs| == WIDTH && forall i :: 0 <= i < WIDTH ==> cs[i] == Known(ColumnAt(i))
  {
    seq(WIDTH, i requires 0 <= i < WIDTH => Known(ColumnAt(i)))
  }

  /** The same for every mutation, checked or not, and every column list that covers the table. */
  lemma RoundTripAnyCover(codec: Codec, m: Values, id: int, cols: seq<Column>)
    requires codec.Lawful() && WellTyped(m)
    requires forall c: Column :: c in cols <==> c.Known?
    ensures Read(codec, cols, StoredRow(codec, Entries(m), id)) == (NodeOf(m).(id := id), None)
  {
    var r := Read(codec, cols, StoredRow(codec, Entries(m), id));
    forall f: Field ensures SameMember(r.0, NodeOf(m), f) { RoundTripMember(codec, m, id, cols, f); }
    RoundTripRest(codec, m, id, cols, r);
    SameNode(r.0, NodeOf(m), id, cols);
  }

  lemma RoundTripRest(codec: Codec, m: Values, id: int, cols: seq<Column>, r: (Node, Option<AssignError>))
    requires codec.Lawful() && WellTyped(m) && Known(ID) in cols
    requires r == Read(codec, cols, StoredRow(codec, Entries(m), id))
    ensures r.1 == None && r.0.id == id && r.0.selected.Keys == UnknownNames(cols)
  {
    PartialRoundTrip(codec, m, id, cols, Name);
  }

  ghost predicate SameMember(x: Node, y: Node, f: Field) {
    (f in x.members <==> f in y.members) && (f in x.members ==> x.members[f] == y.members[f])
  }

  lemma SameNode(x: Node, y: Node, id: int, cols: seq<Column>)
    requires x.id == id && x.selected.Keys == UnknownNames(cols) && y.selected == map[]
    requires forall c: Column :: c in cols ==> c.Known?
    requires forall f: Field :: SameMember(x, y, f)
    ensures x == y.(id := id)
  {
    forall f: Field
      ensures f in x.members <==> f in y.members
      ensures f in x.members ==> x.members[f] == y.members[f]
    {
      assert SameMember(x, y, f);
    }
    assert x.members == y.members;
    assert x.selected == map[];
  }

  lemma RoundTripMember(codec: Codec, m: Values, id: int, cols: seq<Column>, f: Field)
    requires codec.Lawful() && WellTyped(m) && Known(f) in cols
    ensures SameMember(Read(codec, cols, StoredRow(codec, Entries(m), id)).0, NodeOf(m), f)
  {
    NodeHoldsMutation(m, f);
    PartialRoundTrip(codec, m, id, cols, if f != ID then f else Name);
  }
}
