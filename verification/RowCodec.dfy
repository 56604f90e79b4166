/** Reading rows back: which scan cell each column gets, and how filled cells update a node. */
module RowCodec {
  import opened Schema

  type Bytes = string

  /** The JSON library, as far as the entity relies on it. Decoding bytes into a list that is already
      there may keep some of it, and may change it even when it reports an error, which it does
      unless the bytes are accepted. */
  datatype Codec = Codec(
    encode: StringSlice -> Bytes,
    accepts: Bytes -> bool,
    decode: (Bytes, StringSlice) -> StringSlice)
  {
    /** What was encoded decodes to itself, whatever it is decoded into. */
    ghost predicate Lawful() {
      forall l: StringSlice :: encode(l) != [] && accepts(encode(l)) && Restores(l)
    }

    ghost predicate Restores(l: StringSlice) {
      forall prior: StringSlice :: decode(encode(l), prior) == l
    }
  }

  datatype DbValue = DbNull | DbInt(n: int) | DbString(s: string) | DbTime(t: int) | DbBytes(data: Bytes)

  /** A scan destination. A nil *[]byte is the same as an empty one to every reader. */
  datatype Cell =
    | NullInt(valid: bool, n: int)
    | NullString(valid: bool, s: string)
    | NullTime(valid: bool, t: int)
    | RawBytes(data: Bytes)
    | UnknownCell(payload: DbValue)

  datatype AssignError =
    | TooFewValues(have: nat, want: nat)
    | UnexpectedType(field: Field)
    | BadJSON(field: Field)

  /** The APIKey struct: its ID, every other member, and the dynamically selected values. */
  datatype Node = Node(id: int, members: map<Field, Option<Value>>, selected: map<string, Cell>)

  function ZeroNode(): Node {
    Node(0, map f: Field | f != ID :: ZeroMember(f), map[])
  }

  // ---------- scanValues ----------

  function CellFor(c: Column): Cell {
    match c
    case Other(_) => UnknownCell(DbNull)
    case Known(f) =>
      match KindOf(f)
      case JsonKind => RawBytes([])
      case IntKind => NullInt(false, 0)
      case StringKind => NullString(false, "")
      case TimeKind => NullTime(false, 0)
  }

  // ---------- assignValues ----------

  /** Why a cell cannot be assigned to a column, if it cannot. */
  function Misfit(codec: Codec, c: Column, cell: Cell): Option<AssignError> {
    match c
    case Other(_) => None
    case Known(f) =>
      match KindOf(f)
      case IntKind => if cell.NullInt? then None else Some(UnexpectedType(f))
      case StringKind => if cell.NullString? then None else Some(UnexpectedType(f))
      case TimeKind => if cell.NullTime? then None else Some(UnexpectedType(f))
      case JsonKind =>
        if !cell.RawBytes? then Some(UnexpectedType(f))
        else if cell.data != [] && !codec.accepts(cell.data) then Some(BadJSON(f))
        else None
  }

  predicate HoldsValue(cell: Cell) {
    match cell
    case NullInt(valid, _) => valid
    case NullString(valid, _) => valid
    case NullTime(valid, _) => valid
    case RawBytes(data) => data != []
    case UnknownCell(_) => true
  }

  function ListIn(member: Option<Value>): StringSlice {
    if member.Some? && member.value.ListValue? then member.value.list else NilSlice
  }

  function MemberOf(n: Node, f: Field): Option<Value> {
    if f in n.members then n.members[f] else None
  }

  /** The value a fitting cell gives to field f, whose member is prior so far; None when the cell
      leaves the member alone. */
  function Carried(codec: Codec, f: Field, cell: Cell, prior: Option<Value>): (v: Option<Value>)
    requires Misfit(codec, Known(f), cell) == None
    ensures v.Some? <==> HoldsValue(cell)
    ensures v.Some? ==> HasKind(v.value, KindOf(f))
  {
    match KindOf(f)
    case IntKind => if cell.valid then Some(IntValue(cell.n)) else None
    case StringKind => if cell.valid then Some(StringValue(cell.s)) else None
    case TimeKind => if cell.valid then Some(TimeValue(cell.t)) else None
    case JsonKind => if cell.data != [] then Some(ListValue(codec.decode(cell.data, ListIn(prior)))) else None
  }

  function AssignOne(codec: Codec, n: Node, c: Column, cell: Cell): Node
    requires Misfit(codec, c, cell) == None
  {
    match c
    case Other(name) => n.(selected := n.selected[name := cell])
    case Known(ID) => n.(id := cell.n)
    case Known(f) =>
      match Carried(codec, f, cell, MemberOf(n, f))
      case None => n
      case Some(v) => n.(members := n.members[f := Some(v)])
  }

  /** What a cell that does not fit leaves behind: bad JSON has been decoded as far as it goes. */
  function Spoiled(codec: Codec, n: Node, c: Column, cell: Cell): Node {
    if c.Known? && Misfit(codec, c, cell) == Some(BadJSON(c.field))
    then n.(members := n.members[c.field := Some(ListValue(codec.decode(cell.data, ListIn(MemberOf(n, c.field)))))])
    else n
  }

  /** The node and the error after the first k columns; the loop stops at the first error. */
  function AssignUpTo(codec: Codec, n: Node, cols: seq<Column>, cells: seq<Cell>, k: nat)
    : (r: (Node, Option<AssignError>))
    requires k <= |cols| <= |cells|
  {
    if k == 0 then (n, None)
    else
      var before := AssignUpTo(codec, n, cols, cells, k - 1);
      if before.1.Some? then before
      else
        var misfit := Misfit(codec, cols[k - 1], cells[k - 1]);
        if misfit.Some? then (Spoiled(codec, before.0, cols[k - 1], cells[k - 1]), misfit)
        else (AssignOne(codec, before.0, cols[k - 1], cells[k - 1]), None)
  }

  function Assigned(codec: Codec, n: Node, cols: seq<Column>, cells: seq<Cell>): (Node, Option<AssignError>) {
    if |cells| < |cols| then (n, Some(TooFewValues(|cells|, |cols|)))
    else AssignUpTo(codec, n, cols, cells, |cols|)
  }

  class APIKey {
    var id: int
    var members: map<Field, Option<Value>>
    var selected: map<string, Cell>

    ghost function View(): Node
      reads this
    {
      Node(id, members, selected)
    }

    constructor ()
      ensures View() == ZeroNode()
    {
      id := 0;
      members := ZeroNode().members;
      selected := map[];
    }

    function Current(f: Field): Option<Value>
      reads this
    {
      if f in members then members[f] else None
    }

    static method ScanValues(columns: seq<Column>) returns (values: array<Cell>)
      ensures fresh(values)
      ensures values.Length == |columns|
      ensures forall i :: 0 <= i < |columns| ==> values[i] == CellFor(columns[i])
    {
      values := new Cell[|columns|](_ => UnknownCell(DbNull));
      for i := 0 to |columns|
        invariant forall j :: 0 <= j < i ==> values[j] == CellFor(columns[j])
      {
        match columns[i]
        case Other(_) => values[i] := UnknownCell(DbNull);
        case Known(f) =>
          match KindOf(f) {
            case JsonKind => values[i] := RawBytes([]);
            case IntKind => values[i] := NullInt(false, 0);
            case StringKind => values[i] := NullString(false, "");
            case TimeKind => values[i] := NullTime(false, 0);
          }
      }
    }

    method AssignValues(codec: Codec, columns: seq<Column>, values: seq<Cell>)
      returns (err: Option<AssignError>)
      modifies this
      ensures (View(), err) == Assigned(codec, old(View()), columns, values)
    {
      if |values| < |columns| {
        return Some(TooFewValues(|values|, |columns|));
      }
      for i := 0 to |columns|
        invariant (View(), None) == AssignUpTo(codec, old(View()), columns, values, i)
      {
        var cell := values[i];
        match columns[i]
        case Other(name) => selected := selected[name := cell];
        case Known(f) =>
          var misfit := Misfit(codec, columns[i], cell);
          if misfit.Some? {
            if misfit.value.BadJSON? {
              members := members[f := Some(ListValue(codec.decode(cell.data, ListIn(Current(f)))))];
            }
            StopsThere(codec, old(View()), columns, values, i + 1, |columns|);
            return misfit;
          }
          if f == ID {
            id := cell.n;
          } else {
            var carried := Carried(codec, f, cell, Current(f));
            if carried.Some? {
              members := members[f := Some(carried.value)];
            }
          }
      }
      return None;
    }
  }

  /** One more column, when those before it were assigned. */
  lemma AssignStep(codec: Codec, n: Node, cols: seq<Column>, cells: seq<Cell>, k: nat)
    requires k < |cols| <= |cells| && AssignUpTo(codec, n, cols, cells, k).1 == None
    ensures var before, misfit := AssignUpTo(codec, n, cols, cells, k).0, Misfit(codec, cols[k], cells[k]);
            && (misfit == None ==>
                  AssignUpTo(codec, n, cols, cells, k + 1) == (AssignOne(codec, before, cols[k], cells[k]), None))
            && (misfit.Some? ==>
                  AssignUpTo(codec, n, cols, cells, k + 1)
                  == (Spoiled(codec, before, cols[k], cells[k]), misfit))
  {
  }

  /** Once a column has failed, later columns change nothing. */
  lemma {:induction false} StopsThere(codec: Codec, n: Node, cols: seq<Column>, cells: seq<Cell>, i: nat, k: nat)
    requires i <= k <= |cols| <= |cells|
    requires AssignUpTo(codec, n, cols, cells, i).1.Some?
    ensures AssignUpTo(codec, n, cols, cells, k) == AssignUpTo(codec, n, cols, cells, i)
  {
    if i < k { StopsThere(codec, n, cols, cells, i, k - 1); }
  }

  ghost predicate Fits(codec: Codec, cols: seq<Column>, cells: seq<Cell>, k: nat)
    requires k <= |cols| <= |cells|
  {
    forall i :: 0 <= i < k ==> Misfit(codec, cols[i], cells[i]) == None
  }

  /** Assignment succeeds exactly when every cell fits its column; otherwise the error is the one of
      the first misfit, and the node holds what the columns before it assigned, changed only by the
      failed decoding if the misfit is bad JSON. */
  lemma {:induction false} AssignOutcome(codec: Codec, n: Node, cols: seq<Column>, cells: seq<Cell>, k: nat)
    requires k <= |cols| <= |cells|
    ensures AssignUpTo(codec, n, cols, cells, k).1 == None <==> Fits(codec, cols, cells, k)
    ensures !Fits(codec, cols, cells, k) ==>
              exists i :: && 0 <= i < k
                          && Fits(codec, cols, cells, i)
                          && Misfit(codec, cols[i], cells[i]).Some?
                          && AssignUpTo(codec, n, cols, cells, k)
                             == (Spoiled(codec, AssignUpTo(codec, n, cols, cells, i).0, cols[i], cells[i]),
                                 Misfit(codec, cols[i], cells[i]))
  {
    if k > 0 {
      AssignOutcome(codec, n, cols, cells, k - 1);
      if Fits(codec, cols, cells, k - 1) && Misfit(codec, cols[k - 1], cells[k - 1]).Some? {
        assert AssignUpTo(codec, n, cols, cells, k)
            == (Spoiled(codec, AssignUpTo(codec, n, cols, cells, k - 1).0, cols[k - 1], cells[k - 1]),
                Misfit(codec, cols[k - 1], cells[k - 1]));
      }
    }
  }

  /** The cell has the type that scanValues gives to columns of this kind. */
  predicate OfKind(cell: Cell, k: Kind) {
    match k
    case IntKind => cell.NullInt?
    case StringKind => cell.NullString?
    case TimeKind => cell.NullTime?
    case JsonKind => cell.RawBytes?
  }

  predicate IsJSON(f: Field) {
    f in {ScopesJSON, AllowedModelsJSON, AllowedIpsJSON, DeniedIpsJSON}
  }

  /** Any cells, allocated by scanValues or not: a cell is refused exactly when its column is a field
      and it has another type, or holds bytes of one of the four lists that are no JSON list. */
  lemma MisfitMeans(codec: Codec, c: Column, cell: Cell)
    ensures Misfit(codec, c, cell) ==
            if c.Other? then None
            else if !OfKind(cell, KindOf(c.field)) then Some(UnexpectedType(c.field))
            else if IsJSON(c.field) && cell.data != [] && !codec.accepts(cell.data) then Some(BadJSON(c.field))
            else None
  {
  }

  /** Too few cells are an error before anything is assigned; more than enough are not. */
  lemma LengthIsChecked(codec: Codec, n: Node, cols: seq<Column>, cells: seq<Cell>)
    ensures |cells| < |cols| ==> Assigned(codec, n, cols, cells) == (n, Some(TooFewValues(|cells|, |cols|)))
    ensures |cells| >= |cols| ==>
              Assigned(codec, n, cols, cells).1.None? || !Assigned(codec, n, cols, cells).1.value.TooFewValues?
  {
    if |cells| >= |cols| { AssignOutcome(codec, n, cols, cells, |cols|); }
  }

  /** A cell that is refused changes nothing, except that bad JSON may have changed its own list. */
  lemma SpoiledOnlyThere(codec: Codec, n: Node, c: Column, cell: Cell, f: Field)
    ensures Spoiled(codec, n, c, cell).id == n.id && Spoiled(codec, n, c, cell).selected == n.selected
    ensures MemberOf(Spoiled(codec, n, c, cell), f) ==
            if c == Known(f) && Misfit(codec, c, cell) == Some(BadJSON(f))
            then Some(ListValue(codec.decode(cell.data, ListIn(MemberOf(n, f))))) else MemberOf(n, f)
  {
  }

  /** A fresh node: ID zero, nothing selected, nil pointers, and zero values elsewhere. */
  lemma FreshNode(f: Field)
    ensures ZeroNode().id == 0 && ZeroNode().selected == map[]
    ensures f in ZeroNode().members <==> f != ID
    ensures f != ID && Nillable(f) ==> ZeroNode().members[f] == None
    ensures f != ID && !Nillable(f) && KindOf(f) == IntKind ==> ZeroNode().members[f] == Some(IntValue(0))
    ensures f != ID && !Nillable(f) && KindOf(f) == StringKind ==> ZeroNode().members[f] == Some(StringValue(""))
    ensures f != ID && !Nillable(f) && KindOf(f) == TimeKind ==> ZeroNode().members[f] == Some(TimeValue(0))
    ensures f != ID && !Nillable(f) && KindOf(f) == JsonKind ==> ZeroNode().members[f] == Some(ListValue(NilSlice))
  {
  }

  // ---------- arbitrary column lists and arbitrary fitting cells ----------

  ghost predicate Shaped(n: Node) {
    forall f: Field :: f in n.members <==> f != ID
  }

  /** Column i is field f and its cell holds a value. */
  ghost predicate Gives(cols: seq<Column>, cells: seq<Cell>, f: Field, i: nat)
    requires i < |cols| <= |cells|
  {
    cols[i] == Known(f) && HoldsValue(cells[i])
  }

  ghost predicate GivesLast(cols: seq<Column>, cells: seq<Cell>, f: Field, i: nat)
    requires i < |cols| <= |cells|
  {
    Gives(cols, cells, f, i) && forall j :: i < j < |cols| ==> !Gives(cols, cells, f, j)
  }

  lemma {:induction false} KeepsShape(codec: Codec, n: Node, cols: seq<Column>, cells: seq<Cell>, k: nat)
    requires k <= |cols| <= |cells| && Shaped(n)
    ensures Shaped(AssignUpTo(codec, n, cols, cells, k).0)
  {
    if k > 0 { KeepsShape(codec, n, cols, cells, k - 1); }
  }

  /** Columns i..k that give field f nothing leave its member alone. */
  lemma {:induction false} KeepsMember(codec: Codec, n: Node, cols: seq<Column>, cells: seq<Cell>, i: nat,
                                       k: nat, f: Field)
    requires i <= k <= |cols| <= |cells| && Fits(codec, cols, cells, |cols|)
    requires Shaped(n) && f != ID
    requires forall j :: i <= j < k ==> !Gives(cols, cells, f, j)
    ensures var before, after := AssignUpTo(codec, n, cols, cells, i).0, AssignUpTo(codec, n, cols, cells, k).0;
            f in before.members && f in after.members && after.members[f] == before.members[f]
  {
    KeepsShape(codec, n, cols, cells, k);
    if i < k {
      KeepsMember(codec, n, cols, cells, i, k - 1, f);
      AssignOutcome(codec, n, cols, cells, k - 1);
      assert !Gives(cols, cells, f, k - 1);
      OtherMemberKept(codec, AssignUpTo(codec, n, cols, cells, k - 1).0, cols[k - 1], cells[k - 1], f);
    }
  }

  lemma OtherMemberKept(codec: Codec, n: Node, c: Column, cell: Cell, f: Field)
    requires Misfit(codec, c, cell) == None && f in n.members
    requires c != Known(f) || !HoldsValue(cell)
    ensures f in AssignOne(codec, n, c, cell).members
    ensures AssignOne(codec, n, c, cell).members[f] == n.members[f]
  {
  }

  /** Every member other than the ID ends as its last non-null occurrence in the column list, or
      keeps its prior value; repeated columns and unknown names are allowed. For a JSON member the
      last occurrence is decoded into what the columns before it left there, which makes no
      difference to bytes that encode a list. */
  lemma LastOccurrenceWins(codec: Codec, n: Node, cols: seq<Column>, cells: seq<Cell>, f: Field)
    requires |cols| <= |cells| && Fits(codec, cols, cells, |cols|)
    requires Shaped(n) && f != ID
    ensures Assigned(codec, n, cols, cells).1 == None
    ensures f in Assigned(codec, n, cols, cells).0.members
    ensures (forall i :: 0 <= i < |cols| ==> !Gives(cols, cells, f, i)) ==>
              Assigned(codec, n, cols, cells).0.members[f] == n.members[f]
    ensures forall i | 0 <= i < |cols| && GivesLast(cols, cells, f, i) ::
              LastOccurrenceIs(codec, f, cells[i], MemberOf(AssignUpTo(codec, n, cols, cells, i).0, f),
                               Assigned(codec, n, cols, cells).0.members[f])
  {
    AssignOutcome(codec, n, cols, cells, |cols|);
    KeepsShape(codec, n, cols, cells, |cols|);
    if forall i :: 0 <= i < |cols| ==> !Gives(cols, cells, f, i) {
      KeepsMember(codec, n, cols, cells, 0, |cols|, f);
    }
    forall i | 0 <= i < |cols| && GivesLast(cols, cells, f, i)
      ensures LastOccurrenceIs(codec, f, cells[i], MemberOf(AssignUpTo(codec, n, cols, cells, i).0, f),
                               Assigned(codec, n, cols, cells).0.members[f])
    {
      LastGiven(codec, n, cols, cells, f, i);
    }
  }

  /** The member is what the cell gives: the cell's own value, or its bytes decoded into prior. */
  ghost predicate LastOccurrenceIs(codec: Codec, f: Field, cell: Cell, prior: Option<Value>, member: Option<Value>) {
    && (match cell
        case NullInt(_, n) => member == Some(IntValue(n))
        case NullString(_, s) => member == Some(StringValue(s))
        case NullTime(_, t) => member == Some(TimeValue(t))
        case RawBytes(data) => member == Some(ListValue(codec.decode(data, ListIn(prior))))
        case UnknownCell(_) => false)
    && OfKind(cell, KindOf(f))
    && (codec.Lawful() ==> forall l: StringSlice :: cell == RawBytes(codec.encode(l)) ==> member == Some(ListValue(l)))
  }

  lemma LastGiven(codec: Codec, n: Node, cols: seq<Column>, cells: seq<Cell>, f: Field, i: nat)
    requires |cols| <= |cells| && Fits(codec, cols, cells, |cols|)
    requires Shaped(n) && f != ID && i < |cols| && GivesLast(cols, cells, f, i)
    ensures f in AssignUpTo(codec, n, cols, cells, |cols|).0.members
    ensures LastOccurrenceIs(codec, f, cells[i], MemberOf(AssignUpTo(codec, n, cols, cells, i).0, f),
                             AssignUpTo(codec, n, cols, cells, |cols|).0.members[f])
  {
    AssignOutcome(codec, n, cols, cells, i);
    assert Fits(codec, cols, cells, i);
    KeepsMember(codec, n, cols, cells, i + 1, |cols|, f);
    CarriedIsLast(codec, f, cells[i], MemberOf(AssignUpTo(codec, n, cols, cells, i).0, f));
  }

  lemma CarriedIsLast(codec: Codec, f: Field, cell: Cell, prior: Option<Value>)
    requires Misfit(codec, Known(f), cell) == None && HoldsValue(cell)
    ensures LastOccurrenceIs(codec, f, cell, prior, Carried(codec, f, cell, prior))
  {
    if codec.Lawful() {
      forall l: StringSlice | cell == RawBytes(codec.encode(l))
        ensures Carried(codec, f, cell, prior) == Some(ListValue(l))
      {
        assert codec.Restores(l);
      }
    }
  }

  /** Of the first k columns, column i is the last that is the ID. */
  ghost predicate LastIDColumn(cols: seq<Column>, k: nat, i: nat)
    requires i < k <= |cols|
  {
    cols[i] == Known(ID) && forall j :: i < j < k ==> cols[j] != Known(ID)
  }

  /** id is what the last ID among the first k columns gives, or the prior one if there is none. */
  ghost predicate GivenID(codec: Codec, cols: seq<Column>, cells: seq<Cell>, k: nat, prior: int, id: int)
    requires k <= |cols| <= |cells| && Fits(codec, cols, cells, |cols|)
  {
    && ((forall i :: 0 <= i < k ==> cols[i] != Known(ID)) ==> id == prior)
    && (forall i :: 0 <= i < k && LastIDColumn(cols, k, i) ==> id == cells[i].n)
  }

  /** The ID takes its last occurrence even when that cell is NULL. */
  lemma {:induction false} LastIDWins(codec: Codec, n: Node, cols: seq<Column>, cells: seq<Cell>, k: nat)
    requires k <= |cols| <= |cells| && Fits(codec, cols, cells, |cols|)
    ensures GivenID(codec, cols, cells, k, n.id, AssignUpTo(codec, n, cols, cells, k).0.id)
  {
    if k > 0 {
      LastIDWins(codec, n, cols, cells, k - 1);
      AssignOutcome(codec, n, cols, cells, k - 1);
      AssignStep(codec, n, cols, cells, k - 1);
      var before := AssignUpTo(codec, n, cols, cells, k - 1).0;
      IDAfterOne(codec, before, cols[k - 1], cells[k - 1]);
      GivenIDNext(codec, cols, cells, k, n.id, before.id);
    }
  }

  lemma IDAfterOne(codec: Codec, n: Node, c: Column, cell: Cell)
    requires Misfit(codec, c, cell) == None
    ensures AssignOne(codec, n, c, cell).id == if c == Known(ID) then cell.n else n.id
  {
  }

  lemma GivenIDNext(codec: Codec, cols: seq<Column>, cells: seq<Cell>, k: nat, prior: int, before: int)
    requires 0 < k <= |cols| <= |cells| && Fits(codec, cols, cells, |cols|)
    requires GivenID(codec, cols, cells, k - 1, prior, before)
    ensures GivenID(codec, cols, cells, k, prior, if cols[k - 1] == Known(ID) then cells[k - 1].n else before)
  {
    forall i | 0 <= i < k - 1 && LastIDColumn(cols, k, i) ensures LastIDColumn(cols, k - 1, i) {}
    if cols[k - 1] == Known(ID) {
      forall i | 0 <= i < k && LastIDColumn(cols, k, i) ensures i == k - 1 {}
    }
  }

  /** The dynamically selected values gain exactly the columns outside the table. */
  lemma {:induction false} UnknownColumnsAreSelected(codec: Codec, n: Node, cols: seq<Column>, cells: seq<Cell>,
                                                     k: nat, name: string)
    requires k <= |cols| <= |cells| && Fits(codec, cols, cells, |cols|)
    ensures name in AssignUpTo(codec, n, cols, cells, k).0.selected
        <==> name in n.selected || Other(name) in cols[..k]
  {
    AssignOutcome(codec, n, cols, cells, k);
    if k > 0 {
      UnknownColumnsAreSelected(codec, n, cols, cells, k - 1, name);
      assert cols[..k] == cols[..k - 1] + [cols[k - 1]];
    }
  }

  // ---------- reading one database row ----------

  type Row = map<Column, DbValue>

  function At(row: Row, c: Column): DbValue {
    if c in row then row[c] else DbNull
  }

  /** database/sql scanning one value into a destination cell. */
  function Fill(cell: Cell, v: DbValue): Cell {
    match cell
    case NullInt(_, _) => if v.DbInt? then NullInt(true, v.n) else NullInt(false, 0)
    case NullString(_, _) => if v.DbString? then NullString(true, v.s) else NullString(false, "")
    case NullTime(_, _) => if v.DbTime? then NullTime(true, v.t) else NullTime(false, 0)
    case RawBytes(_) => if v.DbBytes? then RawBytes(v.data) else RawBytes([])
    case UnknownCell(_) => UnknownCell(v)
  }

  function FilledCells(cols: seq<Column>, row: Row): (cells: seq<Cell>)
    ensures |cells| == |cols|
    ensures forall i :: 0 <= i < |cols| ==> cells[i] == Fill(CellFor(cols[i]), At(row, cols[i]))
  {
    seq(|cols|, i requires 0 <= i < |cols| => Fill(CellFor(cols[i]), At(row, cols[i])))
  }

  function Read(codec: Codec, cols: seq<Column>, row: Row): (Node, Option<AssignError>) {
    Assigned(codec, ZeroNode(), cols, FilledCells(cols, row))
  }

  /** Cells allocated for a column list never cause a length or a type error in the assignment of
      that list, whatever the list and the row; only stored bytes that are not JSON can fail. */
  lemma ScannedCellsAreAccepted(codec: Codec, cols: seq<Column>, row: Row)
    ensures var err := Read(codec, cols, row).1;
            err == None || (err.value.BadJSON? && Known(err.value.field) in cols)
  {
    var cells := FilledCells(cols, row);
    AssignOutcome(codec, ZeroNode(), cols, cells, |cols|);
    forall i | 0 <= i < |cols| && Misfit(codec, cols[i], cells[i]).Some?
      ensures cols[i].Known? && Misfit(codec, cols[i], cells[i]) == Some(BadJSON(cols[i].field))
    {
      OnlyJSONMisfits(codec, cols[i], At(row, cols[i]));
    }
  }

  lemma OnlyJSONMisfits(codec: Codec, c: Column, v: DbValue)
    requires Misfit(codec, c, Fill(CellFor(c), v)).Some?
    ensures c.Known? && Misfit(codec, c, Fill(CellFor(c), v)) == Some(BadJSON(c.field))
  {
  }

  /** A listed column of one of the four lists holds bytes that are no JSON list. */
  ghost predicate StoresBadJSON(codec: Codec, c: Column, row: Row) {
    && c.Known? && c.field in {ScopesJSON, AllowedModelsJSON, AllowedIpsJSON, DeniedIpsJSON}
    && At(row, c).DbBytes? && At(row, c).data != [] && !codec.accepts(At(row, c).data)
  }

  lemma FilledMisfit(codec: Codec, c: Column, row: Row)
    ensures Misfit(codec, c, Fill(CellFor(c), At(row, c)))
         == if StoresBadJSON(codec, c, row) then Some(BadJSON(c.field)) else None
  {
  }

  /** None of the first k columns stores bad JSON. */
  ghost predicate GoodUpTo(codec: Codec, cols: seq<Column>, row: Row, k: nat)
    requires k <= |cols|
  {
    forall i :: 0 <= i < k ==> !StoresBadJSON(codec, cols[i], row)
  }

  lemma GoodIsFit(codec: Codec, cols: seq<Column>, row: Row, k: nat)
    requires k <= |cols|
    ensures GoodUpTo(codec, cols, row, k) <==> Fits(codec, cols, FilledCells(cols, row), k)
  {
    forall i | 0 <= i < k
      ensures StoresBadJSON(codec, cols[i], row) <==> Misfit(codec, cols[i], FilledCells(cols, row)[i]).Some?
    {
      FilledMisfit(codec, cols[i], row);
    }
  }

  /** Reading a row succeeds if and only if every listed JSON column that holds bytes holds bytes that
      are accepted; otherwise the error names the first listed one that does not. */
  lemma ReadFailsIff(codec: Codec, cols: seq<Column>, row: Row)
    ensures Read(codec, cols, row).1 == None <==> GoodUpTo(codec, cols, row, |cols|)
    ensures forall i | 0 <= i < |cols| && GoodUpTo(codec, cols, row, i) && StoresBadJSON(codec, cols[i], row) ::
              Read(codec, cols, row).1 == Some(BadJSON(cols[i].field))
  {
    AssignOutcome(codec, ZeroNode(), cols, FilledCells(cols, row), |cols|);
    GoodIsFit(codec, cols, row, |cols|);
    forall i | 0 <= i < |cols| && GoodUpTo(codec, cols, row, i) && StoresBadJSON(codec, cols[i], row)
      ensures Read(codec, cols, row).1 == Some(BadJSON(cols[i].field))
    {
      FirstBadIsReported(codec, cols, row, i);
    }
  }

  lemma FirstBadIsReported(codec: Codec, cols: seq<Column>, row: Row, i: nat)
    requires i < |cols| && GoodUpTo(codec, cols, row, i) && StoresBadJSON(codec, cols[i], row)
    ensures Read(codec, cols, row).1 == Some(BadJSON(cols[i].field))
  {
    var cells := FilledCells(cols, row);
    GoodIsFit(codec, cols, row, i);
    FilledMisfit(codec, cols[i], row);
    AssignOutcome(codec, ZeroNode(), cols, cells, i);
    AssignStep(codec, ZeroNode(), cols, cells, i);
    StopsThere(codec, ZeroNode(), cols, cells, i + 1, |cols|);
  }

  /** The value that a stored column denotes; None for NULL, and for the empty byte string. */
  function Content(codec: Codec, f: Field, v: DbValue): Option<Value> {
    match KindOf(f)
    case IntKind => if v.DbInt? then Some(IntValue(v.n)) else None
    case StringKind => if v.DbString? then Some(StringValue(v.s)) else None
    case TimeKind => if v.DbTime? then Some(TimeValue(v.t)) else None
    case JsonKind =>
      if v.DbBytes? && v.data != [] then Some(ListValue(codec.decode(v.data, NilSlice))) else None
  }

  /** The bytes decode without error, and decoding them a second time changes nothing. */
  predicate Decodes(codec: Codec, data: Bytes) {
    var l := codec.decode(data, NilSlice);
    codec.accepts(data) && codec.decode(data, l) == l
  }

  ghost predicate Readable(codec: Codec, row: Row) {
    forall f: Field :: KindOf(f) == JsonKind && At(row, Known(f)).DbBytes? && At(row, Known(f)).data != []
      ==> Decodes(codec, At(row, Known(f)).data)
  }

  function UnknownNames(cols: seq<Column>): set<string> {
    set c | c in cols && c.Other? :: c.name
  }

  /** What a reader of the given columns should see of field f: the stored value when the column
      is listed and not NULL, and otherwise what a fresh struct holds. It depends on which columns
      are listed and not on their order or number. */
  function Picture(codec: Codec, cols: seq<Column>, row: Row, f: Field): Option<Value> {
    if Known(f) in cols && Content(codec, f, At(row, Known(f))).Some?
    then Content(codec, f, At(row, Known(f))) else ZeroMember(f)
  }

  function PictureID(cols: seq<Column>, row: Row): int {
    if Known(ID) in cols && At(row, Known(ID)).DbInt? then At(row, Known(ID)).n else 0
  }

  ghost predicate Depicts(codec: Codec, n: Node, cols: seq<Column>, row: Row) {
    && n.id == PictureID(cols, row)
    && Shaped(n)
    && (forall f: Field :: f in n.members ==> n.members[f] == Picture(codec, cols, row, f))
    && n.selected.Keys == UnknownNames(cols)
    && (forall name :: name in n.selected ==> n.selected[name] == UnknownCell(At(row, Other(name))))
  }

  ghost predicate Depicted(codec: Codec, r: (Node, Option<AssignError>), cols: seq<Column>, row: Row) {
    r.1 == None && Depicts(codec, r.0, cols, row)
  }

  /** One listed column, scanned and assigned to a member that is fresh or already as stored. */
  lemma FilledCellCarriesContent(codec: Codec, c: Column, row: Row, prior: Option<Value>)
    requires Readable(codec, row)
    requires c.Known? ==> prior == ZeroMember(c.field) || prior == Content(codec, c.field, At(row, c))
    ensures var cell := Fill(CellFor(c), At(row, c));
            && Misfit(codec, c, cell) == None
            && (c.Other? ==> cell == UnknownCell(At(row, c)))
            && (c.Known? ==> Carried(codec, c.field, cell, prior) == Content(codec, c.field, At(row, c)))
            && (c == Known(ID) ==> cell.n == PictureID([c], row))
  {
    assert c.Known? && KindOf(c.field) == JsonKind ==> ListIn(ZeroMember(c.field)) == NilSlice;
  }

  lemma DepictionGrows(codec: Codec, n: Node, cols: seq<Column>, c: Column, row: Row)
    requires Readable(codec, row) && Depicts(codec, n, cols, row)
    ensures var cell := Fill(CellFor(c), At(row, c));
            && Misfit(codec, c, cell) == None
            && Depicts(codec, AssignOne(codec, n, c, cell), cols + [c], row)
  {
    var prior := if c.Known? && c.field != ID then MemberOf(n, c.field) else ZeroMember(ID);
    assert c.Known? && c.field != ID ==> prior == Picture(codec, cols, row, c.field);
    FilledCellCarriesContent(codec, c, row, prior);
    AssignedMembers(codec, n, cols, c, row);
  }

  /** The members after one more column. */
  lemma AssignedMembers(codec: Codec, n: Node, cols: seq<Column>, c: Column, row: Row)
    requires Depicts(codec, n, cols, row) && Misfit(codec, c, Fill(CellFor(c), At(row, c))) == None
    requires c.Known? && c.field != ID ==>
               Carried(codec, c.field, Fill(CellFor(c), At(row, c)), MemberOf(n, c.field))
               == Content(codec, c.field, At(row, c))
    ensures var m := AssignOne(codec, n, c, Fill(CellFor(c), At(row, c)));
            Shaped(m) && forall f: Field :: f in m.members ==> m.members[f] == Picture(codec, cols + [c], row, f)
  {
    var m := AssignOne(codec, n, c, Fill(CellFor(c), At(row, c)));
    forall f: Field | f in m.members
      ensures m.members[f] == Picture(codec, cols + [c], row, f)
    {
      assert n.members[f] == Picture(codec, cols, row, f);
    }
  }

  lemma {:induction false} ReadPrefix(codec: Codec, cols: seq<Column>, row: Row, k: nat)
    requires Readable(codec, row) && k <= |cols|
    ensures Depicted(codec, AssignUpTo(codec, ZeroNode(), cols, FilledCells(cols, row), k), cols[..k], row)
  {
    if k > 0 {
      ReadPrefix(codec, cols, row, k - 1);
      DepictionGrows(codec, AssignUpTo(codec, ZeroNode(), cols, FilledCells(cols, row), k - 1).0,
                     cols[..k - 1], cols[k - 1], row);
      assert cols[..k] == cols[..k - 1] + [cols[k - 1]];
    }
  }

  /** The scan-then-assign loop computes the picture, for every column list and every row whose
      stored JSON is well formed. */
  lemma ReadIsPicture(codec: Codec, cols: seq<Column>, row: Row)
    requires Readable(codec, row)
    ensures Read(codec, cols, row).1 == None
    ensures Depicts(codec, Read(codec, cols, row).0, cols, row)
  {
    ReadPrefix(codec, cols, row, |cols|);
    assert cols[..|cols|] == cols;
  }

  /** Projection refines the full read: a member whose column is listed reads as it does in the full
      read, and every other member is left as in a fresh struct. */
  lemma ProjectionRefinesFullRead(codec: Codec, cols: seq<Column>, full: seq<Column>, row: Row, f: Field)
    requires Readable(codec, row) && f != ID
    requires forall c :: c in cols ==> c in full
    ensures var part, whole := Read(codec, cols, row), Read(codec, full, row);
            && part.1 == None && whole.1 == None
            && (Known(ID) in cols ==> part.0.id == whole.0.id)
            && f in part.0.members && f in whole.0.members
            && part.0.members[f] == if Known(f) in cols then whole.0.members[f] else ZeroMember(f)
  {
    ReadIsPicture(codec, cols, row);
    ReadIsPicture(codec, full, row);
  }
}
