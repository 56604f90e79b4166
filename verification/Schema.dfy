/** The APIKey entity: its columns, the Go type of each struct member, the values that travel
    between a mutation, a row and a node, and the schema's defaults and validators. */
module Schema {

  datatype Option<+T> = None | Some(value: T)

  datatype Result<+T, +E> = Ok(value: T) | Err(error: E)

  /** One constructor per column constant, in the order of the table's column list. */
  datatype Field =
    | ID | CreatedAt | UpdatedAt | DeletedAt | UserID | WorkspaceID | Name | Prefix | Hash | Status
    | ScopesJSON | AllowedModelsJSON | RpmLimit | TpmLimit | ConcurrencyLimit
    | RequestLimit5h | RequestLimit1d | RequestLimit7d
    | CostQuota | CostUsed
    | CostLimit5h | CostUsed5h | CostWindowStart5h
    | CostLimit1d | CostUsed1d | CostWindowStart1d
    | CostLimit7d | CostUsed7d | CostWindowStart7d
    | AllowedIpsJSON | DeniedIpsJSON | ExpiresAt | LastUsedAt

  /** A column name met at run time: one of the table's columns, or any other string. */
  datatype Column = Known(field: Field) | Other(name: string)

  datatype Kind = IntKind | StringKind | TimeKind | JsonKind

  /** A Go []string, which may be nil as well as empty. */
  datatype StringSlice = NilSlice | Items(items: seq<string>)

  datatype Value =
    | IntValue(n: int)
    | StringValue(s: string)
    | TimeValue(t: int)
    | ListValue(list: StringSlice)

  const WIDTH: nat := 33

  /** The i-th entry of the table's column list. */
  function ColumnAt(i: nat): Field
    requires i < WIDTH
  {
    match i
    case 0 => ID case 1 => CreatedAt case 2 => UpdatedAt case 3 => DeletedAt
    case 4 => UserID case 5 => WorkspaceID case 6 => Name case 7 => Prefix
    case 8 => Hash case 9 => Status case 10 => ScopesJSON case 11 => AllowedModelsJSON
    case 12 => RpmLimit case 13 => TpmLimit case 14 => ConcurrencyLimit case 15 => RequestLimit5h
    case 16 => RequestLimit1d case 17 => RequestLimit7d case 18 => CostQuota case 19 => CostUsed
    case 20 => CostLimit5h case 21 => CostUsed5h case 22 => CostWindowStart5h case 23 => CostLimit1d
    case 24 => CostUsed1d case 25 => CostWindowStart1d case 26 => CostLimit7d case 27 => CostUsed7d
    case 28 => CostWindowStart7d case 29 => AllowedIpsJSON case 30 => DeniedIpsJSON case 31 => ExpiresAt
    case _ => LastUsedAt
  }

  function Columns(): (cs: seq<Field>)
    ensures |cs| == WIDTH
    ensures forall i :: 0 <= i < WIDTH ==> cs[i] == ColumnAt(i)
  {
    seq(WIDTH, i requires 0 <= i < WIDTH => ColumnAt(i))
  }

  function KindOf(f: Field): Kind {
    match f
    case ScopesJSON | AllowedModelsJSON | AllowedIpsJSON | DeniedIpsJSON => JsonKind
    case ID | UserID | WorkspaceID | RpmLimit | TpmLimit | ConcurrencyLimit
       | RequestLimit5h | RequestLimit1d | RequestLimit7d => IntKind
    case Name | Prefix | Hash | Status | CostQuota | CostUsed | CostLimit5h | CostUsed5h
       | CostLimit1d | CostUsed1d | CostLimit7d | CostUsed7d => StringKind
    case CreatedAt | UpdatedAt | DeletedAt | CostWindowStart5h | CostWindowStart1d
       | CostWindowStart7d | ExpiresAt | LastUsedAt => TimeKind
  }

  /** The struct member is a pointer, nil when the column is NULL. */
  predicate Nillable(f: Field) {
    match f
    case DeletedAt | WorkspaceID | RpmLimit | TpmLimit | ConcurrencyLimit | RequestLimit5h
       | RequestLimit1d | RequestLimit7d | CostQuota | CostLimit5h | CostWindowStart5h | CostLimit1d
       | CostWindowStart1d | CostLimit7d | CostWindowStart7d | ExpiresAt | LastUsedAt => true
    case _ => false
  }

  predicate HasKind(v: Value, k: Kind) {
    match k
    case IntKind => v.IntValue?
    case StringKind => v.StringValue?
    case TimeKind => v.TimeValue?
    case JsonKind => v.ListValue?
  }

  function ZeroValue(k: Kind): (v: Value)
    ensures HasKind(v, k)
  {
    match k
    case IntKind => IntValue(0)
    case StringKind => StringValue("")
    case TimeKind => TimeValue(0)
    case JsonKind => ListValue(NilSlice)
  }

  /** What Go puts in the member of a fresh struct; None is a nil pointer. */
  function ZeroMember(f: Field): Option<Value> {
    if Nillable(f) then None else Some(ZeroValue(KindOf(f)))
  }

  predicate ValidColumn(c: Column) {
    c.Known? && c.field in Columns()
  }

  /** The place of a field in Columns(). */
  function Position(f: Field): nat {
    match f
    case ID => 0 case CreatedAt => 1 case UpdatedAt => 2 case DeletedAt => 3 case UserID => 4
    case WorkspaceID => 5 case Name => 6 case Prefix => 7 case Hash => 8 case Status => 9
    case ScopesJSON => 10 case AllowedModelsJSON => 11 case RpmLimit => 12 case TpmLimit => 13
    case ConcurrencyLimit => 14 case RequestLimit5h => 15 case RequestLimit1d => 16
    case RequestLimit7d => 17 case CostQuota => 18 case CostUsed => 19 case CostLimit5h => 20
    case CostUsed5h => 21 case CostWindowStart5h => 22 case CostLimit1d => 23 case CostUsed1d => 24
    case CostWindowStart1d => 25 case CostLimit7d => 26 case CostUsed7d => 27
    case CostWindowStart7d => 28 case AllowedIpsJSON => 29 case DeniedIpsJSON => 30
    case ExpiresAt => 31 case LastUsedAt => 32
  }

  lemma FieldIsListed(f: Field)
    ensures Position(f) < WIDTH && ColumnAt(Position(f)) == f
    ensures f in Columns()
    ensures ValidColumn(Known(f))
  {
    assert Columns()[Position(f)] == f;
  }

  /** No field is listed twice: the position of a field is the only place it has. */
  lemma ListedOnce(i: nat)
    requires i < WIDTH
    ensures Position(ColumnAt(i)) == i
  {
  }

  /** The accepted column names are exactly the names of the fields. */
  lemma ValidColumnIsKnown(c: Column)
    ensures ValidColumn(c) <==> c.Known?
  {
    if c.Known? { FieldIsListed(c.field); }
  }
}
