/** The fields as the schema declares them, and that the code generated from it follows them. */
module Declaration {
  import opened Schema
  import opened Create
  import opened Update

  /** One entry of a Fields method, by the options it is declared with. */
  datatype Declared =
    | Mandatory(kind: Kind)
    | OptionalNillable(kind: Kind)
    | OptionalJSON
    | NotEmptyString
    | DefaultString(text: string)
    | CreateTime
    | UpdateTime
  {
    function ValueKind(): Kind {
      match this
      case Mandatory(k) => k
      case OptionalNillable(k) => k
      case OptionalJSON => JsonKind
      case NotEmptyString | DefaultString(_) => StringKind
      case CreateTime | UpdateTime => TimeKind
    }

    predicate IsOptional() { OptionalNillable? || OptionalJSON? }
  }

  /** TimeMixin, SoftDeleteMixin, and the entity's own fields. */
  function DeclarationOf(f: Field): Declared
    requires f != ID
  {
    match f
    case CreatedAt => CreateTime
    case UpdatedAt => UpdateTime
    case DeletedAt => OptionalNillable(TimeKind)
    case UserID => Mandatory(IntKind)
    case WorkspaceID => OptionalNillable(IntKind)
    case Name => NotEmptyString
    case Prefix => NotEmptyString
    case Hash => Mandatory(StringKind)
    case Status => DefaultString("active")
    case ScopesJSON => OptionalJSON
    case AllowedModelsJSON => OptionalJSON
    case RpmLimit => OptionalNillable(IntKind)
    case TpmLimit => OptionalNillable(IntKind)
    case ConcurrencyLimit => OptionalNillable(IntKind)
    case RequestLimit5h => OptionalNillable(IntKind)
    case RequestLimit1d => OptionalNillable(IntKind)
    case RequestLimit7d => OptionalNillable(IntKind)
    case CostQuota => OptionalNillable(StringKind)
    case CostUsed => DefaultString("0.00000000")
    case CostLimit5h => OptionalNillable(StringKind)
    case CostUsed5h => DefaultString("0.00000000")
    case CostWindowStart5h => OptionalNillable(TimeKind)
    case CostLimit1d => OptionalNillable(StringKind)
    case CostUsed1d => DefaultString("0.00000000")
    case CostWindowStart1d => OptionalNillable(TimeKind)
    case CostLimit7d => OptionalNillable(StringKind)
    case CostUsed7d => DefaultString("0.00000000")
    case CostWindowStart7d => OptionalNillable(TimeKind)
    case AllowedIpsJSON => OptionalJSON
    case DeniedIpsJSON => OptionalJSON
    case ExpiresAt => OptionalNillable(TimeKind)
    case LastUsedAt => OptionalNillable(TimeKind)
  }

  /** The fields in the order of declaration: the mixins', and the entity's own in five parts. */
  const MIXED := [CreatedAt, UpdatedAt, DeletedAt]
  const KEYS := [UserID, WorkspaceID, Name, Prefix, Hash, Status, ScopesJSON, AllowedModelsJSON]
  const LIMITS := [RpmLimit, TpmLimit, ConcurrencyLimit, RequestLimit5h, RequestLimit1d, RequestLimit7d]
  const COSTS := [CostQuota, CostUsed, CostLimit5h, CostUsed5h, CostWindowStart5h]
  const LONGER := [CostLimit1d, CostUsed1d, CostWindowStart1d, CostLimit7d, CostUsed7d, CostWindowStart7d]
  const ACCESS := [AllowedIpsJSON, DeniedIpsJSON, ExpiresAt, LastUsedAt]

  /** The part stands in the column list from place p on. */
  ghost predicate StandsAt(part: seq<Field>, p: nat) {
    forall k :: 0 <= k < |part| ==> Position(part[k]) == p + k
  }

  lemma MixedStand()
    ensures StandsAt([ID] + MIXED, 0)
  {
  }

  lemma KeysStand()
    ensures StandsAt(KEYS, 4)
  {
  }

  lemma LimitsStand()
    ensures StandsAt(LIMITS, 12)
  {
  }

  lemma CostsStand()
    ensures StandsAt(COSTS, 18)
  {
  }

  lemma LongerStand()
    ensures StandsAt(LONGER, 23)
  {
  }

  lemma AccessStand()
    ensures StandsAt(ACCESS, 29)
  {
  }

  lemma StandConcat(a: seq<Field>, b: seq<Field>, p: nat, n: nat)
    requires StandsAt(a, p) && |a| == n && StandsAt(b, p + n)
    ensures StandsAt(a + b, p)
  {
  }

  lemma WholeList(fs: seq<Field>)
    requires StandsAt(fs, 0) && |fs| == WIDTH
    ensures Columns() == fs
  {
    forall k | 0 <= k < WIDTH ensures Columns()[k] == fs[k] { FieldIsListed(fs[k]); }
  }

  /** The columns are the ID and then the declared fields, in the order of declaration. */
  lemma ColumnsFollowSchema()
    ensures Columns() == [ID] + MIXED + KEYS + LIMITS + COSTS + LONGER + ACCESS
  {
    MixedStand();
    KeysStand();
    StandConcat([ID] + MIXED, KEYS, 0, 4);
    LimitsStand();
    StandConcat([ID] + MIXED + KEYS, LIMITS, 0, 12);
    CostsStand();
    StandConcat([ID] + MIXED + KEYS + LIMITS, COSTS, 0, 18);
    LongerStand();
    StandConcat([ID] + MIXED + KEYS + LIMITS + COSTS, LONGER, 0, 23);
    AccessStand();
    StandConcat([ID] + MIXED + KEYS + LIMITS + COSTS + LONGER, ACCESS, 0, 29);
    WholeList([ID] + MIXED + KEYS + LIMITS + COSTS + LONGER + ACCESS);
  }

  /** Struct members, cells and spec entries have the declared type, and the members are pointers
      exactly where that is declared. */
  lemma TypesFollowSchema(f: Field)
    requires f != ID
    ensures KindOf(f) == DeclarationOf(f).ValueKind()
    ensures Nillable(f) <==> DeclarationOf(f).OptionalNillable?
    ensures KindOf(ID) == IntKind && !Nillable(ID)
  {
  }

  /** Defaults on create are the declared ones. */
  lemma DefaultsFollowSchema(f: Field, t: Times)
    requires f != ID
    ensures DefaultOf(f, t) ==
            match DeclarationOf(f)
            case DefaultString(s) => Some(StringValue(s))
            case CreateTime => Some(TimeValue(t.created))
            case UpdateTime => Some(TimeValue(t.updated))
            case _ => None
    ensures DefaultOf(ID, t) == None
  {
  }

  /** The check asks for every field that is not optional, and validates what is declared not empty. */
  lemma CheckFollowsSchema(m: Values, f: Field)
    requires f != ID
    ensures Required(f) <==> !DeclarationOf(f).IsOptional()
    ensures CheckOne(m, f) == (if f !in m then Some(Missing(f))
                               else if DeclarationOf(f).NotEmptyString? && (!m[f].StringValue? || m[f].s == "")
                               then Some(Invalid(f)) else None)
  {
  }

  /** An update offers every field but the one declared immutable, and clears the optional ones. */
  lemma UpdatesFollowSchema(f: Field)
    requires f != ID
    ensures Offers(f, SetStep) <==> !DeclarationOf(f).CreateTime?
    ensures Offers(f, ClearStep) <==> DeclarationOf(f).IsOptional()
    ensures Offers(f, AddStep) <==> DeclarationOf(f).ValueKind() == IntKind
    ensures Offers(f, AppendStep) <==> DeclarationOf(f).ValueKind() == JsonKind
  {
    TypesFollowSchema(f);
    DeclaredShapes(f);
  }

  lemma DeclaredShapes(f: Field)
    requires f != ID
    ensures DeclarationOf(f).CreateTime? <==> f == CreatedAt
    ensures DeclarationOf(f).UpdateTime? <==> f == UpdatedAt
    ensures DeclarationOf(f).ValueKind() == JsonKind <==> DeclarationOf(f).OptionalJSON?
  {
  }

  /** An update sets, of the fields that are not set, exactly those with a declared update default. */
  lemma UpdateDefaultsFollowSchema(f: Field, c: Changes, now: int)
    requires f != ID
    ensures var after := WithUpdateTime(c, now).toSet;
            if f !in c.toSet && DeclarationOf(f).UpdateTime? then f in after && after[f] == TimeValue(now)
            else Lookup(after, f) == Lookup(c.toSet, f)
  {
    DeclaredShapes(f);
  }
}
