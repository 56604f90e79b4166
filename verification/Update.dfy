/** The two update builders: the spec each builds from a mutation, and the columns UpdateOne reads
    back. */
module Update {
  import opened Schema
  import opened RowCodec
  import opened Create
  import opened QueryModel

  /** What a mutation asks of an update: values to set, amounts to add, lists to append, and fields
      to clear. */
  datatype Changes = Changes(
    toSet: Values,
    toAdd: map<Field, int>,
    toAppend: map<Field, seq<string>>,
    toClear: set<Field>)

  datatype Action =
    | SetField(field: Field, kind: Kind, value: Value)
    | AddField(field: Field, kind: Kind, amount: int)
    | AppendJSON(field: Field, items: seq<string>)
    | ClearField(field: Field, kind: Kind)

  // ---------- the spec ----------

  datatype Step = SetStep | AddStep | AppendStep | ClearStep

  /** The steps of APIKeyUpdate.sqlSave for one field. */
  function BatchSteps(f: Field): seq<Step> {
    match f
    case ID | CreatedAt => []
    case UpdatedAt | Name | Prefix | Hash | Status | CostUsed | CostUsed5h | CostUsed1d | CostUsed7d => [SetStep]
    case UserID => [SetStep, AddStep]
    case WorkspaceID | RpmLimit | TpmLimit | ConcurrencyLimit | RequestLimit5h | RequestLimit1d | RequestLimit7d =>
      [SetStep, AddStep, ClearStep]
    case ScopesJSON | AllowedModelsJSON | AllowedIpsJSON | DeniedIpsJSON => [SetStep, AppendStep, ClearStep]
    case DeletedAt | CostQuota | CostLimit5h | CostWindowStart5h | CostLimit1d | CostWindowStart1d
       | CostLimit7d | CostWindowStart7d | ExpiresAt | LastUsedAt => [SetStep, ClearStep]
  }

  /** The steps of APIKeyUpdateOne.sqlSave for one field. */
  function SingleSteps(f: Field): seq<Step> {
    match f
    case ID => [] case CreatedAt => []
    case UpdatedAt => [SetStep]
    case DeletedAt => [SetStep, ClearStep]
    case UserID => [SetStep, AddStep]
    case WorkspaceID => [SetStep, AddStep, ClearStep]
    case Name => [SetStep] case Prefix => [SetStep] case Hash => [SetStep] case Status => [SetStep]
    case ScopesJSON => [SetStep, AppendStep, ClearStep]
    case AllowedModelsJSON => [SetStep, AppendStep, ClearStep]
    case RpmLimit => [SetStep, AddStep, ClearStep]
    case TpmLimit => [SetStep, AddStep, ClearStep]
    case ConcurrencyLimit => [SetStep, AddStep, ClearStep]
    case RequestLimit5h => [SetStep, AddStep, ClearStep]
    case RequestLimit1d => [SetStep, AddStep, ClearStep]
    case RequestLimit7d => [SetStep, AddStep, ClearStep]
    case CostQuota => [SetStep, ClearStep] case CostUsed => [SetStep]
    case CostLimit5h => [SetStep, ClearStep] case CostUsed5h => [SetStep] case CostWindowStart5h => [SetStep, ClearStep]
    case CostLimit1d => [SetStep, ClearStep] case CostUsed1d => [SetStep] case CostWindowStart1d => [SetStep, ClearStep]
    case CostLimit7d => [SetStep, ClearStep] case CostUsed7d => [SetStep] case CostWindowStart7d => [SetStep, ClearStep]
    case AllowedIpsJSON => [SetStep, AppendStep, ClearStep]
    case DeniedIpsJSON => [SetStep, AppendStep, ClearStep]
    case ExpiresAt => [SetStep, ClearStep]
    case LastUsedAt => [SetStep, ClearStep]
  }

  /** The schema's view: every mutable field can be set, integers can be added to, JSON lists can be
      appended to, and optional fields can be cleared. */
  predicate Mutable(f: Field) { f != ID && f != CreatedAt }

  predicate Optional(f: Field) { Nillable(f) || KindOf(f) == JsonKind }

  predicate Offers(f: Field, s: Step) {
    && Mutable(f)
    && (s.AddStep? ==> KindOf(f) == IntKind)
    && (s.AppendStep? ==> KindOf(f) == JsonKind)
    && (s.ClearStep? ==> Optional(f))
  }

  lemma StepsCoincide(f: Field)
    ensures SingleSteps(f) == BatchSteps(f)
  {
  }

  lemma StepsFollowSchema(f: Field, s: Step)
    ensures s in BatchSteps(f) <==> Offers(f, s)
  {
    match s {
      case SetStep => SetFollowsSchema(f);
      case AddStep => AddFollowsSchema(f);
      case AppendStep => AppendFollowsSchema(f);
      case ClearStep => ClearFollowsSchema(f);
    }
  }

  lemma SetFollowsSchema(f: Field)
    ensures SetStep in BatchSteps(f) <==> Offers(f, SetStep)
  {
  }

  lemma AddFollowsSchema(f: Field)
    ensures AddStep in BatchSteps(f) <==> Offers(f, AddStep)
  {
  }

  lemma AppendFollowsSchema(f: Field)
    ensures AppendStep in BatchSteps(f) <==> Offers(f, AppendStep)
  {
  }

  lemma ClearFollowsSchema(f: Field)
    ensures ClearStep in BatchSteps(f) <==> Offers(f, ClearStep)
  {
  }

  function Taken(c: Changes, f: Field, s: Step): seq<Action> {
    match s
    case SetStep => if f in c.toSet then [SetField(f, KindOf(f), c.toSet[f])] else []
    case AddStep => if f in c.toAdd then [AddField(f, KindOf(f), c.toAdd[f])] else []
    case AppendStep => if f in c.toAppend && c.toAppend[f] != [] then [AppendJSON(f, c.toAppend[f])] else []
    case ClearStep => if f in c.toClear then [ClearField(f, KindOf(f))] else []
  }

  function TakenAll(c: Changes, f: Field, steps: seq<Step>): seq<Action> {
    if steps == [] then [] else TakenAll(c, f, steps[..|steps| - 1]) + Taken(c, f, steps[|steps| - 1])
  }

  /** The actions that a table of steps adds for a list of columns. */
  function ActionsBy(steps: Field -> seq<Step>, c: Changes, fs: seq<Field>): seq<Action> {
    if fs == [] then []
    else
      var f := fs[|fs| - 1];
      ActionsBy(steps, c, fs[..|fs| - 1]) + TakenAll(c, f, steps(f))
  }

  /** Both forms go through the table's columns in order. */
  function BatchActions(c: Changes): seq<Action> { ActionsBy(BatchSteps, c, Columns()) }

  function SingleActions(c: Changes): seq<Action> { ActionsBy(SingleSteps, c, Columns()) }

  /** The mutation asks for this action and the schema offers it. */
  predicate Demanded(c: Changes, a: Action) {
    match a
    case SetField(f, k, v) => Offers(f, SetStep) && k == KindOf(f) && f in c.toSet && v == c.toSet[f]
    case AddField(f, k, n) => Offers(f, AddStep) && k == KindOf(f) && f in c.toAdd && n == c.toAdd[f]
    case AppendJSON(f, items) => Offers(f, AppendStep) && f in c.toAppend && items == c.toAppend[f] && items != []
    case ClearField(f, k) => Offers(f, ClearStep) && k == KindOf(f) && f in c.toClear
  }

  function StepOf(a: Action): Step {
    match a
    case SetField(_, _, _) => SetStep
    case AddField(_, _, _) => AddStep
    case AppendJSON(_, _) => AppendStep
    case ClearField(_, _) => ClearStep
  }

  lemma {:induction false} StepsTaken(c: Changes, f: Field, steps: seq<Step>, a: Action)
    ensures a in TakenAll(c, f, steps) <==> StepOf(a) in steps && a in Taken(c, f, StepOf(a))
  {
    if steps != [] {
      var k := |steps| - 1;
      StepsTaken(c, f, steps[..k], a);
      assert steps == steps[..k] + [steps[k]];
      assert a in Taken(c, f, steps[k]) ==> StepOf(a) == steps[k];
    }
  }

  lemma TakenIsDemanded(c: Changes, f: Field, a: Action)
    ensures a in TakenAll(c, f, BatchSteps(f)) <==> a.field == f && Demanded(c, a)
  {
    StepsTaken(c, f, BatchSteps(f), a);
    StepsFollowSchema(f, StepOf(a));
    assert a in Taken(c, f, StepOf(a)) ==> a.field == f;
  }

  lemma {:induction false} ActionsOf(steps: Field -> seq<Step>, c: Changes, fs: seq<Field>, a: Action, wanted: bool)
    requires forall f: Field :: a in TakenAll(c, f, steps(f)) <==> a.field == f && wanted
    ensures a in ActionsBy(steps, c, fs) <==> a.field in fs && wanted
  {
    if fs != [] {
      var k := |fs| - 1;
      ActionsOf(steps, c, fs[..k], a, wanted);
      assert fs == fs[..k] + [fs[k]];
    }
  }

  /** The spec of an update holds exactly the actions that the mutation demands. */
  lemma ActionsAreDemanded(c: Changes, a: Action)
    ensures a in BatchActions(c) <==> Demanded(c, a)
  {
    forall f: Field ensures a in TakenAll(c, f, BatchSteps(f)) <==> a.field == f && Demanded(c, a) {
      TakenIsDemanded(c, f, a);
    }
    ActionsOf(BatchSteps, c, Columns(), a, Demanded(c, a));
    FieldIsListed(a.field);
  }

  // ---------- the order of the actions ----------

  function Rank(s: Step): nat {
    match s case SetStep => 0 case AddStep => 1 case AppendStep => 2 case ClearStep => 3
  }

  /** a comes before b: by column, and for one column set, add, append, clear. */
  predicate Before(a: Action, b: Action) {
    Position(a.field) < Position(b.field) || (a.field == b.field && Rank(StepOf(a)) < Rank(StepOf(b)))
  }

  ghost predicate InOrder(actions: seq<Action>) {
    forall j, k :: 0 <= j < k < |actions| ==> Before(actions[j], actions[k])
  }

  ghost predicate Climbing(steps: seq<Step>) {
    forall j, k :: 0 <= j < k < |steps| ==> Rank(steps[j]) < Rank(steps[k])
  }

  lemma StepsClimb(f: Field)
    ensures Climbing(BatchSteps(f))
  {
  }

  lemma TakenIsOne(c: Changes, f: Field, s: Step)
    ensures |Taken(c, f, s)| <= 1
    ensures forall j :: 0 <= j < |Taken(c, f, s)| ==> Taken(c, f, s)[j].field == f && StepOf(Taken(c, f, s)[j]) == s
  {
  }

  lemma InOrderConcat(a: seq<Action>, b: seq<Action>)
    requires InOrder(a) && InOrder(b)
    requires forall j, k :: 0 <= j < |a| && 0 <= k < |b| ==> Before(a[j], b[k])
    ensures InOrder(a + b)
  {
  }

  /** The actions are for field f, and their steps are among these. */
  ghost predicate From(f: Field, steps: seq<Step>, actions: seq<Action>) {
    forall j :: 0 <= j < |actions| ==> actions[j].field == f && StepOf(actions[j]) in steps
  }

  lemma {:induction false} TakenInOrder(c: Changes, f: Field, steps: seq<Step>)
    requires Climbing(steps)
    ensures InOrder(TakenAll(c, f, steps)) && From(f, steps, TakenAll(c, f, steps))
  {
    if steps != [] {
      var n := |steps| - 1;
      assert steps == steps[..n] + [steps[n]];
      TakenInOrder(c, f, steps[..n]);
      TakenIsOne(c, f, steps[n]);
      ClimbingLast(steps);
      InOrderConcat(TakenAll(c, f, steps[..n]), Taken(c, f, steps[n]));
    }
  }

  lemma ClimbingLast(steps: seq<Step>)
    requires steps != [] && Climbing(steps)
    ensures forall s :: s in steps[..|steps| - 1] ==> Rank(s) < Rank(steps[|steps| - 1])
  {
  }

  ghost predicate Below(actions: seq<Action>, n: nat) {
    forall j :: 0 <= j < |actions| ==> Position(actions[j].field) < n
  }

  lemma NextColumn(c: Changes, before: seq<Action>, n: nat)
    requires n < WIDTH && InOrder(before) && Below(before, n)
    ensures var more := TakenAll(c, ColumnAt(n), BatchSteps(ColumnAt(n)));
            InOrder(before + more) && Below(before + more, n + 1)
  {
    var f := ColumnAt(n);
    ListedOnce(n);
    StepsClimb(f);
    TakenInOrder(c, f, BatchSteps(f));
    InOrderConcat(before, TakenAll(c, f, BatchSteps(f)));
  }

  lemma {:induction false} ActionsInOrderUpTo(c: Changes, n: nat)
    requires n <= WIDTH
    ensures InOrder(ActionsBy(BatchSteps, c, Columns()[..n])) && Below(ActionsBy(BatchSteps, c, Columns()[..n]), n)
  {
    if n > 0 {
      ActionsInOrderUpTo(c, n - 1);
      assert Columns()[..n][..n - 1] == Columns()[..n - 1];
      NextColumn(c, ActionsBy(BatchSteps, c, Columns()[..n - 1]), n - 1);
    }
  }

  /** The actions come in the order of the columns, and for each column in the order set, add, append,
      clear. */
  lemma ActionsAreInOrder(c: Changes)
    ensures InOrder(BatchActions(c)) && InOrder(SingleActions(c))
  {
    ActionsInOrderUpTo(c, WIDTH);
    assert Columns()[..WIDTH] == Columns();
    FormsBuildSameActions(c);
  }

  lemma {:induction false} SameStepsSameActions(x: Field -> seq<Step>, y: Field -> seq<Step>, c: Changes,
                                                fs: seq<Field>)
    requires forall f: Field :: x(f) == y(f)
    ensures ActionsBy(x, c, fs) == ActionsBy(y, c, fs)
  {
    if fs != [] { SameStepsSameActions(x, y, c, fs[..|fs| - 1]); }
  }

  /** The two forms build the same set, add, append and clear actions in the same order. */
  lemma FormsBuildSameActions(c: Changes)
    ensures SingleActions(c) == BatchActions(c)
  {
    forall f: Field ensures SingleSteps(f) == BatchSteps(f) { StepsCoincide(f); }
    SameStepsSameActions(SingleSteps, BatchSteps, c, Columns());
  }

  // ---------- the update builders ----------

  datatype UpdateError =
    | UpdateInvalid(fault: CheckError)
    | MissingID
    | UnknownField(column: Column)
    | UpdateNotFound
    | UpdateConflict(code: int)
    | UpdateFailed(code: int)
    | ReadBackFailed(reason: AssignError)

  /** How the graph library can fail. */
  datatype GraphError = GraphNotFound | GraphConstraint(code: int) | GraphOther(code: int)

  function Translated(e: GraphError): UpdateError {
    match e
    case GraphNotFound => UpdateNotFound
    case GraphConstraint(code) => UpdateConflict(code)
    case GraphOther(code) => UpdateFailed(code)
  }

  /** Both forms set the update time unless it is set already. */
  function WithUpdateTime(c: Changes, now: int): Changes {
    if UpdatedAt in c.toSet then c else c.(toSet := c.toSet[UpdatedAt := TimeValue(now)])
  }

  function CheckUpdate(c: Changes): Option<CheckError> {
    if Name in c.toSet && !NotEmpty(c.toSet[Name]) then Some(Invalid(Name))
    else if Prefix in c.toSet && !NotEmpty(c.toSet[Prefix]) then Some(Invalid(Prefix))
    else None
  }

  /** The spec of UpdateOne: its ID, the columns to read back, and the actions. */
  datatype UpdateSpec = UpdateSpec(id: Option<int>, columns: seq<Column>, filters: seq<Filter>, actions: seq<Action>)

  /** The validators: an update passes if and only if the name and the prefix that it sets, if it sets
      them, are strings other than the empty one; the name is looked at first. */
  lemma CheckUpdateNames(c: Changes)
    ensures CheckUpdate(c) ==
            if Name in c.toSet && (!c.toSet[Name].StringValue? || c.toSet[Name].s == "") then Some(Invalid(Name))
            else if Prefix in c.toSet && (!c.toSet[Prefix].StringValue? || c.toSet[Prefix].s == "")
            then Some(Invalid(Prefix))
            else None
    ensures CheckUpdate(c) == None <==>
              && (Name in c.toSet ==> c.toSet[Name].StringValue? && c.toSet[Name].s != "")
              && (Prefix in c.toSet ==> c.toSet[Prefix].StringValue? && c.toSet[Prefix].s != "")
  {
  }

  /** The graph library's not-found is the entity's, its constraint violations stay told apart, and
      other errors are passed on. */
  lemma TranslatedMeans(e: GraphError)
    ensures Translated(e) == UpdateNotFound <==> e == GraphNotFound
    ensures forall code :: Translated(e) == UpdateConflict(code) <==> e == GraphConstraint(code)
    ensures forall code :: Translated(e) == UpdateFailed(code) <==> e == GraphOther(code)
  {
  }

  function BatchSpec(c: Changes, filters: seq<Filter>): Result<UpdateSpec, UpdateError> {
    if CheckUpdate(c).Some? then Err(UpdateInvalid(CheckUpdate(c).value))
    else Ok(UpdateSpec(None, AllColumns(), filters, BatchActions(c)))
  }

  class APIKeyUpdate {
    var changes: Changes
    var done: bool
    const filters: seq<Filter>

    constructor (changes: Changes, filters: seq<Filter>)
      ensures this.changes == changes && this.filters == filters && !done
    {
      this.changes, this.filters, done := changes, filters, false;
    }

    method Defaults(now: int)
      modifies `changes
      ensures changes == WithUpdateTime(old(changes), now)
    {
      if UpdatedAt !in changes.toSet {
        changes := changes.(toSet := changes.toSet[UpdatedAt := TimeValue(now)]);
      }
    }

    method MakeSpec() returns (r: Result<UpdateSpec, UpdateError>)
      ensures r == BatchSpec(changes, filters)
    {
      var fault := CheckUpdate(changes);
      if fault.Some? {
        return Err(UpdateInvalid(fault.value));
      }
      var actions := RunSteps(BatchSteps, changes, Columns());
      r := Ok(UpdateSpec(None, AllColumns(), filters, actions));
    }

    /** The number of rows the graph library says it changed. The mutation becomes done only then; its
        errors come back translated. */
    method SqlSave(graph: UpdateSpec -> Result<nat, GraphError>) returns (r: Result<nat, UpdateError>)
      modifies `done
      ensures r.Ok? <==> BatchSpec(changes, filters).Ok? && graph(BatchSpec(changes, filters).value).Ok?
      ensures r.Ok? ==> r.value == graph(BatchSpec(changes, filters).value).value
      ensures BatchSpec(changes, filters).Err? ==> r == Err(BatchSpec(changes, filters).error)
      ensures BatchSpec(changes, filters).Ok? && r.Err? ==>
                r == Err(Translated(graph(BatchSpec(changes, filters).value).error))
      ensures done == (old(done) || r.Ok?)
    {
      var spec := MakeSpec();
      if spec.Err? {
        return Err(spec.error);
      }
      match graph(spec.value)
      case Err(e) => return Err(Translated(e));
      case Ok(affected) =>
        done := true;
        return Ok(affected);
    }
  }

  method AddActions(c: Changes, f: Field, steps: seq<Step>) returns (actions: seq<Action>)
    ensures actions == TakenAll(c, f, steps)
  {
    actions := [];
    for j := 0 to |steps|
      invariant actions == TakenAll(c, f, steps[..j])
    {
      match steps[j] {
        case SetStep =>
          if f in c.toSet { actions := actions + [SetField(f, KindOf(f), c.toSet[f])]; }
        case AddStep =>
          if f in c.toAdd { actions := actions + [AddField(f, KindOf(f), c.toAdd[f])]; }
        case AppendStep =>
          if f in c.toAppend && c.toAppend[f] != [] { actions := actions + [AppendJSON(f, c.toAppend[f])]; }
        case ClearStep =>
          if f in c.toClear { actions := actions + [ClearField(f, KindOf(f))]; }
      }
      assert steps[..j + 1][..j] == steps[..j];
    }
    assert steps[..|steps|] == steps;
  }

  method RunSteps(steps: Field -> seq<Step>, c: Changes, columns: seq<Field>) returns (actions: seq<Action>)
    ensures actions == ActionsBy(steps, c, columns)
  {
    actions := [];
    for k := 0 to |columns|
      invariant actions == ActionsBy(steps, c, columns[..k])
    {
      var added := AddActions(c, columns[k], steps(columns[k]));
      actions := actions + added;
      assert columns[..k + 1][..k] == columns[..k];
    }
    assert columns[..|columns|] == columns;
  }

  class APIKeyUpdateOne {
    var id: Option<int>
    var fields: seq<Column>
    var changes: Changes
    var done: bool
    const filters: seq<Filter>

    constructor (id: Option<int>, changes: Changes, filters: seq<Filter>)
      ensures this.id == id && fields == [] && this.changes == changes && this.filters == filters && !done
    {
      this.id, fields, this.changes, this.filters, done := id, [], changes, filters, false;
    }

    method Defaults(now: int)
      modifies `changes
      ensures changes == WithUpdateTime(old(changes), now)
    {
      if UpdatedAt !in changes.toSet {
        changes := changes.(toSet := changes.toSet[UpdatedAt := TimeValue(now)]);
      }
    }

    /** Select replaces the selection. */
    method Select(field: Column, more: seq<Column>)
      modifies `fields
      ensures fields == [field] + more
    {
      fields := [field] + more;
    }

    /** One loop validates the selected fields and builds the columns. It accepts and rejects what
        the query's two passes do, reports the same first invalid field, and builds the same
        columns. */
    method SelectColumns() returns (r: Result<seq<Column>, UpdateError>)
      ensures FirstInvalid(fields, 0) == None ==> r == Ok(SpecColumns(fields))
      ensures FirstInvalid(fields, 0).Some? ==> r == Err(UnknownField(FirstInvalid(fields, 0).value))
    {
      if |fields| == 0 {
        return Ok(AllColumns());
      }
      var columns := [Known(ID)];
      for k := 0 to |fields|
        invariant columns == [Known(ID)] + DropID(fields[..k])
        invariant FirstInvalid(fields, k) == FirstInvalid(fields, 0)
      {
        var f := fields[k];
        if !ValidColumn(f) {
          return Err(UnknownField(f));
        }
        assert fields[..k + 1][..k] == fields[..k];
        if f != Known(ID) {
          columns := columns + [f];
        }
      }
      assert fields[..|fields|] == fields;
      return Ok(columns);
    }

    method MakeSpec() returns (r: Result<UpdateSpec, UpdateError>)
      ensures r == SingleSpec(id, fields, changes, filters)
    {
      var fault := CheckUpdate(changes);
      if fault.Some? {
        return Err(UpdateInvalid(fault.value));
      }
      if id.None? {
        return Err(MissingID);
      }
      var columns := SelectColumns();
      if columns.Err? {
        return Err(columns.error);
      }
      var actions := RunSteps(SingleSteps, changes, Columns());
      r := Ok(UpdateSpec(id, columns.value, filters, actions));
    }

    /** A fresh node read from the row that the graph library changed, through the columns of the spec.
        The mutation becomes done only then; errors come back translated. */
    method SqlSave(codec: Codec, graph: UpdateSpec -> Result<Row, GraphError>)
      returns (node: APIKey?, err: Option<UpdateError>)
      modifies `done
      ensures err.None? <==> node != null
      ensures done == (old(done) || err.None?)
      ensures node != null ==> fresh(node)
      ensures var spec := SingleSpec(id, fields, changes, filters);
              && (spec.Err? ==> err == Some(spec.error))
              && (spec.Ok? ==>
                    match graph(spec.value)
                    case Err(e) => err == Some(Translated(e))
                    case Ok(row) =>
                      var read := Read(codec, spec.value.columns, row);
                      if read.1.Some? then err == Some(ReadBackFailed(read.1.value))
                      else node != null && node.View() == read.0)
    {
      var spec := MakeSpec();
      if spec.Err? {
        return null, Some(spec.error);
      }
      match graph(spec.value)
      case Err(e) => return null, Some(Translated(e));
      case Ok(row) =>
        var built := new APIKey();
        var failed := built.AssignValues(codec, spec.value.columns, FilledCells(spec.value.columns, row));
        if failed.Some? {
          return null, Some(ReadBackFailed(failed.value));
        }
        done := true;
        return built, None;
    }
  }

  function SingleSpec(id: Option<int>, fields: seq<Column>, c: Changes,
                      filters: seq<Filter>): Result<UpdateSpec, UpdateError> {
    if CheckUpdate(c).Some? then Err(UpdateInvalid(CheckUpdate(c).value))
    else if id.None? then Err(MissingID)
    else if FirstInvalid(fields, 0).Some? then Err(UnknownField(FirstInvalid(fields, 0).value))
    else Ok(UpdateSpec(id, SpecColumns(fields), filters, SingleActions(c)))
  }

  /** The spec of UpdateOne names the row of the mutation's ID, carries the builder's filters, reads the
      ID and the selected fields back, and holds exactly the actions that the mutation demands. */
  lemma SingleSpecMeans(id: Option<int>, fields: seq<Column>, c: Changes, filters: seq<Filter>, a: Action)
    requires SingleSpec(id, fields, c, filters).Ok?
    ensures var spec := SingleSpec(id, fields, c, filters).value;
            && id.Some? && spec.id == id && spec.filters == filters && spec.columns == SpecColumns(fields)
            && (a in spec.actions <==> Demanded(c, a))
  {
    FormsBuildSameActions(c);
    ActionsAreDemanded(c, a);
  }

  /** Its errors, in order: a validator's, the missing ID, the first unknown field. */
  lemma SingleSpecFails(id: Option<int>, fields: seq<Column>, c: Changes, filters: seq<Filter>)
    ensures CheckUpdate(c).Some? ==>
              SingleSpec(id, fields, c, filters) == Err(UpdateInvalid(CheckUpdate(c).value))
    ensures CheckUpdate(c).None? && id.None? ==> SingleSpec(id, fields, c, filters) == Err(MissingID)
    ensures CheckUpdate(c).None? && id.Some? && FirstInvalid(fields, 0).Some? ==>
              SingleSpec(id, fields, c, filters) == Err(UnknownField(FirstInvalid(fields, 0).value))
    ensures CheckUpdate(c).None? && id.Some? && FirstInvalid(fields, 0).None? ==>
              SingleSpec(id, fields, c, filters).Ok?
  {
  }

  /** The spec of the batch form names no single row, carries the builder's filters, and holds exactly
      the actions that the mutation demands. */
  lemma BatchSpecMeans(c: Changes, filters: seq<Filter>, a: Action)
    ensures BatchSpec(c, filters).Ok? <==> CheckUpdate(c) == None
    ensures BatchSpec(c, filters).Err? ==> BatchSpec(c, filters).error == UpdateInvalid(CheckUpdate(c).value)
    ensures BatchSpec(c, filters).Ok? ==>
              var spec := BatchSpec(c, filters).value;
              && spec.id == None && spec.filters == filters && spec.columns == AllColumns()
              && (a in spec.actions <==> Demanded(c, a))
  {
    ActionsAreDemanded(c, a);
  }

  /** UpdateOne and the query accept the same selections, report the same first invalid field, and
      read the same columns; so the node that UpdateOne reads back from an updated row is the one a
      query with that selection reads. */
  lemma ReadBackMatchesQuery(id: int, fields: seq<Column>, c: Changes, filters: seq<Filter>, q: Query)
    requires CheckUpdate(c) == None && q.fields == fields
    ensures var spec := SingleSpec(Some(id), fields, c, filters);
            && (spec.Ok? <==> FirstInvalid(q.fields, 0) == None)
            && (spec.Err? <==> Prepared(q).1.Some? && Prepared(q).1.value.InvalidField?)
            && (spec.Err? ==> Prepared(q).1 == Some(InvalidField(spec.error.column)))
            && (spec.Ok? ==> spec.value.columns == CompileSpec(Prepared(q).0).columns)
  {
  }
}
