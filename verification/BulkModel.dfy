/** The bulk-create chain as a machine over explicit state: hooks nested around closures, one closure
    per builder, the batch insert at the innermost point, completion while unwinding. */
module BulkModel {
  import opened Schema
  import opened RowCodec
  import opened Create

  // ---------- hooks ----------

  /** What a hook hands to the mutator it wraps: the mutation it received, another APIKey mutation
      (an index into the pool of mutation objects), or a mutation of another type. */
  datatype Target = Received | Substitute(mutation: nat) | OtherType

  /** How a hook answers: with the last answer it got, with a value of its own, or with an error. */
  datatype Reply = PassThrough | ReplyValue(tag: int) | Veto(code: int)

  /** A hook as a program: edit the received mutation in any way, branch on what it holds, call the
      wrapped mutator any number of times and branch on each answer, and finally reply. */
  datatype Hook =
    | Return(reply: Reply)
    | Edit(change: Values -> Values, rest: Hook)
    | If(test: Values -> bool, yes: Hook, no: Hook)
    | Next(target: Target, onOk: Hook, onErr: Hook)

  // ---------- state ----------

  datatype SaveError =
    | CheckFailed(fault: CheckError)
    | WrongMutationType
    | InsertFailed(code: int)
    | ConstraintViolated(code: int)
    | HookError(code: int)
    | BuilderError(code: int)

  datatype ReturnValue = NilValue | NodeValue(draft: nat) | HookValue(tag: int)

  datatype Outcome = Done(value: ReturnValue) | Failed(error: SaveError)

  /** A mutation object. Its id is a pointer to the ID member of a node, here the node's draft. */
  datatype Mut = Mut(values: Values, id: Option<nat>, done: bool)

  /** The node and the insert spec that one createSpec call allocates. */
  datatype Draft = Draft(node: Node, entries: seq<FieldSpec>, specID: Option<int>)

  datatype Event =
    | Enter(i: nat, h: nat)
    | Leave(i: nat, h: nat)
    | Checked(i: nat)
    | Built(i: nat, entries: seq<FieldSpec>)
    | Insert(batch: seq<seq<FieldSpec>>)
    | Completed(i: nat)

  /** muts: the mutation objects; current: the mutation of each builder; drafts: everything
      createSpec has allocated; slots: the shared nodes and specs arrays, position by position. */
  datatype State = State(
    muts: seq<Mut>,
    current: seq<nat>,
    drafts: seq<Draft>,
    slots: seq<Option<nat>>,
    log: seq<Event>)

  datatype BatchReply = Rejected(code: int, constraint: bool) | Stored(ids: nat -> int)

  type Batch = seq<seq<FieldSpec>>

  /** The hooks of each builder, and the store: its answer to the k-th batch it is given. */
  datatype Bulk = Bulk(hooks: seq<seq<Hook>>, driver: (nat, Batch) -> BatchReply)

  /** The mutation argument of a Mutate call. */
  datatype Arg = Own(mutation: nat) | Alien

  /** The batches that the log says were inserted, in order. */
  function Batches(log: seq<Event>): seq<Batch> {
    if log == [] then []
    else
      var e := log[|log| - 1];
      Batches(log[..|log| - 1]) + if e.Insert? then [e.batch] else []
  }

  function Inserts(log: seq<Event>): nat { |Batches(log)| }

  lemma BatchesSnoc(log: seq<Event>, e: Event)
    ensures Batches(log + [e]) == Batches(log) + if e.Insert? then [e.batch] else []
  {
    assert (log + [e])[..|log|] == log;
  }

  ghost predicate Wf(c: Bulk, s: State) {
    && |s.current| == |s.slots| == |c.hooks|
    && (forall k :: 0 <= k < |s.current| ==> s.current[k] < |s.muts|)
    && (forall k :: 0 <= k < |s.slots| && s.slots[k].Some? ==> s.slots[k].value < |s.drafts|)
    && (forall j, k :: 0 <= j < k < |s.slots| && s.slots[j].Some? && s.slots[k].Some? ==>
          s.slots[j].value != s.slots[k].value)
  }

  /** Slots before i are filled. */
  ghost predicate FilledTo(s: State, i: nat) {
    i <= |s.slots| && forall j :: 0 <= j < i ==> s.slots[j].Some?
  }

  /** The argument is one of n mutation objects, or of another type. */
  predicate Refers(a: Arg, n: nat) {
    a.Own? ==> a.mutation < n
  }

  ghost predicate InPool(a: Arg, s: State) { Refers(a, |s.muts|) }

  /** What a call into the chain at builder i leaves alone. */
  ghost predicate Within(i: nat, s: State, t: State) {
    && |t.muts| == |s.muts| && |t.current| == |s.current| && |t.slots| == |s.slots|
    && i <= |s.slots| && i <= |s.current|
    && |s.drafts| <= |t.drafts|
    && s.slots[..i] == t.slots[..i]
    && s.current[..i] == t.current[..i]
  }

  lemma WithinInside(i: nat, s: State, t: State, u: State)
    requires Within(i, s, t) && Within(i + 1, t, u)
    ensures Within(i, s, u)
  {
    assert t.slots[..i] == t.slots[..i + 1][..i] && u.slots[..i] == u.slots[..i + 1][..i];
    assert t.current[..i] == t.current[..i + 1][..i] && u.current[..i] == u.current[..i + 1][..i];
  }

  // ---------- single steps ----------

  function Log(s: State, e: Event): State {
    s.(log := s.log + [e])
  }

  function EditMut(s: State, a: Arg, change: Values -> Values): State
    requires InPool(a, s)
  {
    if a.Alien? then s
    else
      var m := s.muts[a.mutation];
      s.(muts := s.muts[a.mutation := m.(values := change(m.values))])
  }

  /** What a hook can read of the mutation it received; nothing if it is of another type. */
  function Shown(s: State, a: Arg): Values
    requires InPool(a, s)
  {
    if a.Alien? then map[] else s.muts[a.mutation].values
  }

  /** The closure of builder i once its check has passed: adopt the mutation, fill slot i. */
  function FillSlot(c: Bulk, i: nat, m: nat, s: State): (t: State)
    requires Wf(c, s) && i < |c.hooks| && m < |s.muts| && FilledTo(s, i)
    ensures Wf(c, t) && Within(i, s, t) && FilledTo(t, i + 1)
  {
    var v := s.muts[m].values;
    s.(current := s.current[i := m],
       drafts := s.drafts + [Draft(NodeOf(v), Entries(v), None)],
       slots := s.slots[i := Some(|s.drafts|)],
       log := s.log + [Checked(i), Built(i, Entries(v))])
  }

  function BatchOf(s: State): (b: Batch)
    requires FilledTo(s, |s.slots|) && forall k :: 0 <= k < |s.slots| ==> s.slots[k].value < |s.drafts|
    ensures |b| == |s.slots|
    ensures forall k :: 0 <= k < |b| ==> b[k] == s.drafts[s.slots[k].value].entries
  {
    seq(|s.slots|, k requires 0 <= k < |s.slots| => s.drafts[s.slots[k].value].entries)
  }

  /** The store writes an ID into the specs of the first k slots. */
  function WriteIDs(drafts: seq<Draft>, slots: seq<Option<nat>>, ids: nat -> int, k: nat): (r: seq<Draft>)
    requires k <= |slots| && forall j :: 0 <= j < k ==> slots[j].Some? && slots[j].value < |drafts|
    ensures |r| == |drafts|
  {
    if k == 0 then drafts
    else
      var before := WriteIDs(drafts, slots, ids, k - 1);
      var d := slots[k - 1].value;
      before[d := before[d].(specID := Some(ids(k - 1)))]
  }

  /** The store writes an ID into the spec of slot k, which leads from t to u. */
  ghost predicate IDStep(t: State, u: State, k: nat, id: int) {
    && k < |t.slots| && t.slots[k].Some? && t.slots[k].value < |t.drafts|
    && var d := t.slots[k].value;
       u == t.(drafts := t.drafts[d := t.drafts[d].(specID := Some(id))])
  }

  /** The states that the store goes through when it writes its IDs. */
  ghost function IDStates(s: State, ids: nat -> int): (states: seq<State>)
    requires forall j :: 0 <= j < |s.slots| ==> s.slots[j].Some? && s.slots[j].value < |s.drafts|
    ensures |states| == |s.slots| + 1
    ensures forall k :: 0 <= k <= |s.slots| ==>
              states[k] == s.(drafts := WriteIDs(s.drafts, s.slots, ids, k))
  {
    seq(|s.slots| + 1, k requires 0 <= k <= |s.slots| => s.(drafts := WriteIDs(s.drafts, s.slots, ids, k)))
  }

  lemma IDStatesStep(s: State, ids: nat -> int, k: nat)
    requires k < |s.slots| && forall j :: 0 <= j < |s.slots| ==> s.slots[j].Some? && s.slots[j].value < |s.drafts|
    ensures IDStep(s.(drafts := WriteIDs(s.drafts, s.slots, ids, k)),
                   s.(drafts := WriteIDs(s.drafts, s.slots, ids, k + 1)), k, ids(k))
  {
  }

  function RunInsert(c: Bulk, s: State): (r: (Outcome, State))
    requires Wf(c, s) && FilledTo(s, |c.hooks|)
    ensures Wf(c, r.1) && Within(|c.hooks|, s, r.1)
  {
    var batch := BatchOf(s);
    var t := Log(s, Insert(batch));
    match c.driver(Inserts(s.log), batch)
    case Rejected(code, constraint) =>
      (Failed(if constraint then ConstraintViolated(code) else InsertFailed(code)), t)
    case Stored(ids) =>
      (Done(NilValue), t.(drafts := WriteIDs(s.drafts, s.slots, ids, |s.slots|)))
  }

  /** The closure of builder i after everything inside it succeeded. */
  function Complete(c: Bulk, i: nat, m: nat, s: State): (t: State)
    requires Wf(c, s) && i < |c.hooks| && m < |s.muts| && s.slots[i].Some?
    ensures Wf(c, t) && Within(|c.hooks|, s, t)
  {
    var d := s.slots[i].value;
    var draft := s.drafts[d];
    s.(muts := s.muts[m := s.muts[m].(id := Some(d), done := true)],
       drafts := if draft.specID.Some?
                 then s.drafts[d := draft.(node := draft.node.(id := draft.specID.value))]
                 else s.drafts,
       log := s.log + [Completed(i)])
  }

  /** The tail of the closure: pass an error on, otherwise record completion. */
  function Finish(c: Bulk, i: nat, m: nat, s: State, r: (Outcome, State)): (q: (Outcome, State))
    requires i < |c.hooks| && m < |s.muts| && FilledTo(s, i + 1)
    requires Wf(c, r.1) && Within(i + 1, s, r.1)
    ensures Wf(c, q.1) && Within(i + 1, s, q.1)
  {
    if r.0.Failed? then r
    else
      assert r.1.slots[i] == r.1.slots[..i + 1][i] == s.slots[..i + 1][i];
      (Done(NodeValue(r.1.slots[i].value)), Complete(c, i, m, r.1))
  }

  function Answer(reply: Reply, last: Outcome): Outcome {
    match reply
    case PassThrough => last
    case ReplyValue(tag) => Done(HookValue(tag))
    case Veto(code) => Failed(HookError(code))
  }

  /** The argument of a hook's call when there are n mutation objects. */
  function Resolve(target: Target, a: Arg, n: nat): (b: Arg)
    requires Refers(a, n)
    ensures Refers(b, n)
  {
    match target
    case Received => a
    case Substitute(m) => if m < n then Own(m) else Alien
    case OtherType => Alien
  }

  // ---------- the chain ----------

  /** Mutator i from its h-th hook inwards. */
  function RunMutator(c: Bulk, i: nat, h: nat, a: Arg, s: State): (r: (Outcome, State))
    requires Wf(c, s) && i < |c.hooks| && h <= |c.hooks[i]| && InPool(a, s) && FilledTo(s, i)
    ensures Wf(c, r.1) && Within(i, s, r.1)
    decreases |c.hooks| - i, |c.hooks[i]| - h, 1
  {
    if h < |c.hooks[i]| then
      var r := RunHook(c, i, h, c.hooks[i][h], a, Done(NilValue), Log(s, Enter(i, h)));
      (r.0, Log(r.1, Leave(i, h)))
    else RunClosure(c, i, a, s)
  }

  /** The rest p of hook h of builder i, given the last answer it got. */
  function RunHook(c: Bulk, i: nat, h: nat, p: Hook, a: Arg, last: Outcome, s: State): (r: (Outcome, State))
    requires Wf(c, s) && i < |c.hooks| && h < |c.hooks[i]| && InPool(a, s) && FilledTo(s, i)
    ensures Wf(c, r.1) && Within(i, s, r.1)
    decreases |c.hooks| - i, |c.hooks[i]| - h, 0, p
  {
    match p
    case Return(reply) => (Answer(reply, last), s)
    case Edit(change, rest) => RunHook(c, i, h, rest, a, last, EditMut(s, a, change))
    case If(test, yes, no) => RunHook(c, i, h, if test(Shown(s, a)) then yes else no, a, last, s)
    case Next(target, onOk, onErr) =>
      var r := RunMutator(c, i, h + 1, Resolve(target, a, |s.muts|), s);
      RunHook(c, i, h, if r.0.Done? then onOk else onErr, a, r.0, r.1)
  }

  /** The closure of builder i. The check reads the builder's mutation before the received one
      replaces it. */
  function RunClosure(c: Bulk, i: nat, a: Arg, s: State): (r: (Outcome, State))
    requires Wf(c, s) && i < |c.hooks| && InPool(a, s) && FilledTo(s, i)
    ensures Wf(c, r.1) && Within(i, s, r.1)
    decreases |c.hooks| - i, 0, 0
  {
    if a.Alien? then (Failed(WrongMutationType), s)
    else
      var fault := Check(s.muts[s.current[i]].values);
      if fault.Some? then (Failed(CheckFailed(fault.value)), s)
      else
        var t := FillSlot(c, i, a.mutation, s);
        var r := Finish(c, i, a.mutation, t, RunInside(c, i, t));
        WithinInside(i, s, t, r.1);
        r
  }

  /** What the closure of builder i calls: the next builder's mutator, or the batch insert. */
  function RunInside(c: Bulk, i: nat, s: State): (r: (Outcome, State))
    requires Wf(c, s) && i < |c.hooks| && FilledTo(s, i + 1)
    ensures Wf(c, r.1) && Within(i + 1, s, r.1)
    decreases |c.hooks| - i - 1, 1 + if i + 1 < |c.hooks| then |c.hooks[i + 1]| else 0
  {
    if i + 1 < |c.hooks| then RunMutator(c, i + 1, 0, Own(s.current[i + 1]), s) else RunInsert(c, s)
  }

  /** The closure of builder i when its check passes. */
  lemma CheckedClosure(c: Bulk, i: nat, m: nat, s: State, t: State, r: (Outcome, State))
    requires Wf(c, s) && i < |c.hooks| && m < |s.muts| && FilledTo(s, i)
    requires Check(s.muts[s.current[i]].values) == None
    requires t == FillSlot(c, i, m, s) && r == RunInside(c, i, t)
    ensures RunClosure(c, i, Own(m), s) == Finish(c, i, m, t, r)
  {
  }

  // ---------- Save ----------

  /** The state in which Save starts: nothing allocated, both arrays empty. */
  function Start(muts: seq<Mut>, current: seq<nat>): State {
    State(muts, current, [], seq(|current|, _ => None), [])
  }

  /** The loop that prepares the mutators applies defaults to each builder's mutation in turn. */
  function WithDefaults(s: State, clock: nat -> Times, k: nat): (t: State)
    requires k <= |s.current| && forall j :: 0 <= j < |s.current| ==> s.current[j] < |s.muts|
    ensures |t.muts| == |s.muts| && t == s.(muts := t.muts)
  {
    if k == 0 then s
    else
      var before := WithDefaults(s, clock, k - 1);
      var m := s.current[k - 1];
      before.(muts := before.muts[m := before.muts[m].(values := Defaulted(before.muts[m].values, clock(k - 1)))])
  }

  /** Defaults of builder k's mutation lead from t to u. */
  ghost predicate DefaultsStep(t: State, u: State, k: nat, now: Times) {
    && k < |t.current| && t.current[k] < |t.muts|
    && var m := t.current[k];
       u == t.(muts := t.muts[m := t.muts[m].(values := Defaulted(t.muts[m].values, now))])
  }

  /** The states that the preparing loop goes through. */
  ghost function DefaultStates(s: State, clock: nat -> Times): (states: seq<State>)
    requires forall j :: 0 <= j < |s.current| ==> s.current[j] < |s.muts|
    ensures |states| == |s.current| + 1
    ensures forall k :: 0 <= k <= |s.current| ==> states[k] == WithDefaults(s, clock, k)
  {
    seq(|s.current| + 1, k requires 0 <= k <= |s.current| => WithDefaults(s, clock, k))
  }

  lemma DefaultStatesStep(s: State, clock: nat -> Times, k: nat)
    requires k < |s.current| && forall j :: 0 <= j < |s.current| ==> s.current[j] < |s.muts|
    ensures DefaultsStep(WithDefaults(s, clock, k), WithDefaults(s, clock, k + 1), k, clock(k))
  {
  }

  /** Save returns the nodes array, by position, unless the first mutator fails. */
  function Save(c: Bulk, clock: nat -> Times, failure: Option<int>, s: State)
    : (r: (Result<seq<Option<nat>>, SaveError>, State))
    requires Wf(c, s)
    ensures Wf(c, r.1)
  {
    if failure.Some? then (Err(BuilderError(failure.value)), s)
    else
      var t := WithDefaults(s, clock, |c.hooks|);
      if |c.hooks| == 0 then (Ok(t.slots), t)
      else
        var r := RunMutator(c, 0, 0, Own(t.current[0]), t);
        (match r.0 case Failed(e) => Err(e) case Done(_) => Ok(r.1.slots), r.1)
  }
}
