/** The bulk-create chain on objects: shared arrays of nodes and specs, mutations reached through
    pointers, IDs written through aliases. Each step is proved against BulkModel. */
module BulkSave {
  import opened Schema
  import opened RowCodec
  import opened Create
  import opened BulkModel
  import opened BulkAnyHooks
  import opened Builder
  import opened BulkRelay

  /** What a Mutate call returns beside its error. */
  datatype Answered = NilRef | NodeRef(node: APIKey) | HookRef(tag: int)

  ghost predicate AllDifferent<T>(s: seq<T>) {
    forall j, k :: 0 <= j < k < |s| ==> s[j] != s[k]
  }

  /** What the closures of one Save call share. */
  class Chain {
    const builders: seq<APIKeyCreate>
    const pool: seq<Mutation>
    const driver: (nat, Batch) -> BatchReply
    const nodes: array<APIKey?>
    const specs: array<CreateSpec?>
    var log: seq<Event>
    ghost const model: Bulk
    ghost const before: seq<APIKey?>
    ghost var madeNodes: seq<APIKey>
    ghost var madeSpecs: seq<CreateSpec>
    ghost var footprint: set<object>

    ghost predicate Owned()
      reads this
    {
      && this in footprint && nodes in footprint && specs in footprint
      && (forall k :: 0 <= k < |builders| ==> builders[k] in footprint)
      && (forall m :: 0 <= m < |pool| ==> pool[m] in footprint)
      && (forall d :: 0 <= d < |madeNodes| ==> madeNodes[d] in footprint)
      && (forall d :: 0 <= d < |madeSpecs| ==> madeSpecs[d] in footprint)
    }

    ghost predicate Shape()
      reads this
    {
      && |builders| == nodes.Length == specs.Length == |model.hooks|
      && |before| == |pool|
      && nodes as object != specs as object
      && model.driver == driver
      && (forall k :: 0 <= k < |builders| ==> builders[k].hooks == model.hooks[k])
      && AllDifferent(builders) && AllDifferent(pool)
      && AllDifferent(madeNodes) && AllDifferent(madeSpecs)
      && |madeNodes| == |madeSpecs|
    }

    ghost predicate RepMut(m: Mutation, before: APIKey?, v: Mut)
      reads this, m
    {
      && m.values == v.values && m.done == v.done
      && (v.id.None? ==> m.id == before)
      && (v.id.Some? ==> v.id.value < |madeNodes| && m.id == madeNodes[v.id.value])
    }

    ghost predicate RepDraft(n: APIKey, c: CreateSpec, d: Draft)
      reads n, c
    {
      n.View() == d.node && c.entries == d.entries && c.idValue == d.specID
    }

    ghost predicate RepSlot(n: APIKey?, c: CreateSpec?, slot: Option<nat>)
      reads this
    {
      && (slot.None? ==> n == null && c == null)
      && (slot.Some? ==> && slot.value < |madeNodes| == |madeSpecs|
                         && n == madeNodes[slot.value] && c == madeSpecs[slot.value])
    }

    /** The heap is the model state s. */
    ghost predicate Rep(s: State)
      reads this, footprint
    {
      && Owned() && Shape()
      && |s.current| == |s.slots| == |builders|
      && |s.muts| == |pool| && |s.drafts| == |madeNodes|
      && s.log == log
      && (forall k {:trigger s.current[k]} :: 0 <= k < |builders| ==>
            s.current[k] < |pool| && builders[k].mutation == pool[s.current[k]])
      && (forall m {:trigger s.muts[m]} :: 0 <= m < |pool| ==> RepMut(pool[m], before[m], s.muts[m]))
      && (forall d {:trigger s.drafts[d]} :: 0 <= d < |madeNodes| ==> RepDraft(madeNodes[d], madeSpecs[d], s.drafts[d]))
      && (forall k {:trigger s.slots[k]} :: 0 <= k < |builders| ==> RepSlot(nodes[k], specs[k], s.slots[k]))
    }

    ghost predicate RepArg(m: Mutation?, a: Arg)
      reads this
    {
      match a
      case Own(x) => x < |pool| && m == pool[x]
      case Alien => m == null
    }

    ghost predicate RepOutcome(v: Answered, err: Option<SaveError>, o: Outcome)
      reads this
    {
      match o
      case Failed(e) => err == Some(e)
      case Done(NilValue) => err == None && v == NilRef
      case Done(NodeValue(d)) => err == None && d < |madeNodes| && v == NodeRef(madeNodes[d])
      case Done(HookValue(tag)) => err == None && v == HookRef(tag)
    }

    /** The heap and the answer are what the model says. */
    ghost predicate Sim(v: Answered, err: Option<SaveError>, r: (Outcome, State))
      reads this, footprint
    {
      Rep(r.1) && RepOutcome(v, err, r.0)
    }

    // ---------- steps ----------

    method Note(e: Event, ghost s: State)
      requires Rep(s)
      modifies `log
      ensures Rep(Log(s, e))
      ensures madeNodes == old(madeNodes) && madeSpecs == old(madeSpecs) && footprint == old(footprint)
    {
      log := log + [e];
    }

    method EditMutation(m: Mutation, change: Values -> Values, ghost x: nat, ghost s: State)
      requires Rep(s) && x < |pool| && m == pool[x]
      modifies m
      ensures Rep(EditMut(s, Own(x), change))
    {
      assert RepMut(pool[x], before[x], s.muts[x]);
      m.values := change(m.values);
    }

    method EditReceived(m: Mutation?, change: Values -> Values, ghost a: Arg, ghost s: State)
      requires Rep(s) && RepArg(m, a)
      modifies if m == null then {} else {m}
      ensures Rep(EditMut(s, a, change))
    {
      if m != null {
        EditMutation(m, change, a.mutation, s);
      }
    }

    method ReadReceived(m: Mutation?, ghost a: Arg, ghost s: State) returns (shown: Values)
      requires Rep(s) && RepArg(m, a)
      ensures shown == Shown(s, a)
    {
      shown := map[];
      if m != null {
        assert RepMut(pool[a.mutation], before[a.mutation], s.muts[a.mutation]);
        shown := m.values;
      }
    }

    method Adopt(i: nat, m: Mutation, ghost x: nat, ghost s: State)
      requires Rep(s) && i < |builders| && x < |pool| && m == pool[x]
      modifies builders[i]
      ensures Rep(s.(current := s.current[i := x]))
      ensures builders[i].mutation == m
    {
      builders[i].mutation := m;
    }

    method Keep(node: APIKey, spec: CreateSpec, ghost d: Draft, ghost s: State)
      requires Rep(s) && node !in madeNodes && spec !in madeSpecs && RepDraft(node, spec, d)
      modifies this
      ensures Rep(s.(drafts := s.drafts + [d]))
      ensures footprint == old(footprint) + {node, spec}
      ensures madeNodes == old(madeNodes) + [node] && madeSpecs == old(madeSpecs) + [spec] && log == old(log)
    {
      madeNodes := madeNodes + [node];
      madeSpecs := madeSpecs + [spec];
      footprint := footprint + {node, spec};
      assert forall k :: 0 <= k < |builders| ==> RepSlot(nodes[k], specs[k], s.slots[k]);
      assert forall y :: 0 <= y < |pool| ==> RepMut(pool[y], before[y], s.muts[y]);
    }

    method Put(i: nat, node: APIKey, spec: CreateSpec, ghost d: nat, ghost s: State)
      requires Rep(s) && i < |builders| && d < |madeNodes| && node == madeNodes[d] && spec == madeSpecs[d]
      modifies nodes, specs
      ensures Rep(s.(slots := s.slots[i := Some(d)]))
    {
      nodes[i] := node;
      specs[i] := spec;
    }

    method Place(i: nat, node: APIKey, spec: CreateSpec, ghost d: Draft, ghost s: State)
      requires Rep(s) && i < |builders|
      requires node !in madeNodes && spec !in madeSpecs && RepDraft(node, spec, d)
      modifies this, nodes, specs
      ensures Rep(s.(drafts := s.drafts + [d], slots := s.slots[i := Some(|s.drafts|)],
                     log := s.log + [Checked(i), Built(i, d.entries)]))
      ensures footprint == old(footprint) + {node, spec}
    {
      ghost var t := s.(drafts := s.drafts + [d]);
      ghost var u := t.(slots := t.slots[i := Some(|s.drafts|)]);
      Keep(node, spec, d, s);
      Put(i, node, spec, |s.drafts|, t);
      Note(Checked(i), u);
      Note(Built(i, spec.entries), Log(u, Checked(i)));
      assert s.log + [Checked(i)] + [Built(i, d.entries)] == s.log + [Checked(i), Built(i, d.entries)];
    }

    /** Builder i takes over mutation m and builds its node and spec. */
    method Drafted(i: nat, m: Mutation, ghost x: nat, ghost s: State) returns (node: APIKey, spec: CreateSpec)
      requires Rep(s) && i < |builders| && x < |pool| && m == pool[x]
      modifies builders[i]
      ensures Rep(s.(current := s.current[i := x]))
      ensures fresh(node) && fresh(spec)
      ensures RepDraft(node, spec, Draft(NodeOf(s.muts[x].values), Entries(s.muts[x].values), None))
    {
      assert RepMut(pool[x], before[x], s.muts[x]);
      Adopt(i, m, x, s);
      node, spec := builders[i].MakeSpec();
    }

    method Fill(i: nat, m: Mutation, ghost x: nat, ghost s: State)
      requires Rep(s) && Wf(model, s) && i < |builders| && x < |pool| && m == pool[x] && FilledTo(s, i)
      modifies this, builders[i], nodes, specs
      ensures Rep(FillSlot(model, i, x, s))
      ensures fresh(footprint - old(footprint))
    {
      var node, spec := Drafted(i, m, x, s);
      Place(i, node, spec, Draft(NodeOf(s.muts[x].values), Entries(s.muts[x].values), None),
            s.(current := s.current[i := x]));
    }

    method MarkDone(i: nat, m: Mutation, ghost x: nat, ghost s: State)
      requires Rep(s) && i < |builders| && x < |pool| && m == pool[x] && s.slots[i].Some?
      modifies m
      ensures Rep(s.(muts := s.muts[x := s.muts[x].(id := s.slots[i], done := true)]))
    {
      assert RepSlot(nodes[i], specs[i], s.slots[i]);
      m.id := nodes[i];
      m.done := true;
    }

    method AssignID(i: nat, ghost s: State)
      requires Rep(s) && i < |builders| && s.slots[i].Some?
      modifies nodes[i]
      ensures var d := s.slots[i].value;
              var draft := s.drafts[d];
              Rep(s.(drafts := if draft.specID.Some?
                               then s.drafts[d := draft.(node := draft.node.(id := draft.specID.value))]
                               else s.drafts))
    {
      assert RepSlot(nodes[i], specs[i], s.slots[i]);
      ghost var d := s.slots[i].value;
      assert RepDraft(madeNodes[d], madeSpecs[d], s.drafts[d]);
      var node, spec := nodes[i], specs[i];
      if spec.idValue.Some? {
        node.id := spec.idValue.value;
      }
    }

    method FinishBuilder(i: nat, m: Mutation, ghost x: nat, ghost s: State) returns (v: Answered)
      requires Rep(s) && Wf(model, s) && i < |builders| && x < |pool| && m == pool[x] && s.slots[i].Some?
      modifies `log, m, nodes[i]
      ensures Rep(Complete(model, i, x, s))
      ensures v == NodeRef(madeNodes[s.slots[i].value])
      ensures madeNodes == old(madeNodes) && madeSpecs == old(madeSpecs) && footprint == old(footprint)
    {
      assert RepSlot(nodes[i], specs[i], s.slots[i]);
      MarkDone(i, m, x, s);
      ghost var t := s.(muts := s.muts[x := s.muts[x].(id := s.slots[i], done := true)]);
      AssignID(i, t);
      Note(Completed(i), t.(drafts := Complete(model, i, x, s).drafts));
      v := NodeRef(nodes[i]);
    }

    method InsertBatch(ghost s: State) returns (v: Answered, err: Option<SaveError>)
      requires Rep(s) && Wf(model, s) && FilledTo(s, |builders|)
      modifies footprint
      ensures Sim(v, err, RunInsert(model, s))
      ensures footprint == old(footprint)
    {
      v := NilRef;
      var batch := CollectBatch(s);
      var reply := driver(Inserts(log), batch);
      Note(Insert(batch), s);
      err := TakeReply(reply, Log(s, Insert(batch)));
    }

    method TakeReply(reply: BatchReply, ghost t: State) returns (err: Option<SaveError>)
      requires Rep(t) && Wf(model, t) && FilledTo(t, |builders|)
      modifies footprint
      ensures match reply
              case Rejected(code, constraint) =>
                && Rep(t)
                && err == Some(if constraint then ConstraintViolated(code) else InsertFailed(code))
              case Stored(ids) => Rep(t.(drafts := WriteIDs(t.drafts, t.slots, ids, |t.slots|))) && err == None
      ensures footprint == old(footprint)
    {
      match reply
      case Rejected(code, constraint) =>
        err := Some(if constraint then ConstraintViolated(code) else InsertFailed(code));
      case Stored(ids) =>
        StoreIDs(ids, t);
        err := None;
    }

    method CollectBatch(ghost s: State) returns (batch: Batch)
      requires Rep(s) && Wf(model, s) && FilledTo(s, |builders|)
      ensures batch == BatchOf(s)
    {
      batch := [];
      for k := 0 to |builders|
        invariant batch == BatchOf(s)[..k]
      {
        assert RepSlot(nodes[k], specs[k], s.slots[k]);
        assert RepDraft(madeNodes[s.slots[k].value], madeSpecs[s.slots[k].value], s.drafts[s.slots[k].value]);
        batch := batch + [specs[k].entries];
      }
    }

    method StoreIDs(ids: nat -> int, ghost s: State)
      requires Rep(s) && Wf(model, s) && FilledTo(s, |builders|)
      modifies footprint
      ensures Rep(s.(drafts := WriteIDs(s.drafts, s.slots, ids, |s.slots|)))
      ensures footprint == old(footprint)
    {
      ghost var states := IDStates(s, ids);
      forall k | 0 <= k < |builders| ensures IDStep(states[k], states[k + 1], k, ids(k)) {
        IDStatesStep(s, ids, k);
      }
      WriteSpecIDs(ids, states);
    }

    /** The store writes its IDs into the specs, one after the other, through the given states. */
    method WriteSpecIDs(ids: nat -> int, ghost states: seq<State>)
      requires |states| == |builders| + 1 && Rep(states[0])
      requires forall k :: 0 <= k < |builders| ==> IDStep(states[k], states[k + 1], k, ids(k))
      modifies footprint
      ensures Rep(states[|builders|])
      ensures footprint == old(footprint)
    {
      for k := 0 to |builders|
        invariant Rep(states[k])
        invariant footprint == old(footprint)
      {
        WriteNextID(k, ids(k), states[k], states[k + 1]);
      }
    }

    method WriteNextID(k: nat, id: int, ghost t: State, ghost u: State)
      requires Rep(t) && k < |builders| && IDStep(t, u, k, id)
      modifies footprint
      ensures Rep(u)
      ensures footprint == old(footprint)
    {
      assert RepSlot(nodes[k], specs[k], t.slots[k]);
      WriteSpecID(k, id, t);
    }

    method WriteSpecID(k: nat, id: int, ghost t: State)
      requires Rep(t) && k < |builders| && t.slots[k].Some?
      modifies specs[k]
      ensures var d := t.slots[k].value;
              Rep(t.(drafts := t.drafts[d := t.drafts[d].(specID := Some(id))]))
    {
      assert RepSlot(nodes[k], specs[k], t.slots[k]);
      ghost var d := t.slots[k].value;
      specs[k].idValue := Some(id);
    }

    // ---------- the chain ----------

    method Mutate(i: nat, h: nat, m: Mutation?, ghost a: Arg, ghost s: State)
      returns (v: Answered, err: Option<SaveError>)
      requires Rep(s) && Wf(model, s) && i < |builders| && h <= |model.hooks[i]| && RepArg(m, a) && FilledTo(s, i)
      modifies footprint
      ensures Sim(v, err, RunMutator(model, i, h, a, s))
      ensures fresh(footprint - old(footprint))
      decreases |model.hooks| - i, |model.hooks[i]| - h, 1
    {
      if h < |builders[i].hooks| {
        Note(Enter(i, h), s);
        v, err := Hooked(i, h, builders[i].hooks[h], m, a, NilRef, None, Done(NilValue), Log(s, Enter(i, h)));
        Note(Leave(i, h), RunHook(model, i, h, model.hooks[i][h], a, Done(NilValue), Log(s, Enter(i, h))).1);
      } else {
        v, err := Closure(i, m, a, s);
      }
    }

    method Hooked(i: nat, h: nat, p: Hook, m: Mutation?, ghost a: Arg, v0: Answered, err0: Option<SaveError>,
                  ghost last: Outcome, ghost s: State)
      returns (v: Answered, err: Option<SaveError>)
      requires Rep(s) && Wf(model, s) && i < |builders| && h < |model.hooks[i]| && RepArg(m, a) && FilledTo(s, i)
      requires RepOutcome(v0, err0, last)
      modifies footprint
      ensures Sim(v, err, RunHook(model, i, h, p, a, last, s))
      ensures fresh(footprint - old(footprint))
      decreases |model.hooks| - i, |model.hooks[i]| - h, 0, p, 1
    {
      match p
      case Return(reply) => v, err := Reply(reply, v0, err0, last);
      case Edit(change, rest) =>
        v, err := HookedEdit(i, h, change, rest, m, a, v0, err0, last, s);
      case If(test, yes, no) =>
        var shown := ReadReceived(m, a, s);
        v, err := Hooked(i, h, if test(shown) then yes else no, m, a, v0, err0, last, s);
      case Next(target, onOk, onErr) =>
        v, err := HookedNext(i, h, target, onOk, onErr, m, a, s);
    }

    method Reply(reply: BulkModel.Reply, v0: Answered, err0: Option<SaveError>, ghost last: Outcome)
      returns (v: Answered, err: Option<SaveError>)
      requires RepOutcome(v0, err0, last)
      ensures RepOutcome(v, err, Answer(reply, last))
    {
      match reply
      case PassThrough => v, err := v0, err0;
      case ReplyValue(tag) => v, err := HookRef(tag), None;
      case Veto(code) => v, err := NilRef, Some(HookError(code));
    }

    method HookedEdit(i: nat, h: nat, change: Values -> Values, rest: Hook, m: Mutation?, ghost a: Arg,
                      v0: Answered, err0: Option<SaveError>, ghost last: Outcome, ghost s: State)
      returns (v: Answered, err: Option<SaveError>)
      requires Rep(s) && Wf(model, s) && i < |builders| && h < |model.hooks[i]| && RepArg(m, a) && FilledTo(s, i)
      requires RepOutcome(v0, err0, last)
      modifies footprint
      ensures Sim(v, err, RunHook(model, i, h, rest, a, last, EditMut(s, a, change)))
      ensures fresh(footprint - old(footprint))
      decreases |model.hooks| - i, |model.hooks[i]| - h, 0, Edit(change, rest), 0
    {
      EditReceived(m, change, a, s);
      v, err := Hooked(i, h, rest, m, a, v0, err0, last, EditMut(s, a, change));
    }

    method HookedNext(i: nat, h: nat, target: Target, onOk: Hook, onErr: Hook, m: Mutation?, ghost a: Arg,
                      ghost s: State)
      returns (v: Answered, err: Option<SaveError>)
      requires Rep(s) && Wf(model, s) && i < |builders| && h < |model.hooks[i]| && RepArg(m, a) && FilledTo(s, i)
      modifies footprint
      ensures var r := RunMutator(model, i, h + 1, Resolve(target, a, |s.muts|), s);
              Sim(v, err, RunHook(model, i, h, if r.0.Done? then onOk else onErr, a, r.0, r.1))
      ensures fresh(footprint - old(footprint))
      decreases |model.hooks| - i, |model.hooks[i]| - h, 0, Next(target, onOk, onErr), 0
    {
      ghost var r := RunMutator(model, i, h + 1, Resolve(target, a, |s.muts|), s);
      v, err := CallNext(i, h, target, m, a, s);
      v, err := Hooked(i, h, if err == None then onOk else onErr, m, a, v, err, r.0, r.1);
    }

    /** A hook calling the mutator it wraps. */
    method CallNext(i: nat, h: nat, target: Target, m: Mutation?, ghost a: Arg, ghost s: State)
      returns (v: Answered, err: Option<SaveError>)
      requires Rep(s) && Wf(model, s) && i < |builders| && h < |model.hooks[i]| && RepArg(m, a) && FilledTo(s, i)
      modifies footprint
      ensures Sim(v, err, RunMutator(model, i, h + 1, Resolve(target, a, |s.muts|), s))
      ensures fresh(footprint - old(footprint))
      decreases |model.hooks| - i, |model.hooks[i]| - h - 1, 2
    {
      var next: Mutation?;
      match target {
        case Received => next := m;
        case Substitute(y) => next := if y < |pool| then pool[y] else null;
        case OtherType => next := null;
      }
      v, err := Mutate(i, h + 1, next, Resolve(target, a, |s.muts|), s);
    }

    method Closure(i: nat, m: Mutation?, ghost a: Arg, ghost s: State) returns (v: Answered, err: Option<SaveError>)
      requires Rep(s) && Wf(model, s) && i < |builders| && RepArg(m, a) && FilledTo(s, i)
      modifies footprint
      ensures Sim(v, err, RunClosure(model, i, a, s))
      ensures err == None ==> nodes[i] != null && v == NodeRef(nodes[i])
      ensures fresh(footprint - old(footprint))
      decreases |model.hooks| - i, 0, 0
    {
      ClosureAnswersItsNode(model, i, a, s);
      if m == null {
        return NilRef, Some(WrongMutationType);
      }
      assert RepMut(pool[s.current[i]], before[s.current[i]], s.muts[s.current[i]]);
      var fault := Check(builders[i].mutation.values);
      if fault.Some? {
        return NilRef, Some(CheckFailed(fault.value));
      }
      v, err := CheckedClosure(i, m, a.mutation, s);
      if err == None { AnsweredNode(i, v, err, RunClosure(model, i, a, s)); }
    }

    /** The model's answer, as an object. */
    lemma AnsweredNode(i: nat, v: Answered, err: Option<SaveError>, r: (Outcome, State))
      requires Sim(v, err, r) && i < |builders| && r.0.Done? && AnswersNode(i, r)
      ensures nodes[i] != null && v == NodeRef(nodes[i])
    {
      assert RepSlot(nodes[i], specs[i], r.1.slots[i]);
    }

    /** The closure of builder i once its check has passed. */
    method CheckedClosure(i: nat, m: Mutation, ghost x: nat, ghost s: State)
      returns (v: Answered, err: Option<SaveError>)
      requires Rep(s) && Wf(model, s) && i < |builders| && x < |pool| && m == pool[x] && FilledTo(s, i)
      modifies footprint
      ensures var t := FillSlot(model, i, x, s);
              Sim(v, err, Finish(model, i, x, t, RunInside(model, i, t)))
      ensures fresh(footprint - old(footprint))
      decreases |model.hooks| - i - 1, 3 + if i + 1 < |model.hooks| then |model.hooks[i + 1]| else 0
    {
      Fill(i, m, x, s);
      v, err := FilledClosure(i, m, x, FillSlot(model, i, x, s));
    }

    /** The closure of builder i once its slot is filled. */
    method FilledClosure(i: nat, m: Mutation, ghost x: nat, ghost t: State)
      returns (v: Answered, err: Option<SaveError>)
      requires Rep(t) && Wf(model, t) && i < |builders| && x < |pool| && m == pool[x] && FilledTo(t, i + 1)
      modifies footprint
      ensures Sim(v, err, Finish(model, i, x, t, RunInside(model, i, t)))
      ensures fresh(footprint - old(footprint))
      decreases |model.hooks| - i - 1, 2 + if i + 1 < |model.hooks| then |model.hooks[i + 1]| else 0
    {
      v, err := Inner(i, t);
      ghost var r := RunInside(model, i, t);
      if err == None {
        assert r.1.slots[i] == r.1.slots[..i + 1][i] == t.slots[..i + 1][i];
        v := FinishBuilder(i, m, x, r.1);
      }
    }

    /** The call inside closure i. */
    method Inner(i: nat, ghost s: State) returns (v: Answered, err: Option<SaveError>)
      requires Rep(s) && Wf(model, s) && i < |builders| && FilledTo(s, i + 1)
      modifies footprint
      ensures Sim(v, err, RunInside(model, i, s))
      ensures fresh(footprint - old(footprint))
      decreases |model.hooks| - i - 1, 1 + if i + 1 < |model.hooks| then |model.hooks[i + 1]| else 0
    {
      if i + 1 < |builders| {
        v, err := Mutate(i + 1, 0, builders[i + 1].mutation, Own(s.current[i + 1]), s);
      } else {
        v, err := InsertBatch(s);
      }
    }

    // ---------- the preparing loop ----------

    constructor (builders: seq<APIKeyCreate>, pool: seq<Mutation>, driver: (nat, Batch) -> BatchReply,
                 ghost model: Bulk, ghost s: State)
      requires |model.hooks| == |builders| && model.driver == driver
      requires forall k :: 0 <= k < |builders| ==> builders[k].hooks == model.hooks[k]
      requires AllDifferent(builders) && AllDifferent(pool)
      requires |s.current| == |builders| && |s.muts| == |pool| && s == Start(s.muts, s.current)
      requires forall k {:trigger s.current[k]} :: 0 <= k < |builders| ==>
                 s.current[k] < |pool| && builders[k].mutation == pool[s.current[k]]
      requires forall m {:trigger s.muts[m]} :: 0 <= m < |pool| ==>
                 s.muts[m] == Mut(pool[m].values, None, pool[m].done)
      ensures Rep(s)
      ensures this.model == model && this.builders == builders && this.pool == pool
      ensures footprint == {this, nodes, specs} + (set k | 0 <= k < |builders| :: builders[k] as object)
                           + (set m | 0 <= m < |pool| :: pool[m] as object)
      ensures fresh(nodes) && fresh(specs)
    {
      this.builders, this.pool, this.driver, this.model := builders, pool, driver, model;
      before := seq(|pool|, m requires 0 <= m < |pool| reads pool => pool[m].id);
      nodes := new APIKey?[|builders|](_ => null);
      specs := new CreateSpec?[|builders|](_ => null);
      log, madeNodes, madeSpecs := [], [], [];
      new;
      footprint := {this, nodes, specs} + (set k | 0 <= k < |builders| :: builders[k] as object)
                   + (set m | 0 <= m < |pool| :: pool[m] as object);
    }

    method ApplyDefaults(k: nat, t: Times, ghost s: State)
      requires Rep(s) && k < |builders|
      modifies builders[k].mutation
      ensures var m := s.current[k];
              Rep(s.(muts := s.muts[m := s.muts[m].(values := Defaulted(s.muts[m].values, t))]))
    {
      ghost var m := s.current[k];
      assert RepMut(pool[m], before[m], s.muts[m]);
      builders[k].Defaults(t);
    }

    method Prepare(clock: nat -> Times, ghost s: State)
      requires Rep(s) && Wf(model, s)
      modifies footprint
      ensures Rep(WithDefaults(s, clock, |builders|))
      ensures footprint == old(footprint)
    {
      ghost var states := DefaultStates(s, clock);
      forall k | 0 <= k < |builders| ensures DefaultsStep(states[k], states[k + 1], k, clock(k)) {
        DefaultStatesStep(s, clock, k);
      }
      PrepareThrough(clock, states);
    }

    /** The preparing loop, through the given states. */
    method PrepareThrough(clock: nat -> Times, ghost states: seq<State>)
      requires |states| == |builders| + 1 && Rep(states[0])
      requires forall k :: 0 <= k < |builders| ==> DefaultsStep(states[k], states[k + 1], k, clock(k))
      modifies footprint
      ensures Rep(states[|builders|])
      ensures footprint == old(footprint)
    {
      for k := 0 to |builders|
        invariant Rep(states[k])
        invariant footprint == old(footprint)
      {
        PrepareOne(k, clock(k), states[k], states[k + 1]);
      }
    }

    method PrepareOne(k: nat, now: Times, ghost t: State, ghost u: State)
      requires Rep(t) && k < |builders| && DefaultsStep(t, u, k, now)
      modifies footprint
      ensures Rep(u)
      ensures footprint == old(footprint)
    {
      assert builders[k].mutation == pool[t.current[k]];
      ApplyDefaults(k, now, t);
    }

    /** The body of Save after the arrays are made. */
    method Run(clock: nat -> Times, ghost s: State) returns (err: Option<SaveError>)
      requires Rep(s) && Wf(model, s)
      modifies footprint
      ensures var r := BulkModel.Save(model, clock, None, s);
              && Rep(r.1)
              && (r.0.Err? ==> err == Some(r.0.error)) && (r.0.Ok? ==> err == None)
    {
      Prepare(clock, s);
      err := None;
      if |builders| > 0 {
        var v;
        ghost var t := WithDefaults(s, clock, |builders|);
        assert builders[0].mutation == pool[t.current[0]];
        v, err := Mutate(0, 0, builders[0].mutation, Own(t.current[0]), t);
      }
    }
  }

  class APIKeyCreateBulk {
    const failure: Option<int>
    const builders: seq<APIKeyCreate>
    const pool: seq<Mutation>
    const driver: (nat, Batch) -> BatchReply

    ghost function Model(): Bulk {
      Bulk(seq(|builders|, k requires 0 <= k < |builders| => builders[k].hooks), driver)
    }

    ghost function StartState(current: seq<nat>): State
      reads pool
    {
      Start(seq(|pool|, m requires 0 <= m < |pool| reads pool => Mut(pool[m].values, None, pool[m].done)), current)
    }

    /** The builders are distinct objects, and builder k points to the current[k]-th mutation. */
    ghost predicate Ready(current: seq<nat>)
      reads builders, pool
    {
      && AllDifferent(builders) && AllDifferent(pool)
      && |current| == |builders|
      && (forall k {:trigger current[k]} :: 0 <= k < |builders| ==>
            current[k] < |pool| && builders[k].mutation == pool[current[k]])
    }

    /** Save on objects does what the model's Save does: same error, and the nodes array holds, by
        position, the nodes of the model's slots. */
    method Save(clock: nat -> Times, ghost current: seq<nat>)
      returns (result: array?<APIKey?>, err: Option<SaveError>, ghost run: Chain?)
      requires Ready(current)
      modifies builders, pool
      ensures failure.Some? ==>
                && err == Some(BuilderError(failure.value)) && result == null
                && (forall k :: 0 <= k < |builders| ==> builders[k].mutation == old(builders[k].mutation))
                && (forall m :: 0 <= m < |pool| ==>
                      && pool[m].values == old(pool[m].values)
                      && pool[m].id == old(pool[m].id) && pool[m].done == old(pool[m].done))
      ensures failure.None? ==>
                && run != null && run.builders == builders && run.pool == pool
                && Wf(Model(), old(StartState(current)))
                && var r := BulkModel.Save(Model(), clock, None, old(StartState(current)));
                   && run.Rep(r.1)
                   && (r.0.Err? ==> err == Some(r.0.error) && result == null)
                   && (r.0.Ok? ==> err == None && result == run.nodes)
    {
      result, run := null, null;
      if failure.Some? {
        return null, Some(BuilderError(failure.value)), null;
      }
      ghost var s := StartState(current);
      ghost var model := Model();
      var chain := new Chain(builders, pool, driver, model, s);
      run := chain;
      err := chain.Run(clock, s);
      if err == None {
        result := chain.nodes;
      }
    }
  }

  /** After a successful Save with relaying hooks, on the objects themselves: position k of the
      result is builder k's node, its ID is the one the store wrote for spec k, the id pointer of
      builder k's mutation is that very node, and the mutation is done. */
  lemma ResultAliasesMutations(bulk: APIKeyCreateBulk, run: Chain, clock: nat -> Times, s: State,
                               ids: nat -> int, k: nat)
    requires run.builders == bulk.builders && k < |bulk.builders|
    requires var c := bulk.Model();
             && s == Start(s.muts, s.current) && Wf(c, s) && Distinct(s.current) && AllRelay(c)
             && run.Rep(BulkModel.Save(c, clock, None, s).1)
             && BulkModel.Save(c, clock, None, s).0.Ok?
             && c.driver(0, Plan(Intended(c, clock, s))) == Stored(ids)
    ensures var node := run.nodes[k];
            var mutation := run.builders[k].mutation;
            && node != null
            && node.View() == NodeOf(Intended(bulk.Model(), clock, s)[k]).(id := ids(k))
            && mutation.id == node && mutation.done
            && forall j :: 0 <= j < |bulk.builders| && j != k ==> run.nodes[j] != node
  {
    var c := bulk.Model();
    var w := Intended(c, clock, s);
    BulkSaveIsAllOrNothing(c, clock, s);
    var t := BulkModel.Save(c, clock, None, s).1;
    assert FaultIndex(w, 0) == |w|;
    FinishedObjects(run, t, w, ids, k);
  }

  lemma FinishedObjects(run: Chain, t: State, w: seq<Values>, ids: nat -> int, k: nat)
    requires run.Rep(t) && Wf(run.model, t) && |w| == |run.builders| && k < |w|
    requires forall j :: 0 <= j < |w| ==> Finished(t, j, w, ids)
    ensures var node := run.nodes[k];
            var mutation := run.builders[k].mutation;
            && node != null
            && node.View() == NodeOf(w[k]).(id := ids(k))
            && mutation.id == node && mutation.done
            && forall j :: 0 <= j < |run.builders| && j != k ==> run.nodes[j] != node
  {
    assert Finished(t, k, w, ids);
    assert run.RepSlot(run.nodes[k], run.specs[k], t.slots[k]);
    var d := t.slots[k].value;
    assert run.RepDraft(run.madeNodes[d], run.madeSpecs[d], t.drafts[d]);
    assert run.RepMut(run.pool[t.current[k]], run.before[t.current[k]], t.muts[t.current[k]]);
    forall j | 0 <= j < |w| && j != k ensures run.nodes[j] != run.nodes[k] {
      assert Finished(t, j, w, ids);
      assert run.RepSlot(run.nodes[j], run.specs[j], t.slots[j]);
      assert t.slots[j].value != d;
    }
  }
}
