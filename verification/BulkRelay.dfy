/** Bulk creation when every hook relays: it may read and edit the mutation it received, calls next
    once with it, and passes the answer on. */
module BulkRelay {
  import opened Schema
  import opened Create
  import opened BulkModel
  import opened BulkAnyHooks

  predicate Relays(p: Hook) {
    match p
    case Return(_) => false
    case Edit(_, rest) => Relays(rest)
    case If(_, yes, no) => Relays(yes) && Relays(no)
    case Next(target, onOk, onErr) =>
      target.Received? && onOk.Return? && onOk.reply.PassThrough? && onErr.Return? && onErr.reply.PassThrough?
  }

  ghost predicate AllRelay(c: Bulk) {
    forall i, h :: 0 <= i < |c.hooks| && 0 <= h < |c.hooks[i]| ==> Relays(c.hooks[i][h])
  }

  ghost predicate Distinct(s: seq<nat>) {
    forall j, k :: 0 <= j < k < |s| ==> s[j] != s[k]
  }

  function Edited(p: Hook, v: Values): Values {
    match p
    case Edit(change, rest) => Edited(rest, change(v))
    case If(test, yes, no) => Edited(if test(v) then yes else no, v)
    case _ => v
  }

  /** The values of a mutation once hooks h.. have edited it. */
  function Prepared(hs: seq<Hook>, h: nat, v: Values): Values
    requires h <= |hs|
    decreases |hs| - h
  {
    if h == |hs| then v else Prepared(hs, h + 1, Edited(hs[h], v))
  }

  // ---------- what should happen ----------

  /** The fault of the first builder from i on whose prepared values fail the check. */
  function FirstFault(w: seq<Values>, i: nat): Option<CheckError>
    requires i <= |w|
    decreases |w| - i
  {
    if i == |w| then None
    else if Check(w[i]).Some? then Check(w[i]) else FirstFault(w, i + 1)
  }

  function Plan(w: seq<Values>): (b: Batch)
    ensures |b| == |w| && forall k :: 0 <= k < |w| ==> b[k] == Entries(w[k])
  {
    seq(|w|, k requires 0 <= k < |w| => Entries(w[k]))
  }

  datatype Verdict = Faulty(fault: CheckError) | Refused(error: SaveError) | Accepted(ids: nat -> int)

  function Judge(c: Bulk, w: seq<Values>, i: nat, inserts: nat): Verdict
    requires i <= |w|
  {
    if FirstFault(w, i).Some? then Faulty(FirstFault(w, i).value)
    else
      match c.driver(inserts, Plan(w))
      case Rejected(code, constraint) => Refused(if constraint then ConstraintViolated(code) else InsertFailed(code))
      case Stored(ids) => Accepted(ids)
  }

  /** The state is ready for mutator i from hook h on, with w the values each builder will insert. */
  ghost predicate Aimed(c: Bulk, i: nat, h: nat, s: State, w: seq<Values>) {
    && AllRelay(c) && Wf(c, s) && Distinct(s.current)
    && |w| == |c.hooks| && i < |c.hooks| && h <= |c.hooks[i]|
    && FilledTo(s, i)
    && w[i] == Prepared(c.hooks[i], h, s.muts[s.current[i]].values)
    && (forall k :: i < k < |w| ==> w[k] == Prepared(c.hooks[k], 0, s.muts[s.current[k]].values))
    && (forall k :: 0 <= k < i ==> s.drafts[s.slots[k].value].entries == Entries(w[k]))
  }

  /** And v is the verdict on w, with q the first builder to fail its check. */
  ghost predicate Planned(c: Bulk, i: nat, h: nat, s: State, w: seq<Values>, v: Verdict, q: nat) {
    && Aimed(c, i, h, s, w)
    && v == Judge(c, w, i, Inserts(s.log)) && q == FaultIndex(w, i)
  }

  /** Builder k's mutation is complete and its id pointer aliases the ID of the node in slot k. */
  ghost predicate Finished(s: State, k: nat, w: seq<Values>, ids: nat -> int)
    requires k < |s.current| == |s.slots| == |w|
  {
    && s.slots[k].Some? && s.slots[k].value < |s.drafts|
    && s.drafts[s.slots[k].value] == Draft(NodeOf(w[k]).(id := ids(k)), Entries(w[k]), Some(ids(k)))
    && s.current[k] < |s.muts|
    && s.muts[s.current[k]] == Mut(w[k], Some(s.slots[k].value), true)
  }

  /** The effect of running the chain from builder i on, by verdict, with the events it logs. */
  ghost predicate Settled(c: Bulk, i: nat, s: State, w: seq<Values>, v: Verdict, events: seq<Event>,
                          r: (Outcome, State)) {
    var t := r.1;
    && t.log == s.log + events
    && Wf(c, s) && Wf(c, t) && |w| == |c.hooks| && i <= |w| && Within(i, s, t) && FilledTo(s, i)
    && t.current == s.current
    && (forall m :: 0 <= m < |s.muts| && m !in s.current[i..] ==> t.muts[m] == s.muts[m])
    && match v
       case Faulty(fault) => r.0 == Failed(CheckFailed(fault)) && NothingCompleted(s, t)
       case Refused(error) => r.0 == Failed(error) && NothingCompleted(s, t)
       case Accepted(ids) =>
         && r.0.Done?
         && (i < |w| ==> AnswersNode(i, r))
         && (forall k :: i <= k < |w| ==> Finished(t, k, w, ids))
         && (forall k :: 0 <= k < i ==>
               t.drafts[s.slots[k].value] == s.drafts[s.slots[k].value].(specID := Some(ids(k))))
  }

  ghost predicate NothingCompleted(s: State, t: State) {
    && |t.muts| == |s.muts|
    && forall m :: 0 <= m < |s.muts| ==> t.muts[m].done == s.muts[m].done && t.muts[m].id == s.muts[m].id
  }

  // ---------- the trace ----------

  /** The first builder from i on whose prepared values fail the check, or the number of builders. */
  function FaultIndex(w: seq<Values>, i: nat): (q: nat)
    requires i <= |w|
    ensures i <= q <= |w|
    ensures FirstFault(w, i) == if q == |w| then None else Check(w[q])
    ensures forall k :: i <= k < q ==> Check(w[k]) == None
    ensures q < |w| ==> Check(w[q]).Some?
    decreases |w| - i
  {
    if i == |w| || Check(w[i]).Some? then i else FaultIndex(w, i + 1)
  }

  /** The events of mutator i from hook h on, when builder stop is the first to fail its check; ok
      when the whole chain succeeds. */
  function Trace(hooks: seq<seq<Hook>>, b: Batch, stop: nat, i: nat, h: nat, ok: bool): seq<Event>
    requires |b| == |hooks| && i < |hooks| && h <= |hooks[i]|
    decreases |hooks| - i, |hooks[i]| - h
  {
    if h < |hooks[i]| then [Enter(i, h)] + Trace(hooks, b, stop, i, h + 1, ok) + [Leave(i, h)]
    else if i == stop then []
    else
      [Checked(i), Built(i, b[i])] + Inside(hooks, b, stop, i, ok) + if ok then [Completed(i)] else []
  }

  function Inside(hooks: seq<seq<Hook>>, b: Batch, stop: nat, i: nat, ok: bool): seq<Event>
    requires |b| == |hooks| && i < |hooks|
    decreases |hooks| - i - 1, 1 + if i + 1 < |hooks| then |hooks[i + 1]| else 0
  {
    if i + 1 < |hooks| then Trace(hooks, b, stop, i + 1, 0, ok) else [Insert(b)]
  }

  // ---------- one hook ----------

  function EditAll(s: State, m: nat, p: Hook): State
    requires m < |s.muts|
  {
    s.(muts := s.muts[m := s.muts[m].(values := Edited(p, s.muts[m].values))])
  }

  /** A relaying hook is its edits followed by the mutator it wraps. */
  lemma {:induction false} RelayUnfolds(c: Bulk, i: nat, h: nat, p: Hook, m: nat, last: Outcome, s: State)
    requires Relays(p) && Wf(c, s) && i < |c.hooks| && h < |c.hooks[i]| && m < |s.muts| && FilledTo(s, i)
    ensures RunHook(c, i, h, p, Own(m), last, s) == RunMutator(c, i, h + 1, Own(m), EditAll(s, m, p))
  {
    match p {
      case Return(_) =>
      case If(test, yes, no) =>
        RelayUnfolds(c, i, h, if test(s.muts[m].values) then yes else no, m, last, s);
      case Edit(change, rest) =>
        var t := EditMut(s, Own(m), change);
        RelayUnfolds(c, i, h, rest, m, last, t);
        assert EditAll(t, m, rest) == EditAll(s, m, p);
      case Next(target, onOk, onErr) =>
        assert EditAll(s, m, p) == s;
    }
  }

  lemma SettledAroundHook(c: Bulk, i: nat, h: nat, p: Hook, s: State, t: State, w: seq<Values>, v: Verdict,
                          events: seq<Event>, r: (Outcome, State))
    requires Wf(c, s) && i < |c.hooks| && FilledTo(s, i)
    requires t == EditAll(Log(s, Enter(i, h)), s.current[i], p)
    requires Settled(c, i, t, w, v, events, r)
    ensures Settled(c, i, s, w, v, [Enter(i, h)] + events + [Leave(i, h)], (r.0, Log(r.1, Leave(i, h))))
  {
    var u := Log(r.1, Leave(i, h));
    assert s.current[i] in s.current[i..];
    match v {
      case Faulty(_) =>
      case Refused(_) =>
      case Accepted(ids) =>
        forall k | i <= k < |w| ensures Finished(u, k, w, ids) {
          assert Finished(r.1, k, w, ids);
        }
    }
  }

  // ---------- the closure ----------

  lemma AimedAfterFill(c: Bulk, i: nat, s: State, w: seq<Values>)
    requires i < |c.hooks| && Aimed(c, i, |c.hooks[i]|, s, w)
    ensures var t := FillSlot(c, i, s.current[i], s);
            && t.current == s.current && t.muts == s.muts
            && (forall k :: 0 <= k <= i ==> t.drafts[t.slots[k].value].entries == Entries(w[k]))
            && t.drafts[t.slots[i].value] == Draft(NodeOf(w[i]), Entries(w[i]), None)
            && (i + 1 < |c.hooks| ==> Aimed(c, i + 1, 0, t, w))
  {
  }

  lemma {:induction false} IDsReachTheirSlots(drafts: seq<Draft>, slots: seq<Option<nat>>, ids: nat -> int, k: nat)
    requires k <= |slots|
    requires forall j :: 0 <= j < |slots| ==> slots[j].Some? && slots[j].value < |drafts|
    requires forall j, l :: 0 <= j < l < |slots| ==> slots[j].value != slots[l].value
    ensures forall j :: 0 <= j < k ==>
              WriteIDs(drafts, slots, ids, k)[slots[j].value] == drafts[slots[j].value].(specID := Some(ids(j)))
    ensures forall j :: k <= j < |slots| ==>
              WriteIDs(drafts, slots, ids, k)[slots[j].value] == drafts[slots[j].value]
  {
    if k > 0 { IDsReachTheirSlots(drafts, slots, ids, k - 1); }
  }

  lemma InsertSettles(c: Bulk, s: State, w: seq<Values>)
    requires Wf(c, s) && FilledTo(s, |c.hooks|) && |w| == |c.hooks|
    requires forall k :: 0 <= k < |w| ==> s.drafts[s.slots[k].value].entries == Entries(w[k])
    ensures Settled(c, |w|, s, w, Judge(c, w, |w|, Inserts(s.log)), [Insert(Plan(w))], RunInsert(c, s))
  {
    assert BatchOf(s) == Plan(w);
    match c.driver(Inserts(s.log), Plan(w)) {
      case Rejected(_, _) =>
      case Stored(ids) => IDsReachTheirSlots(s.drafts, s.slots, ids, |s.slots|);
    }
  }

  function Around(i: nat, entries: seq<FieldSpec>, events: seq<Event>, ok: bool): seq<Event> {
    [Checked(i), Built(i, entries)] + events + if ok then [Completed(i)] else []
  }

  lemma FinishSettles(c: Bulk, i: nat, s: State, t: State, w: seq<Values>, v: Verdict, events: seq<Event>,
                      r: (Outcome, State))
    requires i < |c.hooks| && Aimed(c, i, |c.hooks[i]|, s, w) && t == FillSlot(c, i, s.current[i], s)
    requires Settled(c, i + 1, t, w, v, events, r)
    ensures Settled(c, i, s, w, v, Around(i, Entries(w[i]), events, v.Accepted?), Finish(c, i, s.current[i], t, r))
  {
    if v.Accepted? {
      FinishAccepted(c, i, s, t, w, v.ids, events, r);
    } else {
      FinishFailed(c, i, s, t, w, v, events, r);
    }
  }

  /** Mutations of no builder from i on are left alone, given that those of no builder after i are. */
  lemma OthersUntouched(s: State, t: State, i: nat)
    requires i < |s.current| && |t.muts| == |s.muts|
    requires forall m :: 0 <= m < |s.muts| && m != s.current[i] && m !in s.current[i + 1..] ==> t.muts[m] == s.muts[m]
    ensures forall m :: 0 <= m < |s.muts| && m !in s.current[i..] ==> t.muts[m] == s.muts[m]
  {
    assert s.current[i..] == [s.current[i]] + s.current[i + 1..];
  }

  lemma FinishFailed(c: Bulk, i: nat, s: State, t: State, w: seq<Values>, v: Verdict, events: seq<Event>,
                     r: (Outcome, State))
    requires i < |c.hooks| && Aimed(c, i, |c.hooks[i]|, s, w) && t == FillSlot(c, i, s.current[i], s)
    requires Settled(c, i + 1, t, w, v, events, r) && !v.Accepted?
    ensures Settled(c, i, s, w, v, Around(i, Entries(w[i]), events, false), r)
  {
    AimedAfterFill(c, i, s, w);
    WithinInside(i, s, t, r.1);
    OthersUntouched(s, r.1, i);
    assert r.1.log == s.log + Around(i, Entries(w[i]), events, false);
  }

  lemma FinishAccepted(c: Bulk, i: nat, s: State, t: State, w: seq<Values>, ids: nat -> int, events: seq<Event>,
                       r: (Outcome, State))
    requires i < |c.hooks| && Aimed(c, i, |c.hooks[i]|, s, w) && t == FillSlot(c, i, s.current[i], s)
    requires Settled(c, i + 1, t, w, Accepted(ids), events, r)
    ensures Settled(c, i, s, w, Accepted(ids), Around(i, Entries(w[i]), events, true), Finish(c, i, s.current[i], t, r))
  {
    AimedAfterFill(c, i, s, w);
    FinishLeavesRest(c, i, s, t, Entries(w[i]), events, r);
    FinishCompletes(c, i, s, t, w, ids, events, r);
    FinishAnswersItsNode(c, i, s.current[i], t, r);
    EarlierDrafts(c, i, s, t, w, ids, events, r);
  }

  lemma FinishLeavesRest(c: Bulk, i: nat, s: State, t: State, entries: seq<FieldSpec>, events: seq<Event>,
                         r: (Outcome, State))
    requires i < |c.hooks| && i < |s.current| && s.current[i] < |s.muts|
    requires t.current == s.current && t.muts == s.muts && t.log == s.log + [Checked(i), Built(i, entries)]
    requires FilledTo(t, i + 1) && Within(i, s, t) && Within(i + 1, t, r.1) && Wf(c, r.1)
    requires r.0.Done? && r.1.current == t.current && r.1.log == t.log + events
    requires forall m :: 0 <= m < |t.muts| && m !in t.current[i + 1..] ==> r.1.muts[m] == t.muts[m]
    ensures var q := Finish(c, i, s.current[i], t, r);
            && q.0.Done? && q.1.current == s.current
            && q.1.log == s.log + Around(i, entries, events, true)
            && Within(i, s, q.1)
            && forall m :: 0 <= m < |s.muts| && m !in s.current[i..] ==> q.1.muts[m] == s.muts[m]
  {
    var u := Finish(c, i, s.current[i], t, r).1;
    OthersUntouched(s, u, i);
    WithinInside(i, s, t, u);
    assert u.log == s.log + Around(i, entries, events, true);
  }

  lemma EarlierDrafts(c: Bulk, i: nat, s: State, t: State, w: seq<Values>, ids: nat -> int, events: seq<Event>,
                      r: (Outcome, State))
    requires Wf(c, s) && i < |c.hooks| && FilledTo(s, i) && t == FillSlot(c, i, s.current[i], s)
    requires Settled(c, i + 1, t, w, Accepted(ids), events, r)
    ensures var u := Finish(c, i, s.current[i], t, r).1;
            && |s.drafts| <= |u.drafts|
            && forall k :: 0 <= k < i ==>
                 u.drafts[s.slots[k].value] == s.drafts[s.slots[k].value].(specID := Some(ids(k)))
  {
    var u := Finish(c, i, s.current[i], t, r).1;
    assert r.1.slots[i] == r.1.slots[..i + 1][i] == t.slots[..i + 1][i];
    forall k | 0 <= k < i
      ensures u.drafts[s.slots[k].value] == s.drafts[s.slots[k].value].(specID := Some(ids(k)))
    {
      assert r.1.slots[k] == r.1.slots[..i + 1][k] == t.slots[..i + 1][k] == s.slots[k];
    }
  }

  lemma FinishCompletes(c: Bulk, i: nat, s: State, t: State, w: seq<Values>, ids: nat -> int,
                        events: seq<Event>, r: (Outcome, State))
    requires i < |c.hooks| && Aimed(c, i, |c.hooks[i]|, s, w) && t == FillSlot(c, i, s.current[i], s)
    requires Settled(c, i + 1, t, w, Accepted(ids), events, r)
    ensures forall k :: i <= k < |w| ==> Finished(Finish(c, i, s.current[i], t, r).1, k, w, ids)
  {
    AimedAfterFill(c, i, s, w);
    var m, d := s.current[i], t.slots[i].value;
    var u := Finish(c, i, m, t, r).1;
    assert r.1.slots[i] == r.1.slots[..i + 1][i] == t.slots[..i + 1][i];
    assert m !in s.current[i + 1..];
    assert r.1.muts[m] == s.muts[m];
    assert Finished(u, i, w, ids);
    forall k | i < k < |w| ensures Finished(u, k, w, ids) {
      assert Finished(r.1, k, w, ids);
      assert r.1.slots[k].value != d;
    }
  }

  // ---------- the chain ----------

  /** With relaying hooks, running mutator i from hook h on does exactly what the verdict says: a
      fault of the first builder that fails its check, a refusal of the store, or completion of
      every builder from i on; and it logs exactly the trace. */
  lemma {:induction false} ChainSettles(c: Bulk, i: nat, h: nat, s: State, w: seq<Values>, v: Verdict, q: nat)
    requires Planned(c, i, h, s, w, v, q)
    ensures Settled(c, i, s, w, v, Trace(c.hooks, Plan(w), q, i, h, v.Accepted?),
                    RunMutator(c, i, h, Own(s.current[i]), s))
    decreases |c.hooks| - i, |c.hooks[i]| - h, 1
  {
    if h < |c.hooks[i]| {
      HookedSettles(c, i, h, s, w, v, q);
    } else {
      InnermostSettles(c, i, s, w, v, q);
    }
  }

  lemma {:induction false} HookedSettles(c: Bulk, i: nat, h: nat, s: State, w: seq<Values>, v: Verdict, q: nat)
    requires Planned(c, i, h, s, w, v, q) && h < |c.hooks[i]|
    ensures Settled(c, i, s, w, v, Trace(c.hooks, Plan(w), q, i, h, v.Accepted?),
                    RunMutator(c, i, h, Own(s.current[i]), s))
    decreases |c.hooks| - i, |c.hooks[i]| - h, 0
  {
    var t := EditAll(Log(s, Enter(i, h)), s.current[i], c.hooks[i][h]);
    PlannedInsideHook(c, i, h, s, w, v, q);
    ChainSettles(c, i, h + 1, t, w, v, q);
    HookSettles(c, i, h, s, t, w, v, Trace(c.hooks, Plan(w), q, i, h + 1, v.Accepted?));
  }

  lemma {:induction false} InnermostSettles(c: Bulk, i: nat, s: State, w: seq<Values>, v: Verdict, q: nat)
    requires i < |c.hooks| && Planned(c, i, |c.hooks[i]|, s, w, v, q)
    ensures Settled(c, i, s, w, v, Trace(c.hooks, Plan(w), q, i, |c.hooks[i]|, v.Accepted?),
                    RunMutator(c, i, |c.hooks[i]|, Own(s.current[i]), s))
    decreases |c.hooks| - i, 0, 0, 1
  {
    LastMutator(c, i, Own(s.current[i]), s);
    ClosureSettles(c, i, s, w, v, q);
  }

  lemma PlannedInsideHook(c: Bulk, i: nat, h: nat, s: State, w: seq<Values>, v: Verdict, q: nat)
    requires Planned(c, i, h, s, w, v, q) && h < |c.hooks[i]|
    ensures Planned(c, i, h + 1, EditAll(Log(s, Enter(i, h)), s.current[i], c.hooks[i][h]), w, v, q)
  {
    AimedInsideHook(c, i, h, s, w);
    InsertsSnoc(s.log, Enter(i, h));
  }

  lemma AimedInsideHook(c: Bulk, i: nat, h: nat, s: State, w: seq<Values>)
    requires Aimed(c, i, h, s, w) && h < |c.hooks[i]|
    ensures Aimed(c, i, h + 1, EditAll(Log(s, Enter(i, h)), s.current[i], c.hooks[i][h]), w)
  {
  }

  lemma HookSettles(c: Bulk, i: nat, h: nat, s: State, t: State, w: seq<Values>, v: Verdict, events: seq<Event>)
    requires Aimed(c, i, h, s, w) && h < |c.hooks[i]|
    requires t == EditAll(Log(s, Enter(i, h)), s.current[i], c.hooks[i][h])
    requires Settled(c, i, t, w, v, events, RunMutator(c, i, h + 1, Own(s.current[i]), t))
    ensures Settled(c, i, s, w, v, [Enter(i, h)] + events + [Leave(i, h)],
                    RunMutator(c, i, h, Own(s.current[i]), s))
  {
    var p, m := c.hooks[i][h], s.current[i];
    RelayUnfolds(c, i, h, p, m, Done(NilValue), Log(s, Enter(i, h)));
    SettledAroundHook(c, i, h, p, s, t, w, v, events, RunMutator(c, i, h + 1, Own(m), t));
  }

  lemma PlannedAfterFill(c: Bulk, i: nat, s: State, w: seq<Values>, v: Verdict, q: nat)
    requires i < |c.hooks| && Planned(c, i, |c.hooks[i]|, s, w, v, q) && q != i
    ensures var t := FillSlot(c, i, s.current[i], s);
            && v == Judge(c, w, i + 1, Inserts(t.log))
            && (i + 1 < |c.hooks| ==> Planned(c, i + 1, 0, t, w, v, q))
  {
    AimedAfterFill(c, i, s, w);
    BatchesOfFill(c, i, s.current[i], s);
    JudgeNext(c, w, i, Inserts(s.log));
  }

  lemma JudgeNext(c: Bulk, w: seq<Values>, i: nat, inserts: nat)
    requires i < |w| && FaultIndex(w, i) != i
    ensures FaultIndex(w, i + 1) == FaultIndex(w, i)
    ensures Judge(c, w, i + 1, inserts) == Judge(c, w, i, inserts)
  {
  }

  lemma {:induction false} ClosureSettles(c: Bulk, i: nat, s: State, w: seq<Values>, v: Verdict, q: nat)
    requires i < |c.hooks| && Planned(c, i, |c.hooks[i]|, s, w, v, q)
    ensures Settled(c, i, s, w, v, Trace(c.hooks, Plan(w), q, i, |c.hooks[i]|, v.Accepted?),
                    RunClosure(c, i, Own(s.current[i]), s))
    decreases |c.hooks| - i, 0, 0, 0
  {
    if q == i {
      ClosureFaults(c, i, s, w);
    } else {
      var t := FillSlot(c, i, s.current[i], s);
      var inside := Inside(c.hooks, Plan(w), q, i, v.Accepted?);
      InsideSettles(c, i, s, t, w, v, q);
      ClosureFinishes(c, i, s, t, w, v, inside);
      assert Trace(c.hooks, Plan(w), q, i, |c.hooks[i]|, v.Accepted?)
          == Around(i, Plan(w)[i], inside, v.Accepted?);
    }
  }

  lemma {:induction false} InsideSettles(c: Bulk, i: nat, s: State, t: State, w: seq<Values>, v: Verdict, q: nat)
    requires i < |c.hooks| && Planned(c, i, |c.hooks[i]|, s, w, v, q) && q != i
    requires t == FillSlot(c, i, s.current[i], s)
    ensures Settled(c, i + 1, t, w, v, Inside(c.hooks, Plan(w), q, i, v.Accepted?), RunInside(c, i, t))
    decreases |c.hooks| - i - 1, 1 + if i + 1 < |c.hooks| then |c.hooks[i + 1]| else 0
  {
    PlannedAfterFill(c, i, s, w, v, q);
    if i + 1 < |c.hooks| {
      ChainSettles(c, i + 1, 0, t, w, v, q);
      assert RunInside(c, i, t) == RunMutator(c, i + 1, 0, Own(t.current[i + 1]), t);
    } else {
      LastInsideSettles(c, i, s, t, w, v);
    }
  }

  lemma LastInsideSettles(c: Bulk, i: nat, s: State, t: State, w: seq<Values>, v: Verdict)
    requires i + 1 == |c.hooks| && Aimed(c, i, |c.hooks[i]|, s, w) && t == FillSlot(c, i, s.current[i], s)
    requires v == Judge(c, w, i + 1, Inserts(t.log))
    ensures Settled(c, i + 1, t, w, v, [Insert(Plan(w))], RunInside(c, i, t))
  {
    AimedAfterFill(c, i, s, w);
    InsertSettles(c, t, w);
    assert RunInside(c, i, t) == RunInsert(c, t);
  }

  lemma ClosureFaults(c: Bulk, i: nat, s: State, w: seq<Values>)
    requires i < |c.hooks| && Aimed(c, i, |c.hooks[i]|, s, w) && Check(w[i]).Some?
    ensures Settled(c, i, s, w, Faulty(Check(w[i]).value), [], RunClosure(c, i, Own(s.current[i]), s))
  {
  }

  lemma ClosureFinishes(c: Bulk, i: nat, s: State, t: State, w: seq<Values>, v: Verdict, events: seq<Event>)
    requires i < |c.hooks| && Aimed(c, i, |c.hooks[i]|, s, w) && Check(w[i]).None?
    requires t == FillSlot(c, i, s.current[i], s)
    requires Settled(c, i + 1, t, w, v, events, RunInside(c, i, t))
    ensures Settled(c, i, s, w, v, Around(i, Entries(w[i]), events, v.Accepted?),
                    RunClosure(c, i, Own(s.current[i]), s))
  {
    FinishSettles(c, i, s, t, w, v, events, RunInside(c, i, t));
    CheckedClosure(c, i, s.current[i], s, t, RunInside(c, i, t));
  }

  /** With relaying hooks, each call of the mutator of builder i, at any hook, that succeeds answers
      with builder i's node. */
  lemma RelayedAnswerIsOwnNode(c: Bulk, i: nat, h: nat, s: State, w: seq<Values>, v: Verdict, q: nat)
    requires Planned(c, i, h, s, w, v, q)
    ensures AnswersNode(i, RunMutator(c, i, h, Own(s.current[i]), s))
    ensures v.Accepted? <==> RunMutator(c, i, h, Own(s.current[i]), s).0.Done?
  {
    ChainSettles(c, i, h, s, w, v, q);
  }

  // ---------- the nesting ----------

  /** A place in the nesting: hook h of builder i, or the closure of builder i. */
  datatype Frame = HookFrame(i: nat, h: nat) | ClosureFrame(i: nat)

  /** The way in: each builder's hooks in list order, then its closure, builder after builder. */
  function Path(hooks: seq<seq<Hook>>, i: nat, h: nat): (path: seq<Frame>)
    requires i < |hooks| && h <= |hooks[i]|
    ensures FramesFit(path, |hooks|)
    decreases |hooks| - i, |hooks[i]| - h
  {
    if h < |hooks[i]| then [HookFrame(i, h)] + Path(hooks, i, h + 1)
    else [ClosureFrame(i)] + if i + 1 < |hooks| then Path(hooks, i + 1, 0) else []
  }

  ghost predicate FramesFit(path: seq<Frame>, n: nat) {
    forall k :: 0 <= k < |path| ==> path[k].i < n
  }

  function Opening(path: seq<Frame>, b: Batch): seq<Event>
    requires FramesFit(path, |b|)
  {
    if path == [] then []
    else
      (match path[0]
       case HookFrame(i, h) => [Enter(i, h)]
       case ClosureFrame(i) => [Checked(i), Built(i, b[i])]) + Opening(path[1..], b)
  }

  function Closing(path: seq<Frame>): seq<Event> {
    if path == [] then []
    else
      Closing(path[1..]) + (match path[0]
                            case HookFrame(i, h) => [Leave(i, h)]
                            case ClosureFrame(i) => [Completed(i)])
  }

  lemma Nest(before: seq<Event>, inward: seq<Event>, mid: seq<Event>, outward: seq<Event>, after: seq<Event>)
    ensures before + (inward + mid + outward) + after == (before + inward) + mid + (outward + after)
  {
  }

  /** The trace of a success is perfectly nested: the way in, one batch insert, and the same way
      back, hooks and closures in reverse. */
  lemma {:induction false} SuccessTraceIsNested(hooks: seq<seq<Hook>>, b: Batch, i: nat, h: nat)
    requires |b| == |hooks| && i < |hooks| && h <= |hooks[i]|
    ensures var path := Path(hooks, i, h);
            Trace(hooks, b, |hooks|, i, h, true) == Opening(path, b) + [Insert(b)] + Closing(path)
    decreases |hooks| - i, |hooks[i]| - h
  {
    var path := Path(hooks, i, h);
    if h < |hooks[i]| {
      SuccessTraceIsNested(hooks, b, i, h + 1);
      assert path[1..] == Path(hooks, i, h + 1);
      Nest([Enter(i, h)], Opening(path[1..], b), [Insert(b)], Closing(path[1..]), [Leave(i, h)]);
    } else if i + 1 < |hooks| {
      SuccessTraceIsNested(hooks, b, i + 1, 0);
      assert path[1..] == Path(hooks, i + 1, 0);
      Nest([Checked(i), Built(i, b[i])], Opening(path[1..], b), [Insert(b)], Closing(path[1..]), [Completed(i)]);
    } else {
      assert path[1..] == [];
      Nest([Checked(i), Built(i, b[i])], [], [Insert(b)], [], [Completed(i)]);
    }
  }

  // ---------- Save ----------

  lemma {:induction false} DefaultsLeaveOthers(s: State, clock: nat -> Times, k: nat, m: nat)
    requires k <= |s.current| && m < |s.muts|
    requires forall j :: 0 <= j < |s.current| ==> s.current[j] < |s.muts|
    ensures WithDefaults(s, clock, k).muts[m].done == s.muts[m].done
    ensures WithDefaults(s, clock, k).muts[m].id == s.muts[m].id
    ensures m !in s.current[..k] ==> WithDefaults(s, clock, k).muts[m] == s.muts[m]
  {
    if k > 0 {
      DefaultsLeaveOthers(s, clock, k - 1, m);
      assert s.current[..k] == s.current[..k - 1] + [s.current[k - 1]];
    }
  }

  lemma {:induction false} DefaultsReachBuilder(s: State, clock: nat -> Times, k: nat, j: nat)
    requires j < k <= |s.current| && Distinct(s.current)
    requires forall j :: 0 <= j < |s.current| ==> s.current[j] < |s.muts|
    ensures var m := s.current[j];
            WithDefaults(s, clock, k).muts[m].values == Defaulted(s.muts[m].values, clock(j))
  {
    if j == k - 1 {
      assert s.current[j] !in s.current[..j];
      DefaultsLeaveOthers(s, clock, j, s.current[j]);
    } else {
      DefaultsReachBuilder(s, clock, k - 1, j);
      assert s.current[k - 1] != s.current[j];
    }
  }

  /** What each builder will insert: its values with defaults, edited by its hooks in order. */
  function Intended(c: Bulk, clock: nat -> Times, s: State): (w: seq<Values>)
    requires Wf(c, s)
    ensures |w| == |c.hooks|
    ensures forall k :: 0 <= k < |w| ==>
              w[k] == Prepared(c.hooks[k], 0, Defaulted(s.muts[s.current[k]].values, clock(k)))
  {
    seq(|c.hooks|, k requires 0 <= k < |c.hooks| =>
      Prepared(c.hooks[k], 0, Defaulted(s.muts[s.current[k]].values, clock(k))))
  }

  lemma DefaultsKeepWf(c: Bulk, clock: nat -> Times, s: State)
    requires Wf(c, s)
    ensures var t := WithDefaults(s, clock, |c.hooks|);
            Wf(c, t) && t.current == s.current && t.slots == s.slots && FilledTo(t, 0)
  {
  }

  lemma SaveIsAimed(c: Bulk, clock: nat -> Times, s: State)
    requires AllRelay(c) && Wf(c, s) && Distinct(s.current) && |c.hooks| > 0
    ensures Aimed(c, 0, 0, WithDefaults(s, clock, |c.hooks|), Intended(c, clock, s))
  {
    var t, w := WithDefaults(s, clock, |c.hooks|), Intended(c, clock, s);
    DefaultsKeepWf(c, clock, s);
    forall k | 0 <= k < |w|
      ensures w[k] == Prepared(c.hooks[k], 0, t.muts[t.current[k]].values)
    {
      DefaultsReachBuilder(s, clock, |c.hooks|, k);
    }
  }

  /** Bulk creation with relaying hooks is all or nothing. If some builder fails its check, the error
      is that of the smallest failing index, no insert runs and no mutation becomes done. If the
      store refuses, its error is returned after exactly one insert and no mutation becomes done.
      Otherwise there was exactly one insert, of every builder's spec by position, all mutations are
      done, and result position k holds builder k's node with the ID the store wrote for spec k,
      which mutation k's id pointer aliases; the log is the way in, the insert, and the way back. */
  lemma BulkSaveIsAllOrNothing(c: Bulk, clock: nat -> Times, s: State)
    requires s == Start(s.muts, s.current) && Wf(c, s) && |c.hooks| > 0 && Distinct(s.current)
    requires AllRelay(c)
    ensures var w := Intended(c, clock, s);
            SaveOutcome(c, s, w, FaultIndex(w, 0), Save(c, clock, None, s))
  {
    var w, t := Intended(c, clock, s), WithDefaults(s, clock, |c.hooks|);
    SaveIsAimed(c, clock, s);
    DefaultsCompleteNothing(s, clock);
    SaveFrom(c, clock, s, t, w, Judge(c, w, 0, 0), FaultIndex(w, 0));
  }

  lemma SaveFrom(c: Bulk, clock: nat -> Times, s: State, t: State, w: seq<Values>, v: Verdict, q: nat)
    requires Wf(c, s) && |c.hooks| > 0 && t == WithDefaults(s, clock, |c.hooks|)
    requires Aimed(c, 0, 0, t, w) && NothingCompleted(s, t) && t.log == []
    requires v == Judge(c, w, 0, 0) && q == FaultIndex(w, 0)
    ensures SaveOutcome(c, s, w, q, Save(c, clock, None, s))
  {
    ChainSettles(c, 0, 0, t, w, v, q);
    var r := RunMutator(c, 0, 0, Own(t.current[0]), t);
    SettledSave(c, s, t, w, v, q, r);
    SaveRuns(c, clock, s, t, r);
  }

  lemma SaveRuns(c: Bulk, clock: nat -> Times, s: State, t: State, r: (Outcome, State))
    requires Wf(c, s) && |c.hooks| > 0 && t == WithDefaults(s, clock, |c.hooks|)
    requires r == RunMutator(c, 0, 0, Own(t.current[0]), t)
    ensures Save(c, clock, None, s) == (match r.0 case Failed(e) => Err(e) case Done(_) => Ok(r.1.slots), r.1)
  {
  }

  lemma SettledSave(c: Bulk, s: State, t: State, w: seq<Values>, v: Verdict, q: nat, r: (Outcome, State))
    requires |w| == |c.hooks| > 0 && t.log == [] && t.current == s.current && NothingCompleted(s, t)
    requires v == Judge(c, w, 0, 0) && q == FaultIndex(w, 0)
    requires Settled(c, 0, t, w, v, Trace(c.hooks, Plan(w), q, 0, 0, v.Accepted?), r)
    ensures SaveOutcome(c, s, w, q, (match r.0 case Failed(e) => Err(e) case Done(_) => Ok(r.1.slots), r.1))
  {
    TraceInserts(c.hooks, Plan(w), q, 0, 0, v.Accepted?);
    assert r.1.log == Trace(c.hooks, Plan(w), q, 0, 0, v.Accepted?);
    SuccessTraceIsNested(c.hooks, Plan(w), 0, 0);
  }

  /** A bulk without builders succeeds with no nodes and touches nothing. */
  lemma EmptyBulkSavesNothing(c: Bulk, clock: nat -> Times, muts: seq<Mut>)
    requires |c.hooks| == 0
    ensures Save(c, clock, None, Start(muts, [])) == (Ok([]), Start(muts, []))
  {
    assert Start(muts, []).slots == [];
  }

  ghost predicate SaveOutcome(c: Bulk, s: State, w: seq<Values>, q: nat,
                              r: (Result<seq<Option<nat>>, SaveError>, State))
    requires |w| == |c.hooks| > 0 && (q < |w| ==> Check(w[q]).Some?)
  {
    var t := r.1;
    if q < |w| then
      && r.0 == Err(CheckFailed(Check(w[q]).value))
      && Inserts(t.log) == 0 && NothingCompleted(s, t)
    else
      && Inserts(t.log) == 1
      && match c.driver(0, Plan(w))
         case Rejected(code, constraint) =>
           && r.0 == Err(if constraint then ConstraintViolated(code) else InsertFailed(code))
           && NothingCompleted(s, t)
         case Stored(ids) =>
           && r.0 == Ok(t.slots)
           && t.current == s.current
           && |t.current| == |t.slots| == |w|
           && (forall k :: 0 <= k < |w| ==> Finished(t, k, w, ids))
           && var path := Path(c.hooks, 0, 0);
              t.log == Opening(path, Plan(w)) + [Insert(Plan(w))] + Closing(path)
  }

  lemma DefaultsCompleteNothing(s: State, clock: nat -> Times)
    requires forall j :: 0 <= j < |s.current| ==> s.current[j] < |s.muts|
    ensures NothingCompleted(s, WithDefaults(s, clock, |s.current|))
  {
    var t := WithDefaults(s, clock, |s.current|);
    forall m | 0 <= m < |s.muts| ensures t.muts[m].done == s.muts[m].done && t.muts[m].id == s.muts[m].id {
      DefaultsLeaveOthers(s, clock, |s.current|, m);
    }
  }

  lemma {:induction false} BatchesConcat(a: seq<Event>, b: seq<Event>)
    ensures Batches(a + b) == Batches(a) + Batches(b)
  {
    if b == [] {
      assert a + b == a;
    } else {
      BatchesConcat(a, b[..|b| - 1]);
      assert (a + b)[..|a + b| - 1] == a + b[..|b| - 1];
    }
  }

  lemma InsertsAround(open: seq<Event>, mid: seq<Event>, close: seq<Event>)
    requires Inserts(open) == 0 && Inserts(close) == 0
    ensures Inserts(open + mid + close) == Inserts(mid)
  {
    BatchesConcat(open, mid);
    BatchesConcat(open + mid, close);
  }

  lemma InsertsOfOne(e: Event)
    ensures Inserts([e]) == if e.Insert? then 1 else 0
  {
    BatchesSnoc([], e);
    assert [] + [e] == [e];
  }

  /** A trace holds one insert when no builder has a fault, and none otherwise. */
  lemma {:induction false} TraceInserts(hooks: seq<seq<Hook>>, b: Batch, stop: nat, i: nat, h: nat, ok: bool)
    requires |b| == |hooks| && i < |hooks| && h <= |hooks[i]| && i <= stop
    ensures Inserts(Trace(hooks, b, stop, i, h, ok)) == if stop < |hooks| then 0 else 1
    decreases |hooks| - i, |hooks[i]| - h
  {
    if h < |hooks[i]| {
      TraceInserts(hooks, b, stop, i, h + 1, ok);
      InsertsOfOne(Enter(i, h));
      InsertsOfOne(Leave(i, h));
      InsertsAround([Enter(i, h)], Trace(hooks, b, stop, i, h + 1, ok), [Leave(i, h)]);
    } else if i != stop {
      var open := [Checked(i), Built(i, b[i])];
      InsertsOfOne(Checked(i));
      InsertsSnoc([Checked(i)], Built(i, b[i]));
      assert open == [Checked(i)] + [Built(i, b[i])];
      if i + 1 < |hooks| {
        TraceInserts(hooks, b, stop, i + 1, 0, ok);
      } else {
        InsertsOfOne(Insert(b));
      }
      InsertsOfOne(Completed(i));
      InsertsAround(open, Inside(hooks, b, stop, i, ok), if ok then [Completed(i)] else []);
    }
  }
}
