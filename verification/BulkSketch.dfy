/** What a bulk save will do, worked out on values alone: no nodes, no specs, no log. Exact conditions
    for valid inserts, for nil nodes and for real success, whatever the hooks do. */
module BulkSketch {
  import opened Schema
  import opened Create
  import opened BulkModel
  import opened BulkAnyHooks
  import opened BulkRelay

  // ---------- the sketch ----------

  /** values: what each mutation holds; current: the mutation of each builder; built: the values from
      which the filled slots were built, slot by slot; inserts: the values of each insert so far;
      stored: the store took the last insert and no slot was built since; completed: the builders
      completed since then. */
  datatype Sketch = Sketch(
    values: seq<Values>,
    current: seq<nat>,
    built: seq<Values>,
    inserts: seq<seq<Values>>,
    stored: bool,
    completed: set<nat>)

  /** The error of a call, or None for success. */
  type Report = Option<SaveError>

  ghost predicate Fit(c: Bulk, k: Sketch, i: nat) {
    && |k.current| == |c.hooks| && i <= |k.built| <= |c.hooks|
    && forall j :: 0 <= j < |k.current| ==> k.current[j] < |k.values|
  }

  /** What a call into the chain at builder i leaves alone. */
  ghost predicate Beyond(c: Bulk, i: nat, k: Sketch, r: (Report, Sketch)) {
    && |r.1.values| == |k.values| && |k.current| == |c.hooks|
    && i <= |k.built| <= |r.1.built| && Fit(c, r.1, i)
    && k.inserts <= r.1.inserts
  }

  function Reported(reply: Reply, last: Report): Report {
    match reply
    case PassThrough => last
    case ReplyValue(_) => None
    case Veto(code) => Some(HookError(code))
  }

  function Revised(k: Sketch, a: Arg, change: Values -> Values): Sketch
    requires Refers(a, |k.values|)
  {
    if a.Alien? then k else k.(values := k.values[a.mutation := change(k.values[a.mutation])])
  }

  function Visible(k: Sketch, a: Arg): Values
    requires Refers(a, |k.values|)
  {
    if a.Alien? then map[] else k.values[a.mutation]
  }

  /** Builder i adopts mutation m and builds slot i from it. */
  function Rebuilt(k: Sketch, i: nat, m: nat): Sketch
    requires i <= |k.built| && i < |k.current| && m < |k.values|
  {
    k.(current := k.current[i := m],
       built := if i < |k.built| then k.built[i := k.values[m]] else k.built + [k.values[m]],
       stored := false)
  }

  function Offered(c: Bulk, k: Sketch): (r: (Report, Sketch)) {
    var t := k.(inserts := k.inserts + [k.built], completed := {});
    match c.driver(|k.inserts|, Plan(k.built))
    case Rejected(code, constraint) =>
      (Some(if constraint then ConstraintViolated(code) else InsertFailed(code)), t.(stored := false))
    case Stored(_) => (None, t.(stored := true))
  }

  /** Mutator i from hook h inwards. */
  function Foretell(c: Bulk, i: nat, h: nat, a: Arg, k: Sketch): (r: (Report, Sketch))
    requires i < |c.hooks| && h <= |c.hooks[i]| && Fit(c, k, i) && Refers(a, |k.values|)
    ensures Beyond(c, i, k, r)
    decreases |c.hooks| - i, |c.hooks[i]| - h, 1
  {
    if h < |c.hooks[i]| then ForetellHook(c, i, h, c.hooks[i][h], a, None, k) else ForetellClosure(c, i, a, k)
  }

  function ForetellHook(c: Bulk, i: nat, h: nat, p: Hook, a: Arg, last: Report, k: Sketch): (r: (Report, Sketch))
    requires i < |c.hooks| && h < |c.hooks[i]| && Fit(c, k, i) && Refers(a, |k.values|)
    ensures Beyond(c, i, k, r)
    decreases |c.hooks| - i, |c.hooks[i]| - h, 0, p
  {
    match p
    case Return(reply) => (Reported(reply, last), k)
    case Edit(change, rest) => ForetellHook(c, i, h, rest, a, last, Revised(k, a, change))
    case If(test, yes, no) => ForetellHook(c, i, h, if test(Visible(k, a)) then yes else no, a, last, k)
    case Next(target, onOk, onErr) =>
      var r := Foretell(c, i, h + 1, Resolve(target, a, |k.values|), k);
      ForetellHook(c, i, h, if r.0.None? then onOk else onErr, a, r.0, r.1)
  }

  function ForetellClosure(c: Bulk, i: nat, a: Arg, k: Sketch): (r: (Report, Sketch))
    requires i < |c.hooks| && Fit(c, k, i) && Refers(a, |k.values|)
    ensures Beyond(c, i, k, r)
    decreases |c.hooks| - i, 0, 0
  {
    if a.Alien? then (Some(WrongMutationType), k)
    else
      var fault := Check(k.values[k.current[i]]);
      if fault.Some? then (Some(CheckFailed(fault.value)), k)
      else Concluded(i, ForetellInside(c, i, Rebuilt(k, i, a.mutation)))
  }

  function Concluded(i: nat, r: (Report, Sketch)): (Report, Sketch) {
    if r.0.Some? then r else (None, r.1.(completed := r.1.completed + {i}))
  }

  function ForetellInside(c: Bulk, i: nat, k: Sketch): (r: (Report, Sketch))
    requires i < |c.hooks| && Fit(c, k, i + 1)
    ensures Beyond(c, i + 1, k, r)
    decreases |c.hooks| - i - 1, 1 + if i + 1 < |c.hooks| then |c.hooks[i + 1]| else 0
  {
    if i + 1 < |c.hooks| then Foretell(c, i + 1, 0, Own(k.current[i + 1]), k) else Offered(c, k)
  }

  // ---------- how the sketch draws a state ----------

  function Worth(s: State): (v: seq<Values>)
    ensures |v| == |s.muts| && forall m :: 0 <= m < |v| ==> v[m] == s.muts[m].values
  {
    seq(|s.muts|, m requires 0 <= m < |s.muts| => s.muts[m].values)
  }

  function Plans(ws: seq<seq<Values>>): (bs: seq<Batch>)
    ensures |bs| == |ws| && forall j :: 0 <= j < |bs| ==> bs[j] == Plan(ws[j])
  {
    seq(|ws|, j requires 0 <= j < |ws| => Plan(ws[j]))
  }

  /** What the log says since its last insert. */
  datatype Tally = Tally(stored: bool, completed: set<nat>)

  function TallyOf(c: Bulk, log: seq<Event>): Tally {
    if log == [] then Tally(false, {})
    else
      var init := log[..|log| - 1];
      match log[|log| - 1]
      case Insert(batch) => Tally(c.driver(Inserts(init), batch).Stored?, {})
      case Built(_, _) => TallyOf(c, init).(stored := false)
      case Completed(i) => var t := TallyOf(c, init); t.(completed := t.completed + {i})
      case _ => TallyOf(c, init)
  }

  lemma TallySnoc(c: Bulk, log: seq<Event>, e: Event)
    ensures TallyOf(c, log + [e])
         == match e
            case Insert(batch) => Tally(c.driver(Inserts(log), batch).Stored?, {})
            case Built(_, _) => TallyOf(c, log).(stored := false)
            case Completed(i) => TallyOf(c, log).(completed := TallyOf(c, log).completed + {i})
            case _ => TallyOf(c, log)
  {
    assert (log + [e])[..|log|] == log;
  }

  /** The nodes of the builders in done carry the IDs, and their mutations are done. */
  ghost predicate Carry(c: Bulk, s: State, ids: nat -> int, done: set<nat>)
    requires Wf(c, s) && FilledTo(s, |c.hooks|)
  {
    forall k :: 0 <= k < |s.slots| && k in done ==>
      && s.muts[s.current[k]].done
      && s.drafts[s.slots[k].value].node.id == ids(k)
  }

  /** When the tally says that the store took what the slots hold, it did, with some IDs that the
      completed builders carry. */
  ghost predicate Backed(c: Bulk, s: State, tally: Tally)
    requires Wf(c, s)
  {
    tally.stored ==>
      FilledTo(s, |c.hooks|) && exists ids :: LastBatchStored(c, s, ids) && Carry(c, s, ids, tally.completed)
  }

  /** Slot by slot, what the filled slots were built from. */
  ghost predicate Pictured(s: State, built: seq<Values>) {
    && |built| <= |s.slots|
    && (forall j :: 0 <= j < |s.slots| ==> (s.slots[j].Some? <==> j < |built|))
    && (forall j :: 0 <= j < |built| ==>
          s.slots[j].value < |s.drafts| && s.drafts[s.slots[j].value].entries == Entries(built[j]))
  }

  ghost predicate Drawn(c: Bulk, s: State, k: Sketch) {
    && Wf(c, s)
    && k.values == Worth(s) && k.current == s.current
    && Pictured(s, k.built)
    && Batches(s.log) == Plans(k.inserts)
    && TallyOf(c, s.log) == Tally(k.stored, k.completed)
    && Backed(c, s, Tally(k.stored, k.completed))
  }

  ghost predicate Agrees(o: Outcome, r: Report) {
    if r.None? then o.Done? else o == Failed(r.value)
  }

  ghost predicate Follows(c: Bulk, r: (Outcome, State), q: (Report, Sketch)) {
    Agrees(r.0, q.0) && Drawn(c, r.1, q.1)
  }

  // ---------- the steps ----------

  lemma DrawnLog(c: Bulk, s: State, k: Sketch, e: Event)
    requires Drawn(c, s, k) && (e.Enter? || e.Leave?)
    ensures Drawn(c, Log(s, e), k)
  {
    BatchesSnoc(s.log, e);
    TallySnoc(c, s.log, e);
    assert Worth(Log(s, e)) == Worth(s);
    StillBacked(c, s, Log(s, e), Tally(k.stored, k.completed));
  }

  /** Only the mutations' values and harmless events differ. */
  lemma StillBacked(c: Bulk, s: State, t: State, tally: Tally)
    requires Wf(c, s) && Wf(c, t) && Backed(c, s, tally)
    requires t.slots == s.slots && t.drafts == s.drafts && t.current == s.current && |t.muts| == |s.muts|
    requires forall m :: 0 <= m < |s.muts| ==> t.muts[m].done == s.muts[m].done
    requires Batches(t.log) == Batches(s.log)
    ensures Backed(c, t, tally)
  {
    if tally.stored {
      var ids :| LastBatchStored(c, s, ids) && Carry(c, s, ids, tally.completed);
      assert BatchOf(t) == BatchOf(s);
      assert LastBatchStored(c, t, ids) && Carry(c, t, ids, tally.completed);
    }
  }

  lemma DrawnEdit(c: Bulk, s: State, k: Sketch, a: Arg, change: Values -> Values)
    requires Drawn(c, s, k) && InPool(a, s)
    ensures Drawn(c, EditMut(s, a, change), Revised(k, a, change))
  {
    var t := EditMut(s, a, change);
    StillBacked(c, s, t, Tally(k.stored, k.completed));
    assert Worth(t) == Revised(k, a, change).values;
  }

  lemma DrawnFill(c: Bulk, s: State, k: Sketch, i: nat, m: nat)
    requires Drawn(c, s, k) && i < |c.hooks| && m < |s.muts| && FilledTo(s, i)
    ensures i <= |k.built| && Drawn(c, FillSlot(c, i, m, s), Rebuilt(k, i, m))
  {
    var t, entries := FillSlot(c, i, m, s), Entries(s.muts[m].values);
    FilledIsPictured(s, k.built, i);
    BatchesOfFill(c, i, m, s);
    TallySnoc(c, s.log, Checked(i));
    TallySnoc(c, s.log + [Checked(i)], Built(i, entries));
    assert t.log == s.log + [Checked(i)] + [Built(i, entries)];
    assert Worth(t) == Worth(s);
    PicturedFill(c, s, k.built, i, m, Rebuilt(k, i, m).built);
  }

  lemma FilledIsPictured(s: State, built: seq<Values>, i: nat)
    requires Pictured(s, built) && i <= |s.slots|
    ensures FilledTo(s, i) <==> i <= |built|
  {
    if i > |built| { assert s.slots[|built|].None?; }
  }

  lemma PicturedFill(c: Bulk, s: State, built: seq<Values>, i: nat, m: nat, longer: seq<Values>)
    requires Wf(c, s) && i < |c.hooks| && m < |s.muts| && FilledTo(s, i) && i <= |built| && Pictured(s, built)
    requires var v := s.muts[m].values; longer == if i < |built| then built[i := v] else built + [v]
    ensures Pictured(FillSlot(c, i, m, s), longer)
  {
  }

  lemma DrawnInsert(c: Bulk, s: State, k: Sketch)
    requires Drawn(c, s, k) && FilledTo(s, |c.hooks|)
    ensures Follows(c, RunInsert(c, s), Offered(c, k))
  {
    FilledIsPictured(s, k.built, |c.hooks|);
    assert BatchOf(s) == Plan(k.built);
    assert Inserts(s.log) == |k.inserts|;
    match c.driver(Inserts(s.log), BatchOf(s)) {
      case Rejected(_, _) => DrawnRefused(c, s, k);
      case Stored(ids) => DrawnStored(c, s, k, ids);
    }
  }

  /** The log after an insert. */
  lemma InsertTallied(c: Bulk, s: State, k: Sketch)
    requires Wf(c, s) && FilledTo(s, |c.hooks|) && BatchOf(s) == Plan(k.built) && Batches(s.log) == Plans(k.inserts)
    ensures var log := Log(s, Insert(BatchOf(s))).log;
            && Batches(log) == Plans(k.inserts + [k.built])
            && TallyOf(c, log) == Tally(c.driver(Inserts(s.log), BatchOf(s)).Stored?, {})
  {
    BatchesSnoc(s.log, Insert(BatchOf(s)));
    TallySnoc(c, s.log, Insert(BatchOf(s)));
    assert Plans(k.inserts) + [Plan(k.built)] == Plans(k.inserts + [k.built]);
  }

  lemma DrawnRefused(c: Bulk, s: State, k: Sketch)
    requires Drawn(c, s, k) && FilledTo(s, |c.hooks|) && BatchOf(s) == Plan(k.built)
    requires c.driver(Inserts(s.log), BatchOf(s)).Rejected?
    ensures Drawn(c, RunInsert(c, s).1, k.(inserts := k.inserts + [k.built], stored := false, completed := {}))
  {
    InsertTallied(c, s, k);
    assert Worth(RunInsert(c, s).1) == Worth(s);
  }

  lemma DrawnStored(c: Bulk, s: State, k: Sketch, ids: nat -> int)
    requires Drawn(c, s, k) && FilledTo(s, |c.hooks|) && BatchOf(s) == Plan(k.built)
    requires c.driver(Inserts(s.log), BatchOf(s)) == Stored(ids)
    ensures Drawn(c, RunInsert(c, s).1, k.(inserts := k.inserts + [k.built], stored := true, completed := {}))
  {
    InsertTallied(c, s, k);
    IDsKeepEntries(s.drafts, s.slots, ids, |s.slots|);
    InsertStores(c, s, ids);
    StoredIsBacked(c, RunInsert(c, s).1, ids);
    assert Worth(RunInsert(c, s).1) == Worth(s);
  }

  lemma StoredIsBacked(c: Bulk, s: State, ids: nat -> int)
    requires Wf(c, s) && FilledTo(s, |c.hooks|) && LastBatchStored(c, s, ids)
    ensures Backed(c, s, Tally(true, {}))
  {
    assert Carry(c, s, ids, {});
  }

  lemma DrawnComplete(c: Bulk, s: State, k: Sketch, i: nat, m: nat)
    requires Drawn(c, s, k) && i < |c.hooks| && s.slots[i].Some? && s.current[i] == m
    ensures Drawn(c, Complete(c, i, m, s), k.(completed := k.completed + {i}))
  {
    var t := Complete(c, i, m, s);
    BatchesSnoc(s.log, Completed(i));
    TallySnoc(c, s.log, Completed(i));
    assert Worth(t) == Worth(s);
    PicturedComplete(c, s, k.built, i, m);
    BackedComplete(c, s, Tally(k.stored, k.completed), i, m);
  }

  lemma PicturedComplete(c: Bulk, s: State, built: seq<Values>, i: nat, m: nat)
    requires Wf(c, s) && i < |c.hooks| && m < |s.muts| && s.slots[i].Some? && Pictured(s, built)
    ensures Pictured(Complete(c, i, m, s), built)
  {
  }

  lemma BackedComplete(c: Bulk, s: State, tally: Tally, i: nat, m: nat)
    requires Wf(c, s) && i < |c.hooks| && s.slots[i].Some? && s.current[i] == m && Backed(c, s, tally)
    ensures Backed(c, Complete(c, i, m, s), tally.(completed := tally.completed + {i}))
  {
    if tally.stored {
      var ids :| LastBatchStored(c, s, ids) && Carry(c, s, ids, tally.completed);
      CompleteKeepsBatch(c, i, m, s, ids);
      CarryComplete(c, s, ids, tally.completed, i, m);
    }
  }

  lemma CarryComplete(c: Bulk, s: State, ids: nat -> int, done: set<nat>, i: nat, m: nat)
    requires Wf(c, s) && i < |c.hooks| && s.current[i] == m && FilledTo(s, |c.hooks|) && Carry(c, s, ids, done)
    requires s.drafts[s.slots[i].value].specID == Some(ids(i))
    ensures Carry(c, Complete(c, i, m, s), ids, done + {i})
  {
    var t := Complete(c, i, m, s);
    forall k | 0 <= k < |t.slots| && k in done + {i}
      ensures t.muts[t.current[k]].done && t.drafts[t.slots[k].value].node.id == ids(k)
    {
      assert k < i ==> s.slots[k].value != s.slots[i].value;
      assert k > i ==> s.slots[k].value != s.slots[i].value;
    }
  }

  // ---------- the chain follows the sketch ----------

  /** Running mutator i from hook h on does what the sketch foretells, whatever the hooks are. */
  lemma {:induction false} ChainFollows(c: Bulk, i: nat, h: nat, a: Arg, s: State, k: Sketch)
    requires Drawn(c, s, k) && i < |c.hooks| && h <= |c.hooks[i]| && InPool(a, s) && FilledTo(s, i)
    ensures Fit(c, k, i) && Follows(c, RunMutator(c, i, h, a, s), Foretell(c, i, h, a, k))
    decreases |c.hooks| - i, |c.hooks[i]| - h, 1
  {
    FilledIsPictured(s, k.built, i);
    if h < |c.hooks[i]| {
      DrawnLog(c, s, k, Enter(i, h));
      HookFollows(c, i, h, c.hooks[i][h], a, Done(NilValue), None, Log(s, Enter(i, h)), k);
      var r := RunHook(c, i, h, c.hooks[i][h], a, Done(NilValue), Log(s, Enter(i, h)));
      DrawnLog(c, r.1, ForetellHook(c, i, h, c.hooks[i][h], a, None, k).1, Leave(i, h));
    } else {
      ClosureFollows(c, i, a, s, k);
    }
  }

  lemma {:induction false} HookFollows(c: Bulk, i: nat, h: nat, p: Hook, a: Arg, last: Outcome, report: Report,
                                       s: State, k: Sketch)
    requires Drawn(c, s, k) && Agrees(last, report)
    requires i < |c.hooks| && h < |c.hooks[i]| && InPool(a, s) && FilledTo(s, i)
    ensures Fit(c, k, i)
    ensures Follows(c, RunHook(c, i, h, p, a, last, s), ForetellHook(c, i, h, p, a, report, k))
    decreases |c.hooks| - i, |c.hooks[i]| - h, 0, p, 1
  {
    FilledIsPictured(s, k.built, i);
    match p {
      case Return(_) =>
      case Edit(change, rest) =>
        DrawnEdit(c, s, k, a, change);
        HookFollows(c, i, h, rest, a, last, report, EditMut(s, a, change), Revised(k, a, change));
      case If(test, yes, no) =>
        HookFollows(c, i, h, if test(Shown(s, a)) then yes else no, a, last, report, s, k);
      case Next(target, onOk, onErr) =>
        NextFollows(c, i, h, target, onOk, onErr, a, s, k);
    }
  }

  lemma {:induction false} NextFollows(c: Bulk, i: nat, h: nat, target: Target, onOk: Hook, onErr: Hook, a: Arg,
                                       s: State, k: Sketch)
    requires Drawn(c, s, k) && i < |c.hooks| && h < |c.hooks[i]| && InPool(a, s) && FilledTo(s, i)
    ensures Fit(c, k, i)
    ensures var b := Resolve(target, a, |s.muts|);
            var r, q := RunMutator(c, i, h + 1, b, s), Foretell(c, i, h + 1, b, k);
            Follows(c, RunHook(c, i, h, if r.0.Done? then onOk else onErr, a, r.0, r.1),
                    ForetellHook(c, i, h, if q.0.None? then onOk else onErr, a, q.0, q.1))
    decreases |c.hooks| - i, |c.hooks[i]| - h, 0, Next(target, onOk, onErr), 0
  {
    FilledIsPictured(s, k.built, i);
    var b := Resolve(target, a, |s.muts|);
    ChainFollows(c, i, h + 1, b, s, k);
    var r, q := RunMutator(c, i, h + 1, b, s), Foretell(c, i, h + 1, b, k);
    HookFollows(c, i, h, if r.0.Done? then onOk else onErr, a, r.0, q.0, r.1, q.1);
  }

  lemma {:induction false} ClosureFollows(c: Bulk, i: nat, a: Arg, s: State, k: Sketch)
    requires Drawn(c, s, k) && i < |c.hooks| && InPool(a, s) && FilledTo(s, i)
    ensures Fit(c, k, i) && Follows(c, RunClosure(c, i, a, s), ForetellClosure(c, i, a, k))
    decreases |c.hooks| - i, 0, 0
  {
    FilledIsPictured(s, k.built, i);
    if a.Own? && Check(s.muts[s.current[i]].values).None? {
      var t := FillSlot(c, i, a.mutation, s);
      CheckedFollows(c, i, a.mutation, s, k);
      CheckedClosure(c, i, a.mutation, s, t, RunInside(c, i, t));
    }
  }

  lemma {:induction false} CheckedFollows(c: Bulk, i: nat, m: nat, s: State, k: Sketch)
    requires Drawn(c, s, k) && i < |c.hooks| && m < |s.muts| && FilledTo(s, i)
    ensures Fit(c, k, i)
    ensures var t := FillSlot(c, i, m, s);
            Follows(c, Finish(c, i, m, t, RunInside(c, i, t)), Concluded(i, ForetellInside(c, i, Rebuilt(k, i, m))))
    decreases |c.hooks| - i - 1, 2 + if i + 1 < |c.hooks| then |c.hooks[i + 1]| else 0
  {
    FilledIsPictured(s, k.built, i);
    var t, u := FillSlot(c, i, m, s), Rebuilt(k, i, m);
    DrawnFill(c, s, k, i, m);
    InsideFollows(c, i, t, u);
    FinishFollows(c, i, m, t, RunInside(c, i, t), ForetellInside(c, i, u));
  }

  lemma {:induction false} InsideFollows(c: Bulk, i: nat, s: State, k: Sketch)
    requires Drawn(c, s, k) && i < |c.hooks| && FilledTo(s, i + 1)
    ensures Fit(c, k, i + 1) && Follows(c, RunInside(c, i, s), ForetellInside(c, i, k))
    decreases |c.hooks| - i - 1, 1 + if i + 1 < |c.hooks| then |c.hooks[i + 1]| else 0
  {
    FilledIsPictured(s, k.built, i + 1);
    if i + 1 < |c.hooks| {
      ChainFollows(c, i + 1, 0, Own(s.current[i + 1]), s, k);
    } else {
      DrawnInsert(c, s, k);
    }
  }

  lemma FinishFollows(c: Bulk, i: nat, m: nat, t: State, r: (Outcome, State), q: (Report, Sketch))
    requires i < |c.hooks| && m < |t.muts| && FilledTo(t, i + 1) && i < |t.current| && t.current[i] == m
    requires Follows(c, r, q) && Within(i + 1, t, r.1)
    ensures Follows(c, Finish(c, i, m, t, r), Concluded(i, q))
  {
    assert r.1.slots[i] == r.1.slots[..i + 1][i] == t.slots[..i + 1][i] == t.slots[i];
    assert r.1.current[i] == r.1.current[..i + 1][i] == t.current[..i + 1][i];
    if r.0.Done? { DrawnComplete(c, r.1, q.1, i, m); }
  }

  // ---------- the store has no part in it until there is an insert ----------

  /** A run of the sketch without an insert is the same whatever the store. */
  lemma {:induction false} StoreHasNoPart(c: Bulk, d: Bulk, i: nat, h: nat, a: Arg, k: Sketch)
    requires c.hooks == d.hooks
    requires i < |c.hooks| && h <= |c.hooks[i]| && Fit(c, k, i) && Refers(a, |k.values|)
    requires Foretell(c, i, h, a, k).1.inserts == k.inserts
    ensures Foretell(d, i, h, a, k) == Foretell(c, i, h, a, k)
    decreases |c.hooks| - i, |c.hooks[i]| - h, 1
  {
    if h < |c.hooks[i]| {
      StoreHasNoPartHook(c, d, i, h, c.hooks[i][h], a, None, k);
    } else {
      StoreHasNoPartClosure(c, d, i, a, k);
    }
  }

  lemma {:induction false} StoreHasNoPartClosure(c: Bulk, d: Bulk, i: nat, a: Arg, k: Sketch)
    requires c.hooks == d.hooks && i < |c.hooks| && Fit(c, k, i) && Refers(a, |k.values|)
    requires ForetellClosure(c, i, a, k).1.inserts == k.inserts
    ensures ForetellClosure(d, i, a, k) == ForetellClosure(c, i, a, k)
    decreases |c.hooks| - i, 0, 0
  {
    if a.Own? && Check(k.values[k.current[i]]).None? {
      StoreHasNoPartInside(c, d, i, Rebuilt(k, i, a.mutation));
    }
  }

  lemma {:induction false} StoreHasNoPartInside(c: Bulk, d: Bulk, i: nat, k: Sketch)
    requires c.hooks == d.hooks && i < |c.hooks| && Fit(c, k, i + 1)
    requires ForetellInside(c, i, k).1.inserts == k.inserts
    ensures ForetellInside(d, i, k) == ForetellInside(c, i, k)
    decreases |c.hooks| - i - 1, 1 + if i + 1 < |c.hooks| then |c.hooks[i + 1]| else 0
  {
    assert |Offered(c, k).1.inserts| == |k.inserts| + 1;
    if i + 1 < |c.hooks| { StoreHasNoPart(c, d, i + 1, 0, Own(k.current[i + 1]), k); }
  }

  lemma {:induction false} StoreHasNoPartHook(c: Bulk, d: Bulk, i: nat, h: nat, p: Hook, a: Arg, last: Report,
                                              k: Sketch)
    requires c.hooks == d.hooks
    requires i < |c.hooks| && h < |c.hooks[i]| && Fit(c, k, i) && Refers(a, |k.values|)
    requires ForetellHook(c, i, h, p, a, last, k).1.inserts == k.inserts
    ensures ForetellHook(d, i, h, p, a, last, k) == ForetellHook(c, i, h, p, a, last, k)
    decreases |c.hooks| - i, |c.hooks[i]| - h, 0, p
  {
    match p {
      case Return(_) =>
      case Edit(change, rest) => StoreHasNoPartHook(c, d, i, h, rest, a, last, Revised(k, a, change));
      case If(test, yes, no) =>
        StoreHasNoPartHook(c, d, i, h, if test(Visible(k, a)) then yes else no, a, last, k);
      case Next(target, onOk, onErr) =>
        var b := Resolve(target, a, |k.values|);
        var r := Foretell(c, i, h + 1, b, k);
        assert k.inserts <= r.1.inserts <= ForetellHook(c, i, h, p, a, last, k).1.inserts;
        StoreHasNoPart(c, d, i, h + 1, b, k);
        StoreHasNoPartHook(c, d, i, h, if r.0.None? then onOk else onErr, a, r.0, r.1);
    }
  }

  // ---------- Save ----------

  /** The sketch from which Save starts, with values as defaults leave them. */
  function Outset(c: Bulk, clock: nat -> Times, s: State): (k: Sketch)
    requires Wf(c, s)
    ensures Fit(c, k, 0)
  {
    Sketch(Worth(WithDefaults(s, clock, |c.hooks|)), s.current, [], [], false, {})
  }

  function Foretold(c: Bulk, clock: nat -> Times, s: State): (r: (Report, Sketch))
    requires Wf(c, s) && |c.hooks| > 0
  {
    Foretell(c, 0, 0, Own(s.current[0]), Outset(c, clock, s))
  }

  ghost predicate Starting(c: Bulk, s: State) {
    s == Start(s.muts, s.current) && Wf(c, s) && |c.hooks| > 0
  }

  /** Save does what the sketch foretells: the same result, the same batches in order, and exactly the
      first nodes that were built. */
  ghost predicate AsForetold(c: Bulk, q: (Report, Sketch), r: (Result<seq<Option<nat>>, SaveError>, State)) {
    && r.0 == (if q.0.None? then Ok(r.1.slots) else Err(q.0.value))
    && Drawn(c, r.1, q.1)
  }

  lemma OutsetIsDrawn(c: Bulk, clock: nat -> Times, s: State)
    requires Starting(c, s)
    ensures Drawn(c, WithDefaults(s, clock, |c.hooks|), Outset(c, clock, s))
  {
    assert Plans([]) == [];
  }

  lemma SaveIsForetold(c: Bulk, clock: nat -> Times, s: State)
    requires Starting(c, s)
    ensures AsForetold(c, Foretold(c, clock, s), Save(c, clock, None, s))
  {
    OutsetIsDrawn(c, clock, s);
    ChainFollows(c, 0, 0, Own(s.current[0]), WithDefaults(s, clock, |c.hooks|), Outset(c, clock, s));
  }

  ghost predicate AllChecked(w: seq<Values>) {
    forall k :: 0 <= k < |w| ==> Check(w[k]) == None
  }

  /** The nodes array has a nil entry. */
  ghost predicate HasHole(s: State) {
    exists k :: 0 <= k < |s.slots| && s.slots[k].None?
  }

  ghost predicate ValidBatch(b: Batch) {
    forall k :: 0 <= k < |b| ==> ValidEntries(b[k])
  }

  ghost predicate AllValid(bs: seq<Batch>) {
    forall j :: 0 <= j < |bs| ==> ValidBatch(bs[j])
  }

  lemma AllValidSnoc(bs: seq<Batch>, b: Batch)
    ensures AllValid(bs + [b]) <==> AllValid(bs) && ValidBatch(b)
  {
    assert forall j :: 0 <= j < |bs| ==> (bs + [b])[j] == bs[j];
    assert (bs + [b])[|bs|] == b;
  }

  lemma {:induction false} ValidByBatches(log: seq<Event>)
    ensures ValidInserts(log) <==> AllValid(Batches(log))
  {
    if log != [] {
      var n := |log| - 1;
      ValidByBatches(log[..n]);
      LastEventDecides(log);
      if log[n].Insert? {
        AllValidSnoc(Batches(log[..n]), log[n].batch);
      } else {
        assert Batches(log) == Batches(log[..n]);
      }
    }
  }

  lemma LastEventDecides(log: seq<Event>)
    requires log != []
    ensures var n := |log| - 1;
            ValidInserts(log) <==> ValidInserts(log[..n]) && (log[n].Insert? ==> ValidBatch(log[n].batch))
  {
    var n := |log| - 1;
    var init := log[..n];
    assert forall j :: 0 <= j < n ==> init[j] == log[j];
    if ValidInserts(log) {
      forall j, k | 0 <= j < n && init[j].Insert? && 0 <= k < |init[j].batch| ensures ValidEntries(init[j].batch[k]) {
        assert log[j] == init[j];
      }
    }
    if ValidInserts(init) && (log[n].Insert? ==> ValidBatch(log[n].batch)) {
      forall j, k | 0 <= j < |log| && log[j].Insert? && 0 <= k < |log[j].batch| ensures ValidEntries(log[j].batch[k]) {
        if j < n { assert init[j] == log[j]; }
      }
    }
  }

  lemma PlanIsValidIff(w: seq<Values>)
    ensures ValidBatch(Plan(w)) <==> AllChecked(w)
  {
    forall k | 0 <= k < |w| ensures ValidEntries(Plan(w)[k]) <==> Check(w[k]) == None {
      ValidIffChecked(w[k]);
    }
  }

  lemma PlansAreValidIff(ws: seq<seq<Values>>)
    ensures AllValid(Plans(ws)) <==> forall j :: 0 <= j < |ws| ==> AllChecked(ws[j])
  {
    forall j | 0 <= j < |ws| ensures ValidBatch(Plans(ws)[j]) <==> AllChecked(ws[j]) {
      PlanIsValidIff(ws[j]);
    }
  }

  /** The exact condition for valid inserts, whatever the hooks do: every spec that Save inserts has all
      required fields and passes both validators if and only if the values of each foretold insert would
      pass the check. */
  lemma InsertsAreValidIff(c: Bulk, clock: nat -> Times, s: State)
    requires Starting(c, s)
    ensures var ws := Foretold(c, clock, s).1.inserts;
            ValidInserts(Save(c, clock, None, s).1.log) <==> forall j :: 0 <= j < |ws| ==> AllChecked(ws[j])
  {
    SaveIsForetold(c, clock, s);
    ValidByBatches(Save(c, clock, None, s).1.log);
    PlansAreValidIff(Foretold(c, clock, s).1.inserts);
  }

  /** The same bulk on a store that takes nothing. */
  function Unplugged(c: Bulk): Bulk {
    c.(driver := (_, _) => Rejected(0, false))
  }

  /** Whether there will be an insert can be foretold without the store. */
  lemma ForetoldUnplugged(c: Bulk, clock: nat -> Times, s: State)
    requires Starting(c, s)
    ensures Wf(Unplugged(c), s)
    ensures var q, u := Foretold(c, clock, s), Foretold(Unplugged(c), clock, s);
            (q.1.inserts == [] <==> u.1.inserts == []) && (u.1.inserts == [] ==> q == u)
  {
    var k := Outset(c, clock, s);
    assert k == Outset(Unplugged(c), clock, s);
    if Foretold(c, clock, s).1.inserts == [] {
      StoreHasNoPart(c, Unplugged(c), 0, 0, Own(s.current[0]), k);
    }
    if Foretold(Unplugged(c), clock, s).1.inserts == [] {
      StoreHasNoPart(Unplugged(c), c, 0, 0, Own(s.current[0]), k);
    }
  }

  lemma HoleIffNoInsert(c: Bulk, clock: nat -> Times, s: State)
    requires Starting(c, s)
    ensures HasHole(Save(c, clock, None, s).1) <==> Inserts(Save(c, clock, None, s).1.log) == 0
  {
    SaveWithAnyHooks(c, clock, s.muts, s.current);
  }

  /** The exact condition for nil nodes, whatever the hooks do, and without the store: some node is nil
      if and only if no insert is foretold, and then the result of Save is the foretold one; so Save
      reports success with a nil node if and only if the sketch succeeds without an insert. */
  lemma HolesIff(c: Bulk, clock: nat -> Times, s: State)
    requires Starting(c, s)
    ensures Wf(Unplugged(c), s)
    ensures var u, r := Foretold(Unplugged(c), clock, s), Save(c, clock, None, s);
            && (HasHole(r.1) <==> u.1.inserts == [])
            && (r.0.Ok? && HasHole(r.1) <==> u.0.None? && u.1.inserts == [])
            && (HasHole(r.1) && r.0.Err? ==> u.0 == Some(r.0.error))
  {
    ForetoldUnplugged(c, clock, s);
    SaveIsForetold(c, clock, s);
    HoleIffNoInsert(c, clock, s);
  }

  /** The store took the last insert, and after it every builder completed and none was built again. */
  ghost predicate Through(c: Bulk, log: seq<Event>) {
    TallyOf(c, log).stored && forall k :: 0 <= k < |c.hooks| ==> k in TallyOf(c, log).completed
  }

  lemma ThroughSucceeds(c: Bulk, s: State, k: Sketch)
    requires Drawn(c, s, k) && Through(c, s.log)
    ensures Succeeded(c, 0, s)
  {
    var ids :| LastBatchStored(c, s, ids) && Carry(c, s, ids, k.completed);
    assert Identified(c, 0, s, ids);
  }

  /** The exact condition for real success, whatever the hooks do, given the answers of the store: the
      run got through if and only if the sketch says so; and then the last batch is what the slots
      hold, the nodes carry its IDs and every mutation is done. Without an insert it never did. */
  lemma SuccessIsRealIff(c: Bulk, clock: nat -> Times, s: State)
    requires Starting(c, s)
    ensures var q, r := Foretold(c, clock, s), Save(c, clock, None, s);
            && (r.0.Ok? <==> q.0.None?)
            && (Through(c, r.1.log) <==> q.1.stored && forall k :: 0 <= k < |c.hooks| ==> k in q.1.completed)
            && (Through(c, r.1.log) ==> Succeeded(c, 0, r.1))
            && (q.1.inserts == [] ==> !Succeeded(c, 0, r.1))
  {
    SaveIsForetold(c, clock, s);
    var q, t := Foretold(c, clock, s), Save(c, clock, None, s).1;
    if Through(c, t.log) { ThroughSucceeds(c, t, q.1); }
    assert q.1.inserts == [] ==> Batches(t.log) == [];
  }

  // ---------- substituted mutations ----------

  predicate PassesOn(p: Hook) {
    p.Return? && p.reply.PassThrough?
  }

  /** The hook does nothing but call next once, with any target, and pass the answer on. */
  predicate Redirects(p: Hook) {
    p.Next? && PassesOn(p.onOk) && PassesOn(p.onErr)
  }

  predicate AllRedirect(hs: seq<Hook>) {
    forall h :: 0 <= h < |hs| ==> Redirects(hs[h])
  }

  /** The mutation that arrives at the closure behind hooks h.. of a builder, out of n mutations. */
  function Reached(hs: seq<Hook>, h: nat, a: Arg, n: nat): (b: Arg)
    requires h <= |hs| && Refers(a, n) && AllRedirect(hs)
    ensures Refers(b, n)
    decreases |hs| - h
  {
    if h == |hs| then a else Reached(hs, h + 1, Resolve(hs[h].target, a, n), n)
  }

  /** A hook that calls next once and passes the answer on is foretold like the mutator it wraps. */
  lemma PassedOn(c: Bulk, i: nat, h: nat, a: Arg, k: Sketch)
    requires i < |c.hooks| && h < |c.hooks[i]| && Fit(c, k, i) && Refers(a, |k.values|) && Redirects(c.hooks[i][h])
    ensures Foretell(c, i, h, a, k) == Foretell(c, i, h + 1, Resolve(c.hooks[i][h].target, a, |k.values|), k)
  {
    var p := c.hooks[i][h];
    var r := Foretell(c, i, h + 1, Resolve(p.target, a, |k.values|), k);
    assert ForetellHook(c, i, h, if r.0.None? then p.onOk else p.onErr, a, r.0, r.1) == r;
    assert ForetellHook(c, i, h, p, a, None, k) == r;
  }

  lemma {:induction false} RedirectedHooks(c: Bulk, i: nat, h: nat, a: Arg, k: Sketch)
    requires i < |c.hooks| && h <= |c.hooks[i]| && Fit(c, k, i) && Refers(a, |k.values|) && AllRedirect(c.hooks[i])
    ensures Foretell(c, i, h, a, k) == ForetellClosure(c, i, Reached(c.hooks[i], h, a, |k.values|), k)
    decreases |c.hooks[i]| - h
  {
    if h < |c.hooks[i]| {
      PassedOn(c, i, h, a, k);
      RedirectedHooks(c, i, h + 1, Resolve(c.hooks[i][h].target, a, |k.values|), k);
    }
  }

  /** What arrives at the closure of a builder with these hooks and its own mutation m; of interest
      when Arrives holds. */
  function Delivered(hs: seq<Hook>, m: nat, v: seq<Values>): Values {
    if m < |v| && AllRedirect(hs) && Reached(hs, 0, Own(m), |v|).Own?
    then v[Reached(hs, 0, Own(m), |v|).mutation] else map[]
  }

  /** The builder passes its check and its closure gets some API key mutation. */
  predicate Arrives(hs: seq<Hook>, m: nat, v: seq<Values>) {
    m < |v| && AllRedirect(hs) && Reached(hs, 0, Own(m), |v|).Own? && Check(v[m]) == None
  }

  predicate AllArrive(hooks: seq<seq<Hook>>, v: seq<Values>, current: seq<nat>) {
    |hooks| == |current| && forall k :: 0 <= k < |hooks| ==> Arrives(hooks[k], current[k], v)
  }

  function DeliveredFrom(hooks: seq<seq<Hook>>, i: nat, v: seq<Values>, current: seq<nat>): (w: seq<Values>)
    requires i <= |hooks| == |current|
    ensures |w| == |hooks| - i
    ensures forall j :: 0 <= j < |w| ==> w[j] == Delivered(hooks[i + j], current[i + j], v)
  {
    seq(|hooks| - i, j requires 0 <= j < |hooks| - i => Delivered(hooks[i + j], current[i + j], v))
  }

  lemma DeliveredNext(hooks: seq<seq<Hook>>, i: nat, v: seq<Values>, current: seq<nat>, m: nat)
    requires i < |hooks| == |current|
    ensures DeliveredFrom(hooks, i, v, current)
         == [Delivered(hooks[i], current[i], v)] + DeliveredFrom(hooks, i + 1, v, current[i := m])
  {
    var w := [Delivered(hooks[i], current[i], v)] + DeliveredFrom(hooks, i + 1, v, current[i := m]);
    forall j | 0 <= j < |w| ensures w[j] == Delivered(hooks[i + j], current[i + j], v) {
      if j > 0 { assert current[i := m][i + 1 + (j - 1)] == current[i + j]; }
    }
  }

  lemma {:induction false} RedirectedChain(c: Bulk, i: nat, k: Sketch)
    requires i < |c.hooks| && Fit(c, k, i)
    requires forall j :: i <= j < |c.hooks| ==> Arrives(c.hooks[j], k.current[j], k.values)
    ensures Foretell(c, i, 0, Own(k.current[i]), k).1.inserts
         == k.inserts + [k.built[..i] + DeliveredFrom(c.hooks, i, k.values, k.current)]
    decreases |c.hooks| - i
  {
    var m := Reached(c.hooks[i], 0, Own(k.current[i]), |k.values|).mutation;
    var t, v := Rebuilt(k, i, m), Delivered(c.hooks[i], k.current[i], k.values);
    var rest := DeliveredFrom(c.hooks, i + 1, k.values, t.current);
    RedirectedHooks(c, i, 0, Own(k.current[i]), k);
    DeliveredNext(c.hooks, i, k.values, k.current, m);
    assert t.built[..i + 1] == k.built[..i] + [v];
    assert k.built[..i] + ([v] + rest) == t.built[..i + 1] + rest;
    if i + 1 < |c.hooks| {
      RedirectedChain(c, i + 1, t);
    } else {
      assert rest == [] && t.built[..i + 1] + rest == t.built;
    }
    assert ForetellInside(c, i, t).1.inserts == k.inserts + [t.built[..i + 1] + rest];
  }

  /** Hooks that hand on other mutations make the closures insert values that were never checked. If
      every builder passes its own check and every hook, at any builder and in any position, calls
      next once with any target, then there is exactly one insert, its k-th spec is built from the
      mutation that arrives at closure k, and the inserted specs are valid if and only if the values
      of all the mutations that arrive would pass the check. */
  lemma SubstitutionEscapesCheck(c: Bulk, clock: nat -> Times, s: State)
    requires Starting(c, s)
    ensures var v := Worth(WithDefaults(s, clock, |c.hooks|));
            var w := DeliveredFrom(c.hooks, 0, v, s.current);
            var log := Save(c, clock, None, s).1.log;
            AllArrive(c.hooks, v, s.current) ==> Batches(log) == [Plan(w)] && (ValidInserts(log) <==> AllChecked(w))
  {
    var v := Worth(WithDefaults(s, clock, |c.hooks|));
    if AllArrive(c.hooks, v, s.current) {
      RedirectedChain(c, 0, Outset(c, clock, s));
      SaveIsForetold(c, clock, s);
      OneInsert(c, Save(c, clock, None, s).1, Foretold(c, clock, s).1, DeliveredFrom(c.hooks, 0, v, s.current));
    }
  }

  lemma OneInsert(c: Bulk, s: State, k: Sketch, w: seq<Values>)
    requires Drawn(c, s, k) && k.inserts == [] + [[] + w]
    ensures Batches(s.log) == [Plan(w)] && (ValidInserts(s.log) <==> AllChecked(w))
  {
    assert [] + w == w;
    assert Plans(k.inserts) == [Plan(w)];
    ValidByBatches(s.log);
    PlanIsValidIff(w);
    assert Batches(s.log)[0] == Plan(w);
  }

  /** The smallest case, from any state: the last hook of the last builder hands on mutation m. */
  lemma LastSubstitutionEscapesCheck(c: Bulk, i: nat, h: nat, s: State, m: nat)
    requires Wf(c, s) && i + 1 == |c.hooks| && FilledTo(s, i) && m < |s.muts|
    requires h + 1 == |c.hooks[i]| && c.hooks[i][h] == Next(Substitute(m), Return(PassThrough), Return(PassThrough))
    requires Check(s.muts[s.current[i]].values) == None
    ensures var batch := Kept(s, i) + [Entries(s.muts[m].values)];
            && Batches(RunMutator(c, i, h, Own(s.current[i]), s).1.log) == Batches(s.log) + [batch]
            && (ValidEntries(batch[i]) <==> Check(s.muts[m].values) == None)
  {
    var t := Log(s, Enter(i, h));
    var r := RunClosure(c, i, Own(m), t);
    LastMutator(c, i, Own(m), t);
    SubstitutingHook(c, i, h, s, m, r);
    LastClosureInserts(c, i, m, t);
    BatchesBetween(c, i, h, s, r);
    ValidIffChecked(s.muts[m].values);
  }

  lemma BatchesBetween(c: Bulk, i: nat, h: nat, s: State, r: (Outcome, State))
    requires Wf(c, s) && FilledTo(s, i)
    ensures Batches(Log(s, Enter(i, h)).log) == Batches(s.log) && Kept(Log(s, Enter(i, h)), i) == Kept(s, i)
    ensures Batches(Log(r.1, Leave(i, h)).log) == Batches(r.1.log)
  {
    BatchesSnoc(s.log, Enter(i, h));
    BatchesSnoc(r.1.log, Leave(i, h));
  }

  lemma SubstitutingHook(c: Bulk, i: nat, h: nat, s: State, m: nat, r: (Outcome, State))
    requires Wf(c, s) && i < |c.hooks| && h < |c.hooks[i]| && FilledTo(s, i) && m < |s.muts|
    requires c.hooks[i][h] == Next(Substitute(m), Return(PassThrough), Return(PassThrough))
    requires r == RunMutator(c, i, h + 1, Own(m), Log(s, Enter(i, h)))
    ensures RunMutator(c, i, h, Own(s.current[i]), s) == (r.0, Log(r.1, Leave(i, h)))
  {
    PassingHook(c, i, h, Substitute(m), Own(s.current[i]), Log(s, Enter(i, h)), r);
    EnterAndLeave(c, i, h, Own(s.current[i]), s, r);
  }

  /** A hook that calls next once and passes the answer on is the mutator it wraps. */
  lemma PassingHook(c: Bulk, i: nat, h: nat, target: Target, a: Arg, s: State, r: (Outcome, State))
    requires Wf(c, s) && i < |c.hooks| && h < |c.hooks[i]| && InPool(a, s) && FilledTo(s, i)
    requires r == RunMutator(c, i, h + 1, Resolve(target, a, |s.muts|), s)
    ensures RunHook(c, i, h, Next(target, Return(PassThrough), Return(PassThrough)), a, Done(NilValue), s) == r
  {
  }

  lemma EnterAndLeave(c: Bulk, i: nat, h: nat, a: Arg, s: State, r: (Outcome, State))
    requires Wf(c, s) && i < |c.hooks| && h < |c.hooks[i]| && InPool(a, s) && FilledTo(s, i)
    requires r == RunHook(c, i, h, c.hooks[i][h], a, Done(NilValue), Log(s, Enter(i, h)))
    ensures RunMutator(c, i, h, a, s) == (r.0, Log(r.1, Leave(i, h)))
  {
  }

  /** What the slots before i contribute to a batch. */
  function Kept(s: State, i: nat): (b: Batch)
    requires FilledTo(s, i) && forall k :: 0 <= k < i ==> s.slots[k].value < |s.drafts|
    ensures |b| == i && forall k :: 0 <= k < i ==> b[k] == s.drafts[s.slots[k].value].entries
  {
    seq(i, k requires 0 <= k < i => s.drafts[s.slots[k].value].entries)
  }

  lemma LastClosureInserts(c: Bulk, i: nat, m: nat, s: State)
    requires Wf(c, s) && i + 1 == |c.hooks| && FilledTo(s, i) && m < |s.muts|
    requires Check(s.muts[s.current[i]].values) == None
    ensures Batches(RunClosure(c, i, Own(m), s).1.log)
         == Batches(s.log) + [Kept(s, i) + [Entries(s.muts[m].values)]]
  {
    var t, entries := FillSlot(c, i, m, s), Entries(s.muts[m].values);
    BatchesOfFill(c, i, m, s);
    assert BatchOf(t) == Kept(s, i) + [entries];
    var r := RunInsert(c, t);
    BatchesSnoc(t.log, Insert(BatchOf(t)));
    BatchesOfFinish(c, i, m, t, r);
    assert RunInside(c, i, t) == r;
    CheckedClosure(c, i, m, s, t, r);
  }

  // ---------- successes that are none ----------

  /** A hook that answers without calling next makes Save report success with nothing stored and
      every position of the result nil, for any number of builders and whatever the other hooks. */
  lemma SilentVetoLeavesHoles(c: Bulk, clock: nat -> Times, s: State, tag: int)
    requires Starting(c, s) && |c.hooks[0]| > 0 && c.hooks[0][0] == Return(ReplyValue(tag))
    ensures AllNil(Save(c, clock, None, s))
  {
    SaveIsForetold(c, clock, s);
    SilentAnswer(c, Own(s.current[0]), Outset(c, clock, s), tag);
    NothingForetold(c, Outset(c, clock, s), Save(c, clock, None, s));
  }

  lemma SilentAnswer(c: Bulk, a: Arg, k: Sketch, tag: int)
    requires |c.hooks| > 0 && Fit(c, k, 0) && Refers(a, |k.values|)
    requires |c.hooks[0]| > 0 && c.hooks[0][0] == Return(ReplyValue(tag))
    ensures Foretell(c, 0, 0, a, k) == (None, k)
  {
    assert ForetellHook(c, 0, 0, c.hooks[0][0], a, None, k) == (None, k);
  }

  /** So does a hook that calls next and turns its error into an answer, when the first builder fails
      its check. */
  lemma RecoveredFaultLeavesHoles(c: Bulk, clock: nat -> Times, s: State, tag: int)
    requires Starting(c, s)
    requires c.hooks[0] == [Next(Received, Return(PassThrough), Return(ReplyValue(tag)))]
    requires Check(Worth(WithDefaults(s, clock, |c.hooks|))[s.current[0]]).Some?
    ensures AllNil(Save(c, clock, None, s))
  {
    SaveIsForetold(c, clock, s);
    RecoveredFault(c, Own(s.current[0]), Outset(c, clock, s), tag);
    NothingForetold(c, Outset(c, clock, s), Save(c, clock, None, s));
  }

  lemma RecoveredFault(c: Bulk, a: Arg, k: Sketch, tag: int)
    requires |c.hooks| > 0 && Fit(c, k, 0) && Refers(a, |k.values|) && a.Own?
    requires c.hooks[0] == [Next(Received, Return(PassThrough), Return(ReplyValue(tag)))]
    requires Check(k.values[k.current[0]]).Some?
    ensures Foretell(c, 0, 0, a, k) == (None, k)
  {
    var p := c.hooks[0][0];
    var r := Foretell(c, 0, 1, a, k);
    assert r == ForetellClosure(c, 0, a, k);
    assert ForetellHook(c, 0, 0, p.onErr, a, r.0, k) == (None, k);
    assert ForetellHook(c, 0, 0, p, a, None, k) == (None, k);
  }

  lemma NothingForetold(c: Bulk, k: Sketch, r: (Result<seq<Option<nat>>, SaveError>, State))
    requires AsForetold(c, (None, k), r) && k.built == [] && k.inserts == []
    ensures AllNil(r)
  {
    assert Batches(r.1.log) == [];
  }

  /** A hook that vetoes makes Save report its error, and nothing is inserted. */
  lemma VetoIsReported(c: Bulk, clock: nat -> Times, s: State, code: int)
    requires Starting(c, s) && |c.hooks[0]| > 0 && c.hooks[0][0] == Return(Veto(code))
    ensures var r := Save(c, clock, None, s);
            r.0 == Err(HookError(code)) && Inserts(r.1.log) == 0 && HasHole(r.1)
  {
    SaveIsForetold(c, clock, s);
    HoleIffNoInsert(c, clock, s);
    VetoForetold(c, Own(s.current[0]), Outset(c, clock, s), code);
  }

  lemma VetoForetold(c: Bulk, a: Arg, k: Sketch, code: int)
    requires |c.hooks| > 0 && Fit(c, k, 0) && Refers(a, |k.values|)
    requires |c.hooks[0]| > 0 && c.hooks[0][0] == Return(Veto(code))
    ensures Foretell(c, 0, 0, a, k) == (Some(HookError(code)), k)
  {
    assert ForetellHook(c, 0, 0, c.hooks[0][0], a, None, k) == (Some(HookError(code)), k);
  }

  /** A hook that hands on a mutation of another type makes Save report just that, before any check,
      and nothing is inserted. */
  lemma WrongTypeIsReported(c: Bulk, clock: nat -> Times, s: State)
    requires Starting(c, s)
    requires c.hooks[0] == [Next(OtherType, Return(PassThrough), Return(PassThrough))]
    ensures var r := Save(c, clock, None, s);
            r.0 == Err(WrongMutationType) && Inserts(r.1.log) == 0 && HasHole(r.1)
  {
    SaveIsForetold(c, clock, s);
    HoleIffNoInsert(c, clock, s);
    WrongTypeForetold(c, Own(s.current[0]), Outset(c, clock, s));
  }

  lemma WrongTypeForetold(c: Bulk, a: Arg, k: Sketch)
    requires |c.hooks| > 0 && Fit(c, k, 0) && Refers(a, |k.values|)
    requires c.hooks[0] == [Next(OtherType, Return(PassThrough), Return(PassThrough))]
    ensures Foretell(c, 0, 0, a, k) == (Some(WrongMutationType), k)
  {
    PassedOn(c, 0, 0, a, k);
    assert Foretell(c, 0, 1, Alien, k) == ForetellClosure(c, 0, Alien, k);
  }

  ghost predicate AllNil(r: (Result<seq<Option<nat>>, SaveError>, State)) {
    && r.0 == Ok(r.1.slots) && Inserts(r.1.log) == 0
    && forall k :: 0 <= k < |r.1.slots| ==> r.1.slots[k] == None
  }
}
