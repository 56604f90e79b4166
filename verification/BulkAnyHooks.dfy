/** What holds of the bulk-create chain whatever its hooks do. */
module BulkAnyHooks {
  import opened Schema
  import opened Create
  import opened BulkModel

  // ---------- every batch insert is full ----------

  /** The entries most recently built for builder k. */
  function LastBuilt(log: seq<Event>, k: nat): Option<seq<FieldSpec>> {
    if log == [] then None
    else
      var e := log[|log| - 1];
      if e.Built? && e.i == k then Some(e.entries) else LastBuilt(log[..|log| - 1], k)
  }

  /** Every insert in the log got one spec per builder, the k-th being the one builder k built last
      before that insert. */
  ghost predicate InsertsAreFull(n: nat, log: seq<Event>) {
    forall j :: 0 <= j < |log| && log[j].Insert? ==> FullBatch(n, log[..j], log[j].batch)
  }

  ghost predicate FullBatch(n: nat, before: seq<Event>, batch: Batch) {
    |batch| == n && forall k :: 0 <= k < n ==> LastBuilt(before, k) == Some(batch[k])
  }

  /** The filled slots hold what the log says was built last. */
  ghost predicate Tracked(c: Bulk, s: State) {
    && Wf(c, s)
    && (forall k :: 0 <= k < |s.slots| && s.slots[k].Some? ==>
          LastBuilt(s.log, k) == Some(s.drafts[s.slots[k].value].entries))
    && InsertsAreFull(|c.hooks|, s.log)
  }

  lemma TrackedLog(c: Bulk, s: State, e: Event)
    requires Tracked(c, s) && !e.Built?
    requires e.Insert? ==> FullBatch(|c.hooks|, s.log, e.batch)
    ensures Tracked(c, Log(s, e))
  {
    var t := Log(s, e);
    assert t.log[..|t.log| - 1] == s.log;
    forall j | 0 <= j < |t.log| && t.log[j].Insert?
      ensures FullBatch(|c.hooks|, t.log[..j], t.log[j].batch)
    {
      assert t.log[..j] == s.log[..j];
    }
  }

  lemma TrackedFill(c: Bulk, i: nat, m: nat, s: State)
    requires Tracked(c, s) && i < |c.hooks| && m < |s.muts| && FilledTo(s, i)
    ensures Tracked(c, FillSlot(c, i, m, s))
  {
    var t := FillSlot(c, i, m, s);
    var built := Built(i, Entries(s.muts[m].values));
    assert t.log == s.log + [Checked(i)] + [built];
    assert t.log[..|t.log| - 1] == s.log + [Checked(i)];
    assert (s.log + [Checked(i)])[..|s.log|] == s.log;
    forall k: nat ensures LastBuilt(t.log, k) == if k == i then Some(built.entries) else LastBuilt(s.log, k) {}
    forall j | 0 <= j < |t.log| && t.log[j].Insert?
      ensures FullBatch(|c.hooks|, t.log[..j], t.log[j].batch)
    {
      assert t.log[..j] == s.log[..j];
    }
  }

  lemma {:induction false} IDsKeepEntries(drafts: seq<Draft>, slots: seq<Option<nat>>, ids: nat -> int, k: nat)
    requires k <= |slots| && forall j :: 0 <= j < k ==> slots[j].Some? && slots[j].value < |drafts|
    ensures forall d :: 0 <= d < |drafts| ==> WriteIDs(drafts, slots, ids, k)[d].entries == drafts[d].entries
    ensures forall d :: 0 <= d < |drafts| ==> WriteIDs(drafts, slots, ids, k)[d].node == drafts[d].node
  {
    if k > 0 { IDsKeepEntries(drafts, slots, ids, k - 1); }
  }

  lemma TrackedInsert(c: Bulk, s: State)
    requires Tracked(c, s) && FilledTo(s, |c.hooks|)
    ensures Tracked(c, RunInsert(c, s).1)
  {
    var batch := BatchOf(s);
    assert FullBatch(|c.hooks|, s.log, batch);
    TrackedLog(c, s, Insert(batch));
    match c.driver(Inserts(s.log), batch) {
      case Rejected(_, _) =>
      case Stored(ids) => IDsKeepEntries(s.drafts, s.slots, ids, |s.slots|);
    }
  }

  lemma TrackedComplete(c: Bulk, i: nat, m: nat, s: State)
    requires Tracked(c, s) && i < |c.hooks| && m < |s.muts| && s.slots[i].Some?
    ensures Tracked(c, Complete(c, i, m, s))
  {
    var t := Complete(c, i, m, s);
    TrackedLog(c, s, Completed(i));
    assert t.log == Log(s, Completed(i)).log;
    assert forall d :: 0 <= d < |s.drafts| ==> t.drafts[d].entries == s.drafts[d].entries;
  }

  lemma TrackedFinish(c: Bulk, i: nat, m: nat, s: State, r: (Outcome, State))
    requires i < |c.hooks| && m < |s.muts| && FilledTo(s, i + 1)
    requires Tracked(c, r.1) && Within(i + 1, s, r.1)
    ensures Tracked(c, Finish(c, i, m, s, r).1)
  {
    if r.0.Done? {
      assert r.1.slots[i] == r.1.slots[..i + 1][i] == s.slots[..i + 1][i];
      TrackedComplete(c, i, m, r.1);
    }
  }

  /** Whatever each hook does, each time the batch insert is reached every slot is filled, slot k
      with what builder k built last. */
  lemma {:induction false} EveryInsertIsFull(c: Bulk, i: nat, h: nat, a: Arg, s: State)
    requires Tracked(c, s) && i < |c.hooks| && h <= |c.hooks[i]| && InPool(a, s) && FilledTo(s, i)
    ensures Tracked(c, RunMutator(c, i, h, a, s).1)
    decreases |c.hooks| - i, |c.hooks[i]| - h, 1
  {
    if h < |c.hooks[i]| {
      TrackedLog(c, s, Enter(i, h));
      EveryInsertIsFullHook(c, i, h, c.hooks[i][h], a, Done(NilValue), Log(s, Enter(i, h)));
      TrackedLog(c, RunHook(c, i, h, c.hooks[i][h], a, Done(NilValue), Log(s, Enter(i, h))).1, Leave(i, h));
    } else {
      EveryInsertIsFullClosure(c, i, a, s);
    }
  }

  lemma {:induction false} EveryInsertIsFullClosure(c: Bulk, i: nat, a: Arg, s: State)
    requires Tracked(c, s) && i < |c.hooks| && InPool(a, s) && FilledTo(s, i)
    ensures Tracked(c, RunClosure(c, i, a, s).1)
    decreases |c.hooks| - i, 0, 0
  {
    if a.Own? && Check(s.muts[s.current[i]].values).None? {
      var t := FillSlot(c, i, a.mutation, s);
      TrackedFill(c, i, a.mutation, s);
      if i + 1 < |c.hooks| {
        EveryInsertIsFull(c, i + 1, 0, Own(t.current[i + 1]), t);
      } else {
        TrackedInsert(c, t);
      }
      TrackedFinish(c, i, a.mutation, t, RunInside(c, i, t));
      CheckedClosure(c, i, a.mutation, s, t, RunInside(c, i, t));
    }
  }

  lemma {:induction false} EveryInsertIsFullHook(c: Bulk, i: nat, h: nat, p: Hook, a: Arg, last: Outcome, s: State)
    requires Tracked(c, s) && i < |c.hooks| && h < |c.hooks[i]| && InPool(a, s) && FilledTo(s, i)
    ensures Tracked(c, RunHook(c, i, h, p, a, last, s).1)
    decreases |c.hooks| - i, |c.hooks[i]| - h, 0, p
  {
    match p {
      case Return(_) =>
      case Edit(change, rest) =>
        EveryInsertIsFullHook(c, i, h, rest, a, last, EditMut(s, a, change));
      case If(test, yes, no) =>
        EveryInsertIsFullHook(c, i, h, if test(Shown(s, a)) then yes else no, a, last, s);
      case Next(target, onOk, onErr) =>
        var b := Resolve(target, a, |s.muts|);
        EveryInsertIsFull(c, i, h + 1, b, s);
        var r := RunMutator(c, i, h + 1, b, s);
        EveryInsertIsFullHook(c, i, h, if r.0.Done? then onOk else onErr, a, r.0, r.1);
    }
  }

  // ---------- how often the insert can run ----------

  function Max(x: nat, y: nat): nat { if x < y then y else x }

  /** The most calls of the wrapped mutator on any path through a hook. */
  function MaxCalls(p: Hook): nat {
    match p
    case Return(_) => 0
    case Edit(_, rest) => MaxCalls(rest)
    case If(_, yes, no) => Max(MaxCalls(yes), MaxCalls(no))
    case Next(_, onOk, onErr) => 1 + Max(MaxCalls(onOk), MaxCalls(onErr))
  }

  /** The product of MaxCalls over every hook from (i, h) inwards. */
  function CallProduct(c: Bulk, i: nat, h: nat): nat
    requires i < |c.hooks| && h <= |c.hooks[i]|
    decreases |c.hooks| - i, |c.hooks[i]| - h
  {
    if h < |c.hooks[i]| then MaxCalls(c.hooks[i][h]) * CallProduct(c, i, h + 1)
    else if i + 1 < |c.hooks| then CallProduct(c, i + 1, 0)
    else 1
  }

  lemma InsertsSnoc(log: seq<Event>, e: Event)
    ensures Inserts(log + [e]) == Inserts(log) + if e.Insert? then 1 else 0
  {
    BatchesSnoc(log, e);
  }

  lemma BatchesOfFill(c: Bulk, i: nat, m: nat, s: State)
    requires Wf(c, s) && i < |c.hooks| && m < |s.muts| && FilledTo(s, i)
    ensures Batches(FillSlot(c, i, m, s).log) == Batches(s.log)
  {
    var built := Built(i, Entries(s.muts[m].values));
    BatchesSnoc(s.log, Checked(i));
    BatchesSnoc(s.log + [Checked(i)], built);
    assert FillSlot(c, i, m, s).log == s.log + [Checked(i)] + [built];
  }

  /** The batch insert runs at most as often as the hooks' repeated calls multiply out to. */
  lemma {:induction false} InsertCountIsBounded(c: Bulk, i: nat, h: nat, a: Arg, s: State)
    requires Wf(c, s) && i < |c.hooks| && h <= |c.hooks[i]| && InPool(a, s) && FilledTo(s, i)
    ensures AtMost(s, RunMutator(c, i, h, a, s).1, CallProduct(c, i, h))
    decreases |c.hooks| - i, |c.hooks[i]| - h, 1
  {
    if h < |c.hooks[i]| {
      var p := c.hooks[i][h];
      InsertsSnoc(s.log, Enter(i, h));
      InsertCountIsBoundedHook(c, i, h, p, a, Done(NilValue), Log(s, Enter(i, h)));
      InsertsSnoc(RunHook(c, i, h, p, a, Done(NilValue), Log(s, Enter(i, h))).1.log, Leave(i, h));
    } else {
      InsertCountIsBoundedClosure(c, i, a, s);
    }
  }

  lemma {:induction false} InsertCountIsBoundedClosure(c: Bulk, i: nat, a: Arg, s: State)
    requires Wf(c, s) && i < |c.hooks| && InPool(a, s) && FilledTo(s, i)
    ensures AtMost(s, RunClosure(c, i, a, s).1, CallProduct(c, i, |c.hooks[i]|))
    decreases |c.hooks| - i, 0, 0
  {
    if a.Own? && Check(s.muts[s.current[i]].values).None? {
      var t := FillSlot(c, i, a.mutation, s);
      BatchesOfFill(c, i, a.mutation, s);
      if i + 1 < |c.hooks| {
        InsertCountIsBounded(c, i + 1, 0, Own(t.current[i + 1]), t);
      } else {
        InsertsSnoc(t.log, Insert(BatchOf(t)));
      }
      BatchesOfFinish(c, i, a.mutation, t, RunInside(c, i, t));
    }
  }

  lemma BatchesOfFinish(c: Bulk, i: nat, m: nat, s: State, r: (Outcome, State))
    requires i < |c.hooks| && m < |s.muts| && FilledTo(s, i + 1)
    requires Wf(c, r.1) && Within(i + 1, s, r.1)
    ensures Batches(Finish(c, i, m, s, r).1.log) == Batches(r.1.log)
  {
    BatchesSnoc(r.1.log, Completed(i));
  }

  lemma {:induction false} InsertCountIsBoundedHook(c: Bulk, i: nat, h: nat, p: Hook, a: Arg, last: Outcome, s: State)
    requires Wf(c, s) && i < |c.hooks| && h < |c.hooks[i]| && InPool(a, s) && FilledTo(s, i)
    ensures AtMost(s, RunHook(c, i, h, p, a, last, s).1, MaxCalls(p) * CallProduct(c, i, h + 1))
    decreases |c.hooks| - i, |c.hooks[i]| - h, 0, p
  {
    match p {
      case Return(_) =>
      case Edit(change, rest) =>
        InsertCountIsBoundedHook(c, i, h, rest, a, last, EditMut(s, a, change));
      case If(test, yes, no) =>
        var q := if test(Shown(s, a)) then yes else no;
        InsertCountIsBoundedHook(c, i, h, q, a, last, s);
        BranchCalls(s, RunHook(c, i, h, q, a, last, s).1, MaxCalls(q), MaxCalls(p), CallProduct(c, i, h + 1));
      case Next(target, onOk, onErr) =>
        var b := Resolve(target, a, |s.muts|);
        InsertCountIsBounded(c, i, h + 1, b, s);
        var r := RunMutator(c, i, h + 1, b, s);
        var q := if r.0.Done? then onOk else onErr;
        InsertCountIsBoundedHook(c, i, h, q, a, r.0, r.1);
        CallsMultiply(s, r.1, RunHook(c, i, h, q, a, r.0, r.1).1, MaxCalls(q), MaxCalls(p), CallProduct(c, i, h + 1));
    }
  }

  ghost predicate AtMost(s: State, t: State, more: int) {
    Inserts(t.log) <= Inserts(s.log) + more
  }

  lemma CallsMultiply(s: State, t: State, u: State, x: nat, y: nat, z: nat)
    requires x + 1 <= y && AtMost(s, t, z) && AtMost(t, u, x * z)
    ensures AtMost(s, u, y * z)
  {
    MoreCalls(x, y, z);
  }

  lemma BranchCalls(s: State, t: State, x: nat, y: nat, z: nat)
    requires x <= y && AtMost(s, t, x * z)
    ensures AtMost(s, t, y * z)
  {
    if x < y { MoreCalls(x, y, z); }
  }

  lemma MoreCalls(x: nat, y: nat, z: nat)
    requires x + 1 <= y
    ensures x * z + z <= y * z
  {
    var d := y - (x + 1);
    assert y * z == x * z + z + d * z;
    assert d * z >= 0;
  }

  ghost predicate CallAtMostOnce(c: Bulk) {
    forall i, h :: 0 <= i < |c.hooks| && 0 <= h < |c.hooks[i]| ==> MaxCalls(c.hooks[i][h]) <= 1
  }

  /** If no hook calls next twice, the insert runs at most once. */
  lemma {:induction false} SingleCallsInsertOnce(c: Bulk, i: nat, h: nat)
    requires CallAtMostOnce(c) && i < |c.hooks| && h <= |c.hooks[i]|
    ensures CallProduct(c, i, h) <= 1
    decreases |c.hooks| - i, |c.hooks[i]| - h
  {
    if h < |c.hooks[i]| {
      SingleCallsInsertOnce(c, i, h + 1);
      var x, y := MaxCalls(c.hooks[i][h]), CallProduct(c, i, h + 1);
      assert x == 0 || x == 1;
    } else if i + 1 < |c.hooks| {
      SingleCallsInsertOnce(c, i + 1, 0);
    }
  }

  // ---------- what a closure answers ----------

  /** A closure that succeeds answers with the node in its slot, whatever happened inside it. */
  ghost predicate AnswersNode(i: nat, r: (Outcome, State)) {
    r.0.Done? ==> i < |r.1.slots| && r.1.slots[i].Some? && r.0 == Done(NodeValue(r.1.slots[i].value))
  }

  lemma ClosureAnswersItsNode(c: Bulk, i: nat, a: Arg, s: State)
    requires Wf(c, s) && i < |c.hooks| && InPool(a, s) && FilledTo(s, i)
    ensures AnswersNode(i, RunClosure(c, i, a, s))
  {
    if a.Own? && Check(s.muts[s.current[i]].values).None? {
      var t := FillSlot(c, i, a.mutation, s);
      var r := RunInside(c, i, t);
      FinishAnswersItsNode(c, i, a.mutation, t, r);
      CheckedClosure(c, i, a.mutation, s, t, r);
    }
  }

  lemma FinishAnswersItsNode(c: Bulk, i: nat, m: nat, s: State, r: (Outcome, State))
    requires i < |c.hooks| && m < |s.muts| && FilledTo(s, i + 1) && Wf(c, r.1) && Within(i + 1, s, r.1)
    ensures AnswersNode(i, Finish(c, i, m, s, r))
  {
    assert r.1.slots[i] == r.1.slots[..i + 1][i] == s.slots[..i + 1][i];
  }

  // ---------- no nil node if and only if an insert ran ----------

  /** The last slot is filled only by a closure that goes on to insert, and an insert needs them all. */
  ghost predicate FilledByInsert(c: Bulk, s: State) {
    && Wf(c, s) && |c.hooks| > 0
    && (s.slots[|c.hooks| - 1].Some? ==> Inserts(s.log) > 0)
    && (Inserts(s.log) > 0 ==> FilledTo(s, |c.hooks|))
  }

  /** Whatever the hooks do, after any call into the chain every slot is filled if and only if an
      insert has run. */
  lemma {:induction false} FilledIffInserted(c: Bulk, i: nat, h: nat, a: Arg, s: State)
    requires FilledByInsert(c, s) && i < |c.hooks| && h <= |c.hooks[i]| && InPool(a, s) && FilledTo(s, i)
    ensures FilledByInsert(c, RunMutator(c, i, h, a, s).1)
    decreases |c.hooks| - i, |c.hooks[i]| - h, 1
  {
    if h < |c.hooks[i]| {
      var p := c.hooks[i][h];
      InsertsSnoc(s.log, Enter(i, h));
      FilledIffInsertedHook(c, i, h, p, a, Done(NilValue), Log(s, Enter(i, h)));
      InsertsSnoc(RunHook(c, i, h, p, a, Done(NilValue), Log(s, Enter(i, h))).1.log, Leave(i, h));
    } else {
      FilledIffInsertedClosure(c, i, a, s);
    }
  }

  lemma {:induction false} FilledIffInsertedClosure(c: Bulk, i: nat, a: Arg, s: State)
    requires FilledByInsert(c, s) && i < |c.hooks| && InPool(a, s) && FilledTo(s, i)
    ensures FilledByInsert(c, RunClosure(c, i, a, s).1)
    decreases |c.hooks| - i, 0, 0
  {
    if a.Own? && Check(s.muts[s.current[i]].values).None? {
      var t := FillSlot(c, i, a.mutation, s);
      var r := RunInside(c, i, t);
      if i + 1 < |c.hooks| { FilledByFill(c, i, a.mutation, s); }
      FilledIffInsertedInside(c, i, t);
      FilledByFinish(c, i, a.mutation, t, r);
      CheckedClosure(c, i, a.mutation, s, t, r);
    }
  }

  lemma {:induction false} FilledIffInsertedInside(c: Bulk, i: nat, s: State)
    requires Wf(c, s) && i < |c.hooks| && FilledTo(s, i + 1)
    requires i + 1 < |c.hooks| ==> FilledByInsert(c, s)
    ensures FilledByInsert(c, RunInside(c, i, s).1)
    decreases |c.hooks| - i - 1, 1 + if i + 1 < |c.hooks| then |c.hooks[i + 1]| else 0
  {
    if i + 1 < |c.hooks| {
      FilledIffInserted(c, i + 1, 0, Own(s.current[i + 1]), s);
    } else {
      FilledByRunInsert(c, s);
    }
  }

  lemma FilledByFill(c: Bulk, i: nat, m: nat, s: State)
    requires FilledByInsert(c, s) && i + 1 < |c.hooks| && m < |s.muts| && FilledTo(s, i)
    ensures FilledByInsert(c, FillSlot(c, i, m, s))
  {
    BatchesOfFill(c, i, m, s);
  }

  lemma FilledByRunInsert(c: Bulk, s: State)
    requires Wf(c, s) && |c.hooks| > 0 && FilledTo(s, |c.hooks|)
    ensures FilledByInsert(c, RunInsert(c, s).1)
  {
    InsertsSnoc(s.log, Insert(BatchOf(s)));
  }

  lemma FilledByFinish(c: Bulk, i: nat, m: nat, s: State, r: (Outcome, State))
    requires i < |c.hooks| && m < |s.muts| && FilledTo(s, i + 1)
    requires FilledByInsert(c, r.1) && Within(i + 1, s, r.1)
    ensures FilledByInsert(c, Finish(c, i, m, s, r).1)
  {
    BatchesOfFinish(c, i, m, s, r);
  }

  lemma {:induction false} FilledIffInsertedHook(c: Bulk, i: nat, h: nat, p: Hook, a: Arg, last: Outcome, s: State)
    requires FilledByInsert(c, s) && i < |c.hooks| && h < |c.hooks[i]| && InPool(a, s) && FilledTo(s, i)
    ensures FilledByInsert(c, RunHook(c, i, h, p, a, last, s).1)
    decreases |c.hooks| - i, |c.hooks[i]| - h, 0, p
  {
    match p {
      case Return(_) =>
      case Edit(change, rest) =>
        FilledIffInsertedHook(c, i, h, rest, a, last, EditMut(s, a, change));
      case If(test, yes, no) =>
        FilledIffInsertedHook(c, i, h, if test(Shown(s, a)) then yes else no, a, last, s);
      case Next(target, onOk, onErr) =>
        var b := Resolve(target, a, |s.muts|);
        FilledIffInserted(c, i, h + 1, b, s);
        var r := RunMutator(c, i, h + 1, b, s);
        FilledIffInsertedHook(c, i, h, if r.0.Done? then onOk else onErr, a, r.0, r.1);
    }
  }

  // ---------- what reaches the store ----------

  /** The hook hands on the mutation it received, however often it calls next and whatever it edits. */
  predicate Forwards(p: Hook) {
    match p
    case Return(_) => true
    case Edit(_, rest) => Forwards(rest)
    case If(_, yes, no) => Forwards(yes) && Forwards(no)
    case Next(target, onOk, onErr) => target.Received? && Forwards(onOk) && Forwards(onErr)
  }

  ghost predicate AllForward(c: Bulk) {
    forall i, h :: 0 <= i < |c.hooks| && 0 <= h < |c.hooks[i]| ==> Forwards(c.hooks[i][h])
  }

  /** The spec has every required field and passes the validators. */
  ghost predicate ValidEntries(entries: seq<FieldSpec>) {
    && (forall f: Field :: Required(f) ==> SpecValue(entries, f).Some?)
    && (forall f: Field :: f == Name || f == Prefix ==>
          SpecValue(entries, f).Some? && NotEmpty(SpecValue(entries, f).value))
  }

  ghost predicate ValidInserts(log: seq<Event>) {
    forall j, k :: 0 <= j < |log| && log[j].Insert? && 0 <= k < |log[j].batch| ==> ValidEntries(log[j].batch[k])
  }

  ghost predicate Vetted(c: Bulk, s: State) {
    && Wf(c, s)
    && (forall k :: 0 <= k < |s.slots| && s.slots[k].Some? ==> ValidEntries(s.drafts[s.slots[k].value].entries))
    && ValidInserts(s.log)
  }

  ghost predicate VettedRun(c: Bulk, s: State, t: State) {
    Vetted(c, t) && t.current == s.current
  }

  lemma CheckedEntriesAreValid(m: Values)
    requires Check(m) == None
    ensures ValidEntries(Entries(m))
  {
    CheckNamesFirstFault(m);
    forall f: Field | Required(f) || f == Name || f == Prefix
      ensures SpecValue(Entries(m), f) == Lookup(m, f) && f in m
    {
      SpecHoldsMutation(m, f);
      assert Acceptable(m, f);
    }
    assert Acceptable(m, Name) && Acceptable(m, Prefix);
  }

  lemma VettedInsert(c: Bulk, s: State)
    requires Vetted(c, s) && FilledTo(s, |c.hooks|)
    ensures Vetted(c, RunInsert(c, s).1)
  {
    var batch := BatchOf(s);
    assert forall k :: 0 <= k < |batch| ==> ValidEntries(batch[k]);
    match c.driver(Inserts(s.log), batch) {
      case Rejected(_, _) =>
      case Stored(ids) => IDsKeepEntries(s.drafts, s.slots, ids, |s.slots|);
    }
  }

  lemma VettedFill(c: Bulk, i: nat, s: State)
    requires Vetted(c, s) && i < |c.hooks| && FilledTo(s, i)
    requires Check(s.muts[s.current[i]].values) == None
    ensures var t := FillSlot(c, i, s.current[i], s);
            Vetted(c, t) && t.current == s.current
  {
    CheckedEntriesAreValid(s.muts[s.current[i]].values);
  }

  lemma VettedFinish(c: Bulk, i: nat, m: nat, s: State, r: (Outcome, State))
    requires i < |c.hooks| && m < |s.muts| && FilledTo(s, i + 1)
    requires Vetted(c, r.1) && Within(i + 1, s, r.1)
    ensures Vetted(c, Finish(c, i, m, s, r).1)
    ensures Finish(c, i, m, s, r).1.current == r.1.current
  {
  }

  /** Every spec of every batch has all required fields and passes both validators, provided hooks
      forward the mutation object they received: what the closure checks is then what it builds. */
  lemma {:induction false} OnlyValidSpecsAreInserted(c: Bulk, i: nat, h: nat, s: State)
    requires AllForward(c) && Vetted(c, s) && i < |c.hooks| && h <= |c.hooks[i]| && FilledTo(s, i)
    ensures VettedRun(c, s, RunMutator(c, i, h, Own(s.current[i]), s).1)
    decreases |c.hooks| - i, |c.hooks[i]| - h, 1
  {
    var a := Own(s.current[i]);
    if h < |c.hooks[i]| {
      assert Forwards(c.hooks[i][h]);
      OnlyValidSpecsAreInsertedHook(c, i, h, c.hooks[i][h], Done(NilValue), Log(s, Enter(i, h)));
    } else {
      OnlyValidSpecsAreInsertedClosure(c, i, s);
    }
  }

  lemma {:induction false} OnlyValidSpecsAreInsertedClosure(c: Bulk, i: nat, s: State)
    requires AllForward(c) && Vetted(c, s) && i < |c.hooks| && FilledTo(s, i)
    ensures VettedRun(c, s, RunClosure(c, i, Own(s.current[i]), s).1)
    decreases |c.hooks| - i, 0, 0
  {
    if Check(s.muts[s.current[i]].values).None? {
      var t := FillSlot(c, i, s.current[i], s);
      VettedFill(c, i, s);
      OnlyValidSpecsAreInsertedInside(c, i, t);
      VettedFinish(c, i, s.current[i], t, RunInside(c, i, t));
      CheckedClosure(c, i, s.current[i], s, t, RunInside(c, i, t));
    }
  }

  lemma {:induction false} OnlyValidSpecsAreInsertedInside(c: Bulk, i: nat, s: State)
    requires AllForward(c) && Vetted(c, s) && i < |c.hooks| && FilledTo(s, i + 1)
    ensures VettedRun(c, s, RunInside(c, i, s).1)
    decreases |c.hooks| - i - 1, 1 + if i + 1 < |c.hooks| then |c.hooks[i + 1]| else 0
  {
    if i + 1 < |c.hooks| {
      OnlyValidSpecsAreInserted(c, i + 1, 0, s);
    } else {
      VettedInsert(c, s);
    }
  }

  lemma {:induction false} OnlyValidSpecsAreInsertedHook(c: Bulk, i: nat, h: nat, p: Hook, last: Outcome, s: State)
    requires AllForward(c) && Forwards(p) && Vetted(c, s) && i < |c.hooks| && h < |c.hooks[i]| && FilledTo(s, i)
    ensures VettedRun(c, s, RunHook(c, i, h, p, Own(s.current[i]), last, s).1)
    decreases |c.hooks| - i, |c.hooks[i]| - h, 0, p
  {
    var a := Own(s.current[i]);
    match p {
      case Return(_) =>
      case Edit(change, rest) =>
        OnlyValidSpecsAreInsertedHook(c, i, h, rest, last, EditMut(s, a, change));
      case If(test, yes, no) =>
        OnlyValidSpecsAreInsertedHook(c, i, h, if test(Shown(s, a)) then yes else no, last, s);
      case Next(target, onOk, onErr) =>
        OnlyValidSpecsAreInserted(c, i, h + 1, s);
        var r := RunMutator(c, i, h + 1, a, s);
        OnlyValidSpecsAreInsertedHook(c, i, h, if r.0.Done? then onOk else onErr, r.0, r.1);
    }
  }

  lemma ValidEntriesWereChecked(m: Values)
    requires ValidEntries(Entries(m))
    ensures Check(m) == None
  {
    CheckNamesFirstFault(m);
    forall f: Field ensures Acceptable(m, f) {
      SpecHoldsMutation(m, f);
    }
  }

  lemma LastMutator(c: Bulk, i: nat, a: Arg, s: State)
    requires Wf(c, s) && i < |c.hooks| && InPool(a, s) && FilledTo(s, i)
    ensures RunMutator(c, i, |c.hooks[i]|, a, s) == RunClosure(c, i, a, s)
  {
  }

  lemma ValidIffChecked(v: Values)
    ensures ValidEntries(Entries(v)) <==> Check(v) == None
  {
    if Check(v) == None { CheckedEntriesAreValid(v); }
    if ValidEntries(Entries(v)) { ValidEntriesWereChecked(v); }
  }

  // ---------- what success means ----------

  /** The last answer a hook has seen. */
  datatype Seen = Nothing | Good | Bad

  /** The hook reports success only when the last call it made succeeded. It may retry, repeat,
      edit, substitute and veto. */
  predicate Honest(p: Hook, seen: Seen) {
    match p
    case Return(reply) => reply.Veto? || seen.Good? || (seen.Bad? && reply.PassThrough?)
    case Edit(_, rest) => Honest(rest, seen)
    case If(_, yes, no) => Honest(yes, seen) && Honest(no, seen)
    case Next(_, onOk, onErr) => Honest(onOk, Good) && Honest(onErr, Bad)
  }

  ghost predicate AllHonest(c: Bulk) {
    forall i, h :: 0 <= i < |c.hooks| && 0 <= h < |c.hooks[i]| ==> Honest(c.hooks[i][h], Nothing)
  }

  /** The last insert of the log was of what the slots hold, and the store answered with these IDs,
      which it wrote into the specs. */
  ghost predicate LastBatchStored(c: Bulk, s: State, ids: nat -> int)
    requires Wf(c, s) && FilledTo(s, |c.hooks|)
  {
    var batches := Batches(s.log);
    && batches != [] && batches[|batches| - 1] == BatchOf(s)
    && c.driver(|batches| - 1, BatchOf(s)) == Stored(ids)
    && forall k :: 0 <= k < |s.slots| ==> s.drafts[s.slots[k].value].specID == Some(ids(k))
  }

  /** Every slot is filled; the last batch was stored; and from builder i on the mutations are done
      and the nodes carry the IDs of that batch. */
  ghost predicate Succeeded(c: Bulk, i: nat, s: State) {
    Wf(c, s) && FilledTo(s, |c.hooks|) && exists ids :: LastBatchStored(c, s, ids) && Identified(c, i, s, ids)
  }

  ghost predicate Identified(c: Bulk, i: nat, s: State, ids: nat -> int)
    requires Wf(c, s) && FilledTo(s, |c.hooks|)
  {
    forall k :: i <= k < |s.slots| ==>
      && s.muts[s.current[k]].done
      && s.drafts[s.slots[k].value].node.id == ids(k)
  }

  ghost predicate Real(c: Bulk, i: nat, r: (Outcome, State)) {
    r.0.Done? ==> Succeeded(c, i, r.1)
  }

  lemma SuccessOutlivesLog(c: Bulk, i: nat, s: State, e: Event)
    requires Succeeded(c, i, s) && !e.Insert?
    ensures Succeeded(c, i, Log(s, e))
  {
    var t := Log(s, e);
    BatchesSnoc(s.log, e);
    assert BatchOf(t) == BatchOf(s);
    var ids :| LastBatchStored(c, s, ids) && Identified(c, i, s, ids);
    assert LastBatchStored(c, t, ids) && Identified(c, i, t, ids);
  }

  lemma SuccessOutlivesEdit(c: Bulk, i: nat, s: State, a: Arg, change: Values -> Values)
    requires Succeeded(c, i, s) && InPool(a, s)
    ensures Succeeded(c, i, EditMut(s, a, change))
  {
    var t := EditMut(s, a, change);
    assert BatchOf(t) == BatchOf(s);
    var ids :| LastBatchStored(c, s, ids) && Identified(c, i, s, ids);
    assert LastBatchStored(c, t, ids) && Identified(c, i, t, ids);
  }

  lemma SuccessOfComplete(c: Bulk, i: nat, m: nat, s: State)
    requires i < |c.hooks| && Succeeded(c, i + 1, s) && s.current[i] == m
    ensures Succeeded(c, i, Complete(c, i, m, s))
  {
    var ids :| LastBatchStored(c, s, ids) && Identified(c, i + 1, s, ids);
    CompleteKeepsBatch(c, i, m, s, ids);
    CompleteIdentifies(c, i, m, s, ids);
  }

  lemma CompleteKeepsBatch(c: Bulk, i: nat, m: nat, s: State, ids: nat -> int)
    requires Wf(c, s) && i < |c.hooks| && m < |s.muts| && FilledTo(s, |c.hooks|) && LastBatchStored(c, s, ids)
    ensures LastBatchStored(c, Complete(c, i, m, s), ids)
  {
    var t := Complete(c, i, m, s);
    BatchesSnoc(s.log, Completed(i));
    assert BatchOf(t) == BatchOf(s);
  }

  lemma CompleteIdentifies(c: Bulk, i: nat, m: nat, s: State, ids: nat -> int)
    requires Wf(c, s) && i < |c.hooks| && FilledTo(s, |c.hooks|) && s.current[i] == m
    requires s.drafts[s.slots[i].value].specID == Some(ids(i)) && Identified(c, i + 1, s, ids)
    ensures Identified(c, i, Complete(c, i, m, s), ids)
  {
    var t := Complete(c, i, m, s);
    forall k | i <= k < |t.slots|
      ensures t.muts[t.current[k]].done && t.drafts[t.slots[k].value].node.id == ids(k)
    {
      assert k > i ==> s.slots[k].value != s.slots[i].value;
    }
  }

  lemma SuccessOfFinish(c: Bulk, i: nat, m: nat, s: State, r: (Outcome, State))
    requires i < |c.hooks| && m < |s.muts| && FilledTo(s, i + 1) && r.0.Done?
    requires Within(i + 1, s, r.1) && Succeeded(c, i + 1, r.1) && s.current[i] == m
    ensures Succeeded(c, i, Finish(c, i, m, s, r).1)
  {
    assert r.1.current[i] == r.1.current[..i + 1][i] == s.current[..i + 1][i];
    SuccessOfComplete(c, i, m, r.1);
  }

  /** With honest hooks a reported success is a real one: the last batch inserted is what the slots
      hold, the store took it, and the nodes of builders i.. carry the IDs it gave. */
  lemma {:induction false} ReportedSuccessIsReal(c: Bulk, i: nat, h: nat, a: Arg, s: State)
    requires AllHonest(c) && Wf(c, s) && i < |c.hooks| && h <= |c.hooks[i]| && InPool(a, s) && FilledTo(s, i)
    ensures Real(c, i, RunMutator(c, i, h, a, s))
    decreases |c.hooks| - i, |c.hooks[i]| - h, 1
  {
    if h < |c.hooks[i]| {
      var p := c.hooks[i][h];
      assert Honest(p, Nothing);
      ReportedSuccessIsRealHook(c, i, h, p, Nothing, a, Done(NilValue), Log(s, Enter(i, h)));
      var r := RunHook(c, i, h, p, a, Done(NilValue), Log(s, Enter(i, h)));
      if r.0.Done? { SuccessOutlivesLog(c, i, r.1, Leave(i, h)); }
    } else {
      ReportedSuccessIsRealClosure(c, i, a, s);
    }
  }

  lemma {:induction false} ReportedSuccessIsRealClosure(c: Bulk, i: nat, a: Arg, s: State)
    requires AllHonest(c) && Wf(c, s) && i < |c.hooks| && InPool(a, s) && FilledTo(s, i)
    ensures Real(c, i, RunClosure(c, i, a, s))
    decreases |c.hooks| - i, 0, 0
  {
    if a.Own? && Check(s.muts[s.current[i]].values).None? {
      var t := FillSlot(c, i, a.mutation, s);
      var r := RunInside(c, i, t);
      ReportedSuccessIsRealInside(c, i, t);
      if r.0.Done? { SuccessOfFinish(c, i, a.mutation, t, r); }
      CheckedClosure(c, i, a.mutation, s, t, r);
    }
  }

  lemma {:induction false} ReportedSuccessIsRealInside(c: Bulk, i: nat, s: State)
    requires AllHonest(c) && Wf(c, s) && i < |c.hooks| && FilledTo(s, i + 1)
    ensures Real(c, i + 1, RunInside(c, i, s))
    decreases |c.hooks| - i - 1, 1 + if i + 1 < |c.hooks| then |c.hooks[i + 1]| else 0
  {
    if i + 1 < |c.hooks| {
      ReportedSuccessIsReal(c, i + 1, 0, Own(s.current[i + 1]), s);
    } else if RunInsert(c, s).0.Done? {
      InsertSucceeded(c, s);
    }
  }

  lemma {:induction false} IDsAreWritten(drafts: seq<Draft>, slots: seq<Option<nat>>, ids: nat -> int, k: nat)
    requires k <= |slots|
    requires forall j :: 0 <= j < |slots| ==> slots[j].Some? && slots[j].value < |drafts|
    requires forall j, l :: 0 <= j < l < |slots| ==> slots[j].value != slots[l].value
    ensures forall j :: 0 <= j < k ==> WriteIDs(drafts, slots, ids, k)[slots[j].value].specID == Some(ids(j))
  {
    if k > 0 { IDsAreWritten(drafts, slots, ids, k - 1); }
  }

  lemma InsertStores(c: Bulk, s: State, ids: nat -> int)
    requires Wf(c, s) && FilledTo(s, |c.hooks|) && c.driver(Inserts(s.log), BatchOf(s)) == Stored(ids)
    ensures LastBatchStored(c, RunInsert(c, s).1, ids)
  {
    BatchesSnoc(s.log, Insert(BatchOf(s)));
    IDsKeepEntries(s.drafts, s.slots, ids, |s.slots|);
    IDsAreWritten(s.drafts, s.slots, ids, |s.slots|);
    assert BatchOf(RunInsert(c, s).1) == BatchOf(s);
  }

  lemma InsertSucceeded(c: Bulk, s: State)
    requires Wf(c, s) && FilledTo(s, |c.hooks|) && RunInsert(c, s).0.Done?
    ensures Succeeded(c, |c.hooks|, RunInsert(c, s).1)
  {
    var ids := c.driver(Inserts(s.log), BatchOf(s)).ids;
    InsertStores(c, s, ids);
    NothingLeftToIdentify(c, RunInsert(c, s).1, ids);
  }

  lemma NothingLeftToIdentify(c: Bulk, s: State, ids: nat -> int)
    requires Wf(c, s) && FilledTo(s, |c.hooks|) && LastBatchStored(c, s, ids)
    ensures Succeeded(c, |c.hooks|, s)
  {
    assert Identified(c, |c.hooks|, s, ids);
  }

  lemma {:induction false} ReportedSuccessIsRealHook(c: Bulk, i: nat, h: nat, p: Hook, seen: Seen, a: Arg,
                                                     last: Outcome, s: State)
    requires AllHonest(c) && Wf(c, s) && i < |c.hooks| && h < |c.hooks[i]| && InPool(a, s) && FilledTo(s, i)
    requires Honest(p, seen)
    requires seen.Good? ==> Succeeded(c, i, s)
    requires seen.Bad? ==> last.Failed?
    ensures Real(c, i, RunHook(c, i, h, p, a, last, s))
    decreases |c.hooks| - i, |c.hooks[i]| - h, 0, p, 1
  {
    match p {
      case Return(_) =>
      case Edit(change, rest) =>
        if seen.Good? { SuccessOutlivesEdit(c, i, s, a, change); }
        ReportedSuccessIsRealHook(c, i, h, rest, seen, a, last, EditMut(s, a, change));
      case If(test, yes, no) =>
        ReportedSuccessIsRealHook(c, i, h, if test(Shown(s, a)) then yes else no, seen, a, last, s);
      case Next(target, onOk, onErr) =>
        ReportedSuccessIsRealNext(c, i, h, target, onOk, onErr, a, s);
    }
  }

  lemma {:induction false} ReportedSuccessIsRealNext(c: Bulk, i: nat, h: nat, target: Target, onOk: Hook,
                                                     onErr: Hook, a: Arg, s: State)
    requires AllHonest(c) && Wf(c, s) && i < |c.hooks| && h < |c.hooks[i]| && InPool(a, s) && FilledTo(s, i)
    requires Honest(onOk, Good) && Honest(onErr, Bad)
    ensures var r := RunMutator(c, i, h + 1, Resolve(target, a, |s.muts|), s);
            Real(c, i, RunHook(c, i, h, if r.0.Done? then onOk else onErr, a, r.0, r.1))
    decreases |c.hooks| - i, |c.hooks[i]| - h, 0, Next(target, onOk, onErr), 0
  {
    var b := Resolve(target, a, |s.muts|);
    ReportedSuccessIsReal(c, i, h + 1, b, s);
    var r := RunMutator(c, i, h + 1, b, s);
    var p := if r.0.Done? then onOk else onErr;
    ReportedSuccessIsRealHook(c, i, h, p, if r.0.Done? then Good else Bad, a, r.0, r.1);
  }

  // ---------- Save ----------

  /** From the start of Save, whatever the hooks do: every insert is full and there are at most as
      many as repeated calls multiply out to; no node is nil if and only if an insert ran; with
      forwarding hooks every inserted spec is valid; with honest hooks a success means that the last
      batch was stored and that the nodes are those of that batch, with its IDs. */
  lemma SaveWithAnyHooks(c: Bulk, clock: nat -> Times, muts: seq<Mut>, current: seq<nat>)
    requires |current| == |c.hooks| > 0 && forall k :: 0 <= k < |current| ==> current[k] < |muts|
    ensures var r := Save(c, clock, None, Start(muts, current));
            && InsertsAreFull(|c.hooks|, r.1.log)
            && Inserts(r.1.log) <= CallProduct(c, 0, 0)
            && (CallAtMostOnce(c) ==> Inserts(r.1.log) <= 1)
            && (FilledTo(r.1, |c.hooks|) <==> Inserts(r.1.log) > 0)
            && (AllForward(c) ==> ValidInserts(r.1.log))
            && (AllHonest(c) && r.0.Ok? ==> Succeeded(c, 0, r.1))
  {
    var t := WithDefaults(Start(muts, current), clock, |c.hooks|);
    var a := Own(t.current[0]);
    assert Tracked(c, t);
    EveryInsertIsFull(c, 0, 0, a, t);
    InsertCountIsBounded(c, 0, 0, a, t);
    if CallAtMostOnce(c) { SingleCallsInsertOnce(c, 0, 0); }
    FilledIffInserted(c, 0, 0, a, t);
    if AllForward(c) { OnlyValidSpecsAreInserted(c, 0, 0, t); }
    if AllHonest(c) { ReportedSuccessIsReal(c, 0, 0, a, t); }
  }
}
