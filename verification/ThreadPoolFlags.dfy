/**
 When the assertions of thrd_pool_base.c on in_use and finished hold. Cancels load and store the word of
 flags without a mutex, so a cancel can put back bits that were changed in between.
 */
module ThreadPoolFlags {
  import opened Options
  import opened SlotLists
  import opened ThreadPool

  // Whether a later assertion, reading f in the slot, would hold before anything else is stored there.
  predicate Fits(s: State, id: nat, f: Flags)
    requires GoodSlots(s) && id < |s.slots|
  {
    && (id in s.free ==> !f.inUse)
    && (id in s.pending && !(s.filling.Some? && s.filling.value.slot == id) ==> f.inUse)
    && (id in s.done ==> !f.inUse && (s.consumer == Notifying(id) || s.consumer == Called(id) || f.finished))
    && (id in s.working && s.slots[id].owner < |s.workers| ==> PlaceFits(s.workers[s.slots[id].owner], f))
  }

  // Behind its assertion a worker does not look at in_use until it has cleared it.
  predicate PlaceFits(pc: Pc, f: Flags) {
    && (pc.Unlocking? || pc.Starting? ==> f.inUse)
    && (pc.Marking? || pc.Handing? || pc.Freeing? ==> !f.inUse)
    && (pc.Handing? ==> f.finished)
  }

  predicate LoadFits(pc: Pc) { pc.Finishing? ==> !pc.flags.inUse }

  predicate Clean(s: State)
    requires GoodSlots(s)
  {
    && (forall id :: 0 <= id < |s.slots| ==> Fits(s, id, s.slots[id].flags))
    && (forall w :: 0 <= w < |s.workers| ==> LoadFits(s.workers[w]))
  }

  // The bits that the n-th cancel would put back are due where the job now is.
  predicate Harmless(s: State, n: nat)
    requires GoodSlots(s) && n < |s.cancels|
  {
    Fits(s, s.cancels[n].slot, s.cancels[n].flags)
  }

  // It finds in_use and finished as it loaded them: nothing was stored in between but cancel flags.
  predicate Whole(s: State, n: nat)
    requires GoodSlots(s) && n < |s.cancels|
  {
    var c := s.cancels[n];
    var now := s.slots[c.slot].flags;
    now.inUse == c.flags.inUse && now.finished == c.flags.finished
  }

  lemma WholeIsHarmless(s: State, n: nat)
    requires GoodSlots(s) && n < |s.cancels| && Clean(s) && Whole(s, n)
    ensures Harmless(s, n)
  {
    assert Fits(s, s.cancels[n].slot, s.slots[s.cancels[n].slot].flags);
  }

  // ---- steps without a harmful store ----

  lemma EnqueueClean(s: State, p: Proto)
    requires Inv(s) && Clean(s) && s.fault == Sound && s.filling.None? && s.free != []
    ensures Inv(Enqueue(s, p)) && Enqueue(s, p).fault == Sound && Clean(Enqueue(s, p))
  {
    var t, id := Enqueue(s, p), s.free[|s.free| - 1];
    EnqueueKeeps(s, p);
    LastTaken(s.free);
    assert Fits(s, id, s.slots[id].flags);
    forall k | 0 <= k < |s.slots| ensures Fits(t, k, t.slots[k].flags) {
      assert Fits(s, k, s.slots[k].flags) && OnOneList(s, k) && OnOneList(s, id);
    }
    forall w | 0 <= w < |t.workers| ensures LoadFits(t.workers[w]) { assert LoadFits(s.workers[w]); }
  }

  lemma FillClean(s: State)
    requires Inv(s) && Clean(s) && s.filling.Some?
    ensures Inv(Fill(s)) && Clean(Fill(s))
  {
    var t, id := Fill(s), s.filling.value.slot;
    FillKeeps(s);
    assert id in s.pending && OnOneList(s, id);
    forall k | 0 <= k < |s.slots| ensures Fits(t, k, t.slots[k].flags) { assert Fits(s, k, s.slots[k].flags); }
    forall w | 0 <= w < |t.workers| ensures LoadFits(t.workers[w]) { assert LoadFits(s.workers[w]); }
  }

  lemma CancelClean(s: State, id: nat)
    requires Inv(s) && Clean(s)
    ensures Inv(Cancel(s, id)) && Clean(Cancel(s, id))
  {
    var t := Cancel(s, id);
    CancelKeeps(s, id);
    forall k | 0 <= k < |s.slots| ensures Fits(t, k, t.slots[k].flags) { assert Fits(s, k, s.slots[k].flags); }
  }

  /** A cancel's store leaves the flags clean exactly when it is harmless. */
  lemma StoreClean(s: State, n: nat)
    requires Inv(s) && Clean(s) && n < |s.cancels|
    ensures Inv(Store(s, n)) && (Clean(Store(s, n)) <==> Harmless(s, n))
  {
    var t, id := Store(s, n), s.cancels[n].slot;
    StoreKeeps(s, n);
    assert Fits(t, id, t.slots[id].flags) <==> Harmless(s, n);
    forall k | 0 <= k < |s.slots| && k != id ensures Fits(t, k, t.slots[k].flags) {
      assert Fits(s, k, s.slots[k].flags);
    }
  }

  lemma LaunchClean(s: State)
    requires Inv(s) && Clean(s)
    ensures var t := s.(workers := s.workers + [AtTop]); Inv(t) && Clean(t)
  {
    var t := s.(workers := s.workers + [AtTop]);
    LaunchKeeps(s);
    forall k | 0 <= k < |s.slots| ensures Fits(t, k, t.slots[k].flags) {
      assert Fits(s, k, s.slots[k].flags) && Placed(s, k);
    }
  }

  // A worker changes nothing but its own place.
  lemma PlaceClean(s: State, w: nat, t: State)
    requires Inv(s) && Clean(s) && w < |s.workers| && Inv(t)
    requires |t.workers| == |s.workers| && t == Goto(s, w, t.workers[w]).(holder := t.holder)
    requires SlotOf(t.workers[w]) == SlotOf(s.workers[w]) && LoadFits(t.workers[w])
    requires SlotOf(s.workers[w]).Some? ==> PlaceFits(t.workers[w], s.slots[SlotOf(s.workers[w]).value].flags)
    ensures Clean(t)
  {
    forall k | 0 <= k < |s.slots| ensures Fits(t, k, t.slots[k].flags) {
      assert Fits(s, k, s.slots[k].flags) && Placed(s, k);
    }
    forall v | 0 <= v < |t.workers| ensures LoadFits(t.workers[v]) { assert LoadFits(s.workers[v]); }
  }

  lemma PickClean(s: State, w: nat)
    requires Inv(s) && Clean(s) && w < |s.workers| && s.workers[w].Picking? && s.pending != [] && s.filling.None?
    ensures Inv(Pick(s, w)) && Clean(Pick(s, w))
  {
    var t, id := Pick(s, w), s.pending[0];
    PickKeeps(s, w);
    FirstTaken(s.pending);
    forall k | 0 <= k < |s.slots| ensures Fits(t, k, t.slots[k].flags) {
      assert Fits(s, k, s.slots[k].flags) && OnOneList(s, k) && OnOneList(s, id) && Placed(s, k) && WorkerFits(s, w);
    }
    forall v | 0 <= v < |t.workers| ensures LoadFits(t.workers[v]) { assert LoadFits(s.workers[v]); }
  }

  lemma OwnFlags(s: State, w: nat)
    requires Inv(s) && Clean(s) && w < |s.workers| && SlotOf(s.workers[w]).Some?
    ensures var id := SlotOf(s.workers[w]).value;
            id < |s.slots| && PlaceFits(s.workers[w], s.slots[id].flags) && LoadFits(s.workers[w])
  {
    Owned(s, w);
    assert Fits(s, SlotOf(s.workers[w]).value, s.slots[SlotOf(s.workers[w]).value].flags);
  }

  // A worker stores the flags of its own job.
  lemma FlagsClean(s: State, w: nat, t: State)
    requires Inv(s) && Clean(s) && w < |s.workers| && Inv(t)
    requires var pc := s.workers[w];
             && (pc.Clearing? || pc.Finishing?) && |t.workers| == |s.workers| && pc.slot < |t.slots|
             && t == Goto(SetFlags(s, pc.slot, t.slots[pc.slot].flags), w, t.workers[w])
             && SlotOf(t.workers[w]) == Some(pc.slot) && LoadFits(t.workers[w])
             && PlaceFits(t.workers[w], t.slots[pc.slot].flags)
    ensures Clean(t)
  {
    Owned(s, w);
    forall k | 0 <= k < |s.slots| ensures Fits(t, k, t.slots[k].flags) {
      assert Fits(s, k, s.slots[k].flags) && Placed(s, k) && OnOneList(s, k);
    }
    forall v | 0 <= v < |t.workers| ensures LoadFits(t.workers[v]) { assert LoadFits(s.workers[v]); }
  }

  lemma HandClean(s: State, w: nat, id: nat)
    requires Inv(s) && Clean(s) && w < |s.workers| && s.workers[w] == Handing(id) && s.filling.None?
    ensures Inv(Work(s, w)) && Clean(Work(s, w))
  {
    var t := Work(s, w);
    HandKeeps(s, w, id);
    Owned(s, w);
    OwnFlags(s, w);
    WithoutFacts(s.working, id);
    forall k | 0 <= k < |s.slots| ensures Fits(t, k, t.slots[k].flags) {
      assert Fits(s, k, s.slots[k].flags) && OnOneList(s, k) && Placed(s, k);
    }
    forall v | 0 <= v < |t.workers| ensures LoadFits(t.workers[v]) { assert LoadFits(s.workers[v]); }
  }

  lemma FreeingClean(s: State, w: nat, id: nat)
    requires Inv(s) && Clean(s) && w < |s.workers| && s.workers[w] == Freeing(id) && s.filling.None?
    ensures Inv(Work(s, w)) && Clean(Work(s, w))
  {
    var t := Work(s, w);
    FreeingKeeps(s, w, id);
    Owned(s, w);
    OwnFlags(s, w);
    WithoutFacts(s.working, id);
    NotThere(s.done, id);
    forall k | 0 <= k < |s.slots| ensures Fits(t, k, t.slots[k].flags) {
      assert Fits(s, k, s.slots[k].flags) && OnOneList(s, k) && Placed(s, k);
    }
    forall v | 0 <= v < |t.workers| ensures LoadFits(t.workers[v]) { assert LoadFits(s.workers[v]); }
  }

  // The steps of a worker that change only its place.
  lemma IdleClean(s: State, w: nat)
    requires Inv(s) && Clean(s) && s.fault == Sound && w < |s.workers|
    requires s.workers[w].AtTop? || s.workers[w].Waiting? || s.workers[w].Checking?
    ensures Inv(Work(s, w)) && Work(s, w).fault == Sound && Clean(Work(s, w))
  {
    WorkKeeps(s, w);
    PlaceClean(s, w, Work(s, w));
  }

  lemma MovesClean(s: State, w: nat)
    requires Inv(s) && Clean(s) && s.fault == Sound && w < |s.workers|
    requires var pc := s.workers[w];
             pc.Unlocking? || pc.Starting? || pc.Deciding? || pc.Leaving? || pc.Marking?
    ensures Inv(Work(s, w)) && Work(s, w).fault == Sound && Clean(Work(s, w))
  {
    WorkKeeps(s, w);
    OwnFlags(s, w);
    PlaceClean(s, w, Work(s, w));
  }

  lemma StoresClean(s: State, w: nat)
    requires Inv(s) && Clean(s) && w < |s.workers| && (s.workers[w].Clearing? || s.workers[w].Finishing?)
    ensures Inv(Work(s, w)) && Clean(Work(s, w))
  {
    WorkKeeps(s, w);
    OwnFlags(s, w);
    FlagsClean(s, w, Work(s, w));
  }

  lemma WorkClean(s: State, w: nat)
    requires Inv(s) && Clean(s) && s.fault == Sound && w < |s.workers|
    ensures Inv(Work(s, w)) && Work(s, w).fault == Sound && Clean(Work(s, w))
  {
    match s.workers[w]
    case Picking =>
      assert WorkerFits(s, w);
      if s.filling.None? { PickClean(s, w); }
    case Running(_) => HandlesClean(s, w);
    case Clearing(_, _, _) => StoresClean(s, w);
    case Finishing(_, _, _) => StoresClean(s, w);
    case Freeing(id) => if s.filling.None? { FreeingClean(s, w, id); }
    case Handing(id) => if s.filling.None? { HandClean(s, w, id); }
    case AtTop => IdleClean(s, w);
    case Waiting => IdleClean(s, w);
    case Checking => IdleClean(s, w);
    case _ => MovesClean(s, w);
  }

  lemma HandlesClean(s: State, w: nat)
    requires Inv(s) && Clean(s) && w < |s.workers| && s.workers[w].Running?
    ensures Inv(Work(s, w)) && Clean(Work(s, w))
  {
    var t := Work(s, w);
    WorkKeeps(s, w);
    forall k | 0 <= k < |s.slots| ensures Fits(t, k, t.slots[k].flags) {
      assert Fits(s, k, s.slots[k].flags) && Placed(s, k);
    }
    forall v | 0 <= v < |t.workers| ensures LoadFits(t.workers[v]) { assert LoadFits(s.workers[v]); }
  }

  lemma ConsumedClean(s: State, id: nat)
    requires Inv(s) && Clean(s) && s.consumer == Called(id) && s.filling.None?
    ensures Inv(Consume(s)) && Clean(Consume(s))
  {
    var t := Consume(s);
    ConsumedKeeps(s, id);
    Looked(s);
    WithoutFacts(s.done, id);
    NotThere(s.working, id);
    assert Fits(s, id, s.slots[id].flags);
    forall k | 0 <= k < |s.slots| ensures Fits(t, k, t.slots[k].flags) {
      assert Fits(s, k, s.slots[k].flags) && OnOneList(s, k);
    }
  }

  lemma ConsumeClean(s: State)
    requires Inv(s) && Clean(s) && s.fault == Sound
    ensures Inv(Consume(s)) && Consume(s).fault == Sound && Clean(Consume(s))
  {
    var t := Consume(s);
    ConsumeKeeps(s);
    if s.consumer != Idle {
      Looked(s);
      assert Fits(s, s.consumer.slot, s.slots[s.consumer.slot].flags);
    }
    if s.consumer.Called? {
      if s.filling.None? { ConsumedClean(s, s.consumer.slot); }
    } else {
      forall k | 0 <= k < |s.slots| ensures Fits(t, k, t.slots[k].flags) { assert Fits(s, k, s.slots[k].flags); }
    }
  }

  // No store of a cancel, or a harmless one.
  predicate Careful(s: State, op: Op)
    requires GoodSlots(s)
  {
    op.StoreOp? && op.n < |s.cancels| ==> Harmless(s, op.n)
  }

  /** From clean flags no assertion fails, and they stay clean exactly when the step is careful. */
  lemma CleanStep(s: State, op: Op)
    requires Inv(s) && Clean(s) && s.fault == Sound
    ensures Inv(Step(s, op)) && Step(s, op).fault == Sound && (Clean(Step(s, op)) <==> Careful(s, op))
  {
    match op
    case EnqueueOp(p) => if s.filling.None? && s.free != [] { EnqueueClean(s, p); }
    case FillOp => if s.filling.Some? { FillClean(s); }
    case CancelOp(id) => CancelClean(s, id);
    case StoreOp(n) => if n < |s.cancels| { StoreClean(s, n); }
    case LaunchOp => LaunchClean(s);
    case WorkOp(w) => if w < |s.workers| { WorkClean(s, w); }
    case ConsumeOp => ConsumeClean(s);
  }

  // ---- runs ----

  // Every store of a cancel in the run finds the bits it had loaded.
  predicate WholeRun(s: State, ops: seq<Op>)
    requires Inv(s)
    decreases ops
  {
    ops == [] ||
    ((ops[0].StoreOp? && ops[0].n < |s.cancels| ==> Whole(s, ops[0].n)) &&
     (StepKeeps(s, ops[0]); WholeRun(Step(s, ops[0]), ops[1..])))
  }

  lemma {:induction false} WholeRunHolds(s: State, ops: seq<Op>)
    requires Inv(s) && Clean(s) && s.fault == Sound && WholeRun(s, ops)
    ensures Run(s, ops).fault == Sound && Clean(Run(s, ops))
    decreases ops
  {
    if ops != [] {
      var op := ops[0];
      if op.StoreOp? && op.n < |s.cancels| { WholeIsHarmless(s, op.n); }
      CleanStep(s, op);
      WholeRunHolds(Step(s, op), ops[1..]);
    }
  }

  lemma InitClean(n: nat, workers: nat)
    ensures Inv(Init(n, workers)) && Clean(Init(n, workers))
  {
    InitHolds(n, workers);
  }

  /** In every run whose cancels are not torn by other stores to the flags no assertion fails. */
  lemma WholeRunsAreSound(n: nat, workers: nat, ops: seq<Op>)
    ensures Inv(Init(n, workers))
    ensures WholeRun(Init(n, workers), ops) ==> Run(Init(n, workers), ops).fault == Sound
  {
    InitClean(n, workers);
    if WholeRun(Init(n, workers), ops) { WholeRunHolds(Init(n, workers), ops); }
  }

  // ---- what a harmful store leads to ----

  // The pool and its callers go on, but nobody cancels.
  predicate Quiet(ops: seq<Op>) { forall i :: 0 <= i < |ops| ==> !ops[i].CancelOp? && !ops[i].StoreOp? }

  ghost predicate Faults(s: State)
    requires Inv(s)
  {
    exists ops :: Quiet(ops) && Run(s, ops).fault != Sound
  }

  lemma {:induction false} QuietIsSound(s: State, ops: seq<Op>)
    requires Inv(s) && Clean(s) && s.fault == Sound && Quiet(ops)
    ensures Run(s, ops).fault == Sound
    decreases ops
  {
    if ops != [] {
      CleanStep(s, ops[0]);
      QuietIsSound(Step(s, ops[0]), ops[1..]);
    }
  }

  lemma FaultsNow(s: State)
    requires Inv(s) && s.fault != Sound
    ensures Faults(s)
  {
    assert Quiet([]) && Run(s, []) == s;
  }

  lemma RunStep(s: State, op: Op, t: State, rest: seq<Op>)
    requires Inv(s) && t == Step(s, op) && Inv(t)
    ensures Run(s, [op] + rest) == Run(t, rest)
  {
    assert ([op] + rest)[1..] == rest;
  }

  lemma QuietMore(op: Op, rest: seq<Op>)
    requires !op.CancelOp? && !op.StoreOp? && Quiet(rest)
    ensures Quiet([op] + rest)
  {}

  lemma FaultsBy(s: State, ops: seq<Op>)
    requires Inv(s) && Quiet(ops) && Run(s, ops).fault != Sound
    ensures Faults(s)
  {}

  lemma FaultsAfter(s: State, op: Op, t: State)
    requires Inv(s) && !op.CancelOp? && !op.StoreOp? && t == Step(s, op) && Inv(t) && Faults(t)
    ensures Faults(s)
  {
    var rest :| Quiet(rest) && Run(t, rest).fault != Sound;
    RunStep(s, op, t, rest);
    QuietMore(op, rest);
    FaultsBy(s, [op] + rest);
  }

  function FillStage(s: State): nat {
    if s.filling.None? then 0 else if s.filling.value.Loaded? then 1 else 2
  }

  // Filling a pending job touches nothing of the others.
  lemma FillsOther(s: State, id: nat, t: State)
    requires Inv(s) && s.fault == Sound && s.filling.Some? && id < |s.slots| && id !in s.pending
    requires t == Step(s, FillOp)
    ensures t.fault == Sound && |t.slots| == |s.slots| && t.slots[id] == s.slots[id] && FillStage(t) < FillStage(s)
    ensures t.free == s.free && t.done == s.done && t.consumer == s.consumer && t.workers == s.workers
  {
    assert s.filling.value.slot in s.pending;
  }

  // The assertion of the next enqueueing that grabs this slot fails.
  lemma {:induction false} DoomFree(s: State, k: nat)
    requires Inv(s) && s.fault == Sound && k < |s.free| && s.slots[s.free[k]].flags.inUse
    ensures Faults(s)
    decreases |s.free|, FillStage(s)
  {
    var id := s.free[k];
    assert id in s.free && OnOneList(s, id);
    var op := if s.filling.Some? then FillOp else EnqueueOp(Proto(NoValue, false));
    var t := Step(s, op);
    StepKeeps(s, op);
    if t.fault != Sound {
      FaultsNow(t);
    } else if s.filling.Some? {
      FillsOther(s, id, t);
      DoomFree(t, k);
    } else {
      LastTaken(s.free);
      assert k < |s.free| - 1;
      DoomFree(t, k);
    }
    FaultsAfter(s, op, t);
  }

  function ConsumerStage(c: Consumer): nat {
    match c
    case Idle => 5
    case Peeked(_) => 4
    case Checked(_) => 3
    case Notifying(_) => 2
    case Called(_) => 1
  }

  // The flags of a job on the done list that an assertion will find wrong.
  predicate BadReply(c: Consumer, id: nat, f: Flags) {
    f.inUse || (!f.finished && c != Notifying(id) && c != Called(id))
  }

  // The consumer frees the first job, and the job at k moves up or its slot is free with in_use set.
  lemma ConsumerFrees(s: State, k: nat, t: State)
    requires Inv(s) && s.fault == Sound && k < |s.done| && s.filling.None? && s.consumer.Called?
    requires t == Step(s, ConsumeOp)
    ensures t.fault == Sound && t.slots == s.slots && t.consumer == Idle
    ensures k == 0 ==> s.consumer.slot == s.done[0] && |t.free| == |s.free| + 1 && t.free[|s.free|] == s.done[0]
    ensures k > 0 ==> k - 1 < |t.done| && t.done[k - 1] == s.done[k]
  {
    Looked(s);
    WithoutFirst(s.done);
  }

  // Before that it only moves on, or fails an assertion.
  lemma ConsumerMoves(s: State, k: nat, t: State)
    requires Inv(s) && s.fault == Sound && k < |s.done| && s.filling.None? && !s.consumer.Called?
    requires BadReply(s.consumer, s.done[k], s.slots[s.done[k]].flags) && t == Step(s, ConsumeOp) && t.fault == Sound
    ensures t.done == s.done && t.slots == s.slots && ConsumerStage(t.consumer) < ConsumerStage(s.consumer)
    ensures BadReply(t.consumer, s.done[k], s.slots[s.done[k]].flags)
  {
    if s.consumer != Idle { Looked(s); }
  }

  // Either the consumer comes across the job, or its slot is freed with in_use set.
  lemma {:induction false} DoomDone(s: State, k: nat)
    requires Inv(s) && s.fault == Sound && k < |s.done| && BadReply(s.consumer, s.done[k], s.slots[s.done[k]].flags)
    ensures Faults(s)
    decreases k, ConsumerStage(s.consumer), FillStage(s)
  {
    var op := if s.filling.Some? then FillOp else ConsumeOp;
    var t := Step(s, op);
    StepKeeps(s, op);
    if t.fault != Sound {
      FaultsNow(t);
    } else if s.filling.Some? {
      assert s.done[k] in s.done && OnOneList(s, s.done[k]);
      FillsOther(s, s.done[k], t);
      DoomDone(t, k);
    } else if s.consumer.Called? {
      ConsumerFrees(s, k, t);
      if k == 0 { DoomFree(t, |s.free|); } else { DoomDone(t, k - 1); }
    } else {
      ConsumerMoves(s, k, t);
      DoomDone(t, k);
    }
    FaultsAfter(s, op, t);
  }

  // The flags of a working job that an assertion will find wrong.
  predicate BadPlace(pc: Pc, f: Flags) {
    if pc.Finishing? then pc.flags.inUse else !PlaceFits(pc, f)
  }

  function PlaceStage(pc: Pc): nat {
    if pc.Unlocking? then 4 else if pc.Starting? then 3 else if pc.Marking? then 2 else if pc.Finishing? then 1 else 0
  }

  lemma WorkerMoves(s: State, w: nat, t: State)
    requires Inv(s) && s.fault == Sound && w < |s.workers| && SlotOf(s.workers[w]).Some? && s.filling.None?
    requires BadPlace(s.workers[w], s.slots[SlotOf(s.workers[w]).value].flags)
    requires !s.workers[w].Freeing? && !s.workers[w].Handing? && t == Step(s, WorkOp(w)) && t.fault == Sound
    ensures |t.workers| == |s.workers| && |t.slots| == |s.slots| && SlotOf(t.workers[w]) == SlotOf(s.workers[w])
    ensures BadPlace(t.workers[w], t.slots[SlotOf(s.workers[w]).value].flags)
    ensures PlaceStage(t.workers[w]) < PlaceStage(s.workers[w])
  {}

  lemma WorkerEnds(s: State, w: nat, t: State)
    requires Inv(s) && s.fault == Sound && w < |s.workers| && (s.workers[w].Freeing? || s.workers[w].Handing?)
    requires BadPlace(s.workers[w], s.slots[s.workers[w].slot].flags) && s.filling.None?
    requires t == Step(s, WorkOp(w)) && Inv(t)
    ensures Faults(t)
  {
    Owned(s, w);
    var id := s.workers[w].slot;
    if s.workers[w].Freeing? {
      assert t.free[|s.free|] == id;
      DoomFree(t, |s.free|);
    } else {
      assert t.done[|s.done|] == id;
      if s.consumer != Idle { Looked(s); }
      DoomDone(t, |s.done|);
    }
  }

  lemma {:induction false} DoomWork(s: State, w: nat)
    requires Inv(s) && s.fault == Sound && w < |s.workers| && SlotOf(s.workers[w]).Some?
    requires BadPlace(s.workers[w], s.slots[SlotOf(s.workers[w]).value].flags)
    ensures Faults(s)
    decreases PlaceStage(s.workers[w]), FillStage(s)
  {
    Owned(s, w);
    var op := if s.filling.Some? then FillOp else WorkOp(w);
    var t := Step(s, op);
    StepKeeps(s, op);
    if t.fault != Sound {
      FaultsNow(t);
    } else if s.filling.Some? {
      FillsOther(s, SlotOf(s.workers[w]).value, t);
      DoomWork(t, w);
    } else if s.workers[w].Freeing? || s.workers[w].Handing? {
      WorkerEnds(s, w, t);
    } else {
      WorkerMoves(s, w, t);
      DoomWork(t, w);
    }
    FaultsAfter(s, op, t);
  }

  predicate Lockable(s: State, w: nat) { w < |s.workers| && (s.workers[w].AtTop? || s.workers[w].Waiting?) }

  // How far the pool is from picking the next pending job.
  ghost function PickStage(s: State): nat {
    if s.holder.Some? && s.holder.value < |s.workers| then
      var pc := s.workers[s.holder.value];
      if pc.Unlocking? then 5 else if pc.Checking? then 2 else 1
    else if exists w :: Lockable(s, w) then 3 else 4
  }

  // The step that brings the next pending job to a worker.
  ghost function PickOp(s: State): Op {
    if s.filling.Some? then FillOp
    else if s.holder.Some? then WorkOp(s.holder.value)
    else if exists w :: Lockable(s, w) then (var w :| Lockable(s, w); WorkOp(w)) else LaunchOp
  }

  lemma PickProgress(s: State)
    requires Inv(s) && s.fault == Sound && s.filling.None? && s.pending != []
    requires !(s.holder.Some? && s.workers[s.holder.value].Picking?)
    ensures !PickOp(s).CancelOp? && !PickOp(s).StoreOp?
    ensures var t := Step(s, PickOp(s));
            && t.fault == Sound && t.pending == s.pending && t.slots == s.slots && t.filling == s.filling
            && PickStage(t) < PickStage(s)
  {
    var t := Step(s, PickOp(s));
    if s.holder.Some? {
      assert WorkerFits(s, s.holder.value);
    } else if exists w :: Lockable(s, w) {
      assert t.holder.Some? && t.workers[t.holder.value].Checking?;
    } else {
      assert Lockable(t, |s.workers|);
    }
  }

  lemma FillProgress(s: State, k: nat, t: State)
    requires Inv(s) && s.fault == Sound && k < |s.pending| && s.filling.Some? && t == Step(s, FillOp)
    requires s.filling.value.slot != s.pending[k]
    ensures t.fault == Sound && t.pending == s.pending && |t.slots| == |s.slots| && PickStage(t) == PickStage(s)
    ensures t.slots[s.pending[k]].flags == s.slots[s.pending[k]].flags && FillStage(t) < FillStage(s)
    ensures t.filling.Some? ==> t.filling.value.slot == s.filling.value.slot
  {
    assert forall w :: Lockable(t, w) <==> Lockable(s, w);
  }

  // The worker that picks the job finds in_use clear.
  lemma {:induction false} DoomPending(s: State, k: nat)
    requires Inv(s) && s.fault == Sound && k < |s.pending| && !s.slots[s.pending[k]].flags.inUse
    requires s.filling.Some? ==> s.filling.value.slot != s.pending[k]
    ensures Faults(s)
    decreases k, PickStage(s), FillStage(s)
  {
    var op := PickOp(s);
    var t := Step(s, op);
    StepKeeps(s, op);
    if s.filling.Some? {
      FillProgress(s, k, t);
      DoomPending(t, k);
    } else if s.holder.Some? && s.workers[s.holder.value].Picking? {
      var w := s.holder.value;
      assert t == Pick(s, w);
      if k == 0 { DoomWork(t, w); } else { DoomPending(t, k - 1); }
    } else {
      PickProgress(s);
      DoomPending(t, k);
    }
    FaultsAfter(s, op, t);
  }

  // Flags that do not fit are found by an assertion when the pool only goes on.
  lemma Doom(s: State, id: nat)
    requires Inv(s) && s.fault == Sound && id < |s.slots| && !Fits(s, id, s.slots[id].flags)
    ensures Faults(s)
  {
    assert OnOneList(s, id) && Placed(s, id);
    if id in s.free {
      var k :| 0 <= k < |s.free| && s.free[k] == id;
      DoomFree(s, k);
    } else if id in s.pending {
      var k :| 0 <= k < |s.pending| && s.pending[k] == id;
      DoomPending(s, k);
    } else if id in s.done {
      var k :| 0 <= k < |s.done| && s.done[k] == id;
      DoomDone(s, k);
    } else {
      DoomWork(s, s.slots[id].owner);
    }
  }

  /**
   Exactly when cancels break an assertion: from clean flags, the pool can come to a failed assertion
   behind a cancel's store, without any other cancel, if and only if the bits the cancel had loaded are
   not the ones due where the job now is.
   */
  lemma TornIff(s: State, n: nat)
    requires Inv(s) && Clean(s) && s.fault == Sound && n < |s.cancels|
    ensures Inv(Step(s, StoreOp(n))) && (Faults(Step(s, StoreOp(n))) <==> !Harmless(s, n))
  {
    var t, id := Step(s, StoreOp(n)), s.cancels[n].slot;
    StoreClean(s, n);
    if Harmless(s, n) {
      forall ops | Quiet(ops) ensures Run(t, ops).fault == Sound { QuietIsSound(t, ops); }
    } else {
      assert !Fits(t, id, t.slots[id].flags);
      Doom(t, id);
    }
  }

  /** A cancel that loads the flags of a job before its worker clears in_use, and stores them behind that. */
  lemma TornCancel(s: State, w: nat, n: nat)
    requires Inv(s) && Clean(s) && s.fault == Sound && w < |s.workers| && n < |s.cancels|
    requires s.workers[w].Marking? && s.cancels[n].slot == s.workers[w].slot && s.cancels[n].flags.inUse
    ensures Inv(Step(s, StoreOp(n))) && Faults(Step(s, StoreOp(n)))
  {
    Owned(s, w);
    TornIff(s, n);
  }

  ghost predicate CanFault(s: State)
    requires Inv(s)
  {
    exists ops :: Run(s, ops).fault != Sound
  }

  lemma CanFaultAfter(s: State, op: Op, t: State)
    requires Inv(s) && t == Step(s, op) && Inv(t) && CanFault(t)
    ensures CanFault(s)
  {
    var rest :| Run(t, rest).fault != Sound;
    RunStep(s, op, t, rest);
    assert Run(s, [op] + rest).fault != Sound;
  }

  const IN_USE := Flags(true, false, false)

  // One job slot, one worker, one job and one cancel, which loads the flags of the job while it is pending:
  // the states of a run up to the worker that is about to set finished.
  function TornState(p: Proto, k: nat): State
    requires k <= 13
  {
    var hand := !p.kind.NoValue?;
    var f := if k == 1 || k == 2 || k == 13 then CLEARED else IN_USE;
    State([if k == 0 then Job(CLEARED, Proto(NoValue, false), 0, 0) else Job(f, p, 0, 0)],
          if k == 0 then [0] else [], if 1 <= k <= 6 then [0] else [], if k >= 7 then [0] else [], [],
          [TornPlace(k, hand)], if 5 <= k <= 7 then Some(0) else None,
          if k == 1 then Some(Zeroed(0)) else if k == 2 then Some(Loaded(0, CLEARED)) else None, Idle,
          if k >= 4 then [Canceling(0, IN_USE)] else [], if k == 0 then [] else [p], if k >= 7 then [0] else [], {},
          if k >= 11 && !p.kind.Unknown? then [Handled(0)] else [], Sound)
  }

  function TornPlace(k: nat, hand: bool): Pc {
    if k <= 4 then AtTop else if k == 5 then Checking else if k == 6 then Picking else if k == 7 then Unlocking(0)
    else if k == 8 then Starting(0) else if k == 9 then Deciding(0) else if k == 10 then Running(0)
    else if k == 11 then Leaving(0, hand) else if k == 12 then Clearing(0, hand, IN_USE) else Marking(0, hand)
  }

  function TornOp(p: Proto, k: nat): Op {
    if k == 0 then EnqueueOp(p) else if k <= 2 then FillOp else if k == 3 then CancelOp(0) else WorkOp(0)
  }

  lemma TornEnqueue(p: Proto, k: nat)
    requires k < 4
    ensures Step(TornState(p, k), TornOp(p, k)) == TornState(p, k + 1)
  {}

  lemma TornPick(p: Proto, k: nat)
    requires 4 <= k < 8
    ensures Step(TornState(p, k), TornOp(p, k)) == TornState(p, k + 1)
  {}

  lemma TornWork(p: Proto, k: nat)
    requires 8 <= k < 13
    ensures Step(TornState(p, k), TornOp(p, k)) == TornState(p, k + 1)
  {}

  lemma TornStep(p: Proto, k: nat)
    requires k < 13
    ensures Step(TornState(p, k), TornOp(p, k)) == TornState(p, k + 1)
  {
    if k < 4 { TornEnqueue(p, k); } else if k < 8 { TornPick(p, k); } else { TornWork(p, k); }
  }

  lemma {:induction false} TornFaults(p: Proto, k: nat)
    requires k <= 13 && Inv(TornState(p, k))
    ensures CanFault(TornState(p, k))
    decreases 13 - k
  {
    if k == 13 {
      TornEnd(p, TornState(p, k));
    } else {
      StepKeeps(TornState(p, k), TornOp(p, k));
      TornStep(p, k);
      TornFaults(p, k + 1);
      CanFaultAfter(TornState(p, k), TornOp(p, k), TornState(p, k + 1));
    }
  }

  lemma TornEnd(p: Proto, s: State)
    requires s == TornState(p, 13) && Inv(s)
    ensures CanFault(s)
  {
    forall id | 0 <= id < |s.slots| ensures Fits(s, id, s.slots[id].flags) { assert s.working == [0]; }
    TornCancel(s, 0, 0);
    var t := Step(s, StoreOp(0));
    var ops :| Quiet(ops) && Run(t, ops).fault != Sound;
    CanFaultAfter(s, StoreOp(0), t);
  }

  lemma TornStart(p: Proto)
    ensures Init(1, 1) == TornState(p, 0)
  {}

  /** Such a run: one worker, one job of any kind, one cancel. */
  lemma TornRun(p: Proto)
    ensures Inv(Init(1, 1)) && CanFault(Init(1, 1))
  {
    InitHolds(1, 1);
    TornStart(p);
    TornFaults(p, 0);
  }
}
