/**
 What cancels of thrd_pool_base.c prevent: a job whose flag is set before its worker looks at it is never
 handled, and one whose flag is set before the consumer looks at it is never called back.
 */
module ThreadPoolCancels {
  import opened Options
  import opened SlotLists
  import opened ThreadPool

  // The cancel flag is set, and no thread holds a copy of the flags without it that it will store.
  predicate Marked(s: State, id: nat) {
    && id < |s.slots| && s.slots[id].flags.cancelled
    && (s.filling.Some? && s.filling.value.Loaded? && s.filling.value.slot == id ==> s.filling.value.flags.cancelled)
    && (forall w :: 0 <= w < |s.workers| ==> Carries(s.workers[w], id))
  }

  predicate Carries(pc: Pc, id: nat) {
    (pc.Clearing? || pc.Finishing?) && pc.slot == id ==> pc.flags.cancelled
  }

  // The worker has not looked at the cancel flag yet.
  predicate Undecided(pc: Pc) { pc.Unlocking? || pc.Starting? || pc.Deciding? }

  // The worker has seen the cancel flag and gives the slot back.
  predicate Dropping(pc: Pc) {
    pc.Freeing? || ((pc.Leaving? || pc.Clearing? || pc.Marking? || pc.Finishing?) && !pc.hand)
  }

  // The job in the slot waits for a worker or for its decision, with its flag set, or was dropped.
  predicate Halted(s: State, id: nat) {
    || (id in s.pending && Marked(s, id))
    || (id in s.working && id < |s.slots| && s.slots[id].owner < |s.workers|
        && ((Undecided(s.workers[s.slots[id].owner]) && Marked(s, id)) || Dropping(s.workers[s.slots[id].owner])))
  }

  predicate Held(s: State, job: nat, id: nat) { id < |s.slots| && id !in s.free && s.slots[id].job == job }

  // The job was not handled and is on its way out.
  ghost predicate Stopped(s: State, job: nat) {
    && job < |s.protos| && Handles(s.log, job) == 0 && Finishes(s.log, job) == 0
    && forall id :: Held(s, job, id) ==> Halted(s, id)
  }

  // The job was not called back, and its flag is set.
  ghost predicate Muted(s: State, job: nat) {
    && job < |s.protos| && Finishes(s.log, job) == 0
    && forall id :: Held(s, job, id) ==> Marked(s, id)
  }

  // ---- a set flag stays set ----

  lemma LastIsIn(ids: seq<nat>)
    requires ids != []
    ensures ids[|ids| - 1] in ids
  {}

  lemma WorkCarries(s: State, w: nat, id: nat)
    requires GoodSlots(s) && w < |s.workers| && id < |s.slots|
    requires s.slots[id].flags.cancelled && Carries(s.workers[w], id)
    ensures |Work(s, w).slots| == |s.slots| && |Work(s, w).workers| == |s.workers| && Work(s, w).filling == s.filling
    ensures Work(s, w).slots[id].flags.cancelled && Carries(Work(s, w).workers[w], id)
    ensures forall v :: 0 <= v < |s.workers| && v != w ==> Work(s, w).workers[v] == s.workers[v]
  {
    match s.workers[w]
    case Leaving(_, _) =>
    case Clearing(_, _, _) =>
    case Marking(_, _) =>
    case Finishing(_, _, _) =>
    case _ =>
  }

  lemma WorkMarked(s: State, w: nat, id: nat)
    requires GoodSlots(s) && w < |s.workers| && id < |s.slots| && Marked(s, id)
    ensures Marked(Work(s, w), id)
  {
    var t := Work(s, w);
    WorkCarries(s, w, id);
    forall v | 0 <= v < |t.workers| ensures Carries(t.workers[v], id) {
      assert v < |s.workers| && Carries(s.workers[v], id);
    }
  }

  lemma StepMarked(s: State, op: Op, id: nat)
    requires Inv(s) && id < |s.slots| && id !in s.free && Marked(s, id)
    ensures Marked(Step(s, op), id)
  {
    match op
    case EnqueueOp(_) => if s.free != [] { LastIsIn(s.free); }
    case WorkOp(w) => if w < |s.workers| { WorkMarked(s, w, id); }
    case LaunchOp => assert forall w :: 0 <= w < |s.workers| ==> Carries(s.workers[w], id);
    case _ =>
  }

  // ---- who holds a job ----

  // A slot in use behind a step held the same job before, unless it was just enqueued.
  lemma HeldBefore(s: State, op: Op, job: nat, id: nat)
    requires Inv(s) && job < |s.protos| && Held(Step(s, op), job, id)
    ensures Held(s, job, id)
  {
    match op
    case EnqueueOp(_) => if s.free != [] { LastIsIn(s.free); }
    case WorkOp(w) => if w < |s.workers| { WorkFrees(s, w); }
    case _ =>
  }

  lemma WorkFrees(s: State, w: nat)
    requires GoodSlots(s) && w < |s.workers|
    ensures |Work(s, w).slots| == |s.slots| && forall k :: k in s.free ==> k in Work(s, w).free
    ensures forall k :: 0 <= k < |s.slots| ==> Work(s, w).slots[k].job == s.slots[k].job
  {}

  // What a step adds to the log.
  lemma StepLog(s: State, op: Op)
    requires Inv(s)
    ensures var t := Step(s, op);
            || t.log == s.log
            || (op.WorkOp? && op.w < |s.workers| && s.workers[op.w].Running?
                && t.log == s.log + [Handled(s.slots[s.workers[op.w].slot].job)])
            || (op.ConsumeOp? && s.consumer.Notifying? && !s.slots[s.consumer.slot].flags.cancelled
                && t.log == s.log + [Finished(s.slots[s.consumer.slot].job)])
  {}

  lemma StepProtos(s: State, op: Op)
    requires Inv(s)
    ensures |s.protos| <= |Step(s, op).protos|
  {}

  // A worker or the consumer at work on a slot holds its job.
  lemma WorkerHolds(s: State, w: nat)
    requires Inv(s) && w < |s.workers| && SlotOf(s.workers[w]).Some?
    ensures var id := SlotOf(s.workers[w]).value;
            id in s.working && s.slots[id].owner == w && Held(s, s.slots[id].job, id)
  {
    var id := SlotOf(s.workers[w]).value;
    assert WorkerFits(s, w);
    assert OnOneList(s, id);
  }

  lemma ConsumerHolds(s: State)
    requires Inv(s) && s.consumer != Idle
    ensures var id := s.consumer.slot; id in s.done && Held(s, s.slots[id].job, id)
  {
    var id := s.consumer.slot;
    assert id == s.done[0] && OnOneList(s, id);
  }

  // ---- callbacks ----

  lemma StepMuted(s: State, op: Op, job: nat)
    requires Inv(s) && Muted(s, job)
    ensures Muted(Step(s, op), job)
  {
    var t := Step(s, op);
    StepLog(s, op);
    StepProtos(s, op);
    if t.log != s.log {
      LogMore(s.log, t.log[|s.log|]);
      if op.ConsumeOp? && s.consumer.Notifying? { ConsumerHolds(s); }
    }
    forall id | Held(t, job, id) ensures Marked(t, id) {
      HeldBefore(s, op, job, id);
      StepMarked(s, op, id);
    }
  }

  // ---- handlers ----

  lemma WorkHalted(s: State, w: nat, id: nat)
    requires Inv(s) && w < |s.workers| && id < |s.slots| && id !in s.free && Halted(s, id)
    ensures id in Work(s, w).free || Halted(Work(s, w), id)
  {
    var t := Work(s, w);
    if Marked(s, id) { WorkMarked(s, w, id); }
    assert OnOneList(s, id) && Placed(s, id);
    if SlotOf(s.workers[w]).Some? {
      WorkerHolds(s, w);
      var mine := SlotOf(s.workers[w]).value;
      if mine == id {
        WorkHaltedOwn(s, w, id);
      } else {
        WorkHaltedOther(s, w, mine, id);
      }
    } else {
      WorkHaltedPick(s, w, id);
    }
  }

  // The worker that has the slot.
  lemma WorkHaltedOwn(s: State, w: nat, id: nat)
    requires GoodSlots(s) && w < |s.workers| && id < |s.slots| && Halted(s, id)
    requires SlotOf(s.workers[w]) == Some(id) && id in s.working && id !in s.pending && s.slots[id].owner == w
    requires Marked(s, id) ==> Marked(Work(s, w), id)
    ensures id in Work(s, w).free || Halted(Work(s, w), id)
  {
    match s.workers[w]
    case Unlocking(_) =>
    case Starting(_) =>
    case Deciding(_) =>
    case _ => WorkDropping(s, w, id);
  }

  lemma WorkDropping(s: State, w: nat, id: nat)
    requires GoodSlots(s) && w < |s.workers| && id < |s.slots| && Dropping(s.workers[w])
    requires SlotOf(s.workers[w]) == Some(id) && id in s.working && s.slots[id].owner == w
    ensures id in Work(s, w).free || Halted(Work(s, w), id)
  {}

  // A worker with another slot.
  lemma WorkHaltedOther(s: State, w: nat, mine: nat, id: nat)
    requires Inv(s) && w < |s.workers| && id < |s.slots| && Halted(s, id)
    requires SlotOf(s.workers[w]) == Some(mine) && mine != id && mine in s.working
    requires Marked(s, id) ==> Marked(Work(s, w), id)
    ensures Halted(Work(s, w), id)
  {
    assert Placed(s, id);
    WithoutFacts(s.working, mine);
    OtherSlot(s, w, mine, id);
    OtherWorkers(s, w);
  }

  lemma OtherSlot(s: State, w: nat, mine: nat, id: nat)
    requires GoodSlots(s) && w < |s.workers| && id < |s.slots| && SlotOf(s.workers[w]) == Some(mine) && mine != id
    requires forall x :: x in Without(s.working, mine) <==> x in s.working && x != mine
    ensures var t := Work(s, w);
            && |t.slots| == |s.slots| && t.slots[id] == s.slots[id]
            && t.pending == s.pending && (id in t.working <==> id in s.working)
  {}

  lemma OtherWorkers(s: State, w: nat)
    requires GoodSlots(s) && w < |s.workers|
    ensures var t := Work(s, w);
            |t.workers| == |s.workers| && forall v :: 0 <= v < |s.workers| && v != w ==> t.workers[v] == s.workers[v]
  {
    match s.workers[w]
    case Picking =>
    case Freeing(_) =>
    case Handing(_) =>
    case _ =>
  }

  // A worker that has none, and may pick one.
  lemma WorkHaltedPick(s: State, w: nat, id: nat)
    requires Inv(s) && w < |s.workers| && id < |s.slots| && id !in s.free && Halted(s, id)
    requires SlotOf(s.workers[w]).None?
    requires Marked(s, id) ==> Marked(Work(s, w), id)
    ensures Halted(Work(s, w), id)
  {
    assert OnOneList(s, id) && Placed(s, id);
    if s.workers[w].Picking? && s.filling.None? {
      assert WorkerFits(s, w);
      FirstTaken(s.pending);
    }
  }

  lemma StepHalted(s: State, op: Op, id: nat)
    requires Inv(s) && id < |s.slots| && id !in s.free && Halted(s, id)
    ensures id in Step(s, op).free || Halted(Step(s, op), id)
  {
    if Marked(s, id) { StepMarked(s, op, id); }
    match op
    case EnqueueOp(p) => if s.fault == Sound { EnqueueHalted(s, p, id); }
    case WorkOp(w) => if w < |s.workers| { WorkHalted(s, w, id); }
    case ConsumeOp => if s.fault == Sound { ConsumeHalted(s, id); }
    case LaunchOp => LaunchHalted(s, Step(s, op), id);
    case _ => SameHalted(s, Step(s, op), id);
  }

  lemma EnqueueHalted(s: State, p: Proto, id: nat)
    requires GoodSlots(s) && id < |s.slots| && id !in s.free && Halted(s, id)
    requires Marked(s, id) ==> Marked(Enqueue(s, p), id)
    ensures Halted(Enqueue(s, p), id)
  {
    if s.free != [] { LastIsIn(s.free); }
  }

  lemma LaunchHalted(s: State, t: State, id: nat)
    requires Halted(s, id) && (Marked(s, id) ==> Marked(t, id))
    requires t == s || t == s.(workers := s.workers + [AtTop])
    ensures Halted(t, id)
  {}

  lemma SameHalted(s: State, t: State, id: nat)
    requires id < |s.slots| == |t.slots| && Halted(s, id) && t.pending == s.pending && t.working == s.working
    requires t.workers == s.workers && t.slots[id].owner == s.slots[id].owner && (Marked(s, id) ==> Marked(t, id))
    ensures Halted(t, id)
  {}

  lemma ConsumeHalted(s: State, id: nat)
    requires Inv(s) && id < |s.slots| && id !in s.free && Halted(s, id)
    requires Marked(s, id) ==> Marked(Consume(s), id)
    ensures Halted(Consume(s), id)
  {
    assert OnOneList(s, id);
    if s.consumer.Called? {
      ConsumerHolds(s);
      WithoutFacts(s.working, s.consumer.slot);
    }
  }

  lemma StepStopped(s: State, op: Op, job: nat)
    requires Inv(s) && Stopped(s, job)
    ensures Stopped(Step(s, op), job)
  {
    var t := Step(s, op);
    StepProtos(s, op);
    StoppedLog(s, op, job);
    forall id | Held(t, job, id) ensures Halted(t, id) {
      HeldBefore(s, op, job, id);
      StepHalted(s, op, id);
    }
  }

  lemma StoppedLog(s: State, op: Op, job: nat)
    requires Inv(s) && Stopped(s, job)
    ensures Handles(Step(s, op).log, job) == 0 && Finishes(Step(s, op).log, job) == 0
  {
    var t := Step(s, op);
    StepLog(s, op);
    if t.log != s.log {
      LogMore(s.log, t.log[|s.log|]);
      if op.WorkOp? {
        WorkerHolds(s, op.w);
      } else {
        ConsumerHolds(s);
      }
      var id := if op.WorkOp? then s.workers[op.w].slot else s.consumer.slot;
      assert OnOneList(s, id);
    }
  }

  // ---- runs ----

  lemma {:induction false} StoppedRun(s: State, ops: seq<Op>, job: nat)
    requires Inv(s) && Stopped(s, job)
    ensures Handles(Run(s, ops).log, job) == 0 && Finishes(Run(s, ops).log, job) == 0
    decreases ops
  {
    if ops != [] {
      StepStopped(s, ops[0], job);
      StepKeeps(s, ops[0]);
      StoppedRun(Step(s, ops[0]), ops[1..], job);
    }
  }

  lemma {:induction false} MutedRun(s: State, ops: seq<Op>, job: nat)
    requires Inv(s) && Muted(s, job)
    ensures Finishes(Run(s, ops).log, job) == 0
    decreases ops
  {
    if ops != [] {
      StepMuted(s, ops[0], job);
      StepKeeps(s, ops[0]);
      MutedRun(Step(s, ops[0]), ops[1..], job);
    }
  }

  // No thread is about to put flags back in which the cancel flag is missing.
  predicate Unspoiled(s: State, id: nat) {
    && (s.filling.Some? && s.filling.value.Loaded? && s.filling.value.slot == id ==> s.filling.value.flags.cancelled)
    && (forall w :: 0 <= w < |s.workers| ==> Carries(s.workers[w], id))
  }

  // The job waits on the pending list or for its worker to look at the flag.
  predicate Early(s: State, id: nat)
    requires id < |s.slots|
  {
    id in s.pending || (id in s.working && s.slots[id].owner < |s.workers| && Undecided(s.workers[s.slots[id].owner]))
  }

  lemma UndecidedUnhandled(s: State, id: nat)
    requires Inv(s) && id < |s.slots| && Early(s, id)
    ensures id !in s.free && s.slots[id].job < |s.protos|
    ensures Handles(s.log, s.slots[id].job) == 0 && Finishes(s.log, s.slots[id].job) == 0
  {
    assert OnOneList(s, id) && Placed(s, id) && Told(s, id);
    if s.consumer != Idle { ConsumerHolds(s); }
  }

  /**
   A cancel whose store comes before the worker of the job looks at the flag: however the run goes on, the
   handler is never called, nor the finish callback.
   */
  lemma CancelPreventsHandler(s: State, n: nat, ops: seq<Op>)
    requires Inv(s) && s.fault == Sound && n < |s.cancels|
    requires Early(s, s.cancels[n].slot) && Unspoiled(s, s.cancels[n].slot)
    ensures var t, job := Step(s, StoreOp(n)), s.slots[s.cancels[n].slot].job;
            Inv(t) && Handles(Run(t, ops).log, job) == 0 && Finishes(Run(t, ops).log, job) == 0
  {
    var t, id := Step(s, StoreOp(n)), s.cancels[n].slot;
    var job := s.slots[id].job;
    StepKeeps(s, StoreOp(n));
    UndecidedUnhandled(s, id);
    assert Marked(t, id) && Halted(t, id);
    forall k | Held(t, job, k) ensures k == id { assert OwnJobs(t) && Held(t, job, id); }
    StoppedRun(t, ops, job);
  }

  /** One whose store comes before the consumer looks at the flag: the finish callback is never called. */
  lemma CancelPreventsFinish(s: State, n: nat, ops: seq<Op>)
    requires Inv(s) && s.fault == Sound && n < |s.cancels| && s.cancels[n].slot !in s.free
    requires s.consumer != Called(s.cancels[n].slot) && Unspoiled(s, s.cancels[n].slot)
    ensures var t, job := Step(s, StoreOp(n)), s.slots[s.cancels[n].slot].job;
            Inv(t) && Finishes(Run(t, ops).log, job) == 0
  {
    var t, id := Step(s, StoreOp(n)), s.cancels[n].slot;
    var job := s.slots[id].job;
    StepKeeps(s, StoreOp(n));
    assert Told(s, id) && Marked(t, id);
    forall k | Held(t, job, k) ensures k == id { assert OwnJobs(t) && Held(t, job, id); }
    MutedRun(t, ops, job);
  }

  /** One whose store comes when the worker is about to call the handler prevents nothing of that. */
  lemma LateCancel(s: State, n: nat, w: nat)
    requires Inv(s) && s.fault == Sound && n < |s.cancels| && w < |s.workers|
    requires s.workers[w].Running? && s.workers[w].slot == s.cancels[n].slot
    requires !s.slots[s.cancels[n].slot].proto.kind.Unknown?
    ensures var t, job := Step(s, StoreOp(n)), s.slots[s.cancels[n].slot].job;
            Inv(t) && Handles(Step(t, WorkOp(w)).log, job) == 1
  {
    StepKeeps(s, StoreOp(n));
    RunningUnhandled(s, w);
    LogMore(s.log, Handled(s.slots[s.cancels[n].slot].job));
  }

  lemma RunningUnhandled(s: State, w: nat)
    requires Inv(s) && w < |s.workers| && s.workers[w].Running?
    ensures Handles(s.log, s.slots[s.workers[w].slot].job) == 0
  {
    WorkerHolds(s, w);
    assert Told(s, s.workers[w].slot);
  }

  /** One whose store comes between the load and the store of the enqueueing thread is undone by that store. */
  lemma UndoneCancel(s: State, n: nat)
    requires Inv(s) && s.fault == Sound && n < |s.cancels|
    requires s.filling == Some(Loaded(s.cancels[n].slot, CLEARED))
    ensures var t, id := Step(s, StoreOp(n)), s.cancels[n].slot;
            Inv(t) && id in Step(t, FillOp).pending && Step(t, FillOp).slots[id].flags == Flags(true, false, false)
  {
    StepKeeps(s, StoreOp(n));
  }
}
