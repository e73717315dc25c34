/**
 The job protocol of thrd_pool_base.c as interleaved atomic steps. A step is what a thread does under
 the mutex of the memory slots, or a single load or store of the flags of a job, which share one word.
 Slots are numbers; the three lists are sequences of slots. A failed assertion of the source ends the
 run: `fault` says which one it was.
 */
module ThreadPool {
  import opened Options
  import opened SlotLists

  // The word of flags of a job.
  datatype Flags = Flags(inUse: bool, cancelled: bool, finished: bool)

  const CLEARED := Flags(false, false, false)

  // THREAD_JOB_RETVAL_NONE, one of the four other kinds, or a number the switch has no case for.
  datatype Kind = NoValue | Typed | Unknown

  // What a job asks for: its kind of return value, and whether it has a finish callback.
  datatype Proto = Proto(kind: Kind, hasFinish: bool)

  // ThreadPoolInstanceJob. `job` numbers the enqueued jobs; `owner` is the worker that picked the job.
  datatype Job = Job(flags: Flags, proto: Proto, job: nat, owner: nat)

  // Where a worker stands in ThreadPoolInstanceMainLoop. `hand` says that the job goes to the done list.
  datatype Pc =
    | AtTop                                             // about to lock the condition's mutex
    | Checking                                          // holds it, about to look at the pending list
    | Waiting                                           // inside pthread_cond_wait
    | Picking                                           // has seen a pending job
    | Unlocking(slot: nat)                              // has taken it
    | Starting(slot: nat)                               // about to assert in_use
    | Deciding(slot: nat)                               // about to look at the cancel flag
    | Running(slot: nat)                                // about to call the handler
    | Leaving(slot: nat, hand: bool)                    // about to load the flags to clear in_use
    | Clearing(slot: nat, hand: bool, flags: Flags)     // about to store them
    | Marking(slot: nat, hand: bool)                    // about to load the flags to set finished
    | Finishing(slot: nat, hand: bool, flags: Flags)    // about to store them
    | Freeing(slot: nat)
    | Handing(slot: nat)                                // about to switch the job to the done list

  // The main thread in ThreadPoolJobConsumeReplies.
  datatype Consumer = Idle | Peeked(slot: nat) | Checked(slot: nat) | Notifying(slot: nat) | Called(slot: nat)

  // A thread inside ThreadPoolJobEnqueue, with the mutex of the memory slots: behind the memset, about
  // to load the flags, or with the flags loaded.
  datatype Filling = Zeroed(slot: nat) | Loaded(slot: nat, flags: Flags)

  // A thread inside ThreadPoolJobCancel that has loaded the flags.
  datatype Canceling = Canceling(slot: nat, flags: Flags)

  // The assertions, by their lines: none failed, 200, 507, 515, 281, 282.
  datatype Fault = Sound | SlotInUse | NothingPicked | JobUnused | ReplyInUse | ReplyUnfinished

  datatype Event = Handled(job: nat) | Finished(job: nat)

  datatype State = State(
    slots: seq<Job>, free: seq<nat>, pending: seq<nat>, working: seq<nat>, done: seq<nat>,
    workers: seq<Pc>, holder: Option<nat>, filling: Option<Filling>, consumer: Consumer, cancels: seq<Canceling>,
    protos: seq<Proto>, picked: seq<nat>, canceled: set<nat>, log: seq<Event>, fault: Fault)

  function SlotOf(pc: Pc): Option<nat> {
    if pc.AtTop? || pc.Checking? || pc.Waiting? || pc.Picking? then None else Some(pc.slot)
  }

  predicate HoldsMutex(pc: Pc) { pc.Checking? || pc.Picking? || pc.Unlocking? }

  predicate GoodSlots(s: State) {
    var n := |s.slots|;
    && Below(s.free, n) && Below(s.pending, n) && Below(s.working, n) && Below(s.done, n)
    && (forall w :: 0 <= w < |s.workers| && SlotOf(s.workers[w]).Some? ==> SlotOf(s.workers[w]).value < n)
    && (s.consumer != Idle ==> s.consumer.slot < n)
    && (s.filling.Some? ==> s.filling.value.slot < n)
    && (forall k :: 0 <= k < |s.cancels| ==> s.cancels[k].slot < n)
  }

  // ---- the steps ----

  function SetFlags(s: State, id: nat, f: Flags): State
    requires id < |s.slots|
  {
    s.(slots := s.slots[id := s.slots[id].(flags := f)])
  }

  function Goto(s: State, w: nat, pc: Pc): State
    requires w < |s.workers|
  {
    s.(workers := s.workers[w := pc])
  }

  // ThreadPoolJobEnqueue up to its memset: grabbing appends the slot to the pending list and keeps the mutex.
  function Enqueue(s: State, p: Proto): State
    requires GoodSlots(s)
  {
    if s.filling.Some? || s.free == [] then s
    else
      var id := s.free[|s.free| - 1];
      if s.slots[id].flags.inUse then s.(fault := SlotInUse)
      else
        s.(slots := s.slots[id := Job(CLEARED, p, |s.protos|, 0)], free := s.free[..|s.free| - 1],
           pending := s.pending + [id], protos := s.protos + [p], filling := Some(Zeroed(id)))
  }

  // Its assignment to in_use, and the unlocking behind it.
  function Fill(s: State): State
    requires GoodSlots(s)
  {
    match s.filling
    case None => s
    case Some(Zeroed(id)) => s.(filling := Some(Loaded(id, s.slots[id].flags)))
    case Some(Loaded(id, f)) => SetFlags(s, id, f.(inUse := true)).(filling := None)
  }

  // The load and the store of ThreadPoolJobCancel, which takes no mutex.
  function Cancel(s: State, id: nat): State {
    if id < |s.slots| then s.(cancels := s.cancels + [Canceling(id, s.slots[id].flags)]) else s
  }

  function Store(s: State, n: nat): State
    requires GoodSlots(s)
  {
    if n >= |s.cancels| then s
    else
      var c := s.cancels[n];
      SetFlags(s, c.slot, c.flags.(cancelled := true))
        .(cancels := s.cancels[..n] + s.cancels[n + 1..],
          canceled := if c.slot in s.free then s.canceled else s.canceled + {s.slots[c.slot].job})
  }

  // MemSlotBaseSlotFree for a slot on the working or the done list.
  function FreeSlot(s: State, id: nat): State {
    s.(free := s.free + [id], working := Without(s.working, id), done := Without(s.done, id))
  }

  // MemSlotBaseSlotPointToHeadAndSwitchListID from the pending to the working list.
  function Pick(s: State, w: nat): State
    requires GoodSlots(s) && w < |s.workers| && s.pending != []
  {
    var id := s.pending[0];
    Goto(s, w, Unlocking(id)).(
      slots := s.slots[id := s.slots[id].(owner := w)],
      pending := s.pending[1..], working := s.working + [id], picked := s.picked + [s.slots[id].job])
  }

  // The handler, unless there is no case for the job's kind.
  function Handle(s: State, id: nat): State
    requires id < |s.slots|
  {
    if s.slots[id].proto.kind.Unknown? then s else s.(log := s.log + [Handled(s.slots[id].job)])
  }

  // The next step of worker w; one that waits for a mutex stays where it is.
  function Work(s: State, w: nat): State
    requires GoodSlots(s) && w < |s.workers|
  {
    match s.workers[w]
    case AtTop => if s.holder.None? then Goto(s, w, Checking).(holder := Some(w)) else s
    case Waiting => if s.holder.None? then Goto(s, w, Checking).(holder := Some(w)) else s
    case Checking => if s.pending == [] then Goto(s, w, Waiting).(holder := None) else Goto(s, w, Picking)
    case Picking =>
      if s.filling.Some? then s else if s.pending == [] then s.(fault := NothingPicked) else Pick(s, w)
    case Unlocking(id) => Goto(s, w, Starting(id)).(holder := None)
    case Starting(id) => if s.slots[id].flags.inUse then Goto(s, w, Deciding(id)) else s.(fault := JobUnused)
    case Deciding(id) => Goto(s, w, if s.slots[id].flags.cancelled then Leaving(id, false) else Running(id))
    case Running(id) => Goto(Handle(s, id), w, Leaving(id, !s.slots[id].proto.kind.NoValue?))
    case Leaving(id, hand) => Goto(s, w, Clearing(id, hand, s.slots[id].flags))
    case Clearing(id, hand, f) => Goto(SetFlags(s, id, f.(inUse := false)), w, Marking(id, hand))
    case Marking(id, hand) => Goto(s, w, Finishing(id, hand, s.slots[id].flags))
    case Finishing(id, hand, f) =>
      Goto(SetFlags(s, id, f.(finished := true)), w, if hand then Handing(id) else Freeing(id))
    case Freeing(id) => if s.filling.Some? then s else Goto(FreeSlot(s, id), w, AtTop)
    case Handing(id) =>
      if s.filling.Some? then s
      else Goto(s, w, AtTop).(working := Without(s.working, id), done := s.done + [id])
  }

  // The next step of ThreadPoolJobConsumeReplies.
  function Consume(s: State): State
    requires GoodSlots(s)
  {
    match s.consumer
    case Idle => if s.filling.Some? || s.done == [] then s else s.(consumer := Peeked(s.done[0]))
    case Peeked(id) => if s.slots[id].flags.inUse then s.(fault := ReplyInUse) else s.(consumer := Checked(id))
    case Checked(id) =>
      if s.slots[id].flags.finished then s.(consumer := Notifying(id)) else s.(fault := ReplyUnfinished)
    case Notifying(id) =>
      var q := s.slots[id];
      s.(consumer := Called(id),
         log := if q.proto.hasFinish && !q.flags.cancelled then s.log + [Finished(q.job)] else s.log)
    case Called(id) => if s.filling.Some? then s else FreeSlot(s, id).(consumer := Idle)
  }

  datatype Op =
    | EnqueueOp(p: Proto) | FillOp | CancelOp(id: nat) | StoreOp(n: nat) | LaunchOp | WorkOp(w: nat) | ConsumeOp

  function Step(s: State, op: Op): State
    requires GoodSlots(s)
  {
    if s.fault != Sound then s
    else
      match op
      case EnqueueOp(p) => Enqueue(s, p)
      case FillOp => Fill(s)
      case CancelOp(id) => Cancel(s, id)
      case StoreOp(n) => Store(s, n)
      case LaunchOp => s.(workers := s.workers + [AtTop])
      case WorkOp(w) => if w < |s.workers| then Work(s, w) else s
      case ConsumeOp => Consume(s)
  }

  // ---- the invariant, whatever cancels do to the flags ----

  // Every slot is free or on exactly one of the three lists.
  predicate OnOneList(s: State, id: nat) {
    && (id in s.free || id in s.pending || id in s.working || id in s.done)
    && !(id in s.free && id in s.pending) && !(id in s.free && id in s.working) && !(id in s.free && id in s.done)
    && !(id in s.pending && id in s.working) && !(id in s.pending && id in s.done)
    && !(id in s.working && id in s.done)
  }

  predicate Lists(s: State) {
    && GoodSlots(s)
    && Distinct(s.free) && Distinct(s.pending) && Distinct(s.working) && Distinct(s.done)
    && forall id :: 0 <= id < |s.slots| ==> OnOneList(s, id)
  }

  // A working job has its owner.
  predicate Placed(s: State, id: nat)
    requires id < |s.slots|
  {
    id in s.working ==> s.slots[id].owner < |s.workers| && SlotOf(s.workers[s.slots[id].owner]) == Some(id)
  }

  // A worker with a job is the owner of a working job; the holder of the mutex is where it should be.
  predicate WorkerFits(s: State, w: nat)
    requires GoodSlots(s) && w < |s.workers|
  {
    var pc := s.workers[w];
    && (SlotOf(pc).Some? ==> SlotOf(pc).value in s.working && s.slots[SlotOf(pc).value].owner == w)
    && (HoldsMutex(pc) <==> s.holder == Some(w))
    && (pc.Picking? ==> s.pending != [])
  }

  predicate EndsFit(s: State) {
    && (s.consumer != Idle ==> s.done != [] && s.done[0] == s.consumer.slot)
    && (s.filling.Some? ==> s.pending != [] && s.pending[|s.pending| - 1] == s.filling.value.slot)
    && (s.holder.Some? ==> s.holder.value < |s.workers|)
  }

  // Jobs are numbered as they are enqueued, picked in that order, and the pending ones come next.
  predicate InOrder(s: State)
    requires GoodSlots(s)
  {
    && (forall k :: 0 <= k < |s.picked| ==> s.picked[k] == k)
    && (forall k :: 0 <= k < |s.pending| ==> s.slots[s.pending[k]].job == |s.picked| + k)
    && |s.protos| == |s.picked| + |s.pending|
  }

  function Handles(log: seq<Event>, job: nat): nat { multiset(log)[Handled(job)] }

  function Finishes(log: seq<Event>, job: nat): nat { multiset(log)[Finished(job)] }

  // How often the handler of a job of this kind is called when nothing cancels it.
  function Calls(kind: Kind): nat { if kind.Unknown? then 0 else 1 }

  // What has happened to the job in a slot so far.
  predicate Told(s: State, id: nat)
    requires GoodSlots(s) && id < |s.slots|
  {
    var q := s.slots[id];
    id !in s.free ==>
      && q.job < |s.protos| && s.protos[q.job] == q.proto
      && (id in s.pending ==> Handles(s.log, q.job) == 0)
      && (id in s.done ==> Handles(s.log, q.job) == Calls(q.proto.kind) && !q.proto.kind.NoValue?)
      && (id in s.working && q.owner < |s.workers| ==> HandledFits(s, q, s.workers[q.owner]))
      && (if s.consumer == Called(id) then
            Finishes(s.log, q.job) == 1 || q.job in s.canceled || !q.proto.hasFinish
          else Finishes(s.log, q.job) == 0)
  }

  // A job that leaves for the done list was handled; one that is freed too, or it was canceled.
  predicate HandledFits(s: State, q: Job, pc: Pc) {
    if pc.Handing? || ((pc.Leaving? || pc.Clearing? || pc.Marking? || pc.Finishing?) && pc.hand) then
      Handles(s.log, q.job) == Calls(q.proto.kind) && !q.proto.kind.NoValue?
    else if pc.Freeing? || pc.Leaving? || pc.Clearing? || pc.Marking? || pc.Finishing? then
      q.job in s.canceled || (Handles(s.log, q.job) == 1 && q.proto.kind.NoValue?)
    else Handles(s.log, q.job) == 0
  }

  // A cancel flag, stored or just loaded, comes from a cancel that hit this job.
  predicate FlagTold(s: State, id: nat)
    requires id < |s.slots|
  {
    id !in s.free && s.slots[id].flags.cancelled ==> s.slots[id].job in s.canceled
  }

  predicate LoadTold(s: State, w: nat)
    requires GoodSlots(s) && w < |s.workers|
  {
    var pc := s.workers[w];
    (pc.Clearing? || pc.Finishing?) && pc.flags.cancelled ==> s.slots[pc.slot].job in s.canceled
  }

  predicate FillTold(s: State)
    requires GoodSlots(s)
  {
    s.filling.Some? && s.filling.value.Loaded? && s.filling.value.flags.cancelled ==>
      s.slots[s.filling.value.slot].job in s.canceled
  }

  predicate OwnJobs(s: State) {
    forall i, j :: 0 <= i < j < |s.slots| && i !in s.free && j !in s.free ==> s.slots[i].job != s.slots[j].job
  }

  // A finish callback comes behind the handler of its job, if there is a case for its kind, and only for
  // jobs that have one and return a value.
  predicate HandlerFirst(s: State) {
    forall j :: 0 <= j < |s.log| && s.log[j].Finished? ==>
      && s.log[j].job < |s.protos|
      && s.protos[s.log[j].job].hasFinish && !s.protos[s.log[j].job].kind.NoValue?
      && (Handled(s.log[j].job) in s.log[..j] <==> !s.protos[s.log[j].job].kind.Unknown?)
  }

  predicate Live(s: State, job: nat) {
    exists id :: 0 <= id < |s.slots| && id !in s.free && s.slots[id].job == job
  }

  // A job that is over was handled, unless canceled; if it was for the done list, its callback was made.
  predicate Settled(s: State, job: nat)
    requires job < |s.protos|
  {
    var p := s.protos[job];
    job in s.canceled ||
    (Handles(s.log, job) == Calls(p.kind) && (!p.kind.NoValue? && p.hasFinish ==> Finishes(s.log, job) == 1))
  }

  predicate Counted(s: State, job: nat) {
    && Handles(s.log, job) <= 1 && Finishes(s.log, job) <= 1
    && (job >= |s.protos| ==> Handles(s.log, job) == 0 && Finishes(s.log, job) == 0 && job !in s.canceled)
    && (job < |s.protos| ==> Live(s, job) || Settled(s, job))
    && (job < |s.protos| && s.protos[job].kind.Unknown? ==> Handles(s.log, job) == 0)
  }

  ghost predicate Inv(s: State) {
    && s.fault != NothingPicked && Lists(s) && EndsFit(s) && InOrder(s) && OwnJobs(s) && HandlerFirst(s)
    && (forall id :: 0 <= id < |s.slots| ==> Placed(s, id) && Told(s, id) && FlagTold(s, id))
    && (forall w :: 0 <= w < |s.workers| ==> WorkerFits(s, w) && LoadTold(s, w))
    && FillTold(s)
    && (forall job: nat :: Counted(s, job))
  }

  // ---- every step keeps the invariant ----

  lemma LogMore(log: seq<Event>, e: Event)
    ensures forall job :: Handles(log + [e], job) == Handles(log, job) + if e == Handled(job) then 1 else 0
    ensures forall job :: Finishes(log + [e], job) == Finishes(log, job) + if e == Finished(job) then 1 else 0
  {
    assert multiset(log + [e]) == multiset(log) + multiset{e};
  }

  lemma StillLive(s: State, t: State, job: nat)
    requires |s.slots| == |t.slots| && Live(s, job)
    requires forall id :: 0 <= id < |s.slots| && id !in s.free ==> id !in t.free && t.slots[id].job == s.slots[id].job
    ensures Live(t, job)
  {}

  // Steps that touch only flags, local copies of them, the cancels, and places of the same job.
  predicate SameLists(s: State, t: State) {
    && t.free == s.free && t.pending == s.pending && t.working == s.working && t.done == s.done
    && t.protos == s.protos && t.picked == s.picked && t.log == s.log && t.holder == s.holder
    && |t.slots| == |s.slots| && |t.workers| == |s.workers|
    && (forall k :: 0 <= k < |s.slots| ==> t.slots[k] == s.slots[k].(flags := t.slots[k].flags))
  }

  predicate SamePlaces(s: State, t: State)
    requires |t.workers| == |s.workers|
  {
    && (forall w :: 0 <= w < |s.workers| ==>
          && SlotOf(t.workers[w]) == SlotOf(s.workers[w]) && HoldsMutex(t.workers[w]) == HoldsMutex(s.workers[w])
          && (t.workers[w].Picking? ==> s.workers[w].Picking?))
    && (t.consumer == s.consumer
        || (t.consumer != Idle && s.consumer != Idle && t.consumer.slot == s.consumer.slot
            && !t.consumer.Called? && !s.consumer.Called?))
    && (t.filling.Some? ==> s.filling.Some? && t.filling.value.slot == s.filling.value.slot)
  }

  // Only jobs that are there are canceled.
  predicate MoreCanceled(s: State, t: State) {
    s.canceled <= t.canceled && forall job :: job in t.canceled && job !in s.canceled ==> job < |s.protos|
  }

  lemma SteadySlot(s: State, t: State, k: nat)
    requires Inv(s) && GoodSlots(t) && SameLists(s, t) && SamePlaces(s, t) && MoreCanceled(s, t) && k < |s.slots|
    requires k in s.working && s.slots[k].owner < |s.workers| ==>
               HandledFits(t, s.slots[k], t.workers[s.slots[k].owner])
    ensures OnOneList(t, k) && Placed(t, k) && Told(t, k)
  {
    assert OnOneList(s, k) && Placed(s, k) && Told(s, k);
  }

  lemma SteadyJobs(s: State, t: State)
    requires Inv(s) && SameLists(s, t) && MoreCanceled(s, t)
    ensures forall job: nat :: Counted(t, job)
  {
    forall job: nat ensures Counted(t, job) {
      assert Counted(s, job);
      if Live(s, job) { StillLive(s, t, job); }
    }
  }

  lemma Steady(s: State, t: State)
    requires Inv(s) && GoodSlots(t) && SameLists(s, t) && SamePlaces(s, t) && MoreCanceled(s, t)
    requires t.fault != NothingPicked && FillTold(t)
    requires forall w :: 0 <= w < |s.workers| && SlotOf(s.workers[w]).Some? ==>
               HandledFits(t, s.slots[SlotOf(s.workers[w]).value], t.workers[w])
    requires forall k :: 0 <= k < |s.slots| ==> FlagTold(t, k)
    requires forall w :: 0 <= w < |s.workers| ==> LoadTold(t, w)
    ensures Inv(t)
  {
    forall k | 0 <= k < |s.slots| ensures OnOneList(t, k) && Placed(t, k) && Told(t, k) {
      assert Placed(s, k);
      SteadySlot(s, t, k);
    }
    forall w | 0 <= w < |s.workers| ensures WorkerFits(t, w) { assert WorkerFits(s, w); }
    SteadyJobs(s, t);
  }

  // What a worker knows about its own job.
  lemma Owned(s: State, w: nat)
    requires Inv(s) && w < |s.workers| && SlotOf(s.workers[w]).Some?
    ensures var id := SlotOf(s.workers[w]).value;
            && id in s.working && id !in s.free && id !in s.pending && id !in s.done && id < |s.slots|
            && s.slots[id].owner == w && s.slots[id].job < |s.protos| && Told(s, id) && FlagTold(s, id)
            && HandledFits(s, s.slots[id], s.workers[w])
            && s.consumer != Called(id) && (s.filling.Some? ==> s.filling.value.slot != id)
  {
    var id := SlotOf(s.workers[w]).value;
    assert WorkerFits(s, w) && OnOneList(s, id) && Told(s, id) && FlagTold(s, id);
    assert s.filling.Some? ==> s.filling.value.slot in s.pending;
  }

  lemma OthersFit(s: State, t: State, w: nat)
    requires Inv(s) && w < |s.workers| && |t.workers| == |s.workers| && t.log == s.log && s.canceled <= t.canceled
    requires forall v :: 0 <= v < |s.workers| && v != w ==> t.workers[v] == s.workers[v]
    ensures forall v :: 0 <= v < |s.workers| && v != w && SlotOf(s.workers[v]).Some? ==>
              HandledFits(t, s.slots[SlotOf(s.workers[v]).value], t.workers[v])
  {
    forall v | 0 <= v < |s.workers| && v != w && SlotOf(s.workers[v]).Some?
      ensures HandledFits(t, s.slots[SlotOf(s.workers[v]).value], t.workers[v])
    {
      Owned(s, v);
    }
  }

  // ---- enqueueing ----

  lemma EnqueueLists(s: State, p: Proto, t: State)
    requires Lists(s) && EndsFit(s) && InOrder(s) && s.filling.None? && s.free != []
    requires t == Enqueue(s, p) && t.fault == Sound && s.fault == Sound
    ensures Lists(t)
  {
    var id := s.free[|s.free| - 1];
    LastTaken(s.free);
    assert OnOneList(s, id);
    Appended(s.pending, id);
    forall k | 0 <= k < |s.slots| ensures OnOneList(t, k) { assert OnOneList(s, k); }
  }

  lemma EnqueueOrder(s: State, p: Proto, t: State)
    requires Lists(s) && InOrder(s) && s.filling.None? && s.free != []
    requires t == Enqueue(s, p) && t.fault == Sound && s.fault == Sound && GoodSlots(t)
    ensures InOrder(t)
  {
    var id := s.free[|s.free| - 1];
    assert id in s.free && OnOneList(s, id);
    assert forall k :: 0 <= k < |s.pending| ==> s.pending[k] in s.pending;
  }

  lemma EnqueueSlot(s: State, p: Proto, t: State, k: nat)
    requires Inv(s) && s.filling.None? && s.free != [] && k < |s.slots|
    requires t == Enqueue(s, p) && t.fault == Sound && s.fault == Sound && Lists(t)
    ensures Placed(t, k) && Told(t, k) && FlagTold(t, k)
  {
    var id := s.free[|s.free| - 1];
    LastTaken(s.free);
    assert OnOneList(s, k) && OnOneList(s, id) && Placed(s, k) && Told(s, k) && FlagTold(s, k);
    assert Counted(s, |s.protos|);
    if s.consumer != Idle { assert s.consumer.slot in s.done; }
  }

  lemma EnqueueJobs(s: State, p: Proto, t: State)
    requires Inv(s) && s.filling.None? && s.free != []
    requires t == Enqueue(s, p) && t.fault == Sound && s.fault == Sound && Lists(t)
    ensures OwnJobs(t) && forall job: nat :: Counted(t, job)
  {
    var id := s.free[|s.free| - 1];
    LastTaken(s.free);
    forall i, j | 0 <= i < j < |s.slots| && i !in t.free && j !in t.free
      ensures t.slots[i].job != t.slots[j].job
    {
      assert Told(s, i) && Told(s, j);
    }
    forall job: nat ensures Counted(t, job) {
      assert Counted(s, job);
      if job < |s.protos| && Live(s, job) { StillLive(s, t, job); }
      if job == |s.protos| { assert t.slots[id].job == job; }
    }
  }

  lemma EnqueueKeeps(s: State, p: Proto)
    requires Inv(s) && s.fault == Sound
    ensures Inv(Enqueue(s, p))
  {
    var t := Enqueue(s, p);
    if s.filling.None? && s.free != [] {
      if t.fault == Sound {
        EnqueueLists(s, p, t);
        EnqueueOrder(s, p, t);
        EnqueueJobs(s, p, t);
        forall k | 0 <= k < |s.slots| ensures Placed(t, k) && Told(t, k) && FlagTold(t, k) { EnqueueSlot(s, p, t, k); }
        forall w | 0 <= w < |s.workers| ensures WorkerFits(t, w) && LoadTold(t, w) { EnqueueWorker(s, p, t, w); }
      } else {
        Halts(s, t);
      }
    }
  }

  lemma EnqueueWorker(s: State, p: Proto, t: State, w: nat)
    requires Inv(s) && s.filling.None? && s.free != [] && w < |s.workers|
    requires t == Enqueue(s, p) && t.fault == Sound && s.fault == Sound && Lists(t)
    ensures WorkerFits(t, w) && LoadTold(t, w)
  {
    assert WorkerFits(s, w) && LoadTold(s, w) && s.free[|s.free| - 1] in s.free;
    if SlotOf(s.workers[w]).Some? { Owned(s, w); }
  }

  // A failed assertion changes nothing else.
  lemma Halts(s: State, t: State)
    requires Inv(s) && t == s.(fault := t.fault) && t.fault != NothingPicked
    ensures Inv(t)
  {
    OthersStay(s, t);
    Steady(s, t);
  }

  // Every worker fits where nothing about it changed.
  lemma OthersStay(s: State, t: State)
    requires Inv(s) && t.workers == s.workers && t.log == s.log && s.canceled <= t.canceled
    requires |t.slots| == |s.slots| && forall k :: 0 <= k < |s.slots| ==> t.slots[k].job == s.slots[k].job
    requires t.free == s.free && GoodSlots(t)
    ensures forall w :: 0 <= w < |s.workers| ==> LoadTold(t, w)
    ensures forall w :: 0 <= w < |s.workers| && SlotOf(s.workers[w]).Some? ==>
              HandledFits(t, s.slots[SlotOf(s.workers[w]).value], t.workers[w])
    ensures forall k :: 0 <= k < |s.slots| && t.slots[k].flags == s.slots[k].flags ==> FlagTold(t, k)
  {
    forall w | 0 <= w < |s.workers| && SlotOf(s.workers[w]).Some?
      ensures HandledFits(t, s.slots[SlotOf(s.workers[w]).value], t.workers[w])
    {
      Owned(s, w);
    }
    forall w | 0 <= w < |s.workers| ensures LoadTold(t, w) { assert LoadTold(s, w); }
    forall k | 0 <= k < |s.slots| && t.slots[k].flags == s.slots[k].flags ensures FlagTold(t, k) {
      assert FlagTold(s, k);
    }
  }

  lemma FillKeeps(s: State)
    requires Inv(s)
    ensures Inv(Fill(s))
  {
    var t := Fill(s);
    if s.filling.Some? {
      var id := s.filling.value.slot;
      assert id in s.pending && OnOneList(s, id) && FlagTold(s, id);
      OthersStay(s, t);
      forall k | 0 <= k < |s.slots| ensures FlagTold(t, k) { assert FlagTold(s, k); }
      Steady(s, t);
    }
  }

  // ---- canceling ----

  lemma CancelKeeps(s: State, id: nat)
    requires Inv(s)
    ensures Inv(Cancel(s, id))
  {
    if id < |s.slots| {
      var t := Cancel(s, id);
      OthersStay(s, t);
      Steady(s, t);
    }
  }

  lemma StoreKeeps(s: State, n: nat)
    requires Inv(s)
    ensures Inv(Store(s, n))
  {
    if n < |s.cancels| {
      var t, id := Store(s, n), s.cancels[n].slot;
      assert Told(s, id) && Counted(s, s.slots[id].job);
      OthersStay(s, t);
      forall k | 0 <= k < |s.slots| ensures FlagTold(t, k) { assert FlagTold(s, k); }
      Steady(s, t);
    }
  }

  lemma LaunchKeeps(s: State)
    requires Inv(s)
    ensures Inv(s.(workers := s.workers + [AtTop]))
  {
    var t := s.(workers := s.workers + [AtTop]);
    forall k | 0 <= k < |s.slots| ensures OnOneList(t, k) && Placed(t, k) && Told(t, k) && FlagTold(t, k) {
      assert OnOneList(s, k) && Placed(s, k) && Told(s, k) && FlagTold(s, k);
    }
    forall w | 0 <= w < |t.workers| ensures WorkerFits(t, w) && LoadTold(t, w) {
      assert w < |s.workers| ==> WorkerFits(s, w) && LoadTold(s, w);
    }
    forall job: nat ensures Counted(t, job) {
      assert Counted(s, job);
      if Live(s, job) { StillLive(s, t, job); }
    }
  }

  // ---- a worker without a job ----

  lemma SlotsStay(s: State, t: State, w: nat)
    requires Inv(s) && w < |s.workers| && SlotOf(s.workers[w]).None?
    requires |t.workers| == |s.workers| && t == Goto(s, w, t.workers[w]).(holder := t.holder)
    requires SlotOf(t.workers[w]).None? && GoodSlots(t)
    ensures forall k :: 0 <= k < |s.slots| ==> OnOneList(t, k) && Placed(t, k) && Told(t, k) && FlagTold(t, k)
  {
    forall k | 0 <= k < |s.slots| ensures OnOneList(t, k) && Placed(t, k) && Told(t, k) && FlagTold(t, k) {
      assert OnOneList(s, k) && Placed(s, k) && Told(s, k) && FlagTold(s, k);
    }
  }

  // It moves on and takes or gives back the mutex.
  lemma MutexKeeps(s: State, w: nat, pc: Pc, holder: Option<nat>)
    requires Inv(s) && w < |s.workers| && SlotOf(s.workers[w]).None? && SlotOf(pc).None?
    requires holder == if HoldsMutex(pc) then Some(w) else None
    requires s.holder.None? || s.holder == Some(w)
    requires pc.Picking? ==> s.pending != []
    ensures Inv(Goto(s, w, pc).(holder := holder))
  {
    var t := Goto(s, w, pc).(holder := holder);
    SlotsStay(s, t, w);
    forall v | 0 <= v < |s.workers| ensures WorkerFits(t, v) && LoadTold(t, v) {
      assert WorkerFits(s, v) && WorkerFits(s, w) && LoadTold(s, v);
    }
    SteadyJobsOf(s, t);
  }

  lemma SteadyJobsOf(s: State, t: State)
    requires Inv(s) && t.slots == s.slots && t.free == s.free && t.log == s.log && t.protos == s.protos
    requires t.canceled == s.canceled
    ensures forall job: nat :: Counted(t, job)
  {
    forall job: nat ensures Counted(t, job) {
      assert Counted(s, job);
      if Live(s, job) { StillLive(s, t, job); }
    }
  }

  lemma PickLists(s: State, w: nat, t: State)
    requires Lists(s) && EndsFit(s) && w < |s.workers| && s.pending != [] && t == Pick(s, w)
    ensures Lists(t)
  {
    var id := s.pending[0];
    FirstTaken(s.pending);
    assert OnOneList(s, id);
    Appended(s.working, id);
    forall k | 0 <= k < |s.slots| ensures OnOneList(t, k) { assert OnOneList(s, k); }
  }

  lemma PickTold(s: State, w: nat, t: State, k: nat)
    requires Inv(s) && w < |s.workers| && s.workers[w].Picking? && s.pending != [] && t == Pick(s, w) && Lists(t)
    requires k < |s.slots|
    ensures Told(t, k) && FlagTold(t, k)
  {
    FirstTaken(s.pending);
    assert OnOneList(s, k) && OnOneList(s, s.pending[0]) && Placed(s, k) && Told(s, k) && FlagTold(s, k);
    if s.consumer != Idle { assert s.consumer.slot in s.done; }
  }

  lemma PickPlaced(s: State, w: nat, t: State, k: nat)
    requires Inv(s) && w < |s.workers| && s.workers[w].Picking? && s.pending != [] && t == Pick(s, w) && Lists(t)
    requires k < |s.slots|
    ensures Placed(t, k)
  {
    FirstTaken(s.pending);
    assert OnOneList(s, k) && OnOneList(s, s.pending[0]) && Placed(s, k) && WorkerFits(s, w);
  }

  lemma PickWorker(s: State, w: nat, t: State, v: nat)
    requires Inv(s) && w < |s.workers| && s.workers[w].Picking? && s.pending != [] && t == Pick(s, w) && Lists(t)
    requires v < |s.workers|
    ensures WorkerFits(t, v) && LoadTold(t, v)
  {
    FirstTaken(s.pending);
    assert OnOneList(s, s.pending[0]) && WorkerFits(s, v) && WorkerFits(s, w) && LoadTold(s, v);
    if SlotOf(s.workers[v]).Some? { Owned(s, v); }
  }

  lemma PickKeeps(s: State, w: nat)
    requires Inv(s) && w < |s.workers| && s.workers[w].Picking? && s.pending != [] && s.filling.None?
    ensures Inv(Pick(s, w))
  {
    var id, t := s.pending[0], Pick(s, w);
    PickLists(s, w, t);
    forall k | 0 <= k < |s.slots| ensures Placed(t, k) && Told(t, k) && FlagTold(t, k) {
      PickPlaced(s, w, t, k);
      PickTold(s, w, t, k);
    }
    forall v | 0 <= v < |s.workers| ensures WorkerFits(t, v) && LoadTold(t, v) { PickWorker(s, w, t, v); }
    forall job: nat ensures Counted(t, job) {
      assert Counted(s, job);
      if Live(s, job) { StillLive(s, t, job); }
    }
  }

  // ---- a worker with a job ----

  lemma UnlockKeeps(s: State, w: nat, id: nat)
    requires Inv(s) && w < |s.workers| && s.workers[w] == Unlocking(id)
    ensures Inv(Goto(s, w, Starting(id)).(holder := None))
  {
    var t := Goto(s, w, Starting(id)).(holder := None);
    Owned(s, w);
    forall k | 0 <= k < |s.slots| ensures OnOneList(t, k) && Placed(t, k) && Told(t, k) && FlagTold(t, k) {
      assert OnOneList(s, k) && Placed(s, k) && Told(s, k) && FlagTold(s, k);
    }
    forall v | 0 <= v < |s.workers| ensures WorkerFits(t, v) && LoadTold(t, v) {
      assert WorkerFits(s, v) && WorkerFits(s, w) && LoadTold(s, v);
    }
    SteadyJobsOf(s, t);
  }

  // It loads or stores the flags of its job, or goes on with it.
  lemma OwnerKeeps(s: State, w: nat, pc: Pc, f: Flags)
    requires Inv(s) && w < |s.workers| && SlotOf(s.workers[w]).Some? && SlotOf(pc) == SlotOf(s.workers[w])
    requires !HoldsMutex(pc) && !HoldsMutex(s.workers[w])
    requires HandledFits(s, s.slots[SlotOf(pc).value], pc)
    requires f.cancelled ==> s.slots[SlotOf(pc).value].job in s.canceled
    requires (pc.Clearing? || pc.Finishing?) && pc.flags.cancelled ==> s.slots[pc.slot].job in s.canceled
    ensures Inv(Goto(SetFlags(s, SlotOf(pc).value, f), w, pc))
  {
    var id := SlotOf(pc).value;
    var t := Goto(SetFlags(s, id, f), w, pc);
    Owned(s, w);
    OthersFit(s, t, w);
    forall k | 0 <= k < |s.slots| ensures FlagTold(t, k) { assert FlagTold(s, k); }
    forall v | 0 <= v < |s.workers| ensures LoadTold(t, v) { assert LoadTold(s, v); }
    Steady(s, t);
  }

  lemma HandledMore(s: State, t: State, e: Event)
    requires HandlerFirst(s) && t.log == s.log + [e] && t.protos == s.protos
    requires e.Finished? ==>
               && e.job < |s.protos| && s.protos[e.job].hasFinish && !s.protos[e.job].kind.NoValue?
               && (Handled(e.job) in s.log <==> !s.protos[e.job].kind.Unknown?)
    ensures HandlerFirst(t)
  {
    forall j | 0 <= j < |t.log| && t.log[j].Finished?
      ensures t.log[j].job < |t.protos|
      ensures t.protos[t.log[j].job].hasFinish && !t.protos[t.log[j].job].kind.NoValue?
      ensures Handled(t.log[j].job) in t.log[..j] <==> !t.protos[t.log[j].job].kind.Unknown?
    {
      assert t.log[..j] == s.log[..j];
      assert j == |s.log| ==> t.log[..j] == s.log;
    }
  }

  lemma RunSlot(s: State, w: nat, id: nat, t: State, k: nat)
    requires Inv(s) && w < |s.workers| && s.workers[w] == Running(id) && t == Work(s, w) && k < |s.slots|
    requires !s.slots[id].proto.kind.Unknown? && GoodSlots(t)
    ensures OnOneList(t, k) && Placed(t, k) && FlagTold(t, k) && Told(t, k)
  {
    Owned(s, w);
    LogMore(s.log, Handled(s.slots[id].job));
    assert OnOneList(s, k) && Placed(s, k) && FlagTold(s, k);
    RunTold(s, w, id, t, k);
  }

  lemma RunTold(s: State, w: nat, id: nat, t: State, k: nat)
    requires Inv(s) && w < |s.workers| && s.workers[w] == Running(id) && t == Work(s, w) && k < |s.slots|
    requires !s.slots[id].proto.kind.Unknown? && GoodSlots(t)
    ensures Told(t, k)
  {
    Owned(s, w);
    LogMore(s.log, Handled(s.slots[id].job));
    assert OnOneList(s, k) && Placed(s, k) && Told(s, k);
    assert k != id && k !in s.free ==> s.slots[k].job != s.slots[id].job;
  }

  lemma RunJobs(s: State, w: nat, id: nat, t: State)
    requires Inv(s) && w < |s.workers| && s.workers[w] == Running(id) && t == Work(s, w)
    requires !s.slots[id].proto.kind.Unknown?
    ensures HandlerFirst(t) && forall job: nat :: Counted(t, job)
  {
    Owned(s, w);
    LogMore(s.log, Handled(s.slots[id].job));
    HandledMore(s, t, Handled(s.slots[id].job));
    forall job: nat ensures Counted(t, job) {
      assert Counted(s, job);
      if Live(s, job) { StillLive(s, t, job); }
    }
  }

  lemma RunKeeps(s: State, w: nat, id: nat)
    requires Inv(s) && w < |s.workers| && s.workers[w] == Running(id)
    ensures Inv(Work(s, w))
  {
    var t := Work(s, w);
    Owned(s, w);
    var q := s.slots[id];
    if q.proto.kind.Unknown? {
      assert SetFlags(s, id, q.flags) == s;
      OwnerKeeps(s, w, Leaving(id, true), q.flags);
    } else {
      RunJobs(s, w, id, t);
      forall k | 0 <= k < |s.slots| ensures OnOneList(t, k) && Placed(t, k) && FlagTold(t, k) && Told(t, k) {
        RunSlot(s, w, id, t, k);
      }
      forall v | 0 <= v < |s.workers| ensures WorkerFits(t, v) && LoadTold(t, v) {
        assert WorkerFits(s, v) && WorkerFits(s, w) && LoadTold(s, v);
      }
    }
  }

  lemma HandLists(s: State, w: nat, id: nat, t: State)
    requires Lists(s) && w < |s.workers| && s.workers[w] == Handing(id) && id in s.working && s.filling.None?
    requires t == Work(s, w)
    ensures Lists(t) && forall x :: x in t.working <==> x in s.working && x != id
  {
    assert OnOneList(s, id);
    WithoutFacts(s.working, id);
    BelowWithout(s.working, id, |s.slots|);
    Appended(s.done, id);
    forall k | 0 <= k < |s.slots| ensures OnOneList(t, k) { assert OnOneList(s, k); }
  }

  lemma HandSlot(s: State, w: nat, id: nat, t: State, k: nat)
    requires Inv(s) && w < |s.workers| && s.workers[w] == Handing(id) && s.filling.None? && t == Work(s, w)
    requires k < |s.slots| && Lists(t) && forall x :: x in t.working <==> x in s.working && x != id
    ensures Placed(t, k) && Told(t, k) && FlagTold(t, k)
  {
    Owned(s, w);
    assert OnOneList(s, k) && Placed(s, k) && Told(s, k) && FlagTold(s, k);
  }

  lemma HandKeeps(s: State, w: nat, id: nat)
    requires Inv(s) && w < |s.workers| && s.workers[w] == Handing(id) && s.filling.None?
    ensures Inv(Work(s, w))
  {
    var t := Work(s, w);
    Owned(s, w);
    HandLists(s, w, id, t);
    forall k | 0 <= k < |s.slots| ensures Placed(t, k) && Told(t, k) && FlagTold(t, k) { HandSlot(s, w, id, t, k); }
    forall v | 0 <= v < |s.workers| ensures WorkerFits(t, v) && LoadTold(t, v) {
      assert WorkerFits(s, v) && WorkerFits(s, w) && LoadTold(s, v);
    }
    SteadyJobsOf(s, t);
  }

  // ---- freeing ----

  lemma FreeLists(s: State, t: State, id: nat)
    requires Lists(s) && id < |s.slots| && (id in s.working || id in s.done)
    requires t == FreeSlot(s, id).(workers := t.workers, consumer := t.consumer) && s.filling.None?
    requires forall w :: 0 <= w < |t.workers| && SlotOf(t.workers[w]).Some? ==>
               SlotOf(t.workers[w]).value < |s.slots|
    requires t.consumer != Idle ==> t.consumer.slot < |s.slots|
    ensures Lists(t) && forall x :: x in t.free <==> x in s.free || x == id
    ensures forall x :: x in t.working <==> x in s.working && x != id
    ensures forall x :: x in t.done <==> x in s.done && x != id
  {
    assert OnOneList(s, id);
    WithoutFacts(s.working, id);
    WithoutFacts(s.done, id);
    BelowWithout(s.working, id, |s.slots|);
    BelowWithout(s.done, id, |s.slots|);
    Appended(s.free, id);
    forall k | 0 <= k < |s.slots| ensures OnOneList(t, k) { assert OnOneList(s, k); }
  }

  // When a slot is freed its job is settled, and the others stay as they are.
  lemma FreedCounts(s: State, t: State, id: nat)
    requires Inv(s) && id < |s.slots| && id !in s.free
    requires s.slots[id].job < |s.protos| && Settled(s, s.slots[id].job)
    requires t.slots == s.slots && t.protos == s.protos && t.log == s.log && t.canceled == s.canceled
    requires forall x :: x in t.free <==> x in s.free || x == id
    ensures forall job: nat :: Counted(t, job)
  {
    forall job: nat ensures Counted(t, job) {
      assert Counted(s, job);
      if Live(s, job) && job != s.slots[id].job {
        var k :| 0 <= k < |s.slots| && k !in s.free && s.slots[k].job == job;
        assert k !in t.free && t.slots[k].job == job;
      }
    }
  }

  lemma FreeingKeeps(s: State, w: nat, id: nat)
    requires Inv(s) && w < |s.workers| && s.workers[w] == Freeing(id) && s.filling.None?
    ensures Inv(Work(s, w))
  {
    var t := Work(s, w);
    Owned(s, w);
    FreeLists(s, t, id);
    NotThere(s.done, id);
    FreedCounts(s, t, id);
    forall k | 0 <= k < |s.slots| ensures Placed(t, k) && Told(t, k) && FlagTold(t, k) {
      assert OnOneList(s, k) && Placed(s, k) && Told(s, k) && FlagTold(s, k);
    }
    forall v | 0 <= v < |s.workers| ensures WorkerFits(t, v) && LoadTold(t, v) {
      assert WorkerFits(s, v) && WorkerFits(s, w) && LoadTold(s, v);
    }
  }

  // ---- consuming ----

  // What the main thread knows about the job it looks at.
  lemma Looked(s: State)
    requires Inv(s) && s.consumer != Idle
    ensures var id := s.consumer.slot;
            && s.done != [] && s.done[0] == id && id in s.done && id < |s.slots|
            && id !in s.free && id !in s.working && id !in s.pending && Told(s, id) && FlagTold(s, id)
  {
    var id := s.consumer.slot;
    assert s.done[0] == id && id in s.done && OnOneList(s, id) && Told(s, id) && FlagTold(s, id);
  }

  lemma NotifySlot(s: State, id: nat, t: State, k: nat)
    requires Inv(s) && s.consumer == Notifying(id) && t == Consume(s) && k < |s.slots|
    ensures GoodSlots(t) && OnOneList(t, k) && Placed(t, k) && Told(t, k) && FlagTold(t, k)
  {
    Looked(s);
    LogMore(s.log, Finished(s.slots[id].job));
    assert OnOneList(s, k) && Placed(s, k) && Told(s, k) && FlagTold(s, k);
    assert k != id && k !in s.free ==> s.slots[k].job != s.slots[id].job;
  }

  lemma NotifyKeeps(s: State, id: nat)
    requires Inv(s) && s.consumer == Notifying(id)
    ensures Inv(Consume(s))
  {
    var t := Consume(s);
    Looked(s);
    var q := s.slots[id];
    LogMore(s.log, Finished(q.job));
    if t.log != s.log {
      assert Handled(q.job) in s.log <==> Handled(q.job) in multiset(s.log);
      HandledMore(s, t, Finished(q.job));
    }
    forall k | 0 <= k < |s.slots| ensures OnOneList(t, k) && Placed(t, k) && Told(t, k) && FlagTold(t, k) {
      NotifySlot(s, id, t, k);
    }
    forall v | 0 <= v < |s.workers| ensures WorkerFits(t, v) && LoadTold(t, v) {
      assert WorkerFits(s, v) && LoadTold(s, v);
    }
    forall job: nat ensures Counted(t, job) {
      assert Counted(s, job);
      if Live(s, job) { StillLive(s, t, job); }
    }
  }

  lemma ConsumedKeeps(s: State, id: nat)
    requires Inv(s) && s.consumer == Called(id) && s.filling.None?
    ensures Inv(Consume(s))
  {
    var t := Consume(s);
    Looked(s);
    FreeLists(s, t, id);
    assert Counted(s, s.slots[id].job);
    FreedCounts(s, t, id);
    forall k | 0 <= k < |s.slots| ensures Placed(t, k) && Told(t, k) && FlagTold(t, k) {
      assert OnOneList(s, k) && Placed(s, k) && Told(s, k) && FlagTold(s, k);
    }
    forall v | 0 <= v < |s.workers| ensures WorkerFits(t, v) && LoadTold(t, v) {
      assert WorkerFits(s, v) && LoadTold(s, v);
    }
  }

  lemma PeekKeeps(s: State)
    requires Inv(s) && s.consumer == Idle && s.done != []
    ensures Inv(s.(consumer := Peeked(s.done[0])))
  {
    var t := s.(consumer := Peeked(s.done[0]));
    forall k | 0 <= k < |s.slots| ensures OnOneList(t, k) && Placed(t, k) && Told(t, k) && FlagTold(t, k) {
      assert OnOneList(s, k) && Placed(s, k) && Told(s, k) && FlagTold(s, k);
    }
    forall v | 0 <= v < |s.workers| ensures WorkerFits(t, v) && LoadTold(t, v) {
      assert WorkerFits(s, v) && LoadTold(s, v);
    }
    SteadyJobsOf(s, t);
  }

  lemma LookKeeps(s: State)
    requires Inv(s) && (s.consumer.Peeked? || s.consumer.Checked?)
    ensures Inv(Consume(s))
  {
    Looked(s);
    var t := Consume(s);
    OthersStay(s, t);
    Steady(s, t);
  }

  lemma ConsumeKeeps(s: State)
    requires Inv(s)
    ensures Inv(Consume(s))
  {
    match s.consumer
    case Idle => if s.filling.None? && s.done != [] { PeekKeeps(s); }
    case Peeked(_) => LookKeeps(s);
    case Checked(_) => LookKeeps(s);
    case Notifying(id) => NotifyKeeps(s, id);
    case Called(id) => if s.filling.None? { ConsumedKeeps(s, id); }
  }

  // The loads and stores of a worker behind its handler.
  lemma LoadKeeps(s: State, w: nat)
    requires Inv(s) && w < |s.workers| && (s.workers[w].Leaving? || s.workers[w].Marking?)
    ensures Inv(Work(s, w))
  {
    Owned(s, w);
    var pc := s.workers[w];
    var id, f := pc.slot, s.slots[pc.slot].flags;
    assert SetFlags(s, id, f) == s;
    OwnerKeeps(s, w, if pc.Leaving? then Clearing(id, pc.hand, f) else Finishing(id, pc.hand, f), f);
  }

  lemma ClearKeeps(s: State, w: nat)
    requires Inv(s) && w < |s.workers| && s.workers[w].Clearing?
    ensures Inv(Work(s, w))
  {
    Owned(s, w);
    var pc := s.workers[w];
    assert LoadTold(s, w);
    OwnerKeeps(s, w, Marking(pc.slot, pc.hand), pc.flags.(inUse := false));
  }

  lemma FinishKeeps(s: State, w: nat)
    requires Inv(s) && w < |s.workers| && s.workers[w].Finishing?
    ensures Inv(Work(s, w))
  {
    Owned(s, w);
    var pc := s.workers[w];
    assert LoadTold(s, w);
    OwnerKeeps(s, w, if pc.hand then Handing(pc.slot) else Freeing(pc.slot), pc.flags.(finished := true));
  }

  lemma DecideKeeps(s: State, w: nat)
    requires Inv(s) && w < |s.workers| && (s.workers[w].Starting? || s.workers[w].Deciding?)
    ensures Inv(Work(s, w))
  {
    Owned(s, w);
    var id := s.workers[w].slot;
    var f := s.slots[id].flags;
    assert FlagTold(s, id) && SetFlags(s, id, f) == s;
    if s.workers[w].Deciding? {
      OwnerKeeps(s, w, if f.cancelled then Leaving(id, false) else Running(id), f);
    } else if f.inUse {
      OwnerKeeps(s, w, Deciding(id), f);
    } else {
      Halts(s, Work(s, w));
    }
  }

  lemma WorkKeeps(s: State, w: nat)
    requires Inv(s) && w < |s.workers|
    ensures Inv(Work(s, w))
  {
    assert WorkerFits(s, w);
    match s.workers[w]
    case AtTop => if s.holder.None? { MutexKeeps(s, w, Checking, Some(w)); }
    case Waiting => if s.holder.None? { MutexKeeps(s, w, Checking, Some(w)); }
    case Checking =>
      if s.pending == [] { MutexKeeps(s, w, Waiting, None); } else { MutexKeeps(s, w, Picking, Some(w)); }
    case Picking => if s.filling.None? { PickKeeps(s, w); }
    case Unlocking(id) => UnlockKeeps(s, w, id);
    case Starting(_) => DecideKeeps(s, w);
    case Deciding(_) => DecideKeeps(s, w);
    case Running(id) => RunKeeps(s, w, id);
    case Freeing(id) => if s.filling.None? { FreeingKeeps(s, w, id); }
    case Handing(id) => if s.filling.None? { HandKeeps(s, w, id); }
    case Leaving(_, _) => LoadKeeps(s, w);
    case Clearing(_, _, _) => ClearKeeps(s, w);
    case Marking(_, _) => LoadKeeps(s, w);
    case Finishing(_, _, _) => FinishKeeps(s, w);
  }

  /** Every atomic step of every thread keeps the invariant, also when cancels spoil the flags. */
  lemma StepKeeps(s: State, op: Op)
    requires Inv(s)
    ensures Inv(Step(s, op))
  {
    if s.fault == Sound {
      match op
      case EnqueueOp(p) => EnqueueKeeps(s, p);
      case FillOp => FillKeeps(s);
      case CancelOp(id) => CancelKeeps(s, id);
      case StoreOp(n) => StoreKeeps(s, n);
      case LaunchOp => LaunchKeeps(s);
      case WorkOp(w) => if w < |s.workers| { WorkKeeps(s, w); }
      case ConsumeOp => ConsumeKeeps(s);
    }
  }

  // ---- whole runs ----

  // A pool with n job slots and its first workers at the top of their loop.
  function Init(n: nat, workers: nat): State {
    State(seq(n, _ => Job(CLEARED, Proto(NoValue, false), 0, 0)), seq(n, k requires 0 <= k < n => n - 1 - k),
          [], [], [], seq(workers, _ => AtTop), None, None, Idle, [], [], [], {}, [], Sound)
  }

  lemma InitHolds(n: nat, workers: nat)
    ensures Inv(Init(n, workers))
  {
    var s := Init(n, workers);
    forall id | 0 <= id < n ensures id in s.free && OnOneList(s, id) {
      assert s.free[n - 1 - id] == id;
    }
  }

  function Run(s: State, ops: seq<Op>): (r: State)
    requires Inv(s)
    ensures Inv(r)
    decreases ops
  {
    if ops == [] then s
    else
      StepKeeps(s, ops[0]);
      Run(Step(s, ops[0]), ops[1..])
  }

  lemma OneOwner(s: State, id: nat)
    requires Inv(s) && id in s.working
    ensures exists w :: 0 <= w < |s.workers| && SlotOf(s.workers[w]) == Some(id)
              && forall v :: 0 <= v < |s.workers| && SlotOf(s.workers[v]) == Some(id) ==> v == w
  {
    assert id < |s.slots| && Placed(s, id);
    var w := s.slots[id].owner;
    forall v | 0 <= v < |s.workers| && SlotOf(s.workers[v]) == Some(id) ensures v == w { assert WorkerFits(s, v); }
  }

  /**
   In every interleaving, whatever cancels do to the flags: the assertion that a job was picked never
   fails; every slot is free or on exactly one list; a working job has exactly one owner; jobs are picked
   in the order in which they were enqueued; a handler runs at most once and the finish callback at most
   once; the callback comes behind the handler exactly for the kinds the switch knows; and a job that is
   over and was not hit by a cancel was handled, and called back if it was for the done list.
   */
  lemma PoolIsSafe(n: nat, workers: nat, ops: seq<Op>)
    ensures Inv(Init(n, workers))
    ensures var s := Run(Init(n, workers), ops);
            && s.fault != NothingPicked && HandlerFirst(s)
            && (forall id :: 0 <= id < |s.slots| ==> OnOneList(s, id))
            && (forall id :: id in s.working ==>
                  exists w :: 0 <= w < |s.workers| && SlotOf(s.workers[w]) == Some(id)
                    && forall v :: 0 <= v < |s.workers| && SlotOf(s.workers[v]) == Some(id) ==> v == w)
            && (forall k :: 0 <= k < |s.picked| ==> s.picked[k] == k)
            && (forall job: nat :: Handles(s.log, job) <= 1 && Finishes(s.log, job) <= 1)
            && (forall job :: 0 <= job < |s.protos| ==> Live(s, job) || Settled(s, job))
  {
    InitHolds(n, workers);
    var s := Run(Init(n, workers), ops);
    forall id | id in s.working
      ensures exists w :: 0 <= w < |s.workers| && SlotOf(s.workers[w]) == Some(id)
                && forall v :: 0 <= v < |s.workers| && SlotOf(s.workers[v]) == Some(id) ==> v == w
    {
      OneOwner(s, id);
    }
    forall job: nat ensures Handles(s.log, job) <= 1 && Finishes(s.log, job) <= 1 { assert Counted(s, job); }
    forall job | 0 <= job < |s.protos| ensures Live(s, job) || Settled(s, job) { assert Counted(s, job); }
  }
}
