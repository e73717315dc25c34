/** The functions of thrd_pool_base.c on the pool itself, one atomic step per method. */
module ThreadPoolCode {
  import opened Options
  import opened SlotLists
  import opened ThreadPool
  import opened ThreadPoolFlags

  class Pool {
    var slots: seq<Job>
    var free: seq<nat>      // grabbed and freed at its end
    var pending: seq<nat>
    var working: seq<nat>
    var done: seq<nat>
    var workers: seq<Pc>
    var holder: Option<nat>
    var filling: Option<Filling>
    var consumer: Consumer
    var cancels: seq<Canceling>
    var protos: seq<Proto>  // only numbers the jobs
    var fault: Fault        // an assertion has failed
    ghost var picked: seq<nat>
    ghost var canceled: set<nat>
    ghost var log: seq<Event>

    ghost function Now(): State
      reads this
    {
      State(slots, free, pending, working, done, workers, holder, filling, consumer, cancels,
            protos, picked, canceled, log, fault)
    }

    ghost predicate Valid()
      reads this
    {
      Inv(Now())
    }

    constructor (n: nat, workerCount: nat)
      ensures Valid() && Now() == Init(n, workerCount)
    {
      slots := seq(n, _ => Job(CLEARED, Proto(NoValue, false), 0, 0));
      free := seq(n, k requires 0 <= k < n => n - 1 - k);
      pending, working, done, workers := [], [], [], seq(workerCount, _ => AtTop);
      holder, filling, consumer, cancels, protos, fault := None, None, Idle, [], [], Sound;
      picked, canceled, log := [], {}, [];
      InitHolds(n, workerCount);
      new;
      assert Now() == Init(n, workerCount);
    }

    /** ThreadPoolJobEnqueue, undisturbed; -1 when there is no slot left. */
    method Enqueue(p: Proto) returns (id: int)
      requires Valid() && fault == Sound && filling.None?
      modifies this
      ensures Valid() && filling.None?
      ensures id >= 0 ==> id < |slots| && pending == old(pending) + [id] && slots[id].flags == Flags(true, false, false)
      ensures id >= 0 ==> slots[id].proto == p && protos == old(protos) + [p] && fault == Sound
      ensures id < 0 ==> slots == old(slots) && pending == old(pending) && (old(free) != [] <==> fault == SlotInUse)
    {
      id := GrabSlot(p);
      if id >= 0 {
        FillStep();
        FillStep();
      }
    }

    // The slot, cleared and at the tail of the pending list.
    method GrabSlot(p: Proto) returns (id: int)
      requires Valid() && fault == Sound && filling.None?
      modifies this
      ensures Valid() && Now() == Step(old(Now()), EnqueueOp(p))
      ensures id == if old(free) == [] || fault != Sound then -1 else old(free)[|old(free)| - 1]
    {
      EnqueueKeeps(Now(), p);
      id := Grab(p);
    }

    method Grab(p: Proto) returns (id: int)
      requires GoodSlots(Now()) && fault == Sound && filling.None?
      modifies this
      ensures Now() == ThreadPool.Enqueue(old(Now()), p)
      ensures id == if old(free) == [] || fault != Sound then -1 else old(free)[|old(free)| - 1]
    {
      if free == [] {
        return -1;
      }
      var slot := free[|free| - 1];
      if slots[slot].flags.inUse {
        fault := SlotInUse;
        return -1;
      }
      free := free[..|free| - 1];
      pending := pending + [slot];
      slots := slots[slot := Job(CLEARED, p, |protos|, 0)];
      protos := protos + [p];
      filling := Some(Zeroed(slot));
      id := slot;
    }

    // The load or the store of the assignment to in_use.
    method FillStep()
      requires Valid() && fault == Sound && filling.Some?
      modifies this`slots, this`filling
      ensures Valid() && Now() == Step(old(Now()), FillOp)
    {
      StepKeeps(Now(), FillOp);
      match filling.value
      case Zeroed(id) => filling := Some(Loaded(id, slots[id].flags));
      case Loaded(id, f) =>
        StoreFlags(id, f.(inUse := true));
        filling := None;
    }

    method StoreFlags(id: nat, f: Flags)
      requires id < |slots|
      modifies this`slots
      ensures Now() == SetFlags(old(Now()), id, f)
    {
      slots := slots[id := slots[id].(flags := f)];
    }

    /** The load of ThreadPoolJobCancel. */
    method CancelLoad(id: int) returns (r: int)
      requires Valid() && fault == Sound
      modifies this`cancels
      ensures Valid() && Now() == if id < 0 then old(Now()) else Step(old(Now()), CancelOp(id))
      ensures r == if id < 0 then 0 else 1
    {
      if id < 0 {
        return 0;
      }
      StepKeeps(Now(), CancelOp(id));
      if id < |slots| {
        cancels := cancels + [Canceling(id, slots[id].flags)];
      }
      return 1;
    }

    /** The store of the n-th pending ThreadPoolJobCancel. */
    method CancelStore(n: nat)
      requires Valid() && fault == Sound && n < |cancels|
      modifies this`slots, this`cancels, this`canceled
      ensures Valid() && Now() == Step(old(Now()), StoreOp(n))
    {
      StepKeeps(Now(), StoreOp(n));
      var c := cancels[n];
      canceled := if c.slot in free then canceled else canceled + {slots[c.slot].job};
      cancels := cancels[..n] + cancels[n + 1..];
      StoreFlags(c.slot, c.flags.(cancelled := true));
    }

    /** ThreadPoolInstanceExecute. */
    method Launch()
      requires Valid() && fault == Sound
      modifies this`workers
      ensures Valid() && Now() == Step(old(Now()), LaunchOp)
    {
      StepKeeps(Now(), LaunchOp);
      workers := workers + [AtTop];
    }

    // MemSlotBaseSlotFree.
    method SlotFree(id: nat)
      modifies this`free, this`working, this`done
      ensures Now() == FreeSlot(old(Now()), id)
    {
      free := free + [id];
      working := Without(working, id);
      done := Without(done, id);
    }

    method Move(w: nat, pc: Pc)
      requires w < |workers|
      modifies this`workers
      ensures Now() == Goto(old(Now()), w, pc)
    {
      workers := workers[w := pc];
    }

    /** The atomic step worker w is about to make in ThreadPoolInstanceMainLoop. */
    method WorkerStep(w: nat)
      requires Valid() && fault == Sound && w < |workers|
      modifies this
      ensures Valid() && Now() == Step(old(Now()), WorkOp(w))
    {
      StepKeeps(Now(), WorkOp(w));
      if SlotOf(workers[w]).None? || workers[w].Unlocking? {
        MutexStep(w);
      } else if workers[w].Starting? || workers[w].Deciding? || workers[w].Running? {
        JobStep(w);
      } else {
        EndStep(w);
      }
    }

    // Everything up to the unlocking of the condition's mutex.
    method MutexStep(w: nat)
      requires GoodSlots(Now()) && w < |workers| && (SlotOf(workers[w]).None? || workers[w].Unlocking?)
      modifies this
      ensures Now() == Work(old(Now()), w)
    {
      match workers[w]
      case Checking =>
        if pending == [] {
          workers, holder := workers[w := Waiting], None;
        } else {
          Move(w, Picking);
        }
      case Picking =>
        if filling.None? {
          TakeJob(w);
        }
      case Unlocking(id) => workers, holder := workers[w := Starting(id)], None;
      case _ =>
        if holder.None? {
          workers, holder := workers[w := Checking], Some(w);
        }
    }

    method TakeJob(w: nat)
      requires GoodSlots(Now()) && w < |workers| && workers[w].Picking? && filling.None?
      modifies this
      ensures Now() == Work(old(Now()), w)
    {
      if pending == [] {
        fault := NothingPicked;
        return;
      }
      var id := pending[0];
      picked := picked + [slots[id].job];
      slots := slots[id := slots[id].(owner := w)];
      pending, working := pending[1..], working + [id];
      Move(w, Unlocking(id));
    }

    // The assertion on in_use, the cancel flag and the handler.
    method JobStep(w: nat)
      requires GoodSlots(Now()) && w < |workers|
      requires workers[w].Starting? || workers[w].Deciding? || workers[w].Running?
      modifies this
      ensures Now() == Work(old(Now()), w)
    {
      match workers[w]
      case Starting(id) =>
        if slots[id].flags.inUse {
          Move(w, Deciding(id));
        } else {
          fault := JobUnused;
        }
      case Deciding(id) => Move(w, if slots[id].flags.cancelled then Leaving(id, false) else Running(id));
      case Running(id) =>
        if !slots[id].proto.kind.Unknown? {
          log := log + [Handled(slots[id].job)];
        }
        Move(w, Leaving(id, !slots[id].proto.kind.NoValue?));
      case _ =>
    }

    // The assignments to in_use and finished, and what becomes of the slot.
    method EndStep(w: nat)
      requires GoodSlots(Now()) && w < |workers| && SlotOf(workers[w]).Some? && !workers[w].Unlocking?
      requires !workers[w].Starting? && !workers[w].Deciding? && !workers[w].Running?
      modifies this
      ensures Now() == Work(old(Now()), w)
    {
      match workers[w]
      case Leaving(id, hand) => Move(w, Clearing(id, hand, slots[id].flags));
      case Clearing(id, hand, f) =>
        StoreFlags(id, f.(inUse := false));
        Move(w, Marking(id, hand));
      case Marking(id, hand) => Move(w, Finishing(id, hand, slots[id].flags));
      case Finishing(id, hand, f) =>
        StoreFlags(id, f.(finished := true));
        Move(w, if hand then Handing(id) else Freeing(id));
      case Freeing(id) =>
        if filling.None? {
          SlotFree(id);
          Move(w, AtTop);
        }
      case Handing(id) =>
        if filling.None? {
          working := Without(working, id);
          done := done + [id];
          Move(w, AtTop);
        }
      case _ =>
    }

    /** One atomic step of the loop of ThreadPoolJobConsumeReplies. */
    method ConsumeStep()
      requires Valid() && fault == Sound
      modifies this
      ensures Valid() && Now() == Step(old(Now()), ConsumeOp)
    {
      StepKeeps(Now(), ConsumeOp);
      match consumer
      case Idle =>
        if filling.None? && done != [] {
          consumer := Peeked(done[0]);
        }
      case Peeked(id) =>
        if slots[id].flags.inUse {
          fault := ReplyInUse;
        } else {
          consumer := Checked(id);
        }
      case Checked(id) =>
        if slots[id].flags.finished {
          consumer := Notifying(id);
        } else {
          fault := ReplyUnfinished;
        }
      case Notifying(id) =>
        if slots[id].proto.hasFinish && !slots[id].flags.cancelled {
          log := log + [Finished(slots[id].job)];
        }
        consumer := Called(id);
      case Called(id) =>
        if filling.None? {
          SlotFree(id);
          consumer := Idle;
        }
    }

    /**
     ThreadPoolJobConsumeReplies when no other thread runs in between: from clean flags it empties the
     done list, and no assertion fails.
     */
    method ConsumeReplies() returns (count: nat)
      requires Valid() && Clean(Now()) && fault == Sound && consumer == Idle && filling.None?
      modifies this
      ensures Valid() && Clean(Now()) && fault == Sound && consumer == Idle
      ensures done == [] && count == |old(done)|
      ensures pending == old(pending) && working == old(working) && workers == old(workers)
    {
      count := 0;
      while done != []
        invariant Valid() && Clean(Now()) && fault == Sound && consumer == Idle && filling.None?
        invariant count + |done| == |old(done)|
        invariant pending == old(pending) && working == old(working) && workers == old(workers)
        decreases |done|
      {
        ConsumeFirst();
        count := count + 1;
      }
    }

    // One of its steps that leaves the head where it is.
    method ConsumeHead(ghost next: Consumer)
      requires Valid() && Clean(Now()) && fault == Sound && filling.None? && done != [] && !consumer.Called?
      requires next == match consumer
                       case Idle => Peeked(done[0])
                       case Peeked(id) => Checked(id)
                       case Checked(id) => Notifying(id)
                       case Notifying(id) => Called(id)
                       case Called(_) => Idle
      modifies this
      ensures Valid() && Clean(Now()) && fault == Sound && filling.None? && consumer == next
      ensures done == old(done) && pending == old(pending) && working == old(working) && workers == old(workers)
    {
      CleanStep(Now(), ConsumeOp);
      ConsumeStep();
    }

    // The five steps for the head of the done list.
    method ConsumeFirst()
      requires Valid() && Clean(Now()) && fault == Sound && filling.None? && consumer == Idle && done != []
      modifies this
      ensures Valid() && Clean(Now()) && fault == Sound && filling.None? && consumer == Idle && done == old(done)[1..]
      ensures pending == old(pending) && working == old(working) && workers == old(workers)
    {
      var id := done[0];
      assert id in done && OnOneList(Now(), id);
      NotThere(working, id);
      ConsumeHead(Peeked(id));
      ConsumeHead(Checked(id));
      ConsumeHead(Notifying(id));
      ConsumeHead(Called(id));
      FreeHead();
    }

    // The last of them.
    method FreeHead()
      requires Valid() && Clean(Now()) && fault == Sound && filling.None? && consumer.Called?
      modifies this
      ensures Valid() && Clean(Now()) && fault == Sound && filling.None? && consumer == Idle
      ensures old(done) != [] && done == old(done)[1..] && pending == old(pending)
      ensures working == Without(old(working), old(done)[0]) && workers == old(workers)
    {
      Looked(Now());
      WithoutFirst(done);
      CleanStep(Now(), ConsumeOp);
      ConsumeStep();
    }
  }
}
