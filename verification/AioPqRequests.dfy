/**
 The requests of libbrb_aiopq.c one by one, over whole runs: each accepted one is still there or has ended
 in exactly one way, and canceling decides which.
 */
module AioPqRequests {
  import opened Options
  import opened SlotLists
  import opened AioPq

  predicate Over(e: Ends, num: nat) { num in e.answered || num in e.notified || num in e.dropped }

  predicate Holds(q: Queue, k: nat, num: nat) { k < |q.slots| && q.slots[k].inUse && q.slots[k].num == num }

  predicate HeldAs(q: Queue, num: nat, cancelled: bool) {
    exists k :: 0 <= k < |q.slots| && Holds(q, k, num) && q.slots[k].cancelled == cancelled
  }

  // The numbers of requests that are there, and of those that are over, differ.
  ghost predicate Numbered(q: Queue) {
    && (forall i, j :: 0 <= i < j < |q.slots| && q.slots[i].inUse && q.slots[j].inUse ==>
          q.slots[i].num != q.slots[j].num)
    && (forall k :: 0 <= k < |q.slots| && q.slots[k].inUse ==>
          q.slots[k].num < q.total && !Over(q.ends, q.slots[k].num))
    && (forall num: nat :: Over(q.ends, num) ==> num < q.total)
  }

  // Every accepted request is there or over.
  predicate Accounted(q: Queue) {
    forall num :: 0 <= num < q.total ==> Over(q.ends, num) || exists k :: 0 <= k < |q.slots| && Holds(q, k, num)
  }

  // ---- how a queue goes on ----

  // The same request, which may have been sent.
  predicate Kept(r: Request, t: Request) { r.inUse && t == r.(sent := t.sent) }

  predicate Extends(e: Ends, f: Ends) {
    e.answered <= f.answered && e.notified <= f.notified && e.dropped <= f.dropped
  }

  predicate SlotGoesOn(q: Queue, t: Queue, k: nat)
    requires k < |q.slots| == |t.slots|
  {
    && (t.slots[k].inUse ==>
          Kept(q.slots[k], t.slots[k]) || (q.total <= t.slots[k].num < t.total && !t.slots[k].cancelled))
    && (q.slots[k].inUse ==> Kept(q.slots[k], t.slots[k]) || Over(t.ends, q.slots[k].num))
  }

  // A step that cancels nothing: requests stay, new ones come, and those that end do so by their flag.
  ghost predicate GoesOn(q: Queue, t: Queue) {
    && |t.slots| == |q.slots| && q.total <= t.total && Extends(q.ends, t.ends)
    && (forall k :: 0 <= k < |q.slots| ==> SlotGoesOn(q, t, k))
    && (forall num :: q.total <= num < t.total ==> Over(t.ends, num) || HeldAs(t, num, false))
    && (forall num :: num in t.ends.answered ==> num in q.ends.answered || HeldAs(q, num, false))
    && (forall num :: num in t.ends.notified ==> num in q.ends.notified || HeldAs(q, num, true))
    && (forall num :: num in t.ends.dropped ==> num in q.ends.dropped || HeldAs(q, num, true))
  }

  lemma Stays(q: Queue, t: Queue)
    requires t.slots == q.slots && t.total == q.total && t.ends == q.ends
    ensures GoesOn(q, t) && (Numbered(q) ==> Numbered(t))
  {
    forall k | 0 <= k < |q.slots| ensures SlotGoesOn(q, t, k) {}
  }

  lemma EndsCompose(a: Queue, b: Queue, c: Queue, num: nat, cancelled: bool)
    requires GoesOn(a, b) && a.total == b.total && HeldAs(b, num, cancelled)
    ensures HeldAs(a, num, cancelled)
  {
    var k :| 0 <= k < |b.slots| && Holds(b, k, num) && b.slots[k].cancelled == cancelled;
    assert SlotGoesOn(a, b, k);
    assert Holds(a, k, num);
  }

  lemma OverStays(e: Ends, f: Ends, num: nat)
    requires Extends(e, f) && Over(e, num)
    ensures Over(f, num)
  {
    if num in e.answered { var i :| 0 <= i < |e.answered| && e.answered[i] == num; assert f.answered[i] == num; }
    if num in e.notified { var i :| 0 <= i < |e.notified| && e.notified[i] == num; assert f.notified[i] == num; }
    if num in e.dropped { var i :| 0 <= i < |e.dropped| && e.dropped[i] == num; assert f.dropped[i] == num; }
  }

  // One step behind another, inside one call or event.
  lemma Compose(a: Queue, b: Queue, c: Queue)
    requires GoesOn(a, b) && GoesOn(b, c) && a.total == b.total
    ensures GoesOn(a, c)
  {
    forall k | 0 <= k < |a.slots| ensures SlotGoesOn(a, c, k) {
      assert SlotGoesOn(a, b, k) && SlotGoesOn(b, c, k);
      if a.slots[k].inUse && Over(b.ends, a.slots[k].num) { OverStays(b.ends, c.ends, a.slots[k].num); }
    }
    forall num | num in c.ends.answered ensures num in a.ends.answered || HeldAs(a, num, false) {
      if num !in b.ends.answered { EndsCompose(a, b, c, num, false); }
    }
    forall num | num in c.ends.notified ensures num in a.ends.notified || HeldAs(a, num, true) {
      if num !in b.ends.notified { EndsCompose(a, b, c, num, true); }
    }
    forall num | num in c.ends.dropped ensures num in a.ends.dropped || HeldAs(a, num, true) {
      if num !in b.ends.dropped { EndsCompose(a, b, c, num, true); }
    }
  }

  // ---- the single changes ----

  lemma EnqueueGoesOn(q: Queue, owner: int, hasCb: bool)
    requires GoodSlots(q) && q.free != [] && !q.slots[q.free[|q.free| - 1]].inUse && Numbered(q)
    ensures GoesOn(q, Enqueue(q, owner, hasCb)) && Numbered(Enqueue(q, owner, hasCb))
  {
    var t, id := Enqueue(q, owner, hasCb), q.free[|q.free| - 1];
    forall k | 0 <= k < |q.slots| ensures SlotGoesOn(q, t, k) {}
    assert Holds(t, id, q.total);
    assert HeldAs(t, q.total, false);
  }

  lemma MovedGoesOn(q: Queue, id: nat)
    requires id < |q.slots| && Numbered(q)
    ensures GoesOn(q, Moved(q, id)) && Numbered(Moved(q, id))
  {
    forall k | 0 <= k < |q.slots| ensures SlotGoesOn(q, Moved(q, id), k) {}
  }

  // What a request that leaves is counted as.
  function Ended(e: Ends, r: Request, sent: bool): Ends {
    if !r.cancelled then Answered(e, r.num) else if sent then Notified(e, r.num) else Dropped(e, r.num)
  }

  lemma EndGoesOn(q: Queue, id: nat, sent: bool, t: Queue)
    requires id < |q.slots| && q.slots[id].inUse && Numbered(q) && t.total == q.total
    requires t.slots == q.slots[id := q.slots[id].(inUse := false)] && t.ends == Ended(q.ends, q.slots[id], sent)
    requires q.slots[id].cancelled || sent
    ensures GoesOn(q, t) && Numbered(t)
  {
    var r := q.slots[id];
    assert Holds(q, id, r.num);
    assert HeldAs(q, r.num, r.cancelled);
    assert forall num :: Over(t.ends, num) <==> Over(q.ends, num) || num == r.num;
    forall k | 0 <= k < |q.slots| ensures SlotGoesOn(q, t, k) {}
  }

  // ---- sending and dispatching ----

  lemma TryGoesOn(s: State, i: nat, id: nat, ok: bool)
    requires i < |s.p.clients| && id < |s.q.slots| && Numbered(s.q)
    ensures GoesOn(s.q, Try(s, i, id, ok).0.q) && Numbered(Try(s, i, id, ok).0.q)
  {
    MovedGoesOn(s.q, id);
    Stays(s.q, s.q);
  }

  // Whether it was sent or not, the new request is there.
  lemma NewGoesOn(q: Queue, b: Queue, t: Queue, id: nat)
    requires GoesOn(q, b) && b.total == q.total + 1 && b.ends == q.ends && Holds(b, id, q.total)
    requires !b.slots[id].cancelled
    requires t.slots == b.slots || t.slots == b.slots[id := b.slots[id].(sent := true)]
    requires t.total == b.total && t.ends == b.ends
    ensures GoesOn(q, t) && (Numbered(b) ==> Numbered(t))
  {
    forall k | 0 <= k < |q.slots| ensures SlotGoesOn(q, t, k) { assert SlotGoesOn(q, b, k); }
    assert Holds(t, id, q.total);
    assert HeldAs(t, q.total, false);
  }

  lemma SendGoesOn(s: State, c: Config, owner: int, hasCb: bool, io: Io)
    requires Inv(s, c) && !s.aborted && Good(s) && Numbered(s.q)
    ensures var t := SendReq(s, c, owner, hasCb, io); GoesOn(s.q, t.q) && Numbered(t.q)
  {
    if |s.q.request| + |s.q.reply| < c.countMax {
      EnqueueKeeps(s.q, c, owner, hasCb);
      EnqueueGoesOn(s.q, owner, hasCb);
      NewRequest(s, c, owner, hasCb, io, s.q.free[|s.q.free| - 1]);
    } else {
      Stays(s.q, s.q);
    }
  }

  lemma NewRequest(s: State, c: Config, owner: int, hasCb: bool, io: Io, id: nat)
    requires Good(s) && !s.aborted && s.q.free != [] && id == s.q.free[|s.q.free| - 1] && !s.q.slots[id].inUse
    requires |s.q.request| + |s.q.reply| < c.countMax
    requires GoesOn(s.q, Enqueue(s.q, owner, hasCb)) && Numbered(Enqueue(s.q, owner, hasCb))
    ensures var t := SendReq(s, c, owner, hasCb, io); GoesOn(s.q, t.q) && Numbered(t.q)
  {
    var b := State(Enqueue(s.q, owner, hasCb), s.p, false);
    var t := SendNow(b, c, id, io);
    assert SendReq(s, c, owner, hasCb, io) == t;
    SendNowSlots(b, c, id, io);
    NewGoesOn(s.q, b.q, t.q, id);
  }

  lemma SendNowSlots(s: State, c: Config, id: nat, io: Io)
    requires s.p.live <= |s.p.clients| && id < |s.q.slots|
    ensures var t := SendNow(s, c, id, io).q;
            && (t.slots == s.q.slots || t.slots == s.q.slots[id := s.q.slots[id].(sent := true)])
            && t.total == s.q.total && t.ends == s.q.ends
  {}

  lemma DropGoesOn(s: State, c: Config, i: nat, id: nat)
    requires i < |s.p.clients| && id < |s.q.slots| && s.q.slots[id].inUse && s.q.slots[id].cancelled && Numbered(s.q)
    ensures GoesOn(s.q, Drop(s, c, i, id).q) && Numbered(Drop(s, c, i, id).q)
    ensures Drop(s, c, i, id).q.total == s.q.total
  {
    Stays(s.q, s.q);
    if !Drop(s, c, i, id).aborted { EndGoesOn(s.q, id, false, Drop(s, c, i, id).q); }
  }

  lemma DispatchGoesOn(s: State, c: Config, io: Io, k: nat, j: nat)
    requires Sound(s, c) && Good(s) && !s.aborted && Numbered(s.q)
    ensures var d := Dispatch(s, c, io, k, j).0; GoesOn(s.q, d.q) && Numbered(d.q) && d.q.total == s.q.total
  {
    Stays(s.q, s.q);
    if s.q.request != [] {
      var id := s.q.request[0];
      assert id in s.q.request && SlotFits(s.q, id);
      var r := Search(s.p, 0, c, io, k);
      if r.1.Some? {
        if s.q.slots[id].cancelled {
          DropGoesOn(s.(p := r.0), c, r.1.value, id);
        } else {
          TryGoesOn(s.(p := r.0), r.1.value, id, io.send(j));
        }
      }
    }
  }

  lemma {:induction false} WalkGoesOn(s: State, c: Config, io: Io, k: nat, j: nat)
    requires Sound(s, c) && !s.aborted && Numbered(s.q)
    ensures var t := TickLoop(s, c, io, k, j); GoesOn(s.q, t.q) && Numbered(t.q) && t.q.total == s.q.total
    decreases |s.q.request|
  {
    SoundIsGood(s, c);
    DispatchKeeps(s, c, io, k, j);
    DispatchGoesOn(s, c, io, k, j);
    var d := Dispatch(s, c, io, k, j);
    if d.1 {
      WalkGoesOn(d.0, c, io, d.2, d.3);
      Compose(s.q, d.0.q, TickLoop(d.0, c, io, d.2, d.3).q);
    }
  }

  lemma TickGoesOn(s: State, c: Config, io: Io)
    requires Inv(s, c) && !s.aborted && Numbered(s.q)
    ensures GoesOn(s.q, Tick(s, c, io).q) && Numbered(Tick(s, c, io).q)
  {
    var t := s.(q := s.q.(timerArmed := false));
    Unarmed(s, c);
    Stays(s.q, t.q);
    if s.q.request == [] {
      Stays(s.q, Tick(s, c, io).q);
    } else {
      WalkGoesOn(t, c, io, 0, 0);
      var u := TickLoop(t, c, io, 0, 0);
      Stays(u.q, u.q.(timerArmed := true));
      Compose(s.q, t.q, u.q);
      Compose(s.q, u.q, u.q.(timerArmed := true));
    }
  }

  lemma ReadGoesOn(s: State, c: Config, i: nat, done: bool)
    requires Inv(s, c) && Good(s) && Numbered(s.q) && i < |s.p.clients|
    ensures GoesOn(s.q, Read(s, i, done).q) && Numbered(Read(s, i, done).q)
  {
    Stays(s.q, s.q);
    var cl := s.p.clients[i];
    if cl.req.Some? && done && cl.busy {
      var id := cl.req.value;
      assert id in s.q.reply && SlotFits(s.q, id);
      EndGoesOn(s.q, id, true, Read(s, i, done).q);
    }
  }

  predicate Cancels(op: Op) { op.CancelOwnerOp? || op.CancelReqOp? }

  lemma StepGoesOn(s: State, c: Config, op: Op)
    requires Inv(s, c) && !s.aborted && Numbered(s.q) && !Cancels(op)
    ensures GoesOn(s.q, Step(s, c, op).q) && Numbered(Step(s, c, op).q)
  {
    SoundIsGood(s, c);
    Stays(s.q, s.q);
    match op
    case SendOp(owner, hasCb, io) => SendGoesOn(s, c, owner, hasCb, io);
    case TickOp(io) => TickGoesOn(s, c, io);
    case ReadOp(i, done) => if i < s.p.live { ReadGoesOn(s, c, i, done); }
    case _ =>
  }

  // ---- canceling ----

  predicate Waits(q: Queue, k: nat) { k in q.request || k in q.reply }

  /** Canceling by owner sets the flag of exactly the owner's requests on both lists, and changes nothing else. */
  lemma OwnerSlots(s: State, c: Config, owner: int)
    requires Inv(s, c) && !s.aborted
    ensures var t := Step(s, c, CancelOwnerOp(owner));
            && t == s.(q := s.q.(slots := t.q.slots)) && |t.q.slots| == |s.q.slots|
            && forall k :: 0 <= k < |s.q.slots| ==>
                 && t.q.slots[k] == s.q.slots[k].(cancelled := t.q.slots[k].cancelled)
                 && (t.q.slots[k].cancelled <==>
                     s.q.slots[k].cancelled || (s.q.slots[k].inUse && s.q.slots[k].owner == owner))
  {
    var t := Step(s, c, CancelOwnerOp(owner));
    forall k | 0 <= k < |s.q.slots|
      ensures t.q.slots[k].cancelled <==>
              s.q.slots[k].cancelled || (s.q.slots[k].inUse && s.q.slots[k].owner == owner)
    {
      assert SlotFits(s.q, k);
    }
  }

  /** Canceling by number sets the flag of this request, where no assertion fails, and changes nothing else. */
  lemma ReqSlots(s: State, c: Config, id: int)
    requires Inv(s, c) && !s.aborted && !Step(s, c, CancelReqOp(id)).aborted
    ensures var t := Step(s, c, CancelReqOp(id));
            && t == s.(q := s.q.(slots := t.q.slots)) && |t.q.slots| == |s.q.slots|
            && forall k :: 0 <= k < |s.q.slots| ==>
                 && t.q.slots[k] == s.q.slots[k].(cancelled := t.q.slots[k].cancelled)
                 && (t.q.slots[k].cancelled <==> s.q.slots[k].cancelled || k == id)
  {}

  lemma StepNumbered(s: State, c: Config, op: Op)
    requires Inv(s, c) && !s.aborted && Numbered(s.q)
    ensures Numbered(Step(s, c, op).q)
  {
    match op
    case CancelOwnerOp(owner) => OwnerSlots(s, c, owner);
    case CancelReqOp(id) => if !Step(s, c, op).aborted { ReqSlots(s, c, id); }
    case _ => StepGoesOn(s, c, op);
  }

  lemma StepAccounted(s: State, c: Config, op: Op)
    requires Inv(s, c) && !s.aborted && Numbered(s.q) && Accounted(s.q)
    ensures Accounted(Step(s, c, op).q)
  {
    var t := Step(s, c, op);
    if op.CancelOwnerOp? {
      OwnerSlots(s, c, op.owner);
    } else if op.CancelReqOp? {
      if !t.aborted { ReqSlots(s, c, op.id); }
    } else {
      StepGoesOn(s, c, op);
    }
    forall num | 0 <= num < t.q.total
      ensures Over(t.q.ends, num) || exists k :: 0 <= k < |t.q.slots| && Holds(t.q, k, num)
    {
      if num < s.q.total {
        if Over(s.q.ends, num) {
          OverStays(s.q.ends, t.q.ends, num);
        } else {
          var k :| 0 <= k < |s.q.slots| && Holds(s.q, k, num);
          if !Cancels(op) { assert SlotGoesOn(s.q, t.q, k); }
          assert Over(t.q.ends, num) || Holds(t.q, k, num);
        }
      }
    }
  }

  // ---- requests that are canceled in time ----

  // The request is canceled and was not counted as a success.
  predicate Barred(q: Queue, num: nat) {
    && num < q.total && num !in q.ends.answered
    && forall k :: 0 <= k < |q.slots| && Holds(q, k, num) ==> q.slots[k].cancelled
  }

  lemma StepBarred(s: State, c: Config, op: Op, num: nat)
    requires Inv(s, c) && !s.aborted && Numbered(s.q) && Barred(s.q, num)
    ensures Barred(Step(s, c, op).q, num)
  {
    var t := Step(s, c, op);
    if op.CancelOwnerOp? {
      OwnerSlots(s, c, op.owner);
    } else if op.CancelReqOp? {
      if !t.aborted { ReqSlots(s, c, op.id); }
    } else {
      StepGoesOn(s, c, op);
    }
    forall k | 0 <= k < |t.q.slots| && Holds(t.q, k, num) ensures t.q.slots[k].cancelled {
      if !Cancels(op) { assert SlotGoesOn(s.q, t.q, k); }
      assert Holds(s.q, k, num);
    }
  }

  lemma {:induction false} BarredRun(s: State, c: Config, ops: seq<Op>, num: nat)
    requires Inv(s, c) && Numbered(s.q) && Barred(s.q, num)
    ensures num !in Run(s, c, ops).q.ends.answered
    decreases ops
  {
    if s.aborted {
      AbortedRun(s, c, ops);
    } else if ops != [] {
      var t := Step(s, c, ops[0]);
      StepKeeps(s, c, ops[0]);
      StepBarred(s, c, ops[0], num);
      StepNumbered(s, c, ops[0]);
      if t.aborted {
        AbortedRun(t, c, ops[1..]);
      } else {
        BarredRun(t, c, ops[1..], num);
      }
    }
  }

  /** No request of the owner that waits, sent or not, when they are canceled is ever counted as a success. */
  lemma OwnerCanceled(s: State, c: Config, owner: int, k: nat, ops: seq<Op>)
    requires Inv(s, c) && !s.aborted && Numbered(s.q) && Waits(s.q, k) && k < |s.q.slots| && s.q.slots[k].owner == owner
    ensures var t := Step(s, c, CancelOwnerOp(owner));
            Inv(t, c) && s.q.slots[k].num !in Run(t, c, ops).q.ends.answered
  {
    var t, num := Step(s, c, CancelOwnerOp(owner)), s.q.slots[k].num;
    StepKeeps(s, c, CancelOwnerOp(owner));
    StepNumbered(s, c, CancelOwnerOp(owner));
    OwnerSlots(s, c, owner);
    assert SlotFits(s.q, k);
    forall i | 0 <= i < |t.q.slots| && Holds(t.q, i, num) ensures t.q.slots[i].cancelled {
      assert Holds(s.q, i, num) && (i < k || i == k || k < i);
    }
    BarredRun(t, c, ops, num);
  }

  /** The same for the request canceled by its number. */
  lemma ReqCanceled(s: State, c: Config, id: nat, ops: seq<Op>)
    requires Inv(s, c) && !s.aborted && Numbered(s.q) && !Step(s, c, CancelReqOp(id)).aborted
    ensures var t := Step(s, c, CancelReqOp(id));
            && id < |s.q.slots| && s.q.slots[id].inUse
            && Inv(t, c) && s.q.slots[id].num !in Run(t, c, ops).q.ends.answered
  {
    var t, num := Step(s, c, CancelReqOp(id)), s.q.slots[id].num;
    StepKeeps(s, c, CancelReqOp(id));
    StepNumbered(s, c, CancelReqOp(id));
    ReqSlots(s, c, id);
    forall i | 0 <= i < |t.q.slots| && Holds(t.q, i, num) ensures t.q.slots[i].cancelled {
      assert Holds(s.q, i, num) && (i < id || i == id || id < i);
    }
    BarredRun(t, c, ops, num);
  }

  // ---- requests that nobody cancels ----

  // The request was not canceled, and not counted as such.
  predicate Spared(q: Queue, num: nat) {
    && num < q.total && num !in q.ends.notified && num !in q.ends.dropped
    && forall k :: 0 <= k < |q.slots| && Holds(q, k, num) ==> !q.slots[k].cancelled
  }

  // The call cancels the request.
  predicate Hits(s: State, op: Op, num: nat) {
    exists k :: 0 <= k < |s.q.slots| && Holds(s.q, k, num)
                && ((op.CancelOwnerOp? && op.owner == s.q.slots[k].owner) || (op.CancelReqOp? && op.id == k))
  }

  lemma StepSpared(s: State, c: Config, op: Op, num: nat)
    requires Inv(s, c) && !s.aborted && Numbered(s.q) && Spared(s.q, num) && !Hits(s, op, num)
    ensures Spared(Step(s, c, op).q, num)
  {
    var t := Step(s, c, op);
    if op.CancelOwnerOp? {
      OwnerSlots(s, c, op.owner);
    } else if op.CancelReqOp? {
      if !t.aborted { ReqSlots(s, c, op.id); }
    } else {
      StepGoesOn(s, c, op);
    }
    forall k | 0 <= k < |t.q.slots| && Holds(t.q, k, num) ensures !t.q.slots[k].cancelled {
      if !Cancels(op) { assert SlotGoesOn(s.q, t.q, k); }
      assert Holds(s.q, k, num);
    }
  }

  predicate SparingRun(s: State, c: Config, ops: seq<Op>, num: nat)
    requires s.aborted || Inv(s, c)
    decreases ops
  {
    s.aborted || ops == [] ||
    (!Hits(s, ops[0], num) && (StepKeeps(s, c, ops[0]); SparingRun(Step(s, c, ops[0]), c, ops[1..], num)))
  }

  /** A request that no call of the run cancels does not end as a canceled one. */
  lemma {:induction false} SparedRun(s: State, c: Config, ops: seq<Op>, num: nat)
    requires Inv(s, c) && Numbered(s.q) && Spared(s.q, num) && SparingRun(s, c, ops, num)
    ensures num !in Run(s, c, ops).q.ends.notified && num !in Run(s, c, ops).q.ends.dropped
    decreases ops
  {
    if s.aborted {
      AbortedRun(s, c, ops);
    } else if ops != [] {
      var t := Step(s, c, ops[0]);
      StepKeeps(s, c, ops[0]);
      StepSpared(s, c, ops[0], num);
      StepNumbered(s, c, ops[0]);
      if t.aborted {
        AbortedRun(t, c, ops[1..]);
      } else {
        SparedRun(t, c, ops[1..], num);
      }
    }
  }

  // ---- all requests of a run ----

  lemma {:induction false} RunNumbered(s: State, c: Config, ops: seq<Op>)
    requires Inv(s, c) && Numbered(s.q) && Accounted(s.q)
    ensures Numbered(Run(s, c, ops).q) && Accounted(Run(s, c, ops).q)
    decreases ops
  {
    if s.aborted {
      AbortedRun(s, c, ops);
    } else if ops != [] {
      var t := Step(s, c, ops[0]);
      StepKeeps(s, c, ops[0]);
      StepNumbered(s, c, ops[0]);
      StepAccounted(s, c, ops[0]);
      if t.aborted {
        AbortedRun(t, c, ops[1..]);
      } else {
        RunNumbered(t, c, ops[1..]);
      }
    }
  }

  lemma InitNumbered(c: Config, io: Io)
    ensures Inv(Init(c, io), c) && Numbered(Init(c, io).q) && Accounted(Init(c, io).q)
  {
    InitHolds(c, io);
  }

  /**
   After any run, ended by a failed assertion or not: every accepted request is in a slot of its own, or
   over; none is both.
   */
  lemma EveryRequest(c: Config, io: Io, ops: seq<Op>)
    ensures Inv(Init(c, io), c) && Numbered(Run(Init(c, io), c, ops).q) && Accounted(Run(Init(c, io), c, ops).q)
  {
    InitNumbered(c, io);
    RunNumbered(Init(c, io), c, ops);
  }
}
