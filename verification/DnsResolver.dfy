/**
 The resolver of comm_dns_resolver.c: queries wait on req_list to be sent and on reply_list to be
 answered, sent again or given up. Slots are numbers; a list is the sequence of its slots.
 */
module DnsResolver {
  import opened DnsNames
  import opened DnsMessages
  import opened Options
  import opened SlotLists

  const SLOTS: nat := 65535  // RESOLVER_DNS_MAX_SEQID

  datatype Timeval = Timeval(sec: int, usec: int)

  // C's division of ints.
  function Quotient(a: int, b: int): int
    requires b > 0
  {
    if a >= 0 then a / b else -(-a / b)
  }

  // CommEvDNStvSubMsec.
  function SubMsec(t1: Timeval, t2: Timeval): int {
    (t2.sec - t1.sec) * 1000 + Quotient(t2.usec - t1.usec, 1000)
  }

  // DNSPendingQuery. `call` tells which call of CommEvDNSGetHostByNameX it belongs to.
  datatype Pending = Pending(
    inUse: bool, reXmit: bool, waitingReply: bool, canceled: bool,
    reqCount: nat, failCount: nat, transmit: Timeval, retransmit: Timeval, request: seq<byte>, call: nat)

  const CLEAN := Pending(false, false, false, false, 0, 0, Timeval(0, 0), Timeval(0, 0), [], 0)

  datatype Code = TimedOut | Success

  // What the outside sees of a query.
  datatype Event = Sent(call: nat) | Notified(call: nat, code: Code) | Canceled(call: nat)

  datatype Config = Config(retryCount: nat, lookupMs: int, retryMs: int)

  // sizeOff is what the size of reply_list says beyond the number of its nodes.
  datatype State = State(
    slots: seq<Pending>, free: seq<nat>, req: seq<nat>, reply: seq<nat>,
    writeArmed: bool, readArmed: bool, timerArmed: bool, calls: nat, log: seq<Event>, sizeOff: int)

  function Update(s: State, id: nat, q: Pending): State
    requires id < |s.slots|
  {
    s.(slots := s.slots[id := q])
  }

  // Frees a slot and takes its query off reply_list.
  function Release(s: State, id: nat): State
    requires id < |s.slots|
  {
    Update(s, id, CLEAN).(free := s.free + [id], reply := Without(s.reply, id))
  }

  // The finish callback, unless the query was canceled.
  function Notify(s: State, q: Pending, code: Code): State {
    if q.canceled then s else s.(log := s.log + [Notified(q.call, code)])
  }

  // ---- sending ----

  // can_write_sz compared as an unsigned long.
  function Unsigned(n: int): int { if n < 0 then n + 0x1_0000_0000_0000_0000 else n }

  function MarkSent(s: State, id: nat): State
    requires id < |s.slots| && s.req != []
  {
    var q := s.slots[id];
    Update(s, id, q.(reqCount := q.reqCount + 1, waitingReply := true))
      .(req := s.req[1..], reply := s.reply + [id], log := s.log + [Sent(q.call)])
  }

  // The loop of CommEvDNSWriteEvent; send(k) is what the k-th sendto returns, and wrote the result of the
  // last one. A negative result compares as a huge one and so counts as sent.
  function WriteLoop(s: State, canWrite: int, send: nat -> int, k: nat, wrote: int): State
    requires |s.slots| == SLOTS && AllSlots(s.req)
    decreases |s.req|
  {
    if s.req == [] then s.(readArmed := true)
    else
      var id := s.req[0];
      var q := s.slots[id];
      if |q.request| + wrote + 1 > Unsigned(canWrite) then s.(readArmed := true, writeArmed := true)
      else if 0 <= send(k) < |q.request| then
        Update(s, id, q.(failCount := q.failCount + 1)).(readArmed := true, writeArmed := true)
      else WriteLoop(MarkSent(s, id), canWrite, send, k + 1, send(k))
  }

  // ---- asking ----

  function NewQuery(host: seq<byte>, queryX: int, now: Timeval, id: u16, call: nat): Pending {
    Pending(true, false, false, false, 0, 0, now, now, Query(host, if queryX > 0 then TYPE_AAAA else TYPE_A, id), call)
  }

  predicate AllSlots(ids: seq<nat>) { Below(ids, SLOTS) }

  predicate GoodSlots(s: State) {
    && |s.slots| == SLOTS
    && AllSlots(s.free) && AllSlots(s.req) && AllSlots(s.reply)
  }

  // The query on a grabbed slot, put at the tail of req_list.
  function Enqueue(s: State, host: seq<byte>, queryX: int, now: Timeval): State
    requires GoodSlots(s) && s.free != []
  {
    var id := s.free[|s.free| - 1];
    Update(s, id, NewQuery(host, queryX, now, id, s.calls))
      .(free := s.free[..|s.free| - 1], req := s.req + [id], writeArmed := true, calls := s.calls + 1)
  }

  // CommEvDNSGetHostByNameX with a handler.
  function Ask(s: State, host: seq<byte>, queryX: int, now: Timeval, send: nat -> int): State
    requires GoodSlots(s)
  {
    if s.free == [] then s
    else
      var e := Enqueue(s, host, queryX, now);
      (if e.reply != [] then e else WriteLoop(e, 8092, send, 0, 0)).(timerArmed := true)
  }

  // CommEvDNSCancelPendingRequest.
  function Cancel(s: State, id: nat): State
    requires GoodSlots(s)
  {
    if id >= SLOTS || !s.slots[id].inUse then s
    else
      var q := s.slots[id];
      var t := s.(log := s.log + [Canceled(q.call)]);
      if q.waitingReply then Update(t, id, q.(canceled := true))
      else Update(t, id, CLEAN).(free := s.free + [id], req := Without(s.req, id))
  }

  // ---- the timer ----

  predicate Expired(q: Pending, c: Config, now: Timeval) {
    || SubMsec(q.transmit, now) > c.lookupMs
    || (SubMsec(q.retransmit, now) > c.retryMs && q.reqCount > c.retryCount && !q.canceled)
  }

  predicate Retransmits(q: Pending, c: Config, now: Timeval) {
    !Expired(q, c, now) && SubMsec(q.retransmit, now) > c.retryMs && q.reqCount <= c.retryCount
  }

  function Requeue(s: State, id: nat, now: Timeval): State
    requires id < |s.slots|
  {
    Update(s, id, s.slots[id].(retransmit := now, waitingReply := false, reXmit := true))
      .(reply := Without(s.reply, id), req := s.req + [id], writeArmed := true)
  }

  // The walk of CommEvDNSPeriodicTimerEvent over reply_list from position i on. The requeued node is the
  // last of its new list, so the walk ends with the first retransmission.
  function TimerLoop(s: State, c: Config, now: Timeval, i: nat): State
    requires GoodSlots(s) && i <= |s.reply|
    decreases |s.reply| - i
  {
    if i == |s.reply| then s
    else
      var id := s.reply[i];
      var q := s.slots[id];
      if Expired(q, c, now) then
        ShorterWithout(s.reply, id);
        BelowWithout(s.reply, id, SLOTS);
        TimerLoop(Release(Notify(s, q, TimedOut), id), c, now, i)
      else if Retransmits(q, c, now) then Requeue(s, id, now)
      else TimerLoop(s, c, now, i + 1)
  }

  function Tick(s: State, c: Config, now: Timeval): State
    requires GoodSlots(s)
  {
    if s.reply == [] then s.(timerArmed := false)
    else TimerLoop(s, c, now, 0).(timerArmed := true)
  }

  // ---- answers ----

  // What is left of req_list when DLinkedListDelete is called on reply_list with one of its nodes, and the
  // node is wiped: a node at the head stays there, now with nothing behind it; another one is unlinked.
  function Misdeleted(req: seq<nat>, id: nat): seq<nat> {
    if req != [] && req[0] == id then [id] else Without(req, id)
  }

  // The reply to a query that waits on req_list to be sent again. A node alone on its list counts as an orphan.
  function StrayAnswer(s: State, id: nat): State
    requires id < |s.slots|
  {
    Update(s, id, CLEAN)
      .(free := s.free + [id], req := Misdeleted(s.req, id),
        sizeOff := if |s.req| == 1 then s.sizeOff else s.sizeOff - 1)
  }

  // CommEvDNSDataEvent for a reply with this id.
  function Answer(s: State, id: nat): State
    requires GoodSlots(s)
  {
    if id >= SLOTS || !s.slots[id].inUse then s.(readArmed := true)
    else
      var t := Notify(s, s.slots[id], Success);
      (if s.slots[id].waitingReply then Release(t, id) else StrayAnswer(t, id)).(readArmed := true)
  }

  // ---- runs ----

  // Every call and every event, with what the outside supplies: times, sendto results, answer ids.
  datatype Op =
    | AskOp(host: seq<byte>, queryX: int, now: Timeval, send: nat -> int)
    | CancelOp(id: nat)
    | WriteOp(canWrite: int, send: nat -> int)
    | TickOp(now: Timeval)
    | AnswerOp(id: nat)

  // An event fires only while it is armed.
  predicate Allowed(s: State, op: Op)
    requires GoodSlots(s)
  {
    match op
    case WriteOp(_, _) => s.writeArmed
    case TickOp(_) => s.timerArmed
    case AnswerOp(_) => s.readArmed
    case _ => true
  }

  // A reply to a query that waits on req_list, as one does that is to be sent again.
  predicate Stray(s: State, op: Op)
    requires GoodSlots(s)
  {
    op.AnswerOp? && op.id < SLOTS && s.slots[op.id].inUse && !s.slots[op.id].waitingReply
  }

  function Step(s: State, c: Config, op: Op): State
    requires GoodSlots(s)
  {
    match op
    case AskOp(host, queryX, now, send) => Ask(s, host, queryX, now, send)
    case CancelOp(id) => Cancel(s, id)
    case WriteOp(canWrite, send) => WriteLoop(s.(writeArmed := false), canWrite, send, 0, 0)
    case TickOp(now) => Tick(s, c, now)
    case AnswerOp(id) => Answer(s.(readArmed := false), id)
  }

  // ---- the invariant ----

  // A slot is free, or in use on exactly one of the two lists; waitingReply tells which.
  predicate Lists(s: State) {
    && GoodSlots(s) && Distinct(s.free) && Distinct(s.req) && Distinct(s.reply) && s.sizeOff == 0
    && (forall id :: 0 <= id < SLOTS ==> (s.slots[id].inUse <==> id !in s.free))
    && (forall id :: 0 <= id < SLOTS ==> (s.slots[id].inUse && !s.slots[id].waitingReply <==> id in s.req))
    && (forall id :: 0 <= id < SLOTS ==> (s.slots[id].waitingReply <==> id in s.reply))
    && (forall id :: 0 <= id < SLOTS ==> s.slots[id].waitingReply ==> s.slots[id].inUse)
  }

  function Sends(log: seq<Event>, call: nat): nat { multiset(log)[Sent(call)] }

  function Notices(log: seq<Event>, call: nat): nat {
    multiset(log)[Notified(call, TimedOut)] + multiset(log)[Notified(call, Success)]
  }

  // What the log says about the queries that are still pending.
  predicate Told(s: State, c: Config, id: nat)
    requires id < |s.slots|
  {
    var q := s.slots[id];
    q.inUse ==>
      && q.call < s.calls
      && Notices(s.log, q.call) == 0
      && Sends(s.log, q.call) == q.reqCount <= c.retryCount + (if q.waitingReply then 1 else 0)
      && (q.canceled <==> Canceled(q.call) in s.log)
  }

  predicate OwnCalls(s: State) {
    forall i, j :: 0 <= i < j < |s.slots| && s.slots[i].inUse && s.slots[j].inUse ==> s.slots[i].call != s.slots[j].call
  }

  // No callback comes behind a cancellation.
  predicate Quiet(log: seq<Event>) {
    forall i, j :: 0 <= i < j < |log| && log[j].Notified? ==> log[i] != Canceled(log[j].call)
  }

  predicate Pends(s: State, call: nat) {
    exists id :: 0 <= id < |s.slots| && s.slots[id].inUse && s.slots[id].call == call
  }

  // The account of one call.
  predicate Counted(s: State, c: Config, call: nat) {
    && Notices(s.log, call) <= 1 && Sends(s.log, call) <= c.retryCount + 1
    && (call >= s.calls ==> Notices(s.log, call) == 0 && Sends(s.log, call) == 0 && Canceled(call) !in s.log)
    && (call < s.calls ==> Pends(s, call) || Notices(s.log, call) == 1 || Canceled(call) in s.log)
  }

  // Queries waiting to be sent, or to be answered, have their event armed.
  predicate Armed(s: State) { (s.req != [] ==> s.writeArmed) && (s.reply != [] ==> s.readArmed) }

  ghost predicate Inv(s: State, c: Config) {
    && Lists(s) && OwnCalls(s) && Quiet(s.log)
    && (forall id :: 0 <= id < SLOTS ==> Told(s, c, id))
    && (forall call: nat :: Counted(s, c, call))
  }

  lemma LogMore(log: seq<Event>, e: Event)
    ensures forall call :: Sends(log + [e], call) == Sends(log, call) + if e == Sent(call) then 1 else 0
    ensures forall call ::
              Notices(log + [e], call) == Notices(log, call) + if e.Notified? && e.call == call then 1 else 0
    ensures forall call :: Canceled(call) in log + [e] <==> Canceled(call) in log || e == Canceled(call)
  {
    assert multiset(log + [e]) == multiset(log) + multiset{e};
    assert e.Notified? ==> e.code.TimedOut? || e.code.Success?;
  }

  lemma QuietMore(log: seq<Event>, e: Event)
    requires Quiet(log) && (e.Notified? ==> Canceled(e.call) !in log)
    ensures Quiet(log + [e])
  {}

  // Moving a query from the head of req_list to reply_list.
  lemma SentKeeps(s: State, c: Config)
    requires Inv(s, c) && s.req != []
    ensures Inv(MarkSent(s, s.req[0]), c)
  {
    var id, t := s.req[0], MarkSent(s, s.req[0]);
    assert id in s.req;
    LogMore(s.log, Sent(s.slots[id].call));
    QuietMore(s.log, Sent(s.slots[id].call));
    SentLists(s, id);
    assert Told(s, c, id);
    forall k | 0 <= k < SLOTS ensures Told(t, c, k) {
      assert Told(s, c, k);
    }
    forall call: nat ensures Counted(t, c, call) {
      assert Counted(s, c, call);
      SamePends(s, t, call);
    }
  }

  lemma SentLists(s: State, id: nat)
    requires Lists(s) && s.req != [] && id == s.req[0]
    ensures Lists(MarkSent(s, id))
  {
    FirstTaken(s.req);
    Appended(s.reply, id);
  }

  lemma SamePends(s: State, t: State, call: nat)
    requires |s.slots| == |t.slots|
    requires forall id :: 0 <= id < |s.slots| && s.slots[id].inUse ==>
               t.slots[id].inUse && t.slots[id].call == s.slots[id].call
    ensures Pends(s, call) ==> Pends(t, call)
  {}

  lemma WriteKeeps(s: State, c: Config, canWrite: int, send: nat -> int, k: nat, wrote: int)
    requires Inv(s, c)
    ensures Inv(WriteLoop(s, canWrite, send, k, wrote), c) && Armed(WriteLoop(s, canWrite, send, k, wrote))
    ensures WriteLoop(s, canWrite, send, k, wrote).timerArmed == s.timerArmed
  {
    WriteArms(s, canWrite, send, k, wrote);
    WriteKeepsLists(s, c, canWrite, send, k, wrote);
  }

  lemma {:induction false} WriteKeepsLists(s: State, c: Config, canWrite: int, send: nat -> int, k: nat, wrote: int)
    requires Inv(s, c)
    ensures Inv(WriteLoop(s, canWrite, send, k, wrote), c)
    decreases |s.req|
  {
    if s.req != [] {
      var id := s.req[0];
      var q := s.slots[id];
      if |q.request| + wrote + 1 > Unsigned(canWrite) {
        ArmsKeep(s, s.(readArmed := true, writeArmed := true), c);
      } else if 0 <= send(k) < |q.request| {
        FailKeeps(s, c, id);
      } else {
        SentKeeps(s, c);
        WriteKeepsLists(MarkSent(s, id), c, canWrite, send, k + 1, send(k));
      }
    } else {
      ArmsKeep(s, s.(readArmed := true), c);
    }
  }

  lemma {:induction false} WriteArms(s: State, canWrite: int, send: nat -> int, k: nat, wrote: int)
    requires |s.slots| == SLOTS && AllSlots(s.req)
    ensures Armed(WriteLoop(s, canWrite, send, k, wrote))
    ensures WriteLoop(s, canWrite, send, k, wrote).timerArmed == s.timerArmed
    decreases |s.req|
  {
    if s.req != [] { WriteArms(MarkSent(s, s.req[0]), canWrite, send, k + 1, send(k)); }
  }

  // Arming and disarming events does not touch queries.
  lemma ArmsKeep(s: State, t: State, c: Config)
    requires Inv(s, c) && t == s.(writeArmed := t.writeArmed, readArmed := t.readArmed, timerArmed := t.timerArmed)
    ensures Inv(t, c)
  {
    forall id | 0 <= id < SLOTS ensures Told(t, c, id) { assert Told(s, c, id); }
    forall call: nat ensures Counted(t, c, call) {
      assert Counted(s, c, call);
      SamePends(s, t, call);
    }
  }

  // A change of one slot in fields that no list and no log entry depends on.
  lemma DetailKeeps(s: State, c: Config, id: nat, q: Pending)
    requires Inv(s, c) && id < SLOTS
    requires var p := s.slots[id];
             && q.inUse == p.inUse && q.waitingReply == p.waitingReply && q.canceled == p.canceled
             && q.reqCount == p.reqCount && q.call == p.call
    ensures Inv(Update(s, id, q), c)
  {
    var t := Update(s, id, q);
    forall k | 0 <= k < SLOTS ensures Told(t, c, k) { assert Told(s, c, k); }
    forall call: nat ensures Counted(t, c, call) {
      assert Counted(s, c, call);
      SamePends(s, t, call);
    }
  }

  lemma FailKeeps(s: State, c: Config, id: nat)
    requires Inv(s, c) && id < SLOTS
    ensures var q := s.slots[id].(failCount := s.slots[id].failCount + 1);
            Inv(Update(s, id, q).(readArmed := true, writeArmed := true), c)
  {
    var t := Update(s, id, s.slots[id].(failCount := s.slots[id].failCount + 1));
    DetailKeeps(s, c, id, s.slots[id].(failCount := s.slots[id].failCount + 1));
    ArmsKeep(t, t.(readArmed := true, writeArmed := true), c);
  }

  lemma EnqueueKeeps(s: State, c: Config, host: seq<byte>, queryX: int, now: Timeval)
    requires Inv(s, c) && s.free != []
    ensures Inv(Enqueue(s, host, queryX, now), c)
  {
    var id, t := s.free[|s.free| - 1], Enqueue(s, host, queryX, now);
    LastTaken(s.free);
    assert id in s.free && !s.slots[id].inUse && id !in s.req && id !in s.reply;
    Appended(s.req, id);
    assert Counted(s, c, s.calls);
    forall k | 0 <= k < SLOTS ensures Told(t, c, k) { assert Told(s, c, k); }
    forall i, j | 0 <= i < j < SLOTS && t.slots[i].inUse && t.slots[j].inUse
      ensures t.slots[i].call != t.slots[j].call
    {
      assert Told(s, c, i) && Told(s, c, j);
    }
    forall call: nat ensures Counted(t, c, call) {
      assert Counted(s, c, call);
      SamePends(s, t, call);
      if call == s.calls { assert t.slots[id].call == call; }
    }
  }

  // A slot that goes back to the free ones, its query told about in one more log entry or canceled before.
  lemma FreedKeeps(s: State, t: State, c: Config, id: nat, log: seq<Event>)
    requires Inv(s, c) && id < SLOTS && s.slots[id].inUse && Quiet(log)
    requires t == Update(s, id, CLEAN).(free := s.free + [id], req := Without(s.req, id), reply := Without(s.reply, id),
                                        log := log)
    requires forall call :: Sends(log, call) == Sends(s.log, call)
    requires forall call :: call != s.slots[id].call ==>
               Notices(log, call) == Notices(s.log, call) && (Canceled(call) in log <==> Canceled(call) in s.log)
    requires var call := s.slots[id].call;
             Notices(log, call) == 1 || (Notices(log, call) == 0 && Canceled(call) in log)
    ensures Inv(t, c)
  {
    FreedLists(s, t, id);
    assert Told(s, c, id);
    forall k | 0 <= k < SLOTS ensures Told(t, c, k) {
      assert Told(s, c, k);
      assert k != id && s.slots[k].inUse ==> s.slots[k].call != s.slots[id].call;
    }
    forall call: nat ensures Counted(t, c, call) {
      assert Counted(s, c, call);
      if call != s.slots[id].call && Pends(s, call) { OtherPends(s, t, id, call); }
    }
  }

  lemma FreedLists(s: State, t: State, id: nat)
    requires Lists(s) && id < SLOTS && s.slots[id].inUse
    requires t == Update(s, id, CLEAN).(free := s.free + [id], req := Without(s.req, id), reply := Without(s.reply, id),
                                        log := t.log)
    ensures Lists(t)
  {
    WithoutFacts(s.req, id);
    WithoutFacts(s.reply, id);
    Appended(s.free, id);
    BelowWithout(s.req, id, SLOTS);
    BelowWithout(s.reply, id, SLOTS);
  }

  lemma OtherPends(s: State, t: State, id: nat, call: nat)
    requires |s.slots| == |t.slots| && id < |s.slots| && Pends(s, call) && call != s.slots[id].call
    requires forall k :: 0 <= k < |s.slots| && k != id ==> t.slots[k] == s.slots[k]
    ensures Pends(t, call)
  {
    var k :| 0 <= k < |s.slots| && s.slots[k].inUse && s.slots[k].call == call;
    assert t.slots[k] == s.slots[k];
  }

  // A query on reply_list is finished: the callback is made, unless it was canceled.
  lemma ReleaseKeeps(s: State, c: Config, id: nat, code: Code)
    requires Inv(s, c) && id < SLOTS && s.slots[id].waitingReply
    ensures Inv(Release(Notify(s, s.slots[id], code), id), c)
  {
    var q, log := s.slots[id], Notify(s, s.slots[id], code).log;
    assert id in s.reply && id !in s.req && Told(s, c, id);
    if !q.canceled {
      LogMore(s.log, Notified(q.call, code));
      QuietMore(s.log, Notified(q.call, code));
    }
    NotThere(s.req, id);
    FreedKeeps(s, Release(Notify(s, q, code), id), c, id, log);
  }

  lemma CancelKeeps(s: State, c: Config, id: nat)
    requires Inv(s, c)
    ensures Inv(Cancel(s, id), c)
  {
    if id < SLOTS && s.slots[id].inUse {
      var q := s.slots[id];
      LogMore(s.log, Canceled(q.call));
      QuietMore(s.log, Canceled(q.call));
      assert Told(s, c, id);
      if q.waitingReply {
        MarkKeeps(s, c, id);
      } else {
        NotThere(s.reply, id);
        FreedKeeps(s, Cancel(s, id), c, id, s.log + [Canceled(q.call)]);
      }
    }
  }

  lemma MarkKeeps(s: State, c: Config, id: nat)
    requires Inv(s, c) && id < SLOTS && s.slots[id].inUse && s.slots[id].waitingReply
    ensures Inv(Cancel(s, id), c)
  {
    var q, t := s.slots[id], Cancel(s, id);
    LogMore(s.log, Canceled(q.call));
    QuietMore(s.log, Canceled(q.call));
    forall k | 0 <= k < SLOTS ensures Told(t, c, k) { assert Told(s, c, k); }
    forall call: nat ensures Counted(t, c, call) {
      assert Counted(s, c, call) && Told(s, c, id);
      SamePends(s, t, call);
    }
  }

  lemma RequeueKeeps(s: State, c: Config, id: nat, now: Timeval)
    requires Inv(s, c) && id < SLOTS && s.slots[id].waitingReply && s.slots[id].reqCount <= c.retryCount
    ensures Inv(Requeue(s, id, now), c)
  {
    var t := Requeue(s, id, now);
    assert id in s.reply && id !in s.req;
    WithoutFacts(s.reply, id);
    BelowWithout(s.reply, id, SLOTS);
    Appended(s.req, id);
    forall k | 0 <= k < SLOTS ensures Told(t, c, k) { assert Told(s, c, k); }
    forall call: nat ensures Counted(t, c, call) {
      assert Counted(s, c, call);
      SamePends(s, t, call);
    }
  }

  lemma {:induction false} TimerKeeps(s: State, c: Config, now: Timeval, i: nat)
    requires Inv(s, c) && Armed(s) && i <= |s.reply|
    ensures Inv(TimerLoop(s, c, now, i), c) && Armed(TimerLoop(s, c, now, i))
    decreases |s.reply| - i
  {
    if i < |s.reply| {
      var id := s.reply[i];
      assert id in s.reply && s.slots[id].waitingReply;
      if Expired(s.slots[id], c, now) {
        ShorterWithout(s.reply, id);
        BelowWithout(s.reply, id, SLOTS);
        ReleaseKeeps(s, c, id, TimedOut);
        TimerKeeps(Release(Notify(s, s.slots[id], TimedOut), id), c, now, i);
      } else if Retransmits(s.slots[id], c, now) {
        ShorterWithout(s.reply, id);
        BelowWithout(s.reply, id, SLOTS);
        RequeueKeeps(s, c, id, now);
      } else {
        TimerKeeps(s, c, now, i + 1);
      }
    }
  }

  /** Every step of the resolver but a stray answer keeps the invariant and the events armed. */
  lemma StepKeeps(s: State, c: Config, op: Op)
    requires Inv(s, c) && Armed(s) && Allowed(s, op) && !Stray(s, op)
    ensures Inv(Step(s, c, op), c) && Armed(Step(s, c, op))
  {
    match op
    case AskOp(host, queryX, now, send) =>
      if s.free != [] {
        var e := Enqueue(s, host, queryX, now);
        EnqueueKeeps(s, c, host, queryX, now);
        var w := if e.reply != [] then e else WriteLoop(e, 8092, send, 0, 0);
        if e.reply == [] { WriteKeeps(e, c, 8092, send, 0, 0); }
        ArmsKeep(w, w.(timerArmed := true), c);
      }
    case CancelOp(id) =>
      CancelKeeps(s, c, id);
      CancelShrinks(s, id);
    case WriteOp(canWrite, send) =>
      ArmsKeep(s, s.(writeArmed := false), c);
      WriteKeeps(s.(writeArmed := false), c, canWrite, send, 0, 0);
    case TickOp(now) =>
      TimerKeeps(s, c, now, 0);
      var t := if s.reply == [] then s else TimerLoop(s, c, now, 0);
      ArmsKeep(t, t.(timerArmed := s.reply != []), c);
    case AnswerOp(id) =>
      var t := s.(readArmed := false);
      ArmsKeep(s, t, c);
      if id < SLOTS && s.slots[id].inUse { ReleaseKeeps(t, c, id, Success); }
      var u := if id < SLOTS && s.slots[id].inUse then Release(Notify(t, t.slots[id], Success), id) else t;
      ArmsKeep(u, u.(readArmed := true), c);
  }

  /** A step keeps the invariant if and only if it is no stray answer. */
  lemma StepKeepsIff(s: State, c: Config, op: Op)
    requires Inv(s, c) && Armed(s) && Allowed(s, op)
    ensures Inv(Step(s, c, op), c) <==> !Stray(s, op)
  {
    if Stray(s, op) {
      StrayBreaks(Notify(s.(readArmed := false), s.slots[op.id], Success), op.id);
      var t := Step(s, c, op);
      if Lists(t) { SameLists(t, t.(readArmed := false)); }
    } else {
      StepKeeps(s, c, op);
    }
  }

  // The freed slot is still on req_list, or the size of reply_list is wrong.
  lemma StrayBreaks(s: State, id: nat)
    requires Lists(s) && id < SLOTS && s.slots[id].inUse && !s.slots[id].waitingReply
    ensures !Lists(StrayAnswer(s, id))
  {
    assert id in s.req;
    var t := StrayAnswer(s, id);
    if s.req[0] == id { assert t.req[0] == id && !t.slots[id].inUse; }
  }

  lemma SameLists(s: State, t: State)
    requires Lists(s) && t == s.(readArmed := t.readArmed)
    ensures Lists(t)
  {}

  lemma CancelShrinks(s: State, id: nat)
    requires Lists(s)
    ensures Cancel(s, id).req != [] ==> s.req != []
  {}

  // ---- whole runs ----

  function Init(): State {
    State(seq(SLOTS, _ => CLEAN), seq(SLOTS, k requires 0 <= k < SLOTS => SLOTS - 1 - k), [], [],
          false, false, true, 0, [], 0)
  }

  predicate AllowedRun(s: State, c: Config, ops: seq<Op>)
    requires GoodSlots(s)
    decreases ops
  {
    ops == [] || (Allowed(s, ops[0]) && GoodSlots(Step(s, c, ops[0])) && AllowedRun(Step(s, c, ops[0]), c, ops[1..]))
  }

  function Run(s: State, c: Config, ops: seq<Op>): State
    requires GoodSlots(s) && AllowedRun(s, c, ops)
    decreases ops
  {
    if ops == [] then s else Run(Step(s, c, ops[0]), c, ops[1..])
  }

  // No reply comes for a query that waits to be sent again.
  predicate Strayless(s: State, c: Config, ops: seq<Op>)
    requires GoodSlots(s) && AllowedRun(s, c, ops)
    decreases ops
  {
    ops == [] || (!Stray(s, ops[0]) && Strayless(Step(s, c, ops[0]), c, ops[1..]))
  }

  lemma InitHolds(c: Config)
    ensures Inv(Init(), c) && Armed(Init())
  {
    var s := Init();
    forall id | 0 <= id < SLOTS ensures id in s.free {
      assert s.free[SLOTS - 1 - id] == id;
    }
  }

  lemma {:induction false} RunKeeps(s: State, c: Config, ops: seq<Op>)
    requires Inv(s, c) && Armed(s) && AllowedRun(s, c, ops) && Strayless(s, c, ops)
    ensures Inv(Run(s, c, ops), c) && Armed(Run(s, c, ops))
    decreases ops
  {
    if ops != [] {
      StepKeeps(s, c, ops[0]);
      RunKeeps(Step(s, c, ops[0]), c, ops[1..]);
    }
  }

  /**
   After any run of calls and events without a stray answer: every slot in use is on exactly one list,
   waitingReply set exactly on reply_list; every query got at most one callback, none behind its
   cancellation, was sent at most retryCount + 1 times, and is pending, answered, timed out or canceled.
   */
  lemma ResolverIsSafe(c: Config, ops: seq<Op>)
    requires GoodSlots(Init()) && AllowedRun(Init(), c, ops) && Strayless(Init(), c, ops)
    ensures var s := Run(Init(), c, ops);
            && |s.slots| == SLOTS && Quiet(s.log)
            && (forall id :: 0 <= id < SLOTS && s.slots[id].inUse ==> (id in s.req <==> id !in s.reply))
            && (forall id :: 0 <= id < SLOTS ==> (id in s.reply <==> s.slots[id].waitingReply))
            && (forall id :: 0 <= id < SLOTS && !s.slots[id].inUse ==> id !in s.req && id !in s.reply)
            && (forall call: nat :: Notices(s.log, call) <= 1 && Sends(s.log, call) <= c.retryCount + 1)
            && (forall call :: 0 <= call < s.calls ==>
                  Pends(s, call) || Notices(s.log, call) == 1 || Canceled(call) in s.log)
  {
    InitHolds(c);
    RunKeeps(Init(), c, ops);
    var s := Run(Init(), c, ops);
    forall call: nat ensures Notices(s.log, call) <= 1 && Sends(s.log, call) <= c.retryCount + 1 {
      assert Counted(s, c, call);
    }
    forall call | 0 <= call < s.calls ensures Pends(s, call) || Notices(s.log, call) == 1 || Canceled(call) in s.log {
      assert Counted(s, c, call);
    }
  }

  // ---- what one write event does ----

  function SentAll(slots: seq<Pending>, ids: seq<nat>): seq<Event>
    requires |slots| == SLOTS && AllSlots(ids)
  {
    if ids == [] then [] else [Sent(slots[ids[0]].call)] + SentAll(slots, ids[1..])
  }

  /** A write event sends a prefix of req_list, in its order, and moves it to the tail of reply_list. */
  lemma {:induction false} WriteSendsPrefix(s: State, canWrite: int, send: nat -> int, k: nat, wrote: int)
      returns (n: nat)
    requires |s.slots| == SLOTS && AllSlots(s.req) && Distinct(s.req)
    ensures var t := WriteLoop(s, canWrite, send, k, wrote);
            && n <= |s.req| && t.req == s.req[n..] && t.reply == s.reply + s.req[..n]
            && t.log == s.log + SentAll(s.slots, s.req[..n]) && t.free == s.free
    decreases |s.req|
  {
    n := 0;
    if s.req != [] {
      var id := s.req[0];
      var q := s.slots[id];
      if |q.request| + wrote + 1 <= Unsigned(canWrite) && !(0 <= send(k) < |q.request|) {
        var t := MarkSent(s, id);
        n := WriteSendsPrefix(t, canWrite, send, k + 1, send(k));
        SameCalls(s.slots, t.slots, t.req[..n]);
        OneMoreSent(s, n);
        n := n + 1;
      }
    }
  }

  lemma OneMoreSent(s: State, n: nat)
    requires |s.slots| == SLOTS && AllSlots(s.req) && n < |s.req|
    ensures s.req[1..][n..] == s.req[n + 1..] && s.reply + [s.req[0]] + s.req[1..][..n] == s.reply + s.req[..n + 1]
    ensures s.log + [Sent(s.slots[s.req[0]].call)] + SentAll(s.slots, s.req[1..][..n])
            == s.log + SentAll(s.slots, s.req[..n + 1])
  {
    assert s.req[..n + 1][1..] == s.req[1..][..n];
  }

  lemma {:induction false} SameCalls(a: seq<Pending>, b: seq<Pending>, ids: seq<nat>)
    requires |a| == |b| == SLOTS && AllSlots(ids) && forall i :: 0 <= i < SLOTS ==> a[i].call == b[i].call
    ensures SentAll(a, ids) == SentAll(b, ids)
  {
    if ids != [] { SameCalls(a, b, ids[1..]); }
  }

  // ---- what one timer event does ----

  // The first query in ids that is sent again, or their number.
  function FirstRetransmit(s: State, ids: seq<nat>, c: Config, now: Timeval): (r: nat)
    requires |s.slots| == SLOTS && AllSlots(ids)
    ensures r <= |ids|
  {
    if ids == [] || Retransmits(s.slots[ids[0]], c, now) then 0 else 1 + FirstRetransmit(s, ids[1..], c, now)
  }

  function NotExpired(s: State, ids: seq<nat>, c: Config, now: Timeval): seq<nat>
    requires |s.slots| == SLOTS && AllSlots(ids)
  {
    if ids == [] then []
    else (if Expired(s.slots[ids[0]], c, now) then [] else [ids[0]]) + NotExpired(s, ids[1..], c, now)
  }

  // The callbacks for the expired among ids.
  function Timeouts(s: State, ids: seq<nat>, c: Config, now: Timeval): seq<Event>
    requires |s.slots| == SLOTS && AllSlots(ids)
  {
    if ids == [] then []
    else
      var q := s.slots[ids[0]];
      (if Expired(q, c, now) && !q.canceled then [Notified(q.call, TimedOut)] else []) + Timeouts(s, ids[1..], c, now)
  }

  lemma {:induction false} WithoutAt(ids: seq<nat>, i: nat)
    requires Distinct(ids) && i < |ids|
    ensures Without(ids, ids[i]) == ids[..i] + ids[i + 1..]
  {
    if i > 0 {
      WithoutAt(ids[1..], i - 1);
      assert ids[..i] + ids[i + 1..] == [ids[0]] + (ids[1..][..i - 1] + ids[1..][i..]);
    }
  }

  lemma ReleaseLists(s: State, id: nat, code: Code)
    requires Lists(s) && id < SLOTS && s.slots[id].waitingReply
    ensures Lists(Release(Notify(s, s.slots[id], code), id))
  {
    assert id in s.reply && id !in s.req && id !in s.free;
    WithoutFacts(s.reply, id);
    BelowWithout(s.reply, id, SLOTS);
    Appended(s.free, id);
  }

  // What stays on reply_list, what goes to req_list and which callbacks are made.
  datatype Walk = Walk(reply: seq<nat>, req: seq<nat>, log: seq<Event>)

  function WalkOf(s: State, ids: seq<nat>, c: Config, now: Timeval): Walk
    requires |s.slots| == SLOTS && AllSlots(ids)
  {
    if ids == [] then Walk([], [], [])
    else
      var q := s.slots[ids[0]];
      var w := WalkOf(s, ids[1..], c, now);
      if Expired(q, c, now) then w.(log := (if q.canceled then [] else [Notified(q.call, TimedOut)]) + w.log)
      else if Retransmits(q, c, now) then Walk(ids[1..], [ids[0]], [])
      else w.(reply := [ids[0]] + w.reply)
  }

  lemma {:induction false} SameWalk(s: State, t: State, ids: seq<nat>, c: Config, now: Timeval)
    requires |s.slots| == |t.slots| == SLOTS && AllSlots(ids)
    requires forall i :: 0 <= i < |ids| ==> t.slots[ids[i]] == s.slots[ids[i]]
    ensures WalkOf(s, ids, c, now) == WalkOf(t, ids, c, now)
  {
    if ids != [] {
      assert t.slots[ids[0]] == s.slots[ids[0]];
      SameWalk(s, t, ids[1..], c, now);
    }
  }

  lemma HeadGone(all: seq<nat>, kept: seq<nat>, ids: seq<nat>)
    requires Distinct(all) && ids != [] && all == kept + ids
    ensures Without(all, ids[0]) == kept + ids[1..] && forall i :: 0 <= i < |ids[1..]| ==> ids[1..][i] != ids[0]
  {
    assert all[|kept|] == ids[0];
    WithoutAt(all, |kept|);
    assert all[..|kept|] + all[|kept| + 1..] == kept + ids[1..];
    Others(all, |kept|, ids);
  }

  // The state behind an expired query, whose slot leaves the list.
  lemma ExpiredStep(s: State, c: Config, now: Timeval, kept: seq<nat>, ids: seq<nat>)
    requires Lists(s) && ids != [] && s.reply == kept + ids && AllSlots(ids)
    ensures s.slots[ids[0]].waitingReply
    ensures var t := Release(Notify(s, s.slots[ids[0]], TimedOut), ids[0]);
            && Lists(t) && t.reply == kept + ids[1..] && t.req == s.req
            && WalkOf(t, ids[1..], c, now) == WalkOf(s, ids[1..], c, now)
  {
    assert s.reply[|kept|] == ids[0] && ids[0] in s.reply;
    HeadGone(s.reply, kept, ids);
    ReleaseLists(s, ids[0], TimedOut);
    SameWalk(s, Release(Notify(s, s.slots[ids[0]], TimedOut), ids[0]), ids[1..], c, now);
  }

  lemma RequeueStep(s: State, kept: seq<nat>, ids: seq<nat>, now: Timeval)
    requires Lists(s) && ids != [] && s.reply == kept + ids && AllSlots(ids)
    ensures Requeue(s, ids[0], now).reply == kept + ids[1..]
  {
    HeadGone(s.reply, kept, ids);
  }

  // The walk from behind `kept` on does what WalkOf says.
  predicate Does(s: State, t: State, kept: seq<nat>, w: Walk) {
    t.reply == kept + w.reply && t.req == s.req + w.req && t.log == s.log + w.log
  }

  lemma {:induction false} TimerLoopWalks(s: State, c: Config, now: Timeval, kept: seq<nat>, ids: seq<nat>)
    requires Lists(s) && s.reply == kept + ids && AllSlots(ids)
    ensures Does(s, TimerLoop(s, c, now, |kept|), kept, WalkOf(s, ids, c, now))
    decreases |ids|
  {
    if ids != [] {
      var id, w := ids[0], WalkOf(s, ids[1..], c, now);
      assert s.reply[|kept|] == id;
      if Expired(s.slots[id], c, now) {
        var t := Release(Notify(s, s.slots[id], TimedOut), id);
        ExpiredStep(s, c, now, kept, ids);
        TimerLoopWalks(t, c, now, kept, ids[1..]);
        Associated(s.log, t.log, w.log, s.slots[id]);
      } else if Retransmits(s.slots[id], c, now) {
        RequeueStep(s, kept, ids, now);
      } else {
        Regrouped(kept, ids, w.reply);
        TimerLoopWalks(s, c, now, kept + [id], ids[1..]);
      }
    }
  }

  lemma Regrouped(kept: seq<nat>, ids: seq<nat>, rest: seq<nat>)
    requires ids != []
    ensures kept + ids == kept + [ids[0]] + ids[1..] && kept + [ids[0]] + rest == kept + ([ids[0]] + rest)
  {}

  lemma Associated(log: seq<Event>, more: seq<Event>, rest: seq<Event>, q: Pending)
    requires more == if q.canceled then log else log + [Notified(q.call, TimedOut)]
    ensures more + rest == log + ((if q.canceled then [] else [Notified(q.call, TimedOut)]) + rest)
  {}

  // In a list without repetitions the slot at position k is not among those behind it.
  lemma Others(all: seq<nat>, k: nat, ids: seq<nat>)
    requires Distinct(all) && ids != [] && k + |ids| == |all| && all[k..] == ids
    ensures forall i :: 0 <= i < |ids| - 1 ==> ids[1..][i] != ids[0]
  {
    forall i | 0 <= i < |ids| - 1 ensures ids[1..][i] != ids[0] {
      assert all[k..][i + 1] == all[k + i + 1] && all[k..][0] == all[k];
    }
  }

  // The walk, given that the first retransmission is number r.
  predicate OneGo(s: State, ids: seq<nat>, c: Config, now: Timeval, r: nat, w: Walk)
    requires |s.slots| == SLOTS && AllSlots(ids) && r <= |ids|
  {
    && w.reply == NotExpired(s, ids[..r], c, now) + (if r < |ids| then ids[r + 1..] else [])
    && w.req == (if r < |ids| then [ids[r]] else []) && w.log == Timeouts(s, ids[..r], c, now)
  }

  lemma {:induction false} WalkInOneGo(s: State, ids: seq<nat>, c: Config, now: Timeval)
    requires |s.slots| == SLOTS && AllSlots(ids)
    ensures OneGo(s, ids, c, now, FirstRetransmit(s, ids, c, now), WalkOf(s, ids, c, now))
  {
    if ids != [] && !Retransmits(s.slots[ids[0]], c, now) {
      WalkInOneGo(s, ids[1..], c, now);
      OneGoMore(s, ids, c, now, FirstRetransmit(s, ids[1..], c, now), WalkOf(s, ids[1..], c, now));
    }
  }

  lemma {:induction false} OneGoMore(s: State, ids: seq<nat>, c: Config, now: Timeval, r: nat, w: Walk)
    requires |s.slots| == SLOTS && AllSlots(ids) && ids != [] && r < |ids| && !Retransmits(s.slots[ids[0]], c, now)
    requires OneGo(s, ids[1..], c, now, r, w) && w == WalkOf(s, ids[1..], c, now)
    ensures OneGo(s, ids, c, now, r + 1, WalkOf(s, ids, c, now))
  {
    assert ids[..r + 1][1..] == ids[1..][..r];
    if r + 1 < |ids| { assert ids[1..][r + 1..] == ids[r + 2..]; }
    if !Expired(s.slots[ids[0]], c, now) {
      var kept := NotExpired(s, ids[1..][..r], c, now);
      var behind := if r + 1 < |ids| then ids[r + 2..] else [];
      assert [ids[0]] + (kept + behind) == [ids[0]] + kept + behind;
    }
  }

  /**
   One timer event calls back every expired query up to the first one that has to be sent again, moves
   that one to the tail of req_list, and leaves all behind it for the next event.
   */
  lemma TickWalks(s: State, c: Config, now: Timeval)
    requires Lists(s)
    ensures var t, r := Tick(s, c, now), FirstRetransmit(s, s.reply, c, now);
            && t.log == s.log + Timeouts(s, s.reply[..r], c, now)
            && t.reply == NotExpired(s, s.reply[..r], c, now) + (if r < |s.reply| then s.reply[r + 1..] else [])
            && t.req == s.req + (if r < |s.reply| then [s.reply[r]] else [])
  {
    TickIsWalk(s, c, now, WalkOf(s, s.reply, c, now));
    WalkInOneGo(s, s.reply, c, now);
  }

  lemma TickIsWalk(s: State, c: Config, now: Timeval, w: Walk)
    requires Lists(s) && w == WalkOf(s, s.reply, c, now)
    ensures var t := Tick(s, c, now); t.log == s.log + w.log && t.reply == w.reply && t.req == s.req + w.req
  {
    TimerLoopWalks(s, c, now, [], s.reply);
    var none: seq<nat> := [];
    assert none + w.reply == w.reply;
  }

  // ---- the timer does not always run while answers are awaited ----

  predicate TimerCovers(s: State) { s.reply != [] ==> s.timerArmed }

  // The head of req_list fits and sendto does not report a short count for it.
  predicate FirstGoesOut(s: State, canWrite: int, send: nat -> int)
    requires GoodSlots(s)
  {
    s.req != [] &&
    var n := |s.slots[s.req[0]].request|;
    n + 1 <= Unsigned(canWrite) && !(0 <= send(0) < n)
  }

  lemma ReplyAfterWrite(s: State, canWrite: int, send: nat -> int)
    requires GoodSlots(s) && Distinct(s.req)
    ensures WriteLoop(s, canWrite, send, 0, 0).reply != [] <==> s.reply != [] || FirstGoesOut(s, canWrite, send)
  {
    if FirstGoesOut(s, canWrite, send) {
      var n := WriteSendsPrefix(MarkSent(s, s.req[0]), canWrite, send, 1, send(0));
    }
  }

  /**
   A step leaves a timer running while answers are awaited, unless it is a write event that sends
   something when an earlier timer event found nothing to wait for and was not set again.
   */
  lemma TimerCoverage(s: State, c: Config, op: Op)
    requires Inv(s, c) && Armed(s) && Allowed(s, op) && TimerCovers(s)
    ensures TimerCovers(Step(s, c, op)) <==> !(op.WriteOp? && !s.timerArmed && FirstGoesOut(s, op.canWrite, op.send))
  {
    match op
    case WriteOp(canWrite, send) =>
      var t := s.(writeArmed := false);
      ArmsKeep(s, t, c);
      WriteKeeps(t, c, canWrite, send, 0, 0);
      ReplyAfterWrite(t, canWrite, send);
    case _ =>
  }

  function Refuse(k: nat): int { 0 }

  function Accept(k: nat): int { 17 }

  /** Such a run: asked while sendto refuses, a timer event in between, then the query goes out unwatched. */
  lemma TimerLost(c: Config, now: Timeval)
    ensures GoodSlots(Init())
    ensures var ops := [AskOp([], 0, now, Refuse), TickOp(now), WriteOp(8092, Accept)];
            AllowedRun(Init(), c, ops) && !TimerCovers(Run(Init(), c, ops))
  {
    var asked, ticked, sent := AskOp([], 0, now, Refuse), TickOp(now), WriteOp(8092, Accept);
    InitHolds(c);
    var s1 := Step(Init(), c, asked);
    StepKeeps(Init(), c, asked);
    assert |Query([], TYPE_A, 0)| == 17;
    assert s1.req == [0] && s1.reply == [] && s1.slots[0].request == Query([], TYPE_A, 0);
    var s2 := Step(s1, c, ticked);
    StepKeeps(s1, c, ticked);
    TimerCoverage(s2, c, sent);
    StepKeeps(s2, c, sent);
    RunOfThree(Init(), c, asked, ticked, sent);
  }

  lemma RunOfThree(s: State, c: Config, a: Op, b: Op, d: Op)
    requires GoodSlots(s) && Allowed(s, a) && GoodSlots(Step(s, c, a)) && Allowed(Step(s, c, a), b)
    requires var t := Step(Step(s, c, a), c, b); GoodSlots(t) && Allowed(t, d) && GoodSlots(Step(t, c, d))
    ensures AllowedRun(s, c, [a, b, d]) && Run(s, c, [a, b, d]) == Step(Step(Step(s, c, a), c, b), c, d)
  {
    var none: seq<Op> := [];
    assert [a, b, d][1..] == [b, d] && [b, d][1..] == [d] && [d][1..] == none;
    var t := Step(Step(s, c, a), c, b);
    assert AllowedRun(Step(t, c, d), c, none) && Run(Step(t, c, d), c, none) == Step(t, c, d);
    assert AllowedRun(t, c, [d]) && Run(t, c, [d]) == Step(t, c, d);
    assert AllowedRun(Step(s, c, a), c, [b, d]) && Run(Step(s, c, a), c, [b, d]) == Step(t, c, d);
  }

  // ---- a stray answer ----

  /** Such a run: a query goes out, the timer event moves it back to req_list, and then its reply comes. */
  lemma StrayRun(c: Config)
    requires c.retryMs < 1000 <= c.lookupMs && c.retryCount > 0
    ensures GoodSlots(Init())
    ensures var ops := [AskOp([], 0, Timeval(0, 0), Accept), TickOp(Timeval(1, 0)), AnswerOp(0)];
            AllowedRun(Init(), c, ops) && !Inv(Run(Init(), c, ops), c)
  {
    var asked, ticked, answered := AskOp([], 0, Timeval(0, 0), Accept), TickOp(Timeval(1, 0)), AnswerOp(0);
    InitHolds(c);
    var s1 := FirstSent(c);
    StepKeeps(Init(), c, asked);
    var s2 := SentAgain(s1, c);
    StepKeeps(s1, c, ticked);
    StepKeepsIff(s2, c, answered);
    RunOfThree(Init(), c, asked, ticked, answered);
  }

  lemma FirstSent(c: Config) returns (s: State)
    ensures GoodSlots(Init()) && s == Step(Init(), c, AskOp([], 0, Timeval(0, 0), Accept))
    ensures |s.slots| == SLOTS && s.req == [] && s.reply == [0] && s.timerArmed && s.readArmed
    ensures var q := s.slots[0];
            q.inUse && q.waitingReply && !q.canceled && q.reqCount == 1 && q.transmit == q.retransmit == Timeval(0, 0)
  {
    InitHolds(c);
    s := Step(Init(), c, AskOp([], 0, Timeval(0, 0), Accept));
    assert |Query([], TYPE_A, 0)| == 17;
    OneSent(Enqueue(Init(), [], 0, Timeval(0, 0)));
  }

  lemma SentAgain(s: State, c: Config) returns (t: State)
    requires c.retryMs < 1000 <= c.lookupMs && c.retryCount > 0
    requires GoodSlots(s) && s.req == [] && s.reply == [0]
    requires var q := s.slots[0];
             q.inUse && q.waitingReply && !q.canceled && q.reqCount == 1 && q.transmit == q.retransmit == Timeval(0, 0)
    ensures t == Step(s, c, TickOp(Timeval(1, 0)))
    ensures |t.slots| == SLOTS && t.req == [0] && t.slots[0].inUse && !t.slots[0].waitingReply
    ensures t.readArmed == s.readArmed
  {
    t := Step(s, c, TickOp(Timeval(1, 0)));
    assert SubMsec(Timeval(0, 0), Timeval(1, 0)) == 1000;
    assert TimerLoop(s, c, Timeval(1, 0), 0) == Requeue(s, 0, Timeval(1, 0));
  }

  // A single query that sendto takes as a whole.
  lemma OneSent(s: State)
    requires |s.slots| == SLOTS && AllSlots(s.req) && |s.req| == 1 && |s.slots[s.req[0]].request| == 17
    ensures WriteLoop(s, 8092, Accept, 0, 0) == MarkSent(s, s.req[0]).(readArmed := true)
  {}

  // ---- the resolver itself ----

  class Resolver {
    const conf: Config
    var slots: seq<Pending>   // pending_req.arena
    var free: seq<nat>        // pending_req.slots, grabbed and freed at its end
    var req: seq<nat>
    var reply: seq<nat>
    var writeArmed: bool
    var readArmed: bool
    var timerArmed: bool
    var calls: nat            // only names the calls
    ghost var log: seq<Event>

    ghost function Now(): State
      reads this
    {
      State(slots, free, req, reply, writeArmed, readArmed, timerArmed, calls, log, 0)
    }

    ghost predicate Valid()
      reads this
    {
      Inv(Now(), conf) && Armed(Now())
    }

    constructor (conf: Config)
      ensures Valid() && Now() == Init() && this.conf == conf
    {
      this.conf := conf;
      slots := seq(SLOTS, _ => CLEAN);
      free := seq(SLOTS, k requires 0 <= k < SLOTS => SLOTS - 1 - k);
      req, reply, writeArmed, readArmed, timerArmed, calls, log := [], [], false, false, true, 0, [];
      InitHolds(conf);
      new;
      assert Now() == Init();
    }

    // pending_req.slots: SlotQueueFree, DLinkedListDelete from reply_list, memset.
    method ReleaseSlot(id: nat)
      requires id < |slots|
      modifies this
      ensures Now() == Release(old(Now()), id)
    {
      free := free + [id];
      reply := Without(reply, id);
      slots := slots[id := CLEAN];
    }

    // Makes the finish callback unless the query was canceled.
    method Invoke(id: nat, code: Code)
      requires id < |slots|
      modifies this`log
      ensures Now() == Notify(old(Now()), slots[id], code)
    {
      if !slots[id].canceled {
        log := log + [Notified(slots[id].call, code)];
      }
    }

    // One turn of the loop of CommEvDNSWriteEvent: sends the head of req_list, or puts it back.
    method SendHead(canWrite: int, send: nat -> int, k: nat, wrote0: int) returns (more: bool, wrote: int)
      requires Inv(Now(), conf) && req != []
      modifies this
      ensures more ==> Inv(Now(), conf) && req == old(req)[1..]
      ensures more ==>
                WriteLoop(Now(), canWrite, send, k + 1, wrote) == WriteLoop(old(Now()), canWrite, send, k, wrote0)
      ensures !more ==> Now() == WriteLoop(old(Now()), canWrite, send, k, wrote0)
    {
      var id := req[0];
      var q := slots[id];
      assert !q.waitingReply by { assert id in req; }
      SentKeeps(Now(), conf);
      req := req[1..];
      wrote := wrote0;
      if |q.request| + wrote + 1 > Unsigned(canWrite) {
        req := [id] + req;
        readArmed, writeArmed := true, true;
        return false, wrote;
      }
      wrote := send(k);
      if 0 <= wrote < |q.request| {
        req := [id] + req;
        slots := slots[id := q.(failCount := q.failCount + 1)];
        readArmed, writeArmed := true, true;
        return false, wrote;
      }
      reply := reply + [id];
      slots := slots[id := q.(reqCount := q.reqCount + 1, waitingReply := true)];
      log := log + [Sent(q.call)];
      assert Now() == MarkSent(old(Now()), id);
      more := true;
    }

    /** CommEvDNSWriteEvent: sends from the head of req_list while the socket takes it. */
    method WriteEvent(canWrite: int, send: nat -> int)
      requires Inv(Now(), conf) && (reply != [] ==> readArmed)
      modifies this
      ensures Now() == WriteLoop(old(Now()), canWrite, send, 0, 0) && Valid()
    {
      ghost var goal := WriteLoop(Now(), canWrite, send, 0, 0);
      WriteKeeps(Now(), conf, canWrite, send, 0, 0);
      var k: nat, wrote := 0, 0;
      while req != []
        invariant Inv(Now(), conf) && WriteLoop(Now(), canWrite, send, k, wrote) == goal
        decreases |req|
      {
        var more;
        more, wrote := SendHead(canWrite, send, k, wrote);
        if !more {
          return;
        }
        k := k + 1;
      }
      readArmed := true;
    }

    // The part of CommEvDNSGetHostByNameX up to the enqueueing.
    method EnqueueQuery(host: seq<byte>, queryX: int, now: Timeval) returns (id: nat)
      requires Inv(Now(), conf) && free != []
      modifies this
      ensures Now() == Enqueue(old(Now()), host, queryX, now) && id == old(free)[|old(free)| - 1]
    {
      id := free[|free| - 1];
      assert !slots[id].inUse by { assert id in free; }
      free := free[..|free| - 1];
      slots := slots[id := NewQuery(host, queryX, now, id, calls)];
      calls := calls + 1;
      req := req + [id];
      writeArmed := true;
    }

    /** CommEvDNSGetHostByNameX. */
    method GetHostByName(host: seq<byte>, hasHandler: bool, queryX: int, now: Timeval, send: nat -> int)
        returns (r: int)
      requires Valid()
      modifies this
      ensures Valid() && Now() == if hasHandler then Ask(old(Now()), host, queryX, now, send) else old(Now())
      ensures r == if hasHandler && old(free) != [] then old(free)[|old(free)| - 1] else -1
    {
      if !hasHandler || free == [] {
        return -1;
      }
      StepKeeps(Now(), conf, AskOp(host, queryX, now, send));
      EnqueueKeeps(Now(), conf, host, queryX, now);
      r := EnqueueQuery(host, queryX, now);
      SendOrWait(send);
    }

    method SendOrWait(send: nat -> int)
      requires Inv(Now(), conf) && writeArmed
      modifies this
      ensures Now() ==
              (if old(reply) != [] then old(Now()) else WriteLoop(old(Now()), 8092, send, 0, 0)).(timerArmed := true)
    {
      if reply != [] {
        writeArmed := true;
      } else {
        WriteEvent(8092, send);
      }
      timerArmed := true;
    }

    /** CommEvDNSCancelPendingRequest. */
    method CancelPendingRequest(id: nat) returns (r: int)
      requires Valid()
      modifies this
      ensures Valid() && Now() == Cancel(old(Now()), id)
      ensures r == if id < SLOTS && old(slots)[id].inUse then 1 else 0
    {
      StepKeeps(Now(), conf, CancelOp(id));
      if id >= SLOTS || !slots[id].inUse {
        return 0;
      }
      log := log + [Canceled(slots[id].call)];
      if slots[id].waitingReply {
        slots := slots[id := slots[id].(canceled := true)];
      } else {
        free := free + [id];
        req := Without(req, id);
        slots := slots[id := CLEAN];
      }
      return 1;
    }

    // One turn of the walk over reply_list; `moved` says that the query was put back on req_list.
    method TimerTurn(now: Timeval, i0: nat) returns (i: nat, moved: bool)
      requires Lists(Now()) && i0 < |reply|
      modifies this
      ensures moved ==> Now() == TimerLoop(old(Now()), conf, now, i0)
      ensures !moved ==>
                && Lists(Now()) && i <= |reply| && |reply| - i < |old(reply)| - i0
                && TimerLoop(Now(), conf, now, i) == TimerLoop(old(Now()), conf, now, i0)
    {
      i, moved := i0, false;
      var id := reply[i];
      var q := slots[id];
      assert q.waitingReply by { assert id in reply; }
      ShorterWithout(reply, id);
      BelowWithout(reply, id, SLOTS);
      if Expired(q, conf, now) {
        ReleaseLists(Now(), id, TimedOut);
        Invoke(id, TimedOut);
        ReleaseSlot(id);
      } else if SubMsec(q.retransmit, now) > conf.retryMs && q.reqCount <= conf.retryCount {
        reply := Without(reply, id);
        req := req + [id];
        slots := slots[id := q.(retransmit := now, waitingReply := false, reXmit := true)];
        writeArmed := true;
        moved := true;
      } else {
        i := i + 1;
      }
    }

    /** CommEvDNSPeriodicTimerEvent. */
    method PeriodicTimerEvent(now: Timeval)
      requires Valid()
      modifies this
      ensures Valid() && Now() == Tick(old(Now()), conf, now)
    {
      StepKeepsTick(Now(), conf, now);
      TimerLoopArms(Now(), conf, now, 0, false);
      timerArmed := false;
      if reply == [] {
        return;
      }
      ghost var goal := TimerLoop(Now(), conf, now, 0);
      var i: nat, moved := 0, false;
      while !moved && i < |reply|
        invariant !moved ==> i <= |reply| && Lists(Now()) && TimerLoop(Now(), conf, now, i) == goal
        invariant moved ==> Now() == goal
        decreases !moved, |reply| - i
      {
        i, moved := TimerTurn(now, i);
      }
      timerArmed := true;
    }

    /**
     CommEvDNSDataEvent for a reply with this id. A reply without a readable header counts as one with
     id 0; when recv fails nothing is answered, as for an id that is not in use.
     */
    method DataEvent(id: nat)
      requires Valid() && !Stray(Now(), AnswerOp(id))
      modifies this
      ensures Valid() && Now() == Answer(old(Now()), id)
    {
      if id < SLOTS && slots[id].inUse {
        ReleaseKeeps(Now(), conf, id, Success);
        Invoke(id, Success);
        ReleaseSlot(id);
      }
      ghost var t := Now();
      readArmed := true;
      ArmsKeep(t, Now(), conf);
    }
  }

  lemma StepKeepsTick(s: State, c: Config, now: Timeval)
    requires Inv(s, c) && Armed(s)
    ensures Inv(Tick(s, c, now), c) && Armed(Tick(s, c, now))
  {
    TimerKeeps(s, c, now, 0);
    var t := if s.reply == [] then s else TimerLoop(s, c, now, 0);
    ArmsKeep(t, t.(timerArmed := s.reply != []), c);
  }

  // The walk does not look at the timer.
  lemma ReleaseArms(s: State, id: nat, armed: bool)
    requires id < |s.slots|
    ensures var t := s.(timerArmed := armed);
            Release(Notify(t, t.slots[id], TimedOut), id)
            == Release(Notify(s, s.slots[id], TimedOut), id).(timerArmed := armed)
  {}

  lemma {:induction false} TimerLoopArms(s: State, c: Config, now: Timeval, i: nat, armed: bool)
    requires Lists(s) && i <= |s.reply|
    ensures TimerLoop(s.(timerArmed := armed), c, now, i) == TimerLoop(s, c, now, i).(timerArmed := armed)
    decreases |s.reply| - i
  {
    if i < |s.reply| {
      var id := s.reply[i];
      ShorterWithout(s.reply, id);
      BelowWithout(s.reply, id, SLOTS);
      if Expired(s.slots[id], c, now) {
        assert id in s.reply;
        ReleaseLists(s, id, TimedOut);
        ReleaseArms(s, id, armed);
        TimerLoopArms(Release(Notify(s, s.slots[id], TimedOut), id), c, now, i, armed);
      } else if !Retransmits(s.slots[id], c, now) {
        TimerLoopArms(s, c, now, i + 1, armed);
      }
    }
  }
}
