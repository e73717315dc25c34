/**
 Which callbacks the resolver of comm_dns_resolver.c makes, over whole runs: a success exactly for a reply,
 a timeout exactly for a timer event that finds the query too old.
 */
module DnsResolverLog {
  import opened DnsNames
  import opened DnsMessages
  import opened DnsResolver
  import opened Options
  import opened SlotLists

  // ---- times ----

  /** The milliseconds between two times, with less than one of them lost or added by the truncation. */
  lemma SubMsecBound(t1: Timeval, t2: Timeval)
    ensures var us := (t2.sec - t1.sec) * 1000000 + (t2.usec - t1.usec);
            -1000 < us - SubMsec(t1, t2) * 1000 < 1000
  {}

  // More than the lookup time since the query was asked, or more than the retry time since it was moved
  // back last, with all retries used.
  predicate TooOld(q: Pending, c: Config, now: Timeval) {
    var asked, moved := SubMsec(q.transmit, now), SubMsec(q.retransmit, now);
    asked > c.lookupMs || (moved > c.retryMs && !q.canceled && q.reqCount > c.retryCount)
  }

  predicate Again(q: Pending, c: Config, now: Timeval) {
    var asked, moved := SubMsec(q.transmit, now), SubMsec(q.retransmit, now);
    asked <= c.lookupMs && moved > c.retryMs && q.reqCount <= c.retryCount
  }

  // The timer event reaches the query: none in front of it has to be sent again.
  predicate Reached(s: State, k: nat, c: Config, now: Timeval)
    requires GoodSlots(s) && k < |s.reply|
  {
    forall j :: 0 <= j <= k ==> !Again(s.slots[s.reply[j]], c, now)
  }

  // ---- which step notifies a call ----

  predicate Answers(s: State, op: Op, call: nat)
    requires GoodSlots(s)
  {
    op.AnswerOp? && op.id < SLOTS && s.slots[op.id].inUse && !s.slots[op.id].canceled && s.slots[op.id].call == call
  }

  predicate TimesOut(s: State, c: Config, op: Op, call: nat)
    requires GoodSlots(s)
  {
    op.TickOp? && exists k :: 0 <= k < |s.reply| && Expires(s, k, c, op.now, call)
  }

  predicate Expires(s: State, k: nat, c: Config, now: Timeval, call: nat)
    requires GoodSlots(s) && k < |s.reply|
  {
    var q := s.slots[s.reply[k]];
    Reached(s, k, c, now) && TooOld(q, c, now) && !q.canceled && q.call == call
  }

  /** A reply calls back its query, once, with a success, unless it was canceled; any other reply does nothing. */
  lemma AnswerLog(s: State, c: Config, id: nat)
    requires GoodSlots(s)
    ensures Step(s, c, AnswerOp(id)).log ==
            if id < SLOTS && s.slots[id].inUse && !s.slots[id].canceled then
              s.log + [Notified(s.slots[id].call, Success)]
            else s.log
  {}

  // The timeouts of one walk, from the definition of its log.
  lemma {:induction false} InTimeouts(s: State, ids: seq<nat>, c: Config, now: Timeval, e: Event)
    requires |s.slots| == SLOTS && AllSlots(ids)
    ensures e in Timeouts(s, ids, c, now) <==>
            e.Notified? && e.code == TimedOut && exists k :: 0 <= k < |ids| && TimedAt(s, ids, k, c, now, e.call)
  {
    if ids != [] {
      InTimeouts(s, ids[1..], c, now, e);
      var q := s.slots[ids[0]];
      var first := if Expired(q, c, now) && !q.canceled then [Notified(q.call, TimedOut)] else [];
      assert e in Timeouts(s, ids, c, now) <==> e in first || e in Timeouts(s, ids[1..], c, now);
      if e.Notified? && e.code == TimedOut {
        assert e == Notified(e.call, TimedOut);
        assert e in first <==> TimedAt(s, ids, 0, c, now, e.call);
        LaterTimed(s, ids, c, now, e.call);
      }
    }
  }

  lemma LaterTimed(s: State, ids: seq<nat>, c: Config, now: Timeval, call: nat)
    requires |s.slots| == SLOTS && AllSlots(ids) && ids != []
    ensures (exists k :: 0 <= k < |ids| - 1 && TimedAt(s, ids[1..], k, c, now, call)) <==>
            exists k :: 0 < k < |ids| && TimedAt(s, ids, k, c, now, call)
  {
    forall k | 0 <= k < |ids| - 1 && TimedAt(s, ids[1..], k, c, now, call)
      ensures TimedAt(s, ids, k + 1, c, now, call)
    {}
    forall k | 0 < k < |ids| && TimedAt(s, ids, k, c, now, call) ensures TimedAt(s, ids[1..], k - 1, c, now, call) {}
  }

  predicate TimedAt(s: State, ids: seq<nat>, k: nat, c: Config, now: Timeval, call: nat)
    requires |s.slots| == SLOTS && AllSlots(ids) && k < |ids|
  {
    var q := s.slots[ids[k]];
    TooOld(q, c, now) && !q.canceled && q.call == call
  }

  lemma {:induction false} FirstAgain(s: State, ids: seq<nat>, c: Config, now: Timeval)
    requires |s.slots| == SLOTS && AllSlots(ids)
    ensures var r := FirstRetransmit(s, ids, c, now);
            && (forall j :: 0 <= j < r ==> !Again(s.slots[ids[j]], c, now))
            && (r < |ids| ==> Again(s.slots[ids[r]], c, now) && !TooOld(s.slots[ids[r]], c, now))
  {
    if ids != [] && !Retransmits(s.slots[ids[0]], c, now) {
      FirstAgain(s, ids[1..], c, now);
      var r := FirstRetransmit(s, ids[1..], c, now);
      forall j | 0 <= j < r + 1 ensures !Again(s.slots[ids[j]], c, now) {
        if j > 0 { assert ids[j] == ids[1..][j - 1]; }
      }
    }
  }

  /** A timer event calls back exactly the queries it reaches that are too old and not canceled, with a timeout. */
  lemma TickLog(s: State, c: Config, now: Timeval)
    requires Lists(s)
    ensures var t := Step(s, c, TickOp(now));
            && s.log <= t.log
            && forall e :: e in t.log[|s.log|..] <==>
                 e.Notified? && e.code == TimedOut && TimesOut(s, c, TickOp(now), e.call)
  {
    var r := FirstRetransmit(s, s.reply, c, now);
    TickWalks(s, c, now);
    FirstAgain(s, s.reply, c, now);
    var t := Step(s, c, TickOp(now));
    var more := Timeouts(s, s.reply[..r], c, now);
    assert t.log[|s.log|..] == more;
    forall e
      ensures e in more <==> e.Notified? && e.code == TimedOut && TimesOut(s, c, TickOp(now), e.call)
    {
      InTimeouts(s, s.reply[..r], c, now, e);
      if e.Notified? && e.code == TimedOut { TimedIff(s, c, now, r, e.call); }
    }
  }

  lemma TimedIff(s: State, c: Config, now: Timeval, r: nat, call: nat)
    requires Lists(s) && r == FirstRetransmit(s, s.reply, c, now)
    ensures (exists k :: 0 <= k < r && TimedAt(s, s.reply[..r], k, c, now, call)) <==> TimesOut(s, c, TickOp(now), call)
  {
    FirstAgain(s, s.reply, c, now);
    forall k | 0 <= k < r && TimedAt(s, s.reply[..r], k, c, now, call) ensures Expires(s, k, c, now, call) {}
    forall k | 0 <= k < |s.reply| && Expires(s, k, c, now, call)
      ensures k < r && TimedAt(s, s.reply[..r], k, c, now, call)
    {}
  }

  lemma {:induction false} SentAllKinds(slots: seq<Pending>, ids: seq<nat>, e: Event)
    requires |slots| == SLOTS && AllSlots(ids) && e in SentAll(slots, ids)
    ensures e.Sent?
  {
    if e != Sent(slots[ids[0]].call) { SentAllKinds(slots, ids[1..], e); }
  }

  lemma WriteLog(s: State, canWrite: int, send: nat -> int)
    requires |s.slots| == SLOTS && AllSlots(s.req) && Distinct(s.req)
    ensures var t := WriteLoop(s, canWrite, send, 0, 0);
            s.log <= t.log && forall e :: e in t.log[|s.log|..] ==> e.Sent?
  {
    var n := WriteSendsPrefix(s, canWrite, send, 0, 0);
    var t := WriteLoop(s, canWrite, send, 0, 0);
    assert t.log[|s.log|..] == SentAll(s.slots, s.req[..n]);
    forall e | e in t.log[|s.log|..] ensures e.Sent? { SentAllKinds(s.slots, s.req[..n], e); }
  }

  lemma AskLog(s: State, c: Config, host: seq<byte>, queryX: int, now: Timeval, send: nat -> int)
    requires Inv(s, c)
    ensures var t := Ask(s, host, queryX, now, send);
            s.log <= t.log && forall e :: e in t.log[|s.log|..] ==> e.Sent?
  {
    if s.free != [] {
      EnqueueKeeps(s, c, host, queryX, now);
      WriteLog(Enqueue(s, host, queryX, now), 8092, send);
    }
  }

  // Whether a step makes the callback.
  predicate Makes(s: State, c: Config, op: Op, call: nat, code: Code)
    requires GoodSlots(s)
  {
    if code == Success then Answers(s, op, call) else TimesOut(s, c, op, call)
  }

  /** The callbacks of one step. */
  lemma StepLog(s: State, c: Config, op: Op, call: nat, code: Code)
    requires Inv(s, c)
    ensures s.log <= Step(s, c, op).log
    ensures Notified(call, code) in Step(s, c, op).log[|s.log|..] <==> Makes(s, c, op, call, code)
  {
    match op
    case AskOp(host, queryX, now, send) => AskLog(s, c, host, queryX, now, send);
    case CancelOp(id) =>
    case WriteOp(canWrite, send) => WriteLog(s.(writeArmed := false), canWrite, send);
    case TickOp(now) => TickLog(s, c, now);
    case AnswerOp(id) => AnswerLog(s, c, id);
  }

  // ---- runs ----

  // Some step of the run makes the callback.
  predicate MadeIn(s: State, c: Config, ops: seq<Op>, call: nat, code: Code)
    requires GoodSlots(s) && AllowedRun(s, c, ops)
    decreases ops
  {
    ops != [] && (Makes(s, c, ops[0], call, code) || MadeIn(Step(s, c, ops[0]), c, ops[1..], call, code))
  }

  lemma InPrefix(a: seq<Event>, b: seq<Event>, e: Event)
    requires a <= b
    ensures e in b <==> e in a || e in b[|a|..]
  {
    assert b == a + b[|a|..];
  }

  /**
   In every run a callback with a success is made exactly by a reply to its query, and one with a timeout
   exactly by a timer event that finds the query too old.
   */
  lemma {:induction false} CallbacksOf(s: State, c: Config, ops: seq<Op>, call: nat, code: Code)
    requires Inv(s, c) && Armed(s) && AllowedRun(s, c, ops) && Strayless(s, c, ops)
    ensures s.log <= Run(s, c, ops).log
    ensures Notified(call, code) in Run(s, c, ops).log <==>
            Notified(call, code) in s.log || MadeIn(s, c, ops, call, code)
    decreases ops
  {
    if ops != [] {
      var t := Step(s, c, ops[0]);
      StepLog(s, c, ops[0], call, code);
      InPrefix(s.log, t.log, Notified(call, code));
      StepKeeps(s, c, ops[0]);
      CallbacksOf(t, c, ops[1..], call, code);
    }
  }

  /** A query that is answered while it is awaited, and not canceled, ends with a success and no timeout. */
  lemma AnsweredEnds(s: State, c: Config, id: nat, ops: seq<Op>)
    requires Inv(s, c) && Armed(s) && id < SLOTS && s.slots[id].waitingReply && !s.slots[id].canceled
    requires var t := Step(s, c, AnswerOp(id)); GoodSlots(t) && AllowedRun(t, c, ops) && Strayless(t, c, ops)
    ensures var call, u := s.slots[id].call, Run(Step(s, c, AnswerOp(id)), c, ops);
            Notified(call, Success) in u.log && Notified(call, TimedOut) !in u.log && Notices(u.log, call) == 1
  {
    var t, call := Step(s, c, AnswerOp(id)), s.slots[id].call;
    assert id in s.reply;
    StepKeeps(s, c, AnswerOp(id));
    AnswerLog(s, c, id);
    CallbacksOf(t, c, ops, call, Success);
    RunKeeps(t, c, ops);
    var u := Run(t, c, ops);
    assert Counted(u, c, call);
    assert Notified(call, TimedOut) in u.log <==> Notified(call, TimedOut) in multiset(u.log);
    assert Notified(call, Success) in multiset(u.log);
  }

  // ---- canceled queries ----

  lemma CancelLog(s: State, c: Config, id: nat)
    requires GoodSlots(s)
    ensures Step(s, c, CancelOp(id)).log ==
            if id < SLOTS && s.slots[id].inUse then s.log + [Canceled(s.slots[id].call)] else s.log
  {}

  /** A query that is canceled while it is pending is never called back. */
  lemma CanceledEnds(s: State, c: Config, id: nat, ops: seq<Op>)
    requires Inv(s, c) && Armed(s) && id < SLOTS && s.slots[id].inUse
    requires var t := Step(s, c, CancelOp(id)); GoodSlots(t) && AllowedRun(t, c, ops) && Strayless(t, c, ops)
    ensures var u := Run(Step(s, c, CancelOp(id)), c, ops);
            Notices(u.log, s.slots[id].call) == 0 && Canceled(s.slots[id].call) in u.log
  {
    var t, call := Step(s, c, CancelOp(id)), s.slots[id].call;
    StepKeeps(s, c, CancelOp(id));
    CancelLog(s, c, id);
    RunKeeps(t, c, ops);
    CallbacksOf(t, c, ops, call, Success);
    var u := Run(t, c, ops);
    assert Told(s, c, id);
    assert u.log[|s.log|] == Canceled(call);
    forall code ensures Notified(call, code) !in u.log {
      NoneBehind(s, c, u, call, code);
    }
    assert Notified(call, TimedOut) !in multiset(u.log) && Notified(call, Success) !in multiset(u.log);
  }

  lemma NoneBehind(s: State, c: Config, u: State, call: nat, code: Code)
    requires Quiet(u.log) && s.log <= u.log && |s.log| < |u.log| && u.log[|s.log|] == Canceled(call)
    requires Notices(s.log, call) == 0
    ensures Notified(call, code) !in u.log
  {}

  // ---- what is sent ----

  // The request of every pending query carries the number of its slot as its id.
  predicate Addressed(s: State) {
    forall id :: 0 <= id < |s.slots| && s.slots[id].inUse ==> HasId(s.slots[id].request, id)
  }

  predicate HasId(m: seq<byte>, id: nat) { |m| >= HEADER_SIZE && Network(m[0], m[1]) == id }

  // The queries that are still pending have the requests they had.
  predicate SameRequests(s: State, t: State) {
    && |t.slots| == |s.slots|
    && forall id :: 0 <= id < |s.slots| && t.slots[id].inUse ==>
         s.slots[id].inUse && t.slots[id].request == s.slots[id].request && t.slots[id].call == s.slots[id].call
  }

  lemma {:induction false} WriteRequests(s: State, canWrite: int, send: nat -> int, k: nat, wrote: int)
    requires |s.slots| == SLOTS && AllSlots(s.req)
    ensures SameRequests(s, WriteLoop(s, canWrite, send, k, wrote))
    decreases |s.req|
  {
    if s.req != [] { WriteRequests(MarkSent(s, s.req[0]), canWrite, send, k + 1, send(k)); }
  }

  lemma {:induction false} TimerRequests(s: State, c: Config, now: Timeval, i: nat)
    requires GoodSlots(s) && i <= |s.reply|
    ensures SameRequests(s, TimerLoop(s, c, now, i))
    decreases |s.reply| - i
  {
    if i < |s.reply| {
      var id := s.reply[i];
      ShorterWithout(s.reply, id);
      BelowWithout(s.reply, id, SLOTS);
      if Expired(s.slots[id], c, now) {
        TimerRequests(Release(Notify(s, s.slots[id], TimedOut), id), c, now, i);
      } else if !Retransmits(s.slots[id], c, now) {
        TimerRequests(s, c, now, i + 1);
      }
    }
  }

  /** An accepted query asks for the host's addresses, of the kind wanted, with its slot as the id. */
  lemma AskedQuery(s: State, c: Config, host: seq<byte>, queryX: int, now: Timeval, send: nat -> int)
    requires GoodSlots(s) && s.free != []
    ensures var t, id := Step(s, c, AskOp(host, queryX, now, send)), s.free[|s.free| - 1];
            && |t.slots| == SLOTS && t.calls == s.calls + 1
            && (t.slots[id].inUse ==>
                  && t.slots[id].call == s.calls && t.slots[id].request == Query(host, if queryX > 0 then 28 else 1, id)
                  && HasId(t.slots[id].request, id))
  {
    var e, id := Enqueue(s, host, queryX, now), s.free[|s.free| - 1];
    WriteRequests(e, 8092, send, 0, 0);
    WriteCalls(e, 8092, send, 0, 0);
    QueryOctets(host, if queryX > 0 then TYPE_AAAA else TYPE_A, id);
  }

  lemma {:induction false} WriteCalls(s: State, canWrite: int, send: nat -> int, k: nat, wrote: int)
    requires |s.slots| == SLOTS && AllSlots(s.req)
    ensures WriteLoop(s, canWrite, send, k, wrote).calls == s.calls
    decreases |s.req|
  {
    if s.req != [] { WriteCalls(MarkSent(s, s.req[0]), canWrite, send, k + 1, send(k)); }
  }

  lemma EnqueueAddressed(s: State, host: seq<byte>, queryX: int, now: Timeval)
    requires GoodSlots(s) && s.free != [] && Addressed(s)
    ensures Addressed(Enqueue(s, host, queryX, now))
  {
    QueryOctets(host, if queryX > 0 then TYPE_AAAA else TYPE_A, s.free[|s.free| - 1]);
  }

  lemma StepAddressed(s: State, c: Config, op: Op)
    requires GoodSlots(s) && Addressed(s)
    ensures Addressed(Step(s, c, op))
  {
    match op
    case AskOp(host, queryX, now, send) =>
      if s.free != [] {
        EnqueueAddressed(s, host, queryX, now);
        WriteRequests(Enqueue(s, host, queryX, now), 8092, send, 0, 0);
      }
    case CancelOp(id) =>
    case WriteOp(canWrite, send) => WriteRequests(s.(writeArmed := false), canWrite, send, 0, 0);
    case TickOp(now) => TimerRequests(s, c, now, 0);
    case AnswerOp(id) => AnswerAddressed(s, id);
  }

  lemma AnswerAddressed(s: State, id: nat)
    requires GoodSlots(s) && Addressed(s)
    ensures Addressed(Answer(s.(readArmed := false), id))
  {}

  /** In every run a pending query was sent, if it was, with its slot as the id: so a reply with that id is for it. */
  lemma {:induction false} RunAddressed(s: State, c: Config, ops: seq<Op>)
    requires GoodSlots(s) && Addressed(s) && AllowedRun(s, c, ops)
    ensures Addressed(Run(s, c, ops))
    decreases ops
  {
    if ops != [] {
      StepAddressed(s, c, ops[0]);
      RunAddressed(Step(s, c, ops[0]), c, ops[1..]);
    }
  }

  // ---- what one write event takes ----

  // What the sendto before the k-th one of an event gave; 0 for the first.
  function Gave(send: nat -> int, k: nat): int { if k == 0 then 0 else send(k - 1) }

  // The k-th query of the event fits behind what the last sendto gave, and is sent as a whole; an error of
  // sendto counts as well.
  predicate Taken(s: State, canWrite: int, send: nat -> int, k: nat)
    requires |s.slots| == SLOTS && AllSlots(s.req) && k < |s.req|
  {
    var n := |s.slots[s.req[k]].request|;
    n + Gave(send, k) + 1 <= Unsigned(canWrite) && (send(k) < 0 || send(k) >= n)
  }

  /** A write event sends the queries of req_list in their order up to the first one that is not taken. */
  lemma WriteTakes(s: State, canWrite: int, send: nat -> int)
    requires |s.slots| == SLOTS && AllSlots(s.req) && Distinct(s.req)
    ensures var t := WriteLoop(s, canWrite, send, 0, 0);
            && |t.req| <= |s.req| && t.req == s.req[|s.req| - |t.req|..]
            && t.reply == s.reply + s.req[..|s.req| - |t.req|]
            && (forall k :: 0 <= k < |s.req| - |t.req| ==> Taken(s, canWrite, send, k))
            && (t.req != [] ==> !Taken(s, canWrite, send, |s.req| - |t.req|))
  {
    var n := WriteSendsPrefix(s, canWrite, send, 0, 0);
    TakenFrom(s, s, canWrite, send, 0);
  }

  // The same from the k-th query on; s is the state at the start of the event.
  lemma {:induction false} TakenFrom(s: State, u: State, canWrite: int, send: nat -> int, k: nat)
    requires |s.slots| == |u.slots| == SLOTS && AllSlots(s.req) && k <= |s.req| && u.req == s.req[k..]
    requires forall id :: 0 <= id < SLOTS ==> u.slots[id].request == s.slots[id].request
    ensures var t, n := WriteLoop(u, canWrite, send, k, Gave(send, k)), |s.req|;
            && |t.req| <= n - k
            && (forall j :: k <= j < n - |t.req| ==> Taken(s, canWrite, send, j))
            && (t.req != [] ==> !Taken(s, canWrite, send, n - |t.req|))
    decreases |u.req|
  {
    if k < |s.req| {
      assert u.req[0] == s.req[k];
      if Taken(s, canWrite, send, k) {
        var v := MarkSent(u, u.req[0]);
        assert v.req == s.req[k + 1..];
        TakenFrom(s, v, canWrite, send, k + 1);
      }
    }
  }

  // ---- when queries were asked and moved ----

  // A query that the timer event moves back has the time of that event; all other times stay.
  predicate Stamped(q: Pending, r: Pending, now: Timeval) {
    && r.transmit == q.transmit && r.reqCount == q.reqCount
    && r.retransmit == (if q.waitingReply && !r.waitingReply then now else q.retransmit)
  }

  lemma {:induction false} TimerStamps(s: State, c: Config, now: Timeval, i: nat)
    requires Lists(s) && i <= |s.reply|
    ensures var t := TimerLoop(s, c, now, i);
            && |t.slots| == SLOTS
            && forall id :: 0 <= id < SLOTS && t.slots[id].inUse ==>
                 s.slots[id].inUse && Stamped(s.slots[id], t.slots[id], now)
    decreases |s.reply| - i
  {
    if i < |s.reply| {
      var id := s.reply[i];
      assert id in s.reply;
      ShorterWithout(s.reply, id);
      BelowWithout(s.reply, id, SLOTS);
      if Expired(s.slots[id], c, now) {
        ReleaseLists(s, id, TimedOut);
        TimerStamps(Release(Notify(s, s.slots[id], TimedOut), id), c, now, i);
      } else if !Retransmits(s.slots[id], c, now) {
        TimerStamps(s, c, now, i + 1);
      }
    }
  }

  /** After a timer event every pending query keeps its times, but for one that was moved back to req_list. */
  lemma TickStamps(s: State, c: Config, now: Timeval, id: nat)
    requires Inv(s, c) && id < SLOTS
    ensures var t := Step(s, c, TickOp(now));
            |t.slots| == SLOTS && (t.slots[id].inUse ==> Stamped(s.slots[id], t.slots[id], now))
  {
    TimerStamps(s, c, now, 0);
  }
}
