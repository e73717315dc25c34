/**
 The PostgreSQL dispatcher of libbrb_aiopq.c: a queue of requests, a pool of connections and a flag
 that keeps queries in order. libpq answers through an Io record; a failed assertion of the source
 ends the run (`aborted`). Callbacks that call back are the subject of CallbackInRead and CallbackInDrop.
 */
module AioPq {
  import opened Options
  import opened SlotLists

  datatype Config = Config(countMax: nat, begin: nat, max: nat, grow: nat, canceledNotify: bool)

  // ---- the pool of connections ----

  datatype Client = Client(online: bool, busy: bool, req: Option<nat>)

  const NEW := Client(false, false, None)

  // live is pqclient.count_cur, ready count_ready, busyCount count_busy.
  datatype ClientPool = ClientPool(clients: seq<Client>, live: nat, ready: int, busyCount: int)

  // What polling a connection says: lost, connected but not free, or free.
  datatype Poll = Lost | Occupied | Free

  // poll(k) answers the k-th polling of one event, send(k) says whether its k-th PQsendQuery succeeded.
  datatype Io = Io(poll: nat -> Poll, send: nat -> bool)

  function Put(p: ClientPool, i: nat, c: Client): ClientPool
    requires i < |p.clients|
  {
    p.(clients := p.clients[i := c])
  }

  function MarkOnline(p: ClientPool, i: nat): ClientPool
    requires i < |p.clients|
  {
    if p.clients[i].online then p else Put(p, i, p.clients[i].(online := true)).(ready := p.ready + 1)
  }

  function MarkOffline(p: ClientPool, i: nat): ClientPool
    requires i < |p.clients|
  {
    if p.clients[i].online then Put(p, i, p.clients[i].(online := false, busy := false)).(ready := p.ready - 1) else p
  }

  // Whatever a client whose number was used before has left in the arena stays there.
  function Allocated(p: ClientPool): (r: ClientPool)
    requires p.live <= |p.clients|
    ensures r.live == p.live < |r.clients|
  {
    if p.live == |p.clients| then p.(clients := p.clients + [NEW]) else p
  }

  // EvAIOPQClientConnect for the next client number, and the increment behind it.
  function Connect(p: ClientPool, answer: Poll): (r: ClientPool)
    requires p.live <= |p.clients|
    ensures r.live == p.live + 1 <= |r.clients|
  {
    var q := Allocated(p);
    (match answer
     case Lost => MarkOffline(q, p.live)
     case Occupied => q
     case Free => MarkOnline(q, p.live)).(live := p.live + 1)
  }

  // EvAIOPQBaseClientPoolInitN: n more clients, as far as allowed.
  function Grow(p: ClientPool, n: nat, max: nat, io: Io, k: nat): (r: (ClientPool, nat))
    requires p.live <= |p.clients|
    ensures p.live <= r.0.live <= |r.0.clients|
    decreases n
  {
    if n == 0 || p.live >= max then (p, k) else Grow(Connect(p, io.poll(k)), n - 1, max, io, k + 1)
  }

  // The search of EvAIOPQClientGrabFree from client i on.
  function Scan(p: ClientPool, i: nat, io: Io, k: nat): (r: (ClientPool, Option<nat>, nat))
    requires i <= p.live <= |p.clients|
    ensures r.0.live == p.live <= |r.0.clients| && (r.1.Some? ==> r.1.value < p.live)
    decreases p.live - i
  {
    if i == p.live then (p, None, k)
    else if p.clients[i].busy then Scan(p, i + 1, io, k)
    else
      match io.poll(k)
      case Lost => Scan(MarkOffline(p, i), i + 1, io, k + 1)
      case Occupied => Scan(p, i + 1, io, k + 1)
      case Free => (p, Some(i), k + 1)
  }

  // The search, and at most one more after new clients were started.
  function Search(p: ClientPool, retry: nat, c: Config, io: Io, k: nat): (r: (ClientPool, Option<nat>, nat))
    requires p.live <= |p.clients| && retry <= 2
    ensures p.live <= r.0.live <= |r.0.clients| && (r.1.Some? ==> r.1.value < r.0.live)
    decreases 2 - retry
  {
    if retry > 1 then (p, None, k)
    else
      var r := Scan(p, 0, io, k);
      if r.1.Some? || r.0.live >= c.max then r
      else
        var g := Grow(r.0, c.grow, c.max, io, r.2);
        Search(g.0, retry + 1, c, io, g.1)
  }

  // ---- the invariant of the pool ----

  function Count(cs: seq<Client>, f: Client -> bool): nat {
    if cs == [] then 0 else (if f(cs[0]) then 1 else 0) + Count(cs[1..], f)
  }

  predicate IsOnline(c: Client) { c.online }

  predicate IsBusy(c: Client) { c.busy }

  predicate PoolOk(p: ClientPool) {
    && p.live <= |p.clients|
    && (forall i :: p.live <= i < |p.clients| ==> !p.clients[i].online)
    && (forall i :: 0 <= i < |p.clients| && p.clients[i].busy ==> p.clients[i].online && p.clients[i].req.Some?)
    && (forall i, j :: 0 <= i < j < |p.clients| && p.clients[i].req.Some? ==> p.clients[i].req != p.clients[j].req)
    && p.ready == Count(p.clients, IsOnline) && p.busyCount >= Count(p.clients, IsBusy)
  }

  // The limits of the configuration, when it makes sense.
  predicate Within(p: ClientPool, c: Config) { c.begin <= c.max ==> c.begin <= p.live <= c.max }

  // The requests attached to clients stay; new clients have none.
  predicate SameReqs(p: ClientPool, q: ClientPool) {
    && |p.clients| <= |q.clients|
    && (forall i :: 0 <= i < |p.clients| ==> q.clients[i].req == p.clients[i].req)
    && (forall i :: |p.clients| <= i < |q.clients| ==> q.clients[i].req == None)
  }

  lemma {:induction false} CountPut(cs: seq<Client>, i: nat, c: Client, f: Client -> bool)
    requires i < |cs|
    ensures Count(cs[i := c], f) == Count(cs, f) - (if f(cs[i]) then 1 else 0) + (if f(c) then 1 else 0)
  {
    if i == 0 {
      assert cs[0 := c][1..] == cs[1..];
    } else {
      assert cs[i := c][1..] == cs[1..][i - 1 := c];
      CountPut(cs[1..], i - 1, c, f);
    }
  }

  lemma {:induction false} CountAppend(cs: seq<Client>, c: Client, f: Client -> bool)
    ensures Count(cs + [c], f) == Count(cs, f) + if f(c) then 1 else 0
  {
    if cs == [] {
      assert [c][1..] == [];
    } else {
      assert (cs + [c])[1..] == cs[1..] + [c];
      CountAppend(cs[1..], c, f);
    }
  }

  lemma OfflineKeeps(p: ClientPool, i: nat)
    requires PoolOk(p) && i < |p.clients|
    ensures PoolOk(MarkOffline(p, i)) && SameReqs(p, MarkOffline(p, i)) && MarkOffline(p, i).live == p.live
  {
    var d := p.clients[i].(online := false, busy := false);
    CountPut(p.clients, i, d, IsOnline);
    CountPut(p.clients, i, d, IsBusy);
  }

  lemma OnlineKeeps(p: ClientPool, i: nat)
    requires PoolOk(p) && i < p.live
    ensures PoolOk(MarkOnline(p, i)) && SameReqs(p, MarkOnline(p, i)) && MarkOnline(p, i).live == p.live
  {
    var d := p.clients[i].(online := true);
    CountPut(p.clients, i, d, IsOnline);
    CountPut(p.clients, i, d, IsBusy);
  }

  lemma ConnectKeeps(p: ClientPool, answer: Poll)
    requires PoolOk(p)
    ensures PoolOk(Connect(p, answer)) && SameReqs(p, Connect(p, answer))
  {
    var q := Allocated(p);
    CountAppend(p.clients, NEW, IsOnline);
    CountAppend(p.clients, NEW, IsBusy);
    CountPut(q.clients, p.live, q.clients[p.live].(online := true), IsOnline);
    CountPut(q.clients, p.live, q.clients[p.live].(online := true), IsBusy);
  }

  lemma {:induction false} GrowKeeps(p: ClientPool, n: nat, max: nat, io: Io, k: nat)
    requires PoolOk(p)
    ensures var r := Grow(p, n, max, io, k).0;
            && PoolOk(r) && SameReqs(p, r)
            && r.live == (if p.live + n <= max then p.live + n else if p.live <= max then max else p.live)
    decreases n
  {
    if n > 0 && p.live < max {
      ConnectKeeps(p, io.poll(k));
      GrowKeeps(Connect(p, io.poll(k)), n - 1, max, io, k + 1);
    }
  }

  lemma {:induction false} ScanKeeps(p: ClientPool, i: nat, io: Io, k: nat)
    requires PoolOk(p) && i <= p.live
    ensures var r := Scan(p, i, io, k);
            && PoolOk(r.0) && SameReqs(p, r.0) && r.0.live == p.live
            && (r.1.Some? ==> r.1.value < r.0.live && !r.0.clients[r.1.value].busy)
    decreases p.live - i
  {
    if i < p.live {
      OfflineKeeps(p, i);
      if p.clients[i].busy {
        ScanKeeps(p, i + 1, io, k);
      } else {
        match io.poll(k)
        case Lost => ScanKeeps(MarkOffline(p, i), i + 1, io, k + 1);
        case Occupied => ScanKeeps(p, i + 1, io, k + 1);
        case Free =>
      }
    }
  }

  lemma {:induction false} SearchKeeps(p: ClientPool, retry: nat, c: Config, io: Io, k: nat)
    requires PoolOk(p) && retry <= 2
    ensures var r := Search(p, retry, c, io, k);
            && PoolOk(r.0) && SameReqs(p, r.0) && (Within(p, c) ==> Within(r.0, c))
            && (r.1.Some? ==> r.1.value < r.0.live && !r.0.clients[r.1.value].busy)
    decreases 2 - retry
  {
    if retry <= 1 {
      ScanKeeps(p, 0, io, k);
      var r := Scan(p, 0, io, k);
      if r.1.None? && r.0.live < c.max {
        GrowKeeps(r.0, c.grow, c.max, io, r.2);
        var g := Grow(r.0, c.grow, c.max, io, r.2);
        SearchKeeps(g.0, retry + 1, c, io, g.1);
      }
    }
  }

  // ---- the queue ----

  // EvAIOPQRequest; cb_called is only set while a request is being destroyed. `num` counts requests.
  datatype Request = Request(inUse: bool, sent: bool, cancelled: bool, owner: int, hasCb: bool, num: nat)

  // How requests ended, by their numbers: counted as a success, as canceled and replied to, or canceled unsent.
  datatype Ends = Ends(answered: seq<nat>, notified: seq<nat>, dropped: seq<nat>)

  // pending of EvAIOPQBase: the slots, their REQUEST and REPLY lists, the counters and pqbuffer_pending.
  datatype Queue = Queue(
    slots: seq<Request>, free: seq<nat>, request: seq<nat>, reply: seq<nat>,
    total: nat, cur: int, success: nat, cancelNotified: nat, cancel: nat,
    pending: bool, timerArmed: bool, handed: seq<nat>, ends: Ends)

  datatype State = State(q: Queue, p: ClientPool, aborted: bool)

  predicate GoodSlots(q: Queue) { Below(q.free, |q.slots|) && Below(q.request, |q.slots|) && Below(q.reply, |q.slots|) }

  predicate Good(s: State) {
    GoodSlots(s.q) && s.p.live <= |s.p.clients|
    && forall i :: 0 <= i < |s.p.clients| && s.p.clients[i].req.Some? ==> s.p.clients[i].req.value < |s.q.slots|
  }

  function Enqueue(q: Queue, owner: int, hasCb: bool): Queue
    requires GoodSlots(q) && q.free != []
  {
    var id := q.free[|q.free| - 1];
    q.(slots := q.slots[id := Request(true, false, false, owner, hasCb, q.total)],
       free := q.free[..|q.free| - 1], request := q.request + [id], total := q.total + 1, cur := q.cur + 1)
  }

  function Answered(e: Ends, num: nat): Ends { e.(answered := e.answered + [num]) }

  function Notified(e: Ends, num: nat): Ends { e.(notified := e.notified + [num]) }

  function Dropped(e: Ends, num: nat): Ends { e.(dropped := e.dropped + [num]) }

  // EvAIOPQRequestDestroy.
  function Destroy(q: Queue, id: nat): Queue
    requires id < |q.slots|
  {
    q.(slots := q.slots[id := q.slots[id].(inUse := false)], free := q.free + [id],
       request := Without(q.request, id), reply := Without(q.reply, id))
  }

  // A query that went out: MemSlotBaseSlotListIDSwitch puts its request at the head of the REPLY list.
  function Sent(s: State, i: nat, id: nat): State
    requires i < |s.p.clients| && id < |s.q.slots|
  {
    s.(q := Moved(s.q, id), p := Busied(s.p, i, id))
  }

  function Moved(q: Queue, id: nat): Queue
    requires id < |q.slots|
  {
    q.(slots := q.slots[id := q.slots[id].(sent := true)], request := Without(q.request, id),
       reply := [id] + q.reply, handed := q.handed + [q.slots[id].num])
  }

  // Client i works on the request.
  function Busied(p: ClientPool, i: nat, id: nat): ClientPool
    requires i < |p.clients|
  {
    Put(p, i, p.clients[i].(busy := true, req := Some(id))).(busyCount := p.busyCount + 1)
  }

  // The three assertions on a grabbed client, and the attempt to send with it.
  function Try(s: State, i: nat, id: nat, ok: bool): (State, bool)
    requires i < |s.p.clients| && id < |s.q.slots|
  {
    var c := s.p.clients[i];
    if !c.online || c.busy || c.req.Some? then (s.(aborted := true), false)
    else if !ok then (s, false)
    else (Sent(s, i, id), true)
  }

  // EvAIOPQSendReq.
  function SendReq(s: State, c: Config, owner: int, hasCb: bool, io: Io): State
    requires Good(s)
  {
    if |s.q.request| + |s.q.reply| >= c.countMax || s.q.free == [] then s
    else
      var id := s.q.free[|s.q.free| - 1];
      if s.q.slots[id].inUse then s.(aborted := true)
      else
        SendNow(State(Enqueue(s.q, owner, hasCb), s.p, false), c, id, io)
  }

  // Its attempt to send the new request at once.
  function SendNow(s: State, c: Config, id: nat, io: Io): State
    requires s.p.live <= |s.p.clients| && id < |s.q.slots|
  {
    var r := if s.q.pending then (s.p, None, 0) else Search(s.p, 0, c, io, 0);
    var t := s.(p := r.0);
    if r.1.None? then t.(q := t.q.(pending := true, timerArmed := true))
    else
      var w := Try(t, r.1.value, id, io.send(0));
      if w.1 || w.0.aborted then w.0 else w.0.(q := w.0.q.(pending := true))
  }

  // What EvAIOPQBufferDispatch does with a canceled request: with canceled_notify its callback is called
  // unguarded, after which the client has no request.
  function Drop(s: State, c: Config, i: nat, id: nat): State
    requires i < |s.p.clients| && id < |s.q.slots|
  {
    if c.canceledNotify && !s.q.slots[id].hasCb then s.(aborted := true)
    else
      State(Destroy(s.q, id).(cancel := s.q.cancel + 1, cur := s.q.cur - 1,
                              ends := Dropped(s.q.ends, s.q.slots[id].num)),
            if c.canceledNotify then Put(s.p, i, s.p.clients[i].(req := None)) else s.p, false)
  }

  // EvAIOPQBufferDispatch: the new state, whether to go on, and how many polls and sends were used.
  function Dispatch(s: State, c: Config, io: Io, k: nat, j: nat): (r: (State, bool, nat, nat))
    requires Good(s)
  {
    if s.q.request == [] then (s, false, k, j)
    else
      var id := s.q.request[0];
      var r := Search(s.p, 0, c, io, k);
      var t := s.(p := r.0);
      if r.1.None? then (t, false, r.2, j)
      else if t.q.slots[id].cancelled then (Drop(t, c, r.1.value, id), !Drop(t, c, r.1.value, id).aborted, r.2, j)
      else
        var w := Try(t, r.1.value, id, io.send(j));
        (w.0, w.1, r.2, j + 1)
  }

  // ---- the invariant ----

  // A slot is free, or in use on exactly one of the two lists: sent tells which.
  predicate SlotFits(q: Queue, id: nat)
    requires id < |q.slots|
  {
    && (q.slots[id].inUse <==> id !in q.free)
    && (q.slots[id].inUse && !q.slots[id].sent <==> id in q.request)
    && (q.slots[id].inUse && q.slots[id].sent <==> id in q.reply)
  }

  predicate Lists(q: Queue) {
    && GoodSlots(q) && Distinct(q.free) && Distinct(q.request) && Distinct(q.reply)
    && |q.free| + |q.request| + |q.reply| == |q.slots|
    && forall id :: 0 <= id < |q.slots| ==> SlotFits(q, id)
  }

  // Nothing is lost and nothing counted twice, and the queue stays within its limit.
  predicate Conserved(q: Queue, c: Config) {
    && |q.slots| == c.countMax + 2
    && q.cur == |q.request| + |q.reply| <= c.countMax
    && q.total == q.cur + q.success + q.cancelNotified + q.cancel
    && q.success == |q.ends.answered| && q.cancelNotified == |q.ends.notified| && q.cancel == |q.ends.dropped|
  }

  // Increasing numbers below n.
  predicate Ordered(ns: seq<nat>, n: nat) {
    (forall i, j :: 0 <= i < j < |ns| ==> ns[i] < ns[j]) && forall i :: 0 <= i < |ns| ==> ns[i] < n
  }

  function Nums(q: Queue): (r: seq<nat>)
    requires GoodSlots(q)
    ensures |r| == |q.request| && forall i :: 0 <= i < |r| ==> r[i] == q.slots[q.request[i]].num
  {
    seq(|q.request|, i requires 0 <= i < |q.request| => q.slots[q.request[i]].num)
  }

  // The requests handed to a connection and then those still waiting are in the order of their arrival.
  predicate InOrder(q: Queue)
    requires GoodSlots(q)
  {
    Ordered(q.handed + Nums(q), q.total)
  }

  // While pqbuffer_pending is clear nothing waits.
  predicate Flagged(q: Queue) { !q.pending ==> q.request == [] }

  // The requests that clients point at wait for their replies.
  predicate Attached(s: State) {
    forall i :: 0 <= i < |s.p.clients| && s.p.clients[i].req.Some? ==> s.p.clients[i].req.value in s.q.reply
  }

  predicate QueueOk(q: Queue, c: Config) { Lists(q) && Conserved(q, c) && InOrder(q) }

  predicate Inv(s: State, c: Config) {
    PoolOk(s.p) && Within(s.p, c) && QueueOk(s.q, c) && Flagged(s.q) && Attached(s)
  }

  lemma OrderedMore(a: seq<nat>, b: seq<nat>, n: nat)
    requires Ordered(a + b, n)
    ensures Ordered(a + (b + [n]), n + 1)
  {
    assert a + (b + [n]) == a + b + [n];
  }

  lemma OrderedLess(a: seq<nat>, b: seq<nat>, n: nat)
    requires Ordered(a + b, n) && b != []
    ensures Ordered(a + b[1..], n)
  {
    var all, now := a + b, a + b[1..];
    forall i, j | 0 <= i < j < |now| ensures now[i] < now[j] {
      assert now[i] == all[if i < |a| then i else i + 1] && now[j] == all[if j < |a| then j else j + 1];
    }
    forall i | 0 <= i < |now| ensures now[i] < n { assert now[i] == all[if i < |a| then i else i + 1]; }
  }

  lemma EnqueueKeeps(q: Queue, c: Config, owner: int, hasCb: bool)
    requires QueueOk(q, c) && |q.request| + |q.reply| < c.countMax
    ensures q.free != [] && !q.slots[q.free[|q.free| - 1]].inUse && QueueOk(Enqueue(q, owner, hasCb), c)
    ensures Enqueue(q, owner, hasCb).reply == q.reply
  {
    var id, t := q.free[|q.free| - 1], Enqueue(q, owner, hasCb);
    LastTaken(q.free);
    assert SlotFits(q, id);
    Appended(q.request, id);
    forall k | 0 <= k < |q.slots| ensures SlotFits(t, k) { assert SlotFits(q, k); }
    assert forall k :: 0 <= k < |q.request| ==> q.request[k] in q.request;
    assert Nums(t) == Nums(q) + [q.total];
    OrderedMore(q.handed, Nums(q), q.total);
  }

  // A request leaves the lists for good; the caller counts it.
  lemma DestroyLists(q: Queue, id: nat)
    requires Lists(q) && id < |q.slots| && q.slots[id].inUse
    ensures Lists(Destroy(q, id)) && |Destroy(q, id).request| + |Destroy(q, id).reply| == |q.request| + |q.reply| - 1
    ensures forall x :: x in Destroy(q, id).reply <==> x in q.reply && x != id
  {
    var t := Destroy(q, id);
    assert SlotFits(q, id);
    WithoutFacts(q.request, id);
    WithoutFacts(q.reply, id);
    ShorterWithout(q.request, id);
    ShorterWithout(q.reply, id);
    BelowWithout(q.request, id, |q.slots|);
    BelowWithout(q.reply, id, |q.slots|);
    Appended(q.free, id);
    forall k | 0 <= k < |q.slots| ensures SlotFits(t, k) { assert SlotFits(q, k); }
  }

  // Removing a request that was sent, or the next one to be sent, keeps the order.
  lemma DestroyReplied(q: Queue, id: nat)
    requires Lists(q) && InOrder(q) && id in q.reply
    ensures GoodSlots(Destroy(q, id)) && InOrder(Destroy(q, id))
  {
    DestroyListsGood(q, id);
    assert forall k :: 0 <= k < |q.request| ==> q.request[k] in q.request;
    assert SlotFits(q, id);
    ShorterWithout(q.request, id);
    assert Nums(Destroy(q, id)) == Nums(q);
  }

  lemma DestroyNext(q: Queue, id: nat)
    requires Lists(q) && InOrder(q) && q.request != [] && id == q.request[0]
    ensures GoodSlots(Destroy(q, id)) && InOrder(Destroy(q, id))
  {
    DestroyListsGood(q, id);
    WithoutFirst(q.request);
    assert forall k :: 0 < k < |q.request| ==> q.request[k] != id;
    assert Nums(Destroy(q, id)) == Nums(q)[1..];
    OrderedLess(q.handed, Nums(q), q.total);
  }

  lemma DestroyListsGood(q: Queue, id: nat)
    requires GoodSlots(q) && id < |q.slots|
    ensures GoodSlots(Destroy(q, id))
  {
    BelowWithout(q.request, id, |q.slots|);
    BelowWithout(q.reply, id, |q.slots|);
  }

  // The head of the REQUEST list, or the only request, is handed over.
  lemma SentQueue(s: State, c: Config, i: nat)
    requires QueueOk(s.q, c) && s.q.request != [] && i < |s.p.clients|
    ensures QueueOk(Sent(s, i, s.q.request[0]).q, c)
    ensures forall x :: x in Sent(s, i, s.q.request[0]).q.reply <==> x in s.q.reply || x == s.q.request[0]
  {
    var q, id := s.q, s.q.request[0];
    var t := Sent(s, i, id).q;
    assert id in q.request && SlotFits(q, id);
    WithoutFirst(q.request);
    WithoutFacts(q.request, id);
    Prepended(q.reply, id);
    forall k | 0 <= k < |q.slots| ensures SlotFits(t, k) { assert SlotFits(q, k); }
    SentOrder(q, t);
  }

  lemma Associates(a: seq<nat>, b: seq<nat>, c: seq<nat>)
    ensures a + b + c == a + (b + c)
  {}

  lemma SentOrder(q: Queue, t: Queue)
    requires GoodSlots(q) && InOrder(q) && q.request != []
    requires GoodSlots(t) && t.request == q.request[1..] && t.total == q.total
    requires |t.slots| == |q.slots| && forall k :: 0 <= k < |q.slots| ==> t.slots[k].num == q.slots[k].num
    requires t.handed == q.handed + [q.slots[q.request[0]].num]
    ensures InOrder(t)
  {
    var first := [q.slots[q.request[0]].num];
    assert Nums(q) == first + Nums(t);
    Associates(q.handed, first, Nums(t));
  }

  // Counters and flags do not matter to the lists.
  lemma SameLists(q: Queue, t: Queue)
    requires Lists(q) && InOrder(q)
    requires t.slots == q.slots && t.free == q.free && t.request == q.request && t.reply == q.reply
    requires t.total == q.total && t.handed == q.handed
    ensures Lists(t) && InOrder(t)
  {
    forall k | 0 <= k < |q.slots| ensures SlotFits(t, k) { assert SlotFits(q, k); }
    assert Nums(t) == Nums(q);
  }

  // What every step keeps but the flag: Inv without Flagged.
  predicate Sound(s: State, c: Config) { PoolOk(s.p) && Within(s.p, c) && QueueOk(s.q, c) && Attached(s) }

  lemma SoundIsGood(s: State, c: Config)
    requires Sound(s, c)
    ensures Good(s)
  {
    forall i | 0 <= i < |s.p.clients| && s.p.clients[i].req.Some? ensures s.p.clients[i].req.value < |s.q.slots| {
      assert s.p.clients[i].req.value in s.q.reply;
    }
  }

  // A client takes a request on that no other client has.
  lemma BusyKeeps(p: ClientPool, i: nat, id: nat)
    requires PoolOk(p) && i < |p.clients| && p.clients[i].online && !p.clients[i].busy && p.clients[i].req.None?
    requires forall k :: 0 <= k < |p.clients| ==> p.clients[k].req != Some(id)
    ensures PoolOk(Busied(p, i, id))
  {
    var d := p.clients[i].(busy := true, req := Some(id));
    CountPut(p.clients, i, d, IsOnline);
    CountPut(p.clients, i, d, IsBusy);
  }

  lemma TryKeeps(s: State, c: Config, i: nat, id: nat, ok: bool)
    requires Sound(s, c) && s.q.request != [] && id == s.q.request[0] && i < |s.p.clients| && !s.p.clients[i].busy
    ensures id < |s.q.slots|
    ensures var w := Try(s, i, id, ok);
            && (!w.0.aborted ==> Sound(w.0, c))
            && (w.1 ==> w.0.q.request == s.q.request[1..] && w.0.q.pending == s.q.pending)
            && (!w.1 && !w.0.aborted ==> w.0 == s)
  {
    assert id in s.q.request && SlotFits(s.q, id);
    var w := Try(s, i, id, ok);
    if w.1 {
      forall k | 0 <= k < |s.p.clients| ensures s.p.clients[k].req != Some(id) {
        assert s.p.clients[k].req.Some? ==> s.p.clients[k].req.value in s.q.reply;
      }
      BusyKeeps(s.p, i, id);
      SentQueue(s, c, i);
      WithoutFirst(s.q.request);
    }
  }

  // Polling clients does not touch what they are attached to.
  lemma SearchSound(s: State, c: Config, io: Io, k: nat)
    requires Sound(s, c)
    ensures var r := Search(s.p, 0, c, io, k);
            Sound(s.(p := r.0), c) && (r.1.Some? ==> r.1.value < |r.0.clients| && !r.0.clients[r.1.value].busy)
  {
    SearchKeeps(s.p, 0, c, io, k);
    var r := Search(s.p, 0, c, io, k);
    forall i | 0 <= i < |r.0.clients| && r.0.clients[i].req.Some? ensures r.0.clients[i].req.value in s.q.reply {
      assert i < |s.p.clients|;
    }
  }

  lemma SendReqKeeps(s: State, c: Config, owner: int, hasCb: bool, io: Io)
    requires Inv(s, c) && !s.aborted && Good(s)
    ensures var t := SendReq(s, c, owner, hasCb, io); !t.aborted ==> Inv(t, c)
  {
    if |s.q.request| + |s.q.reply| < c.countMax {
      EnqueueKeeps(s.q, c, owner, hasCb);
      var q := Enqueue(s.q, owner, hasCb);
      var id := s.q.free[|s.q.free| - 1];
      assert !q.pending ==> s.q.request == [] && q.request == [id];
      SendNowKeeps(State(q, s.p, false), c, id, io);
    }
  }

  lemma SendNowKeeps(s: State, c: Config, id: nat, io: Io)
    requires Sound(s, c) && !s.aborted && id < |s.q.slots|
    requires s.q.request != [] && (!s.q.pending ==> s.q.request == [id])
    ensures var t := SendNow(s, c, id, io); !t.aborted ==> Inv(t, c)
  {
    var r := if s.q.pending then (s.p, None, 0) else Search(s.p, 0, c, io, 0);
    SearchSound(s, c, io, 0);
    SameLists(s.q, s.q.(pending := true, timerArmed := true));
    SameLists(s.q, s.q.(pending := true));
    if r.1.Some? { TryKeeps(s.(p := r.0), c, r.1.value, id, io.send(0)); }
  }

  lemma DropKeeps(s: State, c: Config, i: nat, id: nat)
    requires Sound(s, c) && s.q.request != [] && id == s.q.request[0] && i < |s.p.clients| && !s.p.clients[i].busy
    ensures id < |s.q.slots|
    ensures var t := Drop(s, c, i, id);
            !t.aborted ==> Sound(t, c) && t.q.request == s.q.request[1..] && t.q.pending == s.q.pending
  {
    assert id in s.q.request && SlotFits(s.q, id);
    DestroyLists(s.q, id);
    DestroyNext(s.q, id);
    SameLists(Destroy(s.q, id), Destroy(s.q, id).(cancel := s.q.cancel + 1, cur := s.q.cur - 1,
                                                  ends := Dropped(s.q.ends, s.q.slots[id].num)));
    WithoutFirst(s.q.request);
    CountPut(s.p.clients, i, s.p.clients[i].(req := None), IsOnline);
    CountPut(s.p.clients, i, s.p.clients[i].(req := None), IsBusy);
  }

  lemma DispatchKeeps(s: State, c: Config, io: Io, k: nat, j: nat)
    requires Sound(s, c) && Good(s) && !s.aborted
    ensures var d := Dispatch(s, c, io, k, j);
            && (!d.0.aborted ==> Sound(d.0, c) && d.0.q.pending == s.q.pending)
            && (d.1 ==> !d.0.aborted && |d.0.q.request| < |s.q.request|)
            && (!d.1 && !d.0.aborted ==> d.0.q == s.q)
  {
    if s.q.request != [] {
      var id := s.q.request[0];
      SearchSound(s, c, io, k);
      var r := Search(s.p, 0, c, io, k);
      if r.1.Some? {
        if s.q.slots[id].cancelled {
          DropKeeps(s.(p := r.0), c, r.1.value, id);
        } else {
          TryKeeps(s.(p := r.0), c, r.1.value, id, io.send(j));
        }
      }
    }
  }

  // The loop of EvAIOPQBufferedRequestTimerTick.
  function TickLoop(s: State, c: Config, io: Io, k: nat, j: nat): State
    requires Sound(s, c) && !s.aborted
    decreases |s.q.request|
  {
    SoundIsGood(s, c);
    DispatchKeeps(s, c, io, k, j);
    var d := Dispatch(s, c, io, k, j);
    if d.1 then TickLoop(d.0, c, io, d.2, d.3) else d.0
  }

  function Tick(s: State, c: Config, io: Io): State
    requires Sound(s, c) && !s.aborted
  {
    SameLists(s.q, s.q.(timerArmed := false));
    var t := s.(q := s.q.(timerArmed := false));
    if s.q.request == [] then t.(q := t.q.(pending := false))
    else
      var u := TickLoop(t, c, io, 0, 0);
      u.(q := u.q.(timerArmed := true))
  }

  lemma {:induction false} TickLoopKeeps(s: State, c: Config, io: Io, k: nat, j: nat)
    requires Sound(s, c) && !s.aborted
    ensures var t := TickLoop(s, c, io, k, j); !t.aborted ==> Sound(t, c) && t.q.pending == s.q.pending
    decreases |s.q.request|
  {
    SoundIsGood(s, c);
    DispatchKeeps(s, c, io, k, j);
    var d := Dispatch(s, c, io, k, j);
    if d.1 { TickLoopKeeps(d.0, c, io, d.2, d.3); }
  }

  lemma TickKeeps(s: State, c: Config, io: Io)
    requires Inv(s, c) && !s.aborted
    ensures var t := Tick(s, c, io); !t.aborted ==> Inv(t, c)
  {
    var t := s.(q := s.q.(timerArmed := false));
    SameLists(s.q, t.q);
    SameLists(s.q, t.q.(pending := false));
    if s.q.request != [] {
      TickLoopKeeps(t, c, io, 0, 0);
      var u := TickLoop(t, c, io, 0, 0);
      if !u.aborted { SameLists(u.q, u.q.(timerArmed := true)); }
    }
  }

  // ---- the other events ----

  // EvAIOPQClientEventRead for client i; done says that the whole reply is there, or that reading it failed.
  function Read(s: State, i: nat, done: bool): State
    requires Good(s) && i < |s.p.clients|
  {
    var cl := s.p.clients[i];
    if cl.req.None? || !done then s
    else if !cl.busy then s.(aborted := true)
    else
      var id := cl.req.value;
      var r := s.q.slots[id];
      var q := Destroy(s.q, id).(cur := s.q.cur - 1);
      s.(q := if r.cancelled then q.(cancelNotified := q.cancelNotified + 1, ends := Notified(q.ends, r.num))
              else q.(success := q.success + 1, ends := Answered(q.ends, r.num)),
         p := Detached(s.p, i))
  }

  // Client i has no request any more.
  function Detached(p: ClientPool, i: nat): ClientPool
    requires i < |p.clients|
  {
    Put(p, i, p.clients[i].(req := None, busy := false)).(busyCount := p.busyCount - 1)
  }

  function Cancelled(r: Request): Request { r.(cancelled := true) }

  // EvAIOPQQueryCancelByOwnerID.
  function CancelOwner(q: Queue, owner: int): Queue {
    q.(slots := seq(|q.slots|, k requires 0 <= k < |q.slots| =>
         if (k in q.request || k in q.reply) && q.slots[k].owner == owner then Cancelled(q.slots[k]) else q.slots[k]))
  }

  // EvAIOPQQueryCancelByReqID, with its assertions.
  function CancelReq(s: State, id: int): State {
    if id < 0 then s
    else if id >= |s.q.slots| || !s.q.slots[id].inUse || s.q.slots[id].cancelled then s.(aborted := true)
    else s.(q := s.q.(slots := s.q.slots[id := Cancelled(s.q.slots[id])]))
  }

  // EvAIOPQClientCheckConnHealthTimer from client i on; lost(i) is what the check of client i says.
  function Health(p: ClientPool, i: nat, lost: nat -> bool): (r: ClientPool)
    requires i <= p.live <= |p.clients|
    ensures r.live == p.live && |r.clients| == |p.clients|
    decreases p.live - i
  {
    if i == p.live then p else Health(if lost(i) then MarkOffline(p, i) else MarkOnline(p, i), i + 1, lost)
  }

  // EvAIOPQCheckDecreasePQCliTimer; idle says that the last client was not used for a while.
  function Decrease(p: ClientPool, c: Config, idle: bool): ClientPool
    requires p.live <= |p.clients|
  {
    if p.live <= c.begin || p.clients[p.live - 1].busy || !idle then p
    else MarkOffline(p, p.live - 1).(live := p.live - 1)
  }

  datatype Op =
    | SendOp(owner: int, hasCb: bool, io: Io)
    | CancelOwnerOp(owner: int)
    | CancelReqOp(id: int)
    | TickOp(io: Io)
    | ReadOp(client: nat, done: bool)
    | CloseOp(client: nat)
    | HealthOp(lost: nat -> bool)
    | DecreaseOp(idle: bool)

  // One call or event. Read and close events come for clients in the pool, the timer only while it is set,
  // and nothing comes behind a failed assertion.
  function Step(s: State, c: Config, op: Op): State
    requires s.aborted || Inv(s, c)
  {
    if s.aborted then s
    else
      SoundIsGood(s, c);
      match op
      case SendOp(owner, hasCb, io) => SendReq(s, c, owner, hasCb, io)
      case CancelOwnerOp(owner) => s.(q := CancelOwner(s.q, owner))
      case CancelReqOp(id) => CancelReq(s, id)
      case TickOp(io) => if s.q.timerArmed then Tick(s, c, io) else s
      case ReadOp(i, done) => if i < s.p.live then Read(s, i, done) else s
      case CloseOp(i) => if i < s.p.live then s.(p := MarkOffline(s.p, i)) else s
      case HealthOp(lost) => s.(p := Health(s.p, 0, lost))
      case DecreaseOp(idle) => s.(p := Decrease(s.p, c, idle))
  }

  lemma FreeClient(p: ClientPool, i: nat)
    requires PoolOk(p) && i < |p.clients| && p.clients[i].busy
    ensures PoolOk(Detached(p, i))
    ensures p.busyCount > 0
  {
    var d := p.clients[i].(req := None, busy := false);
    CountPut(p.clients, i, d, IsOnline);
    CountPut(p.clients, i, d, IsBusy);
  }

  lemma ReadKeeps(s: State, c: Config, i: nat, done: bool)
    requires Inv(s, c) && Good(s) && !s.aborted && i < |s.p.clients|
    ensures var t := Read(s, i, done); !t.aborted ==> Inv(t, c)
  {
    var cl, t := s.p.clients[i], Read(s, i, done);
    if cl.req.Some? && done && cl.busy {
      var id := cl.req.value;
      assert id in s.q.reply && SlotFits(s.q, id);
      FreeClient(s.p, i);
      DestroyLists(s.q, id);
      DestroyReplied(s.q, id);
      SameLists(Destroy(s.q, id), t.q);
      ShorterWithout(s.q.request, id);
      forall k | 0 <= k < |t.p.clients| && t.p.clients[k].req.Some? ensures t.p.clients[k].req.value in t.q.reply {
        assert k != i && s.p.clients[k].req != s.p.clients[i].req;
      }
    }
  }

  // Cancel flags do not matter either.
  lemma CancelKeeps(s: State, t: State, c: Config)
    requires Inv(s, c) && t == s.(q := s.q.(slots := t.q.slots)) && |t.q.slots| == |s.q.slots|
    requires forall k :: 0 <= k < |s.q.slots| ==>
               t.q.slots[k] == s.q.slots[k] || t.q.slots[k] == Cancelled(s.q.slots[k])
    ensures Inv(t, c)
  {
    forall k | 0 <= k < |s.q.slots| ensures SlotFits(t.q, k) { assert SlotFits(s.q, k); }
    assert Nums(t.q) == Nums(s.q);
  }

  lemma {:induction false} HealthKeeps(p: ClientPool, i: nat, lost: nat -> bool)
    requires PoolOk(p) && i <= p.live
    ensures PoolOk(Health(p, i, lost)) && SameReqs(p, Health(p, i, lost))
    decreases p.live - i
  {
    if i < p.live {
      OfflineKeeps(p, i);
      OnlineKeeps(p, i);
      HealthKeeps(if lost(i) then MarkOffline(p, i) else MarkOnline(p, i), i + 1, lost);
    }
  }

  lemma DecreaseKeeps(p: ClientPool, c: Config, idle: bool)
    requires PoolOk(p) && Within(p, c)
    ensures var r := Decrease(p, c, idle); PoolOk(r) && Within(r, c) && SameReqs(p, r)
  {
    if p.live > 0 { OfflineKeeps(p, p.live - 1); }
  }

  /** Every call and every event keeps the invariant, or ends the run in a failed assertion. */
  lemma StepKeeps(s: State, c: Config, op: Op)
    requires s.aborted || Inv(s, c)
    ensures Step(s, c, op).aborted || Inv(Step(s, c, op), c)
  {
    if !s.aborted {
      SoundIsGood(s, c);
      match op
      case SendOp(owner, hasCb, io) => SendReqKeeps(s, c, owner, hasCb, io);
      case CancelOwnerOp(owner) => CancelKeeps(s, s.(q := CancelOwner(s.q, owner)), c);
      case CancelReqOp(id) => if !CancelReq(s, id).aborted { CancelKeeps(s, CancelReq(s, id), c); }
      case TickOp(io) => TickKeeps(s, c, io);
      case ReadOp(i, done) => if i < s.p.live { ReadKeeps(s, c, i, done); }
      case CloseOp(i) => if i < s.p.live { OfflineKeeps(s.p, i); }
      case HealthOp(lost) => HealthKeeps(s.p, 0, lost);
      case DecreaseOp(idle) => DecreaseKeeps(s.p, c, idle);
    }
  }

  // ---- whole runs ----

  // EvAIOPQBaseNew: count_begin clients are started, whatever count_max says.
  function Init(c: Config, io: Io): State {
    State(EmptyQueue(c.countMax + 2), Grow(ClientPool([], 0, 0, 0), c.begin, c.begin, io, 0).0, false)
  }

  function EmptyQueue(n: nat): Queue {
    Queue(seq(n, _ => Request(false, false, false, 0, false, 0)), seq(n, k requires 0 <= k < n => n - 1 - k), [], [],
          0, 0, 0, 0, 0, false, false, [], Ends([], [], []))
  }

  lemma InitHolds(c: Config, io: Io)
    ensures Inv(Init(c, io), c) && !Init(c, io).aborted
  {
    var s := Init(c, io);
    forall id | 0 <= id < |s.q.slots| ensures id in s.q.free && SlotFits(s.q, id) {
      assert s.q.free[|s.q.slots| - 1 - id] == id;
    }
    GrowKeeps(ClientPool([], 0, 0, 0), c.begin, c.begin, io, 0);
  }

  function Run(s: State, c: Config, ops: seq<Op>): (r: State)
    requires s.aborted || Inv(s, c)
    ensures r.aborted || Inv(r, c)
    decreases ops
  {
    if ops == [] then s
    else
      StepKeeps(s, c, ops[0]);
      Run(Step(s, c, ops[0]), c, ops[1..])
  }

  /**
   After any run, disconnects included, that no assertion ended: no request is lost or counted twice and
   the queue is within its limit; count_ready is the number of online clients and the client count within
   its limits; requests were handed to connections in the order of their arrival, those still waiting come
   behind, and none waits while pqbuffer_pending is clear.
   */
  lemma DispatcherIsSafe(c: Config, io: Io, ops: seq<Op>)
    ensures Inv(Init(c, io), c)
    ensures var s := Run(Init(c, io), c, ops);
            !s.aborted ==>
              && s.q.total == s.q.cur + s.q.success + s.q.cancelNotified + s.q.cancel
              && s.q.success == |s.q.ends.answered| && s.q.cancelNotified == |s.q.ends.notified|
              && s.q.cancel == |s.q.ends.dropped|
              && s.q.cur == |s.q.request| + |s.q.reply| <= c.countMax
              && s.p.ready == Count(s.p.clients, IsOnline) && s.p.busyCount >= Count(s.p.clients, IsBusy)
              && (c.begin <= c.max ==> c.begin <= s.p.live <= c.max)
              && GoodSlots(s.q) && Ordered(s.q.handed + Nums(s.q), s.q.total)
              && (!s.q.pending ==> s.q.request == [])
  {
    InitHolds(c, io);
  }

  // ---- the dispatch timer is not always set while requests wait ----

  predicate Watched(s: State) { s.q.request != [] ==> s.q.timerArmed }

  // The immediate path of EvAIOPQSendReq finds a usable client but PQsendQuery fails.
  predicate ImmediateFails(s: State, c: Config, io: Io)
    requires Good(s)
  {
    && |s.q.request| + |s.q.reply| < c.countMax && !s.q.pending
    && var r := Search(s.p, 0, c, io, 0);
       r.1.Some? && r.0.clients[r.1.value].online && r.0.clients[r.1.value].req.None? && !io.send(0)
  }

  /** A step leaves the timer set while requests wait, unless it is such a failure with the timer off. */
  lemma WatchedKeeps(s: State, c: Config, op: Op)
    requires Inv(s, c) && !s.aborted && Good(s) && Watched(s) && !Step(s, c, op).aborted
    ensures Watched(Step(s, c, op)) <==> !(op.SendOp? && !s.q.timerArmed && ImmediateFails(s, c, op.io))
  {
    match op
    case SendOp(owner, hasCb, io) => SendWatched(s, c, owner, hasCb, io);
    case ReadOp(i, done) =>
      if i < s.p.live && s.p.clients[i].req.Some? && done && s.p.clients[i].busy {
        var id := s.p.clients[i].req.value;
        assert id in s.q.reply && SlotFits(s.q, id);
        ShorterWithout(s.q.request, id);
      }
    case _ =>
  }

  lemma SendWatched(s: State, c: Config, owner: int, hasCb: bool, io: Io)
    requires Inv(s, c) && !s.aborted && Good(s) && Watched(s) && !SendReq(s, c, owner, hasCb, io).aborted
    ensures Watched(SendReq(s, c, owner, hasCb, io)) <==> s.q.timerArmed || !ImmediateFails(s, c, io)
  {
    if |s.q.request| + |s.q.reply| < c.countMax {
      EnqueueKeeps(s.q, c, owner, hasCb);
      if !s.q.pending {
        SearchKeeps(s.p, 0, c, io, 0);
        var r := Search(s.p, 0, c, io, 0);
        if r.1.Some? {
          var q := Enqueue(s.q, owner, hasCb);
          assert q.request == [s.q.free[|s.q.free| - 1]];
          TryRequests(State(q, r.0, false), r.1.value, q.request[0], io.send(0));
        }
      }
    }
  }

  lemma TryRequests(s: State, i: nat, id: nat, ok: bool)
    requires i < |s.p.clients| && id < |s.q.slots| && s.q.request == [id] && !s.p.clients[i].busy
    ensures var w := Try(s, i, id, ok);
            && w.0.q.timerArmed == s.q.timerArmed
            && (s.p.clients[i].online && s.p.clients[i].req.None? && ok <==> w.1)
            && w.0.q.request == if w.1 then [] else [id]
  {}

  /** Such a run: one connection, one query, and PQsendQuery fails: the query waits with no timer. */
  lemma Unwatched(c: Config, io: Io)
    requires c.begin == 1 && c.countMax > 0 && io.poll(0) == Free && !io.send(0)
    ensures Inv(Init(c, io), c)
    ensures var s := Run(Init(c, io), c, [SendOp(0, true, io)]); !s.aborted && s.q.request != [] && !s.q.timerArmed
  {
    InitHolds(c, io);
    var s, op := Init(c, io), SendOp(0, true, io);
    assert Grow(ClientPool([], 0, 0, 0), 1, 1, io, 0).0 == Connect(ClientPool([], 0, 0, 0), Free);
    assert s.p.live == 1 && s.p.clients == [Client(true, false, None)];
    assert Scan(s.p, 0, io, 0) == (s.p, Some(0), 1);
    assert [op][1..] == [];
    assert Run(s, c, [op]) == Step(s, c, op);
  }

  /**
   A queue that waits with no timer is watched again by the next accepted request, whose timer is set
   because pqbuffer_pending is, and by nothing else.
   */
  lemma Rewatched(s: State, c: Config, op: Op)
    requires Inv(s, c) && !s.aborted && Good(s) && !Watched(s) && !Step(s, c, op).aborted
    ensures Watched(Step(s, c, op)) <==> op.SendOp? && |s.q.request| + |s.q.reply| < c.countMax
  {
    match op
    case SendOp(owner, hasCb, io) =>
      if |s.q.request| + |s.q.reply| < c.countMax { EnqueueKeeps(s.q, c, owner, hasCb); }
    case ReadOp(i, done) =>
      if i < s.p.live && s.p.clients[i].req.Some? && done && s.p.clients[i].busy {
        var id := s.p.clients[i].req.value;
        assert id in s.q.reply && SlotFits(s.q, id);
        ShorterWithout(s.q.request, id);
      }
    case _ =>
  }

  // ---- which assertions fail ----

  predicate Usable(c: Client) { c.online && !c.busy && c.req.None? }

  // EvAIOPQSendReq grabs a client that cannot take the request.
  predicate BadSend(s: State, c: Config, io: Io)
    requires Good(s)
  {
    && |s.q.request| + |s.q.reply| < c.countMax && !s.q.pending
    && var r := Search(s.p, 0, c, io, 0); r.1.Some? && !Usable(r.0.clients[r.1.value])
  }

  // EvAIOPQBufferDispatch does, or has a canceled request without a callback that it must call.
  predicate BadHead(s: State, c: Config, io: Io, k: nat)
    requires Good(s)
  {
    s.q.request != [] &&
    var r, q := Search(s.p, 0, c, io, k), s.q.slots[s.q.request[0]];
    r.1.Some? && if q.cancelled then c.canceledNotify && !q.hasCb else !Usable(r.0.clients[r.1.value])
  }

  // One of the dispatches of a timer event does.
  predicate BadWalk(s: State, c: Config, io: Io, k: nat, j: nat)
    requires Sound(s, c) && !s.aborted
    decreases |s.q.request|
  {
    SoundIsGood(s, c);
    DispatchKeeps(s, c, io, k, j);
    var d := Dispatch(s, c, io, k, j);
    BadHead(s, c, io, k) || (d.1 && BadWalk(d.0, c, io, d.2, d.3))
  }

  predicate Aborts(s: State, c: Config, op: Op)
    requires Inv(s, c) && !s.aborted
  {
    SoundIsGood(s, c);
    match op
    case SendOp(_, _, io) => BadSend(s, c, io)
    case CancelReqOp(id) => id >= |s.q.slots| || (id >= 0 && (!s.q.slots[id].inUse || s.q.slots[id].cancelled))
    case TickOp(io) => s.q.timerArmed && (Unarmed(s, c); BadWalk(s.(q := s.q.(timerArmed := false)), c, io, 0, 0))
    case ReadOp(i, done) => i < s.p.live && done && s.p.clients[i].req.Some? && !s.p.clients[i].busy
    case _ => false
  }

  lemma Unarmed(s: State, c: Config)
    requires Inv(s, c)
    ensures Sound(s.(q := s.q.(timerArmed := false)), c)
  {
    SameLists(s.q, s.q.(timerArmed := false));
  }

  lemma SendAborts(s: State, c: Config, owner: int, hasCb: bool, io: Io)
    requires Inv(s, c) && !s.aborted && Good(s)
    ensures SendReq(s, c, owner, hasCb, io).aborted <==> BadSend(s, c, io)
  {
    if |s.q.request| + |s.q.reply| < c.countMax {
      EnqueueKeeps(s.q, c, owner, hasCb);
      SearchKeeps(s.p, 0, c, io, 0);
    }
  }

  lemma HeadAborts(s: State, c: Config, io: Io, k: nat, j: nat)
    requires Sound(s, c) && Good(s) && !s.aborted
    ensures Dispatch(s, c, io, k, j).0.aborted <==> BadHead(s, c, io, k)
  {
    SearchKeeps(s.p, 0, c, io, k);
  }

  lemma {:induction false} WalkAborts(s: State, c: Config, io: Io, k: nat, j: nat)
    requires Sound(s, c) && !s.aborted
    ensures TickLoop(s, c, io, k, j).aborted <==> BadWalk(s, c, io, k, j)
    decreases |s.q.request|
  {
    SoundIsGood(s, c);
    DispatchKeeps(s, c, io, k, j);
    HeadAborts(s, c, io, k, j);
    var d := Dispatch(s, c, io, k, j);
    if d.1 { WalkAborts(d.0, c, io, d.2, d.3); }
  }

  /** For every call and event, exactly when it fails an assertion. */
  lemma StepAborts(s: State, c: Config, op: Op)
    requires Inv(s, c) && !s.aborted
    ensures Step(s, c, op).aborted <==> Aborts(s, c, op)
  {
    SoundIsGood(s, c);
    match op
    case SendOp(owner, hasCb, io) => SendAborts(s, c, owner, hasCb, io);
    case TickOp(io) =>
      var t := s.(q := s.q.(timerArmed := false));
      Unarmed(s, c);
      if s.q.request != [] { WalkAborts(t, c, io, 0, 0); }
    case _ =>
  }

  // ---- runs without a failed assertion ----

  // No client is left with a request but not busy.
  predicate NoStale(p: ClientPool) { forall i :: 0 <= i < |p.clients| && p.clients[i].req.Some? ==> p.clients[i].busy }

  // A request that may have to be notified when canceled has a callback.
  predicate Callable(q: Queue, c: Config)
    requires GoodSlots(q)
  {
    c.canceledNotify ==> forall k :: 0 <= k < |q.request| ==> q.slots[q.request[k]].hasCb
  }

  // A client that answers Free is marked online.
  predicate Honest(p: ClientPool, c: Config, io: Io, k: nat)
    requires p.live <= |p.clients|
  {
    var r := Search(p, 0, c, io, k);
    r.1.Some? ==> r.0.clients[r.1.value].online
  }

  predicate HonestWalk(s: State, c: Config, io: Io, k: nat, j: nat)
    requires Sound(s, c) && !s.aborted
    decreases |s.q.request|
  {
    SoundIsGood(s, c);
    DispatchKeeps(s, c, io, k, j);
    var d := Dispatch(s, c, io, k, j);
    Honest(s.p, c, io, k) && (d.1 ==> HonestWalk(d.0, c, io, d.2, d.3))
  }

  // Connections are only lost without a request, Free clients are online, requests have callbacks where
  // they need them, and only requests that are waiting and not yet canceled are canceled by their number.
  predicate Gentle(s: State, c: Config, op: Op)
    requires Inv(s, c) && !s.aborted
  {
    SoundIsGood(s, c);
    match op
    case SendOp(_, hasCb, io) => (c.canceledNotify ==> hasCb) && Honest(s.p, c, io, 0)
    case CancelOwnerOp(_) => true
    case CancelReqOp(id) => id < 0 || (id < |s.q.slots| && s.q.slots[id].inUse && !s.q.slots[id].cancelled)
    case TickOp(io) => Unarmed(s, c); HonestWalk(s.(q := s.q.(timerArmed := false)), c, io, 0, 0)
    case ReadOp(_, _) => true
    case CloseOp(i) => i < s.p.live ==> s.p.clients[i].req.None?
    case HealthOp(lost) => forall i :: 0 <= i < s.p.live && lost(i) ==> s.p.clients[i].req.None?
    case DecreaseOp(_) => true
  }

  lemma {:induction false} GrowFresh(p: ClientPool, n: nat, max: nat, io: Io, k: nat)
    requires p.live <= |p.clients| && NoStale(p) && forall i :: p.live <= i < |p.clients| ==> p.clients[i].req.None?
    ensures var r := Grow(p, n, max, io, k).0;
            NoStale(r) && forall i :: r.live <= i < |r.clients| ==> r.clients[i].req.None?
    decreases n
  {
    if n > 0 && p.live < max { GrowFresh(Connect(p, io.poll(k)), n - 1, max, io, k + 1); }
  }

  lemma {:induction false} ScanFresh(p: ClientPool, i: nat, io: Io, k: nat)
    requires i <= p.live <= |p.clients| && NoStale(p)
    requires forall n :: p.live <= n < |p.clients| ==> p.clients[n].req.None?
    ensures var r := Scan(p, i, io, k).0;
            NoStale(r) && r.live == p.live && forall n :: r.live <= n < |r.clients| ==> r.clients[n].req.None?
    decreases p.live - i
  {
    if i < p.live && !p.clients[i].busy {
      match io.poll(k)
      case Lost => ScanFresh(MarkOffline(p, i), i + 1, io, k + 1);
      case Occupied => ScanFresh(p, i + 1, io, k + 1);
      case Free =>
    } else if i < p.live {
      ScanFresh(p, i + 1, io, k);
    }
  }

  // The clients behind the live ones are offline, so not busy.
  lemma SpareFresh(p: ClientPool)
    requires PoolOk(p) && NoStale(p)
    ensures forall i :: p.live <= i < |p.clients| ==> p.clients[i].req.None?
  {}

  lemma {:induction false} SearchFresh(p: ClientPool, retry: nat, c: Config, io: Io, k: nat)
    requires p.live <= |p.clients| && retry <= 2 && NoStale(p)
    requires forall i :: p.live <= i < |p.clients| ==> p.clients[i].req.None?
    ensures NoStale(Search(p, retry, c, io, k).0)
    decreases 2 - retry
  {
    if retry <= 1 {
      ScanFresh(p, 0, io, k);
      var r := Scan(p, 0, io, k);
      if r.1.None? && r.0.live < c.max {
        GrowFresh(r.0, c.grow, c.max, io, r.2);
        var g := Grow(r.0, c.grow, c.max, io, r.2);
        SearchFresh(g.0, retry + 1, c, io, g.1);
      }
    }
  }

  // A client found is usable then.
  lemma FoundUsable(p: ClientPool, c: Config, io: Io, k: nat)
    requires PoolOk(p) && NoStale(p) && Honest(p, c, io, k)
    ensures var r := Search(p, 0, c, io, k); NoStale(r.0) && (r.1.Some? ==> Usable(r.0.clients[r.1.value]))
  {
    SearchKeeps(p, 0, c, io, k);
    SpareFresh(p);
    SearchFresh(p, 0, c, io, k);
  }

  // What a gentle run keeps beside the invariant.
  predicate Calm(s: State, c: Config)
    requires GoodSlots(s.q)
  {
    NoStale(s.p) && Callable(s.q, c)
  }

  lemma SendCalm(s: State, c: Config, owner: int, hasCb: bool, io: Io)
    requires Inv(s, c) && !s.aborted && Good(s) && Calm(s, c) && (c.canceledNotify ==> hasCb) && Honest(s.p, c, io, 0)
    ensures var t := SendReq(s, c, owner, hasCb, io); !t.aborted && GoodSlots(t.q) && Calm(t, c)
  {
    SendAborts(s, c, owner, hasCb, io);
    FoundUsable(s.p, c, io, 0);
    SendReqKeeps(s, c, owner, hasCb, io);
    if |s.q.request| + |s.q.reply| < c.countMax {
      EnqueueKeeps(s.q, c, owner, hasCb);
      EnqueueCallable(s.q, c, owner, hasCb);
      SendRequests(s, c, owner, hasCb, io);
    }
  }

  lemma EnqueueCallable(q: Queue, c: Config, owner: int, hasCb: bool)
    requires QueueOk(q, c) && q.free != [] && Callable(q, c) && (c.canceledNotify ==> hasCb)
    ensures GoodSlots(Enqueue(q, owner, hasCb)) && Callable(Enqueue(q, owner, hasCb), c)
  {
    var id := q.free[|q.free| - 1];
    assert id in q.free && SlotFits(q, id);
    assert forall k :: 0 <= k < |q.request| ==> q.request[k] in q.request;
  }

  // Sending takes the new request from the list again, or leaves the list.
  lemma SendRequests(s: State, c: Config, owner: int, hasCb: bool, io: Io)
    requires Inv(s, c) && !s.aborted && Good(s) && |s.q.request| + |s.q.reply| < c.countMax && s.q.free != []
    requires !SendReq(s, c, owner, hasCb, io).aborted
    ensures var t, q := SendReq(s, c, owner, hasCb, io), Enqueue(s.q, owner, hasCb);
            (t.q.request == q.request && t.q.slots == q.slots) || t.q.request == []
  {}

  lemma DestroyCallable(q: Queue, c: Config, t: Queue)
    requires GoodSlots(q) && Callable(q, c) && q.request != [] && GoodSlots(t) && t.request == q.request[1..]
    requires |t.slots| == |q.slots| && forall k :: 0 <= k < |q.slots| ==> t.slots[k].hasCb == q.slots[k].hasCb
    ensures Callable(t, c)
  {}

  lemma DispatchCalm(s: State, c: Config, io: Io, k: nat, j: nat)
    requires Sound(s, c) && Good(s) && !s.aborted && Calm(s, c) && Honest(s.p, c, io, k)
    ensures var d := Dispatch(s, c, io, k, j).0; !d.aborted && GoodSlots(d.q) && Calm(d, c)
  {
    HeadAborts(s, c, io, k, j);
    FoundUsable(s.p, c, io, k);
    DispatchKeeps(s, c, io, k, j);
    var d := Dispatch(s, c, io, k, j);
    if d.1 {
      WithoutFirst(s.q.request);
      DestroyCallable(s.q, c, d.0.q);
    }
  }

  lemma {:induction false} WalkCalm(s: State, c: Config, io: Io, k: nat, j: nat)
    requires Sound(s, c) && !s.aborted && Calm(s, c) && HonestWalk(s, c, io, k, j)
    ensures var t := TickLoop(s, c, io, k, j); !t.aborted && GoodSlots(t.q) && Calm(t, c)
    decreases |s.q.request|
  {
    SoundIsGood(s, c);
    DispatchKeeps(s, c, io, k, j);
    DispatchCalm(s, c, io, k, j);
    var d := Dispatch(s, c, io, k, j);
    if d.1 { WalkCalm(d.0, c, io, d.2, d.3); }
  }

  lemma ReadCalm(s: State, c: Config, i: nat, done: bool)
    requires Inv(s, c) && Good(s) && !s.aborted && Calm(s, c) && i < |s.p.clients|
    ensures var t := Read(s, i, done); !t.aborted && GoodSlots(t.q) && Calm(t, c)
  {
    var cl := s.p.clients[i];
    if cl.req.Some? && done {
      var id := cl.req.value;
      ReadKeeps(s, c, i, done);
      assert id in s.q.reply && SlotFits(s.q, id);
      ShorterWithout(s.q.request, id);
    }
  }

  lemma {:induction false} HealthCalm(p: ClientPool, i: nat, lost: nat -> bool)
    requires i <= p.live <= |p.clients| && NoStale(p)
    requires forall k :: i <= k < p.live && lost(k) ==> p.clients[k].req.None?
    ensures NoStale(Health(p, i, lost))
    decreases p.live - i
  {
    if i < p.live { HealthCalm(if lost(i) then MarkOffline(p, i) else MarkOnline(p, i), i + 1, lost); }
  }

  /** A gentle step fails no assertion and leaves no client behind with a request. */
  lemma GentleStep(s: State, c: Config, op: Op)
    requires Inv(s, c) && !s.aborted && Calm(s, c) && Gentle(s, c, op)
    ensures !Step(s, c, op).aborted && Inv(Step(s, c, op), c) && Calm(Step(s, c, op), c)
  {
    StepKeeps(s, c, op);
    SoundIsGood(s, c);
    match op
    case SendOp(owner, hasCb, io) => SendCalm(s, c, owner, hasCb, io);
    case TickOp(io) =>
      if s.q.timerArmed && s.q.request != [] {
        Unarmed(s, c);
        WalkCalm(s.(q := s.q.(timerArmed := false)), c, io, 0, 0);
      }
    case ReadOp(i, done) => if i < s.p.live { ReadCalm(s, c, i, done); }
    case HealthOp(lost) => HealthCalm(s.p, 0, lost);
    case _ =>
  }

  predicate GentleRun(s: State, c: Config, ops: seq<Op>)
    requires s.aborted || Inv(s, c)
    decreases ops
  {
    s.aborted || ops == [] ||
    (Gentle(s, c, ops[0]) && (StepKeeps(s, c, ops[0]); GentleRun(Step(s, c, ops[0]), c, ops[1..])))
  }

  lemma {:induction false} GentleRunHolds(s: State, c: Config, ops: seq<Op>)
    requires Inv(s, c) && !s.aborted && Calm(s, c) && GentleRun(s, c, ops)
    ensures !Run(s, c, ops).aborted
    decreases ops
  {
    if ops != [] {
      GentleStep(s, c, ops[0]);
      GentleRunHolds(Step(s, c, ops[0]), c, ops[1..]);
    }
  }

  /** A run that loses no connection with a request on it, and is gentle otherwise, fails no assertion. */
  lemma GentleRunsAreSound(c: Config, io: Io, ops: seq<Op>)
    ensures Inv(Init(c, io), c) && (GentleRun(Init(c, io), c, ops) ==> !Run(Init(c, io), c, ops).aborted)
  {
    InitHolds(c, io);
    var p := ClientPool([], 0, 0, 0);
    GrowFresh(p, c.begin, c.begin, io, 0);
    if GentleRun(Init(c, io), c, ops) { GentleRunHolds(Init(c, io), c, ops); }
  }

  /** A lost connection leaves its request behind, and the next reply on it fails the assertion. */
  lemma LostRequest(s: State, c: Config, i: nat)
    requires Inv(s, c) && !s.aborted && i < s.p.live && s.p.clients[i].busy
    ensures var t := Step(s, c, CloseOp(i));
            !t.aborted && Inv(t, c) && Step(t, c, ReadOp(i, true)).aborted
  {
    StepKeeps(s, c, CloseOp(i));
  }

  /** Or the next query: a run of one connection that is lost while it is busy, and answers Free again. */
  lemma StaleRun(c: Config, io: Io)
    requires c.begin == 1 && c.countMax > 1 && io.poll(0) == Free && io.send(0)
    ensures Inv(Init(c, io), c)
    ensures Run(Init(c, io), c, [SendOp(0, true, io), CloseOp(0), SendOp(0, true, io)]).aborted
  {
    InitHolds(c, io);
    var s, send, close := Init(c, io), SendOp(0, true, io), CloseOp(0);
    assert Grow(ClientPool([], 0, 0, 0), 1, 1, io, 0).0 == Connect(ClientPool([], 0, 0, 0), Free);
    assert s.p.live == 1 && s.p.clients == [Client(true, false, None)];
    assert Scan(s.p, 0, io, 0) == (s.p, Some(0), 1);
    StepKeeps(s, c, send);
    var t := Step(s, c, send);
    assert t.p.clients == [Client(true, true, Some(0))] && t.q.reply == [0] && t.q.request == [];
    StepKeeps(t, c, close);
    var u := Step(t, c, close);
    assert u.p.clients == [Client(false, false, Some(0))];
    assert Scan(u.p, 0, io, 0) == (u.p, Some(0), 1);
    StepAborts(u, c, send);
    RunOfThree(s, c, send, close, send);
  }

  lemma RunOfThree(s: State, c: Config, a: Op, b: Op, d: Op)
    requires s.aborted || Inv(s, c)
    requires Step(s, c, a).aborted || Inv(Step(s, c, a), c)
    requires var t := Step(s, c, a); Step(t, c, b).aborted || Inv(Step(t, c, b), c)
    ensures Run(s, c, [a, b, d]) == Step(Step(Step(s, c, a), c, b), c, d)
  {
    var none: seq<Op> := [];
    assert [a, b, d][1..] == [b, d] && [b, d][1..] == [d] && [d][1..] == none;
    var t := Step(s, c, a);
    var u := Step(t, c, b);
    StepKeepsOrAborts(u, c, d);
    assert Run(Step(u, c, d), c, none) == Step(u, c, d);
    assert Run(u, c, [d]) == Step(u, c, d);
    assert Run(t, c, [b, d]) == Step(u, c, d);
  }

  lemma StepKeepsOrAborts(s: State, c: Config, op: Op)
    requires s.aborted || Inv(s, c)
    ensures Step(s, c, op).aborted || Inv(Step(s, c, op), c)
  {
    if !s.aborted { StepKeeps(s, c, op); }
  }

  // ---- callbacks that call back ----

  // What a callback may do: send and cancel.
  predicate Calls(ops: seq<Op>) {
    forall k :: 0 <= k < |ops| ==> ops[k].SendOp? || ops[k].CancelOwnerOp? || ops[k].CancelReqOp?
  }

  lemma CallKeepsClient(s: State, c: Config, op: Op, i: nat)
    requires Inv(s, c) && !s.aborted && (op.SendOp? || op.CancelOwnerOp? || op.CancelReqOp?)
    requires i < s.p.live && s.p.clients[i].busy
    ensures var t := Step(s, c, op);
            t.aborted || (i < t.p.live <= |t.p.clients| && t.p.clients[i].busy
                          && t.p.clients[i].req == s.p.clients[i].req)
  {
    if op.SendOp? {
      SoundIsGood(s, c);
      SendKeepsClient(s, c, op.owner, op.hasCb, op.io, i);
    }
  }

  lemma SendKeepsClient(s: State, c: Config, owner: int, hasCb: bool, io: Io, i: nat)
    requires Good(s) && !s.aborted && PoolOk(s.p) && i < s.p.live && s.p.clients[i].busy
    ensures var t := SendReq(s, c, owner, hasCb, io);
            t.aborted || (i < t.p.live <= |t.p.clients| && t.p.clients[i].busy
                          && t.p.clients[i].req == s.p.clients[i].req)
  {
    SearchKeeps(s.p, 0, c, io, 0);
    BusyStays(s.p, 0, c, io, 0, i);
  }

  // Polling leaves busy clients alone.
  lemma {:induction false} BusyStays(p: ClientPool, retry: nat, c: Config, io: Io, k: nat, i: nat)
    requires p.live <= |p.clients| && retry <= 2 && i < p.live && p.clients[i].busy
    ensures var r := Search(p, retry, c, io, k);
            i < r.0.live && r.0.clients[i].busy && r.0.clients[i].req == p.clients[i].req
    decreases 2 - retry
  {
    if retry <= 1 {
      ScanLeavesBusy(p, 0, io, k, i);
      var r := Scan(p, 0, io, k);
      if r.1.None? && r.0.live < c.max {
        GrowLeaves(r.0, c.grow, c.max, io, r.2, i);
        var g := Grow(r.0, c.grow, c.max, io, r.2);
        BusyStays(g.0, retry + 1, c, io, g.1, i);
      }
    }
  }

  lemma {:induction false} ScanLeavesBusy(p: ClientPool, n: nat, io: Io, k: nat, i: nat)
    requires n <= p.live <= |p.clients| && i < p.live && p.clients[i].busy
    ensures var r := Scan(p, n, io, k).0; i < r.live <= |r.clients| && r.clients[i] == p.clients[i]
    decreases p.live - n
  {
    if n < p.live && !p.clients[n].busy {
      match io.poll(k)
      case Lost => ScanLeavesBusy(MarkOffline(p, n), n + 1, io, k + 1, i);
      case Occupied => ScanLeavesBusy(p, n + 1, io, k + 1, i);
      case Free =>
    } else if n < p.live {
      ScanLeavesBusy(p, n + 1, io, k, i);
    }
  }

  lemma {:induction false} GrowLeaves(p: ClientPool, n: nat, max: nat, io: Io, k: nat, i: nat)
    requires p.live <= |p.clients| && i < p.live
    ensures var r := Grow(p, n, max, io, k).0; i < r.live <= |r.clients| && r.clients[i] == p.clients[i]
    decreases n
  {
    if n > 0 && p.live < max { GrowLeaves(Connect(p, io.poll(k)), n - 1, max, io, k + 1, i); }
  }

  /**
   The callback of EvAIOPQClientEventRead is called before anything is changed, and what it does leaves
   the client busy with the same request: so it is as if it had been done just before the event, and the
   clean-up still finds the reply it came for.
   */
  lemma {:induction false} CallbackInRead(s: State, c: Config, i: nat, calls: seq<Op>)
    requires Inv(s, c) && !s.aborted && i < s.p.live && s.p.clients[i].busy && Calls(calls)
    ensures var t := Run(s, c, calls);
            t.aborted || (i < t.p.live <= |t.p.clients| && t.p.clients[i].busy
                          && t.p.clients[i].req == s.p.clients[i].req
                          && !Step(t, c, ReadOp(i, true)).aborted && Inv(Step(t, c, ReadOp(i, true)), c))
    decreases calls
  {
    if calls == [] {
      StepKeeps(s, c, ReadOp(i, true));
      StepAborts(s, c, ReadOp(i, true));
    } else {
      CallKeepsClient(s, c, calls[0], i);
      StepKeeps(s, c, calls[0]);
      var t := Step(s, c, calls[0]);
      if t.aborted {
        AbortedRun(t, c, calls[1..]);
      } else {
        CallbackInRead(t, c, i, calls[1..]);
      }
    }
  }

  lemma CallKeepsHead(s: State, c: Config, op: Op)
    requires Inv(s, c) && !s.aborted && (op.SendOp? || op.CancelOwnerOp? || op.CancelReqOp?)
    requires s.q.pending && s.q.request != []
    ensures var t := Step(s, c, op);
            t.aborted || (t.p == s.p && t.q.pending && t.q.request != [] && t.q.request[0] == s.q.request[0])
  {}

  /**
   The callback that EvAIOPQBufferDispatch makes for a canceled request comes while pqbuffer_pending is set.
   What it does, sending included, leaves the request at the head of its list and the connections as they
   are, and does not look at the counters changed before it: so it is as if it had been done just before,
   and the clean-up keeps the invariant.
   */
  lemma {:induction false} CallbackInDrop(s: State, c: Config, i: nat, calls: seq<Op>)
    requires Inv(s, c) && !s.aborted && s.q.pending && s.q.request != [] && Calls(calls)
    requires i < |s.p.clients| && !s.p.clients[i].busy
    ensures var t, id := Run(s, c, calls), s.q.request[0];
            t.aborted || (t.p == s.p && t.q.pending && t.q.request != [] && t.q.request[0] == id < |t.q.slots|
                          && (Drop(t, c, i, id).aborted || Inv(Drop(t, c, i, id), c)))
    decreases calls
  {
    if calls == [] {
      DropKeeps(s, c, i, s.q.request[0]);
    } else {
      CallKeepsHead(s, c, calls[0]);
      StepKeeps(s, c, calls[0]);
      var t := Step(s, c, calls[0]);
      if t.aborted {
        AbortedRun(t, c, calls[1..]);
      } else {
        CallbackInDrop(t, c, i, calls[1..]);
      }
    }
  }

  lemma {:induction false} AbortedRun(s: State, c: Config, ops: seq<Op>)
    requires s.aborted
    ensures Run(s, c, ops) == s
    decreases ops
  {
    if ops != [] { AbortedRun(Step(s, c, ops[0]), c, ops[1..]); }
  }

  // ---- the dispatcher itself ----

  class Base {
    const conf: Config
    var slots: seq<Request>
    var free: seq<nat>      // grabbed and freed at its end
    var request: seq<nat>
    var reply: seq<nat>
    var total: nat
    var cur: int
    var success: nat
    var cancelNotified: nat
    var cancel: nat
    var pending: bool       // flags.pqbuffer_pending
    var timerArmed: bool
    var clients: seq<Client>
    var live: nat
    var ready: int
    var busyCount: int
    var aborted: bool       // an assertion has failed
    ghost var handed: seq<nat>
    ghost var ends: Ends

    ghost function Q(): Queue
      reads this
    {
      Queue(slots, free, request, reply, total, cur, success, cancelNotified, cancel, pending, timerArmed,
            handed, ends)
    }

    ghost function P(): ClientPool
      reads this
    {
      ClientPool(clients, live, ready, busyCount)
    }

    ghost function Now(): State
      reads this
    {
      State(Q(), P(), aborted)
    }

    // Unless an assertion has failed, the invariant holds; Now() is what the rest is stated in.
    ghost predicate Valid()
      reads this
    {
      aborted || Inv(Now(), conf)
    }

    constructor (conf: Config, io: Io)
      ensures this.conf == conf && Now() == Init(conf, io) && Valid()
    {
      this.conf := conf;
      var n := conf.countMax + 2;
      slots := seq(n, _ => Request(false, false, false, 0, false, 0));
      free := seq(n, k requires 0 <= k < n => n - 1 - k);
      request, reply, total, cur, success, cancelNotified, cancel := [], [], 0, 0, 0, 0, 0;
      pending, timerArmed, clients, live, ready, busyCount, aborted := false, false, [], 0, 0, 0, false;
      handed, ends := [], Ends([], [], []);
      new;
      assert P() == ClientPool([], 0, 0, 0) && Q() == EmptyQueue(n);
      var k := PoolInitN(conf.begin, conf.begin, io, 0);
      InitHolds(conf, io);
    }

    // The macro AIOPQCLIENT_MARK_ONLINE.
    method GoOnline(i: nat)
      requires i < |clients|
      modifies this`clients, this`ready
      ensures P() == MarkOnline(old(P()), i)
    {
      if !clients[i].online {
        clients := clients[i := clients[i].(online := true)];
        ready := ready + 1;
      }
    }

    // The macro AIOPQCLIENT_MARK_OFFLINE, all that EvAIOPQClientEventClose does to the counters and flags.
    method GoOffline(i: nat)
      requires i < |clients|
      modifies this`clients, this`ready
      ensures P() == MarkOffline(old(P()), i)
    {
      if clients[i].online {
        ready := ready - 1;
        clients := clients[i := clients[i].(online := false, busy := false)];
      }
    }

    /** EvAIOPQClientConnect for the next number. */
    method ClientConnect(answer: Poll)
      requires live <= |clients|
      modifies this`clients, this`ready, this`live
      ensures P() == Connect(old(P()), answer)
    {
      if live == |clients| {
        clients := clients + [NEW];
      }
      if answer.Lost? {
        GoOffline(live);
      } else if answer.Free? {
        GoOnline(live);
      }
      live := live + 1;
    }

    /** EvAIOPQBaseClientPoolInitN. */
    method PoolInitN(n: nat, max: nat, io: Io, k0: nat) returns (k: nat)
      requires live <= |clients|
      modifies this`clients, this`ready, this`live
      ensures P() == Grow(old(P()), n, max, io, k0).0 && k == Grow(old(P()), n, max, io, k0).1
    {
      k := k0;
      var end := live + n;
      if end > max {
        end := max;
      }
      ghost var left := n;
      while live < end
        invariant live <= |clients| && (live < end ==> end <= live + left && end <= max)
        invariant live >= end ==> left == 0 || live >= max
        invariant live < end ==> end == if live + left > max then max else live + left
        invariant Grow(P(), left, max, io, k) == Grow(old(P()), n, max, io, k0)
        decreases end - live
      {
        ClientConnect(io.poll(k));
        k := k + 1;
        left := left - 1;
      }
    }

    // The search loop of EvAIOPQClientGrabFree.
    method ScanClients(io: Io, k0: nat) returns (client: Option<nat>, k: nat)
      requires live <= |clients|
      modifies this`clients, this`ready
      ensures (P(), client, k) == Scan(old(P()), 0, io, k0)
    {
      client, k := None, k0;
      var i := 0;
      while i < live
        invariant i <= live == old(live) <= |clients|
        invariant Scan(P(), i, io, k) == Scan(old(P()), 0, io, k0)
      {
        if !clients[i].busy {
          var answer := io.poll(k);
          k := k + 1;
          if answer.Lost? {
            GoOffline(i);
          } else if answer.Free? {
            client := Some(i);
            return;
          }
        }
        i := i + 1;
      }
    }

    /** EvAIOPQClientGrabFree. */
    method GrabFree(outstanding: bool, io: Io, k0: nat) returns (client: Option<nat>, k: nat)
      requires live <= |clients|
      modifies this`clients, this`ready, this`live
      ensures (P(), client, k) ==
              if !outstanding && pending then (old(P()), None, k0) else Search(old(P()), 0, conf, io, k0)
    {
      client, k := None, k0;
      if !outstanding && pending {
        return;
      }
      var retry := 0;
      while retry <= 1
        invariant 0 <= retry <= 2 && live <= |clients|
        invariant Search(P(), retry, conf, io, k) == Search(old(P()), 0, conf, io, k0)
      {
        client, k := ScanClients(io, k);
        if client.Some? || live >= conf.max {
          return;
        }
        k := PoolInitN(conf.grow, conf.max, io, k);
        retry := retry + 1;
      }
      client := None;
    }

    // The end of the two sending functions: the assertions, PQsendQuery and what follows a success.
    method TrySend(i: nat, id: nat, ok: bool) returns (sent: bool)
      requires i < |clients| && id < |slots|
      modifies this
      ensures (Now(), sent) == Try(old(Now()), i, id, ok)
    {
      if !clients[i].online || clients[i].busy || clients[i].req.Some? {
        aborted := true;
        return false;
      }
      if !ok {
        return false;
      }
      MarkSent(i, id);
      return true;
    }

    method MarkSent(i: nat, id: nat)
      requires i < |clients| && id < |slots|
      modifies this`handed, this`request, this`reply, this`slots, this`clients, this`busyCount
      ensures Now() == Sent(old(Now()), i, id)
    {
      MoveToReply(id);
      Attach(i, id);
    }

    method MoveToReply(id: nat)
      requires id < |slots|
      modifies this`handed, this`request, this`reply, this`slots
      ensures Q() == Moved(old(Q()), id)
    {
      handed := handed + [slots[id].num];
      request := Without(request, id);
      reply := [id] + reply;
      slots := slots[id := slots[id].(sent := true)];
    }

    method Attach(i: nat, id: nat)
      requires i < |clients|
      modifies this`clients, this`busyCount
      ensures P() == Busied(old(P()), i, id)
    {
      clients := clients[i := clients[i].(busy := true, req := Some(id))];
      busyCount := busyCount + 1;
    }

    /** EvAIOPQSendReq: the slot of the new request, if there was room for it. */
    method SendRequest(owner: int, hasCb: bool, io: Io) returns (r: Option<nat>)
      requires Valid() && !aborted
      modifies this
      ensures Now() == Step(old(Now()), conf, SendOp(owner, hasCb, io)) && Valid()
    {
      StepKeeps(Now(), conf, SendOp(owner, hasCb, io));
      SoundIsGood(Now(), conf);
      if |request| + |reply| >= conf.countMax || free == [] {
        return None;
      }
      var id := free[|free| - 1];
      r := Some(id);
      if slots[id].inUse {
        aborted := true;
        return;
      }
      Append(id, owner, hasCb);
      SendAtOnce(id, io);
    }

    method SendAtOnce(id: nat, io: Io)
      requires live <= |clients| && id < |slots| && !aborted
      modifies this
      ensures Now() == SendNow(old(Now()), conf, id, io)
    {
      var client, k := GrabFree(false, io, 0);
      if client.None? {
        timerArmed, pending := true, true;
        return;
      }
      var sent := TrySend(client.value, id, io.send(0));
      if !sent && !aborted {
        pending := true;
      }
    }

    // EvAIOPQRequestNew and the two counters.
    method Append(id: nat, owner: int, hasCb: bool)
      requires GoodSlots(Q()) && free != [] && id == free[|free| - 1]
      modifies this`slots, this`free, this`request, this`total, this`cur
      ensures Q() == Enqueue(old(Q()), owner, hasCb)
    {
      slots := slots[id := Request(true, false, false, owner, hasCb, total)];
      free := free[..|free| - 1];
      request := request + [id];
      cur := cur + 1;
      total := total + 1;
    }

    // EvAIOPQRequestDestroy.
    method RequestDestroy(id: nat)
      requires id < |slots|
      modifies this`slots, this`free, this`request, this`reply
      ensures Q() == Destroy(old(Q()), id)
    {
      slots := slots[id := slots[id].(inUse := false)];
      free := free + [id];
      request, reply := Without(request, id), Without(reply, id);
    }

    /** EvAIOPQBufferDispatch. */
    method BufferDispatch(io: Io, k0: nat, j0: nat) returns (more: bool, k: nat, j: nat)
      requires Good(Now()) && !aborted
      modifies this
      ensures (Now(), more, k, j) == Dispatch(old(Now()), conf, io, k0, j0)
    {
      more, k, j := false, k0, j0;
      if request == [] {
        return;
      }
      var id := request[0];
      var client;
      client, k := GrabFree(true, io, k);
      if client.None? {
        return;
      }
      if slots[id].cancelled {
        more := DropCanceled(client.value, id);
        return;
      }
      more := TrySend(client.value, id, io.send(j));
      j := j + 1;
    }

    method DropCanceled(i: nat, id: nat) returns (ok: bool)
      requires i < |clients| && id < |slots| && !aborted
      modifies this
      ensures Now() == Drop(old(Now()), conf, i, id) && ok == !aborted
    {
      if conf.canceledNotify && !slots[id].hasCb {
        aborted := true;
        return false;
      }
      cancel := cancel + 1;
      ends := Dropped(ends, slots[id].num);
      cur := cur - 1;
      if conf.canceledNotify {
        clients := clients[i := clients[i].(req := None)];
      }
      RequestDestroy(id);
      return true;
    }

    /** EvAIOPQBufferedRequestTimerTick. */
    method TimerTick(io: Io)
      requires Valid() && !aborted && timerArmed
      modifies this
      ensures Now() == Step(old(Now()), conf, TickOp(io)) && Valid()
    {
      StepKeeps(Now(), conf, TickOp(io));
      SameLists(Q(), Q().(timerArmed := false));
      timerArmed := false;
      if request == [] {
        pending := false;
        return;
      }
      ghost var goal := TickLoop(Now(), conf, io, 0, 0);
      var more, k, j := true, 0, 0;
      while more
        invariant more ==> Sound(Now(), conf) && !aborted && TickLoop(Now(), conf, io, k, j) == goal
        invariant !more ==> Now() == goal
        decreases more, |request|
      {
        SoundIsGood(Now(), conf);
        DispatchKeeps(Now(), conf, io, k, j);
        more, k, j := BufferDispatch(io, k, j);
      }
      timerArmed := true;
    }

    /** EvAIOPQClientEventRead. */
    method EventRead(i: nat, done: bool)
      requires Valid() && !aborted && i < live
      modifies this
      ensures Now() == Step(old(Now()), conf, ReadOp(i, done)) && Valid()
    {
      StepKeeps(Now(), conf, ReadOp(i, done));
      SoundIsGood(Now(), conf);
      if clients[i].req.None? || !done {
        return;
      }
      if !clients[i].busy {
        aborted := true;
        return;
      }
      FinishRead(i);
    }

    method FinishRead(i: nat)
      requires Good(Now()) && i < |clients| && clients[i].req.Some? && clients[i].busy
      modifies this
      ensures Now() == Read(old(Now()), i, true)
    {
      var id := clients[i].req.value;
      Detach(i);
      CountReply(id);
      RequestDestroy(id);
    }

    method Detach(i: nat)
      requires i < |clients|
      modifies this`clients, this`busyCount
      ensures P() == Detached(old(P()), i)
    {
      clients := clients[i := clients[i].(req := None, busy := false)];
      busyCount := busyCount - 1;
    }

    method CountReply(id: nat)
      requires id < |slots|
      modifies this`cur, this`success, this`cancelNotified, this`ends
      ensures var q := old(Q()).(cur := old(cur) - 1);
              Q() == if slots[id].cancelled then
                       q.(cancelNotified := old(cancelNotified) + 1, ends := Notified(old(ends), slots[id].num))
                     else q.(success := old(success) + 1, ends := Answered(old(ends), slots[id].num))
    {
      cur := cur - 1;
      if slots[id].cancelled {
        cancelNotified := cancelNotified + 1;
        ends := Notified(ends, slots[id].num);
      } else {
        success := success + 1;
        ends := Answered(ends, slots[id].num);
      }
    }

    /** EvAIOPQQueryCancelByOwnerID: both walks over the lists. */
    method CancelByOwner(owner: int)
      requires Valid() && !aborted
      modifies this`slots
      ensures Now() == Step(old(Now()), conf, CancelOwnerOp(owner)) && Valid()
    {
      StepKeeps(Now(), conf, CancelOwnerOp(owner));
      CancelAmong(request, owner);
      CancelAmong(reply, owner);
      assert slots == CancelOwner(old(Q()), owner).slots;
    }

    method CancelAmong(ids: seq<nat>, owner: int)
      requires Below(ids, |slots|)
      modifies this`slots
      ensures |slots| == |old(slots)|
      ensures forall k :: 0 <= k < |slots| ==>
                slots[k] == if k in ids && old(slots)[k].owner == owner then Cancelled(old(slots)[k]) else old(slots)[k]
    {
      for n := 0 to |ids|
        invariant |slots| == |old(slots)|
        invariant forall k :: 0 <= k < |slots| ==>
                    slots[k] ==
                    if k in ids[..n] && old(slots)[k].owner == owner then Cancelled(old(slots)[k]) else old(slots)[k]
      {
        assert ids[..n + 1] == ids[..n] + [ids[n]];
        if slots[ids[n]].owner == owner {
          slots := slots[ids[n] := Cancelled(slots[ids[n]])];
        }
      }
      assert ids[..|ids|] == ids;
    }

    /** EvAIOPQClientEventClose, as far as the pool is concerned. */
    method EventClose(i: nat)
      requires Valid() && !aborted && i < live
      modifies this`clients, this`ready
      ensures Now() == Step(old(Now()), conf, CloseOp(i)) && Valid()
    {
      StepKeeps(Now(), conf, CloseOp(i));
      GoOffline(i);
    }

    /** EvAIOPQQueryCancelByReqID. */
    method CancelByReq(id: int)
      requires Valid() && !aborted
      modifies this`slots, this`aborted
      ensures Now() == Step(old(Now()), conf, CancelReqOp(id)) && Valid()
    {
      StepKeeps(Now(), conf, CancelReqOp(id));
      if id < 0 {
        return;
      }
      if id >= |slots| || !slots[id].inUse || slots[id].cancelled {
        aborted := true;
        return;
      }
      slots := slots[id := Cancelled(slots[id])];
    }

    /** EvAIOPQClientCheckConnHealthTimer. */
    method HealthTimer(lost: nat -> bool)
      requires Valid() && !aborted
      modifies this`clients, this`ready
      ensures Now() == Step(old(Now()), conf, HealthOp(lost)) && Valid()
    {
      StepKeeps(Now(), conf, HealthOp(lost));
      var i := 0;
      while i < live
        invariant i <= live <= |clients| && Health(P(), i, lost) == Health(old(P()), 0, lost)
      {
        if lost(i) {
          GoOffline(i);
        } else {
          GoOnline(i);
        }
        i := i + 1;
      }
    }

    /** EvAIOPQCheckDecreasePQCliTimer. */
    method DecreaseTimer(idle: bool)
      requires Valid() && !aborted
      modifies this`clients, this`ready, this`live
      ensures Now() == Step(old(Now()), conf, DecreaseOp(idle)) && Valid()
    {
      StepKeeps(Now(), conf, DecreaseOp(idle));
      if live <= conf.begin || clients[live - 1].busy || !idle {
        return;
      }
      GoOffline(live - 1);
      live := live - 1;
    }
  }
}
