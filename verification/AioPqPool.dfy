/** What polling does to the connections of libbrb_aiopq.c, and that a timer event sends all it can. */
module AioPqPool {
  import opened Options
  import opened SlotLists
  import opened AioPq

  // ---- the search ----

  // How many of the first i clients are polled.
  function Polled(p: ClientPool, i: nat): (n: nat)
    requires i <= |p.clients|
  {
    if i == 0 then 0 else Polled(p, i - 1) + if p.clients[i - 1].busy then 0 else 1
  }

  // What the search of all clients from i on makes of client n, when the first polling is number k.
  function Afterwards(p: ClientPool, n: nat, io: Io, k: nat): Client
    requires n < |p.clients|
  {
    var c := p.clients[n];
    if !c.busy && io.poll(k + Polled(p, n)).Lost? then c.(online := false) else c
  }

  predicate FreeAt(p: ClientPool, n: nat, io: Io, k: nat)
    requires n < |p.clients|
  {
    !p.clients[n].busy && io.poll(k + Polled(p, n)).Free?
  }

  lemma {:induction false} PolledSame(p: ClientPool, q: ClientPool, i: nat)
    requires i <= |p.clients| == |q.clients| && forall n :: 0 <= n < i ==> q.clients[n].busy == p.clients[n].busy
    ensures Polled(q, i) == Polled(p, i)
  {
    if i > 0 { PolledSame(p, q, i - 1); }
  }

  predicate PassedBy(p: ClientPool, q: ClientPool, n: nat, io: Io, k: nat)
    requires n < |p.clients| == |q.clients|
  {
    q.clients[n] == Afterwards(p, n, io, k) && !FreeAt(p, n, io, k)
  }

  // The first clients were already looked at; p is what they were before.
  predicate Scanned(p: ClientPool, q: ClientPool, i: nat, io: Io, k: nat) {
    && i <= p.live == q.live <= |p.clients| == |q.clients|
    && (forall n :: 0 <= n < i ==> PassedBy(p, q, n, io, k))
    && (forall n :: i <= n < |p.clients| ==> q.clients[n] == p.clients[n])
  }

  lemma LostAfterwards(p: ClientPool, q: ClientPool, i: nat, io: Io, k: nat)
    requires i < |p.clients| == |q.clients| && q.clients[i] == p.clients[i] && !p.clients[i].busy
    requires io.poll(k + Polled(p, i)).Lost?
    ensures MarkOffline(q, i).clients[i] == Afterwards(p, i, io, k)
  {}

  lemma ScannedLost(p: ClientPool, q: ClientPool, i: nat, io: Io, k: nat)
    requires Scanned(p, q, i, io, k) && i < p.live && !p.clients[i].busy && io.poll(k + Polled(p, i)).Lost?
    ensures Scanned(p, MarkOffline(q, i), i + 1, io, k)
  {
    var t := MarkOffline(q, i);
    LostAfterwards(p, q, i, io, k);
    forall n | 0 <= n < i ensures PassedBy(p, t, n, io, k) {
      assert PassedBy(p, q, n, io, k) && t.clients[n] == q.clients[n];
    }
  }

  lemma ScannedOn(p: ClientPool, q: ClientPool, i: nat, io: Io, k: nat)
    requires Scanned(p, q, i, io, k) && i < p.live
    requires p.clients[i].busy || io.poll(k + Polled(p, i)).Occupied?
    ensures Scanned(p, q, i + 1, io, k)
  {
    assert PassedBy(p, q, i, io, k);
  }

  lemma {:induction false} ScanFrom(p: ClientPool, q: ClientPool, i: nat, io: Io, k: nat)
    requires Scanned(p, q, i, io, k)
    ensures var r := Scan(q, i, io, k + Polled(p, i));
            && (r.1.None? ==> Scanned(p, r.0, p.live, io, k) && r.2 == k + Polled(p, p.live))
            && (r.1.Some? ==> r.1.value < p.live && Scanned(p, r.0, r.1.value, io, k) && FreeAt(p, r.1.value, io, k)
                              && r.2 == k + Polled(p, r.1.value) + 1)
    decreases p.live - i
  {
    if i < p.live {
      if p.clients[i].busy || io.poll(k + Polled(p, i)).Occupied? {
        ScannedOn(p, q, i, io, k);
        ScanFrom(p, q, i + 1, io, k);
      } else if io.poll(k + Polled(p, i)).Lost? {
        ScannedLost(p, q, i, io, k);
        ScanFrom(p, MarkOffline(q, i), i + 1, io, k);
      }
    }
  }

  /**
   The search polls the clients that are not busy, in their order, up to the first free one, which it
   returns; those in front of it that are lost are offline then, and nothing else changes.
   */
  lemma ScanFinds(p: ClientPool, io: Io, k: nat)
    requires p.live <= |p.clients|
    ensures var r := Scan(p, 0, io, k);
            && |r.0.clients| == |p.clients|
            && (r.1.Some? ==>
                  && r.1.value < p.live && FreeAt(p, r.1.value, io, k)
                  && (forall n :: 0 <= n < r.1.value ==> !FreeAt(p, n, io, k)))
            && (r.1.None? ==> forall n :: 0 <= n < p.live ==> !FreeAt(p, n, io, k))
            && forall n :: 0 <= n < |p.clients| ==>
                 r.0.clients[n] == if n < (if r.1.Some? then r.1.value else p.live) then Afterwards(p, n, io, k)
                                   else p.clients[n]
  {
    ScanFrom(p, p, 0, io, k);
    var r := Scan(p, 0, io, k);
    var end := if r.1.Some? then r.1.value else p.live;
    forall n | 0 <= n < end ensures r.0.clients[n] == Afterwards(p, n, io, k) && !FreeAt(p, n, io, k) {
      assert PassedBy(p, r.0, n, io, k);
    }
  }

  // ---- new clients ----

  lemma ConnectAnswers(p: ClientPool, answer: Poll)
    requires PoolOk(p)
    ensures var q := Connect(p, answer);
            (q.clients[p.live].online <==> answer.Free?) && forall i :: 0 <= i < p.live ==> q.clients[i] == p.clients[i]
  {}

  /** New clients are online exactly when polling says that they are free, each polled once, in order. */
  lemma {:induction false} GrowAnswers(p: ClientPool, n: nat, max: nat, io: Io, k: nat)
    requires PoolOk(p)
    ensures var r := Grow(p, n, max, io, k);
            && p.live <= r.0.live <= |r.0.clients| && r.1 == k + (r.0.live - p.live)
            && (forall i :: 0 <= i < p.live ==> r.0.clients[i] == p.clients[i])
            && (forall i :: p.live <= i < r.0.live ==>
                  (r.0.clients[i].online <==> io.poll(k + (i - p.live)).Free?))
    decreases n
  {
    if n > 0 && p.live < max {
      var q := Connect(p, io.poll(k));
      ConnectKeeps(p, io.poll(k));
      GrowAnswers(q, n - 1, max, io, k + 1);
      var r := Grow(q, n - 1, max, io, k + 1).0;
      ConnectAnswers(p, io.poll(k));
      forall i | p.live <= i < r.live ensures r.clients[i].online <==> io.poll(k + (i - p.live)).Free? {
        if i == p.live {
          assert r.clients[i] == q.clients[i];
        } else {
          assert k + (i - p.live) == k + 1 + (i - q.live);
        }
      }
    }
  }

  function Least(a: nat, b: nat): nat { if a < b then a else b }

  /**
   A search that finds no client has started new ones twice, each time as many as configured, up to the
   limit; one that finds a client has started them at most once.
   */
  lemma SearchStarts(p: ClientPool, c: Config, io: Io, k: nat)
    requires PoolOk(p) && p.live <= c.max
    ensures var r := Search(p, 0, c, io, k);
            && (r.1.None? ==> r.0.live == Least(p.live + 2 * c.grow, c.max))
            && (r.1.Some? ==> r.0.live == p.live || r.0.live == Least(p.live + c.grow, c.max))
  {
    ScanKeeps(p, 0, io, k);
    var r := Scan(p, 0, io, k);
    if r.1.None? && r.0.live < c.max {
      GrowKeeps(r.0, c.grow, c.max, io, r.2);
      var g := Grow(r.0, c.grow, c.max, io, r.2);
      SecondSearch(g.0, c, io, g.1);
    }
  }

  lemma SecondSearch(p: ClientPool, c: Config, io: Io, k: nat)
    requires PoolOk(p) && p.live <= c.max
    ensures var r := Search(p, 1, c, io, k);
            && (r.1.None? ==> r.0.live == Least(p.live + c.grow, c.max))
            && (r.1.Some? ==> r.0.live == p.live)
  {
    ScanKeeps(p, 0, io, k);
    var r := Scan(p, 0, io, k);
    if r.1.None? && r.0.live < c.max { GrowKeeps(r.0, c.grow, c.max, io, r.2); }
  }

  // ---- the two timers of the pool ----

  // A client that was checked.
  function Checked(c: Client, lost: bool): Client {
    if !lost then c.(online := true) else if c.online then c.(online := false, busy := false) else c
  }

  lemma {:induction false} HealthFrom(p: ClientPool, i: nat, lost: nat -> bool)
    requires i <= p.live <= |p.clients|
    ensures var r := Health(p, i, lost);
            && (forall n :: 0 <= n < |p.clients| ==>
                  r.clients[n] == if i <= n < p.live then Checked(p.clients[n], lost(n)) else p.clients[n])
    decreases p.live - i
  {
    if i < p.live { HealthFrom(if lost(i) then MarkOffline(p, i) else MarkOnline(p, i), i + 1, lost); }
  }

  /** The health timer leaves exactly the clients online whose connection is there; a lost one is not busy. */
  lemma HealthMarks(s: State, c: Config, lost: nat -> bool)
    requires Inv(s, c) && !s.aborted
    ensures var t := Step(s, c, HealthOp(lost));
            && t == s.(p := t.p) && t.p.live == s.p.live && |t.p.clients| == |s.p.clients|
            && (forall i :: 0 <= i < s.p.live ==>
                  && (t.p.clients[i].online <==> !lost(i)) && t.p.clients[i].req == s.p.clients[i].req
                  && (t.p.clients[i].busy <==> s.p.clients[i].busy && !lost(i)))
            && t.p.ready == Count(t.p.clients, IsOnline)
  {
    HealthFrom(s.p, 0, lost);
    StepKeeps(s, c, HealthOp(lost));
  }

  /** The other timer closes the last client if it was idle for long enough, and only above count_begin. */
  lemma DecreaseCloses(s: State, c: Config, idle: bool)
    requires Inv(s, c) && !s.aborted
    ensures var t := Step(s, c, DecreaseOp(idle));
            && t == s.(p := t.p)
            && (t.p == s.p <==> s.p.live <= c.begin || s.p.clients[s.p.live - 1].busy || !idle)
            && (t.p != s.p ==> t.p.live == s.p.live - 1 && !t.p.clients[t.p.live].online)
  {}

  // ---- a timer event sends all it can ----

  predicate IsIdle(c: Client) { !c.busy }

  // Clients that are not busy can take a request.
  predicate Fit(p: ClientPool) {
    forall i :: 0 <= i < p.live <= |p.clients| && !p.clients[i].busy ==> Usable(p.clients[i])
  }

  function Idle(p: ClientPool): nat
    requires p.live <= |p.clients|
  {
    Count(p.clients[..p.live], IsIdle)
  }

  lemma {:induction false} SomeIdle(cs: seq<Client>) returns (i: nat)
    requires Count(cs, IsIdle) > 0
    ensures i < |cs| && !cs[i].busy
  {
    if IsIdle(cs[0]) {
      i := 0;
    } else {
      i := SomeIdle(cs[1..]);
      i := i + 1;
    }
  }

  lemma {:induction false} ScanFree(p: ClientPool, i: nat, io: Io, k: nat, at: nat)
    requires AllFreePolls(io) && i <= at < p.live <= |p.clients| && !p.clients[at].busy
    ensures var r := Scan(p, i, io, k);
            r.0 == p && r.1.Some? && r.1.value < p.live && !p.clients[r.1.value].busy
    decreases at - i
  {
    if p.clients[i].busy { ScanFree(p, i + 1, io, k, at); }
  }

  ghost predicate AllFreePolls(io: Io) { forall n: nat :: io.poll(n).Free? }

  lemma SearchFree(p: ClientPool, c: Config, io: Io, k: nat)
    requires AllFreePolls(io) && p.live <= |p.clients| && Idle(p) > 0
    ensures var r := Search(p, 0, c, io, k);
            r.0 == p && r.1.Some? && r.1.value < p.live && !p.clients[r.1.value].busy
  {
    var at := SomeIdle(p.clients[..p.live]);
    ScanFree(p, 0, io, k, at);
  }

  lemma BusiedIdle(p: ClientPool, i: nat, id: nat)
    requires i < p.live <= |p.clients| && !p.clients[i].busy
    ensures Idle(Busied(p, i, id)) == Idle(p) - 1
  {
    var d := p.clients[i].(busy := true, req := Some(id));
    assert p.clients[i := d][..p.live] == p.clients[..p.live][i := d];
    CountPut(p.clients[..p.live], i, d, IsIdle);
  }

  ghost predicate AllSends(io: Io) { forall n: nat :: io.send(n) }

  predicate NoneCanceled(q: Queue)
    requires GoodSlots(q)
  {
    forall k :: 0 <= k < |q.request| ==> !q.slots[q.request[k]].cancelled
  }

  lemma DispatchSends(s: State, c: Config, io: Io, k: nat, j: nat)
    requires Sound(s, c) && Good(s) && !s.aborted && AllFreePolls(io) && AllSends(io)
    requires Fit(s.p) && s.q.request != [] && NoneCanceled(s.q) && Idle(s.p) >= |s.q.request|
    ensures var d := Dispatch(s, c, io, k, j);
            && d.1 && Sound(d.0, c) && !d.0.aborted && Fit(d.0.p) && d.0.p.live <= |d.0.p.clients|
            && NoneCanceled(d.0.q) && Idle(d.0.p) >= |d.0.q.request|
            && d.0.q.handed + Nums(d.0.q) == s.q.handed + Nums(s.q) && d.0.q.request == s.q.request[1..]
  {
    DispatchKeeps(s, c, io, k, j);
    var i, id := DispatchIsSent(s, c, io, k, j);
    BusiedIdle(s.p, i, id);
    SentNums(s.q, id);
    MovedNums(s.q, id);
  }

  lemma DispatchIsSent(s: State, c: Config, io: Io, k: nat, j: nat) returns (i: nat, id: nat)
    requires Good(s) && !s.aborted && AllFreePolls(io) && AllSends(io)
    requires Fit(s.p) && s.q.request != [] && NoneCanceled(s.q) && Idle(s.p) > 0
    ensures id == s.q.request[0] < |s.q.slots| && i < s.p.live <= |s.p.clients| && !s.p.clients[i].busy
    ensures Dispatch(s, c, io, k, j).0 == Sent(s, i, id) && Dispatch(s, c, io, k, j).1
  {
    SearchFree(s.p, c, io, k);
    id := s.q.request[0];
    i := Search(s.p, 0, c, io, k).1.value;
    assert Usable(s.p.clients[i]) && io.send(j);
  }

  lemma MovedNums(q: Queue, id: nat)
    requires GoodSlots(q) && q.request != [] && id == q.request[0] && GoodSlots(Moved(q, id))
    ensures Moved(q, id).handed + Nums(Moved(q, id)) == q.handed + Nums(q)
  {
    SentNums(q, id);
    assert Nums(q) == [q.slots[id].num] + Nums(Moved(q, id));
    Associates(q.handed, [q.slots[id].num], Nums(Moved(q, id)));
  }

  lemma SentNums(q: Queue, id: nat)
    requires GoodSlots(q) && q.request != [] && id == q.request[0]
    ensures var t := Moved(q, id);
            t.request == q.request[1..] && Below(t.request, |t.slots|)
            && forall k :: 0 <= k < |t.request| ==> t.slots[t.request[k]].num == q.slots[q.request[k + 1]].num
    ensures Moved(q, id).handed == q.handed + [q.slots[id].num]
  {
    WithoutFirst(q.request);
  }

  lemma {:induction false} WalkSends(s: State, c: Config, io: Io, k: nat, j: nat)
    requires Sound(s, c) && !s.aborted && AllFreePolls(io) && AllSends(io)
    requires Fit(s.p) && NoneCanceled(s.q) && Idle(s.p) >= |s.q.request|
    ensures var t := TickLoop(s, c, io, k, j);
            !t.aborted && t.q.request == [] && t.q.handed == s.q.handed + Nums(s.q)
    decreases |s.q.request|
  {
    SoundIsGood(s, c);
    DispatchKeeps(s, c, io, k, j);
    if s.q.request != [] {
      DispatchSends(s, c, io, k, j);
      var d := Dispatch(s, c, io, k, j);
      WalkSends(d.0, c, io, d.2, d.3);
    }
  }

  /**
   A timer event with enough free clients, where sending works, hands over every waiting request in its
   order; the next one, which finds none, clears pqbuffer_pending and is not set again.
   */
  lemma TickSends(s: State, c: Config, io: Io, next: Io)
    requires Inv(s, c) && !s.aborted && s.q.timerArmed && s.q.request != [] && AllFreePolls(io) && AllSends(io)
    requires Fit(s.p) && NoneCanceled(s.q) && Idle(s.p) >= |s.q.request|
    ensures var t := Step(s, c, TickOp(io));
            && !t.aborted && t.q.request == [] && t.q.handed == s.q.handed + Nums(s.q) && t.q.timerArmed
            && Inv(t, c) && !Step(t, c, TickOp(next)).q.pending && !Step(t, c, TickOp(next)).q.timerArmed
  {
    Unarmed(s, c);
    var b := s.(q := s.q.(timerArmed := false));
    assert Nums(b.q) == Nums(s.q);
    WalkSends(b, c, io, 0, 0);
    StepKeeps(s, c, TickOp(io));
  }
}
