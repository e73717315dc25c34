/** rc4.c: the state is a permutation of the bytes with two indexes, changed in place. */
module Rc4 {

  type octet = x: int | 0 <= x < 256
  type Table = s: seq<octet> | |s| == 256 witness seq(256, _ => 0)

  datatype Rc4 = Rc4(perm: Table, i: octet, j: octet)

  // Addition of unsigned chars.
  function Add(a: octet, b: octet): octet { if a + b < 256 then a + b else a + b - 256 }

  // Every byte occurs, and none twice.
  ghost predicate Permutation(perm: Table) {
    && (forall a, b :: 0 <= a < b < 256 ==> perm[a] != perm[b])
    && (forall v: octet :: v in perm)
  }

  function Swap(perm: Table, a: octet, b: octet): Table { perm[a := perm[b]][b := perm[a]] }

  lemma SwapKeeps(perm: Table, a: octet, b: octet)
    requires Permutation(perm)
    ensures Permutation(Swap(perm, a, b))
  {
    var t := Swap(perm, a, b);
    forall v: octet ensures v in t {
      assert v in perm;
      var k :| 0 <= k < 256 && perm[k] == v;
      assert t[if k == a then b else if k == b then a else k] == v;
    }
  }

  lemma SwapTwice(perm: Table, a: octet, b: octet)
    ensures Swap(Swap(perm, a, b), a, b) == perm
  {}

  function Next(s: Rc4): Rc4 {
    var i := Add(s.i, 1);
    var j := Add(s.j, s.perm[i]);
    Rc4(Swap(s.perm, i, j), i, j)
  }

  // A byte exclusive-or'd with the key byte of a state.
  function Mask(x: bv8, s: Rc4): bv8 { Xor(x, s.perm[Add(s.perm[s.i], s.perm[s.j])] as bv8) }

  function Xor(x: bv8, y: bv8): bv8 { x ^ y }

  lemma XorTwice(x: bv8, y: bv8)
    ensures Xor(Xor(x, y), y) == x
  {}

  // ---- stream ciphers in general ----

  function Iterate<S>(next: S -> S, s: S, n: nat): S {
    if n == 0 then s else next(Iterate(next, s, n - 1))
  }

  // Every element changed by one of the states after s.
  function Stream<S, B>(next: S -> S, mask: (B, S) -> B, s: S, data: seq<B>): (r: seq<B>)
    ensures |r| == |data|
  {
    seq(|data|, k requires 0 <= k < |data| => mask(data[k], Iterate(next, s, k + 1)))
  }

  lemma {:induction false} IterateOn<S>(next: S -> S, s: S, m: nat, n: nat)
    ensures Iterate(next, Iterate(next, s, m), n) == Iterate(next, s, m + n)
  {
    if n > 0 { IterateOn(next, s, m, n - 1); }
  }

  lemma StreamAt<S, B>(next: S -> S, mask: (B, S) -> B, s: S, data: seq<B>, k: nat, n: nat)
    requires k < |data| && n == k + 1
    ensures Stream(next, mask, s, data)[k] == mask(data[k], Iterate(next, s, n))
  {}

  lemma PieceAt<S, B>(next: S -> S, mask: (B, S) -> B, s: S, a: seq<B>, b: seq<B>, k: nat, n: nat)
    requires k < |b| && n == |a| + k
    ensures Stream(next, mask, s, a + b)[n] == Stream(next, mask, Iterate(next, s, |a|), b)[k]
  {
    StreamAt(next, mask, s, a + b, n, n + 1);
    StreamAt(next, mask, Iterate(next, s, |a|), b, k, k + 1);
    IterateOn(next, s, |a|, k + 1);
    assert (a + b)[n] == b[k];
  }

  lemma StreamPieces<S, B>(next: S -> S, mask: (B, S) -> B, s: S, a: seq<B>, b: seq<B>)
    ensures Stream(next, mask, s, a + b) == Stream(next, mask, s, a) + Stream(next, mask, Iterate(next, s, |a|), b)
  {
    var all, left := Stream(next, mask, s, a + b), Stream(next, mask, s, a);
    var right := Stream(next, mask, Iterate(next, s, |a|), b);
    forall n | 0 <= n < |all| ensures all[n] == (left + right)[n] {
      if n < |a| {
        StreamAt(next, mask, s, a + b, n, n + 1);
        StreamAt(next, mask, s, a, n, n + 1);
      } else {
        PieceAt(next, mask, s, a, b, n - |a|, n);
      }
    }
  }

  lemma StreamTwice<S(!new), B(!new)>(next: S -> S, mask: (B, S) -> B, s: S, data: seq<B>)
    requires forall x, t :: mask(mask(x, t), t) == x
    ensures Stream(next, mask, s, Stream(next, mask, s, data)) == data
  {}

  // ---- RC4 ----

  function Run(s: Rc4, n: nat): Rc4 { Iterate(Next, s, n) }

  function Crypted(s: Rc4, data: seq<bv8>): (r: seq<bv8>)
    ensures |r| == |data|
  {
    Stream(Next, Mask, s, data)
  }

  // The key schedule from index i on.
  function Mixed(perm: Table, i: nat, j: octet, key: seq<octet>): Table
    requires |key| > 0 && i <= 256
    decreases 256 - i
  {
    if i == 256 then perm else
    var j' := MixIndex(perm, i, j, key);
    Mixed(Swap(perm, i, j'), i + 1, j', key)
  }

  function MixIndex(perm: Table, i: nat, j: octet, key: seq<octet>): octet
    requires |key| > 0 && i < 256
  {
    Add(j, Add(perm[i], key[i % |key|]))
  }

  function Identity(): Table { seq(256, i requires 0 <= i < 256 => i) }

  function Keyed(key: seq<octet>): Rc4
    requires |key| > 0
  {
    Rc4(Mixed(Identity(), 0, 0, key), 0, 0)
  }

  /** Crypting in pieces is crypting at once. */
  lemma Pieces(s: Rc4, a: seq<bv8>, b: seq<bv8>)
    ensures Crypted(s, a + b) == Crypted(s, a) + Crypted(Run(s, |a|), b)
  {
    StreamPieces(Next, Mask, s, a, b);
  }

  /** Crypting twice from equal states gives the data back. */
  lemma Twice(s: Rc4, data: seq<bv8>)
    ensures Crypted(s, Crypted(s, data)) == data
  {
    forall x, t ensures Mask(Mask(x, t), t) == x {
      XorTwice(x, t.perm[Add(t.perm[t.i], t.perm[t.j])] as bv8);
    }
    StreamTwice(Next, Mask, s, data);
  }

  // ---- the indexes and the key bytes as numbers ----

  /** One step: both indexes move modulo 256, and the entries there are exchanged. */
  lemma NextNumbers(s: Rc4)
    ensures var t := Next(s);
            && t.i == (s.i as int + 1) % 256 && t.j == (s.j as int + s.perm[t.i] as int) % 256
            && t.perm[t.i] == s.perm[t.j] && t.perm[t.j] == s.perm[t.i]
            && forall k :: 0 <= k < 256 && k != t.i && k != t.j ==> t.perm[k] == s.perm[k]
  {}

  /**
   Zero is crypted to the entry at the sum, modulo 256, of the entries at both indexes, and any byte to its
   exclusive or with that.
   */
  lemma KeyByte(s: Rc4, x: bv8)
    ensures Mask(0, s) == s.perm[(s.perm[s.i] as int + s.perm[s.j] as int) % 256] as bv8
    ensures Mask(x, s) == x ^ Mask(0, s)
  {
    ZeroMask(s.perm[Add(s.perm[s.i], s.perm[s.j])] as bv8);
  }

  lemma ZeroMask(y: bv8)
    ensures Xor(0, y) == y
  {}

  // The byte of the key for step n, the key being taken around again.
  function KeyAt(key: seq<octet>, n: nat): octet
    requires |key| > 0
  {
    key[n % |key|]
  }

  // Step n of the key schedule, with the table and the index it finds and the key byte.
  function MixStep(x: (Table, octet), n: octet, k: octet): (Table, octet) {
    var a: int, b: int, c: int := x.1, x.0[n], k;
    (Swap(x.0, n, (a + b + c) % 256), (a + b + c) % 256)
  }

  function Scheduled(key: seq<octet>, n: nat): (Table, octet)
    requires |key| > 0 && n <= 256
  {
    if n == 0 then (Identity(), 0) else MixStep(Scheduled(key, n - 1), n - 1, KeyAt(key, n - 1))
  }

  lemma MixStepIs(perm: Table, n: octet, j: octet, key: seq<octet>)
    requires |key| > 0
    ensures MixStep((perm, j), n, KeyAt(key, n)).1 == MixIndex(perm, n, j, key)
  {}

  lemma MixedNext(perm: Table, n: octet, j: octet, key: seq<octet>)
    requires |key| > 0
    ensures var y := MixStep((perm, j), n, KeyAt(key, n)); Mixed(perm, n, j, key) == Mixed(y.0, n + 1, y.1, key)
  {
    MixStepIs(perm, n, j, key);
  }

  lemma {:induction false} MixedFrom(key: seq<octet>, n: nat, x: (Table, octet))
    requires |key| > 0 && n <= 256 && x == Scheduled(key, n)
    ensures Mixed(x.0, n, x.1, key) == Scheduled(key, 256).0
    decreases 256 - n
  {
    if n < 256 {
      var y := MixStep(x, n, KeyAt(key, n));
      MixedNext(x.0, n, x.1, key);
      MixedFrom(key, n + 1, y);
    }
  }

  /** The key schedule adds the entry and the key byte to the index in every step, modulo 256, and exchanges. */
  lemma KeyedIs(key: seq<octet>)
    requires |key| > 0
    ensures Keyed(key) == Rc4(Scheduled(key, 256).0, 0, 0)
  {
    MixedFrom(key, 0, (Identity(), 0));
  }

  lemma KeyByteTells(x: (Table, octet), n: octet, k: octet, l: octet)
    ensures k != l <==> MixStep(x, n, k).1 != MixStep(x, n, l).1
  {
    var a: int, b: int, c: int, d: int := x.1, x.0[n], k, l;
    if (a + b + c) % 256 == (a + b + d) % 256 {
      assert (a + b + c) - (a + b + d) == 256 * ((a + b + c) / 256 - (a + b + d) / 256);
    }
  }

  /** Keys whose bytes agree in front of step p, taken around again, lead to different indexes there if they differ. */
  lemma {:induction false} KeysDiverge(key: seq<octet>, other: seq<octet>, p: nat)
    requires |key| > 0 && |other| > 0 && p < 256 && forall n :: 0 <= n < p ==> KeyAt(key, n) == KeyAt(other, n)
    ensures Scheduled(key, p) == Scheduled(other, p)
    ensures KeyAt(key, p) != KeyAt(other, p) <==> Scheduled(key, p + 1).1 != Scheduled(other, p + 1).1
  {
    SameSchedule(key, other, p);
    KeyByteTells(Scheduled(key, p), p, KeyAt(key, p), KeyAt(other, p));
  }

  lemma {:induction false} SameSchedule(key: seq<octet>, other: seq<octet>, p: nat)
    requires |key| > 0 && |other| > 0 && p <= 256 && forall n :: 0 <= n < p ==> KeyAt(key, n) == KeyAt(other, n)
    ensures Scheduled(key, p) == Scheduled(other, p)
  {
    if p > 0 {
      SameSchedule(key, other, p - 1);
      assert KeyAt(key, p - 1) == KeyAt(other, p - 1);
    }
  }

  // ---- every run ----

  lemma {:induction false} MixedKeeps(perm: Table, i: nat, j: octet, key: seq<octet>)
    requires Permutation(perm) && |key| > 0 && i <= 256
    ensures Permutation(Mixed(perm, i, j, key))
    decreases 256 - i
  {
    if i < 256 {
      var j' := MixIndex(perm, i, j, key);
      SwapKeeps(perm, i, j');
      MixedKeeps(Swap(perm, i, j'), i + 1, j', key);
    }
  }

  lemma NextKeeps(s: Rc4)
    requires Permutation(s.perm)
    ensures Permutation(Next(s).perm)
  {
    SwapKeeps(s.perm, Next(s).i, Next(s).j);
  }

  lemma IdentityIs()
    ensures Permutation(Identity())
  {
    forall v: octet ensures v in Identity() { assert Identity()[v] == v; }
  }

  // index2 just after index1, on the value 1: such a state would carry the 1 around for ever.
  predicate Walks(s: Rc4) { s.j == Add(s.i, 1) && s.perm[s.j] == 1 }

  /** A state is of this kind exactly when its successor is. */
  lemma WalksNext(s: Rc4)
    ensures Walks(Next(s)) <==> Walks(s)
  {
    var t := Next(s);
    assert t.perm[t.j] == s.perm[t.i];
  }

  lemma {:induction false} RunKeeps(s: Rc4, n: nat)
    requires Permutation(s.perm)
    ensures Permutation(Run(s, n).perm) && (Walks(Run(s, n)) <==> Walks(s))
  {
    if n > 0 {
      RunKeeps(s, n - 1);
      NextKeeps(Run(s, n - 1));
      WalksNext(Run(s, n - 1));
    }
  }

  /** Every state reached from any key is a permutation and never walks. */
  lemma EveryRun(key: seq<octet>, n: nat)
    requires |key| > 0
    ensures Permutation(Run(Keyed(key), n).perm) && !Walks(Run(Keyed(key), n))
  {
    IdentityIs();
    MixedKeeps(Identity(), 0, 0, key);
    RunKeeps(Keyed(key), n);
  }

  // ---- a step can be taken back ----

  function Sub(a: octet, b: octet): octet { if b <= a then a - b else a + 256 - b }

  function Prev(t: Rc4): Rc4 {
    var perm := Swap(t.perm, t.i, t.j);
    Rc4(perm, Sub(t.i, 1), Sub(t.j, perm[t.i]))
  }

  /** No two states have the same successor, and every state has a predecessor. */
  lemma PrevNext(s: Rc4)
    ensures Prev(Next(s)) == s && Next(Prev(s)) == s
  {
    SwapTwice(s.perm, Next(s).i, Next(s).j);
    SwapTwice(s.perm, s.i, s.j);
  }

  // ---- the code ----

  class State {
    const perm: array<octet>
    var index1: octet
    var index2: octet

    function Value(): Rc4
      requires perm.Length == 256
      reads this, perm
    {
      Rc4(perm[..], index1, index2)
    }

    constructor ()
      ensures fresh(perm) && perm.Length == 256
    {
      perm := new octet[256](_ => 0);
      index1, index2 := 0, 0;
    }

    // BRB_RC4_SwapBytes.
    method SwapBytes(a: octet, b: octet)
      requires perm.Length == 256
      modifies perm
      ensures perm[..] == Swap(old(perm[..]), a, b)
    {
      var temp := perm[a];
      perm[a] := perm[b];
      perm[b] := temp;
    }

    /** BRB_RC4_Init. */
    method Init(key: seq<octet>)
      requires perm.Length == 256 && |key| > 0
      modifies this, perm
      ensures Value() == Keyed(key)
    {
      for i := 0 to 256
        invariant forall k :: 0 <= k < i ==> perm[k] == k
      {
        perm[i] := i;
      }
      assert perm[..] == Identity();
      index1, index2 := 0, 0;
      Mix(key);
    }

    // Randomizes the permutation.
    method Mix(key: seq<octet>)
      requires perm.Length == 256 && |key| > 0
      modifies perm
      ensures perm[..] == Mixed(old(perm[..]), 0, 0, key)
    {
      var j: octet := 0;
      for i := 0 to 256
        invariant Mixed(perm[..], i, j, key) == Mixed(old(perm[..]), 0, 0, key)
      {
        j := MixIndex(perm[..], i, j, key);
        SwapBytes(i, j);
      }
    }

    /** BRB_RC4_Crypt; the buffers may be the same. */
    method Crypt(inbuf: array<bv8>, outbuf: array<bv8>, buflen: nat)
      requires perm.Length == 256 && buflen <= inbuf.Length && buflen <= outbuf.Length
      requires perm as object != inbuf && perm as object != outbuf
      modifies this, perm, outbuf
      ensures outbuf[..buflen] == Crypted(old(Value()), old(inbuf[..buflen]))
      ensures outbuf[buflen..] == old(outbuf[buflen..])
      ensures Value() == Run(old(Value()), buflen)
    {
      ghost var s, data, was := Value(), inbuf[..buflen], outbuf[..];
      ghost var out := Crypted(s, data);
      for i := 0 to buflen
        invariant Value() == Iterate(Next, s, i)
        invariant forall k :: i <= k < buflen ==> inbuf[k] == data[k]
        invariant forall k :: 0 <= k < i ==> outbuf[k] == out[k]
        invariant forall k :: buflen <= k < outbuf.Length ==> outbuf[k] == was[k]
      {
        CryptNext(inbuf, outbuf, i, s, data);
      }
    }

    // One turn, behind i turns from s on.
    method CryptNext(inbuf: array<bv8>, outbuf: array<bv8>, i: nat, ghost s: Rc4, ghost data: seq<bv8>)
      requires perm.Length == 256 && i < |data| && i < inbuf.Length && i < outbuf.Length
      requires perm as object != inbuf && perm as object != outbuf
      requires Value() == Iterate(Next, s, i) && inbuf[i] == data[i]
      modifies this, perm, outbuf
      ensures Value() == Iterate(Next, s, i + 1) && outbuf[i] == Crypted(s, data)[i]
      ensures forall k :: 0 <= k < outbuf.Length && k != i ==> outbuf[k] == old(outbuf[k])
    {
      StreamAt(Next, Mask, s, data, i, i + 1);
      CryptByte(inbuf, outbuf, i);
    }

    // The indexes, the permutation, and the byte by the next key byte.
    method CryptByte(inbuf: array<bv8>, outbuf: array<bv8>, i: nat)
      requires perm.Length == 256 && i < inbuf.Length && i < outbuf.Length
      requires perm as object != inbuf && perm as object != outbuf
      modifies this, perm, outbuf
      ensures Value() == Next(old(Value()))
      ensures outbuf[i] == Mask(old(inbuf[i]), Value())
      ensures forall k :: 0 <= k < outbuf.Length && k != i ==> outbuf[k] == old(outbuf[k])
    {
      index1 := Add(index1, 1);
      index2 := Add(index2, perm[index1]);
      SwapBytes(index1, index2);
      var j := Add(perm[index1], perm[index2]);
      outbuf[i] := Xor(inbuf[i], perm[j] as bv8);
    }
  }
}
