/**
 The buffering and padding of sha1.c. BrbSha1_Transform's compression is a parameter; it works on the
 block in place, and `residue` is what it leaves there.
 */
module Sha1 {
  import opened HashBlocks

  const TWO61: int := 0x2000_0000_0000_0000

  // Words of the bit counter that count n bytes.
  predicate CountsBits(low: u32, high: u32, n: nat) { low == n * 8 % TWO32 && high == n * 8 / TWO32 % TWO32 }

  // The words after BrbSha1_Update has counted len bytes.
  function LowAfter(low: u32, len: nat): u32 { (low + len * 8) % TWO32 }

  function HighAfter(low: u32, high: u32, len: nat): u32 {
    (high + (if LowAfter(low, len) < len * 8 then 1 else 0) + len / 0x2000_0000) % TWO32
  }

  lemma LowCounts(low: u32, n: nat, len: nat)
    requires low == n * 8 % TWO32
    ensures LowAfter(low, len) == (n + len) * 8 % TWO32
  {
    assert n * 8 == n * 8 / TWO32 * TWO32 + low;
    assert (n + len) * 8 == n * 8 / TWO32 * TWO32 + (low + len * 8);
  }

  // The position in the buffer.
  lemma Used(low: u32, n: nat)
    requires low == n * 8 % TWO32
    ensures low / 8 % 64 == n % 64
  {
    var h := n * 8 / TWO32;
    assert n * 8 == h * TWO32 + low;
    assert low % 8 == 0 && n == h * 0x2000_0000 + low / 8;
    assert n == 64 * (h * 0x80_0000) + low / 8;
  }

  lemma BitsOf(len: nat)
    ensures len * 8 == len / 0x2000_0000 * TWO32 + len * 8 % TWO32
  {
    assert len == len / 0x2000_0000 * 0x2000_0000 + len % 0x2000_0000;
    assert len * 8 == len / 0x2000_0000 * TWO32 + len % 0x2000_0000 * 8;
  }

  // The sum of two numbers of bits, by their words.
  lemma SumWords(a: nat, b: nat, carry: nat)
    requires carry == if a % TWO32 + b % TWO32 >= TWO32 then 1 else 0
    ensures (a + b) / TWO32 == a / TWO32 + b / TWO32 + carry
    ensures (a % TWO32 + b) % TWO32 == a % TWO32 + b % TWO32 - carry * TWO32
  {
    var x, y := a % TWO32, b % TWO32;
    assert a == a / TWO32 * TWO32 + x && b == b / TWO32 * TWO32 + y;
    assert a + b == (a / TWO32 + b / TWO32 + carry) * TWO32 + (x + y - carry * TWO32);
    assert x + b == (b / TWO32 + carry) * TWO32 + (x + y - carry * TWO32);
  }

  /** The counter stays right exactly when fewer than 2^29 bytes are added at once, or the low word wraps anyway. */
  lemma CarryIff(low: u32, high: u32, n: nat, len: nat)
    requires CountsBits(low, high, n)
    ensures CountsBits(LowAfter(low, len), HighAfter(low, high, len), n + len)
       <==> len < 0x2000_0000 || low + len * 8 % TWO32 >= TWO32
  {
    LowCounts(low, n, len);
    BitsOf(len);
    var carry := if low + len * 8 % TWO32 >= TWO32 then 1 else 0;
    SumWords(n * 8, len * 8, carry);
    assert (n + len) * 8 == n * 8 + len * 8;
    Increments(n * 8 / TWO32, high, len / 0x2000_0000, carry, if LowAfter(low, len) < len * 8 then 1 else 0);
  }

  lemma Increments(h: nat, high: u32, top: nat, a: nat, b: nat)
    requires high == h % TWO32 && a <= 1 && b <= 1
    ensures (h + top + a) % TWO32 == (high + b + top) % TWO32 <==> a == b
  {
    var x := high + top;
    assert h + top == h / TWO32 * TWO32 + x;
    assert (h + top + a) % TWO32 == (x + a) % TWO32;
  }

  class Context<S(!new)> {
    const transform: Step<S>
    const residue: seq<byte> -> seq<byte>
    const init: S
    var state: S
    var low: u32              // count[0], in bits
    var high: u32             // count[1]
    const buffer: array<byte>
    ghost var m: seq<byte>    // all bytes so far

    // Right but for the high counter word.
    ghost predicate Valid()
      reads this, buffer
    {
      && buffer.Length == 64 && low == |m| * 8 % TWO32
      && Absorbed(transform, init, m, state, buffer[..|m| % 64])
    }

    ghost predicate Exact()
      reads this
    {
      CountsBits(low, high, |m|)
    }

    constructor (transform: Step<S>, residue: seq<byte> -> seq<byte>, init: S)
      ensures this.transform == transform && this.init == init && fresh(buffer) && buffer.Length == 64
    {
      this.transform, this.residue, this.init, state, low, high, m := transform, residue, init, init, 0, 0, [];
      buffer := new byte[64](_ => 0);
    }

    /** BrbSha1_Init. */
    method Init()
      requires buffer.Length == 64
      modifies this
      ensures Valid() && Exact() && m == []
    {
      state, low, high, m := init, 0, 0, [];
      AbsorbNothing(transform, init);
      assert buffer[..0] == [];
    }

    method Copy(at: nat, data: seq<byte>)
      requires at + |data| <= buffer.Length
      modifies buffer
      ensures buffer[..at + |data|] == old(buffer[..at]) + data
    {
      for k := 0 to |data|
        invariant forall i :: 0 <= i < at ==> buffer[i] == old(buffer[i])
        invariant forall i :: at <= i < at + k ==> buffer[i] == data[i - at]
      {
        buffer[at + k] := data[k];
      }
    }

    // BrbSha1_Transform on the buffer, which it overwrites.
    method TransformBuffer()
      requires buffer.Length == 64
      modifies this`state, buffer
      ensures state == transform(old(state), old(buffer[..]))
    {
      var block := buffer[..];
      state := transform(state, block);
      var left := residue(block);
      for k := 0 to 64
        invariant state == transform(old(state), old(buffer[..]))
      {
        if k < |left| {
          buffer[k] := left[k];
        }
      }
    }

    // Fills the buffer up and transforms it.
    method Block(at: nat, data: seq<byte>)
      requires buffer.Length == 64 && at + |data| == 64 && Absorbed(transform, init, m, state, buffer[..at])
      modifies buffer, this`state, this`m
      ensures m == old(m) + data && Absorbed(transform, init, m, state, [])
    {
      AbsorbBlock(transform, init, m, state, buffer[..at], data);
      Copy(at, data);
      assert buffer[..] == buffer[..64];
      TransformBuffer();
      m := m + data;
    }

    // Adds what does not fill the buffer.
    method Keep(at: nat, data: seq<byte>)
      requires buffer.Length == 64 && at + |data| < 64 && Absorbed(transform, init, m, state, buffer[..at])
      modifies buffer, this`m
      ensures m == old(m) + data && Absorbed(transform, init, m, state, buffer[..|m| % 64])
    {
      AbsorbSome(transform, init, m, state, buffer[..at], data);
      Copy(at, data);
      m := m + data;
      AbsorbedTail(transform, init, m, state, buffer[..at + |data|]);
    }

    // Transforms whole blocks where they stand in the data.
    method Chunks(data: seq<byte>, off0: nat) returns (off: nat)
      requires off0 <= |data| && Absorbed(transform, init, m, state, [])
      modifies this`state, this`m
      ensures off0 <= off <= |data| < off + 64 && m == old(m) + data[off0..off]
      ensures Absorbed(transform, init, m, state, [])
    {
      off := off0;
      while off + 63 < |data|
        invariant off0 <= off <= |data| && m == old(m) + data[off0..off]
        invariant Absorbed(transform, init, m, state, [])
      {
        ghost var block := data[off..off + 64];
        AbsorbBlock(transform, init, m, state, [], block);
        assert [] + block == block;
        state := transform(state, data[off..off + 64]);
        m := m + block;
        NextPiece(old(m), data, off0, off, off + 64);
        off := off + 64;
      }
    }

    method Count(len: nat)
      requires low == |m| * 8 % TWO32
      modifies this`low, this`high
      ensures low == LowAfter(old(low), len) && high == HighAfter(old(low), old(high), len)
    {
      var bits := len * 8;
      low := (low + bits) % TWO32;
      if low < bits {
        high := (high + 1) % TWO32;
      }
      high := (high + len / 0x2000_0000) % TWO32;
    }

    /** BrbSha1_Update; `len << 3` must fit a size_t. */
    method Update(data: seq<byte>)
      requires Valid() && |data| < TWO61
      modifies this, buffer
      ensures Valid() && m == old(m) + data
      ensures old(Exact()) ==> (Exact() <==> |data| < 0x2000_0000 || old(low) + |data| * 8 % TWO32 >= TWO32)
    {
      if Exact() { CarryIff(low, high, |m|, |data|); }
      LowCounts(low, |m|, |data|);
      Used(low, |m|);
      var j := low / 8 % 64;
      Count(|data|);
      if j + |data| > 63 {
        Absorb(j, data);
      } else {
        Keep(j, data);
      }
    }

    // The branch of BrbSha1_Update that transforms at least once.
    method Absorb(j: nat, data: seq<byte>)
      requires buffer.Length == 64 && j == |m| % 64 && j + |data| > 63
      requires Absorbed(transform, init, m, state, buffer[..j])
      modifies buffer, this`state, this`m
      ensures m == old(m) + data && Absorbed(transform, init, m, state, buffer[..|m| % 64])
    {
      Block(j, data[..64 - j]);
      var i := Chunks(data, 64 - j);
      NextPiece(old(m), data, 0, 64 - j, i);
      NextPiece(old(m), data, 0, i, |data|);
      assert buffer[..0] == [] && data[0..|data|] == data;
      Keep(0, data[i..]);
    }

    // finalcount: the counter words, highest byte first.
    method FinalCount() returns (finalcount: seq<byte>)
      ensures |finalcount| == 8
      ensures forall i :: 0 <= i < 8 ==> finalcount[i] == CountByte(low, high, i)
    {
      finalcount := [];
      for i := 0 to 8
        invariant |finalcount| == i && forall k :: 0 <= k < i ==> finalcount[k] == CountByte(low, high, k)
      {
        finalcount := finalcount + [Shift(if i >= 4 then low else high, 3 - i % 4) % 256];
      }
    }

    // One byte at a time up to 56 modulo 64.
    method Pad()
      requires Valid()
      modifies this, buffer
      ensures Valid() && m == old(m) + [0x80] + Zeros(ZeroCount(|old(m)|))
    {
      ghost var m0, k := m, 0;
      Update([0x80]);
      Used(low, |m|);
      while low / 8 % 64 != 56  // (count[0] & 504) != 448
        invariant Valid() && low / 8 % 64 == |m| % 64
        invariant m == m0 + [0x80] + Zeros(k) && k <= ZeroCount(|m0|)
        decreases ZeroCount(|m0|) - k
      {
        ZerosDone(|m0|, k);
        Update([0]);
        OneMoreZero(m0, k);
        k := k + 1;
        Used(low, |m|);
      }
      ZerosDone(|m0|, k);
    }

    /** BrbSha1_Final: the padding goes through BrbSha1_Update; state is the digest. */
    method Final()
      requires Valid()
      modifies this, buffer
      ensures old(Exact()) ==> state == Hash(transform, init, old(m), true)
    {
      ghost var m0, exact := m, Exact();
      var finalcount := FinalCount();
      if exact { CountIsLength(low, high, |m0|, finalcount); }
      Pad();
      Update(finalcount);
      if exact {
        Padded(m0, finalcount);
        AllAbsorbed(transform, init, m, state);
      }
    }
  }

  lemma OneMoreZero(m: seq<byte>, k: nat)
    ensures m + [0x80] + Zeros(k) + [0] == m + [0x80] + Zeros(k + 1)
  {
    assert Zeros(k) + [0] == Zeros(k + 1);
  }

  lemma Padded(m: seq<byte>, count: seq<byte>)
    requires count == LengthBytes(|m|, true)
    ensures m + [0x80] + Zeros(ZeroCount(|m|)) + count == m + Padding(|m|, true)
  {}

  function CountByte(low: u32, high: u32, i: nat): byte
    requires i < 8
  {
    if i >= 4 then Shift(low, 7 - i) % 256 else Shift(high, 3 - i) % 256
  }

  lemma CountIsLength(low: u32, high: u32, n: nat, finalcount: seq<byte>)
    requires CountsBits(low, high, n) && |finalcount| == 8
    requires forall i :: 0 <= i < 8 ==> finalcount[i] == CountByte(low, high, i)
    ensures finalcount == LengthBytes(n, true)
  {
    TwoWords(n * 8);
    forall i | 0 <= i < 8
      ensures finalcount[i] == LowBytes(n * 8, 8)[7 - i]
    {
      if i >= 4 { LowByteAt(low, 4, 7 - i); } else { LowByteAt(high, 4, 3 - i); }
    }
  }

  /** Any split of a message into updates of fewer than 2^29 bytes gives its hash. */
  method Digest<S(!new)>(transform: Step<S>, residue: seq<byte> -> seq<byte>, init: S, pieces: seq<seq<byte>>)
      returns (d: S)
    requires forall k :: 0 <= k < |pieces| ==> |pieces[k]| < 0x2000_0000
    ensures d == Hash(transform, init, Joined(pieces), true)
  {
    var context := new Context(transform, residue, init);
    context.Init();
    for k := 0 to |pieces|
      invariant context.Valid() && context.Exact() && context.m == Joined(pieces[..k])
      invariant fresh(context) && fresh(context.buffer)
    {
      JoinedNext(pieces, k);
      context.Update(pieces[k]);
    }
    assert pieces[..|pieces|] == pieces;
    context.Final();
    d := context.state;
  }

  lemma NextPiece(m: seq<byte>, data: seq<byte>, a: nat, b: nat, c: nat)
    requires a <= b <= c <= |data|
    ensures m + data[a..b] + data[b..c] == m + data[a..c]
  {
    assert data[a..b] + data[b..c] == data[a..c];
  }
}
