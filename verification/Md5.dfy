/** The buffering and padding of md5.c; BRB_MD5Transform's compression is a parameter. */
module Md5 {
  import opened HashBlocks

  lemma LowAfter(low: u32, n: nat, len: nat)
    requires low == n % TWO32
    ensures (low + len) % TWO32 == (n + len) % TWO32
  {
    assert n == n / TWO32 * TWO32 + low;
    assert n + len == n / TWO32 * TWO32 + (low + len);
  }

  // The carry of BRB_MD5Update: into the high word when the new low word is below the old one.
  function Carry(low: u32, len: nat): nat { if (low + len) % TWO32 < low then 1 else 0 }

  // Words of the byte counter that count n bytes modulo 2^64.
  predicate Counts(low: u32, high: u32, n: nat) { low == n % TWO32 && high == n / TWO32 % TWO32 }

  lemma CountNothing()
    ensures Counts(0, 0, 0) && 0 % TWO32 == 0 && 0 % 64 == 0
  {}

  lemma HighAfter(n: nat, len: nat)
    ensures (n + len) / TWO32 == n / TWO32 + (n % TWO32 + len) / TWO32
  {
    assert n == n / TWO32 * TWO32 + n % TWO32;
    assert n + len == n / TWO32 * TWO32 + (n % TWO32 + len);
  }

  /** The two-word counter stays right exactly when fewer than 2^32 bytes are added at once. */
  lemma CarryIff(low: u32, high: u32, n: nat, len: nat)
    requires Counts(low, high, n) && len < TWO64
    ensures Counts((low + len) % TWO32, (high + Carry(low, len)) % TWO32, n + len) <==> len < TWO32
  {
    LowAfter(low, n, len);
    HighAfter(n, len);
    var q := (low + len) / TWO32;
    assert low + len == q * TWO32 + (low + len) % TWO32;
    var h := n / TWO32;
    assert h == h / TWO32 * TWO32 + high;
    HighWord(h, high, q, Carry(low, len));
  }

  // Two small increments of a 32-bit word agree exactly when they are equal, or differ by 2^32.
  lemma HighWord(h: nat, high: u32, q: nat, inc: nat)
    requires high == h % TWO32 && q <= TWO32 && inc <= 1
    ensures (high + inc) % TWO32 == (h + q) % TWO32 <==> q == inc || (q == TWO32 && inc == 0)
  {
    assert h == h / TWO32 * TWO32 + high;
    assert (h + q) % TWO32 == (high + q) % TWO32;
  }

  class Context<S(!new)> {
    const transform: Step<S>  // BRB_MD5Transform on the words of `in` and buf
    const init: S
    var buf: S
    var low: u32              // bytes[0]
    var high: u32             // bytes[1]
    const input: array<byte>  // ctx->in, as bytes of a little-endian machine
    ghost var m: seq<byte>    // all bytes so far

    // Right but for the high counter word.
    ghost predicate Valid()
      reads this, input
    {
      && input.Length == 64 && low == |m| % TWO32
      && Absorbed(transform, init, m, buf, input[..|m| % 64])
    }

    ghost predicate Exact()
      reads this
    {
      Counts(low, high, |m|)
    }

    constructor (transform: Step<S>, init: S)
      ensures this.transform == transform && this.init == init && fresh(input) && input.Length == 64
    {
      this.transform, this.init, buf, low, high, m := transform, init, init, 0, 0, [];
      input := new byte[64](_ => 0);
    }

    /** BRB_MD5Init. */
    method Init()
      requires input.Length == 64
      modifies this
      ensures Valid() && Exact() && m == []
    {
      buf, low, high, m := init, 0, 0, [];
      AbsorbNothing(transform, init);
      CountNothing();
      assert input[..0] == [];
    }

    // memcpy into ctx->in.
    method Copy(at: nat, data: seq<byte>)
      requires at + |data| <= input.Length
      modifies input
      ensures input[..at + |data|] == old(input[..at]) + data
    {
      for k := 0 to |data|
        invariant forall i :: 0 <= i < at ==> input[i] == old(input[i])
        invariant forall i :: at <= i < at + k ==> input[i] == data[i - at]
      {
        input[at + k] := data[k];
      }
    }

    // BRB_MD5Transform on ctx->in, which holds `tail` and then `data`.
    method Transform(ghost tail: seq<byte>, ghost data: seq<byte>)
      requires input.Length == 64 && input[..] == tail + data && Absorbed(transform, init, m, buf, tail)
      modifies this`buf, this`m
      ensures m == old(m) + data && Absorbed(transform, init, m, buf, [])
    {
      AbsorbBlock(transform, init, m, buf, tail, data);
      buf := transform(buf, input[..]);
      m := m + data;
    }

    // Fills the block up with `data` and transforms it.
    method Block(at: nat, data: seq<byte>)
      requires input.Length == 64 && at + |data| == 64 && Absorbed(transform, init, m, buf, input[..at])
      modifies input, this`buf, this`m
      ensures m == old(m) + data && Absorbed(transform, init, m, buf, [])
    {
      ghost var tail := input[..at];
      Copy(at, data);
      assert input[..] == input[..64];
      Transform(tail, data);
    }

    // Adds what does not fill the block.
    method Keep(at: nat, data: seq<byte>)
      requires input.Length == 64 && at + |data| < 64 && Absorbed(transform, init, m, buf, input[..at])
      modifies input, this`m
      ensures m == old(m) + data && Absorbed(transform, init, m, buf, input[..|m| % 64])
    {
      AbsorbSome(transform, init, m, buf, input[..at], data);
      Copy(at, data);
      m := m + data;
      AbsorbedTail(transform, init, m, buf, input[..at + |data|]);
    }

    // The byte counter.
    method Count(len: nat)
      requires low == |m| % TWO32 && len < TWO64
      modifies this`low, this`high
      ensures low == (|m| + len) % TWO32
      ensures old(Exact()) ==> (Counts(low, high, |m| + len) <==> len < TWO32)
    {
      if Exact() { CarryIff(low, high, |m|, len); }
      LowAfter(low, |m|, len);
      var t := low;
      low := (t + len) % TWO32;
      if low < t {
        high := (high + 1) % TWO32;
      }
    }

    // The 64-byte chunks of data from off0 on.
    method Chunks(data: seq<byte>, off0: nat) returns (off: nat)
      requires input.Length == 64 && off0 <= |data| && Absorbed(transform, init, m, buf, [])
      modifies input, this`buf, this`m
      ensures off0 <= off <= |data| < off + 64 && m == old(m) + data[off0..off]
      ensures Absorbed(transform, init, m, buf, [])
    {
      off := off0;
      while |data| - off >= 64
        invariant off0 <= off <= |data| && m == old(m) + data[off0..off]
        invariant Absorbed(transform, init, m, buf, [])
      {
        assert input[..0] == [];
        ghost var was := m;
        Block(0, data[off..off + 64]);
        NextPiece(old(m), data, off0, off, off + 64);
        off := off + 64;
      }
    }

    /** BRB_MD5Update. The counter is exact again when fewer than 2^32 bytes come at once. */
    method Update(data: seq<byte>)
      requires Valid() && |data| < TWO64
      modifies this, input
      ensures Valid() && m == old(m) + data
      ensures old(Exact()) ==> (Exact() <==> |data| < TWO32)
    {
      var used := low % 64;
      assert used == |m| % 64;
      Count(|data|);
      var space := 64 - used;
      if space > |data| {
        Keep(used, data);
        return;
      }
      Block(used, data[..space]);
      var off := Chunks(data, space);
      NextPiece(old(m), data, 0, space, off);
      NextPiece(old(m), data, 0, off, |data|);
      assert input[..0] == [] && data[0..|data|] == data;
      Keep(0, data[off..]);
    }

    /** BRB_MD5UpdateBig: chunks of 65535 bytes, so the counter stays exact. */
    method UpdateBig(data: seq<byte>)
      requires Valid() && |data| < TWO64
      modifies this, input
      ensures Valid() && m == old(m) + data && (old(Exact()) ==> Exact())
    {
      var off, chunk := 0, 65535;
      while |data| - off >= chunk
        invariant off <= |data| && Valid() && m == old(m) + data[0..off] && (old(Exact()) ==> Exact())
      {
        Update(data[off..off + chunk]);
        NextPiece(old(m), data, 0, off, off + chunk);
        off := off + chunk;
      }
      NextPiece(old(m), data, 0, off, |data|);
      assert data[0..|data|] == data;
      if |data| - off > 0 {
        Update(data[off..]);
      }
    }

    // The two length words at the end of ctx->in.
    function Words(): (r: seq<byte>)
      reads this`low, this`high
      ensures |r| == 8
    {
      LowBytes(low * 8 % TWO32, 4) + LowBytes(high * 8 % TWO32 + low / 0x2000_0000, 4)
    }

    // Zeros up to 56, the length words and the last transformation; ctx->in holds `tail` and `head`.
    method Close(at: nat, ghost tail: seq<byte>, ghost head: seq<byte>)
      requires input.Length == 64 && at <= 56 && input[..at] == tail + head && Absorbed(transform, init, m, buf, tail)
      modifies input, this`buf, this`m
      ensures m == old(m) + (head + Zeros(56 - at) + Words()) && Absorbed(transform, init, m, buf, [])
    {
      Copy(at, Zeros(56 - at));
      Copy(56, Words());
      assert input[..] == input[..64];
      assert tail + head + Zeros(56 - at) + Words() == tail + (head + Zeros(56 - at) + Words());
      Transform(tail, head + Zeros(56 - at) + Words());
    }

    // The block that the padding overflows.
    method Overflow(used: nat)
      requires input.Length == 64 && 55 < used < 64 && Absorbed(transform, init, m, buf, input[..used])
      modifies input, this`buf, this`m
      ensures m == old(m) + ([0x80] + Zeros(63 - used)) && Absorbed(transform, init, m, buf, [])
    {
      ghost var tail := input[..used];
      Copy(used, [0x80]);
      Copy(used + 1, Zeros(63 - used));
      assert input[..] == input[..64];
      assert tail + [0x80] + Zeros(63 - used) == tail + ([0x80] + Zeros(63 - used));
      Transform(tail, [0x80] + Zeros(63 - used));
    }

    /** BRB_MD5Final: pads and transforms what is left; buf is the digest. */
    method Final()
      requires Valid()
      modifies this, input
      ensures old(Exact()) ==> buf == Hash(transform, init, old(m), false)
    {
      var used := low % 64;
      assert used == |m| % 64;
      ghost var tail, m0, words := input[..used], m, Words();
      if 55 - used < 0 {
        Overflow(used);
        assert input[..0] == [];
        Close(0, [], []);
      } else {
        Copy(used, [0x80]);
        Close(used + 1, tail, [0x80]);
      }
      PaddedLength(m0, used, words);
      if old(Exact()) {
        WordsAreLength(|m0|);
        AllAbsorbed(transform, init, m, buf);
      }
    }

    lemma WordsAreLength(n: nat)
      requires Counts(low, high, n)
      ensures Words() == LengthBytes(n, false)
    {
      TwoWords(n * 8);
      BitWords(n, low, high);
    }
  }

  /** Any split of a message into updates of fewer than 2^32 bytes gives its hash. */
  method Digest<S(!new)>(transform: Step<S>, init: S, pieces: seq<seq<byte>>) returns (d: S)
    requires forall k :: 0 <= k < |pieces| ==> |pieces[k]| < TWO32
    ensures d == Hash(transform, init, Joined(pieces), false)
  {
    var context := new Context(transform, init);
    context.Init();
    for k := 0 to |pieces|
      invariant context.Valid() && context.Exact() && context.m == Joined(pieces[..k])
      invariant fresh(context) && fresh(context.input)
    {
      JoinedNext(pieces, k);
      context.Update(pieces[k]);
    }
    assert pieces[..|pieces|] == pieces;
    context.Final();
    d := context.buf;
  }

  // The bytes that Final adds, in one or two blocks.
  lemma PaddedLength(m: seq<byte>, used: nat, words: seq<byte>)
    requires used == |m| % 64
    ensures words == LengthBytes(|m|, false) && used <= 55 ==>
              m + ([0x80] + Zeros(55 - used) + words) == m + Padding(|m|, false)
    ensures words == LengthBytes(|m|, false) && used > 55 ==>
              m + ([0x80] + Zeros(63 - used)) + ([] + Zeros(56) + words) == m + Padding(|m|, false)
  {
    if used > 55 {
      assert Zeros(63 - used) + Zeros(56) == Zeros(119 - used);
    }
  }

  lemma NextPiece(m: seq<byte>, data: seq<byte>, a: nat, b: nat, c: nat)
    requires a <= b <= c <= |data|
    ensures m + data[a..b] + data[b..c] == m + data[a..c]
  {
    assert data[a..b] + data[b..c] == data[a..c];
  }
}
