/** The buffering and padding of sha256.c; BrbSha256_Transform's compression is a parameter. */
module Sha256 {
  import opened HashBlocks

  // The bits of the whole blocks of n bytes, in 64 bits.
  function BlockBits(n: nat): nat { n / 64 * 512 % TWO64 }

  // Adding before or after the reduction is the same.
  lemma AddLater(a: nat, b: nat)
    ensures (a % TWO64 + b) % TWO64 == (a + b) % TWO64
  {
    var q, r := a / TWO64, a % TWO64;
    assert a + b == r + b + q * TWO64;
  }

  lemma NextBlock(n: nat)
    requires n % 64 == 63
    ensures (BlockBits(n) + 512) % TWO64 == BlockBits(n + 1)
  {
    AddLater(n / 64 * 512, 512);
    assert (n + 1) / 64 == n / 64 + 1;
  }

  lemma AllBits(n: nat)
    ensures (BlockBits(n) + n % 64 * 8) % TWO64 == n * 8 % TWO64
  {
    AddLater(n / 64 * 512, n % 64 * 8);
    assert n == n / 64 * 64 + n % 64;
  }

  // The counter's bytes are those of the length, whatever was lost above 64 bits.
  lemma CountBytes(n: nat, k: nat)
    requires k < 8
    ensures Shift(n * 8 % TWO64, k) % 256 == LengthBytes(n, true)[7 - k]
  {
    var v := n * 8;
    assert Power256(8) == TWO64;
    assert v == v % TWO64 + v / TWO64 * TWO64;
    LowBytesAdd(v % TWO64, v / TWO64, 8);
    LowByteAt(v % TWO64, 8, k);
  }

  class Context<S(!new)> {
    const transform: Step<S>
    const init: S
    var state: S
    const data: array<byte>
    var datalen: nat
    var bitlen: nat         // unsigned 64 bits; counts whole blocks only
    ghost var m: seq<byte>  // all bytes so far

    ghost predicate Valid()
      reads this, data
    {
      && data.Length == 64 && datalen == |m| % 64 && bitlen == BlockBits(|m|)
      && Absorbed(transform, init, m, state, data[..datalen])
    }

    constructor (transform: Step<S>, init: S)
      ensures this.transform == transform && this.init == init && fresh(data) && data.Length == 64
    {
      this.transform, this.init, state, datalen, bitlen, m := transform, init, init, 0, 0, [];
      data := new byte[64](_ => 0);
    }

    /** BrbSha256_Init. */
    method Init()
      requires data.Length == 64
      modifies this
      ensures Valid() && m == []
    {
      state, datalen, bitlen, m := init, 0, 0, [];
      AbsorbNothing(transform, init);
      assert data[..0] == [];
    }

    // One round of the loop of BrbSha256_Update.
    method Put(b: byte)
      requires Valid()
      modifies this, data
      ensures Valid() && m == old(m) + [b]
    {
      ghost var tail := data[..datalen];
      data[datalen] := b;
      datalen := datalen + 1;
      assert data[..datalen] == tail + [b];
      if datalen == 64 {
        NextBlock(|m|);
        AbsorbBlock(transform, init, m, state, tail, [b]);
        assert data[..] == data[..64] && data[..0] == [];
        state := transform(state, data[..]);
        bitlen := (bitlen + 512) % TWO64;
        datalen := 0;
      } else {
        AbsorbSome(transform, init, m, state, tail, [b]);
      }
      m := m + [b];
    }

    /** BrbSha256_Update; its index is an int. */
    method Update(bytes: seq<byte>)
      requires Valid() && |bytes| < 0x8000_0000
      modifies this, data
      ensures Valid() && m == old(m) + bytes
    {
      for i := 0 to |bytes|
        invariant Valid() && m == old(m) + bytes[..i]
      {
        Put(bytes[i]);
        assert bytes[..i] + [bytes[i]] == bytes[..i + 1];
      }
      assert bytes[..|bytes|] == bytes;
    }

    // The one bit and the zeros up to `end`.
    method Fill(end: nat)
      requires data.Length == 64 && datalen < end <= 64
      modifies data
      ensures data[..end] == old(data[..datalen]) + [0x80] + Zeros(end - datalen - 1)
    {
      var i := datalen;
      data[i] := 0x80;
      i := i + 1;
      while i < end
        invariant datalen < i <= end && data[datalen] == 0x80
        invariant forall k :: 0 <= k < datalen ==> data[k] == old(data[k])
        invariant forall k :: datalen < k < i ==> data[k] == 0
      {
        data[i] := 0;
        i := i + 1;
      }
    }

    // The length, highest byte first.
    method PutLength(ghost n: nat)
      requires data.Length == 64 && bitlen == n * 8 % TWO64
      modifies data
      ensures data[..56] == old(data[..56]) && data[56..] == LengthBytes(n, true)
    {
      for k := 0 to 8
        invariant forall i :: 0 <= i < 56 ==> data[i] == old(data[i])
        invariant forall i :: 64 - k <= i < 64 ==> data[i] == LengthBytes(n, true)[i - 56]
      {
        CountBytes(n, k);
        data[63 - k] := Shift(bitlen, k) % 256;
      }
    }

    // The last transformation; the block begins with `tail` and `head`.
    method Close(ghost n: nat, ghost tail: seq<byte>, ghost head: seq<byte>)
      requires data.Length == 64 && data[..56] == tail + head && bitlen == n * 8 % TWO64
      requires Absorbed(transform, init, m, state, tail)
      modifies data, this`state, this`m
      ensures m == old(m) + (head + LengthBytes(n, true)) && Absorbed(transform, init, m, state, [])
    {
      PutLength(n);
      ghost var rest := head + LengthBytes(n, true);
      assert data[..] == data[..56] + data[56..];
      assert tail + head + LengthBytes(n, true) == tail + rest;
      AbsorbBlock(transform, init, m, state, tail, rest);
      state := transform(state, data[..]);
      m := m + rest;
    }

    // memset over the first 56 bytes.
    method Clear()
      requires data.Length == 64
      modifies data
      ensures data[..56] == Zeros(56)
    {
      for k := 0 to 56
        invariant forall i :: 0 <= i < k ==> data[i] == 0
      {
        data[k] := 0;
      }
    }

    // The block that the padding overflows.
    method Overflow()
      requires Valid() && datalen >= 56
      modifies data, this`state, this`m
      ensures m == old(m) + ([0x80] + Zeros(63 - datalen)) && Absorbed(transform, init, m, state, [])
      ensures data[..56] == Zeros(56)
    {
      ghost var tail, rest := data[..datalen], [0x80] + Zeros(63 - datalen);
      Fill(64);
      assert data[..] == data[..64] && tail + [0x80] + Zeros(63 - datalen) == tail + rest;
      AbsorbBlock(transform, init, m, state, tail, rest);
      state := transform(state, data[..]);
      m := m + rest;
      Clear();
    }

    /** BrbSha256_Final: pads and transforms what is left; state is the digest. */
    method Final()
      requires Valid()
      modifies this, data
      ensures state == Hash(transform, init, old(m), true)
    {
      ghost var m0, used, tail := m, datalen, data[..datalen];
      AllBits(|m0|);
      PaddedLength(m0, used);
      if datalen < 56 {
        Fill(56);
        bitlen := (bitlen + datalen * 8) % TWO64;
        assert tail + [0x80] + Zeros(55 - used) == tail + ([0x80] + Zeros(55 - used));
        Close(|m0|, tail, [0x80] + Zeros(55 - used));
      } else {
        Overflow();
        bitlen := (bitlen + datalen * 8) % TWO64;
        Close(|m0|, [], Zeros(56));
      }
      AllAbsorbed(transform, init, m, state);
    }
  }

  lemma PaddedLength(m: seq<byte>, used: nat)
    requires used == |m| % 64
    ensures used < 56 ==> m + ([0x80] + Zeros(55 - used) + LengthBytes(|m|, true)) == m + Padding(|m|, true)
    ensures used >= 56 ==>
              m + ([0x80] + Zeros(63 - used)) + (Zeros(56) + LengthBytes(|m|, true)) == m + Padding(|m|, true)
  {
    if used >= 56 {
      assert Zeros(63 - used) + Zeros(56) == Zeros(119 - used);
    }
  }

  /** Any split of a message into updates gives its hash. */
  method Digest<S(!new)>(transform: Step<S>, init: S, pieces: seq<seq<byte>>) returns (d: S)
    requires forall k :: 0 <= k < |pieces| ==> |pieces[k]| < 0x8000_0000
    ensures d == Hash(transform, init, Joined(pieces), true)
  {
    var context := new Context(transform, init);
    context.Init();
    for k := 0 to |pieces|
      invariant context.Valid() && context.m == Joined(pieces[..k])
      invariant fresh(context) && fresh(context.data)
    {
      JoinedNext(pieces, k);
      context.Update(pieces[k]);
    }
    assert pieces[..|pieces|] == pieces;
    context.Final();
    d := context.state;
  }
}
