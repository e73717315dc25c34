/**
 What a hash over 64-byte blocks feeds to its compression step: the whole message, padded as in
 sections 3.1 and 3.2 of RFC 1321 (length in little-endian order) or section 5.1.1 of FIPS 180-4
 (big-endian), cut into blocks. The compression step is a parameter.
 */
module HashBlocks {

  type byte = x: int | 0 <= x < 256
  type u32 = x: int | 0 <= x < 0x1_0000_0000

  const TWO32: int := 0x1_0000_0000
  const TWO64: int := 0x1_0000_0000_0000_0000

  type Step<!S> = (S, seq<byte>) -> S

  function Fold<S>(step: Step<S>, s: S, m: seq<byte>): S
    requires |m| % 64 == 0
    decreases |m|
  {
    if m == [] then s else Fold(step, step(s, m[..64]), m[64..])
  }

  function Zeros(n: nat): (r: seq<byte>)
    ensures |r| == n && forall i :: 0 <= i < n ==> r[i] == 0
  {
    seq(n, _ => 0)
  }

  // The n low bytes of v, lowest first.
  function LowBytes(v: nat, n: nat): (r: seq<byte>)
    ensures |r| == n
  {
    if n == 0 then [] else [v % 256] + LowBytes(v / 256, n - 1)
  }

  function Reversed(s: seq<byte>): (r: seq<byte>)
    ensures |r| == |s| && forall i :: 0 <= i < |s| ==> r[i] == s[|s| - 1 - i]
  {
    seq(|s|, i requires 0 <= i < |s| => s[|s| - 1 - i])
  }

  // The number of bits of an n-byte message, modulo 2^64, in 8 bytes.
  function LengthBytes(n: nat, bigEndian: bool): (r: seq<byte>)
    ensures |r| == 8
  {
    var bytes := LowBytes(n * 8, 8);
    if bigEndian then Reversed(bytes) else bytes
  }

  // How many zero bytes lead from n + 1 bytes to 56 modulo 64.
  function ZeroCount(n: nat): (k: nat)
    ensures k < 64 && (n + 1 + k) % 64 == 56
  {
    var used := n % 64;
    assert n == n / 64 * 64 + used;
    if used <= 55 then 55 - used else 119 - used
  }

  // It is the only such number up to itself.
  lemma ZerosDone(n: nat, k: nat)
    requires k <= ZeroCount(n)
    ensures (n + 1 + k) % 64 == 56 <==> k == ZeroCount(n)
  {
    var z := ZeroCount(n);
    assert n + 1 + z == (n + 1 + k) + (z - k);
  }

  // A one bit, zeros up to 56 modulo 64 bytes, and the length.
  function Padding(n: nat, bigEndian: bool): (r: seq<byte>)
    ensures (n + |r|) % 64 == 0
  {
    WholeBlocks(n, ZeroCount(n));
    [0x80] + Zeros(ZeroCount(n)) + LengthBytes(n, bigEndian)
  }

  lemma WholeBlocks(n: nat, k: nat)
    requires (n + 1 + k) % 64 == 56
    ensures (n + (1 + k + 8)) % 64 == 0
  {
    assert n + (1 + k + 8) == ((n + 1 + k) / 64 + 1) * 64;
  }

  function Hash<S>(step: Step<S>, init: S, m: seq<byte>, bigEndian: bool): S {
    Fold(step, init, m + Padding(|m|, bigEndian))
  }

  lemma {:induction false} FoldConcat<S>(step: Step<S>, s: S, a: seq<byte>, b: seq<byte>)
    requires |a| % 64 == 0 && |b| % 64 == 0
    ensures Fold(step, s, a + b) == Fold(step, Fold(step, s, a), b)
    decreases |a|
  {
    if a == [] {
      assert a + b == b;
    } else {
      FoldConcat(step, step(s, a[..64]), a[64..], b);
      assert (a + b)[..64] == a[..64] && (a + b)[64..] == a[64..] + b;
    }
  }

  // The state after all whole blocks of m, and what is left over.
  ghost predicate Absorbed<S(!new)>(step: Step<S>, init: S, m: seq<byte>, state: S, tail: seq<byte>) {
    var n := |m| / 64 * 64;
    state == Fold(step, init, m[..n]) && tail == m[n..]
  }

  lemma AbsorbNothing<S(!new)>(step: Step<S>, init: S)
    ensures Absorbed(step, init, [], init, [])
  {}

  lemma AbsorbedTail<S(!new)>(step: Step<S>, init: S, m: seq<byte>, state: S, tail: seq<byte>)
    requires Absorbed(step, init, m, state, tail)
    ensures |tail| == |m| % 64
  {}

  lemma AbsorbSome<S(!new)>(step: Step<S>, init: S, m: seq<byte>, state: S, tail: seq<byte>, more: seq<byte>)
    requires Absorbed(step, init, m, state, tail) && |tail| + |more| < 64
    ensures Absorbed(step, init, m + more, state, tail + more)
  {
    var n := |m| / 64 * 64;
    assert |m + more| / 64 * 64 == n;
    assert (m + more)[..n] == m[..n] && (m + more)[n..] == m[n..] + more;
  }

  lemma AbsorbBlock<S(!new)>(step: Step<S>, init: S, m: seq<byte>, state: S, tail: seq<byte>, more: seq<byte>)
    requires Absorbed(step, init, m, state, tail) && |tail| + |more| == 64
    ensures Absorbed(step, init, m + more, step(state, tail + more), [])
  {
    var n := |m| / 64 * 64;
    var all := m + more;
    assert |all| == n + 64 && |all| / 64 * 64 == n + 64;
    assert all[..n + 64] == m[..n] + (tail + more);
    FoldConcat(step, init, m[..n], tail + more);
    assert Fold(step, state, tail + more) == Fold(step, step(state, (tail + more)[..64]), (tail + more)[64..]);
    assert (tail + more)[..64] == tail + more && (tail + more)[64..] == [];
  }

  // When nothing is left over the state is the fold over everything.
  lemma AllAbsorbed<S(!new)>(step: Step<S>, init: S, m: seq<byte>, state: S)
    requires Absorbed(step, init, m, state, [])
    ensures |m| % 64 == 0 && state == Fold(step, init, m)
  {
    assert m[..|m|] == m;
  }

  // ---- length words ----

  lemma {:induction false} LowBytesSplit(v: nat, a: nat, b: nat)
    ensures LowBytes(v, a + b) == LowBytes(v, a) + LowBytes(Shift(v, a), b)
    decreases a
  {
    if a == 0 {
      assert LowBytes(v, 0) + LowBytes(v, b) == LowBytes(v, b);
    } else {
      LowBytesSplit(v / 256, a - 1, b);
    }
  }

  // v without its n low bytes.
  function Shift(v: nat, n: nat): nat { if n == 0 then v else Shift(v / 256, n - 1) }

  lemma Shift4(v: nat)
    ensures Shift(v, 4) == v / TWO32
  {
    assert v / 256 / 256 / 256 / 256 == v / TWO32;
    assert Shift(v, 4) == Shift(v / 256, 3) == Shift(v / 256 / 256, 2) == Shift(v / 256 / 256 / 256, 1);
  }

  function Power256(n: nat): nat { if n == 0 then 1 else 256 * Power256(n - 1) }

  // The low bytes do not see what is above them.
  lemma {:induction false} LowBytesAdd(v: nat, k: nat, n: nat)
    ensures LowBytes(v + k * Power256(n), n) == LowBytes(v, n)
  {
    if n > 0 {
      var x := k * Power256(n - 1);
      assert k * Power256(n) == 256 * x by { assert k * (256 * Power256(n - 1)) == 256 * x; }
      assert (v + 256 * x) % 256 == v % 256 && (v + 256 * x) / 256 == v / 256 + x;
      LowBytesAdd(v / 256, k, n - 1);
    }
  }

  lemma LowFour(v: nat)
    ensures LowBytes(v, 4) == LowBytes(v % TWO32, 4)
  {
    assert Power256(4) == TWO32;
    LowBytesAdd(v % TWO32, v / TWO32, 4);
    assert v == v % TWO32 + v / TWO32 * TWO32;
  }

  // Eight bytes by their two words.
  lemma TwoWords(v: nat)
    ensures LowBytes(v, 8) == LowBytes(v % TWO32, 4) + LowBytes(v / TWO32 % TWO32, 4)
  {
    LowBytesSplit(v, 4, 4);
    Shift4(v);
    LowFour(v);
    LowFour(v / TWO32);
  }

  lemma {:induction false} LowByteAt(v: nat, n: nat, k: nat)
    requires k < n
    ensures LowBytes(v, n)[k] == Shift(v, k) % 256
  {
    if k > 0 {
      LowByteAt(v / 256, n - 1, k - 1);
    }
  }

  // The bit count of n bytes, from a two-word byte count: low * 8 and high * 8 + low / 2^29.
  lemma BitWords(n: nat, low: u32, high: u32)
    requires low == n % TWO32 && high == n / TWO32 % TWO32
    ensures n * 8 % TWO32 == low * 8 % TWO32
    ensures n * 8 / TWO32 % TWO32 == high * 8 % TWO32 + low / 0x2000_0000
  {
    var h := n / TWO32;
    var l8, h8 := low * 8, high * 8;
    assert n * 8 == h * 8 * TWO32 + l8;
    assert l8 == low / 0x2000_0000 * TWO32 + l8 % TWO32 by {
      assert low == low / 0x2000_0000 * 0x2000_0000 + low % 0x2000_0000;
    }
    assert n * 8 == (h * 8 + low / 0x2000_0000) * TWO32 + l8 % TWO32;
    assert h == h / TWO32 * TWO32 + high;
    assert (h * 8 + low / 0x2000_0000) % TWO32 == (h8 + low / 0x2000_0000) % TWO32;
    EightTimes(high, low / 0x2000_0000);
  }

  lemma EightTimes(high: u32, c: nat)
    requires c < 8
    ensures (high * 8 + c) % TWO32 == high * 8 % TWO32 + c
  {
    var top, rest := high / 0x2000_0000, high % 0x2000_0000;
    assert high * 8 == top * TWO32 + rest * 8;
    assert rest * 8 + c < TWO32;
  }

  // ---- what the padding says ----

  // The number with these digits to base 256, the lowest first.
  function LittleValue(s: seq<byte>): nat {
    if s == [] then 0
    else
      var digit: int := s[0];
      digit + 256 * LittleValue(s[1..])
  }

  // And the highest first.
  function BigValue(s: seq<byte>): nat {
    if s == [] then 0
    else
      var digit: int := s[|s| - 1];
      BigValue(s[..|s| - 1]) * 256 + digit
  }

  lemma {:induction false} BigOfReversed(s: seq<byte>)
    ensures BigValue(Reversed(s)) == LittleValue(s)
  {
    if s != [] {
      var back := Reversed(s);
      assert back[..|back| - 1] == Reversed(s[1..]);
      BigOfReversed(s[1..]);
    }
  }

  lemma {:induction false} LowBytesValue(v: nat, n: nat)
    ensures v == LittleValue(LowBytes(v, n)) + Power256(n) * Shift(v, n)
    ensures LittleValue(LowBytes(v, n)) < Power256(n)
  {
    if n > 0 {
      LowBytesValue(v / 256, n - 1);
      assert LowBytes(v, n)[1..] == LowBytes(v / 256, n - 1);
      Scaled(Power256(n - 1), Shift(v, n));
    }
  }

  lemma Scaled(p: nat, q: nat)
    ensures 256 * (p * q) == (256 * p) * q
  {}

  lemma LengthValue(n: nat)
    ensures LittleValue(LengthBytes(n, false)) == n * 8 % TWO64 && BigValue(LengthBytes(n, true)) == n * 8 % TWO64
  {
    LowBytesValue(n * 8, 8);
    assert Power256(8) == TWO64;
    BigOfReversed(LowBytes(n * 8, 8));
  }

  /**
   The padding of n bytes: a one bit, zeros, and in the last eight bytes the number of bits modulo 2^64, in
   the order asked for; it ends a block, and there is no shorter one.
   */
  lemma PaddingShape(n: nat, bigEndian: bool)
    ensures var r := Padding(n, bigEndian);
            && 9 <= |r| <= 72 && (n + |r|) % 64 == 0 && r[0] == 0x80
            && (forall i :: 0 < i < |r| - 8 ==> r[i] == 0)
            && (if bigEndian then BigValue(r[|r| - 8..]) else LittleValue(r[|r| - 8..])) == n * 8 % TWO64
  {
    var r := Padding(n, bigEndian);
    assert r[|r| - 8..] == LengthBytes(n, bigEndian);
    LengthValue(n);
  }

  // ---- pieces ----

  // The bytes of all pieces in order.
  function Joined(pieces: seq<seq<byte>>): seq<byte> {
    if pieces == [] then [] else Joined(pieces[..|pieces| - 1]) + pieces[|pieces| - 1]
  }

  lemma JoinedNext(pieces: seq<seq<byte>>, k: nat)
    requires k < |pieces|
    ensures Joined(pieces[..k + 1]) == Joined(pieces[..k]) + pieces[k]
  {
    var s := pieces[..k + 1];
    assert s[..|s| - 1] == pieces[..k];
  }
}
