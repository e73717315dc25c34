/**
 What Blowfish computes, in natural numbers: the round function, the words of the key, the order of the
 subkeys, and the tables after the key setup as a chain of encryptions.
 */
module BlowfishWords {
  import opened Blowfish

  const TWO32: nat := 0x1_0000_0000

  // ---- 32-bit words as numbers ----

  lemma WideNat(x: bv32)
    ensures (x as bv64) as nat == x as nat
  {}

  lemma WideSum(x: bv32, y: bv32)
    ensures (x as bv64 + y as bv64) as nat == x as nat + y as nat
  {}

  lemma WideCarry(x: bv32)
    ensures (x as bv64 + 0x1_0000_0000) as nat == x as nat + TWO32
  {}

  lemma Below32(x: bv32)
    ensures x as nat < TWO32
  {}

  predicate ExactSum(x: bv32, y: bv32, s: bv32) { s as bv64 == x as bv64 + y as bv64 }

  predicate CarrySum(x: bv32, y: bv32, s: bv32) { x as bv64 + y as bv64 == s as bv64 + 0x1_0000_0000 }

  lemma IsSum(x: bv32, y: bv32)
    ensures ExactSum(x, y, Add32(x, y)) || CarrySum(x, y, Add32(x, y))
  {}

  lemma ExactNat(x: bv32, y: bv32, s: bv32)
    requires ExactSum(x, y, s)
    ensures s as nat == x as nat + y as nat
  {
    WideSum(x, y);
    WideNat(s);
  }

  lemma CarryNat(x: bv32, y: bv32, s: bv32)
    requires CarrySum(x, y, s)
    ensures x as nat + y as nat == s as nat + TWO32
  {
    WideSum(x, y);
    WideCarry(s);
  }

  lemma Reduced(x: nat, y: nat, s: nat)
    requires s < TWO32 && (s == x + y || s + TWO32 == x + y)
    ensures s == (x + y) % TWO32
  {}

  lemma SumNat(x: bv32, y: bv32, s: bv32)
    requires ExactSum(x, y, s) || CarrySum(x, y, s)
    ensures s as nat == (x as nat + y as nat) % TWO32
  {
    Below32(s);
    if ExactSum(x, y, s) {
      ExactNat(x, y, s);
    } else {
      CarryNat(x, y, s);
    }
    Reduced(x as nat, y as nat, s as nat);
  }

  /** Adding words is adding numbers modulo 2^32. */
  lemma AddNat(x: bv32, y: bv32)
    ensures Add32(x, y) as nat == (x as nat + y as nat) % TWO32
  {
    IsSum(x, y);
    SumNat(x, y, Add32(x, y));
  }

  lemma WideShift(x: bv32)
    ensures ((x as bv64) << 8) as nat == x as nat * 256
  {}

  lemma NextByte(y: bv8)
    requires y as int < 255
    ensures (y + 1) as int == y as int + 1
  {
    NotTop(y);
    Successor(y);
  }

  lemma NotTop(y: bv8)
    requires y as int < 255
    ensures y < 255
  {}

  lemma Successor(y: bv8)
    requires y < 255
    ensures (y + 1) as int == y as int + 1
  {}

  // There is a byte for every number below 256.
  lemma {:induction false} SomeByte(b: int) returns (y: bv8)
    requires 0 <= b < 256
    ensures y as int == b
  {
    if b == 0 {
      y := 0;
    } else {
      var p := SomeByte(b - 1);
      NextByte(p);
      y := p + 1;
    }
  }

  lemma OctetNat(b: octet)
    ensures (b as bv8) as int == b
  {
    var y := SomeByte(b);
    OctetBack(y);
  }

  lemma WideByte(y: bv8)
    ensures (y as bv32) as nat == y as nat
  {}

  predicate Shifted(x: bv32, z: bv32) { z as bv64 == (x as bv64) << 8 }

  lemma ShiftedNat(x: bv32, z: bv32)
    requires Shifted(x, z)
    ensures z as nat == x as nat * 256
  {
    WideShift(x);
    WideNat(z);
  }

  lemma PushShifts(x: bv32)
    requires x < 0x100_0000
    ensures Shifted(x, x << 8)
  {}

  lemma PushIsSum(x: bv32, b: bv8)
    requires x < 0x100_0000
    ensures ExactSum(x << 8, b as bv32, (x << 8) | b as bv32)
  {}

  lemma AppendedNat(x: bv32, z: bv32, b: bv8, s: bv32)
    requires Shifted(x, z) && ExactSum(z, b as bv32, s)
    ensures s as nat == x as nat * 256 + b as nat
  {
    var w := b as bv32;
    assert w as nat == b as nat by { WideByte(b); }
    var m, n, o, p := x as nat, z as nat, w as nat, s as nat;
    assert n == m * 256 by { ShiftedNat(x, z); }
    assert p == n + o by { ExactNat(z, w, s); }
  }

  lemma PushIs(x: bv32, b: octet, y: bv8)
    requires y == b as bv8
    ensures Push32(x, b) == (x << 8) | y as bv32
  {}

  /** Shifting a byte in is appending a digit to base 256. */
  lemma PushNat(x: bv32, b: octet, s: bv32)
    requires x < 0x100_0000 && s == Push32(x, b)
    ensures s as nat == x as nat * 256 + b
  {
    var y := b as bv8;
    OctetNat(b);
    PushIs(x, b, y);
    PushShifts(x);
    PushIsSum(x, y);
    AppendedNat(x, x << 8, y, s);
  }

  lemma SmallBits(x: bv32, b: bv8)
    ensures x < 0x1_0000 ==> (x << 8) | b as bv32 < 0x100_0000
    ensures x < 0x100 ==> (x << 8) | b as bv32 < 0x1_0000
    ensures x == 0 ==> (x << 8) | b as bv32 < 0x100
  {}

  lemma PushSmall(x: bv32, b: octet)
    ensures x < 0x1_0000 ==> Push32(x, b) < 0x100_0000
    ensures x < 0x100 ==> Push32(x, b) < 0x1_0000
    ensures x == 0 ==> Push32(x, b) < 0x100
  {
    SmallBits(x, b as bv8);
  }

  lemma ZeroNat(x: bv32)
    requires x == 0
    ensures x as nat == 0
  {}

  // Four bytes as a number, the first one highest.
  function Number(a: octet, b: octet, c: octet, d: octet): nat { ((a * 256 + b) * 256 + c) * 256 + d }

  lemma FourPushed(a: octet, b: octet, c: octet, d: octet, w1: bv32, w2: bv32, w3: bv32, w: bv32)
    requires w1 == Push32(0, a) && w2 == Push32(w1, b) && w3 == Push32(w2, c) && w == Push32(w3, d)
    ensures w as nat == Number(a, b, c, d)
  {
    ZeroNat(0);
    PushSmall(0, a);
    PushSmall(w1, b);
    PushSmall(w2, c);
    PushNat(0, a, w1);
    PushNat(w1, b, w2);
    PushNat(w2, c, w3);
    PushNat(w3, d, w);
  }

  lemma OctetBack(b: bv8)
    ensures (b as int) as bv8 == b
  {}

  function Join(x: bv32, b: bv8): bv32 { (x << 8) | b as bv32 }

  lemma EightsJoined(x: bv32)
    ensures Join(Join(Join(Join(0, ((x >> 24) & 0xFF) as bv8), ((x >> 16) & 0xFF) as bv8), ((x >> 8) & 0xFF) as bv8),
                 (x & 0xFF) as bv8) == x
  {}

  lemma PushOctet(x: bv32, b: bv8)
    ensures Push32(x, b as int) == Join(x, b)
  {
    OctetBack(b);
    PushIs(x, b as int, b);
  }

  lemma FourEights(a: bv8, b: bv8, c: bv8, d: bv8, x: bv32)
    requires Join(Join(Join(Join(0, a), b), c), d) == x
    ensures x as nat == Number(a as int, b as int, c as int, d as int)
  {
    var w1 := Join(0, a);
    var w2 := Join(w1, b);
    var w3 := Join(w2, c);
    PushOctet(0, a);
    PushOctet(w1, b);
    PushOctet(w2, c);
    PushOctet(w3, d);
    FourPushed(a as int, b as int, c as int, d as int, w1, w2, w3, x);
  }

  /** The four bytes of a word are its digits to base 256, the highest first. */
  lemma BytesNat(x: bv32)
    ensures var n := Bytes32(x); x as nat == Number(n.0, n.1, n.2, n.3)
  {
    EightsJoined(x);
    FourEights(((x >> 24) & 0xFF) as bv8, ((x >> 16) & 0xFF) as bv8, ((x >> 8) & 0xFF) as bv8, (x & 0xFF) as bv8, x);
  }

  // ---- the round function ----

  // y comes from the entries for the four digits of a word: v is the sum of the first two, u is v
  // exclusive-or'd with the third, and y is the sum of u and the fourth, both modulo 2^32.
  predicate IsRound(s0: bv32, s1: bv32, s2: bv32, s3: bv32, v: bv32, u: bv32, y: bv32) {
    v as nat == (s0 as nat + s1 as nat) % TWO32 && u == v ^ s2 && y as nat == (u as nat + s3 as nat) % TWO32
  }

  lemma RoundNat(a: bv32, b: bv32, c: bv32, d: bv32, v: bv32, u: bv32, y: bv32)
    requires v == Add32(a, b) && u == Xor32(v, c) && y == Add32(u, d)
    ensures IsRound(a, b, c, d, v, u, y)
  {
    AddNat(a, b);
    AddNat(u, d);
  }

  lemma RoundIs(k: Keys<bv32>, x: bv32, a: octet, b: octet, c: octet, d: octet)
    requires k.Shaped() && Bytes32(x) == (a, b, c, d)
    ensures F(Word32(), k, x) == Add32(Xor32(Add32(k.s[0][a], k.s[1][b]), k.s[2][c]), k.s[3][d])
  {}

  /** The round function, by the bytes of the word, which are its digits to base 256 (`BytesNat`). */
  lemma RoundValue(k: Keys<bv32>, x: bv32) returns (v: bv32, u: bv32)
    requires k.Shaped()
    ensures var n := Bytes32(x);
            IsRound(k.s[0][n.0], k.s[1][n.1], k.s[2][n.2], k.s[3][n.3], v, u, F(Word32(), k, x))
  {
    var n := Bytes32(x);
    v := Add32(k.s[0][n.0], k.s[1][n.1]);
    u := Xor32(v, k.s[2][n.2]);
    RoundIs(k, x, n.0, n.1, n.2, n.3);
    RoundNat(k.s[0][n.0], k.s[1][n.1], k.s[2][n.2], k.s[3][n.3], v, u, F(Word32(), k, x));
  }

  // ---- the order of the subkeys ----

  // w with n subkeys, every second one from i on.
  function Mixed<W>(o: Word<W>, k: Keys<W>, w: W, i: nat, n: nat): W
    requires k.Shaped() && i + 2 * n <= 19
  {
    if n == 0 then w else o.xor(Mixed(o, k, w, i, n - 1), k.p[i + 2 * (n - 1)])
  }

  // All entries of the S-boxes are zero.
  predicate NoBoxes<W(==)>(o: Word<W>, k: Keys<W>)
    requires k.Shaped()
  {
    forall i, j :: 0 <= i < 4 && 0 <= j < 256 ==> k.s[i][j] == o.zero
  }

  ghost predicate Neutral<W(!new)>(o: Word<W>) {
    o.add(o.zero, o.zero) == o.zero && forall x :: o.xor(o.zero, x) == x
  }

  lemma {:induction false} PlainRounds<W(!new)>(o: Word<W>, k: Keys<W>, l: W, r: W, n: nat)
    requires k.Shaped() && NoBoxes(o, k) && Neutral(o) && n <= 8
    ensures Rounds(o, k, 2 * n, l, r) == (Mixed(o, k, l, 0, n), Mixed(o, k, r, 1, n))
  {
    if n > 0 {
      PlainRounds(o, k, l, r, n - 1);
      PlainRound(o, k, l, r, 2 * n - 2);
      PlainRound(o, k, l, r, 2 * n - 1);
    }
  }

  lemma PlainRound<W(!new)>(o: Word<W>, k: Keys<W>, l: W, r: W, n: nat)
    requires k.Shaped() && NoBoxes(o, k) && Neutral(o) && n < 16
    ensures var x := Rounds(o, k, n, l, r); Rounds(o, k, n + 1, l, r) == (x.1, o.xor(x.0, k.p[n]))
  {
    var x := Rounds(o, k, n, l, r);
    NoRound(o, k, o.xor(x.0, k.p[n]));
  }

  lemma NoRound<W(!new)>(o: Word<W>, k: Keys<W>, x: W)
    requires k.Shaped() && NoBoxes(o, k) && Neutral(o)
    ensures F(o, k, x) == o.zero
  {
    var (a, b, c, d) := o.bytes(x);
    assert k.s[0][a] == o.zero && k.s[1][b] == o.zero && k.s[2][c] == o.zero && k.s[3][d] == o.zero;
    assert o.xor(o.zero, o.zero) == o.zero;
  }

  /**
   With S-boxes of zeros the left word of an encryption is the right one that came in with the subkeys 1,
   3, .. 17, and the right word is the left one with 0, 2, .. 16.
   */
  lemma SubkeyOrder<W(!new)>(o: Word<W>, k: Keys<W>, l: W, r: W)
    requires k.Shaped() && NoBoxes(o, k) && Neutral(o)
    ensures Cipher(o, k, l, r) == (Mixed(o, k, r, 1, 9), Mixed(o, k, l, 0, 9))
  {
    PlainRounds(o, k, l, r, 8);
  }

  lemma NeutralWords()
    ensures Neutral(Word32()) && Neutral(Word64())
  {
    forall x ensures Word32().xor(0, x) == x { Neutral32(x); }
    forall x ensures Word64().xor(0, x) == x { Neutral64(x); }
    ZeroSums();
  }

  lemma Neutral32(x: bv32)
    ensures Xor32(0, x) == x
  {}

  lemma Neutral64(x: bv64)
    ensures Xor64(0, x) == x
  {}

  lemma ZeroSums()
    ensures Add32(0, 0) == 0 && Add64(0, 0) == 0
  {}

  // ---- the words of the key ----

  /** Four bytes of the key, taken around again when it ends, the first one highest. */
  lemma KeyWordNat(key: seq<octet>, at: nat)
    requires |key| > 0
    ensures var n := |key|;
            KeyWord(Word32(), key, at, 4) as nat
            == Number(key[at % n], key[(at + 1) % n], key[(at + 2) % n], key[(at + 3) % n])
  {
    var n, o := |key|, Word32();
    var w1, w2, w3, w := KeyWord(o, key, at, 1), KeyWord(o, key, at, 2), KeyWord(o, key, at, 3), KeyWord(o, key, at, 4);
    assert KeyWord(o, key, at, 0) == 0 && at + 1 - 1 == at && at + 2 - 1 == at + 1;
    NextOctet(key, at, 0, 0, w1);
    NextOctet(key, at, 1, w1, w2);
    NextOctet(key, at, 2, w2, w3);
    NextOctet(key, at, 3, w3, w);
    FourPushed(key[at % n], key[(at + 1) % n], key[(at + 2) % n], key[(at + 3) % n], w1, w2, w3, w);
  }

  lemma NextOctet(key: seq<octet>, at: nat, n: nat, w: bv32, v: bv32)
    requires |key| > 0 && KeyWord(Word32(), key, at, n) == w && KeyWord(Word32(), key, at, n + 1) == v
    ensures v == Push32(w, key[(at + n) % |key|])
  {
    assert at + (n + 1) - 1 == at + n;
  }

  // ---- the key setup ----

  // The subkeys while pair i is computed: those in front are final, the others are still as at the start.
  function Halfway<W>(x: Keys<W>, y: Keys<W>, i: nat): (k: Keys<W>)
    requires x.Shaped() && y.Shaped() && i <= 18
    ensures k.Shaped()
  {
    Keys(y.p[..i] + x.p[i..], x.s)
  }

  // Subkeys i and i + 1 are the encryption of the two in front of them, or of l and r at the front.
  predicate SubkeysChain<W(==)>(o: Word<W>, x: Keys<W>, y: Keys<W>, from: nat, l: W, r: W, i: nat)
    requires x.Shaped() && y.Shaped() && from <= i <= 16
  {
    (y.p[i], y.p[i + 1]) ==
    (if i < from + 2 then Cipher(o, Halfway(x, y, i), l, r) else Cipher(o, Halfway(x, y, i), y.p[i - 2], y.p[i - 1]))
  }

  lemma {:induction false} FillPChain<W>(o: Word<W>, x: Chain<W>, i: nat)
    requires x.k.Shaped() && i % 2 == 0 && i <= 18
    ensures var y := FillP(o, x, i);
            && y.k.s == x.k.s && y.k.p[..i] == x.k.p[..i]
            && (forall n :: i <= n <= 16 && n % 2 == 0 ==> SubkeysChain(o, x.k, y.k, i, x.l, x.r, n))
            && (y.l, y.r) == (if i == 18 then (x.l, x.r) else (y.k.p[16], y.k.p[17]))
    decreases 18 - i
  {
    if i < 18 {
      var c := Cipher(o, x.k, x.l, x.r);
      var z := Chain(SetP(x.k, i, c), c.0, c.1);
      FillPChain(o, z, i + 2);
      FillPNext(o, x, i, c, z);
      var y := FillP(o, x, i).k;
      FirstLink(o, x, i, c, z, y);
      forall n | i + 2 <= n <= 16 && n % 2 == 0 ensures SubkeysChain(o, x.k, y, i, x.l, x.r, n) {
        LaterLink(o, x, i, c, z, y, n);
      }
    }
  }

  lemma FillPNext<W>(o: Word<W>, x: Chain<W>, i: nat, c: (W, W), z: Chain<W>)
    requires x.k.Shaped() && i % 2 == 0 && i <= 16 && c == Cipher(o, x.k, x.l, x.r)
    requires z == Chain(SetP(x.k, i, c), c.0, c.1)
    ensures FillP(o, x, i) == FillP(o, z, i + 2)
  {}

  lemma FirstLink<W>(o: Word<W>, x: Chain<W>, i: nat, c: (W, W), z: Chain<W>, y: Keys<W>)
    requires x.k.Shaped() && y.Shaped() && i <= 16 && c == Cipher(o, x.k, x.l, x.r)
    requires z == Chain(SetP(x.k, i, c), c.0, c.1) && y.p[..i + 2] == z.k.p[..i + 2] && y.s == z.k.s
    ensures y.p[..i] == x.k.p[..i] && y.s == x.k.s && (y.p[i], y.p[i + 1]) == c
    ensures SubkeysChain(o, x.k, y, i, x.l, x.r, i)
  {
    assert y.p[..i] == y.p[..i + 2][..i] == z.k.p[..i];
    assert y.p[i] == y.p[..i + 2][i] && y.p[i + 1] == y.p[..i + 2][i + 1];
    assert Halfway(x.k, y, i).p == x.k.p;
  }

  lemma LaterLink<W>(o: Word<W>, x: Chain<W>, i: nat, c: (W, W), z: Chain<W>, y: Keys<W>, n: nat)
    requires x.k.Shaped() && y.Shaped() && i + 2 <= n <= 16 && i % 2 == 0 && n % 2 == 0
    requires z == Chain(SetP(x.k, i, c), c.0, c.1) && (y.p[i], y.p[i + 1]) == c
    requires SubkeysChain(o, z.k, y, i + 2, z.l, z.r, n)
    ensures SubkeysChain(o, x.k, y, i, x.l, x.r, n)
  {
    assert z.k.p[n..] == x.k.p[n..];
    assert Halfway(z.k, y, n) == Halfway(x.k, y, n);
  }

  // The S-boxes while entries j and j + 1 of box i are computed.
  function HalfBoxes<W>(x: Keys<W>, y: Keys<W>, i: nat, j: nat): (k: Keys<W>)
    requires x.Shaped() && y.Shaped() && i < 4 && j <= 256
    ensures k.Shaped()
  {
    Keys(x.p, seq(4, n requires 0 <= n < 4 => if n < i then y.s[n] else if n > i then x.s[n]
                                              else y.s[i][..j] + x.s[i][j..]))
  }

  // The two words in front of entry j of box i: l and r in front of the first one.
  function Before<W>(y: Keys<W>, i: nat, j: nat, l: W, r: W): (W, W)
    requires y.Shaped() && i < 4 && j < 256 && j % 2 == 0
  {
    if j >= 2 then (y.s[i][j - 2], y.s[i][j - 1]) else if i > 0 then (y.s[i - 1][254], y.s[i - 1][255]) else (l, r)
  }

  predicate BoxesChain<W(==)>(o: Word<W>, x: Keys<W>, y: Keys<W>, i: nat, j: nat, l: W, r: W)
    requires x.Shaped() && y.Shaped() && i < 4 && j < 256 && j % 2 == 0
  {
    var b := Before(y, i, j, l, r);
    (y.s[i][j], y.s[i][j + 1]) == Cipher(o, HalfBoxes(x, y, i, j), b.0, b.1)
  }

  // Entry (m, n) comes before entry (i, j).
  predicate Earlier(m: nat, n: nat, i: nat, j: nat) { m < i || (m == i && n < j) }

  // From entry j of box i on.
  predicate Untouched<W(==)>(x: Keys<W>, k: Keys<W>, i: nat, j: nat)
    requires x.Shaped() && k.Shaped()
  {
    forall m, n :: 0 <= m < 4 && 0 <= n < 256 && !Earlier(m, n, i, j) ==> k.s[m][n] == x.s[m][n]
  }

  // In front of it.
  predicate Chained<W(==)>(o: Word<W>, x: Keys<W>, k: Keys<W>, i: nat, j: nat, l: W, r: W)
    requires x.Shaped() && k.Shaped()
  {
    forall m, n {:trigger BoxesChain(o, x, k, m, n, l, r)} ::
      0 <= m < 4 && 0 <= n < 256 && n % 2 == 0 && Earlier(m, n, i, j) ==> BoxesChain(o, x, k, m, n, l, r)
  }

  // The chain up to entry j of box i; k is the tables then, z the final ones.
  ghost predicate Filled<W>(o: Word<W>, x: Keys<W>, k: Keys<W>, i: nat, j: nat, l: W, r: W, l': W, r': W)
    requires x.Shaped() && k.Shaped() && i <= 4 && j <= 256 && j % 2 == 0
  {
    && k.p == x.p && Untouched(x, k, i, j) && Chained(o, x, k, i, j, l, r)
    && (l', r') == (if j >= 2 && i < 4 then (k.s[i][j - 2], k.s[i][j - 1])
                    else if i > 0 then (k.s[i - 1][254], k.s[i - 1][255]) else (l, r))
  }

  // Tables that agree up to an entry give the same chain there.
  lemma SameChain<W>(o: Word<W>, x: Keys<W>, y: Keys<W>, k: Keys<W>, i: nat, j: nat, l: W, r: W)
    requires x.Shaped() && y.Shaped() && k.Shaped() && i < 4 && j < 256 && j % 2 == 0
    requires SameFront(y, k, i, j + 2)
    requires BoxesChain(o, x, y, i, j, l, r)
    ensures BoxesChain(o, x, k, i, j, l, r)
  {
    SameHalf(x, y, k, i, j);
    assert Earlier(i, j, i, j + 2) && Earlier(i, j + 1, i, j + 2);
    if j >= 2 {
      assert Earlier(i, j - 2, i, j + 2) && Earlier(i, j - 1, i, j + 2);
    } else if i > 0 {
      assert Earlier(i - 1, 254, i, j + 2) && Earlier(i - 1, 255, i, j + 2);
    }
  }

  lemma SameHalf<W>(x: Keys<W>, y: Keys<W>, k: Keys<W>, i: nat, j: nat)
    requires x.Shaped() && y.Shaped() && k.Shaped() && i < 4 && j < 256
    requires SameFront(y, k, i, j + 2)
    ensures HalfBoxes(x, k, i, j) == HalfBoxes(x, y, i, j)
  {
    forall m | 0 <= m < i ensures k.s[m] == y.s[m] {
      forall n | 0 <= n < 256 ensures k.s[m][n] == y.s[m][n] { assert Earlier(m, n, i, j + 2); }
    }
    forall n | 0 <= n < j ensures k.s[i][n] == y.s[i][n] { assert Earlier(i, n, i, j + 2); }
    assert k.s[i][..j] == y.s[i][..j];
    assert HalfBoxes(x, k, i, j).s == HalfBoxes(x, y, i, j).s;
  }

  // One more pair.
  lemma NextPair<W>(o: Word<W>, x: Keys<W>, k: Keys<W>, y: Keys<W>, i: nat, j: nat, l: W, r: W, l': W, r': W, c: (W, W))
    requires x.Shaped() && k.Shaped() && i < 4 && j < 255 && j % 2 == 0 && y == SetS(k, i, j, c)
    requires Filled(o, x, k, i, j, l, r, l', r') && c == Cipher(o, k, l', r')
    ensures Filled(o, x, y, i, j + 2, l, r, c.0, c.1)
  {
    PairHalf(x, k, y, i, j, c);
    PairBefore(o, x, k, y, i, j, l, r, l', r', c);
    SetSFront(k, y, i, j, c);
    PairsChained(o, x, k, y, i, j, l, r);
    PairUntouched(x, k, y, i, j, c);
  }

  lemma PairsChained<W>(o: Word<W>, x: Keys<W>, k: Keys<W>, y: Keys<W>, i: nat, j: nat, l: W, r: W)
    requires x.Shaped() && k.Shaped() && y.Shaped() && i < 4 && j < 255 && j % 2 == 0 && SameFront(k, y, i, j)
    requires Chained(o, x, k, i, j, l, r) && BoxesChain(o, x, y, i, j, l, r)
    ensures Chained(o, x, y, i, j + 2, l, r)
  {
    forall m, n | 0 <= m < 4 && 0 <= n < 256 && n % 2 == 0 && Earlier(m, n, i, j + 2)
      ensures BoxesChain(o, x, y, m, n, l, r)
    {
      PairAt(o, x, k, y, i, j, l, r, m, n);
    }
  }

  lemma EvenEarlier(m: nat, n: nat, i: nat, j: nat)
    requires n % 2 == 0 && j % 2 == 0 && Earlier(m, n, i, j + 2) && (m != i || n != j)
    ensures Earlier(m, n, i, j)
  {}

  lemma PairAt<W>(o: Word<W>, x: Keys<W>, k: Keys<W>, y: Keys<W>, i: nat, j: nat, l: W, r: W, m: nat, n: nat)
    requires x.Shaped() && k.Shaped() && y.Shaped() && i < 4 && j < 255 && j % 2 == 0 && SameFront(k, y, i, j)
    requires Chained(o, x, k, i, j, l, r) && BoxesChain(o, x, y, i, j, l, r)
    requires m < 4 && n < 256 && n % 2 == 0 && Earlier(m, n, i, j + 2)
    ensures BoxesChain(o, x, y, m, n, l, r)
  {
    if m != i || n != j {
      EvenEarlier(m, n, i, j);
      assert BoxesChain(o, x, k, m, n, l, r);
      PairKeeps(o, x, k, y, i, j, l, r, m, n);
    }
  }

  lemma PairUntouched<W>(x: Keys<W>, k: Keys<W>, y: Keys<W>, i: nat, j: nat, c: (W, W))
    requires x.Shaped() && k.Shaped() && y.Shaped() && i < 4 && j < 255 && y == SetS(k, i, j, c)
    requires Untouched(x, k, i, j)
    ensures Untouched(x, y, i, j + 2)
  {
    forall m, n | 0 <= m < 4 && 0 <= n < 256 && !Earlier(m, n, i, j + 2) ensures y.s[m][n] == x.s[m][n] {
      assert !Earlier(m, n, i, j);
    }
  }

  lemma PairBefore<W>(o: Word<W>, x: Keys<W>, k: Keys<W>, y: Keys<W>, i: nat, j: nat, l: W, r: W, l': W, r': W,
                      c: (W, W))
    requires x.Shaped() && k.Shaped() && i < 4 && j < 255 && j % 2 == 0 && y == SetS(k, i, j, c)
    requires Filled(o, x, k, i, j, l, r, l', r') && c == Cipher(o, k, l', r') && HalfBoxes(x, y, i, j) == k
    ensures BoxesChain(o, x, y, i, j, l, r)
  {
    assert Before(y, i, j, l, r) == (l', r');
  }

  // What is in front of entry (i, j) is the same.
  predicate SameFront<W(==)>(k: Keys<W>, y: Keys<W>, i: nat, j: nat)
    requires k.Shaped() && y.Shaped()
  {
    forall m, n :: 0 <= m < 4 && 0 <= n < 256 && Earlier(m, n, i, j) ==> y.s[m][n] == k.s[m][n]
  }

  lemma SetSFront<W>(k: Keys<W>, y: Keys<W>, i: nat, j: nat, c: (W, W))
    requires k.Shaped() && i < 4 && j < 255 && y == SetS(k, i, j, c)
    ensures y.Shaped() && SameFront(k, y, i, j)
  {}

  lemma PairKeeps<W>(o: Word<W>, x: Keys<W>, k: Keys<W>, y: Keys<W>, i: nat, j: nat, l: W, r: W, m: nat, n: nat)
    requires x.Shaped() && k.Shaped() && y.Shaped() && i < 4 && j < 255 && j % 2 == 0 && SameFront(k, y, i, j)
    requires m < 4 && n < 256 && n % 2 == 0 && Earlier(m, n, i, j) && BoxesChain(o, x, k, m, n, l, r)
    ensures BoxesChain(o, x, y, m, n, l, r)
  {
    assert SameFront(k, y, m, n + 2);
    SameChain(o, x, k, y, m, n, l, r);
  }

  lemma PairHalf<W>(x: Keys<W>, k: Keys<W>, y: Keys<W>, i: nat, j: nat, c: (W, W))
    requires x.Shaped() && k.Shaped() && i < 4 && j < 255 && y == SetS(k, i, j, c) && k.p == x.p
    requires Untouched(x, k, i, j)
    ensures HalfBoxes(x, y, i, j) == k
  {
    forall m | 0 <= m < 4 ensures HalfBoxes(x, y, i, j).s[m] == k.s[m] {
      forall n | 0 <= n < 256 && (m > i || (m == i && n >= j)) ensures k.s[m][n] == x.s[m][n] {
        assert !Earlier(m, n, i, j);
      }
    }
    assert HalfBoxes(x, y, i, j).s == k.s;
  }

  lemma NextBox<W>(o: Word<W>, x: Keys<W>, k: Keys<W>, i: nat, l: W, r: W, l': W, r': W)
    requires x.Shaped() && k.Shaped() && i < 4 && Filled(o, x, k, i, 256, l, r, l', r')
    ensures Filled(o, x, k, i + 1, 0, l, r, l', r')
  {
    forall m, n | 0 <= m < 4 && 0 <= n < 256 ensures Earlier(m, n, i + 1, 0) <==> Earlier(m, n, i, 256) {}
  }

  lemma FillSNext<W>(o: Word<W>, k: Keys<W>, y: Keys<W>, i: nat, j: nat, l: W, r: W, c: (W, W))
    requires k.Shaped() && i < 4 && j < 255 && j % 2 == 0 && c == Cipher(o, k, l, r) && y == SetS(k, i, j, c)
    ensures FillS(o, Chain(k, l, r), i, j) == FillS(o, Chain(y, c.0, c.1), i, j + 2)
  {}

  lemma FillSBox<W>(o: Word<W>, k: Keys<W>, i: nat, l: W, r: W)
    requires k.Shaped() && i < 4
    ensures FillS(o, Chain(k, l, r), i, 256) == FillS(o, Chain(k, l, r), i + 1, 0)
  {}

  lemma {:induction false} FillSChain<W>(o: Word<W>, x: Keys<W>, k: Keys<W>, i: nat, j: nat, l: W, r: W, l': W, r': W)
    requires x.Shaped() && k.Shaped() && i <= 4 && j <= 256 && j % 2 == 0 && (i == 4 ==> j == 0)
    requires Filled(o, x, k, i, j, l, r, l', r')
    ensures var y := FillS(o, Chain(k, l', r'), i, j);
            Filled(o, x, y.k, 4, 0, l, r, y.l, y.r)
    decreases 4 - i, 256 - j
  {
    if i < 4 {
      if j >= 256 {
        FillSBox(o, k, i, l', r');
        NextBox(o, x, k, i, l, r, l', r');
        FillSChain(o, x, k, i + 1, 0, l, r, l', r');
      } else {
        var c := Cipher(o, k, l', r');
        var y := SetS(k, i, j, c);
        FillSNext(o, k, y, i, j, l', r', c);
        NextPair(o, x, k, y, i, j, l, r, l', r', c);
        FillSChain(o, x, y, i, j + 2, l, r, c.0, c.1);
      }
    }
  }

  /**
   The tables for a key: every pair of subkeys, and behind them every pair of entries of the S-boxes, is the
   encryption of the pair in front of it, the first one of zeros, with what is final in front of it and,
   from there on, the given subkeys exclusive-or'd with the key and the given S-boxes.
   */
  lemma KeySetup<W>(o: Word<W>, orig: Keys<W>, key: seq<octet>)
    requires orig.Shaped() && |key| > 0
    ensures var x, y := WithKey(o, orig, key), Expand(o, orig, key);
            && x.s == orig.s && (forall i :: 0 <= i < 18 ==> x.p[i] == o.xor(orig.p[i], KeyWord(o, key, 4 * i, 4)))
            && (forall i :: 0 <= i <= 16 && i % 2 == 0 ==> SubkeysChain(o, x, y, 0, o.zero, o.zero, i))
            && (forall i, j :: 0 <= i < 4 && 0 <= j < 256 && j % 2 == 0 ==>
                  BoxesChain(o, Keys(y.p, orig.s), y, i, j, y.p[16], y.p[17]))
  {
    var x, y := WithKey(o, orig, key), Expand(o, orig, key);
    var c := Chain(x, o.zero, o.zero);
    FillPChain(o, c, 0);
    var z := FillP(o, c, 0);
    FillSChain(o, z.k, z.k, 0, 0, z.l, z.r, z.l, z.r);
    assert Keys(y.p, orig.s) == z.k;
    forall i | 0 <= i <= 16 && i % 2 == 0 ensures SubkeysChain(o, x, y, 0, o.zero, o.zero, i) {
      SameSubkeys(o, x, z.k, y, i);
    }
    forall i, j | 0 <= i < 4 && 0 <= j < 256 && j % 2 == 0
      ensures BoxesChain(o, Keys(y.p, orig.s), y, i, j, y.p[16], y.p[17])
    {
      assert BoxesChain(o, z.k, y, i, j, z.l, z.r);
    }
  }

  // The S-boxes of the final tables do not matter to the chain of the subkeys.
  lemma SameSubkeys<W>(o: Word<W>, x: Keys<W>, k: Keys<W>, y: Keys<W>, i: nat)
    requires x.Shaped() && k.Shaped() && y.Shaped() && i <= 16 && y.p == k.p
    requires SubkeysChain(o, x, k, 0, o.zero, o.zero, i)
    ensures SubkeysChain(o, x, y, 0, o.zero, o.zero, i)
  {
    assert Halfway(x, y, i) == Halfway(x, k, i);
  }
}
