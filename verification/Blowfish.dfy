/**
 blowfish.c computes on unsigned longs of 64 bits what Blowfish defines on words of 32: carries get
 into the high halves of words and tables and never come back. Blowfish is written once, over any
 word type; the initial tables are parameters.
 */
module Blowfish {

  type octet = x: int | 0 <= x < 256

  // The operations Blowfish needs of its words: `bytes` are the four lowest, highest first; `push`
  // shifts a byte in.
  datatype Word<!W> = Word(zero: W, xor: (W, W) -> W, add: (W, W) -> W,
                           bytes: W -> (octet, octet, octet, octet), push: (W, octet) -> W)

  datatype Keys<W> = Keys(p: seq<W>, s: seq<seq<W>>) {
    predicate Shaped() { |p| == 18 && |s| == 4 && forall i :: 0 <= i < 4 ==> |s[i]| == 256 }

    // The subkeys in the order of decryption.
    function Backwards(): (k: Keys<W>)
      requires Shaped()
      ensures k.Shaped() && k.s == s && forall i :: 0 <= i < 18 ==> k.p[i] == p[17 - i]
    {
      Keys(seq(18, i requires 0 <= i < 18 => p[17 - i]), s)
    }
  }

  function F<W>(o: Word<W>, k: Keys<W>, x: W): W
    requires k.Shaped()
  {
    var (a, b, c, d) := o.bytes(x);
    o.add(o.xor(o.add(k.s[0][a], k.s[1][b]), k.s[2][c]), k.s[3][d])
  }

  // The halves after n rounds, exchanged after each.
  function Rounds<W>(o: Word<W>, k: Keys<W>, n: nat, l: W, r: W): (W, W)
    requires k.Shaped() && n <= 16
  {
    if n == 0 then (l, r) else
    var x := Rounds(o, k, n - 1, l, r);
    var y := o.xor(x.0, k.p[n - 1]);
    (o.xor(F(o, k, y), x.1), y)
  }

  function Cipher<W>(o: Word<W>, k: Keys<W>, l: W, r: W): (W, W)
    requires k.Shaped()
  {
    var x := Rounds(o, k, 16, l, r);
    (o.xor(x.1, k.p[17]), o.xor(x.0, k.p[16]))
  }

  // n bytes of the key repeated for ever, from position `at` on, the first one highest.
  function KeyWord<W>(o: Word<W>, key: seq<octet>, at: nat, n: nat): W
    requires |key| > 0
  {
    if n == 0 then o.zero else o.push(KeyWord(o, key, at, n - 1), key[(at + n - 1) % |key|])
  }

  function WithKey<W>(o: Word<W>, k: Keys<W>, key: seq<octet>): (r: Keys<W>)
    requires k.Shaped() && |key| > 0
    ensures r.Shaped()
  {
    k.(p := seq(18, i requires 0 <= i < 18 => o.xor(k.p[i], KeyWord(o, key, 4 * i, 4))))
  }

  datatype Chain<W> = Chain(k: Keys<W>, l: W, r: W)

  function SetP<W>(k: Keys<W>, i: nat, c: (W, W)): (r: Keys<W>)
    requires k.Shaped() && i < 17
    ensures r.Shaped()
  {
    k.(p := k.p[i := c.0][i + 1 := c.1])
  }

  function SetS<W>(k: Keys<W>, i: nat, j: nat, c: (W, W)): (r: Keys<W>)
    requires k.Shaped() && i < 4 && j < 255
    ensures r.Shaped()
  {
    k.(s := k.s[i := k.s[i][j := c.0][j + 1 := c.1]])
  }

  // Each pair of subkeys from i on becomes the next encryption in a chain.
  function FillP<W>(o: Word<W>, x: Chain<W>, i: nat): (y: Chain<W>)
    requires x.k.Shaped() && i % 2 == 0
    ensures y.k.Shaped()
    decreases 18 - i
  {
    if i >= 18 then x else
    var c := Cipher(o, x.k, x.l, x.r);
    FillP(o, Chain(SetP(x.k, i, c), c.0, c.1), i + 2)
  }

  // The chain goes on through the S-boxes, from entry j of box i.
  function FillS<W>(o: Word<W>, x: Chain<W>, i: nat, j: nat): (y: Chain<W>)
    requires x.k.Shaped() && j <= 256 && j % 2 == 0
    ensures y.k.Shaped()
    decreases 4 - i, 256 - j
  {
    if i >= 4 then x else if j >= 256 then FillS(o, x, i + 1, 0) else
    var c := Cipher(o, x.k, x.l, x.r);
    FillS(o, Chain(SetS(x.k, i, j, c), c.0, c.1), i, j + 2)
  }

  // The tables for a key.
  function Expand<W>(o: Word<W>, k: Keys<W>, key: seq<octet>): (r: Keys<W>)
    requires k.Shaped() && |key| > 0
    ensures r.Shaped()
  {
    FillS(o, FillP(o, Chain(WithKey(o, k, key), o.zero, o.zero), 0), 0, 0).k
  }

  // ---- words of 32 and of 64 bits ----

  function Byte32(x: bv32): octet { (x & 0xFF) as bv8 as int }

  function Byte64(x: bv64): octet { (x & 0xFF) as bv8 as int }

  function Xor32(x: bv32, y: bv32): bv32 { x ^ y }

  function Xor64(x: bv64, y: bv64): bv64 { x ^ y }

  function Add32(x: bv32, y: bv32): bv32 { x + y }

  function Add64(x: bv64, y: bv64): bv64 { x + y }

  function Bytes32(x: bv32): (octet, octet, octet, octet) {
    (Byte32(x >> 24), Byte32(x >> 16), Byte32(x >> 8), Byte32(x))
  }

  function Bytes64(x: bv64): (octet, octet, octet, octet) {
    (Byte64(x >> 24), Byte64(x >> 16), Byte64(x >> 8), Byte64(x))
  }

  function Push32(x: bv32, b: octet): bv32 { (x << 8) | b as bv8 as bv32 }

  function Push64(x: bv64, b: octet): bv64 { (x << 8) | b as bv8 as bv64 }

  function Word32(): Word<bv32> { Word(0, Xor32, Add32, Bytes32, Push32) }

  // unsigned long.
  function Word64(): Word<bv64> { Word(0, Xor64, Add64, Bytes64, Push64) }

  function Low(x: bv64): bv32 { (x & 0xFFFF_FFFF) as bv32 }

  lemma LowXor(x: bv64, y: bv64)
    ensures Low(Xor64(x, y)) == Xor32(Low(x), Low(y))
  {}

  lemma PlainSum(a: bv32, b: bv32, u: bv64, v: bv64)
    ensures Low((a as bv64 + (u << 32)) + (b as bv64 + (v << 32))) == a + b
  {}

  lemma LowSum(a: bv32, b: bv32, u: bv64, v: bv64)
    ensures Low(Add64(a as bv64 + (u << 32), b as bv64 + (v << 32))) == Add32(a, b)
  {
    PlainSum(a, b, u, v);
  }

  // Carries only go up.
  lemma LowAdd(x: bv64, y: bv64)
    ensures Low(Add64(x, y)) == Add32(Low(x), Low(y))
  {
    var a, b, u, v := Low(x), Low(y), x >> 32, y >> 32;
    calc {
      Low(Add64(x, y));
      { assert x == a as bv64 + (u << 32) && y == b as bv64 + (v << 32); }
      Low(Add64(a as bv64 + (u << 32), b as bv64 + (v << 32)));
      { LowSum(a, b, u, v); }
      Add32(a, b);
    }
  }

  lemma LowByte(x: bv64)
    ensures Byte64(x) == Byte32(Low(x))
  {
    assert (x & 0xFF) as bv8 == (Low(x) & 0xFF) as bv8;
  }

  lemma LowBytes(x: bv64)
    ensures Bytes64(x) == Bytes32(Low(x))
  {
    LowByte(x);
    LowByte8(x);
    LowByte16(x);
    LowByte24(x);
  }

  lemma LowByte8(x: bv64)
    ensures Byte64(x >> 8) == Byte32(Low(x) >> 8)
  {
    assert ((x >> 8) & 0xFF) as bv8 == ((Low(x) >> 8) & 0xFF) as bv8;
  }

  lemma LowByte16(x: bv64)
    ensures Byte64(x >> 16) == Byte32(Low(x) >> 16)
  {
    assert ((x >> 16) & 0xFF) as bv8 == ((Low(x) >> 16) & 0xFF) as bv8;
  }

  lemma LowByte24(x: bv64)
    ensures Byte64(x >> 24) == Byte32(Low(x) >> 24)
  {
    assert ((x >> 24) & 0xFF) as bv8 == ((Low(x) >> 24) & 0xFF) as bv8;
  }

  lemma LowPush(x: bv64, b: octet)
    ensures Low(Push64(x, b)) == Push32(Low(x), b)
  {
    LowPushed(x, b as bv8);
  }

  lemma LowPushed(x: bv64, b: bv8)
    ensures Low((x << 8) | b as bv64) == (Low(x) << 8) | b as bv32
  {}

  // ---- simulation ----

  // h carries one operation over to another.
  ghost predicate Carries<W(!new), V>(f: (W, W) -> W, g: (V, V) -> V, h: W -> V) {
    forall x, y :: h(f(x, y)) == g(h(x), h(y))
  }

  ghost predicate CarriesPush<W(!new), V>(f: (W, octet) -> W, g: (V, octet) -> V, h: W -> V) {
    forall x, b: octet :: h(f(x, b)) == g(h(x), b)
  }

  ghost predicate SameBytes<W(!new), V>(o: Word<W>, q: Word<V>, h: W -> V) {
    forall x :: o.bytes(x) == q.bytes(h(x))
  }

  // All operations.
  ghost predicate Maps<W(!new), V>(o: Word<W>, q: Word<V>, h: W -> V) {
    && h(o.zero) == q.zero && Carries(o.xor, q.xor, h) && Carries(o.add, q.add, h)
    && SameBytes(o, q, h) && CarriesPush(o.push, q.push, h)
  }

  lemma LowXors()
    ensures Carries(Xor64, Xor32, Low)
  {
    forall x, y ensures Low(Xor64(x, y)) == Xor32(Low(x), Low(y)) { LowXor(x, y); }
  }

  lemma LowAdds()
    ensures Carries(Add64, Add32, Low)
  {
    forall x, y ensures Low(Add64(x, y)) == Add32(Low(x), Low(y)) { LowAdd(x, y); }
  }

  lemma LowBytesAll()
    ensures SameBytes(Word64(), Word32(), Low)
  {
    forall x ensures Word64().bytes(x) == Word32().bytes(Low(x)) { LowBytes(x); }
  }

  lemma LowPushes()
    ensures CarriesPush(Push64, Push32, Low)
  {
    forall x, b: octet ensures Low(Push64(x, b)) == Push32(Low(x), b) { LowPush(x, b); }
  }

  lemma LowMaps()
    ensures Maps(Word64(), Word32(), Low)
  {
    LowXors();
    LowAdds();
    LowBytesAll();
    LowPushes();
  }

  function Words<W, V>(h: W -> V, w: seq<W>): (r: seq<V>)
    ensures |r| == |w| && forall i :: 0 <= i < |w| ==> r[i] == h(w[i])
  {
    seq(|w|, i requires 0 <= i < |w| => h(w[i]))
  }

  function Tables<W, V>(h: W -> V, k: Keys<W>): (r: Keys<V>)
    requires k.Shaped()
    ensures r.Shaped()
  {
    Keys(Words(h, k.p), [Words(h, k.s[0]), Words(h, k.s[1]), Words(h, k.s[2]), Words(h, k.s[3])])
  }

  function Pair<W, V>(h: W -> V, x: (W, W)): (V, V) { (h(x.0), h(x.1)) }

  lemma FMaps<W(!new), V>(o: Word<W>, q: Word<V>, h: W -> V, k: Keys<W>, x: W)
    requires k.Shaped() && Maps(o, q, h)
    ensures h(F(o, k, x)) == F(q, Tables(h, k), h(x))
  {}

  lemma {:induction false} RoundsMap<W(!new), V>(o: Word<W>, q: Word<V>, h: W -> V, k: Keys<W>, n: nat, l: W, r: W)
    requires k.Shaped() && n <= 16 && Maps(o, q, h)
    ensures Pair(h, Rounds(o, k, n, l, r)) == Rounds(q, Tables(h, k), n, h(l), h(r))
  {
    if n > 0 {
      RoundsMap(o, q, h, k, n - 1, l, r);
      var x := Rounds(o, k, n - 1, l, r);
      FMaps(o, q, h, k, o.xor(x.0, k.p[n - 1]));
    }
  }

  lemma CipherMaps<W(!new), V>(o: Word<W>, q: Word<V>, h: W -> V, k: Keys<W>, l: W, r: W)
    requires k.Shaped() && Maps(o, q, h)
    ensures Pair(h, Cipher(o, k, l, r)) == Cipher(q, Tables(h, k), h(l), h(r))
  {
    RoundsMap(o, q, h, k, 16, l, r);
  }

  lemma {:induction false} KeyWordMaps<W(!new), V>(o: Word<W>, q: Word<V>, h: W -> V, key: seq<octet>, at: nat, n: nat)
    requires |key| > 0 && Maps(o, q, h)
    ensures h(KeyWord(o, key, at, n)) == KeyWord(q, key, at, n)
  {
    if n > 0 { KeyWordMaps(o, q, h, key, at, n - 1); }
  }

  function Link<W, V>(h: W -> V, x: Chain<W>): (y: Chain<V>)
    requires x.k.Shaped()
    ensures y.k.Shaped()
  {
    Chain(Tables(h, x.k), h(x.l), h(x.r))
  }

  lemma SetPMaps<W, V>(h: W -> V, k: Keys<W>, i: nat, c: (W, W))
    requires k.Shaped() && i < 17
    ensures Tables(h, SetP(k, i, c)) == SetP(Tables(h, k), i, Pair(h, c))
  {
    assert Tables(h, SetP(k, i, c)).p == SetP(Tables(h, k), i, Pair(h, c)).p;
  }

  lemma SetSMaps<W, V>(h: W -> V, k: Keys<W>, i: nat, j: nat, c: (W, W))
    requires k.Shaped() && i < 4 && j < 255
    ensures Tables(h, SetS(k, i, j, c)) == SetS(Tables(h, k), i, j, Pair(h, c))
  {
    var a, b := Tables(h, SetS(k, i, j, c)).s, SetS(Tables(h, k), i, j, Pair(h, c)).s;
    assert a[i] == b[i];
    forall n | 0 <= n < 4 && n != i ensures a[n] == b[n] { assert a[n] == Words(h, k.s[n]); }
    assert a == b;
  }

  lemma {:induction false} FillPMaps<W(!new), V>(o: Word<W>, q: Word<V>, h: W -> V, x: Chain<W>, i: nat)
    requires x.k.Shaped() && i % 2 == 0 && Maps(o, q, h)
    ensures Link(h, FillP(o, x, i)) == FillP(q, Link(h, x), i)
    decreases 18 - i
  {
    if i < 18 {
      var c := Cipher(o, x.k, x.l, x.r);
      CipherMaps(o, q, h, x.k, x.l, x.r);
      SetPMaps(h, x.k, i, c);
      FillPMaps(o, q, h, Chain(SetP(x.k, i, c), c.0, c.1), i + 2);
    }
  }

  lemma {:induction false} FillSMaps<W(!new), V>(o: Word<W>, q: Word<V>, h: W -> V, x: Chain<W>, i: nat, j: nat)
    requires x.k.Shaped() && j <= 256 && j % 2 == 0 && Maps(o, q, h)
    ensures Link(h, FillS(o, x, i, j)) == FillS(q, Link(h, x), i, j)
    decreases 4 - i, 256 - j
  {
    if i < 4 {
      if j >= 256 {
        FillSMaps(o, q, h, x, i + 1, 0);
      } else {
        var c := Cipher(o, x.k, x.l, x.r);
        CipherMaps(o, q, h, x.k, x.l, x.r);
        SetSMaps(h, x.k, i, j, c);
        FillSMaps(o, q, h, Chain(SetS(x.k, i, j, c), c.0, c.1), i, j + 2);
      }
    }
  }

  lemma WithKeyMaps<W(!new), V>(o: Word<W>, q: Word<V>, h: W -> V, k: Keys<W>, key: seq<octet>)
    requires k.Shaped() && |key| > 0 && Maps(o, q, h)
    ensures Tables(h, WithKey(o, k, key)) == WithKey(q, Tables(h, k), key)
  {
    var a, b := Tables(h, WithKey(o, k, key)), WithKey(q, Tables(h, k), key);
    forall i | 0 <= i < 18
      ensures a.p[i] == b.p[i]
    {
      KeyWordMaps(o, q, h, key, 4 * i, 4);
    }
    assert a.p == b.p;
  }

  /** The low halves of an encryption are those of Blowfish, whatever is in the high halves. */
  lemma EncryptSimulates(k: Keys<bv64>, l: bv64, r: bv64)
    requires k.Shaped()
    ensures Pair(Low, Cipher(Word64(), k, l, r)) == Cipher(Word32(), Tables(Low, k), Low(l), Low(r))
  {
    LowMaps();
    CipherMaps(Word64(), Word32(), Low, k, l, r);
  }

  /** And so are the low halves of all the tables made from a key. */
  lemma ExpandSimulates(k: Keys<bv64>, key: seq<octet>)
    requires k.Shaped() && |key| > 0
    ensures Tables(Low, Expand(Word64(), k, key)) == Expand(Word32(), Tables(Low, k), key)
  {
    var o, q := Word64(), Word32();
    LowMaps();
    WithKeyMaps(o, q, Low, k, key);
    var x := Chain(WithKey(o, k, key), o.zero, o.zero);
    FillPMaps(o, q, Low, x, 0);
    FillSMaps(o, q, Low, FillP(o, x, 0), 0, 0);
  }

  /** So a machine with 64-bit longs gives, in the low halves, what one with 32-bit longs gives. */
  lemma KeyedSimulates(orig: Keys<bv64>, key: seq<octet>, l: bv64, r: bv64)
    requires orig.Shaped() && |key| > 0
    ensures Pair(Low, Cipher(Word64(), Expand(Word64(), orig, key), l, r))
         == Cipher(Word32(), Expand(Word32(), Tables(Low, orig), key), Low(l), Low(r))
  {
    ExpandSimulates(orig, key);
    EncryptSimulates(Expand(Word64(), orig, key), l, r);
  }

  // ---- inverse ----

  ghost predicate Cancels<W(!new)>(o: Word<W>) {
    && (forall x, y :: o.xor(o.xor(x, y), y) == x)
    && (forall f, x, y :: o.xor(f, o.xor(o.xor(f, x), y)) == o.xor(x, y))
  }

  lemma XorCancels()
    ensures Cancels(Word64())
  {
    var o := Word64();
    forall x, y ensures o.xor(o.xor(x, y), y) == x { XorTwice(x, y); }
    forall f, x, y ensures o.xor(f, o.xor(o.xor(f, x), y)) == o.xor(x, y) { XorThrice(f, x, y); }
  }

  lemma XorTwice(x: bv64, y: bv64)
    ensures Xor64(Xor64(x, y), y) == x
  {}

  lemma XorThrice(f: bv64, x: bv64, y: bv64)
    ensures Xor64(f, Xor64(Xor64(f, x), y)) == Xor64(x, y)
  {}

  // The halves after j rounds of decryption, by those before the last j rounds of encryption.
  lemma {:induction false} RoundsBack<W(!new)>(o: Word<W>, k: Keys<W>, j: nat, l: W, r: W)
    requires k.Shaped() && j <= 16 && Cancels(o)
    ensures (var c := Cipher(o, k, l, r); var x := Rounds(o, k, 16 - j, l, r);
             Rounds(o, k.Backwards(), j, c.0, c.1) == (o.xor(x.1, k.p[17 - j]), o.xor(x.0, k.p[16 - j])))
  {
    if j > 0 {
      RoundsBack(o, k, j - 1, l, r);
      var back, x := k.Backwards(), Rounds(o, k, 16 - j, l, r);
      var y := o.xor(x.0, k.p[16 - j]);
      assert Rounds(o, k, 17 - j, l, r) == (o.xor(F(o, k, y), x.1), y);
      assert back.p[j - 1] == k.p[18 - j];
      assert F(o, back, y) == F(o, k, y);
    }
  }

  lemma Undoes<W(!new)>(o: Word<W>, k: Keys<W>, l: W, r: W)
    requires k.Shaped() && Cancels(o)
    ensures (var c := Cipher(o, k, l, r); Cipher(o, k.Backwards(), c.0, c.1) == (l, r))
  {
    RoundsBack(o, k, 16, l, r);
  }

  /** Decryption, which is encryption with the subkeys backwards, undoes encryption. */
  lemma DecryptEncrypt(k: Keys<bv64>, l: bv64, r: bv64)
    requires k.Shaped()
    ensures (var c := Cipher(Word64(), k, l, r); Cipher(Word64(), k.Backwards(), c.0, c.1) == (l, r))
  {
    XorCancels();
    Undoes(Word64(), k, l, r);
  }

  /** And encryption undoes decryption. */
  lemma EncryptDecrypt(k: Keys<bv64>, l: bv64, r: bv64)
    requires k.Shaped()
    ensures (var d := Cipher(Word64(), k.Backwards(), l, r); Cipher(Word64(), k, d.0, d.1) == (l, r))
  {
    DecryptEncrypt(k.Backwards(), l, r);
    assert k.Backwards().Backwards().p == k.p;
  }

  // ---- the code, for either size of unsigned long ----

  class Context<W> {
    const o: Word<W>      // unsigned long
    const p: array<W>   // ctx->P
    const s: array2<W>  // ctx->S

    predicate Valid() { p.Length == 18 && s.Length0 == 4 && s.Length1 == 256 }

    ghost function Box(i: nat): (r: seq<W>)
      requires Valid() && i < 4
      reads s
      ensures |r| == 256 && forall j :: 0 <= j < 256 ==> r[j] == s[i, j]
    {
      seq(256, j requires 0 <= j < 256 && Valid() reads s => s[i, j])
    }

    ghost function Contents(): (k: Keys<W>)
      requires Valid()
      reads p, s
      ensures k.Shaped()
    {
      Keys(p[..], [Box(0), Box(1), Box(2), Box(3)])
    }

    constructor (o: Word<W>)
      ensures this.o == o && Valid() && fresh(p) && fresh(s)
    {
      this.o := o;
      p := new W[18](_ => o.zero);
      s := new W[4, 256]((_, _) => o.zero);
    }

    // _F.
    method RoundFunction(x: W) returns (y: W)
      requires Valid()
      ensures y == F(o, Contents(), x)
    {
      var (a, b, c, d) := o.bytes(x);
      y := o.add(s[0, a], s[1, b]);
      y := o.xor(y, s[2, c]);
      y := o.add(y, s[3, d]);
    }

    /** BRB_Blowfish_Encrypt. */
    method Encrypt(xl: W, xr: W) returns (l: W, r: W)
      requires Valid()
      ensures (l, r) == Cipher(o, Contents(), xl, xr)
    {
      l, r := xl, xr;
      for i := 0 to 16
        invariant (l, r) == Rounds(o, Contents(), i, xl, xr)
      {
        l := o.xor(l, p[i]);
        var f := RoundFunction(l);
        r := o.xor(f, r);
        l, r := r, l;
      }
      l, r := r, l;
      r := o.xor(r, p[16]);
      l := o.xor(l, p[17]);
    }

    // One round with subkey n.
    method Round(n: nat, l: W, r: W) returns (l': W, r': W)
      requires Valid() && n < 18
      ensures r' == o.xor(l, p[n]) && l' == o.xor(F(o, Contents(), r'), r)
    {
      r' := o.xor(l, p[n]);
      l' := RoundFunction(r');
      l' := o.xor(l', r);
    }

    /** BRB_Blowfish_Decrypt. */
    method Decrypt(xl: W, xr: W) returns (l: W, r: W)
      requires Valid()
      ensures (l, r) == Cipher(o, Contents().Backwards(), xl, xr)
    {
      ghost var back := Contents().Backwards();
      l, r := xl, xr;
      var i := 17;
      while i > 1
        invariant 1 <= i <= 17
        invariant (l, r) == Rounds(o, back, 17 - i, xl, xr)
      {
        NextRound(o, Contents(), back, 17 - i, xl, xr);
        l, r := Round(i, l, r);
        i := i - 1;
      }
      l, r := r, l;
      r := o.xor(r, p[1]);
      l := o.xor(l, p[0]);
    }

    // The S-boxes start as the given ones.
    method CopyBoxes(boxes: seq<seq<W>>)
      requires Valid() && |boxes| == 4 && forall i :: 0 <= i < 4 ==> |boxes[i]| == 256
      modifies s
      ensures Contents().s == boxes
    {
      for i := 0 to 4
        invariant forall m, n :: 0 <= m < i && 0 <= n < 256 ==> s[m, n] == boxes[m][n]
      {
        for j := 0 to 256
          invariant forall m, n :: 0 <= m < i && 0 <= n < 256 ==> s[m, n] == boxes[m][n]
          invariant forall n :: 0 <= n < j ==> s[i, n] == boxes[i][n]
        {
          s[i, j] := boxes[i][j];
        }
      }
      assert Box(0) == boxes[0] && Box(1) == boxes[1] && Box(2) == boxes[2] && Box(3) == boxes[3];
    }

    // The subkeys start as the given ones and the key, taken around again when it ends.
    method MixKey(subkeys: seq<W>, key: seq<octet>)
      requires Valid() && |subkeys| == 18 && |key| > 0
      modifies p
      ensures forall i :: 0 <= i < 18 ==> p[i] == o.xor(subkeys[i], KeyWord(o, key, 4 * i, 4))
    {
      var j := 0;
      for i := 0 to 18
        invariant j == 4 * i % |key|
        invariant forall n :: 0 <= n < i ==> p[n] == o.xor(subkeys[n], KeyWord(o, key, 4 * n, 4))
      {
        var data;
        data, j := NextWord(key, 4 * i, j);
        p[i] := o.xor(subkeys[i], data);
      }
    }

    // Four bytes of the key from j on.
    method NextWord(key: seq<octet>, ghost at: nat, j0: nat) returns (data: W, j: nat)
      requires |key| > 0 && j0 == at % |key|
      ensures data == KeyWord(o, key, at, 4) && j == (at + 4) % |key|
    {
      j, data := j0, o.zero;
      for k := 0 to 4
        invariant j == (at + k) % |key| && data == KeyWord(o, key, at, k)
      {
        Wrap(at + k, |key|);
        data := o.push(data, key[j]);
        j := j + 1;
        if j >= |key| {
          j := 0;
        }
      }
    }

    // The next encryption of the chain into two subkeys.
    method PutP(i: nat, l: W, r: W) returns (l': W, r': W)
      requires Valid() && i < 17
      modifies p
      ensures (l', r') == Cipher(o, old(Contents()), l, r)
      ensures Contents() == SetP(old(Contents()), i, (l', r'))
    {
      l', r' := Encrypt(l, r);
      p[i] := l';
      p[i + 1] := r';
    }

    // And into two entries of an S-box.
    method PutS(i: nat, j: nat, l: W, r: W) returns (l': W, r': W)
      requires Valid() && i < 4 && j < 255
      modifies s
      ensures (l', r') == Cipher(o, old(Contents()), l, r)
      ensures Contents() == SetS(old(Contents()), i, j, (l', r'))
    {
      ghost var k := Contents();
      l', r' := Encrypt(l, r);
      s[i, j] := l';
      s[i, j + 1] := r';
      assert Box(i) == k.s[i][j := l'][j + 1 := r'];
      assert forall n :: 0 <= n < 4 && n != i ==> Box(n) == k.s[n];
    }

    // Both tables become the chain of encryptions.
    method Schedule() returns (datal: W, datar: W)
      requires Valid()
      modifies p
      ensures Chain(Contents(), datal, datar) == FillP(o, Chain(old(Contents()), o.zero, o.zero), 0)
    {
      datal, datar := o.zero, o.zero;
      var i := 0;
      while i < 18
        invariant 0 <= i <= 18 && i % 2 == 0
        invariant FillP(o, Chain(Contents(), datal, datar), i) == FillP(o, Chain(old(Contents()), o.zero, o.zero), 0)
      {
        datal, datar := PutP(i, datal, datar);
        i := i + 2;
      }
    }

    method ScheduleBoxes(datal0: W, datar0: W)
      requires Valid()
      modifies s
      ensures Contents() == FillS(o, Chain(old(Contents()), datal0, datar0), 0, 0).k
    {
      var datal, datar := datal0, datar0;
      ghost var all := FillS(o, Chain(Contents(), datal, datar), 0, 0);
      for i := 0 to 4
        invariant FillS(o, Chain(Contents(), datal, datar), i, 0) == all
      {
        var j := 0;
        while j < 256
          invariant 0 <= j <= 256 && j % 2 == 0
          invariant FillS(o, Chain(Contents(), datal, datar), i, j) == all
        {
          datal, datar := PutS(i, j, datal, datar);
          j := j + 2;
        }
      }
    }

    /** BRB_Blowfish_Init, with ORIG_P and ORIG_S as parameters. */
    method Init(orig: Keys<W>, key: seq<octet>)
      requires Valid() && orig.Shaped() && |key| > 0
      modifies p, s
      ensures Contents() == Expand(o, orig, key)
    {
      CopyBoxes(orig.s);
      MixKey(orig.p, key);
      assert Contents().p == WithKey(o, orig, key).p;
      var datal, datar := Schedule();
      ScheduleBoxes(datal, datar);
    }
  }

  lemma NextRound<W>(o: Word<W>, k: Keys<W>, back: Keys<W>, n: nat, l: W, r: W)
    requires k.Shaped() && back == k.Backwards() && n < 16
    ensures (var x := Rounds(o, back, n, l, r); var y := o.xor(x.0, k.p[17 - n]);
             Rounds(o, back, n + 1, l, r) == (o.xor(F(o, k, y), x.1), y))
  {
    assert back.p[n] == k.p[17 - n];
  }

  lemma Wrap(a: nat, n: nat)
    requires n > 0
    ensures (a + 1) % n == if a % n + 1 >= n then 0 else a % n + 1
  {
    var q, r := a / n, a % n;
    assert a == n * q + r;
    if r + 1 >= n {
      assert n * (q + 1) == n * q + n;
      Remainder(a + 1, n, q + 1, 0);
    } else {
      Remainder(a + 1, n, q, r + 1);
    }
  }

  lemma Remainder(x: nat, n: nat, q: nat, r: nat)
    requires r < n && x == n * q + r
    ensures x % n == r
  {
    var d := x / n - q;
    assert x == n * (x / n) + x % n;
    assert n * (x / n) == n * q + n * d;
    AtLeast(n, d);
  }

  lemma AtLeast(n: nat, d: int)
    ensures d >= 1 ==> n * d >= n
    ensures d <= -1 ==> n * d <= 0 - n
  {
    if d >= 1 {
      assert n * d == n + n * (d - 1);
    } else if d <= -1 {
      assert n * d == 0 - n - n * (-1 - d);
    }
  }
}
