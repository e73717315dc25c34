/** base64.c: bits gathered in an accumulator on both sides; the decoder skips what is not in its table. */
module Base64 {
  import opened MemBuffers

  type byte = x: int | 0 <= x < 256
  type sextet = x: int | 0 <= x < 64

  const CODE: string := "ABCDEFGHIJKLM" + "NOPQRSTUVWXYZ" + "abcdefghijklm" + "nopqrstuvwxyz" + "0123456789+/"
  const RESULT_SZ := 131070  // of the static result buffer

  // ---- section 4 of RFC 4648 ----

  function Letter(v: sextet): char {
    (if v < 26 then 'A' as int + v
     else if v < 52 then 'a' as int + v - 26
     else if v < 62 then '0' as int + v - 52
     else if v == 62 then '+' as int else '/' as int) as char
  }

  // Groups of 24 bits in four letters, the last group filled up with zero bits and padded.
  function Encoded(data: seq<byte>): string {
    if |data| == 0 then ""
    else if |data| == 1 then Two(data[0], 0) + "=="
    else if |data| == 2 then Two(data[0], data[1]) + [Letter(data[1] % 16 * 4)] + "="
    else Group(data[0], data[1], data[2]) + Encoded(data[3..])
  }

  function Two(a: byte, b: byte): string { [Letter(a / 4), Letter(a % 4 * 16 + b / 16)] }

  function Group(a: byte, b: byte, c: byte): string { Two(a, b) + [Letter(b % 16 * 4 + c / 64), Letter(c % 64)] }

  // ---- what decoding means ----

  // The table: the pad counts as zero, what is no letter is negative.
  function Value(c: char): int {
    if 'A' <= c <= 'Z' then c as int - 'A' as int
    else if 'a' <= c <= 'z' then c as int - 'a' as int + 26
    else if '0' <= c <= '9' then c as int - '0' as int + 52
    else if c == '+' then 62
    else if c == '/' then 63
    else if c == '=' then 0
    else -1
  }

  // The values of the letters before the first NUL.
  function Sextets(text: string): seq<sextet> {
    if text == [] || text[0] == '\0' then []
    else if Value(text[0]) < 0 then Sextets(text[1..])
    else [Value(text[0])] + Sextets(text[1..])
  }

  // Each four make three bytes; fewer at the end are dropped.
  function Triples(v: seq<sextet>): (r: seq<byte>)
    ensures |r| == |v| / 4 * 3
  {
    if |v| < 4 then [] else Triple(v[0], v[1], v[2], v[3]) + Triples(v[4..])
  }

  function Triple(a: sextet, b: sextet, c: sextet, d: sextet): seq<byte> {
    [a * 4 + b / 16, b % 16 * 16 + c / 4, c % 4 * 64 + d]
  }

  function Decoded(text: string): seq<byte> { Triples(Sextets(text)) }

  // ---- theorems ----

  lemma ValueOfLetter(v: sextet)
    ensures Value(Letter(v)) == v && Letter(v) != '=' && Letter(v) != '\0'
  {}

  lemma SextetsFour(a: char, b: char, c: char, d: char, rest: string)
    requires Value(a) >= 0 && Value(b) >= 0 && Value(c) >= 0 && Value(d) >= 0
    ensures Sextets([a, b, c, d] + rest) == [Value(a), Value(b), Value(c), Value(d)] + Sextets(rest)
  {
    assert ([a, b, c, d] + rest)[1..] == [b, c, d] + rest;
    assert ([b, c, d] + rest)[1..] == [c, d] + rest;
    assert ([c, d] + rest)[1..] == [d] + rest;
    assert ([d] + rest)[1..] == rest;
    assert Sextets([d] + rest) == [Value(d)] + Sextets(rest);
    assert Sextets([c, d] + rest) == [Value(c)] + Sextets([d] + rest);
    assert Sextets([b, c, d] + rest) == [Value(b)] + Sextets([c, d] + rest);
  }

  lemma DecodedFour(a: char, b: char, c: char, d: char, rest: string)
    requires Value(a) >= 0 && Value(b) >= 0 && Value(c) >= 0 && Value(d) >= 0
    ensures Decoded([a, b, c, d] + rest) == Triple(Value(a), Value(b), Value(c), Value(d)) + Decoded(rest)
  {
    SextetsFour(a, b, c, d, rest);
    var four: seq<sextet> := [Value(a), Value(b), Value(c), Value(d)];
    TriplesFour(four, Sextets(rest));
  }

  lemma TriplesFour(four: seq<sextet>, rest: seq<sextet>)
    requires |four| == 4
    ensures Triples(four + rest) == Triple(four[0], four[1], four[2], four[3]) + Triples(rest)
  {
    assert (four + rest)[4..] == rest;
  }

  // The bytes that went into four sextets.
  lemma SixToEight(a: byte, b: byte, c: byte)
    ensures Triple(a / 4, a % 4 * 16 + b / 16, b % 16 * 4 + c / 64, c % 64) == [a, b, c]
  {}

  /** Four letters and three bytes are the same number of 24 bits, by its digits to base 64 and to base 256. */
  lemma GroupNumber(a: byte, b: byte, c: byte)
    ensures var g := Group(a, b, c);
            ((Value(g[0]) * 64 + Value(g[1])) * 64 + Value(g[2])) * 64 + Value(g[3]) == Joined3(a, b, c)
  {
    ValueOfLetter(a / 4);
    ValueOfLetter(a % 4 * 16 + b / 16);
    ValueOfLetter(b % 16 * 4 + c / 64);
    ValueOfLetter(c % 64);
  }

  function Joined3(a: int, b: int, c: int): int { (a * 256 + b) * 256 + c }

  function Zeros(n: nat): seq<byte> { seq(n, _ => 0) }

  lemma DecodeLetters(p: sextet, q: sextet, r: sextet, s: sextet, rest: string)
    ensures Decoded([Letter(p), Letter(q), Letter(r), Letter(s)] + rest) == Triple(p, q, r, s) + Decoded(rest)
  {
    ValueOfLetter(p);
    ValueOfLetter(q);
    ValueOfLetter(r);
    ValueOfLetter(s);
    DecodedFour(Letter(p), Letter(q), Letter(r), Letter(s), rest);
  }

  lemma DecodeGroup(a: byte, b: byte, c: byte, rest: string)
    ensures Decoded(Group(a, b, c) + rest) == [a, b, c] + Decoded(rest)
  {
    SixToEight(a, b, c);
    var q, r := a % 4 * 16 + b / 16, b % 16 * 4 + c / 64;
    DecodeLetters(a / 4, q, r, c % 64, rest);
    assert Group(a, b, c) == [Letter(a / 4), Letter(q), Letter(r), Letter(c % 64)];
  }

  lemma DecodeOne(a: byte)
    ensures Decoded(Two(a, 0) + "==") == [a, 0, 0]
  {
    SixToEight(a, 0, 0);
    ValueOfLetter(a / 4);
    ValueOfLetter(a % 4 * 16);
    DecodedFour(Letter(a / 4), Letter(a % 4 * 16), '=', '=', "");
    assert Two(a, 0) + "==" == [Letter(a / 4), Letter(a % 4 * 16), '=', '='] + "";
  }

  lemma DecodeTwo(a: byte, b: byte)
    ensures Decoded(Two(a, b) + [Letter(b % 16 * 4)] + "=") == [a, b, 0]
  {
    var p, q, r := a / 4, a % 4 * 16 + b / 16, b % 16 * 4;
    SixToEight(a, b, 0);
    ValueOfLetter(p);
    ValueOfLetter(q);
    ValueOfLetter(r);
    DecodedFour(Letter(p), Letter(q), Letter(r), '=', "");
    assert Two(a, b) + [Letter(r)] + "=" == [Letter(p), Letter(q), Letter(r), '='] + "";
  }

  /** Decoding an encoding gives the data, and a zero byte for every pad. */
  lemma {:induction false} DecodeEncode(data: seq<byte>)
    ensures Decoded(Encoded(data)) == data + Zeros((3 - |data| % 3) % 3)
    decreases |data|
  {
    if |data| == 1 {
      DecodeOne(data[0]);
      assert data + Zeros(2) == [data[0], 0, 0];
    } else if |data| == 2 {
      DecodeTwo(data[0], data[1]);
      assert data + Zeros(1) == [data[0], data[1], 0];
    } else if |data| > 2 {
      DecodeEncode(data[3..]);
      DecodeMore(data, data[3..]);
    }
  }

  lemma {:induction false} DecodeMore(data: seq<byte>, rest: seq<byte>)
    requires |data| > 2 && rest == data[3..] && Decoded(Encoded(rest)) == rest + Zeros((3 - |rest| % 3) % 3)
    ensures Decoded(Encoded(data)) == data + Zeros((3 - |data| % 3) % 3)
  {
    var pads := Zeros((3 - |data| % 3) % 3);
    assert |rest| % 3 == |data| % 3;
    DecodeGroup(data[0], data[1], data[2], Encoded(rest));
    FrontAndRest(data, rest, pads, Decoded(Encoded(rest)));
  }

  lemma FrontAndRest(data: seq<byte>, rest: seq<byte>, pads: seq<byte>, behind: seq<byte>)
    requires |data| > 2 && rest == data[3..] && behind == rest + pads
    ensures [data[0], data[1], data[2]] + behind == data + pads
  {
    assert [data[0], data[1], data[2]] == data[..3];
    ThreeApart(data, pads);
  }

  lemma ThreeApart(data: seq<byte>, pads: seq<byte>)
    requires |data| > 2
    ensures data[..3] + (data[3..] + pads) == data + pads
  {}

  /** Different data have different encodings, also when they decode to the same bytes. */
  lemma {:induction false} EncodedApart(x: seq<byte>, y: seq<byte>)
    requires Encoded(x) == Encoded(y)
    ensures x == y
    decreases |x|
  {
    DecodeEncode(x);
    DecodeEncode(y);
    PadsTell(x, y);
    assert x == Decoded(Encoded(x))[..|x|] && y == Decoded(Encoded(y))[..|y|];
  }

  lemma {:induction false} PadsTell(x: seq<byte>, y: seq<byte>)
    requires Encoded(x) == Encoded(y)
    ensures |x| == |y|
    decreases |x|
  {
    forall v: sextet ensures Letter(v) != '=' { ValueOfLetter(v); }
    var e := Encoded(x);
    if |x| > 2 && |y| > 2 {
      assert e[4..] == Encoded(x[3..]) && e[4..] == Encoded(y[3..]);
      PadsTell(x[3..], y[3..]);
    } else {
      assert |e| > 0 ==> |e| >= 4;
      Third(x);
      Third(y);
    }
  }

  // The pads are in the last group, so the third and fourth characters show short data.
  lemma Third(x: seq<byte>)
    requires forall v: sextet :: Letter(v) != '='
    ensures |x| == 0 <==> Encoded(x) == ""
    ensures |x| > 0 ==>
              |Encoded(x)| >= 4 && (Encoded(x)[2] == '=' <==> |x| == 1) && (Encoded(x)[3] == '=' <==> |x| <= 2)
  {}

  // Neither in the alphabet nor the pad nor the end.
  predicate Junk(s: string) { forall i :: 0 <= i < |s| ==> Value(s[i]) < 0 && s[i] != '\0' }

  lemma SextetsAfter(c: char, x: string, y: string)
    requires Sextets(x) == Sextets(y)
    ensures Sextets([c] + x) == Sextets([c] + y)
  {
    assert ([c] + x)[1..] == x && ([c] + y)[1..] == y;
  }

  lemma {:induction false} JunkBefore(junk: string, b: string)
    requires Junk(junk)
    ensures Sextets(junk + b) == Sextets(b)
  {
    if junk == [] {
      assert junk + b == b;
    } else {
      JunkBefore(junk[1..], b);
      assert (junk + b)[1..] == junk[1..] + b;
    }
  }

  lemma {:induction false} JunkSkipped(a: string, junk: string, b: string)
    requires Junk(junk)
    ensures Sextets(a + junk + b) == Sextets(a + b)
    decreases |a|
  {
    if a == [] {
      JunkBefore(junk, b);
      assert a + junk + b == junk + b && a + b == b;
    } else {
      JunkSkipped(a[1..], junk, b);
      SextetsAfter(a[0], a[1..] + junk + b, a[1..] + b);
      FirstApart(a, junk + b);
      FirstApart(a, b);
      assert a + junk + b == a + (junk + b) && a[1..] + junk + b == a[1..] + (junk + b);
    }
  }

  lemma FirstApart(a: string, b: string)
    requires a != []
    ensures a + b == [a[0]] + (a[1..] + b)
  {}

  /** Junk anywhere changes nothing. */
  lemma DecodeIgnoresJunk(a: string, junk: string, b: string)
    requires Junk(junk)
    ensures Decoded(a + junk + b) == Decoded(a + b)
  {
    JunkSkipped(a, junk, b);
  }

  // ---- the code ----

  lemma {:induction false} EncodedMore(a: seq<byte>, b: seq<byte>)
    requires |a| % 3 == 0
    ensures Encoded(a + b) == Encoded(a) + Encoded(b) && |Encoded(a)| == |a| / 3 * 4
    decreases |a|
  {
    if a == [] {
      assert a + b == b;
    } else {
      EncodedMore(a[3..], b);
      assert (a + b)[3..] == a[3..] + b;
    }
  }

  // The four sextets of a 24-bit accumulator.
  lemma BitsToLetters(a: byte, b: byte, c: byte, bits: nat)
    requires bits == (a * 256 + b) * 256 + c
    ensures bits / 0x4_0000 == a / 4 && bits / 0x1000 % 64 == a % 4 * 16 + b / 16
    ensures bits / 64 % 64 == b % 16 * 4 + c / 64 && bits % 64 == c % 64
  {
    assert a == a / 4 * 4 + a % 4 && b == b / 16 * 16 + b % 16 && c == c / 64 * 64 + c % 64;
    Digits(a / 4, a % 4 * 16 + b / 16, b % 16 * 4 + c / 64, c % 64, bits);
  }

  lemma Digits(p: sextet, q: sextet, r: sextet, s: sextet, bits: nat)
    requires bits == p * 0x4_0000 + q * 0x1000 + r * 64 + s
    ensures bits / 0x4_0000 == p && bits / 0x1000 % 64 == q && bits / 64 % 64 == r && bits % 64 == s
  {
    assert bits / 64 == p * 0x1000 + q * 64 + r;
    assert bits / 0x1000 == p * 64 + q;
  }

  lemma CodeIsLetters(v: sextet)
    ensures CODE[v] == Letter(v)
  {
    var code := CODE;
    assert code[v] == CODE[v];
  }

  // What fewer than three bytes leave in the accumulator of an encoder.
  function Gathered(rest: seq<byte>): nat
    requires |rest| < 3
  {
    if |rest| == 0 then 0 else
    var a: int := rest[0];
    if |rest| == 1 then a * 256 else (a * 256 + rest[1]) * 256
  }

  // The letters a full accumulator gives.
  method Quad(bits: nat, ghost a: byte, ghost b: byte, ghost c: byte) returns (q: string)
    requires bits == (a * 256 + b) * 256 + c
    ensures q == Group(a, b, c)
  {
    BitsToLetters(a, b, c, bits);
    CodeIsLetters(a / 4);
    CodeIsLetters(a % 4 * 16 + b / 16);
    CodeIsLetters(b % 16 * 4 + c / 64);
    CodeIsLetters(c % 64);
    q := [CODE[bits / 0x4_0000], CODE[bits / 0x1000 % 64], CODE[bits / 64 % 64], CODE[bits % 64]];
  }

  // The round of the encoders' loops: a byte joins `rest`, and the third one empties the accumulator.
  method Gather(bits: nat, charCount: nat, c: byte, ghost rest: seq<byte>)
      returns (q: string, bits': nat, charCount': nat)
    requires |rest| == charCount < 3 && bits == Gathered(rest)
    ensures charCount == 2 ==> q == Encoded(rest + [c]) && bits' == 0 && charCount' == 0
    ensures charCount < 2 ==> q == "" && bits' == Gathered(rest + [c]) && charCount' == charCount + 1
  {
    bits', charCount', q := bits + c, charCount + 1, "";
    if charCount' == 3 {
      q := Quad(bits', rest[0], rest[1], c);
      OneGroup(rest + [c]);
      bits', charCount' := 0, 0;
    } else {
      bits' := bits' * 256;
    }
  }

  lemma OneGroup(three: seq<byte>)
    requires |three| == 3
    ensures Encoded(three) == Group(three[0], three[1], three[2])
  {
    assert three[3..] == [];
  }

  // The last group of one or two bytes.
  method Tail(bits0: nat, charCount: nat, ghost rest: seq<byte>) returns (q: string)
    requires |rest| == charCount < 3 && bits0 == Gathered(rest)
    ensures q == Encoded(rest)
  {
    q := "";
    if charCount != 0 {
      var bits := if charCount == 1 then bits0 * 256 else bits0;  // bits <<= 16 - 8 * char_count
      var all := Quad(bits, rest[0], if charCount == 1 then 0 else rest[1], 0);
      q := [all[0], all[1]];
      if charCount == 1 {
        q := q + "==";
      } else {
        q := q + [all[2], '='];
      }
    }
  }

  // Whole groups up to k, and the bytes from there to n.
  lemma Groups(data: seq<byte>, k: nat, n: nat)
    requires k % 3 == 0 && k <= n <= |data|
    ensures Encoded(data[..n]) == Encoded(data[..k]) + Encoded(data[k..n]) && 3 * |Encoded(data[..k])| == 4 * k
  {
    EncodedMore(data[..k], data[k..n]);
    assert data[..k] + data[k..n] == data[..n];
  }

  // The byte at i after those from k on.
  lemma Joins(data: seq<byte>, k: nat, i: nat)
    requires k <= i < |data|
    ensures data[k..i] + [data[i]] == data[k..i + 1]
  {}

  // An encoder's variables after i bytes, when whole groups go up to k and it has put out `done`.
  ghost predicate Encoding(data: seq<byte>, i: nat, k: nat, bits: nat, charCount: nat, done: string) {
    && k % 3 == 0 && k <= i <= |data| && i == k + charCount < k + 3 && bits == Gathered(data[k..i])
    && done == Encoded(data[..k]) && 3 * |done| == 4 * k
  }

  lemma StaysInGroup(data: seq<byte>, i: nat, k: nat, bits: nat, charCount: nat, done: string, bits': nat)
    requires Encoding(data, i, k, bits, charCount, done) && i < |data| && charCount < 2
    requires bits' == Gathered(data[k..i] + [data[i]])
    ensures Encoding(data, i + 1, k, bits', charCount + 1, done)
  {
    Joins(data, k, i);
  }

  lemma EndsGroup(data: seq<byte>, i: nat, k: nat, bits: nat, done: string, q: string)
    requires Encoding(data, i, k, bits, 2, done) && i < |data| && q == Encoded(data[k..i] + [data[i]])
    ensures Encoding(data, i + 1, i + 1, 0, 0, done + q)
  {
    Joins(data, k, i);
    Groups(data, k, k + 3);
    assert (k + 3) % 3 == 0;
    Groups(data, k + 3, k + 3);
  }

  // The round of the encoders' loops.
  method Round(data: seq<byte>, i: nat, ghost k: nat, bits: nat, charCount: nat, ghost done: string)
      returns (q: string, ghost k': nat, bits': nat, charCount': nat)
    requires i < |data| && Encoding(data, i, k, bits, charCount, done)
    ensures Encoding(data, i + 1, k', bits', charCount', done + q) && k' == if charCount == 2 then i + 1 else k
  {
    q, bits', charCount' := Gather(bits, charCount, data[i], data[k..i]);
    k' := if charCount == 2 then i + 1 else k;
    if charCount == 2 {
      EndsGroup(data, i, k, bits, done, q);
    } else {
      StaysInGroup(data, i, k, bits, charCount, done, bits');
      assert done + q == done;
    }
  }

  // After it.
  method Finish(data: seq<byte>, ghost i: nat, ghost k: nat, bits: nat, charCount: nat, ghost done: string)
      returns (q: string)
    requires Encoding(data, i, k, bits, charCount, done)
    ensures done + q == Encoded(data[..i])
  {
    Groups(data, k, i);
    q := Tail(bits, charCount, data[k..i]);
  }

  /** brb_base64_encode_to_mb. */
  method EncodeToMb(data: seq<byte>, out: MemBuffer<char>)
    modifies out
    ensures out.data == old(out.data) + Encoded(data)
  {
    var bits, charCount, q := 0, 0, "";
    ghost var k, done := 0, "";
    for i := 0 to |data|
      invariant Encoding(data, i, k, bits, charCount, done) && out.data == old(out.data) + done
    {
      q, k, bits, charCount := Round(data, i, k, bits, charCount, done);
      out.Add(q);
      done := done + q;
    }
    q := Finish(data, |data|, k, bits, charCount, done);
    out.Add(q);
    assert data[..|data|] == data;
  }

  /** brb_base64_encode_bin: the static result holds the encoding of no more than 98301 bytes. */
  method EncodeBin(data: seq<byte>) returns (result: string)
    ensures result == Encoded(if |data| <= 98301 then data else data[..98301]) && |result| < RESULT_SZ
  {
    var bits, charCount, i, q := 0, 0, 0, "";
    result := "";
    ghost var k := 0;
    while i < |data| && |result| < RESULT_SZ - 5
      invariant Encoding(data, i, k, bits, charCount, result)
      invariant k <= 98301 && (charCount > 0 ==> k < 98301)
    {
      q, k, bits, charCount := Round(data, i, k, bits, charCount, result);
      result := result + q;
      i := i + 1;
    }
    q := Finish(data, i, k, bits, charCount, result);
    result := result + q;
    BinLength(data, i, result);
  }

  lemma BinLength(data: seq<byte>, i: nat, result: string)
    requires i <= |data| && i <= 98301 && result == Encoded(data[..i]) && (i == |data| || i == 98301)
    ensures result == Encoded(if |data| <= 98301 then data else data[..98301]) && |result| < RESULT_SZ
  {
    assert data[..|data|] == data;
    EncodedSize(data[..i]);
    EncodedFours(data[..i]);
  }

  lemma {:induction false} EncodedFours(data: seq<byte>)
    ensures |Encoded(data)| % 4 == 0
    decreases |data|
  {
    if |data| > 2 { EncodedFours(data[3..]); }
  }

  lemma {:induction false} EncodedSize(data: seq<byte>)
    ensures 3 * |Encoded(data)| <= 4 * (|data| + 2)
    decreases |data|
  {
    if |data| > 2 { EncodedSize(data[3..]); }
  }

  // ---- decoding ----

  function Entry(c: byte): int { Value(c as char) }

  // The static table.
  class Table {
    const value: array<int>
    var initialized: bool

    ghost predicate Valid()
      reads this, value
    {
      value.Length == 256 && (initialized ==> forall c: byte :: value[c] == Entry(c))
    }

    constructor ()
      ensures Valid() && !initialized && fresh(value)
    {
      value := new int[256](_ => 0);
      initialized := false;
    }

    /** brb_base64_init. */
    method Init()
      requires Valid()
      modifies this, value
      ensures Valid() && initialized
    {
      for i := 0 to 256
        invariant forall c :: 0 <= c < i ==> value[c] == -1
      {
        value[i] := -1;
      }
      for i := 0 to 64
        invariant forall c: byte :: value[c] == if Entry(c) < i && c != '=' as int then Entry(c) else -1
      {
        CodeIsLetters(i);
        OneLetter(i);
        value[CODE[i] as int] := i;
      }
      value['=' as int] := 0;
      initialized := true;
    }
  }

  // Only one character but the pad has the value of a letter.
  lemma OneLetter(v: sextet)
    ensures (Letter(v) as int) < 256
    ensures forall c: byte :: Entry(c) == v && c != '=' as int ==> c == Letter(v) as int
  {
    ValueOfLetter(v);
  }

  // The accumulator of a decoder.
  function Packed(v: seq<sextet>): nat
    requires |v| <= 4
  {
    var a: int, b: int := if |v| > 0 then v[0] else 0, if |v| > 1 then v[1] else 0;
    if |v| == 0 then 0 else if |v| == 1 then a else if |v| == 2 then a * 64 + b
    else if |v| == 3 then (a * 64 + b) * 64 + v[2] else ((a * 64 + b) * 64 + v[2]) * 64 + v[3]
  }

  lemma PackedMore(v: seq<sextet>, x: sextet)
    requires |v| < 4
    ensures Packed(v + [x]) == Packed(v) * 64 + x
  {}

  function Contribution(c: char): seq<sextet> { if Value(c) < 0 then [] else [Value(c)] }

  lemma SextetsStep(text: string, i: nat)
    requires i < |text| && text[i] != '\0'
    ensures Sextets(text[i..]) == Contribution(text[i]) + Sextets(text[i + 1..])
  {
    assert text[i..][1..] == text[i + 1..];
  }

  // The bytes of a full accumulator.
  lemma PackedBytes(v: seq<sextet>, val: nat)
    requires |v| == 4 && val == Packed(v)
    ensures Triples(v) == [val / 0x1_0000 % 256, val / 256 % 256, val % 256]
  {
    EightBits(v[0], v[1], v[2], v[3], val);
    OneTriple(v);
  }

  lemma OneTriple(v: seq<sextet>)
    requires |v| == 4
    ensures Triples(v) == Triple(v[0], v[1], v[2], v[3])
  {
    assert v[4..] == [];
  }

  lemma EightBits(a: sextet, b: sextet, c: sextet, d: sextet, val: nat)
    requires val == ((a * 64 + b) * 64 + c) * 64 + d
    ensures val / 0x1_0000 == a * 4 + b / 16 && val / 256 % 256 == b % 16 * 16 + c / 4 && val % 256 == c % 4 * 64 + d
  {
    var h, l, m, n := b / 16, b % 16, c / 4, c % 4;
    assert b == h * 16 + l && c == m * 4 + n;
    ThreeBytes(a * 4 + h, l * 16 + m, n * 64 + d, val);
  }

  lemma ThreeBytes(x: byte, y: byte, z: byte, val: nat)
    requires val == x * 0x1_0000 + y * 256 + z
    ensures val / 0x1_0000 == x && val / 256 % 256 == y && val % 256 == z
  {
    assert val / 256 == x * 256 + y;
  }

  // The round of the decoders' loops.
  method DecodeRound(table: Table, ch: char, val: nat, c: nat, ghost v: seq<sextet>)
      returns (q: seq<byte>, val': nat, c': nat, ghost v': seq<sextet>)
    requires table.Valid() && table.initialized && (ch as int) < 256 && |v| == c < 4 && val == Packed(v)
    ensures |v'| == c' < 4 && val' == Packed(v') && (|q| == 0 || |q| == 3)
    ensures Moves(v, Contribution(ch), v', q)
  {
    q, val', c', v' := [], val, c, v + Contribution(ch);
    var k := ch as int;
    if table.value[k] >= 0 {
      assert table.value[k] == Entry(k);
      val' := val * 64 + table.value[k];
      c' := c + 1;
      PackedMore(v, table.value[k]);
      if c' == 4 {
        PackedBytes(v', val');
        q := [val' / 0x1_0000 % 256, val' / 256 % 256, val' % 256];
        val', c', v' := 0, 0, [];
      }
    } else {
      assert table.value[k] == Entry(k) && v' == v;
    }
  }

  // A decoder after i characters: it has put out `done`, and `v` is in the accumulator.
  ghost predicate Decoding(text: string, i: nat, v: seq<sextet>, done: seq<byte>) {
    i <= |text| && |v| < 4 && done + Triples(v + Sextets(text[i..])) == Decoded(text)
  }

  lemma DecodingStarts(text: string)
    ensures Decoding(text, 0, [], [])
  {
    assert [] + Sextets(text) == Sextets(text) && text[0..] == text;
  }

  // The sextets of one more character move on.
  predicate Moves(v: seq<sextet>, more: seq<sextet>, v': seq<sextet>, q: seq<byte>) {
    if |v + more| < 4 then v' == v + more && q == [] else v' == [] && q == Triples(v + more)
  }

  lemma FirstQuad(four: seq<sextet>, rest: seq<sextet>)
    requires |four| == 4
    ensures Triples(four + rest) == Triples(four) + Triples(rest)
  {
    TriplesFour(four, rest);
    OneTriple(four);
  }

  lemma Regroups(v: seq<sextet>, more: seq<sextet>, rest: seq<sextet>, v': seq<sextet>, q: seq<byte>)
    requires |v| < 4 && |more| <= 1 && Moves(v, more, v', q)
    ensures Triples(v + (more + rest)) == q + Triples(v' + rest)
  {
    assert v + (more + rest) == v + more + rest;
    if |v + more| == 4 {
      FirstQuad(v + more, rest);
      assert v' + rest == rest;
    } else {
      NothingBefore(Triples(v' + rest));
    }
  }

  lemma NothingBefore(s: seq<byte>)
    ensures [] + s == s
  {}

  lemma DecodingStep(text: string, i: nat, v: seq<sextet>, done: seq<byte>, v': seq<sextet>, q: seq<byte>)
    requires Decoding(text, i, v, done) && i < |text| && text[i] != '\0'
    requires Moves(v, Contribution(text[i]), v', q) && |v'| < 4
    ensures Decoding(text, i + 1, v', done + q)
  {
    SextetsStep(text, i);
    Regroups(v, Contribution(text[i]), Sextets(text[i + 1..]), v', q);
    Associates(done, q, Triples(v' + Sextets(text[i + 1..])));
  }

  lemma Associates(a: seq<byte>, b: seq<byte>, c: seq<byte>)
    ensures a + (b + c) == (a + b) + c
  {}

  lemma DecodingEnds(text: string, i: nat, v: seq<sextet>, done: seq<byte>)
    requires Decoding(text, i, v, done) && (i == |text| || text[i] == '\0')
    ensures done == Decoded(text)
  {
    assert v + Sextets(text[i..]) == v;
  }

  // C characters.
  predicate Chars(text: string) { forall i :: 0 <= i < |text| ==> (text[i] as int) < 256 }

  /** brb_base64_decode_to_mb; it always returns 0. */
  method DecodeToMb(text: string, table: Table, out: MemBuffer<byte>) returns (j: int)
    requires Chars(text) && table.Valid()
    modifies table, table.value, out
    ensures table.Valid() && out.data == old(out.data) + Decoded(text) && j == 0
  {
    if !table.initialized {
      table.Init();
    }
    var val, c, i, q := 0, 0, 0, [];
    DecodingStarts(text);
    ghost var v, done := [], [];
    j := 0;
    while i < |text| && text[i] != '\0'
      invariant table.Valid() && table.initialized
      invariant |v| == c && val == Packed(v) && Decoding(text, i, v, done) && out.data == old(out.data) + done
    {
      ghost var v0 := v;
      q, val, c, v := DecodeRound(table, text[i], val, c, v);
      DecodingStep(text, i, v0, done, v, q);
      Associates(old(out.data), done, q);
      out.Add(q);
      done := done + q;
      i := i + 1;
    }
    DecodingEnds(text, i, v, done);
  }

  // How many bytes a buffer takes before the loop of brb_base64_decode_bin stops.
  function Room(outSz: int): nat { if outSz <= 4 then 0 else ((outSz - 5) / 3 + 1) * 3 }

  lemma RoomLeft(j: nat, outSz: int)
    requires j % 3 == 0 && j <= Room(outSz)
    ensures j + 4 < outSz <==> j + 3 <= Room(outSz)
    ensures (j + 3) % 3 == 0
  {}

  // Three bytes into the buffer.
  method PutTriple(out: array<byte>, j: nat, q: seq<byte>) returns (j': nat)
    requires |q| == 0 || (|q| == 3 && j + 3 <= out.Length)
    requires j <= out.Length
    modifies out
    ensures j' == j + |q| && out[..j'] == old(out[..j]) + q && out[j'..] == old(out[j'..])
  {
    j' := j;
    if q != [] {
      out[j], out[j + 1], out[j + 2] := q[0], q[1], q[2];
      j' := j + 3;
    }
  }

  /** brb_base64_decode_bin: whole triples while four more bytes fit. */
  method DecodeBin(text: string, table: Table, out: array<byte>, outSz: int) returns (j: nat)
    requires Chars(text) && table.Valid() && outSz <= out.Length && out as object != table.value
    modifies table, table.value, out
    ensures table.Valid() && j == if |Decoded(text)| <= Room(outSz) then |Decoded(text)| else Room(outSz)
    ensures j <= out.Length && out[..j] == Decoded(text)[..j] && out[j..] == old(out[j..])
  {
    if !table.initialized {
      table.Init();
    }
    j := 0;
    var val, c, i, q := 0, 0, 0, [];
    ghost var v, done := [], [];
    DecodingStarts(text);
    while i < |text| && text[i] != '\0' && j + 4 < outSz
      invariant table.Valid() && table.initialized && j % 3 == 0 && j <= Room(outSz) && j <= out.Length
      invariant |v| == c && val == Packed(v) && Decoding(text, i, v, done)
      invariant done == out[..j] && out[j..] == old(out[j..])
    {
      ghost var v0 := v;
      RoomLeft(j, outSz);
      q, val, c, v := DecodeRound(table, text[i], val, c, v);
      DecodingStep(text, i, v0, done, v, q);
      j := PutTriple(out, j, q);
      done := done + q;
      i := i + 1;
    }
    RoomLeft(j, outSz);
    if j + 4 < outSz {
      DecodingEnds(text, i, v, done);
    }
  }
}
