/**
 JSON strings of libbrb_json: the escaper of libbrb_json.c and the in-place decoder of api_parser.c.
 A C string is a string without NUL; the end of the sequence is its terminator.
 */
module JsonText {
  import opened Options

  const NUL: char := 0 as char
  const BEL: char := 7 as char
  const BS: char := 8 as char
  const VT: char := 11 as char
  const FF: char := 12 as char
  const QUOTE: char := '\"'
  const SLASH: char := '\\'

  predicate NoNul(s: string) { NUL !in s }

  // What is left of a buffer when it is read as a C string.
  function CStr(s: string): (r: string)
    ensures NoNul(r) && r <= s && (NoNul(s) ==> r == s)
    ensures |r| < |s| ==> s[|r|] == NUL
  {
    if s == [] || s[0] == NUL then [] else [s[0]] + CStr(s[1..])
  }

  // The switch of BrbJsonMemBufferAddSlashed.
  function EscapeChar(c: char): (r: string)
    ensures 1 <= |r| <= 2
  {
    if c == NUL then [SLASH, '0']
    else if c == BEL then [SLASH, 'a']
    else if c == BS then [SLASH, 'b']
    else if c == FF then [SLASH, 'f']
    else if c == '\n' then [SLASH, 'n']
    else if c == '\r' then [SLASH, 'r']
    else if c == '\t' then [SLASH, 't']
    else if c == VT then [SLASH, 'v']
    else if c == SLASH then [SLASH, SLASH]
    else if c == QUOTE then [SLASH, QUOTE]
    else [c]
  }

  function Escape(s: string): (r: string)
    ensures |s| <= |r| <= 2 * |s|
  {
    if s == [] then [] else EscapeChar(s[0]) + Escape(s[1..])
  }

  lemma Unescaped(s: string)
    requires s != []
    ensures Escape(s) == EscapeChar(s[0]) + Escape(s[1..])
  {}

  lemma Associates(a: string, b: string, c: string)
    ensures a + b + c == a + (b + c)
  {}

  lemma {:induction false} EscapeConcat(s: string, t: string)
    ensures Escape(s + t) == Escape(s) + Escape(t)
  {
    if s == [] {
      assert s + t == t;
    } else {
      EscapeConcat(s[1..], t);
      Unescaped(s);
      Unescaped(s + t);
      assert (s + t)[1..] == s[1..] + t;
      Associates(EscapeChar(s[0]), Escape(s[1..]), Escape(t));
    }
  }

  // Prefixes have escapes that are no longer, so the greedy loop finds the longest prefix that fits.
  lemma EscapeOfPrefix(s: string, k: nat)
    requires k < |s|
    ensures Escape(s[..k + 1]) == Escape(s[..k]) + EscapeChar(s[k])
  {
    assert s[..k + 1] == s[..k] + [s[k]];
    EscapeConcat(s[..k], [s[k]]);
    assert Escape([s[k]]) == EscapeChar(s[k]) + Escape([]);
  }

  predicate IsHex(c: char) { '0' <= c <= '9' || 'a' <= c <= 'f' || 'A' <= c <= 'F' }

  function HexValue(c: char): (r: nat)
    requires IsHex(c)
    ensures r < 16
  {
    if c <= '9' then c as nat - '0' as nat
    else if c <= 'F' then c as nat - 'A' as nat + 10
    else c as nat - 'a' as nat + 10
  }

  function Hex4(s: string): (r: nat)
    requires |s| == 4 && forall i :: 0 <= i < 4 ==> IsHex(s[i])
    ensures r < 0x1_0000
  {
    HexValue(s[0]) * 4096 + HexValue(s[1]) * 256 + HexValue(s[2]) * 16 + HexValue(s[3])
  }

  // The bytes stored for \uXXXX; the bit operations of the source are on disjoint bits.
  function Utf8(v: nat): (r: string)
    requires v < 0x1_0000
    ensures 1 <= |r| <= 3
  {
    if v < 0x80 then [v as char]
    else if v < 0x800 then [(v / 64 + 0xC0) as char, (v % 64 + 0x80) as char]
    else [(v / 4096 + 0xE0) as char, (v / 64 % 64 + 0x80) as char, (v % 64 + 0x80) as char]
  }

  function Simple(c: char): Option<char> {
    if c == QUOTE || c == SLASH || c == '/' then Some(c)
    else if c == 'b' then Some(BS)
    else if c == 'f' then Some(FF)
    else if c == 'n' then Some('\n')
    else if c == 'r' then Some('\r')
    else if c == 't' then Some('\t')
    else None
  }

  predicate IsUnicodeEscape(s: string) {
    |s| >= 6 && s[0] == SLASH && s[1] == 'u' && forall i :: 2 <= i < 6 ==> IsHex(s[i])
  }

  // One turn of the decoding loop: how many characters it reads and what it stores.
  function Token(s: string): (r: Option<(nat, string)>)
    requires s != []
    ensures r.Some? ==> 1 <= |r.value.1| <= r.value.0 <= |s|
  {
    if s[0] == SLASH then
      if IsUnicodeEscape(s) then Some((6, Utf8(Hex4(s[2..6]))))
      else if |s| >= 2 && Simple(s[1]).Some? then Some((2, [Simple(s[1]).value]))
      else None
    else if s[0] as nat < 0x20 then None
    else Some((1, [s[0]]))
  }

  // The decoding loop of BrbJsonGetProcessedString on the text between the quotes.
  function Decode(s: string): (r: Option<string>)
    ensures r.Some? ==> |r.value| <= |s|
  {
    if s == [] then Some([])
    else
      var t := Token(s);
      if t.None? then None
      else
        var rest := Decode(s[t.value.0..]);
        if rest.None? then None else Some(t.value.1 + rest.value)
  }

  // Characters that survive a string value: no control bytes but \b \f \n \r \t.
  predicate SafeChar(c: char) {
    c as nat >= 0x20 || c == BS || c == FF || c == '\n' || c == '\r' || c == '\t'
  }

  predicate SafeString(s: string) { forall i :: 0 <= i < |s| ==> SafeChar(s[i]) }

  lemma DecodeEscapeChar(c: char, t: string)
    ensures !SafeChar(c) ==> Decode(EscapeChar(c) + t) == None
    ensures SafeChar(c) ==> Token(EscapeChar(c) + t) == Some((|EscapeChar(c)|, [c]))
  {
    var e := EscapeChar(c) + t;
    assert e[0] == EscapeChar(c)[0] && (|EscapeChar(c)| == 2 ==> e[1] == EscapeChar(c)[1]);
  }

  // Decoding an escaped string gives it back, and exactly the safe strings survive.
  lemma {:induction false} DecodeEscape(s: string)
    ensures Decode(Escape(s)) == if SafeString(s) then Some(s) else None
  {
    if s != [] {
      DecodeEscape(s[1..]);
      DecodeEscapeChar(s[0], Escape(s[1..]));
      if SafeChar(s[0]) {
        assert (EscapeChar(s[0]) + Escape(s[1..]))[|EscapeChar(s[0])|..] == Escape(s[1..]);
        assert SafeString(s) <==> SafeString(s[1..]);
        assert s == [s[0]] + s[1..];
      }
    }
  }

  // ---- what the bytes of an escape say ----

  // A later byte of a code point has its two highest bits 10.
  predicate IsTail(c: char) { 0x80 <= c as nat <= 0xBF }

  // The code point at the front and its number of bytes, up to three (section 3 of RFC 3629): the first
  // byte tells the length, the payload bits are put together.
  function ReadUtf8(s: string): Option<(nat, nat)>
    requires s != []
  {
    var b := s[0] as nat;
    if b <= 0x7F then Some((b, 1))
    else if 0xC2 <= b <= 0xDF && |s| >= 2 && IsTail(s[1]) then Some(((b - 0xC0) * 64 + Payload(s[1]), 2))
    else if 0xE0 <= b <= 0xEF && |s| >= 3 && IsTail(s[1]) && IsTail(s[2]) && (b == 0xE0 ==> s[1] as nat >= 0xA0) then
      Some((((b - 0xE0) * 64 + Payload(s[1])) * 64 + Payload(s[2]), 3))
    else None
  }

  function Payload(c: char): nat
    requires IsTail(c)
  {
    c as nat - 0x80
  }

  // The bytes of a code point between U+D800 and U+DFFF, which section 3 of RFC 3629 excludes.
  predicate IsSurrogate(s: string) { |s| >= 2 && s[0] as nat == 0xED && s[1] as nat >= 0xA0 }

  /** What is stored for an escape is read back as its value, and excluded exactly for the halves of pairs. */
  lemma Utf8Read(v: nat, rest: string)
    requires v < 0x1_0000
    ensures ReadUtf8(Utf8(v) + rest) == Some((v, |Utf8(v)|))
    ensures IsSurrogate(Utf8(v)) <==> 0xD800 <= v <= 0xDFFF
  {
    ThreePayloads(v);
  }

  lemma ThreePayloads(v: nat)
    requires v < 0x1_0000
    ensures (v / 4096 * 64 + v / 64 % 64) * 64 + v % 64 == v && v / 64 * 64 + v % 64 == v
    ensures 0x800 <= v < 0x1000 ==> v / 64 % 64 >= 0x20
    ensures v / 4096 == 0xD ==> (v / 64 % 64 >= 0x20 <==> 0xD800 <= v)
  {
    assert v / 64 / 64 == v / 4096;
  }

  const HEX_DIGITS := "0123456789abcdef"
  const HEX_CAPITALS := "0123456789ABCDEF"

  // Four hexadecimal digits for v, highest first, with small letters or capitals.
  function Digits4(v: nat, digits: string): (r: string)
    requires v < 0x1_0000 && |digits| == 16
    ensures |r| == 4
  {
    [digits[v / 4096], digits[v / 256 % 16], digits[v / 16 % 16], digits[v % 16]]
  }

  lemma DigitsValue(v: nat, digits: string)
    requires v < 0x1_0000 && (digits == HEX_DIGITS || digits == HEX_CAPITALS)
    ensures forall i :: 0 <= i < 4 ==> IsHex(Digits4(v, digits)[i])
    ensures Hex4(Digits4(v, digits)) == v
  {
    DigitValue(v / 4096, digits);
    DigitValue(v / 256 % 16, digits);
    DigitValue(v / 16 % 16, digits);
    DigitValue(v % 16, digits);
    FourDigits(v);
  }

  lemma DigitValue(n: nat, digits: string)
    requires n < 16 && (digits == HEX_DIGITS || digits == HEX_CAPITALS)
    ensures IsHex(digits[n]) && HexValue(digits[n]) == n
  {}

  lemma FourDigits(v: nat)
    ensures v / 4096 * 4096 + v / 256 % 16 * 256 + v / 16 % 16 * 16 + v % 16 == v
  {
    var a := v / 16;
    var b := a / 16;
    assert b == v / 256 && b / 16 == v / 4096;
    assert v == a * 16 + v % 16 && a == b * 16 + a % 16 && b == b / 16 * 16 + b % 16;
  }

  /** An escape with the four digits of v is decoded to bytes that read as v. */
  lemma UnicodeDecoded(v: nat, digits: string, rest: string)
    requires v < 0x1_0000 && (digits == HEX_DIGITS || digits == HEX_CAPITALS)
    ensures var t := Token([SLASH, 'u'] + Digits4(v, digits) + rest);
            && t.Some? && t.value.0 == 6 && t.value.1 != []
            && ReadUtf8(t.value.1) == Some((v, |t.value.1|))
  {
    var s := [SLASH, 'u'] + Digits4(v, digits) + rest;
    DigitsValue(v, digits);
    assert s[2..6] == Digits4(v, digits);
    forall i | 2 <= i < 6 ensures IsHex(s[i]) { assert s[i] == Digits4(v, digits)[i - 2]; }
    Utf8Read(v, []);
    assert Utf8(v) + [] == Utf8(v);
  }

  // ---- escapes tell strings apart ----

  lemma EscapesApart(c: char, d: char, s: string, t: string)
    requires EscapeChar(c) + s == EscapeChar(d) + t
    ensures c == d && s == t
  {
    var e, f := EscapeChar(c) + s, EscapeChar(d) + t;
    assert e[0] == f[0];
    if |EscapeChar(c)| == 2 && |EscapeChar(d)| == 2 { assert e[1] == f[1]; }
    assert c == d;
    assert s == e[|EscapeChar(c)|..] && t == f[|EscapeChar(d)|..];
  }

  /** Different strings have different escapes, also where the parser would refuse them. */
  lemma {:induction false} EscapeApart(s: string, t: string)
    requires Escape(s) == Escape(t)
    ensures s == t
    decreases |s|
  {
    if s != [] && t != [] {
      Unescaped(s);
      Unescaped(t);
      EscapesApart(s[0], t[0], Escape(s[1..]), Escape(t[1..]));
      EscapeApart(s[1..], t[1..]);
    }
  }

  /** Where BrbJsonStrIsUTF and sscanf("%4x") look. */
  method ReadUnicode(a: array<char>, r: nat) returns (ok: bool, v: nat)
    requires r < a.Length && a[a.Length - 1] == NUL
    ensures ok <==> r + 4 <= a.Length && forall i :: r <= i < r + 4 ==> IsHex(a[i])
    ensures ok ==> v == Hex4(a[r..r + 4]) && v < 0x1_0000
  {
    ok := IsHex(a[r]) && IsHex(a[r + 1]) && IsHex(a[r + 2]) && IsHex(a[r + 3]);
    v := if ok then Hex4(a[r..r + 4]) else 0;
  }

  /** The branches on utf_val: stores all bytes but the last, which the end of the turn stores. */
  method StoreLeadBytes(a: array<char>, w0: nat, v: nat) returns (w: nat, last: char)
    requires w0 + 2 < a.Length && v < 0x1_0000
    modifies a
    ensures w == w0 + |Utf8(v)| - 1 && a[..w] == old(a[..w0]) + Utf8(v)[..|Utf8(v)| - 1]
    ensures last == Utf8(v)[|Utf8(v)| - 1] && a[w..] == old(a[w..])
  {
    w := w0;
    if v < 0x80 {
      last := v as char;
    } else if v < 0x800 {
      a[w] := (v / 64 + 0xC0) as char;
      w := w + 1;
      last := (v % 64 + 0x80) as char;
    } else {
      a[w] := (v / 4096 + 0xE0) as char;
      w := w + 1;
      a[w] := (v / 64 % 64 + 0x80) as char;
      w := w + 1;
      last := (v % 64 + 0x80) as char;
    }
  }

  /** The switch on the character behind a backslash other than 'u'. */
  method ReadSimple(c0: char) returns (ok: bool, c: char)
    ensures ok <==> Simple(c0).Some?
    ensures ok ==> c == Simple(c0).value
  {
    ok, c := true, c0;
    if c == QUOTE || c == SLASH || c == '/' {
    } else if c == 'b' {
      c := BS;
    } else if c == 'f' {
      c := FF;
    } else if c == 'n' {
      c := '\n';
    } else if c == 'r' {
      c := '\r';
    } else if c == 't' {
      c := '\t';
    } else {
      ok := false;
    }
  }

  // The four characters behind \\u, seen in the whole buffer and in what is left to decode.
  lemma HexDigitsAhead(a: string, r0: nat, rest: string)
    requires r0 < |a| - 1 && a[|a| - 1] == NUL && rest == a[r0..|a| - 1]
    requires |rest| >= 2 && rest[0] == SLASH && rest[1] == 'u'
    ensures IsUnicodeEscape(rest) <==> r0 + 6 <= |a| && forall i :: r0 + 2 <= i < r0 + 6 ==> IsHex(a[i])
    ensures IsUnicodeEscape(rest) ==> a[r0 + 2..r0 + 6] == rest[2..6]
  {
    assert forall i :: 0 <= i < |rest| ==> rest[i] == a[r0 + i];
    if r0 + 6 <= |a| && |rest| < 6 {
      assert a[r0 + |rest|] == NUL;
    }
    if r0 + 6 <= |a| && forall i :: r0 + 2 <= i < r0 + 6 ==> IsHex(a[i]) {
      forall i | 2 <= i < 6 ensures IsHex(rest[i]) { assert IsHex(a[r0 + i]); }
    }
  }

  /** The backslash branch of the decoding loop: leaves the last byte in `c` and `r` on the last character read. */
  method ReadEscape(a: array<char>, r0: nat, w0: nat, ghost rest: string) returns (ok: bool, r: nat, w: nat, c: char)
    requires w0 <= r0 < a.Length - 1 && a[a.Length - 1] == NUL
    requires rest == a[r0..a.Length - 1] && NoNul(rest) && rest[0] == SLASH
    modifies a
    ensures ok <==> Token(rest).Some?
    ensures ok ==> r == r0 + Token(rest).value.0 - 1 && w == w0 + |Token(rest).value.1| - 1 && w <= r < a.Length - 1
    ensures ok ==> a[..w] + [c] == old(a[..w0]) + Token(rest).value.1 && a[r..] == old(a[r..])
  {
    ok, r, w := true, r0 + 1, w0;
    c := a[r];
    assert r < a.Length - 1 ==> c == rest[1];
    if c == 'u' {
      var hex, v := ReadUnicode(a, r + 1);
      HexDigitsAhead(a[..], r0, rest);
      if !hex {
        return false, r, w, c;
      }
      assert a[r + 1..r + 5] == a[..][r0 + 2..r0 + 6];
      w, c := StoreLeadBytes(a, w, v);
      r := r + 4;
    } else {
      ok, c := ReadSimple(c);
    }
  }

  /**
   One turn of the in-place decoding loop. `r` is unprocessed_ptr and `w` is processed_ptr: the turn
   writes what the token at `r` stands for at `w`, never past what it has read.
   */
  method DecodeTurn(a: array<char>, r0: nat, w0: nat, ghost rest: string) returns (ok: bool, r: nat, w: nat)
    requires w0 <= r0 < a.Length - 1 && a[a.Length - 1] == NUL
    requires rest == a[r0..a.Length - 1] && NoNul(rest)
    modifies a
    ensures ok <==> Token(rest).Some?
    ensures ok ==> r == r0 + Token(rest).value.0 && w == w0 + |Token(rest).value.1| && w <= r < a.Length
    ensures ok ==> a[..w] == old(a[..w0]) + Token(rest).value.1 && a[r..] == old(a[r..])
  {
    ok, r, w := true, r0, w0;
    var c := a[r];
    assert c == rest[0];
    if c == SLASH {
      ok, r, w, c := ReadEscape(a, r, w, rest);
      if !ok {
        return;
      }
    } else if c as nat < 0x20 {
      return false, r, w;
    }
    a[w] := c;
    w := w + 1;
    r := r + 1;
  }

  lemma DecodeToken(s: string)
    requires s != []
    ensures Decode(s).Some? <==> Token(s).Some? && Decode(s[Token(s).value.0..]).Some?
    ensures Decode(s).Some? ==> Decode(s).value == Token(s).value.1 + Decode(s[Token(s).value.0..]).value
  {}

  /**
   The in-place decoder of BrbJsonGetProcessedString: the decoded text overwrites the front of the
   buffer it is read from. `len` is where the final NUL goes.
   */
  method DecodeInPlace(a: array<char>) returns (ok: bool, len: nat)
    requires a.Length > 0 && a[a.Length - 1] == NUL && NoNul(a[..a.Length - 1])
    modifies a
    ensures ok <==> Decode(old(a[..a.Length - 1])).Some?
    ensures ok ==> len < a.Length && a[..len] == Decode(old(a[..a.Length - 1])).value && a[len] == NUL
  {
    var r: nat, w: nat := 0, 0;
    ghost var rest, out := a[..a.Length - 1], [];
    ghost var all := Decode(rest);
    while a[r] != NUL
      invariant w <= r < a.Length && |rest| == a.Length - 1 - r
      invariant a[r..] == rest + [NUL] && NoNul(rest) && a[..w] == out
      invariant all.Some? <==> Decode(rest).Some?
      invariant all.Some? ==> all.value == out + Decode(rest).value
      decreases a.Length - r
    {
      AtFront(a[r..], rest);
      DecodeToken(rest);
      var ok;
      ok, r, w := DecodeTurn(a, r, w, rest);
      if !ok {
        return false, 0;
      }
      ghost var was := rest;
      rest := was[Token(was).value.0..];
      if all.Some? {
        Associates(out, Token(was).value.1, Decode(rest).value);
      }
      out := out + Token(was).value.1;
    }
    AtFront(a[r..], rest);
    assert rest == [] && out + [] == out;
    a[w] := NUL;
    return true, w;
  }

  lemma AtFront(s: string, rest: string)
    requires s == rest + [NUL] && NoNul(rest)
    ensures s[0] != NUL <==> rest != []
    ensures s[|rest|] == NUL && s[..|rest|] == rest
  {}
}
