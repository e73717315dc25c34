/**
 Printing a tree and parsing the text gives the tree back exactly when the tree is printable.
 The proofs walk over one fixed text t and speak of positions in it.
 */
module JsonRoundTrip {
  import opened JsonText
  import opened Options
  import opened JsonPrinter
  import opened JsonParser

  // ---- which trees survive ----

  // A name survives when it is not empty and holds no quote, backslash or control byte.
  predicate SafeName(s: string) {
    s != [] && forall i :: 0 <= i < |s| ==> s[i] != QUOTE && s[i] != SLASH && s[i] as nat >= 0x20
  }

  predicate SafeEntry(es: seq<Entry>, k: nat)
    requires k < |es|
  {
    SafeName(es[k].name) && Accepts(es[..k], es[k].name)
  }

  // The exact condition for a value that stands inside `depth` containers.
  predicate Printable(v: JsonValue, depth: nat)
    decreases v
  {
    && depth <= JSON_MAX_NESTING
    && match v
       case String(s) => SafeString(s)
       case Object(es) => forall k :: 0 <= k < |es| ==> SafeEntry(es, k) && Printable(es[k].value, depth + 1)
       case Array(vs) => |vs| <= JSON_ARRAY_MAX_CAPACITY && forall k :: 0 <= k < |vs| ==> Printable(vs[k], depth + 1)
       case _ => true
  }

  predicate Closes(c: char) { c == ',' || c == '}' || c == ']' }

  // strtod reads back what "%ld" printed for this number.
  ghost predicate ReadsBack(lc: Libc, x: real) {
    && x == x.Floor as real
    && forall rest :: rest != [] && Closes(rest[0]) ==>
         lc.strtod(Decimal(x.Floor) + rest) == (x, |Decimal(x.Floor)|)
  }

  // What a tree is made of: integer numbers that the C library handles, and C strings.
  ghost predicate WellFormed(lc: Libc, v: JsonValue)
    decreases v
  {
    match v
    case Number(x) => ReadsBack(lc, x)
    case String(s) => NoNul(s)
    case Object(es) => forall k :: 0 <= k < |es| ==> NoNul(es[k].name) && WellFormed(lc, es[k].value)
    case Array(vs) => forall k :: 0 <= k < |vs| ==> WellFormed(lc, vs[k])
    case _ => true
  }

  predicate Container(v: JsonValue) { v.Object? || v.Array? }

  // ---- positions in a text ----

  predicate At(t: string, i: nat, s: string) {
    i + |s| <= |t| && t[i..i + |s|] == s
  }

  lemma {:induction false} AtSplit(t: string, i: nat, a: string, b: string)
    ensures At(t, i, a + b) <==> At(t, i, a) && At(t, i + |a|, b)
  {
    if At(t, i, a + b) {
      assert t[i..i + |a|] == (a + b)[..|a|];
      assert t[i + |a|..i + |a| + |b|] == (a + b)[|a|..];
    }
    if At(t, i, a) && At(t, i + |a|, b) {
      assert t[i..i + |a + b|] == t[i..i + |a|] + t[i + |a|..i + |a| + |b|];
    }
  }

  lemma {:induction false} AtIndex(t: string, i: nat, s: string, k: nat)
    requires At(t, i, s) && k < |s|
    ensures t[i + k] == s[k]
  {
    assert t[i..i + |s|][k] == t[i + k];
  }

  // ---- strings ----

  // Positions between the escapes of two characters.
  predicate Aligned(s: string, off: nat)
    decreases s
  {
    off == 0 || (s != [] && |EscapeChar(s[0])| <= off && Aligned(s[1..], off - |EscapeChar(s[0])|))
  }

  lemma {:induction false} ScanChar(t: string, i: nat, c: char)
    requires At(t, i, EscapeChar(c))
    ensures ScanQuote(t, i) == ScanQuote(t, i + |EscapeChar(c)|)
  {
    AtIndex(t, i, EscapeChar(c), 0);
  }

  // From such a position the scan for the closing quote passes over every escape.
  lemma {:induction false} ScanEscaped(t: string, i: nat, s: string, off: nat)
    requires At(t, i, Escape(s)) && i + |Escape(s)| < |t| && t[i + |Escape(s)|] == QUOTE
    requires off <= |Escape(s)| && Aligned(s, off)
    ensures ScanQuote(t, i + off) == i + |Escape(s)| + 1
    decreases s
  {
    if s != [] {
      EscapeParts(t, i, s);
      var k := |EscapeChar(s[0])|;
      if off == 0 {
        ScanChar(t, i, s[0]);
        ScanEscaped(t, i + k, s[1..], 0);
      } else {
        ScanEscaped(t, i + k, s[1..], off - k);
      }
    }
  }

  lemma {:induction false} EscapeParts(t: string, i: nat, s: string)
    requires s != [] && At(t, i, Escape(s))
    ensures At(t, i, EscapeChar(s[0])) && At(t, i + |EscapeChar(s[0])|, Escape(s[1..]))
    ensures |Escape(s)| == |EscapeChar(s[0])| + |Escape(s[1..])|
  {
    Unescaped(s);
    AtSplit(t, i, EscapeChar(s[0]), Escape(s[1..]));
  }

  // A printed string, by the positions of its parts.
  lemma {:induction false} QuotedParts(t: string, i: nat, e: string)
    requires At(t, i, [QUOTE] + e + [QUOTE])
    ensures i + |e| + 1 < |t| && At(t, i + 1, e) && t[i] == QUOTE && t[i + |e| + 1] == QUOTE
    ensures t[i + 1..i + |e| + 1] == e
  {
    AtSplit(t, i, [QUOTE] + e, [QUOTE]);
    AtSplit(t, i, [QUOTE], e);
    AtIndex(t, i, [QUOTE], 0);
    AtIndex(t, i + |e| + 1, [QUOTE], 0);
  }

  // What StringAt makes of the text z between the quotes, when z decodes to d.
  lemma {:induction false} StringAtParts(t: string, i: nat, z: string, e: nat, d: Option<string>)
    requires i < |t| && ScanQuote(t, i + 1) == e < |t| && t[i + 1..e - 1] == z && Decode(z) == d
    ensures StringAt(t, i) == if d.None? then None else Some((CStr(d.value), e))
  {
    StringAtIs(t, i, z, e);
    UnquotedParts(z, e, d);
  }

  lemma {:induction false} StringAtIs(t: string, i: nat, z: string, e: nat)
    requires i < |t| && ScanQuote(t, i + 1) == e < |t| && t[i + 1..e - 1] == z
    ensures StringAt(t, i) == Unquoted(z, e)
  {}

  lemma {:induction false} UnquotedParts(z: string, e: nat, d: Option<string>)
    requires Decode(z) == d
    ensures Unquoted(z, e) == if d.None? then None else Some((CStr(d.value), e))
  {}

  lemma {:induction false} QuotedStringAt(t: string, i: nat, z: string, d: Option<string>)
    requires At(t, i, [QUOTE] + z + [QUOTE]) && i + |z| + 2 < |t|
    requires ScanQuote(t, i + 1) == i + |z| + 2 && Decode(z) == d
    ensures StringAt(t, i) == if d.None? then None else Some((CStr(d.value), i + |z| + 2))
  {
    QuotedParts(t, i, z);
    StringAtParts(t, i, z, i + |z| + 2, d);
  }

  lemma {:induction false} ScanQuoted(t: string, i: nat, s: string, e: string)
    requires e == Escape(s) && At(t, i, [QUOTE] + e + [QUOTE])
    ensures i < |t| && ScanQuote(t, i + 1) == i + |e| + 2
  {
    QuotedParts(t, i, e);
    ScanEscaped(t, i + 1, s, 0);
  }

  // What the parser reads where the printer put a string.
  lemma {:induction false} StringBack(t: string, i: nat, s: string, e: string)
    requires NoNul(s) && e == Escape(s) && At(t, i, [QUOTE] + e + [QUOTE]) && i + |e| + 2 < |t|
    ensures StringAt(t, i) == if SafeString(s) then Some((s, i + |e| + 2)) else None
  {
    ScanQuoted(t, i, s, e);
    DecodeEscape(s);
    QuotedStringAt(t, i, e, if SafeString(s) then Some(s) else None);
  }

  lemma {:induction false} DecodePlain(s: string)
    requires forall i :: 0 <= i < |s| ==> s[i] != SLASH
    ensures Decode(s) == if forall i :: 0 <= i < |s| ==> s[i] as nat >= 0x20 then Some(s) else None
  {
    if s != [] {
      DecodePlain(s[1..]);
      assert s == [s[0]] + s[1..];
    }
  }

  // An unescaped quote ends the scan at the latest.
  lemma {:induction false} ScanStops(t: string, a: nat, j: nat)
    requires a <= j < |t| && t[j] == QUOTE && (a < j ==> t[j - 1] != SLASH)
    ensures ScanQuote(t, a) <= j + 1
    decreases j - a
  {
    if t[a] == QUOTE {
    } else if t[a] == SLASH {
      ScanStops(t, a + 2, j);
    } else {
      ScanStops(t, a + 1, j);
    }
  }

  lemma {:induction false} ScanPlain(t: string, a: nat, j: nat)
    requires a <= j < |t| && t[j] == QUOTE
    requires forall k :: a <= k < j ==> t[k] != QUOTE && t[k] != SLASH
    ensures ScanQuote(t, a) == j + 1
    decreases j - a
  {
    if a < j { ScanPlain(t, a + 1, j); }
  }

  // The scan stopped at a quote, unless it ran to the end.
  lemma {:induction false} ScanEndsInQuote(t: string, a: nat)
    requires a <= |t| && ScanQuote(t, a) < |t|
    ensures ScanQuote(t, a) > a && t[ScanQuote(t, a) - 1] == QUOTE
    decreases |t| - a
  {
    if t[a] == QUOTE {
    } else if t[a] == SLASH {
      ScanEndsInQuote(t, a + 2);
    } else {
      ScanEndsInQuote(t, a + 1);
    }
  }

  // A safe name is read back as printed.
  lemma {:induction false} SafeNameBack(t: string, i: nat, name: string)
    requires SafeName(name) && NoNul(name) && At(t, i, PrintKey(name))
    ensures KeyAt(t, i) == Some((name, i + |name| + 3))
  {
    var end := i + |name| + 1;
    KeyParts(t, i, name);
    forall k | i + 1 <= k < end ensures t[k] != QUOTE && t[k] != SLASH {
      assert t[k] == name[k - i - 1];
    }
    ScanPlain(t, i + 1, end);
    DecodePlain(name);
    StringAtParts(t, i, name, end + 1, Some(name));
  }

  // ---- names that do not survive ----

  function Slashes(s: string): nat {
    if s == [] then 0 else (if s[0] == SLASH then 1 else 0) + Slashes(s[1..])
  }

  lemma {:induction false} SlashesConcat(s: string, t: string)
    ensures Slashes(s + t) == Slashes(s) + Slashes(t)
  {
    if s == [] {
      assert s + t == t;
    } else {
      SlashesConcat(s[1..], t);
      assert (s + t)[1..] == s[1..] + t;
    }
  }

  lemma {:induction false} NoSlashes(s: string)
    ensures Slashes(s) == 0 <==> SLASH !in s
  {
    if s != [] { NoSlashes(s[1..]); }
  }

  // Every quote has a backslash before it: the text between the quotes of a scanned string.
  predicate Inside(s: string)
    decreases s
  {
    if s == [] then true
    else if s[0] == QUOTE then false
    else if s[0] == SLASH then |s| >= 2 && Inside(s[2..])
    else Inside(s[1..])
  }

  lemma {:induction false} ScannedInside(t: string, a: nat)
    requires a <= |t| && ScanQuote(t, a) < |t|
    ensures ScanQuote(t, a) > a && Inside(t[a..ScanQuote(t, a) - 1])
    decreases |t| - a
  {
    var e := ScanQuote(t, a);
    var z := t[a..e - 1];
    if t[a] == QUOTE {
    } else if t[a] == SLASH {
      ScannedInside(t, a + 2);
      assert z[2..] == t[a + 2..e - 1];
    } else {
      ScannedInside(t, a + 1);
      assert z[1..] == t[a + 1..e - 1];
    }
  }

  lemma {:induction false} TokenSlashes(s: string)
    requires s != [] && Token(s).Some?
    ensures Slashes(Token(s).value.1) <= Slashes(s[..Token(s).value.0])
    ensures s[0] == SLASH && s[1] == QUOTE ==> Slashes(Token(s).value.1) < Slashes(s[..Token(s).value.0])
  {
    var n, out := Token(s).value.0, Token(s).value.1;
    var read := s[..n];
    if s[0] == SLASH {
      assert Slashes(read) == 1 + Slashes(read[1..]);
      if IsUnicodeEscape(s) {
        assert |out| > 1 ==> out[0] != SLASH && Slashes(out) == Slashes(out[1..]);
        assert |out| > 1 ==> out[1] != SLASH && Slashes(out[1..]) == Slashes(out[2..]);
        assert |out| > 2 ==> out[2] != SLASH && Slashes(out[2..]) == Slashes(out[3..]);
        assert |out| == 1 ==> Slashes(out) <= 1;
      } else {
        assert out == [Simple(s[1]).value] && Slashes(out) <= 1;
      }
    } else {
      assert read == out;
    }
  }

  // Decoding never gains backslashes, and loses one for every quote inside.
  lemma {:induction false} DecodeLosesSlashes(s: string)
    requires Inside(s) && Decode(s).Some?
    ensures Slashes(Decode(s).value) <= Slashes(s)
    ensures QUOTE in s ==> Slashes(Decode(s).value) < Slashes(s)
    decreases |s|
  {
    if s != [] {
      var n, out := Token(s).value.0, Token(s).value.1;
      TokenSlashes(s);
      TokenInside(s);
      DecodeLosesSlashes(s[n..]);
      assert s == s[..n] + s[n..];
      SlashesConcat(s[..n], s[n..]);
      SlashesConcat(out, Decode(s[n..]).value);
      if QUOTE in s && QUOTE !in s[n..] {
        assert QUOTE in s[..n];
      }
    }
  }

  lemma {:induction false} InsideRaw(s: string)
    requires s != [] && Inside(s) && s[0] != SLASH
    ensures Inside(s[1..]) && s[0] != QUOTE
  {}

  lemma {:induction false} TokenInside(s: string)
    requires s != [] && Inside(s) && Token(s).Some?
    ensures Inside(s[Token(s).value.0..])
    ensures QUOTE in s[..Token(s).value.0] ==> s[0] == SLASH && s[1] == QUOTE
  {
    if IsUnicodeEscape(s) {
      var r := s[2..];
      assert Inside(r) && r[0] == s[2];
      InsideRaw(r);
      assert r[1..] == s[3..];
      InsideRaw(s[3..]);
      assert s[3..][1..] == s[4..];
      InsideRaw(s[4..]);
      assert s[4..][1..] == s[5..];
      InsideRaw(s[5..]);
      assert s[5..][1..] == s[6..];
    }
  }

  // From position i on, the first backslash comes behind a quote. Printed text is like that.
  predicate OpensAt(t: string, i: nat) {
    forall j :: i <= j < |t| && t[j] == SLASH ==> exists q :: i <= q < j && t[q] == QUOTE
  }

  // A scan that passes position q leaves neither quotes nor backslashes between q and its end.
  lemma {:induction false} NothingBehind(t: string, a: nat, q: nat)
    requires a <= q <= |t| && q < ScanQuote(t, a) < |t| && t[q] != QUOTE && OpensAt(t, q)
    ensures forall j :: q <= j < ScanQuote(t, a) - 1 ==> t[j] != QUOTE && t[j] != SLASH
  {
    var e := ScanQuote(t, a);
    var j := q;
    while j < e - 1
      invariant q <= j <= e - 1
      invariant forall k :: q <= k < j ==> t[k] != QUOTE && t[k] != SLASH
    {
      if t[j] == QUOTE {
        ScanStops(t, a, j);
      }
      j := j + 1;
    }
  }

  lemma {:induction false} DecodeShrinks(s: string)
    requires SLASH in s && Decode(s).Some?
    ensures |Decode(s).value| < |s|
  {
    var n := Token(s).value.0;
    if s[0] != SLASH {
      assert s == [s[0]] + s[1..];
      DecodeShrinks(s[1..]);
    } else if IsUnicodeEscape(s) {
      assert |Token(s).value.1| < n;
    } else {
      assert |Token(s).value.1| < n;
    }
  }

  lemma {:induction false} SlashesOfPrefix(s: string, t: string)
    requires s <= t
    ensures Slashes(s) <= Slashes(t)
  {
    assert t == s + t[|s|..];
    SlashesConcat(s, t[|s|..]);
  }

  // When the scan over a printed name, or its rest, runs past the closing quote at q,
  // what it decodes has fewer backslashes than the name.
  lemma {:induction false} PassedClosingQuote(t: string, a: nat, q: nat, name: string)
    requires 0 < a <= q < |t| && q + 1 < ScanQuote(t, a) < |t| && t[q] == QUOTE
    requires t[q + 1] != QUOTE && OpensAt(t, q + 1)
    requires q <= a + |name| && t[a..q] == name[|name| - (q - a)..]
    ensures StringAt(t, a - 1).Some? ==> StringAt(t, a - 1).value.0 != name
  {
    var e := ScanQuote(t, a);
    var z, left, right := t[a..e - 1], t[a..q], t[q..e - 1];
    NothingBehind(t, a, q + 1);
    assert z == left + right && QUOTE == right[0];
    assert SLASH !in right;
    NoSlashes(right);
    SlashesConcat(left, right);
    var before := name[..|name| - (q - a)];
    assert name == before + left;
    SlashesConcat(before, left);
    ScannedInside(t, a);
    if Decode(z).Some? {
      assert z[q - a] == QUOTE;
      DecodeLosesSlashes(z);
      SlashesOfPrefix(CStr(Decode(z).value), Decode(z).value);
    }
  }

  // An unsafe name that is scanned as a whole decodes to something else.
  lemma {:induction false} UnsafeNameChanged(t: string, a: nat, name: string)
    requires name != [] && !SafeName(name)
    requires a + |name| + 1 < |t| && t[a..a + |name|] == name && ScanQuote(t, a) == a + |name| + 1
    ensures Decode(name).Some? ==> |Decode(name).value| < |name|
  {
    if SLASH in name {
      if Decode(name).Some? { DecodeShrinks(name); }
    } else {
      ScannedInside(t, a);
      InsidePlain(name);
      DecodePlain(name);
    }
  }

  // Where the parts of a printed name are.
  lemma {:induction false} KeyParts(t: string, i: nat, name: string)
    requires name != [] && At(t, i, PrintKey(name))
    ensures i + |name| + 4 <= |t| && t[i] == QUOTE && t[i + 1..i + |name| + 1] == name
    ensures t[i + |name| + 1] == QUOTE && t[i + |name| + 2] == ':' && t[i + |name| + 3] == ' '
  {
    assert PrintKey(name) == [QUOTE] + name + [QUOTE] + ": ";
    AtSplit(t, i, [QUOTE] + name + [QUOTE], ": ");
    QuotedParts(t, i, name);
    AtIndex(t, i + |name| + 2, ": ", 0);
    AtIndex(t, i + |name| + 2, ": ", 1);
  }

  // A nonempty name that is not safe is never read back.
  lemma {:induction false} UnsafeNameLost(t: string, i: nat, name: string)
    requires name != [] && !SafeName(name) && At(t, i, PrintKey(name))
    requires OpensAt(t, i + |name| + 4)
    ensures StringAt(t, i).Some? ==> StringAt(t, i).value.0 != name
  {
    KeyParts(t, i, name);
    var q, e := i + |name| + 1, ScanQuote(t, i + 1);
    assert OpensAt(t, q + 1);
    if q + 1 < e < |t| {
      assert t[i + 1..q] == name == name[|name| - (q - (i + 1))..];
      PassedClosingQuote(t, i + 1, q, name);
    } else if e == q + 1 {
      UnsafeNameChanged(t, i + 1, name);
      DecodedLength(t, i, name);
    } else if e < |t| {
      DecodedLength(t, i, t[i + 1..e - 1]);
    }
  }

  // What a string decodes to is no longer than its text.
  lemma {:induction false} DecodedLength(t: string, i: nat, z: string)
    requires i < |t| && ScanQuote(t, i + 1) < |t| && t[i + 1..ScanQuote(t, i + 1) - 1] == z
    ensures StringAt(t, i).Some? ==> Decode(z).Some? && |StringAt(t, i).value.0| <= |Decode(z).value| <= |z|
  {
    StringAtParts(t, i, z, ScanQuote(t, i + 1), Decode(z));
  }

  lemma {:induction false} InsidePlain(s: string)
    requires Inside(s) && SLASH !in s
    ensures QUOTE !in s
  {
    if s != [] {
      assert s == [s[0]] + s[1..];
      InsidePlain(s[1..]);
    }
  }

  // ---- numbers ----

  lemma {:induction false} NoLeadingZero(n: nat)
    requires n > 0
    ensures Digits(n)[0] != '0'
  {
    if n >= 10 { NoLeadingZero(n / 10); }
  }

  lemma {:induction false} DecimalIsDecimal(n: int)
    ensures IsDecimal(Decimal(n))
  {
    if n != 0 { NoLeadingZero(if n < 0 then -n else n); }
    assert n == 0 ==> Decimal(n) == ['0'];
    assert n < 0 ==> Decimal(n)[1] == Digits(-n)[0];
  }

  lemma {:induction false} NumberBack(lc: Libc, t: string, i: nat, x: real)
    requires lc.Valid() && ReadsBack(lc, x) && At(t, i, Decimal(x.Floor))
    requires i + |Decimal(x.Floor)| < |t| && Closes(t[i + |Decimal(x.Floor)|])
    ensures NumberAt(lc, t, i) == Some((Number(x), i + |Decimal(x.Floor)|))
  {
    var d := Decimal(x.Floor);
    assert t[i..] == d + t[i + |d|..];
    DecimalIsDecimal(x.Floor);
  }

  // ---- what printed text looks like ----

  lemma {:induction false} OpensBefore(t: string, i: nat, s: string)
    requires At(t, i, s) && OpensAt(s, 0) && OpensAt(t, i + |s|)
    ensures OpensAt(t, i)
  {
    forall j | i <= j < |t| && t[j] == SLASH ensures exists q :: i <= q < j && t[q] == QUOTE {
      if j < i + |s| {
        AtIndex(t, i, s, j - i);
        var q :| 0 <= q < j - i && s[q] == QUOTE;
        AtIndex(t, i, s, q);
        assert t[i + q] == QUOTE;
      }
    }
  }

  lemma {:induction false} OpensConcat(a: string, b: string)
    requires OpensAt(a, 0) && OpensAt(b, 0)
    ensures OpensAt(a + b, 0)
  {
    assert At(a + b, |a|, b) && At(a + b, 0, a);
    assert OpensAt(a + b, |a| + |b|);
    OpensBefore(a + b, |a|, b);
    OpensBefore(a + b, 0, a);
  }

  lemma {:induction false} QuoteOpens(s: string)
    ensures OpensAt([QUOTE] + s, 0)
  {
    assert ([QUOTE] + s)[0] == QUOTE;
  }

  lemma {:induction false} KeyOpens(name: string)
    ensures OpensAt(PrintKey(name), 0)
  {
    if name != [] {
      QuoteOpens(name + [QUOTE] + ": ");
      assert PrintKey(name) == [QUOTE] + (name + [QUOTE] + ": ");
    }
  }

  lemma {:induction false} DigitsOpen(n: nat)
    ensures SLASH !in Digits(n)
  {}

  lemma {:induction false} PrintOpens(lc: Libc, v: JsonValue)
    requires WellFormed(lc, v)
    ensures OpensAt(Print(lc, v), 0)
    decreases v, 0
  {
    match v
    case Number(x) =>
      var n := x.Floor;
      DigitsOpen(if n < 0 then -n else n);
      assert SLASH !in Decimal(n);
    case String(s) =>
      QuoteOpens(Escape(s) + [QUOTE]);
      assert Print(lc, v) == [QUOTE] + (Escape(s) + [QUOTE]);
    case Object(es) =>
      EntriesOpen(lc, es, 0);
      OpensConcat("{", PrintEntries(lc, es, 0));
    case Array(vs) =>
      ItemsOpen(lc, vs, 0);
      OpensConcat("[", PrintItems(lc, vs, 0));
    case _ =>
  }

  lemma {:induction false} EntriesOpen(lc: Libc, es: seq<Entry>, k: nat)
    requires k <= |es| && forall j :: 0 <= j < |es| ==> WellFormed(lc, es[j].value)
    ensures OpensAt(PrintEntries(lc, es, k), 0)
    decreases es, |es| - k
  {
    if k < |es| {
      PrintOpens(lc, es[k].value);
      EntriesOpen(lc, es, k + 1);
      KeyOpens(es[k].name);
      OpensConcat(Comma(k), PrintKey(es[k].name));
      OpensConcat(Comma(k) + PrintKey(es[k].name), Print(lc, es[k].value));
      OpensConcat(Comma(k) + PrintKey(es[k].name) + Print(lc, es[k].value), PrintEntries(lc, es, k + 1));
    }
  }

  lemma {:induction false} ItemsOpen(lc: Libc, vs: seq<JsonValue>, k: nat)
    requires k <= |vs| && forall j :: 0 <= j < |vs| ==> WellFormed(lc, vs[j])
    ensures OpensAt(PrintItems(lc, vs, k), 0)
    decreases vs, |vs| - k
  {
    if k < |vs| {
      PrintOpens(lc, vs[k]);
      ItemsOpen(lc, vs, k + 1);
      OpensConcat(Comma(k), Print(lc, vs[k]));
      OpensConcat(Comma(k) + Print(lc, vs[k]), PrintItems(lc, vs, k + 1));
    }
  }

  // The first character of a printed value tells its kind.
  lemma {:induction false} FirstChar(lc: Libc, v: JsonValue)
    requires WellFormed(lc, v)
    ensures Print(lc, v) != []
    ensures var c := Print(lc, v)[0];
            && !IsSpace(c) && !Closes(c) && c != ':' && c != SLASH
            && (c == '{' <==> v.Object?) && (c == '[' <==> v.Array?) && (c == QUOTE <==> v.String?)
  {}

  function EntryText(lc: Libc, e: Entry): string { PrintKey(e.name) + Print(lc, e.value) }

  // The printed entries from number k on, without the comma before it.
  function EntriesText(lc: Libc, es: seq<Entry>, k: nat): string
    requires k < |es|
  {
    EntryText(lc, es[k]) + PrintEntries(lc, es, k + 1)
  }

  function ItemsText(lc: Libc, vs: seq<JsonValue>, k: nat): string
    requires k < |vs|
  {
    Print(lc, vs[k]) + PrintItems(lc, vs, k + 1)
  }

  lemma {:induction false} EntriesParts(lc: Libc, es: seq<Entry>, k: nat)
    requires k < |es|
    ensures PrintEntries(lc, es, k) == Comma(k) + EntriesText(lc, es, k)
  {
    assert Comma(k) + PrintKey(es[k].name) + Print(lc, es[k].value) + PrintEntries(lc, es, k + 1)
        == Comma(k) + (PrintKey(es[k].name) + Print(lc, es[k].value) + PrintEntries(lc, es, k + 1));
  }

  lemma {:induction false} ItemsParts(lc: Libc, vs: seq<JsonValue>, k: nat)
    requires k < |vs|
    ensures PrintItems(lc, vs, k) == Comma(k) + ItemsText(lc, vs, k)
  {
    assert Comma(k) + Print(lc, vs[k]) + PrintItems(lc, vs, k + 1)
        == Comma(k) + (Print(lc, vs[k]) + PrintItems(lc, vs, k + 1));
  }

  lemma {:induction false} FirstOfEntry(lc: Libc, e: Entry)
    requires WellFormed(lc, e.value)
    ensures EntryText(lc, e) != [] && !IsSpace(EntryText(lc, e)[0]) && !Closes(EntryText(lc, e)[0])
  {
    FirstChar(lc, e.value);
  }

  // ---- the round trip ----

  // What may stand behind a printed value for it to be read back: a container closes itself.
  predicate Followed(t: string, end: nat, v: JsonValue) {
    end <= |t| && OpensAt(t, end) && (Container(v) || (end < |t| && Closes(t[end])))
  }

  // A parse result that is exactly v at `end`, or one that is certainly not v.
  predicate BackIff<A(==)>(r: Parsed<A>, v: A, end: nat, good: bool) {
    if good then r == Some((v, end)) else r.Some? ==> r.value.0 != v
  }

  lemma {:induction false} EntryOf(lc: Libc, t: string, i: nat, n: nat, name: string, q: nat, e: Entry)
    requires lc.Valid() && i < |t| && KeyAt(t, i) == Some((name, q))
    ensures name != e.name || (ValueAt(lc, t, q, n).Some? ==> ValueAt(lc, t, q, n).value.0 != e.value) ==>
              EntryAt(lc, t, i, n).Some? ==> EntryAt(lc, t, i, n).value.0 != e
    ensures name == e.name && ValueAt(lc, t, q, n).Some? && ValueAt(lc, t, q, n).value.0 == e.value ==>
              EntryAt(lc, t, i, n) == Some((e, ValueAt(lc, t, q, n).value.1))
  {}

  // An entry with a safe name: the name and the colon are read back, the rest is up to the value.
  lemma {:induction false} SafeEntryBack(lc: Libc, t: string, i: nat, e: Entry, n: nat, k: nat, end: nat)
    requires lc.Valid() && SafeName(e.name) && NoNul(e.name)
    requires At(t, i, PrintKey(e.name)) && k == i + |PrintKey(e.name)| && k < |t|
    requires BackIff(ValueAt(lc, t, k, n), e.value, end, Printable(e.value, n))
    ensures BackIff(EntryAt(lc, t, i, n), e, end, Printable(e.value, n))
  {
    SafeNameBack(t, i, e.name);
    KeyParts(t, i, e.name);
    AfterSpace(lc, t, k, e.value, n);
    EntryOf(lc, t, i, n, e.name, k - 1, e);
  }

  lemma {:induction false} UnsafeEntryLost(lc: Libc, t: string, i: nat, e: Entry, n: nat)
    requires lc.Valid() && e.name != [] && !SafeName(e.name) && At(t, i, PrintKey(e.name))
    requires OpensAt(t, i + |PrintKey(e.name)|)
    ensures i < |t| && (EntryAt(lc, t, i, n).Some? ==> EntryAt(lc, t, i, n).value.0 != e)
  {
    KeyParts(t, i, e.name);
    UnsafeNameLost(t, i, e.name);
  }

  lemma {:induction false} EmptyEntryLost(lc: Libc, t: string, i: nat, e: Entry, n: nat, end: nat)
    requires lc.Valid() && WellFormed(lc, e.value) && e.name == []
    requires At(t, i, Print(lc, e.value)) && end == i + |Print(lc, e.value)|
    requires end < |t| && Closes(t[end]) && OpensAt(t, end)
    ensures i < |t| && (EntryAt(lc, t, i, n).Some? ==> EntryAt(lc, t, i, n).value.0 != e)
  {
    EmptyNameLost(lc, t, i, e.value, n, end);
    if KeyAt(t, i).Some? {
      EntryOf(lc, t, i, n, KeyAt(t, i).value.0, KeyAt(t, i).value.1, e);
    }
  }

  lemma {:induction false} EntryBack(lc: Libc, t: string, i: nat, e: Entry, n: nat, end: nat)
    requires lc.Valid() && WellFormed(lc, e.value) && NoNul(e.name)
    requires At(t, i, EntryText(lc, e)) && end == i + |EntryText(lc, e)|
    requires end < |t| && Closes(t[end]) && OpensAt(t, end)
    ensures i < |t| && BackIff(EntryAt(lc, t, i, n), e, end, SafeName(e.name) && Printable(e.value, n))
    decreases e.value, 1
  {
    var k := i + |PrintKey(e.name)|;
    AtSplit(t, i, PrintKey(e.name), Print(lc, e.value));
    PrintOpens(lc, e.value);
    OpensBefore(t, k, Print(lc, e.value));
    if e.name == [] {
      assert EntryText(lc, e) == Print(lc, e.value);
      EmptyEntryLost(lc, t, i, e, n, end);
    } else if SafeName(e.name) {
      FirstChar(lc, e.value);
      ValueBack(lc, t, k, e.value, n, end);
      SafeEntryBack(lc, t, i, e, n, k, end);
    } else {
      UnsafeEntryLost(lc, t, i, e, n);
    }
  }

  // The blank behind the colon of a printed entry is skipped.
  lemma {:induction false} AfterSpace(lc: Libc, t: string, k: nat, v: JsonValue, n: nat)
    requires lc.Valid() && 0 < k && k < |t| && t[k - 1] == ' '
    ensures ValueAt(lc, t, k - 1, n) == ValueAt(lc, t, k, n)
  {
    assert SkipSpace(t, k - 1) == SkipSpace(t, k);
  }

  // The entries that the parser keeps are a prefix of those it returns.
  lemma {:induction false} EntriesGrow(lc: Libc, t: string, i: nat, n: nat, es: seq<Entry>)
    requires lc.Valid() && i < |t| && EntriesAt(lc, t, i, n, es).Some?
    ensures EntryAt(lc, t, i, n).Some?
    ensures var r := EntriesAt(lc, t, i, n, es).value.0;
            r.Object? && |r.entries| > |es| && r.entries[..|es| + 1] == es + [EntryAt(lc, t, i, n).value.0]
    decreases |t| - i
  {
    var e := EntryAt(lc, t, i, n);
    var p := SkipSpace(t, e.value.1);
    if t[p] == ',' {
      var q := SkipSpace(t, p + 1);
      EntriesGrow(lc, t, q, n, es + [e.value.0]);
      var r := EntriesAt(lc, t, q, n, es + [e.value.0]).value.0;
      assert r.entries[..|es| + 1] == r.entries[..|es| + 2][..|es| + 1];
    }
  }

  lemma {:induction false} OneMore<A>(s: seq<A>, k: nat)
    requires k < |s|
    ensures s[..k] + [s[k]] == s[..k + 1] && (k + 1 == |s| ==> s[..k + 1] == s)
  {}

  // One accepted entry, and what the parser does at the character behind it.
  lemma {:induction false} EntryTaken(lc: Libc, t: string, i: nat, n: nat, es: seq<Entry>, e: Entry, end: nat)
    requires lc.Valid() && i < |t| && end < |t| && EntryAt(lc, t, i, n) == Some((e, end)) && Accepts(es, e.name)
    ensures t[end] == '}' ==> EntriesAt(lc, t, i, n, es) == Some((Object(es + [e]), end + 1))
    ensures t[end] == ',' && SkipSpace(t, end + 1) == end + 1 ==>
              EntriesAt(lc, t, i, n, es) == EntriesAt(lc, t, end + 1, n, es + [e])
  {
    assert Closes(t[end]) ==> SkipSpace(t, end) == end;
  }

  predicate GoodEntries(es: seq<Entry>, from: nat, n: nat) {
    forall j :: from <= j < |es| ==> SafeEntry(es, j) && Printable(es[j].value, n)
  }

  // Where the next entry ends and what is behind it.
  lemma {:induction false} EntriesLayout(lc: Libc, t: string, i: nat, es: seq<Entry>, k: nat, end: nat, mid: nat)
    requires k < |es| && forall j :: 0 <= j < |es| ==> WellFormed(lc, es[j].value)
    requires At(t, i, EntriesText(lc, es, k)) && end == i + |EntriesText(lc, es, k)| && OpensAt(t, end)
    requires mid == i + |EntryText(lc, es[k])|
    ensures At(t, i, EntryText(lc, es[k])) && mid < |t| && Closes(t[mid]) && OpensAt(t, mid)
    ensures k + 1 == |es| ==> t[mid] == '}' && end == mid + 1
    ensures k + 1 < |es| ==> t[mid] == ',' && SkipSpace(t, mid + 1) == mid + 1
    ensures k + 1 < |es| ==> At(t, mid + 1, EntriesText(lc, es, k + 1)) && end == mid + 1 + |EntriesText(lc, es, k + 1)|
  {
    var rest := PrintEntries(lc, es, k + 1);
    AtSplit(t, i, EntryText(lc, es[k]), rest);
    EntriesOpen(lc, es, k + 1);
    OpensBefore(t, mid, rest);
    BehindEntry(lc, t, mid, es, k + 1);
  }

  lemma {:induction false} BackIffStep<A>(r: Parsed<A>, behind: Parsed<A>, v: A, end: nat, good: bool, goodBehind: bool)
    requires BackIff(behind, v, end, goodBehind)
    requires if good then r == behind else r.Some? ==> r.value.0 != v
    ensures BackIff(r, v, end, good && goodBehind)
  {}

  // What the parser gives behind entry k when it has taken it.
  ghost function BehindTaken(lc: Libc, t: string, es: seq<Entry>, k: nat, n: nat, end: nat, mid: nat): Parsed<JsonValue>
    requires lc.Valid() && k < |es| && mid < |t|
  {
    if k + 1 == |es| then Some((Object(es), end)) else EntriesAt(lc, t, mid + 1, n, es[..k + 1])
  }

  // The result for the entries from k on, from the result for entry k and for those behind it.
  lemma {:induction false} EntriesCombine(lc: Libc, t: string, i: nat, es: seq<Entry>, k: nat, n: nat, end: nat,
                                          mid: nat)
    requires lc.Valid() && k < |es| && i < |t| && mid < |t|
    requires BackIff(EntryAt(lc, t, i, n), es[k], mid, SafeName(es[k].name) && Printable(es[k].value, n))
    requires if k + 1 == |es| then t[mid] == '}' && end == mid + 1
             else t[mid] == ',' && SkipSpace(t, mid + 1) == mid + 1
    requires BackIff(BehindTaken(lc, t, es, k, n, end, mid), Object(es), end, GoodEntries(es, k + 1, n))
    ensures BackIff(EntriesAt(lc, t, i, n, es[..k]), Object(es), end, GoodEntries(es, k, n))
  {
    var good := SafeEntry(es, k) && Printable(es[k].value, n);
    if good {
      EntryTakenHere(lc, t, i, n, es, k, end, mid);
    } else {
      EntryRefused(lc, t, i, n, es, k);
    }
    GoodEntriesFrom(es, k, n);
    BackIffStep(EntriesAt(lc, t, i, n, es[..k]), BehindTaken(lc, t, es, k, n, end, mid), Object(es), end, good,
                GoodEntries(es, k + 1, n));
  }

  lemma {:induction false} EntryTakenHere(lc: Libc, t: string, i: nat, n: nat, es: seq<Entry>, k: nat, end: nat,
                                          mid: nat)
    requires lc.Valid() && k < |es| && i < |t| && mid < |t|
    requires EntryAt(lc, t, i, n) == Some((es[k], mid)) && Accepts(es[..k], es[k].name)
    requires if k + 1 == |es| then t[mid] == '}' && end == mid + 1
             else t[mid] == ',' && SkipSpace(t, mid + 1) == mid + 1
    ensures EntriesAt(lc, t, i, n, es[..k]) == BehindTaken(lc, t, es, k, n, end, mid)
  {
    OneMore(es, k);
    EntryTaken(lc, t, i, n, es[..k], es[k], mid);
  }

  lemma {:induction false} EntriesBack(lc: Libc, t: string, i: nat, es: seq<Entry>, k: nat, n: nat, end: nat)
    requires lc.Valid() && k < |es| && forall j :: 0 <= j < |es| ==> NoNul(es[j].name) && WellFormed(lc, es[j].value)
    requires At(t, i, EntriesText(lc, es, k)) && end == i + |EntriesText(lc, es, k)| && OpensAt(t, end)
    ensures BackIff(EntriesAt(lc, t, i, n, es[..k]), Object(es), end, GoodEntries(es, k, n))
    decreases es, |es| - k
  {
    var mid := i + |EntryText(lc, es[k])|;
    EntriesLayout(lc, t, i, es, k, end, mid);
    EntryBack(lc, t, i, es[k], n, mid);
    if k + 1 < |es| {
      EntriesBack(lc, t, mid + 1, es, k + 1, n, end);
    } else {
      GoodEntriesFrom(es, k, n);
    }
    EntriesCombine(lc, t, i, es, k, n, end, mid);
  }

  lemma {:induction false} GoodEntriesFrom(es: seq<Entry>, k: nat, n: nat)
    requires k < |es|
    ensures GoodEntries(es, k, n) <==> GoodEntries(es, k + 1, n) && SafeEntry(es, k) && Printable(es[k].value, n)
    ensures GoodEntries(es, |es|, n)
  {}

  // Once an entry is lost, so is the object.
  lemma {:induction false} EntryRefused(lc: Libc, t: string, i: nat, n: nat, es: seq<Entry>, k: nat)
    requires lc.Valid() && i < |t| && k < |es|
    requires (EntryAt(lc, t, i, n).Some? ==> EntryAt(lc, t, i, n).value.0 != es[k]) || !Accepts(es[..k], es[k].name)
    ensures EntriesAt(lc, t, i, n, es[..k]).Some? ==> EntriesAt(lc, t, i, n, es[..k]).value.0 != Object(es)
  {
    var r := EntriesAt(lc, t, i, n, es[..k]);
    if r.Some? {
      EntriesGrow(lc, t, i, n, es[..k]);
      assert r.value.0.entries[..|es[..k]| + 1][k] == EntryAt(lc, t, i, n).value.0;
    }
  }

  // Behind a printed entry: the closing bracket, or a comma and the next entry.
  lemma {:induction false} BehindEntry(lc: Libc, t: string, i: nat, es: seq<Entry>, k: nat)
    requires 0 < k <= |es| && At(t, i, PrintEntries(lc, es, k))
    requires forall j :: 0 <= j < |es| ==> WellFormed(lc, es[j].value)
    ensures i < |t| && t[i] == if k == |es| then '}' else ','
    ensures k == |es| ==> |PrintEntries(lc, es, k)| == 1
    ensures k < |es| ==> SkipSpace(t, i + 1) == i + 1 && At(t, i + 1, EntriesText(lc, es, k))
    ensures k < |es| ==> |PrintEntries(lc, es, k)| == 1 + |EntriesText(lc, es, k)|
  {
    if k == |es| {
      AtIndex(t, i, PrintEntries(lc, es, k), 0);
    } else {
      EntriesParts(lc, es, k);
      var text, own := EntriesText(lc, es, k), EntryText(lc, es[k]);
      AtSplit(t, i, ",", text);
      AtIndex(t, i, ",", 0);
      FirstOfEntry(lc, es[k]);
      AtIndex(t, i + 1, text, 0);
      assert text[0] == own[0];
    }
  }

  lemma {:induction false} ItemsGrow(lc: Libc, t: string, i: nat, n: nat, vs: seq<JsonValue>)
    requires lc.Valid() && i < |t| && ItemsAt(lc, t, i, n, vs).Some?
    ensures ValueAt(lc, t, i, n).Some?
    ensures var r := ItemsAt(lc, t, i, n, vs).value.0;
            r.Array? && |r.items| > |vs| && r.items[..|vs| + 1] == vs + [ValueAt(lc, t, i, n).value.0]
    decreases |t| - i
  {
    var v := ValueAt(lc, t, i, n);
    var p := SkipSpace(t, v.value.1);
    if t[p] == ',' {
      var q := SkipSpace(t, p + 1);
      ItemsGrow(lc, t, q, n, vs + [v.value.0]);
      var r := ItemsAt(lc, t, q, n, vs + [v.value.0]).value.0;
      assert r.items[..|vs| + 1] == r.items[..|vs| + 2][..|vs| + 1];
    }
  }

  lemma {:induction false} ItemTaken(lc: Libc, t: string, i: nat, n: nat, vs: seq<JsonValue>, v: JsonValue, end: nat)
    requires lc.Valid() && i < |t| && end < |t| && ValueAt(lc, t, i, n) == Some((v, end))
    requires |vs| < JSON_ARRAY_MAX_CAPACITY
    ensures t[end] == ']' ==> ItemsAt(lc, t, i, n, vs) == Some((Array(vs + [v]), end + 1))
    ensures t[end] == ',' && SkipSpace(t, end + 1) == end + 1 ==>
              ItemsAt(lc, t, i, n, vs) == ItemsAt(lc, t, end + 1, n, vs + [v])
  {
    assert Closes(t[end]) ==> SkipSpace(t, end) == end;
  }

  predicate GoodItems(vs: seq<JsonValue>, from: nat, n: nat) {
    |vs| <= JSON_ARRAY_MAX_CAPACITY && forall j :: from <= j < |vs| ==> Printable(vs[j], n)
  }

  lemma {:induction false} ItemsLayout(lc: Libc, t: string, i: nat, vs: seq<JsonValue>, k: nat, end: nat, mid: nat)
    requires k < |vs| && forall j :: 0 <= j < |vs| ==> WellFormed(lc, vs[j])
    requires At(t, i, ItemsText(lc, vs, k)) && end == i + |ItemsText(lc, vs, k)| && OpensAt(t, end)
    requires mid == i + |Print(lc, vs[k])|
    ensures At(t, i, Print(lc, vs[k])) && i < mid < |t| && Closes(t[mid]) && OpensAt(t, mid)
    ensures k + 1 == |vs| ==> t[mid] == ']' && end == mid + 1
    ensures k + 1 < |vs| ==> t[mid] == ',' && SkipSpace(t, mid + 1) == mid + 1
    ensures k + 1 < |vs| ==> At(t, mid + 1, ItemsText(lc, vs, k + 1)) && end == mid + 1 + |ItemsText(lc, vs, k + 1)|
  {
    var rest := PrintItems(lc, vs, k + 1);
    AtSplit(t, i, Print(lc, vs[k]), rest);
    ItemsOpen(lc, vs, k + 1);
    OpensBefore(t, mid, rest);
    BehindItem(lc, t, mid, vs, k + 1);
    FirstChar(lc, vs[k]);
  }

  // What the parser gives behind item k when it has taken it.
  ghost function BehindItemTaken(lc: Libc, t: string, vs: seq<JsonValue>, k: nat, n: nat, end: nat,
                                 mid: nat): Parsed<JsonValue>
    requires lc.Valid() && k < |vs| && mid < |t|
  {
    if k + 1 == |vs| then Some((Array(vs), end)) else ItemsAt(lc, t, mid + 1, n, vs[..k + 1])
  }

  lemma {:induction false} ItemsCombine(lc: Libc, t: string, i: nat, vs: seq<JsonValue>, k: nat, n: nat, end: nat,
                                        mid: nat)
    requires lc.Valid() && k < |vs| && i < |t| && mid < |t|
    requires BackIff(ValueAt(lc, t, i, n), vs[k], mid, Printable(vs[k], n))
    requires if k + 1 == |vs| then t[mid] == ']' && end == mid + 1
             else t[mid] == ',' && SkipSpace(t, mid + 1) == mid + 1
    requires BackIff(BehindItemTaken(lc, t, vs, k, n, end, mid), Array(vs), end, GoodItems(vs, k + 1, n))
          || k >= JSON_ARRAY_MAX_CAPACITY
    ensures BackIff(ItemsAt(lc, t, i, n, vs[..k]), Array(vs), end, GoodItems(vs, k, n))
  {
    GoodItemsFrom(vs, k, n);
    if Printable(vs[k], n) && k < JSON_ARRAY_MAX_CAPACITY {
      OneMore(vs, k);
      ItemTaken(lc, t, i, n, vs[..k], vs[k], mid);
    } else {
      ItemRefused(lc, t, i, n, vs, k);
    }
  }

  lemma {:induction false} ItemBack(lc: Libc, t: string, i: nat, v: JsonValue, n: nat, end: nat)
    requires lc.Valid() && WellFormed(lc, v) && At(t, i, Print(lc, v)) && end == i + |Print(lc, v)|
    requires end < |t| && Closes(t[end]) && OpensAt(t, end)
    ensures i < |t| && BackIff(ValueAt(lc, t, i, n), v, end, Printable(v, n))
    decreases v, 1
  {
    FirstChar(lc, v);
    ValueBack(lc, t, i, v, n, end);
  }

  ghost predicate AllWellFormed(lc: Libc, vs: seq<JsonValue>) { forall j :: 0 <= j < |vs| ==> WellFormed(lc, vs[j]) }

  lemma {:induction false} ItemsBack(lc: Libc, t: string, i: nat, vs: seq<JsonValue>, k: nat, n: nat, end: nat)
    requires lc.Valid() && k < |vs| && AllWellFormed(lc, vs)
    requires At(t, i, ItemsText(lc, vs, k)) && end == i + |ItemsText(lc, vs, k)| && OpensAt(t, end)
    ensures BackIff(ItemsAt(lc, t, i, n, vs[..k]), Array(vs), end, GoodItems(vs, k, n))
    decreases vs, |vs| - k, 1
  {
    var mid := i + |Print(lc, vs[k])|;
    ItemsLayout(lc, t, i, vs, k, end, mid);
    ItemBack(lc, t, i, vs[k], n, mid);
    ItemsBehind(lc, t, i, vs, k, n, end, mid);
  }

  // The items from k on, when item k is done and the rest is where it should be.
  lemma {:induction false} ItemsBehind(lc: Libc, t: string, i: nat, vs: seq<JsonValue>, k: nat, n: nat, end: nat,
                                       mid: nat)
    requires lc.Valid() && k < |vs| && AllWellFormed(lc, vs) && i < |t| && mid < |t| && OpensAt(t, end)
    requires BackIff(ValueAt(lc, t, i, n), vs[k], mid, Printable(vs[k], n))
    requires if k + 1 == |vs| then t[mid] == ']' && end == mid + 1
             else t[mid] == ',' && SkipSpace(t, mid + 1) == mid + 1
    requires k + 1 < |vs| ==> At(t, mid + 1, ItemsText(lc, vs, k + 1)) && end == mid + 1 + |ItemsText(lc, vs, k + 1)|
    ensures BackIff(ItemsAt(lc, t, i, n, vs[..k]), Array(vs), end, GoodItems(vs, k, n))
    decreases vs, |vs| - k, 0
  {
    if k + 1 < |vs| {
      ItemsBack(lc, t, mid + 1, vs, k + 1, n, end);
    } else {
      GoodItemsFrom(vs, k, n);
    }
    ItemsCombine(lc, t, i, vs, k, n, end, mid);
  }

  lemma {:induction false} GoodItemsFrom(vs: seq<JsonValue>, k: nat, n: nat)
    requires k < |vs|
    ensures GoodItems(vs, k, n) <==> GoodItems(vs, k + 1, n) && Printable(vs[k], n)
    ensures GoodItems(vs, |vs|, n) <==> |vs| <= JSON_ARRAY_MAX_CAPACITY
  {}

  lemma {:induction false} ItemRefused(lc: Libc, t: string, i: nat, n: nat, vs: seq<JsonValue>, k: nat)
    requires lc.Valid() && i < |t| && k < |vs|
    requires (ValueAt(lc, t, i, n).Some? ==> ValueAt(lc, t, i, n).value.0 != vs[k]) || k >= JSON_ARRAY_MAX_CAPACITY
    ensures ItemsAt(lc, t, i, n, vs[..k]).Some? ==> ItemsAt(lc, t, i, n, vs[..k]).value.0 != Array(vs)
  {
    var r := ItemsAt(lc, t, i, n, vs[..k]);
    if r.Some? {
      ItemsGrow(lc, t, i, n, vs[..k]);
      assert r.value.0.items[..|vs[..k]| + 1][k] == ValueAt(lc, t, i, n).value.0;
    }
  }

  lemma {:induction false} BehindItem(lc: Libc, t: string, i: nat, vs: seq<JsonValue>, k: nat)
    requires 0 < k <= |vs| && At(t, i, PrintItems(lc, vs, k))
    requires forall j :: 0 <= j < |vs| ==> WellFormed(lc, vs[j])
    ensures i < |t| && t[i] == if k == |vs| then ']' else ','
    ensures k == |vs| ==> |PrintItems(lc, vs, k)| == 1
    ensures k < |vs| ==> SkipSpace(t, i + 1) == i + 1 && At(t, i + 1, ItemsText(lc, vs, k))
    ensures k < |vs| ==> |PrintItems(lc, vs, k)| == 1 + |ItemsText(lc, vs, k)|
  {
    if k == |vs| {
      AtIndex(t, i, PrintItems(lc, vs, k), 0);
    } else {
      ItemsParts(lc, vs, k);
      var text, own := ItemsText(lc, vs, k), Print(lc, vs[k]);
      AtSplit(t, i, ",", text);
      AtIndex(t, i, ",", 0);
      FirstChar(lc, vs[k]);
      AtIndex(t, i + 1, text, 0);
      assert text[0] == own[0];
    }
  }

  // Which parsing function the first character of a value selects.
  lemma {:induction false} Dispatch(lc: Libc, t: string, i: nat, n: nat)
    requires lc.Valid() && i < |t| && !IsSpace(t[i]) && n <= JSON_MAX_NESTING
    ensures t[i] == '{' ==> ValueAt(lc, t, i, n) == ObjectAt(lc, t, i, n + 1)
    ensures t[i] == '[' ==> ValueAt(lc, t, i, n) == ArrayAt(lc, t, i, n + 1)
    ensures t[i] == '-' || '0' <= t[i] <= '9' ==> ValueAt(lc, t, i, n) == NumberAt(lc, t, i)
    ensures At(t, i, "null") ==> ValueAt(lc, t, i, n) == Some((Null, i + 4))
    ensures At(t, i, "true") ==> ValueAt(lc, t, i, n) == Some((Boolean(true), i + 4))
    ensures At(t, i, "false") ==> ValueAt(lc, t, i, n) == Some((Boolean(false), i + 5))
    ensures t[i] == QUOTE ==>
              ValueAt(lc, t, i, n) == (var s := StringAt(t, i);
                                       if s.None? then None else Some((String(s.value.0), s.value.1)))
  {
    if At(t, i, "null") { AtIndex(t, i, "null", 0); }
    if At(t, i, "true") { AtIndex(t, i, "true", 0); }
    if At(t, i, "false") { AtIndex(t, i, "false", 0); assert t[i..i + 4] != "true"; }
  }

  lemma {:induction false} PrintableParts(v: JsonValue, n: nat)
    requires n <= JSON_MAX_NESTING
    ensures v.Object? ==> (Printable(v, n) <==> GoodEntries(v.entries, 0, n + 1))
    ensures v.Array? ==> (Printable(v, n) <==> GoodItems(v.items, 0, n + 1))
    ensures v.String? ==> (Printable(v, n) <==> SafeString(v.text))
    ensures v.Null? || v.Boolean? || v.Number? ==> Printable(v, n)
  {}

  lemma {:induction false} TooDeep(lc: Libc, t: string, i: nat, v: JsonValue, n: nat)
    requires lc.Valid() && i <= |t| && n > JSON_MAX_NESTING
    ensures ValueAt(lc, t, i, n) == None && !Printable(v, n)
  {}

  lemma {:induction false} LiteralBack(lc: Libc, t: string, i: nat, v: JsonValue, n: nat)
    requires lc.Valid() && n <= JSON_MAX_NESTING && (v.Null? || v.Boolean?)
    requires At(t, i, Print(lc, v)) && i < |t| && !IsSpace(t[i])
    ensures ValueAt(lc, t, i, n) == Some((v, i + |Print(lc, v)|))
  {
    Dispatch(lc, t, i, n);
  }

  lemma {:induction false} NumberValueBack(lc: Libc, t: string, i: nat, v: JsonValue, n: nat, end: nat)
    requires lc.Valid() && n <= JSON_MAX_NESTING && v.Number? && ReadsBack(lc, v.number)
    requires At(t, i, Print(lc, v)) && end == i + |Print(lc, v)| && end < |t| && Closes(t[end])
    ensures ValueAt(lc, t, i, n) == Some((v, end))
  {
    NumberBack(lc, t, i, v.number);
    AtIndex(t, i, Print(lc, v), 0);
    Dispatch(lc, t, i, n);
  }

  lemma {:induction false} StringValueBack(lc: Libc, t: string, i: nat, v: JsonValue, n: nat, end: nat)
    requires lc.Valid() && n <= JSON_MAX_NESTING && v.String? && NoNul(v.text)
    requires At(t, i, Print(lc, v)) && end == i + |Print(lc, v)| && end < |t|
    ensures ValueAt(lc, t, i, n) == if SafeString(v.text) then Some((v, end)) else None
  {
    var e := Escape(v.text);
    assert Print(lc, v) == [QUOTE] + e + [QUOTE] && |[QUOTE] + e + [QUOTE]| == |e| + 2;
    assert v == String(v.text) && end == i + |e| + 2;
    StringTextBack(lc, t, i, v.text, e, n);
  }

  lemma {:induction false} StringTextBack(lc: Libc, t: string, i: nat, s: string, e: string, n: nat)
    requires lc.Valid() && n <= JSON_MAX_NESTING && NoNul(s) && e == Escape(s)
    requires At(t, i, [QUOTE] + e + [QUOTE]) && i + |e| + 2 < |t|
    ensures ValueAt(lc, t, i, n) == if SafeString(s) then Some((String(s), i + |e| + 2)) else None
  {
    QuotedParts(t, i, e);
    StringBack(t, i, s, e);
    DispatchString(lc, t, i, n);
  }

  lemma {:induction false} DispatchString(lc: Libc, t: string, i: nat, n: nat)
    requires lc.Valid() && i < |t| && t[i] == QUOTE && n <= JSON_MAX_NESTING
    ensures ValueAt(lc, t, i, n) == (var s := StringAt(t, i);
                                     if s.None? then None else Some((String(s.value.0), s.value.1)))
  {}

  lemma {:induction false} DispatchContainer(lc: Libc, t: string, i: nat, n: nat)
    requires lc.Valid() && i < |t| && n <= JSON_MAX_NESTING
    ensures t[i] == '{' ==> ValueAt(lc, t, i, n) == ObjectAt(lc, t, i, n + 1)
    ensures t[i] == '[' ==> ValueAt(lc, t, i, n) == ArrayAt(lc, t, i, n + 1)
  {
    if !IsSpace(t[i]) { Dispatch(lc, t, i, n); }
  }

  // ---- an entry without a name is never read back ----
  // The printer leaves the key out, so the parser takes the front of the value for a key. For that
  // key to be empty the value must start with an opening bracket and a string; what follows must
  // then begin with a colon and again contain the whole value, which there is no room for.

  lemma {:induction false} SkipStops(t: string, j: nat, e: nat)
    requires j <= e < |t| && !IsSpace(t[e])
    ensures SkipSpace(t, j) <= e
    decreases e - j
  {
    if j < e && IsSpace(t[j]) { SkipStops(t, j + 1, e); }
  }

  lemma {:induction false} SkipBehindSpace(t: string, j: nat)
    requires j <= |t|
    ensures SkipSpace(t, j) > j ==> IsSpace(t[j]) && IsSpace(t[SkipSpace(t, j) - 1])
    decreases |t| - j
  {
    if j < |t| && IsSpace(t[j]) { SkipBehindSpace(t, j + 1); }
  }

  lemma {:induction false} EmptyString(t: string, i: nat)
    requires i < |t| && StringAt(t, i).Some? && StringAt(t, i).value.0 == []
    ensures i + 1 < |t|
    ensures if t[i + 1] == QUOTE then StringAt(t, i).value.1 == i + 2
            else i + 2 < |t| && t[i + 1] == SLASH && t[i + 2] == 'u'
  {
    var e := ScanQuote(t, i + 1);
    ScanEndsInQuote(t, i + 1);
    var z := t[i + 1..e - 1];
    if z != [] {
      assert Token(z).Some? && Token(z).value.1[0] == NUL;
      assert z[0] == t[i + 1];
      if z[0] != SLASH || !IsUnicodeEscape(z) {
        assert false;
      }
      assert z[1] == t[i + 2];
    }
  }

  lemma {:induction false} FirstEscape(s: string)
    requires s != []
    ensures Escape(s)[0] != QUOTE
    ensures Escape(s)[0] != SLASH ==> s[0] == Escape(s)[0]
    ensures Escape(s)[0] == SLASH ==> |Escape(s)| >= 2 && Escape(s)[1] != 'u'
  {
    assert Escape(s)[0] == EscapeChar(s[0])[0];
    if |EscapeChar(s[0])| == 2 {
      assert Escape(s)[1] == EscapeChar(s[0])[1];
    }
  }

  // A quote in an escaped string stands behind a backslash.
  lemma {:induction false} QuoteEscaped(s: string, k: nat)
    requires k < |Escape(s)| && Escape(s)[k] == QUOTE
    ensures k > 0 && Escape(s)[k - 1] == SLASH
  {
    Unescaped(s);
    var c := EscapeChar(s[0]);
    if k >= |c| {
      assert Escape(s)[k] == Escape(s[1..])[k - |c|];
      QuoteEscaped(s[1..], k - |c|);
      assert Escape(s)[k - 1] == Escape(s[1..])[k - |c| - 1];
    } else {
      FirstEscape(s);
      assert k == 1 && |c| == 2 && Escape(s)[0] == c[0];
    }
  }

  // A backslash and a 'u' in an escaped string: the backslash is the second of an escaped one.
  lemma {:induction false} SlashBeforeU(s: string, k: nat)
    requires k + 1 < |Escape(s)| && Escape(s)[k] == SLASH && Escape(s)[k + 1] == 'u'
    ensures Aligned(s, k + 2)
  {
    Unescaped(s);
    var c, rest := EscapeChar(s[0]), Escape(s[1..]);
    if k >= |c| {
      assert Escape(s)[k] == rest[k - |c|] && Escape(s)[k + 1] == rest[k + 1 - |c|];
      SlashBeforeU(s[1..], k - |c|);
    } else if k == 0 {
      FirstEscape(s);
      assert false;
    } else {
      assert Escape(s)[2] == rest[0];
      FirstEscape(s[1..]);
      assert EscapeChar(s[1..][0]) == ['u'];
      assert Aligned(s[1..][1..], 0);
      assert Aligned(s[1..], 1);
    }
  }

  // The body of a printed string: its escape lies from a to the closing quote at e.
  predicate Body(t: string, a: nat, s: string, e: nat) {
    a <= e && e + 1 < |t| && At(t, a, Escape(s)) && e == a + |Escape(s)| && t[e] == QUOTE && Closes(t[e + 1])
  }

  lemma {:induction false} StringValueAt(lc: Libc, t: string, j: nat, n: nat)
    requires lc.Valid() && j <= |t| && ValueAt(lc, t, j, n).Some? && ValueAt(lc, t, j, n).value.0.String?
    ensures var p := SkipSpace(t, j);
            && p < |t| && t[p] == QUOTE && StringAt(t, p).Some?
            && StringAt(t, p).value.0 == ValueAt(lc, t, j, n).value.0.text
  {
    var p := SkipSpace(t, j);
    if p < |t| { ItemsGiveArray(lc, t, p, n + 1); }
  }

  // A string read from the closing quote on starts with the character behind that quote.
  lemma {:induction false} ReadFromClosing(t: string, e: nat)
    requires e + 1 < |t| && Closes(t[e + 1]) && StringAt(t, e).Some?
    ensures StringAt(t, e).value.0 != [] && StringAt(t, e).value.0[0] == t[e + 1]
  {
    var f := ScanQuote(t, e + 1);
    ScanEndsInQuote(t, e + 1);
    var z := t[e + 1..f - 1];
    assert ScanQuote(t, e + 1) == ScanQuote(t, e + 2);
    ScanEndsInQuote(t, e + 2);
    assert z != [] && z[0] == t[e + 1];
    assert Token(z) == Some((1, [z[0]]));
  }

  // A quote that is reached over blanks from inside the body is the closing one.
  lemma {:induction false} QuoteIsClosing(t: string, a: nat, s: string, e: nat, j: nat)
    requires Body(t, a, s, e) && a < j <= e && t[j - 1] != SLASH
    requires SkipSpace(t, j) < |t| && t[SkipSpace(t, j)] == QUOTE
    ensures SkipSpace(t, j) == e
  {
    var p := SkipSpace(t, j);
    SkipStops(t, j, e);
    SkipBehindSpace(t, j);
    if p < e {
      AtIndex(t, a, Escape(s), p - a);
      AtIndex(t, a, Escape(s), p - a - 1);
      QuoteEscaped(s, p - a);
    }
  }

  // A body that starts with a blank or a colon is one of a string that does.
  lemma {:induction false} BodyStart(t: string, a: nat, s: string, e: nat)
    requires Body(t, a, s, e) && (IsSpace(t[a]) || t[a] == ':')
    ensures s != [] && s[0] == t[a]
  {
    if s == [] {
      assert false;
    }
    AtIndex(t, a, Escape(s), 0);
    FirstEscape(s);
  }

  // Inside its own body a string that starts with a blank or a colon cannot be read.
  lemma {:induction false} NotInOwnBody(lc: Libc, t: string, a: nat, s: string, e: nat, j: nat, n: nat)
    requires lc.Valid() && Body(t, a, s, e) && a < j <= e && t[j - 1] != SLASH
    requires IsSpace(t[a]) || t[a] == ':'
    ensures ValueAt(lc, t, j, n).Some? ==> ValueAt(lc, t, j, n).value.0 != String(s)
  {
    BodyStart(t, a, s, e);
    if ValueAt(lc, t, j, n).Some? && ValueAt(lc, t, j, n).value.0.String? {
      StringValueAt(lc, t, j, n);
      QuoteIsClosing(t, a, s, e, j);
      ReadFromClosing(t, e);
    }
  }

  // Where the first item of an array was read: the bracket at b, the item at p.
  lemma {:induction false} ArrayValueAt(lc: Libc, t: string, q: nat, n: nat, vs: seq<JsonValue>)
      returns (b: nat, p: nat)
    requires lc.Valid() && q <= |t| && vs != []
    requires ValueAt(lc, t, q, n).Some? && ValueAt(lc, t, q, n).value.0 == Array(vs)
    ensures b == SkipSpace(t, q) < |t| && t[b] == '[' && p == SkipSpace(t, b + 1) < |t|
    ensures ValueAt(lc, t, p, n + 1).Some? && ValueAt(lc, t, p, n + 1).value.0 == vs[0]
  {
    b := SkipSpace(t, q);
    DispatchAny(lc, t, q, n);
    p := SkipSpace(t, b + 1);
    ItemsGrow(lc, t, p, n + 1, []);
    assert vs[..1] == [ValueAt(lc, t, p, n + 1).value.0];
  }

  // Where the first entry of an object was read: the bracket at b, the key at p, then the value.
  lemma {:induction false} ObjectValueAt(lc: Libc, t: string, q: nat, n: nat, es: seq<Entry>) returns (b: nat, p: nat)
    requires lc.Valid() && q <= |t| && es != []
    requires ValueAt(lc, t, q, n).Some? && ValueAt(lc, t, q, n).value.0 == Object(es)
    ensures b == SkipSpace(t, q) < |t| && t[b] == '{' && p == SkipSpace(t, b + 1) < |t|
    ensures EntryAt(lc, t, p, n + 1).Some? && EntryAt(lc, t, p, n + 1).value.0 == es[0]
  {
    b := SkipSpace(t, q);
    DispatchAny(lc, t, q, n);
    p := SkipSpace(t, b + 1);
    EntriesGrow(lc, t, p, n + 1, []);
    assert es[..1] == [EntryAt(lc, t, p, n + 1).value.0];
  }

  // Only an opening bracket gives a container.
  lemma {:induction false} DispatchAny(lc: Libc, t: string, q: nat, n: nat)
    requires lc.Valid() && q <= |t| && ValueAt(lc, t, q, n).Some? && Container(ValueAt(lc, t, q, n).value.0)
    ensures var p := SkipSpace(t, q);
            && p < |t|
            && (ValueAt(lc, t, q, n).value.0.Object? ==>
                  t[p] == '{' && ValueAt(lc, t, q, n) == ObjectAt(lc, t, p, n + 1))
            && (ValueAt(lc, t, q, n).value.0.Array? ==>
                  t[p] == '[' && ValueAt(lc, t, q, n) == ArrayAt(lc, t, p, n + 1))
  {
    var p := SkipSpace(t, q);
    ItemsGiveArray(lc, t, p, n + 1);
  }

  lemma {:induction false} ItemsGiveArray(lc: Libc, t: string, p: nat, n: nat)
    requires lc.Valid() && p < |t|
    ensures ArrayAt(lc, t, p, n).Some? ==> ArrayAt(lc, t, p, n).value.0.Array?
    ensures ObjectAt(lc, t, p, n).Some? ==> ObjectAt(lc, t, p, n).value.0.Object?
  {
    var p2 := SkipSpace(t, p + 1);
    if p2 < |t| {
      if ItemsAt(lc, t, p2, n, []).Some? { ItemsGrow(lc, t, p2, n, []); }
      if EntriesAt(lc, t, p2, n, []).Some? { EntriesGrow(lc, t, p2, n, []); }
    }
  }

  lemma {:induction false} EmptyKeyColon(t: string, i: nat)
    requires i + 1 < |t| && t[i + 1] == QUOTE && KeyAt(t, i).Some? && KeyAt(t, i).value.0 == []
    ensures i + 2 < |t| && SkipSpace(t, i + 2) < |t| && t[SkipSpace(t, i + 2)] == ':'
    ensures KeyAt(t, i).value.1 == SkipSpace(t, i + 2) + 1
  {
    EmptyString(t, i);
  }

  lemma {:induction false} ColonInside(t: string, a: nat, s: string, e: nat)
    requires Body(t, a, s, e) && SkipSpace(t, a) < |t| && t[SkipSpace(t, a)] == ':'
    ensures a <= SkipSpace(t, a) < e && (IsSpace(t[a]) || t[a] == ':')
  {
    SkipStops(t, a, e);
    SkipBehindSpace(t, a);
  }

  // The key is empty and its colon stands inside the body of the string that follows.
  lemma {:induction false} KeyEndsInBody(t: string, i: nat, s: string, e: nat)
    requires i + 1 < |t| && t[i + 1] == QUOTE && Body(t, i + 2, s, e)
    requires KeyAt(t, i).Some? && KeyAt(t, i).value.0 == []
    ensures i + 2 < KeyAt(t, i).value.1 <= e && (IsSpace(t[i + 2]) || t[i + 2] == ':')
  {
    EmptyKeyColon(t, i);
    ColonInside(t, i + 2, s, e);
  }

  // A bracket reached over blanks inside a body, and what stands behind it.
  lemma {:induction false} BracketInside(t: string, a: nat, s: string, e: nat, q: nat, b: nat)
    requires Body(t, a, s, e) && a < q <= e && b == SkipSpace(t, q) < |t| && (t[b] == '[' || t[b] == '{')
    ensures a < SkipSpace(t, b + 1) <= e && t[SkipSpace(t, b + 1) - 1] != SLASH
  {
    SkipStops(t, q, e);
    SkipStops(t, b + 1, e);
    SkipBehindSpace(t, b + 1);
  }

  lemma {:induction false} NotBehindBracket(lc: Libc, t: string, a: nat, s: string, e: nat, q: nat, b: nat, p: nat,
                                            n: nat)
    requires lc.Valid() && Body(t, a, s, e) && (IsSpace(t[a]) || t[a] == ':')
    requires a < q <= e && b == SkipSpace(t, q) < |t| && t[b] == '[' && p == SkipSpace(t, b + 1)
    ensures ValueAt(lc, t, p, n).Some? ==> ValueAt(lc, t, p, n).value.0 != String(s)
  {
    BracketInside(t, a, s, e, q, b);
    NotInOwnBody(lc, t, a, s, e, p, n);
  }

  // An array cannot be read from inside its own first string.
  lemma {:induction false} NotInOwnItem(lc: Libc, t: string, a: nat, s: string, e: nat, q: nat, vs: seq<JsonValue>,
                                        n: nat)
    requires lc.Valid() && vs != [] && vs[0] == String(s) && Body(t, a, s, e) && a < q <= e
    requires IsSpace(t[a]) || t[a] == ':'
    ensures ValueAt(lc, t, q, n).Some? ==> ValueAt(lc, t, q, n).value.0 != Array(vs)
  {
    var r := ValueAt(lc, t, q, n);
    if r.Some? && r.value.0 == Array(vs) {
      var b, p := ArrayValueAt(lc, t, q, n, vs);
      NotBehindBracket(lc, t, a, s, e, q, b, p, n + 1);
    }
  }

  // Behind the closing quote of a body no colon follows.
  lemma {:induction false} NoKeyAtClosing(t: string, a: nat, s: string, e: nat, i: nat)
    requires Body(t, a, s, e) && i < |t| && StringAt(t, i).Some? && StringAt(t, i).value.1 == e + 1
    ensures KeyAt(t, i) == None
  {}

  // An empty key that is read inside a body: where it ends.
  lemma {:induction false} EmptyKeyInBody(t: string, a: nat, s: string, e: nat, p: nat)
    requires Body(t, a, s, e) && a < p <= e && KeyAt(t, p).Some? && KeyAt(t, p).value.0 == []
    ensures p + 2 <= e && StringAt(t, p).Some? && StringAt(t, p).value.1 == p + 2
  {
    EmptyString(t, p);
    if t[p + 1] == QUOTE {
      if p + 1 == e { NoKeyAtClosing(t, a, s, e, p); }
    } else {
      NoEscapeAtClosing(t, a, s, e, p);
      ScanBehindEscape(t, a, s, e, p);
      NoKeyAtClosing(t, a, s, e, p);
    }
  }

  lemma {:induction false} NoEscapeAtClosing(t: string, a: nat, s: string, e: nat, p: nat)
    requires Body(t, a, s, e) && a < p <= e && p + 2 < |t| && t[p + 1] == SLASH && t[p + 2] == 'u'
    ensures p + 2 < e
  {
    assert t[e] == QUOTE && Closes(t[e + 1]);
  }

  lemma {:induction false} ScanBehindEscape(t: string, a: nat, s: string, e: nat, p: nat)
    requires Body(t, a, s, e) && a < p && p + 2 < e && t[p + 1] == SLASH && t[p + 2] == 'u'
    ensures ScanQuote(t, p + 1) == e + 1
  {
    AtIndex(t, a, Escape(s), p + 1 - a);
    AtIndex(t, a, Escape(s), p + 2 - a);
    SlashBeforeU(s, p + 1 - a);
    ScanEscaped(t, a, s, p + 3 - a);
    assert ScanQuote(t, p + 1) == ScanQuote(t, p + 3);
  }

  lemma {:induction false} EntryByParts(lc: Libc, t: string, p: nat, n: nat)
    requires lc.Valid() && p < |t| && EntryAt(lc, t, p, n).Some?
    ensures KeyAt(t, p).Some? && KeyAt(t, p).value.0 == EntryAt(lc, t, p, n).value.0.name
    ensures var r := ValueAt(lc, t, KeyAt(t, p).value.1, n); r.Some? && r.value.0 == EntryAt(lc, t, p, n).value.0.value
  {}

  lemma {:induction false} FirstEntryRead(lc: Libc, t: string, q: nat, es: seq<Entry>, n: nat) returns (b: nat, p: nat)
    requires lc.Valid() && q <= |t| && es != []
    requires ValueAt(lc, t, q, n).Some? && ValueAt(lc, t, q, n).value.0 == Object(es)
    ensures b == SkipSpace(t, q) < |t| && t[b] == '{' && p == SkipSpace(t, b + 1) < |t|
    ensures KeyAt(t, p).Some? && KeyAt(t, p).value.0 == es[0].name
    ensures var r := ValueAt(lc, t, KeyAt(t, p).value.1, n + 1); r.Some? && r.value.0 == es[0].value
  {
    b, p := ObjectValueAt(lc, t, q, n, es);
    EntryByParts(lc, t, p, n + 1);
  }

  lemma {:induction false} KeyInBody(t: string, a: nat, s: string, e: nat, p: nat)
    requires Body(t, a, s, e) && a < p <= e && KeyAt(t, p).Some? && KeyAt(t, p).value.0 == []
    ensures a < KeyAt(t, p).value.1 <= e && t[KeyAt(t, p).value.1 - 1] != SLASH
  {
    EmptyKeyInBody(t, a, s, e, p);
    SkipStops(t, p + 2, e);
  }

  lemma {:induction false} NotBehindEmptyKey(lc: Libc, t: string, a: nat, s: string, e: nat, p: nat, n: nat)
    requires lc.Valid() && Body(t, a, s, e) && a < p <= e && KeyAt(t, p).Some? && KeyAt(t, p).value.0 == []
    requires IsSpace(t[a]) || t[a] == ':'
    ensures var r := ValueAt(lc, t, KeyAt(t, p).value.1, n); r.Some? ==> r.value.0 != String(s)
  {
    KeyInBody(t, a, s, e, p);
    NotInOwnBody(lc, t, a, s, e, KeyAt(t, p).value.1, n);
  }

  // Nor can an object be read from inside the first string of its nameless first entry.
  lemma {:induction false} NotInOwnEntry(lc: Libc, t: string, a: nat, s: string, e: nat, q: nat, es: seq<Entry>, n: nat)
    requires lc.Valid() && es != [] && es[0] == Entry([], String(s)) && Body(t, a, s, e) && a < q <= e
    requires IsSpace(t[a]) || t[a] == ':'
    ensures ValueAt(lc, t, q, n).Some? ==> ValueAt(lc, t, q, n).value.0 != Object(es)
  {
    var r := ValueAt(lc, t, q, n);
    if r.Some? && r.value.0 == Object(es) {
      var b, p := FirstEntryRead(lc, t, q, es, n);
      BracketInside(t, a, s, e, q, b);
      NotBehindEmptyKey(lc, t, a, s, e, p, n + 1);
    }
  }

  lemma {:induction false} SuffixAt(t: string, i: nat, q: nat, p: nat)
    requires i <= p <= q <= |t|
    ensures t[p..q] == t[i..q][q - i - (q - p)..]
  {}

  // {"name": ... : a name that is read from a later position inside itself is too short or has too few backslashes.
  lemma {:induction false} NotInOwnName(t: string, i: nat, name: string, p: nat)
    requires name != [] && At(t, i, PrintKey(name)) && i + 2 < p < i + |name| + 1 && OpensAt(t, i + |name| + 2)
    ensures StringAt(t, p).Some? ==> StringAt(t, p).value.0 != name
  {
    KeyParts(t, i, name);
    var q, e := i + |name| + 1, ScanQuote(t, p + 1);
    if q + 1 < e < |t| {
      SuffixAt(t, i + 1, q, p + 1);
      PassedClosingQuote(t, p + 1, q, name);
    } else if e < |t| {
      DecodedLength(t, p, t[p + 1..e - 1]);
    }
  }

  // A name that is read from its own closing quote on is repeated right behind that quote.
  lemma {:induction false} NameAtClosing(t: string, i: nat, name: string)
    requires name != [] && At(t, i, PrintKey(name)) && OpensAt(t, i + |name| + 2)
    requires var k := i + 1 + |name|; k < |t| && StringAt(t, k).Some? && StringAt(t, k).value.0 == name
    ensures var k := i + 1 + |name|;
            && StringAt(t, k).value.1 == k + |name| + 2 <= |t|
            && t[k + 1..k + 1 + |name|] == name && t[k + 1 + |name|] == QUOTE
  {
    KeyParts(t, i, name);
    var k := i + 1 + |name|;
    ScanEndsInQuote(t, k + 1);
    NothingBehind(t, k + 1, k + 1);
    PlainStringAt(t, k);
  }

  lemma {:induction false} PlainStringAt(t: string, k: nat)
    requires k < |t| && StringAt(t, k).Some?
    requires forall j :: k + 1 <= j < ScanQuote(t, k + 1) - 1 ==> t[j] != QUOTE && t[j] != SLASH
    ensures var e := ScanQuote(t, k + 1);
            k + 2 <= e < |t| && t[e - 1] == QUOTE && StringAt(t, k).value == (t[k + 1..e - 1], e)
  {
    var e := ScanQuote(t, k + 1);
    ScanEndsInQuote(t, k + 1);
    var z := t[k + 1..e - 1];
    StringAtParts(t, k, z, e, Decode(z));
    PlainDecoded(z);
  }

  // Text that decodes without an escape is what it was.
  lemma {:induction false} PlainDecoded(z: string)
    requires Decode(z).Some? && forall j :: 0 <= j < |z| ==> z[j] != SLASH
    ensures Decode(z).value == z && NoNul(z)
  {
    DecodePlain(z);
  }

  lemma {:induction false} ObjectSecondChar(lc: Libc, v: JsonValue)
    requires WellFormed(lc, v) && v.Object?
    ensures |Print(lc, v)| >= 2 && !IsSpace(Print(lc, v)[1]) && Print(lc, v)[1] != SLASH
    ensures Print(lc, v)[1] == QUOTE ==> v.entries != [] && (v.entries[0].name != [] || v.entries[0].value.String?)
  {
    var es := v.entries;
    if es == [] {
      assert Print(lc, v) == "{" + "}";
    } else {
      EntriesParts(lc, es, 0);
      FirstOfEntry(lc, es[0]);
      FirstChar(lc, es[0].value);
      assert PrintEntries(lc, es, 0)[0] == EntriesText(lc, es, 0)[0] == EntryText(lc, es[0])[0];
      assert Print(lc, v) == "{" + PrintEntries(lc, es, 0);
    }
  }

  lemma {:induction false} FirstTwo(lc: Libc, t: string, i: nat, v: JsonValue)
    requires WellFormed(lc, v) && At(t, i, Print(lc, v))
    ensures i < |t| && !IsSpace(t[i]) && (t[i] == '{' ==> i + 1 < |t| && !IsSpace(t[i + 1]))
  {
    FirstChar(lc, v);
    AtIndex(t, i, Print(lc, v), 0);
    if v.Object? {
      ObjectSecondChar(lc, v);
      AtIndex(t, i, Print(lc, v), 1);
    }
  }

  // The text at i, the same as the text at k + 1, is a name: where its second place starts with an object.
  predicate Repeats(t: string, i: nat, name: string) {
    var k := i + 1 + |name|;
    && k + |name| + 1 < |t| && k + 2 < |t| && t[i + 1..k] == name && t[k + 1..k + 1 + |name|] == name
    && t[k] == QUOTE && t[k + 1] == ':' && t[k + 2] == ' ' && t[k + 1 + |name|] == QUOTE
  }

  // Such a name is ": {", and an object stands behind it that again starts with a string.
  lemma {:induction false} RepeatedName(t: string, i: nat, name: string, c: nat, b: nat)
    requires name != [] && Repeats(t, i, name)
    requires var k := i + 1 + |name|;
             k + 3 < |t| && !IsSpace(t[k + 3]) && (t[k + 3] == '{' ==> k + 4 < |t| && !IsSpace(t[k + 4]))
    requires c == SkipSpace(t, i + 1) < |t| && t[c] == ':' && b == SkipSpace(t, c + 1) < |t| && t[b] == '{'
    requires SkipSpace(t, b + 1) == i + 1 + |name|
    ensures |name| == 3
  {
    var k := i + 1 + |name|;
    assert forall m :: 0 <= m < |name| ==> name[m] == t[i + 1..k][m] == t[i + 1 + m];
    assert forall m :: 0 <= m < |name| ==> name[m] == t[k + 1..k + 1 + |name|][m] == t[k + 1 + m];
    assert name[0] == t[i + 1] == t[k + 1];
    assert SkipSpace(t, i + 1) == i + 1;
    SkipStops(t, i + 2, k);
    assert name[1] == t[i + 2] == t[k + 2];
    assert SkipSpace(t, i + 2) == SkipSpace(t, i + 3) > i + 2;
    assert name[2] == t[i + 3] == t[k + 3];
    assert SkipSpace(t, i + 3) == i + 3;
  }

  lemma {:induction false} StringSecond(t: string, i: nat, s: string)
    requires At(t, i, [QUOTE] + Escape(s) + [QUOTE])
    ensures i + 1 < |t| && (t[i + 1] == QUOTE <==> s == [])
    ensures i + 2 < |t| && t[i + 1] == SLASH ==> t[i + 2] != 'u'
  {
    QuotedParts(t, i, Escape(s));
    if s != [] {
      FirstEscape(s);
      AtIndex(t, i + 1, Escape(s), 0);
      if |Escape(s)| >= 2 { AtIndex(t, i + 1, Escape(s), 1); }
    }
  }

  lemma {:induction false} ArraySecondChar(lc: Libc, v: JsonValue)
    requires WellFormed(lc, v) && v.Array?
    ensures |Print(lc, v)| >= 2 && Print(lc, v)[1] != SLASH
    ensures Print(lc, v)[1] == QUOTE ==> v.items != [] && v.items[0].String?
  {
    var vs := v.items;
    if vs == [] {
      assert Print(lc, v) == "[" + "]";
    } else {
      ItemsParts(lc, vs, 0);
      FirstChar(lc, vs[0]);
      assert PrintItems(lc, vs, 0)[0] == ItemsText(lc, vs, 0)[0] == Print(lc, vs[0])[0];
      assert Print(lc, v) == "[" + PrintItems(lc, vs, 0);
    }
  }

  // What stands second when the key that the parser takes from the front of a value is empty.
  lemma {:induction false} SecondIsQuote(lc: Libc, t: string, i: nat, v: JsonValue, end: nat)
    requires lc.Valid() && WellFormed(lc, v) && At(t, i, Print(lc, v)) && end == i + |Print(lc, v)|
    requires end < |t| && Closes(t[end]) && i < |t| && StringAt(t, i).Some? && StringAt(t, i).value.0 == []
    ensures i + 1 < |t| && t[i + 1] == QUOTE
    ensures v.Array? || v.Object? || v == String([])
    ensures v.Array? ==> v.items != [] && v.items[0].String?
    ensures v.Object? ==> v.entries != [] && (v.entries[0].name != [] || v.entries[0].value.String?)
  {
    EmptyString(t, i);
    FirstChar(lc, v);
    if |Print(lc, v)| > 1 { AtIndex(t, i, Print(lc, v), 1); }
    match v
    case Null =>
    case Boolean(b) =>
    case Number(x) => NumberSecond(x.Floor);
    case String(s) => StringSecond(t, i, s);
    case Object(es) => ObjectSecondChar(lc, v);
    case Array(vs) => ArraySecondChar(lc, v);
  }

  lemma {:induction false} NumberSecond(n: int)
    ensures |Decimal(n)| > 1 ==> '0' <= Decimal(n)[1] <= '9'
  {
    if n < 0 { assert Decimal(n)[1] == Digits(-n)[0]; }
  }

  // The colon and the bracket of an object stand inside the name, when the name is read as key and value.
  lemma {:induction false} SkipsInName(t: string, i: nat, k: nat, c: nat, b: nat)
    requires i < k < |t| && t[k] == QUOTE
    requires c == SkipSpace(t, i + 1) < |t| && t[c] == ':' && b == SkipSpace(t, c + 1) < |t| && t[b] == '{'
    ensures i + 2 < SkipSpace(t, b + 1) <= k
  {
    SkipStops(t, i + 1, k);
    SkipStops(t, c + 1, k);
    SkipStops(t, b + 1, k);
  }

  // From inside, the name is only read at its closing quote, and then it is repeated behind it.
  lemma {:induction false} NameReread(t: string, i: nat, name: string, p: nat)
    requires name != [] && At(t, i, PrintKey(name)) && OpensAt(t, i + |name| + 4)
    requires i + 2 < p <= i + 1 + |name| && StringAt(t, p).Some? && StringAt(t, p).value.0 == name
    ensures p == i + 1 + |name| && p + |name| + 2 <= |t| && StringAt(t, p).value.1 == p + |name| + 2
    ensures t[p + 1..p + 1 + |name|] == name && t[p + 1 + |name|] == QUOTE
  {
    KeyParts(t, i, name);
    assert OpensAt(t, i + |name| + 2);
    if p < i + 1 + |name| {
      NotInOwnName(t, i, name, p);
    } else {
      NameAtClosing(t, i, name);
    }
  }

  // Behind ": {" both readings meet: the key read at the closing quote and the one read at the bracket end alike.
  lemma {:induction false} SameKey(t: string, k: nat)
    requires k + 5 < |t| && t[k + 4] == QUOTE && KeyAt(t, k).Some? && StringAt(t, k).value.1 == k + 5
    ensures KeyAt(t, k + 3) == Some(([], KeyAt(t, k).value.1))
  {
    assert ScanQuote(t, k + 4) == k + 5;
    assert t[k + 4..k + 4] == [];
  }

  // [ and an item: what is read behind the empty key is not the array.
  lemma {:induction false} ItemLost(lc: Libc, t: string, i: nat, vs: seq<JsonValue>, n: nat, mid: nat)
    requires lc.Valid() && vs != [] && vs[0].String? && i + 1 < |t| && t[i + 1] == QUOTE
    requires At(t, i + 1, Print(lc, vs[0])) && mid == i + 1 + |Print(lc, vs[0])| && mid < |t| && Closes(t[mid])
    requires KeyAt(t, i).Some? && KeyAt(t, i).value.0 == []
    ensures var r := ValueAt(lc, t, KeyAt(t, i).value.1, n); r.Some? ==> r.value.0 != Array(vs)
  {
    var s := vs[0].text;
    var q := KeyAt(t, i).value.1;
    KeyInItem(lc, t, i, s, mid, q);
    NotInOwnItem(lc, t, i + 2, s, mid - 1, q, vs, n);
  }

  // The string behind an empty key, and where the key ends in it.
  lemma {:induction false} KeyInItem(lc: Libc, t: string, i: nat, s: string, mid: nat, q: nat)
    requires i + 1 < |t| && t[i + 1] == QUOTE && At(t, i + 1, Print(lc, String(s)))
    requires mid == i + 1 + |Print(lc, String(s))| && mid < |t| && Closes(t[mid])
    requires KeyAt(t, i) == Some(([], q))
    ensures Body(t, i + 2, s, mid - 1) && i + 2 < q <= mid - 1 && (IsSpace(t[i + 2]) || t[i + 2] == ':')
  {
    StringBody(lc, t, i + 1, i + 2, s, mid);
    KeyEndsInBody(t, i, s, mid - 1);
  }

  lemma {:induction false} StringBody(lc: Libc, t: string, i: nat, a: nat, s: string, mid: nat)
    requires At(t, i, Print(lc, String(s))) && mid == i + |Print(lc, String(s))| && mid < |t| && Closes(t[mid])
    requires a == i + 1
    ensures Body(t, a, s, mid - 1)
  {
    QuotedParts(t, i, Escape(s));
  }

  lemma {:induction false} BareEntryLost(lc: Libc, t: string, i: nat, es: seq<Entry>, n: nat, mid: nat)
    requires lc.Valid() && es != [] && es[0].name == [] && es[0].value.String? && i + 1 < |t| && t[i + 1] == QUOTE
    requires At(t, i + 1, EntryText(lc, es[0])) && mid == i + 1 + |EntryText(lc, es[0])| && mid < |t| && Closes(t[mid])
    requires KeyAt(t, i).Some? && KeyAt(t, i).value.0 == []
    ensures var r := ValueAt(lc, t, KeyAt(t, i).value.1, n); r.Some? ==> r.value.0 != Object(es)
  {
    var s := es[0].value.text;
    var q := KeyAt(t, i).value.1;
    assert EntryText(lc, es[0]) == Print(lc, String(s));
    KeyInItem(lc, t, i, s, mid, q);
    NotInOwnEntry(lc, t, i + 2, s, mid - 1, q, es, n);
  }

  // {"name": ... : the object would have to be read from behind its own first quote at j, and then
  // its first value from behind the quote of that value at k.
  lemma {:induction false} NamedEntryLost(lc: Libc, t: string, i: nat, j: nat, es: seq<Entry>, n: nat, k: nat)
    requires lc.Valid() && es != [] && es[0].name != [] && j == i + 1 < |t| && t[j] == QUOTE
    requires At(t, j, PrintKey(es[0].name)) && k == j + |es[0].name| + 4 && OpensAt(t, k)
    requires k < |t| && !IsSpace(t[k]) && (t[k] == '{' ==> k + 1 < |t| && !IsSpace(t[k + 1]))
    requires KeyAt(t, i).Some? && KeyAt(t, i).value.0 == []
    requires KeyAt(t, k).Some? && KeyAt(t, k).value.0 == [] ==>
               var r := ValueAt(lc, t, KeyAt(t, k).value.1, n + 1); r.Some? ==> r.value.0 != es[0].value
    ensures var r := ValueAt(lc, t, KeyAt(t, i).value.1, n); r.Some? ==> r.value.0 != Object(es)
  {
    var q := KeyAt(t, i).value.1;
    var r := ValueAt(lc, t, q, n);
    if r.Some? && r.value.0 == Object(es) {
      var b, p := FirstEntryRead(lc, t, q, es, n);
      KeyMovesBehind(t, i, j, es[0].name, k, q, b, p);
    }
  }

  lemma {:induction false} KeyMovesBehind(t: string, i: nat, j: nat, name: string, k: nat, q: nat, b: nat, p: nat)
    requires name != [] && j == i + 1 < |t| && t[j] == QUOTE
    requires At(t, j, PrintKey(name)) && k == j + |name| + 4 && OpensAt(t, k)
    requires k < |t| && !IsSpace(t[k]) && (t[k] == '{' ==> k + 1 < |t| && !IsSpace(t[k + 1]))
    requires KeyAt(t, i) == Some(([], q)) && b == SkipSpace(t, q) < |t| && t[b] == '{'
    requires p == SkipSpace(t, b + 1) < |t| && KeyAt(t, p).Some? && KeyAt(t, p).value.0 == name
    ensures KeyAt(t, k) == Some(([], KeyAt(t, p).value.1))
  {
    var c := EmptyKeyColonAt(t, i, j, q);
    KeyMoves(t, j, name, c, b, p);
  }

  lemma {:induction false} EmptyKeyColonAt(t: string, i: nat, j: nat, q: nat) returns (c: nat)
    requires j == i + 1 < |t| && t[j] == QUOTE && KeyAt(t, i) == Some(([], q))
    ensures j < |t| && c == SkipSpace(t, j + 1) < |t| && t[c] == ':' && q == c + 1
  {
    EmptyKeyColon(t, i);
    c := SkipSpace(t, j + 1);
  }

  // The colon and the bracket were found inside the name, so it is ": {".
  lemma {:induction false} NameIsThree(t: string, i: nat, name: string, c: nat, b: nat, p: nat)
    requires name != [] && At(t, i, PrintKey(name)) && OpensAt(t, i + |name| + 4)
    requires var k := i + |name| + 4; k < |t| && !IsSpace(t[k]) && (t[k] == '{' ==> k + 1 < |t| && !IsSpace(t[k + 1]))
    requires c == SkipSpace(t, i + 1) < |t| && t[c] == ':' && b == SkipSpace(t, c + 1) < |t| && t[b] == '{'
    requires p == SkipSpace(t, b + 1) < |t| && StringAt(t, p).Some? && StringAt(t, p).value.0 == name
    ensures |name| == 3 && p == i + 4 && p + 5 < |t| && t[p + 4] == QUOTE && StringAt(t, p).value.1 == p + 5
  {
    NameRepeats(t, i, name, c, b, p);
    RepeatedName(t, i, name, c, b);
  }

  // When the object is read from behind its first quote, the key is read twice: at the end of the
  // name, and as an empty one at the front of the value.
  lemma {:induction false} KeyMoves(t: string, i: nat, name: string, c: nat, b: nat, p: nat)
    requires name != [] && At(t, i, PrintKey(name)) && OpensAt(t, i + |name| + 4)
    requires var k := i + |name| + 4; k < |t| && !IsSpace(t[k]) && (t[k] == '{' ==> k + 1 < |t| && !IsSpace(t[k + 1]))
    requires c == SkipSpace(t, i + 1) < |t| && t[c] == ':' && b == SkipSpace(t, c + 1) < |t| && t[b] == '{'
    requires p == SkipSpace(t, b + 1) < |t| && KeyAt(t, p).Some? && KeyAt(t, p).value.0 == name
    ensures KeyAt(t, i + |name| + 4) == Some(([], KeyAt(t, p).value.1))
  {
    KeyIsString(t, p);
    NameIsThree(t, i, name, c, b, p);
    SameKey(t, p);
  }

  lemma {:induction false} NameRepeats(t: string, i: nat, name: string, c: nat, b: nat, p: nat)
    requires name != [] && At(t, i, PrintKey(name)) && OpensAt(t, i + |name| + 4)
    requires c == SkipSpace(t, i + 1) < |t| && t[c] == ':' && b == SkipSpace(t, c + 1) < |t| && t[b] == '{'
    requires p == SkipSpace(t, b + 1) < |t| && StringAt(t, p).Some? && StringAt(t, p).value.0 == name
    ensures p == i + 1 + |name| && StringAt(t, p).value.1 == p + |name| + 2 && Repeats(t, i, name)
  {
    KeyParts(t, i, name);
    SkipsInName(t, i, i + 1 + |name|, c, b);
    NameReread(t, i, name, p);
    RepeatsHere(t, i, name, p);
  }

  lemma {:induction false} RepeatsHere(t: string, i: nat, name: string, p: nat)
    requires name != [] && At(t, i, PrintKey(name)) && p == i + 1 + |name| && p + |name| + 2 <= |t|
    requires t[p + 1..p + 1 + |name|] == name && t[p + 1 + |name|] == QUOTE
    ensures Repeats(t, i, name)
  {
    KeyParts(t, i, name);
  }

  lemma {:induction false} KeyIsString(t: string, p: nat)
    requires p < |t| && KeyAt(t, p).Some?
    ensures StringAt(t, p).Some? && StringAt(t, p).value.0 == KeyAt(t, p).value.0
  {}

  // The layout of an object's first entry, and of an array's first item.
  lemma {:induction false} FirstEntryLayout(lc: Libc, t: string, i: nat, es: seq<Entry>, end: nat) returns (mid: nat)
    requires es != [] && forall j :: 0 <= j < |es| ==> WellFormed(lc, es[j].value)
    requires At(t, i, "{" + PrintEntries(lc, es, 0)) && end == i + 1 + |PrintEntries(lc, es, 0)| && OpensAt(t, end)
    ensures At(t, i + 1, EntryText(lc, es[0])) && mid == i + 1 + |EntryText(lc, es[0])|
    ensures mid < |t| && Closes(t[mid]) && OpensAt(t, mid)
  {
    AtSplit(t, i, "{", PrintEntries(lc, es, 0));
    EntriesParts(lc, es, 0);
    assert PrintEntries(lc, es, 0) == EntriesText(lc, es, 0);
    mid := i + 1 + |EntryText(lc, es[0])|;
    EntriesLayout(lc, t, i + 1, es, 0, end, mid);
  }

  lemma {:induction false} FirstItemLayout(lc: Libc, t: string, i: nat, vs: seq<JsonValue>, end: nat) returns (mid: nat)
    requires vs != [] && forall j :: 0 <= j < |vs| ==> WellFormed(lc, vs[j])
    requires At(t, i, "[" + PrintItems(lc, vs, 0)) && end == i + 1 + |PrintItems(lc, vs, 0)| && OpensAt(t, end)
    ensures At(t, i + 1, Print(lc, vs[0])) && mid == i + 1 + |Print(lc, vs[0])| && mid < |t| && Closes(t[mid])
  {
    AtSplit(t, i, "[", PrintItems(lc, vs, 0));
    ItemsParts(lc, vs, 0);
    assert PrintItems(lc, vs, 0) == ItemsText(lc, vs, 0);
    mid := i + 1 + |Print(lc, vs[0])|;
    ItemsLayout(lc, t, i + 1, vs, 0, end, mid);
  }

  // An entry's key and value, and that no backslash comes before a quote from the value on.
  lemma {:induction false} EntryLayout(lc: Libc, t: string, i: nat, e: Entry, mid: nat)
    requires WellFormed(lc, e.value) && At(t, i, EntryText(lc, e)) && mid == i + |EntryText(lc, e)| && OpensAt(t, mid)
    ensures var k := i + |PrintKey(e.name)|;
            && At(t, i, PrintKey(e.name)) && At(t, k, Print(lc, e.value)) && mid == k + |Print(lc, e.value)|
            && OpensAt(t, k)
  {
    AtSplit(t, i, PrintKey(e.name), Print(lc, e.value));
    PrintOpens(lc, e.value);
    OpensBefore(t, i + |PrintKey(e.name)|, Print(lc, e.value));
  }

  // Where the value of a named first entry starts.
  lemma {:induction false} NamedLayout(lc: Libc, t: string, i: nat, e: Entry, mid: nat) returns (k: nat)
    requires e.name != [] && WellFormed(lc, e.value) && At(t, i, EntryText(lc, e)) && mid == i + |EntryText(lc, e)|
    requires OpensAt(t, mid)
    ensures k == i + |e.name| + 4 && At(t, i, PrintKey(e.name)) && At(t, k, Print(lc, e.value))
    ensures mid == k + |Print(lc, e.value)| && OpensAt(t, k)
    ensures k < |t| && !IsSpace(t[k]) && (t[k] == '{' ==> k + 1 < |t| && !IsSpace(t[k + 1]))
  {
    EntryLayout(lc, t, i, e, mid);
    k := i + |PrintKey(e.name)|;
    FirstTwo(lc, t, k, e.value);
  }

  lemma {:induction false} EmptyNameLost(lc: Libc, t: string, i: nat, v: JsonValue, n: nat, end: nat)
    requires lc.Valid() && WellFormed(lc, v) && At(t, i, Print(lc, v)) && end == i + |Print(lc, v)|
    requires end < |t| && Closes(t[end]) && OpensAt(t, end)
    ensures i < |t|
    ensures KeyAt(t, i).Some? && KeyAt(t, i).value.0 == [] ==>
              var r := ValueAt(lc, t, KeyAt(t, i).value.1, n); r.Some? ==> r.value.0 != v
    decreases v, 1
  {
    FirstChar(lc, v);
    if KeyAt(t, i).Some? && KeyAt(t, i).value.0 == [] {
      KeyIsString(t, i);
      SecondIsQuote(lc, t, i, v, end);
      match v
      case String(s) =>
        NoColonBehind(lc, t, i, end);
      case Array(vs) =>
        var mid := FirstItemLayout(lc, t, i, vs, end);
        ItemLost(lc, t, i, vs, n, mid);
      case Object(es) =>
        var mid := FirstEntryLayout(lc, t, i, es, end);
        FirstEntryLost(lc, t, i, i + 1, es, n, mid);
    }
  }

  lemma {:induction false} FirstEntryLost(lc: Libc, t: string, i: nat, j: nat, es: seq<Entry>, n: nat, mid: nat)
    requires lc.Valid() && es != [] && WellFormed(lc, es[0].value) && j == i + 1 < |t| && t[j] == QUOTE
    requires es[0].name != [] || es[0].value.String?
    requires At(t, j, EntryText(lc, es[0])) && mid == j + |EntryText(lc, es[0])|
    requires mid < |t| && Closes(t[mid]) && OpensAt(t, mid)
    requires KeyAt(t, i).Some? && KeyAt(t, i).value.0 == []
    ensures var r := ValueAt(lc, t, KeyAt(t, i).value.1, n); r.Some? ==> r.value.0 != Object(es)
    decreases es[0].value, 2
  {
    if es[0].name == [] {
      BareEntryLost(lc, t, i, es, n, mid);
    } else {
      var k := NamedLayout(lc, t, j, es[0], mid);
      EmptyNameLost(lc, t, k, es[0].value, n + 1, mid);
      NamedEntryLost(lc, t, i, j, es, n, k);
    }
  }

  lemma {:induction false} NoColonBehind(lc: Libc, t: string, i: nat, end: nat)
    requires At(t, i, Print(lc, String([]))) && end == i + |Print(lc, String([]))| && end < |t| && Closes(t[end])
    ensures i < |t| && KeyAt(t, i) == None
  {
    assert Print(lc, String([])) == [QUOTE, QUOTE];
    AtIndex(t, i, [QUOTE, QUOTE], 0);
    AtIndex(t, i, [QUOTE, QUOTE], 1);
    assert ScanQuote(t, i + 1) == end;
    assert SkipSpace(t, end) == end;
  }

  // ---- the round trip, value by value ----

  // A value that holds no other.
  lemma {:induction false} LeafBack(lc: Libc, t: string, i: nat, v: JsonValue, n: nat, end: nat)
    requires lc.Valid() && WellFormed(lc, v) && n <= JSON_MAX_NESTING && !Container(v)
    requires At(t, i, Print(lc, v)) && end == i + |Print(lc, v)| && end < |t| && Closes(t[end])
    ensures BackIff(ValueAt(lc, t, i, n), v, end, Printable(v, n))
  {
    PrintableParts(v, n);
    if v.String? {
      StringValueBack(lc, t, i, v, n, end);
    } else if v.Number? {
      NumberValueBack(lc, t, i, v, n, end);
    } else {
      FirstChar(lc, v);
      AtIndex(t, i, Print(lc, v), 0);
      LiteralBack(lc, t, i, v, n);
    }
  }

  // A container, from the result of the function for its kind.
  lemma {:induction false} ContainerBack(lc: Libc, t: string, i: nat, v: JsonValue, n: nat, end: nat)
    requires lc.Valid() && n <= JSON_MAX_NESTING && i < |t|
    requires match v
             case Object(es) => t[i] == '{' && BackIff(ObjectAt(lc, t, i, n + 1), v, end, GoodEntries(es, 0, n + 1))
             case Array(vs) => t[i] == '[' && BackIff(ArrayAt(lc, t, i, n + 1), v, end, GoodItems(vs, 0, n + 1))
             case _ => false
    ensures BackIff(ValueAt(lc, t, i, n), v, end, Printable(v, n))
  {
    PrintableParts(v, n);
    DispatchContainer(lc, t, i, n);
  }

  // A printed value is read back exactly, or certainly not, according to Printable.
  lemma {:induction false} ValueBack(lc: Libc, t: string, i: nat, v: JsonValue, n: nat, end: nat)
    requires lc.Valid() && WellFormed(lc, v)
    requires At(t, i, Print(lc, v)) && end == i + |Print(lc, v)| && Followed(t, end, v)
    ensures BackIff(ValueAt(lc, t, i, n), v, end, Printable(v, n))
    decreases v, 0
  {
    if n > JSON_MAX_NESTING {
      TooDeep(lc, t, i, v, n);
    } else {
      match v
      case Object(es) =>
        ObjectBack(lc, t, i, es, n + 1, end);
        ContainerBack(lc, t, i, v, n, end);
      case Array(vs) =>
        ArrayBack(lc, t, i, vs, n + 1, end);
        ContainerBack(lc, t, i, v, n, end);
      case _ =>
        LeafBack(lc, t, i, v, n, end);
    }
  }

  lemma {:induction false} ObjectBack(lc: Libc, t: string, i: nat, es: seq<Entry>, n: nat, end: nat)
    requires lc.Valid() && forall j :: 0 <= j < |es| ==> NoNul(es[j].name) && WellFormed(lc, es[j].value)
    requires At(t, i, "{" + PrintEntries(lc, es, 0)) && end == i + 1 + |PrintEntries(lc, es, 0)| && OpensAt(t, end)
    ensures i < |t| && t[i] == '{' && BackIff(ObjectAt(lc, t, i, n), Object(es), end, GoodEntries(es, 0, n))
    decreases es, |es| + 1
  {
    AtSplit(t, i, "{", PrintEntries(lc, es, 0));
    AtIndex(t, i, "{", 0);
    if es == [] {
      AtIndex(t, i + 1, PrintEntries(lc, es, 0), 0);
    } else {
      EntriesParts(lc, es, 0);
      var text := EntriesText(lc, es, 0);
      assert PrintEntries(lc, es, 0) == text;
      FirstOfEntry(lc, es[0]);
      AtIndex(t, i + 1, text, 0);
      assert text[0] == EntryText(lc, es[0])[0];
      assert ObjectAt(lc, t, i, n) == EntriesAt(lc, t, i + 1, n, []);
      assert es[..0] == [];
      EntriesBack(lc, t, i + 1, es, 0, n, end);
    }
  }

  lemma {:induction false} ArrayBack(lc: Libc, t: string, i: nat, vs: seq<JsonValue>, n: nat, end: nat)
    requires lc.Valid() && forall j :: 0 <= j < |vs| ==> WellFormed(lc, vs[j])
    requires At(t, i, "[" + PrintItems(lc, vs, 0)) && end == i + 1 + |PrintItems(lc, vs, 0)| && OpensAt(t, end)
    ensures i < |t| && t[i] == '[' && BackIff(ArrayAt(lc, t, i, n), Array(vs), end, GoodItems(vs, 0, n))
    decreases vs, |vs| + 1
  {
    AtSplit(t, i, "[", PrintItems(lc, vs, 0));
    AtIndex(t, i, "[", 0);
    if vs == [] {
      AtIndex(t, i + 1, PrintItems(lc, vs, 0), 0);
    } else {
      ItemsParts(lc, vs, 0);
      var text := ItemsText(lc, vs, 0);
      assert PrintItems(lc, vs, 0) == text;
      FirstChar(lc, vs[0]);
      AtIndex(t, i + 1, text, 0);
      assert text[0] == Print(lc, vs[0])[0];
      assert ArrayAt(lc, t, i, n) == ItemsAt(lc, t, i + 1, n, []);
      assert vs[..0] == [];
      ItemsBack(lc, t, i + 1, vs, 0, n, end);
    }
  }

  /**
   The round trip: for every tree of integer numbers and C strings, parsing the printed text gives
   the tree back if and only if the tree is printable and its root is an object or an array.
   */
  lemma {:induction false} RoundTrip(lc: Libc, v: JsonValue)
    requires lc.Valid() && WellFormed(lc, v)
    ensures ParseString(lc, Print(lc, v)) == Some(v) <==> Container(v) && Printable(v, 0)
  {
    var t := Print(lc, v);
    FirstChar(lc, v);
    assert At(t, 0, t);
    if Container(v) {
      ValueBack(lc, t, 0, v, 0, |t|);
    }
  }
}
