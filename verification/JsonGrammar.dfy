/**
 The texts that the JSON parser accepts, as a relation that follows the tree: what stands where for every
 value, with blanks between the tokens. The parser finds a tree exactly when the relation holds.
 */
module JsonGrammar {
  import opened JsonText
  import opened Options
  import opened JsonPrinter
  import opened JsonParser

  // ---- blanks and strings ----

  predicate Blanks(t: string, i: nat, p: nat) { i <= p <= |t| && forall k :: i <= k < p ==> IsSpace(t[k]) }

  /** The blanks are the six of isspace in the C locale. */
  lemma SixBlanks(c: char)
    ensures IsSpace(c) <==> c in [' ', '\t', '\n', '\r', VT, FF]
  {}

  // No blank and not the end.
  predicate Solid(t: string, p: nat) { p < |t| && !IsSpace(t[p]) }

  lemma {:induction false} SkipBlanks(t: string, i: nat)
    requires i <= |t|
    ensures Blanks(t, i, SkipSpace(t, i)) && (SkipSpace(t, i) < |t| ==> Solid(t, SkipSpace(t, i)))
    decreases |t| - i
  {
    if i < |t| && IsSpace(t[i]) { SkipBlanks(t, i + 1); }
  }

  lemma {:induction false} BlanksSkip(t: string, i: nat, p: nat)
    requires Blanks(t, i, p) && Solid(t, p)
    ensures SkipSpace(t, i) == p
    decreases p - i
  {
    if i < p { BlanksSkip(t, i + 1, p); }
  }

  lemma MoreBlanks(t: string, i: nat, p: nat, q: nat)
    requires Blanks(t, i, p) && Blanks(t, p, q)
    ensures Blanks(t, i, q)
  {}

  lemma SkipAgain(t: string, i: nat)
    requires i <= |t|
    ensures SkipSpace(t, SkipSpace(t, i)) == SkipSpace(t, i)
  {}

  // Characters other than a quote and a backslash, and pairs of a backslash and any character.
  predicate Units(z: string) {
    || z == []
    || (z[0] != QUOTE && z[0] != SLASH && Units(z[1..]))
    || (z[0] == SLASH && |z| >= 2 && Units(z[2..]))
  }

  lemma {:induction false} ScanUnits(t: string, a: nat)
    requires a <= |t| && ScanQuote(t, a) < |t|
    ensures var e := ScanQuote(t, a); a < e && t[e - 1] == QUOTE && Units(t[a..e - 1])
    decreases |t| - a
  {
    var e := ScanQuote(t, a);
    if t[a] == SLASH {
      ScanUnits(t, a + 2);
      assert t[a..e - 1][2..] == t[a + 2..e - 1];
    } else if t[a] != QUOTE {
      ScanUnits(t, a + 1);
      assert t[a..e - 1][1..] == t[a + 1..e - 1];
    }
  }

  lemma {:induction false} UnitsScan(t: string, a: nat, e: nat)
    requires a < e < |t| && t[e - 1] == QUOTE && Units(t[a..e - 1])
    ensures ScanQuote(t, a) == e
    decreases e - a
  {
    var z := t[a..e - 1];
    if z != [] {
      if z[0] == SLASH {
        assert z[2..] == t[a + 2..e - 1];
        UnitsScan(t, a + 2, e);
      } else {
        assert z[1..] == t[a + 1..e - 1];
        UnitsScan(t, a + 1, e);
      }
    }
  }

  // The string between i and j: units, up to a quote that is not the last character of the text.
  predicate Quoted(t: string, i: nat, j: nat) {
    i + 1 < j < |t| && t[j - 1] == QUOTE && Units(t[i + 1..j - 1])
  }

  /** A string: any first character, units up to the first quote that is none, and decodable. */
  lemma StringIff(t: string, i: nat, s: string, j: nat)
    requires i < |t|
    ensures StringAt(t, i) == Some((s, j)) <==>
            Quoted(t, i, j) && Decode(t[i + 1..j - 1]).Some? && s == CStr(Decode(t[i + 1..j - 1]).value)
  {
    if StringAt(t, i).Some? { StringQuoted(t, i); }
    if Quoted(t, i, j) { QuotedString(t, i, j, t[i + 1..j - 1]); }
  }

  lemma StringQuoted(t: string, i: nat)
    requires i < |t| && StringAt(t, i).Some?
    ensures Quoted(t, i, StringAt(t, i).value.1)
  {
    StringStops(t, i);
    ScanUnits(t, i + 1);
    var e := ScanQuote(t, i + 1);
    StringFrom(t, i, e, t[i + 1..e - 1]);
  }

  lemma QuotedString(t: string, i: nat, j: nat, z: string)
    requires Quoted(t, i, j) && z == t[i + 1..j - 1]
    ensures StringAt(t, i) == if Decode(z).None? then None else Some((CStr(Decode(z).value), j))
  {
    UnitsScan(t, i + 1, j);
    StringFrom(t, i, j, z);
  }

  lemma StringStops(t: string, i: nat)
    requires i < |t| && StringAt(t, i).Some?
    ensures i + 1 < ScanQuote(t, i + 1) < |t|
  {}

  lemma StringFrom(t: string, i: nat, e: nat, z: string)
    requires i < |t| && ScanQuote(t, i + 1) == e && i + 1 < e < |t| && z == t[i + 1..e - 1]
    ensures StringAt(t, i) == if Decode(z).None? then None else Some((CStr(Decode(z).value), e))
  {
    assert StringAt(t, i) == Unquoted(z, e);
  }

  // ---- the relation ----

  // Behind blanks, the text from i to j is the value v; n containers are open.
  ghost predicate Reads(lc: Libc, t: string, i: nat, n: nat, v: JsonValue, j: nat)
    requires lc.Valid()
    decreases v, 1
  {
    n <= JSON_MAX_NESTING && exists p: nat :: Blanks(t, i, p) && Spells(lc, t, p, n, v, j)
  }

  predicate StartsNumber(c: char) { c == '-' || '0' <= c <= '9' }

  ghost predicate Spells(lc: Libc, t: string, p: nat, n: nat, v: JsonValue, j: nat)
    requires lc.Valid()
    decreases v, 0
  {
    && p < |t|
    && match v
       case Null => TokenAt(t, p, "null") && j == p + 4
       case Boolean(b) => TokenAt(t, p, if b then "true" else "false") && j == if b then p + 4 else p + 5
       case Number(_) => StartsNumber(t[p]) && NumberAt(lc, t, p) == Some((v, j))
       case String(s) => t[p] == QUOTE && StringAt(t, p) == Some((s, j))
       case Array(vs) =>
         && t[p] == '[' && |vs| <= JSON_ARRAY_MAX_CAPACITY
         && if vs == [] then Ends(t, p + 1, ']', j) else ItemsRead(lc, t, p + 1, n + 1, vs, 0, j)
       case Object(es) =>
         && t[p] == '{' && |es| <= JSON_OBJECT_MAX_CAPACITY && OwnNames(es)
         && if es == [] then Ends(t, p + 1, '}', j)
            else exists q: nat :: KeyStarts(t, p + 1, q) && t[q] != '}' && EntriesRead(lc, t, q, n + 1, es, 0, j)
  }

  // Blanks, and the closing bracket, behind which j is.
  predicate Ends(t: string, i: nat, bracket: char, j: nat) {
    j > 0 && Blanks(t, i, j - 1) && j <= |t| && t[j - 1] == bracket
  }

  // Blanks and a comma, behind which q is.
  predicate Separated(t: string, i: nat, q: nat) { q > 0 && Blanks(t, i, q - 1) && q <= |t| && t[q - 1] == ',' }

  // A key begins at the first character that is no blank, whatever that is.
  predicate KeyStarts(t: string, i: nat, q: nat) { Blanks(t, i, q) && Solid(t, q) }

  predicate OwnNames(es: seq<Entry>) { forall a, b :: 0 <= a < b < |es| ==> es[a].name != es[b].name }

  // The items from k on, and the closing bracket.
  ghost predicate ItemsRead(lc: Libc, t: string, i: nat, n: nat, vs: seq<JsonValue>, k: nat, j: nat)
    requires lc.Valid() && k < |vs|
    decreases vs, |vs| - k, 1
  {
    exists e: nat :: Reads(lc, t, i, n, vs[k], e) && ItemsGoOn(lc, t, e, n, vs, k, j)
  }

  // What stands behind item k.
  ghost predicate ItemsGoOn(lc: Libc, t: string, e: nat, n: nat, vs: seq<JsonValue>, k: nat, j: nat)
    requires lc.Valid() && k < |vs|
    decreases vs, |vs| - k, 0
  {
    if k + 1 == |vs| then Ends(t, e, ']', j)
    else exists q: nat :: Separated(t, e, q) && ItemsRead(lc, t, q, n, vs, k + 1, j)
  }

  // A key at i, blanks and a colon, behind which c is.
  predicate KeyReads(t: string, i: nat, name: string, c: nat) {
    i < |t| && StringAt(t, i).Some? && StringAt(t, i).value.0 == name
    && c > 0 && Blanks(t, StringAt(t, i).value.1, c - 1) && c <= |t| && t[c - 1] == ':'
  }

  ghost predicate EntriesRead(lc: Libc, t: string, i: nat, n: nat, es: seq<Entry>, k: nat, j: nat)
    requires lc.Valid() && k < |es|
    decreases es, |es| - k, 1
  {
    exists c: nat, e: nat :: KeyReads(t, i, es[k].name, c) && Reads(lc, t, c, n, es[k].value, e)
                   && EntriesGoOn(lc, t, e, n, es, k, j)
  }

  // What stands behind entry k.
  ghost predicate EntriesGoOn(lc: Libc, t: string, e: nat, n: nat, es: seq<Entry>, k: nat, j: nat)
    requires lc.Valid() && k < |es|
    decreases es, |es| - k, 0
  {
    if k + 1 == |es| then Ends(t, e, '}', j)
    else exists q: nat, s: nat :: Separated(t, e, q) && KeyStarts(t, q, s) && EntriesRead(lc, t, s, n, es, k + 1, j)
  }

  // ---- what the loops do behind an item or an entry ----

  lemma ItemsComma(lc: Libc, t: string, p: nat, n: nat, vs: seq<JsonValue>)
    requires lc.Valid() && p < |t| && t[p] == ','
    ensures ItemsNext(lc, t, p, n, vs) == ItemsAt(lc, t, SkipSpace(t, p + 1), n, vs)
  {}

  lemma ItemsClose(lc: Libc, t: string, p: nat, n: nat, vs: seq<JsonValue>)
    requires lc.Valid() && p <= |t|
    ensures p < |t| && t[p] == ']' ==> ItemsNext(lc, t, p, n, vs) == Some((Array(vs), p + 1))
    ensures p == |t| || (t[p] != ',' && t[p] != ']') ==> ItemsNext(lc, t, p, n, vs) == None
  {}

  lemma EntriesComma(lc: Libc, t: string, p: nat, n: nat, es: seq<Entry>)
    requires lc.Valid() && p < |t| && t[p] == ','
    ensures EntriesNext(lc, t, p, n, es) == EntriesAt(lc, t, SkipSpace(t, p + 1), n, es)
  {}

  lemma EntriesClose(lc: Libc, t: string, p: nat, n: nat, es: seq<Entry>)
    requires lc.Valid() && p <= |t|
    ensures p < |t| && t[p] == '}' ==> EntriesNext(lc, t, p, n, es) == Some((Object(es), p + 1))
    ensures p == |t| || (t[p] != ',' && t[p] != '}') ==> EntriesNext(lc, t, p, n, es) == None
  {}

  lemma ItemTaken(lc: Libc, t: string, i: nat, n: nat, acc: seq<JsonValue>)
    requires lc.Valid() && i <= |t| && ItemsAt(lc, t, i, n, acc).Some?
    ensures ValueAt(lc, t, i, n).Some? && |acc| < JSON_ARRAY_MAX_CAPACITY
    ensures var v := ValueAt(lc, t, i, n).value;
            ItemsAt(lc, t, i, n, acc) == ItemsNext(lc, t, SkipSpace(t, v.1), n, acc + [v.0])
  {}

  // ---- what the parser finds is in the relation ----

  lemma ItemsReadHere(lc: Libc, t: string, i: nat, n: nat, vs: seq<JsonValue>, k: nat, j: nat, e: nat)
    requires lc.Valid() && k < |vs| && Reads(lc, t, i, n, vs[k], e) && ItemsGoOn(lc, t, e, n, vs, k, j)
    ensures ItemsRead(lc, t, i, n, vs, k, j)
  {}

  lemma EntriesReadHere(lc: Libc, t: string, i: nat, n: nat, es: seq<Entry>, k: nat, j: nat, c: nat, e: nat)
    requires lc.Valid() && k < |es| && KeyReads(t, i, es[k].name, c) && Reads(lc, t, c, n, es[k].value, e)
    requires EntriesGoOn(lc, t, e, n, es, k, j)
    ensures EntriesRead(lc, t, i, n, es, k, j)
  {}

  lemma ItemsStopHere(lc: Libc, t: string, e: nat, n: nat, vs: seq<JsonValue>, k: nat, j: nat)
    requires lc.Valid() && k + 1 == |vs| && e <= |t| && SkipSpace(t, e) < |t| && t[SkipSpace(t, e)] == ']'
    requires j == SkipSpace(t, e) + 1
    ensures ItemsGoOn(lc, t, e, n, vs, k, j)
  {
    EndsHere(t, e, ']');
  }

  lemma EntriesStopHere(lc: Libc, t: string, e: nat, n: nat, es: seq<Entry>, k: nat, j: nat)
    requires lc.Valid() && k + 1 == |es| && e <= |t| && SkipSpace(t, e) < |t| && t[SkipSpace(t, e)] == '}'
    requires j == SkipSpace(t, e) + 1
    ensures EntriesGoOn(lc, t, e, n, es, k, j)
  {
    EndsHere(t, e, '}');
  }

  lemma ItemsGoOnHere(lc: Libc, t: string, e: nat, n: nat, vs: seq<JsonValue>, k: nat, j: nat)
    requires lc.Valid() && k + 1 < |vs| && e <= |t| && SkipSpace(t, e) < |t| && t[SkipSpace(t, e)] == ','
    requires ItemsRead(lc, t, SkipSpace(t, SkipSpace(t, e) + 1), n, vs, k + 1, j)
    ensures ItemsGoOn(lc, t, e, n, vs, k, j)
  {
    SeparatedHere(t, e);
    ItemsBehindBlanks(lc, t, SkipSpace(t, e) + 1, n, vs, k + 1, j);
  }

  lemma FrontOf<T>(all: seq<T>, acc: seq<T>, x: T)
    requires |acc| < |all| && all[..|acc| + 1] == acc + [x]
    ensures all[..|acc|] == acc && all[|acc|] == x
  {
    assert all[..|acc|] == all[..|acc| + 1][..|acc|];
    assert all[|acc|] == all[..|acc| + 1][|acc|];
  }

  lemma ReadsBehindBlanks(lc: Libc, t: string, i: nat, n: nat, v: JsonValue, j: nat)
    requires lc.Valid() && i <= |t| && Reads(lc, t, SkipSpace(t, i), n, v, j)
    ensures Reads(lc, t, i, n, v, j)
  {
    var p: nat :| Blanks(t, SkipSpace(t, i), p) && Spells(lc, t, p, n, v, j);
    SkipBlanks(t, i);
    MoreBlanks(t, i, SkipSpace(t, i), p);
  }

  lemma ItemsBehindBlanks(lc: Libc, t: string, i: nat, n: nat, vs: seq<JsonValue>, k: nat, j: nat)
    requires lc.Valid() && k < |vs| && i <= |t| && ItemsRead(lc, t, SkipSpace(t, i), n, vs, k, j)
    ensures ItemsRead(lc, t, i, n, vs, k, j)
  {
    var e: nat :| Reads(lc, t, SkipSpace(t, i), n, vs[k], e) && ItemsGoOn(lc, t, e, n, vs, k, j);
    ReadsBehindBlanks(lc, t, i, n, vs[k], e);
  }

  lemma EndsHere(t: string, i: nat, bracket: char)
    requires i <= |t| && SkipSpace(t, i) < |t| && t[SkipSpace(t, i)] == bracket
    ensures Ends(t, i, bracket, SkipSpace(t, i) + 1)
  {
    SkipBlanks(t, i);
  }

  lemma SeparatedHere(t: string, i: nat)
    requires i <= |t| && SkipSpace(t, i) < |t| && t[SkipSpace(t, i)] == ','
    ensures Separated(t, i, SkipSpace(t, i) + 1)
  {
    SkipBlanks(t, i);
  }

  lemma {:induction false} ValueSound(lc: Libc, t: string, i: nat, n: nat)
    requires lc.Valid() && i <= |t| && ValueAt(lc, t, i, n).Some?
    ensures var r := ValueAt(lc, t, i, n).value; Reads(lc, t, i, n, r.0, r.1)
    decreases |t| - i, 4
  {
    var p := SkipSpace(t, i);
    HereSound(lc, t, p, n);
    SkipBlanks(t, i);
    assert Spells(lc, t, p, n, ValueAt(lc, t, i, n).value.0, ValueAt(lc, t, i, n).value.1);
  }

  lemma {:induction false} HereSound(lc: Libc, t: string, p: nat, n: nat)
    requires lc.Valid() && p < |t| && ValueHere(lc, t, p, n).Some?
    ensures var r := ValueHere(lc, t, p, n).value; Spells(lc, t, p, n, r.0, r.1)
    decreases |t| - p, 3
  {
    if t[p] == '{' {
      ObjectSound(lc, t, p, n);
    } else if t[p] == '[' {
      ArraySound(lc, t, p, n);
    } else {
      LeafSound(lc, t, p, n);
    }
  }

  lemma LeafSound(lc: Libc, t: string, p: nat, n: nat)
    requires lc.Valid() && p < |t| && LeafAt(lc, t, p).Some?
    ensures var r := LeafAt(lc, t, p).value; Spells(lc, t, p, n, r.0, r.1)
  {}

  lemma {:induction false} ArraySound(lc: Libc, t: string, p: nat, n: nat)
    requires lc.Valid() && p < |t| && t[p] == '[' && ArrayAt(lc, t, p, n + 1).Some?
    ensures var r := ArrayAt(lc, t, p, n + 1).value; Spells(lc, t, p, n, r.0, r.1)
    decreases |t| - p, 2
  {
    var q := SkipSpace(t, p + 1);
    if q < |t| && t[q] == ']' {
      EndsHere(t, p + 1, ']');
    } else {
      ItemsSound(lc, t, q, n + 1, []);
      var r := ArrayAt(lc, t, p, n + 1).value;
      ItemsBehindBlanks(lc, t, p + 1, n + 1, r.0.items, 0, r.1);
    }
  }

  lemma {:induction false} ItemsSound(lc: Libc, t: string, i: nat, n: nat, acc: seq<JsonValue>)
    requires lc.Valid() && i <= |t| && ItemsAt(lc, t, i, n, acc).Some?
    ensures var r := ItemsAt(lc, t, i, n, acc).value;
            && r.0.Array? && |acc| < |r.0.items| <= JSON_ARRAY_MAX_CAPACITY && r.0.items[..|acc|] == acc
            && ItemsRead(lc, t, i, n, r.0.items, |acc|, r.1)
    decreases |t| - i, 5
  {
    ItemTaken(lc, t, i, n, acc);
    var v := ValueAt(lc, t, i, n).value;
    ValueSound(lc, t, i, n);
    var e, more, q := v.1, acc + [v.0], SkipSpace(t, v.1);
    ItemsClose(lc, t, q, n, more);
    var r := ItemsAt(lc, t, i, n, acc).value;
    if t[q] == ',' {
      ItemsComma(lc, t, q, n, more);
      ItemsSound(lc, t, SkipSpace(t, q + 1), n, more);
    }
    ItemsAssemble(lc, t, i, n, acc, v.0, e, r.0.items, r.1);
  }

  lemma ItemsAssemble(lc: Libc, t: string, i: nat, n: nat, acc: seq<JsonValue>, v: JsonValue, e: nat,
                      vs: seq<JsonValue>, j: nat)
    requires lc.Valid() && Reads(lc, t, i, n, v, e) && |acc| < |vs| && vs[..|acc| + 1] == acc + [v]
    requires e <= |t| && SkipSpace(t, e) < |t|
    requires var q := SkipSpace(t, e);
             if t[q] == ',' then
               |acc| + 1 < |vs| && ItemsRead(lc, t, SkipSpace(t, q + 1), n, vs, |acc| + 1, j)
             else t[q] == ']' && |acc| + 1 == |vs| && j == q + 1
    ensures vs[..|acc|] == acc && ItemsRead(lc, t, i, n, vs, |acc|, j)
  {
    FrontOf(vs, acc, v);
    if t[SkipSpace(t, e)] == ',' {
      ItemsGoOnHere(lc, t, e, n, vs, |acc|, j);
    } else {
      ItemsStopHere(lc, t, e, n, vs, |acc|, j);
    }
    ItemsReadHere(lc, t, i, n, vs, |acc|, j, e);
  }

  lemma NoName(es: seq<Entry>, e: Entry)
    requires OwnNames(es) && !HasName(es, e.name)
    ensures OwnNames(es + [e])
  {}

  lemma KeySound(t: string, i: nat)
    requires i < |t| && KeyAt(t, i).Some?
    ensures KeyReads(t, i, KeyAt(t, i).value.0, KeyAt(t, i).value.1)
  {
    SkipBlanks(t, StringAt(t, i).value.1);
  }

  lemma {:induction false} ObjectSound(lc: Libc, t: string, p: nat, n: nat)
    requires lc.Valid() && p < |t| && t[p] == '{' && ObjectAt(lc, t, p, n + 1).Some?
    ensures var r := ObjectAt(lc, t, p, n + 1).value; Spells(lc, t, p, n, r.0, r.1)
    decreases |t| - p, 2
  {
    var q := SkipSpace(t, p + 1);
    SkipBlanks(t, p + 1);
    if q < |t| && t[q] == '}' {
      EndsHere(t, p + 1, '}');
    } else {
      EntriesSound(lc, t, q, n + 1, []);
    }
  }

  lemma {:induction false} EntriesSound(lc: Libc, t: string, i: nat, n: nat, acc: seq<Entry>)
    requires lc.Valid() && i <= |t| && EntriesAt(lc, t, i, n, acc).Some? && OwnNames(acc)
    ensures var r := EntriesAt(lc, t, i, n, acc).value;
            && r.0.Object? && |acc| < |r.0.entries| <= JSON_OBJECT_MAX_CAPACITY && r.0.entries[..|acc|] == acc
            && OwnNames(r.0.entries) && EntriesRead(lc, t, i, n, r.0.entries, |acc|, r.1)
    decreases |t| - i, 1
  {
    EntryTaken(lc, t, i, n, acc);
    var key := KeyAt(t, i).value;
    var v := ValueAt(lc, t, key.1, n).value;
    var x := Entry(key.0, v.0);
    var e, more, q := v.1, acc + [x], SkipSpace(t, v.1);
    EntriesClose(lc, t, q, n, more);
    KeySound(t, i);
    ValueSound(lc, t, key.1, n);
    NoName(acc, x);
    var r := EntriesAt(lc, t, i, n, acc).value;
    if t[q] == ',' {
      EntriesComma(lc, t, q, n, more);
      EntriesSound(lc, t, SkipSpace(t, q + 1), n, more);
      FrontOf(r.0.entries, acc, x);
      EntriesGoOnHere(lc, t, e, n, r.0.entries, |acc|, r.1);
    } else {
      FrontOf(r.0.entries, acc, x);
      EntriesStopHere(lc, t, e, n, r.0.entries, |acc|, r.1);
    }
    EntriesReadHere(lc, t, i, n, r.0.entries, |acc|, r.1, key.1, e);
  }

  // The loop takes an entry and goes on behind it.
  lemma EntryTaken(lc: Libc, t: string, i: nat, n: nat, acc: seq<Entry>)
    requires lc.Valid() && i <= |t| && EntriesAt(lc, t, i, n, acc).Some?
    ensures i < |t| && KeyAt(t, i).Some? && ValueAt(lc, t, KeyAt(t, i).value.1, n).Some?
    ensures var key := KeyAt(t, i).value;
            var v := ValueAt(lc, t, key.1, n).value;
            && |acc| < JSON_OBJECT_MAX_CAPACITY && !HasName(acc, key.0)
            && EntriesAt(lc, t, i, n, acc) == EntriesNext(lc, t, SkipSpace(t, v.1), n, acc + [Entry(key.0, v.0)])
  {}

  lemma EntriesGoOnHere(lc: Libc, t: string, e: nat, n: nat, es: seq<Entry>, k: nat, j: nat)
    requires lc.Valid() && k + 1 < |es| && e <= |t| && SkipSpace(t, e) < |t| && t[SkipSpace(t, e)] == ','
    requires var s := SkipSpace(t, SkipSpace(t, e) + 1); s < |t| && EntriesRead(lc, t, s, n, es, k + 1, j)
    ensures EntriesGoOn(lc, t, e, n, es, k, j)
  {
    var q := SkipSpace(t, e) + 1;
    SeparatedHere(t, e);
    SkipBlanks(t, q);
    assert KeyStarts(t, q, SkipSpace(t, q));
  }

  // ---- what is in the relation is found ----

  lemma EndsSkip(t: string, i: nat, bracket: char, j: nat)
    requires Ends(t, i, bracket, j) && (bracket == ']' || bracket == '}')
    ensures i < j && SkipSpace(t, i) == j - 1
  {
    BlanksSkip(t, i, j - 1);
  }

  lemma SeparatedSkip(t: string, i: nat, q: nat)
    requires Separated(t, i, q)
    ensures i < q && SkipSpace(t, i) == q - 1
  {
    BlanksSkip(t, i, q - 1);
  }

  lemma ValueSkip(lc: Libc, t: string, i: nat, n: nat)
    requires lc.Valid() && i <= |t|
    ensures ValueAt(lc, t, SkipSpace(t, i), n) == ValueAt(lc, t, i, n)
  {
    SkipAgain(t, i);
  }

  lemma {:induction false} ReadsFound(lc: Libc, t: string, i: nat, n: nat, v: JsonValue, j: nat)
    requires lc.Valid() && Reads(lc, t, i, n, v, j)
    ensures i <= |t| && ValueAt(lc, t, i, n) == Some((v, j))
    decreases v, 1
  {
    var p: nat :| Blanks(t, i, p) && Spells(lc, t, p, n, v, j);
    SpellsFound(lc, t, p, n, v, j);
    BlanksSkip(t, i, p);
  }

  lemma {:induction false} SpellsFound(lc: Libc, t: string, p: nat, n: nat, v: JsonValue, j: nat)
    requires lc.Valid() && Spells(lc, t, p, n, v, j)
    ensures Solid(t, p) && ValueHere(lc, t, p, n) == Some((v, j))
    decreases v, 0
  {
    match v
    case Array(vs) => ArrayFound(lc, t, p, n, vs, j);
    case Object(es) => ObjectFound(lc, t, p, n, es, j);
    case _ => LeafFound(lc, t, p, n, v, j);
  }

  lemma LeafFound(lc: Libc, t: string, p: nat, n: nat, v: JsonValue, j: nat)
    requires lc.Valid() && Spells(lc, t, p, n, v, j) && !v.Array? && !v.Object?
    ensures Solid(t, p) && t[p] != '{' && t[p] != '[' && LeafAt(lc, t, p) == Some((v, j))
  {
    if v.Null? {
      assert t[p..p + 4][0] == 'n';
    } else if v.Boolean? {
      assert if v.boolean then t[p..p + 4][0] == 't' else t[p..p + 5][0] == 'f';
    }
  }

  lemma {:induction false} ArrayFound(lc: Libc, t: string, p: nat, n: nat, vs: seq<JsonValue>, j: nat)
    requires lc.Valid() && Spells(lc, t, p, n, Array(vs), j)
    ensures ArrayAt(lc, t, p, n + 1) == Some((Array(vs), j))
    decreases vs, |vs| + 1
  {
    if vs == [] {
      EndsSkip(t, p + 1, ']', j);
    } else {
      ItemsFound(lc, t, p + 1, n + 1, vs, 0, j);
      NoBracket(lc, t, SkipSpace(t, p + 1), n + 1);
    }
  }

  // No value begins with a closing bracket.
  lemma NoBracket(lc: Libc, t: string, q: nat, n: nat)
    requires lc.Valid() && q <= |t| && SkipSpace(t, q) == q
    ensures q < |t| && t[q] == ']' ==> ItemsAt(lc, t, q, n, []) == None
  {
    if q < |t| && t[q] == ']' {
      assert LeafAt(lc, t, q) == None;
      assert ValueHere(lc, t, q, n) == None;
      assert ValueAt(lc, t, q, n) == None;
    }
  }

  lemma ItemsEndFound(lc: Libc, t: string, e: nat, n: nat, vs: seq<JsonValue>, j: nat)
    requires lc.Valid() && Ends(t, e, ']', j)
    ensures e <= |t| && ItemsNext(lc, t, SkipSpace(t, e), n, vs) == Some((Array(vs), j))
  {
    EndsSkip(t, e, ']', j);
    ItemsClose(lc, t, j - 1, n, vs);
  }

  lemma ItemsCommaFound(lc: Libc, t: string, e: nat, n: nat, vs: seq<JsonValue>, q: nat)
    requires lc.Valid() && Separated(t, e, q)
    ensures e <= q <= |t| && ItemsNext(lc, t, SkipSpace(t, e), n, vs) == ItemsAt(lc, t, SkipSpace(t, q), n, vs)
  {
    SeparatedSkip(t, e, q);
    ItemsComma(lc, t, q - 1, n, vs);
  }

  lemma EntriesEndFound(lc: Libc, t: string, e: nat, n: nat, es: seq<Entry>, j: nat)
    requires lc.Valid() && Ends(t, e, '}', j)
    ensures e <= |t| && EntriesNext(lc, t, SkipSpace(t, e), n, es) == Some((Object(es), j))
  {
    EndsSkip(t, e, '}', j);
    EntriesClose(lc, t, j - 1, n, es);
  }

  lemma EntriesCommaFound(lc: Libc, t: string, e: nat, n: nat, es: seq<Entry>, q: nat, s: nat)
    requires lc.Valid() && Separated(t, e, q) && KeyStarts(t, q, s)
    ensures e <= |t| && s <= |t| && EntriesNext(lc, t, SkipSpace(t, e), n, es) == EntriesAt(lc, t, s, n, es)
  {
    SeparatedSkip(t, e, q);
    BlanksSkip(t, q, s);
    EntriesComma(lc, t, q - 1, n, es);
  }

  // One item, and what the loop does behind it.
  lemma ItemFound(lc: Libc, t: string, i: nat, n: nat, vs: seq<JsonValue>, k: nat, e: nat)
    requires lc.Valid() && k < |vs| <= JSON_ARRAY_MAX_CAPACITY && i <= |t| && ValueAt(lc, t, i, n) == Some((vs[k], e))
    ensures e <= |t|
    ensures ItemsAt(lc, t, SkipSpace(t, i), n, vs[..k]) == ItemsNext(lc, t, SkipSpace(t, e), n, vs[..k + 1])
  {
    ValueSkip(lc, t, i, n);
    assert vs[..k] + [vs[k]] == vs[..k + 1];
  }

  lemma {:induction false} ItemsFound(lc: Libc, t: string, i: nat, n: nat, vs: seq<JsonValue>, k: nat, j: nat)
    requires lc.Valid() && k < |vs| <= JSON_ARRAY_MAX_CAPACITY && ItemsRead(lc, t, i, n, vs, k, j)
    ensures i <= |t| && ItemsAt(lc, t, SkipSpace(t, i), n, vs[..k]) == Some((Array(vs), j))
    decreases vs, |vs| - k
  {
    var e: nat :| Reads(lc, t, i, n, vs[k], e) && ItemsGoOn(lc, t, e, n, vs, k, j);
    ReadsFound(lc, t, i, n, vs[k], e);
    ItemFound(lc, t, i, n, vs, k, e);
    if k + 1 == |vs| {
      assert vs[..k + 1] == vs;
      ItemsEndFound(lc, t, e, n, vs, j);
    } else {
      var q: nat :| Separated(t, e, q) && ItemsRead(lc, t, q, n, vs, k + 1, j);
      ItemsCommaFound(lc, t, e, n, vs[..k + 1], q);
      ItemsFound(lc, t, q, n, vs, k + 1, j);
    }
  }

  lemma {:induction false} ObjectFound(lc: Libc, t: string, p: nat, n: nat, es: seq<Entry>, j: nat)
    requires lc.Valid() && Spells(lc, t, p, n, Object(es), j)
    ensures ObjectAt(lc, t, p, n + 1) == Some((Object(es), j))
    decreases es, |es| + 1
  {
    if es == [] {
      EndsSkip(t, p + 1, '}', j);
    } else {
      var q: nat :| KeyStarts(t, p + 1, q) && t[q] != '}' && EntriesRead(lc, t, q, n + 1, es, 0, j);
      BlanksSkip(t, p + 1, q);
      EntriesFound(lc, t, q, n + 1, es, 0, j);
    }
  }

  lemma KeyFound(t: string, i: nat, name: string, c: nat)
    requires KeyReads(t, i, name, c)
    ensures KeyAt(t, i) == Some((name, c))
  {
    BlanksSkip(t, StringAt(t, i).value.1, c - 1);
  }

  // One entry, and what the loop does behind it.
  lemma EntryFound(lc: Libc, t: string, i: nat, n: nat, es: seq<Entry>, k: nat, c: nat, e: nat)
    requires lc.Valid() && k < |es| <= JSON_OBJECT_MAX_CAPACITY && OwnNames(es) && i < |t| && c <= |t|
    requires KeyAt(t, i) == Some((es[k].name, c)) && ValueAt(lc, t, c, n) == Some((es[k].value, e))
    ensures e <= |t| && EntriesAt(lc, t, i, n, es[..k]) == EntriesNext(lc, t, SkipSpace(t, e), n, es[..k + 1])
  {
    assert es[k] == Entry(es[k].name, es[k].value);
    assert es[..k] + [es[k]] == es[..k + 1];
    assert !HasName(es[..k], es[k].name);
  }

  lemma {:induction false} EntriesFound(lc: Libc, t: string, i: nat, n: nat, es: seq<Entry>, k: nat, j: nat)
    requires lc.Valid() && k < |es| <= JSON_OBJECT_MAX_CAPACITY && OwnNames(es) && EntriesRead(lc, t, i, n, es, k, j)
    ensures i <= |t| && EntriesAt(lc, t, i, n, es[..k]) == Some((Object(es), j))
    decreases es, |es| - k
  {
    var c: nat, e: nat :| KeyReads(t, i, es[k].name, c) && Reads(lc, t, c, n, es[k].value, e)
                && EntriesGoOn(lc, t, e, n, es, k, j);
    KeyFound(t, i, es[k].name, c);
    ReadsFound(lc, t, c, n, es[k].value, e);
    EntryFound(lc, t, i, n, es, k, c, e);
    if k + 1 == |es| {
      assert es[..k + 1] == es;
      EntriesEndFound(lc, t, e, n, es, j);
    } else {
      var q: nat, s: nat :| Separated(t, e, q) && KeyStarts(t, q, s) && EntriesRead(lc, t, s, n, es, k + 1, j);
      EntriesCommaFound(lc, t, e, n, es[..k + 1], q, s);
      EntriesFound(lc, t, s, n, es, k + 1, j);
    }
  }

  // ---- the parser ----

  /** A value is found, with its end, exactly when the text from there on is one. */
  lemma ValueIff(lc: Libc, t: string, i: nat, n: nat, v: JsonValue, j: nat)
    requires lc.Valid() && i <= |t|
    ensures ValueAt(lc, t, i, n) == Some((v, j)) <==> Reads(lc, t, i, n, v, j)
  {
    if ValueAt(lc, t, i, n) == Some((v, j)) { ValueSound(lc, t, i, n); }
    if Reads(lc, t, i, n, v, j) { ReadsFound(lc, t, i, n, v, j); }
  }

  // Blanks other than the form feed.
  predicate RootBlanks(t: string, i: nat) { Blanks(t, 0, i) && forall k :: 0 <= k < i ==> t[k] != FF }

  predicate Opens(c: char) { c == '{' || c == '[' }

  lemma {:induction false} RootSkip(t: string, a: nat, i: nat)
    requires a <= i < |t| && Opens(t[i]) && forall k :: a <= k < i ==> IsSpace(t[k]) && t[k] != FF
    ensures SkipRootSpace(t, a) == i
    decreases i - a
  {
    if a < i { RootSkip(t, a + 1, i); }
  }

  lemma {:induction false} SkipRoot(t: string, a: nat)
    requires a <= |t|
    ensures forall k :: a <= k < SkipRootSpace(t, a) ==> IsSpace(t[k]) && t[k] != FF
    decreases |t| - a
  {
    if a < |t| && IsSpace(t[a]) && t[a] != FF { SkipRoot(t, a + 1); }
  }

  // Behind blanks the text begins with this container, whatever comes behind it.
  ghost predicate Begins(lc: Libc, t: string, v: JsonValue, i: nat, j: nat)
    requires lc.Valid()
  {
    RootBlanks(t, i) && i < |t| && Opens(t[i]) && Reads(lc, t, i, 0, v, j)
  }

  /** A tree is parsed exactly when the text begins with it. */
  lemma ParseIff(lc: Libc, t: string, v: JsonValue)
    requires lc.Valid()
    ensures ParseString(lc, t) == Some(v) <==> exists i: nat, j: nat :: Begins(lc, t, v, i, j)
  {
    var p := SkipRootSpace(t, 0);
    if ParseString(lc, t) == Some(v) {
      var j := ValueAt(lc, t, p, 0).value.1;
      ValueIff(lc, t, p, 0, v, j);
      SkipRoot(t, 0);
      assert Begins(lc, t, v, p, j);
    }
    if i: nat, j: nat :| Begins(lc, t, v, i, j) {
      RootSkip(t, 0, i);
      ValueIff(lc, t, i, 0, v, j);
    }
  }

  // ---- integers ----

  // The number that a string of digits stands for, the highest digit first.
  function DigitsValue(s: string): nat
    requires forall i :: 0 <= i < |s| ==> '0' <= s[i] <= '9'
  {
    if s == [] then 0 else DigitsValue(s[..|s| - 1]) * 10 + (s[|s| - 1] as nat - '0' as nat)
  }

  lemma {:induction false} DigitsRead(n: nat)
    ensures DigitsValue(Digits(n)) == n && (n > 0 ==> Digits(n)[0] != '0') && (n == 0 ==> Digits(n) == "0")
    decreases n
  {
    var s := Digits(n);
    if n >= 10 {
      DigitsRead(n / 10);
      assert s[..|s| - 1] == Digits(n / 10);
    } else {
      assert s[..|s| - 1] == [];
    }
    assert s[|s| - 1] == (n % 10 + '0' as nat) as char;
  }

  /** "%ld" prints the digits of the number, without zeros in front, behind a minus for a negative one. */
  lemma {:induction false} DecimalRead(n: int, size: nat)
    requires size == if n < 0 then -n else n
    ensures var digits := Digits(size);
            && Decimal(n) == (if n < 0 then "-" else "") + digits
            && DigitsValue(digits) == size && (digits[0] == '0' ==> n == 0)
  {
    DigitsRead(size);
    assert "" + Digits(size) == Digits(size);
  }
}
