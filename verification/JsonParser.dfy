/** The recursive-descent parser of api_parser.c and the containers of json_object.c and json_array.c. */
module JsonParser {
  import opened JsonText
  import opened Options
  import opened JsonPrinter

  const JSON_INITIAL_CAPACITY: nat := 20
  const JSON_ARRAY_MAX_CAPACITY: nat := 163840
  const JSON_OBJECT_MAX_CAPACITY: nat := 1280
  const JSON_MAX_NESTING: nat := 20

  // ---- containers ----

  // The smallest capacity reached by doubling from `c` that holds n.
  function Doubled(c: nat, n: nat): (r: nat)
    requires c > 0
    ensures r >= n && r >= c
    decreases n - c
  {
    if n <= c then c else Doubled(2 * c, n)
  }

  // The capacity of a container that was filled one by one up to n.
  function CapacityFor(n: nat): (r: nat)
    ensures r >= n
  {
    if n == 0 then 0 else Doubled(JSON_INITIAL_CAPACITY, n)
  }

  lemma {:induction false} NextDoubled(c: nat, n: nat)
    requires c > 0
    ensures Doubled(c, n + 1) == if n < Doubled(c, n) then Doubled(c, n) else 2 * Doubled(c, n)
    decreases n - c
  {
    if n > c { NextDoubled(2 * c, n); }
  }

  // Doubling from 20 stays within the two limits exactly as long as the count does.
  lemma CapacityLimits(n: nat)
    ensures CapacityFor(n) <= JSON_OBJECT_MAX_CAPACITY <==> n <= JSON_OBJECT_MAX_CAPACITY
    ensures CapacityFor(n) <= JSON_ARRAY_MAX_CAPACITY <==> n <= JSON_ARRAY_MAX_CAPACITY
  {
    if 0 < n <= JSON_ARRAY_MAX_CAPACITY { DoubledLimit(20, n, 13); }
    if 0 < n <= JSON_OBJECT_MAX_CAPACITY { DoubledLimit(20, n, 6); }
  }

  function Power2(k: nat): nat { if k == 0 then 1 else 2 * Power2(k - 1) }

  lemma {:induction false} DoubledLimit(c: nat, n: nat, k: nat)
    requires c > 0 && n <= c * Power2(k)
    ensures Doubled(c, n) <= c * Power2(k)
    decreases k
  {
    if n > c {
      assert k > 0 && c * Power2(k) == 2 * c * Power2(k - 1);
      DoubledLimit(2 * c, n, k - 1);
    } else {
      Power2Positive(k);
      assert c <= c * Power2(k);
    }
  }

  lemma {:induction false} Power2Positive(k: nat)
    ensures Power2(k) >= 1
  {
    if k > 0 { Power2Positive(k - 1); }
  }

  predicate HasName(es: seq<Entry>, name: string) {
    exists i :: 0 <= i < |es| && es[i].name == name
  }

  // Whether BrbJsonObjectAdd takes one more entry while an object is being parsed.
  predicate Accepts(es: seq<Entry>, name: string) {
    |es| < JSON_OBJECT_MAX_CAPACITY && !HasName(es, name)
  }

  /** A BrbJsonObject. Filled: grown by Add only, never trimmed. */
  class JsonObject {
    var entries: seq<Entry>  // names and values, up to count
    var capacity: nat

    ghost predicate Filled()
      reads this
    {
      capacity == CapacityFor(|entries|) && |entries| <= JSON_OBJECT_MAX_CAPACITY
    }

    constructor ()
      ensures Filled() && entries == []
    {
      entries, capacity := [], 0;
    }

    /** BrbJsonObjectNgetValue as BrbJsonObjectGetValue calls it. */
    method GetValue(name: string) returns (r: Option<JsonValue>)
      ensures r.Some? <==> HasName(entries, name)
      ensures r.Some? ==> exists i ::
                && 0 <= i < |entries| && entries[i] == Entry(name, r.value) && !HasName(entries[..i], name)
    {
      var i := 0;
      while i < |entries|
        invariant i <= |entries| && !HasName(entries[..i], name)
      {
        if |entries[i].name| == |name| && entries[i].name == name {
          assert entries[i] == Entry(name, entries[i].value);
          return Some(entries[i].value);
        }
        assert entries[..i + 1] == entries[..i] + [entries[i]];
        i := i + 1;
      }
      assert entries[..i] == entries;
      return None;
    }

    method Resize(c: nat)
      modifies this`capacity
      ensures capacity == c
    {
      capacity := c;
    }

    /** BrbJsonObjectAdd: full at 1280 entries, names are distinct. */
    method Add(name: string, value: JsonValue) returns (ok: bool)
      requires Filled()
      modifies this
      ensures ok <==> Accepts(old(entries), name)
      ensures ok ==> Filled() && entries == old(entries) + [Entry(name, value)]
      ensures !ok ==> entries == old(entries)
    {
      CapacityLimits(|entries| + 1);
      CapacityLimits(|entries|);
      NextDoubled(JSON_INITIAL_CAPACITY, |entries|);
      if |entries| >= capacity {
        var c := if capacity * 2 > JSON_INITIAL_CAPACITY then capacity * 2 else JSON_INITIAL_CAPACITY;
        assert c == CapacityFor(|entries| + 1);
        if c > JSON_OBJECT_MAX_CAPACITY {
          return false;
        }
        Resize(c);
      }
      var found := GetValue(name);
      if found.Some? {
        return false;
      }
      entries := entries + [Entry(name, value)];
      return true;
    }
  }

  /** A BrbJsonArray. */
  class JsonArray {
    var items: seq<JsonValue>
    var capacity: nat

    ghost predicate Filled()
      reads this
    {
      capacity == CapacityFor(|items|) && |items| <= JSON_ARRAY_MAX_CAPACITY
    }

    constructor ()
      ensures Filled() && items == []
    {
      items, capacity := [], 0;
    }

    method Resize(c: nat)
      modifies this`capacity
      ensures capacity == c
    {
      capacity := c;
    }

    /** BrbJsonArrayAdd: full at 163840 items. */
    method Add(value: JsonValue) returns (ok: bool)
      requires Filled()
      modifies this
      ensures ok <==> |old(items)| < JSON_ARRAY_MAX_CAPACITY
      ensures ok ==> Filled() && items == old(items) + [value]
      ensures !ok ==> items == old(items)
    {
      CapacityLimits(|items| + 1);
      CapacityLimits(|items|);
      NextDoubled(JSON_INITIAL_CAPACITY, |items|);
      if |items| >= capacity {
        var c := if capacity * 2 > JSON_INITIAL_CAPACITY then capacity * 2 else JSON_INITIAL_CAPACITY;
        assert c == CapacityFor(|items| + 1);
        if c > JSON_ARRAY_MAX_CAPACITY {
          return false;
        }
        Resize(c);
      }
      items := items + [value];
      return true;
    }
  }

  // ---- the grammar the parser accepts, as functions of the text and the position ----

  predicate IsSpace(c: char) { 9 <= c as nat <= 13 || c == ' ' }

  function SkipSpace(t: string, i: nat): (r: nat)
    requires i <= |t|
    ensures i <= r <= |t| && (r < |t| ==> !IsSpace(t[r]))
    decreases |t| - i
  {
    if i < |t| && IsSpace(t[i]) then SkipSpace(t, i + 1) else i
  }

  // BRB_SKIP_WHITESPACES, which does not know the form feed.
  function SkipRootSpace(t: string, i: nat): (r: nat)
    requires i <= |t|
    ensures i <= r <= |t|
    decreases |t| - i
  {
    if i < |t| && IsSpace(t[i]) && t[i] != FF then SkipRootSpace(t, i + 1) else i
  }

  // skip_quotes behind the opening character: just past the closing quote, or the end of the text.
  function ScanQuote(t: string, i: nat): (r: nat)
    requires i <= |t|
    ensures i <= r <= |t| && (r < |t| ==> i < r)
    decreases |t| - i
  {
    if i == |t| then i
    else if t[i] == QUOTE then i + 1
    else if t[i] == SLASH then (if i + 1 == |t| then i + 1 else ScanQuote(t, i + 2))
    else ScanQuote(t, i + 1)
  }

  type Parsed<A> = Option<(A, nat)>

  // BrbJsonGetProcessedString. It never looks at the opening character, and a string that ends the text fails.
  function StringAt(t: string, i: nat): (r: Parsed<string>)
    requires i < |t|
    ensures r.Some? ==> i + 2 <= r.value.1 < |t|
  {
    var e := ScanQuote(t, i + 1);
    if e == |t| then None else Unquoted(t[i + 1..e - 1], e)
  }

  // A string whose text between the quotes is z and that ends at e.
  function Unquoted(z: string, e: nat): (r: Parsed<string>)
    ensures r.Some? ==> r.value.1 == e
  {
    var d := Decode(z);
    if d.None? then None else Some((CStr(d.value), e))
  }

  // BrbStrIsDecimal.
  predicate IsDecimal(s: string) {
    && !(|s| > 1 && s[0] == '0' && s[1] != '.')
    && !(|s| > 2 && s[0] == '-' && s[1] == '0' && s[2] != '.')
    && forall i :: 0 <= i < |s| ==> s[i] != 'x' && s[i] != 'X'
  }

  function NumberAt(lc: Libc, t: string, i: nat): (r: Parsed<JsonValue>)
    requires lc.Valid() && i <= |t|
    ensures r.Some? ==> i <= r.value.1 <= |t|
  {
    assert lc.strtod(t[i..]).1 <= |t[i..]|;
    var n := lc.strtod(t[i..]);
    if IsDecimal(t[i..i + n.1]) then Some((Number(n.0), i + n.1)) else None
  }

  // strncmp against a token.
  predicate TokenAt(t: string, i: nat, token: string) {
    i + |token| <= |t| && t[i..i + |token|] == token
  }

  function ValueAt(lc: Libc, t: string, i: nat, nesting: nat): (r: Parsed<JsonValue>)
    requires lc.Valid() && i <= |t|
    ensures r.Some? ==> i <= r.value.1 <= |t|
    decreases |t| - i, 4
  {
    if nesting > JSON_MAX_NESTING || SkipSpace(t, i) == |t| then None else ValueHere(lc, t, SkipSpace(t, i), nesting)
  }

  // The branches of BrbJsonParseValue.
  function ValueHere(lc: Libc, t: string, p: nat, nesting: nat): (r: Parsed<JsonValue>)
    requires lc.Valid() && p < |t|
    ensures r.Some? ==> p <= r.value.1 <= |t|
    decreases |t| - p, 3
  {
    if t[p] == '{' then ObjectAt(lc, t, p, nesting + 1)
    else if t[p] == '[' then ArrayAt(lc, t, p, nesting + 1)
    else LeafAt(lc, t, p)
  }

  function LeafAt(lc: Libc, t: string, p: nat): (r: Parsed<JsonValue>)
    requires lc.Valid() && p < |t|
    ensures r.Some? ==> p <= r.value.1 <= |t|
  {
    if t[p] == QUOTE then
      var s := StringAt(t, p);
      if s.None? then None else Some((String(s.value.0), s.value.1))
    else if t[p] == 'f' || t[p] == 't' then
      if TokenAt(t, p, "true") then Some((Boolean(true), p + 4))
      else if TokenAt(t, p, "false") then Some((Boolean(false), p + 5))
      else None
    else if t[p] == '-' || '0' <= t[p] <= '9' then NumberAt(lc, t, p)
    else if t[p] == 'n' then
      if TokenAt(t, p, "null") then Some((Null, p + 4)) else None
    else None
  }

  function ObjectAt(lc: Libc, t: string, i: nat, nesting: nat): (r: Parsed<JsonValue>)
    requires lc.Valid() && i < |t|
    ensures r.Some? ==> i < r.value.1 <= |t|
    decreases |t| - i, 2
  {
    var p := SkipSpace(t, i + 1);
    if p < |t| && t[p] == '}' then Some((Object([]), p + 1))
    else EntriesAt(lc, t, p, nesting, [])
  }

  // A key and the colon behind it.
  function KeyAt(t: string, i: nat): (r: Parsed<string>)
    requires i < |t|
    ensures r.Some? ==> i + 2 < r.value.1 <= |t|
  {
    var key := StringAt(t, i);
    if key.None? then None
    else
      var colon := SkipSpace(t, key.value.1);
      if colon == |t| || t[colon] != ':' then None else Some((key.value.0, colon + 1))
  }

  // One entry of an object.
  function EntryAt(lc: Libc, t: string, i: nat, nesting: nat): (r: Parsed<Entry>)
    requires lc.Valid() && i < |t|
    ensures r.Some? ==> i < r.value.1 <= |t|
    decreases |t| - i, 0
  {
    var key := KeyAt(t, i);
    if key.None? then None
    else
      var v := ValueAt(lc, t, key.value.1, nesting);
      if v.None? then None else Some((Entry(key.value.0, v.value.0), v.value.1))
  }

  // The loop of BrbJsonParseObjectValue with the entries added so far.
  function EntriesAt(lc: Libc, t: string, i: nat, nesting: nat, es: seq<Entry>): (r: Parsed<JsonValue>)
    requires lc.Valid() && i <= |t|
    ensures r.Some? ==> i < r.value.1 <= |t|
    decreases |t| - i, 1
  {
    if i == |t| then None
    else
      var e := EntryAt(lc, t, i, nesting);
      if e.None? || !Accepts(es, e.value.0.name) then None
      else EntriesNext(lc, t, SkipSpace(t, e.value.1), nesting, es + [e.value.0])
  }

  // What the loop does behind an entry.
  function EntriesNext(lc: Libc, t: string, p: nat, nesting: nat, es: seq<Entry>): (r: Parsed<JsonValue>)
    requires lc.Valid() && p <= |t|
    ensures r.Some? ==> p < r.value.1 <= |t|
    decreases |t| - p, 1
  {
    if p == |t| then None
    else if t[p] == ',' then EntriesAt(lc, t, SkipSpace(t, p + 1), nesting, es)
    else if t[p] == '}' then Some((Object(es), p + 1))
    else None
  }

  function ArrayAt(lc: Libc, t: string, i: nat, nesting: nat): (r: Parsed<JsonValue>)
    requires lc.Valid() && i < |t|
    ensures r.Some? ==> i < r.value.1 <= |t|
    decreases |t| - i, 2
  {
    var p := SkipSpace(t, i + 1);
    if p < |t| && t[p] == ']' then Some((Array([]), p + 1))
    else ItemsAt(lc, t, p, nesting, [])
  }

  function ItemsAt(lc: Libc, t: string, i: nat, nesting: nat, vs: seq<JsonValue>): (r: Parsed<JsonValue>)
    requires lc.Valid() && i <= |t|
    ensures r.Some? ==> i < r.value.1 <= |t|
    decreases |t| - i, 5
  {
    if i == |t| then None
    else
      var v := ValueAt(lc, t, i, nesting);
      if v.None? || |vs| >= JSON_ARRAY_MAX_CAPACITY then None
      else ItemsNext(lc, t, SkipSpace(t, v.value.1), nesting, vs + [v.value.0])
  }

  // What the loop does behind an item.
  function ItemsNext(lc: Libc, t: string, p: nat, nesting: nat, vs: seq<JsonValue>): (r: Parsed<JsonValue>)
    requires lc.Valid() && p <= |t|
    ensures r.Some? ==> p < r.value.1 <= |t|
    decreases |t| - p, 1
  {
    if p == |t| then None
    else if t[p] == ',' then ItemsAt(lc, t, SkipSpace(t, p + 1), nesting, vs)
    else if t[p] == ']' then Some((Array(vs), p + 1))
    else None
  }

  // BrbJsonParseString: the first value of the text must be an object or an array.
  function ParseString(lc: Libc, t: string): Option<JsonValue>
    requires lc.Valid()
  {
    var p := SkipRootSpace(t, 0);
    if p == |t| || (t[p] != '{' && t[p] != '[') then None
    else
      var r := ValueAt(lc, t, p, 0);
      if r.None? then None else Some(r.value.0)
  }

  /** The copy that BrbJsonGetProcessedString makes of the text between the quotes, decoded in place. */
  method DecodeCopy(inside: string) returns (r: Option<string>)
    requires NoNul(inside)
    ensures r == if Decode(inside).None? then None else Some(CStr(Decode(inside).value))
  {
    var n := |inside|;
    var output := new char[n + 1](k requires 0 <= k <= n => if k == n then NUL else inside[k]);
    assert output[..n] == inside;
    var ok, len := DecodeInPlace(output);
    if !ok {
      return None;
    }
    return Some(CStr(output[..len]));
  }

  // ---- the parser itself, advancing a cursor over the text ----

  class Parser {
    const lc: Libc
    const text: string
    var pos: nat

    ghost predicate Valid()
      reads this
    {
      lc.Valid() && NoNul(text) && pos <= |text|
    }

    constructor (lc: Libc, text: string)
      requires lc.Valid() && NoNul(text)
      ensures Valid() && this.lc == lc && this.text == text && pos == 0
    {
      this.lc, this.text, pos := lc, text, 0;
    }

    // The result of a parsing method that began at `start`, against what the grammar gives from there.
    ghost predicate Yields<A>(start: nat, r: Option<A>, spec: Parsed<A>)
      reads this
    {
      && Valid() && start <= pos
      && (spec.None? ==> r == None)
      && (spec.Some? ==> r == Some(spec.value.0) && pos == spec.value.1)
    }

    // The character under the cursor; NUL at the end.
    function Peek(): char
      requires pos <= |text|
      reads this
    {
      if pos < |text| then text[pos] else NUL
    }

    method SkipWhitespaces()
      requires Valid()
      modifies this
      ensures Valid() && pos == SkipSpace(text, old(pos))
    {
      while IsSpace(Peek())
        invariant Valid() && old(pos) <= pos && SkipSpace(text, pos) == SkipSpace(text, old(pos))
        decreases |text| - pos
      {
        pos := pos + 1;
      }
    }

    /** skip_quotes. */
    method SkipQuotes()
      requires Valid() && pos < |text|
      modifies this
      ensures Valid() && pos == ScanQuote(text, old(pos) + 1)
    {
      pos := pos + 1;
      while Peek() != QUOTE
        invariant Valid() && old(pos) < pos && ScanQuote(text, pos) == ScanQuote(text, old(pos) + 1)
        decreases |text| - pos
      {
        if Peek() == NUL {
          assert pos == |text|;
          return;
        }
        if Peek() == SLASH {
          pos := pos + 1;
          if Peek() == NUL {
            assert pos == |text|;
            return;
          }
        }
        pos := pos + 1;
      }
      pos := pos + 1;
    }

    /** BrbJsonGetProcessedString: copies the text between the quotes and decodes the copy in place. */
    method GetProcessedString() returns (r: Option<string>)
      requires Valid() && pos < |text|
      modifies this
      ensures Yields(old(pos), r, StringAt(text, old(pos)))
    {
      var start := pos;
      SkipQuotes();
      if Peek() == NUL {
        return None;
      }
      var inside := text[start + 1..pos - 1];
      ghost var spec := Unquoted(inside, pos);
      assert StringAt(text, old(pos)) == spec;
      r := DecodeCopy(inside);
    }

    method ParseNumberValue() returns (r: Option<JsonValue>)
      requires Valid()
      modifies this
      ensures Yields(old(pos), r, NumberAt(lc, text, old(pos)))
    {
      assert lc.strtod(text[pos..]).1 <= |text[pos..]|;
      var number, n := lc.strtod(text[pos..]).0, lc.strtod(text[pos..]).1;
      if IsDecimal(text[pos..pos + n]) {
        pos := pos + n;
        r := Some(Number(number));
      } else {
        r := None;
      }
    }

    method ParseStringValue() returns (r: Option<JsonValue>)
      requires Valid() && pos < |text|
      modifies this
      ensures Valid() && old(pos) <= pos
      ensures var spec := StringAt(text, old(pos));
              if spec.None? then r == None else r == Some(String(spec.value.0)) && pos == spec.value.1
    {
      var s := GetProcessedString();
      r := if s.None? then None else Some(String(s.value));
    }

    /** BrbJsonParseValue. */
    method ParseValue(nesting: nat) returns (r: Option<JsonValue>)
      requires Valid()
      modifies this
      ensures Yields(old(pos), r, ValueAt(lc, text, old(pos), nesting))
      decreases |text| - pos, 4
    {
      if nesting > JSON_MAX_NESTING {
        return None;
      }
      SkipWhitespaces();
      assert ValueAt(lc, text, old(pos), nesting)
          == if pos == |text| then None else ValueHere(lc, text, pos, nesting);
      if Peek() == '{' {
        r := ParseObjectValue(nesting + 1);
      } else if Peek() == '[' {
        r := ParseArrayValue(nesting + 1);
      } else if Peek() == QUOTE {
        r := ParseStringValue();
      } else if Peek() == 'f' || Peek() == 't' {
        if TokenAt(text, pos, "true") {
          pos := pos + 4;
          r := Some(Boolean(true));
        } else if TokenAt(text, pos, "false") {
          pos := pos + 5;
          r := Some(Boolean(false));
        } else {
          r := None;
        }
      } else if Peek() == '-' || '0' <= Peek() <= '9' {
        r := ParseNumberValue();
      } else if Peek() == 'n' {
        if TokenAt(text, pos, "null") {
          pos := pos + 4;
          r := Some(Null);
        } else {
          r := None;
        }
      } else {
        r := None;
      }
    }

    // A container's closing bracket, or the failure when something else is there.
    ghost function Closing(v: JsonValue, bracket: char): (r: Parsed<JsonValue>)
      requires pos <= |text|
      reads this
    {
      var p := SkipSpace(text, pos);
      if p < |text| && text[p] == bracket then Some((v, p + 1)) else None
    }

    /** The loop body of BrbJsonParseObjectValue up to the colon. */
    method ParseKey() returns (r: Option<string>)
      requires Valid() && pos < |text|
      modifies this
      ensures Yields(old(pos), r, KeyAt(text, old(pos)))
    {
      var key := GetProcessedString();
      SkipWhitespaces();
      if key.None? || Peek() != ':' {
        return None;
      }
      pos := pos + 1;
      r := key;
    }

    /** The loop body of BrbJsonParseObjectValue up to the value. */
    method ParseEntry(nesting: nat) returns (r: Option<Entry>)
      requires Valid() && pos < |text|
      modifies this
      ensures Yields(old(pos), r, EntryAt(lc, text, old(pos), nesting))
      decreases |text| - pos, 0
    {
      var key := ParseKey();
      if key.None? {
        return None;
      }
      var value := ParseValue(nesting);
      r := if value.None? then None else Some(Entry(key.value, value.value));
    }

    // The end of a turn of both container loops: blanks, and a comma with the blanks behind it.
    method SkipComma() returns (more: bool)
      requires Valid()
      modifies this
      ensures Valid()
      ensures var p := SkipSpace(text, old(pos));
              && (more <==> p < |text| && text[p] == ',')
              && pos == if more then SkipSpace(text, p + 1) else p
    {
      SkipWhitespaces();
      more := Peek() == ',';
      if more {
        pos := pos + 1;
        SkipWhitespaces();
      }
    }

    // Parses an entry and adds it.
    method TakeEntry(nesting: nat, output: JsonObject) returns (ok: bool)
      requires Valid() && pos < |text| && output.Filled()
      modifies this, output
      ensures Valid() && old(pos) <= pos
      ensures !ok ==> EntriesAt(lc, text, old(pos), nesting, old(output.entries)) == None
      ensures ok ==>
                && output.Filled() && old(pos) < pos
                && EntriesAt(lc, text, old(pos), nesting, old(output.entries))
                == EntriesNext(lc, text, SkipSpace(text, pos), nesting, output.entries)
      decreases |text| - pos, 1
    {
      var entry := ParseEntry(nesting);
      if entry.None? {
        return false;
      }
      ok := output.Add(entry.value.name, entry.value.value);
    }

    /** One turn of the loop of BrbJsonParseObjectValue; `more` says that a comma follows. */
    method EntryTurn(nesting: nat, output: JsonObject) returns (ok: bool, more: bool)
      requires Valid() && pos < |text| && output.Filled()
      modifies this, output
      ensures Valid() && old(pos) <= pos
      ensures !ok ==> EntriesAt(lc, text, old(pos), nesting, old(output.entries)) == None
      ensures ok ==> output.Filled() && old(pos) < pos
      ensures ok && more ==>
                EntriesAt(lc, text, old(pos), nesting, old(output.entries))
                == EntriesAt(lc, text, pos, nesting, output.entries)
      ensures ok && !more ==>
                EntriesAt(lc, text, old(pos), nesting, old(output.entries)) == Closing(Object(output.entries), '}')
      decreases |text| - pos, 2
    {
      more := false;
      ok := TakeEntry(nesting, output);
      if ok {
        ghost var behind := EntriesNext(lc, text, SkipSpace(text, pos), nesting, output.entries);
        more := SkipComma();
        assert behind == if more then EntriesAt(lc, text, pos, nesting, output.entries)
                         else Closing(Object(output.entries), '}');
      }
    }

    method ParseObjectValue(nesting: nat) returns (r: Option<JsonValue>)
      requires Valid() && pos < |text|
      modifies this
      ensures Yields(old(pos), r, ObjectAt(lc, text, old(pos), nesting))
      decreases |text| - pos, 3
    {
      var output := new JsonObject();
      ghost var spec, start := ObjectAt(lc, text, pos, nesting), pos;
      pos := pos + 1;
      SkipWhitespaces();
      if Peek() == '}' {
        pos := pos + 1;
        return Some(Object([]));
      }
      while Peek() != NUL
        invariant Valid() && start < pos && output.Filled()
        invariant spec == EntriesAt(lc, text, pos, nesting, output.entries)
        decreases |text| - pos
      {
        var ok, more := EntryTurn(nesting, output);
        if !ok {
          return None;
        }
        if !more {
          break;
        }
      }
      SkipWhitespaces();
      if Peek() != '}' {
        return None;
      }
      output.Resize(|output.entries|);
      pos := pos + 1;
      return Some(Object(output.entries));
    }

    /** One turn of the loop of BrbJsonParseArrayValue. */
    method ItemTurn(nesting: nat, output: JsonArray) returns (ok: bool, more: bool)
      requires Valid() && pos < |text| && output.Filled()
      modifies this, output
      ensures Valid() && old(pos) <= pos
      ensures !ok ==> ItemsAt(lc, text, old(pos), nesting, old(output.items)) == None
      ensures ok ==> output.Filled() && (more ==> old(pos) < pos)
      ensures ok && more ==>
                ItemsAt(lc, text, old(pos), nesting, old(output.items)) == ItemsAt(lc, text, pos, nesting, output.items)
      ensures ok && !more ==>
                ItemsAt(lc, text, old(pos), nesting, old(output.items)) == Closing(Array(output.items), ']')
      decreases |text| - pos, 5
    {
      ok, more := false, false;
      var value := ParseValue(nesting);
      if value.None? {
        return;
      }
      ok := output.Add(value.value);
      if !ok {
        return;
      }
      assert ItemsAt(lc, text, old(pos), nesting, old(output.items))
          == ItemsNext(lc, text, SkipSpace(text, pos), nesting, output.items);
      more := SkipComma();
    }

    method ParseArrayValue(nesting: nat) returns (r: Option<JsonValue>)
      requires Valid() && pos < |text|
      modifies this
      ensures Yields(old(pos), r, ArrayAt(lc, text, old(pos), nesting))
      decreases |text| - pos, 2
    {
      var output := new JsonArray();
      ghost var spec, start := ArrayAt(lc, text, pos, nesting), pos;
      pos := pos + 1;
      SkipWhitespaces();
      if Peek() == ']' {
        pos := pos + 1;
        return Some(Array([]));
      }
      while Peek() != NUL
        invariant Valid() && start < pos && output.Filled()
        invariant spec == ItemsAt(lc, text, pos, nesting, output.items)
        decreases |text| - pos
      {
        var ok, more := ItemTurn(nesting, output);
        if !ok {
          return None;
        }
        if !more {
          break;
        }
      }
      SkipWhitespaces();
      if Peek() != ']' {
        return None;
      }
      output.Resize(|output.items|);
      pos := pos + 1;
      return Some(Array(output.items));
    }
  }

  /** BrbJsonParseString. */
  method Parse(lc: Libc, text: string) returns (r: Option<JsonValue>)
    requires lc.Valid() && NoNul(text)
    ensures r == ParseString(lc, text)
  {
    var parser := new Parser(lc, text);
    while IsSpace(parser.Peek()) && parser.Peek() != FF
      invariant parser.Valid() && parser.lc == lc && parser.text == text && fresh(parser)
      invariant SkipRootSpace(text, parser.pos) == SkipRootSpace(text, 0)
      decreases |text| - parser.pos
    {
      parser.pos := parser.pos + 1;
    }
    if parser.Peek() != '{' && parser.Peek() != '[' {
      return None;
    }
    r := parser.ParseValue(0);
  }
}
