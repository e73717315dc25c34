/** JSON trees and their printers: libbrb_json.c, api_value.c, api_object.c and api_array.c. */
module JsonPrinter {
  import opened JsonText
  import opened MemBuffers

  datatype JsonValue =
    | Null
    | Boolean(boolean: bool)
    | Number(number: real)
    | String(text: string)
    | Object(entries: seq<Entry>)
    | Array(items: seq<JsonValue>)

  datatype Entry = Entry(name: string, value: JsonValue)

  /**
   The C library as the code uses it: strtod reads a number from the front of a string and says how
   many characters it used; fmt2f is printf's "%.2f".
   */
  datatype Libc = Libc(strtod: string -> (real, nat), fmt2f: real -> string) {
    ghost predicate Valid() { forall s :: strtod(s).1 <= |s| }
  }

  function Digits(n: nat): (r: string)
    ensures |r| > 0 && forall i :: 0 <= i < |r| ==> '0' <= r[i] <= '9'
  {
    (if n < 10 then [] else Digits(n / 10)) + [(n % 10 + '0' as nat) as char]
  }

  // printf's "%ld".
  function Decimal(n: int): (r: string)
    ensures |r| > 0 && (r[0] == '-' || '0' <= r[0] <= '9')
  {
    if n < 0 then "-" + Digits(-n) else Digits(n)
  }

  function Print(lc: Libc, v: JsonValue): string
    decreases v, 0
  {
    match v
    case Null => "null"
    case Boolean(b) => if b then "true" else "false"
    case Number(x) => if x == x.Floor as real then Decimal(x.Floor) else lc.fmt2f(x)
    case String(s) => [QUOTE] + Escape(s) + [QUOTE]
    case Object(es) => "{" + PrintEntries(lc, es, 0)
    case Array(vs) => "[" + PrintItems(lc, vs, 0)
  }

  function PrintKey(name: string): string {
    if name == [] then [] else [QUOTE] + name + [QUOTE] + ": "
  }

  // What the object printer still appends when it is about to print entry i.
  function PrintEntries(lc: Libc, es: seq<Entry>, i: nat): string
    requires i <= |es|
    decreases es, |es| - i
  {
    if i == |es| then "}"
    else Comma(i) + PrintKey(es[i].name) + Print(lc, es[i].value) + PrintEntries(lc, es, i + 1)
  }

  function PrintItems(lc: Libc, vs: seq<JsonValue>, i: nat): string
    requires i <= |vs|
    decreases vs, |vs| - i
  {
    if i == |vs| then "]"
    else Comma(i) + Print(lc, vs[i]) + PrintItems(lc, vs, i + 1)
  }

  /**
   BrbJsonMemBufferAddSlashed. A negative size means a C string; with a limit, what is appended is
   the escape of the longest prefix that fits, so it never ends in half an escape.
   */
  method AddSlashed(mb: MemBuffer<char>, buf: string, bufSize: int, limit: int) returns (ret: int, ghost k: nat)
    requires bufSize <= |buf|
    modifies mb
    ensures
      var src := if bufSize < 0 then CStr(buf) else buf[..bufSize];
      && k <= |src| && mb.data == old(mb.data) + Escape(src[..k]) && ret == |Escape(src[..k])|
      && (limit > 0 ==> ret <= limit)
      && (k < |src| ==> limit > 0 && |Escape(src[..k + 1])| > limit)
  {
    var src := if bufSize < 0 then CStr(buf) else buf[..bufSize];
    k, ret := 0, 0;
    if |src| == 0 {
      return;
    }
    var lmt := if limit <= 0 then |src| * 2 + 1 else limit;
    for i := 0 to |src|
      invariant k == i && ret == |Escape(src[..i])| && ret <= lmt
      invariant mb.data == old(mb.data) + Escape(src[..i])
    {
      var piece := EscapeChar(src[i]);
      EscapeOfPrefix(src, i);
      if ret + |piece| > lmt {
        return;
      }
      mb.Add(piece);
      ret := ret + |piece|;
      k := k + 1;
      Associates(old(mb.data), Escape(src[..i]), piece);
    }
  }

  lemma Regroup(a: string, b: string, c: string, d: string)
    ensures a + b + c + d == a + (b + c + d)
  {}

  // The string case of the value printer.
  method PrintString(mb: MemBuffer<char>, s: string)
    requires NoNul(s)
    modifies mb
    ensures mb.data == old(mb.data) + ([QUOTE] + Escape(s) + [QUOTE])
  {
    mb.Add([QUOTE]);
    var _, k := AddSlashed(mb, s, -1, -1);
    assert CStr(s) == s && k == |s| && s[..k] == s;
    ghost var e := Escape(s);
    assert mb.data == old(mb.data) + [QUOTE] + e;
    mb.Add([QUOTE]);
    Regroup(old(mb.data), [QUOTE], e, [QUOTE]);
  }

  /** BrbJsonValuePrintMemBuffer; an empty key prints nothing. */
  method PrintValue(lc: Libc, mb: MemBuffer<char>, key: string, v: JsonValue)
    requires NoNulValue(v)
    modifies mb
    ensures mb.data == old(mb.data) + PrintKey(key) + Print(lc, v)
    decreases v, 1
  {
    if key != "" {
      mb.Add([QUOTE] + key + [QUOTE] + ": ");
    }
    assert mb.data == old(mb.data) + PrintKey(key);
    match v
    case Null => mb.Add("null");
    case Boolean(b) => mb.Add(if b then "true" else "false");
    case Number(x) =>
      if x == x.Floor as real {
        mb.Add(Decimal(x.Floor));
      } else {
        mb.Add(lc.fmt2f(x));
      }
    case String(s) => PrintString(mb, s);
    case Object(es) => PrintObject(lc, mb, es);
    case Array(vs) => PrintArray(lc, mb, vs);
  }

  // The strings of a tree are C strings.
  ghost predicate NoNulValue(v: JsonValue) {
    match v
    case String(s) => NoNul(s)
    case Object(es) => forall i :: 0 <= i < |es| ==> NoNul(es[i].name) && NoNulValue(es[i].value)
    case Array(vs) => forall i :: 0 <= i < |vs| ==> NoNulValue(vs[i])
    case _ => true
  }

  lemma Opened(a: string, b: string, c: string)
    ensures a + b + c == a + (b + c)
  {}

  function Comma(i: nat): string { if i > 0 then "," else "" }

  lemma EntryPrinted(lc: Libc, es: seq<Entry>, i: nat, before: string)
    requires i < |es|
    ensures before + Comma(i) + (PrintKey(es[i].name) + Print(lc, es[i].value)) + PrintEntries(lc, es, i + 1)
         == before + PrintEntries(lc, es, i)
  {
    var a, b, c, d := Comma(i), PrintKey(es[i].name), Print(lc, es[i].value), PrintEntries(lc, es, i + 1);
    Opened(before, a, b + c);
    Opened(a, b, c);
    Opened(before, a + b + c, d);
    assert PrintEntries(lc, es, i) == a + b + c + d;
  }

  lemma ItemPrinted(lc: Libc, vs: seq<JsonValue>, i: nat, before: string)
    requires i < |vs|
    ensures before + Comma(i) + Print(lc, vs[i]) + PrintItems(lc, vs, i + 1) == before + PrintItems(lc, vs, i)
  {
    var a, c, d := Comma(i), Print(lc, vs[i]), PrintItems(lc, vs, i + 1);
    Opened(before, a, c);
    Opened(before, a + c, d);
    assert PrintItems(lc, vs, i) == a + c + d;
  }

  method PrintObject(lc: Libc, mb: MemBuffer<char>, es: seq<Entry>)
    requires forall i :: 0 <= i < |es| ==> NoNulValue(es[i].value)
    modifies mb
    ensures mb.data == old(mb.data) + ("{" + PrintEntries(lc, es, 0))
    decreases es, 0
  {
    ghost var all := mb.data + ("{" + PrintEntries(lc, es, 0));
    var hasComma := false;
    mb.Add("{");
    var i := 0;
    Opened(old(mb.data), "{", PrintEntries(lc, es, 0));
    while i < |es|
      invariant i <= |es| && hasComma == (i > 0)
      invariant mb.data + PrintEntries(lc, es, i) == all
    {
      ghost var before := mb.data;
      if hasComma {
        mb.Add(",");
      }
      hasComma := true;
      assert mb.data == before + Comma(i);
      PrintValue(lc, mb, es[i].name, es[i].value);
      Opened(before + Comma(i), PrintKey(es[i].name), Print(lc, es[i].value));
      EntryPrinted(lc, es, i, before);
      i := i + 1;
    }
    mb.Add("}");
  }

  method PrintArray(lc: Libc, mb: MemBuffer<char>, vs: seq<JsonValue>)
    requires forall i :: 0 <= i < |vs| ==> NoNulValue(vs[i])
    modifies mb
    ensures mb.data == old(mb.data) + ("[" + PrintItems(lc, vs, 0))
    decreases vs, 0
  {
    ghost var all := mb.data + ("[" + PrintItems(lc, vs, 0));
    var hasComma := false;
    mb.Add("[");
    var i := 0;
    Opened(old(mb.data), "[", PrintItems(lc, vs, 0));
    while i < |vs|
      invariant i <= |vs| && hasComma == (i > 0)
      invariant mb.data + PrintItems(lc, vs, i) == all
    {
      ghost var before := mb.data;
      if hasComma {
        mb.Add(",");
      }
      hasComma := true;
      assert mb.data == before + Comma(i);
      PrintValue(lc, mb, "", vs[i]);
      assert before + Comma(i) + PrintKey("") == before + Comma(i);
      ItemPrinted(lc, vs, i, before);
      i := i + 1;
    }
    mb.Add("]");
  }
}
