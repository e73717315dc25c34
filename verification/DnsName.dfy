/** Domain names in DNS messages: rfc1035NameUnpack and rfc1035NamePack of comm_dns_resolver.c. */
module DnsNames {
  import opened Options

  type byte = x: int | 0 <= x < 256
  type Label = seq<byte>

  const MAX_LABEL: nat := 63
  const MAX_HOSTNAME: nat := 256
  const MAX_DEPTH: nat := 64
  const DOT: byte := 46

  // What unpacking a name gives. bare: the last pointer led straight to a root label.
  datatype NameRead = NameRead(labels: seq<Label>, jumps: nat, end: nat, bare: bool)

  // The target of the pointer at off.
  function Pointer(m: seq<byte>, off: nat): nat
    requires off + 2 <= |m|
  {
    var hi: int, lo: int := m[off], m[off + 1];
    (hi * 256 + lo) % 0x4000
  }

  // The octets a list of labels needs, without the root label; also the length of its dotted form.
  function Size(labels: seq<Label>): nat {
    if labels == [] then 0 else |labels[0]| + 1 + Size(labels[1..])
  }

  function Dotted(labels: seq<Label>): (r: seq<byte>)
    ensures |r| == Size(labels)
  {
    if labels == [] then [] else labels[0] + [DOT] + Dotted(labels[1..])
  }

  // rfc1035NameUnpack with `room` octets left in the name buffer.
  function NameAt(m: seq<byte>, off: nat, room: nat, depth: nat): (r: Option<NameRead>)
    requires room > 0 && depth <= MAX_DEPTH + 1
    decreases 65 - depth, |m| - off
  {
    if off >= |m| then None
    else if m[off] > 191 then
      if depth > MAX_DEPTH || off + 2 > |m| || Pointer(m, off) >= |m| then None
      else Jumped(NameAt(m, Pointer(m, off), room, depth + 1), off + 2)
    else if m[off] > MAX_LABEL then None
    else if m[off] == 0 then Some(NameRead([], 0, off + 1, false))
    else if m[off] > room - 1 || off + 1 + m[off] >= |m| then None
    else
      var next, first := off + 1 + m[off], m[off + 1..off + 1 + m[off]];
      if m[off] + 1 == room then Some(NameRead([first], 0, next, false))
      else Behind([first], NameAt(m, next, room - m[off] - 1, depth))
  }

  // The result of the call for the target of a pointer, as the result of the call that met the pointer.
  function Jumped(r: Option<NameRead>, end: nat): Option<NameRead> {
    if r.None? then None
    else Some(NameRead(r.value.labels, r.value.jumps + 1, end, r.value.bare || r.value.labels == []))
  }

  // The labels read so far in front of those still to be read.
  function Behind(done: seq<Label>, r: Option<NameRead>): Option<NameRead> {
    if r.None? then None else Some(r.value.(labels := done + r.value.labels))
  }

  // ---- section 4.1.4 of RFC 1035 as a relation: from `off`, over labels and pointers, to `to` ----

  predicate Path(m: seq<byte>, off: nat, labels: seq<Label>, jumps: nat, to: nat)
    decreases |labels| + jumps
  {
    if labels == [] && jumps == 0 then off == to
    else if off >= |m| then false
    else if m[off] > 191 then
      jumps > 0 && off + 2 <= |m| && Path(m, Pointer(m, off), labels, jumps - 1, to)
    else if 0 < m[off] <= MAX_LABEL then
      && labels != [] && off + 1 + m[off] <= |m| && labels[0] == m[off + 1..off + 1 + m[off]]
      && Path(m, off + 1 + m[off], labels[1..], jumps, to)
    else false
  }

  // The labels can be unpacked into `room` octets: they end at a root label or fill the room exactly.
  predicate Readable(m: seq<byte>, off: nat, room: nat, depth: nat, labels: seq<Label>, jumps: nat, to: nat) {
    && Path(m, off, labels, jumps, to) && to < |m|
    && depth + jumps <= MAX_DEPTH + 1
    && (Size(labels) == room || (Size(labels) < room && m[to] == 0))
  }

  /**
   A pointer as section 4.1.4 of RFC 1035 writes it, two one bits and the target in 14 bits in network
   order, is read as the name at the target, with the offset behind the two octets.
   */
  lemma PointerRead(m: seq<byte>, off: nat, target: nat, room: nat, depth: nat)
    requires off + 2 <= |m| && target < |m| && target < 0x4000 && room > 0 && depth <= MAX_DEPTH
    requires m[off] == 0xC0 + target / 256 && m[off + 1] == target % 256
    ensures var r, at := NameAt(m, off, room, depth), NameAt(m, target, room, depth + 1);
            && (r.Some? <==> at.Some?)
            && (r.Some? ==> r.value.labels == at.value.labels && r.value.jumps == at.value.jumps + 1
                            && r.value.end == off + 2)
  {
    TargetRead(m[off], m[off + 1], target);
  }

  lemma TargetRead(hi: int, lo: int, target: nat)
    requires target < 0x4000 && hi == 0xC0 + target / 256 && lo == target % 256
    ensures (hi * 256 + lo) % 0x4000 == target
  {
    assert hi * 256 + lo == 3 * 0x4000 + target;
  }

  lemma {:induction false} PathBehindLabel(m: seq<byte>, off: nat, labels: seq<Label>, jumps: nat, to: nat)
    requires off < |m| && 0 < m[off] <= MAX_LABEL && off + 1 + m[off] <= |m|
    requires Path(m, off + 1 + m[off], labels, jumps, to)
    ensures Path(m, off, [m[off + 1..off + 1 + m[off]]] + labels, jumps, to)
    ensures Size([m[off + 1..off + 1 + m[off]]] + labels) == m[off] + 1 + Size(labels)
  {
    assert ([m[off + 1..off + 1 + m[off]]] + labels)[1..] == labels;
  }

  // What is unpacked is what the message says.
  lemma {:induction false} NameIsReadable(m: seq<byte>, off: nat, room: nat, depth: nat) returns (to: nat)
    requires room > 0 && depth <= MAX_DEPTH + 1 && NameAt(m, off, room, depth).Some?
    ensures var r := NameAt(m, off, room, depth).value;
            && Readable(m, off, room, depth, r.labels, r.jumps, to)
            && (r.jumps == 0 ==> r.end == if Size(r.labels) == room then to else to + 1)
    decreases 65 - depth, |m| - off
  {
    if m[off] > 191 {
      to := NameIsReadable(m, Pointer(m, off), room, depth + 1);
    } else if m[off] == 0 {
      to := off;
    } else {
      var next := off + 1 + m[off];
      if m[off] + 1 == room {
        to := next;
        PathBehindLabel(m, off, [], 0, to);
      } else {
        to := NameIsReadable(m, next, room - m[off] - 1, depth);
        var r := NameAt(m, next, room - m[off] - 1, depth).value;
        PathBehindLabel(m, off, r.labels, r.jumps, to);
      }
    }
  }

  // And whatever the message says and fits is unpacked.
  lemma {:induction false} ReadableIsName(m: seq<byte>, off: nat, room: nat, depth: nat, labels: seq<Label>,
                                          jumps: nat, to: nat)
    requires room > 0 && depth <= MAX_DEPTH + 1 && Readable(m, off, room, depth, labels, jumps, to)
    ensures NameAt(m, off, room, depth).Some? && NameAt(m, off, room, depth).value.labels == labels
    ensures Size(labels) < room ==> NameAt(m, off, room, depth).value.jumps == jumps
    decreases |labels| + jumps
  {
    if labels == [] && jumps == 0 {
    } else if m[off] > 191 {
      PathStart(m, Pointer(m, off), labels, jumps - 1, to);
      ReadableIsName(m, Pointer(m, off), room, depth + 1, labels, jumps - 1, to);
    } else {
      var next := off + 1 + m[off];
      PathStart(m, next, labels[1..], jumps, to);
      assert labels == [labels[0]] + labels[1..];
      if m[off] + 1 < room {
        ReadableIsName(m, next, room - m[off] - 1, depth, labels[1..], jumps, to);
      } else {
        NoSize(labels[1..]);
      }
    }
  }

  lemma {:induction false} PathStart(m: seq<byte>, off: nat, labels: seq<Label>, jumps: nat, to: nat)
    requires Path(m, off, labels, jumps, to) && to < |m|
    ensures off < |m|
  {}

  lemma {:induction false} NoSize(labels: seq<Label>)
    ensures Size(labels) == 0 <==> labels == []
  {}

  /** Unpacking succeeds exactly when pointers and labels lead to a root label, or fill the room, within 65 jumps. */
  lemma {:induction false} NameReadIff(m: seq<byte>, off: nat, room: nat, depth: nat)
    requires room > 0 && depth <= MAX_DEPTH + 1
    ensures NameAt(m, off, room, depth).Some?
            <==> exists labels, jumps, to :: Readable(m, off, room, depth, labels, jumps, to)
  {
    if NameAt(m, off, room, depth).Some? {
      var to := NameIsReadable(m, off, room, depth);
    }
    if labels, jumps, to :| Readable(m, off, room, depth, labels, jumps, to) {
      ReadableIsName(m, off, room, depth, labels, jumps, to);
    }
  }

  // With pointers, the offset ends up behind the first of them, which follows k labels.
  lemma {:induction false} EndsBehindPointer(m: seq<byte>, off: nat, room: nat, depth: nat) returns (k: nat, p: nat)
    requires room > 0 && depth <= MAX_DEPTH + 1 && NameAt(m, off, room, depth).Some?
    requires NameAt(m, off, room, depth).value.jumps > 0
    ensures var r := NameAt(m, off, room, depth).value;
            k <= |r.labels| && Path(m, off, r.labels[..k], 0, p) && p + 2 <= |m| && m[p] > 191 && r.end == p + 2
    decreases |m| - off
  {
    if m[off] > 191 {
      k, p := 0, off;
    } else {
      var next := off + 1 + m[off];
      k, p := EndsBehindPointer(m, next, room - m[off] - 1, depth);
      var rest, all := NameAt(m, next, room - m[off] - 1, depth).value.labels, NameAt(m, off, room, depth).value.labels;
      PathBehindLabel(m, off, rest[..k], 0, p);
      assert all[..k + 1] == [all[0]] + rest[..k];
      k := k + 1;
    }
  }

  // The jumps of one unpacking are bounded, whatever the message.
  lemma {:induction false} JumpsBounded(m: seq<byte>, off: nat, room: nat)
    requires room > 0 && NameAt(m, off, room, 0).Some?
    ensures NameAt(m, off, room, 0).value.jumps <= 65
  {
    var to := NameIsReadable(m, off, room, 0);
  }

  // ---- the unpacker ----

  // What is stored for a name: the dotted labels with a NUL for the last dot, or behind it when the
  // last call stored nothing.
  function Stored(r: NameRead): (s: seq<byte>)
    ensures |s| > 0 && s[|s| - 1] == 0
    ensures |s| == if r.labels == [] || r.bare then Size(r.labels) + 1 else Size(r.labels)
  {
    NoSize(r.labels);
    var d := Dotted(r.labels);
    if r.labels == [] || r.bare then d + [0] else d[..|d| - 1] + [0]
  }

  lemma Associates(a: seq<byte>, b: seq<byte>, c: seq<byte>)
    ensures a + b + c == a + (b + c)
  {}

  lemma {:induction false} DottedConcat(a: seq<Label>, b: seq<Label>)
    ensures Dotted(a + b) == Dotted(a) + Dotted(b)
  {
    if a == [] {
      assert a + b == b;
    } else {
      DottedConcat(a[1..], b);
      assert (a + b)[1..] == a[1..] + b && (a + b)[0] == a[0];
      Associates(a[0] + [DOT], Dotted(a[1..]), Dotted(b));
    }
  }

  // A name never needs more than the room it was read for.
  lemma {:induction false} StoredFits(m: seq<byte>, off: nat, room: nat, depth: nat)
    requires room > 0 && depth <= MAX_DEPTH + 1 && NameAt(m, off, room, depth).Some?
    ensures |Stored(NameAt(m, off, room, depth).value)| <= room
  {
    BareFits(m, off, room, depth);
    NoSize(NameAt(m, off, room, depth).value.labels);
  }

  lemma {:induction false} BareFits(m: seq<byte>, off: nat, room: nat, depth: nat)
    requires room > 0 && depth <= MAX_DEPTH + 1 && NameAt(m, off, room, depth).Some?
    ensures var r := NameAt(m, off, room, depth).value; Size(r.labels) <= room && (r.bare ==> Size(r.labels) < room)
    decreases 65 - depth, |m| - off
  {
    if m[off] > 191 {
      BareFits(m, Pointer(m, off), room, depth + 1);
    } else if m[off] > 0 && m[off] + 1 < room {
      var rest := NameAt(m, off + 1 + m[off], room - m[off] - 1, depth).value;
      BareFits(m, off + 1 + m[off], room - m[off] - 1, depth);
      assert ([m[off + 1..off + 1 + m[off]]] + rest.labels)[1..] == rest.labels;
    }
  }

  // The name as the call for a pointer's target stores it, behind the labels stored before the pointer.
  lemma StoredBehind(done: seq<Label>, r: NameRead)
    requires r.labels == [] ==> r.bare
    ensures Stored(Behind(done, Some(r)).value) == Dotted(done) + Stored(r)
    ensures |Stored(Behind(done, Some(r)).value)| == Size(done) + |Stored(r)|
  {
    DottedConcat(done, r.labels);
    NoSize(r.labels);
    NoSize(done + r.labels);
    EndBehind(Dotted(done), Dotted(r.labels));
  }

  lemma EndBehind(a: seq<byte>, d: seq<byte>)
    ensures a + d + [0] == a + (d + [0])
    ensures d != [] ==> (a + d)[..|a + d| - 1] + [0] == a + (d[..|d| - 1] + [0])
  {
    if d != [] {
      DropLast(a, d);
      Associates(a, d[..|d| - 1], [0]);
    }
  }

  lemma DropLast(a: seq<byte>, b: seq<byte>)
    requires b != []
    ensures (a + b)[..|a + b| - 1] == a + b[..|b| - 1]
  {}

  lemma StoredJumped(r: NameRead, end: nat)
    ensures Stored(Jumped(Some(r), end).value) == Stored(r)
  {
    assert r.labels == [] ==> Dotted(r.labels) + [0] == [0];
  }

  lemma BehindNothing(r: Option<NameRead>)
    ensures Behind([], r) == r
  {
    if r.Some? { assert [] + r.value.labels == r.value.labels; }
  }

  lemma BehindTwice(a: seq<Label>, b: seq<Label>, r: Option<NameRead>)
    ensures Behind(a, Behind(b, r)) == Behind(a + b, r)
  {
    if r.Some? { assert a + (b + r.value.labels) == a + b + r.value.labels; }
  }

  lemma DottedMore(done: seq<Label>, next: Label)
    ensures Dotted(done + [next]) == Dotted(done) + (next + [DOT])
    ensures Size(done + [next]) == Size(done) + |next| + 1
  {
    DottedConcat(done, [next]);
    assert Dotted([next]) == next + [DOT];
    assert |Dotted(done + [next])| == |Dotted(done)| + |next| + 1;
  }

  // What the loop gives from here on, with the labels of `done` read and room for `room` more octets.
  function Rest(m: seq<byte>, off: nat, room: nat, depth: nat, done: seq<Label>): Option<NameRead>
    requires depth <= MAX_DEPTH + 1
  {
    if room > 0 then Behind(done, NameAt(m, off, room, depth)) else Some(NameRead(done, 0, off, false))
  }

  // What is still to be read when a label was taken.
  lemma LabelTaken(m: seq<byte>, off: nat, next: nat, room: nat, depth: nat, done: seq<Label>)
    requires depth <= MAX_DEPTH + 1 && off + 1 <= next < |m| && 0 < m[off] <= MAX_LABEL && m[off] + 1 <= room
    requires next == off + 1 + m[off]
    ensures Rest(m, off, room, depth, done) == Rest(m, next, room - m[off] - 1, depth, done + [m[off + 1..next]])
  {
    if m[off] + 1 < room {
      BehindTwice(done, [m[off + 1..next]], NameAt(m, next, room - m[off] - 1, depth));
    }
  }

  // s with the octets from i on replaced by t.
  function Overwritten(s: seq<byte>, i: nat, t: seq<byte>): (r: seq<byte>)
    requires i + |t| <= |s|
    ensures |r| == |s|
  {
    s[..i] + t + s[i + |t|..]
  }

  lemma OverwrittenTwice(s: seq<byte>, i: nat, t: seq<byte>, u: seq<byte>)
    requires i + |t| + |u| <= |s|
    ensures Overwritten(Overwritten(s, i, t), i + |t|, u) == Overwritten(s, i, t + u)
  {}

  // memcpy.
  method CopyOctets(m: seq<byte>, off: nat, len: nat, buf: array<byte>, at: nat)
    requires off + len <= |m| && at + len <= buf.Length
    modifies buf
    ensures buf[..] == Overwritten(old(buf[..]), at, m[off..off + len])
  {
    for k := 0 to len
      invariant forall i :: at <= i < at + k ==> buf[i] == m[off + i - at]
      invariant forall i :: 0 <= i < buf.Length && !(at <= i < at + k) ==> buf[i] == old(buf[i])
    {
      buf[at + k] := m[off + k];
    }
  }

  // A label and the dot behind it.
  method CopyLabel(m: seq<byte>, off: nat, len: nat, name: array<byte>, at: nat)
    requires off + len <= |m| && at + len + 1 <= name.Length
    modifies name
    ensures name[..] == Overwritten(old(name[..]), at, m[off..off + len] + [DOT])
  {
    ghost var was := name[..];
    CopyOctets(m, off, len, name, at);
    name[at + len] := DOT;
    OverwrittenTwice(was, at, m[off..off + len], [DOT]);
  }

  // Nothing outside the ns octets of the name changes.
  predicate Kept(s: seq<byte>, was: seq<byte>, i: nat, ns: nat) {
    |s| == |was| && i + ns <= |s| && s[..i] == was[..i] && s[i + ns..] == was[i + ns..]
  }

  lemma KeptOutside(s: seq<byte>, i: nat, t: seq<byte>, ns: nat)
    requires |t| <= ns && i + ns <= |s|
    ensures Kept(Overwritten(s, i, t), s, i, ns)
  {}

  lemma KeptTwice(s: seq<byte>, was: seq<byte>, i: nat, t: seq<byte>, ns: nat)
    requires |t| <= ns && i + ns <= |was| && Kept(s, Overwritten(was, i, t), i + |t|, ns - |t|)
    ensures Kept(s, was, i, ns)
  {
    assert s[..i] == s[..i + |t|][..i] == was[..i];
    assert Overwritten(was, i, t)[i + ns..] == was[i + ns..];
  }

  /** The pointer branch of rfc1035NameUnpack. */
  method FollowPointer(m: seq<byte>, off0: nat, name: array<byte>, base: nat, ns: nat, depth: nat)
    returns (ok: bool, off: nat)
    requires ns > 0 && base + ns <= name.Length && depth <= MAX_DEPTH + 1 && off0 < |m| && m[off0] > 191
    modifies name
    ensures ok <==> NameAt(m, off0, ns, depth).Some?
    ensures ok ==>
              && off == NameAt(m, off0, ns, depth).value.end
              && |Stored(NameAt(m, off0, ns, depth).value)| <= ns
              && name[..] == Overwritten(old(name[..]), base, Stored(NameAt(m, off0, ns, depth).value))
    ensures Kept(name[..], old(name[..]), base, ns)
    decreases 65 - depth, 0
  {
    ok, off := false, off0;
    if depth > MAX_DEPTH || off + 2 > |m| {
      return;
    }
    var ptr := Pointer(m, off);
    off := off + 2;
    if ptr >= |m| {
      return;
    }
    var end;
    ok, end := NameUnpack(m, ptr, name, base, ns, depth + 1);
    if ok {
      StoredJumped(NameAt(m, ptr, ns, depth + 1).value, off);
    }
  }

  // A pointer behind the labels of `done`.
  method FollowBehind(m: seq<byte>, off0: nat, name: array<byte>, base: nat, no: nat, ns: nat, depth: nat,
                      ghost done: seq<Label>, ghost was: seq<byte>)
    returns (ok: bool, off: nat)
    requires no < ns && base + ns <= name.Length && depth <= MAX_DEPTH + 1 && off0 < |m| && m[off0] > 191
    requires no == Size(done) && |was| == name.Length && name[..] == Overwritten(was, base, Dotted(done))
    modifies name
    ensures ok <==> NameAt(m, off0, ns - no, depth).Some?
    ensures ok ==>
              var r := Behind(done, NameAt(m, off0, ns - no, depth)).value;
              off == r.end && |Stored(r)| <= ns && name[..] == Overwritten(was, base, Stored(r))
    ensures Kept(name[..], was, base, ns)
    decreases 65 - depth, 1
  {
    ok, off := FollowPointer(m, off0, name, base + no, ns - no, depth);
    KeptTwice(name[..], was, base, Dotted(done), ns);
    if ok {
      ghost var r := NameAt(m, off0, ns - no, depth).value;
      StoredBehind(done, r);
      OverwrittenTwice(was, base, Dotted(done), Stored(r));
    }
  }

  lemma LabelStored(was: seq<byte>, now: seq<byte>, base: nat, done: seq<Label>, first: Label, ns: nat)
    requires Size(done) + |first| + 1 <= ns && base + ns <= |was|
    requires now == Overwritten(Overwritten(was, base, Dotted(done)), base + Size(done), first + [DOT])
    ensures Size(done + [first]) == Size(done) + |first| + 1
    ensures now == Overwritten(was, base, Dotted(done + [first])) && Kept(now, was, base, ns)
  {
    DottedMore(done, first);
    OverwrittenTwice(was, base, Dotted(done), first + [DOT]);
    KeptOutside(was, base, Dotted(done + [first]), ns);
  }

  // Stores the label at off behind those of `done`, which become `more`.
  method TakeLabel(m: seq<byte>, off: nat, len: nat, name: array<byte>, base: nat, no: nat, ns: nat,
                   ghost depth: nat, ghost done: seq<Label>, ghost was: seq<byte>)
    returns (ghost more: seq<Label>)
    requires off + 1 + len < |m| && m[off] == len && 0 < len <= MAX_LABEL
    requires no + len + 1 <= ns && base + ns <= name.Length && depth <= MAX_DEPTH + 1
    requires no == Size(done) && |was| == name.Length && name[..] == Overwritten(was, base, Dotted(done))
    modifies name
    ensures Rest(m, off, ns - no, depth, done) == Rest(m, off + 1 + len, ns - (no + len + 1), depth, more)
    ensures Size(more) == no + len + 1 && name[..] == Overwritten(was, base, Dotted(more))
    ensures Kept(name[..], was, base, ns)
  {
    LabelTaken(m, off, off + 1 + len, ns - no, depth, done);
    ghost var first := m[off + 1..off + 1 + len];
    more := done + [first];
    CopyLabel(m, off + 1, len, name, base + no);
    LabelStored(was, name[..], base, done, first, ns);
  }

  // The NUL at the end of the labels.
  method StoreEnd(name: array<byte>, base: nat, no: nat, ns: nat, ghost r: NameRead, ghost was: seq<byte>)
    requires no <= ns && 0 < ns && base + ns <= name.Length && !r.bare && no == Size(r.labels)
    requires |was| == name.Length && name[..] == Overwritten(was, base, Dotted(r.labels))
    modifies name
    ensures |Stored(r)| <= ns && name[..] == Overwritten(was, base, Stored(r)) && Kept(name[..], was, base, ns)
  {
    NoSize(r.labels);
    name[base + (if no > 0 then no - 1 else 0)] := 0;
    KeptOutside(was, base, Stored(r), ns);
  }

  lemma RootReached(m: seq<byte>, off: nat, room: nat, depth: nat, done: seq<Label>)
    requires room > 0 && depth <= MAX_DEPTH + 1 && off < |m| && m[off] == 0
    ensures Behind(done, NameAt(m, off, room, depth)) == Some(NameRead(done, 0, off + 1, false))
  {
    var none: seq<Label> := [];
    assert done + none == done;
  }

  /**
   rfc1035NameUnpack: `name` starts at `base` and has ns octets. The pointer branch reads its second
   octet before the length check; here the check comes first, with the same result.
   */
  method NameUnpack(m: seq<byte>, off0: nat, name: array<byte>, base: nat, ns: nat, depth: nat)
    returns (ok: bool, off: nat)
    requires ns > 0 && base + ns <= name.Length && depth <= MAX_DEPTH + 1
    modifies name
    ensures ok <==> NameAt(m, off0, ns, depth).Some?
    ensures ok ==>
              var r := NameAt(m, off0, ns, depth).value;
              off == r.end && |Stored(r)| <= ns && name[..] == Overwritten(old(name[..]), base, Stored(r))
    ensures Kept(name[..], old(name[..]), base, ns)
    decreases 65 - depth, 2
  {
    var no: nat := 0;
    off := off0;
    ghost var done: seq<Label>, was, spec := [], name[..], NameAt(m, off0, ns, depth);
    BehindNothing(spec);
    while no < ns
      invariant no <= ns && no == Size(done) && |was| == name.Length
      invariant spec == Rest(m, off, ns - no, depth, done)
      invariant name[..] == Overwritten(was, base, Dotted(done)) && Kept(name[..], was, base, ns)
      decreases ns - no
    {
      if off >= |m| {
        return false, off;
      }
      var c := m[off];
      if c > 191 {
        ok, off := FollowBehind(m, off, name, base, no, ns, depth, done, was);
        return;
      } else if c > MAX_LABEL {
        return false, off;
      } else {
        if c == 0 {
          RootReached(m, off, ns - no, depth, done);
          off := off + 1;
          break;
        }
        if c > ns - no - 1 || off + 1 + c >= |m| {
          return false, off + 1;
        }
        done := TakeLabel(m, off, c, name, base, no, ns, depth, done, was);
        off := off + 1 + c;
        no := no + c + 1;
      }
    }
    assert spec == Some(NameRead(done, 0, off, false));
    StoreEnd(name, base, no, ns, spec.value, was);
    ok := true;
  }
}
