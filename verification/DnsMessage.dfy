/** Headers, questions and queries: the packers and unpackers of comm_dns_resolver.c. */
module DnsMessages {
  import opened DnsNames
  import opened Options

  type u16 = x: int | 0 <= x < 0x1_0000
  type nibble = x: int | 0 <= x < 16
  type bit = x: int | 0 <= x < 2

  const HEADER_SIZE: nat := 12
  const TYPE_A: u16 := 1
  const TYPE_AAAA: u16 := 28
  const CLASS_IN: u16 := 1

  // The fields of rfc1035_message that travel in the header.
  datatype Header = Header(id: u16, qr: bit, opcode: nibble, aa: bit, tc: bit, rd: bit, ra: bit, rcode: nibble,
                           qdcount: u16, ancount: u16, nscount: u16, arcount: u16)

  // A 16-bit number in network order.
  function U16(n: u16): (r: seq<byte>)
    ensures |r| == 2
  {
    [n / 256, n % 256]
  }

  function U16At(m: seq<byte>, off: nat): u16
    requires off + 2 <= |m|
  {
    var hi: int, lo: int := m[off], m[off + 1];
    hi * 256 + lo
  }

  // The shifted fields occupy disjoint bits, so their disjunction is their sum.
  function Flags(h: Header): (r: u16) {
    var qr: int, opcode: int, aa: int, tc: int := h.qr, h.opcode, h.aa, h.tc;
    var rd: int, ra: int, rcode: int := h.rd, h.ra, h.rcode;
    qr * 32768 + opcode * 2048 + aa * 1024 + tc * 512 + rd * 256 + ra * 128 + rcode
  }

  function PackHeader(h: Header): (r: seq<byte>)
    ensures |r| == HEADER_SIZE
  {
    U16(h.id) + U16(Flags(h)) + U16(h.qdcount) + U16(h.ancount) + U16(h.nscount) + U16(h.arcount)
  }

  function HeaderAt(m: seq<byte>): Option<Header> {
    if |m| < HEADER_SIZE then None
    else
      var t := U16At(m, 2);
      Some(Header(U16At(m, 0), t / 32768, t / 2048 % 16, t / 1024 % 2, t / 512 % 2, t / 256 % 2, t / 128 % 2, t % 16,
                  U16At(m, 4), U16At(m, 6), U16At(m, 8), U16At(m, 10)))
  }

  lemma U16Back(a: seq<byte>, n: u16, b: seq<byte>)
    ensures U16At(a + U16(n) + b, |a|) == n
  {}

  // Division by the powers of two that the fields are shifted by.
  lemma Shifted(q: nat, r: nat)
    ensures r < 2048 ==> (q * 2048 + r) / 2048 == q
    ensures r < 1024 ==> (q * 1024 + r) / 1024 == q
    ensures r < 512 ==> (q * 512 + r) / 512 == q
    ensures r < 256 ==> (q * 256 + r) / 256 == q
    ensures r < 128 ==> (q * 128 + r) / 128 == q
  {}

  // A field above k - 1 lower bits, for the places the fields have.
  lemma FieldAt(t: nat, q: nat, field: nat, r: nat)
    ensures t == (q * 16 + field) * 2048 + r && field < 16 && r < 2048 ==> t / 2048 % 16 == field
    ensures t == (q * 2 + field) * 1024 + r && field < 2 && r < 1024 ==> t / 1024 % 2 == field
    ensures t == (q * 2 + field) * 512 + r && field < 2 && r < 512 ==> t / 512 % 2 == field
    ensures t == (q * 2 + field) * 256 + r && field < 2 && r < 256 ==> t / 256 % 2 == field
    ensures t == (q * 2 + field) * 128 + r && field < 2 && r < 128 ==> t / 128 % 2 == field
  {
    Shifted(q * 16 + field, r);
    Shifted(q * 2 + field, r);
    assert field < 16 ==> (q * 16 + field) % 16 == field;
    assert field < 2 ==> (q * 2 + field) % 2 == field;
  }

  lemma WordBack(t: nat, qr: nat, opcode: nat, aa: nat, tc: nat, rd: nat, ra: nat, rcode: nat)
    requires qr < 2 && opcode < 16 && aa < 2 && tc < 2 && rd < 2 && ra < 2 && rcode < 16
    requires t == qr * 32768 + opcode * 2048 + aa * 1024 + tc * 512 + rd * 256 + ra * 128 + rcode
    ensures t / 2048 % 16 == opcode && t / 1024 % 2 == aa && t / 512 % 2 == tc && t / 256 % 2 == rd && t / 128 % 2 == ra
    ensures t / 32768 == qr && t % 16 == rcode
  {
    var b := 2 * (16 * qr + opcode) + aa;
    HighBack(t, qr, opcode, aa, tc * 512 + rd * 256 + ra * 128 + rcode);
    LowBack(t, b, tc, rd, ra, rcode);
  }

  lemma HighBack(t: nat, qr: nat, opcode: nat, aa: nat, r: nat)
    requires opcode < 16 && aa < 2 && r < 1024 && t == qr * 32768 + opcode * 2048 + aa * 1024 + r
    ensures t / 32768 == qr && t / 2048 % 16 == opcode && t / 1024 % 2 == aa
  {
    FieldAt(t, qr, opcode, aa * 1024 + r);
    FieldAt(t, 16 * qr + opcode, aa, r);
  }

  lemma LowBack(t: nat, q: nat, tc: nat, rd: nat, ra: nat, rcode: nat)
    requires tc < 2 && rd < 2 && ra < 2 && rcode < 16 && t == q * 1024 + tc * 512 + rd * 256 + ra * 128 + rcode
    ensures t / 512 % 2 == tc && t / 256 % 2 == rd && t / 128 % 2 == ra && t % 16 == rcode
  {
    var c := 2 * q + tc;
    var d := 2 * c + rd;
    FieldAt(t, q, tc, rd * 256 + ra * 128 + rcode);
    FieldAt(t, c, rd, ra * 128 + rcode);
    FieldAt(t, d, ra, rcode);
    assert t == 16 * (8 * (2 * d + ra)) + rcode;
  }

  // The flags word determines the fields, whatever stands in the reserved bits.
  lemma FlagsBack(h: Header)
    ensures var t: int := Flags(h);
            && t / 32768 == h.qr && t / 2048 % 16 == h.opcode && t / 1024 % 2 == h.aa && t / 512 % 2 == h.tc
            && t / 256 % 2 == h.rd && t / 128 % 2 == h.ra && t % 16 == h.rcode
  {
    WordBack(Flags(h), h.qr, h.opcode, h.aa, h.tc, h.rd, h.ra, h.rcode);
  }

  /** Unpacking a packed header gives it back. */
  lemma HeaderRoundTrip(h: Header, rest: seq<byte>)
    ensures HeaderAt(PackHeader(h) + rest) == Some(h)
  {
    var m := PackHeader(h) + rest;
    assert m[0..2] == U16(h.id) && m[2..4] == U16(Flags(h)) && m[4..6] == U16(h.qdcount);
    assert m[6..8] == U16(h.ancount) && m[8..10] == U16(h.nscount) && m[10..12] == U16(h.arcount);
    FlagsBack(h);
  }

  // Two octets as a number in network order.
  function Network(hi: int, lo: int): int { hi * 256 + lo }

  /** The octets of a header, bit by bit as section 4.1.1 of RFC 1035 draws them. */
  lemma {:induction false} HeaderOctets(h: Header)
    ensures var m := PackHeader(h);
            && Network(m[0], m[1]) == h.id && Network(m[4], m[5]) == h.qdcount && Network(m[6], m[7]) == h.ancount
            && Network(m[8], m[9]) == h.nscount && Network(m[10], m[11]) == h.arcount
            && m[2] == h.qr * 128 + h.opcode * 8 + h.aa * 4 + h.tc * 2 + h.rd && m[3] == h.ra * 128 + h.rcode
  {
    var hi := h.qr * 128 + h.opcode * 8 + h.aa * 4 + h.tc * 2 + h.rd;
    var lo := h.ra * 128 + h.rcode;
    assert Flags(h) == hi * 256 + lo;
    TwoOctets(hi, lo);
  }

  lemma TwoOctets(hi: int, lo: int)
    requires 0 <= lo < 256
    ensures (hi * 256 + lo) / 256 == hi && (hi * 256 + lo) % 256 == lo
  {}

  lemma Halved(t: nat)
    ensures t / 256 == t / 128 / 2 && t / 512 == t / 256 / 2 && t / 1024 == t / 512 / 2 && t / 2048 == t / 1024 / 2
    ensures t / 32768 == t / 2048 / 16 && t / 128 == t / 16 / 8
  {}

  lemma FlagsForth(t: u16, h: Header)
    requires h.qr == t / 32768 && h.opcode == t / 2048 % 16 && h.aa == t / 1024 % 2 && h.tc == t / 512 % 2
    requires h.rd == t / 256 % 2 && h.ra == t / 128 % 2 && h.rcode == t % 16
    ensures Flags(h) == t - t / 16 % 8 * 16
  {
    Halved(t);
    WordForth(t, t / 16, t / 128, t / 256, t / 512, t / 1024, t / 2048, t / 32768);
  }

  // The word from its quotients, each a shift of the one before.
  lemma WordForth(t: nat, z: nat, e: nat, d: nat, c: nat, b: nat, a: nat, q: nat)
    requires z == t / 16 && e == z / 8 && d == e / 2 && c == d / 2 && b == c / 2 && a == b / 2 && q == a / 16
    ensures t == q * 32768 + a % 16 * 2048 + b % 2 * 1024 + c % 2 * 512 + d % 2 * 256 + e % 2 * 128 + z % 8 * 16
            + t % 16
  {
    assert t == 16 * z + t % 16 && z == 8 * e + z % 8 && e == 2 * d + e % 2 && d == 2 * c + d % 2;
    assert c == 2 * b + c % 2 && b == 2 * a + b % 2 && a == 16 * q + a % 16;
  }

  lemma U16Forth(m: seq<byte>, k: nat)
    requires k + 2 <= |m|
    ensures U16(U16At(m, k)) == m[k..k + 2]
  {}

  lemma U16Injective(m: seq<byte>, k: nat, n: u16)
    requires k + 2 <= |m|
    ensures U16(n) == m[k..k + 2] <==> n == U16At(m, k)
  {
    U16Forth(m, k);
    U16Back([], n, []);
  }

  lemma ReservedBits(m: seq<byte>)
    requires |m| >= 4
    ensures U16At(m, 2) / 16 % 8 == m[3] / 16 % 8
  {
    var hi: int, lo: int := m[2], m[3];
    assert (hi * 256 + lo) / 16 == hi * 16 + lo / 16;
  }

  /** Packing an unpacked header gives the octets back exactly when the reserved bits are zero. */
  lemma HeaderPackedAgain(m: seq<byte>)
    requires |m| >= HEADER_SIZE
    ensures PackHeader(HeaderAt(m).value) == m[..HEADER_SIZE] <==> m[3] / 16 % 8 == 0
  {
    var h := HeaderAt(m).value;
    FlagsForth(U16At(m, 2), h);
    ReservedBits(m);
    U16Injective(m, 2, Flags(h));
    U16Forth(m, 0);
    U16Forth(m, 4);
    U16Forth(m, 6);
    U16Forth(m, 8);
    U16Forth(m, 10);
    SixWords(m[..HEADER_SIZE], U16(h.id), U16(Flags(h)), U16(h.qdcount), U16(h.ancount), U16(h.nscount),
             U16(h.arcount));
  }

  lemma SixWords(m: seq<byte>, a: seq<byte>, b: seq<byte>, c: seq<byte>, d: seq<byte>, e: seq<byte>, f: seq<byte>)
    requires |m| == 12 && |a| == |b| == |c| == |d| == |e| == |f| == 2
    requires a == m[0..2] && c == m[4..6] && d == m[6..8] && e == m[8..10] && f == m[10..12]
    ensures a + b + c + d + e + f == m <==> b == m[2..4]
  {
    assert (a + b + c + d + e + f)[2..4] == b;
  }

  // ---- names on their way out ----

  // The host name cut at its dots; between two dots there may be nothing.
  function Fields(host: seq<byte>): (r: seq<Label>)
    ensures |r| > 0
  {
    if host == [] then [[]]
    else
      var rest := Fields(host[1..]);
      if host[0] == DOT then [[]] + rest else [[host[0]] + rest[0]] + rest[1..]
  }

  function NonEmpty(fields: seq<Label>): seq<Label> {
    if fields == [] then []
    else (if fields[0] == [] then [] else [fields[0]]) + NonEmpty(fields[1..])
  }

  function SkipDots(host: seq<byte>, i: nat): (r: nat)
    requires i <= |host|
    ensures i <= r <= |host| && (r < |host| ==> host[r] != DOT)
    decreases |host| - i
  {
    if i < |host| && host[i] == DOT then SkipDots(host, i + 1) else i
  }

  function FieldEnd(host: seq<byte>, i: nat): (r: nat)
    requires i <= |host|
    ensures i <= r <= |host| && (i < |host| && host[i] != DOT ==> i < r) && (r < |host| ==> host[r] == DOT)
    decreases |host| - i
  {
    if i < |host| && host[i] != DOT then FieldEnd(host, i + 1) else i
  }

  // The tokens that strtok still returns from position i on.
  function Tokens(host: seq<byte>, i: nat): seq<Label>
    requires i <= |host|
    decreases |host| - i
  {
    var p := SkipDots(host, i);
    if p == |host| then [] else [host[p..FieldEnd(host, p)]] + Tokens(host, FieldEnd(host, p))
  }

  lemma {:induction false} DotSkipped(host: seq<byte>, i: nat)
    requires i < |host| && host[i] == DOT
    ensures Tokens(host, i) == Tokens(host, i + 1)
  {}

  lemma {:induction false} FirstField(host: seq<byte>, i: nat)
    requires i <= |host|
    ensures var e := FieldEnd(host, i);
            && Fields(host[i..])[0] == host[i..e]
            && (e == |host| ==> |Fields(host[i..])| == 1)
            && (e < |host| ==> Fields(host[i..])[1..] == Fields(host[e + 1..]))
    decreases |host| - i
  {
    if i < |host| {
      assert host[i..][1..] == host[i + 1..];
      if host[i] == DOT {
        assert Fields(host[i..])[1..] == Fields(host[i + 1..]);
      } else {
        FirstField(host, i + 1);
        assert host[i..FieldEnd(host, i)] == [host[i]] + host[i + 1..FieldEnd(host, i + 1)];
      }
    }
  }

  lemma {:induction false} FirstTokenOrNone(host: seq<byte>, i: nat, e: nat)
    requires i <= |host| && i <= e == FieldEnd(host, i) < |host|
    ensures Tokens(host, i) == (if i == e then [] else [host[i..e]]) + Tokens(host, e + 1)
  {
    DotSkipped(host, e);
  }

  lemma {:induction false} LastToken(host: seq<byte>, i: nat)
    requires i <= |host| && FieldEnd(host, i) == |host|
    ensures Tokens(host, i) == if i == |host| then [] else [host[i..]]
  {
    if i < |host| {
      assert SkipDots(host, i) == i && host[i..FieldEnd(host, i)] == host[i..];
      assert Tokens(host, |host|) == [];
    }
  }

  /** strtok drops exactly the empty fields. */
  lemma {:induction false} TokensAreFields(host: seq<byte>, i: nat)
    requires i <= |host|
    ensures Tokens(host, i) == NonEmpty(Fields(host[i..]))
    decreases |host| - i
  {
    var fields, e := Fields(host[i..]), FieldEnd(host, i);
    FirstField(host, i);
    if e == |host| {
      LastToken(host, i);
      assert fields == [host[i..]];
      assert NonEmpty(fields[1..]) == [];
    } else {
      TokensAreFields(host, e + 1);
      FirstTokenOrNone(host, i, e);
    }
  }

  // The first 63 octets of a label.
  function Cut(l: Label): (r: Label)
    ensures |r| <= MAX_LABEL && r <= l && (|l| <= MAX_LABEL ==> r == l) && (|l| > MAX_LABEL ==> |r| == MAX_LABEL)
  {
    if |l| > MAX_LABEL then l[..MAX_LABEL] else l
  }

  function CutAll(labels: seq<Label>): seq<Label> {
    if labels == [] then [] else [Cut(labels[0])] + CutAll(labels[1..])
  }

  // The labels sent for a host name.
  function HostLabels(host: seq<byte>): seq<Label> { CutAll(Tokens(host, 0)) }

  function PackLabel(l: Label): (r: seq<byte>)
    ensures |r| == |Cut(l)| + 1
  {
    [|Cut(l)|] + Cut(l)
  }

  function PackName(labels: seq<Label>): (r: seq<byte>)
    ensures |r| > 0
  {
    if labels == [] then [0] else PackLabel(labels[0]) + PackName(labels[1..])
  }

  predicate Sendable(labels: seq<Label>) { forall i :: 0 <= i < |labels| ==> 0 < |labels[i]| <= MAX_LABEL }

  lemma {:induction false} TokensNonEmpty(host: seq<byte>, i: nat)
    requires i <= |host|
    ensures Sendable(CutAll(Tokens(host, i)))
    decreases |host| - i
  {
    var p := SkipDots(host, i);
    if p < |host| { TokensNonEmpty(host, FieldEnd(host, p)); }
  }

  lemma {:induction false} PackNameSize(labels: seq<Label>)
    requires Sendable(labels)
    ensures |PackName(labels)| == Size(labels) + 1
  {
    if labels != [] { PackNameSize(labels[1..]); }
  }

  predicate At(m: seq<byte>, off: nat, p: seq<byte>) { off + |p| <= |m| && m[off..off + |p|] == p }

  lemma AtSplit(m: seq<byte>, off: nat, a: seq<byte>, b: seq<byte>)
    ensures At(m, off, a + b) <==> At(m, off, a) && At(m, off + |a|, b)
  {
    if At(m, off, a + b) {
      assert m[off..off + |a|] == (a + b)[..|a|] && m[off + |a|..off + |a| + |b|] == (a + b)[|a|..];
    }
    if At(m, off, a) && At(m, off + |a|, b) {
      assert m[off..off + |a + b|] == m[off..off + |a|] + m[off + |a|..off + |a| + |b|];
    }
  }

  predicate LabelAt(m: seq<byte>, off: nat, l: Label) {
    off + 1 + |l| <= |m| && m[off] == |l| && m[off + 1..off + 1 + |l|] == l
  }

  lemma LabelParts(m: seq<byte>, off: nat, l: Label, rest: seq<byte>)
    requires |l| <= MAX_LABEL && At(m, off, PackLabel(l) + rest)
    ensures LabelAt(m, off, l) && At(m, off + 1 + |l|, rest)
  {
    AtSplit(m, off, PackLabel(l), rest);
    AtSplit(m, off, [|l|], l);
    assert m[off] == m[off..off + 1][0];
  }

  lemma LabelPath(m: seq<byte>, off: nat, labels: seq<Label>, to: nat)
    requires labels != [] && 0 < |labels[0]| <= MAX_LABEL && LabelAt(m, off, labels[0])
    requires Path(m, off + 1 + |labels[0]|, labels[1..], 0, to)
    ensures Path(m, off, labels, 0, to)
  {
    PathBehindLabel(m, off, labels[1..], 0, to);
    assert labels == [labels[0]] + labels[1..];
  }

  lemma NameParts(m: seq<byte>, off: nat, labels: seq<Label>)
    requires labels != [] && Sendable(labels) && At(m, off, PackName(labels))
    ensures LabelAt(m, off, labels[0])
    ensures At(m, off + 1 + |labels[0]|, PackName(labels[1..])) && Sendable(labels[1..]) && 0 < |labels[0]| <= MAX_LABEL
    ensures |PackName(labels)| == 1 + |labels[0]| + |PackName(labels[1..])|
  {
    LabelParts(m, off, labels[0], PackName(labels[1..]));
  }

  /** A packed name is read back label by label, up to its root label. */
  lemma {:induction false} PackedPath(m: seq<byte>, off: nat, labels: seq<Label>, to: nat)
    requires Sendable(labels) && At(m, off, PackName(labels)) && to == off + |PackName(labels)| - 1
    ensures to < |m| && Path(m, off, labels, 0, to) && m[to] == 0
    decreases labels
  {
    if labels == [] {
      assert m[off] == m[off..off + 1][0] == 0;
    } else {
      NameParts(m, off, labels);
      PackedPath(m, off + 1 + |labels[0]|, labels[1..], to);
      LabelPath(m, off, labels, to);
    }
  }

  // ---- queries ----

  function QueryHeader(id: u16): Header { Header(id, 0, 0, 0, 0, 1, 0, 0, 1, 0, 0, 0) }

  function PackQuestion(labels: seq<Label>, qtype: u16): seq<byte> { PackName(labels) + U16(qtype) + U16(CLASS_IN) }

  // The message that asks for `qtype` records of a host.
  function Query(host: seq<byte>, qtype: u16, id: u16): seq<byte> {
    PackHeader(QueryHeader(id)) + PackQuestion(HostLabels(host), qtype)
  }

  datatype Question = Question(name: NameRead, qtype: u16, qclass: u16, end: nat)

  // rfc1035QueryUnpack.
  function QuestionAt(m: seq<byte>, off: nat): Option<Question> {
    var r := NameAt(m, off, MAX_HOSTNAME, 0);
    if r.None? || r.value.end + 4 > |m| then None
    else Some(Question(r.value, U16At(m, r.value.end), U16At(m, r.value.end + 2), r.value.end + 4))
  }

  lemma {:induction false} PathIsUnique(m: seq<byte>, off: nat, labels: seq<Label>, jumps: nat, to: nat, to': nat)
    requires Path(m, off, labels, jumps, to) && Path(m, off, labels, jumps, to')
    ensures to == to'
    decreases |labels| + jumps
  {
    if labels != [] || jumps > 0 {
      if m[off] > 191 {
        PathIsUnique(m, Pointer(m, off), labels, jumps - 1, to, to');
      } else {
        PathIsUnique(m, off + 1 + m[off], labels[1..], jumps, to, to');
      }
    }
  }

  lemma {:induction false} NotBareWithoutJumps(m: seq<byte>, off: nat, room: nat, depth: nat)
    requires room > 0 && depth <= MAX_DEPTH + 1 && NameAt(m, off, room, depth).Some?
    requires NameAt(m, off, room, depth).value.jumps == 0
    ensures !NameAt(m, off, room, depth).value.bare
    decreases |m| - off
  {
    if 0 < m[off] <= MAX_LABEL && m[off] + 1 < room {
      NotBareWithoutJumps(m, off + 1 + m[off], room - m[off] - 1, depth);
    }
  }

  // A packed name that is not too long is read back, and the offset ends up behind it.
  lemma PackedNameBack(m: seq<byte>, off: nat, labels: seq<Label>, room: nat)
    requires Sendable(labels) && At(m, off, PackName(labels)) && Size(labels) < room
    ensures NameAt(m, off, room, 0) == Some(NameRead(labels, 0, off + |PackName(labels)|, false))
  {
    var to := off + |PackName(labels)| - 1;
    PackedPath(m, off, labels, to);
    assert Readable(m, off, room, 0, labels, 0, to);
    ReadableIsName(m, off, room, 0, labels, 0, to);
    NotBareWithoutJumps(m, off, room, 0);
    var to' := NameIsReadable(m, off, room, 0);
    PathIsUnique(m, off, labels, 0, to, to');
  }

  // One that exactly fills the room is read too, but the offset stays in front of its root label.
  lemma FullNameBack(m: seq<byte>, off: nat, labels: seq<Label>, room: nat)
    requires Sendable(labels) && At(m, off, PackName(labels)) && Size(labels) == room > 0
    ensures NameAt(m, off, room, 0).Some? && NameAt(m, off, room, 0).value.labels == labels
    ensures NameAt(m, off, room, 0).value.jumps == 0 ==>
              NameAt(m, off, room, 0).value.end == off + |PackName(labels)| - 1
  {
    var to := off + |PackName(labels)| - 1;
    PackedPath(m, off, labels, to);
    assert Readable(m, off, room, 0, labels, 0, to);
    ReadableIsName(m, off, room, 0, labels, 0, to);
    var to' := NameIsReadable(m, off, room, 0);
    if NameAt(m, off, room, 0).value.jumps == 0 { PathIsUnique(m, off, labels, 0, to, to'); }
  }

  lemma QueryLayout(host: seq<byte>, qtype: u16, id: u16)
    ensures var m, labels := Query(host, qtype, id), HostLabels(host);
            && Sendable(labels) && At(m, HEADER_SIZE, PackName(labels)) && |m| == HEADER_SIZE + |PackName(labels)| + 4
            && U16At(m, |m| - 4) == qtype && U16At(m, |m| - 2) == CLASS_IN
  {
    var m, labels := Query(host, qtype, id), HostLabels(host);
    TokensNonEmpty(host, 0);
    AtSplit(m, 0, PackHeader(QueryHeader(id)), PackQuestion(labels, qtype));
    assert At(m, 0, PackHeader(QueryHeader(id)) + PackQuestion(labels, qtype));
    AtSplit(m, HEADER_SIZE, PackName(labels) + U16(qtype), U16(CLASS_IN));
    AtSplit(m, HEADER_SIZE, PackName(labels), U16(qtype));
    U16Injective(m, |m| - 4, qtype);
    U16Injective(m, |m| - 2, CLASS_IN);
  }

  /** A query asks for recursion, holds one question and nothing else, and ends in its type and the class IN. */
  lemma {:induction false} QueryOctets(host: seq<byte>, qtype: u16, id: u16)
    ensures var m := Query(host, qtype, id);
            && |m| >= HEADER_SIZE + 4 && Network(m[0], m[1]) == id
            && m[2..HEADER_SIZE] == [1, 0, 0, 1, 0, 0, 0, 0, 0, 0]
            && Network(m[|m| - 4], m[|m| - 3]) == qtype && m[|m| - 2..] == [0, 1]
  {
    QueryHead(host, qtype, id);
    QueryTail(host, qtype, id);
  }

  lemma {:induction false} QueryHead(host: seq<byte>, qtype: u16, id: u16)
    ensures var m := Query(host, qtype, id);
            |m| >= HEADER_SIZE && Network(m[0], m[1]) == id && m[2..HEADER_SIZE] == [1, 0, 0, 1, 0, 0, 0, 0, 0, 0]
  {
    HeaderOctets(QueryHeader(id));
    QueryHeaderOctets(id);
    HeadOf(PackHeader(QueryHeader(id)), PackQuestion(HostLabels(host), qtype));
  }

  lemma HeadOf(head: seq<byte>, rest: seq<byte>)
    requires |head| == HEADER_SIZE
    ensures var m := head + rest;
            |m| >= HEADER_SIZE && m[0] == head[0] && m[1] == head[1] && m[2..HEADER_SIZE] == head[2..]
  {}

  lemma QueryHeaderOctets(id: u16)
    ensures PackHeader(QueryHeader(id))[2..] == [1, 0, 0, 1, 0, 0, 0, 0, 0, 0]
  {
    assert Flags(QueryHeader(id)) == 256;
    assert U16(256) == [1, 0] && U16(1) == [0, 1] && U16(0) == [0, 0];
  }

  lemma {:induction false} QueryTail(host: seq<byte>, qtype: u16, id: u16)
    ensures var m := Query(host, qtype, id);
            |m| >= HEADER_SIZE + 4 && Network(m[|m| - 4], m[|m| - 3]) == qtype && m[|m| - 2..] == [0, 1]
  {
    QueryLayout(host, qtype, id);
    var m := Query(host, qtype, id);
    assert m[|m| - 2..] == U16(CLASS_IN);
  }

  /**
   A query is read back - header, labels, type and class, up to its last octet - exactly when its
   labels with one octet each for their lengths stay under 256.
   */
  lemma QueryRoundTrip(host: seq<byte>, qtype: u16, id: u16)
    ensures HeaderAt(Query(host, qtype, id)) == Some(QueryHeader(id))
    ensures var m, labels := Query(host, qtype, id), HostLabels(host);
            QuestionAt(m, HEADER_SIZE) == Some(Question(NameRead(labels, 0, |m| - 4, false), qtype, CLASS_IN, |m|))
            <==> Size(labels) < MAX_HOSTNAME
  {
    var m, labels := Query(host, qtype, id), HostLabels(host);
    HeaderRoundTrip(QueryHeader(id), PackQuestion(labels, qtype));
    QueryLayout(host, qtype, id);
    if Size(labels) < MAX_HOSTNAME {
      PackedNameBack(m, HEADER_SIZE, labels, MAX_HOSTNAME);
    } else if Size(labels) == MAX_HOSTNAME {
      FullNameBack(m, HEADER_SIZE, labels, MAX_HOSTNAME);
    } else if NameAt(m, HEADER_SIZE, MAX_HOSTNAME, 0).Some? {
      BareFits(m, HEADER_SIZE, MAX_HOSTNAME, 0);
    }
  }

  // A host name without empty or long labels is what the query carries, dot for dot.
  lemma {:induction false} DottedFields(host: seq<byte>)
    ensures Dotted(Fields(host)) == host + [DOT]
  {
    if host != [] {
      DottedFields(host[1..]);
      var rest := Fields(host[1..]);
      assert host == [host[0]] + host[1..];
      if host[0] == DOT {
        assert ([[]] + rest)[1..] == rest;
      } else {
        assert Dotted(rest) == rest[0] + [DOT] + Dotted(rest[1..]);
        assert Dotted([[host[0]] + rest[0]] + rest[1..]) == [host[0]] + Dotted(rest);
      }
    }
  }

  lemma {:induction false} SendableFields(labels: seq<Label>)
    requires Sendable(labels)
    ensures CutAll(NonEmpty(labels)) == labels
  {
    if labels != [] { SendableFields(labels[1..]); }
  }

  /** The name stored when such a query is unpacked is the host name itself. */
  lemma HostNameBack(host: seq<byte>, qtype: u16, id: u16)
    requires Sendable(Fields(host)) && |host| < MAX_HOSTNAME - 1
    ensures var q := QuestionAt(Query(host, qtype, id), HEADER_SIZE); q.Some? && Stored(q.value.name) == host + [0]
  {
    var labels := Fields(host);
    assert host[0..] == host;
    TokensAreFields(host, 0);
    SendableFields(labels);
    DottedFields(host);
    assert HostLabels(host) == labels;
    assert Size(labels) == |host| + 1;
    QueryRoundTrip(host, qtype, id);
    assert (host + [DOT])[..|host|] == host;
  }

  // ---- the question-skip loop of rfc1035AnswersUnpack ----
  // The source reads on behind the message before it notices; every such walk ends in the same error.

  function SkipName(m: seq<byte>, off: nat): (r: Option<nat>)
    ensures r.Some? ==> r.value > off
    decreases |m| - off
  {
    if off >= |m| then None
    else if m[off] > 191 then Some(off + 2)
    else if m[off] > MAX_LABEL then None
    else if m[off] == 0 then Some(off + 1)
    else SkipName(m, off + 1 + m[off])
  }

  function SkipQuestions(m: seq<byte>, off: nat, count: nat): Option<nat>
    decreases count
  {
    if count == 0 then Some(off)
    else
      var end := SkipName(m, off);
      if end.None? || end.value + 4 > |m| then None else SkipQuestions(m, end.value + 4, count - 1)
  }

  // Where a name is unpacked to its end, the skip loop stops at the same place.
  lemma {:induction false} SkipAgrees(m: seq<byte>, off: nat, room: nat, depth: nat)
    requires room > 0 && depth <= MAX_DEPTH + 1 && NameAt(m, off, room, depth).Some?
    requires Size(NameAt(m, off, room, depth).value.labels) < room
    ensures SkipName(m, off) == Some(NameAt(m, off, room, depth).value.end)
    decreases |m| - off
  {
    if 0 < m[off] <= MAX_LABEL {
      var first := m[off + 1..off + 1 + m[off]];
      assert m[off] + 1 == room ==> Size([first]) == room;
      if m[off] + 1 < room {
        var rest := NameAt(m, off + 1 + m[off], room - m[off] - 1, depth).value.labels;
        assert ([first] + rest)[1..] == rest;
        SkipAgrees(m, off + 1 + m[off], room - m[off] - 1, depth);
      }
    }
  }

  /** Over its own queries, of any length, the skip loop lands exactly on the end of the message. */
  lemma QuestionSkipped(host: seq<byte>, qtype: u16, id: u16)
    ensures var m := Query(host, qtype, id); SkipQuestions(m, HEADER_SIZE, 1) == Some(|m|)
  {
    var m, labels := Query(host, qtype, id), HostLabels(host);
    QueryLayout(host, qtype, id);
    PackNameSize(labels);
    PackedNameBack(m, HEADER_SIZE, labels, Size(labels) + 1);
    SkipAgrees(m, HEADER_SIZE, Size(labels) + 1, 0);
    assert SkipQuestions(m, |m|, 0) == Some(|m|);
  }

  method SkipQuestionSection(m: seq<byte>, off0: nat, count: nat) returns (ok: bool, off: nat)
    ensures ok <==> SkipQuestions(m, off0, count).Some?
    ensures ok ==> off == SkipQuestions(m, off0, count).value
  {
    off := off0;
    var i := count;
    while i > 0
      invariant SkipQuestions(m, off, i) == SkipQuestions(m, off0, count)
    {
      i := i - 1;
      ghost var start := off;
      var l := 1;
      while l > 0
        invariant off >= start
        invariant SkipName(m, start) == if l > 0 then SkipName(m, off) else Some(off)
        decreases l > 0, |m| - off
      {
        if off >= |m| {
          return false, off;
        }
        l := m[off] as int;
        off := off + 1;
        if l > 191 {
          off := off + 1;
          break;
        } else if l > MAX_LABEL {
          return false, off;
        } else {
          off := off + l;
        }
      }
      assert SkipName(m, start) == Some(off);
      off := off + 4;
      if off > |m| {
        return false, off;
      }
    }
    ok := true;
  }

  // ---- the packers ----

  /** htons and memcpy. */
  method PutU16(buf: array<byte>, at: nat, n: u16)
    requires at + 2 <= buf.Length
    modifies buf
    ensures buf[..] == Overwritten(old(buf[..]), at, U16(n))
  {
    buf[at] := n / 256;
    buf[at + 1] := n % 256;
  }

  method HeaderPack(buf: array<byte>, at: nat, h: Header) returns (n: nat)
    requires at + HEADER_SIZE <= buf.Length
    modifies buf
    ensures buf[..] == Overwritten(old(buf[..]), at, PackHeader(h)) && n == HEADER_SIZE
  {
    ghost var was := buf[..];
    PutU16(buf, at, h.id);
    ghost var two := U16(h.id) + U16(Flags(h));
    n := U16Behind(buf, at, 2, Flags(h), was, U16(h.id));
    n := U16Behind(buf, at, n, h.qdcount, was, two);
    n := U16Behind(buf, at, n, h.ancount, was, two + U16(h.qdcount));
    n := U16Behind(buf, at, n, h.nscount, was, two + U16(h.qdcount) + U16(h.ancount));
    n := U16Behind(buf, at, n, h.arcount, was, two + U16(h.qdcount) + U16(h.ancount) + U16(h.nscount));
  }

  method PackOctets(buf: array<byte>, at: nat, l: Label, len: nat)
    requires len <= |l| && len < 256 && at + 1 + len <= buf.Length
    modifies buf
    ensures buf[..] == Overwritten(old(buf[..]), at, [len] + l[0..len])
  {
    ghost var was := buf[..];
    buf[at] := len;
    assert buf[..] == Overwritten(was, at, [len]);
    CopyOctets(l, 0, len, buf, at + 1);
    OverwrittenTwice(was, at, [len], l[0..len]);
  }

  /** rfc1035LabelPack; the root label is the empty one. */
  method LabelPack(buf: array<byte>, at: nat, l: Label) returns (n: nat)
    requires at + 1 + |Cut(l)| <= buf.Length
    modifies buf
    ensures buf[..] == Overwritten(old(buf[..]), at, PackLabel(l)) && n == |PackLabel(l)|
  {
    var len := |l|;
    if len > MAX_LABEL {
      len := MAX_LABEL;
    }
    assert l[0..len] == Cut(l);
    PackOctets(buf, at, l, len);
    return len + 1;
  }

  // The labels sent before and behind one turn of the loop below.
  lemma NameTurn(host: seq<byte>, i: nat, sent: seq<byte>)
    requires i < |host| && host[i] != DOT
    ensures var end := FieldEnd(host, i);
            sent + PackName(CutAll(Tokens(host, i)))
            == sent + PackLabel(host[i..end]) + PackName(CutAll(Tokens(host, SkipDots(host, end))))
  {
    var end := FieldEnd(host, i);
    FirstToken(host, i);
    SameTokens(host, end);
    Associates(sent, PackLabel(host[i..end]), PackName(CutAll(Tokens(host, end))));
  }

  // One turn of the loop.
  method PackToken(buf: array<byte>, at: nat, n0: nat, host: seq<byte>, i0: nat, ghost was: seq<byte>,
                   ghost sent: seq<byte>)
    returns (n: nat, i: nat, ghost more: seq<byte>)
    requires i0 < |host| && host[i0] != DOT && n0 == |sent| && |was| == buf.Length
    requires at + |sent + PackName(CutAll(Tokens(host, i0)))| <= buf.Length
    requires buf[..] == Overwritten(was, at, sent)
    modifies buf
    ensures i0 < i <= |host| && (i < |host| ==> host[i] != DOT)
    ensures sent + PackName(CutAll(Tokens(host, i0))) == more + PackName(CutAll(Tokens(host, i)))
    ensures n == |more| && at + n <= buf.Length && buf[..] == Overwritten(was, at, more)
  {
    var end := FieldEnd(host, i0);
    NameTurn(host, i0, sent);
    n := LabelBehind(buf, at, n0, host[i0..end], was, sent);
    more := sent + PackLabel(host[i0..end]);
    i := SkipDots(host, end);
  }

  // The packed name from position i on.
  function PackedFrom(host: seq<byte>, i: nat): seq<byte>
    requires i <= |host|
  {
    PackName(CutAll(Tokens(host, i)))
  }

  lemma PackedEnds(host: seq<byte>)
    ensures PackedFrom(host, |host|) == PackLabel([])
    ensures PackedFrom(host, SkipDots(host, 0)) == PackName(HostLabels(host))
  {
    assert Tokens(host, |host|) == [];
    SameTokens(host, 0);
  }

  // The loop.
  method PackTokens(buf: array<byte>, at: nat, host: seq<byte>, ghost all: seq<byte>)
    returns (n: nat, ghost sent: seq<byte>)
    requires all == PackedFrom(host, SkipDots(host, 0)) && at + |all| <= buf.Length
    modifies buf
    ensures all == sent + PackedFrom(host, |host|) && n == |sent|
    ensures buf[..] == Overwritten(old(buf[..]), at, sent)
  {
    ghost var was := buf[..];
    n, sent := 0, [];
    var i := SkipDots(host, 0);
    while i < |host|
      invariant i <= |host| && (i < |host| ==> host[i] != DOT)
      invariant all == sent + PackedFrom(host, i) && n == |sent|
      invariant buf[..] == Overwritten(was, at, sent)
      decreases |host| - i
    {
      n, i, sent := PackToken(buf, at, n, host, i, was, sent);
    }
  }

  /** rfc1035NamePack: one label for every token that strtok finds. */
  method NamePack(buf: array<byte>, at: nat, host: seq<byte>) returns (n: nat)
    requires at + |PackName(HostLabels(host))| <= buf.Length
    modifies buf
    ensures buf[..] == Overwritten(old(buf[..]), at, PackName(HostLabels(host))) && n == |PackName(HostLabels(host))|
  {
    ghost var was, all, sent := buf[..], PackName(HostLabels(host)), [];
    PackedEnds(host);
    n, sent := PackTokens(buf, at, host, all);
    n := LabelBehind(buf, at, n, [], was, sent);
  }

  // One more label behind what was sent so far.
  method LabelBehind(buf: array<byte>, at: nat, n0: nat, l: Label, ghost was: seq<byte>, ghost sent: seq<byte>)
    returns (n: nat)
    requires n0 == |sent| && |was| == buf.Length && at + n0 + |PackLabel(l)| <= buf.Length
    requires buf[..] == Overwritten(was, at, sent)
    modifies buf
    ensures at + n <= |was| && n == |sent + PackLabel(l)| && buf[..] == Overwritten(was, at, sent + PackLabel(l))
  {
    n := LabelPack(buf, at + n0, l);
    OverwrittenTwice(was, at, sent, PackLabel(l));
    n := n0 + n;
  }

  method U16Behind(buf: array<byte>, at: nat, n0: nat, v: u16, ghost was: seq<byte>, ghost sent: seq<byte>)
    returns (n: nat)
    requires n0 == |sent| && |was| == buf.Length && at + n0 + 2 <= buf.Length && buf[..] == Overwritten(was, at, sent)
    modifies buf
    ensures n == n0 + 2 && buf[..] == Overwritten(was, at, sent + U16(v))
  {
    PutU16(buf, at + n0, v);
    OverwrittenTwice(was, at, sent, U16(v));
    n := n0 + 2;
  }

  lemma FirstToken(host: seq<byte>, i: nat)
    requires i < |host| && host[i] != DOT
    ensures var end := FieldEnd(host, i);
            PackName(CutAll(Tokens(host, i))) == PackLabel(host[i..end]) + PackName(CutAll(Tokens(host, end)))
  {
    var end := FieldEnd(host, i);
    assert Tokens(host, i) == [host[i..end]] + Tokens(host, end);
    assert CutAll(Tokens(host, i)) == [Cut(host[i..end])] + CutAll(Tokens(host, end));
  }

  lemma {:induction false} SameTokens(host: seq<byte>, i: nat)
    requires i <= |host|
    ensures Tokens(host, SkipDots(host, i)) == Tokens(host, i)
  {}

  method QuestionPack(buf: array<byte>, at: nat, host: seq<byte>, qtype: u16) returns (n: nat)
    requires at + |PackQuestion(HostLabels(host), qtype)| <= buf.Length
    modifies buf
    ensures buf[..] == Overwritten(old(buf[..]), at, PackQuestion(HostLabels(host), qtype))
    ensures n == |PackQuestion(HostLabels(host), qtype)|
  {
    ghost var was, name := buf[..], PackName(HostLabels(host));
    n := NamePack(buf, at, host);
    n := U16Behind(buf, at, n, qtype, was, name);
    n := U16Behind(buf, at, n, CLASS_IN, was, name + U16(qtype));
  }

  /**
   rfc1035BuildAQuery with TYPE_A and rfc1035BuildAAAAQuery with TYPE_AAAA.
   The packers do not look at the buffer's size.
   */
  method BuildQuery(host: seq<byte>, buf: array<byte>, qtype: u16, qid: u16) returns (sz: nat, id: u16)
    requires |Query(host, qtype, qid)| <= buf.Length
    modifies buf
    ensures sz == |Query(host, qtype, qid)| && buf[..sz] == Query(host, qtype, qid) && buf[sz..] == old(buf[sz..])
    ensures id == qid
  {
    ghost var was := buf[..];
    var h := QueryHeader(qid);
    sz := HeaderPack(buf, 0, h);
    var n := QuestionPack(buf, sz, host, qtype);
    OverwrittenTwice(was, 0, PackHeader(h), PackQuestion(HostLabels(host), qtype));
    sz := sz + n;
    id := h.id;
  }

  // ---- the unpackers ----

  method HeaderUnpack(m: seq<byte>, h0: Header) returns (ok: bool, off: nat, h: Header)
    ensures ok <==> HeaderAt(m).Some?
    ensures if ok then h == HeaderAt(m).value && off == HEADER_SIZE else h == h0 && off == 0
  {
    ok, off, h := false, 0, h0;
    if |m| < 12 {
      return;
    }
    h := h.(id := U16At(m, off));
    off := off + 2;
    var t: int := U16At(m, off);
    h := h.(qr := t / 32768 % 2, opcode := t / 2048 % 16, aa := t / 1024 % 2, tc := t / 512 % 2,
            rd := t / 256 % 2, ra := t / 128 % 2, rcode := t % 16);
    off := off + 2;
    h := h.(qdcount := U16At(m, off));
    off := off + 2;
    h := h.(ancount := U16At(m, off));
    off := off + 2;
    h := h.(nscount := U16At(m, off));
    off := off + 2;
    h := h.(arcount := U16At(m, off));
    off := off + 2;
    ok := true;
  }

  /** rfc1035_query. */
  class QueryRecord {
    const name: array<byte>
    var qtype: u16
    var qclass: u16

    constructor ()
      ensures fresh(name) && name.Length == MAX_HOSTNAME && qtype == 0 && qclass == 0
    {
      name := new byte[MAX_HOSTNAME](i => 0);
      qtype, qclass := 0, 0;
    }

    // memset to zero.
    method Clear()
      modifies this, name
      ensures (forall i :: 0 <= i < name.Length ==> name[i] == 0) && qtype == 0 && qclass == 0
    {
      for i := 0 to name.Length
        invariant forall j :: 0 <= j < i ==> name[j] == 0
      {
        name[i] := 0;
      }
      qtype, qclass := 0, 0;
    }

    /** rfc1035QueryUnpack: on failure the record is all zero. */
    method Unpack(m: seq<byte>, off0: nat) returns (ok: bool, off: nat)
      requires name.Length == MAX_HOSTNAME
      modifies this, name
      ensures ok <==> QuestionAt(m, off0).Some?
      ensures ok ==>
                var q := QuestionAt(m, off0).value;
                && qtype == q.qtype && qclass == q.qclass && off == q.end
                && |Stored(q.name)| <= MAX_HOSTNAME && name[..|Stored(q.name)|] == Stored(q.name)
      ensures !ok ==> (forall i :: 0 <= i < name.Length ==> name[i] == 0) && qtype == 0 && qclass == 0
    {
      ok, off := NameUnpack(m, off0, name, 0, MAX_HOSTNAME, 0);
      if !ok {
        Clear();
        return;
      }
      if off + 4 > |m| {
        Clear();
        ok := false;
        return;
      }
      qtype := U16At(m, off);
      off := off + 2;
      qclass := U16At(m, off);
      off := off + 2;
    }
  }
}
