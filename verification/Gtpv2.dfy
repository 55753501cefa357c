/**
 * GTPv2-C framing, section 5.1 of TS 29.274 (internal/gtpv2/message.go and ies.go:19-52): the
 * header with and without TEID, information elements, and several messages piggybacked in one
 * datagram. Octets are integers; the bounds of the source's integer types are written out.
 */
module Gtpv2 {
  import opened Common

  type Bytes = seq<Octet>

  predicate AreBytes(b: Bytes) {
    forall i :: 0 <= i < |b| ==> 0 <= b[i] < 256
  }

  datatype Ie = Ie(kind: Octet, instance: Octet, value: Bytes)

  // A message, and whether its header carries a TEID. Without one the TEID reads as 0.
  datatype Message = Message(kind: Octet, teid: nat, seqNum: nat, ies: seq<Ie>, hasTeid: bool)

  // ---------------------------------------------------------------- numbers

  const TWO16: nat := 0x1_0000
  const TWO24: nat := 0x100_0000
  const TWO32: nat := 0x1_0000_0000

  // Octet `k` of a big-endian number, counted from the least significant one: byte(n >> 8k).
  function Byte0(n: nat): Octet { n % 256 }

  function Byte1(n: nat): Octet { n / 256 % 256 }

  function Byte2(n: nat): Octet { n / 256 / 256 % 256 }

  function Byte3(n: nat): Octet { n / 256 / 256 / 256 % 256 }

  predicate IsByte(x: Octet) {
    0 <= x < 256
  }

  function Get16(x: Octet, y: Octet): nat
    requires IsByte(x) && IsByte(y)
  {
    x * 256 + y
  }

  function Get24(x: Octet, y: Octet, z: Octet): nat
    requires IsByte(x) && IsByte(y) && IsByte(z)
  {
    x * 0x1_0000 + y * 256 + z
  }

  function Get32(w: Octet, x: Octet, y: Octet, z: Octet): nat
    requires IsByte(w) && IsByte(x) && IsByte(y) && IsByte(z)
  {
    w * 0x100_0000 + x * 0x1_0000 + y * 256 + z
  }

  // Taking a number apart and putting it together keeps its low 16, 24 or 32 bits.
  lemma NumbersReadBack(n: nat)
    ensures IsByte(Byte0(n)) && IsByte(Byte1(n)) && IsByte(Byte2(n)) && IsByte(Byte3(n))
    ensures Get16(Byte1(n), Byte0(n)) == n % TWO16
    ensures Get24(Byte2(n), Byte1(n), Byte0(n)) == n % TWO24
    ensures Get32(Byte3(n), Byte2(n), Byte1(n), Byte0(n)) == n % TWO32
  {
    var m1 := n / 256;
    var m2 := m1 / 256;
    var m3 := m2 / 256;
    LowParts(n, Byte0(n), Byte1(n), Byte2(n), Byte3(n), m3 / 256);
  }

  lemma LowParts(n: nat, a: Octet, b: Octet, c: Octet, d: Octet, top: nat)
    requires IsByte(a) && IsByte(b) && IsByte(c) && IsByte(d)
    requires n == (((top * 256 + d) * 256 + c) * 256 + b) * 256 + a
    ensures n % TWO16 == Get16(b, a) && n % TWO24 == Get24(c, b, a) && n % TWO32 == Get32(d, c, b, a)
  {
    assert n == ((top * 256 + d) * 256 + c) * TWO16 + Get16(b, a);
    assert n == (top * 256 + d) * TWO24 + Get24(c, b, a);
    assert n == top * TWO32 + Get32(d, c, b, a);
  }

  lemma LengthOctets(x: Octet, y: Octet)
    requires IsByte(x) && IsByte(y)
    ensures Byte1(Get16(x, y)) == x && Byte0(Get16(x, y)) == y
  {}

  // ---------------------------------------------------------------- information elements

  function IeHeader(ie: Ie): Bytes {
    [ie.kind, Byte1(|ie.value|), Byte0(|ie.value|), ie.instance % 16]
  }

  function EncodeIes(ies: seq<Ie>): Bytes {
    if ies == [] then [] else IeHeader(ies[0]) + ies[0].value + EncodeIes(ies[1..])
  }

  function DecodeIes(b: Bytes): Option<seq<Ie>>
    requires AreBytes(b)
    decreases |b|
  {
    if |b| < 4 then if b == [] then Some([]) else None
    else
      var n := Get16(b[1], b[2]);
      if n > |b| - 4 then None
      else
        var rest := DecodeIes(b[4 + n..]);
        if rest.None? then None else Some([Ie(b[0], b[3] % 16, b[4..4 + n])] + rest.value)
  }

  // The values an IE can take on the wire.
  predicate Encodable(ie: Ie) {
    0 <= ie.kind < 256 && 0 <= ie.instance < 16 && |ie.value| < TWO16 && AreBytes(ie.value)
  }

  predicate AllEncodable(ies: seq<Ie>) {
    forall i :: 0 <= i < |ies| ==> Encodable(ies[i])
  }

  lemma IeHeaderReads(ie: Ie)
    requires Encodable(ie)
    ensures var h := IeHeader(ie);
            && |h| == 4 && AreBytes(h) && h[0] == ie.kind && h[3] == ie.instance && Get16(h[1], h[2]) == |ie.value|
  {
    hide Byte0, Byte1, Byte2, Byte3, Get16, Get24, Get32;
    NumbersReadBack(|ie.value|);
  }

  // The first element and the rest, for any octets that start with a complete element.
  lemma DecodeFirst(b: Bytes, ie: Ie, tail: Bytes)
    requires Encodable(ie) && AreBytes(tail) && b == IeHeader(ie) + ie.value + tail
    ensures AreBytes(b)
    ensures DecodeIes(b) == match DecodeIes(tail) { case None => None case Some(rest) => Some([ie] + rest) }
  {
    IeHeaderReads(ie);
    var h := IeHeader(ie);
    assert b[0] == h[0] && b[1] == h[1] && b[2] == h[2] && b[3] == h[3];
    assert b[4..4 + |ie.value|] == ie.value && b[4 + |ie.value|..] == tail;
  }

  lemma {:induction false} IesRoundTrip(ies: seq<Ie>)
    requires AllEncodable(ies)
    ensures AreBytes(EncodeIes(ies)) && DecodeIes(EncodeIes(ies)) == Some(ies)
  {
    if ies != [] {
      IesRoundTrip(ies[1..]);
      assert Encodable(ies[0]);
      DecodeFirst(EncodeIes(ies), ies[0], EncodeIes(ies[1..]));
      assert [ies[0]] + ies[1..] == ies;
    }
  }

  // The octets with the spare nibble of every IE header cleared.
  function Canonical(b: Bytes): Bytes
    requires AreBytes(b)
    decreases |b|
  {
    if |b| < 4 then b
    else
      var n := Get16(b[1], b[2]);
      if n > |b| - 4 then b else b[..3] + [b[3] % 16] + b[4..4 + n] + Canonical(b[4 + n..])
  }

  // Decoding loses the spare nibbles and nothing else (CanonicalClearsOnlySpare).
  lemma {:induction false} DecodedIesEncodeBack(b: Bytes)
    requires AreBytes(b) && DecodeIes(b).Some?
    ensures EncodeIes(DecodeIes(b).value) == Canonical(b) && AllEncodable(DecodeIes(b).value)
    decreases |b|
  {
    hide IeHeader, Encodable, Get16, Byte0, Byte1;
    if |b| >= 4 {
      var n := Get16(b[1], b[2]);
      FirstElement(b, n);
      DecodedIesEncodeBack(b[4 + n..]);
      EncodeFirst(Ie(b[0], b[3] % 16, b[4..4 + n]), DecodeIes(b[4 + n..]).value);
    }
  }

  lemma FirstElement(b: Bytes, n: nat)
    requires AreBytes(b) && |b| >= 4 && n == Get16(b[1], b[2]) <= |b| - 4
    ensures var ie := Ie(b[0], b[3] % 16, b[4..4 + n]);
            Encodable(ie) && IeHeader(ie) == b[..3] + [b[3] % 16]
  {
    LengthOctets(b[1], b[2]);
  }

  // The upper half of every instance octet is clear.
  predicate SpareClear(b: Bytes)
    requires AreBytes(b)
    decreases |b|
  {
    |b| < 4 || Get16(b[1], b[2]) > |b| - 4 || (b[3] < 16 && SpareClear(b[4 + Get16(b[1], b[2])..]))
  }

  // Clearing changes nothing but upper halves of octets, and nothing at all exactly when they are clear.
  lemma {:induction false} CanonicalClearsOnlySpare(b: Bytes)
    requires AreBytes(b)
    ensures |Canonical(b)| == |b| && forall i :: 0 <= i < |b| ==> Canonical(b)[i] == b[i] || Canonical(b)[i] == b[i] % 16
    ensures Canonical(b) == b <==> SpareClear(b)
    decreases |b|
  {
    if |b| >= 4 && Get16(b[1], b[2]) <= |b| - 4 {
      var n := Get16(b[1], b[2]);
      var c, rest := Canonical(b), b[4 + n..];
      CanonicalClearsOnlySpare(rest);
      hide Canonical, SpareClear, Get16;
      CanonicalSplits(b, b[..3] + [b[3] % 16] + b[4..4 + n], Canonical(rest), n);
    }
  }

  lemma CanonicalSplits(b: Bytes, first: Bytes, rest: Bytes, n: nat)
    requires 4 + n <= |b| && first == b[..3] + [b[3] % 16] + b[4..4 + n] && |rest| == |b| - 4 - n
    requires forall i :: 0 <= i < |rest| ==> rest[i] == b[4 + n..][i] || rest[i] == b[4 + n..][i] % 16
    ensures forall i :: 0 <= i < |b| ==> (first + rest)[i] == b[i] || (first + rest)[i] == b[i] % 16
    ensures first + rest == b <==> b[3] % 16 == b[3] && rest == b[4 + n..]
  {}

  lemma EncodeFirst(ie: Ie, rest: seq<Ie>)
    ensures EncodeIes([ie] + rest) == IeHeader(ie) + ie.value + EncodeIes(rest)
  {}

  // EncodeIEs: a loop that appends header and value.
  method EncodeIeList(ies: seq<Ie>) returns (buf: Bytes)
    ensures buf == EncodeIes(ies)
  {
    buf := [];
    assert ies[0..] == ies;
    for i := 0 to |ies|
      invariant buf + EncodeIes(ies[i..]) == EncodeIes(ies)
    {
      assert ies[i..][1..] == ies[i + 1..] && ies[i..][0] == ies[i];
      buf := buf + IeHeader(ies[i]);
      buf := buf + ies[i].value;
    }
  }

  // DecodeIEs: a loop that advances the slice.
  method DecodeIeList(bytes: Bytes) returns (r: Option<seq<Ie>>)
    requires AreBytes(bytes)
    ensures r == DecodeIes(bytes)
  {
    var b: Bytes, ies: seq<Ie> := bytes, [];
    if DecodeIes(b).Some? { assert ies + DecodeIes(b).value == DecodeIes(b).value; }
    while |b| >= 4
      invariant AreBytes(b)
      invariant DecodeIes(bytes) == match DecodeIes(b) { case None => None case Some(rest) => Some(ies + rest) }
      decreases |b|
    {
      var n := Get16(b[1], b[2]);
      if n > |b| - 4 { return None; }
      var ie := Ie(b[0], b[3] % 16, b[4..4 + n]);
      ghost var rest := DecodeIes(b[4 + n..]);
      if rest.Some? { assert ies + ([ie] + rest.value) == (ies + [ie]) + rest.value; }
      ies := ies + [ie];
      b := b[4 + n..];
    }
    if |b| != 0 { return None; }
    assert ies + [] == ies;
    r := Some(ies);
  }

  // ---------------------------------------------------------------- one message

  const HEADER: nat := 12
  const HEADER_NO_TEID: nat := 8
  const FLAGS: Octet := 0x48
  const FLAGS_NO_TEID: Octet := 0x40

  function HeaderLength(m: Message): nat {
    if m.hasTeid then HEADER else HEADER_NO_TEID
  }

  // The header, for `n` octets after the length field.
  function Header(m: Message, n: nat): Bytes {
    if m.hasTeid then
      [FLAGS, m.kind, Byte1(n), Byte0(n), Byte3(m.teid), Byte2(m.teid), Byte1(m.teid), Byte0(m.teid),
       Byte2(m.seqNum), Byte1(m.seqNum), Byte0(m.seqNum), 0]
    else
      [FLAGS_NO_TEID, m.kind, Byte1(n), Byte0(n), Byte2(m.seqNum), Byte1(m.seqNum), Byte0(m.seqNum), 0]
  }

  // Encode and EncodeNoTEID.
  function Encode(m: Message): Bytes {
    Header(m, HeaderLength(m) + |EncodeIes(m.ies)| - 4) + EncodeIes(m.ies)
  }

  function Version(b: Bytes): nat
    requires |b| > 0 && AreBytes(b)
  {
    b[0] / 32
  }

  predicate HasTeid(b: Bytes)
    requires |b| > 0 && AreBytes(b)
  {
    b[0] / 8 % 2 == 1
  }

  predicate Piggybacks(b: Bytes)
    requires |b| > 0 && AreBytes(b)
  {
    b[0] / 16 % 2 == 1
  }

  function FrameLength(b: Bytes): nat
    requires |b| >= 4 && AreBytes(b)
  {
    Get16(b[2], b[3]) + 4
  }

  function Decode(b: Bytes): Option<Message>
    requires AreBytes(b)
  {
    if |b| < HEADER_NO_TEID || Version(b) != 2 then None
    else
      var total := FrameLength(b);
      if |b| < total then None
      else if !HasTeid(b) then
        if total < HEADER_NO_TEID then None
        else
          var ies := DecodeIes(b[HEADER_NO_TEID..total]);
          if ies.None? then None else Some(Message(b[1], 0, Get24(b[4], b[5], b[6]), ies.value, false))
      else if |b| < HEADER || total < HEADER then None
      else
        var ies := DecodeIes(b[HEADER..total]);
        if ies.None? then None else Some(Message(b[1], Get32(b[4], b[5], b[6], b[7]), Get24(b[8], b[9], b[10]), ies.value, true))
  }

  // What fits on the wire: the 16-bit length, and numbers within their fields.
  predicate Fits(m: Message) {
    && 0 <= m.kind < 256 && m.teid < TWO32 && (!m.hasTeid ==> m.teid == 0) && AllEncodable(m.ies)
    && HeaderLength(m) + |EncodeIes(m.ies)| - 4 < TWO16
  }

  lemma HeaderReads(m: Message, n: nat)
    requires 0 <= m.kind < 256 && m.teid < TWO32 && n < TWO16
    ensures var h := Header(m, n);
            && |h| == HeaderLength(m) && AreBytes(h) && Version(h) == 2 && HasTeid(h) == m.hasTeid && !Piggybacks(h)
            && h[1] == m.kind && FrameLength(h) == n + 4
            && (if m.hasTeid
                then Get32(h[4], h[5], h[6], h[7]) == m.teid && Get24(h[8], h[9], h[10]) == m.seqNum % TWO24
                else Get24(h[4], h[5], h[6]) == m.seqNum % TWO24)
  {
    hide Byte0, Byte1, Byte2, Byte3, Get16, Get24, Get32;
    NumbersReadBack(n);
    NumbersReadBack(m.teid);
    NumbersReadBack(m.seqNum);
  }

  // Decode reads the header octets, and the body as information elements.
  lemma DecodeFrame(h: Bytes, body: Bytes)
    requires AreBytes(h) && AreBytes(body) && |h| >= 8 && Version(h) == 2 && FrameLength(h) == |h| + |body|
    requires |h| == if HasTeid(h) then HEADER else HEADER_NO_TEID
    ensures AreBytes(h + body)
    ensures Decode(h + body) ==
      match DecodeIes(body) {
        case None => None
        case Some(ies) =>
          if HasTeid(h) then Some(Message(h[1], Get32(h[4], h[5], h[6], h[7]), Get24(h[8], h[9], h[10]), ies, true))
          else Some(Message(h[1], 0, Get24(h[4], h[5], h[6]), ies, false))
      }
  {
    var b := h + body;
    assert b[|h|..|b|] == body;
  }

  lemma EncodedShape(m: Message)
    requires Fits(m)
    ensures var b := Encode(m);
            && AreBytes(b) && |b| == HeaderLength(m) + |EncodeIes(m.ies)| && |b| >= 8
            && FrameLength(b) == |b| && !Piggybacks(b)
  {
    hide Header, EncodeIes, DecodeIes, Get16, Get24, Get32, AllEncodable;
    IesRoundTrip(m.ies);
    var n := HeaderLength(m) + |EncodeIes(m.ies)| - 4;
    HeaderReads(m, n);
    assert Encode(m) == Header(m, n) + EncodeIes(m.ies);
  }

  // A message that fits comes back, with its sequence number reduced to 24 bits.
  lemma MessageRoundTrip(m: Message)
    requires Fits(m)
    ensures AreBytes(Encode(m)) && Decode(Encode(m)) == Some(m.(seqNum := m.seqNum % TWO24))
  {
    hide Header, EncodeIes, DecodeIes, Decode, Get16, Get24, Get32, AllEncodable;
    var n := HeaderLength(m) + |EncodeIes(m.ies)| - 4;
    IesRoundTrip(m.ies);
    HeaderReads(m, n);
    DecodeFrame(Header(m, n), EncodeIes(m.ies));
  }

  // Encode and EncodeNoTEID fill their buffer by index.
  method EncodeMessage(m: Message) returns (buf: array<Octet>)
    ensures fresh(buf) && buf[..] == Encode(m)
  {
    hide EncodeIes, Header;
    var body := EncodeIeList(m.ies);
    var n := HeaderLength(m) + |body| - 4;
    buf := new Octet[4 + n];
    WriteHeader(buf, m, n);
    CopyInto(buf, HeaderLength(m), body);
    assert buf[..] == Header(m, n) + body;
  }

  method WriteHeader(buf: array<Octet>, m: Message, n: nat)
    requires buf.Length >= HeaderLength(m)
    modifies buf
    ensures buf[..HeaderLength(m)] == Header(m, n)
  {
    hide Byte0, Byte1, Byte2, Byte3;
    buf[0] := if m.hasTeid then FLAGS else FLAGS_NO_TEID;
    buf[1] := m.kind;
    buf[2], buf[3] := Byte1(n), Byte0(n);
    if m.hasTeid {
      buf[4], buf[5], buf[6], buf[7] := Byte3(m.teid), Byte2(m.teid), Byte1(m.teid), Byte0(m.teid);
      buf[8], buf[9], buf[10], buf[11] := Byte2(m.seqNum), Byte1(m.seqNum), Byte0(m.seqNum), 0;
    } else {
      buf[4], buf[5], buf[6], buf[7] := Byte2(m.seqNum), Byte1(m.seqNum), Byte0(m.seqNum), 0;
    }
  }

  method CopyInto(buf: array<Octet>, at: nat, bytes: Bytes)
    requires at + |bytes| <= buf.Length
    modifies buf
    ensures buf[..] == old(buf[..at]) + bytes + old(buf[at + |bytes|..])
  {
    var i := 0;
    while i < |bytes|
      invariant 0 <= i <= |bytes|
      invariant forall k :: 0 <= k < buf.Length ==> buf[k] == if at <= k < at + i then bytes[k - at] else old(buf[k])
    {
      buf[at + i] := bytes[i];
      i := i + 1;
    }
  }

  // ---------------------------------------------------------------- several messages

  function SetPiggyback(flags: Octet): Octet {
    if flags / 16 % 2 == 1 then flags else flags + 16
  }

  // EncodePiggybacked, for two non-empty messages.
  function Piggyback(primary: Bytes, rest: Bytes): Bytes
    requires |primary| > 0
  {
    Flagged(primary) + rest
  }

  // A datagram: every message but the last carries the piggyback flag.
  function EncodeAll(ms: seq<Message>): Bytes
    requires ms != []
  {
    if |ms| == 1 then Encode(ms[0]) else Piggyback(Encode(ms[0]), EncodeAll(ms[1..]))
  }

  function DecodeAll(b: Bytes): Option<seq<Message>>
    requires AreBytes(b)
    decreases |b|
  {
    if |b| < HEADER_NO_TEID then None
    else
      var total := FrameLength(b);
      if |b| < total then None
      else
        var m := Decode(b[..total]);
        if m.None? then None
        else if !Piggybacks(b) then if |b| == total then Some([m.value]) else None
        // A flag with nothing behind it ends the datagram all the same.
        else if |b| == total then Some([m.value])
        else
          var rest := DecodeAll(b[total..]);
          if rest.None? then None else Some([m.value] + rest.value)
  }

  method DecodeDatagram(bytes: Bytes) returns (r: Option<seq<Message>>)
    requires AreBytes(bytes)
    ensures r == DecodeAll(bytes)
  {
    if |bytes| == 0 { return None; }
    var b: Bytes, ms: seq<Message> := bytes, [];
    if DecodeAll(b).Some? { assert ms + DecodeAll(b).value == DecodeAll(b).value; }
    while |b| > 0
      invariant AreBytes(b)
      invariant |b| == 0 ==> DecodeAll(bytes) == Some(ms)
      invariant |b| > 0 ==>
        DecodeAll(bytes) == match DecodeAll(b) { case None => None case Some(rest) => Some(ms + rest) }
      decreases |b|
    {
      if |b| < HEADER_NO_TEID { return None; }
      var total := FrameLength(b);
      if |b| < total { return None; }
      var m := Decode(b[..total]);
      if m.None? { return None; }
      var piggyback := Piggybacks(b);
      ghost var rest := DecodeAll(b[total..]);
      if rest.Some? { assert ms + ([m.value] + rest.value) == (ms + [m.value]) + rest.value; }
      ms := ms + [m.value];
      b := b[total..];
      if !piggyback {
        if |b| != 0 { return None; }
        break;
      }
    }
    r := Some(ms);
  }

  function Flagged(b: Bytes): Bytes
    requires |b| > 0
  {
    [SetPiggyback(b[0])] + b[1..]
  }

  lemma FlagIsClear(x: Octet, top: Octet, low: Octet)
    requires IsByte(x) && x == top * 32 + low && 0 <= low < 16
    ensures (x + 16) / 32 == x / 32 && (x + 16) / 8 % 2 == x / 8 % 2 && (x + 16) / 16 % 2 == 1 && x + 16 < 256
  {
    assert x / 32 == top && (x + 16) / 32 == top;
    assert x / 8 == top * 4 + low / 8 && (x + 16) / 8 == top * 4 + low / 8 + 2;
    assert (x + 16) / 16 == top * 2 + 1;
  }

  lemma FlagBits(x: Octet)
    requires IsByte(x)
    ensures var y := SetPiggyback(x); IsByte(y) && y / 32 == x / 32 && y / 8 % 2 == x / 8 % 2 && y / 16 % 2 == 1
  {
    if x / 16 % 2 != 1 { FlagIsClear(x, x / 32, x % 16); }
  }

  // The piggyback flag is the only thing Decode does not look at.
  lemma FlagIsIgnored(b: Bytes)
    requires AreBytes(b) && |b| >= 8
    ensures AreBytes(Flagged(b)) && Decode(Flagged(b)) == Decode(b)
    ensures Piggybacks(Flagged(b)) && FrameLength(Flagged(b)) == FrameLength(b)
  {
    var f := Flagged(b);
    FlagBits(b[0]);
    hide SetPiggyback, DecodeIes;
    assert |f| == |b| && forall i :: 1 <= i < |b| ==> f[i] == b[i];
    var total := FrameLength(b);
    if total <= |b| {
      if HasTeid(b) && 12 <= total { assert f[12..total] == b[12..total]; }
      if !HasTeid(b) && 8 <= total { assert f[8..total] == b[8..total]; }
    }
  }

  lemma DecodeFlaggedFirst(f: Bytes, rest: Bytes)
    requires AreBytes(f) && AreBytes(rest) && |f| >= 8 && FrameLength(f) == |f| && Piggybacks(f) && rest != []
    requires Decode(f).Some?
    ensures AreBytes(f + rest)
    ensures DecodeAll(f + rest) ==
      match DecodeAll(rest) { case None => None case Some(ms) => Some([Decode(f).value] + ms) }
  {}

  lemma LastOfDatagram(m: Message)
    requires Fits(m) && m.seqNum < TWO24
    ensures AreBytes(Encode(m)) && Encode(m) != [] && DecodeAll(Encode(m)) == Some([m])
  {
    hide Encode, Decode, Fits, SetPiggyback, Get16, Version, HasTeid;
    EncodedShape(m);
    MessageRoundTrip(m);
    assert Encode(m)[..|Encode(m)|] == Encode(m);
  }

  lemma FirstOfDatagram(m: Message, rest: Bytes, ms: seq<Message>)
    requires Fits(m) && m.seqNum < TWO24 && AreBytes(rest) && rest != [] && DecodeAll(rest) == Some(ms)
    ensures |Encode(m)| > 0 && AreBytes(Flagged(Encode(m)) + rest) && DecodeAll(Flagged(Encode(m)) + rest) == Some([m] + ms)
  {
    hide Encode, Decode, DecodeAll, Fits, SetPiggyback, Get16, Version, HasTeid;
    EncodedShape(m);
    MessageRoundTrip(m);
    FlagIsIgnored(Encode(m));
    DecodeFlaggedFirst(Flagged(Encode(m)), rest);
  }

  // Any list of messages that fit survives one datagram.
  lemma {:induction false} DatagramRoundTrip(ms: seq<Message>)
    requires ms != [] && forall i :: 0 <= i < |ms| ==> Fits(ms[i]) && ms[i].seqNum < TWO24
    ensures AreBytes(EncodeAll(ms)) && EncodeAll(ms) != [] && DecodeAll(EncodeAll(ms)) == Some(ms)
  {
    hide Encode, Decode, DecodeAll, Fits, Flagged;
    assert Fits(ms[0]) && ms[0].seqNum < TWO24;
    if |ms| == 1 {
      LastOfDatagram(ms[0]);
      assert [ms[0]] == ms;
    } else {
      DatagramRoundTrip(ms[1..]);
      FirstOfDatagram(ms[0], EncodeAll(ms[1..]), ms[1..]);
      assert EncodeAll(ms) == Flagged(Encode(ms[0])) + EncodeAll(ms[1..]);
      assert ms == [ms[0]] + ms[1..];
    }
  }

  // Walking the length fields of `n` messages ends exactly at the end of the datagram.
  predicate Consumed(b: Bytes, n: nat)
    requires AreBytes(b)
  {
    if n == 0 then b == [] else |b| >= 8 && FrameLength(b) <= |b| && Consumed(b[FrameLength(b)..], n - 1)
  }

  // Whatever is accepted was consumed to the last octet.
  lemma {:induction false} AcceptedIsConsumed(b: Bytes)
    requires AreBytes(b) && DecodeAll(b).Some?
    ensures |DecodeAll(b).value| > 0 && Consumed(b, |DecodeAll(b).value|)
    decreases |b|
  {
    var total := FrameLength(b);
    if Piggybacks(b) && |b| != total {
      AcceptedIsConsumed(b[total..]);
    } else {
      assert b[total..] == [];
      assert Consumed(b[total..], 0);
    }
  }

  // A final message that announces another one is accepted like one that does not.
  lemma DanglingPiggybackIsAccepted(m: Message)
    requires Fits(m) && m.seqNum < TWO24
    ensures var b := Encode(m);
            && |b| > 0 && AreBytes(Flagged(b)) && Piggybacks(Flagged(b)) && DecodeAll(Flagged(b)) == Some([m])
  {
    hide Encode, Decode, Fits, SetPiggyback, Get16, Version, HasTeid;
    EncodedShape(m);
    MessageRoundTrip(m);
    var b := Encode(m);
    FlagIsIgnored(b);
    assert Flagged(b)[..|b|] == Flagged(b);
  }

  // ---------------------------------------------------------------- the octets on the wire

  // An element is its type, its length in network order, its instance in the low nibble, and its value.
  lemma ElementLayout(ie: Ie)
    requires Encodable(ie)
    ensures var b := EncodeIes([ie]);
            && |b| == 4 + |ie.value| && b[0] == ie.kind && b[1] * 256 + b[2] == |ie.value| && b[3] == ie.instance
            && b[4..] == ie.value
  {
    EncodeFirst(ie, []);
    assert [ie] + [] == [ie] && EncodeIes([]) == [];
    hide IeHeader, EncodeIes, Encodable;
    IeHeaderReads(ie);
    HeaderThenBody(IeHeader(ie), ie.value);
    assert IeHeader(ie) + ie.value + [] == IeHeader(ie) + ie.value;
  }

  // Section 5.1: version 2 in the top three bits, the TEID flag in bit 4, the length without the first
  // four octets, then the TEID if there is one, the sequence number and a spare octet; all in network order.
  lemma MessageLayout(m: Message)
    requires Fits(m)
    ensures var b := Encode(m);
            && |b| >= (if m.hasTeid then 12 else 8) && b[0] == (if m.hasTeid then 0x48 else 0x40) && b[1] == m.kind
            && b[2] * 0x100 + b[3] == |b| - 4
            && (m.hasTeid ==>
                  && b[4] * 0x1000000 + b[5] * 0x10000 + b[6] * 0x100 + b[7] == m.teid
                  && b[8] * 0x10000 + b[9] * 0x100 + b[10] == m.seqNum % 0x1000000 && b[11] == 0
                  && b[12..] == EncodeIes(m.ies))
            && (!m.hasTeid ==>
                  b[4] * 0x10000 + b[5] * 0x100 + b[6] == m.seqNum % 0x1000000 && b[7] == 0 && b[8..] == EncodeIes(m.ies))
  {
    hide Header, EncodeIes, AllEncodable;
    var n := HeaderLength(m) + |EncodeIes(m.ies)| - 4;
    HeaderReads(m, n);
    FlagsAndSpare(m, n);
    HeaderThenBody(Header(m, n), EncodeIes(m.ies));
    assert Encode(m) == Header(m, n) + EncodeIes(m.ies);
  }

  lemma FlagsAndSpare(m: Message, n: nat)
    ensures var h := Header(m, n);
            |h| == (if m.hasTeid then 12 else 8) && h[0] == (if m.hasTeid then 0x48 else 0x40) && h[|h| - 1] == 0
  {
    hide Byte0, Byte1, Byte2, Byte3;
  }

  lemma HeaderThenBody(h: Bytes, body: Bytes)
    ensures |h + body| == |h| + |body| && (h + body)[|h|..] == body
    ensures forall i :: 0 <= i < |h| ==> (h + body)[i] == h[i]
  {}

  // The octets are a row of elements: each has a header, and a value of the length it announces.
  predicate Tiles(b: Bytes)
    requires AreBytes(b)
    decreases |b|
  {
    b == [] || (|b| >= 4 && 4 + b[1] * 256 + b[2] <= |b| && Tiles(b[4 + b[1] * 256 + b[2]..]))
  }

  lemma {:induction false} ElementsExactlyWhen(b: Bytes)
    requires AreBytes(b)
    ensures DecodeIes(b).Some? <==> Tiles(b)
    decreases |b|
  {
    if |b| >= 4 && 4 + b[1] * 256 + b[2] <= |b| { ElementsExactlyWhen(b[4 + b[1] * 256 + b[2]..]); }
  }

  // A message is accepted exactly when its version is 2, its length leaves room for its header and is
  // not longer than the octets, and the rest are elements. What follows its length is not looked at.
  lemma MessageExactlyWhen(b: Bytes)
    requires AreBytes(b)
    ensures Decode(b).Some? <==>
              && |b| >= 8 && b[0] / 32 == 2
              && var total, header := b[2] * 256 + b[3] + 4, if b[0] / 8 % 2 == 1 then 12 else 8;
                 header <= total <= |b| && Tiles(b[header..total])
    ensures Decode(b).Some? ==>
              var m := Decode(b).value;
              && m.kind == b[1] && (m.hasTeid <==> b[0] / 8 % 2 == 1)
              && (if m.hasTeid
                  then m.teid == b[4] * 0x1000000 + b[5] * 0x10000 + b[6] * 0x100 + b[7]
                       && m.seqNum == b[8] * 0x10000 + b[9] * 0x100 + b[10]
                       && DecodeIes(b[12..b[2] * 256 + b[3] + 4]) == Some(m.ies)
                  else m.teid == 0 && m.seqNum == b[4] * 0x10000 + b[5] * 0x100 + b[6]
                       && DecodeIes(b[8..b[2] * 256 + b[3] + 4]) == Some(m.ies))
  {
    hide Tiles, DecodeIes;
    if |b| >= 8 {
      var total := b[2] * 256 + b[3] + 4;
      if 12 <= total <= |b| { ElementsExactlyWhen(b[12..total]); }
      if 8 <= total <= |b| { ElementsExactlyWhen(b[8..total]); }
    }
  }
}
