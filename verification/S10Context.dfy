/**
 * S10 inter-MME context transfer (internal/gtpv2/ies.go:212-249, 416-529, 547-612): the MM
 * Context and PDN Connection information elements, and the TBCD and DNS-label codecs below them.
 * Strings are sequences of octets, digits are given by their value.
 */
module S10Context {
  import opened Common
  import opened Gtpv2

  // ---------------------------------------------------------------- TBCD digits

  predicate Nibbles(d: Bytes) {
    forall i :: 0 <= i < |d| ==> 0 <= d[i] < 16
  }

  // bcdEncode: two digits to an octet, low nibble first, F filling up an odd last one.
  function BcdEncode(d: Bytes): Bytes
    requires Nibbles(d)
  {
    if d == [] then []
    else if |d| == 1 then [d[0] + 0xF0]
    else [d[0] + d[1] * 16] + BcdEncode(d[2..])
  }

  // bcdDecode: a high nibble F is no digit, wherever it stands.
  function BcdDecode(b: Bytes): Bytes
    requires AreBytes(b)
  {
    if b == [] then []
    else [b[0] % 16] + (if b[0] / 16 != 15 then [b[0] / 16] else []) + BcdDecode(b[1..])
  }

  lemma {:induction false} BcdEncodesToBytes(d: Bytes)
    requires Nibbles(d)
    ensures AreBytes(BcdEncode(d)) && |BcdEncode(d)| == (|d| + 1) / 2
  {
    if |d| > 1 { BcdEncodesToBytes(d[2..]); }
  }

  // The digits that come out in high nibbles: F there is lost.
  function LostDigits(d: Bytes): nat {
    if |d| < 2 then 0 else (if d[1] == 15 then 1 else 0) + LostDigits(d[2..])
  }

  lemma {:induction false} BcdLosesDigits(d: Bytes)
    requires Nibbles(d) && AreBytes(BcdEncode(d))
    ensures |BcdDecode(BcdEncode(d))| == |d| - LostDigits(d)
    ensures LostDigits(d) == 0 ==> BcdDecode(BcdEncode(d)) == d
  {
    if |d| == 1 {
      assert BcdEncode(d)[1..] == [];
      assert BcdDecode([]) == [];
    } else if |d| > 1 {
      BcdEncodesToBytes(d[2..]);
      BcdLosesDigits(d[2..]);
      var b := BcdEncode(d);
      assert b[1..] == BcdEncode(d[2..]);
      assert (d[0] + d[1] * 16) % 16 == d[0] && (d[0] + d[1] * 16) / 16 == d[1];
      assert d == [d[0]] + [d[1]] + d[2..];
    }
  }

  lemma {:induction false} NothingLostExactlyWhen(d: Bytes)
    ensures LostDigits(d) == 0 <==> forall i :: 0 <= i < |d| && i % 2 == 1 ==> d[i] != 15
  {
    if |d| >= 2 {
      NothingLostExactlyWhen(d[2..]);
      forall i | 2 <= i < |d| ensures d[i] == d[2..][i - 2] {}
      if forall i :: 0 <= i < |d| && i % 2 == 1 ==> d[i] != 15 {
        forall i | 0 <= i < |d[2..]| && i % 2 == 1 ensures d[2..][i] != 15 { assert d[i + 2] != 15; }
      }
    }
  }

  // Digits survive, for odd and even lengths, exactly when none in a high nibble is F.
  lemma BcdRoundTripExactlyWhen(d: Bytes)
    requires Nibbles(d)
    ensures AreBytes(BcdEncode(d))
    ensures BcdDecode(BcdEncode(d)) == d <==> forall i :: 0 <= i < |d| && i % 2 == 1 ==> d[i] != 15
  {
    BcdEncodesToBytes(d);
    BcdLosesDigits(d);
    NothingLostExactlyWhen(d);
  }

  // The other way round: octets whose only F nibble, if any, is the last high one are encoded back.
  lemma {:induction false} BcdReencodes(b: Bytes)
    requires AreBytes(b) && forall i :: 0 <= i < |b| - 1 ==> b[i] / 16 != 15
    ensures Nibbles(BcdDecode(b)) && BcdEncode(BcdDecode(b)) == b
  {
    if |b| == 1 {
      assert BcdDecode(b[1..]) == [];
      assert b[0] == b[0] % 16 + b[0] / 16 * 16;
      if b[0] / 16 != 15 { assert BcdDecode(b)[2..] == []; }
    } else if |b| > 1 {
      BcdReencodes(b[1..]);
      assert b[0] / 16 != 15;
      var d := BcdDecode(b);
      assert d == [b[0] % 16, b[0] / 16] + BcdDecode(b[1..]);
      assert d[2..] == BcdDecode(b[1..]);
      assert b[0] == b[0] % 16 + b[0] / 16 * 16;
    }
  }

  // The loop over the digits, writing nibbles by index.
  method EncodeDigits(d: Bytes) returns (out: array<Octet>)
    requires Nibbles(d)
    ensures fresh(out) && out[..] == BcdEncode(d)
  {
    out := new Octet[(|d| + 1) / 2](_ => 0);
    var i := 0;
    while i < |d|
      invariant 0 <= i <= |d|
      invariant forall k :: 0 <= k < i / 2 ==> out[k] == d[2 * k] + d[2 * k + 1] * 16
      invariant i % 2 == 1 ==> out[i / 2] == d[i - 1]
      invariant forall k :: (i + 1) / 2 <= k < out.Length ==> out[k] == 0
    {
      if i % 2 == 0 {
        out[i / 2] := d[i];
      } else {
        out[i / 2] := out[i / 2] + d[i] * 16;
      }
      i := i + 1;
    }
    if |d| % 2 != 0 { out[|d| / 2] := out[|d| / 2] + 0xF0; }
    BcdOctets(d);
    assert out[..] == BcdEncode(d);
  }

  lemma {:induction false} BcdOctets(d: Bytes)
    requires Nibbles(d)
    ensures |BcdEncode(d)| == (|d| + 1) / 2
    ensures forall k :: 0 <= k < |d| / 2 ==> BcdEncode(d)[k] == d[2 * k] + d[2 * k + 1] * 16
    ensures |d| % 2 == 1 ==> BcdEncode(d)[|d| / 2] == d[|d| - 1] + 0xF0
  {
    if |d| > 1 {
      var t := d[2..];
      BcdOctets(t);
      forall k | 0 < k < |d| / 2 ensures BcdEncode(d)[k] == d[2 * k] + d[2 * k + 1] * 16 {
        assert BcdEncode(d)[k] == BcdEncode(t)[k - 1];
      }
    }
  }

  // ---------------------------------------------------------------- DNS labels

  const DOT: Octet := 46

  // A name cut at its dots; the empty name is one empty label.
  function Labels(name: Bytes): (ls: seq<Bytes>)
    ensures ls != []
  {
    if name == [] then [[]]
    else
      var rest := Labels(name[1..]);
      if name[0] == DOT then [[]] + rest else [[name[0]] + rest[0]] + rest[1..]
  }

  function Join(ls: seq<Bytes>): Bytes {
    if ls == [] then [] else if |ls| == 1 then ls[0] else ls[0] + [DOT] + Join(ls[1..])
  }

  lemma {:induction false} LabelsJoin(name: Bytes)
    ensures Join(Labels(name)) == name
    ensures forall i :: 0 <= i < |Labels(name)| ==> DOT !in Labels(name)[i]
  {
    if name != [] {
      LabelsJoin(name[1..]);
      var rest, ls := Labels(name[1..]), Labels(name);
      if name[0] == DOT {
        assert ls[1..] == rest;
        assert Join(ls) == [] + [DOT] + name[1..];
      } else if |rest| == 1 {
        assert Join(ls) == [name[0]] + rest[0];
      } else {
        assert ls[1..] == rest[1..];
        assert Join(ls) == [name[0]] + Join(rest);
      }
      assert name == [name[0]] + name[1..];
    }
  }

  // byte(len(label)) and the label.
  function EncodeLabels(ls: seq<Bytes>): Bytes {
    if ls == [] then [] else [|ls[0]| % 256] + ls[0] + EncodeLabels(ls[1..])
  }

  function EncodeName(name: Bytes): Bytes {
    if name == [] then [0] else EncodeLabels(Labels(name))
  }

  // The loop of decodeDNSLabels: it stops at a zero length or at a label that is cut short.
  function DecodeLabels(b: Bytes): seq<Bytes>
    requires AreBytes(b)
    decreases |b|
  {
    if b == [] || b[0] == 0 || 1 + b[0] > |b| then [] else [b[1..1 + b[0]]] + DecodeLabels(b[1 + b[0]..])
  }

  function DecodeName(b: Bytes): Bytes
    requires AreBytes(b)
  {
    Join(DecodeLabels(b))
  }

  predicate ProperLabels(ls: seq<Bytes>) {
    forall i :: 0 <= i < |ls| ==> 1 <= |ls[i]| <= 255
  }

  lemma {:induction false} EncodedLabelsAreBytes(ls: seq<Bytes>)
    requires forall i :: 0 <= i < |ls| ==> AreBytes(ls[i])
    ensures AreBytes(EncodeLabels(ls))
  {
    if ls != [] {
      assert AreBytes(ls[0]);
      EncodedLabelsAreBytes(ls[1..]);
    }
  }

  lemma {:induction false} ProperLabelsDecode(ls: seq<Bytes>)
    requires ProperLabels(ls) && AreBytes(EncodeLabels(ls))
    ensures DecodeLabels(EncodeLabels(ls)) == ls
  {
    if ls != [] {
      FirstLabelDecodes(ls);
      forall i | 0 <= i < |ls[1..]| ensures 1 <= |ls[1..][i]| <= 255 { assert ls[1..][i] == ls[i + 1]; }
      hide DecodeLabels, EncodeLabels;
      ProperLabelsDecode(ls[1..]);
      assert ls == [ls[0]] + ls[1..];
    }
  }

  // An improper first label ends the name at once or puts a dot inside the label.
  lemma ImproperFirstLabelIsLost(ls: seq<Bytes>)
    requires ls != [] && !(1 <= |ls[0]| <= 255) && AreBytes(EncodeLabels(ls)) && DOT !in ls[0]
    ensures var d := DecodeLabels(EncodeLabels(ls)); d == [] || Join(d) != Join(ls)
  {
    var b, l := EncodeLabels(ls), ls[0];
    assert b[0] == |l| % 256 && forall i :: 0 <= i < |l| ==> b[1 + i] == l[i];
    var d := DecodeLabels(b);
    if d != [] {
      var n := |l| % 256;
      assert 0 < n < |l| && d[0] == b[1..1 + n];
      hide DecodeLabels, EncodeLabels, Join;
      JoinStarts(d);
      JoinStarts(ls);
      assert Join(ls)[n] == Join(ls)[..|l|][n] == l[n];
    }
  }

  lemma FirstLabelDecodes(ls: seq<Bytes>)
    requires ls != [] && 1 <= |ls[0]| <= 255 && AreBytes(EncodeLabels(ls))
    ensures AreBytes(EncodeLabels(ls[1..]))
    ensures DecodeLabels(EncodeLabels(ls)) == [ls[0]] + DecodeLabels(EncodeLabels(ls[1..]))
  {
    Pieces([|ls[0]|], ls[0], EncodeLabels(ls[1..]));
    hide EncodeLabels;
    DecodeOne(EncodeLabels(ls), ls[0], EncodeLabels(ls[1..]));
  }

  lemma DecodeOne(b: Bytes, l: Bytes, rest: Bytes)
    requires 1 <= |l| <= 255 && AreBytes(b) && b == [|l|] + l + rest
    ensures AreBytes(rest) && DecodeLabels(b) == [l] + DecodeLabels(rest)
  {}

  lemma Pieces(a: Bytes, b: Bytes, c: Bytes)
    ensures (a + b + c)[..|a|] == a && (a + b + c)[|a|..|a| + |b|] == b && (a + b + c)[|a| + |b|..] == c
  {}

  // A label of length 0 or over 255 anywhere loses the name.
  lemma {:induction false} ImproperLabelsAreLost(ls: seq<Bytes>)
    requires ls != [] && !ProperLabels(ls) && AreBytes(EncodeLabels(ls))
    requires forall i :: 0 <= i < |ls| ==> DOT !in ls[i]
    ensures var d := DecodeLabels(EncodeLabels(ls)); d == [] || Join(d) != Join(ls)
  {
    hide DecodeLabels, EncodeLabels, Join;
    if 1 <= |ls[0]| <= 255 {
      RestIsImproper(ls);
      FirstLabelDecodes(ls);
      ImproperLabelsAreLost(ls[1..]);
      LongerJoin(ls[0], DecodeLabels(EncodeLabels(ls[1..])), ls[1..]);
      assert ls == [ls[0]] + ls[1..];
    } else {
      ImproperFirstLabelIsLost(ls);
    }
  }

  lemma RestIsImproper(ls: seq<Bytes>)
    requires ls != [] && !ProperLabels(ls) && 1 <= |ls[0]| <= 255
    ensures ls[1..] != [] && !ProperLabels(ls[1..])
  {}

  lemma JoinStarts(ls: seq<Bytes>)
    requires ls != []
    ensures |Join(ls)| >= |ls[0]| && Join(ls)[..|ls[0]|] == ls[0]
    ensures if |ls| == 1 then Join(ls) == ls[0] else |Join(ls)| > |ls[0]| && Join(ls)[|ls[0]|] == DOT
  {}

  lemma LongerJoin(l: Bytes, a: seq<Bytes>, b: seq<Bytes>)
    requires b != [] && (a == [] || Join(a) != Join(b))
    ensures Join([l] + a) != Join([l] + b)
  {
    assert ([l] + a)[1..] == a && ([l] + b)[1..] == b;
    if a == [] {
      assert |Join([l] + a)| == |l| && |Join([l] + b)| > |l|;
    } else {
      assert Join([l] + a)[|l| + 1..] == Join(a) && Join([l] + b)[|l| + 1..] == Join(b);
    }
  }

  // A name survives exactly when it is empty or all its labels have 1 to 255 octets.
  lemma NameRoundTripExactlyWhen(name: Bytes)
    requires AreBytes(name)
    ensures AreBytes(EncodeName(name))
    ensures DecodeName(EncodeName(name)) == name <==> name == [] || ProperLabels(Labels(name))
  {
    if name == [] {
      assert DecodeLabels([0]) == [];
    } else {
      LabelsJoin(name);
      LabelsAreBytes(name);
      EncodedLabelsAreBytes(Labels(name));
      if ProperLabels(Labels(name)) {
        ProperLabelsDecode(Labels(name));
      } else {
        ImproperLabelsAreLost(Labels(name));
      }
    }
  }

  lemma {:induction false} LabelsAreBytes(name: Bytes)
    requires AreBytes(name)
    ensures forall i :: 0 <= i < |Labels(name)| ==> AreBytes(Labels(name)[i])
  {
    if name != [] { LabelsAreBytes(name[1..]); }
  }

  lemma {:induction false} EncodedLabelsLength(name: Bytes)
    ensures |EncodeLabels(Labels(name))| == |name| + 1
  {
    if name != [] {
      EncodedLabelsLength(name[1..]);
      var rest, ls := Labels(name[1..]), Labels(name);
      if name[0] == DOT {
        assert ls[1..] == rest;
      } else {
        assert ls[1..] == rest[1..];
      }
    }
  }

  lemma DecodeStep(b: Bytes, i: nat)
    requires AreBytes(b) && i < |b|
    ensures DecodeLabels(b[i..]) ==
      if b[i] == 0 || i + 1 + b[i] > |b| then []
      else [b[i + 1..i + 1 + b[i]]] + DecodeLabels(b[i + 1 + b[i]..])
  {
    var t := b[i..];
    if b[i] != 0 && i + 1 + b[i] <= |b| {
      assert t[1..1 + t[0]] == b[i + 1..i + 1 + b[i]] && t[1 + t[0]..] == b[i + 1 + b[i]..];
    }
  }

  lemma Appending<T>(a: seq<T>, b: seq<T>, c: seq<T>)
    ensures a + (b + c) == (a + b) + c && a + [] == a == [] + a
  {}

  // decodeDNSLabels: a loop over the octets.
  method DecodeNameOctets(b: Bytes) returns (parts: seq<Bytes>)
    requires AreBytes(b)
    ensures parts == DecodeLabels(b)
  {
    parts := [];
    var i := 0;
    assert b[0..] == b && DecodeLabels([]) == [];
    Appending(DecodeLabels(b), [], []);
    hide DecodeLabels;
    while i < |b|
      invariant 0 <= i <= |b|
      invariant parts + DecodeLabels(b[i..]) == DecodeLabels(b)
    {
      DecodeStep(b, i);
      var n := b[i];
      i := i + 1;
      if n == 0 || i + n > |b| {
        Appending(parts, [], []);
        return;
      }
      Appending(parts, [b[i..i + n]], DecodeLabels(b[i + n..]));
      parts := parts + [b[i..i + n]];
      i := i + n;
    }
    assert b[i..] == [];
    Appending(parts, [], []);
  }

  // ---------------------------------------------------------------- MM Context

  datatype MmContext = MmContext(intAlg: Octet, encAlg: Octet, ncc: Octet, ulCount: nat, dlCount: nat,
                                 kasme: Bytes, nh: Bytes, msisdn: Bytes, apn: Bytes)

  const KEY: nat := 32
  const FIXED: nat := 77

  // copy into a 32-octet buffer of zeros.
  function Key32(k: Bytes): (r: Bytes)
    ensures |r| == KEY
  {
    seq(KEY, i requires 0 <= i < KEY => if i < |k| then k[i] else 0)
  }

  function Word(n: nat): (w: Bytes)
    ensures |w| == 4
  {
    [Byte3(n), Byte2(n), Byte1(n), Byte0(n)]
  }

  function MmFixed(p: MmContext): (b: Bytes)
    ensures |b| == FIXED
  {
    [1, p.intAlg, p.encAlg, p.ncc] + Word(p.ulCount) + Word(p.dlCount) + Key32(p.kasme) + Key32(p.nh)
    + [Byte0(|p.msisdn|)]
  }

  function EncodeMm(p: MmContext): Bytes {
    MmFixed(p) + p.msisdn + EncodeName(p.apn)
  }

  function DecodeMm(v: Bytes): Option<MmContext>
    requires AreBytes(v)
  {
    if |v| < FIXED || v[0] != 1 then None
    else
      var n := v[76];
      if FIXED + n > |v| then None
      else
        Some(MmContext(v[1], v[2], v[3], Get32(v[4], v[5], v[6], v[7]), Get32(v[8], v[9], v[10], v[11]),
                       v[12..44], v[44..76], v[FIXED..FIXED + n],
                       if FIXED + n < |v| then DecodeName(v[FIXED + n..]) else []))
  }

  predicate MmOctets(p: MmContext) {
    && IsByte(p.intAlg) && IsByte(p.encAlg) && IsByte(p.ncc) && p.ulCount < TWO32 && p.dlCount < TWO32
    && AreBytes(p.kasme) && AreBytes(p.nh) && AreBytes(p.msisdn) && AreBytes(p.apn)
  }

  lemma MmFixedReads(p: MmContext)
    requires MmOctets(p)
    ensures var h := MmFixed(p);
            && AreBytes(h) && h[0] == 1 && h[1] == p.intAlg && h[2] == p.encAlg && h[3] == p.ncc
            && Get32(h[4], h[5], h[6], h[7]) == p.ulCount && Get32(h[8], h[9], h[10], h[11]) == p.dlCount
            && h[12..44] == Key32(p.kasme) && h[44..76] == Key32(p.nh) && h[76] == |p.msisdn| % 256
  {
    hide Byte0, Byte1, Byte2, Byte3, Get32, Key32;
    WordReads(p.ulCount);
    WordReads(p.dlCount);
    LowOctet(|p.msisdn|);
    Key32Keeps(p.kasme);
    Key32Keeps(p.nh);
    var h, ul, dl := MmFixed(p), Word(p.ulCount), Word(p.dlCount);
    assert h[4..8] == ul && h[8..12] == dl && h[12..44] == Key32(p.kasme) && h[44..76] == Key32(p.nh);
    assert h[4] == ul[0] && h[5] == ul[1] && h[6] == ul[2] && h[7] == ul[3];
    assert h[8] == dl[0] && h[9] == dl[1] && h[10] == dl[2] && h[11] == dl[3];
    assert forall i :: 12 <= i < 44 ==> h[i] == h[12..44][i - 12];
    assert forall i :: 44 <= i < 76 ==> h[i] == h[44..76][i - 44];
  }

  lemma WordReads(n: nat)
    requires n < TWO32
    ensures var w := Word(n); AreBytes(w) && Get32(w[0], w[1], w[2], w[3]) == n
  {
    NumbersReadBack(n);
  }

  lemma LowOctet(n: nat)
    ensures Byte0(n) == n % 256 && IsByte(Byte0(n))
  {}

  lemma Key32Keeps(k: Bytes)
    requires AreBytes(k)
    ensures AreBytes(Key32(k)) && (Key32(k) == k <==> |k| == KEY)
  {}

  // What comes back when the MSISDN fits its length octet: keys cut or padded to 32 octets, and
  // the name as its labels allow.
  lemma MmDecodes(p: MmContext)
    requires MmOctets(p) && |p.msisdn| < 256
    ensures AreBytes(EncodeMm(p)) && AreBytes(EncodeName(p.apn))
    ensures DecodeMm(EncodeMm(p)) == Some(p.(kasme := Key32(p.kasme), nh := Key32(p.nh),
                                            apn := DecodeName(EncodeName(p.apn))))
  {
    MmFixedReads(p);
    NameRoundTripExactlyWhen(p.apn);
    NameIsEncoded(p.apn);
    hide MmFixed, EncodeName, DecodeName, DecodeMm, Get32, Key32;
    MmPieces(MmFixed(p), p.msisdn, EncodeName(p.apn));
  }

  // Decode reads the fixed part, the MSISDN it announces, and takes the rest as the name.
  lemma MmPieces(h: Bytes, msisdn: Bytes, name: Bytes)
    requires |h| == FIXED && AreBytes(h) && AreBytes(msisdn) && AreBytes(name) && name != []
    requires h[0] == 1 && h[76] == |msisdn|
    ensures AreBytes(h + msisdn + name)
    ensures DecodeMm(h + msisdn + name)
            == Some(MmContext(h[1], h[2], h[3], Get32(h[4], h[5], h[6], h[7]), Get32(h[8], h[9], h[10], h[11]),
                              h[12..44], h[44..76], msisdn, DecodeName(name)))
  {
    hide Get32, DecodeName;
    var v := h + msisdn + name;
    Pieces(h, msisdn, name);
    assert v[12..44] == h[12..44] && v[44..76] == h[44..76];
  }

  lemma NameIsEncoded(name: Bytes)
    ensures EncodeName(name) != []
  {}

  // An MM Context survives exactly when its keys have 32 octets, its MSISDN at most 255, and its
  // APN is empty or has labels of 1 to 255 octets.
  lemma MmRoundTripExactlyWhen(p: MmContext)
    requires MmOctets(p)
    ensures AreBytes(EncodeMm(p))
    ensures DecodeMm(EncodeMm(p)) == Some(p)
            <==> |p.kasme| == KEY && |p.nh| == KEY && |p.msisdn| < 256 && (p.apn == [] || ProperLabels(Labels(p.apn)))
  {
    MmFixedReads(p);
    NameRoundTripExactlyWhen(p.apn);
    Key32Keeps(p.kasme);
    Key32Keeps(p.nh);
    hide MmFixed, EncodeName, DecodeName, Get32, Key32;
    if |p.msisdn| < 256 {
      MmDecodes(p);
    } else {
      assert EncodeMm(p)[76] == MmFixed(p)[76];
    }
  }

  // EncodeMMContext writes its buffer piece by piece.
  method EncodeMmContext(p: MmContext) returns (buf: array<Octet>)
    ensures fresh(buf) && buf[..] == EncodeMm(p)
  {
    hide Byte0, Byte1, Byte2, Byte3, EncodeName;
    var name := EncodeName(p.apn);
    var fixed := MmFixed(p);
    buf := new Octet[FIXED + |p.msisdn| + |name|];
    CopyInto(buf, 0, fixed);
    CopyInto(buf, FIXED, p.msisdn);
    CopyInto(buf, FIXED + |p.msisdn|, name);
    assert buf[..] == fixed + p.msisdn + name;
  }

  // ---------------------------------------------------------------- PDN Connection

  datatype Fteid = Fteid(interface: Octet, teid: nat, ip: Bytes)

  const NoFteid: Fteid := Fteid(0, 0, [])

  datatype PdnConnection = PdnConnection(ebi: Octet, sgwc: Fteid, sgwu: Fteid, enbu: Fteid, address: Bytes, apn: Bytes)

  const EBI: Octet := 73
  const APN: Octet := 71
  const PAA: Octet := 79
  const FTEID: Octet := 87
  const S1U_ENB: Octet := 0
  const S1U_SGW: Octet := 1
  const S11_SGW: Octet := 11
  const IPV4: Octet := 1

  // net.IP.To4, with zeros for an address that is not IPv4.
  function To4(ip: Bytes): (r: Bytes)
    ensures |r| == 4
  {
    if |ip| == 4 then ip else [0, 0, 0, 0]
  }

  function EncodeFteid(interface: Octet, f: Fteid, instance: Octet): Ie {
    Ie(FTEID, instance, [0x80 + interface % 64] + Word(f.teid) + To4(f.ip))
  }

  function DecodeFteid(v: Bytes): Option<Fteid>
    requires AreBytes(v)
  {
    if |v| < 5 || v[0] / 64 % 2 == 1 || v[0] / 128 == 0 || |v| != 9 then None
    else Some(Fteid(v[0] % 64, Get32(v[1], v[2], v[3], v[4]), v[5..9]))
  }

  function PdnChildren(p: PdnConnection): seq<Ie> {
    [Ie(EBI, 0, [p.ebi % 16]), EncodeFteid(S11_SGW, p.sgwc, 0), EncodeFteid(S1U_SGW, p.sgwu, 1),
     EncodeFteid(S1U_ENB, p.enbu, 2), Ie(PAA, 0, [IPV4] + To4(p.address)), Ie(APN, 0, EncodeName(p.apn))]
  }

  function EncodePdn(p: PdnConnection): Bytes {
    EncodeIes(PdnChildren(p))
  }

  // FindIE: the first element with the type and instance.
  function FindIe(ies: seq<Ie>, kind: Octet, instance: Octet): Option<Ie> {
    if ies == [] then None
    else if ies[0].kind == kind && ies[0].instance == instance then Some(ies[0])
    else FindIe(ies[1..], kind, instance)
  }

  method FindFirst(ies: seq<Ie>, kind: Octet, instance: Octet) returns (found: Option<Ie>)
    ensures found == FindIe(ies, kind, instance)
  {
    assert ies[0..] == ies;
    for i := 0 to |ies|
      invariant FindIe(ies, kind, instance) == FindIe(ies[i..], kind, instance)
    {
      assert ies[i..][1..] == ies[i + 1..];
      if ies[i].kind == kind && ies[i].instance == instance { return Some(ies[i]); }
    }
    found := None;
  }

  function FteidOf(ies: seq<Ie>, instance: Octet): Fteid {
    match FindIe(ies, FTEID, instance)
    case None => NoFteid
    case Some(ie) =>
      if !AreBytes(ie.value) then NoFteid
      else match DecodeFteid(ie.value) { case None => NoFteid case Some(f) => f }
  }

  function AddressOf(ies: seq<Ie>): Bytes {
    match FindIe(ies, PAA, 0)
    case None => []
    case Some(ie) => if |ie.value| < 5 || ie.value[0] % 8 != IPV4 then [] else ie.value[1..5]
  }

  function DecodePdn(v: Bytes): Option<PdnConnection>
    requires AreBytes(v)
  {
    match DecodeIes(v)
    case None => None
    case Some(ies) =>
      var ebi := FindIe(ies, EBI, 0);
      var apn := FindIe(ies, APN, 0);
      Some(PdnConnection(
        if ebi.Some? && ebi.value.value != [] then ebi.value.value[0] % 16 else 0,
        FteidOf(ies, 0), FteidOf(ies, 1), FteidOf(ies, 2), AddressOf(ies),
        if apn.Some? && AreBytes(apn.value.value) then DecodeName(apn.value.value) else []))
  }

  predicate Ipv4(f: Fteid, interface: Octet) {
    f.interface == interface && f.teid < TWO32 && |f.ip| == 4 && AreBytes(f.ip)
  }

  predicate Transferable(p: PdnConnection) {
    && 0 <= p.ebi < 16 && Ipv4(p.sgwc, S11_SGW) && Ipv4(p.sgwu, S1U_SGW) && Ipv4(p.enbu, S1U_ENB)
    && |p.address| == 4 && AreBytes(p.address) && AreBytes(p.apn) && |p.apn| < TWO16 - 1
  }

  lemma FteidRoundTrip(f: Fteid, interface: Octet, instance: Octet)
    requires Ipv4(f, interface) && 0 <= interface < 64 && 0 <= instance < 16
    ensures var ie := EncodeFteid(interface, f, instance);
            Encodable(ie) && DecodeFteid(ie.value) == Some(f)
  {
    hide Byte0, Byte1, Byte2, Byte3, Get32;
    WordReads(f.teid);
    FteidFlags(interface);
    var v, w := EncodeFteid(interface, f, instance).value, Word(f.teid);
    assert v[0] == 0x80 + interface && v[1] == w[0] && v[2] == w[1] && v[3] == w[2] && v[4] == w[3];
    assert v[5..9] == f.ip;
    assert forall i :: 5 <= i < 9 ==> v[i] == f.ip[i - 5];
  }

  lemma FteidFlags(i: Octet)
    requires 0 <= i < 64
    ensures i % 64 == i && (0x80 + i) / 64 % 2 == 0 && (0x80 + i) / 128 == 1 && (0x80 + i) % 64 == i
  {}

  lemma ChildrenAreEncodable(p: PdnConnection)
    requires Transferable(p)
    ensures AllEncodable(PdnChildren(p)) && AreBytes(EncodeName(p.apn))
  {
    FteidRoundTrip(p.sgwc, S11_SGW, 0);
    FteidRoundTrip(p.sgwu, S1U_SGW, 1);
    FteidRoundTrip(p.enbu, S1U_ENB, 2);
    NameRoundTripExactlyWhen(p.apn);
    if p.apn != [] { EncodedLabelsLength(p.apn); }
    hide EncodeFteid, EncodeName;
    var c := PdnChildren(p);
    assert Encodable(c[0]) && Encodable(c[1]) && Encodable(c[2]) && Encodable(c[3]) && Encodable(c[5]);
    assert AreBytes(c[4].value) && Encodable(c[4]);
  }

  lemma ChildrenAreFound(p: PdnConnection)
    ensures var c := PdnChildren(p);
            && FindIe(c, EBI, 0) == Some(c[0]) && FindIe(c, FTEID, 0) == Some(c[1]) && FindIe(c, FTEID, 1) == Some(c[2])
            && FindIe(c, FTEID, 2) == Some(c[3]) && FindIe(c, PAA, 0) == Some(c[4]) && FindIe(c, APN, 0) == Some(c[5])
  {
    var c := PdnChildren(p);
    FindSkips(c, EBI, 0, 0);
    FindSkips(c, FTEID, 0, 1);
    FindSkips(c, FTEID, 1, 2);
    FindSkips(c, FTEID, 2, 3);
    FindSkips(c, PAA, 0, 4);
    FindSkips(c, APN, 0, 5);
  }

  lemma {:induction false} FindSkips(ies: seq<Ie>, kind: Octet, instance: Octet, at: nat)
    requires at < |ies| && ies[at].kind == kind && ies[at].instance == instance
    requires forall i :: 0 <= i < at ==> !(ies[i].kind == kind && ies[i].instance == instance)
    ensures FindIe(ies, kind, instance) == Some(ies[at])
  {
    if at > 0 { FindSkips(ies[1..], kind, instance, at - 1); }
  }

  lemma PdnDecodes(p: PdnConnection)
    requires Transferable(p)
    ensures AreBytes(EncodePdn(p)) && AreBytes(EncodeName(p.apn))
    ensures DecodePdn(EncodePdn(p)) == Some(p.(apn := DecodeName(EncodeName(p.apn))))
  {
    hide DecodeFteid, EncodeName, DecodeName, FindIe, EncodeIes, DecodeIes, Labels, Word, AllEncodable;
    ChildrenAreEncodable(p);
    IesRoundTrip(PdnChildren(p));
    ChildrenAreFound(p);
    FteidRoundTrip(p.sgwc, S11_SGW, 0);
    FteidRoundTrip(p.sgwu, S1U_SGW, 1);
    FteidRoundTrip(p.enbu, S1U_ENB, 2);
    var c := PdnChildren(p);
    hide EncodeFteid;
    assert FteidOf(c, 0) == p.sgwc && FteidOf(c, 1) == p.sgwu && FteidOf(c, 2) == p.enbu;
    assert c[4].value[1..5] == p.address;
    assert AddressOf(c) == p.address;
    assert p.ebi % 16 == p.ebi;
  }

  // A PDN connection with IPv4 endpoints survives exactly when its APN does.
  lemma PdnRoundTripExactlyWhen(p: PdnConnection)
    requires Transferable(p)
    ensures AreBytes(EncodePdn(p))
    ensures DecodePdn(EncodePdn(p)) == Some(p) <==> p.apn == [] || ProperLabels(Labels(p.apn))
  {
    hide DecodePdn, EncodePdn, EncodeName, DecodeName, Labels, Transferable;
    PdnDecodes(p);
    assert AreBytes(p.apn) by { TransferableApn(p); }
    NameRoundTripExactlyWhen(p.apn);
  }

  lemma TransferableApn(p: PdnConnection)
    requires Transferable(p)
    ensures AreBytes(p.apn)
  {}

  // ---------------------------------------------------------------- the octets on the wire

  // The format octet, the algorithms, NCC, the COUNTs in network order, the two keys, and the MSISDN
  // after its length; the rest is the APN.
  lemma MmLayout(p: MmContext)
    requires MmOctets(p) && |p.msisdn| < 256
    ensures var b := EncodeMm(p);
            && |b| >= 77 + |p.msisdn| && b[0] == 1 && b[1] == p.intAlg && b[2] == p.encAlg && b[3] == p.ncc
            && b[4] * 0x1000000 + b[5] * 0x10000 + b[6] * 0x100 + b[7] == p.ulCount
            && b[8] * 0x1000000 + b[9] * 0x10000 + b[10] * 0x100 + b[11] == p.dlCount
            && (|p.kasme| == 32 ==> b[12..44] == p.kasme) && (|p.nh| == 32 ==> b[44..76] == p.nh)
            && b[76] == |p.msisdn| && b[77..77 + |p.msisdn|] == p.msisdn && b[77 + |p.msisdn|..] == EncodeName(p.apn)
  {
    hide Byte0, Byte1, Byte2, Byte3, Key32, EncodeName, MmFixed;
    MmFixedReads(p);
    Key32Keeps(p.kasme);
    Key32Keeps(p.nh);
    var h := MmFixed(p);
    Pieces(h, p.msisdn, EncodeName(p.apn));
    var b := EncodeMm(p);
    assert b[12..44] == h[12..44] && b[44..76] == h[44..76];
  }

  // An MM Context is accepted exactly when it has the format octet, its fixed part and the MSISDN it
  // announces.
  lemma MmExactlyWhen(v: Bytes)
    requires AreBytes(v)
    ensures DecodeMm(v).Some? <==> |v| >= 77 && v[0] == 1 && 77 + v[76] <= |v|
    ensures DecodeMm(v).Some? ==>
              var p := DecodeMm(v).value;
              && p.intAlg == v[1] && p.encAlg == v[2] && p.ncc == v[3]
              && p.ulCount == v[4] * 0x1000000 + v[5] * 0x10000 + v[6] * 0x100 + v[7]
              && p.dlCount == v[8] * 0x1000000 + v[9] * 0x10000 + v[10] * 0x100 + v[11]
              && p.kasme == v[12..44] && p.nh == v[44..76] && p.msisdn == v[77..77 + v[76]]
              && p.apn == DecodeName(v[77 + v[76]..])
  {
    assert DecodeLabels([]) == [];
    hide DecodeLabels;
    if |v| >= 77 && 77 + v[76] == |v| { assert v[77 + v[76]..] == []; }
  }

  // An F-TEID is accepted exactly when it has an IPv4 address and no IPv6 address, and no octet more.
  lemma FteidExactlyWhen(v: Bytes)
    requires AreBytes(v)
    ensures DecodeFteid(v).Some? <==> |v| == 9 && v[0] >= 128 && v[0] < 192
    ensures DecodeFteid(v).Some? ==>
              var f := DecodeFteid(v).value;
              && f.interface == v[0] - 128 && f.ip == v[5..9]
              && f.teid == v[1] * 0x1000000 + v[2] * 0x10000 + v[3] * 0x100 + v[4]
  {
    if |v| == 9 {
      var top, low := v[0] / 64, v[0] % 64;
      assert v[0] == top * 64 + low && v[0] / 128 == top / 2;
    }
  }

  lemma FteidLayout(f: Fteid, interface: Octet, instance: Octet)
    requires Ipv4(f, interface) && 0 <= interface < 64 && 0 <= instance < 16
    ensures var ie := EncodeFteid(interface, f, instance);
            && ie.kind == 87 && ie.instance == instance && |ie.value| == 9 && ie.value[0] == 128 + interface
            && ie.value[1] * 0x1000000 + ie.value[2] * 0x10000 + ie.value[3] * 0x100 + ie.value[4] == f.teid
            && ie.value[5..] == f.ip
  {
    hide Word;
    WordReads(f.teid);
    FteidFlags(interface);
    var v, w := EncodeFteid(interface, f, instance).value, Word(f.teid);
    assert v[1] == w[0] && v[2] == w[1] && v[3] == w[2] && v[4] == w[3];
    assert v[5..] == f.ip;
  }

  // A PDN Connection is accepted exactly when its octets are elements. What is missing, or is not what
  // the decoder knows, reads as nothing: no identity, no endpoint, no address, no name.
  lemma PdnExactlyWhen(v: Bytes)
    requires AreBytes(v)
    ensures DecodePdn(v).Some? <==> Tiles(v)
    ensures DecodePdn(v).Some? && DecodeIes(v).Some? ==>
              var p, ies := DecodePdn(v).value, DecodeIes(v).value;
              && (FindIe(ies, 73, 0).None? ==> p.ebi == 0) && (FindIe(ies, 71, 0).None? ==> p.apn == [])
              && (FindIe(ies, 79, 0).None? ==> p.address == [])
              && (FindIe(ies, 87, 0).None? ==> p.sgwc == Fteid(0, 0, []))
              && (FindIe(ies, 87, 1).None? ==> p.sgwu == Fteid(0, 0, []))
              && (FindIe(ies, 87, 2).None? ==> p.enbu == Fteid(0, 0, []))
              && (forall ie :: FindIe(ies, 73, 0) == Some(ie) ==>
                    p.ebi == if |ie.value| > 0 then ie.value[0] % 16 else 0)
              && (forall ie :: FindIe(ies, 79, 0) == Some(ie) ==>
                    p.address == if |ie.value| >= 5 && ie.value[0] % 8 == 1 then ie.value[1..5] else [])
              && (forall ie :: FindIe(ies, 71, 0) == Some(ie) && AreBytes(ie.value) ==> p.apn == DecodeName(ie.value))
              && (forall ie :: FindIe(ies, 87, 0) == Some(ie) && AreBytes(ie.value) ==>
                    Some(p.sgwc) == DecodeFteid(ie.value) || (DecodeFteid(ie.value).None? && p.sgwc == Fteid(0, 0, [])))
  {
    hide FindIe, DecodeIes, DecodeFteid, DecodeName, Tiles;
    ElementsExactlyWhen(v);
  }

  // The elements of a PDN Connection by type, instance and, for the endpoints, interface.
  lemma PdnElements(p: PdnConnection)
    requires Transferable(p)
    ensures var c := PdnChildren(p);
            && |c| == 6
            && c[0] == Ie(73, 0, [p.ebi]) && c[4] == Ie(79, 0, [1] + p.address) && c[5] == Ie(71, 0, EncodeName(p.apn))
            && c[1].kind == 87 && c[1].instance == 0 && DecodeFteid(c[1].value) == Some(p.sgwc) && p.sgwc.interface == 11
            && c[2].kind == 87 && c[2].instance == 1 && DecodeFteid(c[2].value) == Some(p.sgwu) && p.sgwu.interface == 1
            && c[3].kind == 87 && c[3].instance == 2 && DecodeFteid(c[3].value) == Some(p.enbu) && p.enbu.interface == 0
  {
    hide DecodeFteid, EncodeName, Word;
    FteidRoundTrip(p.sgwc, S11_SGW, 0);
    FteidRoundTrip(p.sgwu, S1U_SGW, 1);
    FteidRoundTrip(p.enbu, S1U_ENB, 2);
    assert p.ebi % 16 == p.ebi;
  }
}
