/**
 * Uplink NAS COUNT (section 4.4.3 of TS 24.301): the full COUNT is rebuilt from the one octet the
 * message carries, used to verify and decipher the message, and committed if that succeeds.
 * COUNTs are 32-bit words: the one addition that can leave the range wraps, as uint32 does.
 */
module NasCount {

  const WORDS := 0x1_0000_0000

  type Octet = o: int | 0 <= o < 0x100
  type Count32 = c: int | 0 <= c < WORDS
  type Pdu = seq<Octet>

  datatype Reconstructed = TooShort | Count(count: Count32, sequence: Octet)

  // What nas.Decode makes of a PDU under a given COUNT. Verification and deciphering are not
  // modelled further: the decoder is any function of the octets and the COUNT.
  datatype Decoded = Refused | Mobility(known: bool, detachRequest: bool) | Session | OtherDiscriminator
  type Decoder = (Pdu, Count32) -> Decoded

  function SecurityHeader(pdu: Pdu): Octet
    requires pdu != []
  {
    pdu[0] / 16
  }

  predicate Protected(pdu: Pdu) {
    |pdu| >= 6 && SecurityHeader(pdu) != 0
  }

  // The octet a COUNT is carried as.
  function LowOctet(count: Count32): Octet {
    count % 0x100
  }

  // How far `count` is ahead of `stored`, counting through the wrap at 2^32.
  function Ahead(stored: Count32, count: Count32): Count32 {
    (count - stored) % WORDS
  }

  // Clearing the low octet and putting in the carried one, then stepping on by 256 if that fell short.
  // The rebuilt COUNT is the first one at or after the stored COUNT that is carried as this octet.
  function Rebuild(stored: Count32, sequence: Octet): (count: Count32)
    ensures LowOctet(count) == sequence
    ensures Ahead(stored, count) < 0x100
  {
    var guess := stored - stored % 0x100 + sequence;
    if guess < stored then (guess + 0x100) % WORDS else guess
  }

  function Reconstruct(pdu: Pdu, stored: Count32): (r: Reconstructed)
    ensures r.TooShort? <==> pdu == [] || (SecurityHeader(pdu) != 0 && |pdu| < 6)
    ensures r.Count? && !Protected(pdu) ==> r.count == stored
    ensures Protected(pdu) ==> r.Count? && LowOctet(r.count) == pdu[5] && Ahead(stored, r.count) < 0x100
  {
    if |pdu| < 1 then TooShort
    else if SecurityHeader(pdu) == 0 then Count(stored, 0)
    else if |pdu| < 6 then TooShort
    else Count(Rebuild(stored, pdu[5]), pdu[5])
  }

  // ---- One value -----------------------------------------------------------------------------

  // No other COUNT within the next 256 is carried as the same octet.
  lemma OneCandidate(stored: Count32, a: Count32, b: Count32)
    requires Ahead(stored, a) < 0x100 && Ahead(stored, b) < 0x100
    requires LowOctet(a) == LowOctet(b)
    ensures a == b
  {}

  // The sender's COUNT is recovered exactly when it is fewer than 256 ahead of the stored one.
  lemma RecoversExactlyWhen(stored: Count32, sent: Count32)
    ensures Rebuild(stored, LowOctet(sent)) == sent <==> Ahead(stored, sent) < 0x100
  {
    var count := Rebuild(stored, LowOctet(sent));
    if Ahead(stored, sent) < 0x100 {
      OneCandidate(stored, sent, count);
    }
  }

  // The rebuilt COUNT is below the stored one exactly when the stored one is in the last 256 of
  // the number range and the octet is behind it: only there does the addition wrap.
  lemma DecreasesExactlyWhen(stored: Count32, sequence: Octet)
    ensures Rebuild(stored, sequence) < stored <==> stored >= 0xffffff00 && sequence < LowOctet(stored)
  {}

  // Everywhere else it is the least COUNT, at or above the stored one, that is carried as the octet.
  lemma LeastUnlessWrapping(stored: Count32, sequence: Octet, other: Count32)
    requires stored < 0xffffff00 || LowOctet(stored) <= sequence
    requires stored <= other && LowOctet(other) == sequence
    ensures stored <= Rebuild(stored, sequence) <= other
  {
    DecreasesExactlyWhen(stored, sequence);
  }

  // ---- Committing ----------------------------------------------------------------------------

  predicate Commits(decoded: Decoded) {
    decoded.Session? || (decoded.Mobility? && decoded.known)
  }

  // The stored COUNT after processNAS with a NAS security context in place.
  function AfterProtected(pdu: Pdu, stored: Count32, decode: Decoder): Count32 {
    match Reconstruct(pdu, stored)
    case TooShort => stored
    case Count(count, _) => if Commits(decode(pdu, count)) then count else stored
  }

  predicate Accepts(pdu: Pdu, stored: Count32, decode: Decoder) {
    var r := Reconstruct(pdu, stored);
    r.Count? && Commits(decode(pdu, r.count))
  }

  // A message moves the COUNT exactly when it decodes as session management, or as mobility management
  // of a known type, under the rebuilt COUNT, and that COUNT is not the stored one already.
  lemma MovesExactlyWhen(pdu: Pdu, stored: Count32, decode: Decoder)
    ensures var r := Reconstruct(pdu, stored);
            && (Accepts(pdu, stored, decode) <==>
                  r.Count? && match decode(pdu, r.count)
                              case Session => true
                              case Mobility(known, _) => known
                              case _ => false)
            && (AfterProtected(pdu, stored, decode) != stored <==> Accepts(pdu, stored, decode) && r.count != stored)
            && (Accepts(pdu, stored, decode) ==> AfterProtected(pdu, stored, decode) == r.count)
  {}

  // The NAS part of a UE context: the uplink COUNT and whether keys have been derived.
  class Security {
    var ulNasCount: Count32
    var keysDerived: bool
    var waitingAuthResponse: bool

    constructor (count: Count32)
      ensures ulNasCount == count && !keysDerived && !waitingAuthResponse
    {
      ulNasCount, keysDerived, waitingAuthResponse := count, false, false;
    }

    // processNAS up to the dispatch: only a message decoded under derived keys moves the COUNT.
    method Process(pdu: Pdu, decode: Decoder, decodeUnprotected: Pdu -> Decoded) returns (dispatched: bool)
      modifies `ulNasCount
      ensures waitingAuthResponse || !keysDerived ==>
                ulNasCount == old(ulNasCount) && dispatched == Commits(decodeUnprotected(pdu))
      ensures !waitingAuthResponse && keysDerived ==>
                && ulNasCount == AfterProtected(pdu, old(ulNasCount), decode)
                && dispatched == Accepts(pdu, old(ulNasCount), decode)
    {
      var countUsed := ulNasCount;
      var commit := false;
      var decoded := Refused;
      if waitingAuthResponse {
        decoded := decodeUnprotected(pdu);
      } else if keysDerived {
        var r := Reconstruct(pdu, ulNasCount);
        if r.Count? {
          countUsed := r.count;
          decoded := decode(pdu, countUsed);
          commit := !decoded.Refused?;
        }
      } else {
        decoded := decodeUnprotected(pdu);
      }
      match decoded
      case Refused =>
        dispatched := false;
      case Mobility(known, _) =>
        if !known {
          return false;
        }
        if commit {
          ulNasCount := countUsed;
        }
        dispatched := true;
      case Session =>
        if commit {
          ulNasCount := countUsed;
        }
        dispatched := true;
      case OtherDiscriminator =>
        dispatched := false;
    }

    // handleInitialUEDetach: only a protected Detach Request that verifies is taken.
    method ProcessInitialDetach(pdu: Pdu, decode: Decoder) returns (taken: bool)
      modifies `ulNasCount
      ensures taken <==>
              && Protected(pdu)
              && var decoded := decode(pdu, Rebuild(old(ulNasCount), pdu[5]));
              decoded.Mobility? && decoded.detachRequest
      ensures ulNasCount == if taken then Rebuild(old(ulNasCount), pdu[5]) else old(ulNasCount)
    {
      taken := false;
      var r := Reconstruct(pdu, ulNasCount);
      if r.TooShort? {
        return;
      }
      var decoded := decode(pdu, r.count);
      if decoded.Refused? || SecurityHeader(pdu) == 0 {
        return;
      }
      if !decoded.Mobility? || !decoded.detachRequest {
        return;
      }
      ulNasCount := r.count;
      taken := true;
    }
  }

  // ---- Runs ----------------------------------------------------------------------------------

  // What integrity protection gives: a message the sender protected under `sent` carries that
  // COUNT's low octet and verifies under no other COUNT; under `sent` it is one processNAS takes.
  ghost predicate ProtectedUnder(pdu: Pdu, sent: Count32, decode: Decoder) {
    && Protected(pdu)
    && pdu[5] == LowOctet(sent)
    && (forall count :: Commits(decode(pdu, count)) <==> count == sent)
  }

  // A genuine message is taken exactly when it is fewer than 256 ahead, and then the stored COUNT
  // becomes the sender's; otherwise nothing changes.
  lemma TakenExactlyWhen(pdu: Pdu, stored: Count32, sent: Count32, decode: Decoder)
    requires ProtectedUnder(pdu, sent, decode)
    ensures Accepts(pdu, stored, decode) <==> Ahead(stored, sent) < 0x100
    ensures AfterProtected(pdu, stored, decode) == if Ahead(stored, sent) < 0x100 then sent else stored
  {
    RecoversExactlyWhen(stored, sent);
  }

  // Of two deliveries of one message the second is taken too: the stored COUNT is the last one
  // used, and a COUNT equal to it is not behind it.
  lemma LastMessageIsTakenAgain(pdu: Pdu, stored: Count32, sent: Count32, decode: Decoder)
    requires ProtectedUnder(pdu, sent, decode)
    requires Accepts(pdu, stored, decode)
    ensures var after := AfterProtected(pdu, stored, decode);
            Accepts(pdu, after, decode) && AfterProtected(pdu, after, decode) == after
  {
    TakenExactlyWhen(pdu, stored, sent, decode);
    TakenExactlyWhen(pdu, sent, sent, decode);
  }

  datatype Sent = Sent(pdu: Pdu, count: Count32)

  function RunCount(stored: Count32, pdus: seq<Pdu>, decode: Decoder): Count32
    decreases |pdus|
  {
    if pdus == [] then stored else AfterProtected(pdus[|pdus| - 1], RunCount(stored, pdus[..|pdus| - 1], decode), decode)
  }

  // No run of messages, genuine or not, lowers the COUNT while it stays out of its last 256 values.
  lemma {:induction false} RunNeverDecreases(stored: Count32, pdus: seq<Pdu>, decode: Decoder, upTo: nat)
    requires upTo <= |pdus|
    requires forall i :: 0 <= i < |pdus| ==> RunCount(stored, pdus[..i], decode) < 0xffffff00
    ensures RunCount(stored, pdus[..upTo], decode) <= RunCount(stored, pdus, decode)
    decreases |pdus|
  {
    if upTo == |pdus| {
      assert pdus[..upTo] == pdus;
    } else {
      var init := pdus[..|pdus| - 1];
      forall i | 0 <= i < |init| ensures RunCount(stored, init[..i], decode) < 0xffffff00 {
        assert init[..i] == pdus[..i];
      }
      assert init[..upTo] == pdus[..upTo];
      RunNeverDecreases(stored, init, decode, upTo);
      var last := Reconstruct(pdus[|pdus| - 1], RunCount(stored, init, decode));
      if last.Count? && Protected(pdus[|pdus| - 1]) {
        DecreasesExactlyWhen(RunCount(stored, init, decode), pdus[|pdus| - 1][5]);
      }
    }
  }

  ghost predicate AllGenuine(messages: seq<Sent>, decode: Decoder) {
    forall i :: 0 <= i < |messages| ==> ProtectedUnder(messages[i].pdu, messages[i].count, decode)
  }

  // The COUNT each message is compared with if every earlier one was taken.
  function Before(stored: Count32, messages: seq<Sent>, i: nat): Count32
    requires i <= |messages|
  {
    if i == 0 then stored else messages[i - 1].count
  }

  predicate NoGap(stored: Count32, messages: seq<Sent>) {
    forall i :: 0 <= i < |messages| ==> Ahead(Before(stored, messages, i), messages[i].count) < 0x100
  }

  function RunSent(stored: Count32, messages: seq<Sent>, decode: Decoder): Count32
    decreases |messages|
  {
    if messages == [] then stored
    else AfterProtected(messages[|messages| - 1].pdu, RunSent(stored, messages[..|messages| - 1], decode), decode)
  }

  predicate AllTaken(stored: Count32, messages: seq<Sent>, decode: Decoder)
    decreases |messages|
  {
    messages == [] ||
    (AllTaken(stored, messages[..|messages| - 1], decode) &&
     Accepts(messages[|messages| - 1].pdu, RunSent(stored, messages[..|messages| - 1], decode), decode))
  }

  // Whether a run has a gap splits at its last message.
  lemma NoGapSplits(stored: Count32, messages: seq<Sent>)
    requires messages != []
    ensures var n := |messages| - 1;
            NoGap(stored, messages) <==>
            NoGap(stored, messages[..n]) && Ahead(Before(stored, messages, n), messages[n].count) < 0x100
    ensures Before(stored, messages[..|messages| - 1], |messages| - 1) == Before(stored, messages, |messages| - 1)
  {}

  // Sender and receiver stay in step: every message of a run is taken exactly when none is 256 or
  // more ahead of the one before it, and then the stored COUNT ends as the last one sent.
  lemma {:induction false} InStepExactlyWhen(stored: Count32, messages: seq<Sent>, decode: Decoder)
    requires AllGenuine(messages, decode)
    ensures AllTaken(stored, messages, decode) <==> NoGap(stored, messages)
    ensures AllTaken(stored, messages, decode) ==>
              RunSent(stored, messages, decode) == Before(stored, messages, |messages|)
    decreases |messages|
  {
    hide Ahead, AfterProtected, Accepts, ProtectedUnder, NoGap;
    if messages == [] {
      EmptyHasNoGap(stored);
    } else {
      var n := |messages| - 1;
      NoGapSplits(stored, messages);
      InStepExactlyWhen(stored, messages[..n], decode);
      TakenExactlyWhen(messages[n].pdu, RunSent(stored, messages[..n], decode), messages[n].count, decode);
    }
  }

  lemma EmptyHasNoGap(stored: Count32)
    ensures NoGap(stored, [])
  {}

  // Once every later message is 256 or more ahead, none is taken and the COUNT never moves again.
  lemma {:induction false} OutOfStepForGood(stored: Count32, messages: seq<Sent>, decode: Decoder)
    requires AllGenuine(messages, decode)
    requires forall i :: 0 <= i < |messages| ==> Ahead(stored, messages[i].count) >= 0x100
    ensures RunSent(stored, messages, decode) == stored
    ensures messages != [] ==> !AllTaken(stored, messages, decode)
    decreases |messages|
  {
    if messages != [] {
      var n := |messages| - 1;
      OutOfStepForGood(stored, messages[..n], decode);
      TakenExactlyWhen(messages[n].pdu, stored, messages[n].count, decode);
    }
  }

  // ---- Two regions ---------------------------------------------------------------------------

  // processNAS reads the COUNT in one locked region and commits in another. `flying` holds the
  // COUNTs of messages that were decoded and not committed yet.
  datatype Store = Store(count: Count32, flying: multiset<Count32>)

  datatype Region = Reads(pdu: Pdu) | Writes(count: Count32)

  function Next(s: Store, r: Region, decode: Decoder): Store {
    match r
    case Reads(pdu) =>
      if Accepts(pdu, s.count, decode)
      then s.(flying := s.flying + multiset{AfterProtected(pdu, s.count, decode)}) else s
    case Writes(count) =>
      if count in s.flying then Store(count, s.flying - multiset{count}) else s
  }

  function After(s: Store, rs: seq<Region>, decode: Decoder): Store
    decreases |rs|
  {
    if rs == [] then s else After(Next(s, rs[0], decode), rs[1..], decode)
  }

  // No message is committed below the COUNT it meets.
  predicate InOrder(s: Store, rs: seq<Region>, decode: Decoder)
    decreases |rs|
  {
    rs == [] || ((rs[0].Writes? && rs[0].count in s.flying ==> s.count <= rs[0].count)
                 && InOrder(Next(s, rs[0], decode), rs[1..], decode))
  }

  ghost predicate NeverFalls(s: Store, rs: seq<Region>, decode: Decoder) {
    forall i, j :: 0 <= i <= j <= |rs| ==> After(s, rs[..i], decode).count <= After(s, rs[..j], decode).count
  }

  lemma {:induction false} NeverFallsInOrder(s: Store, rs: seq<Region>, decode: Decoder)
    ensures NeverFalls(s, rs, decode) <==> InOrder(s, rs, decode)
    decreases |rs|
  {
    hide Accepts, AfterProtected;
    if rs != [] {
      var t, rest := Next(s, rs[0], decode), rs[1..];
      NeverFallsInOrder(t, rest, decode);
      forall i | 0 <= i <= |rest| ensures After(s, rs[..i + 1], decode) == After(t, rest[..i], decode) {
        assert rs[..i + 1][0] == rs[0] && rs[..i + 1][1..] == rest[..i];
      }
      assert After(s, rs[..0], decode) == s && After(s, rs[..1], decode) == t by {
        assert rs[..0] == [] && rest[..0] == [];
      }
      if InOrder(s, rs, decode) {
        forall i, j | 0 <= i <= j <= |rs|
          ensures After(s, rs[..i], decode).count <= After(s, rs[..j], decode).count
        {
          if 0 < j {
            assert After(t, rest[..0], decode).count <= After(t, rest[..j - 1], decode).count;
            if 0 < i { assert After(t, rest[..i - 1], decode).count <= After(t, rest[..j - 1], decode).count; }
          }
        }
      }
      if NeverFalls(s, rs, decode) {
        assert s.count <= t.count;
        forall i, j | 0 <= i <= j <= |rest|
          ensures After(t, rest[..i], decode).count <= After(t, rest[..j], decode).count
        {
          assert After(s, rs[..i + 1], decode).count <= After(s, rs[..j + 1], decode).count;
        }
      }
    } else {
      assert rs[..0] == [];
    }
  }

  // The state before the region number i.
  function At(s: Store, rs: seq<Region>, i: nat, decode: Decoder): Store
    requires i <= |rs|
  {
    After(s, rs[..i], decode)
  }

  lemma {:induction false} AtNext(s: Store, rs: seq<Region>, i: nat, decode: Decoder)
    requires i < |rs|
    ensures At(s, rs, i + 1, decode) == Next(At(s, rs, i, decode), rs[i], decode)
    decreases i
  {
    hide Next;
    if i == 0 {
      assert rs[..1][1..] == [] && rs[..0] == [] && rs[..1][0] == rs[0];
      assert After(Next(s, rs[0], decode), [], decode) == Next(s, rs[0], decode);
    } else {
      var t, rest := Next(s, rs[0], decode), rs[1..];
      assert rs[..i + 1][1..] == rest[..i] && rs[..i][1..] == rest[..i - 1];
      AtNext(t, rest, i - 1, decode);
    }
  }

  // Region i reads a message under `count`; region k commits one.
  predicate ReadsAt(s: Store, rs: seq<Region>, i: nat, count: Count32, decode: Decoder) {
    i < |rs| && rs[i].Reads? && var now := At(s, rs, i, decode).count;
    Accepts(rs[i].pdu, now, decode) && AfterProtected(rs[i].pdu, now, decode) == count
  }

  predicate WritesAt(s: Store, rs: seq<Region>, k: nat, count: Count32, decode: Decoder) {
    k < |rs| && rs[k] == Writes(count) && count in At(s, rs, k, decode).flying
  }

  // A larger COUNT is committed between the read and the commit of a message.
  ghost predicate Overtaken(s: Store, rs: seq<Region>, i: nat, j: nat, k: nat, count: Count32, larger: Count32, decode: Decoder) {
    i < j < k && count < larger
    && ReadsAt(s, rs, i, count, decode) && WritesAt(s, rs, j, larger, decode) && WritesAt(s, rs, k, count, decode)
  }

  ghost predicate NoneOvertaken(s: Store, rs: seq<Region>, decode: Decoder) {
    forall i, j, k, count, larger :: !Overtaken(s, rs, i, j, k, count, larger, decode)
  }

  lemma {:induction false} FlyingWasRead(s: Store, rs: seq<Region>, k: nat, count: Count32, decode: Decoder) returns (i: nat)
    requires s.flying == multiset{} && k <= |rs| && count in At(s, rs, k, decode).flying
    ensures i < k && ReadsAt(s, rs, i, count, decode)
    decreases k
  {
    hide Accepts, AfterProtected;
    assert rs[..0] == [];
    AtNext(s, rs, k - 1, decode);
    if count in At(s, rs, k - 1, decode).flying {
      i := FlyingWasRead(s, rs, k - 1, count, decode);
    } else {
      i := k - 1;
    }
  }

  // The COUNT at k is the one at i, or was committed in between.
  lemma {:induction false} LastCommit(s: Store, rs: seq<Region>, i: nat, k: nat, decode: Decoder) returns (j: nat)
    requires i <= k <= |rs| && At(s, rs, i, decode).count != At(s, rs, k, decode).count
    ensures i <= j < k && WritesAt(s, rs, j, At(s, rs, k, decode).count, decode)
    decreases k
  {
    hide Accepts, AfterProtected, After;
    AtNext(s, rs, k - 1, decode);
    if At(s, rs, k - 1, decode).count == At(s, rs, k, decode).count {
      j := LastCommit(s, rs, i, k - 1, decode);
    } else {
      j := k - 1;
    }
  }

  lemma ReadIsAhead(pdu: Pdu, stored: Count32, decode: Decoder)
    requires stored < 0xffffff00 && Accepts(pdu, stored, decode)
    ensures stored <= AfterProtected(pdu, stored, decode)
  {
    if Protected(pdu) { DecreasesExactlyWhen(stored, pdu[5]); }
  }

  // Over any interleaving of the two regions of any number of messages, genuine or not, the stored
  // COUNT never falls, while it stays out of its last 256 values, exactly when no larger COUNT is
  // committed between the read and the commit of a message.
  lemma NeverFallsExactlyWhen(s: Store, rs: seq<Region>, decode: Decoder)
    requires s.flying == multiset{} && forall i :: 0 <= i <= |rs| ==> At(s, rs, i, decode).count < 0xffffff00
    ensures NeverFalls(s, rs, decode) <==> NoneOvertaken(s, rs, decode)
  {
    hide Accepts, AfterProtected, After, ReadsAt, WritesAt, InOrder;
    if NeverFalls(s, rs, decode) {
      forall i, j, k, count, larger ensures !Overtaken(s, rs, i, j, k, count, larger, decode) {
        if Overtaken(s, rs, i, j, k, count, larger, decode) { OvertakenFalls(s, rs, i, j, k, count, larger, decode); }
      }
    } else {
      NeverFallsInOrder(s, rs, decode);
      var k := FirstFall(s, rs, decode);
      var i, j, count, larger := FallIsOvertaken(s, rs, k, decode);
    }
  }

  lemma OvertakenFalls(s: Store, rs: seq<Region>, i: nat, j: nat, k: nat, count: Count32, larger: Count32, decode: Decoder)
    requires Overtaken(s, rs, i, j, k, count, larger, decode)
    ensures !NeverFalls(s, rs, decode)
  {
    hide Accepts, AfterProtected, After, ReadsAt;
    AtNext(s, rs, j, decode);
    AtNext(s, rs, k, decode);
    assert After(s, rs[..j + 1], decode).count == larger && After(s, rs[..k + 1], decode).count == count;
  }

  lemma {:induction false} FirstFall(s: Store, rs: seq<Region>, decode: Decoder) returns (k: nat)
    requires !InOrder(s, rs, decode)
    ensures k < |rs| && rs[k].Writes? && WritesAt(s, rs, k, rs[k].count, decode) && rs[k].count < At(s, rs, k, decode).count
    decreases |rs|
  {
    hide Next;
    if rs[0].Writes? && rs[0].count in s.flying && rs[0].count < s.count {
      k := 0;
      assert rs[..0] == [];
    } else {
      var t, rest := Next(s, rs[0], decode), rs[1..];
      var m := FirstFall(t, rest, decode);
      k := m + 1;
      assert rs[..m + 1][1..] == rest[..m] && rs[..m + 1][0] == rs[0];
    }
  }

  lemma FallIsOvertaken(s: Store, rs: seq<Region>, k: nat, decode: Decoder)
    returns (i: nat, j: nat, count: Count32, larger: Count32)
    requires s.flying == multiset{} && k < |rs| && rs[k].Writes? && WritesAt(s, rs, k, rs[k].count, decode)
    requires rs[k].count < At(s, rs, k, decode).count
    requires forall i :: 0 <= i <= |rs| ==> At(s, rs, i, decode).count < 0xffffff00
    ensures Overtaken(s, rs, i, j, k, count, larger, decode)
  {
    count, larger := rs[k].count, At(s, rs, k, decode).count;
    i := FlyingWasRead(s, rs, k, count, decode);
    ReadIsAhead(rs[i].pdu, At(s, rs, i, decode).count, decode);
    hide Accepts, AfterProtected, After, At;
    j := LastCommit(s, rs, i, k, decode);
  }

  // A message that is committed before anything else happens moves the COUNT as one step would.
  lemma UninterruptedIsOneStep(s: Store, pdu: Pdu, decode: Decoder)
    requires Accepts(pdu, s.count, decode)
    ensures After(s, [Reads(pdu), Writes(AfterProtected(pdu, s.count, decode))], decode)
            == s.(count := AfterProtected(pdu, s.count, decode))
  {
    var count := AfterProtected(pdu, s.count, decode);
    var rs := [Reads(pdu), Writes(count)];
    var s1 := Next(s, rs[0], decode);
    assert rs[1..] == [Writes(count)] && rs[1..][1..] == [];
    assert s1.flying - multiset{count} == s.flying;
    assert After(s1, rs[1..], decode) == Next(s1, Writes(count), decode);
  }

  lemma CloseIsAhead(stored: Count32, count: Count32)
    requires stored <= count < stored + 0x100
    ensures Ahead(stored, count) < 0x100
  {}

  lemma GenuineIsRead(s: Store, m: Sent, decode: Decoder)
    requires ProtectedUnder(m.pdu, m.count, decode) && Ahead(s.count, m.count) < 0x100
    ensures Next(s, Reads(m.pdu), decode) == s.(flying := s.flying + multiset{m.count})
  {
    TakenExactlyWhen(m.pdu, s.count, m.count, decode);
    hide ProtectedUnder, Ahead, Accepts, AfterProtected;
  }

  lemma InFlightIsWritten(s: Store, rest: multiset<Count32>, count: Count32, decode: Decoder)
    requires s.flying == rest + multiset{count}
    ensures Next(s, Writes(count), decode) == Store(count, rest)
  {
    assert s.flying - multiset{count} == rest;
  }

  // Of two messages read under the same COUNT, the later one committed first: the other commit
  // takes the COUNT back, and the message that overtook is then taken once more.
  lemma OvertakenCountFallsBack(s: Store, first: Sent, second: Sent, decode: Decoder)
    requires ProtectedUnder(first.pdu, first.count, decode) && ProtectedUnder(second.pdu, second.count, decode)
    requires s.count <= first.count < second.count < s.count + 0x100
    ensures var read := Next(Next(s, Reads(first.pdu), decode), Reads(second.pdu), decode);
            var t := Next(Next(read, Writes(second.count), decode), Writes(first.count), decode);
            t == Store(first.count, s.flying) && Accepts(second.pdu, t.count, decode)
  {
    hide Next, Accepts, AfterProtected, ProtectedUnder, Ahead;
    CloseIsAhead(s.count, first.count);
    CloseIsAhead(s.count, second.count);
    CloseIsAhead(first.count, second.count);
    TakenExactlyWhen(second.pdu, first.count, second.count, decode);
    GenuineIsRead(s, first, decode);
    var s1 := s.(flying := s.flying + multiset{first.count});
    GenuineIsRead(s1, second, decode);
    var s2 := s1.(flying := s1.flying + multiset{second.count});
    InFlightIsWritten(s2, s1.flying, second.count, decode);
    InFlightIsWritten(Store(second.count, s1.flying), s.flying, first.count, decode);
  }
}
