/**
 * What becomes of a Create Bearer Request: which ones are admitted and as what, and where they wait
 * (internal/s1ap/dedicated_bearer.go:73-485).
 */
module BearerRequests {
  import opened Common
  import opened BearerMachine
  import opened EbiAllocation
  import opened BearerInvariants
  import BearerReports
  import T = ActivationTimer

  // ---------------------------------------------------------------- the same policy

  // How many bearers of a request ask for this QCI, ARP and TFT.
  function Asking(bearers: seq<CreateBearer>, qci: Octet, arp: Octet, tft: seq<Octet>): nat {
    if bearers == [] then 0
    else
      var q := bearers[0].qos;
      (if q.qci == qci && q.arp == arp && q.tft == tft then 1 else 0) + Asking(bearers[1..], qci, arp, tft)
  }

  // Two requests have the same policy: one linked bearer, and the same bearers in any order.
  ghost predicate SamePolicy(a: CreateRequest, b: CreateRequest) {
    && a.linked == b.linked && |a.bearers| == |b.bearers|
    && forall qci, arp, tft :: Asking(a.bearers, qci, arp, tft) == Asking(b.bearers, qci, arp, tft)
  }

  lemma {:induction false} PoliciesCount(bearers: seq<CreateBearer>, qci: Octet, arp: Octet, tft: seq<Octet>)
    ensures multiset(Policies(bearers))[(qci, arp, tft)] == Asking(bearers, qci, arp, tft)
  {
    if bearers != [] {
      PoliciesCount(bearers[1..], qci, arp, tft);
      var q := bearers[0].qos;
      assert Policies(bearers) == [(q.qci, q.arp, q.tft)] + Policies(bearers[1..]);
    }
  }

  // The fingerprint tells two requests apart exactly when their policies differ.
  lemma FingerprintTellsPolicies(a: CreateRequest, b: CreateRequest)
    ensures FingerprintOf(a) == FingerprintOf(b) <==> SamePolicy(a, b)
  {
    forall qci, arp, tft
      ensures multiset(Policies(a.bearers))[(qci, arp, tft)] == Asking(a.bearers, qci, arp, tft)
      ensures multiset(Policies(b.bearers))[(qci, arp, tft)] == Asking(b.bearers, qci, arp, tft)
    {
      PoliciesCount(a.bearers, qci, arp, tft);
      PoliciesCount(b.bearers, qci, arp, tft);
    }
    if SamePolicy(a, b) {
      forall p: (Octet, Octet, seq<Octet>) ensures multiset(Policies(a.bearers))[p] == multiset(Policies(b.bearers))[p] {
        assert p == (p.0, p.1, p.2);
      }
      assert multiset(Policies(a.bearers)) == multiset(Policies(b.bearers));
    }
  }

  // ---------------------------------------------------------------- what an admitted request becomes

  // The bearer `b` is what the bearer context `c` of the request asked for.
  predicate AsRequested(b: Bearer, c: CreateBearer, k: Key, linked: Octet, ims: bool) {
    && b.txId == IdOf(k) && b.linked == linked
    && b.qos.qci == (if c.qos.qci == 0 then 9 else c.qos.qci)
    && b.qos.arp == c.qos.arp && b.qos.level == c.qos.level && b.qos.tft == c.qos.tft && b.qos.pco == c.qos.pco
    && b.sgw == c.sgw && b.enb == Transport(0, [])
    && !b.nasAccepted && !b.nasRejected && !b.established && !b.erabFailed && b.ran == NoCause
    && !b.timer.active && !b.timer.timedOut && b.timer.retries == 0
    && (b.legacy != 0 <==> ims && (c.qos.qci == 1 || c.qos.qci == 2)) && (b.legacy != 0 ==> 2 <= b.legacy <= 7)
  }

  // The transaction holds one bearer for each bearer context, under the identities `ids`, which were
  // free and in range and are now reserved for it.
  ghost predicate HoldsRequest(s: State, t: State, k: Key, req: CreateRequest, ims: bool, ids: seq<Octet>)
    requires k in t.pending
  {
    var tx := t.pending[k];
    && |ids| == |req.bearers| && Distinct(ids) && (forall e :: e in tx.bearers <==> e in ids)
    && tx.linked == req.linked && tx.fingerprint == FingerprintOf(req) && tx.cleanup == {} && !tx.modifying
    && (forall i :: 0 <= i < |ids| ==>
          && 5 <= ids[i] <= 15 && ids[i] !in Used(s) && ReservedFor(t, ids[i], IdOf(k))
          && (req.bearers[i].ebi != 0 ==> ids[i] == req.bearers[i].ebi)
          && ids[i] in tx.bearers && AsRequested(tx.bearers[ids[i]], req.bearers[i], k, req.linked, ims))
    && (forall e :: e in s.reservations ==> e in t.reservations && t.reservations[e] == s.reservations[e])
    && (forall e :: e in t.reservations ==> e in s.reservations || e in ids)
  }

  lemma {:induction false} NewBearersAsRequested(id: TxId, req: CreateRequest, ids: seq<Octet>, legacy: seq<Octet>, i: nat)
    requires |ids| <= |legacy| && |ids| <= |req.bearers| && Distinct(ids) && i < |ids|
    ensures ids[i] in NewBearers(id, req, ids, legacy)
    ensures NewBearers(id, req, ids, legacy)[ids[i]] == NewBearer(id, req.linked, req.bearers[i], legacy[i])
  {
    var n := |ids| - 1;
    if i < n {
      assert ids[..n][i] == ids[i] && ids[i] != ids[n];
      NewBearersAsRequested(id, req, ids[..n], legacy, i);
    }
  }

  lemma BearerAsRequested(k: Key, req: CreateRequest, ims: bool, ids: seq<Octet>, legacy: seq<Octet>, used: set<Octet>,
                          i: nat)
    requires Distinct(ids) && |ids| == |req.bearers| == |legacy| && legacy == AssignLegacy(LegacyNeeded(req, ims), used)
    requires i < |ids|
    ensures var bs := NewBearers(IdOf(k), req, ids, legacy);
            ids[i] in bs && AsRequested(bs[ids[i]], req.bearers[i], k, req.linked, ims)
  {
    hide NewBearers, AssignLegacy, Distinct;
    NewBearersAsRequested(IdOf(k), req, ids, legacy, i);
    AssignLegacySound(LegacyNeeded(req, ims), used);
    assert LegacyNeeded(req, ims)[i] <==> ims && (req.bearers[i].qos.qci == 1 || req.bearers[i].qos.qci == 2);
    assert legacy[i] != 0 ==> MIN_LEGACY <= legacy[i] <= MAX_LEGACY;
  }

  lemma AdmissionHoldsRequest(s: State, k: Key, req: CreateRequest, ims: bool, ids: seq<Octet>, legacy: seq<Octet>)
    requires k !in s.pending
    requires ids == Assign(RequestedEbis(req), Used(s)) && legacy == AssignLegacy(LegacyNeeded(req, ims), LegacyUsed(s))
    requires |ids| == |req.bearers| == |legacy|
    ensures HoldsRequest(s, Admit(s, k, req, ids, legacy), k, req, ims, ids)
  {
    hide NewBearers, FingerprintOf, AsRequested, LegacyUsed, AssignLegacy, Assign, Distinct, LegacyNeeded, Used;
    AssignSound(RequestedEbis(req), Used(s));
    forall i | 0 <= i < |ids|
      ensures RequestedEbis(req)[i] == req.bearers[i].ebi && Requestable(ids[i], Used(s))
      ensures ids[i] in NewBearers(IdOf(k), req, ids, legacy)
      ensures AsRequested(NewBearers(IdOf(k), req, ids, legacy)[ids[i]], req.bearers[i], k, req.linked, ims)
    {
      BearerAsRequested(k, req, ims, ids, legacy, LegacyUsed(s), i);
    }
    UnusedIsUnreserved(s);
  }

  lemma UnusedIsUnreserved(s: State)
    ensures forall e :: e in s.reservations ==> e in Used(s)
  {}

  // ---------------------------------------------------------------- which requests are admitted

  // The bearers of a voice service, which need a legacy identifier.
  function VoiceBearers(bearers: seq<CreateBearer>): nat {
    if bearers == [] then 0
    else (if bearers[0].qos.qci == 1 || bearers[0].qos.qci == 2 then 1 else 0) + VoiceBearers(bearers[1..])
  }

  lemma {:induction false} NeededAreVoice(teid: nat, n: nat, linked: Octet, bearers: seq<CreateBearer>, ims: bool)
    ensures Needs(LegacyNeeded(CreateRequest(teid, n, linked, bearers), ims)) == if ims then VoiceBearers(bearers) else 0
  {
    if bearers != [] {
      NeededAreVoice(teid, n, linked, bearers[1..], ims);
      var all := LegacyNeeded(CreateRequest(teid, n, linked, bearers), ims);
      assert all == [all[0]] + LegacyNeeded(CreateRequest(teid, n, linked, bearers[1..]), ims);
    }
  }

  // There are identities for all bearers, and legacy identifiers for those that need one.
  ghost predicate HasIdentities(s: State, req: CreateRequest) {
    var requested := RequestedEbis(req);
    |requested| <= |Free(Used(s))| && NamedAreFree(requested, Used(s)) && NamedAreSpared(requested, Used(s))
  }

  ghost predicate HasLegacy(s: State, req: CreateRequest, ims: bool) {
    ims ==> VoiceBearers(req.bearers) <= |{2, 3, 4, 5, 6, 7} - LegacyUsed(s)|
  }

  // Another Create for the same policy is under way.
  ghost predicate Repeated(s: State, req: CreateRequest) {
    exists l :: IsCreate(s, l) && s.pending[l].fingerprint == FingerprintOf(req) && !Terminal(s.pending[l].state)
  }

  // `t` is `s` after one message on S11, and nothing else but reservations.
  ghost predicate OnlySays(s: State, t: State, out: Out) {
    t == s.(out := s.out + [out], reservations := t.reservations)
  }

  lemma ReplySays(s: State, k: Key, cause: Octet)
    ensures OnlySays(s, Reply(s, k, cause), Immediate(k, cause)) && Reply(s, k, cause).reservations == s.reservations
    ensures Reply(s, k, cause).admitted == s.admitted
    ensures Reply(s, k, cause) == s.(out := s.out + [Immediate(k, cause)])
  {}

  ghost predicate Roomy(s: State, req: CreateRequest) {
    !Repeated(s, req) && |PendingCreates(s)| < 4 && HasIdentities(s, req)
  }

  ghost predicate Admissible(s: State, req: CreateRequest, ims: bool) {
    !Repeated(s, req) && |PendingCreates(s)| < 4 && HasIdentities(s, req) && HasLegacy(s, req, ims)
  }

  lemma AllocationExactlyWhen(s: State, k: Key, req: CreateRequest, linked: Linked, pick: Key)
    ensures var t := Allocate(s, k, req, linked, pick);
            var ids := Assign(RequestedEbis(req), Used(s));
            var legacy := AssignLegacy(LegacyNeeded(req, linked.ims), LegacyUsed(s));
            if !HasIdentities(s, req) then OnlySays(s, t, Immediate(k, 84)) && t.reservations == s.reservations
            else if !HasLegacy(s, req, linked.ims) then OnlySays(s, t, Immediate(k, 94))
            else |ids| == |req.bearers| == |legacy| && t == Proceed(Admit(s, k, req, ids, legacy), k, linked, pick)
  {
    hide Used, LegacyUsed, Assign, AssignLegacy, Proceed, Admit, Free, NamedAreFree, NamedAreSpared;
    AssignAllExactlyWhen(RequestedEbis(req), Used(s));
    AssignLegacyExactlyWhen(LegacyNeeded(req, linked.ims), LegacyUsed(s));
    assert req == CreateRequest(req.teid, req.seqNum, req.linked, req.bearers);
    NeededAreVoice(req.teid, req.seqNum, req.linked, req.bearers, linked.ims);
  }

  // Nothing is admitted, the bearers of what is pending stay, and `k` keeps all but its state.
  ghost predicate Goes(s: State, t: State, k: Key)
    requires k in s.pending
  {
    && t.admitted == s.admitted
    && (forall l :: l in t.pending ==> l in s.pending && t.pending[l].bearers == s.pending[l].bearers)
    && (k in t.pending ==>
          t.reservations == s.reservations && t.pending[k] == s.pending[k].(state := t.pending[k].state))
  }

  lemma StatesGo(s: State, k: Key, l: Key, to: CreateState)
    requires k in s.pending && l in s.pending
    ensures Goes(s, PutTx(s, l, s.pending[l].(state := to)), k)
  {}

  lemma DenialGoes(s: State, k: Key)
    requires k in s.pending
    ensures Goes(s, Deny(s, k), k) && Goes(s, s, k)
  {
    hide ReleaseOwned;
  }

  lemma ProceedAdmits(s: State, k: Key, linked: Linked, pick: Key)
    requires k in s.pending
    ensures Goes(s, Proceed(s, k, linked, pick), k)
  {
    hide ActiveS1, Flushable, Owned, LinkedReady, Goes, PutTx, Deny;
    DenialGoes(s, k);
    StatesGo(s, k, k, WaitingForLink);
    StatesGo(s, k, k, WaitingForUE);
    if Flushable(s, linked.ebi, pick) {
      FlushableIsPending(s, linked.ebi, pick);
      StatesGo(s, k, pick, SettingUpERAB);
    }
  }

  lemma FlushableIsPending(s: State, linked: Octet, pick: Key)
    requires Flushable(s, linked, pick)
    ensures pick in s.pending
  {}

  lemma AdmitAdmits(s: State, k: Key, req: CreateRequest, ids: seq<Octet>, legacy: seq<Octet>)
    requires |ids| == |req.bearers| == |legacy|
    ensures k in Admit(s, k, req, ids, legacy).pending && Admit(s, k, req, ids, legacy).admitted == s.admitted + multiset{k}
  {
    hide NewBearers, FingerprintOf;
  }

  lemma GoesAdmits(s: State, t: State, k: Key)
    requires k in s.pending && Goes(s, t, k)
    ensures t.admitted == s.admitted
  {}

  lemma SaysAdmits(s: State, t: State, out: Out)
    requires OnlySays(s, t, out)
    ensures t.admitted == s.admitted && t.pending == s.pending
  {}

  // A Create Bearer Request is admitted exactly when the UE is known, the request is new, no other one
  // for the same policy is under way, fewer than four are, and there are identities for all its
  // bearers. Otherwise it changes nothing and is answered at once: with the reason, with the answer it
  // had before, or not at all while its transaction is pending.
  lemma CreateIsAdmittedExactlyWhen(s: State, peer: string, req: CreateRequest, link: Option<Linked>, pick: Key)
    ensures var k := Gtp(peer, Create, req.teid, req.seqNum);
            var t := CreateBearerRequest(s, peer, req, link, pick);
            var isNew := link.Some? && k !in s.cached && k !in s.pending;
            && (t.admitted == s.admitted + multiset{k} <==> isNew && Admissible(s, req, link.value.ims))
            && (link.None? ==> t == s.(out := s.out + [Immediate(k, 64)]))
            && (link.Some? && k in s.cached ==> t == s.(out := s.out + [Replay(k, s.cached[k])]))
            && (link.Some? && k !in s.cached && k in s.pending ==> t == s)
            && (isNew && (Repeated(s, req) || |PendingCreates(s)| >= 4) ==>
                  OnlySays(s, t, Immediate(k, 94)) && t.reservations == s.reservations)
            && (isNew && !Repeated(s, req) && |PendingCreates(s)| < 4 && !HasIdentities(s, req) ==>
                  OnlySays(s, t, Immediate(k, 84)) && t.reservations == s.reservations)
            && (isNew && Roomy(s, req) && !HasLegacy(s, req, link.value.ims) ==> OnlySays(s, t, Immediate(k, 94)))
  {
    hide OnlySays, Reply, Goes, Admit;
    ReplySays(s, Gtp(peer, Create, req.teid, req.seqNum), CONTEXT_NOT_FOUND);
    ReplySays(s, Gtp(peer, Create, req.teid, req.seqNum), REQUEST_DENIED);
    hide Allocate, PendingCreates, FingerprintOf, HasIdentities, HasLegacy, NewBearers, Proceed;
    var k := Gtp(peer, Create, req.teid, req.seqNum);
    assert EquivalentPending(s, FingerprintOf(req)) <==> Repeated(s, req);
    if link.Some? && k !in s.cached && k !in s.pending {
      AllocationExactlyWhen(s, k, req, link.value, pick);
      var t := Allocate(s, k, req, link.value, pick);
      if OnlySays(s, t, Immediate(k, 84)) { SaysAdmits(s, t, Immediate(k, 84)); }
      if OnlySays(s, t, Immediate(k, 94)) { SaysAdmits(s, t, Immediate(k, 94)); }
      if HasIdentities(s, req) && HasLegacy(s, req, link.value.ims) {
        var ids := Assign(RequestedEbis(req), Used(s));
        var legacy := AssignLegacy(LegacyNeeded(req, link.value.ims), LegacyUsed(s));
        AdmitAdmits(s, k, req, ids, legacy);
        ProceedAdmits(Admit(s, k, req, ids, legacy), k, link.value, pick);
        GoesAdmits(Admit(s, k, req, ids, legacy), Proceed(Admit(s, k, req, ids, legacy), k, link.value, pick), k);
      }
    }
  }

  // A request refused for want of legacy identifiers leaves the identities of the bearers before the
  // first one that found none reserved for a transaction that does not exist.
  lemma RefusalLeavesReservations(s: State, k: Key, req: CreateRequest, linked: Linked, pick: Key)
    returns (ids: seq<Octet>, n: nat)
    requires HasIdentities(s, req) && !HasLegacy(s, req, linked.ims)
    ensures |ids| == |req.bearers| && Distinct(ids) && (forall i :: 0 <= i < |ids| ==> ids[i] !in Used(s))
    ensures n < |req.bearers| && (req.bearers[n].qos.qci == 1 || req.bearers[n].qos.qci == 2)
    ensures VoiceBearers(req.bearers[..n]) == |{2, 3, 4, 5, 6, 7} - LegacyUsed(s)|
    ensures var t := Allocate(s, k, req, linked, pick);
            && (forall e :: e in t.reservations <==> e in s.reservations || e in ids[..n])
            && (forall e :: e in t.reservations ==>
                  t.reservations[e] == if e in ids[..n] then IdOf(k) else s.reservations[e])
  {
    hide Used, LegacyUsed, Assign, AssignLegacy, Proceed, Admit, HasIdentities, HasLegacy, Free, NamedAreFree, NamedAreSpared;
    ids := Assign(RequestedEbis(req), Used(s));
    AssignSound(RequestedEbis(req), Used(s));
    var needed := LegacyNeeded(req, linked.ims);
    var legacy := AssignLegacy(needed, LegacyUsed(s));
    n := |legacy|;
    IdentitiesSuffice(s, req);
    LegacyFallsShort(s, req, linked.ims);
    AssignLegacyStopsWhere(needed, LegacyUsed(s));
    assert needed[n] <==> linked.ims && (req.bearers[n].qos.qci == 1 || req.bearers[n].qos.qci == 2);
    NeededAreVoice(req.teid, req.seqNum, req.linked, req.bearers[..n], linked.ims);
    assert LegacyNeeded(CreateRequest(req.teid, req.seqNum, req.linked, req.bearers[..n]), linked.ims) == needed[..n];
    forall i | 0 <= i < |ids| ensures ids[i] !in Used(s) { assert Requestable(ids[i], Used(s)); }
  }

  lemma IdentitiesSuffice(s: State, req: CreateRequest)
    requires HasIdentities(s, req)
    ensures |Assign(RequestedEbis(req), Used(s))| == |req.bearers|
  {
    hide Used, Assign, Free, NamedAreFree, NamedAreSpared;
    AssignAllExactlyWhen(RequestedEbis(req), Used(s));
  }

  lemma LegacyFallsShort(s: State, req: CreateRequest, ims: bool)
    requires !HasLegacy(s, req, ims)
    ensures |AssignLegacy(LegacyNeeded(req, ims), LegacyUsed(s))| < |req.bearers|
  {
    hide LegacyUsed, AssignLegacy;
    AssignLegacyExactlyWhen(LegacyNeeded(req, ims), LegacyUsed(s));
    assert req == CreateRequest(req.teid, req.seqNum, req.linked, req.bearers);
    NeededAreVoice(req.teid, req.seqNum, req.linked, req.bearers, ims);
  }

  lemma GoneHoldsRequest(s: State, u: State, t: State, k: Key, req: CreateRequest, ims: bool, ids: seq<Octet>)
    requires k in u.pending && k in t.pending && HoldsRequest(s, u, k, req, ims, ids) && Goes(u, t, k)
    ensures HoldsRequest(s, t, k, req, ims, ids)
  {
    hide AsRequested, Distinct, Used, FingerprintOf;
  }

  // An admitted request that is not denied at once is pending as it was requested.
  lemma AdmittedAsRequested(s: State, peer: string, req: CreateRequest, linked: Linked, pick: Key) returns (ids: seq<Octet>)
    requires var k := Gtp(peer, Create, req.teid, req.seqNum);
             && k !in s.pending && k in CreateBearerRequest(s, peer, req, Some(linked), pick).pending
    ensures HoldsRequest(s, CreateBearerRequest(s, peer, req, Some(linked), pick),
                         Gtp(peer, Create, req.teid, req.seqNum), req, linked.ims, ids)
  {
    hide Allocate, PendingCreates, FingerprintOf, HasIdentities, HasLegacy, NewBearers, Proceed, Used, LegacyUsed;
    hide Assign, AssignLegacy, EquivalentPending, HoldsRequest, OnlySays, Goes, Admit;
    var k := Gtp(peer, Create, req.teid, req.seqNum);
    AllocationExactlyWhen(s, k, req, linked, pick);
    var t := Allocate(s, k, req, linked, pick);
    if OnlySays(s, t, Immediate(k, 84)) { SaysAdmits(s, t, Immediate(k, 84)); }
    if OnlySays(s, t, Immediate(k, 94)) { SaysAdmits(s, t, Immediate(k, 94)); }
    ids := Assign(RequestedEbis(req), Used(s));
    var legacy := AssignLegacy(LegacyNeeded(req, linked.ims), LegacyUsed(s));
    var u := Admit(s, k, req, ids, legacy);
    AdmitAdmits(s, k, req, ids, legacy);
    ProceedAdmits(u, k, linked, pick);
    AdmissionHoldsRequest(s, k, req, linked.ims, ids, legacy);
    GoneHoldsRequest(s, u, Proceed(u, k, linked, pick), k, req, linked.ims, ids);
  }

  // ---------------------------------------------------------------- where a Create waits

  predicate Up(s: State) {
    !s.access.idle && s.access.binding
  }

  predicate Usable(p: Pdn, e: Octet) {
    p.ebi == e && !p.disconnecting && p.nasAccepted && p.established && !p.modifyFailed
  }

  // The default bearer `e` carries traffic, or the attach default bearer stands in for it.
  ghost predicate LinkUsable(s: State, e: Octet) {
    || e == 0
    || (exists a :: a in s.pdns && Usable(s.pdns[a], e))
    || (e == s.defaultEbi && forall a :: a in s.pdns ==> s.pdns[a].ebi != e)
  }

  ghost predicate LinkKnown(s: State, e: Octet) {
    || e == 0 || e == s.defaultEbi
    || exists a :: a in s.pdns && s.pdns[a].ebi == e && !s.pdns[a].disconnecting
  }

  ghost predicate Pickable(s: State, linked: Octet, pick: Key) {
    && IsCreate(s, pick) && s.pending[pick].linked == linked
    && (s.pending[pick].state == Received || s.pending[pick].state == WaitingForLink)
  }

  ghost predicate AllReserved(s: State, k: Key)
    requires k in s.pending
  {
    forall e :: e in s.pending[k].bearers ==> ReservedFor(s, e, IdOf(k))
  }

  // Only the state of the transaction `l` changes.
  ghost predicate Turns(s: State, t: State, l: Key, to: CreateState)
    requires l in s.pending
  {
    t == s.(pending := s.pending[l := s.pending[l].(state := to)])
  }

  // `k` ends without a trace but one answer that is not cached, and gives back what it reserved.
  ghost predicate Ends(s: State, t: State, k: Key, cause: Octet) {
    && t.pending == s.pending - {k} && t == s.(pending := t.pending, out := t.out, reservations := t.reservations)
    && |t.out| == |s.out| + 1 && t.out[..|s.out|] == s.out
    && t.out[|s.out|].Answer? && t.out[|s.out|].key == k && t.out[|s.out|].response.cause == cause
    && (forall e :: e in t.reservations <==> e in s.reservations && s.reservations[e] != IdOf(k))
    && (forall e :: e in t.reservations ==> t.reservations[e] == s.reservations[e])
  }

  lemma DenialEnds(s: State, k: Key)
    requires k in s.pending
    ensures Ends(s, Deny(s, k), k, 94)
  {}

  lemma LinksAreLinks(s: State, e: Octet)
    ensures LinkedReady(s, e) <==> LinkUsable(s, e)
    ensures LinkedActive(s, e) <==> LinkKnown(s, e)
  {}

  lemma ReservedIsOwned(s: State, k: Key)
    requires k in s.pending
    ensures Owned(s, k) <==> AllReserved(s, k)
  {}

  // A request that was just admitted waits for its default bearer, or for the UE to answer paging, or
  // goes on; it is denied at once when the UE can be neither reached nor paged, and when the
  // transaction that the aggregation picks lost a reservation.
  lemma AdmittedGoesOn(s: State, k: Key, linked: Linked, pick: Key)
    requires IsCreate(s, k)
    ensures var t := Proceed(s, k, linked, pick);
            var staged := Up(s) && linked.aggregating;
            var picked := staged && Pickable(s, linked.ebi, pick);
            var usable := LinkUsable(s, s.pending[k].linked);
            && (picked && AllReserved(s, pick) ==> Turns(s, t, pick, SettingUpERAB))
            && (picked && !AllReserved(s, pick) ==> Ends(s, t, k, 94))
            && (staged && !picked ==> t == s)
            && (!staged && !usable ==> Turns(s, t, k, WaitingForLink))
            && (!staged && usable && Up(s) ==> t == s)
            && (!staged && usable && !Up(s) && s.access.registered && s.access.idle ==> Turns(s, t, k, WaitingForUE))
            && (!staged && usable && !Up(s) && !(s.access.registered && s.access.idle) ==> Ends(s, t, k, 94))
  {
    hide LinkedReady, LinkUsable, LinkedActive, LinkKnown, Owned, AllReserved, Ends, Deny;
    LinksAreLinks(s, s.pending[k].linked);
    DenialEnds(s, k);
    if Pickable(s, linked.ebi, pick) { ReservedIsOwned(s, pick); }
  }

  // A Create that is resumed is withdrawn when its default bearer is gone, and otherwise waits or is
  // activated; without its reservations it is never set up.
  lemma ResumedGoesOn(s: State, k: Key)
    ensures !IsCreate(s, k) || Terminal(s.pending[k].state) ==> Resume(s, k) == s
    ensures IsCreate(s, k) && !Terminal(s.pending[k].state) ==>
            var t, e := Resume(s, k), s.pending[k].linked;
            && (!Up(s) ==> Turns(s, t, k, WaitingForUE))
            && (Up(s) && !LinkKnown(s, e) ==>
                  && Ends(s, t, k, 64) && t.out[|s.out|].response.bearers.Keys == s.pending[k].bearers.Keys
                  && forall x :: x in s.pending[k].bearers ==>
                       BearerReports.Reports(t.out[|s.out|].response.bearers[x], s.pending[k].bearers[x]))
            && (Up(s) && LinkKnown(s, e) && !LinkUsable(s, e) ==> Turns(s, t, k, WaitingForLink))
            && (Up(s) && LinkKnown(s, e) && LinkUsable(s, e) ==>
                  Turns(s, t, k, if AllReserved(s, k) then SettingUpERAB else ActivatingNAS))
  {
    hide LinkedReady, LinkUsable, LinkedActive, LinkKnown, Owned, AllReserved;
    if IsCreate(s, k) {
      LinksAreLinks(s, s.pending[k].linked);
      ReservedIsOwned(s, k);
    }
  }

  lemma MarkingMeaning(s: State, k: Key, to: CreateState)
    requires IsCreate(s, k)
    ensures var t := MarkProgress(s, k, to);
            if to == Paging || to == WaitingResults
               || (to == SettingUpERAB && Pickable(s, s.pending[k].linked, k) && AllReserved(s, k))
            then Turns(s, t, k, to) else t == s
  {}
}
