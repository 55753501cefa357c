/**
 * What an Update Bearer Request, a UE-initiated modification and a Delete Bearer Request do to the
 * active bearers, and what the PDN connectivity regions do to the shared tables
 * (internal/s1ap/dedicated_bearer.go:502-857 and 1860-1896, erab_release.go:310-345, esm.go:331-498).
 */
module BearerEffects {
  import opened Common
  import opened BearerMachine
  import opened BearerInvariants
  import BearerCleanup
  import opened BearerUpdates

  // ---------------------------------------------------------------- Update Bearer

  // The last change that names its bearer; earlier ones have no effect.
  ghost predicate LastChange(cs: seq<Change>, i: nat) {
    i < |cs| && forall j :: i < j < |cs| ==> cs[j].ebi != cs[i].ebi
  }

  // What the request gives is taken over, what it leaves out stays as it is.
  predicate TakesOver(was: QoS, next: QoS, c: QoS) {
    && (c.qci != 0 ==> next.qci == c.qci) && (c.qci == 0 ==> next.qci == was.qci)
    && (c.arp != 0 ==> next.arp == c.arp) && (c.arp == 0 ==> next.arp == was.arp)
    && (c.level != [] ==> next.level == c.level) && (c.level == [] ==> next.level == was.level)
    && (c.tft != [] ==> next.tft == c.tft) && (c.tft == [] ==> next.tft == was.tft)
    && (c.pco != [] ==> next.pco == c.pco) && (c.pco == [] ==> next.pco == was.pco)
  }

  // The pending record of an update: the active one with what the request gives, not answered by the
  // UE yet, and not established either if the eNB must reconfigure it.
  predicate UpdatesRecord(b: Bearer, c: Bearer, id: TxId, q: QoS, up: bool) {
    var reconfigures := up && b.established && (c.qos.qci != b.qos.qci || c.qos.arp != b.qos.arp || c.qos.level != b.qos.level);
    && TakesOver(b.qos, c.qos, q) && c.txId == id && !c.nasAccepted && !c.nasRejected
    && c.linked == b.linked && c.legacy == b.legacy && c.sgw == b.sgw && c.enb == b.enb && c.ran == b.ran && c.timer == b.timer
    && (c.established <==> b.established && !reconfigures) && (c.erabFailed <==> b.erabFailed && !reconfigures)
  }

  lemma {:induction false} UpdatedAsRequested(dedicated: map<Octet, Bearer>, id: TxId, cs: seq<Change>, up: bool)
    ensures var bs := UpdatedBearers(dedicated, id, cs, up);
            && (forall i: nat :: LastChange(cs, i) && cs[i].ebi in dedicated ==>
                  cs[i].ebi in bs && UpdatesRecord(dedicated[cs[i].ebi], bs[cs[i].ebi], id, cs[i].qos, up))
            && (forall e :: e in bs ==> e in dedicated && exists i :: 0 <= i < |cs| && cs[i].ebi == e)
            && (forall i :: 0 <= i < |cs| && cs[i].ebi in dedicated ==> cs[i].ebi in bs)
  {
    hide UpdatesRecord;
    if cs != [] {
      var n := |cs| - 1;
      var bs := UpdatedBearers(dedicated, id, cs, up);
      UpdatedAsRequested(dedicated, id, cs[..n], up);
      if cs[n].ebi in dedicated { OneUpdated(dedicated[cs[n].ebi], id, cs[n], up); }
      forall i: nat | LastChange(cs, i) && cs[i].ebi in dedicated
        ensures cs[i].ebi in bs && UpdatesRecord(dedicated[cs[i].ebi], bs[cs[i].ebi], id, cs[i].qos, up)
      {
        if i < n { assert cs[..n][i] == cs[i] && LastChange(cs[..n], i); }
      }
      forall e | e in bs ensures e in dedicated && exists i :: 0 <= i < |cs| && cs[i].ebi == e {
        if e != cs[n].ebi {
          var i :| 0 <= i < n && cs[..n][i].ebi == e;
          assert cs[i].ebi == e;
        }
      }
      forall i | 0 <= i < |cs| && cs[i].ebi in dedicated ensures cs[i].ebi in bs {
        if i < n { assert cs[..n][i] == cs[i]; }
      }
    }
  }

  lemma OneUpdated(b: Bearer, id: TxId, c: Change, up: bool)
    ensures UpdatesRecord(b, Updated(b, id, c, up), id, c.qos, up)
  {}

  // The update `k` is pending with the named active bearers, each as the last change asks for it.
  ghost predicate HoldsUpdate(s: State, t: State, k: Key, cs: seq<Change>)
    requires k in t.pending
  {
    var bs := t.pending[k].bearers;
    && (forall e :: e in bs <==> e in s.dedicated && exists i :: 0 <= i < |cs| && cs[i].ebi == e)
    && (forall i: nat :: LastChange(cs, i) && cs[i].ebi in s.dedicated ==>
          cs[i].ebi in bs && UpdatesRecord(s.dedicated[cs[i].ebi], bs[cs[i].ebi], IdOf(k), cs[i].qos, Up(s)))
    && !t.pending[k].modifying
  }

  // Another update is pending for a bearer the request names.
  ghost predicate Conflicts(s: State, cs: seq<Change>) {
    exists i, l :: 0 <= i < |cs| && l in s.pending && KindOf(l) == Update && cs[i].ebi in s.pending[l].bearers
  }

  ghost predicate NamesActive(s: State, cs: seq<Change>) {
    exists i :: 0 <= i < |cs| && cs[i].ebi in s.dedicated
  }

  // A new Update Bearer Request is refused with 94 when it meets another update, with 64 when it names
  // no active bearer, and admitted otherwise. No active record changes yet.
  lemma UpdateIsAdmittedAsRequested(s: State, peer: string, teid: nat, n: nat, cs: seq<Change>)
    ensures var k := Gtp(peer, Update, teid, n);
            var t := UpdateBearerRequest(s, peer, teid, n, cs);
            && (k in s.pending ==> t == s)
            && (k !in s.pending && Conflicts(s, cs) ==> t == s.(out := s.out + [Immediate(k, 94)]))
            && (k !in s.pending && !Conflicts(s, cs) && !NamesActive(s, cs) ==> t == s.(out := s.out + [Immediate(k, 64)]))
            && (k !in s.pending && !Conflicts(s, cs) && NamesActive(s, cs) ==>
                  && k in t.pending && t == s.(pending := t.pending, admitted := s.admitted + multiset{k})
                  && t.pending == s.pending[k := t.pending[k]] && HoldsUpdate(s, t, k, cs))
  {
    hide UpdatedBearers, UpdatesRecord;
    var k := Gtp(peer, Update, teid, n);
    var bs := UpdatedBearers(s.dedicated, IdOf(k), cs, ActiveS1(s));
    UpdatedAsRequested(s.dedicated, IdOf(k), cs, ActiveS1(s));
    if bs != map[] {
      var e := Member(bs.Keys);
      assert e in bs && NamesActive(s, cs);
    } else {
      assert forall i :: 0 <= i < |cs| && cs[i].ebi in s.dedicated ==> cs[i].ebi in bs;
    }
  }

  // ---------------------------------------------------------------- what an update asked for stays

  // Only what the UE and the eNB answered differs.
  predicate SameAsk(b: Bearer, c: Bearer) {
    c == b.(nasAccepted := c.nasAccepted, established := c.established, erabFailed := c.erabFailed)
  }

  // As long as the transaction `k` is pending it asks for the same.
  ghost predicate KeepsAsking(s: State, t: State, k: Key) {
    k in s.pending && k in t.pending ==>
      && t.pending[k].bearers.Keys == s.pending[k].bearers.Keys
      && (forall e :: e in s.pending[k].bearers ==> SameAsk(s.pending[k].bearers[e], t.pending[k].bearers[e]))
      && (KindOf(k) == LocalUpdate ==> t.pending[k] == s.pending[k])
  }

  predicate IsUpdate(k: Key) {
    KindOf(k) == Update || KindOf(k) == LocalUpdate
  }

  lemma CompletionKeepsAsking(s: State, l: Key, ff: bool, k: Key)
    requires l in s.pending
    ensures KeepsAsking(s, MaybeCompleteUpdate(s, l, ff), k)
  {}

  lemma ModificationKeepsAsking(s: State, l: Key, e: Octet, ok: bool, ff: bool, k: Key)
    requires Matches(s, l, {Update, LocalUpdate}, e) && IsUpdate(k)
    ensures KeepsAsking(s, ModifyResult(s, l, e, ok, ff), k)
  {
    hide MaybeCompleteUpdate;
    CompletionKeepsAsking(PutBearer(s, l, e, s.pending[l].bearers[e].(nasAccepted := true)), l, ff, k);
  }

  lemma ModifyAnswerKeepsAsking(s: State, l: Key, m: set<Octet>, f: set<Octet>, ff: bool, k: Key)
    ensures KeepsAsking(s, ErabModified(s, l, m, f, ff), k)
  {
    hide MaybeCompleteUpdate;
    if l in s.pending && KindOf(l) == Update {
      CompletionKeepsAsking(PutTx(s, l, AfterModify(s.pending[l], m, f)), l, ff, k);
    }
  }

  lemma ArrivalsKeepAsking(s: State, peer: string, teid: nat, n: nat, cs: seq<Change>, e: Octet, pti: Octet,
                           tfa: seq<Octet>, k: Key)
    ensures KeepsAsking(s, UpdateBearerRequest(s, peer, teid, n, cs), k)
    ensures KeepsAsking(s, LocalModification(s, e, pti, tfa), k)
  {
    hide UpdatedBearers, ConflictingUpdate, ActiveS1, KeepsAsking;
    NothingChangesAsking(s, UpdateBearerRequest(s, peer, teid, n, cs), k);
    NothingChangesAsking(s, LocalModification(s, e, pti, tfa), k);
  }

  lemma OutcomesKeepAsking(s: State, l: Key, cause: Octet, e: Octet, pti: Octet, k: Key)
    ensures KeepsAsking(s, ModifySent(s, l), k) && KeepsAsking(s, FailUpdate(s, l, cause), k)
    ensures KeepsAsking(s, LocalWithdrawn(s, e, pti), k)
  {
    hide KeepsAsking;
    NothingChangesAsking(s, ModifySent(s, l), k);
    NothingChangesAsking(s, FailUpdate(s, l, cause), k);
    NothingChangesAsking(s, LocalWithdrawn(s, e, pti), k);
  }

  lemma UpdatesKeepAsking(s: State, ev: Event, k: Key)
    requires IsUpdate(k)
    ensures KeepsAsking(s, StepUpdate(s, ev), k)
  {
    hide UpdateBearerRequest, ModifyResult, ErabModified, LocalModification, LocalWithdrawn, ModifySent, FailUpdate;
    hide KeepsAsking, Matches, IsUpdate;
    NothingChangesAsking(s, s, k);
    match ev
    case UpdateArrives(peer, teid, n, cs) => ArrivalsKeepAsking(s, peer, teid, n, cs, 0, 0, [], k);
    case ModifyRegistered(l) => OutcomesKeepAsking(s, l, 0, 0, 0, k);
    case Modification(l, e, ok, ff) =>
      if Matches(s, l, {Update, LocalUpdate}, e) { ModificationKeepsAsking(s, l, e, ok, ff, k); }
    case ModifyAnswered(l, m, f, ff) => ModifyAnswerKeepsAsking(s, l, m, f, ff, k);
    case UpdateFails(l, cause) => OutcomesKeepAsking(s, l, cause, 0, 0, k);
    case LocalArrives(e, pti, tfa) => ArrivalsKeepAsking(s, "", 0, 0, [], e, pti, tfa, k);
    case LocalFails(e, pti) => OutcomesKeepAsking(s, k, 0, e, pti, k);
    case _ =>
  }

  lemma NothingChangesAsking(s: State, t: State, k: Key)
    requires k in s.pending && k in t.pending ==>
               t.pending[k] == s.pending[k] || (KindOf(k) == Update && t.pending[k].bearers == s.pending[k].bearers)
    ensures KeepsAsking(s, t, k)
  {}

  ghost predicate SameUpdate(s: State, t: State, k: Key) {
    k in s.pending && k in t.pending ==> t.pending[k] == s.pending[k]
  }

  lemma DeleteArrivalsSpare(s: State, peer: string, teid: nat, n: nat, ebis: set<Octet>, k: Key)
    requires IsUpdate(k)
    ensures SameUpdate(s, DeleteBearerRequest(s, peer, teid, n, ebis), k)
  {}

  lemma DeactivationsSpare(s: State, l: Key, e: Octet, k: Key)
    requires IsUpdate(k) && Matches(s, l, {Delete}, e)
    ensures SameUpdate(s, DeactivateAccepted(s, l, e), k)
  {
    hide ReleaseOverS1;
  }

  lemma DeleteEndsSpare(s: State, l: Key, released: set<Octet>, failed: set<Octet>, k: Key)
    requires IsUpdate(k)
    ensures SameUpdate(s, DeleteReleased(s, l, released, failed), k) && SameUpdate(s, DeleteReleaseError(s, l), k)
    ensures SameUpdate(s, DeleteSendFailed(s, l), k) && SameUpdate(s, s, k)
  {
    hide EvaluateRelease;
  }

  lemma DeletesSpareUpdates(s: State, ev: Event, k: Key)
    requires IsUpdate(k)
    ensures SameUpdate(s, StepDelete(s, ev), k)
  {
    hide DeleteBearerRequest, DeactivateAccepted, DeleteReleased, DeleteReleaseError, DeleteSendFailed;
    hide SameUpdate, Matches, IsUpdate;
    DeleteEndsSpare(s, k, {}, {}, k);
    match ev
    case DeleteArrives(peer, teid, n, ebis) => DeleteArrivalsSpare(s, peer, teid, n, ebis, k);
    case Deactivation(l, e) => if Matches(s, l, {Delete}, e) { DeactivationsSpare(s, l, e, k); }
    case DeleteNotSent(l) => DeleteEndsSpare(s, l, {}, {}, k);
    case DeleteAnswered(l, r, f) => DeleteEndsSpare(s, l, r, f, k);
    case DeleteFails(l) => DeleteEndsSpare(s, l, {}, {}, k);
    case _ =>
  }

  lemma DeletesKeepAsking(s: State, ev: Event, k: Key)
    requires IsUpdate(k)
    ensures KeepsAsking(s, StepDelete(s, ev), k)
  {
    hide KeepsAsking, StepDelete;
    DeletesSpareUpdates(s, ev, k);
    NothingChangesAsking(s, StepDelete(s, ev), k);
  }

  lemma PdnsKeepAsking(s: State, ev: Event, k: Key)
    ensures KeepsAsking(s, StepPdn(s, ev), k)
  {
    hide KeepsAsking;
    NothingChangesAsking(s, StepPdn(s, ev), k);
  }

  lemma StepKeepsAsking(s: State, ev: Event, k: Key)
    requires SoleOwner(s) && IsUpdate(k)
    ensures KeepsAsking(s, Step(s, ev), k)
  {
    hide StepCreate, StepUpdate, StepDelete, StepPdn, SoleOwner, KeepsAsking;
    if CreateEvent(ev) {
      CreateStepsAreCreateOnly(s, ev);
      NothingChangesAsking(s, StepCreate(s, ev), k);
    } else if PdnEvent(ev) {
      PdnsKeepAsking(s, ev, k);
    } else if DeleteEvent(ev) {
      DeletesKeepAsking(s, ev, k);
    } else {
      UpdatesKeepAsking(s, ev, k);
    }
  }

  // The transaction is pending before and after every step.
  ghost predicate StaysPending(s: State, evs: seq<Event>, k: Key, sgw: nat -> string)
    decreases |evs|
  {
    k in s.pending && (evs == [] || (Lawful(s, evs[0], sgw) && StaysPending(Step(s, evs[0]), evs[1..], k, sgw)))
  }

  lemma {:induction false} RunKeepsAsking(s: State, evs: seq<Event>, k: Key, sgw: nat -> string)
    requires Identities(s, sgw) && IsUpdate(k) && StaysPending(s, evs, k, sgw)
    ensures k in s.pending && k in Run(s, evs).pending && KeepsAsking(s, Run(s, evs), k)
    decreases |evs|
  {
    hide Step, Lawful;
    if evs != [] {
      StepKeepsAsking(s, evs[0], k);
      StepKeepsIdentities(s, evs[0], sgw);
      RunKeepsAsking(Step(s, evs[0]), evs[1..], k, sgw);
    }
  }

  // The record `c` is the record `b` with what `q` gives, and it is confirmed by the UE.
  predicate TakesEffect(b: Bearer, c: Bearer, q: QoS) {
    && TakesOver(b.qos, c.qos, q) && c.nasAccepted && !c.erabFailed
    && c.linked == b.linked && c.legacy == b.legacy && c.sgw == b.sgw && c.enb == b.enb && c.ran == b.ran
  }

  lemma ReplacedTakesEffect(s: State, u: State, v: State, t: State, k: Key, cs: seq<Change>)
    requires k in u.pending && HoldsUpdate(s, u, k, cs)
    requires k in v.pending && KeepsAsking(u, v, k) && AllReplaced(v, t, k)
    ensures forall i: nat :: LastChange(cs, i) && cs[i].ebi in s.dedicated ==>
              cs[i].ebi in t.dedicated && TakesEffect(s.dedicated[cs[i].ebi], t.dedicated[cs[i].ebi], cs[i].qos)
  {
    hide TakesOver;
    forall i: nat | LastChange(cs, i) && cs[i].ebi in s.dedicated
      ensures cs[i].ebi in t.dedicated && TakesEffect(s.dedicated[cs[i].ebi], t.dedicated[cs[i].ebi], cs[i].qos)
    {
      var e := cs[i].ebi;
      assert UpdatesRecord(s.dedicated[e], u.pending[k].bearers[e], IdOf(k), cs[i].qos, Up(s));
      assert SameAsk(u.pending[k].bearers[e], v.pending[k].bearers[e]);
    }
  }

  lemma UpdateArrivalIsStep(s: State, peer: string, teid: nat, n: nat, cs: seq<Change>)
    ensures Step(s, UpdateArrives(peer, teid, n, cs)) == UpdateBearerRequest(s, peer, teid, n, cs)
  {
    hide UpdateBearerRequest;
  }

  // An update that the S-GW is told was accepted took effect: whatever happened while it was pending,
  // every active bearer it named now has each QoS, TFT and PCO that the last change for it gave, and
  // for each that was left out the value it had when the update was admitted.
  lemma AcceptedUpdateTakesEffect(s: State, peer: string, teid: nat, n: nat, cs: seq<Change>, evs: seq<Event>, ev: Event,
                                  sgw: nat -> string)
    requires Identities(s, sgw) && Gtp(peer, Update, teid, n) !in s.pending && !Conflicts(s, cs) && NamesActive(s, cs)
    requires StaysPending(UpdateBearerRequest(s, peer, teid, n, cs), evs, Gtp(peer, Update, teid, n), sgw)
    requires NetworkUpdateEvent(ev, Gtp(peer, Update, teid, n)) && (ev.UpdateFails? ==> ev.cause != ACCEPTED)
    requires var v := Run(UpdateBearerRequest(s, peer, teid, n, cs), evs);
             StepUpdate(v, ev).out == v.out + [Answer(Gtp(peer, Update, teid, n), Response(ACCEPTED, map[]))]
             && Gtp(peer, Update, teid, n) !in StepUpdate(v, ev).pending
    ensures var t := StepUpdate(Run(UpdateBearerRequest(s, peer, teid, n, cs), evs), ev);
            forall i: nat :: LastChange(cs, i) && cs[i].ebi in s.dedicated ==>
              cs[i].ebi in t.dedicated && TakesEffect(s.dedicated[cs[i].ebi], t.dedicated[cs[i].ebi], cs[i].qos)
  {
    hide UpdateBearerRequest, StepUpdate, Step, Run, Identities, Conflicts, NamesActive, HoldsUpdate, KeepsAsking;
    hide AllReplaced, TakesEffect, LastChange;
    var k := Gtp(peer, Update, teid, n);
    var u := UpdateBearerRequest(s, peer, teid, n, cs);
    UpdateIsAdmittedAsRequested(s, peer, teid, n, cs);
    StepKeepsIdentities(s, UpdateArrives(peer, teid, n, cs), sgw);
    UpdateArrivalIsStep(s, peer, teid, n, cs);
    RunKeepsAsking(u, evs, k, sgw);
    var v := Run(u, evs);
    UpdateIsAllOrNothing(v, ev, k);
    var t := StepUpdate(v, ev);
    assert t.out[|v.out|] == Answer(k, Response(ACCEPTED, map[]));
    ReplacedTakesEffect(s, u, v, t, k, cs);
  }

  // How an update ends without taking effect: at once when the UE refuses, at a failed E-RAB, and with
  // the cause of a failure. The S-GW is told 88, 94 or that cause.
  lemma FailedUpdateSays(s: State, k: Key, e: Octet, ff: bool, cause: Octet)
    requires k in s.pending && KindOf(k) == Update && e in s.pending[k].bearers
    ensures var t := ModifyResult(s, k, e, false, ff);
            t == s.(pending := s.pending - {k}, out := s.out + [Answer(k, Response(88, map[]))])
    ensures var t := FailUpdate(s, k, cause);
            t == s.(pending := s.pending - {k}, out := s.out + [Answer(k, Response(cause, map[]))])
    ensures var t, bs := MaybeCompleteUpdate(s, k, ff), s.pending[k].bearers;
            var broken := exists x :: x in bs && bs[x].erabFailed;
            var waits := exists x :: x in bs && !bs[x].erabFailed
                                     && (!bs[x].nasAccepted || (s.pending[k].modifying && !bs[x].established));
            && (broken && (ff || !waits) ==>
                  t == s.(pending := s.pending - {k}, out := s.out + [Answer(k, Response(94, map[]))]))
            && (waits && !(broken && ff) ==> t == s)
            && (!broken && !waits ==> k !in t.pending && t.out == s.out + [Answer(k, Response(16, map[]))])
  {}

  // The UE's acceptance is recorded for its bearer, and if it ends the update the answer is acceptance,
  // or 94 when some E-RAB had failed.
  lemma AcceptIsRecorded(s: State, k: Key, e: Octet, ff: bool)
    requires k in s.pending && KindOf(k) == Update && e in s.pending[k].bearers
    ensures var t, bs := ModifyResult(s, k, e, true, ff), s.pending[k].bearers;
            if k in t.pending then
              t == s.(pending := s.pending[k := s.pending[k].(bearers := bs[e := bs[e].(nasAccepted := true)])])
            else
              && t.pending == s.pending - {k}
              && ((t.out == s.out + [Answer(k, Response(16, map[]))] && forall x :: x in bs ==> !bs[x].erabFailed)
                  || (t.out == s.out + [Answer(k, Response(94, map[]))] && exists x :: x in bs && bs[x].erabFailed))
  {
    hide MaybeCompleteUpdate;
    var bs := s.pending[k].bearers;
    var u := PutBearer(s, k, e, bs[e].(nasAccepted := true));
    StillPendingIsSame(u, k, ff);
    if k !in MaybeCompleteUpdate(u, k, ff).pending { EndedUpdateSays(u, k, ff); }
    assert u.pending - {k} == s.pending - {k};
    assert forall x :: x in bs ==> u.pending[k].bearers[x].erabFailed == bs[x].erabFailed;
  }

  lemma EndedUpdateSays(s: State, k: Key, ff: bool)
    requires k in s.pending && KindOf(k) == Update && k !in MaybeCompleteUpdate(s, k, ff).pending
    ensures var t, bs := MaybeCompleteUpdate(s, k, ff), s.pending[k].bearers;
            && t.pending == s.pending - {k}
            && ((t.out == s.out + [Answer(k, Response(16, map[]))] && forall x :: x in bs ==> !bs[x].erabFailed)
                || (t.out == s.out + [Answer(k, Response(94, map[]))] && exists x :: x in bs && bs[x].erabFailed))
  {}

  // Once the E-RAB Modify is registered the update waits for the eNB as well. A modification that
  // cannot be sent is forgotten, and so is nothing else.
  lemma RegistrationMeaning(s: State, k: Key, e: Octet, pti: Octet, cause: Octet)
    ensures k in s.pending && KindOf(k) == Update ==>
              ModifySent(s, k) == s.(pending := s.pending[k := s.pending[k].(modifying := true)])
    ensures k !in s.pending || KindOf(k) != Update ==> ModifySent(s, k) == s && FailUpdate(s, k, cause) == s
    ensures k !in s.pending || KindOf(k) != Update ==> ErabModified(s, k, {e}, {e}, true) == s
    ensures LocalWithdrawn(s, e, pti) == s.(pending := s.pending - {Local(e, pti)})
  {}

  // The eNB's answer to the E-RAB Modify is recorded for the bearers it names; a failure wins.
  lemma ModifyAnswerIsRecorded(s: State, k: Key, modified: set<Octet>, failed: set<Octet>, ff: bool)
    requires k in s.pending && KindOf(k) == Update
    ensures var t := ErabModified(s, k, modified, failed, ff);
            k in t.pending ==>
              && t == s.(pending := t.pending) && t.pending.Keys == s.pending.Keys
              && t.pending[k].bearers.Keys == s.pending[k].bearers.Keys
              && forall e :: e in s.pending[k].bearers ==>
                   var b, c := s.pending[k].bearers[e], t.pending[k].bearers[e];
                   && c == b.(established := c.established, erabFailed := c.erabFailed)
                   && (e in failed ==> !c.established && c.erabFailed)
                   && (e in modified && e !in failed ==> c.established && !c.erabFailed)
                   && (e !in modified && e !in failed ==> c == b)
  {
    hide MaybeCompleteUpdate;
    var u := PutTx(s, k, AfterModify(s.pending[k], modified, failed));
    StillPendingIsSame(u, k, ff);
  }

  lemma StillPendingIsSame(s: State, k: Key, ff: bool)
    requires k in s.pending
    ensures k in MaybeCompleteUpdate(s, k, ff).pending ==> MaybeCompleteUpdate(s, k, ff) == s
  {}

  // ---------------------------------------------------------------- UE-initiated modification

  // The UE asks for another TFT: the active bearer stays as it is until the UE accepts, then it has the
  // TFT, if one was given, and all else as before. The S-GW is told nothing.
  lemma ModificationIsAdmittedAsRequested(s: State, e: Octet, pti: Octet, tfa: seq<Octet>)
    ensures var k := Local(e, pti);
            var t := LocalModification(s, e, pti, tfa);
            if e in s.dedicated && k !in s.pending then
              && k in t.pending && t == s.(pending := s.pending[k := t.pending[k]])
              && t.pending[k].bearers.Keys == {e} && t.pending[k].linked == s.dedicated[e].linked
              && var b, c := s.dedicated[e], t.pending[k].bearers[e];
                 && TakesOver(b.qos, c.qos, QoS(0, 0, [], tfa, [])) && c.txId == LocalId(e, pti)
                 && c == b.(txId := c.txId, qos := c.qos)
            else t == s
  {}

  lemma ModificationEnds(s: State, k: Key, e: Octet, accepted: bool, ff: bool)
    requires k in s.pending && KindOf(k) == LocalUpdate && e in s.pending[k].bearers
    ensures ModifyResult(s, k, e, accepted, ff)
            == s.(pending := s.pending - {k},
                  dedicated := if accepted then s.dedicated[e := s.pending[k].bearers[e]] else s.dedicated)
  {}

  // Whatever happened while it was pending, an accepted modification gives the bearer the requested
  // TFT; the rest of the record is the active one at the time of the request.
  lemma AcceptedModificationTakesEffect(s: State, e: Octet, pti: Octet, tfa: seq<Octet>, evs: seq<Event>, ff: bool,
                                        sgw: nat -> string)
    requires Identities(s, sgw) && e in s.dedicated && Local(e, pti) !in s.pending
    requires StaysPending(LocalModification(s, e, pti, tfa), evs, Local(e, pti), sgw)
    ensures var v := Run(LocalModification(s, e, pti, tfa), evs);
            && Local(e, pti) in v.pending && e in v.pending[Local(e, pti)].bearers
            && var t := ModifyResult(v, Local(e, pti), e, true, ff);
               && t.out == v.out && e in t.dedicated
               && TakesOver(s.dedicated[e].qos, t.dedicated[e].qos, QoS(0, 0, [], tfa, []))
               && t.dedicated[e] == s.dedicated[e].(txId := LocalId(e, pti), qos := t.dedicated[e].qos)
               && forall x :: x in v.dedicated && x != e ==> x in t.dedicated && t.dedicated[x] == v.dedicated[x]
  {
    hide LocalModification, Step, Run, Identities, ModifyResult, TakesOver;
    var k, u := Local(e, pti), LocalModification(s, e, pti, tfa);
    ModificationIsAdmittedAsRequested(s, e, pti, tfa);
    StepKeepsIdentities(s, LocalArrives(e, pti, tfa), sgw);
    LocalArrivalIsStep(s, e, pti, tfa);
    RunKeepsAsking(u, evs, k, sgw);
    var v := Run(u, evs);
    assert v.pending[k] == u.pending[k] by { AskingIsSame(u, v, k); }
    ModificationEnds(v, k, e, true, ff);
    hide KeepsAsking;
  }

  lemma AskingIsSame(u: State, v: State, k: Key)
    requires KeepsAsking(u, v, k) && k in u.pending && k in v.pending && KindOf(k) == LocalUpdate
    ensures v.pending[k] == u.pending[k]
  {}

  lemma LocalArrivalIsStep(s: State, e: Octet, pti: Octet, tfa: seq<Octet>)
    ensures Step(s, LocalArrives(e, pti, tfa)) == LocalModification(s, e, pti, tfa)
  {
    hide LocalModification;
  }

  // ---------------------------------------------------------------- Delete Bearer

  // A new Delete is admitted with a copy of every active bearer it names; without any it is accepted
  // at once.
  lemma DeleteIsAdmittedAsRequested(s: State, peer: string, teid: nat, n: nat, ebis: set<Octet>)
    ensures var k := Gtp(peer, Delete, teid, n);
            var t := DeleteBearerRequest(s, peer, teid, n, ebis);
            && (k in s.pending ==> t == s)
            && (k !in s.pending && (forall e :: e in s.dedicated ==> e !in ebis) ==> t == s.(out := s.out + [Immediate(k, 16)]))
            && (k !in s.pending && (exists e :: e in s.dedicated && e in ebis) ==>
                  && k in t.pending && t == s.(pending := s.pending[k := t.pending[k]], admitted := s.admitted + multiset{k})
                  && t.pending[k].cleanup == {}
                  && (forall e :: e in t.pending[k].bearers <==> e in ebis && e in s.dedicated)
                  && forall e :: e in t.pending[k].bearers ==> t.pending[k].bearers[e] == s.dedicated[e].(txId := IdOf(k)))
  {
    var bs := map e | e in ebis && e in s.dedicated :: s.dedicated[e].(txId := IdOf(Gtp(peer, Delete, teid, n)));
    assert forall e :: e in bs <==> e in ebis && e in s.dedicated;
    if bs == map[] {
      forall e | e in s.dedicated ensures e !in ebis { assert e !in bs; }
    } else {
      var e := Member(bs.Keys);
      assert e in s.dedicated && e in ebis;
    }
  }

  // A Delete whose NAS messages cannot be sent is denied with 94 and stays pending all the same; the
  // failure of its E-RAB release ends it with 94, and no bearer goes.
  lemma DeleteErrorsSay(s: State, k: Key)
    ensures k in s.pending && KindOf(k) == Delete ==>
              && DeleteSendFailed(s, k) == s.(out := s.out + [Premature(k, 94)])
              && DeleteReleaseError(s, k)
                 == s.(pending := s.pending - {k}, out := s.out + [Answer(k, Response(94, map[]))])
    ensures k !in s.pending || KindOf(k) != Delete ==>
              DeleteSendFailed(s, k) == s && DeleteReleaseError(s, k) == s && DeleteReleased(s, k, {}, {}) == s
  {}

  // A pending Delete has a bearer, and the E-RAB release it waits for is about all of its bearers.
  ghost predicate DeleteShape(s: State) {
    forall k :: k in s.pending && KindOf(k) == Delete ==>
      s.pending[k].bearers.Keys != {} && (s.pending[k].cleanup == {} || s.pending[k].cleanup == s.pending[k].bearers.Keys)
  }

  predicate Up(s: State) {
    !s.access.idle && s.access.binding
  }

  // A bearer for which the eNB may hold an E-RAB.
  predicate MayHold(b: Bearer) {
    b.established || b.enb != Transport(0, [])
  }

  // The UE accepts the deactivation of `e`. When it was the last bearer, the E-RABs of all bearers are
  // released first if the eNB can be asked and may hold one; otherwise all bearers go and the S-GW is
  // told so.
  lemma DeactivationMeaning(s: State, k: Key, e: Octet)
    requires k in s.pending && KindOf(k) == Delete && e in s.pending[k].bearers
    ensures var t, bs := DeactivateAccepted(s, k, e), s.pending[k].bearers;
            var last := forall x :: x in bs && x != e ==> bs[x].nasAccepted;
            var held := Up(s) && exists x :: x in bs && MayHold(bs[x]);
            && (!last || held ==>
                  && k in t.pending && t == s.(pending := s.pending[k := t.pending[k]])
                  && t.pending[k].bearers == bs[e := bs[e].(nasAccepted := true)]
                  && t.pending[k].cleanup == (if last then bs.Keys else s.pending[k].cleanup))
            && (last && !held ==>
                  t == s.(pending := s.pending - {k}, dedicated := s.dedicated - bs.Keys,
                          out := s.out + [Answer(k, Response(16, map[]))]))
  {
    hide DeactivateAccepted, MayHold, Up;
    DeactivationCases(s, k, e);
    var bs := s.pending[k].bearers;
    assert bs[e := bs[e].(nasAccepted := true)].Keys == bs.Keys;
  }

  lemma DeactivationCases(s: State, k: Key, e: Octet)
    requires k in s.pending && KindOf(k) == Delete && e in s.pending[k].bearers
    ensures var bs := s.pending[k].bearers;
            var s1 := PutBearer(s, k, e, bs[e].(nasAccepted := true));
            DeactivateAccepted(s, k, e)
            == if exists x :: x in bs && x != e && !bs[x].nasAccepted then s1
               else if Up(s) && exists x :: x in bs && MayHold(bs[x])
               then PutTx(s1, k, s1.pending[k].(cleanup := s1.pending[k].bearers.Keys))
               else Close(s1.(dedicated := s1.dedicated - s1.pending[k].bearers.Keys), k, Response(ACCEPTED, map[]))
  {
    hide ReleaseOverS1, MayHold, Up, PutTx, Close;
    var bs := s.pending[k].bearers;
    var s1 := PutBearer(s, k, e, bs[e].(nasAccepted := true));
    PutIsPut(s, k, e, bs[e].(nasAccepted := true));
    LastAccept(bs, e, bs[e].(nasAccepted := true), s1.pending[k].bearers);
    ReleaseIsHeld(s, s1, k, bs, s1.pending[k].bearers);
  }

  lemma PutIsPut(s: State, k: Key, e: Octet, b: Bearer)
    requires k in s.pending && e in s.pending[k].bearers
    ensures var t := PutBearer(s, k, e, b);
            k in t.pending && t.pending[k].bearers == s.pending[k].bearers[e := b] && t.access == s.access
  {}

  lemma LastAccept(bs: map<Octet, Bearer>, e: Octet, b: Bearer, after: map<Octet, Bearer>)
    requires b.nasAccepted && after == bs[e := b]
    ensures (exists x :: x in after && !after[x].nasAccepted) <==> exists x :: x in bs && x != e && !bs[x].nasAccepted
  {
    forall x | x in bs && x != e ensures after[x] == bs[x] {}
  }

  lemma ReleaseIsHeld(s: State, s1: State, k: Key, bs: map<Octet, Bearer>, after: map<Octet, Bearer>)
    requires k in s1.pending && s1.pending[k].bearers == after && s1.access == s.access && after.Keys == bs.Keys
    requires forall x :: x in bs ==> after[x].established == bs[x].established && after[x].enb == bs[x].enb
    ensures ReleaseOverS1(s1, s1.pending[k]) <==> Up(s) && exists x :: x in bs && MayHold(bs[x])
  {
    forall x | x in bs
      ensures MayHold(bs[x]) <==> after[x].established || after[x].enb.teid != 0 || after[x].enb.ip != []
    {
      assert bs[x].enb == Transport(bs[x].enb.teid, bs[x].enb.ip);
    }
  }

  // The bearers that the event ends, when it ends the Delete `k`.
  function Gone(bs: map<Octet, Bearer>, ev: Event): set<Octet> {
    match ev
    case Deactivation(_, _) => bs.Keys
    case DeleteAnswered(_, released, _) => bs.Keys * released
    case _ => {}
  }

  ghost predicate EndsDelete(s: State, ev: Event, k: Key) {
    && k in s.pending && KindOf(k) == Delete && k !in StepDelete(s, ev).pending
    && match ev
       case Deactivation(l, _) => l == k
       case DeleteAnswered(l, _, _) => l == k
       case DeleteFails(l) => l == k
       case _ => false
  }

  // The S-GW is told 16 exactly when every bearer of the Delete is gone, 17 when some are, and 94 when
  // none is. No other bearer goes, and one whose E-RAB the eNB did not release is marked as failed.
  lemma DeleteAnswerTellsWhatIsGone(s: State, ev: Event, k: Key)
    requires DeleteShape(s) && EndsDelete(s, ev, k)
    ensures var t, bs := StepDelete(s, ev), s.pending[k].bearers;
            var gone := Gone(bs, ev);
            && t.out == s.out + [Answer(k, Response(t.out[|s.out|].response.cause, map[]))] && t.pending == s.pending - {k}
            && var cause := t.out[|s.out|].response.cause;
               && (cause == 16 <==> gone == bs.Keys) && (cause == 17 <==> gone != {} && gone != bs.Keys)
               && (cause == 94 <==> gone == {})
               && (forall e :: e in t.dedicated <==> e in s.dedicated && e !in gone)
               && (forall e :: e in t.dedicated ==>
                     t.dedicated[e] == if ev.DeleteAnswered? && e in bs
                                       then s.dedicated[e].(established := false, erabFailed := true) else s.dedicated[e])
  {
    hide DeleteBearerRequest, DeactivateAccepted, DeleteReleased;
    match ev {
      case Deactivation(_, e) =>
        if e in s.pending[k].bearers { DeactivationMeaning(s, k, e); }
      case DeleteAnswered(_, released, failed) => ReleaseTellsWhatIsGone(s, k, released, failed);
      case _ =>
    }
  }

  // The eNB's answer ends exactly the Deletes that wait for it, and the last accept those that need none.
  lemma DeleteEndsExactlyWhen(s: State, k: Key, released: set<Octet>, failed: set<Octet>)
    requires k in s.pending && KindOf(k) == Delete
    ensures k !in DeleteReleased(s, k, released, failed).pending <==> s.pending[k].cleanup != {}
    ensures s.pending[k].cleanup == {} ==> DeleteReleased(s, k, released, failed) == s
  {
    hide EvaluateRelease;
  }

  lemma ReleaseTellsWhatIsGone(s: State, k: Key, released: set<Octet>, failed: set<Octet>)
    requires DeleteShape(s) && k in s.pending && KindOf(k) == Delete && k !in DeleteReleased(s, k, released, failed).pending
    ensures var t, bs := DeleteReleased(s, k, released, failed), s.pending[k].bearers;
            var gone := bs.Keys * released;
            && t.out == s.out + [Answer(k, Response(t.out[|s.out|].response.cause, map[]))] && t.pending == s.pending - {k}
            && var cause := t.out[|s.out|].response.cause;
               && (cause == 16 <==> gone == bs.Keys) && (cause == 17 <==> gone != {} && gone != bs.Keys)
               && (cause == 94 <==> gone == {})
               && (forall e :: e in t.dedicated <==> e in s.dedicated && e !in gone)
               && (forall e :: e in t.dedicated ==>
                     t.dedicated[e] == if e in bs then s.dedicated[e].(established := false, erabFailed := true)
                                       else s.dedicated[e])
  {
    var all := s.pending[k].bearers.Keys;
    BearerCleanup.ReleaseOutcomePartitions(all, released, failed);
    var o := EvaluateRelease(all, released, failed);
    hide EvaluateRelease;
    assert all * released == all <==> all <= released;
    assert forall e :: e in o.failed || e in o.missing <==> e in all && e !in released;
  }

  // So as long as the bearers of the Delete are active, acceptance is what the S-GW is told exactly
  // when none of them is left.
  lemma AcceptedDeleteLeavesNone(s: State, ev: Event, k: Key)
    requires DeleteShape(s) && EndsDelete(s, ev, k) && s.pending[k].bearers.Keys <= s.dedicated.Keys
    ensures var t := StepDelete(s, ev);
            && |t.out| == |s.out| + 1 && t.out[|s.out|].Answer?
            && (t.out[|s.out|].response.cause == 16 <==> s.pending[k].bearers.Keys !! t.dedicated.Keys)
  {
    DeleteAnswerTellsWhatIsGone(s, ev, k);
    hide StepDelete, EndsDelete;
    var t, bs := StepDelete(s, ev), s.pending[k].bearers;
    if Gone(bs, ev) != bs.Keys {
      assert Gone(bs, ev) <= bs.Keys;
      var e := Member(bs.Keys - Gone(bs, ev));
      assert e in t.dedicated;
    }
  }

  // ---------------------------------------------------------------- the shape of a Delete

  // Every pending Delete was pending before, just as it is.
  ghost predicate KeepsDeletes(s: State, t: State) {
    forall k :: k in t.pending && KindOf(k) == Delete ==> k in s.pending && t.pending[k] == s.pending[k]
  }

  lemma CompletionKeepsDeletes(s: State, l: Key, ff: bool)
    requires l in s.pending
    ensures KeepsDeletes(s, MaybeCompleteUpdate(s, l, ff))
  {}

  lemma ModificationKeepsDeletes(s: State, l: Key, e: Octet, ok: bool, ff: bool)
    requires Matches(s, l, {Update, LocalUpdate}, e)
    ensures KeepsDeletes(s, ModifyResult(s, l, e, ok, ff))
  {
    hide MaybeCompleteUpdate;
    CompletionKeepsDeletes(PutBearer(s, l, e, s.pending[l].bearers[e].(nasAccepted := true)), l, ff);
  }

  lemma ModifyAnswerKeepsDeletes(s: State, l: Key, m: set<Octet>, f: set<Octet>, ff: bool)
    ensures KeepsDeletes(s, ErabModified(s, l, m, f, ff))
  {
    hide MaybeCompleteUpdate;
    if l in s.pending && KindOf(l) == Update {
      CompletionKeepsDeletes(PutTx(s, l, AfterModify(s.pending[l], m, f)), l, ff);
    }
  }

  lemma ArrivalsKeepDeletes(s: State, peer: string, teid: nat, n: nat, cs: seq<Change>, e: Octet, pti: Octet,
                            tfa: seq<Octet>)
    ensures KeepsDeletes(s, UpdateBearerRequest(s, peer, teid, n, cs)) && KeepsDeletes(s, LocalModification(s, e, pti, tfa))
  {
    hide UpdatedBearers, ConflictingUpdate, ActiveS1;
  }

  lemma OutcomesKeepDeletes(s: State, l: Key, cause: Octet, e: Octet, pti: Octet)
    ensures KeepsDeletes(s, ModifySent(s, l)) && KeepsDeletes(s, FailUpdate(s, l, cause))
    ensures KeepsDeletes(s, LocalWithdrawn(s, e, pti)) && KeepsDeletes(s, s)
  {}

  lemma UpdatesKeepDeletes(s: State, ev: Event)
    ensures KeepsDeletes(s, StepUpdate(s, ev))
  {
    hide UpdateBearerRequest, ModifyResult, ErabModified, LocalModification, LocalWithdrawn, ModifySent, FailUpdate;
    hide KeepsDeletes, Matches;
    OutcomesKeepDeletes(s, Local(0, 0), 0, 0, 0);
    match ev
    case UpdateArrives(peer, teid, n, cs) => ArrivalsKeepDeletes(s, peer, teid, n, cs, 0, 0, []);
    case ModifyRegistered(l) => OutcomesKeepDeletes(s, l, 0, 0, 0);
    case Modification(l, e, ok, ff) =>
      if Matches(s, l, {Update, LocalUpdate}, e) { ModificationKeepsDeletes(s, l, e, ok, ff); }
    case ModifyAnswered(l, m, f, ff) => ModifyAnswerKeepsDeletes(s, l, m, f, ff);
    case UpdateFails(l, cause) => OutcomesKeepDeletes(s, l, cause, 0, 0);
    case LocalArrives(e, pti, tfa) => ArrivalsKeepDeletes(s, "", 0, 0, [], e, pti, tfa);
    case LocalFails(e, pti) => OutcomesKeepDeletes(s, Local(0, 0), 0, e, pti);
    case _ =>
  }

  lemma KeptShape(s: State, t: State)
    requires DeleteShape(s) && KeepsDeletes(s, t)
    ensures DeleteShape(t)
  {}

  lemma DeletesKeepShape(s: State, ev: Event)
    requires DeleteShape(s)
    ensures DeleteShape(StepDelete(s, ev))
  {
    hide DeleteBearerRequest, DeactivateAccepted, EvaluateRelease;
    match ev
    case DeleteArrives(peer, teid, n, ebis) =>
      DeleteIsAdmittedAsRequested(s, peer, teid, n, ebis);
      ArrivalKeepsShape(s, peer, teid, n, ebis);
    case Deactivation(k, e) =>
      if Matches(s, k, {Delete}, e) {
        DeactivationMeaning(s, k, e);
        AcceptKeepsShape(s, k, e);
      }
    case _ =>
  }

  lemma ArrivalKeepsShape(s: State, peer: string, teid: nat, n: nat, ebis: set<Octet>)
    requires DeleteShape(s)
    ensures DeleteShape(DeleteBearerRequest(s, peer, teid, n, ebis))
  {
    hide DeleteBearerRequest;
    var k, t := Gtp(peer, Delete, teid, n), DeleteBearerRequest(s, peer, teid, n, ebis);
    DeleteIsAdmittedAsRequested(s, peer, teid, n, ebis);
    if k !in s.pending && exists e :: e in s.dedicated && e in ebis {
      var e :| e in s.dedicated && e in ebis;
      assert e in t.pending[k].bearers;
    }
  }

  lemma AcceptKeepsShape(s: State, k: Key, e: Octet)
    requires DeleteShape(s) && k in s.pending && KindOf(k) == Delete && e in s.pending[k].bearers
    ensures DeleteShape(DeactivateAccepted(s, k, e))
  {
    hide DeactivateAccepted, MayHold;
    DeactivationMeaning(s, k, e);
    assert s.pending[k].bearers[e := s.pending[k].bearers[e].(nasAccepted := true)].Keys == s.pending[k].bearers.Keys;
  }

  lemma PdnsKeepDeletes(s: State, ev: Event)
    ensures KeepsDeletes(s, StepPdn(s, ev))
  {}

  lemma CreatesKeepDeletes(s: State, t: State)
    requires CreateOnly(s, t)
    ensures KeepsDeletes(s, t)
  {}

  lemma StepKeepsDeleteShape(s: State, ev: Event)
    requires SoleOwner(s) && DeleteShape(s)
    ensures DeleteShape(Step(s, ev))
  {
    hide StepCreate, StepUpdate, StepDelete, StepPdn, SoleOwner, DeleteShape, KeepsDeletes, CreateOnly;
    if CreateEvent(ev) {
      CreateStepsAreCreateOnly(s, ev);
      CreatesKeepDeletes(s, StepCreate(s, ev));
      KeptShape(s, StepCreate(s, ev));
    } else if PdnEvent(ev) {
      PdnsKeepDeletes(s, ev);
      KeptShape(s, StepPdn(s, ev));
    } else if DeleteEvent(ev) {
      DeletesKeepShape(s, ev);
    } else {
      UpdatesKeepDeletes(s, ev);
      KeptShape(s, StepUpdate(s, ev));
    }
  }

  lemma {:induction false} RunKeepsDeleteShape(s: State, evs: seq<Event>, sgw: nat -> string)
    requires Identities(s, sgw) && DeleteShape(s) && LawfulRun(s, evs, sgw)
    ensures DeleteShape(Run(s, evs))
    decreases |evs|
  {
    hide Step, Lawful, DeleteShape;
    if evs != [] {
      StepKeepsDeleteShape(s, evs[0]);
      StepKeepsIdentities(s, evs[0], sgw);
      RunKeepsDeleteShape(Step(s, evs[0]), evs[1..], sgw);
    }
  }

  // ---------------------------------------------------------------- PDN connectivity

  ghost predicate CarriedBy(s: State, e: Octet) {
    exists a :: a in s.pdns && s.pdns[a].ebi == e
  }

  // A request for a new APN gets the least identity that nobody owns, reserved under its name, if there
  // is one; a known APN, or another connection under way, gets none.
  lemma PdnReservationMeaning(s: State, pti: Octet, apn: string)
    ensures var t := PdnReserve(s, pti, apn);
            if apn in s.pdns || s.pendingPdn.Some? || (forall e: Octet :: 5 <= e <= 15 ==> e in Used(s)) then t == s
            else exists e: Octet ::
                   && 5 <= e <= 15 && e !in Used(s) && (forall x: Octet :: 5 <= x < e ==> x in Used(s))
                   && t == s.(reservations := s.reservations[e := PdnId(pti, apn)],
                              inFlight := s.inFlight + {PdnRequest(e, pti, apn)})
  {
    hide Used;
    var e := DefaultEbiFor(s);
    assert e != 0 ==> 5 <= e <= 15 && e !in Used(s) && forall x: Octet :: 5 <= x < e ==> x in Used(s);
  }

  // The connection under construction: nothing is accepted or established, and it carries the reserved
  // identity, or none yet when the UE must be asked for its ESM information first.
  lemma PendingPdnMeaning(s: State, r: PdnRequest, pti: Octet, apn: string)
    ensures r in s.inFlight ==>
              PdnInstall(s, r) == s.(inFlight := s.inFlight - {r},
                                     pendingPdn := Some(PendingPdn(r.apn, Pdn(r.ebi, r.pti, false, false, false, false, false,
                                                                              false))))
    ensures r !in s.inFlight ==> PdnInstall(s, r) == s
    ensures PdnAbandon(s, r) == s.(inFlight := s.inFlight - {r})
    ensures EsmInformation(s, pti, apn)
            == if s.pendingPdn.Some? then s
               else s.(pendingPdn := Some(PendingPdn(apn, Pdn(0, pti, false, false, false, false, false, false))))
  {}

  // The reservation of the connection under construction, made under its own name.
  ghost predicate OwnReservation(s: State, e: Octet) {
    s.pendingPdn.Some? && e != 0 && ReservedFor(s, e, PdnId(s.pendingPdn.value.pdn.pti, s.pendingPdn.value.apn))
  }

  // An accepted session makes the connection a PDN with the identity in the answer and gives back its
  // own reservation. If the S-GW chose another identity, that one is not reserved any more either.
  // Without an identity in the answer the connection is dropped with its reservation.
  lemma SessionMeaning(s: State, ebi: Octet)
    requires s.pendingPdn.Some?
    ensures var t, p := SessionCreated(s, ebi), s.pendingPdn.value;
            && t.pendingPdn.None?
            && t == s.(pdns := t.pdns, pendingPdn := None, reservations := t.reservations)
            && t.pdns == (if ebi == 0 then s.pdns else s.pdns[p.apn := p.pdn.(ebi := ebi)])
            && (forall e :: e in t.reservations <==>
                  e in s.reservations && !(e == p.pdn.ebi && OwnReservation(s, e))
                  && !(e == ebi && ebi != 0 && p.pdn.ebi != ebi))
            && (forall e :: e in t.reservations ==> t.reservations[e] == s.reservations[e])
  {}

  // Without a connection under construction an answer changes nothing. What else happens to a PDN leaves
  // its identity and its transaction alone, and dedicated bearers go by name.
  lemma PdnStepsMeaning(s: State, ebi: Octet, apn: string, p: Pdn, ebis: set<Octet>)
    ensures s.pendingPdn.None? ==> SessionCreated(s, ebi) == s
    ensures var t := PdnProgress(s, apn, p);
            && t == s.(pdns := t.pdns) && t.pdns.Keys == s.pdns.Keys
            && (forall a :: a in s.pdns && a != apn ==> t.pdns[a] == s.pdns[a])
            && (apn in s.pdns ==>
                  t.pdns[apn].ebi == s.pdns[apn].ebi && t.pdns[apn].pti == s.pdns[apn].pti
                  && t.pdns[apn].(ebi := p.ebi, pti := p.pti) == p)
    ensures var t := DedicatedRemoved(s, ebis);
            && t == s.(dedicated := t.dedicated) && (forall e :: e in t.dedicated <==> e in s.dedicated && e !in ebis)
            && (forall e :: e in t.dedicated ==> t.dedicated[e] == s.dedicated[e])
  {}

  lemma DroppedPdnMeaning(s: State)
    ensures var t := PendingPdnDropped(s);
            && t.pendingPdn.None? && t == s.(pendingPdn := None, reservations := t.reservations)
            && (forall e :: e in t.reservations <==>
                  e in s.reservations && !(s.pendingPdn.Some? && e == s.pendingPdn.value.pdn.ebi && OwnReservation(s, e)))
            && (forall e :: e in t.reservations ==> t.reservations[e] == s.reservations[e])
  {}

  // The attach default bearer is recorded as a PDN exactly when it is there, has an APN that is not
  // known yet, and no PDN carries it. Nothing else changes.
  lemma MaterialisedMeaning(s: State)
    ensures var t := Materialise(s);
            if s.defaultEbi != 0 && s.defaultApn != "" && s.defaultApn !in s.pdns && !CarriedBy(s, s.defaultEbi)
            then t == s.(pdns := s.pdns[s.defaultApn := Pdn(s.defaultEbi, 0, false, false, false, false, false, false)])
            else t == s
  {}

  // With a PDN go exactly the dedicated bearers and the transactions linked to it, each of them
  // without an answer.
  lemma RemovedPdnMeaning(s: State, apn: string)
    ensures var t := PdnRemoved(s, apn);
            if apn in s.pdns && s.pdns[apn].deletePending then
              && t.pdns == s.pdns - {apn} && t.out == s.out && t.cached == s.cached && t.reservations == s.reservations
              && (forall e :: e in t.dedicated <==> e in s.dedicated && s.dedicated[e].linked != s.pdns[apn].ebi)
              && (forall e :: e in t.dedicated ==> t.dedicated[e] == s.dedicated[e])
              && (forall k :: k in t.pending <==> k in s.pending && s.pending[k].linked != s.pdns[apn].ebi)
              && (forall k :: k in t.pending ==> t.pending[k] == s.pending[k])
            else t == s
  {}
}
