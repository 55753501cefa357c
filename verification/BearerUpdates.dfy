/**
 * Network-initiated Update Bearer is all or nothing: pending updates never share a bearer, the
 * active records stay as they are until every bearer of the update is confirmed, and then all
 * are replaced together (internal/s1ap/dedicated_bearer.go:502-624, 973-1048, erab_modify.go:359-382).
 */
module BearerUpdates {
  import opened Common
  import opened BearerMachine
  import opened BearerInvariants
  import opened BearerOutcome
  import EbiAllocation
  import T = ActivationTimer

  ghost predicate Updates(s: State, k: Key, e: Octet) {
    k in s.pending && KindOf(k) == Update && e in s.pending[k].bearers
  }

  ghost predicate UpdatesApart(s: State) {
    forall k, l, e :: Updates(s, k, e) && Updates(s, l, e) ==> k == l
  }

  // Transactions other than Creates stay as they are or end.
  ghost predicate NoNewUpdates(s: State, t: State) {
    forall k, e :: Updates(t, k, e) ==> Updates(s, k, e)
  }

  // ---------------------------------------------------------------- Create steps

  // Create steps neither start nor change another transaction, and never touch a bearer that is active.
  ghost predicate CreateOnly(s: State, t: State) {
    && (forall k :: k in t.pending && KindOf(k) != Create ==> k in s.pending && t.pending[k] == s.pending[k])
    && (forall e :: e in s.dedicated ==> e in t.dedicated && t.dedicated[e] == s.dedicated[e])
  }

  lemma PutTxIsCreateOnly(s: State, k: Key, tx: Tx)
    requires KindOf(k) == Create
    ensures CreateOnly(s, PutTx(s, k, tx))
  {}

  lemma CloseIsCreateOnly(s: State, t: State, k: Key)
    requires KindOf(k) == Create && t.pending == s.pending - {k} && t.dedicated == s.dedicated
    ensures CreateOnly(s, t)
  {}

  lemma CompletionIsCreateOnly(s: State, k: Key)
    requires k in s.pending && KindOf(k) == Create && s.dedicated.Keys !! s.pending[k].bearers.Keys
    ensures CreateOnly(s, MaybeComplete(s, k)) && CreateOnly(s, Finalize(s, k))
  {}

  lemma PutThenCompleteIsCreateOnly(s: State, k: Key, tx: Tx)
    requires IsCreate(s, k) && SoleOwner(s) && tx.bearers.Keys == s.pending[k].bearers.Keys
    ensures CreateOnly(s, MaybeComplete(PutTx(s, k, tx), k)) && CreateOnly(s, Finalize(PutTx(s, k, tx), k))
  {
    hide MaybeComplete, Finalize;
    DedicatedIsFree(s, k);
    CompletionIsCreateOnly(PutTx(s, k, tx), k);
  }

  lemma ActivationIsCreateOnly(s: State, k: Key, e: Octet, ok: bool, cause: Octet)
    requires SoleOwner(s) && Matches(s, k, {Create}, e)
    ensures CreateOnly(s, ActivationResult(s, k, e, ok, cause))
  {
    hide MaybeComplete;
    var tx := s.pending[k];
    var stopped := tx.bearers[e].(timer := T.Stop(tx.bearers[e].timer));
    PutThenCompleteIsCreateOnly(s, k, tx.(bearers := tx.bearers[e :=
      if ok then stopped.(nasAccepted := true) else stopped.(nasRejected := true, ran := EsmCause(cause))]));
  }

  lemma SetupIsCreateOnly(s: State, k: Key, e: Octet, ok: bool, enb: Transport, ran: RanNasCause)
    requires SoleOwner(s) && Matches(s, k, {Create}, e)
    ensures CreateOnly(s, SetupResult(s, k, e, ok, enb, ran))
  {
    hide MaybeComplete;
    var tx := s.pending[k];
    var b := tx.bearers[e];
    PutThenCompleteIsCreateOnly(s, k, tx.(bearers := tx.bearers[e :=
      b.(enb := enb, established := ok, erabFailed := !ok, ran := if ok then b.ran else ran)]));
  }

  lemma CleanupsAreCreateOnly(s: State, k: Key, released: set<Octet>, failed: set<Octet>)
    requires SoleOwner(s)
    ensures CreateOnly(s, CleanupDone(s, k, released, failed)) && CreateOnly(s, CleanupError(s, k))
  {
    hide Finalize;
    if IsCreate(s, k) && s.pending[k].cleanup != {} {
      var tx := s.pending[k];
      PutThenCompleteIsCreateOnly(s, k, AfterCleanup(tx, EvaluateRelease(tx.cleanup, released, failed)));
      PutThenCompleteIsCreateOnly(s, k, tx.(bearers := map e | e in tx.bearers :: Torn(tx.bearers[e], false)));
    }
  }

  lemma ProceedIsCreateOnly(s: State, k: Key, linked: Linked, pick: Key)
    requires IsCreate(s, k)
    ensures CreateOnly(s, Proceed(s, k, linked, pick))
  {
    hide LinkedReady, ActiveS1, Owned, CreateOnly;
    var tx := s.pending[k];
    PutTxIsCreateOnly(s, k, tx);
    assert PutTx(s, k, tx) == s;
    CloseIsCreateOnly(s, Deny(s, k), k);
    PutTxIsCreateOnly(s, k, tx.(state := WaitingForLink));
    PutTxIsCreateOnly(s, k, tx.(state := WaitingForUE));
    if Flushable(s, linked.ebi, pick) { PutTxIsCreateOnly(s, pick, s.pending[pick].(state := SettingUpERAB)); }
  }

  lemma AllocateIsCreateOnly(s: State, k: Key, req: CreateRequest, linked: Linked, pick: Key)
    requires KindOf(k) == Create
    ensures CreateOnly(s, Allocate(s, k, req, linked, pick))
  {
    hide Used, LegacyUsed, Proceed, NewBearers, FingerprintOf;
    var ids := EbiAllocation.Assign(RequestedEbis(req), Used(s));
    var legacy := EbiAllocation.AssignLegacy(LegacyNeeded(req, linked.ims), LegacyUsed(s));
    if |ids| == |legacy| == |req.bearers| {
      ProceedIsCreateOnly(Admit(s, k, req, ids, legacy), k, linked, pick);
    }
  }

  lemma RequestIsCreateOnly(s: State, peer: string, req: CreateRequest, link: Option<Linked>, pick: Key)
    ensures CreateOnly(s, CreateBearerRequest(s, peer, req, link, pick))
  {
    hide Allocate, EquivalentPending, PendingCreates, FingerprintOf;
    if link.Some? { AllocateIsCreateOnly(s, Gtp(peer, Create, req.teid, req.seqNum), req, link.value, pick); }
  }

  lemma MarkingIsCreateOnly(s: State, k: Key, to: CreateState)
    requires IsCreate(s, k)
    ensures CreateOnly(s, MarkProgress(s, k, to))
  {}

  lemma FailureIsCreateOnly(s: State, k: Key, cause: Octet)
    requires IsCreate(s, k)
    ensures CreateOnly(s, FailCreate(s, k, cause))
  {}

  lemma ResumptionIsCreateOnly(s: State, k: Key)
    requires IsCreate(s, k)
    ensures CreateOnly(s, Resume(s, k))
  {
    hide CreateOnly, LinkedReady, LinkedActive, Owned, BearerAnswers, ActiveS1;
    assert PutTx(s, k, s.pending[k]) == s;
    PutTxIsCreateOnly(s, k, s.pending[k]);
    var t := Resume(s, k);
    if k in t.pending {
      PutTxIsCreateOnly(s, k, s.pending[k].(state := t.pending[k].state));
    } else {
      CloseIsCreateOnly(s, t, k);
    }
  }

  lemma TimersAreCreateOnly(s: State, k: Key, e: Octet, g: nat, p: T.Payload)
    ensures CreateOnly(s, TimerStart(s, k, e, p)) && CreateOnly(s, TimerExpiry(s, k, e, g))
  {}

  lemma NotResumedAtAll(s: State, k: Key)
    requires !IsCreate(s, k)
    ensures Resume(s, k) == s
  {}

  lemma NothingIsCreateOnly(s: State)
    ensures CreateOnly(s, s)
  {}

  lemma CreateStepsAreCreateOnly(s: State, ev: Event)
    requires SoleOwner(s)
    ensures CreateOnly(s, StepCreate(s, ev))
  {
    hide CreateBearerRequest, MarkProgress, Resume, FailCreate, ActivationResult, SetupResult, TimerStart, TimerExpiry;
    hide CleanupDone, CleanupError, AfterExpiry, Matches, SoleOwner, CreateOnly;
    NothingIsCreateOnly(s);
    match ev
    case CreateArrives(peer, req, link, pick) => RequestIsCreateOnly(s, peer, req, link, pick);
    case Marked(k, to) => if IsCreate(s, k) { MarkingIsCreateOnly(s, k, to); }
    case Resumed(k) => if IsCreate(s, k) { ResumptionIsCreateOnly(s, k); } else { NotResumedAtAll(s, k); }
    case CreateFails(k, cause) => if IsCreate(s, k) { FailureIsCreateOnly(s, k, cause); }
    case Activation(k, e, ok, cause) =>
      if Matches(s, k, {Create}, e) { ActivationIsCreateOnly(s, k, e, ok, cause); }
    case SetupAnswered(k, e, ok, enb, ran) =>
      if Matches(s, k, {Create}, e) { SetupIsCreateOnly(s, k, e, ok, enb, ran); }
    case Started(k, e, p) => TimersAreCreateOnly(s, k, e, 0, p);
    case Expired(k, e, g) => TimersAreCreateOnly(s, k, e, g, []);
    case ExpiryHandled(k) => ExpiryIsCreateOnly(s, k);
    case CleanedUp(k, r, f) => CleanupsAreCreateOnly(s, k, r, f);
    case CleanupNotSent(k) => CleanupsAreCreateOnly(s, k, {}, {});
    case _ =>
  }

  lemma ExpiryIsCreateOnly(s: State, k: Key)
    requires SoleOwner(s)
    ensures CreateOnly(s, AfterExpiry(s, k))
  {
    if IsCreate(s, k) {
      hide MaybeComplete;
      DedicatedIsFree(s, k);
      CompletionIsCreateOnly(s, k);
    }
  }

  // ---------------------------------------------------------------- pending updates stay apart

  lemma DeleteRegionsStartNoUpdate(s: State, peer: string, teid: nat, n: nat, ebis: set<Octet>, k: Key,
                                   released: set<Octet>, failed: set<Octet>)
    ensures NoNewUpdates(s, DeleteBearerRequest(s, peer, teid, n, ebis))
    ensures NoNewUpdates(s, DeleteReleased(s, k, released, failed)) && NoNewUpdates(s, DeleteReleaseError(s, k))
  {
    hide EvaluateRelease;
  }

  lemma DeactivationStartsNoUpdate(s: State, k: Key, e: Octet)
    requires Matches(s, k, {Delete}, e)
    ensures NoNewUpdates(s, DeactivateAccepted(s, k, e))
  {}

  lemma DeleteStepsStartNoUpdate(s: State, ev: Event)
    ensures NoNewUpdates(s, StepDelete(s, ev))
  {
    hide DeleteBearerRequest, DeleteReleased, DeleteReleaseError, DeactivateAccepted, Matches;
    match ev
    case DeleteArrives(peer, teid, n, ebis) =>
      DeleteRegionsStartNoUpdate(s, peer, teid, n, ebis, Local(0, 0), {}, {});
    case Deactivation(k, e) => if Matches(s, k, {Delete}, e) { DeactivationStartsNoUpdate(s, k, e); }
    case DeleteAnswered(k, r, f) => DeleteRegionsStartNoUpdate(s, "", 0, 0, {}, k, r, f);
    case DeleteFails(k) => DeleteRegionsStartNoUpdate(s, "", 0, 0, {}, k, {}, {});
    case _ =>
  }

  lemma CompletionStartsNoUpdate(s: State, k: Key, ff: bool)
    requires k in s.pending
    ensures NoNewUpdates(s, MaybeCompleteUpdate(s, k, ff))
  {}

  function AfterModify(tx: Tx, modified: set<Octet>, failed: set<Octet>): Tx {
    tx.(bearers := map e | e in tx.bearers ::
      if e in failed then tx.bearers[e].(established := false, erabFailed := true)
      else if e in modified then tx.bearers[e].(established := true, erabFailed := false)
      else tx.bearers[e])
  }

  lemma ModifyStartsNoUpdate(s: State, k: Key, m: set<Octet>, f: set<Octet>, ff: bool)
    ensures NoNewUpdates(s, ErabModified(s, k, m, f, ff))
  {
    hide MaybeCompleteUpdate;
    if k in s.pending && KindOf(k) == Update {
      CompletionStartsNoUpdate(PutTx(s, k, AfterModify(s.pending[k], m, f)), k, ff);
    }
  }

  lemma ModificationStartsNoUpdate(s: State, k: Key, e: Octet, ok: bool, ff: bool)
    requires Matches(s, k, {Update, LocalUpdate}, e)
    ensures NoNewUpdates(s, ModifyResult(s, k, e, ok, ff))
  {
    hide MaybeCompleteUpdate;
    CompletionStartsNoUpdate(PutBearer(s, k, e, s.pending[k].bearers[e].(nasAccepted := true)), k, ff);
  }

  lemma LocalStartsNoUpdate(s: State, e: Octet, pti: Octet, tfa: seq<Octet>)
    ensures NoNewUpdates(s, LocalModification(s, e, pti, tfa)) && NoNewUpdates(s, LocalWithdrawn(s, e, pti))
  {}

  // The admission check looks at every requested bearer, so a new update meets no other.
  lemma AdmittedUpdateIsApart(s: State, peer: string, teid: nat, n: nat, cs: seq<Change>)
    requires UpdatesApart(s)
    ensures UpdatesApart(UpdateBearerRequest(s, peer, teid, n, cs))
  {
    hide UpdatedBearers, ActiveS1;
    var k := Gtp(peer, Update, teid, n);
    var bs := UpdatedBearers(s.dedicated, IdOf(k), cs, ActiveS1(s));
    UpdatedBearersAreRequested(s.dedicated, IdOf(k), cs, ActiveS1(s));
    if k !in s.pending && !ConflictingUpdate(s, cs) && bs != map[] {
      assert forall l, e :: Updates(s, l, e) ==> e !in bs;
      AdmittedAlone(s, k, Tx(0, (0, 0, multiset{}), bs, Received, {}, false));
    } else {
      assert NoNewUpdates(s, UpdateBearerRequest(s, peer, teid, n, cs));
    }
  }

  lemma AdmittedAlone(s: State, k: Key, tx: Tx)
    requires UpdatesApart(s) && k !in s.pending
    requires forall l, e :: Updates(s, l, e) ==> e !in tx.bearers
    ensures UpdatesApart(Install(s, k, tx))
  {
    var t := Install(s, k, tx);
    forall l, e | Updates(t, l, e) ensures if l == k then e in tx.bearers else Updates(s, l, e) {}
  }

  lemma {:induction false} UpdatedBearersAreRequested(dedicated: map<Octet, Bearer>, id: TxId, cs: seq<Change>, active: bool)
    ensures forall e :: e in UpdatedBearers(dedicated, id, cs, active) ==> exists i :: 0 <= i < |cs| && cs[i].ebi == e
  {
    if cs != [] {
      var n := |cs| - 1;
      UpdatedBearersAreRequested(dedicated, id, cs[..n], active);
      forall e | e in UpdatedBearers(dedicated, id, cs, active) ensures exists i :: 0 <= i < |cs| && cs[i].ebi == e {
        if e == cs[n].ebi {
        } else {
          assert e in UpdatedBearers(dedicated, id, cs[..n], active);
          var i :| 0 <= i < |cs[..n]| && cs[..n][i].ebi == e;
          assert cs[i].ebi == e;
        }
      }
    }
  }

  lemma OutcomeStartsNoUpdate(s: State, k: Key, cause: Octet)
    ensures NoNewUpdates(s, ModifySent(s, k)) && NoNewUpdates(s, FailUpdate(s, k, cause))
  {}

  lemma UpdateStepsStartNoUpdate(s: State, ev: Event)
    requires !ev.UpdateArrives?
    ensures NoNewUpdates(s, StepUpdate(s, ev))
  {
    hide UpdateBearerRequest, ModifyResult, ErabModified, LocalModification, LocalWithdrawn, ModifySent, FailUpdate;
    hide Matches;
    match ev
    case Modification(k, e, ok, ff) =>
      if Matches(s, k, {Update, LocalUpdate}, e) { ModificationStartsNoUpdate(s, k, e, ok, ff); }
    case ModifyAnswered(k, m, f, ff) => ModifyStartsNoUpdate(s, k, m, f, ff);
    case ModifyRegistered(k) => OutcomeStartsNoUpdate(s, k, 0);
    case UpdateFails(k, cause) => OutcomeStartsNoUpdate(s, k, cause);
    case LocalArrives(e, pti, tfa) => LocalStartsNoUpdate(s, e, pti, tfa);
    case LocalFails(e, pti) => LocalStartsNoUpdate(s, e, pti, []);
    case _ =>
  }

  lemma ApartFrom(s: State, t: State)
    requires UpdatesApart(s) && (NoNewUpdates(s, t) || CreateOnly(s, t))
    ensures UpdatesApart(t)
  {
    forall k, e | Updates(t, k, e) ensures Updates(s, k, e) {}
  }

  lemma PdnStepsStartNoUpdate(s: State, ev: Event)
    ensures NoNewUpdates(s, StepPdn(s, ev))
  {}

  lemma StepKeepsUpdatesApart(s: State, ev: Event)
    requires UpdatesApart(s) && SoleOwner(s)
    ensures UpdatesApart(Step(s, ev))
  {
    if CreateEvent(ev) {
      CreateStepsAreCreateOnly(s, ev);
    } else if PdnEvent(ev) {
      PdnStepsStartNoUpdate(s, ev);
    } else if DeleteEvent(ev) {
      DeleteStepsStartNoUpdate(s, ev);
    } else if ev.UpdateArrives? {
      AdmittedUpdateIsApart(s, ev.peer, ev.teid, ev.seqNum, ev.changes);
    } else {
      UpdateStepsStartNoUpdate(s, ev);
    }
    hide StepCreate, StepDelete, StepPdn, CreateOnly, NoNewUpdates, UpdatesApart, SoleOwner;
    hide UpdateBearerRequest, ModifyResult, ErabModified, LocalModification, LocalWithdrawn, ModifySent, FailUpdate;
    if !ev.UpdateArrives? { ApartFrom(s, Step(s, ev)); }
  }

  // ---------------------------------------------------------------- all or nothing

  predicate NetworkUpdateEvent(ev: Event, k: Key) {
    match ev
    case ModifyRegistered(l) => l == k
    case Modification(l, _, _, _) => l == k
    case ModifyAnswered(l, _, _, _) => l == k
    case UpdateFails(l, _) => l == k
    case _ => false
  }

  // Every bearer of the update replaced its active record, each confirmed as far as the update
  // waited for it, with the QoS and filters the update asked for.
  ghost predicate AllReplaced(s: State, t: State, k: Key)
    requires k in s.pending
  {
    var bs := s.pending[k].bearers;
    && t.dedicated.Keys == s.dedicated.Keys + bs.Keys
    && (forall e :: e in s.dedicated && e !in bs ==> t.dedicated[e] == s.dedicated[e])
    && (forall e :: e in bs ==>
          && t.dedicated[e] == bs[e].(nasAccepted := true, established := t.dedicated[e].established, erabFailed := false)
          && (s.pending[k].modifying ==> t.dedicated[e].established))
  }

  // The update is still pending and nothing changed, or it was answered: accepted with all
  // records replaced together, or with another cause and none replaced.
  ghost predicate AllOrNothing(s: State, t: State, k: Key)
    requires k in s.pending
  {
    if k in t.pending then t.dedicated == s.dedicated
    else
      && |t.out| == |s.out| + 1 && t.out[|s.out|].Answer? && t.out[|s.out|].key == k
      && if t.out[|s.out|].response.cause == ACCEPTED then AllReplaced(s, t, k) else t.dedicated == s.dedicated
  }

  lemma CompletionIsAllOrNothing(s: State, k: Key, ff: bool)
    requires k in s.pending && KindOf(k) == Update
    ensures AllOrNothing(s, MaybeCompleteUpdate(s, k, ff), k)
  {
    hide ActiveS1;
    var t := MaybeCompleteUpdate(s, k, ff);
    if k !in t.pending && t.out[|s.out|].response.cause == ACCEPTED {
      ReplacedTogether(s, k, ff);
    }
  }

  lemma ReplacedTogether(s: State, k: Key, ff: bool)
    requires k in s.pending && KindOf(k) == Update
    requires forall e :: e in s.pending[k].bearers ==> Confirmed(s.pending[k], s.pending[k].bearers[e])
    ensures AllReplaced(s, MaybeCompleteUpdate(s, k, ff), k)
  {}

  lemma ModificationIsAllOrNothing(s: State, k: Key, e: Octet, accepted: bool, ff: bool)
    requires k in s.pending && KindOf(k) == Update && e in s.pending[k].bearers
    ensures AllOrNothing(s, ModifyResult(s, k, e, accepted, ff), k)
  {
    hide MaybeCompleteUpdate;
    CompletionIsAllOrNothing(PutBearer(s, k, e, s.pending[k].bearers[e].(nasAccepted := true)), k, ff);
  }

  lemma ModifyAnswerIsAllOrNothing(s: State, k: Key, m: set<Octet>, f: set<Octet>, ff: bool)
    requires k in s.pending && KindOf(k) == Update
    ensures AllOrNothing(s, ErabModified(s, k, m, f, ff), k)
  {
    hide MaybeCompleteUpdate;
    CompletionIsAllOrNothing(PutTx(s, k, AfterModify(s.pending[k], m, f)), k, ff);
  }

  // Every event of a pending update is all or nothing. The failures and the timeout carry
  // another cause than acceptance.
  lemma UpdateIsAllOrNothing(s: State, ev: Event, k: Key)
    requires k in s.pending && KindOf(k) == Update && NetworkUpdateEvent(ev, k)
    requires ev.UpdateFails? ==> ev.cause != ACCEPTED
    ensures AllOrNothing(s, StepUpdate(s, ev), k)
  {
    hide ModifyResult, ErabModified, UpdateBearerRequest, LocalModification, LocalWithdrawn;
    match ev
    case Modification(_, e, accepted, ff) =>
      if e in s.pending[k].bearers { ModificationIsAllOrNothing(s, k, e, accepted, ff); }
    case ModifyAnswered(_, m, f, ff) => ModifyAnswerIsAllOrNothing(s, k, m, f, ff);
    case _ =>
  }

  // Until a pending update ends, no other network procedure but a Delete touches the active
  // records of its bearers: not another update, and not a Create.
  lemma OthersSpareUpdatedBearers(s: State, ev: Event, k: Key, l: Key)
    requires SoleOwner(s) && UpdatesApart(s) && k in s.pending && KindOf(k) == Update
    requires CreateEvent(ev) || (l != k && l in s.pending && KindOf(l) == Update && NetworkUpdateEvent(ev, l))
    requires ev.UpdateFails? ==> ev.cause != ACCEPTED
    ensures SparesRecords(s, Step(s, ev), k)
  {
    hide StepCreate, StepUpdate, StepDelete, StepPdn, SoleOwner, SparesRecords;
    if CreateEvent(ev) {
      CreateStepsAreCreateOnly(s, ev);
      CreateOnlySparesRecords(s, StepCreate(s, ev), k);
    } else {
      UpdateIsAllOrNothing(s, ev, l);
      OtherUpdateSparesRecords(s, StepUpdate(s, ev), k, l);
    }
  }

  ghost predicate SparesRecords(s: State, t: State, k: Key) {
    k in s.pending ==>
      forall e :: e in s.pending[k].bearers && e in s.dedicated ==> e in t.dedicated && t.dedicated[e] == s.dedicated[e]
  }

  lemma CreateOnlySparesRecords(s: State, t: State, k: Key)
    requires CreateOnly(s, t)
    ensures SparesRecords(s, t, k)
  {}

  lemma OtherUpdateSparesRecords(s: State, t: State, k: Key, l: Key)
    requires UpdatesApart(s) && k in s.pending && KindOf(k) == Update && l != k && l in s.pending && KindOf(l) == Update
    requires AllOrNothing(s, t, l)
    ensures SparesRecords(s, t, k)
  {
    forall e | e in s.pending[k].bearers ensures e !in s.pending[l].bearers {
      assert Updates(s, k, e) && (e in s.pending[l].bearers ==> Updates(s, l, e));
    }
  }

  // ---------------------------------------------------------------- over whole runs

  lemma {:induction false} RunKeepsUpdatesApart(s: State, evs: seq<Event>, sgw: nat -> string)
    requires Identities(s, sgw) && UpdatesApart(s) && LawfulRun(s, evs, sgw)
    ensures UpdatesApart(Run(s, evs))
    decreases |evs|
  {
    hide Step, UpdatesApart;
    if evs != [] {
      StepKeepsIdentities(s, evs[0], sgw);
      StepKeepsUpdatesApart(s, evs[0]);
      RunKeepsUpdatesApart(Step(s, evs[0]), evs[1..], sgw);
    }
  }

  // The active records of the bearers of the update `k`.
  ghost function HeldRecords(s: State, k: Key): set<Octet>
    requires k in s.pending
  {
    s.pending[k].bearers.Keys * s.dedicated.Keys
  }

  // The UE accepts the last open deactivation of the Delete `l`, and no E-RAB is left to release.
  ghost predicate DeletesAtOnce(s: State, l: Key, e: Octet) {
    && Matches(s, l, {Delete}, e) && !ReleaseOverS1(s, s.pending[l])
    && forall x :: x in s.pending[l].bearers && x != e ==> s.pending[l].bearers[x].nasAccepted
  }

  // The answer to the release removes the bearer, or marks it in a way it is not marked yet.
  ghost predicate ReleaseChanges(s: State, l: Key, released: set<Octet>, failed: set<Octet>, e: Octet)
    requires e in s.dedicated
  {
    && l in s.pending && KindOf(l) == Delete && s.pending[l].cleanup != {}
    && var o := EvaluateRelease(s.pending[l].cleanup, released, failed);
       e in o.released || ((e in o.failed || e in o.missing) && (s.dedicated[e].established || !s.dedicated[e].erabFailed))
  }

  // What does change the active record of a bearer under update before the update is confirmed:
  // the end of a Delete or of the PDN it is linked to, the disconnection of that PDN, and a
  // UE-initiated modification that the UE accepts.
  ghost predicate Disturbs(s: State, ev: Event, k: Key)
    requires k in s.pending
  {
    match ev
    case LinkedRemoved(es) => es * HeldRecords(s, k) != {}
    case PdnRemoval(a) => && a in s.pdns && s.pdns[a].deletePending
                          && exists e :: e in HeldRecords(s, k) && s.dedicated[e].linked == s.pdns[a].ebi
    case Deactivation(l, e) => DeletesAtOnce(s, l, e) && s.pending[l].bearers.Keys * HeldRecords(s, k) != {}
    case DeleteAnswered(l, r, f) => exists e :: e in HeldRecords(s, k) && ReleaseChanges(s, l, r, f, e)
    case Modification(l, e, accepted, _) =>
      accepted && Matches(s, l, {LocalUpdate}, e) && e in HeldRecords(s, k) && s.pending[l].bearers[e] != s.dedicated[e]
    case _ => false
  }

  // The bearers of the update `k` and their active records are the same in both states.
  ghost predicate SameRecords(s: State, t: State, k: Key) {
    && k in s.pending && k in t.pending && t.pending[k].bearers.Keys == s.pending[k].bearers.Keys
    && forall e :: e in s.pending[k].bearers && e in s.dedicated ==> e in t.dedicated && t.dedicated[e] == s.dedicated[e]
  }

  // An event of the update `l` ends no other transaction and never changes which bearers one has.
  ghost predicate KeepsBearers(s: State, t: State, k: Key, l: Key) {
    && (k in s.pending && k in t.pending ==> t.pending[k].bearers.Keys == s.pending[k].bearers.Keys)
    && (k in s.pending && k != l ==> k in t.pending)
  }

  lemma CompletionKeepsBearers(s: State, k: Key, l: Key, ff: bool)
    requires l in s.pending
    ensures KeepsBearers(s, MaybeCompleteUpdate(s, l, ff), k, l)
  {}

  lemma ModificationKeepsBearers(s: State, k: Key, l: Key, e: Octet, ok: bool, ff: bool)
    requires l in s.pending && KindOf(l) == Update && e in s.pending[l].bearers
    ensures KeepsBearers(s, ModifyResult(s, l, e, ok, ff), k, l)
  {
    hide MaybeCompleteUpdate;
    CompletionKeepsBearers(PutBearer(s, l, e, s.pending[l].bearers[e].(nasAccepted := true)), k, l, ff);
  }

  lemma ModifyAnswerKeepsBearers(s: State, k: Key, l: Key, m: set<Octet>, f: set<Octet>, ff: bool)
    requires l in s.pending && KindOf(l) == Update
    ensures KeepsBearers(s, ErabModified(s, l, m, f, ff), k, l)
  {}

  lemma UpdateKeepsBearers(s: State, ev: Event, k: Key, l: Key)
    requires l in s.pending && KindOf(l) == Update && NetworkUpdateEvent(ev, l)
    ensures KeepsBearers(s, StepUpdate(s, ev), k, l)
  {
    hide ModifyResult, ErabModified;
    match ev
    case Modification(_, e, ok, ff) => if e in s.pending[l].bearers { ModificationKeepsBearers(s, k, l, e, ok, ff); }
    case ModifyAnswered(_, m, f, ff) => ModifyAnswerKeepsBearers(s, k, l, m, f, ff);
    case _ =>
  }

  lemma ArrivalKeepsRecords(s: State, peer: string, teid: nat, n: nat, cs: seq<Change>, k: Key)
    requires k in s.pending
    ensures SameRecords(s, UpdateBearerRequest(s, peer, teid, n, cs), k)
  {
    hide UpdatedBearers, ConflictingUpdate, ActiveS1, SameRecords;
    var l := Gtp(peer, Update, teid, n);
    SameRecordsReflexive(s, k);
    ReplyKeepsRecords(s, l, REQUEST_DENIED, k);
    ReplyKeepsRecords(s, l, CONTEXT_NOT_FOUND, k);
    if l !in s.pending {
      InstallKeepsRecords(s, l, Tx(0, (0, 0, multiset{}), UpdatedBearers(s.dedicated, IdOf(l), cs, ActiveS1(s)), Received, {},
                                   false), k);
    }
  }

  lemma SameRecordsReflexive(s: State, k: Key)
    requires k in s.pending
    ensures SameRecords(s, s, k)
  {}

  lemma ReplyKeepsRecords(s: State, l: Key, cause: Octet, k: Key)
    requires k in s.pending
    ensures SameRecords(s, Reply(s, l, cause), k)
  {}

  lemma InstallKeepsRecords(s: State, l: Key, tx: Tx, k: Key)
    requires k in s.pending && l !in s.pending
    ensures SameRecords(s, Install(s, l, tx), k)
  {}

  lemma UpdatesKeepRecords(s: State, ev: Event, k: Key, l: Key)
    requires SoleOwner(s) && UpdatesApart(s) && k in s.pending && KindOf(k) == Update && k in StepUpdate(s, ev).pending
    requires l in s.pending && KindOf(l) == Update && NetworkUpdateEvent(ev, l) && !ev.UpdateFails?
    ensures SameRecords(s, StepUpdate(s, ev), k)
  {
    hide StepUpdate, UpdatesApart, SoleOwner, AllReplaced;
    UpdateKeepsBearers(s, ev, k, l);
    UpdateIsAllOrNothing(s, ev, l);
    if l != k { OtherUpdateSparesRecords(s, StepUpdate(s, ev), k, l); }
  }

  // A step that leaves the update as it is and keeps, but for `gone`, its active records.
  lemma RecordsGone(s: State, t: State, k: Key, gone: set<Octet>)
    requires k in s.pending && k in t.pending && t.pending[k] == s.pending[k]
    requires t.dedicated == s.dedicated - gone
    ensures SameRecords(s, t, k) <==> gone * HeldRecords(s, k) == {}
  {
    if gone * HeldRecords(s, k) != {} {
      var e := Member(gone * HeldRecords(s, k));
      assert e !in t.dedicated;
    } else {
      var held := HeldRecords(s, k);
      forall e | e in s.pending[k].bearers && e in s.dedicated ensures e !in gone {
        assert e in gone * held <==> e in gone && e in held;
      }
    }
  }

  // ---- UE-initiated modifications and the other update regions

  lemma LocalRegionsKeepRecords(s: State, k: Key, e: Octet, pti: Octet, tfa: seq<Octet>)
    requires k in s.pending && KindOf(k) == Update
    ensures SameRecords(s, LocalModification(s, e, pti, tfa), k) && SameRecords(s, LocalWithdrawn(s, e, pti), k)
  {}

  lemma UpdateRegionsKeepRecords(s: State, k: Key, l: Key, cause: Octet)
    requires k in s.pending && KindOf(k) == Update
    ensures SameRecords(s, ModifySent(s, l), k)
    ensures k in FailUpdate(s, l, cause).pending ==> SameRecords(s, FailUpdate(s, l, cause), k)
  {}

  lemma LocalAcceptExactlyWhen(s: State, k: Key, l: Key, e: Octet, accepted: bool, ff: bool)
    requires k in s.pending && KindOf(k) == Update && Matches(s, l, {LocalUpdate}, e)
    ensures SameRecords(s, ModifyResult(s, l, e, accepted, ff), k)
            <==> !(accepted && e in HeldRecords(s, k) && s.pending[l].bearers[e] != s.dedicated[e])
  {
    var t := ModifyResult(s, l, e, accepted, ff);
    if accepted && e in HeldRecords(s, k) && s.pending[l].bearers[e] != s.dedicated[e] {
      assert t.dedicated[e] != s.dedicated[e];
    }
  }

  lemma NoMatchNoStep(s: State, ev: Event)
    requires (ev.Modification? || ev.ModifyAnswered?) && !(ev.key in s.pending && KindOf(ev.key) == Update)
    requires ev.Modification? ==> !Matches(s, ev.key, {LocalUpdate}, ev.ebi)
    ensures StepUpdate(s, ev) == s
  {
    hide ModifyResult, MaybeCompleteUpdate;
  }

  lemma ModificationsExactlyWhen(s: State, ev: Event, k: Key)
    requires SoleOwner(s) && UpdatesApart(s) && k in s.pending && KindOf(k) == Update
    requires (ev.Modification? || ev.ModifyAnswered?) && k in StepUpdate(s, ev).pending
    ensures SameRecords(s, StepUpdate(s, ev), k) <==> !Disturbs(s, ev, k)
  {
    SameRecordsReflexive(s, k);
    hide ModifyResult, ErabModified, SameRecords, SoleOwner, UpdatesApart, HeldRecords;
    if ev.key in s.pending && KindOf(ev.key) == Update {
      UpdatesKeepRecords(s, ev, k, ev.key);
    } else if ev.Modification? && Matches(s, ev.key, {LocalUpdate}, ev.ebi) {
      LocalAcceptExactlyWhen(s, k, ev.key, ev.ebi, ev.accepted, ev.failureFirst);
    } else {
      NoMatchNoStep(s, ev);
    }
  }

  lemma UpdateStepsExactlyWhen(s: State, ev: Event, k: Key)
    requires SoleOwner(s) && UpdatesApart(s) && k in s.pending && KindOf(k) == Update
    requires !CreateEvent(ev) && !PdnEvent(ev) && !DeleteEvent(ev) && k in StepUpdate(s, ev).pending
    ensures SameRecords(s, StepUpdate(s, ev), k) <==> !Disturbs(s, ev, k)
  {
    if ev.Modification? || ev.ModifyAnswered? {
      ModificationsExactlyWhen(s, ev, k);
    } else {
      hide SoleOwner, UpdatesApart, HeldRecords, SameRecords, UpdateBearerRequest, LocalModification, LocalWithdrawn;
      hide ModifySent, FailUpdate, ModifyResult, ErabModified;
      match ev
      case UpdateArrives(peer, teid, n, cs) => ArrivalKeepsRecords(s, peer, teid, n, cs, k);
      case ModifyRegistered(l) => UpdateRegionsKeepRecords(s, k, l, 0);
      case UpdateFails(l, cause) => UpdateRegionsKeepRecords(s, k, l, cause);
      case LocalArrives(e, pti, tfa) => LocalRegionsKeepRecords(s, k, e, pti, tfa);
      case LocalFails(e, pti) => LocalRegionsKeepRecords(s, k, e, pti, []);
    }
  }

  // ---- Deletes

  lemma DeleteArrivalKeepsRecords(s: State, k: Key, peer: string, teid: nat, n: nat, ebis: set<Octet>)
    requires k in s.pending
    ensures SameRecords(s, DeleteBearerRequest(s, peer, teid, n, ebis), k)
  {
    hide SameRecords;
    var l := Gtp(peer, Delete, teid, n);
    var bs := map e | e in ebis && e in s.dedicated :: s.dedicated[e].(txId := IdOf(l));
    SameRecordsReflexive(s, k);
    ReplyKeepsRecords(s, l, ACCEPTED, k);
    if l !in s.pending { InstallKeepsRecords(s, l, Tx(0, (0, 0, multiset{}), bs, Received, {}, false), k); }
  }

  lemma DeleteErrorsKeepRecords(s: State, k: Key, l: Key)
    requires k in s.pending && KindOf(k) == Update
    ensures SameRecords(s, DeleteSendFailed(s, l), k) && SameRecords(s, DeleteReleaseError(s, l), k)
  {}

  lemma DeactivationExactlyWhen(s: State, k: Key, l: Key, e: Octet)
    requires k in s.pending && KindOf(k) == Update && Matches(s, l, {Delete}, e)
    ensures SameRecords(s, DeactivateAccepted(s, l, e), k)
            <==> !(DeletesAtOnce(s, l, e) && s.pending[l].bearers.Keys * HeldRecords(s, k) != {})
  {
    hide HeldRecords, SameRecords;
    var t := DeactivateAccepted(s, l, e);
    DeactivationOutcome(s, l, e);
    hide DeactivateAccepted, DeletesAtOnce;
    if DeletesAtOnce(s, l, e) {
      RecordsGone(s, t, k, s.pending[l].bearers.Keys);
    } else {
      assert t.dedicated == s.dedicated - {};
      RecordsGone(s, t, k, {});
      assert {} * HeldRecords(s, k) == {};
    }
  }

  // Recording the accept does not change whether there is an E-RAB to release.
  lemma AcceptKeepsRelease(s: State, l: Key, e: Octet)
    requires Matches(s, l, {Delete}, e)
    ensures var s1 := PutBearer(s, l, e, s.pending[l].bearers[e].(nasAccepted := true));
            ReleaseOverS1(s1, s1.pending[l]) == ReleaseOverS1(s, s.pending[l])
  {
    hide ActiveS1;
    var s1 := PutBearer(s, l, e, s.pending[l].bearers[e].(nasAccepted := true));
    assert ActiveS1(s1) == ActiveS1(s) by { SameAccess(s, s1); }
    assert forall x :: x in s.pending[l].bearers ==> s1.pending[l].bearers[x].enb == s.pending[l].bearers[x].enb
                                                     && s1.pending[l].bearers[x].established == s.pending[l].bearers[x].established;
  }

  lemma SameAccess(s: State, t: State)
    requires s.access == t.access
    ensures ActiveS1(s) == ActiveS1(t)
  {}

  lemma DeactivationOutcome(s: State, l: Key, e: Octet)
    requires Matches(s, l, {Delete}, e)
    ensures var t := DeactivateAccepted(s, l, e);
            && (forall k :: k in s.pending && k != l ==> k in t.pending && t.pending[k] == s.pending[k])
            && t.dedicated == if DeletesAtOnce(s, l, e) then s.dedicated - s.pending[l].bearers.Keys else s.dedicated
  {
    AcceptKeepsRelease(s, l, e);
    hide ReleaseOverS1;
    var s1 := PutBearer(s, l, e, s.pending[l].bearers[e].(nasAccepted := true));
    assert s1.pending[l].bearers.Keys == s.pending[l].bearers.Keys;
  }

  lemma ReleaseExactlyWhen(s: State, k: Key, l: Key, released: set<Octet>, failed: set<Octet>)
    requires k in s.pending && KindOf(k) == Update
    ensures SameRecords(s, DeleteReleased(s, l, released, failed), k)
            <==> !(exists e :: e in HeldRecords(s, k) && ReleaseChanges(s, l, released, failed, e))
  {
    hide EvaluateRelease;
    var t := DeleteReleased(s, l, released, failed);
    forall e | e in HeldRecords(s, k)
      ensures ReleaseChanges(s, l, released, failed, e) <==> !(e in t.dedicated && t.dedicated[e] == s.dedicated[e])
    {}
  }

  lemma OtherDeleteStepsKeepRecords(s: State, ev: Event, k: Key)
    requires k in s.pending && KindOf(k) == Update && (ev.DeleteArrives? || ev.DeleteNotSent? || ev.DeleteFails?)
    ensures SameRecords(s, StepDelete(s, ev), k)
  {
    hide DeleteBearerRequest, DeleteSendFailed, DeleteReleaseError, SameRecords;
    match ev
    case DeleteArrives(peer, teid, n, ebis) => DeleteArrivalKeepsRecords(s, k, peer, teid, n, ebis);
    case DeleteNotSent(l) => DeleteErrorsKeepRecords(s, k, l);
    case DeleteFails(l) => DeleteErrorsKeepRecords(s, k, l);
  }

  lemma DeleteStepsExactlyWhen(s: State, ev: Event, k: Key)
    requires k in s.pending && KindOf(k) == Update && DeleteEvent(ev)
    ensures SameRecords(s, StepDelete(s, ev), k) <==> !Disturbs(s, ev, k)
  {
    hide DeactivateAccepted, DeleteReleased, SameRecords, HeldRecords, ReleaseChanges, Matches;
    if ev.Deactivation? {
      SameRecordsReflexive(s, k);
      if Matches(s, ev.key, {Delete}, ev.ebi) { DeactivationExactlyWhen(s, k, ev.key, ev.ebi); }
    } else if ev.DeleteAnswered? {
      ReleaseExactlyWhen(s, k, ev.key, ev.released, ev.failed);
    } else {
      OtherDeleteStepsKeepRecords(s, ev, k);
      hide StepDelete;
    }
  }

  // ---- PDN connectivity

  lemma PendingPdnKeepsRecords(s: State, k: Key, pti: Octet, apn: string, r: PdnRequest, e: Octet)
    requires k in s.pending
    ensures SameRecords(s, PdnReserve(s, pti, apn), k) && SameRecords(s, PdnInstall(s, r), k)
    ensures SameRecords(s, PdnAbandon(s, r), k) && SameRecords(s, EsmInformation(s, pti, apn), k)
    ensures SameRecords(s, PendingPdnDropped(s), k) && SameRecords(s, SessionCreated(s, e), k)
  {
    hide DefaultEbiFor, ReleasePdn;
  }

  lemma PdnKeepsRecords(s: State, k: Key, apn: string, p: Pdn, a: Access)
    requires k in s.pending
    ensures SameRecords(s, Materialise(s), k) && SameRecords(s, PdnProgress(s, apn, p), k) && SameRecords(s, AccessChanged(s, a), k)
  {}

  lemma RemovalExactlyWhen(s: State, k: Key, apn: string)
    requires k in s.pending && k in PdnRemoved(s, apn).pending
    ensures SameRecords(s, PdnRemoved(s, apn), k) <==> !Disturbs(s, PdnRemoval(apn), k)
  {
    var t := PdnRemoved(s, apn);
    forall e | e in HeldRecords(s, k)
      ensures e in t.dedicated && t.dedicated[e] == s.dedicated[e]
              <==> !(apn in s.pdns && s.pdns[apn].deletePending && s.dedicated[e].linked == s.pdns[apn].ebi)
    {}
  }

  predicate PendingPdnEvent(ev: Event) {
    ev.PdnArrives? || ev.PdnInstalls? || ev.PdnAbandons? || ev.InformationRequested? || ev.PendingPdnFails?
    || ev.SessionAnswered?
  }

  lemma PendingPdnStepsKeepRecords(s: State, ev: Event, k: Key)
    requires k in s.pending && PendingPdnEvent(ev)
    ensures SameRecords(s, StepPdn(s, ev), k)
  {
    var none := PdnRequest(0, 0, "");
    hide PdnReserve, PdnInstall, PdnAbandon, EsmInformation, PendingPdnDropped, SessionCreated, SameRecords;
    match ev
    case PdnArrives(pti, apn) => PendingPdnKeepsRecords(s, k, pti, apn, none, 0);
    case PdnInstalls(r) => PendingPdnKeepsRecords(s, k, 0, "", r, 0);
    case PdnAbandons(r) => PendingPdnKeepsRecords(s, k, 0, "", r, 0);
    case InformationRequested(pti, apn) => PendingPdnKeepsRecords(s, k, pti, apn, none, 0);
    case PendingPdnFails => PendingPdnKeepsRecords(s, k, 0, "", none, 0);
    case SessionAnswered(e) => PendingPdnKeepsRecords(s, k, 0, "", none, e);
  }

  lemma OtherPdnStepsKeepRecords(s: State, ev: Event, k: Key)
    requires k in s.pending && (ev.DefaultMaterialised? || ev.PdnAdvances? || ev.AccessMoves?)
    ensures SameRecords(s, StepPdn(s, ev), k)
  {
    hide Materialise, PdnProgress, AccessChanged, SameRecords;
    match ev
    case DefaultMaterialised => PdnKeepsRecords(s, k, "", NewPdn(0, 0), s.access);
    case PdnAdvances(apn, p) => PdnKeepsRecords(s, k, apn, p, s.access);
    case AccessMoves(a) => PdnKeepsRecords(s, k, "", NewPdn(0, 0), a);
  }

  lemma PdnStepsExactlyWhen(s: State, ev: Event, k: Key)
    requires k in s.pending && PdnEvent(ev) && k in StepPdn(s, ev).pending
    ensures SameRecords(s, StepPdn(s, ev), k) <==> !Disturbs(s, ev, k)
  {
    hide PdnRemoved, SameRecords, HeldRecords;
    if PendingPdnEvent(ev) {
      PendingPdnStepsKeepRecords(s, ev, k);
      hide StepPdn;
    } else if ev.LinkedRemoved? {
      RecordsGone(s, DedicatedRemoved(s, ev.ebis), k, ev.ebis);
    } else if ev.PdnRemoval? {
      RemovalExactlyWhen(s, k, ev.apn);
    } else {
      OtherPdnStepsKeepRecords(s, ev, k);
      hide StepPdn;
    }
  }

  // ---- every event

  lemma CreateStepsKeepRecords(s: State, ev: Event, k: Key)
    requires SoleOwner(s) && k in s.pending && KindOf(k) == Update && CreateEvent(ev) && k in StepCreate(s, ev).pending
    ensures SameRecords(s, StepCreate(s, ev), k)
  {
    hide StepCreate, SoleOwner;
    CreateStepsAreCreateOnly(s, ev);
  }

  // While an update stays pending, an event leaves its bearers and their active records as they
  // are exactly when it does not disturb them.
  lemma RecordsKeptExactlyWhen(s: State, ev: Event, k: Key)
    requires SoleOwner(s) && UpdatesApart(s) && k in s.pending && KindOf(k) == Update && k in Step(s, ev).pending
    ensures SameRecords(s, Step(s, ev), k) <==> !Disturbs(s, ev, k)
  {
    hide StepCreate, StepUpdate, StepDelete, StepPdn, SameRecords, UpdatesApart, SoleOwner, HeldRecords, DeletesAtOnce;
    hide ReleaseChanges, Matches;
    if CreateEvent(ev) {
      CreateStepsKeepRecords(s, ev, k);
    } else if PdnEvent(ev) {
      PdnStepsExactlyWhen(s, ev, k);
    } else if DeleteEvent(ev) {
      DeleteStepsExactlyWhen(s, ev, k);
    } else {
      UpdateStepsExactlyWhen(s, ev, k);
    }
  }

  // The update stays pending, and nothing disturbs it.
  ghost predicate UndisturbedRun(s: State, evs: seq<Event>, k: Key, sgw: nat -> string)
    requires k in s.pending
    decreases |evs|
  {
    evs == [] || (Lawful(s, evs[0], sgw) && !Disturbs(s, evs[0], k) && k in Step(s, evs[0]).pending
                  && UndisturbedRun(Step(s, evs[0]), evs[1..], k, sgw))
  }

  // As long as an update is pending and undisturbed, all other procedures, of any number and in
  // any order, leave the active records of its bearers as they were when it was admitted.
  lemma {:induction false} RecordsWaitForConfirmation(s: State, evs: seq<Event>, k: Key, sgw: nat -> string)
    requires Identities(s, sgw) && UpdatesApart(s) && k in s.pending && KindOf(k) == Update
    requires UndisturbedRun(s, evs, k, sgw)
    ensures SameRecords(s, Run(s, evs), k)
    decreases |evs|
  {
    hide Step, UpdatesApart, Disturbs;
    if evs != [] {
      RecordsKeptExactlyWhen(s, evs[0], k);
      StepKeepsIdentities(s, evs[0], sgw);
      StepKeepsUpdatesApart(s, evs[0]);
      RecordsWaitForConfirmation(Step(s, evs[0]), evs[1..], k, sgw);
    }
  }

  // ---------------------------------------------------------------- what an accepted update was confirmed by

  // Only an update that waits for the E-RAB Modify is confirmed by the eNB. The NAS messages
  // leave before the E-RAB Modify is registered, so the UE can be faster. The records that replace
  // the active ones are all established exactly when the update waited, or all were before.
  lemma AcceptedIsEstablishedExactlyWhen(s: State, k: Key, e: Octet, ff: bool)
    requires k in s.pending && KindOf(k) == Update && e in s.pending[k].bearers
    requires k !in ModifyResult(s, k, e, true, ff).pending
    requires ModifyResult(s, k, e, true, ff).out == s.out + [Answer(k, Response(ACCEPTED, map[]))]
    ensures var t := ModifyResult(s, k, e, true, ff);
            && (forall x :: x in s.pending[k].bearers ==> x in t.dedicated)
            && ((forall x :: x in s.pending[k].bearers ==> t.dedicated[x].established)
                <==> s.pending[k].modifying || forall x :: x in s.pending[k].bearers ==> s.pending[k].bearers[x].established)
  {
    var s1 := PutBearer(s, k, e, s.pending[k].bearers[e].(nasAccepted := true));
    var t := MaybeCompleteUpdate(s1, k, ff);
    var tx := s1.pending[k];
    assert t.out[|s.out|] == Answer(k, Response(ACCEPTED, map[]));
    assert t.dedicated == s.dedicated + tx.bearers;
    forall x | x in s.pending[k].bearers
      ensures x in t.dedicated && t.dedicated[x].established == s.pending[k].bearers[x].established
      ensures tx.modifying ==> tx.bearers[x].established
    {
      assert x in tx.bearers && Confirmed(tx, tx.bearers[x]);
    }
  }

  // ---------------------------------------------------------------- an update that outlives its bearer

  // A Delete or the end of a PDN can remove a bearer while an update of it is pending. An accepted
  // update puts all its records in place, so it brings such a bearer back: the active bearers
  // stay the same exactly when all bearers of the update are still among them.
  lemma AcceptRestoresNothingExactlyWhen(s: State, ev: Event, k: Key)
    requires k in s.pending && KindOf(k) == Update && NetworkUpdateEvent(ev, k)
    requires ev.UpdateFails? ==> ev.cause != ACCEPTED
    requires var t := StepUpdate(s, ev); k !in t.pending && t.out == s.out + [Answer(k, Response(ACCEPTED, map[]))]
    ensures var t := StepUpdate(s, ev);
            && (t.dedicated.Keys == s.dedicated.Keys <==> s.pending[k].bearers.Keys <= s.dedicated.Keys)
            && t.dedicated.Keys == s.dedicated.Keys + s.pending[k].bearers.Keys
  {
    hide StepUpdate;
    UpdateIsAllOrNothing(s, ev, k);
    var t := StepUpdate(s, ev);
    assert t.out[|s.out|] == Answer(k, Response(ACCEPTED, map[]));
    assert t.dedicated.Keys == s.dedicated.Keys + s.pending[k].bearers.Keys;
  }
}
