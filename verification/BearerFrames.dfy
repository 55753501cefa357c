/**
 * What a region leaves alone. A pending Create is touched only by the events that name it, by the
 * aggregation that picks it, and by the removal of its PDN.
 */
module BearerFrames {
  import opened Common
  import opened BearerMachine
  import opened BearerInvariants
  import EbiAllocation
  import T = ActivationTimer

  // ---------------------------------------------------------------- updates, deletes and PDNs

  ghost predicate Spares(s: State, t: State, k: Key) {
    k in s.pending && k in t.pending && t.pending[k] == s.pending[k]
  }

  lemma CompletedUpdateSparesCreates(s: State, l: Key, ff: bool, k: Key)
    requires IsCreate(s, k) && l in s.pending
    ensures Spares(s, MaybeCompleteUpdate(s, l, ff), k)
  {}

  lemma ModifyResultSparesCreates(s: State, l: Key, e: Octet, ok: bool, ff: bool, k: Key)
    requires IsCreate(s, k) && Matches(s, l, {Update, LocalUpdate}, e)
    ensures Spares(s, ModifyResult(s, l, e, ok, ff), k)
  {
    hide MaybeCompleteUpdate;
    CompletedUpdateSparesCreates(PutBearer(s, l, e, s.pending[l].bearers[e].(nasAccepted := true)), l, ff, k);
  }

  lemma ErabModifiedSparesCreates(s: State, l: Key, m: set<Octet>, f: set<Octet>, ff: bool, k: Key)
    requires IsCreate(s, k)
    ensures Spares(s, ErabModified(s, l, m, f, ff), k)
  {
    hide MaybeCompleteUpdate;
    if l in s.pending && KindOf(l) == Update {
      var tx := s.pending[l];
      CompletedUpdateSparesCreates(PutTx(s, l, tx.(bearers := map e | e in tx.bearers ::
        if e in f then tx.bearers[e].(established := false, erabFailed := true)
        else if e in m then tx.bearers[e].(established := true, erabFailed := false)
        else tx.bearers[e])), l, ff, k);
    }
  }

  lemma UpdateRequestSparesCreates(s: State, peer: string, teid: nat, n: nat, cs: seq<Change>, k: Key)
    requires IsCreate(s, k)
    ensures Spares(s, UpdateBearerRequest(s, peer, teid, n, cs), k)
  {}

  lemma OtherUpdatesSpareCreates(s: State, l: Key, cause: Octet, e: Octet, pti: Octet, tfa: seq<Octet>, k: Key)
    requires IsCreate(s, k)
    ensures Spares(s, s, k) && Spares(s, ModifySent(s, l), k) && Spares(s, FailUpdate(s, l, cause), k)
    ensures Spares(s, LocalModification(s, e, pti, tfa), k) && Spares(s, LocalWithdrawn(s, e, pti), k)
  {}

  lemma UpdatesSpareCreates(s: State, ev: Event, k: Key)
    requires IsCreate(s, k)
    ensures Spares(s, StepUpdate(s, ev), k)
  {
    hide UpdateBearerRequest, ModifyResult, ErabModified, LocalModification, LocalWithdrawn, ModifySent, FailUpdate;
    hide Spares, Matches, IsCreate;
    OtherUpdatesSpareCreates(s, if ev.ModifyRegistered? || ev.UpdateFails? then ev.key else k,
                             if ev.UpdateFails? then ev.cause else 0, if ev.LocalArrives? || ev.LocalFails? then ev.ebi else 0,
                             if ev.LocalArrives? || ev.LocalFails? then ev.pti else 0, if ev.LocalArrives? then ev.tfa else [], k);
    match ev
    case UpdateArrives(peer, teid, n, cs) => UpdateRequestSparesCreates(s, peer, teid, n, cs, k);
    case Modification(l, e, ok, ff) =>
      if Matches(s, l, {Update, LocalUpdate}, e) { ModifyResultSparesCreates(s, l, e, ok, ff, k); }
    case ModifyAnswered(l, m, f, ff) => ErabModifiedSparesCreates(s, l, m, f, ff, k);
    case _ =>
  }

  lemma DeleteRequestSparesCreates(s: State, peer: string, teid: nat, n: nat, ebis: set<Octet>, k: Key)
    requires IsCreate(s, k)
    ensures Spares(s, DeleteBearerRequest(s, peer, teid, n, ebis), k)
  {}

  lemma DeactivationSparesCreates(s: State, l: Key, e: Octet, k: Key)
    requires IsCreate(s, k) && Matches(s, l, {Delete}, e)
    ensures Spares(s, DeactivateAccepted(s, l, e), k)
  {}

  lemma DeleteEndingsSpareCreates(s: State, l: Key, released: set<Octet>, failed: set<Octet>, k: Key)
    requires IsCreate(s, k)
    ensures Spares(s, DeleteReleased(s, l, released, failed), k)
    ensures Spares(s, DeleteReleaseError(s, l), k) && Spares(s, DeleteSendFailed(s, l), k)
  {}

  lemma DeletesSpareCreates(s: State, ev: Event, k: Key)
    requires IsCreate(s, k)
    ensures Spares(s, StepDelete(s, ev), k)
  {
    hide DeleteBearerRequest, DeactivateAccepted, DeleteReleased, DeleteReleaseError, DeleteSendFailed;
    hide Spares, Matches, IsCreate;
    OtherUpdatesSpareCreates(s, k, 0, 0, 0, [], k);
    match ev
    case DeleteArrives(peer, teid, n, ebis) => DeleteRequestSparesCreates(s, peer, teid, n, ebis, k);
    case Deactivation(l, e) => if Matches(s, l, {Delete}, e) { DeactivationSparesCreates(s, l, e, k); }
    case DeleteNotSent(l) => DeleteEndingsSpareCreates(s, l, {}, {}, k);
    case DeleteAnswered(l, r, f) => DeleteEndingsSpareCreates(s, l, r, f, k);
    case DeleteFails(l) => DeleteEndingsSpareCreates(s, l, {}, {}, k);
    case _ =>
  }

  // ---------------------------------------------------------------- events of another Create

  lemma CompletionSpares(s: State, l: Key, k: Key)
    requires l in s.pending && k in s.pending && l != k
    ensures Spares(s, MaybeComplete(s, l), k)
  {}

  lemma PutThenCompleteSpares(s: State, l: Key, e: Octet, b: Bearer, k: Key)
    requires l in s.pending && k in s.pending && l != k
    ensures Spares(s, MaybeComplete(PutBearer(s, l, e, b), l), k)
  {
    hide MaybeComplete;
    CompletionSpares(PutBearer(s, l, e, b), l, k);
  }

  lemma ResultsSpare(s: State, l: Key, e: Octet, ok: bool, cause: Octet, enb: Transport, ran: RanNasCause, k: Key)
    requires Matches(s, l, {Create}, e) && k in s.pending && l != k
    ensures Spares(s, ActivationResult(s, l, e, ok, cause), k) && Spares(s, SetupResult(s, l, e, ok, enb, ran), k)
  {
    hide MaybeComplete;
    var b := s.pending[l].bearers[e];
    var stopped := b.(timer := T.Stop(b.timer));
    PutThenCompleteSpares(s, l, e, if ok then stopped.(nasAccepted := true)
                                   else stopped.(nasRejected := true, ran := EsmCause(cause)), k);
    PutThenCompleteSpares(s, l, e, b.(enb := enb, established := ok, erabFailed := !ok, ran := if ok then b.ran else ran), k);
  }

  lemma TimersSpare(s: State, l: Key, e: Octet, g: nat, p: T.Payload, k: Key)
    requires k in s.pending && l != k
    ensures Spares(s, TimerStart(s, l, e, p), k) && Spares(s, TimerExpiry(s, l, e, g), k)
    ensures Spares(s, AfterExpiry(s, l), k)
  {
    if l in s.pending { CompletionSpares(s, l, k); }
    hide MaybeComplete;
  }

  lemma EndingsSpare(s: State, l: Key, released: set<Octet>, failed: set<Octet>, cause: Octet, k: Key)
    requires k in s.pending && l != k
    ensures Spares(s, CleanupDone(s, l, released, failed), k) && Spares(s, CleanupError(s, l), k)
    ensures Spares(s, FailCreate(s, l, cause), k)
  {
    hide AfterCleanup, EvaluateRelease, OverallCause, BearerAnswers, Installed, ReleaseOwned, Torn;
  }

  lemma MarkingSpares(s: State, l: Key, to: CreateState, k: Key)
    requires k in s.pending && l != k && IsCreate(s, l)
    ensures Spares(s, MarkProgress(s, l, to), k)
  {
    hide Owned, Flushable;
  }

  lemma ResumptionSpares(s: State, l: Key, k: Key)
    requires k in s.pending && l != k
    ensures Spares(s, Resume(s, l), k)
  {
    hide LinkedReady, LinkedActive, ActiveS1, Owned, ReleaseOwned, BearerAnswers;
  }

  lemma NothingSpares(s: State, k: Key)
    requires k in s.pending
    ensures Spares(s, s, k)
  {}

  // The transaction an event is about.
  predicate About(ev: Event, k: Key) {
    CreateEvent(ev) && !ev.CreateArrives? && ev.key == k
  }

  lemma OtherCreatesSpare(s: State, ev: Event, k: Key)
    requires k in s.pending && CreateEvent(ev) && !ev.CreateArrives? && !About(ev, k)
    ensures Spares(s, StepCreate(s, ev), k)
  {
    hide MarkProgress, Resume, FailCreate, ActivationResult, SetupResult, TimerStart, TimerExpiry, AfterExpiry;
    hide CleanupDone, CleanupError, Spares, Matches, IsCreate;
    NothingSpares(s, k);
    match ev
    case Marked(l, to) => if IsCreate(s, l) { MarkingSpares(s, l, to, k); }
    case Resumed(l) => ResumptionSpares(s, l, k);
    case CreateFails(l, cause) => EndingsSpare(s, l, {}, {}, cause, k);
    case Activation(l, e, ok, cause) =>
      if Matches(s, l, {Create}, e) { ResultsSpare(s, l, e, ok, cause, NoTransport, NoCause, k); }
    case SetupAnswered(l, e, ok, enb, ran) =>
      if Matches(s, l, {Create}, e) { ResultsSpare(s, l, e, ok, 0, enb, ran, k); }
    case Started(l, e, p) => TimersSpare(s, l, e, 0, p, k);
    case Expired(l, e, g) => TimersSpare(s, l, e, g, [], k);
    case ExpiryHandled(l) => TimersSpare(s, l, 0, 0, [], k);
    case CleanedUp(l, r, f) => EndingsSpare(s, l, r, f, 0, k);
    case CleanupNotSent(l) => EndingsSpare(s, l, {}, {}, 0, k);
  }

  // ---------------------------------------------------------------- a Create Bearer Request

  // The aggregation moves a waiting transaction on; otherwise nothing of it changes.
  ghost predicate SparesOrPicks(s: State, t: State, k: Key) {
    && k in s.pending && k in t.pending
    && (t.pending[k] == s.pending[k]
        || (s.pending[k].state in {Received, WaitingForLink} && t.pending[k] == s.pending[k].(state := SettingUpERAB)))
  }

  lemma PutOtherSpares(s: State, l: Key, tx: Tx, k: Key)
    requires k in s.pending && l != k
    ensures SparesOrPicks(s, PutTx(s, l, tx), k) && SparesOrPicks(s, Deny(s, l), k) && SparesOrPicks(s, s, k)
  {
    hide ReleaseOwned;
  }

  lemma PickedSpares(s: State, linked: Octet, pick: Key, k: Key)
    requires Flushable(s, linked, pick) && k in s.pending
    ensures SparesOrPicks(s, PutTx(s, pick, s.pending[pick].(state := SettingUpERAB)), k)
  {}

  lemma ProceedSpares(s: State, l: Key, linked: Linked, pick: Key, k: Key)
    requires l in s.pending && k in s.pending && l != k
    ensures SparesOrPicks(s, Proceed(s, l, linked, pick), k)
  {
    hide LinkedReady, ActiveS1, Owned, Deny, PutTx, Flushable, SparesOrPicks;
    var tx := s.pending[l];
    PutOtherSpares(s, l, tx.(state := WaitingForLink), k);
    PutOtherSpares(s, l, tx.(state := WaitingForUE), k);
    if Flushable(s, linked.ebi, pick) {
      PickedIsPending(s, linked.ebi, pick);
      PickedSpares(s, linked.ebi, pick, k);
    }
  }

  lemma PickedIsPending(s: State, linked: Octet, pick: Key)
    requires Flushable(s, linked, pick)
    ensures pick in s.pending
  {}

  lemma AllocationSpares(s: State, l: Key, req: CreateRequest, linked: Linked, pick: Key, k: Key)
    requires l !in s.pending && k in s.pending
    ensures SparesOrPicks(s, Allocate(s, l, req, linked, pick), k)
  {
    hide Used, LegacyUsed, Proceed, NewBearers, FingerprintOf;
    var ids := EbiAllocation.Assign(RequestedEbis(req), Used(s));
    var legacy := EbiAllocation.AssignLegacy(LegacyNeeded(req, linked.ims), LegacyUsed(s));
    if |ids| == |legacy| == |req.bearers| {
      ProceedSpares(Admit(s, l, req, ids, legacy), l, linked, pick, k);
    }
  }

  lemma ArrivalsSpare(s: State, peer: string, req: CreateRequest, link: Option<Linked>, pick: Key, k: Key)
    requires k in s.pending
    ensures SparesOrPicks(s, CreateBearerRequest(s, peer, req, link, pick), k)
  {
    hide Allocate, EquivalentPending, PendingCreates, FingerprintOf;
    var l := Gtp(peer, Create, req.teid, req.seqNum);
    if link.Some? && l !in s.pending { AllocationSpares(s, l, req, link.value, pick, k); }
  }

  // ---------------------------------------------------------------- every event

  // The PDN removal that drops a transaction.
  ghost predicate Drops(s: State, ev: Event, k: Key) {
    && ev.PdnRemoval? && ev.apn in s.pdns && s.pdns[ev.apn].deletePending
    && k in s.pending && s.pending[k].linked == s.pdns[ev.apn].ebi
  }

  // Whatever is not about a pending Create leaves it as it is, picks it, or drops it with its PDN.
  lemma OthersSpareCreates(s: State, ev: Event, k: Key)
    requires IsCreate(s, k) && !About(ev, k)
    ensures if Drops(s, ev, k) then k !in Step(s, ev).pending && Step(s, ev).dedicated.Keys <= s.dedicated.Keys
            else SparesOrPicks(s, Step(s, ev), k)
  {
    hide StepCreate, StepUpdate, StepDelete, Spares;
    if ev.CreateArrives? {
      ArrivalsSpare(s, ev.peer, ev.req, ev.link, ev.pick, k);
      ArrivalStep(s, ev);
    } else if CreateEvent(ev) {
      OtherCreatesSpare(s, ev, k);
      SparedAnyway(s, StepCreate(s, ev), k);
    } else if PdnEvent(ev) {
      PdnStepsDropOrSpare(s, ev, k);
    } else if DeleteEvent(ev) {
      DeletesSpareCreates(s, ev, k);
      SparedAnyway(s, StepDelete(s, ev), k);
    } else {
      UpdatesSpareCreates(s, ev, k);
      SparedAnyway(s, StepUpdate(s, ev), k);
    }
  }

  lemma ArrivalStep(s: State, ev: Event)
    requires ev.CreateArrives?
    ensures StepCreate(s, ev) == CreateBearerRequest(s, ev.peer, ev.req, ev.link, ev.pick)
  {
    hide CreateBearerRequest;
  }

  lemma SparedAnyway(s: State, t: State, k: Key)
    requires Spares(s, t, k)
    ensures SparesOrPicks(s, t, k)
  {}

  lemma PdnStepsDropOrSpare(s: State, ev: Event, k: Key)
    requires IsCreate(s, k) && PdnEvent(ev)
    ensures if Drops(s, ev, k) then k !in StepPdn(s, ev).pending && StepPdn(s, ev).dedicated.Keys <= s.dedicated.Keys
            else SparesOrPicks(s, StepPdn(s, ev), k)
  {}
}
