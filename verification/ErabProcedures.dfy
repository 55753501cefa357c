/**
 * The E-RAB procedures of a UE over whole runs: they are registered and removed in regions of
 * their own, beside those of the transactions they belong to
 * (internal/s1ap/erab_setup.go:1333-1365, erab_modify.go:46-70, erab_release.go:49-73).
 */
module ErabProcedures {
  import opened Common
  import opened BearerMachine
  import opened BearerInvariants
  import opened BearerFrames
  import opened BearerUpdates
  import opened BearerCleanup
  import opened ErabCorrelation
  import T = ActivationTimer

  // `generation` is the S1 binding generation of the UE.
  datatype World = World(s: State, ps: map<TxId, Procedure>, generation: nat)

  // ---------------------------------------------------------------- who holds a procedure

  // The procedures that are registered for a pending Create, Update or Delete.
  predicate Tracked(p: Procedure) {
    p.purpose == CreateSetup || p.purpose == CreateCleanup || p.purpose == UpdateModify || p.purpose == DeleteRelease
  }

  predicate Serves(p: Procedure, kind: Kind) {
    match p.purpose
    case CreateSetup => kind == Create
    case CreateCleanup => kind == Create
    case UpdateModify => kind == Update
    case DeleteRelease => kind == Delete
    case _ => false
  }

  // `k` is the pending transaction behind the procedure `p` registered under `id`.
  ghost predicate HeldBy(s: State, k: Key, id: TxId, p: Procedure) {
    k in s.pending && Serves(p, KindOf(k)) && IdOf(k) == id && p.expected <= s.pending[k].bearers.Keys
  }

  ghost predicate Held(s: State, id: TxId, p: Procedure) {
    exists k :: HeldBy(s, k, id, p)
  }

  // No procedure is ahead of the binding, and every live one of a transaction has it pending.
  ghost predicate Registered(w: World) {
    && (forall id :: id in w.ps ==> w.ps[id].generation <= w.generation)
    && (forall id :: id in w.ps && Live(w.ps[id], w.generation) && Tracked(w.ps[id]) ==> Held(w.s, id, w.ps[id]))
  }

  // ---------------------------------------------------------------- events

  // A region of the bearer machine; SendERAB...RequestTracked registering a procedure under the
  // binding it read before; procedures that are removed, because they could not be sent, were
  // answered, or belong to a failed default bearer; and a new S1 binding.
  datatype Event = Region(ev: BearerMachine.Event) | Registers(id: TxId, p: Procedure) | Removes(ids: set<TxId>) | Rebinds

  predicate Possible(w: World, e: Event) {
    e.Registers? ==> e.p.generation <= w.generation
  }

  // Every region that ends a transaction also deletes the procedure under its ID, except the
  // resumption that withdraws a Create and the accept that ends a Delete without E-RABs.
  ghost function DeletedWith(s: State, t: State, ev: BearerMachine.Event): set<TxId> {
    if ev.Resumed? || ev.Deactivation? then {}
    else set k | k in s.pending && k !in t.pending && KindOf(k) != LocalUpdate :: IdOf(k)
  }

  ghost function Next(w: World, e: Event): World {
    match e
    case Region(ev) =>
      var t := Step(w.s, ev);
      w.(s := t, ps := w.ps - DeletedWith(w.s, t, ev))
    case Registers(id, p) => w.(ps := w.ps[id := p])
    case Removes(ids) => w.(ps := w.ps - ids)
    case Rebinds => w.(generation := w.generation + 1)
  }

  // ---------------------------------------------------------------- a region keeps the bearers of what stays

  ghost predicate SameBearers(s: State, t: State, k: Key) {
    k in s.pending && k in t.pending ==> t.pending[k].bearers.Keys == s.pending[k].bearers.Keys
  }

  lemma CompletionKeepsBearers(s: State, k: Key)
    requires k in s.pending
    ensures SameBearers(s, MaybeComplete(s, k), k)
  {}

  lemma OwnResultsKeepBearers(s: State, k: Key, e: Octet, ok: bool, cause: Octet, enb: Transport, ran: RanNasCause)
    requires Matches(s, k, {Create}, e)
    ensures SameBearers(s, ActivationResult(s, k, e, ok, cause), k)
    ensures SameBearers(s, SetupResult(s, k, e, ok, enb, ran), k)
  {
    hide MaybeComplete, PutBearer, SameBearers;
    var b := s.pending[k].bearers[e];
    var stopped := b.(timer := T.Stop(b.timer));
    NothingKeepsBearers(s, k);
    PutThenCompleteKeepsBearers(s, k, e, if ok then stopped.(nasAccepted := true)
                                         else stopped.(nasRejected := true, ran := EsmCause(cause)));
    PutThenCompleteKeepsBearers(s, k, e, b.(enb := enb, established := ok, erabFailed := !ok,
                                            ran := if ok then b.ran else ran));
  }

  lemma PutThenCompleteKeepsBearers(s: State, k: Key, e: Octet, b: Bearer)
    requires k in s.pending && e in s.pending[k].bearers
    ensures SameBearers(s, MaybeComplete(PutBearer(s, k, e, b), k), k)
  {
    hide MaybeComplete;
    CompletionKeepsBearers(PutBearer(s, k, e, b), k);
    assert s.pending[k].bearers[e := b].Keys == s.pending[k].bearers.Keys;
  }

  lemma OwnTimersKeepBearers(s: State, k: Key, e: Octet, g: nat, p: T.Payload)
    ensures SameBearers(s, TimerStart(s, k, e, p), k) && SameBearers(s, TimerExpiry(s, k, e, g), k)
    ensures SameBearers(s, AfterExpiry(s, k), k)
  {
    if k in s.pending { CompletionKeepsBearers(s, k); }
    hide MaybeComplete;
  }

  lemma OwnEndingsKeepBearers(s: State, k: Key, released: set<Octet>, failed: set<Octet>, cause: Octet)
    ensures SameBearers(s, CleanupDone(s, k, released, failed), k) && SameBearers(s, CleanupError(s, k), k)
    ensures SameBearers(s, FailCreate(s, k, cause), k)
  {
    hide AfterCleanup, EvaluateRelease, OverallCause, BearerAnswers, Installed, ReleaseOwned, Torn;
  }

  lemma OwnProgressKeepsBearers(s: State, k: Key, to: CreateState)
    requires IsCreate(s, k)
    ensures SameBearers(s, MarkProgress(s, k, to), k)
  {
    hide Owned, Flushable;
  }

  lemma OwnResumptionKeepsBearers(s: State, k: Key)
    ensures SameBearers(s, Resume(s, k), k)
  {
    hide LinkedReady, LinkedActive, ActiveS1, Owned, ReleaseOwned, BearerAnswers, Flushable;
  }

  lemma NothingKeepsBearers(s: State, k: Key)
    ensures SameBearers(s, s, k)
  {}

  lemma OwnEventKeepsBearers(s: State, ev: BearerMachine.Event, k: Key)
    requires About(ev, k)
    ensures SameBearers(s, StepCreate(s, ev), k)
  {
    hide MarkProgress, Resume, FailCreate, ActivationResult, SetupResult, TimerStart, TimerExpiry, AfterExpiry;
    hide CleanupDone, CleanupError, Matches, SameBearers, IsCreate;
    NothingKeepsBearers(s, k);
    match ev
    case Marked(l, to) => if IsCreate(s, k) { OwnProgressKeepsBearers(s, k, to); }
    case Resumed(l) => OwnResumptionKeepsBearers(s, k);
    case CreateFails(l, cause) => OwnEndingsKeepBearers(s, k, {}, {}, cause);
    case Activation(l, e, ok, cause) =>
      if Matches(s, k, {Create}, e) { OwnResultsKeepBearers(s, k, e, ok, cause, NoTransport, NoCause); }
    case SetupAnswered(l, e, ok, enb, ran) =>
      if Matches(s, k, {Create}, e) { OwnResultsKeepBearers(s, k, e, ok, 0, enb, ran); }
    case Started(l, e, p) => OwnTimersKeepBearers(s, k, e, 0, p);
    case Expired(l, e, g) => OwnTimersKeepBearers(s, k, e, g, []);
    case ExpiryHandled(l) => OwnTimersKeepBearers(s, k, 0, 0, []);
    case CleanedUp(l, r, f) => OwnEndingsKeepBearers(s, k, r, f, 0);
    case CleanupNotSent(l) => OwnEndingsKeepBearers(s, k, {}, {}, 0);
  }

  lemma UpdateCompletionKeepsBearers(s: State, l: Key, ff: bool, k: Key)
    requires l in s.pending
    ensures SameBearers(s, MaybeCompleteUpdate(s, l, ff), k)
  {}

  lemma ModificationKeepsBearers(s: State, l: Key, e: Octet, ok: bool, ff: bool, k: Key)
    requires Matches(s, l, {Update, LocalUpdate}, e)
    ensures SameBearers(s, ModifyResult(s, l, e, ok, ff), k)
  {
    hide MaybeCompleteUpdate;
    UpdateCompletionKeepsBearers(PutBearer(s, l, e, s.pending[l].bearers[e].(nasAccepted := true)), l, ff, k);
  }

  lemma ErabModifiedKeepsBearers(s: State, l: Key, m: set<Octet>, f: set<Octet>, ff: bool, k: Key)
    ensures SameBearers(s, ErabModified(s, l, m, f, ff), k)
  {
    hide MaybeCompleteUpdate;
    if l in s.pending && KindOf(l) == Update {
      var tx := s.pending[l];
      UpdateCompletionKeepsBearers(PutTx(s, l, tx.(bearers := map e | e in tx.bearers ::
        if e in f then tx.bearers[e].(established := false, erabFailed := true)
        else if e in m then tx.bearers[e].(established := true, erabFailed := false)
        else tx.bearers[e])), l, ff, k);
    }
  }

  lemma UpdateRequestKeepsBearers(s: State, peer: string, teid: nat, n: nat, cs: seq<Change>, k: Key)
    ensures SameBearers(s, UpdateBearerRequest(s, peer, teid, n, cs), k)
  {}

  lemma OtherUpdatesKeepBearers(s: State, l: Key, cause: Octet, e: Octet, pti: Octet, tfa: seq<Octet>, k: Key)
    ensures SameBearers(s, s, k) && SameBearers(s, ModifySent(s, l), k) && SameBearers(s, FailUpdate(s, l, cause), k)
    ensures SameBearers(s, LocalModification(s, e, pti, tfa), k) && SameBearers(s, LocalWithdrawn(s, e, pti), k)
  {}

  lemma UpdateEventKeepsBearers(s: State, ev: BearerMachine.Event, k: Key)
    ensures SameBearers(s, StepUpdate(s, ev), k)
  {
    hide UpdateBearerRequest, ModifyResult, ErabModified, LocalModification, LocalWithdrawn, ModifySent, FailUpdate;
    hide SameBearers, Matches;
    OtherUpdatesKeepBearers(s, if ev.ModifyRegistered? || ev.UpdateFails? then ev.key else k,
                            if ev.UpdateFails? then ev.cause else 0, if ev.LocalArrives? || ev.LocalFails? then ev.ebi else 0,
                            if ev.LocalArrives? || ev.LocalFails? then ev.pti else 0, if ev.LocalArrives? then ev.tfa else [], k);
    match ev
    case UpdateArrives(peer, teid, n, cs) => UpdateRequestKeepsBearers(s, peer, teid, n, cs, k);
    case Modification(l, e, ok, ff) =>
      if Matches(s, l, {Update, LocalUpdate}, e) { ModificationKeepsBearers(s, l, e, ok, ff, k); }
    case ModifyAnswered(l, m, f, ff) => ErabModifiedKeepsBearers(s, l, m, f, ff, k);
    case _ =>
  }

  lemma DeactivationKeepsBearers(s: State, l: Key, e: Octet, k: Key)
    requires Matches(s, l, {Delete}, e)
    ensures SameBearers(s, DeactivateAccepted(s, l, e), k)
  {}

  lemma DeleteRequestKeepsBearers(s: State, peer: string, teid: nat, n: nat, ebis: set<Octet>, k: Key)
    ensures SameBearers(s, DeleteBearerRequest(s, peer, teid, n, ebis), k)
  {}

  lemma DeleteEndingsKeepBearers(s: State, l: Key, released: set<Octet>, failed: set<Octet>, k: Key)
    ensures SameBearers(s, DeleteReleased(s, l, released, failed), k) && SameBearers(s, s, k)
    ensures SameBearers(s, DeleteReleaseError(s, l), k) && SameBearers(s, DeleteSendFailed(s, l), k)
  {}

  lemma DeleteEventKeepsBearers(s: State, ev: BearerMachine.Event, k: Key)
    ensures SameBearers(s, StepDelete(s, ev), k)
  {
    hide DeleteBearerRequest, DeactivateAccepted, DeleteReleased, DeleteReleaseError, DeleteSendFailed;
    hide SameBearers, Matches;
    DeleteEndingsKeepBearers(s, k, {}, {}, k);
    match ev
    case DeleteArrives(peer, teid, n, ebis) => DeleteRequestKeepsBearers(s, peer, teid, n, ebis, k);
    case DeleteNotSent(l) => DeleteEndingsKeepBearers(s, l, {}, {}, k);
    case DeleteFails(l) => DeleteEndingsKeepBearers(s, l, {}, {}, k);
    case Deactivation(l, e) => if Matches(s, l, {Delete}, e) { DeactivationKeepsBearers(s, l, e, k); }
    case DeleteAnswered(l, r, f) => DeleteEndingsKeepBearers(s, l, r, f, k);
    case _ =>
  }

  lemma PdnEventKeepsBearers(s: State, ev: BearerMachine.Event, k: Key)
    ensures SameBearers(s, StepPdn(s, ev), k)
  {}

  // No region adds a bearer to a transaction, or takes one from it.
  lemma EventKeepsBearers(s: State, ev: BearerMachine.Event, k: Key)
    ensures SameBearers(s, Step(s, ev), k)
  {
    hide StepCreate, StepUpdate, StepDelete, StepPdn;
    if k in s.pending {
      if ev.CreateArrives? {
        ArrivalsSpare(s, ev.peer, ev.req, ev.link, ev.pick, k);
        ArrivalStep(s, ev);
      } else if CreateEvent(ev) {
        if About(ev, k) { OwnEventKeepsBearers(s, ev, k); } else { OtherCreatesSpare(s, ev, k); }
      } else if PdnEvent(ev) {
        PdnEventKeepsBearers(s, ev, k);
      } else if DeleteEvent(ev) {
        DeleteEventKeepsBearers(s, ev, k);
      } else {
        UpdateEventKeepsBearers(s, ev, k);
      }
    }
  }

  // ---------------------------------------------------------------- when a procedure loses its transaction

  // The two regions that end a transaction and leave its procedure, as far as they do end it.
  ghost predicate LeavesProcedure(s: State, ev: BearerMachine.Event, k: Key) {
    || (ev == Resumed(k) && IsCreate(s, k) && !Terminal(s.pending[k].state) && Withdraws(s, k))
    || (ev.Deactivation? && ev.key == k && Matches(s, k, {Delete}, ev.ebi)
        && (forall e :: e in s.pending[k].bearers && e != ev.ebi ==> s.pending[k].bearers[e].nasAccepted)
        && !ReleaseOverS1(s, s.pending[k]))
  }

  // A procedure is registered while its transaction is pending, and the transaction does not end
  // in one of those two regions while it is live (unless another one with that ID holds it).
  ghost predicate Timely(w: World, e: Event) {
    match e
    case Region(ev) =>
      forall k :: LeavesProcedure(w.s, ev, k) && Waits(w, IdOf(k), k) ==> HeldByOther(w, IdOf(k), k)
    case Registers(id, p) => Live(p, w.generation) && Tracked(p) ==> Held(w.s, id, p)
    case _ => true
  }

  ghost predicate Waits(w: World, id: TxId, k: Key) {
    id in w.ps && Live(w.ps[id], w.generation) && Tracked(w.ps[id])
  }

  ghost predicate HeldByOther(w: World, id: TxId, k: Key) {
    id in w.ps && exists l :: l != k && HeldBy(w.s, l, id, w.ps[id])
  }

  lemma ResumptionEnds(s: State, l: Key)
    ensures Resume(s, l).pending.Keys
            == s.pending.Keys - if LeavesProcedure(s, Resumed(l), l) then {l} else {}
  {
    hide LinkedReady, LinkedActive, ActiveS1, Owned, ReleaseOwned, BearerAnswers, PutTx, Close, Terminal;
    if l in s.pending {
      var tx, r := s.pending[l], Response(CONTEXT_NOT_FOUND, BearerAnswers(s.pending[l]));
      PutAndCloseKeys(s, l, tx.(state := WaitingForUE), r);
      PutAndCloseKeys(s, l, tx.(state := WaitingForLink), r);
      PutAndCloseKeys(s, l, tx.(state := if Owned(s, l) then SettingUpERAB else ActivatingNAS), r);
      PutAndCloseKeys(s.(reservations := ReleaseOwned(s.reservations, IdOf(l))), l, tx, r);
    }
  }

  lemma PutAndCloseKeys(s: State, k: Key, tx: Tx, r: Response)
    requires k in s.pending
    ensures PutTx(s, k, tx).pending.Keys == s.pending.Keys && Close(s, k, r).pending.Keys == s.pending.Keys - {k}
  {}

  lemma DeactivationEnds(s: State, l: Key, e: Octet)
    requires Matches(s, l, {Delete}, e)
    ensures DeactivateAccepted(s, l, e).pending.Keys
            == s.pending.Keys - if LeavesProcedure(s, Deactivation(l, e), l) then {l} else {}
  {
    hide ReleaseOverS1;
    var b := s.pending[l].bearers[e].(nasAccepted := true);
    SameReleaseNeed(s, l, e, b);
    AllOthersAccepted(s.pending[l].bearers, e, b);
  }

  lemma AllOthersAccepted(bs: map<Octet, BearerMachine.Bearer>, e: Octet, b: BearerMachine.Bearer)
    requires b.nasAccepted
    ensures var cs := bs[e := b];
            (exists x :: x in cs && !cs[x].nasAccepted) <==> !(forall x :: x in bs && x != e ==> bs[x].nasAccepted)
  {
    var cs := bs[e := b];
    if exists x :: x in cs && !cs[x].nasAccepted {
      var x :| x in cs && !cs[x].nasAccepted;
      assert x in bs && x != e && !bs[x].nasAccepted;
    }
    if x :| x in bs && x != e && !bs[x].nasAccepted {
      assert x in cs && !cs[x].nasAccepted;
    }
  }

  lemma SameReleaseNeed(s: State, l: Key, e: Octet, b: BearerMachine.Bearer)
    requires l in s.pending && e in s.pending[l].bearers
    requires b == s.pending[l].bearers[e].(nasAccepted := true)
    ensures var s1 := PutBearer(s, l, e, b);
            ReleaseOverS1(s1, s1.pending[l]) <==> ReleaseOverS1(s, s.pending[l])
  {
    var s1 := PutBearer(s, l, e, b);
    var bs, cs := s.pending[l].bearers, s1.pending[l].bearers;
    forall x | x in bs ensures x in cs && cs[x].established == bs[x].established && cs[x].enb == bs[x].enb {}
  }

  lemma SilentEndings(s: State, ev: BearerMachine.Event, k: Key)
    requires ev.Resumed? || ev.Deactivation?
    ensures k in Step(s, ev).pending ==> k in s.pending
    ensures LeavesProcedure(s, ev, k) <==> k in s.pending && k !in Step(s, ev).pending
  {
    hide Resume, DeactivateAccepted, LeavesProcedure;
    LeavingEvents(s, ev, k);
    if ev.Resumed? {
      ResumptionEnds(s, ev.key);
    } else if Matches(s, ev.key, {Delete}, ev.ebi) {
      DeactivationEnds(s, ev.key, ev.ebi);
    }
  }

  lemma LeavingEvents(s: State, ev: BearerMachine.Event, k: Key)
    ensures LeavesProcedure(s, ev, k) ==>
              k in s.pending && ((ev.Resumed? && ev.key == k)
                                 || (ev.Deactivation? && ev.key == k && Matches(s, k, {Delete}, ev.ebi)))
  {}

  lemma StaysHeld(s: State, ev: BearerMachine.Event, k: Key, id: TxId, p: Procedure)
    requires HeldBy(s, k, id, p) && k in Step(s, ev).pending
    ensures HeldBy(Step(s, ev), k, id, p)
  {
    hide Step;
    EventKeepsBearers(s, ev, k);
  }

  lemma RegionKeepsRegistered(w: World, ev: BearerMachine.Event)
    requires Registered(w) && Timely(w, Region(ev))
    ensures Registered(Next(w, Region(ev)))
  {
    hide Step, LeavesProcedure, HeldBy, Live;
    var v := Next(w, Region(ev));
    forall id | id in v.ps && Live(v.ps[id], v.generation) && Tracked(v.ps[id]) ensures Held(v.s, id, v.ps[id]) {
      var k :| HeldBy(w.s, k, id, w.ps[id]);
      HolderIsPending(w.s, k, id, w.ps[id]);
      if k in v.s.pending {
        StaysHeld(w.s, ev, k, id, w.ps[id]);
      } else {
        KeptBySilentEndings(w, ev, k);
        SilentEndings(w.s, ev, k);
        var l :| l != k && HeldBy(w.s, l, id, w.ps[id]);
        HolderIsPending(w.s, l, id, w.ps[id]);
        OnlyOneEnds(w.s, ev, k, l);
        StaysHeld(w.s, ev, l, id, w.ps[id]);
      }
    }
  }

  lemma KeptBySilentEndings(w: World, ev: BearerMachine.Event, k: Key)
    requires k in w.s.pending && KindOf(k) != LocalUpdate && k !in Step(w.s, ev).pending
    requires IdOf(k) in Next(w, Region(ev)).ps
    ensures ev.Resumed? || ev.Deactivation?
  {
    hide Step;
    assert ev.Resumed? || ev.Deactivation? || IdOf(k) in DeletedWith(w.s, Step(w.s, ev), ev);
  }

  lemma HolderIsPending(s: State, k: Key, id: TxId, p: Procedure)
    requires HeldBy(s, k, id, p)
    ensures k in s.pending && KindOf(k) != LocalUpdate && IdOf(k) == id
  {}

  lemma OnlyOneEnds(s: State, ev: BearerMachine.Event, k: Key, l: Key)
    requires LeavesProcedure(s, ev, k) && l in s.pending && l != k
    ensures l in Step(s, ev).pending
  {
    hide Step;
    LeavingEvents(s, ev, k);
    LeavingEvents(s, ev, l);
    SilentEndings(s, ev, l);
  }

  lemma LostWithItsTransaction(w: World, ev: BearerMachine.Event, k: Key)
    requires LeavesProcedure(w.s, ev, k) && Waits(w, IdOf(k), k) && !HeldByOther(w, IdOf(k), k)
    ensures !Registered(Next(w, Region(ev)))
  {
    hide Step, LeavesProcedure, Live;
    var v, id := Next(w, Region(ev)), IdOf(k);
    LeavingEvents(w.s, ev, k);
    assert v.ps == w.ps;
    SilentEndings(w.s, ev, k);
    forall l ensures !HeldBy(v.s, l, id, w.ps[id]) {
      if HeldBy(v.s, l, id, w.ps[id]) { HeldBefore(w.s, ev, l, id, w.ps[id]); }
    }
  }

  lemma HeldBefore(s: State, ev: BearerMachine.Event, l: Key, id: TxId, p: Procedure)
    requires (ev.Resumed? || ev.Deactivation?) && HeldBy(Step(s, ev), l, id, p)
    ensures HeldBy(s, l, id, p)
  {
    hide Step;
    SilentEndings(s, ev, l);
    EventKeepsBearers(s, ev, l);
  }

  lemma RegistrationKeepsRegisteredExactlyWhen(w: World, id: TxId, p: Procedure)
    requires Registered(w) && p.generation <= w.generation
    ensures Registered(Next(w, Registers(id, p))) <==> Timely(w, Registers(id, p))
  {
    hide Held;
    var v := Next(w, Registers(id, p));
    assert v.ps[id] == p;
  }

  lemma RemovalsKeepRegistered(w: World, ids: set<TxId>)
    requires Registered(w)
    ensures Registered(Next(w, Removes(ids))) && Registered(Next(w, Rebinds))
  {
    hide Held;
  }

  // Every procedure of a transaction keeps its pending transaction exactly when it is registered
  // in time and its transaction does not end in a region that leaves it behind.
  lemma StepKeepsRegisteredExactlyWhen(w: World, e: Event)
    requires Registered(w) && Possible(w, e)
    ensures Registered(Next(w, e)) <==> Timely(w, e)
  {
    hide Registered, Next, LeavesProcedure, Waits, HeldByOther;
    match e
    case Region(ev) =>
      if Timely(w, e) {
        RegionKeepsRegistered(w, ev);
      } else {
        var k :| LeavesProcedure(w.s, ev, k) && Waits(w, IdOf(k), k) && !HeldByOther(w, IdOf(k), k);
        LostWithItsTransaction(w, ev, k);
      }
    case Registers(id, p) => RegistrationKeepsRegisteredExactlyWhen(w, id, p);
    case Removes(ids) => RemovalsKeepRegistered(w, ids);
    case Rebinds => RemovalsKeepRegistered(w, {});
  }

  // ---------------------------------------------------------------- runs

  ghost function Run(w: World, es: seq<Event>): World
    decreases |es|
  {
    if es == [] then w else Run(Next(w, es[0]), es[1..])
  }

  ghost predicate TimelyRun(w: World, es: seq<Event>, sgw: nat -> string)
    decreases |es|
  {
    es == [] || (Possible(w, es[0]) && Timely(w, es[0]) && (es[0].Region? ==> Lawful(w.s, es[0].ev, sgw))
                 && TimelyRun(Next(w, es[0]), es[1..], sgw))
  }

  ghost predicate InOrder(w: World, sgw: nat -> string) {
    Registered(w) && Identities(w.s, sgw) && UpdatesApart(w.s)
  }

  lemma StepKeepsInOrder(w: World, e: Event, sgw: nat -> string)
    requires InOrder(w, sgw) && Possible(w, e) && Timely(w, e) && (e.Region? ==> Lawful(w.s, e.ev, sgw))
    ensures InOrder(Next(w, e), sgw)
  {
    StepKeepsRegisteredExactlyWhen(w, e);
    hide Registered, Timely, Step, UpdatesApart, Lawful;
    if e.Region? {
      StepKeepsIdentities(w.s, e.ev, sgw);
      IdentitiesGiveSoleOwner(w.s, sgw);
      hide Identities;
      StepKeepsUpdatesApart(w.s, e.ev);
    }
  }

  lemma IdentitiesGiveSoleOwner(s: State, sgw: nat -> string)
    requires Identities(s, sgw)
    ensures SoleOwner(s)
  {}

  lemma {:induction false} RunKeepsInOrder(w: World, es: seq<Event>, sgw: nat -> string)
    requires InOrder(w, sgw) && TimelyRun(w, es, sgw)
    ensures InOrder(Run(w, es), sgw)
    decreases |es|
  {
    hide Next, InOrder, Timely, Lawful, Possible;
    if es != [] {
      StepKeepsInOrder(w, es[0], sgw);
      RunKeepsInOrder(Next(w, es[0]), es[1..], sgw);
    }
  }

  // ---------------------------------------------------------------- which procedures can share an E-RAB

  // Two live procedures whose E-RABs nothing keeps apart: a Delete beside an Update or another
  // Delete, and anything beside a default bearer setup, an aggregated one or a PDN release.
  ghost predicate Rivals(w: World, a: TxId, b: TxId) {
    && a in w.ps && b in w.ps && a != b && Live(w.ps[a], w.generation) && Live(w.ps[b], w.generation)
    && !KeptApart(w.ps[a], w.ps[b])
  }

  predicate KeptApart(p: Procedure, q: Procedure) {
    Tracked(p) && Tracked(q)
    && (Serves(p, Create) || Serves(q, Create) || (Serves(p, Update) && Serves(q, Update)))
  }

  // The live procedures share no E-RAB exactly when the rivals among them do not.
  lemma DisjointExactlyWhen(w: World)
    requires Registered(w) && SoleOwner(w.s) && UpdatesApart(w.s)
    ensures Disjoint(w.ps, w.generation)
            <==> forall a, b :: Rivals(w, a, b) ==> w.ps[a].expected !! w.ps[b].expected
  {
    hide SoleOwner, UpdatesApart;
    if forall a, b :: Rivals(w, a, b) ==> w.ps[a].expected !! w.ps[b].expected {
      forall a, b | a in w.ps && b in w.ps && a != b && Live(w.ps[a], w.generation) && Live(w.ps[b], w.generation)
        ensures w.ps[a].expected !! w.ps[b].expected
      {
        if KeptApart(w.ps[a], w.ps[b]) { ProceduresAreApart(w, a, b); } else { assert Rivals(w, a, b); }
      }
    }
  }

  lemma ProceduresAreApart(w: World, a: TxId, b: TxId)
    requires Registered(w) && SoleOwner(w.s) && UpdatesApart(w.s)
    requires a in w.ps && b in w.ps && a != b && Live(w.ps[a], w.generation) && Live(w.ps[b], w.generation)
    requires KeptApart(w.ps[a], w.ps[b])
    ensures w.ps[a].expected !! w.ps[b].expected
  {
    hide SoleOwner, UpdatesApart;
    var k :| HeldBy(w.s, k, a, w.ps[a]);
    var l :| HeldBy(w.s, l, b, w.ps[b]);
    forall e | e in w.s.pending[k].bearers ensures e !in w.s.pending[l].bearers {
      PendingShareNothing(w.s, k, l, e);
    }
  }

  lemma PendingShareNothing(s: State, k: Key, l: Key, e: Octet)
    requires SoleOwner(s) && UpdatesApart(s) && k != l && k in s.pending && l in s.pending
    requires KindOf(k) == Create || KindOf(l) == Create || (KindOf(k) == Update && KindOf(l) == Update)
    requires e in s.pending[k].bearers
    ensures e !in s.pending[l].bearers
  {
    if e in s.pending[l].bearers {
      if KindOf(k) == Create {
        CreateOwnsAlone(s, k);
        assert KindOf(l) == Create ==> Owns(s, OfCreate(l), e);
        assert KindOf(l) != Create ==> Holds(s, l, e) && Owns(s, OfDedicated, e);
      } else if KindOf(l) == Create {
        CreateOwnsAlone(s, l);
        assert Holds(s, k, e) && Owns(s, OfDedicated, e);
      } else {
        assert Updates(s, k, e) && Updates(s, l, e);
      }
    }
  }

  // After any timely run whose live rivals share no E-RAB, every non-empty response to a live
  // procedure, complete or partial, is credited to that procedure.
  lemma EveryResponseFindsItsProcedure(w: World, es: seq<Event>, sgw: nat -> string, id: TxId, received: set<Octet>)
    requires InOrder(w, sgw) && TimelyRun(w, es, sgw)
    requires var v := Run(w, es);
             && (forall a, b :: Rivals(v, a, b) ==> v.ps[a].expected !! v.ps[b].expected)
             && id in v.ps && Live(v.ps[id], v.generation) && received != {} && received <= v.ps[id].expected
    ensures var v := Run(w, es);
            Credited(v.ps, v.generation, received, id) && !Ambiguous(v.ps, v.generation, received)
  {
    hide Run, TimelyRun, Credited, Ambiguous, Rivals, UpdatesApart, Registered, Disjoint;
    RunKeepsInOrder(w, es, sgw);
    var v := Run(w, es);
    IdentitiesGiveSoleOwner(v.s, sgw);
    hide Identities;
    DisjointExactlyWhen(v);
    ResponseFindsItsProcedure(v.ps, v.generation, received, id);
  }

  // ---------------------------------------------------------------- how procedures come and go

  // A procedure of the E-RAB binding before is never live again; one without a binding always is.
  lemma RebindingFencesOff(w: World, id: TxId)
    requires Registered(w) && id in w.ps
    ensures var t := Next(w, Rebinds);
            t.ps == w.ps && t.s == w.s && (Live(t.ps[id], t.generation) <==> w.ps[id].generation == 0)
  {}

  // A region removes a procedure only together with the transaction it belongs to, and never when it is
  // a resumption or the accept of a deactivation. Nothing else removes one but its removal by name.
  lemma ProceduresGoWithTransactions(w: World, e: Event, id: TxId)
    requires id in w.ps
    ensures id !in Next(w, e).ps ==>
              match e
              case Region(ev) =>
                && !ev.Resumed? && !ev.Deactivation?
                && exists k :: k in w.s.pending && k !in Step(w.s, ev).pending && IdOf(k) == id && KindOf(k) != LocalUpdate
              case Removes(ids) => id in ids
              case _ => false
    ensures e.Removes? && id in e.ids ==> id !in Next(w, e).ps
    ensures e.Registers? ==> e.id in Next(w, e).ps && Next(w, e).ps[e.id] == e.p
    ensures id in Next(w, e).ps && !(e.Registers? && e.id == id) ==> Next(w, e).ps[id] == w.ps[id]
  {
    hide Step;
  }
}
