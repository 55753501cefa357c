/**
 * E-RAB cleanup of failed Create Bearer transactions: whatever still arrives, a bearer whose
 * E-RAB is being released is never activated by its transaction, unless a region that looks away
 * from the cleanup overwrites its state first
 * (internal/s1ap/erab_release.go:347-425, dedicated_bearer.go:433-500, 876-954).
 */
module BearerCleanup {
  import opened Common
  import opened BearerMachine
  import opened BearerInvariants
  import opened BearerFrames
  import T = ActivationTimer

  // ---------------------------------------------------------------- E-RAB cleanup

  // Released, failed and missing split the items the release was sent for, and the cause says
  // whether the eNB released all, some or none of them.
  lemma ReleaseOutcomePartitions(expected: set<Octet>, released: set<Octet>, failed: set<Octet>)
    ensures var o := EvaluateRelease(expected, released, failed);
            && o.released + o.failed + o.missing == expected
            && o.released !! o.failed && o.released !! o.missing && o.failed !! o.missing
            && o.released == expected * released && o.failed <= failed && o.missing !! failed
            && (o.cause == ACCEPTED <==> expected != {} && expected <= released)
            && (o.cause == ACCEPTED_PARTIALLY <==> expected * released != {} && !(expected <= released))
            && (o.cause == REQUEST_DENIED <==> expected != {} && expected !! released)
            && (o.cause == SYSTEM_FAILURE <==> expected == {})
  {}

  // The transaction is cleaning up the bearers `dead`.
  ghost predicate CleaningUp(s: State, k: Key, dead: set<Octet>) {
    IsCreate(s, k) && s.pending[k].state == CleaningUpERAB && dead <= s.pending[k].cleanup
  }

  // A cleanup starts with the failed bearers the eNB may hold an E-RAB for.
  lemma CleanupStarts(s: State, k: Key)
    requires IsCreate(s, k) && s.pending[k].state != CleaningUpERAB
    requires AllDecided(s.pending[k]) && ReleaseItems(s.pending[k]) != {} && ActiveS1(s)
    ensures CleaningUp(MaybeComplete(s, k), k, ReleaseItems(s.pending[k]))
  {}

  // No bearer under cleanup is active, and the cleanup goes on unless the transaction ended.
  ghost predicate StaysDead(s: State, k: Key, dead: set<Octet>) {
    s.dedicated.Keys !! dead && (k in s.pending ==> CleaningUp(s, k, dead))
  }

  // Resuming a Create whose linked bearer is gone withdraws it.
  ghost predicate Withdraws(s: State, k: Key) {
    k in s.pending && ActiveS1(s) && !LinkedActive(s, s.pending[k].linked)
  }

  // The regions that overwrite the state of a transaction without looking at it: paging started,
  // E-RAB Setup sent, and a resumption that does not withdraw.
  ghost predicate Overwrites(s: State, ev: Event, k: Key) {
    || (ev.Marked? && ev.key == k && (ev.to == Paging || ev.to == WaitingResults))
    || (ev.Resumed? && ev.key == k && !Withdraws(s, k))
  }

  // ---------------------------------------------------------------- events of the transaction

  lemma CleaningStays(s: State, k: Key, tx: Tx, dead: set<Octet>)
    requires CleaningUp(s, k, dead)
    requires tx.state == CleaningUpERAB && tx.cleanup == s.pending[k].cleanup
    ensures CleaningUp(PutTx(s, k, tx), k, dead) && MaybeComplete(PutTx(s, k, tx), k) == PutTx(s, k, tx)
  {}

  lemma ResultKeepsCleaning(s: State, k: Key, e: Octet, b: Bearer, dead: set<Octet>)
    requires CleaningUp(s, k, dead) && e in s.pending[k].bearers
    ensures CleaningUp(PutBearer(s, k, e, b), k, dead)
    ensures MaybeComplete(PutBearer(s, k, e, b), k) == PutBearer(s, k, e, b)
  {
    var tx := s.pending[k];
    CleaningStays(s, k, tx.(bearers := tx.bearers[e := b]), dead);
  }

  lemma ActivationKeepsCleaning(s: State, k: Key, e: Octet, ok: bool, cause: Octet, dead: set<Octet>)
    requires CleaningUp(s, k, dead) && e in s.pending[k].bearers
    ensures CleaningUp(ActivationResult(s, k, e, ok, cause), k, dead)
  {
    hide MaybeComplete, CleaningUp;
    assert IsCreate(s, k) by { CleaningIsCreate(s, k, dead); }
    var b := s.pending[k].bearers[e];
    var stopped := b.(timer := T.Stop(b.timer));
    ResultKeepsCleaning(s, k, e, if ok then stopped.(nasAccepted := true)
                                 else stopped.(nasRejected := true, ran := EsmCause(cause)), dead);
  }

  lemma SetupKeepsCleaning(s: State, k: Key, e: Octet, ok: bool, enb: Transport, ran: RanNasCause, dead: set<Octet>)
    requires CleaningUp(s, k, dead) && e in s.pending[k].bearers
    ensures CleaningUp(SetupResult(s, k, e, ok, enb, ran), k, dead)
  {
    hide MaybeComplete, CleaningUp;
    assert IsCreate(s, k) by { CleaningIsCreate(s, k, dead); }
    var b := s.pending[k].bearers[e];
    ResultKeepsCleaning(s, k, e, b.(enb := enb, established := ok, erabFailed := !ok, ran := if ok then b.ran else ran), dead);
  }

  lemma CleaningIsCreate(s: State, k: Key, dead: set<Octet>)
    requires CleaningUp(s, k, dead)
    ensures IsCreate(s, k)
  {}

  lemma TimersKeepCleaning(s: State, k: Key, e: Octet, g: nat, p: T.Payload, dead: set<Octet>)
    requires CleaningUp(s, k, dead)
    ensures CleaningUp(TimerStart(s, k, e, p), k, dead) && CleaningUp(TimerExpiry(s, k, e, g), k, dead)
    ensures CleaningUp(AfterExpiry(s, k), k, dead)
  {
    if e in s.pending[k].bearers {
      ResultKeepsCleaning(s, k, e, TimerStart(s, k, e, p).pending[k].bearers[e], dead);
      ResultKeepsCleaning(s, k, e, TimerExpiry(s, k, e, g).pending[k].bearers[e], dead);
    }
    CleaningStays(s, k, s.pending[k], dead);
    assert PutTx(s, k, s.pending[k]) == s;
  }

  lemma UntouchedStaysDead(s: State, k: Key, dead: set<Octet>)
    requires SoleOwner(s) && CleaningUp(s, k, dead) && CreateShape(s)
    ensures StaysDead(s, k, dead)
  {
    DedicatedIsFree(s, k);
  }

  // The end of a cleanup tears down what was under cleanup before it looks for active bearers.
  lemma EndingStaysDead(s: State, k: Key, tx: Tx, dead: set<Octet>)
    requires SoleOwner(s) && CleaningUp(s, k, dead) && CreateShape(s)
    requires tx.bearers.Keys == s.pending[k].bearers.Keys && ActiveBearers(tx) !! dead
    ensures StaysDead(Finalize(PutTx(s, k, tx), k), k, dead)
  {
    DedicatedIsFree(s, k);
  }

  lemma ClosingStaysDead(s: State, k: Key, cause: Octet, dead: set<Octet>)
    requires SoleOwner(s) && CleaningUp(s, k, dead) && CreateShape(s)
    ensures StaysDead(FailCreate(s, k, cause), k, dead)
    ensures Withdraws(s, k) ==> StaysDead(Resume(s, k), k, dead)
  {
    hide LinkedActive;
    DedicatedIsFree(s, k);
  }

  function AllTorn(tx: Tx): Tx {
    tx.(bearers := map e | e in tx.bearers :: Torn(tx.bearers[e], false))
  }

  lemma TornIsInactive(tx: Tx, o: ReleaseOutcome)
    ensures ActiveBearers(AfterCleanup(tx, o)) !! o.released + o.failed + o.missing
    ensures ActiveBearers(AllTorn(tx)) == {}
  {
    forall e | e in o.released + o.failed + o.missing ensures e !in ActiveBearers(AfterCleanup(tx, o)) {}
    forall e ensures e !in ActiveBearers(AllTorn(tx)) {}
  }

  lemma AfterCleanupKeys(tx: Tx, o: ReleaseOutcome)
    ensures AfterCleanup(tx, o).bearers.Keys == tx.bearers.Keys
  {}

  lemma CleanupEndsStaysDead(s: State, k: Key, released: set<Octet>, failed: set<Octet>, dead: set<Octet>)
    requires SoleOwner(s) && CleaningUp(s, k, dead) && CreateShape(s)
    ensures StaysDead(CleanupDone(s, k, released, failed), k, dead)
    ensures StaysDead(CleanupError(s, k), k, dead)
  {
    hide Finalize, AfterCleanup, SoleOwner, CreateShape, ActiveBearers, StaysDead;
    UntouchedStaysDead(s, k, dead);
    if s.pending[k].cleanup != {} {
      var tx := s.pending[k];
      var o := EvaluateRelease(tx.cleanup, released, failed);
      ReleaseOutcomePartitions(tx.cleanup, released, failed);
      hide EvaluateRelease;
      TornIsInactive(tx, o);
      AfterCleanupKeys(tx, o);
      EndingStaysDead(s, k, AfterCleanup(tx, o), dead);
      EndingStaysDead(s, k, AllTorn(tx), dead);
    }
  }

  // An effective overwrite ends the cleanup state and leaves the transaction pending.
  lemma PutEndsCleanup(s: State, k: Key, to: CreateState, dead: set<Octet>)
    requires CleaningUp(s, k, dead) && to != CleaningUpERAB
    ensures !StaysDead(PutTx(s, k, s.pending[k].(state := to)), k, dead)
  {}

  lemma MarkedIsPut(s: State, k: Key, to: CreateState, dead: set<Octet>)
    requires CleaningUp(s, k, dead)
    ensures MarkProgress(s, k, to) ==
            if to == Paging || to == WaitingResults then PutTx(s, k, s.pending[k].(state := to)) else s
  {
    hide Owned;
  }

  // The state a resumption that does not withdraw leaves behind.
  ghost function ResumedState(s: State, k: Key): (to: CreateState)
    requires k in s.pending
    ensures to != CleaningUpERAB && !Terminal(to)
  {
    if !ActiveS1(s) then WaitingForUE
    else if !LinkedReady(s, s.pending[k].linked) then WaitingForLink
    else if Owned(s, k) then SettingUpERAB else ActivatingNAS
  }

  lemma ResumedIsPut(s: State, k: Key)
    requires IsCreate(s, k) && !Terminal(s.pending[k].state) && !Withdraws(s, k)
    ensures Resume(s, k) == PutTx(s, k, s.pending[k].(state := ResumedState(s, k)))
  {
    hide LinkedReady, LinkedActive, ActiveS1, Owned;
  }

  lemma OverwritingEndsCleanup(s: State, k: Key, to: CreateState, dead: set<Octet>)
    requires CleaningUp(s, k, dead) && CreateShape(s)
    ensures to == Paging || to == WaitingResults ==> !StaysDead(MarkProgress(s, k, to), k, dead)
    ensures to != Paging && to != WaitingResults ==> MarkProgress(s, k, to) == s
    ensures !Withdraws(s, k) ==> !StaysDead(Resume(s, k), k, dead)
  {
    hide ResumedState, MarkProgress, Resume, StaysDead, Withdraws;
    MarkedIsPut(s, k, to, dead);
    if to != CleaningUpERAB { PutEndsCleanup(s, k, to, dead); }
    if !Withdraws(s, k) {
      ResumedIsPut(s, k);
      PutEndsCleanup(s, k, ResumedState(s, k), dead);
    }
  }

  lemma OwnResultsStayDead(s: State, ev: Event, k: Key, dead: set<Octet>)
    requires CleaningUp(s, k, dead) && About(ev, k)
    requires ev.Activation? || ev.SetupAnswered? || ev.Started? || ev.Expired? || ev.ExpiryHandled?
    ensures CleaningUp(StepCreate(s, ev), k, dead)
  {
    hide ActivationResult, SetupResult, TimerStart, TimerExpiry, AfterExpiry, CleaningUp;
    match ev
    case Activation(_, e, ok, cause) =>
      if Matches(s, k, {Create}, e) { ActivationKeepsCleaning(s, k, e, ok, cause, dead); }
    case SetupAnswered(_, e, ok, enb, ran) =>
      if Matches(s, k, {Create}, e) { SetupKeepsCleaning(s, k, e, ok, enb, ran, dead); }
    case Started(_, e, p) => TimersKeepCleaning(s, k, e, 0, p, dead);
    case Expired(_, e, g) => TimersKeepCleaning(s, k, e, g, [], dead);
    case ExpiryHandled(_) => TimersKeepCleaning(s, k, 0, 0, [], dead);
  }

  lemma ProgressExactlyWhen(s: State, ev: Event, k: Key, dead: set<Octet>)
    requires SoleOwner(s) && CreateShape(s) && CleaningUp(s, k, dead) && About(ev, k) && (ev.Marked? || ev.Resumed?)
    ensures StaysDead(StepCreate(s, ev), k, dead) <==> !Overwrites(s, ev, k)
  {
    CleaningIsCreate(s, k, dead);
    UntouchedStaysDead(s, k, dead);
    ClosingStaysDead(s, k, 0, dead);
    hide MarkProgress, Resume, FailCreate, StaysDead, CleaningUp, CreateShape, SoleOwner, Withdraws, IsCreate;
    OverwritingEndsCleanup(s, k, if ev.Marked? then ev.to else Paging, dead);
  }

  lemma OwnEndingsStayDead(s: State, ev: Event, k: Key, dead: set<Octet>)
    requires SoleOwner(s) && CreateShape(s) && CleaningUp(s, k, dead) && About(ev, k)
    requires ev.CreateFails? || ev.CleanedUp? || ev.CleanupNotSent?
    ensures StaysDead(StepCreate(s, ev), k, dead)
  {
    CleaningIsCreate(s, k, dead);
    hide FailCreate, CleanupDone, CleanupError, StaysDead, CleaningUp, CreateShape, SoleOwner, IsCreate;
    match ev
    case CreateFails(_, cause) => ClosingStaysDead(s, k, cause, dead);
    case CleanedUp(_, r, f) => CleanupEndsStaysDead(s, k, r, f, dead);
    case CleanupNotSent(_) => CleanupEndsStaysDead(s, k, {}, {}, dead);
  }

  // ---------------------------------------------------------------- every event

  lemma SparedOrDropped(s: State, t: State, k: Key, dead: set<Octet>)
    requires SoleOwner(s) && SoleOwner(t) && CreateShape(s) && CreateShape(t) && CleaningUp(s, k, dead)
    requires if k in t.pending then SparesOrPicks(s, t, k) else t.dedicated.Keys <= s.dedicated.Keys
    ensures StaysDead(t, k, dead)
  {
    DedicatedIsFree(s, k);
    if k in t.pending { DedicatedIsFree(t, k); }
    hide SoleOwner;
  }

  // While a transaction is cleaning up, an event makes it activate a bearer under cleanup, or lets
  // it forget the cleanup, exactly when it overwrites its state: no result of either sign, timer,
  // failure, other transaction or end of the cleanup does.
  lemma CleanupKeptExactlyWhen(s: State, ev: Event, k: Key, dead: set<Octet>, sgw: nat -> string)
    requires Identities(s, sgw) && CleaningUp(s, k, dead) && Lawful(s, ev, sgw)
    ensures StaysDead(Step(s, ev), k, dead) <==> !Overwrites(s, ev, k)
  {
    hide StepCreate, StepUpdate, StepDelete, StepPdn, SoleOwner, InRange, Backed, OneSgw, CreateShape, StaysDead, Lawful;
    hide Withdraws;
    StepKeepsIdentities(s, ev, sgw);
    CleaningIsCreate(s, k, dead);
    var t := Step(s, ev);
    if !About(ev, k) {
      OthersSpareCreates(s, ev, k);
      SparedOrDropped(s, t, k, dead);
    } else if ev.Activation? || ev.SetupAnswered? || ev.Started? || ev.Expired? || ev.ExpiryHandled? {
      OwnResultsStayDead(s, ev, k, dead);
      UntouchedStaysDead(t, k, dead);
    } else if ev.Marked? || ev.Resumed? {
      ProgressExactlyWhen(s, ev, k, dead);
    } else {
      OwnEndingsStayDead(s, ev, k, dead);
    }
  }

  // A run in which the state of `k` is never overwritten.
  ghost predicate UndisturbedRun(s: State, evs: seq<Event>, k: Key, sgw: nat -> string)
    decreases |evs|
  {
    evs == []
    || (Lawful(s, evs[0], sgw) && !Overwrites(s, evs[0], k) && UndisturbedRun(Step(s, evs[0]), evs[1..], k, sgw))
  }

  // Over any such run, up to and including the step that ends the transaction, no bearer under
  // cleanup becomes an active dedicated bearer.
  lemma {:induction false} CleanupNeverActivates(s: State, evs: seq<Event>, n: nat, k: Key, dead: set<Octet>,
                                                 sgw: nat -> string)
    requires Identities(s, sgw) && CleaningUp(s, k, dead) && UndisturbedRun(s, evs, k, sgw) && n <= |evs|
    requires forall m :: 0 <= m < n ==> k in Run(s, evs[..m]).pending
    ensures Run(s, evs[..n]).dedicated.Keys !! dead
    decreases n
  {
    hide Step, Identities, CleaningUp;
    if n == 0 {
      assert evs[..0] == [];
      CleaningIsInactive(s, k, dead, sgw);
    } else {
      var t := Step(s, evs[0]);
      CleanupKeptExactlyWhen(s, evs[0], k, dead, sgw);
      assert evs[..n][1..] == evs[1..][..n - 1];
      if n == 1 {
        assert evs[1..][..0] == [];
      } else {
        StepKeepsIdentities(s, evs[0], sgw);
        forall m | 0 <= m < n - 1 ensures k in Run(t, evs[1..][..m]).pending {
          assert evs[..m + 1][1..] == evs[1..][..m];
          assert k in Run(s, evs[..m + 1]).pending;
        }
        assert evs[1..][..0] == [];
        assert k in Run(t, evs[1..][..0]).pending;
        CleanupNeverActivates(t, evs[1..], n - 1, k, dead, sgw);
      }
    }
  }

  lemma CleaningIsInactive(s: State, k: Key, dead: set<Octet>, sgw: nat -> string)
    requires Identities(s, sgw) && CleaningUp(s, k, dead)
    ensures s.dedicated.Keys !! dead
  {
    DedicatedIsFree(s, k);
  }

  // ---------------------------------------------------------------- after an overwrite

  // What one result of either side makes of a bearer.
  function WithResult(b: Bearer, ev: Event): Bearer {
    match ev
    case Activation(_, _, ok, cause) =>
      var stopped := b.(timer := T.Stop(b.timer));
      if ok then stopped.(nasAccepted := true) else stopped.(nasRejected := true, ran := EsmCause(cause))
    case SetupAnswered(_, _, ok, enb, ran) =>
      b.(enb := enb, established := ok, erabFailed := !ok, ran := if ok then b.ran else ran)
    case _ => b
  }

  predicate ResultFor(ev: Event, k: Key, e: Octet) {
    (ev.Activation? || ev.SetupAnswered?) && ev.key == k && ev.ebi == e
  }

  lemma ResultStep(s: State, ev: Event, k: Key, e: Octet)
    requires IsCreate(s, k) && e in s.pending[k].bearers && ResultFor(ev, k, e)
    requires ReservedFor(s, e, IdOf(k)) && s.pending[k].bearers[e].txId == IdOf(k)
    ensures Step(s, ev) == MaybeComplete(PutBearer(s, k, e, WithResult(s.pending[k].bearers[e], ev)), k)
  {
    hide MaybeComplete;
  }

  ghost function OverwrittenState(s: State, ev: Event, k: Key): (to: CreateState)
    requires k in s.pending && Overwrites(s, ev, k)
    ensures to != CleaningUpERAB && !Terminal(to)
  {
    if ev.Marked? then ev.to else ResumedState(s, k)
  }

  lemma OverwritingStep(s: State, ev: Event, k: Key, dead: set<Octet>)
    requires CleaningUp(s, k, dead) && Overwrites(s, ev, k)
    ensures Step(s, ev) == PutTx(s, k, s.pending[k].(state := OverwrittenState(s, ev, k)))
  {
    hide MarkProgress, Resume, ResumedState;
    if ev.Marked? { MarkedIsPut(s, k, ev.to, dead); } else { ResumedIsPut(s, k); }
  }

  lemma CleanedUpStep(s: State, k: Key, released: set<Octet>, failed: set<Octet>)
    ensures Step(s, CleanedUp(k, released, failed)) == CleanupDone(s, k, released, failed)
  {
    hide CleanupDone;
  }

  // A fully decided Create that is not cleaning up activates, by its next completion and the end
  // of the cleanup that may follow, exactly its active bearers.
  lemma CompletionActivates(s: State, k: Key, released: set<Octet>, failed: set<Octet>, e: Octet)
    requires IsCreate(s, k) && s.pending[k].state != CleaningUpERAB && AllDecided(s.pending[k])
    requires e in s.pending[k].bearers && e !in s.dedicated
    ensures e in CleanupDone(MaybeComplete(s, k), k, released, failed).dedicated <==> Active(s.pending[k].bearers[e])
  {
    hide EvaluateRelease, OverallCause, BearerAnswers;
    var tx := s.pending[k];
    if ReleaseItems(tx) != {} && ActiveS1(s) {
      var cleaning := tx.(state := CleaningUpERAB, cleanup := ReleaseItems(tx));
      ReleaseOutcomePartitions(ReleaseItems(tx), released, failed);
      TornKeepsActive(cleaning, EvaluateRelease(ReleaseItems(tx), released, failed), e);
    }
  }

  // With a bearer still open the transaction waits, and the answer to the release that is under
  // way tears down what it was sent for.
  lemma WaitingTearsDown(s: State, k: Key, released: set<Octet>, failed: set<Octet>, e: Octet)
    requires IsCreate(s, k) && s.pending[k].state != CleaningUpERAB && !AllDecided(s.pending[k])
    requires e in s.pending[k].cleanup && e in s.pending[k].bearers && e !in s.dedicated
    ensures e !in CleanupDone(MaybeComplete(s, k), k, released, failed).dedicated
  {
    hide EvaluateRelease, OverallCause, BearerAnswers;
    var tx := s.pending[k];
    var o := EvaluateRelease(tx.cleanup, released, failed);
    ReleaseOutcomePartitions(tx.cleanup, released, failed);
    TornIsInactive(tx, o);
  }

  lemma TornKeepsActive(tx: Tx, o: ReleaseOutcome, e: Octet)
    requires e in tx.bearers && o.released + o.failed + o.missing == ReleaseItems(tx)
    ensures e in AfterCleanup(tx, o).bearers
    ensures Active(AfterCleanup(tx, o).bearers[e]) <==> Active(tx.bearers[e])
  {
    assert Active(tx.bearers[e]) ==> e !in o.released && e !in o.failed && e !in o.missing by {
      assert e in ReleaseItems(tx) ==> !Active(tx.bearers[e]);
      assert e in o.released || e in o.failed || e in o.missing ==> e in ReleaseItems(tx);
    }
  }

  // Whether a result leaves every bearer of the transaction decided and this one active.
  ghost predicate Completes(tx: Tx, e: Octet, result: Event)
    requires e in tx.bearers
  {
    && Active(WithResult(tx.bearers[e], result))
    && forall x :: x in tx.bearers && x != e ==> Decided(tx.bearers[x])
  }

  // The exception is real. Once the state was overwritten, the next result for a bearer whose
  // E-RAB is being released activates it, whatever the eNB still answers to the release, exactly
  // when it leaves that bearer accepted by the UE and established, and no other bearer open.
  lemma OverwriteActivatesExactlyWhen(s: State, overwrite: Event, result: Event, released: set<Octet>, failed: set<Octet>,
                                      k: Key, e: Octet, dead: set<Octet>, sgw: nat -> string)
    requires Identities(s, sgw) && CleaningUp(s, k, dead) && e in dead
    requires Overwrites(s, overwrite, k) && ResultFor(result, k, e)
    ensures e in s.pending[k].bearers
    ensures e in Run(s, [overwrite, result, CleanedUp(k, released, failed)]).dedicated
            <==> Completes(s.pending[k], e, result)
  {
    DedicatedIsFree(s, k);
    var tx := s.pending[k].(state := OverwrittenState(s, overwrite, k));
    OverwritingStep(s, overwrite, k, dead);
    ThreeSteps(s, overwrite, result, CleanedUp(k, released, failed));
    OverwrittenThenResult(s, PutTx(s, k, tx), result, released, failed, k, e);
    hide Step, SoleOwner, InRange, Overwrites, OverwrittenState;
  }

  lemma OverwrittenThenResult(s: State, s1: State, result: Event, released: set<Octet>, failed: set<Octet>, k: Key, e: Octet)
    requires IsCreate(s, k) && IsCreate(s1, k) && s1.pending[k] == s.pending[k].(state := s1.pending[k].state)
    requires s1.pending[k].state != CleaningUpERAB && e in s.pending[k].cleanup
    requires e in s.pending[k].bearers && e !in s1.dedicated && ResultFor(result, k, e)
    requires ReservedFor(s1, e, IdOf(k)) && s.pending[k].bearers[e].txId == IdOf(k)
    ensures e in Step(Step(s1, result), CleanedUp(k, released, failed)).dedicated <==> Completes(s.pending[k], e, result)
  {
    hide Step, CleanupDone, MaybeComplete, WithResult;
    var b := WithResult(s.pending[k].bearers[e], result);
    ResultStep(s1, result, k, e);
    var s2 := PutBearer(s1, k, e, b);
    CleanedUpStep(MaybeComplete(s2, k), k, released, failed);
    if AllDecided(s2.pending[k]) {
      CompletionActivates(s2, k, released, failed, e);
      assert forall x :: x in s.pending[k].bearers && x != e ==> s2.pending[k].bearers[x] == s.pending[k].bearers[x];
    } else {
      WaitingTearsDown(s2, k, released, failed, e);
      var x :| x in s2.pending[k].bearers && !Decided(s2.pending[k].bearers[x]);
    }
  }

  lemma ThreeSteps(s: State, a: Event, b: Event, c: Event)
    ensures Run(s, [a, b, c]) == Step(Step(Step(s, a), b), c)
  {
    hide Step;
    assert [a, b, c][1..] == [b, c] && [b, c][1..] == [c] && [c][1..] == [];
    assert Run(Step(Step(Step(s, a), b), c), []) == Step(Step(Step(s, a), b), c);
    assert Run(Step(Step(s, a), b), [c]) == Step(Step(Step(s, a), b), c);
    assert Run(Step(s, a), [b, c]) == Step(Step(Step(s, a), b), c);
  }
}
