/**
 * What a Create Bearer transaction ends with: what is reported is what is installed, the order
 * of the results does not matter, and a bearer sent to E-RAB cleanup stays out
 * (internal/s1ap/dedicated_bearer.go:766-1112 and erab_release.go:347-425).
 */
module BearerOutcome {
  import opened Common
  import opened BearerMachine
  import opened BearerInvariants
  import opened BearerFrames
  import opened BearerCleanup
  import T = ActivationTimer

  // ---------------------------------------------------------------- report and installation

  function LastAnswer(out: seq<Out>): Response
    requires out != [] && out[|out| - 1].Answer?
  {
    out[|out| - 1].response
  }

  // `t` is `s` after the Create `k` was answered and exactly the bearers `won` became active.
  ghost predicate EndsWith(s: State, t: State, k: Key, won: set<Octet>) {
    && IsCreate(s, k) && k !in t.pending
    && won <= s.pending[k].bearers.Keys
    && t.dedicated.Keys == s.dedicated.Keys + won
    && (forall e :: e in s.dedicated ==> t.dedicated[e] == s.dedicated[e])
    && t.out != [] && t.out[|t.out| - 1].Answer? && t.out[|t.out| - 1].key == k
    && LastAnswer(t.out).bearers.Keys == s.pending[k].bearers.Keys
  }

  // The answer of `t` gives the cause recorded for each bearer that was not installed.
  ghost predicate Blames(s: State, t: State, k: Key, won: set<Octet>)
    requires EndsWith(s, t, k, won)
  {
    forall e :: e in s.pending[k].bearers && e !in won ==> LastAnswer(t.out).bearers[e].ran == s.pending[k].bearers[e].ran
  }

  // The per-bearer causes name the installed bearers, and the overall cause says whether all,
  // some or none of them were installed.
  ghost predicate Faithful(s: State, t: State, k: Key, won: set<Octet>)
    requires EndsWith(s, t, k, won)
  {
    var all := s.pending[k].bearers.Keys;
    && (forall e :: e in all ==> (LastAnswer(t.out).bearers[e].accepted <==> e in won))
    && (forall e :: e in won ==> LastAnswer(t.out).bearers[e].ran == NoCause)
    && (LastAnswer(t.out).cause == ACCEPTED <==> won == all)
    && (LastAnswer(t.out).cause == ACCEPTED_PARTIALLY <==> won != {} && won != all)
  }

  lemma AllOrNoneActive(tx: Tx)
    ensures tx.bearers.Keys - ActiveBearers(tx) == {} <==> ActiveBearers(tx) == tx.bearers.Keys
    ensures ActiveBearers(tx) == {} <==> forall e :: e in tx.bearers ==> !Active(tx.bearers[e])
  {
    if tx.bearers.Keys - ActiveBearers(tx) == {} {
      forall e | e in tx.bearers ensures e in ActiveBearers(tx) {
        assert e !in tx.bearers.Keys - ActiveBearers(tx);
      }
    }
    if forall e :: e in tx.bearers ==> !Active(tx.bearers[e]) {
      assert forall e :: e !in ActiveBearers(tx);
    } else {
      var e :| e in tx.bearers && Active(tx.bearers[e]);
      assert e in ActiveBearers(tx);
    }
  }

  lemma FinalizeIsFaithful(s: State, k: Key)
    requires SoleOwner(s) && IsCreate(s, k)
    ensures var won := ActiveBearers(s.pending[k]);
            EndsWith(s, Finalize(s, k), k, won) && Faithful(s, Finalize(s, k), k, won)
            && Blames(s, Finalize(s, k), k, won)
  {
    DedicatedIsFree(s, k);
    FinalizeReport(s, k);
  }

  lemma FinalizeReport(s: State, k: Key)
    requires IsCreate(s, k) && s.dedicated.Keys !! s.pending[k].bearers.Keys
    ensures var won := ActiveBearers(s.pending[k]);
            EndsWith(s, Finalize(s, k), k, won) && Faithful(s, Finalize(s, k), k, won)
            && Blames(s, Finalize(s, k), k, won)
  {
    AllOrNoneActive(s.pending[k]);
  }

  // A failure or timeout installs nothing, yet reports every bearer that both sides had accepted.
  lemma FailureIsFaithfulExactlyWhen(s: State, k: Key, cause: Octet)
    requires IsCreate(s, k) && s.pending[k].bearers.Keys != {} && cause != ACCEPTED && cause != ACCEPTED_PARTIALLY
    ensures EndsWith(s, FailCreate(s, k, cause), k, {})
    ensures Faithful(s, FailCreate(s, k, cause), k, {}) <==> ActiveBearers(s.pending[k]) == {}
    ensures LastAnswer(FailCreate(s, k, cause).out).cause == cause
    ensures ActiveBearers(s.pending[k]) == {} ==> Blames(s, FailCreate(s, k, cause), k, {})
  {
    AllOrNoneActive(s.pending[k]);
  }

  // ---------------------------------------------------------------- any order of results

  // What each side decides: the bearers the UE accepts and the bearers the eNB establishes.
  datatype Decision = Decision(accepted: set<Octet>, established: set<Octet>)

  // The results recorded so far agree with the decision, as do the items captured for cleanup.
  ghost predicate Agrees(tx: Tx, d: Decision) {
    && (forall e :: e in tx.bearers ==> BearerAgrees(tx.bearers[e], e, d))
    && (if tx.state == CleaningUpERAB then AllDecided(tx) && tx.cleanup !! ActiveBearers(tx) else tx.cleanup == {})
  }

  predicate BearerAgrees(b: Bearer, e: Octet, d: Decision) {
    && (b.nasAccepted ==> e in d.accepted) && (b.nasRejected ==> e !in d.accepted)
    && (b.established ==> e in d.established) && (b.erabFailed ==> e !in d.established)
  }

  function Agreed(tx: Tx, d: Decision): set<Octet> {
    tx.bearers.Keys * d.accepted * d.established
  }

  // Once every bearer is decided the active ones are those both sides took.
  lemma DecidedMeansAgreed(tx: Tx, d: Decision)
    requires AllDecided(tx) && forall e :: e in tx.bearers ==> BearerAgrees(tx.bearers[e], e, d)
    ensures ActiveBearers(tx) == Agreed(tx, d)
  {}

  // The events of `k` in a run where both sides decide once: any number of copies of each result
  // in any order, and the answer to the cleanup release.
  predicate ResultOf(ev: Event, k: Key, d: Decision) {
    match ev
    case Activation(key, e, accepted, _) => key == k && (accepted <==> e in d.accepted)
    case SetupAnswered(key, e, success, _, _) => key == k && (success <==> e in d.established)
    case CleanedUp(key, _, _) => key == k
    case _ => false
  }

  // The bearers of the transaction are the same but for their timers, and it cleans up or not as before.
  predicate SameResults(a: Tx, b: Tx) {
    && a.bearers.Keys == b.bearers.Keys && a.cleanup == b.cleanup
    && (a.state == CleaningUpERAB <==> b.state == CleaningUpERAB)
    && forall e :: e in a.bearers ==> SameResult(a.bearers[e], b.bearers[e])
  }

  predicate SameResult(a: Bearer, b: Bearer) {
    a.(timer := b.timer) == b
  }

  ghost predicate LeavesAlone(s: State, t: State, k: Key) {
    k in s.pending && k in t.pending && SameResults(s.pending[k], t.pending[k])
  }

  // The fifth live expiry of a bearer's activation timer.
  ghost predicate GivesUp(s: State, k: Key, e: Octet, generation: nat) {
    && k in s.pending && e in s.pending[k].bearers
    && T.Live(s.pending[k].bearers[e].timer, Answered(s.pending[k].bearers[e]), generation)
    && s.pending[k].bearers[e].timer.retries >= T.MAX_RETRANSMITS
  }

  // What ends the transaction, or decides for one of the sides, other than its results: a result
  // against the decision, a failure or the overall timeout, a timer that gives up, a release that
  // cannot be sent, a withdrawal, the removal of its PDN, and an overwritten cleanup.
  ghost predicate Intrudes(s: State, ev: Event, k: Key, d: Decision)
    requires k in s.pending
  {
    match ev
    case Activation(key, e, accepted, _) => key == k && e in s.pending[k].bearers && accepted != (e in d.accepted)
    case SetupAnswered(key, e, ok, _, _) => key == k && e in s.pending[k].bearers && ok != (e in d.established)
    case CreateFails(key, _) => key == k
    case Expired(key, e, g) => key == k && GivesUp(s, k, e, g)
    case CleanupNotSent(key) => key == k && s.pending[k].cleanup != {}
    case Marked(key, _) => s.pending[k].state == CleaningUpERAB && Overwrites(s, ev, k)
    case Resumed(key) => key == k && (Withdraws(s, k) || s.pending[k].state == CleaningUpERAB)
    case PdnRemoval(_) => Drops(s, ev, k)
    case _ => false
  }

  ghost predicate FairRun(s: State, evs: seq<Event>, k: Key, d: Decision, sgw: nat -> string)
    decreases |evs|
  {
    evs == [] || k !in s.pending
    || (Lawful(s, evs[0], sgw) && !Intrudes(s, evs[0], k, d) && FairRun(Step(s, evs[0]), evs[1..], k, d, sgw))
  }

  // A result is still outstanding, or the release of the failed bearers is.
  ghost predicate Waiting(tx: Tx) {
    tx.state == CleaningUpERAB || !AllDecided(tx)
  }

  ghost predicate Open(s: State, k: Key, d: Decision, ebis: set<Octet>) {
    IsCreate(s, k) && s.pending[k].bearers.Keys == ebis && Agrees(s.pending[k], d) && Waiting(s.pending[k])
  }

  ghost predicate Concluded(s: State, t: State, k: Key, won: set<Octet>) {
    EndsWith(s, t, k, won) && Faithful(s, t, k, won)
  }

  lemma FinalizeConcludes(s: State, k: Key, d: Decision)
    requires SoleOwner(s) && IsCreate(s, k) && AllDecided(s.pending[k])
    requires forall e :: e in s.pending[k].bearers ==> BearerAgrees(s.pending[k].bearers[e], e, d)
    ensures Concluded(s, Finalize(s, k), k, Agreed(s.pending[k], d))
  {
    DecidedMeansAgreed(s.pending[k], d);
    FinalizeIsFaithful(s, k);
  }

  // The step from `s` ends in `t`: still open, or concluded with the agreed bearers.
  ghost predicate Advances(s: State, t: State, k: Key, d: Decision, ebis: set<Octet>) {
    Open(t, k, d, ebis) || Concluded(s, t, k, ebis * d.accepted * d.established)
  }

  lemma MaybeCompleteAdvances(s: State, k: Key, d: Decision, ebis: set<Octet>)
    requires SoleOwner(s) && IsCreate(s, k) && s.pending[k].bearers.Keys == ebis && Agrees(s.pending[k], d)
    ensures Advances(s, MaybeComplete(s, k), k, d, ebis)
  {
    var tx := s.pending[k];
    if tx.state != CleaningUpERAB && AllDecided(tx) {
      if ReleaseItems(tx) == {} || !ActiveS1(s) {
        FinalizeConcludes(s, k, d);
      }
    }
  }

  lemma ResultAdvances(s: State, k: Key, e: Octet, b: Bearer, d: Decision, ebis: set<Octet>, sgw: nat -> string)
    requires Identities(s, sgw) && Open(s, k, d, ebis) && e in ebis
    requires b.txId == IdOf(k) && BearerAgrees(b, e, d)
    requires Decided(s.pending[k].bearers[e]) ==> Decided(b) && (Active(s.pending[k].bearers[e]) <==> Active(b))
    ensures Advances(s, MaybeComplete(PutBearer(s, k, e, b), k), k, d, ebis)
  {
    hide MaybeComplete;
    var s1 := PutBearer(s, k, e, b);
    PutBearerKeeps(s, k, e, b, sgw);
    MaybeCompleteAdvances(s1, k, d, ebis);
  }

  lemma CleanupAdvances(s: State, k: Key, released: set<Octet>, failed: set<Octet>, d: Decision, ebis: set<Octet>)
    requires SoleOwner(s) && Open(s, k, d, ebis)
    ensures Advances(s, CleanupDone(s, k, released, failed), k, d, ebis)
  {
    var tx := s.pending[k];
    if tx.cleanup != {} {
      var done := AfterCleanup(tx, EvaluateRelease(tx.cleanup, released, failed));
      DecidedMeansAgreed(tx, d);
      assert ActiveBearers(done) == ActiveBearers(tx);
      TornIsFaithful(s, k, done);
    }
  }

  lemma TornIsFaithful(s: State, k: Key, tx: Tx)
    requires SoleOwner(s) && IsCreate(s, k) && tx.bearers.Keys == s.pending[k].bearers.Keys
    ensures Concluded(s, Finalize(PutTx(s, k, tx), k), k, ActiveBearers(tx))
  {
    DedicatedIsFree(s, k);
    FinalizeReport(PutTx(s, k, tx), k);
    hide Finalize;
  }

  lemma ResultStepAdvances(s: State, ev: Event, k: Key, d: Decision, ebis: set<Octet>, sgw: nat -> string)
    requires Identities(s, sgw) && Open(s, k, d, ebis) && ResultOf(ev, k, d)
    ensures Advances(s, StepCreate(s, ev), k, d, ebis)
  {
    hide MaybeComplete;
    match ev
    case Activation(_, e, accepted, cause) =>
      if e in ebis {
        assert ReservedFor(s, e, IdOf(k));
        var b := s.pending[k].bearers[e];
        var stopped := b.(timer := T.Stop(b.timer));
        ResultAdvances(s, k, e, if accepted then stopped.(nasAccepted := true)
                                else stopped.(nasRejected := true, ran := EsmCause(cause)), d, ebis, sgw);
      }
    case SetupAnswered(_, e, success, enb, ran) =>
      if e in ebis {
        assert ReservedFor(s, e, IdOf(k));
        var b := s.pending[k].bearers[e];
        ResultAdvances(s, k, e, b.(enb := enb, established := success, erabFailed := !success,
                                   ran := if success then b.ran else ran), d, ebis, sgw);
      }
    case CleanedUp(_, released, failed) => CleanupAdvances(s, k, released, failed, d, ebis);
    case _ =>
  }

  lemma LeftAloneStaysOpen(s: State, t: State, k: Key, d: Decision, ebis: set<Octet>)
    requires Open(s, k, d, ebis) && LeavesAlone(s, t, k)
    ensures Open(t, k, d, ebis)
  {}

  lemma PutLeavesAlone(s: State, k: Key, e: Octet, b: Bearer)
    requires k in s.pending && e in s.pending[k].bearers && SameResult(s.pending[k].bearers[e], b)
    ensures LeavesAlone(s, PutBearer(s, k, e, b), k)
  {}

  lemma StateLeavesAlone(s: State, k: Key, to: CreateState)
    requires k in s.pending && s.pending[k].state != CleaningUpERAB && to != CleaningUpERAB
    ensures LeavesAlone(s, PutTx(s, k, s.pending[k].(state := to)), k) && LeavesAlone(s, s, k)
  {}

  lemma NothingLeavesAlone(s: State, k: Key)
    requires k in s.pending
    ensures LeavesAlone(s, s, k)
  {}

  lemma ProgressLeavesAlone(s: State, k: Key, to: CreateState)
    requires IsCreate(s, k) && !Terminal(s.pending[k].state)
    ensures (s.pending[k].state == CleaningUpERAB && (to == Paging || to == WaitingResults))
            || LeavesAlone(s, MarkProgress(s, k, to), k)
    ensures s.pending[k].state == CleaningUpERAB || Withdraws(s, k) || LeavesAlone(s, Resume(s, k), k)
  {
    hide LeavesAlone, Resume, ResumedState, Withdraws, Owned;
    NothingLeavesAlone(s, k);
    if s.pending[k].state != CleaningUpERAB {
      if to == Paging || to == WaitingResults || to == SettingUpERAB { StateLeavesAlone(s, k, to); }
      if !Withdraws(s, k) {
        ResumedIsPut(s, k);
        StateLeavesAlone(s, k, ResumedState(s, k));
      }
    }
  }

  lemma TimersLeaveAlone(s: State, k: Key, e: Octet, g: nat, p: T.Payload)
    requires IsCreate(s, k)
    ensures LeavesAlone(s, TimerStart(s, k, e, p), k)
    ensures GivesUp(s, k, e, g) || LeavesAlone(s, TimerExpiry(s, k, e, g), k)
  {
    hide LeavesAlone;
    NothingLeavesAlone(s, k);
    if e in s.pending[k].bearers {
      PutLeavesAlone(s, k, e, TimerStart(s, k, e, p).pending[k].bearers[e]);
      if !GivesUp(s, k, e, g) { PutLeavesAlone(s, k, e, TimerExpiry(s, k, e, g).pending[k].bearers[e]); }
    }
  }

  lemma WaitingCompletesNothing(s: State, k: Key)
    requires k in s.pending && Waiting(s.pending[k])
    ensures AfterExpiry(s, k) == s
  {}

  lemma SparedIsLeftAlone(s: State, t: State, k: Key)
    requires SparesOrPicks(s, t, k)
    ensures LeavesAlone(s, t, k)
  {}

  // Every event that is neither a result nor an intrusion leaves the results alone: other
  // transactions, timers that do not give up, paging, resumption, S1 coming and going.
  lemma OthersLeaveAlone(s: State, ev: Event, k: Key, d: Decision, ebis: set<Octet>)
    requires Open(s, k, d, ebis) && CreateShape(s) && !Intrudes(s, ev, k, d)
    requires About(ev, k) ==> !ResultOf(ev, k, d)
    ensures LeavesAlone(s, Step(s, ev), k)
  {
    hide StepPdn, StepUpdate, StepDelete, StepCreate, LeavesAlone, GivesUp, Withdraws, CreateShape;
    if !About(ev, k) {
      OthersSpareCreates(s, ev, k);
      SparedIsLeftAlone(s, Step(s, ev), k);
    } else {
      OwnEventsLeaveAlone(s, ev, k, d, ebis);
    }
  }

  lemma OwnTimersLeaveAlone(s: State, ev: Event, k: Key, d: Decision)
    requires IsCreate(s, k) && Waiting(s.pending[k]) && !Intrudes(s, ev, k, d) && About(ev, k)
    requires ev.Started? || ev.Expired? || ev.ExpiryHandled?
    ensures LeavesAlone(s, StepCreate(s, ev), k)
  {
    NothingLeavesAlone(s, k);
    hide LeavesAlone, GivesUp, TimerStart, TimerExpiry, AfterExpiry, Waiting, IsCreate;
    match ev
    case Started(_, e, p) => TimersLeaveAlone(s, k, e, 0, p);
    case Expired(_, e, g) => TimersLeaveAlone(s, k, e, g, []);
    case ExpiryHandled(_) => WaitingCompletesNothing(s, k);
  }

  lemma OwnProgressLeavesAlone(s: State, ev: Event, k: Key, d: Decision)
    requires IsCreate(s, k) && !Terminal(s.pending[k].state) && !Intrudes(s, ev, k, d) && About(ev, k)
    requires ev.Marked? || ev.Resumed? || ev.CleanupNotSent?
    ensures LeavesAlone(s, StepCreate(s, ev), k)
  {
    NothingLeavesAlone(s, k);
    NothingToRecord(s, k, 0);
    hide LeavesAlone, Withdraws, MarkProgress, Resume, CleanupError, IsCreate;
    match ev
    case Marked(_, to) => ProgressLeavesAlone(s, k, to);
    case Resumed(_) => ProgressLeavesAlone(s, k, Paging);
    case CleanupNotSent(_) =>
  }

  lemma OwnEventsLeaveAlone(s: State, ev: Event, k: Key, d: Decision, ebis: set<Octet>)
    requires Open(s, k, d, ebis) && CreateShape(s) && !Intrudes(s, ev, k, d) && About(ev, k) && !ResultOf(ev, k, d)
    ensures LeavesAlone(s, StepCreate(s, ev), k)
  {
    hide LeavesAlone, CreateShape, Open, Waiting, IsCreate, Matches;
    OpenIsWaiting(s, k, d, ebis);
    if ev.Started? || ev.Expired? || ev.ExpiryHandled? {
      OwnTimersLeaveAlone(s, ev, k, d);
    } else if ev.Marked? || ev.Resumed? || ev.CleanupNotSent? {
      OwnProgressLeavesAlone(s, ev, k, d);
    } else {
      assert (ev.Activation? || ev.SetupAnswered?) && ev.ebi !in s.pending[k].bearers;
      NothingLeavesAlone(s, k);
      UnknownBearerIsIgnored(s, ev, k);
    }
    hide StepCreate, Intrudes;
  }

  lemma UnknownBearerIsIgnored(s: State, ev: Event, k: Key)
    requires k in s.pending && (ev.Activation? || ev.SetupAnswered?) && ev.key == k && ev.ebi !in s.pending[k].bearers
    ensures StepCreate(s, ev) == s
  {
    NothingToRecord(s, k, ev.ebi);
    hide ActivationResult, SetupResult, Matches;
  }

  // A result for a bearer the transaction does not have, and a release that was not under way.
  lemma NothingToRecord(s: State, k: Key, e: Octet)
    requires k in s.pending
    ensures e !in s.pending[k].bearers ==> !Matches(s, k, {Create}, e)
    ensures s.pending[k].cleanup == {} ==> CleanupError(s, k) == s
  {}

  lemma OpenIsWaiting(s: State, k: Key, d: Decision, ebis: set<Octet>)
    requires Open(s, k, d, ebis) && CreateShape(s)
    ensures IsCreate(s, k) && Waiting(s.pending[k]) && !Terminal(s.pending[k].state)
  {}

  lemma FairStepAdvances(s: State, ev: Event, k: Key, d: Decision, ebis: set<Octet>, sgw: nat -> string)
    requires Identities(s, sgw) && Open(s, k, d, ebis) && !Intrudes(s, ev, k, d)
    ensures Advances(s, Step(s, ev), k, d, ebis)
  {
    hide Open, Concluded, LeavesAlone, StepCreate, StepPdn, StepUpdate, StepDelete, Intrudes;
    if ResultOf(ev, k, d) {
      ResultStepAdvances(s, ev, k, d, ebis, sgw);
    } else {
      OthersLeaveAlone(s, ev, k, d, ebis);
      LeftAloneStaysOpen(s, Step(s, ev), k, d, ebis);
    }
  }

  // The transaction is still open after every prefix of the run.
  ghost predicate StaysOpen(s: State, evs: seq<Event>, k: Key, d: Decision, ebis: set<Octet>)
    decreases |evs|
  {
    Open(s, k, d, ebis) && (evs == [] || StaysOpen(Step(s, evs[0]), evs[1..], k, d, ebis))
  }

  predicate Untouched(b: Bearer) {
    !b.nasAccepted && !b.nasRejected && !b.established && !b.erabFailed
  }

  lemma {:induction false} NewBearersAreUntouched(id: TxId, req: CreateRequest, ids: seq<Octet>, legacy: seq<Octet>)
    requires |ids| <= |legacy| && |ids| <= |req.bearers|
    ensures forall e :: e in NewBearers(id, req, ids, legacy) ==> Untouched(NewBearers(id, req, ids, legacy)[e])
  {
    if ids != [] {
      NewBearersAreUntouched(id, req, ids[..|ids| - 1], legacy);
    }
  }

  // Every admitted request with a bearer starts out open, whatever the two sides will decide.
  lemma AdmittedIsOpen(s: State, k: Key, req: CreateRequest, ids: seq<Octet>, legacy: seq<Octet>, d: Decision)
    requires |ids| == |req.bearers| == |legacy| > 0 && KindOf(k) == Create
    ensures Open(Admit(s, k, req, ids, legacy), k, d, set e | e in ids)
  {
    hide NewBearers;
    NewBearersAreUntouched(IdOf(k), req, ids, legacy);
    UntouchedIsOpen(Admit(s, k, req, ids, legacy), k, d, ids[0]);
  }

  lemma UntouchedIsOpen(s: State, k: Key, d: Decision, e: Octet)
    requires IsCreate(s, k) && s.pending[k].state != CleaningUpERAB && s.pending[k].cleanup == {} && e in s.pending[k].bearers
    requires forall x :: x in s.pending[k].bearers ==> Untouched(s.pending[k].bearers[x])
    ensures Open(s, k, d, s.pending[k].bearers.Keys)
  {
    assert !Decided(s.pending[k].bearers[e]);
  }

  // Whatever the order and multiplicity of the results, and whatever happens in between, the
  // transaction either still waits or was concluded by one step that activated exactly the
  // bearers both sides took, and reported so.
  lemma {:induction false} OrderDoesNotMatter(s: State, evs: seq<Event>, k: Key, d: Decision, sgw: nat -> string)
    requires Identities(s, sgw) && IsCreate(s, k) && Open(s, k, d, s.pending[k].bearers.Keys)
    requires FairRun(s, evs, k, d, sgw)
    ensures var won := s.pending[k].bearers.Keys * d.accepted * d.established;
            StaysOpen(s, evs, k, d, s.pending[k].bearers.Keys)
            || exists n :: 0 <= n < |evs| && StaysOpen(s, evs[..n], k, d, s.pending[k].bearers.Keys)
                           && ConcludedAt(s, evs, n, k, won)
    decreases |evs|
  {
    hide Open, Concluded, Step, ConcludedAt, Intrudes;
    if evs != [] {
      var ebis := s.pending[k].bearers.Keys;
      var won := ebis * d.accepted * d.established;
      var t := Step(s, evs[0]);
      FairStepAdvances(s, evs[0], k, d, ebis, sgw);
      if Open(t, k, d, ebis) {
        StepKeepsIdentities(s, evs[0], sgw);
        OpenIsPending(t, k, d, ebis);
        OrderDoesNotMatter(t, evs[1..], k, d, sgw);
        if !StaysOpen(t, evs[1..], k, d, ebis) {
          var n :| 0 <= n < |evs[1..]| && StaysOpen(t, evs[1..][..n], k, d, ebis) && ConcludedAt(t, evs[1..], n, k, won);
          assert evs[..n + 1][1..] == evs[1..][..n];
          assert StaysOpen(s, evs[..n + 1], k, d, ebis);
          ConcludedLater(s, evs, n, k, won);
        }
      } else {
        ConcludedAtOnce(s, evs, k, won);
        assert StaysOpen(s, evs[..0], k, d, ebis);
      }
    }
  }

  lemma ConcludedAtOnce(s: State, evs: seq<Event>, k: Key, won: set<Octet>)
    requires evs != [] && Concluded(s, Step(s, evs[0]), k, won)
    ensures ConcludedAt(s, evs, 0, k, won)
  {
    hide Concluded, Step;
    assert evs[..0] == [] && evs[..1] == [evs[0]] && evs[..1][1..] == [];
    assert Run(s, evs[..1]) == Run(Step(s, evs[0]), []);
  }

  lemma ConcludedLater(s: State, evs: seq<Event>, n: nat, k: Key, won: set<Octet>)
    requires n + 1 < |evs| && ConcludedAt(Step(s, evs[0]), evs[1..], n, k, won)
    ensures ConcludedAt(s, evs, n + 1, k, won)
  {
    hide Concluded, Step;
    assert evs[1..][..n] == evs[..n + 1][1..] && evs[1..][..n + 1] == evs[..n + 2][1..];
  }

  lemma OpenIsPending(s: State, k: Key, d: Decision, ebis: set<Octet>)
    requires Open(s, k, d, ebis)
    ensures IsCreate(s, k) && s.pending[k].bearers.Keys == ebis
  {}

  ghost predicate ConcludedAt(s: State, evs: seq<Event>, n: nat, k: Key, won: set<Octet>)
    requires n < |evs|
  {
    Concluded(Run(s, evs[..n]), Run(s, evs[..n + 1]), k, won)
  }

  // ---------------------------------------------------------------- nothing waits for ever

  predicate Heard(b: Bearer, nas: bool) {
    if nas then b.nasAccepted || b.nasRejected else b.established || b.erabFailed
  }

  predicate Tells(ev: Event, k: Key, d: Decision, e: Octet, nas: bool) {
    ResultOf(ev, k, d) && if nas then ev.Activation? && ev.ebi == e else ev.SetupAnswered? && ev.ebi == e
  }

  lemma MaybeCompleteKeepsResults(s: State, k: Key)
    requires IsCreate(s, k)
    ensures k in MaybeComplete(s, k).pending ==> MaybeComplete(s, k).pending[k].bearers == s.pending[k].bearers
  {}

  // While the transaction stays open each result is recorded, and what was recorded stays.
  lemma StepRecords(s: State, ev: Event, k: Key, d: Decision, ebis: set<Octet>, e: Octet, nas: bool, sgw: nat -> string)
    requires Identities(s, sgw) && Open(s, k, d, ebis) && !Intrudes(s, ev, k, d) && e in ebis
    requires Open(Step(s, ev), k, d, ebis)
    requires Heard(s.pending[k].bearers[e], nas) || Tells(ev, k, d, e, nas)
    ensures Heard(Step(s, ev).pending[k].bearers[e], nas)
  {
    hide StepCreate, StepPdn, StepUpdate, StepDelete;
    if ResultOf(ev, k, d) {
      ResultRecords(s, ev, k, d, ebis, e, nas, sgw);
    } else {
      OthersLeaveAlone(s, ev, k, d, ebis);
      hide Step, Intrudes;
      var t := Step(s, ev);
      assert SameResult(s.pending[k].bearers[e], t.pending[k].bearers[e]);
    }
  }

  lemma PutRecords(s: State, k: Key, x: Octet, b: Bearer, e: Octet, nas: bool)
    requires IsCreate(s, k) && x in s.pending[k].bearers && e in s.pending[k].bearers
    requires Heard(if e == x then b else s.pending[k].bearers[e], nas)
    ensures var t := MaybeComplete(PutBearer(s, k, x, b), k);
            k in t.pending ==> e in t.pending[k].bearers && Heard(t.pending[k].bearers[e], nas)
  {
    hide MaybeComplete;
    MaybeCompleteKeepsResults(PutBearer(s, k, x, b), k);
  }

  lemma ResultsRecord(s: State, k: Key, x: Octet, ok: bool, cause: Octet, enb: Transport, ran: RanNasCause,
                      e: Octet, nas: bool)
    requires IsCreate(s, k) && x in s.pending[k].bearers && e in s.pending[k].bearers
    requires ReservedFor(s, x, IdOf(k)) && s.pending[k].bearers[x].txId == IdOf(k)
    ensures Heard(s.pending[k].bearers[e], nas) || (nas && e == x) ==>
              var t := ActivationResult(s, k, x, ok, cause);
              k in t.pending ==> e in t.pending[k].bearers && Heard(t.pending[k].bearers[e], nas)
    ensures Heard(s.pending[k].bearers[e], nas) || (!nas && e == x) ==>
              var t := SetupResult(s, k, x, ok, enb, ran);
              k in t.pending ==> e in t.pending[k].bearers && Heard(t.pending[k].bearers[e], nas)
  {
    hide MaybeComplete, PutBearer;
    var b := s.pending[k].bearers[x];
    var stopped := b.(timer := T.Stop(b.timer));
    var decided := if ok then stopped.(nasAccepted := true) else stopped.(nasRejected := true, ran := EsmCause(cause));
    var set_up := b.(enb := enb, established := ok, erabFailed := !ok, ran := if ok then b.ran else ran);
    if Heard(s.pending[k].bearers[e], nas) || (nas && e == x) { PutRecords(s, k, x, decided, e, nas); }
    if Heard(s.pending[k].bearers[e], nas) || (!nas && e == x) { PutRecords(s, k, x, set_up, e, nas); }
  }

  lemma ResultRecords(s: State, ev: Event, k: Key, d: Decision, ebis: set<Octet>, e: Octet, nas: bool, sgw: nat -> string)
    requires Identities(s, sgw) && Open(s, k, d, ebis) && ResultOf(ev, k, d) && e in ebis
    requires k in StepCreate(s, ev).pending && e in StepCreate(s, ev).pending[k].bearers
    requires Heard(s.pending[k].bearers[e], nas) || Tells(ev, k, d, e, nas)
    ensures Heard(StepCreate(s, ev).pending[k].bearers[e], nas)
  {
    hide ActivationResult, SetupResult, CreateBearerRequest, Resume, TimerStart, TimerExpiry, AfterExpiry, CleanupError;
    match ev
    case Activation(_, x, accepted, cause) =>
      if x in ebis {
        assert ReservedFor(s, x, IdOf(k));
        ResultsRecord(s, k, x, accepted, cause, NoTransport, NoCause, e, nas);
      }
    case SetupAnswered(_, x, success, enb, ran) =>
      if x in ebis {
        assert ReservedFor(s, x, IdOf(k));
        ResultsRecord(s, k, x, success, 0, enb, ran, e, nas);
      }
    case _ =>
  }

  ghost predicate Told(evs: seq<Event>, k: Key, d: Decision, e: Octet, nas: bool) {
    exists i :: 0 <= i < |evs| && Tells(evs[i], k, d, e, nas)
  }

  lemma {:induction false} RunRecords(s: State, evs: seq<Event>, k: Key, d: Decision, ebis: set<Octet>, e: Octet,
                                      nas: bool, sgw: nat -> string)
    requires Identities(s, sgw) && FairRun(s, evs, k, d, sgw) && StaysOpen(s, evs, k, d, ebis) && e in ebis
    requires Heard(s.pending[k].bearers[e], nas) || Told(evs, k, d, e, nas)
    ensures Open(Run(s, evs), k, d, ebis) && Heard(Run(s, evs).pending[k].bearers[e], nas)
    decreases |evs|
  {
    hide Step, Intrudes;
    if evs != [] {
      StepKeepsIdentities(s, evs[0], sgw);
      if Heard(s.pending[k].bearers[e], nas) || Tells(evs[0], k, d, e, nas) {
        StepRecords(s, evs[0], k, d, ebis, e, nas, sgw);
      } else {
        var i :| 0 <= i < |evs| && Tells(evs[i], k, d, e, nas);
        assert evs[1..][i - 1] == evs[i];
      }
      RunRecords(Step(s, evs[0]), evs[1..], k, d, ebis, e, nas, sgw);
    }
  }

  // Once every bearer had both its results, the transaction is concluded or waits only for the
  // E-RAB release of its failed bearers.
  lemma AllResultsConclude(s: State, evs: seq<Event>, k: Key, d: Decision, sgw: nat -> string)
    requires Identities(s, sgw) && IsCreate(s, k) && Open(s, k, d, s.pending[k].bearers.Keys)
    requires FairRun(s, evs, k, d, sgw)
    requires forall e, nas :: e in s.pending[k].bearers ==> Told(evs, k, d, e, nas)
    ensures var won := s.pending[k].bearers.Keys * d.accepted * d.established;
            (exists n :: 0 <= n < |evs| && ConcludedAt(s, evs, n, k, won))
            || (IsCreate(Run(s, evs), k) && Run(s, evs).pending[k].state == CleaningUpERAB)
  {
    hide Step, ConcludedAt, Told, FairRun;
    var ebis := s.pending[k].bearers.Keys;
    OrderDoesNotMatter(s, evs, k, d, sgw);
    if StaysOpen(s, evs, k, d, ebis) {
      StaysOpenToTheEnd(s, evs, k, d, ebis);
      var tx := Run(s, evs).pending[k];
      forall e | e in ebis ensures Decided(tx.bearers[e]) {
        RunRecords(s, evs, k, d, ebis, e, true, sgw);
        RunRecords(s, evs, k, d, ebis, e, false, sgw);
      }
    }
  }

  lemma {:induction false} StaysOpenToTheEnd(s: State, evs: seq<Event>, k: Key, d: Decision, ebis: set<Octet>)
    requires StaysOpen(s, evs, k, d, ebis)
    ensures Open(Run(s, evs), k, d, ebis)
    decreases |evs|
  {
    hide Step, Open;
    if evs != [] { StaysOpenToTheEnd(Step(s, evs[0]), evs[1..], k, d, ebis); }
  }
}
