/**
 * What the answer to a Create Bearer Request says about each bearer, and what an active record
 * holds: the causes and endpoints that the UE and the eNB gave last
 * (internal/s1ap/dedicated_bearer.go:766-971, 1050-1112 and 1644-1676).
 */
module BearerReports {
  import opened Common
  import opened BearerMachine
  import opened BearerInvariants
  import opened BearerFrames
  import opened BearerCleanup
  import opened BearerOutcome
  import T = ActivationTimer

  // ---------------------------------------------------------------- one answer

  predicate Taken(b: Bearer) {
    b.nasAccepted && b.established
  }

  // A bearer both sides took is reported as accepted and without a cause, any other one as failed
  // and with the cause recorded for it; the endpoints are those of its record.
  predicate Reports(a: BearerAnswer, b: Bearer) {
    && (a.accepted <==> Taken(b))
    && (Taken(b) ==> a.ran == NoCause) && (!Taken(b) ==> a.ran == b.ran)
    && a.sgw == b.sgw && a.enb == b.enb
  }

  // The transaction `k` ended with one answer, which is cached, and the answer names its bearers.
  ghost predicate AnsweredFinally(s: State, t: State, k: Key) {
    && k in s.pending && t.pending == s.pending - {k}
    && |t.out| == |s.out| + 1 && t.out[..|s.out|] == s.out
    && t.out[|s.out|].Answer? && t.out[|s.out|].key == k
    && t.cached == s.cached[k := t.out[|s.out|].response]
    && t.out[|s.out|].response.bearers.Keys == s.pending[k].bearers.Keys
  }

  // The overall cause: 16 and 17 when all or some bearers were taken; when none was, 87 if the UE did
  // not answer for one of them, else 88 if it refused one, else 94.
  ghost predicate Sums(cause: Octet, bs: map<Octet, Bearer>) {
    var some := exists e :: e in bs && Taken(bs[e]);
    var all := forall e :: e in bs ==> Taken(bs[e]);
    var timedOut := exists e :: e in bs && bs[e].timer.timedOut;
    var refused := exists e :: e in bs && bs[e].nasRejected;
    && (cause == 16 <==> all) && (cause == 17 <==> some && !all)
    && (cause == 87 <==> !all && !some && timedOut)
    && (cause == 88 <==> !all && !some && !timedOut && refused)
    && (cause == 94 <==> !all && !some && !timedOut && !refused)
  }

  // Exactly the bearers that both sides took are active, with their records but for the legacy
  // identifier, and nothing of the transaction stays reserved.
  ghost predicate Activates(s: State, t: State, bs: map<Octet, Bearer>) {
    && (forall e :: e in t.dedicated <==> e in s.dedicated || (e in bs && Taken(bs[e])))
    && (forall e :: e in bs && Taken(bs[e]) ==> t.dedicated[e] == bs[e].(legacy := 0))
    && (forall e :: e in s.dedicated && !(e in bs && Taken(bs[e])) ==> t.dedicated[e] == s.dedicated[e])
    && t.reservations == s.reservations - bs.Keys
  }

  lemma FinalActivates(s: State, k: Key)
    requires IsCreate(s, k)
    ensures Activates(s, Finalize(s, k), s.pending[k].bearers)
  {
    hide OverallCause, BearerAnswers, Taken;
    var tx := s.pending[k];
    assert forall e :: e in Installed(tx) <==> e in ActiveBearers(tx);
    assert forall e :: e in ActiveBearers(tx) <==> e in tx.bearers && Taken(tx.bearers[e]) by { TakenAreActive(tx); }
    assert Finalize(s, k).dedicated == s.dedicated + Installed(tx);
  }

  lemma TakenAreActive(tx: Tx)
    ensures forall e :: e in ActiveBearers(tx) <==> e in tx.bearers && Taken(tx.bearers[e])
  {}

  lemma FinalReports(s: State, k: Key)
    requires IsCreate(s, k)
    ensures var t, bs := Finalize(s, k), s.pending[k].bearers;
            && AnsweredFinally(s, t, k) && t.out[|s.out|].response.cause == OverallCause(s.pending[k])
            && forall e :: e in bs ==> Reports(t.out[|s.out|].response.bearers[e], bs[e])
  {
    hide OverallCause, Installed;
  }

  lemma FinalAnswer(s: State, k: Key)
    requires IsCreate(s, k)
    ensures var t, bs := Finalize(s, k), s.pending[k].bearers;
            && AnsweredFinally(s, t, k) && Sums(t.out[|s.out|].response.cause, bs) && Activates(s, t, bs)
            && forall e :: e in bs ==> Reports(t.out[|s.out|].response.bearers[e], bs[e])
  {
    hide OverallCause, Sums, Activates, Reports, Finalize;
    FinalReports(s, k);
    FinalActivates(s, k);
    FinalCause(s.pending[k]);
  }

  lemma FinalCause(tx: Tx)
    ensures Sums(OverallCause(tx), tx.bearers)
  {
    var failed := tx.bearers.Keys - ActiveBearers(tx);
    if failed != {} {
      var e := Member(failed);
      assert !Taken(tx.bearers[e]);
    } else {
      forall e | e in tx.bearers ensures Taken(tx.bearers[e]) { assert e !in failed; }
    }
    if ActiveBearers(tx) != {} {
      var e := Member(ActiveBearers(tx));
      assert Taken(tx.bearers[e]);
    } else {
      forall e | e in tx.bearers ensures !Taken(tx.bearers[e]) && e in failed { assert e !in ActiveBearers(tx); }
    }
  }

  // A failure answers with its cause, activates nothing and gives back what the transaction reserved.
  lemma FailureAnswer(s: State, k: Key, cause: Octet)
    requires IsCreate(s, k)
    ensures var t, bs := FailCreate(s, k, cause), s.pending[k].bearers;
            && AnsweredFinally(s, t, k) && t.out[|s.out|].response.cause == cause && t.dedicated == s.dedicated
            && (forall e :: e in t.reservations <==> e in s.reservations && s.reservations[e] != IdOf(k))
            && (forall e :: e in t.reservations ==> t.reservations[e] == s.reservations[e])
            && forall e :: e in bs ==> Reports(t.out[|s.out|].response.bearers[e], bs[e])
  {}

  // ---------------------------------------------------------------- when a transaction ends

  // `t` is `s` after the Create `k` ended with the records `bs`.
  ghost predicate EndedWith(s: State, t: State, k: Key, bs: map<Octet, Bearer>) {
    && AnsweredFinally(s, t, k) && bs.Keys == s.pending[k].bearers.Keys
    && Sums(t.out[|s.out|].response.cause, bs) && Activates(s, t, bs)
    && forall e :: e in bs ==> Reports(t.out[|s.out|].response.bearers[e], bs[e])
  }

  predicate HoldsErab(b: Bearer) {
    !Taken(b) && (b.established || b.enb != Transport(0, []))
  }

  ghost predicate DecidedForAll(bs: map<Octet, Bearer>) {
    forall e :: e in bs ==> bs[e].nasRejected || bs[e].erabFailed || Taken(bs[e])
  }

  ghost predicate SomeHoldErab(bs: map<Octet, Bearer>) {
    exists e :: e in bs && HoldsErab(bs[e])
  }

  // The transaction ends as soon as every bearer is decided, unless the eNB may still hold an E-RAB of
  // a failed bearer and can be asked to release it: then exactly those E-RABs are released first.
  lemma EndsExactlyWhen(s: State, k: Key)
    requires IsCreate(s, k)
    ensures var t, tx := MaybeComplete(s, k), s.pending[k];
            var due := tx.state != CleaningUpERAB && DecidedForAll(tx.bearers);
            var release := SomeHoldErab(tx.bearers) && !s.access.idle && s.access.binding;
            && (k !in t.pending <==> due && !release)
            && (due && !release ==> EndedWith(s, t, k, tx.bearers))
            && (due && release ==>
                  && t.pending.Keys == s.pending.Keys && t == s.(pending := t.pending)
                  && t.pending == s.pending[k := tx.(state := CleaningUpERAB, cleanup := t.pending[k].cleanup)]
                  && forall e :: e in t.pending[k].cleanup <==> e in tx.bearers && HoldsErab(tx.bearers[e]))
            && (!due ==> t == s)
  {
    hide EndedWith, ReleaseItems, Finalize, AllDecided, HoldsErab, DecidedForAll, SomeHoldErab;
    ItemsHoldErabs(s.pending[k]);
    DecidedIsDecided(s.pending[k]);
    FinalEnds(s, k);
  }

  lemma FinalEnds(s: State, k: Key)
    requires IsCreate(s, k)
    ensures k !in Finalize(s, k).pending && EndedWith(s, Finalize(s, k), k, s.pending[k].bearers)
  {
    hide Sums, Activates, Reports, Finalize;
    FinalAnswer(s, k);
  }

  lemma DecidedIsDecided(tx: Tx)
    ensures AllDecided(tx) <==> DecidedForAll(tx.bearers)
  {
    assert forall b: Bearer :: Decided(b) <==> b.nasRejected || b.erabFailed || Taken(b);
  }

  lemma ItemsHoldErabs(tx: Tx)
    ensures forall e :: e in ReleaseItems(tx) <==> e in tx.bearers && HoldsErab(tx.bearers[e])
    ensures ReleaseItems(tx) != {} <==> SomeHoldErab(tx.bearers)
  {
    if ReleaseItems(tx) != {} {
      var e := Member(ReleaseItems(tx));
      assert HoldsErab(tx.bearers[e]);
    }
    if SomeHoldErab(tx.bearers) {
      var e :| e in tx.bearers && HoldsErab(tx.bearers[e]);
      assert e in ReleaseItems(tx);
    }
  }

  // ---------------------------------------------------------------- one result

  // The result `ev` turns the record `b` into `c`.
  predicate Records(b: Bearer, c: Bearer, ev: Event)
    requires ev.Activation? || ev.SetupAnswered?
  {
    && c.txId == b.txId && c.linked == b.linked && c.legacy == b.legacy && c.qos == b.qos && c.sgw == b.sgw
    && match ev
       case Activation(_, _, accepted, cause) =>
         && c.nasAccepted == (b.nasAccepted || accepted) && c.nasRejected == (b.nasRejected || !accepted)
         && c.ran == (if accepted then b.ran else EsmCause(cause))
         && c.established == b.established && c.erabFailed == b.erabFailed && c.enb == b.enb
         && !c.timer.active && c.timer.generation > b.timer.generation && c.timer.timedOut == b.timer.timedOut
       case SetupAnswered(_, _, success, enb, ran) =>
         && c.established == success && c.erabFailed == !success && c.enb == enb
         && c.ran == (if success then b.ran else ran)
         && c.nasAccepted == b.nasAccepted && c.nasRejected == b.nasRejected && c.timer == b.timer
  }

  // A result is recorded for its bearer and for no other, and if it ends the transaction the answer
  // is about the records as they are then.
  lemma ResultReachesTheAnswer(s: State, ev: Event) returns (c: Bearer)
    requires ev.Activation? || ev.SetupAnswered?
    requires IsCreate(s, ev.key) && ev.ebi in s.pending[ev.key].bearers && ReservedFor(s, ev.ebi, IdOf(ev.key))
    requires s.pending[ev.key].bearers[ev.ebi].txId == IdOf(ev.key)
    ensures var bs := s.pending[ev.key].bearers;
            var t := StepCreate(s, ev);
            && Records(bs[ev.ebi], c, ev)
            && if ev.key in t.pending
               then t.pending[ev.key].bearers == bs[ev.ebi := c] && t.out == s.out && t.dedicated == s.dedicated
               else EndedWith(s, t, ev.key, bs[ev.ebi := c])
  {
    hide EndedWith, StepCreate, MaybeComplete, PutBearer;
    var k, e := ev.key, ev.ebi;
    var b := s.pending[k].bearers[e];
    match ev {
      case Activation(_, _, accepted, cause) =>
        var stopped := b.(timer := T.Stop(b.timer));
        c := if accepted then stopped.(nasAccepted := true) else stopped.(nasRejected := true, ran := EsmCause(cause));
      case SetupAnswered(_, _, success, enb, ran) =>
        c := b.(enb := enb, established := success, erabFailed := !success, ran := if success then b.ran else ran);
    }
    ResultIsPut(s, ev);
    PutThenEnds(s, k, e, c);
  }

  lemma ResultIsPut(s: State, ev: Event)
    requires ev.Activation? || ev.SetupAnswered?
    requires IsCreate(s, ev.key) && ev.ebi in s.pending[ev.key].bearers && ReservedFor(s, ev.ebi, IdOf(ev.key))
    requires s.pending[ev.key].bearers[ev.ebi].txId == IdOf(ev.key)
    ensures var b := s.pending[ev.key].bearers[ev.ebi];
            var c := match ev
                     case Activation(_, _, true, _) => b.(timer := T.Stop(b.timer), nasAccepted := true)
                     case Activation(_, _, false, cause) =>
                       b.(timer := T.Stop(b.timer), nasRejected := true, ran := EsmCause(cause))
                     case SetupAnswered(_, _, success, enb, ran) =>
                       b.(enb := enb, established := success, erabFailed := !success, ran := if success then b.ran else ran);
            StepCreate(s, ev) == MaybeComplete(PutBearer(s, ev.key, ev.ebi, c), ev.key)
  {
    hide MaybeComplete, PutBearer, CreateBearerRequest, MarkProgress, Resume, FailCreate, TimerStart, TimerExpiry;
    hide AfterExpiry, CleanupDone, CleanupError;
  }

  lemma PutThenEnds(s: State, k: Key, e: Octet, c: Bearer)
    requires IsCreate(s, k) && e in s.pending[k].bearers
    ensures var t, bs := MaybeComplete(PutBearer(s, k, e, c), k), s.pending[k].bearers[e := c];
            if k in t.pending then t.pending[k].bearers == bs && t.out == s.out && t.dedicated == s.dedicated
            else EndedWith(s, t, k, bs)
  {
    hide MaybeComplete, Sums, Activates, Reports, DecidedForAll, SomeHoldErab, HoldsErab;
    var s1 := PutBearer(s, k, e, c);
    EndsExactlyWhen(s1, k);
    var t := MaybeComplete(s1, k);
    if k !in t.pending {
      hide EndedWith;
      SameEnd(s, s1, t, k, s1.pending[k].bearers);
    }
  }

  // An end seen from before the last result was recorded.
  lemma SameEnd(s: State, s1: State, t: State, k: Key, bs: map<Octet, Bearer>)
    requires k in s.pending && s1.pending - {k} == s.pending - {k} && s1.out == s.out && s1.cached == s.cached
    requires s1.dedicated == s.dedicated && s1.reservations == s.reservations
    requires bs.Keys == s.pending[k].bearers.Keys && EndedWith(s1, t, k, bs)
    ensures EndedWith(s, t, k, bs)
  {
    hide Sums, Reports;
  }

  // A NAS result for a bearer that another transaction reserved, or that the record says belongs to
  // another one, is ignored; an E-RAB result only looks at the reservation.
  lemma ForeignResultIsIgnored(s: State, ev: Event)
    requires ev.Activation? || ev.SetupAnswered?
    requires IsCreate(s, ev.key) && ev.ebi in s.pending[ev.key].bearers
    ensures StepCreate(s, ev) != s ==> ReservedFor(s, ev.ebi, IdOf(ev.key))
    ensures StepCreate(s, ev) != s && ev.Activation? ==> s.pending[ev.key].bearers[ev.ebi].txId == IdOf(ev.key)
  {
    hide MaybeComplete, PutBearer, CreateBearerRequest, MarkProgress, Resume, FailCreate, TimerStart, TimerExpiry;
    hide AfterExpiry, CleanupDone, CleanupError;
  }

  // A reject that ends the transaction sends its ESM cause for that bearer, a failed E-RAB Setup sends
  // the eNB's cause, and the causes of the other failed bearers are the recorded ones.
  lemma RejectIsReported(s: State, k: Key, e: Octet, cause: Octet)
    requires IsCreate(s, k) && e in s.pending[k].bearers && ReservedFor(s, e, IdOf(k))
    requires s.pending[k].bearers[e].txId == IdOf(k) && !Taken(s.pending[k].bearers[e])
    requires k !in StepCreate(s, Activation(k, e, false, cause)).pending
    ensures var t, bs := StepCreate(s, Activation(k, e, false, cause)), s.pending[k].bearers;
            && AnsweredFinally(s, t, k)
            && !t.out[|s.out|].response.bearers[e].accepted && t.out[|s.out|].response.bearers[e].ran == EsmCause(cause)
            && (forall x :: x in bs && x != e ==> Reports(t.out[|s.out|].response.bearers[x], bs[x]))
            && t.out[|s.out|].response.cause != 16 && t.out[|s.out|].response.cause != 94
  {
    var ev := Activation(k, e, false, cause);
    var c := ResultReachesTheAnswer(s, ev);
    hide StepCreate, Activates;
    var bs := s.pending[k].bearers[e := c];
    assert e in bs && bs[e].nasRejected && !Taken(bs[e]);
  }

  lemma FailedSetupIsReported(s: State, k: Key, e: Octet, enb: Transport, ran: RanNasCause)
    requires IsCreate(s, k) && e in s.pending[k].bearers && ReservedFor(s, e, IdOf(k))
    requires s.pending[k].bearers[e].txId == IdOf(k)
    requires k !in StepCreate(s, SetupAnswered(k, e, false, enb, ran)).pending
    ensures var t, bs := StepCreate(s, SetupAnswered(k, e, false, enb, ran)), s.pending[k].bearers;
            && AnsweredFinally(s, t, k)
            && !t.out[|s.out|].response.bearers[e].accepted && t.out[|s.out|].response.bearers[e].ran == ran
            && (forall x :: x in bs && x != e ==> Reports(t.out[|s.out|].response.bearers[x], bs[x]))
            && t.out[|s.out|].response.cause != 16
  {
    var ev := SetupAnswered(k, e, false, enb, ran);
    var c := ResultReachesTheAnswer(s, ev);
    hide StepCreate, Activates;
    var bs := s.pending[k].bearers[e := c];
    assert e in bs && !Taken(bs[e]);
  }

  // ---------------------------------------------------------------- the other ends

  // The record `b` after its E-RAB was given up.
  predicate TornDown(b: Bearer, c: Bearer, failed: bool) {
    && !c.established && c.enb == Transport(0, []) && c.erabFailed == (b.erabFailed || failed)
    && c == b.(established := false, enb := c.enb, erabFailed := c.erabFailed)
  }

  // The answer to the E-RAB release ends the transaction: no bearer that was released is taken, and
  // one whose release the eNB did not confirm failed; the others are as they were.
  lemma CleanupAnswer(s: State, k: Key, released: set<Octet>, failed: set<Octet>) returns (bs: map<Octet, Bearer>)
    requires IsCreate(s, k) && s.pending[k].cleanup != {}
    ensures var tx := s.pending[k];
            && EndedWith(s, CleanupDone(s, k, released, failed), k, bs)
            && forall e :: e in tx.bearers ==>
                 if e in tx.cleanup then TornDown(tx.bearers[e], bs[e], e !in released) else bs[e] == tx.bearers[e]
  {
    hide EndedWith, Finalize;
    var tx := s.pending[k];
    var done := AfterCleanup(tx, EvaluateRelease(tx.cleanup, released, failed));
    bs := done.bearers;
    AfterCleanupKeys(tx, EvaluateRelease(tx.cleanup, released, failed));
    PutThenFinal(s, k, done);
  }

  // When the release cannot be sent, every bearer is given up.
  lemma UnsentCleanupAnswer(s: State, k: Key) returns (bs: map<Octet, Bearer>)
    requires IsCreate(s, k) && s.pending[k].cleanup != {}
    ensures EndedWith(s, CleanupError(s, k), k, bs)
            && forall e :: e in s.pending[k].bearers ==> TornDown(s.pending[k].bearers[e], bs[e], false)
  {
    hide EndedWith, Finalize;
    var done := AllTorn(s.pending[k]);
    bs := done.bearers;
    PutThenFinal(s, k, done);
  }

  lemma PutThenFinal(s: State, k: Key, tx: Tx)
    requires IsCreate(s, k) && tx.bearers.Keys == s.pending[k].bearers.Keys
    ensures EndedWith(s, Finalize(PutTx(s, k, tx), k), k, tx.bearers)
  {
    hide EndedWith, Finalize;
    var s1 := PutTx(s, k, tx);
    FinalEnds(s1, k);
    SameEnd(s, s1, Finalize(s1, k), k, tx.bearers);
  }

  // The fifth live expiry refuses the bearer for a UE that did not answer, which is what the overall
  // cause 87 is about; an earlier live expiry only re-arms, and any other callback does nothing.
  lemma ExpiryMeaning(s: State, k: Key, e: Octet, generation: nat)
    requires IsCreate(s, k) && e in s.pending[k].bearers
    ensures var t, b := TimerExpiry(s, k, e, generation), s.pending[k].bearers[e];
            var live := b.timer.active && b.timer.generation == generation && !b.nasAccepted && !b.nasRejected;
            && k in t.pending && e in t.pending[k].bearers && t == s.(pending := t.pending)
            && t.pending == s.pending[k := s.pending[k].(bearers := s.pending[k].bearers[e := t.pending[k].bearers[e]])]
            && var c := t.pending[k].bearers[e];
               && c == b.(timer := c.timer, nasRejected := c.nasRejected)
               && (c.nasRejected <==> b.nasRejected || (live && b.timer.retries >= 4))
               && (live && b.timer.retries >= 4 ==> c.timer.timedOut && !c.timer.active)
               && (live && b.timer.retries < 4 ==>
                     c.timer.active && c.timer.retries == b.timer.retries + 1 && c.timer.timedOut == b.timer.timedOut)
               && (!live ==> c == b)
  {}

  // A timer is started for a bearer that has not been answered and whose timer is not running; what is
  // about no pending Create, or no bearer of it, changes nothing.
  lemma TimerStartMeaning(s: State, k: Key, e: Octet, payload: T.Payload, generation: nat)
    ensures IsCreate(s, k) && e in s.pending[k].bearers ==>
              var t, b := TimerStart(s, k, e, payload), s.pending[k].bearers[e];
              var starts := payload != [] && !b.nasAccepted && !b.nasRejected && !b.timer.active;
              && t == s.(pending := t.pending) && k in t.pending && e in t.pending[k].bearers
              && t.pending == s.pending[k := s.pending[k].(bearers := s.pending[k].bearers[e := t.pending[k].bearers[e]])]
              && var c := t.pending[k].bearers[e];
                 && c == b.(timer := c.timer) && (!starts ==> c.timer == b.timer)
                 && (starts ==>
                       c.timer.active && c.timer.retries == 0 && !c.timer.timedOut && c.timer.payload == payload
                       && c.timer.generation == b.timer.generation + 1)
    ensures !IsCreate(s, k) || e !in s.pending[k].bearers ==>
              TimerStart(s, k, e, payload) == s && TimerExpiry(s, k, e, generation) == s
    ensures !IsCreate(s, k) || s.pending[k].cleanup == {} ==>
              CleanupDone(s, k, {e}, {e}) == s && CleanupError(s, k) == s
    ensures !IsCreate(s, k) ==> AfterExpiry(s, k) == s
  {
    hide Finalize, AfterCleanup, EvaluateRelease, Torn;
    if IsCreate(s, k) && e in s.pending[k].bearers {
      var b := s.pending[k].bearers[e];
      assert b == b.(timer := b.timer);
    }
  }

  // ---------------------------------------------------------------- the last results of a run

  function CauseAfter(c: RanNasCause, ev: Event, k: Key, e: Octet): RanNasCause {
    match ev
    case Activation(l, x, false, cause) => if l == k && x == e then EsmCause(cause) else c
    case SetupAnswered(l, x, false, _, ran) => if l == k && x == e then ran else c
    case _ => c
  }

  function EndpointAfter(t: Transport, ev: Event, k: Key, e: Octet): Transport {
    match ev
    case SetupAnswered(l, x, _, enb, _) => if l == k && x == e then enb else t
    case _ => t
  }

  // The cause the UE or the eNB gave last for the bearer, and the endpoint the eNB gave last.
  function LastCause(c: RanNasCause, evs: seq<Event>, k: Key, e: Octet): RanNasCause
    decreases |evs|
  {
    if evs == [] then c else LastCause(CauseAfter(c, evs[0], k, e), evs[1..], k, e)
  }

  function LastEndpoint(t: Transport, evs: seq<Event>, k: Key, e: Octet): Transport
    decreases |evs|
  {
    if evs == [] then t else LastEndpoint(EndpointAfter(t, evs[0], k, e), evs[1..], k, e)
  }

  // What does not change about a bearer while it is pending: what the request asked for.
  predicate SameRequest(b: Bearer, c: Bearer) {
    c.txId == b.txId && c.linked == b.linked && c.legacy == b.legacy && c.qos == b.qos && c.sgw == b.sgw
  }

  // How a bearer with the record `b` at first is reported and installed in `t`, when `cause` and `enb`
  // were given last.
  ghost predicate EndsAs(t: State, e: Octet, b: Bearer, cause: RanNasCause, enb: Transport, won: bool)
    requires t.out != [] && t.out[|t.out| - 1].Answer? && e in LastAnswer(t.out).bearers
  {
    var a := LastAnswer(t.out).bearers[e];
    && a.sgw == b.sgw
    && if won then
         && a.accepted && a.ran == NoCause && a.enb == enb
         && e in t.dedicated && SameRequest(b.(legacy := 0), t.dedicated[e]) && t.dedicated[e].enb == enb
         && t.dedicated[e].nasAccepted && t.dedicated[e].established
       else !a.accepted && a.ran == cause
  }

  lemma EndedBearer(s: State, t: State, k: Key, bs: map<Octet, Bearer>, e: Octet)
    requires EndedWith(s, t, k, bs) && e in bs
    ensures t.out != [] && t.out[|t.out| - 1].Answer? && e in LastAnswer(t.out).bearers
    ensures LastAnswer(t.out).bearers[e].accepted <==> Taken(bs[e])
    ensures EndsAs(t, e, bs[e], bs[e].ran, bs[e].enb, Taken(bs[e]))
  {
    hide Sums;
  }

  // The step from `s` leaves the bearer `e` recorded, or reported and installed, with the last results.
  ghost predicate Carries(s: State, ev: Event, t: State, k: Key, e: Octet)
    requires k in s.pending && e in s.pending[k].bearers
  {
    var b := s.pending[k].bearers[e];
    if k in t.pending then
      e in t.pending[k].bearers && SameRequest(b, t.pending[k].bearers[e])
      && t.pending[k].bearers[e].ran == CauseAfter(b.ran, ev, k, e)
      && t.pending[k].bearers[e].enb == EndpointAfter(b.enb, ev, k, e)
    else
      && t.out != [] && t.out[|t.out| - 1].Answer? && e in LastAnswer(t.out).bearers
      && EndsAs(t, e, b, CauseAfter(b.ran, ev, k, e), EndpointAfter(b.enb, ev, k, e), LastAnswer(t.out).bearers[e].accepted)
  }

  lemma ResultCarries(s: State, ev: Event, k: Key, e: Octet)
    requires (ev.Activation? || ev.SetupAnswered?) && ev.key == k && IsCreate(s, k) && e in s.pending[k].bearers
    requires ev.ebi in s.pending[k].bearers && ReservedFor(s, ev.ebi, IdOf(k)) && s.pending[k].bearers[ev.ebi].txId == IdOf(k)
    ensures Carries(s, ev, StepCreate(s, ev), k, e)
  {
    hide StepCreate;
    var c := ResultReachesTheAnswer(s, ev);
    var t := StepCreate(s, ev);
    if k !in t.pending {
      EndedBearer(s, t, k, s.pending[k].bearers[ev.ebi := c], e);
    }
    hide EndedWith;
  }

  lemma CleanupCarries(s: State, released: set<Octet>, failed: set<Octet>, k: Key, e: Octet)
    requires IsCreate(s, k) && e in s.pending[k].bearers
    ensures Carries(s, CleanedUp(k, released, failed), CleanupDone(s, k, released, failed), k, e)
  {
    if s.pending[k].cleanup != {} {
      var bs := CleanupAnswer(s, k, released, failed);
      hide CleanupDone;
      var t := CleanupDone(s, k, released, failed);
      EndedBearer(s, t, k, bs, e);
      assert k !in t.pending by { EndedIsOver(s, t, k, bs); }
      hide EndedWith;
    }
  }

  lemma EndedIsOver(s: State, t: State, k: Key, bs: map<Octet, Bearer>)
    requires EndedWith(s, t, k, bs)
    ensures k !in t.pending
  {}

  lemma NothingCarries(s: State, t: State, ev: Event, k: Key, e: Octet)
    requires LeavesAlone(s, t, k) && e in s.pending[k].bearers
    requires (ev.Activation? || ev.SetupAnswered?) && ev.key == k ==> ev.ebi != e
    ensures Carries(s, ev, t, k, e)
  {
    assert SameResult(s.pending[k].bearers[e], t.pending[k].bearers[e]);
  }

  lemma StepCarries(s: State, ev: Event, k: Key, d: Decision, ebis: set<Octet>, e: Octet, sgw: nat -> string)
    requires Identities(s, sgw) && Open(s, k, d, ebis) && !Intrudes(s, ev, k, d) && e in ebis
    ensures Carries(s, ev, Step(s, ev), k, e)
  {
    hide StepCreate, StepPdn, StepUpdate, StepDelete, Carries, LeavesAlone;
    if !ResultOf(ev, k, d) {
      OthersLeaveAlone(s, ev, k, d, ebis);
      NothingCarries(s, Step(s, ev), ev, k, e);
    } else {
      assert Step(s, ev) == StepCreate(s, ev);
      OwnResultCarries(s, ev, k, d, ebis, e, sgw);
    }
  }

  lemma OwnResultCarries(s: State, ev: Event, k: Key, d: Decision, ebis: set<Octet>, e: Octet, sgw: nat -> string)
    requires Identities(s, sgw) && Open(s, k, d, ebis) && ResultOf(ev, k, d) && e in ebis
    ensures Carries(s, ev, StepCreate(s, ev), k, e)
  {
    hide Carries, CleanupDone, CreateBearerRequest, MarkProgress, Resume, FailCreate, TimerStart, TimerExpiry;
    hide AfterExpiry, CleanupError, ActivationResult, SetupResult, LeavesAlone;
    if ev.CleanedUp? {
      CleanupCarries(s, ev.released, ev.failed, k, e);
    } else if ev.ebi in ebis {
      assert ReservedFor(s, ev.ebi, IdOf(k));
      ResultCarries(s, ev, k, e);
    } else {
      UnknownBearerIsIgnored(s, ev, k);
      NothingLeavesAlone(s, k);
      NothingCarries(s, s, ev, k, e);
    }
  }

  // Over a whole run, whatever the order and repetition of the results, a failed bearer is reported
  // with the cause that was given last for it. A taken one is reported without a cause, with the
  // endpoint the eNB gave last, and it is active with that endpoint and with the QoS, S-GW endpoint
  // and default bearer it was requested with.
  lemma {:induction false} LastResultsAreReported(s: State, evs: seq<Event>, k: Key, d: Decision, ebis: set<Octet>,
                                                  e: Octet, sgw: nat -> string)
    requires Identities(s, sgw) && Open(s, k, d, ebis) && e in ebis && FairRun(s, evs, k, d, sgw)
    requires evs != [] && StaysOpen(s, evs[..|evs| - 1], k, d, ebis) && k !in Run(s, evs).pending
    ensures var t, b := Run(s, evs), s.pending[k].bearers[e];
            && t.out != [] && t.out[|t.out| - 1].Answer? && e in LastAnswer(t.out).bearers
            && EndsAs(t, e, b, LastCause(b.ran, evs, k, e), LastEndpoint(b.enb, evs, k, e), LastAnswer(t.out).bearers[e].accepted)
    decreases |evs|
  {
    hide Step, Intrudes, Open;
    OpenIsPending(s, k, d, ebis);
    StepCarries(s, evs[0], k, d, ebis, e, sgw);
    var u := Step(s, evs[0]);
    if |evs| == 1 {
      assert evs[1..] == [];
    } else {
      var rest := evs[1..];
      assert evs[..|evs| - 1][1..] == rest[..|rest| - 1] && evs[..|evs| - 1][0] == evs[0];
      StaysOpenIsOpen(u, rest[..|rest| - 1], k, d, ebis);
      StepKeepsIdentities(s, evs[0], sgw);
      LastResultsAreReported(u, rest, k, d, ebis, e, sgw);
    }
  }

  lemma StaysOpenIsOpen(s: State, evs: seq<Event>, k: Key, d: Decision, ebis: set<Octet>)
    requires StaysOpen(s, evs, k, d, ebis)
    ensures Open(s, k, d, ebis) && IsCreate(s, k) && s.pending[k].bearers.Keys == ebis
  {
    hide Step;
  }

  lemma {:induction false} FairPrefix(s: State, evs: seq<Event>, n: nat, k: Key, d: Decision, sgw: nat -> string)
    requires FairRun(s, evs, k, d, sgw) && n <= |evs|
    ensures FairRun(s, evs[..n], k, d, sgw)
    decreases |evs|
  {
    hide Step, Lawful, Intrudes;
    if n > 0 && k in s.pending {
      FairPrefix(Step(s, evs[0]), evs[1..], n - 1, k, d, sgw);
      assert evs[..n][1..] == evs[1..][..n - 1];
    }
  }

  // Together with what becomes active, this is all that the answer and the new active records say.
  lemma OutcomeIsAsLastTold(s: State, evs: seq<Event>, n: nat, k: Key, d: Decision, ebis: set<Octet>, sgw: nat -> string)
    requires Identities(s, sgw) && Open(s, k, d, ebis) && FairRun(s, evs, k, d, sgw) && n < |evs|
    requires StaysOpen(s, evs[..n], k, d, ebis) && ConcludedAt(s, evs, n, k, ebis * d.accepted * d.established)
    ensures IsCreate(s, k) && s.pending[k].bearers.Keys == ebis
    ensures var t := Run(s, evs[..n + 1]);
            && t.out != [] && t.out[|t.out| - 1].Answer?
            && forall e :: e in ebis ==>
                 && e in LastAnswer(t.out).bearers
                 && var b := s.pending[k].bearers[e];
                    EndsAs(t, e, b, LastCause(b.ran, evs[..n + 1], k, e), LastEndpoint(b.enb, evs[..n + 1], k, e),
                           e in d.accepted && e in d.established)
  {
    hide Step, Intrudes, Open, EndsAs, Run, StaysOpen, FairRun;
    OpenIsPending(s, k, d, ebis);
    var t := Run(s, evs[..n + 1]);
    assert evs[..n + 1][..n] == evs[..n];
    StaysOpenToTheEnd(s, evs[..n], k, d, ebis);
    OpenIsPending(Run(s, evs[..n]), k, d, ebis);
    assert k !in t.pending && t.out != [] && t.out[|t.out| - 1].Answer? && LastAnswer(t.out).bearers.Keys == ebis;
    FairPrefix(s, evs, n + 1, k, d, sgw);
    forall e | e in ebis
      ensures e in LastAnswer(t.out).bearers
      ensures var b := s.pending[k].bearers[e];
              EndsAs(t, e, b, LastCause(b.ran, evs[..n + 1], k, e), LastEndpoint(b.enb, evs[..n + 1], k, e),
                     e in d.accepted && e in d.established)
    {
      LastResultsAreReported(s, evs[..n + 1], k, d, ebis, e, sgw);
    }
  }
}
