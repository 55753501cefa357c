/**
 * Initial IMS activation (internal/s1ap/erab_setup.go:92-174, 245-269): the default bearer's
 * activation is staged for a short window so that a linked Create Bearer can share its E-RAB
 * Setup. The Create Session Response, the Create Bearer Request and the window's timer race.
 */
module InitialAggregation {
  import opened Common

  type TxNumber = nat

  // A linked Create Bearer transaction that was received or waits for the link: how many
  // bearers it has, and how many come before the first whose reservation it does not own.
  datatype Linked = Linked(bearers: nat, owned: nat)

  // initialIMSBearerSetupPlan: the NAS COUNTs of the default and the dedicated activation PDUs.
  datatype Plan = Plan(defaultCount: nat, dedicatedCounts: seq<nat>, aggregated: bool, generation: nat)

  datatype State = State(
    staged: bool, stagedCount: nat, generation: nat, dlCount: nat, linked: map<TxNumber, Linked>,
    // What was dispatched, every downlink COUNT used so far, and the stagings.
    plans: seq<Plan>, used: seq<nat>, stagings: nat)

  function Counts(from: nat, n: nat): (cs: seq<nat>)
    ensures |cs| == n && forall i :: 0 <= i < n ==> cs[i] == from + i
  {
    seq(n, i => from + i)
  }

  // The transaction a Go range over the pending transactions meets first.
  predicate Meets(s: State, pick: Option<TxNumber>) {
    if pick.Some? then pick.value in s.linked else s.linked == map[]
  }

  // maybeFlushInitialIMSBearerSetupLocked.
  function Flush(s: State, pick: Option<TxNumber>, timerExpired: bool): State
    requires Meets(s, pick)
  {
    if !s.staged || (pick.None? && !timerExpired) then s
    else if pick.Some? && s.linked[pick.value].owned < s.linked[pick.value].bearers then
      // buildCreateBearerERABItemsLocked fails half way; the COUNTs it used stay used.
      var n := s.linked[pick.value].owned;
      s.(dlCount := s.dlCount + n, used := s.used + Counts(s.dlCount, n))
    else
      var n := if pick.Some? then s.linked[pick.value].bearers else 0;
      s.(staged := false, generation := s.generation + 1, dlCount := s.dlCount + n,
         used := s.used + Counts(s.dlCount, n),
         linked := if pick.Some? then s.linked - {pick.value} else s.linked,
         plans := s.plans + [Plan(s.stagedCount, Counts(s.dlCount, n), pick.Some?, s.generation)])
  }

  // stageInitialIMSDefaultERABActivation. `protectedAt` is the COUNT the activation PDU was
  // protected with, before the lock was taken.
  function Stage(s: State, protectedAt: nat, pick: Option<TxNumber>): State
    requires Meets(s, pick)
  {
    Flush(s.(staged := true, stagedCount := protectedAt, generation := s.generation + 1, dlCount := s.dlCount + 1,
             used := s.used + [protectedAt], stagings := s.stagings + 1), pick, false)
  }

  // A Create Bearer Request admitted for this default bearer.
  function CreateArrives(s: State, tx: TxNumber, l: Linked, pick: Option<TxNumber>): State
    requires Meets(s.(linked := s.linked[tx := l]), pick)
  {
    Flush(s.(linked := s.linked[tx := l]), pick, false)
  }

  // flushInitialIMSDefaultERABActivation.
  function TimerExpires(s: State, generation: nat, pick: Option<TxNumber>): State
    requires Meets(s, pick)
  {
    if !s.staged || s.generation != generation then s else Flush(s, pick, true)
  }

  // Any other protected downlink NAS message, and transactions leaving the window by themselves.
  function OtherDownlink(s: State): State {
    s.(dlCount := s.dlCount + 1, used := s.used + [s.dlCount])
  }

  function CreateLeaves(s: State, tx: TxNumber): State {
    s.(linked := s.linked - {tx})
  }

  // ---------------------------------------------------------------- the handlers

  class Window {
    var staged: bool
    var stagedCount: nat
    var generation: nat
    var dlCount: nat
    var linked: map<TxNumber, Linked>
    ghost var plans: seq<Plan>
    ghost var used: seq<nat>
    ghost var stagings: nat

    ghost function View(): State
      reads this
    {
      State(staged, stagedCount, generation, dlCount, linked, plans, used, stagings)
    }

    // The class invariant: every plan answers a staging of its own.
    ghost predicate Valid()
      reads this
    {
      OneSetupEach(View()) && forall tx :: tx in linked ==> linked[tx].owned <= linked[tx].bearers
    }

    // buildCreateBearerERABItemsLocked: one protected PDU and one COUNT per bearer.
    method BuildItems(l: Linked) returns (ok: bool, counts: seq<nat>)
      requires l.owned <= l.bearers
      modifies this`dlCount, this`used
      ensures ok <==> l.owned == l.bearers
      ensures counts == Counts(old(dlCount), l.owned)
      ensures dlCount == old(dlCount) + l.owned && used == old(used) + Counts(old(dlCount), l.owned)
    {
      counts := [];
      var i := 0;
      while i < l.bearers
        invariant 0 <= i <= l.owned
        invariant counts == Counts(old(dlCount), i)
        invariant dlCount == old(dlCount) + i && used == old(used) + Counts(old(dlCount), i)
      {
        if i == l.owned { return false, counts; }
        counts := counts + [dlCount];
        used := used + [dlCount];
        dlCount := dlCount + 1;
        i := i + 1;
      }
      ok := true;
    }

    method MaybeFlush(pick: Option<TxNumber>, timerExpired: bool) returns (plan: Option<Plan>)
      requires Valid() && Meets(View(), pick)
      modifies this
      ensures View() == Flush(old(View()), pick, timerExpired)
      ensures plan.Some? ==> plans == old(plans) + [plan.value] && (plan.value.aggregated || timerExpired)
      ensures plan.Some? ==> plan.value.generation == old(generation) < generation
      ensures plan.None? ==> plans == old(plans)
      ensures Valid()
    {
      if !staged || (pick.None? && !timerExpired) { return None; }
      var counts: seq<nat> := [];
      if pick.Some? {
        var ok;
        ok, counts := BuildItems(linked[pick.value]);
        if !ok { return None; }
        linked := linked - {pick.value};
      }
      var p := Plan(stagedCount, counts, pick.Some?, generation);
      staged := false;
      generation := generation + 1;
      plans := plans + [p];
      plan := Some(p);
    }

    method StageActivation(protectedAt: nat, pick: Option<TxNumber>) returns (plan: Option<Plan>)
      requires Valid() && Meets(View(), pick)
      modifies this
      ensures View() == Stage(old(View()), protectedAt, pick)
      // At most one plan, which is aggregated, and no COUNT is used twice unless the one the
      // activation was protected with is no longer the current one.
      ensures Valid() && old(plans) <= plans && |plans| <= |old(plans)| + 1
      ensures plan.Some? ==> plans == old(plans) + [plan.value] && plan.value.aggregated
      ensures plan.None? ==> plans == old(plans)
      ensures FreshCounts(old(View())) ==> (FreshCounts(View()) <==> protectedAt == old(dlCount))
    {
      hide Flush, FreshCounts;
      if FreshCounts(View()) { StagingReusesCountExactlyWhen(View(), protectedAt, pick); }
      staged, stagedCount := true, protectedAt;
      generation := generation + 1;
      dlCount := dlCount + 1;
      used, stagings := used + [protectedAt], stagings + 1;
      plan := MaybeFlush(pick, false);
    }

    method TimerCallback(g: nat, pick: Option<TxNumber>) returns (plan: Option<Plan>)
      requires Valid() && Meets(View(), pick)
      modifies this
      ensures View() == TimerExpires(old(View()), g, pick)
      // Only the callback of the staging that is still open dispatches anything, and once.
      ensures Valid() && (plan.Some? ==> plans == old(plans) + [plan.value] && plan.value.generation == g < generation)
      ensures plan.None? ==> plans == old(plans)
      ensures !old(staged) || g != old(generation) ==> View() == old(View())
    {
      if !staged || generation != g { return None; }
      plan := MaybeFlush(pick, true);
    }
  }

  // ---------------------------------------------------------------- runs

  datatype Event = Staged(protectedAt: nat, pick: Option<TxNumber>)
                 | Created(tx: TxNumber, l: Linked, pick: Option<TxNumber>)
                 | TimerFired(generation: nat, pick: Option<TxNumber>)
                 | Downlink
                 | Left(tx: TxNumber)

  predicate Possible(s: State, e: Event) {
    match e
    case Staged(_, pick) => Meets(s, pick)
    case Created(tx, l, pick) => l.owned <= l.bearers && Meets(s.(linked := s.linked[tx := l]), pick)
    case TimerFired(_, pick) => Meets(s, pick)
    case _ => true
  }

  function Step(s: State, e: Event): State
    requires Possible(s, e)
  {
    match e
    case Staged(c, pick) => Stage(s, c, pick)
    case Created(tx, l, pick) => CreateArrives(s, tx, l, pick)
    case TimerFired(g, pick) => TimerExpires(s, g, pick)
    case Downlink => OtherDownlink(s)
    case Left(tx) => CreateLeaves(s, tx)
  }

  predicate PossibleRun(s: State, es: seq<Event>)
    decreases |es|
  {
    es == [] || (Possible(s, es[0]) && PossibleRun(Step(s, es[0]), es[1..]))
  }

  function Run(s: State, es: seq<Event>): State
    requires PossibleRun(s, es)
    decreases |es|
  {
    if es == [] then s else Run(Step(s, es[0]), es[1..])
  }

  // Every dispatched plan answers a staging of its own, and only the timer dispatches the
  // default bearer alone.
  ghost predicate OneSetupEach(s: State) {
    && |s.plans| + (if s.staged then 1 else 0) <= s.stagings
    && (forall i, j :: 0 <= i < j < |s.plans| ==> s.plans[i].generation < s.plans[j].generation)
    && (forall i :: 0 <= i < |s.plans| ==> s.plans[i].generation < s.generation)
  }

  lemma {:induction false} OneSetupPerStaging(s: State, es: seq<Event>)
    requires OneSetupEach(s) && PossibleRun(s, es)
    ensures OneSetupEach(Run(s, es)) && s.plans <= Run(s, es).plans
    decreases |es|
  {
    if es != [] {
      OneSetupPerStaging(Step(s, es[0]), es[1..]);
    }
  }

  // A default bearer is staged again only after its activation was flushed.
  predicate SequentialStagings(s: State, es: seq<Event>)
    requires PossibleRun(s, es)
    decreases |es|
  {
    es == [] || ((es[0].Staged? ==> !s.staged) && SequentialStagings(Step(s, es[0]), es[1..]))
  }

  // Conservation: every staging is either still open or was answered by exactly one Setup.
  lemma {:induction false} StagingsAreConserved(s: State, es: seq<Event>)
    requires PossibleRun(s, es) && SequentialStagings(s, es)
    requires |s.plans| + (if s.staged then 1 else 0) == s.stagings
    ensures |Run(s, es).plans| + (if Run(s, es).staged then 1 else 0) == Run(s, es).stagings
    decreases |es|
  {
    if es != [] {
      StagingsAreConserved(Step(s, es[0]), es[1..]);
    }
  }

  // A plan that only the request handlers produce is always aggregated, so the Create Bearer
  // handler, which sends aggregated plans only, never loses one.
  lemma OnlyTheTimerFallsBack(s: State, e: Event)
    requires Possible(s, e)
    ensures var t := Step(s, e);
            |t.plans| == |s.plans| || (|t.plans| == |s.plans| + 1 && (t.plans[|s.plans|].aggregated || e.TimerFired?))
  {}

  // What the handler of the Create Bearer Request `tx` has dispatched when it goes on to register the
  // aggregated E-RAB Setup, and to start the activation timers, under the ID of `tx`.
  predicate Dispatches(s: State, tx: TxNumber, l: Linked, pick: Option<TxNumber>) {
    Meets(s.(linked := s.linked[tx := l]), pick) && |CreateArrives(s, tx, l, pick).plans| > |s.plans|
  }

  // The plan carries the bearers of `tx` itself, for every order in which the linked transactions
  // can be met, exactly when no other one that waits could be set up. Otherwise the Setup of that
  // one can be registered under the ID of `tx`, which still waits.
  lemma PlanIsOfRequesterExactlyWhen(s: State, tx: TxNumber, l: Linked)
    requires s.staged && l.owned == l.bearers
    ensures (forall pick :: Dispatches(s, tx, l, pick) ==> pick == Some(tx))
            <==> forall other :: other in s.linked && other != tx ==> s.linked[other].owned < s.linked[other].bearers
    ensures forall pick :: Dispatches(s, tx, l, pick) ==>
              pick.Some? && pick.value !in CreateArrives(s, tx, l, pick).linked
              && (pick != Some(tx) ==> tx in CreateArrives(s, tx, l, pick).linked)
  {
    if other :| other in s.linked && other != tx && !(s.linked[other].owned < s.linked[other].bearers) {
      assert Dispatches(s, tx, l, Some(other));
    }
  }

  // Once flushed, the callback armed for that staging does nothing, whatever happened since.
  lemma {:induction false} FlushDisarmsTimer(s: State, es: seq<Event>, g: nat, pick: Option<TxNumber>)
    requires PossibleRun(s, es) && g < s.generation && Meets(Run(s, es), pick)
    ensures TimerExpires(Run(s, es), g, pick) == Run(s, es)
    decreases |es|
  {
    GenerationsGrow(s, es);
  }

  lemma {:induction false} GenerationsGrow(s: State, es: seq<Event>)
    requires PossibleRun(s, es)
    ensures s.generation <= Run(s, es).generation
    decreases |es|
  {
    if es != [] {
      GenerationsGrow(Step(s, es[0]), es[1..]);
    }
  }

  // The window's own timer always ends it when every linked transaction owns its reservations.
  // Otherwise the activation stays staged for ever.
  lemma TimerEndsWindowExactlyWhen(s: State, pick: Option<TxNumber>)
    requires s.staged && Meets(s, pick) && (pick.Some? ==> s.linked[pick.value].owned <= s.linked[pick.value].bearers)
    ensures !TimerExpires(s, s.generation, pick).staged
            <==> (pick.Some? ==> s.linked[pick.value].owned == s.linked[pick.value].bearers)
  {}

  // ---------------------------------------------------------------- NAS COUNTs

  // No COUNT was used twice, and all below the current one were used.
  ghost predicate FreshCounts(s: State) {
    && (forall i, j :: 0 <= i < j < |s.used| ==> s.used[i] < s.used[j])
    && (forall i :: 0 <= i < |s.used| ==> s.used[i] < s.dlCount)
    && (forall c :: (if |s.used| > 0 then s.used[0] else s.dlCount) <= c < s.dlCount ==> c in s.used)
  }

  // Protecting and staging are one step in every staging of the run.
  predicate AtomicStagings(s: State, es: seq<Event>)
    requires PossibleRun(s, es)
    decreases |es|
  {
    es == [] || ((es[0].Staged? ==> es[0].protectedAt == s.dlCount) && AtomicStagings(Step(s, es[0]), es[1..]))
  }

  lemma AppendCounts(s: State, t: State, n: nat)
    requires FreshCounts(s) && t.dlCount == s.dlCount + n && t.used == s.used + Counts(s.dlCount, n)
    ensures FreshCounts(t)
  {
    forall c | (if |t.used| > 0 then t.used[0] else t.dlCount) <= c < t.dlCount ensures c in t.used {
      if c >= s.dlCount {
        assert t.used[|s.used| + (c - s.dlCount)] == c;
      } else {
        assert c in s.used;
      }
    }
  }

  lemma StepKeepsFreshCounts(s: State, e: Event)
    requires FreshCounts(s) && Possible(s, e) && (e.Staged? ==> e.protectedAt == s.dlCount)
    ensures FreshCounts(Step(s, e))
  {
    var t := Step(s, e);
    match e
    case Staged(c, pick) =>
      var s1 := s.(staged := true, stagedCount := c, generation := s.generation + 1, dlCount := s.dlCount + 1,
                   used := s.used + [c], stagings := s.stagings + 1);
      assert [c] == Counts(s.dlCount, 1);
      AppendCounts(s, s1, 1);
      AppendCounts(s1, t, t.dlCount - s1.dlCount);
    case Downlink =>
      assert [s.dlCount] == Counts(s.dlCount, 1);
      AppendCounts(s, t, 1);
    case _ =>
      AppendCounts(s, t, t.dlCount - s.dlCount);
  }

  lemma {:induction false} CountsStayFresh(s: State, es: seq<Event>)
    requires FreshCounts(s) && PossibleRun(s, es) && AtomicStagings(s, es)
    ensures FreshCounts(Run(s, es))
    decreases |es|
  {
    if es != [] {
      StepKeepsFreshCounts(s, es[0]);
      CountsStayFresh(Step(s, es[0]), es[1..]);
    }
  }

  lemma StaleCountIsNotFresh(s: State, protectedAt: nat, t: State, n: nat)
    requires FreshCounts(s) && protectedAt != s.dlCount && t.dlCount == s.dlCount + 1 + n
    requires t.used == s.used + [protectedAt] + Counts(s.dlCount + 1, n)
    ensures !FreshCounts(t)
  {
    var at := |s.used|;
    assert t.used[at] == protectedAt;
    if protectedAt > s.dlCount {
      if n > 0 { assert t.used[at + 1] == s.dlCount + 1; }
    } else if s.used == [] {
      assert s.dlCount !in t.used;
    } else if protectedAt < s.used[0] {
      assert t.used[0] == s.used[0];
    } else {
      assert protectedAt in s.used;
      var i :| 0 <= i < at && s.used[i] == protectedAt;
      assert t.used[i] == t.used[at];
    }
  }

  // The COUNTs stay fresh exactly when no other downlink message slipped in between protecting
  // the activation and staging it, whichever linked Create is flushed along with it.
  lemma StagingReusesCountExactlyWhen(s: State, protectedAt: nat, pick: Option<TxNumber>)
    requires FreshCounts(s) && Possible(s, Staged(protectedAt, pick))
    ensures FreshCounts(Stage(s, protectedAt, pick)) <==> protectedAt == s.dlCount
  {
    hide FreshCounts;
    var t := Stage(s, protectedAt, pick);
    if protectedAt == s.dlCount {
      StepKeepsFreshCounts(s, Staged(protectedAt, pick));
    } else {
      var n := t.dlCount - s.dlCount - 1;
      assert n == 0 ==> Counts(s.dlCount + 1, n) == [];
      StaleCountIsNotFresh(s, protectedAt, t, n);
    }
  }

  // The PDUs of one E-RAB Setup carry consecutive COUNTs exactly when no other downlink message
  // was protected between the staging and the flush.
  lemma SetupCountsAreConsecutiveExactlyWhen(s: State, tx: TxNumber)
    requires s.staged && tx in s.linked && s.linked[tx].owned == s.linked[tx].bearers > 0
    ensures var p := Flush(s, Some(tx), false).plans[|s.plans|];
            [p.defaultCount] + p.dedicatedCounts == Counts(p.defaultCount, 1 + s.linked[tx].bearers)
            <==> s.dlCount == s.stagedCount + 1
  {
    var p := Flush(s, Some(tx), false).plans[|s.plans|];
    var all, run := [p.defaultCount] + p.dedicatedCounts, Counts(p.defaultCount, 1 + s.linked[tx].bearers);
    if s.dlCount == s.stagedCount + 1 {
      assert all == run;
    } else {
      assert all[1] != run[1];
    }
  }

  // ---------------------------------------------------------------- which staging a plan answers

  // Staging opens the window with the COUNT the activation was protected with, under a generation of
  // its own; the COUNT is used up.
  lemma StagingOpens(s: State, protectedAt: nat)
    requires s.linked == map[]
    ensures var t := Stage(s, protectedAt, None);
            && t.staged && t.stagedCount == protectedAt && t.generation == s.generation + 1
            && t.dlCount == s.dlCount + 1 && t.used == s.used + [protectedAt] && t.stagings == s.stagings + 1
            && t.linked == s.linked && t.plans == s.plans
  {}

  // The window stays open as it is, or a plan with its COUNT and generation is dispatched and closes it.
  ghost predicate AnswersOpenStaging(s: State, t: State) {
    if t.plans == s.plans then
      t.staged == s.staged && t.stagedCount == s.stagedCount && t.generation == s.generation
    else
      && s.staged && !t.staged && |t.plans| == |s.plans| + 1 && t.plans[..|s.plans|] == s.plans
      && t.plans[|s.plans|].defaultCount == s.stagedCount && t.plans[|s.plans|].generation == s.generation
      && t.generation == s.generation + 1
  }

  lemma StepAnswersOpenStaging(s: State, e: Event)
    requires Possible(s, e) && !e.Staged?
    ensures AnswersOpenStaging(s, Step(s, e))
  {}

  // The first plan after a staging carries the COUNT its activation was protected with.
  lemma {:induction false} FirstPlanIsOfTheStaging(s: State, es: seq<Event>)
    requires PossibleRun(s, es) && (forall i :: 0 <= i < |es| ==> !es[i].Staged?)
    requires s.staged && Run(s, es).plans != s.plans
    ensures |Run(s, es).plans| > |s.plans| && Run(s, es).plans[|s.plans|].defaultCount == s.stagedCount
            && Run(s, es).plans[|s.plans|].generation == s.generation
    decreases |es|
  {
    hide AnswersOpenStaging;
    if es != [] {
      var t := Step(s, es[0]);
      StepAnswersOpenStaging(s, es[0]);
      assert forall i :: 0 <= i < |es[1..]| ==> es[1..][i] == es[i + 1];
      AnswerOrSame(s, t);
      hide Step;
      if t.plans == s.plans {
        FirstPlanIsOfTheStaging(t, es[1..]);
      } else {
        PlansGrow(t, es[1..]);
      }
    }
  }

  lemma AnswerOrSame(s: State, t: State)
    requires AnswersOpenStaging(s, t) && s.staged
    ensures t.plans == s.plans ==> t.staged && t.stagedCount == s.stagedCount && t.generation == s.generation
    ensures t.plans != s.plans ==>
              |t.plans| == |s.plans| + 1
              && t.plans[|s.plans|].defaultCount == s.stagedCount && t.plans[|s.plans|].generation == s.generation
  {}

  lemma {:induction false} PlansGrow(s: State, es: seq<Event>)
    requires PossibleRun(s, es)
    ensures s.plans <= Run(s, es).plans
    decreases |es|
  {
    if es != [] { PlansGrow(Step(s, es[0]), es[1..]); }
  }

  // What arrives is linked, what leaves is not, and any other downlink message uses up one COUNT.
  lemma OthersMeaning(s: State, tx: TxNumber, l: Linked)
    ensures !s.staged ==> CreateArrives(s, tx, l, Some(tx)) == s.(linked := s.linked[tx := l])
    ensures CreateLeaves(s, tx) == s.(linked := s.linked - {tx})
    ensures OtherDownlink(s) == s.(dlCount := s.dlCount + 1, used := s.used + [s.dlCount])
  {}
}
