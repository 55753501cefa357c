/**
 * Reachability supervision and implicit detach, section 4.3.5 of TS 23.401
 * (internal/s1ap/reachability.go): the mobile-reachable timer, the implicit detach timer and
 * the terminal cleanup timer, whose callbacks can be late and are fenced by generations.
 */
module Reachability {
  import opened Common

  datatype Emm = Registered | Deregistering | Deregistered
  datatype Reach = Unknown | Reachable | DetachPending | TerminalCleanup

  // A timer as its callback sees it. Generations are uint64 in the source; no wrap-around is modelled.
  datatype Timer = Timer(generation: nat, active: bool)

  datatype Ue = Ue(emm: Emm, idle: bool, reach: Reach, started: bool, mobile: Timer, detach: Timer, cleanup: Timer,
                   // How often a callback of each timer took effect.
                   unreachable: nat, claimed: nat, finalized: nat)

  datatype Which = Mobile | Detach | Cleanup

  function TimerOf(u: Ue, w: Which): Timer {
    match w case Mobile => u.mobile case Detach => u.detach case Cleanup => u.cleanup
  }

  function Armed(t: Timer): Timer {
    Timer(t.generation + 1, true)
  }

  function Disarmed(t: Timer): Timer {
    Timer(t.generation + 1, false)
  }

  // ---------------------------------------------------------------- the locked regions

  // startMobileReachableLocked; `seconds` is the effective T3412 plus the guard.
  function StartMobile(u: Ue, seconds: int): Ue {
    if seconds <= 0 then u else u.(mobile := Armed(u.mobile))
  }

  // refreshReachability.
  function Refresh(u: Ue, seconds: int): Ue {
    if u.emm != Registered || u.started then u
    else
      var u1 := u.(detach := Disarmed(u.detach), mobile := Disarmed(u.mobile), reach := Reachable);
      if u.idle then StartMobile(u1, seconds) else u1
  }

  // armReachabilityForIdle.
  function ArmForIdle(u: Ue, seconds: int): Ue {
    if u.emm == Registered && u.idle && !u.started then StartMobile(u.(reach := Reachable), seconds) else u
  }

  predicate Live(t: Timer, generation: nat) {
    t.active && t.generation == generation
  }

  // onMobileReachableExpiry.
  function MobileExpiry(u: Ue, generation: nat): Ue {
    if !Live(u.mobile, generation) || u.emm != Registered || !u.idle || u.started then u
    else u.(mobile := u.mobile.(active := false), reach := DetachPending, detach := Armed(u.detach),
            unreachable := u.unreachable + 1)
  }

  // onImplicitDetachExpiry: claims the terminal cleanup.
  function DetachExpiry(u: Ue, generation: nat): Ue {
    if !Live(u.detach, generation) || u.emm != Registered || u.started then u
    else u.(started := true, cleanup := Armed(u.cleanup), detach := u.detach.(active := false),
            reach := TerminalCleanup, emm := Deregistering, claimed := u.claimed + 1)
  }

  // onImplicitDetachCleanupTimeout.
  function CleanupTimeout(u: Ue, generation: nat): Ue {
    if !u.started || !Live(u.cleanup, generation) then u
    else u.(cleanup := u.cleanup.(active := false), finalized := u.finalized + 1)
  }

  // cancelReachabilityForDetach.
  function CancelForDetach(u: Ue): Ue {
    u.(mobile := Disarmed(u.mobile), detach := Disarmed(u.detach), cleanup := Disarmed(u.cleanup))
  }

  // The locked region of cleanupDetachedUE.
  function CleanupDetached(u: Ue): Ue {
    u.(cleanup := Disarmed(u.cleanup))
  }

  // What was persisted: each deadline is absent, in the past, or still to come.
  datatype Deadline = Absent | Past | Future
  datatype Saved = Saved(terminal: bool, cleanup: Deadline, pending: bool, detach: Deadline, mobile: Deadline)

  // RestoreReachability. Its result names the callback it starts at once, if any.
  function Restore(u: Ue, r: Saved): (Ue, Option<(Which, nat)>) {
    if u.started then (u, None)
    else
      var u1 := u.(mobile := Disarmed(u.mobile), detach := Disarmed(u.detach), cleanup := Disarmed(u.cleanup));
      if r.terminal then
        var u2 := u1.(started := true, reach := TerminalCleanup, emm := Deregistering);
        if r.cleanup == Future then (u2.(cleanup := Armed(u2.cleanup)), None)
        // An expired deadline gets a new generation, but the timer is not marked active.
        else (u2.(cleanup := Disarmed(u2.cleanup)), Some((Cleanup, u2.cleanup.generation + 1)))
      else if r.detach != Absent || r.pending then
        var u2 := u1.(reach := DetachPending, detach := Armed(u1.detach));
        (u2, if r.detach == Future then None else Some((Detach, u2.detach.generation)))
      else
        var u2 := u1.(reach := Reachable, mobile := Armed(u1.mobile));
        (u2, if r.mobile == Future then None else Some((Mobile, u2.mobile.generation)))
  }

  // ---------------------------------------------------------------- what the callbacks are for

  // The UE could not be reached: from now on a detach callback is live that was never armed before.
  predicate BeginsDetach(u: Ue, t: Ue) {
    && t.reach == DetachPending && t.detach.active && t.detach.generation > u.detach.generation
    && t.mobile == Timer(u.mobile.generation, false) && t.cleanup == u.cleanup
    && t.emm == u.emm && t.idle == u.idle && t.started == u.started
    && t.unreachable == u.unreachable + 1 && t.claimed == u.claimed && t.finalized == u.finalized
  }

  // The context is given up: it is being deregistered, and a cleanup callback is live.
  predicate BeginsCleanup(u: Ue, t: Ue) {
    && t.started && t.reach == TerminalCleanup && t.emm == Deregistering
    && t.cleanup.active && t.cleanup.generation > u.cleanup.generation
    && t.detach == Timer(u.detach.generation, false) && t.mobile == u.mobile && t.idle == u.idle
    && t.claimed == u.claimed + 1 && t.unreachable == u.unreachable && t.finalized == u.finalized
  }

  predicate Finalises(u: Ue, t: Ue) {
    && t.finalized == u.finalized + 1 && t.cleanup == Timer(u.cleanup.generation, false)
    && t.started == u.started && t.reach == u.reach && t.emm == u.emm && t.idle == u.idle
    && t.mobile == u.mobile && t.detach == u.detach && t.claimed == u.claimed && t.unreachable == u.unreachable
  }

  // The UE was heard of: nothing counts against it any more, and when it is idle the time until
  // it must be heard of again runs.
  predicate Renews(u: Ue, t: Ue, seconds: int) {
    && t.reach == Reachable && !t.detach.active && t.detach.generation > u.detach.generation
    && t.mobile.generation > u.mobile.generation && (t.mobile.active <==> u.idle && seconds > 0)
    && t.cleanup == u.cleanup && t.emm == u.emm && t.idle == u.idle && t.started == u.started
    && t.unreachable == u.unreachable && t.claimed == u.claimed && t.finalized == u.finalized
  }

  // ---------------------------------------------------------------- the UE context

  class Supervision {
    var emm: Emm
    var idle: bool
    var reach: Reach
    var started: bool
    var mobileGeneration: nat
    var mobileActive: bool
    var detachGeneration: nat
    var detachActive: bool
    var cleanupGeneration: nat
    var cleanupActive: bool
    ghost var unreachable: nat
    ghost var claimed: nat
    ghost var finalized: nat

    ghost function View(): Ue
      reads this
    {
      Ue(emm, idle, reach, started, Timer(mobileGeneration, mobileActive), Timer(detachGeneration, detachActive),
         Timer(cleanupGeneration, cleanupActive), unreachable, claimed, finalized)
    }

    // The class invariant: the terminal cleanup was claimed at most once, and then it lasts.
    ghost predicate Valid()
      reads this
    {
      Claims(View())
    }

    method StartMobileReachable(seconds: int)
      modifies this`mobileGeneration, this`mobileActive
      ensures View() == StartMobile(old(View()), seconds)
    {
      if seconds <= 0 { return; }
      mobileGeneration := mobileGeneration + 1;
      mobileActive := true;
    }

    // A refresh puts an end to every callback armed before it, and none of them took effect in it.
    method RefreshReachability(seconds: int)
      requires Valid()
      modifies this
      ensures View() == Refresh(old(View()), seconds) && Valid()
      ensures emm == Registered && !started ==>
        forall w, g: nat :: w != Cleanup && g <= TimerOf(old(View()), w).generation ==> Dead(TimerOf(View(), w), g)
      ensures if emm == Registered && !started then Renews(old(View()), View(), seconds) else View() == old(View())
      ensures unreachable == old(unreachable) && claimed == old(claimed) && finalized == old(finalized)
    {
      if emm != Registered || started { return; }
      detachGeneration, detachActive := detachGeneration + 1, false;
      mobileGeneration, mobileActive := mobileGeneration + 1, false;
      reach := Reachable;
      if idle { StartMobileReachable(seconds); }
    }

    method OnMobileReachableExpiry(generation: nat)
      requires Valid()
      modifies this
      ensures View() == MobileExpiry(old(View()), generation) && Valid()
      // A callback that took effect was live, and is dead from now on.
      ensures View() != old(View()) ==> Live(old(View()).mobile, generation) && Dead(View().mobile, generation)
      // It takes effect exactly for an idle UE that was not heard of, and starts the implicit detach.
      ensures if old(mobileActive) && old(mobileGeneration) == generation && old(emm) == Registered && old(idle)
                 && !old(started)
              then BeginsDetach(old(View()), View()) else View() == old(View())
      ensures claimed == old(claimed) && started == old(started)
    {
      if mobileGeneration != generation || !mobileActive || emm != Registered || !idle || started { return; }
      mobileActive := false;
      reach := DetachPending;
      detachGeneration := detachGeneration + 1;
      detachActive := true;
      unreachable := unreachable + 1;
    }

    method OnImplicitDetachExpiry(generation: nat)
      requires Valid()
      modifies this
      ensures View() == DetachExpiry(old(View()), generation) && Valid()
      // The cleanup is claimed by the first callback that takes effect, and by no other.
      ensures View() != old(View()) ==> Live(old(View()).detach, generation) && Dead(View().detach, generation)
      ensures View() != old(View()) <==> claimed != old(claimed)
      ensures claimed != old(claimed) ==> old(claimed) == 0 && claimed == 1
      ensures if old(detachActive) && old(detachGeneration) == generation && old(emm) == Registered && !old(started)
              then BeginsCleanup(old(View()), View()) else View() == old(View())
    {
      if detachGeneration != generation || !detachActive || emm != Registered || started { return; }
      started := true;
      cleanupGeneration := cleanupGeneration + 1;
      cleanupActive := true;
      detachActive := false;
      reach := TerminalCleanup;
      emm := Deregistering;
      claimed := claimed + 1;
    }

    method OnCleanupTimeout(generation: nat)
      requires Valid()
      modifies this
      ensures View() == CleanupTimeout(old(View()), generation) && Valid()
      // Only a context whose cleanup is claimed is finalised, and never twice by one callback.
      ensures View() != old(View()) ==> reach == TerminalCleanup && Dead(View().cleanup, generation)
      ensures View() != old(View()) <==> finalized == old(finalized) + 1
      ensures if old(started) && old(cleanupActive) && old(cleanupGeneration) == generation
              then Finalises(old(View()), View()) else View() == old(View())
    {
      if !started || !cleanupActive || cleanupGeneration != generation { return; }
      cleanupActive := false;
      finalized := finalized + 1;
    }
  }

  // ---------------------------------------------------------------- runs

  datatype Event = Refreshes(seconds: int) | Arms(seconds: int) | Expires(which: Which, generation: nat)
                 | Cancels | CleansUp | Restores(saved: Saved) | Moves(idle: bool) | Changes(emm: Emm)

  function Fire(u: Ue, w: Which, generation: nat): Ue {
    match w
    case Mobile => MobileExpiry(u, generation)
    case Detach => DetachExpiry(u, generation)
    case Cleanup => CleanupTimeout(u, generation)
  }

  // Attach, detach and connection handling outside this file change the EMM and ECM states.
  function Step(u: Ue, e: Event): Ue {
    match e
    case Refreshes(s) => Refresh(u, s)
    case Arms(s) => ArmForIdle(u, s)
    case Expires(w, g) => Fire(u, w, g)
    case Cancels => CancelForDetach(u)
    case CleansUp => CleanupDetached(u)
    case Restores(r) => Restore(u, r).0
    case Moves(idle) => u.(idle := idle)
    case Changes(emm) => u.(emm := emm)
  }

  function Run(u: Ue, es: seq<Event>): Ue
    decreases |es|
  {
    if es == [] then u else Run(Step(u, es[0]), es[1..])
  }

  // A callback armed with this generation can never take effect again.
  predicate Dead(t: Timer, generation: nat) {
    generation < t.generation || (generation == t.generation && !t.active)
  }

  // A timer becomes active only with a new generation.
  lemma DeadStaysDead(u: Ue, e: Event, w: Which, generation: nat)
    requires Dead(TimerOf(u, w), generation)
    ensures Dead(TimerOf(Step(u, e), w), generation)
    ensures TimerOf(u, w).generation <= TimerOf(Step(u, e), w).generation
  {}

  // Whatever happens afterwards, a callback whose timer was refreshed, cancelled, re-armed or
  // has already taken effect does nothing.
  lemma {:induction false} StaleCallbackDoesNothing(u: Ue, es: seq<Event>, w: Which, generation: nat)
    requires Dead(TimerOf(u, w), generation)
    ensures Fire(Run(u, es), w, generation) == Run(u, es)
    decreases |es|
  {
    if es != [] {
      DeadStaysDead(u, es[0], w, generation);
      hide Step;
      StaleCallbackDoesNothing(Step(u, es[0]), es[1..], w, generation);
    }
  }

  // What makes a callback dead: taking effect, and every step that touches its timer.
  lemma EffectHappensOnce(u: Ue, w: Which, generation: nat)
    requires Fire(u, w, generation) != u
    ensures Live(TimerOf(u, w), generation) && Dead(TimerOf(Fire(u, w, generation), w), generation)
  {}

  lemma TouchedTimerIsDead(u: Ue, w: Which, generation: nat, seconds: int, r: Saved)
    requires generation <= TimerOf(u, w).generation
    ensures Dead(TimerOf(CancelForDetach(u), w), generation)
    ensures u.emm == Registered && !u.started && w != Cleanup ==> Dead(TimerOf(Refresh(u, seconds), w), generation)
    ensures !u.started ==> Dead(TimerOf(Restore(u, r).0, w), generation)
    ensures w == Mobile && u.emm == Registered && u.idle && !u.started && seconds > 0 ==>
              Dead(TimerOf(ArmForIdle(u, seconds), w), generation)
  {}

  // Over a whole run a callback takes effect only if its timer still has the generation it was
  // armed with, that is, if nothing touched the timer in between.
  lemma EffectNeedsUntouchedTimer(u: Ue, es: seq<Event>, w: Which, generation: nat)
    requires Fire(Run(u, es), w, generation) != Run(u, es)
    ensures !Dead(TimerOf(u, w), generation) && TimerOf(Run(u, es), w) == Timer(generation, true)
  {
    if Dead(TimerOf(u, w), generation) {
      StaleCallbackDoesNothing(u, es, w, generation);
    }
  }

  // ---------------------------------------------------------------- from silence to detach

  // When a callback takes effect, and what it does then; otherwise it does nothing.
  predicate Ready(u: Ue, w: Which, generation: nat) {
    && Live(TimerOf(u, w), generation)
    && match w
       case Mobile => u.emm == Registered && u.idle && !u.started
       case Detach => u.emm == Registered && !u.started
       case Cleanup => u.started
  }

  lemma EffectExactlyWhen(u: Ue, w: Which, generation: nat)
    ensures Fire(u, w, generation) != u <==> Ready(u, w, generation)
    ensures Ready(u, w, generation) ==>
              match w
              case Mobile => BeginsDetach(u, Fire(u, w, generation))
              case Detach => BeginsCleanup(u, Fire(u, w, generation))
              case Cleanup => Finalises(u, Fire(u, w, generation))
  {}

  // A UE that stays silent is detached: once the mobile-reachable timer expires, the detach callback
  // it armed claims the cleanup, whatever happened in between, unless its timer was touched, the UE
  // left the registered state or the cleanup was claimed already; and the cleanup callback armed by
  // that claim finalises the context unless its timer was touched.
  lemma SilenceEndsInCleanup(u: Ue, generation: nat, es: seq<Event>, fs: seq<Event>)
    requires Ready(u, Mobile, generation)
    ensures var t := Fire(u, Mobile, generation);
            var v := Run(t, es);
            var claimed := Fire(v, Detach, t.detach.generation);
            var w := Run(claimed, fs);
            && BeginsDetach(u, t)
            && (v.detach == t.detach && v.emm == Registered && !v.started ==>
                  && BeginsCleanup(v, claimed)
                  && (w.cleanup == claimed.cleanup ==> Finalises(w, Fire(w, Cleanup, claimed.cleanup.generation))))
  {
    hide Step, Run, Fire, BeginsDetach, BeginsCleanup, Finalises;
    var t := Fire(u, Mobile, generation);
    var v := Run(t, es);
    EffectExactlyWhen(u, Mobile, generation);
    assert BeginsDetach(u, t);
    DetachIsArmed(u, t);
    if v.detach == t.detach && v.emm == Registered && !v.started {
      EffectExactlyWhen(v, Detach, t.detach.generation);
      var claimed := Fire(v, Detach, t.detach.generation);
      CleanupIsArmed(v, claimed);
      ClaimIsForGood(claimed, fs);
      var w := Run(claimed, fs);
      EffectExactlyWhen(w, Cleanup, claimed.cleanup.generation);
    }
  }

  lemma DetachIsArmed(u: Ue, t: Ue)
    requires BeginsDetach(u, t)
    ensures t.detach.active
  {}

  lemma CleanupIsArmed(u: Ue, t: Ue)
    requires BeginsCleanup(u, t)
    ensures t.started && t.cleanup.active
  {}

  lemma {:induction false} ClaimIsForGood(u: Ue, es: seq<Event>)
    requires u.started
    ensures Run(u, es).started
    decreases |es|
  {
    if es != [] { ClaimIsForGood(Step(u, es[0]), es[1..]); }
  }

  // Some timer will act on a registered UE that is idle.
  predicate Supervised(u: Ue) {
    u.emm == Registered && u.idle && !u.started ==> u.mobile.active || u.detach.active
  }

  // How an idle registered UE can slip out of supervision: a refresh without a mobile-reachable time,
  // a cancellation for a detach that leaves it registered, and a UE that becomes idle or registered
  // while no timer runs and none is armed.
  predicate Escapes(u: Ue, e: Event) {
    match e
    case Refreshes(seconds) => u.emm == Registered && !u.started && u.idle && seconds <= 0
    case Cancels => u.emm == Registered && !u.started && u.idle
    case Moves(idle) => idle && u.emm == Registered && !u.started && !u.mobile.active && !u.detach.active
    case Changes(emm) => emm == Registered && u.idle && !u.started && !u.mobile.active && !u.detach.active
    case _ => false
  }

  lemma StepKeepsSupervisedExactlyWhen(u: Ue, e: Event)
    requires Supervised(u)
    ensures Supervised(Step(u, e)) <==> !Escapes(u, e)
  {}

  predicate Watched(u: Ue, es: seq<Event>)
    decreases |es|
  {
    es == [] || (!Escapes(u, es[0]) && Watched(Step(u, es[0]), es[1..]))
  }

  // No callback, refresh, arming or restart ever leaves an idle registered UE without a timer.
  lemma {:induction false} NobodyIsForgotten(u: Ue, es: seq<Event>)
    requires Supervised(u) && Watched(u, es)
    ensures Supervised(Run(u, es))
    decreases |es|
  {
    hide Step, Supervised, Escapes;
    if es != [] {
      StepKeepsSupervisedExactlyWhen(u, es[0]);
      NobodyIsForgotten(Step(u, es[0]), es[1..]);
    }
  }

  // What the steps that are no callbacks do to the state and to each timer.
  lemma ArmingStartsTheTime(u: Ue, seconds: int)
    ensures u.emm == Registered && !u.started ==> Renews(u, Refresh(u, seconds), seconds)
    ensures u.emm != Registered || u.started ==> Refresh(u, seconds) == u
    ensures var t := ArmForIdle(u, seconds);
            if u.emm == Registered && u.idle && !u.started
            then && t.reach == Reachable && t.detach == u.detach
                 && (if seconds > 0 then t.mobile.active && t.mobile.generation > u.mobile.generation
                     else t.mobile == u.mobile)
                 && t == u.(reach := t.reach, mobile := t.mobile)
            else t == u
    ensures var t := CancelForDetach(u);
            && !t.mobile.active && !t.detach.active && !t.cleanup.active
            && t == u.(mobile := t.mobile, detach := t.detach, cleanup := t.cleanup)
    ensures var t := CleanupDetached(u);
            t.cleanup.generation > u.cleanup.generation && !t.cleanup.active && t == u.(cleanup := t.cleanup)
  {}

  // A restart resumes supervision where it was: one timer runs again, and its callback is started
  // at once when its deadline has passed.
  lemma RestoredIsResumed(u: Ue, r: Saved)
    requires !u.started
    ensures var (t, callback) := Restore(u, r);
            && (forall w :: TimerOf(t, w).generation > TimerOf(u, w).generation)
            && t.idle == u.idle && t.unreachable == u.unreachable && t.claimed == u.claimed && t.finalized == u.finalized
            && if r.terminal then
                 && t.started && t.reach == TerminalCleanup && t.emm == Deregistering
                 && !t.mobile.active && !t.detach.active && (t.cleanup.active <==> r.cleanup == Future)
                 && callback == if r.cleanup == Future then None else Some((Cleanup, t.cleanup.generation))
               else if r.pending || r.detach != Absent then
                 && !t.started && t.reach == DetachPending && t.emm == u.emm
                 && !t.mobile.active && t.detach.active && !t.cleanup.active
                 && callback == if r.detach == Future then None else Some((Detach, t.detach.generation))
               else
                 && !t.started && t.reach == Reachable && t.emm == u.emm
                 && t.mobile.active && !t.detach.active && !t.cleanup.active
                 && callback == if r.mobile == Future then None else Some((Mobile, t.mobile.generation))
  {}

  // ---------------------------------------------------------------- terminal cleanup

  // The cleanup is claimed at most once, and while it is, supervision is over: neither the
  // reachability state nor the other two timers are touched by a callback or a refresh.
  ghost predicate Claims(u: Ue) {
    u.claimed <= (if u.started then 1 else 0) && (u.started ==> u.reach == TerminalCleanup)
  }

  lemma {:induction false} ClaimedAtMostOnce(u: Ue, es: seq<Event>)
    requires Claims(u)
    ensures Claims(Run(u, es)) && (u.started ==> Run(u, es).started && Run(u, es).claimed == u.claimed)
    decreases |es|
  {
    if es != [] {
      ClaimedAtMostOnce(Step(u, es[0]), es[1..]);
    }
  }

  // The local finalisation happens at most once for each time the cleanup timer was armed.
  lemma {:induction false} FinalizedAtMostOnce(u: Ue, es: seq<Event>)
    requires u.started
    ensures Run(u, es).finalized <= u.finalized + if u.cleanup.active then 1 else 0
    decreases |es|
  {
    if es != [] {
      FinalizedAtMostOnce(Step(u, es[0]), es[1..]);
    }
  }

  // A restored terminal cleanup is ever finalised by its timer exactly when its deadline is still
  // to come: the callback started for an expired deadline finds the timer inactive.
  lemma RestoredCleanupFinalizesExactlyWhen(u: Ue, r: Saved)
    requires !u.started && r.terminal
    ensures var (t, callback) := Restore(u, r);
            && (callback.Some? <==> r.cleanup != Future)
            && (callback.Some? ==> callback.value.0 == Cleanup && Fire(t, Cleanup, callback.value.1) == t)
            && ((exists g :: CleanupTimeout(t, g).finalized > t.finalized) <==> r.cleanup == Future)
  {
    var (t, callback) := Restore(u, r);
    if r.cleanup == Future {
      assert CleanupTimeout(t, t.cleanup.generation).finalized > t.finalized;
    }
  }

  // The other two restored states fire their callback when the deadline has passed.
  lemma RestoredDeadlinesFire(u: Ue, r: Saved)
    requires !u.started && !r.terminal && u.emm == Registered && u.idle
    ensures var (t, callback) := Restore(u, r);
            callback.Some? ==> Fire(t, callback.value.0, callback.value.1) != t
  {}
}
