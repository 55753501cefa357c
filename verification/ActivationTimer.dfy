/**
 * T3485 for network-initiated dedicated bearer activation, section 6.4.2 of TS 24.301
 * (internal/s1ap/esm_activation_timer.go). A callback carries the generation it was armed
 * with; every start, stop and live expiry moves the bearer to a new generation.
 */
module ActivationTimer {
  import opened Common

  const MAX_RETRANSMITS: nat := 4

  type Payload = seq<Octet>

  datatype Timer = Timer(active: bool, generation: nat, retries: nat, timedOut: bool, payload: Payload)

  const Fresh: Timer := Timer(false, 0, 0, false, [])

  // What one expiry callback makes the MME do.
  datatype Reaction = Ignored | Retransmit(payload: Payload) | WaitForAccess | GiveUp

  // startDedicatedT3485, reached only after the E-RAB Setup carrying `payload` was sent.
  // `answered` is NASAccepted or NASRejected of the bearer.
  function Start(t: Timer, answered: bool, payload: Payload): Timer {
    if payload == [] || answered || t.active then t
    else Timer(true, t.generation + 1, 0, false, payload)
  }

  // stopDedicatedT3485Locked.
  function Stop(t: Timer): Timer {
    t.(active := false, generation := t.generation + 1)
  }

  predicate Live(t: Timer, answered: bool, generation: nat) {
    t.active && t.generation == generation && !answered
  }

  // onDedicatedT3485Expiry up to its first unlock.
  function Expire(t: Timer, answered: bool, generation: nat, s1Active: bool): (Timer, Reaction) {
    if !Live(t, answered, generation) then (t, Ignored)
    else if t.retries >= MAX_RETRANSMITS then
      (t.(active := false, generation := t.generation + 1, timedOut := true), GiveUp)
    else
      (t.(retries := t.retries + 1, generation := t.generation + 1),
       if s1Active then Retransmit(t.payload) else WaitForAccess)
  }

  // Everything that happens to one bearer's timer after it was started.
  datatype Event = Expiry(generation: nat, s1Active: bool) | Answer | Restart(payload: Payload)

  datatype Run = Run(timer: Timer, answered: bool, sent: seq<Payload>, expiries: nat, gaveUp: bool)

  function Step(r: Run, e: Event): Run {
    match e
    case Expiry(g, s1) =>
      var (t, reaction) := Expire(r.timer, r.answered, g, s1);
      match reaction {
        case Ignored => r
        case Retransmit(p) => r.(timer := t, sent := r.sent + [p], expiries := r.expiries + 1)
        case WaitForAccess => r.(timer := t, expiries := r.expiries + 1)
        // The bearer is marked NASRejected in the same locked region.
        case GiveUp => r.(timer := t, answered := true, expiries := r.expiries + 1, gaveUp := true)
      }
    case Answer => r.(timer := Stop(r.timer), answered := true)
    case Restart(p) => r.(timer := Start(r.timer, r.answered, p))
  }

  function Steps(r: Run, es: seq<Event>): Run
    decreases |es|
  {
    if es == [] then r else Steps(Step(r, es[0]), es[1..])
  }

  function Started(before: Timer, payload: Payload): Run {
    Run(Start(before, false, payload), false, [], 0, false)
  }

  // While unanswered the timer is armed and has counted every live expiry. Each retransmission
  // repeats the payload of the start. Giving up is the fifth live expiry and answers the bearer.
  ghost predicate Bounded(r: Run, payload: Payload) {
    && (!r.answered ==> r.timer.active && !r.gaveUp && r.expiries == r.timer.retries <= MAX_RETRANSMITS)
    && r.timer.payload == payload
    && |r.sent| <= r.timer.retries <= MAX_RETRANSMITS
    && (forall i :: 0 <= i < |r.sent| ==> r.sent[i] == payload)
    && (r.gaveUp ==> r.answered && r.expiries == MAX_RETRANSMITS + 1)
    && r.expiries <= MAX_RETRANSMITS + 1
  }

  lemma {:induction false} RetransmissionsAreBounded(r: Run, es: seq<Event>, payload: Payload)
    requires Bounded(r, payload) && payload != []
    ensures Bounded(Steps(r, es), payload)
    ensures r.timer.generation <= Steps(r, es).timer.generation
    decreases |es|
  {
    if es != [] {
      RetransmissionsAreBounded(Step(r, es[0]), es[1..], payload);
    }
  }

  // At most four retransmissions, all of the payload that was started, over any run of
  // expiries (stale or live, with or without S1), answers and restart attempts.
  lemma AtMostFourRetransmissions(before: Timer, payload: Payload, es: seq<Event>)
    requires !before.active && payload != []
    ensures var r := Steps(Started(before, payload), es);
            && |r.sent| <= MAX_RETRANSMITS
            && (forall i :: 0 <= i < |r.sent| ==> r.sent[i] == payload)
            && (r.gaveUp ==> r.expiries == MAX_RETRANSMITS + 1)
  {
    RetransmissionsAreBounded(Started(before, payload), es, payload);
  }

  // The fifth live expiry is the one that gives up, whatever S1 did at the first four, and
  // each live expiry before it strictly decreases 4 - retries.
  lemma LiveExpiryProgress(r: Run, payload: Payload, s1Active: bool)
    requires Bounded(r, payload) && !r.answered
    ensures var r' := Step(r, Expiry(r.timer.generation, s1Active));
            && r'.timer.generation > r.timer.generation
            && (if r.expiries < MAX_RETRANSMITS
                then !r'.answered && MAX_RETRANSMITS - r'.timer.retries < MAX_RETRANSMITS - r.timer.retries
                else r'.answered && r'.gaveUp && !r'.timer.active)
  {}

  // Five live expiries end the bearer as rejected even if S1 never comes back.
  lemma {:induction false} FiveLiveExpiriesGiveUp(r: Run, payload: Payload, s1: seq<bool>)
    requires Bounded(r, payload) && !r.answered
    requires |s1| == MAX_RETRANSMITS + 1 - r.expiries
    ensures LiveExpiries(r, s1).gaveUp
    decreases |s1|
  {
    if |s1| > 1 {
      var r' := Step(r, Expiry(r.timer.generation, s1[0]));
      FiveLiveExpiriesGiveUp(r', payload, s1[1..]);
    }
  }

  function LiveExpiries(r: Run, s1: seq<bool>): Run
    decreases |s1|
  {
    if s1 == [] then r
    else LiveExpiries(Step(r, Expiry(r.timer.generation, s1[0])), s1[1..])
  }

  // A callback of an older generation, or one that arrives after the answer, changes nothing, for ever.
  lemma {:induction false} StaleCallbackIsNoOp(r: Run, es: seq<Event>, g: nat, s1Active: bool)
    requires g < r.timer.generation || r.answered
    ensures var r' := Steps(r, es);
            Step(r', Expiry(g, s1Active)) == r'
    decreases |es|
  {
    if es != [] {
      StaleCallbackIsNoOp(Step(r, es[0]), es[1..], g, s1Active);
    }
  }

  // How many of the expiries find S1 up.
  function UpTimes(s1: seq<bool>): nat {
    if s1 == [] then 0 else (if s1[0] then 1 else 0) + UpTimes(s1[1..])
  }

  // Every one of the first four live expiries retransmits what was started if S1 is up then, and waits
  // for access if it is not. The fifth marks the bearer as timed out, sends nothing and stops the timer.
  lemma {:induction false} LiveExpiriesRetransmit(r: Run, payload: Payload, s1: seq<bool>)
    requires Bounded(r, payload) && payload != [] && !r.answered && |s1| <= MAX_RETRANSMITS + 1 - r.expiries
    ensures var t := LiveExpiries(r, s1);
            && t.expiries == r.expiries + |s1|
            && (t.expiries <= 4 ==> !t.answered && t.timer.active && |t.sent| == |r.sent| + UpTimes(s1)
                                    && t.timer.timedOut == r.timer.timedOut)
            && (t.expiries == 5 ==> t.gaveUp && t.answered && t.timer.timedOut && !t.timer.active
                                    && |t.sent| == |r.sent| + UpTimes(s1[..|s1| - 1]))
            && t.sent[..|r.sent|] == r.sent
    decreases |s1|
  {
    if s1 != [] {
      var u := Step(r, Expiry(r.timer.generation, s1[0]));
      if |s1| == 1 {
        assert s1[1..] == [] && LiveExpiries(u, []) == u && s1[..0] == [];
      } else {
        LiveExpiryProgress(r, payload, s1[0]);
        RetransmissionsAreBounded(r, [Expiry(r.timer.generation, s1[0])], payload);
        assert [Expiry(r.timer.generation, s1[0])][1..] == [];
        assert Steps(r, [Expiry(r.timer.generation, s1[0])]) == Steps(u, []) == u;
        LiveExpiriesRetransmit(u, payload, s1[1..]);
        assert s1[..|s1| - 1][1..] == s1[1..][..|s1| - 2];
      }
    }
  }

  // A started timer is armed under a new generation, with no expiry counted; a running one, and one of
  // a bearer that was answered, is left as it is. An answer stops it for good.
  lemma StartAndAnswer(t: Timer, answered: bool, payload: Payload, r: Run, s1Active: bool, generation: nat)
    ensures var u := Start(t, answered, payload);
            if payload != [] && !answered && !t.active
            then u.active && u.generation > t.generation && u.retries == 0 && !u.timedOut && u.payload == payload
            else u == t
    ensures var u := Step(r, Answer);
            && u.answered && !u.timer.active && u.timer.generation > r.timer.generation && u.sent == r.sent
            && u.timer.timedOut == r.timer.timedOut && u.timer.retries == r.timer.retries && u.timer.payload == r.timer.payload
            && Step(u, Expiry(generation, s1Active)) == u && forall p :: Step(u, Restart(p)) == u
  {}
}
