/**
 * The Modify Bearer Request that opens the user plane of a default bearer, once the UE has
 * accepted it and the eNB has established it (internal/s1ap/attach.go:1078-1152,
 * erab_setup.go:989-1321, nas.go:919-1013). Accepts, E-RAB results, linked Create Bearers,
 * answers, a fallback timer and two retries race for it.
 */
module DefaultBearer {
  import opened Common
  import M = BearerMachine

  // PDNContext.State, as far as these regions test it.
  datatype Phase = Activating | AccessEstablished | ModifyPending | Active | ModifyFailed | SetupFailed

  const MAX_RETRIES: nat := 2

  // `routed` says that the S-GW's and the eNB's endpoints are known. `sends` counts the Modify
  // Bearer Requests of this activation, `everUp` remembers that the E-RAB was up once. SendMBR runs
  // unlocked; `calls` and `fallbackCalls` count those under way.
  datatype Bearer = Bearer(
    nasAccepted: bool, established: bool, routed: bool,
    sent: bool, accepted: bool, failed: bool, deferred: bool, fallbackSent: bool, retries: nat, phase: Phase,
    sends: nat, everUp: bool, calls: nat, fallbackCalls: nat)

  const Fresh: Bearer :=
    Bearer(false, false, false, false, false, false, false, false, 0, Activating, 0, false, 0, 0)

  // ---------------------------------------------------------------- the locked regions

  // handleStandaloneBearerAccept.
  function NasAccept(b: Bearer): Bearer {
    b.(nasAccepted := true,
       phase := if b.established && b.accepted then Active
                else if b.established && !b.sent then AccessEstablished else b.phase)
  }

  // completeIMSDefaultERABSetupForBearer.
  function ErabResult(b: Bearer, success: bool, routed: bool): Bearer {
    if !success then b.(established := false, phase := SetupFailed)
    else b.(established := true, everUp := true, routed := routed,
            phase := if b.accepted then Active else AccessEstablished)
  }

  // maybeAdvanceDefaultBearer; the flag says that sendIMSModifyBearerNow is called next.
  function Advance(b: Bearer, pendingCreate: bool): (Bearer, bool) {
    var both := b.nasAccepted && b.established;
    if both && b.accepted then (b.(phase := Active), false)
    else if b.failed then (b.(phase := ModifyFailed), false)
    else if pendingCreate then
      (if both && !b.sent then b.(deferred := true, phase := AccessEstablished) else b, false)
    else if !both || b.sent then
      // Both and sent, neither accepted nor failed: the answer is still outstanding.
      (if both then b.(phase := ModifyPending) else b, false)
    else (b.(deferred := false, phase := AccessEstablished), true)
  }

  predicate Sendable(b: Bearer) {
    b.nasAccepted && b.established && !b.sent && !b.accepted && !b.failed
  }

  // sendIMSModifyBearerNow up to SendMBR, also called by the settle timer.
  function SendNow(b: Bearer): Bearer {
    if !Sendable(b) then b
    else b.(deferred := false, sent := true, phase := ModifyPending, sends := b.sends + 1, calls := b.calls + 1)
  }

  // The rest of it once SendMBR has returned, whatever became of the PDN.
  function SendEnds(b: Bearer, ok: bool): Bearer {
    if b.calls == 0 then b
    else if ok then b.(calls := b.calls - 1)
    else b.(calls := b.calls - 1, deferred := false, sent := false, failed := true, phase := ModifyFailed)
  }

  // tryStartInitialAccessModifyBearer.
  function InitialAccess(b: Bearer, activeS1: bool): Bearer {
    if !b.nasAccepted || !b.established || !b.routed || !activeS1 || b.sent || b.accepted || b.failed then b
    else b.(sent := true, phase := ModifyPending, sends := b.sends + 1)
  }

  // onIMSModifyBearerTimeout up to the fallback's SendMBR, and its failure.
  function Timeout(b: Bearer): Bearer {
    if !b.sent || b.accepted || b.failed || b.phase != ModifyPending then b
    else if !b.fallbackSent && b.routed then
      b.(fallbackSent := true, sends := b.sends + 1, fallbackCalls := b.fallbackCalls + 1)
    else b.(failed := true, phase := ModifyFailed)
  }

  function FallbackEnds(b: Bearer, ok: bool): Bearer {
    if b.fallbackCalls == 0 then b
    else
      var b1 := b.(fallbackCalls := b.fallbackCalls - 1);
      if !ok && b.phase == ModifyPending then b1.(failed := true, phase := ModifyFailed) else b1
  }

  datatype Answer = Accept | Reject(cause: Octet) | Error

  // HandleMBRResult for this PDN.
  function Result(b: Bearer, a: Answer, pendingCreate: bool): Bearer {
    if b.phase != ModifyPending then b
    else if a == Reject(M.REQUEST_REJECTED) && b.nasAccepted && b.established && b.retries < MAX_RETRIES && !pendingCreate
    then b.(retries := b.retries + 1, sent := false, deferred := true, phase := AccessEstablished)
    else if a.Accept? then
      b.(accepted := true, failed := false, deferred := false, fallbackSent := false,
         phase := if b.nasAccepted && b.established then Active else AccessEstablished)
    else b.(accepted := false, failed := true, deferred := false, fallbackSent := false, phase := ModifyFailed)
  }

  // ---------------------------------------------------------------- the PDN context

  class Pdn {
    var nasAccepted: bool
    var established: bool
    var routed: bool
    var sent: bool
    var accepted: bool
    var failed: bool
    var deferred: bool
    var fallbackSent: bool
    var retries: nat
    var phase: Phase
    ghost var sends: nat
    ghost var everUp: bool
    ghost var calls: nat
    ghost var fallbackCalls: nat

    ghost function View(): Bearer
      reads this
    {
      Bearer(nasAccepted, established, routed, sent, accepted, failed, deferred, fallbackSent, retries, phase, sends, everUp,
             calls, fallbackCalls)
    }

    // The class invariant: every request sent for this activation is accounted for, and there are
    // at most four.
    ghost predicate Valid()
      reads this
    {
      Accounted(View())
    }

    constructor ()
      ensures Valid() && View() == Fresh
    {
      nasAccepted, established, routed, sent, accepted, failed := false, false, false, false, false, false;
      deferred, fallbackSent, retries, phase, sends, everUp := false, false, 0, Activating, 0, false;
      calls, fallbackCalls := 0, 0;
    }

    // The caller is told to send exactly when a request can be sent and no linked Create is pending.
    method AdvanceDefault(pendingCreate: bool) returns (send: bool)
      requires Valid()
      modifies this
      ensures (View(), send) == Advance(old(View()), pendingCreate)
      ensures Valid() && Continues(old(View()), View()) && sends == old(sends)
      ensures send <==> Sendable(old(View())) && !pendingCreate
      ensures send ==> Sendable(View())
    {
      AccessContinues(View(), false, false, pendingCreate);
      send := false;
      if nasAccepted && established && accepted {
        phase := Active;
        return;
      }
      if failed {
        phase := ModifyFailed;
        return;
      }
      if pendingCreate {
        if nasAccepted && established && !sent {
          deferred := true;
          phase := AccessEstablished;
        }
        return;
      }
      if !nasAccepted || !established || sent {
        if nasAccepted && established { phase := ModifyPending; }
        return;
      }
      deferred := false;
      phase := AccessEstablished;
      send := true;
    }

    // sendIMSModifyBearerNow up to SendMBR, which is called exactly when the result says so.
    method SendModifyBearer() returns (call: bool)
      requires Valid()
      modifies this
      ensures View() == SendNow(old(View()))
      ensures Valid() && Continues(old(View()), View()) && !Sendable(View())
      ensures call <==> Sendable(old(View()))
      ensures sends == old(sends) + if call then 1 else 0
    {
      hide Accounted;
      SendingContinues(View(), false);
      call := nasAccepted && established && !sent && !accepted && !failed;
      if !call { return; }
      deferred, sent := false, true;
      phase := ModifyPending;
      sends, calls := sends + 1, calls + 1;
    }

    // Its second region. A failure is recorded whatever became of the PDN in the meantime.
    method EndSend(ok: bool)
      requires Valid() && calls > 0
      modifies this
      ensures View() == SendEnds(old(View()), ok)
      ensures Valid() && Continues(old(View()), View()) && sends == old(sends)
      ensures !ok ==> failed && !Sendable(View())
    {
      calls := calls - 1;
      if !ok {
        deferred, sent, failed := false, false, true;
        phase := ModifyFailed;
      }
    }

    // The fallback is sent at most once between two answers; the next timeout ends the activation.
    method OnTimeout() returns (call: bool)
      requires Valid()
      modifies this
      ensures View() == Timeout(old(View()))
      ensures Valid() && Continues(old(View()), View()) && sends == old(sends) + if call then 1 else 0
      ensures call ==> fallbackSent && !old(fallbackSent)
      ensures View() != old(View()) ==> failed || call
    {
      hide Accounted;
      TimeoutContinues(View(), false);
      call := false;
      if !sent || accepted || failed || phase != ModifyPending { return; }
      if !fallbackSent && routed {
        fallbackSent, call := true, true;
        sends, fallbackCalls := sends + 1, fallbackCalls + 1;
        return;
      }
      failed := true;
      phase := ModifyFailed;
    }

    // Its second region: a failure counts only if the PDN still waits.
    method EndFallback(ok: bool)
      requires Valid() && fallbackCalls > 0
      modifies this
      ensures View() == FallbackEnds(old(View()), ok)
      ensures Valid() && Continues(old(View()), View()) && sends == old(sends)
      ensures failed != old(failed) <==> !ok && old(phase) == ModifyPending
    {
      TimeoutContinues(View(), ok);
      fallbackCalls := fallbackCalls - 1;
      if !ok && phase == ModifyPending {
        failed := true;
        phase := ModifyFailed;
      }
    }

    // An answer counts exactly while the PDN says that it waits for one; it never sends.
    method HandleResult(a: Answer, pendingCreate: bool)
      requires Valid()
      modifies this
      ensures View() == Result(old(View()), a, pendingCreate)
      ensures Valid() && Continues(old(View()), View()) && sends == old(sends)
      ensures View() != old(View()) <==> old(phase) == ModifyPending
    {
      ResultContinues(View(), a, pendingCreate);
      if phase != ModifyPending { return; }
      if a.Reject? && a.cause == M.REQUEST_REJECTED && nasAccepted && established
         && retries < MAX_RETRIES && !pendingCreate {
        retries := retries + 1;
        sent, deferred := false, true;
        phase := AccessEstablished;
        return;
      }
      deferred, fallbackSent := false, false;
      if !a.Accept? {
        accepted, failed := false, true;
        phase := ModifyFailed;
        return;
      }
      accepted, failed := true, false;
      phase := if nasAccepted && established then Active else AccessEstablished;
    }
  }

  // ---------------------------------------------------------------- runs

  datatype Event = NasAccepts | ErabAnswers(success: bool, routed: bool) | Advances(pendingCreate: bool)
                 | Sends | SendReturns(ok: bool) | Starts(activeS1: bool) | TimesOut | FallbackReturns(ok: bool)
                 | Answers(a: Answer, pendingCreate: bool)

  function Step(b: Bearer, e: Event): Bearer {
    match e
    case NasAccepts => NasAccept(b)
    case ErabAnswers(ok, routed) => ErabResult(b, ok, routed)
    case Advances(p) => Advance(b, p).0
    case Sends => SendNow(b)
    case SendReturns(ok) => SendEnds(b, ok)
    case Starts(s1) => InitialAccess(b, s1)
    case TimesOut => Timeout(b)
    case FallbackReturns(ok) => FallbackEnds(b, ok)
    case Answers(a, p) => Result(b, a, p)
  }

  function Run(b: Bearer, es: seq<Event>): Bearer
    decreases |es|
  {
    if es == [] then b else Run(Step(b, es[0]), es[1..])
  }

  function Bit(b: bool): nat {
    if b then 1 else 0
  }

  // Every request is accounted for: the one outstanding, each retry that replaced one, the fallback.
  ghost predicate Accounted(b: Bearer) {
    && b.retries <= MAX_RETRIES
    && (if b.accepted || b.failed then b.sends <= MAX_RETRIES + 2
        else b.sends == b.retries + Bit(b.sent) + Bit(b.fallbackSent))
    && (b.phase == ModifyPending ==> b.sent && !b.accepted && !b.failed)
    && (b.sends > 0 ==> b.nasAccepted && b.everUp)
    && (b.established ==> b.everUp)
  }

  // Still accounted for, and nothing was sent after the end.
  ghost predicate Continues(b: Bearer, t: Bearer) {
    Accounted(t) && (b.accepted || b.failed ==> (t.accepted || t.failed) && t.sends == b.sends)
  }

  lemma AccessContinues(b: Bearer, ok: bool, routed: bool, pendingCreate: bool)
    requires Accounted(b)
    ensures Continues(b, NasAccept(b)) && Continues(b, ErabResult(b, ok, routed))
    ensures Continues(b, Advance(b, pendingCreate).0)
  {}

  lemma SendEndContinues(b: Bearer, ok: bool)
    requires Accounted(b)
    ensures Continues(b, SendEnds(b, ok))
  {}

  lemma SendingContinues(b: Bearer, s1: bool)
    requires Accounted(b)
    ensures Continues(b, SendNow(b)) && Continues(b, InitialAccess(b, s1))
  {}

  lemma TimeoutContinues(b: Bearer, ok: bool)
    requires Accounted(b)
    ensures Continues(b, Timeout(b)) && Continues(b, FallbackEnds(b, ok))
  {}

  lemma ResultContinues(b: Bearer, a: Answer, pendingCreate: bool)
    requires Accounted(b)
    ensures Continues(b, Result(b, a, pendingCreate))
  {}

  lemma StepContinues(b: Bearer, e: Event)
    requires Accounted(b)
    ensures Continues(b, Step(b, e))
  {
    hide NasAccept, ErabResult, Advance, SendNow, SendEnds, InitialAccess, Timeout, FallbackEnds, Result, Accounted, Continues;
    match e
    case NasAccepts => AccessContinues(b, false, false, false);
    case ErabAnswers(ok, routed) => AccessContinues(b, ok, routed, false);
    case Advances(p) => AccessContinues(b, false, false, p);
    case Sends => SendingContinues(b, false);
    case SendReturns(ok) => SendEndContinues(b, ok);
    case Starts(s1) => SendingContinues(b, s1);
    case TimesOut => TimeoutContinues(b, false);
    case FallbackReturns(ok) => TimeoutContinues(b, ok);
    case Answers(a, p) => ResultContinues(b, a, p);
  }

  lemma {:induction false} StaysAccounted(b: Bearer, es: seq<Event>)
    requires Accounted(b)
    ensures Accounted(Run(b, es))
    decreases |es|
  {
    hide Step;
    if es != [] {
      StepContinues(b, es[0]);
      StaysAccounted(Step(b, es[0]), es[1..]);
    }
  }

  // At most four Modify Bearer Requests per activation, and none before the UE accepted and the
  // eNB established the bearer, whatever the order and duplication of everything else.
  lemma AtMostFourRequests(es: seq<Event>)
    ensures var b := Run(Fresh, es);
            b.sends <= MAX_RETRIES + 2 && (b.sends > 0 ==> b.nasAccepted && b.everUp)
  {
    hide Run, Accounted;
    FreshIsAccounted();
    StaysAccounted(Fresh, es);
    AccountedIsBounded(Run(Fresh, es));
  }

  lemma FreshIsAccounted()
    ensures Accounted(Fresh)
  {}

  lemma AccountedIsBounded(b: Bearer)
    requires Accounted(b)
    ensures b.sends <= MAX_RETRIES + 2 && (b.sends > 0 ==> b.nasAccepted && b.everUp)
  {}

  // Once accepted or failed, nothing is sent any more.
  lemma NoneAfterTheEnd(before: seq<Event>, after: seq<Event>)
    requires Run(Fresh, before).accepted || Run(Fresh, before).failed
    ensures Run(Fresh, before + after).sends == Run(Fresh, before).sends
    ensures Run(Fresh, before + after).accepted || Run(Fresh, before + after).failed
  {
    hide Step, Run, Accounted;
    FreshIsAccounted();
    StaysAccounted(Fresh, before);
    EndStaysEnd(Run(Fresh, before), after);
    RunsCompose(Fresh, before, after);
  }

  lemma {:induction false} EndStaysEnd(b: Bearer, es: seq<Event>)
    requires Accounted(b) && (b.accepted || b.failed)
    ensures (Run(b, es).accepted || Run(b, es).failed) && Run(b, es).sends == b.sends
    decreases |es|
  {
    hide Step;
    if es != [] {
      StepContinues(b, es[0]);
      EndStaysEnd(Step(b, es[0]), es[1..]);
    }
  }

  lemma {:induction false} RunsCompose(b: Bearer, es: seq<Event>, fs: seq<Event>)
    ensures Run(b, es + fs) == Run(Run(b, es), fs)
    decreases |es|
  {
    hide Step;
    if es == [] {
      assert es + fs == fs;
    } else {
      assert (es + fs)[0] == es[0] && (es + fs)[1..] == es[1..] + fs;
      RunsCompose(Step(b, es[0]), es[1..], fs);
    }
  }

  // The bound is reached: a first request, its fallback, and two retries.
  lemma FourRequestsHappen()
    ensures var reject := Reject(M.REQUEST_REJECTED);
            var first := SendNow(ErabResult(NasAccept(Fresh), true, true));
            var retry := SendNow(Result(Timeout(first), reject, false));
            SendNow(Result(retry, reject, false)).sends == 4
  {}

  // ---------------------------------------------------------------- any order, any duplication

  // The handlers of accepts, E-RAB results and ended Creates, each of which goes on to
  // maybeAdvanceDefaultBearer, and from there to sendIMSModifyBearerNow if it is told to.
  // `advances` and `toSend` are those that have not come that far yet.
  datatype World = World(b: Bearer, advances: nat, toSend: nat)

  datatype Region = Accepts | Up(routed: bool) | SetupFails | CreateEnds | Advancing(pendingCreate: bool)
                  | Sending | Settled | Initial(activeS1: bool) | Returned

  function Next(w: World, r: Region): World {
    match r
    case Accepts => World(NasAccept(w.b), w.advances + 1, w.toSend)
    case Up(routed) => World(ErabResult(w.b, true, routed), w.advances + 1, w.toSend)
    case SetupFails => w.(b := ErabResult(w.b, false, false))
    case CreateEnds => w.(advances := w.advances + 1)
    case Advancing(p) =>
      if w.advances == 0 then w
      else
        var (b, send) := Advance(w.b, p);
        World(b, w.advances - 1, if send then w.toSend + 1 else w.toSend)
    case Sending => if w.toSend == 0 then w else World(SendNow(w.b), w.advances, w.toSend - 1)
    // The settle timer, and the start of the initial access.
    case Settled => w.(b := SendNow(w.b))
    case Initial(s1) => w.(b := InitialAccess(w.b, s1))
    case Returned => w.(b := SendEnds(w.b, true))
  }

  function Regions(w: World, rs: seq<Region>): World
    decreases |rs|
  {
    if rs == [] then w else Regions(Next(w, rs[0]), rs[1..])
  }

  // No request was sent twice, and whoever has seen both sides will still advance or send, unless
  // the request waits for a linked Create.
  ghost predicate Progressing(w: World) {
    var b := w.b;
    && b.sends == Bit(b.sent) && !b.accepted && !b.failed
    && (b.sent ==> b.nasAccepted && b.everUp) && (b.established ==> b.everUp)
    && (b.nasAccepted && b.established && !b.sent && !b.deferred ==> w.advances > 0 || w.toSend > 0)
  }

  lemma NextProgresses(w: World, r: Region)
    requires Progressing(w)
    ensures Progressing(Next(w, r)) && (w.b.nasAccepted ==> Next(w, r).b.nasAccepted)
  {}

  lemma {:induction false} KeepsProgressing(w: World, rs: seq<Region>)
    requires Progressing(w)
    ensures Progressing(Regions(w, rs))
    decreases |rs|
  {
    hide Next, Progressing;
    if rs != [] {
      NextProgresses(w, rs[0]);
      KeepsProgressing(Next(w, rs[0]), rs[1..]);
    }
  }

  // However the regions of any number of accepts, E-RAB results and ended Creates interleave, at
  // most one request is sent, and only after both sides were seen. When no handler is under way
  // any more it has been sent, or one side is missing, or it waits for a linked Create.
  lemma ExactlyOneRequest(rs: seq<Region>)
    ensures var w := Regions(World(Fresh, 0, 0), rs);
            && w.b.sends <= 1 && (w.b.sends == 1 ==> w.b.nasAccepted && w.b.everUp)
            && (w.advances == 0 && w.toSend == 0 && !w.b.deferred ==>
                  (w.b.nasAccepted && w.b.established ==> w.b.sends == 1))
  {
    KeepsProgressing(World(Fresh, 0, 0), rs);
  }

  // A request that was held back for a linked Create is sent once the Create has ended; the settle
  // timer and the start of the initial access send one as well, if both sides were seen.
  lemma HeldBackIsSent(w: World)
    requires Progressing(w) && w.b.nasAccepted && w.b.established && !w.b.sent
    ensures var t := Regions(w, [CreateEnds, Advancing(false), Sending]);
            t.b.sends == 1 && t.b.phase == ModifyPending && !t.b.deferred && t.advances == w.advances && t.toSend == w.toSend
    ensures Next(w, Settled).b.sends == 1 && Next(w, Settled).b.phase == ModifyPending
    ensures Next(w, Initial(true)).b.sends == Bit(w.b.routed) && Next(w, Initial(false)) == w
  {
    hide Regions;
    var a := Next(w, CreateEnds);
    var b := Next(a, Advancing(false));
    ThreeRegions(w, CreateEnds, Advancing(false), Sending);
    assert Next(b, Sending).b.sends == 1;
  }

  // The other regions: a handler goes on to send exactly when a request is due and nothing holds it back;
  // a failed setup takes the E-RAB away, and a call that returns is no longer under way.
  lemma HandlersMeaning(w: World, routed: bool, pendingCreate: bool)
    ensures var t := Next(w, Advancing(pendingCreate));
            w.advances > 0 ==>
              t.advances == w.advances - 1 && t.toSend == w.toSend + Bit(Sendable(w.b) && !pendingCreate)
    ensures var t := Next(w, Up(routed));
            t.b.established && t.b.everUp && t.b.routed == routed && t.advances == w.advances + 1 && t.toSend == w.toSend
    ensures var t := Next(w, Accepts);
            t.b.nasAccepted && t.b.established == w.b.established && t.advances == w.advances + 1 && t.toSend == w.toSend
    ensures var t := Next(w, SetupFails);
            !t.b.established && t.b.phase == SetupFailed && t.advances == w.advances && t.toSend == w.toSend
    ensures var t := Next(w, Returned);
            t.b.calls == (if w.b.calls > 0 then w.b.calls - 1 else 0) && t.b.sends == w.b.sends && t.b.sent == w.b.sent
  {}

  lemma ThreeRegions(w: World, p: Region, q: Region, r: Region)
    ensures Regions(w, [p, q, r]) == Next(Next(Next(w, p), q), r)
  {
    hide Next;
    assert [p, q, r][1..] == [q, r] && [q, r][1..] == [r] && [r][1..] == [];
    assert Regions(Next(Next(w, p), q), [r]) == Regions(Next(Next(Next(w, p), q), r), []);
    assert Regions(Next(w, p), [q, r]) == Regions(Next(Next(w, p), q), [r]);
  }

  // ---------------------------------------------------------------- what the phase tells

  // The phase a PDN shows is true of it: active means accepted on all three sides, and so on.
  ghost predicate Truthful(b: Bearer) {
    && (b.accepted ==> b.nasAccepted)
    && match b.phase
       case Activating => !b.established && b.sends == 0
       case AccessEstablished => b.established
       case ModifyPending => b.nasAccepted && b.established && b.sent && !b.accepted && !b.failed
       case Active => b.nasAccepted && b.established && b.accepted
       case ModifyFailed => b.failed
       case SetupFailed => !b.established
  }

  lemma AccessKeepsTruthful(b: Bearer, ok: bool, routed: bool, pendingCreate: bool)
    requires Accounted(b) && Truthful(b)
    ensures Truthful(NasAccept(b)) && Truthful(ErabResult(b, ok, routed)) && Truthful(Advance(b, pendingCreate).0)
  {}

  lemma SendingKeepsTruthful(b: Bearer, ok: bool)
    requires Accounted(b) && Truthful(b)
    ensures Truthful(SendNow(b)) && Truthful(SendEnds(b, ok)) && Truthful(InitialAccess(b, ok))
  {}

  lemma WaitingKeepsTruthful(b: Bearer, ok: bool, a: Answer)
    requires Accounted(b) && Truthful(b)
    ensures Truthful(Timeout(b)) && Truthful(FallbackEnds(b, ok)) && Truthful(Result(b, a, ok))
  {}

  lemma StepKeepsTruthful(b: Bearer, e: Event)
    requires Accounted(b) && Truthful(b)
    ensures Truthful(Step(b, e))
  {
    hide NasAccept, ErabResult, Advance, SendNow, SendEnds, InitialAccess, Timeout, FallbackEnds, Result, Accounted, Truthful;
    match e
    case NasAccepts => AccessKeepsTruthful(b, false, false, false);
    case ErabAnswers(ok, routed) => AccessKeepsTruthful(b, ok, routed, false);
    case Advances(p) => AccessKeepsTruthful(b, false, false, p);
    case Sends => SendingKeepsTruthful(b, false);
    case SendReturns(ok) => SendingKeepsTruthful(b, ok);
    case Starts(s1) => SendingKeepsTruthful(b, s1);
    case TimesOut => WaitingKeepsTruthful(b, false, Error);
    case FallbackReturns(ok) => WaitingKeepsTruthful(b, ok, Error);
    case Answers(a, p) => WaitingKeepsTruthful(b, p, a);
  }

  lemma FreshIsTruthful()
    ensures Truthful(Fresh)
  {}

  lemma StepStaysAccounted(b: Bearer, e: Event)
    requires Continues(b, Step(b, e))
    ensures Accounted(Step(b, e))
  {
    hide Step, Accounted;
  }

  lemma {:induction false} RunKeepsTruthful(b: Bearer, es: seq<Event>)
    requires Accounted(b) && Truthful(b)
    ensures Truthful(Run(b, es))
    decreases |es|
  {
    hide Step, Truthful, Accounted;
    if es != [] {
      StepContinues(b, es[0]);
      StepStaysAccounted(b, es[0]);
      StepKeepsTruthful(b, es[0]);
      RunKeepsTruthful(Step(b, es[0]), es[1..]);
    }
  }

  // Whatever the order and duplication of the events, the phase is true.
  lemma PhaseIsTrue(es: seq<Event>)
    ensures Truthful(Run(Fresh, es))
  {
    hide Run, Accounted, Truthful;
    FreshIsAccounted();
    FreshIsTruthful();
    RunKeepsTruthful(Fresh, es);
  }

  // ---------------------------------------------------------------- what opens and closes the user plane

  // The answer the PDN waits for: an acceptance opens the user plane, a reject with 94 makes the
  // request due again up to two times unless a linked Create is pending, and everything else ends
  // the activation. The fallback is available again after an answer that is no retry.
  lemma AnswerMeaning(b: Bearer, a: Answer, pendingCreate: bool)
    requires Accounted(b) && Truthful(b) && b.phase == ModifyPending
    ensures var t := Result(b, a, pendingCreate);
            var retry := a == Reject(94) && b.retries < 2 && !pendingCreate;
            && (t.phase == Active <==> a.Accept?) && (t.accepted <==> a.Accept?)
            && (t.phase == ModifyFailed <==> !a.Accept? && !retry) && (t.failed <==> !a.Accept? && !retry)
            && (Sendable(t) <==> retry) && (t.deferred <==> retry) && (t.phase == AccessEstablished <==> retry)
            && t.retries == b.retries + Bit(retry) && (t.sent <==> !retry) && (t.fallbackSent <==> retry && b.fallbackSent)
            && t == b.(sent := t.sent, accepted := t.accepted, failed := t.failed, deferred := t.deferred,
                       fallbackSent := t.fallbackSent, retries := t.retries, phase := t.phase)
  {}

  // What the UE and the eNB do is recorded, and the phase follows.
  lemma AccessMeaning(b: Bearer, success: bool, routed: bool)
    ensures var t := NasAccept(b);
            t == b.(nasAccepted := true,
                    phase := if b.established && b.accepted then Active
                             else if b.established && !b.sent then AccessEstablished else b.phase)
    ensures var t := ErabResult(b, success, routed);
            && t == b.(established := success, everUp := b.everUp || success, routed := t.routed, phase := t.phase)
            && (success ==> t.routed == routed && t.phase == if b.accepted then Active else AccessEstablished)
            && (!success ==> t.routed == b.routed && t.phase == SetupFailed)
  {}

  // The decision to send: held back for a linked Create, told to send, or left alone; and the phase
  // says what the PDN waits for.
  lemma AdvanceMeaning(b: Bearer, pendingCreate: bool)
    requires Accounted(b) && Truthful(b)
    ensures var (t, send) := Advance(b, pendingCreate);
            var both := b.nasAccepted && b.established;
            && (send <==> Sendable(b) && !pendingCreate)
            && t == b.(deferred := t.deferred, phase := t.phase)
            && (t.deferred <==> if send then false else b.deferred || (Sendable(b) && pendingCreate))
            && (both && b.accepted ==> t.phase == Active)
            && (!(both && b.accepted) && b.failed ==> t.phase == ModifyFailed)
            && (Sendable(b) ==> t.phase == AccessEstablished)
            && (both && Outstanding(b) && !pendingCreate ==> t.phase == ModifyPending)
            && (both && Outstanding(b) && pendingCreate ==> t.phase == b.phase)
            && (!both && !b.failed ==> t == b)
  {}

  // A request goes out exactly when one is due; the first failure of the call that carries it ends the
  // activation. The initial access sends one at once, when S1 is up and both endpoints are known.
  lemma SendingMeaning(b: Bearer, ok: bool, activeS1: bool)
    ensures var t := SendNow(b);
            && (t.sends == b.sends + 1 <==> Sendable(b)) && (!Sendable(b) ==> t == b)
            && (Sendable(b) ==>
                  t.sent && t.phase == ModifyPending && !t.deferred && t.calls == b.calls + 1
                  && t == b.(sent := true, phase := t.phase, deferred := false, sends := t.sends, calls := t.calls))
    ensures var t := SendEnds(b, ok);
            && (b.calls == 0 ==> t == b) && (b.calls > 0 && ok ==> t == b.(calls := b.calls - 1))
            && (b.calls > 0 && !ok ==>
                  t == b.(calls := b.calls - 1, deferred := false, sent := false, failed := true, phase := ModifyFailed))
    ensures var t := InitialAccess(b, activeS1);
            && (t.sends == b.sends + 1 <==> Sendable(b) && b.routed && activeS1)
            && (if Sendable(b) && b.routed && activeS1
                then t == b.(sent := true, phase := ModifyPending, sends := b.sends + 1) else t == b)
  {}

  // Without an answer in time the request is sent once more if the endpoints are known; the second
  // time, or when that fails, the activation ends.
  lemma TimeoutMeaning(b: Bearer, ok: bool)
    requires Accounted(b)
    ensures var t := Timeout(b);
            var waits := b.phase == ModifyPending;
            && (t.sends == b.sends + 1 <==> waits && b.routed && !b.fallbackSent)
            && (waits && b.routed && !b.fallbackSent ==>
                  t == b.(fallbackSent := true, sends := b.sends + 1, fallbackCalls := b.fallbackCalls + 1))
            && (waits && !(b.routed && !b.fallbackSent) ==> t == b.(failed := true, phase := ModifyFailed))
            && (!waits ==> t == b)
    ensures var t := FallbackEnds(b, ok);
            && t.fallbackCalls == (if b.fallbackCalls > 0 then b.fallbackCalls - 1 else 0)
            && (b.fallbackCalls > 0 && !ok && b.phase == ModifyPending ==> t.failed && t.phase == ModifyFailed)
            && (!(b.fallbackCalls > 0 && !ok && b.phase == ModifyPending) ==> t.failed == b.failed && t.phase == b.phase)
            && t == b.(fallbackCalls := t.fallbackCalls, failed := t.failed, phase := t.phase)
  {}

  // An activation that nothing disturbs ends with the user plane open, after one request.
  lemma UndisturbedActivationOpens(routed: bool, pendingCreate: bool)
    ensures var asked := Step(Step(Fresh, NasAccepts), ErabAnswers(true, routed));
            var sent := Step(Step(asked, Advances(false)), Sends);
            var open := Step(Step(sent, SendReturns(true)), Answers(Accept, pendingCreate));
            Sendable(asked) && sent.phase == ModifyPending
            && open.phase == Active && open.accepted && !open.failed && open.sends == 1 && open.calls == 0
  {}

  // ---------------------------------------------------------------- an answer that does not count

  predicate Outstanding(b: Bearer) {
    b.sent && !b.accepted && !b.failed
  }

  // Only an E-RAB result, of either sign, moves a PDN that waits for its answer out of the pending
  // phase with the request outstanding.
  lemma AnswerIsHiddenExactlyWhen(b: Bearer, e: Event)
    requires Accounted(b) && b.phase == ModifyPending
    ensures Outstanding(Step(b, e)) && Step(b, e).phase != ModifyPending <==> e.ErabAnswers?
  {}

  // As long as that lasts the answer and the timeout are ignored. It ends exactly when the PDN
  // advances with both sides present and no linked Create pending.
  lemma HiddenAnswerReturnsExactlyWhen(b: Bearer, e: Event, a: Answer, pendingCreate: bool)
    requires Outstanding(b) && b.phase != ModifyPending
    ensures Result(b, a, pendingCreate) == b && Timeout(b) == b
    ensures Step(b, e).phase == ModifyPending <==> e == Advances(false) && b.nasAccepted && b.established
    ensures e == Advances(false) && b.nasAccepted && b.established ==> Step(b, e) == b.(phase := ModifyPending)
  {}

  // ---------------------------------------------------------------- whose answer it is

  // The PDN connections that wait for an answer.
  function Waiting(pdns: map<string, Bearer>): set<string> {
    set a | a in pdns && pdns[a].phase == ModifyPending
  }

  // HandleMBRResult gives the answer to the first waiting PDN it meets.
  ghost predicate Delivers(pdns: map<string, Bearer>, a: Answer, pendingCreate: bool, after: map<string, Bearer>) {
    if Waiting(pdns) == {} then after == pdns
    else exists pick :: pick in Waiting(pdns) && after == pdns[pick := Result(pdns[pick], a, pendingCreate)]
  }

  method DeliverAnswer(pdns: map<string, Bearer>, a: Answer, pendingCreate: bool) returns (after: map<string, Bearer>)
    ensures Delivers(pdns, a, pendingCreate, after)
  {
    var left := pdns.Keys;
    while left != {}
      invariant left <= pdns.Keys && forall p :: p in pdns && p !in left ==> p !in Waiting(pdns)
    {
      var pick := Pick(left);
      left := left - {pick};
      if pdns[pick].phase == ModifyPending {
        assert pick in Waiting(pdns);
        return pdns[pick := Result(pdns[pick], a, pendingCreate)];
      }
    }
    after := pdns;
  }

  // The answer has its effect on the PDN that asked, and on no other, for every order in which the
  // PDN connections can be met, exactly when that one alone is waiting.
  lemma AnswerReachesAskerExactlyWhen(pdns: map<string, Bearer>, asker: string, a: Answer, pendingCreate: bool)
    requires asker in pdns
    ensures (forall after :: Delivers(pdns, a, pendingCreate, after) ==>
               after.Keys == pdns.Keys && after[asker] != pdns[asker]
               && forall other :: other in pdns && other != asker ==> after[other] == pdns[other])
            <==> Waiting(pdns) == {asker}
  {
    hide Result;
    if Waiting(pdns) == {asker} {
      AnAnswerCounts(pdns[asker], a, pendingCreate);
    } else if Waiting(pdns) == {} {
      assert Delivers(pdns, a, pendingCreate, pdns);
    } else {
      var pick := if asker in Waiting(pdns) then Other(Waiting(pdns), asker) else Any(Waiting(pdns));
      var after := pdns[pick := Result(pdns[pick], a, pendingCreate)];
      assert Delivers(pdns, a, pendingCreate, after);
      assert after[asker] == pdns[asker];
    }
  }

  lemma AnAnswerCounts(b: Bearer, a: Answer, pendingCreate: bool)
    requires b.phase == ModifyPending
    ensures Result(b, a, pendingCreate) != b
  {}

  ghost function Any(s: set<string>): (x: string)
    requires s != {}
    ensures x in s
  {
    var x :| x in s; x
  }

  ghost function Other(s: set<string>, y: string): (x: string)
    requires y in s && s != {y}
    ensures x in s && x != y
  {
    assert s == (s - {y}) + {y};
    Any(s - {y})
  }
}
