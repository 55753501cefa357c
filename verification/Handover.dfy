/**
 * Intra-MME S1 handover and X2 path switch (internal/s1ap/handover.go and path_switch.go),
 * section 5.5.1.2 of TS 23.401: preparation and execution with their timers, the serving eNB
 * binding, and the NH/NCC chain of section 7.2.8 of TS 33.401.
 *
 * Every handler looks at the UE context in one locked region and changes it in a later one, and
 * the timers' callbacks run beside them. What a handler has decided and not done yet is an `Act`.
 */
module Handover {
  import opened Common
  import E = ErabModification
  import M = BearerMachine

  type Transport = E.Transport
  type Nh = seq<Octet>

  // security.DeriveNH for the UE's KASME. It is not part of this model.
  type Derivation = Nh -> Option<Nh>

  datatype Phase = Idle | Preparing | Executing

  // The serving eNB of the UE.
  datatype Binding = Binding(addr: string, ue: nat)

  datatype Ue = Ue(
    registered: bool, connected: bool, sgwc: nat, policy: bool, binding: Binding, plane: E.UserPlane,
    phase: Phase, source: Binding, target: Binding, targetEnb: Transport, container: seq<Octet>,
    prepTimer: bool, execTimer: bool,
    nh: Nh, ncc: nat,
    // Handovers and path switches completed so far.
    moves: nat)

  // What is still to be done: start a preparation, fail it, start the execution, clear the
  // handover after a Cancel, stop the execution timer of a Notify, move after a Notify once the
  // S-GW was asked, move after a path switch the S-GW accepts, and the callbacks of the two timers.
  datatype Act =
    | ToPrepare(source: Binding, target: string, container: seq<Octet>)
    | ToFail
    | ToCommence(targetUe: nat, enb: Transport)
    | ToClear
    | ToStop(to: Binding, enb: Transport)
    | ToMove(to: Binding, enb: Transport)
    | ToSwitch(to: Binding, items: seq<E.Item>)
    | ToGiveUp
    | ToEnd

  // The UE context and the acts of the handlers that are under way.
  datatype World = World(ue: Ue, flying: multiset<Act>)

  const Nobody: Binding := Binding("", 0)

  function Cleared(u: Ue): Ue {
    u.(phase := Idle, source := Nobody, target := Nobody, targetEnb := M.NoTransport, container := [])
  }

  // ---------------------------------------------------------------- the checks

  // The guards of handleHandoverRequired. `target` is the eNB found for the Target ID.
  predicate CanPrepare(u: Ue, remote: string, container: seq<Octet>, target: Option<string>) {
    && container != [] && u.registered && u.connected && u.sgwc != 0 && u.plane.defaultEbi != 0
    && u.binding.addr == remote && u.phase == Idle && u.policy && target.Some? && target.value != ""
  }

  predicate FromTarget(u: Ue, remote: string, phase: Phase) {
    u.phase == phase && remote == u.target.addr
  }

  predicate FromSource(u: Ue, remote: string) {
    u.phase != Idle && remote == u.source.addr
  }

  predicate Known(p: E.UserPlane, routed: set<Octet>, e: Octet) {
    && e != 0
    && ((exists a :: a in p.pdns && p.pdns[a].ebi == e && p.pdns[a].established && !p.pdns[a].modifyFailed)
        || (p.defaultEbi == e && E.Usable(p.sgw))
        || (e in p.dedicated && p.dedicated[e].established && e in routed))
  }

  ghost predicate Switchable(p: E.UserPlane, routed: set<Octet>, items: seq<E.Item>) {
    && items != []
    && (forall i :: 0 <= i < |items| ==> E.Usable(items[i].transport) && Known(p, routed, items[i].ebi))
    && (forall i, j :: 0 <= i < j < |items| ==> items[i].ebi != items[j].ebi)
  }

  function ByEbi(items: seq<E.Item>): map<Octet, Transport> {
    if items == [] then map[]
    else
      var n := |items| - 1;
      ByEbi(items[..n])[items[n].ebi := items[n].transport]
  }

  // The last item for its E-RAB; in a switchable list every item is.
  ghost predicate LastItem(items: seq<E.Item>, i: nat) {
    i < |items| && forall j :: i < j < |items| ==> items[j].ebi != items[i].ebi
  }

  // Every record of a listed E-RAB is carried to its item's transport, and no other record changes.
  ghost predicate Switches(p: E.UserPlane, q: E.UserPlane, items: seq<E.Item>) {
    && E.SameRecords(p, q)
    && (forall i: nat :: LastItem(items, i) ==> E.CarriedTo(p, q, items[i].ebi, items[i].transport))
    && (forall e: Octet :: !E.Names(items, e) ==> E.KeptAt(p, q, e))
  }

  lemma {:induction false} LastItemCounts(items: seq<E.Item>, i: nat)
    requires LastItem(items, i)
    ensures items[i].ebi in ByEbi(items) && ByEbi(items)[items[i].ebi] == items[i].transport
  {
    var n := |items| - 1;
    if i < n {
      assert items[..n][i] == items[i];
      assert LastItem(items[..n], i) by {
        forall j | i < j < n ensures items[..n][j].ebi != items[..n][i].ebi { assert items[..n][j] == items[j]; }
      }
      LastItemCounts(items[..n], i);
    }
  }

  lemma {:induction false} OnlyNamedCount(items: seq<E.Item>, e: Octet)
    requires e in ByEbi(items)
    ensures E.Names(items, e)
  {
    var n := |items| - 1;
    if items[n].ebi != e {
      OnlyNamedCount(items[..n], e);
      var i :| 0 <= i < n && items[..n][i].ebi == e;
      assert items[i].ebi == e;
    }
  }

  lemma SwitchCarriesListed(p: E.UserPlane, items: seq<E.Item>)
    ensures Switches(p, E.Committed(p, ByEbi(items), {}), items)
  {
    forall i: nat | LastItem(items, i)
      ensures items[i].ebi in ByEbi(items) && ByEbi(items)[items[i].ebi] == items[i].transport
    {
      LastItemCounts(items, i);
    }
    forall e: Octet | e in ByEbi(items) ensures E.Names(items, e) { OnlyNamedCount(items, e); }
    E.CommittedRecords(p, ByEbi(items), {});
    hide E.Committed, E.CarriedTo, E.KeptAt, E.GivenUpAt, E.SameRecords, E.Names;
  }

  lemma SwitchableItemsAreLast(p: E.UserPlane, routed: set<Octet>, items: seq<E.Item>)
    requires Switchable(p, routed, items)
    ensures forall i :: 0 <= i < |items| ==> LastItem(items, i)
  {}

  // ---------------------------------------------------------------- the acts

  // What failPreparation, a Handover Request Failure and handoverPrepTimeout clear.
  function Forgotten(u: Ue): Ue {
    u.(phase := Idle, source := Nobody, target := u.target.(addr := ""), container := [])
  }

  function NextKey(u: Ue, derive: Derivation): Ue {
    if |u.nh| == 32 && derive(u.nh).Some? then u.(nh := derive(u.nh).value, ncc := (u.ncc + 1) % 8) else u
  }

  // The commit of handleHandoverNotify, whatever the S-GW answered and the context has become.
  function Moving(u: Ue, to: Binding, enb: Transport): Ue {
    Cleared(u.(binding := to, plane := u.plane.(enb := enb), connected := true, moves := u.moves + 1))
  }

  // The commit of handlePathSwitchRequest.
  function Switching(u: Ue, to: Binding, items: seq<E.Item>): Ue {
    u.(binding := to, plane := E.Committed(u.plane, ByEbi(items), {}), connected := true, moves := u.moves + 1)
  }

  function Perform(u: Ue, a: Act, derive: Derivation): Ue {
    match a
    case ToPrepare(source, target, container) =>
      u.(phase := Preparing, source := source, target := u.target.(addr := target), container := container,
         prepTimer := true)
    case ToFail => Forgotten(u).(prepTimer := false)
    case ToCommence(targetUe, enb) =>
      u.(phase := Executing, target := u.target.(ue := targetUe), targetEnb := enb, prepTimer := false, execTimer := true)
    case ToClear => Cleared(u).(prepTimer := false, execTimer := false)
    case ToStop(_, _) => u.(execTimer := false)
    case ToMove(to, enb) => NextKey(Moving(u, to, enb), derive)
    case ToSwitch(to, items) => NextKey(Switching(u, to, items), derive)
    // handoverPrepTimeout and handoverExecTimeout.
    case ToGiveUp => if u.phase == Preparing then Forgotten(u) else u
    case ToEnd => if u.phase == Executing then Cleared(u) else u
  }

  // pathSwitchMBRBearersLocked: the list sent on S11, sorted, or None when it is refused.
  method BuildSwitchList(p: E.UserPlane, routed: set<Octet>, items: seq<E.Item>) returns (list: Option<seq<E.Item>>)
    ensures list.Some? <==> Switchable(p, routed, items)
    ensures list.Some? ==> E.Ascending(list.value) && forall x :: x in list.value <==> x in items
  {
    if items == [] { return None; }
    var out: seq<E.Item>, seen: set<Octet> := [], {};
    for i := 0 to |items|
      invariant forall j :: 0 <= j < i ==> E.Usable(items[j].transport) && Known(p, routed, items[j].ebi)
      invariant forall j, k :: 0 <= j < k < i ==> items[j].ebi != items[k].ebi
      invariant E.Ascending(out) && forall x :: x in out <==> x in items[..i]
      invariant forall e :: e in seen <==> exists j :: 0 <= j < i && items[j].ebi == e
      invariant forall e :: E.Names(out, e) <==> e in seen
    {
      var e := items[i].ebi;
      if !E.Usable(items[i].transport) || e in seen { return None; }
      var known := FindKnown(p, routed, e);
      if !known { return None; }
      E.InsertKeepsOrder(out, items[i]);
      out, seen := E.Insert(out, items[i]), seen + {e};
      assert items[..i + 1] == items[..i] + [items[i]];
    }
    assert items[..|items|] == items;
    list := Some(out);
  }

  method FindKnown(p: E.UserPlane, routed: set<Octet>, e: Octet) returns (known: bool)
    ensures known <==> Known(p, routed, e)
  {
    if e == 0 { return false; }
    if p.defaultEbi == e && E.Usable(p.sgw) { return true; }
    if e in p.dedicated && p.dedicated[e].established && e in routed { return true; }
    var left := p.pdns.Keys;
    while left != {}
      invariant left <= p.pdns.Keys
      invariant forall a :: a in p.pdns && a !in left ==>
        !(p.pdns[a].ebi == e && p.pdns[a].established && !p.pdns[a].modifyFailed)
    {
      var a := Pick(left);
      left := left - {a};
      if p.pdns[a].ebi == e && p.pdns[a].established && !p.pdns[a].modifyFailed { return true; }
    }
    known := false;
  }

  // ---------------------------------------------------------------- runs

  // Messages, timers that fire while they are armed, acts that are done, and path switches that
  // the S-GW refuses. `admitted` is None when the admitted list does not decode.
  datatype Event =
    | Required(remote: string, container: seq<Octet>, target: Option<string>)
    | RequestAck(remote: string, targetUe: nat, container: seq<Octet>, admitted: Option<Transport>)
    | RequestFailure(remote: string)
    | CancelArrives(remote: string)
    | NotifyArrives(remote: string, targetUe: nat)
    | SwitchArrives(remote: string, enbUe: nat, items: seq<E.Item>, routed: set<Octet>)
    | PrepFires
    | ExecFires
    | Acts(act: Act)
    | Refused(act: Act)

  // What a handler decides to do in its first region.
  ghost function Decides(u: Ue, e: Event): Option<Act> {
    match e
    case Required(r, c, t) => if CanPrepare(u, r, c, t) then Some(ToPrepare(u.binding, t.value, c)) else None
    case RequestAck(r, n, c, a) =>
      if !FromTarget(u, r, Preparing) then None
      else if c == [] || a.None? then Some(ToFail)
      else Some(ToCommence(n, a.value))
    case RequestFailure(r) => if FromTarget(u, r, Preparing) then Some(ToFail) else None
    case CancelArrives(r) => if FromSource(u, r) then Some(ToClear) else None
    case NotifyArrives(r, n) => if FromTarget(u, r, Executing) then Some(ToStop(Binding(r, n), u.targetEnb)) else None
    case SwitchArrives(r, n, items, routed) =>
      if u.registered && u.sgwc != 0 && Switchable(u.plane, routed, items) then Some(ToSwitch(Binding(r, n), items)) else None
    case _ => None
  }

  // The act that comes after an act of the same handler.
  function Later(a: Act): multiset<Act> {
    if a.ToStop? then multiset{ToMove(a.to, a.enb)} else multiset{}
  }

  ghost function Step(w: World, e: Event, derive: Derivation): World {
    match e
    case PrepFires => if w.ue.prepTimer then World(w.ue.(prepTimer := false), w.flying + multiset{ToGiveUp}) else w
    case ExecFires => if w.ue.execTimer then World(w.ue.(execTimer := false), w.flying + multiset{ToEnd}) else w
    case Acts(a) => if a in w.flying then World(Perform(w.ue, a, derive), w.flying - multiset{a} + Later(a)) else w
    case Refused(a) => if a.ToSwitch? then w.(flying := w.flying - multiset{a}) else w
    case _ => if Decides(w.ue, e).Some? then w.(flying := w.flying + multiset{Decides(w.ue, e).value}) else w
  }

  ghost function Run(w: World, es: seq<Event>, derive: Derivation): World
    decreases |es|
  {
    if es == [] then w else Run(Step(w, es[0], derive), es[1..], derive)
  }

  // ---------------------------------------------------------------- a settled context

  // No handover means no trace of one; a handover that is prepared has no target endpoint yet.
  predicate Traces(u: Ue) {
    && (u.phase == Idle <==> u.source == Nobody && u.target == Nobody && u.targetEnb == M.NoTransport && u.container == [])
    && (u.phase != Idle ==> u.source.addr != "" && u.target.addr != "")
    && (u.phase == Preparing ==> u.target.ue == 0 && u.targetEnb == M.NoTransport)
  }

  // The timers run in their phase only, and a phase whose timer does not run is about to end.
  ghost predicate Timed(w: World) {
    && (w.ue.prepTimer ==> w.ue.phase == Preparing)
    && (w.ue.execTimer ==> w.ue.phase == Executing)
    && (w.ue.phase == Preparing && !w.ue.prepTimer ==> ToGiveUp in w.flying)
    && (w.ue.phase == Executing && !w.ue.execTimer ==> ToEnd in w.flying || exists to, enb :: ToMove(to, enb) in w.flying)
  }

  ghost predicate Addressed(flying: multiset<Act>) {
    forall source, target, container :: ToPrepare(source, target, container) in flying ==> source.addr != "" && target != ""
  }

  ghost predicate Settled(w: World) {
    Traces(w.ue) && Timed(w) && Addressed(w.flying)
  }

  // An eNB is known by its address.
  predicate Possible(e: Event) {
    e.Required? ==> e.remote != ""
  }

  // An act that still finds what its check saw: no execution for one that belongs to a
  // preparation, a handover for one that continues it, no new timer for one that ends it.
  predicate Timely(u: Ue, a: Act) {
    match a
    case ToPrepare(_, _, _) => Unmarked(u)
    case ToFail => Unmarked(u)
    case ToCommence(_, _) => u.phase != Idle
    case ToMove(_, _) => !u.prepTimer && !u.execTimer
    case ToGiveUp => u.phase == Preparing ==> !u.prepTimer
    case ToEnd => u.phase == Executing ==> !u.execTimer
    case _ => true
  }

  // Nothing of an execution is recorded.
  predicate Unmarked(u: Ue) {
    !u.execTimer && u.target.ue == 0 && u.targetEnb == M.NoTransport
  }

  predicate TimelyEvent(w: World, e: Event) {
    e.Acts? && e.act in w.flying ==> Timely(w.ue, e.act)
  }

  lemma ActStep(w: World, a: Act, derive: Derivation)
    requires a in w.flying
    ensures Step(w, Acts(a), derive)
            == World(Perform(w.ue, a, derive),
                     if a.ToStop? then w.flying - multiset{a} + multiset{ToMove(a.to, a.enb)} else w.flying - multiset{a})
  {
    hide Perform;
  }

  lemma PreparingActs(w: World, a: Act, derive: Derivation)
    requires Settled(w) && a in w.flying && (a.ToPrepare? || a.ToFail? || a.ToCommence? || a.ToGiveUp?)
    ensures Settled(Step(w, Acts(a), derive)) <==> Timely(w.ue, a)
  {}

  lemma StopKeepsSettled(w: World, a: Act, derive: Derivation)
    requires Settled(w) && a in w.flying && a.ToStop?
    ensures Settled(Step(w, Acts(a), derive))
  {
    assert ToMove(a.to, a.enb) in Step(w, Acts(a), derive).flying;
  }

  lemma ClearKeepsSettled(w: World, a: Act, derive: Derivation)
    requires Settled(w) && a in w.flying && (a.ToClear? || a.ToEnd?)
    ensures Settled(Step(w, Acts(a), derive)) <==> Timely(w.ue, a)
  {}

  lemma EndingActs(w: World, a: Act, derive: Derivation)
    requires Settled(w) && a in w.flying && (a.ToClear? || a.ToStop? || a.ToEnd?)
    ensures Settled(Step(w, Acts(a), derive)) <==> Timely(w.ue, a)
  {
    hide Settled, Step;
    if a.ToStop? { StopKeepsSettled(w, a, derive); } else { ClearKeepsSettled(w, a, derive); }
  }

  lemma MovingActs(w: World, a: Act, derive: Derivation)
    requires Settled(w) && a in w.flying && (a.ToMove? || a.ToSwitch?)
    ensures Settled(Step(w, Acts(a), derive)) <==> Timely(w.ue, a)
  {
    hide E.Committed, ByEbi;
  }

  lemma ChecksKeepSettled(w: World, e: Event, derive: Derivation)
    requires Settled(w) && Possible(e) && !e.Acts?
    ensures Settled(Step(w, e, derive))
  {
    hide Switchable;
  }

  // In a settled context a step leads to a settled one exactly when an act that is done is timely.
  lemma StepKeepsSettledExactlyWhen(w: World, e: Event, derive: Derivation)
    requires Settled(w) && Possible(e)
    ensures Settled(Step(w, e, derive)) <==> TimelyEvent(w, e)
  {
    hide Settled, Perform, Timely, Decides;
    if !e.Acts? {
      ChecksKeepSettled(w, e, derive);
    } else if e.act in w.flying {
      var a := e.act;
      if a.ToPrepare? || a.ToFail? || a.ToCommence? || a.ToGiveUp? {
        PreparingActs(w, a, derive);
      } else if a.ToClear? || a.ToStop? || a.ToEnd? {
        EndingActs(w, a, derive);
      } else {
        MovingActs(w, a, derive);
      }
    }
  }

  ghost predicate TimelyRun(w: World, es: seq<Event>, derive: Derivation)
    decreases |es|
  {
    es == [] || (Possible(es[0]) && TimelyEvent(w, es[0]) && TimelyRun(Step(w, es[0], derive), es[1..], derive))
  }

  lemma {:induction false} RunKeepsSettled(w: World, es: seq<Event>, derive: Derivation)
    requires Settled(w) && TimelyRun(w, es, derive)
    ensures Settled(Run(w, es, derive))
    decreases |es|
  {
    hide Step, Settled, TimelyEvent;
    if es != [] {
      StepKeepsSettledExactlyWhen(w, es[0], derive);
      RunKeepsSettled(Step(w, es[0], derive), es[1..], derive);
    }
  }

  lemma DecidedIsTimely(u: Ue, e: Event)
    requires Traces(u) && (u.execTimer ==> u.phase == Executing) && Decides(u, e).Some?
    ensures Timely(u, Decides(u, e).value)
  {
    hide Switchable;
  }

  // An act that is done right after its check is timely, and so is the commit of a Notify right
  // after its timer was stopped in the execution, and a callback right after its timer fired.
  lemma UninterruptedIsTimely(w: World, e: Event, derive: Derivation, a: Act)
    requires Settled(w) && a !in w.flying && a in Step(w, e, derive).flying
    requires e.Acts? ==> w.ue.phase == Executing
    ensures Timely(Step(w, e, derive).ue, a)
  {
    hide Switchable, Addressed, Decides, Perform, Timely;
    match e
    case PrepFires => FiredIsTimely(w.ue);
    case ExecFires => FiredIsTimely(w.ue);
    case Acts(b) => CommitAfterStopIsTimely(w, b, derive, a);
    case Refused(_) =>
    case _ => if Decides(w.ue, e).Some? { DecidedIsTimely(w.ue, e); }
  }

  lemma FiredIsTimely(u: Ue)
    ensures Timely(u.(prepTimer := false), ToGiveUp) && Timely(u.(execTimer := false), ToEnd)
  {}

  lemma CommitAfterStopIsTimely(w: World, b: Act, derive: Derivation, a: Act)
    requires Timed(w) && w.ue.phase == Executing && a !in w.flying && a in Step(w, Acts(b), derive).flying
    ensures Timely(Step(w, Acts(b), derive).ue, a)
  {
    assert a in Later(b);
  }

  // ---------------------------------------------------------------- who serves the UE

  // The serving eNB, the user plane and the keys: everything a handover is about to change.
  predicate SameService(u: Ue, t: Ue) {
    && t.binding == u.binding && t.plane == u.plane && t.nh == u.nh && t.ncc == u.ncc && t.moves == u.moves
    && t.registered == u.registered && t.connected == u.connected && t.sgwc == u.sgwc && t.policy == u.policy
  }

  // One step along the chain, if there is a key of 32 octets and the derivation does not fail.
  ghost predicate Advanced(u: Ue, t: Ue, derive: Derivation) {
    if |u.nh| == 32 && derive(u.nh).Some? then Some(t.nh) == derive(u.nh) && t.ncc == (u.ncc + 1) % 8
    else t.nh == u.nh && t.ncc == u.ncc
  }

  // The commit `a` moves the service to its eNB, and the keys advance once. After a handover the
  // endpoint of the default bearer is the target's, every other record keeps its endpoint, and no
  // trace of the handover is left. After a path switch the listed E-RABs are carried to where their
  // items say, no other record changes, and a handover under way goes on.
  ghost predicate Moved(u: Ue, t: Ue, a: Act, derive: Derivation)
    requires a.ToMove? || a.ToSwitch?
  {
    && t.binding == a.to && t.connected && t.moves == u.moves + 1 && Advanced(u, t, derive)
    && t.registered == u.registered && t.sgwc == u.sgwc && t.policy == u.policy
    && t.prepTimer == u.prepTimer && t.execTimer == u.execTimer
    && match a
       case ToMove(_, enb) =>
         && t.plane.enb == enb && t.plane.defaultEbi == u.plane.defaultEbi && t.plane.sgw == u.plane.sgw
         && t.plane.pdns == u.plane.pdns && t.plane.dedicated == u.plane.dedicated
         && t.phase == Idle && t.source == Binding("", 0) && t.target == Binding("", 0)
         && t.targetEnb == Transport.Transport(0, []) && t.container == []
       case ToSwitch(_, items) =>
         && Switches(u.plane, t.plane, items)
         && t.phase == u.phase && t.source == u.source && t.target == u.target
         && t.targetEnb == u.targetEnb && t.container == u.container
  }

  lemma CommitsMove(w: World, a: Act, derive: Derivation)
    requires a in w.flying && (a.ToMove? || a.ToSwitch?)
    ensures var t := Step(w, Acts(a), derive);
            Moved(w.ue, t.ue, a, derive) && t.flying == w.flying - multiset{a}
  {
    hide E.Committed, ByEbi, Switches;
    if a.ToSwitch? { SwitchCarriesListed(w.ue.plane, a.items); }
  }

  lemma OtherActsKeepService(w: World, a: Act, derive: Derivation)
    requires !a.ToMove? && !a.ToSwitch?
    ensures SameService(w.ue, Step(w, Acts(a), derive).ue)
  {}

  lemma ChecksKeepService(w: World, e: Event, derive: Derivation)
    requires e.Acts? ==> e.act !in w.flying
    ensures SameService(w.ue, Step(w, e, derive).ue)
  {
    hide Decides, Perform;
  }

  // Only the two commits change the service, each exactly once and whatever the handover has
  // become in the meantime. Every other act and every check leaves it alone.
  lemma ServiceChangesOnlyByMoving(w: World, e: Event, derive: Derivation)
    ensures var t := Step(w, e, derive);
            if e.Acts? && e.act in w.flying && (e.act.ToMove? || e.act.ToSwitch?)
            then Moved(w.ue, t.ue, e.act, derive) && t.flying == w.flying - multiset{e.act}
            else SameService(w.ue, t.ue)
  {
    hide Step, Moved, SameService;
    if e.Acts? && e.act in w.flying {
      if e.act.ToMove? || e.act.ToSwitch? { CommitsMove(w, e.act, derive); } else { OtherActsKeepService(w, e.act, derive); }
    } else {
      ChecksKeepService(w, e, derive);
    }
  }

  // A commit can only come from a Notify that the target sent while the handover was executing,
  // or from an acceptable path switch.
  lemma MovesAreAskedFor(w: World, e: Event, derive: Derivation, a: Act)
    requires (a.ToStop? || a.ToMove? || a.ToSwitch?) && Step(w, e, derive).flying[a] > w.flying[a]
    ensures match a
            case ToStop(to, enb) => e == NotifyArrives(to.addr, to.ue) && FromTarget(w.ue, to.addr, Executing)
                                    && enb == w.ue.targetEnb
            case ToMove(to, enb) => e == Acts(ToStop(to, enb))
            case ToSwitch(to, items) => e.SwitchArrives? && to == Binding(e.remote, e.enbUe) && items == e.items
                                        && Switchable(w.ue.plane, e.routed, items)
            case _ => true
  {
    hide Switchable, Perform, CanPrepare, FromSource;
    if e.Acts? && e.act in w.flying { assert a in Later(e.act); }
  }

  // The UE stays where it is: no commit is done.
  predicate StaysPut(es: seq<Event>) {
    forall i :: 0 <= i < |es| ==> !(es[i].Acts? && (es[i].act.ToMove? || es[i].act.ToSwitch?))
  }

  // A handover that is refused, cancelled or times out leaves no trace: when the UE is idle
  // again and never moved, it is in the very state it was in before.
  lemma AbandonedHandoverRestoresState(w: World, es: seq<Event>, derive: Derivation)
    requires Settled(w) && w.ue.phase == Idle && TimelyRun(w, es, derive) && StaysPut(es)
    requires Run(w, es, derive).ue.phase == Idle
    ensures Run(w, es, derive).ue == w.ue
  {
    hide Run, TimelyRun;
    RunKeepsSettled(w, es, derive);
    StayingPutKeepsService(w, es, derive);
  }

  lemma {:induction false} StayingPutKeepsService(w: World, es: seq<Event>, derive: Derivation)
    requires StaysPut(es)
    ensures SameService(w.ue, Run(w, es, derive).ue)
    decreases |es|
  {
    if es != [] {
      ServiceChangesOnlyByMoving(w, es[0], derive);
      hide Step;
      StayingPutKeepsService(Step(w, es[0], derive), es[1..], derive);
    }
  }

  // ---------------------------------------------------------------- a handover from start to end

  // The UE `u` while it is prepared to go to `target`, and while it goes there.
  ghost predicate PreparedFor(u: Ue, t: Ue, target: string, container: seq<Octet>) {
    && SameService(u, t) && t.phase == Preparing && t.source == u.binding && t.target == Binding(target, 0)
    && t.targetEnb == Transport.Transport(0, []) && t.container == container && t.prepTimer && !t.execTimer
  }

  ghost predicate OnItsWay(u: Ue, t: Ue, target: Binding, enb: Transport, container: seq<Octet>) {
    && SameService(u, t) && t.phase == Executing && t.source == u.binding && t.target == target
    && t.targetEnb == enb && t.container == container && !t.prepTimer && t.execTimer
  }

  // A message and what its handler decided, done at once.
  ghost function Handled(w: World, e: Event, a: Act, derive: Derivation): World {
    Step(Step(w, e, derive), Acts(a), derive)
  }

  lemma HandledAtOnce(w: World, e: Event, a: Act, derive: Derivation)
    requires !e.Acts? && !e.PrepFires? && !e.ExecFires? && !e.Refused? && Decides(w.ue, e) == Some(a)
    ensures Handled(w, e, a, derive) == World(Perform(w.ue, a, derive), w.flying + Later(a))
  {
    hide Perform, Decides;
    ActStep(World(w.ue, w.flying + multiset{a}), a, derive);
    assert w.flying + multiset{a} - multiset{a} == w.flying;
  }

  // A handover that is required by the serving eNB of a UE it may leave is prepared with the target.
  lemma HandoverIsPrepared(w: World, container: seq<Octet>, target: string, derive: Derivation)
    requires Settled(w) && CanPrepare(w.ue, w.ue.binding.addr, container, Some(target))
    ensures var p := Handled(w, Required(w.ue.binding.addr, container, Some(target)),
                             ToPrepare(w.ue.binding, target, container), derive);
            PreparedFor(w.ue, p.ue, target, container) && p.flying == w.flying
  {
    HandledAtOnce(w, Required(w.ue.binding.addr, container, Some(target)), ToPrepare(w.ue.binding, target, container), derive);
    hide Handled;
  }

  // When the target admits it the UE is on its way to the endpoint the target gave.
  lemma PreparedIsCommenced(w: World, u: Ue, container: seq<Octet>, target: string, targetUe: nat, bytes: seq<Octet>,
                            enb: Transport, derive: Derivation)
    requires PreparedFor(u, w.ue, target, container) && bytes != []
    ensures var c := Handled(w, RequestAck(target, targetUe, bytes, Some(enb)), ToCommence(targetUe, enb), derive);
            OnItsWay(u, c.ue, Binding(target, targetUe), enb, container) && c.flying == w.flying
  {
    HandledAtOnce(w, RequestAck(target, targetUe, bytes, Some(enb)), ToCommence(targetUe, enb), derive);
    hide Handled;
  }

  // When the target notifies its arrival the UE is bound there, with that endpoint and the next keys.
  lemma OnItsWayArrives(w: World, u: Ue, container: seq<Octet>, target: Binding, enb: Transport, targetUe: nat,
                        derive: Derivation)
    requires OnItsWay(u, w.ue, target, enb, container) && !u.prepTimer && !u.execTimer
    ensures var to := Binding(target.addr, targetUe);
            var stopped := Handled(w, NotifyArrives(target.addr, targetUe), ToStop(to, enb), derive);
            var t := Step(stopped, Acts(ToMove(to, enb)), derive);
            Moved(u, t.ue, ToMove(to, enb), derive) && t.flying == w.flying
  {
    hide Handled, Step, Perform, Moved, OnItsWay, Decides;
    var to := Binding(target.addr, targetUe);
    NotifiedIsStopped(w.ue, u, container, target, enb, targetUe, derive);
    HandledAtOnce(w, NotifyArrives(target.addr, targetUe), ToStop(to, enb), derive);
    var stopped := Handled(w, NotifyArrives(target.addr, targetUe), ToStop(to, enb), derive);
    assert stopped.flying == w.flying + multiset{ToMove(to, enb)};
    ActStep(stopped, ToMove(to, enb), derive);
    StoppedMoves(w.ue, u, container, target, enb, targetUe, derive);
    assert stopped.flying - multiset{ToMove(to, enb)} == w.flying;
  }

  lemma NotifiedIsStopped(x: Ue, u: Ue, container: seq<Octet>, target: Binding, enb: Transport, targetUe: nat,
                          derive: Derivation)
    requires OnItsWay(u, x, target, enb, container)
    ensures var stop := ToStop(Binding(target.addr, targetUe), enb);
            Decides(x, NotifyArrives(target.addr, targetUe)) == Some(stop)
            && Perform(x, stop, derive) == x.(execTimer := false)
  {}

  lemma StoppedMoves(x: Ue, u: Ue, container: seq<Octet>, target: Binding, enb: Transport, targetUe: nat, derive: Derivation)
    requires OnItsWay(u, x, target, enb, container) && !u.prepTimer && !u.execTimer
    ensures var act := ToMove(Binding(target.addr, targetUe), enb);
            Moved(u, Perform(x.(execTimer := false), act, derive), act, derive)
  {}

  // A handover that is required, admitted and notified, with nothing in between, moves the UE to the
  // binding the target notified and to the endpoint the target gave, and leaves nothing under way.
  lemma HandoverCompletes(w: World, container: seq<Octet>, target: string, targetUe: nat, bytes: seq<Octet>, enb: Transport,
                          arrivedUe: nat, derive: Derivation)
    requires Settled(w) && CanPrepare(w.ue, w.ue.binding.addr, container, Some(target)) && bytes != []
    ensures var to := Binding(target, arrivedUe);
            var p := Handled(w, Required(w.ue.binding.addr, container, Some(target)),
                             ToPrepare(w.ue.binding, target, container), derive);
            var c := Handled(p, RequestAck(target, targetUe, bytes, Some(enb)), ToCommence(targetUe, enb), derive);
            var n := Handled(c, NotifyArrives(target, arrivedUe), ToStop(to, enb), derive);
            var t := Step(n, Acts(ToMove(to, enb)), derive);
            Moved(w.ue, t.ue, ToMove(to, enb), derive) && t.flying == w.flying
  {
    SettledIdleIsQuiet(w);
    HandoverIsPrepared(w, container, target, derive);
    hide Handled, Step, Settled, CanPrepare, PreparedFor, OnItsWay, Moved;
    var p := Handled(w, Required(w.ue.binding.addr, container, Some(target)), ToPrepare(w.ue.binding, target, container), derive);
    PreparedIsCommenced(p, w.ue, container, target, targetUe, bytes, enb, derive);
    var c := Handled(p, RequestAck(target, targetUe, bytes, Some(enb)), ToCommence(targetUe, enb), derive);
    OnItsWayArrives(c, w.ue, container, Binding(target, targetUe), enb, arrivedUe, derive);
  }

  lemma SettledIdleIsQuiet(w: World)
    requires Settled(w) && w.ue.phase == Idle
    ensures !w.ue.prepTimer && !w.ue.execTimer
    ensures w.ue.source == Nobody && w.ue.target == Nobody && w.ue.targetEnb == M.NoTransport && w.ue.container == []
  {}

  // The UE is in the very state it was in before the handover, and nothing is under way for it.
  ghost predicate Undone(u: Ue, w: World, t: World) {
    t.ue == u && t.flying == w.flying
  }

  // A preparation that the target refuses, or whose answer does not decode, that the source cancels
  // or that takes too long is undone.
  lemma PreparationIsUndone(w: World, u: Ue, container: seq<Octet>, target: string, targetUe: nat, bytes: seq<Octet>,
                            admitted: Option<Transport>, derive: Derivation)
    requires PreparedFor(u, w.ue, target, container) && Restful(u)
    ensures Undone(u, w, Handled(w, RequestFailure(target), ToFail, derive))
    ensures bytes == [] || admitted.None? ==>
              Undone(u, w, Handled(w, RequestAck(target, targetUe, bytes, admitted), ToFail, derive))
    ensures Undone(u, w, Handled(w, CancelArrives(u.binding.addr), ToClear, derive))
    ensures Undone(u, w, Step(Step(w, PrepFires, derive), Acts(ToGiveUp), derive))
  {
    PreparedDecides(w.ue, u, container, target, targetUe, bytes, admitted, derive);
    hide Handled, Step, Perform, Decides, PreparedFor, Restful;
    NothingLater(w.flying);
    HandledAtOnce(w, RequestFailure(target), ToFail, derive);
    if bytes == [] || admitted.None? { HandledAtOnce(w, RequestAck(target, targetUe, bytes, admitted), ToFail, derive); }
    HandledAtOnce(w, CancelArrives(u.binding.addr), ToClear, derive);
    FiredAtOnce(w, ToGiveUp, derive);
  }

  lemma NothingLater(flying: multiset<Act>)
    ensures forall a: Act :: !a.ToStop? ==> flying + Later(a) == flying
  {}

  // What each message decides while the UE is prepared, and that doing it gives the former state back.
  lemma PreparedDecides(x: Ue, u: Ue, container: seq<Octet>, target: string, targetUe: nat, bytes: seq<Octet>,
                        admitted: Option<Transport>, derive: Derivation)
    requires PreparedFor(u, x, target, container) && Restful(u)
    ensures Decides(x, RequestFailure(target)) == Some(ToFail)
    ensures bytes == [] || admitted.None? ==> Decides(x, RequestAck(target, targetUe, bytes, admitted)) == Some(ToFail)
    ensures Decides(x, CancelArrives(u.binding.addr)) == Some(ToClear)
    ensures Perform(x, ToFail, derive) == u && Perform(x, ToClear, derive) == u
    ensures x.prepTimer && Perform(x.(prepTimer := false), ToGiveUp, derive) == u
  {}

  // So is an execution that the source cancels or that takes too long.
  lemma ExecutionIsUndone(w: World, u: Ue, container: seq<Octet>, target: Binding, enb: Transport, derive: Derivation)
    requires OnItsWay(u, w.ue, target, enb, container) && Restful(u)
    ensures Undone(u, w, Handled(w, CancelArrives(u.binding.addr), ToClear, derive))
    ensures Undone(u, w, Step(Step(w, ExecFires, derive), Acts(ToEnd), derive))
  {
    OnItsWayDecides(w.ue, u, container, target, enb, derive);
    hide Handled, Step, Perform, Decides, OnItsWay, Restful;
    NothingLater(w.flying);
    HandledAtOnce(w, CancelArrives(u.binding.addr), ToClear, derive);
    FiredAtOnce(w, ToEnd, derive);
  }

  lemma OnItsWayDecides(x: Ue, u: Ue, container: seq<Octet>, target: Binding, enb: Transport, derive: Derivation)
    requires OnItsWay(u, x, target, enb, container) && Restful(u)
    ensures Decides(x, CancelArrives(u.binding.addr)) == Some(ToClear) && Perform(x, ToClear, derive) == u
    ensures x.execTimer && Perform(x.(execTimer := false), ToEnd, derive) == u
  {}

  // No handover and no trace of one.
  predicate Restful(u: Ue) {
    && u.phase == Idle && u.source == Binding("", 0) && u.target == Binding("", 0)
    && u.targetEnb == Transport.Transport(0, []) && u.container == [] && !u.prepTimer && !u.execTimer
  }

  lemma FiredAtOnce(w: World, a: Act, derive: Derivation)
    ensures a == ToGiveUp && w.ue.prepTimer ==>
              Step(Step(w, PrepFires, derive), Acts(a), derive)
              == World(Perform(w.ue.(prepTimer := false), a, derive), w.flying)
    ensures a == ToEnd && w.ue.execTimer ==>
              Step(Step(w, ExecFires, derive), Acts(a), derive)
              == World(Perform(w.ue.(execTimer := false), a, derive), w.flying)
  {
    hide Perform;
    assert w.flying + multiset{a} - multiset{a} == w.flying;
  }

  // A timer fires only while it is armed, and once.
  lemma TimersFireOnce(w: World, derive: Derivation)
    ensures Step(w, PrepFires, derive)
            == if w.ue.prepTimer then World(w.ue.(prepTimer := false), w.flying + multiset{ToGiveUp}) else w
    ensures Step(w, ExecFires, derive)
            == if w.ue.execTimer then World(w.ue.(execTimer := false), w.flying + multiset{ToEnd}) else w
  {
    hide Perform, Decides;
  }

  // A path switch that the S-GW refuses is dropped, and nothing else changes. An act that is done is no
  // longer under way.
  lemma RefusedIsDropped(w: World, a: Act, derive: Derivation)
    ensures Step(w, Refused(a), derive) == if a.ToSwitch? then World(w.ue, w.flying - multiset{a}) else w
  {
    hide Perform, Decides, Later;
  }

  lemma DoneIsOver(w: World, a: Act, derive: Derivation)
    ensures a !in w.flying ==> Step(w, Acts(a), derive) == w
    ensures a in w.flying ==> Step(w, Acts(a), derive).flying[a] == w.flying[a] - 1
  {
    if a in w.flying { ActStep(w, a, derive); }
    hide Perform, Decides, Later;
  }

  // Which messages are acted on, and how. Everything else is ignored.
  lemma DecisionExactlyWhen(u: Ue, r: string, n: nat, container: seq<Octet>, target: Option<string>,
                            admitted: Option<Transport>)
    ensures Decides(u, Required(r, container, target))
            == if u.registered && u.connected && u.policy && u.sgwc != 0 && u.plane.defaultEbi != 0 && u.phase == Idle
                  && r == u.binding.addr && container != [] && target.Some? && target.value != ""
               then Some(ToPrepare(u.binding, target.value, container)) else None
    ensures Decides(u, RequestAck(r, n, container, admitted))
            == if u.phase != Preparing || r != u.target.addr then None
               else if container != [] && admitted.Some? then Some(ToCommence(n, admitted.value)) else Some(ToFail)
    ensures Decides(u, RequestFailure(r)) == if u.phase == Preparing && r == u.target.addr then Some(ToFail) else None
    ensures Decides(u, CancelArrives(r)) == if u.phase != Idle && r == u.source.addr then Some(ToClear) else None
    ensures Decides(u, NotifyArrives(r, n))
            == if u.phase == Executing && r == u.target.addr then Some(ToStop(Binding(r, n), u.targetEnb)) else None
  {}

  // An E-RAB that a path switch may list: an established default bearer, the attach default bearer when
  // the S-GW's endpoint is known, or an established dedicated bearer whose S-GW endpoint is known.
  ghost predicate MayBeListed(p: E.UserPlane, routed: set<Octet>, e: Octet) {
    || (e != 0 && exists a :: a in p.pdns && p.pdns[a].ebi == e && p.pdns[a].established && !p.pdns[a].modifyFailed)
    || (e != 0 && e == p.defaultEbi && p.sgw.teid != 0 && p.sgw.ip != [])
    || (e != 0 && e in p.dedicated && p.dedicated[e].established && e in routed)
  }

  // A path switch is taken up exactly for a registered UE with a session, when the list is not empty,
  // names no E-RAB twice, and names only E-RABs that may be listed, each with an endpoint.
  lemma SwitchExactlyWhen(u: Ue, r: string, n: nat, items: seq<E.Item>, routed: set<Octet>)
    ensures Decides(u, SwitchArrives(r, n, items, routed)) == Some(ToSwitch(Binding(r, n), items))
            <==> u.registered && u.sgwc != 0 && |items| > 0
                 && (forall i :: 0 <= i < |items| ==>
                       items[i].transport.teid != 0 && items[i].transport.ip != [] && MayBeListed(u.plane, routed, items[i].ebi))
                 && (forall i, j :: 0 <= i < j < |items| ==> items[i].ebi != items[j].ebi)
    ensures Decides(u, SwitchArrives(r, n, items, routed)).Some? ==>
              Decides(u, SwitchArrives(r, n, items, routed)) == Some(ToSwitch(Binding(r, n), items))
  {
    forall e: Octet ensures Known(u.plane, routed, e) <==> MayBeListed(u.plane, routed, e) {}
    hide Known, MayBeListed;
  }

  // ---------------------------------------------------------------- acts that come too late

  lemma RevivedHandoverEnds(w: World, targetUe: nat, enb: Transport, derive: Derivation)
    requires Settled(w) && ToCommence(targetUe, enb) in w.flying
    ensures var t := Step(w, Acts(ToCommence(targetUe, enb)), derive);
            Settled(Step(Step(t, ExecFires, derive), Acts(ToEnd), derive))
  {
    var act := ToCommence(targetUe, enb);
    ActStep(w, act, derive);
    var t := Step(w, Acts(act), derive);
    var fired := World(t.ue.(execTimer := false), t.flying + multiset{ToEnd});
    assert Step(t, ExecFires, derive) == fired;
    ActStep(fired, ToEnd, derive);
    assert Addressed(t.flying);
    hide Step;
  }

  // A Request Acknowledge that is acted on after its preparation is over revives the handover:
  // exactly then no Notify and no Cancel can end the execution, only its timer does.
  lemma RevivedHandoverExactlyWhen(w: World, targetUe: nat, enb: Transport, derive: Derivation)
    requires Settled(w) && ToCommence(targetUe, enb) in w.flying
    ensures var t := Step(w, Acts(ToCommence(targetUe, enb)), derive);
            && t.ue.phase == Executing && t.ue.execTimer
            && ((forall r :: r != "" ==> Decides(t.ue, CancelArrives(r)).None?) <==> w.ue.phase == Idle)
            && ((forall r, n :: r != "" ==> Decides(t.ue, NotifyArrives(r, n)).None?) <==> w.ue.phase == Idle)
            && Settled(Step(Step(t, ExecFires, derive), Acts(ToEnd), derive))
  {
    hide Step, Addressed, Timed;
    RevivedHandoverEnds(w, targetUe, enb, derive);
    ActStep(w, ToCommence(targetUe, enb), derive);
    var t := Step(w, Acts(ToCommence(targetUe, enb)), derive);
    assert t.ue.source == w.ue.source && t.ue.target.addr == w.ue.target.addr;
    assert w.ue.phase == Idle ==> t.ue.source.addr == "" && t.ue.target.addr == "";
    if w.ue.phase != Idle {
      var r, q := t.ue.source.addr, t.ue.target.addr;
      assert r != "" && Decides(t.ue, CancelArrives(r)).Some?;
      assert q != "" && Decides(t.ue, NotifyArrives(q, 0)).Some?;
    }
  }

  // Only what is already under way goes on: acts, timers and refusals by the S-GW, no new message.
  predicate UnderWay(es: seq<Event>) {
    forall i :: 0 <= i < |es| ==> es[i].Acts? || es[i].PrepFires? || es[i].ExecFires? || es[i].Refused?
  }

  // A Notify or a path switch whose commit is still to come.
  ghost predicate WillMove(flying: multiset<Act>) {
    exists a :: a in flying && (a.ToStop? || a.ToMove? || a.ToSwitch?)
  }

  lemma NothingStartsAMove(w: World, e: Event, derive: Derivation)
    requires UnderWay([e]) && !WillMove(w.flying)
    ensures !WillMove(Step(w, e, derive).flying) && SameService(w.ue, Step(w, e, derive).ue)
  {
    ServiceChangesOnlyByMoving(w, e, derive);
    assert [e][0] == e;
    forall a | a in Step(w, e, derive).flying ensures !(a.ToStop? || a.ToMove? || a.ToSwitch?) {
      if a in w.flying { assert !(a.ToStop? || a.ToMove? || a.ToSwitch?); }
    }
  }

  lemma {:induction false} NoMoveWithoutOne(w: World, es: seq<Event>, derive: Derivation)
    requires UnderWay(es) && !WillMove(w.flying)
    ensures SameService(w.ue, Run(w, es, derive).ue)
    decreases |es|
  {
    hide Step, WillMove;
    if es != [] {
      assert [es[0]][0] == es[0];
      NothingStartsAMove(w, es[0], derive);
      NoMoveWithoutOne(Step(w, es[0], derive), es[1..], derive);
    }
  }

  lemma OneStep(w: World, e: Event, derive: Derivation)
    ensures Run(w, [e], derive) == Step(w, e, derive)
  {
    hide Step;
    assert [e][1..] == [];
    assert Run(Step(w, e, derive), [], derive) == Step(w, e, derive);
  }

  // What is under way and will move can move the service.
  lemma MoveCanHappen(w: World, derive: Derivation) returns (es: seq<Event>)
    requires WillMove(w.flying)
    ensures UnderWay(es) && !SameService(w.ue, Run(w, es, derive).ue)
  {
    var a :| a in w.flying && (a.ToStop? || a.ToMove? || a.ToSwitch?);
    hide Step, SameService, UnderWay, Run;
    if a.ToStop? {
      StopThenMove(w, a, derive);
      es := [Acts(a), Acts(ToMove(a.to, a.enb))];
    } else {
      MoveNow(w, a, derive);
      es := [Acts(a)];
    }
  }

  lemma MoveNow(w: World, a: Act, derive: Derivation)
    requires a in w.flying && (a.ToMove? || a.ToSwitch?)
    ensures UnderWay([Acts(a)]) && !SameService(w.ue, Run(w, [Acts(a)], derive).ue)
  {
    hide Step, Moved, SameService, Run;
    ServiceChangesOnlyByMoving(w, Acts(a), derive);
    MovedIsNoSame(w.ue, Step(w, Acts(a), derive).ue, a, derive);
    OneStep(w, Acts(a), derive);
  }

  lemma StopThenMove(w: World, a: Act, derive: Derivation)
    requires a in w.flying && a.ToStop?
    ensures var es := [Acts(a), Acts(ToMove(a.to, a.enb))];
            UnderWay(es) && !SameService(w.ue, Run(w, es, derive).ue)
  {
    hide Step, Moved, SameService;
    var m, v := ToMove(a.to, a.enb), Step(w, Acts(a), derive);
    ServiceChangesOnlyByMoving(w, Acts(a), derive);
    ActStep(w, a, derive);
    assert m in v.flying;
    MoveNow(v, m, derive);
    ServiceChangesOnlyByMoving(v, Acts(m), derive);
    MovedIsNoSame(v.ue, Step(v, Acts(m), derive).ue, m, derive);
    SameThenOther(w.ue, v.ue, Step(v, Acts(m), derive).ue);
    OneStep(v, Acts(m), derive);
    assert [Acts(a), Acts(m)][1..] == [Acts(m)];
  }

  lemma MovedIsNoSame(u: Ue, t: Ue, a: Act, derive: Derivation)
    requires (a.ToMove? || a.ToSwitch?) && Moved(u, t, a, derive)
    ensures t.moves == u.moves + 1 && !SameService(u, t)
  {
    hide Switches;
  }

  lemma SameThenOther(u: Ue, v: Ue, t: Ue)
    requires SameService(u, v) && t.moves != v.moves
    ensures !SameService(u, t)
  {}

  // A Cancel clears the handover, yet it keeps the UE where it is, whatever is still under way does,
  // exactly when no Notify and no path switch is on its way to its commit.
  lemma CancelKeepsServiceExactlyWhen(w: World, derive: Derivation)
    requires ToClear in w.flying
    ensures var c := Step(w, Acts(ToClear), derive);
            && c.ue.phase == Idle && SameService(w.ue, c.ue)
            && ((forall es :: UnderWay(es) ==> SameService(c.ue, Run(c, es, derive).ue)) <==> !WillMove(w.flying))
  {
    ServiceChangesOnlyByMoving(w, Acts(ToClear), derive);
    ActStep(w, ToClear, derive);
    var c := Step(w, Acts(ToClear), derive);
    ClearingLeavesMoves(w.flying);
    hide Step, Run, WillMove, UnderWay, SameService;
    if WillMove(c.flying) {
      var es := MoveCanHappen(c, derive);
    } else {
      forall es | UnderWay(es) ensures SameService(c.ue, Run(c, es, derive).ue) { NoMoveWithoutOne(c, es, derive); }
    }
  }

  lemma ClearingLeavesMoves(flying: multiset<Act>)
    ensures WillMove(flying - multiset{ToClear}) <==> WillMove(flying)
  {
    if WillMove(flying) {
      var a :| a in flying && (a.ToStop? || a.ToMove? || a.ToSwitch?);
      assert a in flying - multiset{ToClear};
    }
  }

  // ---------------------------------------------------------------- the key chain

  // Deriving always works for 32-byte keys and gives 32-byte keys.
  ghost predicate Derives(derive: Derivation) {
    forall k: Nh :: |k| == 32 ==> derive(k).Some? && |derive(k).value| == 32
  }

  function Chain(derive: Derivation, nh: Nh, n: nat): Nh {
    if n == 0 then nh
    else
      var prev := Chain(derive, nh, n - 1);
      if derive(prev).Some? then derive(prev).value else prev
  }

  lemma {:induction false} ChainLength(derive: Derivation, nh: Nh, n: nat)
    requires Derives(derive) && |nh| == 32
    ensures |Chain(derive, nh, n)| == 32
  {
    if n > 0 { ChainLength(derive, nh, n - 1); }
  }

  lemma StepAdvancesChain(w: World, e: Event, derive: Derivation)
    requires Derives(derive) && |w.ue.nh| == 32 && w.ue.ncc < 8
    ensures var u, t := w.ue, Step(w, e, derive).ue;
            && t.moves >= u.moves && |t.nh| == 32 && t.ncc < 8
            && t.ncc == (u.ncc + (t.moves - u.moves)) % 8
            && t.nh == Chain(derive, u.nh, t.moves - u.moves)
  {
    ServiceChangesOnlyByMoving(w, e, derive);
    hide Step;
    assert Chain(derive, w.ue.nh, 0) == w.ue.nh;
    assert Chain(derive, w.ue.nh, 1) == derive(w.ue.nh).value;
  }

  lemma {:induction false} ChainComposes(derive: Derivation, nh: Nh, a: nat, b: nat)
    ensures Chain(derive, Chain(derive, nh, a), b) == Chain(derive, nh, a + b)
  {
    if b > 0 { ChainComposes(derive, nh, a, b - 1); }
  }

  lemma ChainStart(derive: Derivation, nh: Nh)
    ensures Chain(derive, nh, 0) == nh
  {}

  // After k moves of either kind the NCC has advanced by k modulo 8 and the NH is the k-th of its
  // chain, over every interleaving of checks, acts and timers, timely or not.
  lemma {:induction false} KeysFollowMoves(w: World, es: seq<Event>, derive: Derivation)
    requires Derives(derive) && |w.ue.nh| == 32 && w.ue.ncc < 8
    ensures var u, t := w.ue, Run(w, es, derive).ue;
            && t.moves >= u.moves
            && t.ncc == (u.ncc + (t.moves - u.moves)) % 8
            && t.nh == Chain(derive, u.nh, t.moves - u.moves)
    decreases |es|
  {
    hide Step, Derives, Chain;
    if es == [] {
      assert Chain(derive, w.ue.nh, 0) == w.ue.nh by { ChainStart(derive, w.ue.nh); }
    } else {
      var v := Step(w, es[0], derive);
      StepAdvancesChain(w, es[0], derive);
      KeysFollowMoves(v, es[1..], derive);
      ChainComposes(derive, w.ue.nh, v.ue.moves - w.ue.moves, Run(w, es, derive).ue.moves - v.ue.moves);
    }
  }

  // ---------------------------------------------------------------- the UE context

  class Context {
    const registered: bool
    const sgwc: nat
    const policy: bool
    var connected: bool
    var binding: Binding
    var plane: E.UserPlane
    var phase: Phase
    var source: Binding
    var target: Binding
    var targetEnb: Transport
    var container: seq<Octet>
    var prepTimer: bool
    var execTimer: bool
    var nh: Nh
    var ncc: nat
    ghost var moves: nat
    // What the handlers under way have decided and not done yet.
    ghost var flying: multiset<Act>

    ghost function View(): World
      reads this
    {
      World(Ue(registered, connected, sgwc, policy, binding, plane, phase, source, target, targetEnb, container,
               prepTimer, execTimer, nh, ncc, moves), flying)
    }

    // The class invariant.
    ghost predicate Valid()
      reads this
    {
      Settled(View())
    }

    // The first region of handleHandoverRequired, and the guards on what it read.
    method CheckRequired(remote: string, bytes: seq<Octet>, found: Option<string>, ghost derive: Derivation)
      returns (act: Option<Act>)
      requires Valid() && remote != ""
      modifies this`flying
      ensures View() == Step(old(View()), Required(remote, bytes, found), derive) && Valid()
      ensures act.Some? ==> act.value in flying && Timely(View().ue, act.value)
      ensures act.None? ==> View() == old(View())
    {
      ChecksKeepSettled(View(), Required(remote, bytes, found), derive);
      if bytes == [] || !registered || !connected || sgwc == 0 || plane.defaultEbi == 0 { return None; }
      if binding.addr != remote || phase != Idle || !policy { return None; }
      if found.None? || found.value == "" { return None; }
      act := Some(ToPrepare(binding, found.value, bytes));
      flying := flying + multiset{act.value};
    }

    // The first region of handleHandoverRequestAck and its guards.
    method CheckRequestAck(remote: string, targetUe: nat, bytes: seq<Octet>, admitted: Option<Transport>,
                           ghost derive: Derivation)
      returns (act: Option<Act>)
      requires Valid()
      modifies this`flying
      ensures View() == Step(old(View()), RequestAck(remote, targetUe, bytes, admitted), derive) && Valid()
      ensures act.Some? ==> act.value in flying && Timely(View().ue, act.value)
      ensures act.None? ==> View() == old(View())
    {
      ChecksKeepSettled(View(), RequestAck(remote, targetUe, bytes, admitted), derive);
      if phase != Preparing || remote != target.addr { return None; }
      act := Some(if bytes == [] || admitted.None? then ToFail else ToCommence(targetUe, admitted.value));
      flying := flying + multiset{act.value};
    }

    // The first region of handleHandoverCancel and its guards.
    method CheckCancel(remote: string, ghost derive: Derivation) returns (act: Option<Act>)
      requires Valid()
      modifies this`flying
      ensures View() == Step(old(View()), CancelArrives(remote), derive) && Valid()
      ensures act.Some? ==> act.value in flying && Timely(View().ue, act.value)
      ensures act.None? ==> View() == old(View())
    {
      ChecksKeepSettled(View(), CancelArrives(remote), derive);
      if phase == Idle || remote != source.addr { return None; }
      act := Some(ToClear);
      flying := flying + multiset{ToClear};
    }

    // The first region of handleHandoverNotify and its guards.
    method CheckNotify(remote: string, targetUe: nat, ghost derive: Derivation) returns (act: Option<Act>)
      requires Valid()
      modifies this`flying
      ensures View() == Step(old(View()), NotifyArrives(remote, targetUe), derive) && Valid()
      ensures act.Some? ==> act.value in flying && Timely(View().ue, act.value)
      ensures act.None? ==> View() == old(View())
    {
      ChecksKeepSettled(View(), NotifyArrives(remote, targetUe), derive);
      if phase != Executing || remote != target.addr { return None; }
      act := Some(ToStop(Binding(remote, targetUe), targetEnb));
      flying := flying + multiset{act.value};
    }

    // handlePathSwitchRequest up to the Modify Bearer Request.
    method CheckSwitch(remote: string, enbUe: nat, items: seq<E.Item>, routed: set<Octet>, ghost derive: Derivation)
      returns (act: Option<Act>)
      requires Valid()
      modifies this`flying
      ensures View() == Step(old(View()), SwitchArrives(remote, enbUe, items, routed), derive) && Valid()
      ensures act.Some? <==> registered && sgwc != 0 && Switchable(plane, routed, items)
      ensures act.Some? ==> act.value in flying && Timely(View().ue, act.value)
    {
      hide Settled;
      ChecksKeepSettled(View(), SwitchArrives(remote, enbUe, items, routed), derive);
      if !registered || sgwc == 0 { return None; }
      var list := BuildSwitchList(plane, routed, items);
      if list.None? { return None; }
      act := Some(ToSwitch(Binding(remote, enbUe), items));
      flying := flying + multiset{act.value};
    }

    // The second region of handleHandoverRequired.
    method StartPreparation(from: Binding, to: string, bytes: seq<Octet>, ghost derive: Derivation)
      requires Valid() && ToPrepare(from, to, bytes) in flying
      modifies this
      ensures View() == Step(old(View()), Acts(ToPrepare(from, to, bytes)), derive)
      ensures Valid() <==> Timely(old(View()).ue, ToPrepare(from, to, bytes))
      ensures SameService(old(View()).ue, View().ue)
    {
      hide Settled, Step, Timely, SameService;
      ghost var was, act := View(), ToPrepare(from, to, bytes);
      ActStep(was, act, derive);
      Prepare(from, to, bytes);
      flying := flying - multiset{act};
      assert View() == Step(was, Acts(act), derive);
      PreparingActs(was, act, derive);
      OtherActsKeepService(was, act, derive);
    }

    method Prepare(from: Binding, to: string, bytes: seq<Octet>)
      modifies this`phase, this`source, this`target, this`container, this`prepTimer
      ensures View() == World(old(View()).ue.(phase := Preparing, source := from, container := bytes, prepTimer := true,
                                              target := old(target).(addr := to)), old(flying))
    {
      phase := Preparing;
      source := from;
      target := target.(addr := to);
      container := bytes;
      prepTimer := true;
    }

    // failPreparation, and the second region of handleHandoverRequestFailure.
    method ClearPreparation(ghost derive: Derivation)
      requires Valid() && ToFail in flying
      modifies this
      ensures View() == Step(old(View()), Acts(ToFail), derive)
      ensures Valid() <==> Timely(old(View()).ue, ToFail)
      ensures SameService(old(View()).ue, View().ue)
    {
      hide Forgotten, Settled, Step, Timely, SameService;
      ghost var was := View();
      ActStep(was, ToFail, derive);
      ForgetPreparation();
      prepTimer := false;
      flying := flying - multiset{ToFail};
      assert View() == Step(was, Acts(ToFail), derive);
      PreparingActs(was, ToFail, derive);
      OtherActsKeepService(was, ToFail, derive);
    }

    method ForgetPreparation()
      modifies this`phase, this`source, this`target, this`container
      ensures View() == World(Forgotten(old(View()).ue), old(flying))
    {
      phase := Idle;
      source := Nobody;
      target := target.(addr := "");
      container := [];
    }

    // The second region of handleHandoverRequestAck.
    method StartExecution(targetUe: nat, enb: Transport, ghost derive: Derivation)
      requires Valid() && ToCommence(targetUe, enb) in flying
      modifies this
      ensures View() == Step(old(View()), Acts(ToCommence(targetUe, enb)), derive)
      ensures Valid() <==> Timely(old(View()).ue, ToCommence(targetUe, enb))
      ensures SameService(old(View()).ue, View().ue)
    {
      hide Settled, Step, Timely, SameService;
      ghost var was, act := View(), ToCommence(targetUe, enb);
      ActStep(was, act, derive);
      Commence(targetUe, enb);
      flying := flying - multiset{act};
      assert View() == Step(was, Acts(act), derive);
      PreparingActs(was, act, derive);
      OtherActsKeepService(was, act, derive);
    }

    method Commence(targetUe: nat, enb: Transport)
      modifies this`phase, this`target, this`targetEnb, this`prepTimer, this`execTimer
      ensures View() == World(old(View()).ue.(phase := Executing, target := old(target).(ue := targetUe), targetEnb := enb,
                                              prepTimer := false, execTimer := true), old(flying))
    {
      prepTimer := false;
      target := target.(ue := targetUe);
      targetEnb := enb;
      phase := Executing;
      execTimer := true;
    }

    // The second region of handleHandoverCancel.
    method CancelHandover(ghost derive: Derivation)
      requires Valid() && ToClear in flying
      modifies this
      ensures View() == Step(old(View()), Acts(ToClear), derive)
      ensures Valid() && phase == Idle && SameService(old(View()).ue, View().ue)
    {
      hide Settled, Step, SameService;
      ghost var was := View();
      ActStep(was, ToClear, derive);
      StopTimers();
      ClearHandover();
      flying := flying - multiset{ToClear};
      assert View() == Step(was, Acts(ToClear), derive);
      EndingActs(was, ToClear, derive);
      OtherActsKeepService(was, ToClear, derive);
    }

    method StopTimers()
      modifies this`prepTimer, this`execTimer
      ensures View() == World(old(View()).ue.(prepTimer := false, execTimer := false), old(flying))
    {
      prepTimer, execTimer := false, false;
    }

    method ClearHandover()
      modifies this`phase, this`source, this`target, this`targetEnb, this`container
      ensures View() == World(Cleared(old(View()).ue), old(flying))
    {
      phase := Idle;
      source, target, targetEnb := Nobody, Nobody, M.NoTransport;
      container := [];
    }

    // The second region of handleHandoverNotify: from here on the goroutine will commit.
    method StopExecTimer(to: Binding, enb: Transport, ghost derive: Derivation)
      requires Valid() && ToStop(to, enb) in flying
      modifies this
      ensures View() == Step(old(View()), Acts(ToStop(to, enb)), derive)
      ensures Valid() && !execTimer && ToMove(to, enb) in flying && SameService(old(View()).ue, View().ue)
    {
      hide Settled, Step, SameService;
      ghost var was, act := View(), ToStop(to, enb);
      ActStep(was, act, derive);
      execTimer := false;
      flying := flying - multiset{act} + multiset{ToMove(to, enb)};
      assert View() == Step(was, Acts(act), derive);
      EndingActs(was, act, derive);
      OtherActsKeepService(was, act, derive);
    }

    method AdvanceKeys(derive: Derivation)
      modifies this`nh, this`ncc
      ensures View() == World(NextKey(old(View()).ue, derive), old(flying))
    {
      if |nh| == 32 {
        var next := derive(nh);
        if next.Some? {
          nh := next.value;
          ncc := (ncc + 1) % 8;
        }
      }
    }

    // The commit of handleHandoverNotify.
    method MoveToTarget(to: Binding, enb: Transport, derive: Derivation)
      requires Valid() && ToMove(to, enb) in flying
      modifies this
      ensures View() == Step(old(View()), Acts(ToMove(to, enb)), derive)
      ensures Valid() <==> Timely(old(View()).ue, ToMove(to, enb))
      ensures Moved(old(View()).ue, View().ue, ToMove(to, enb), derive)
    {
      hide Settled, Step, Timely, NextKey, Moved, Moving;
      ghost var was, act := View(), ToMove(to, enb);
      ActStep(was, act, derive);
      Rebind(to, enb);
      AdvanceKeys(derive);
      flying := flying - multiset{act};
      assert View() == Step(was, Acts(act), derive);
      MovingActs(was, act, derive);
      CommitsMove(was, act, derive);
    }

    method Rebind(to: Binding, enb: Transport)
      modifies this`phase, this`source, this`target, this`targetEnb, this`container
      modifies this`binding, this`plane, this`connected, this`moves
      ensures View() == World(Moving(old(View()).ue, to, enb), old(flying))
    {
      binding := to;
      plane := plane.(enb := enb);
      connected := true;
      moves := moves + 1;
      ClearHandover();
    }

    // All records of one E-RAB.
    method ApplyItem(e: Octet, t: Transport)
      modifies this`plane
      ensures plane == E.Committed(old(plane), map[e := t], {})
      ensures E.CarriesOnly(old(plane), plane, e, t)
    {
      hide E.CarriesOnly;
      E.OneCarried(plane, e, t);
      if plane.defaultEbi == e { plane := plane.(enb := t); }
      var legs := E.CarryLegs(plane.pdns, e, t);
      plane := plane.(pdns := legs);
      if e in plane.dedicated {
        plane := plane.(dedicated := plane.dedicated[e := plane.dedicated[e].(enb := t)]);
      }
      assert plane.pdns == E.Committed(old(plane), map[e := t], {}).pdns;
      assert plane.dedicated == E.Committed(old(plane), map[e := t], {}).dedicated;
    }

    // applyPathSwitchBearersLocked: one bearer after the other.
    method ApplySwitch(items: seq<E.Item>)
      modifies this`plane
      ensures plane == E.Committed(old(plane), ByEbi(items), {})
      ensures Switches(old(plane), plane, items)
    {
      hide Switches;
      SwitchCarriesListed(plane, items);
      E.NothingCommitted(plane);
      for i := 0 to |items|
        invariant plane == E.Committed(old(plane), ByEbi(items[..i]), {})
      {
        assert items[..i + 1][..i] == items[..i];
        E.CommitOneMore(old(plane), ByEbi(items[..i]), items[i].ebi, items[i].transport);
        ApplyItem(items[i].ebi, items[i].transport);
      }
      assert items[..|items|] == items;
    }

    // The commit of handlePathSwitchRequest.
    method CompleteSwitch(to: Binding, items: seq<E.Item>, derive: Derivation)
      requires Valid() && ToSwitch(to, items) in flying
      modifies this
      ensures View() == Step(old(View()), Acts(ToSwitch(to, items)), derive)
      ensures Valid() && Moved(old(View()).ue, View().ue, ToSwitch(to, items), derive)
    {
      hide Settled, Step, NextKey, Moved, Switches, E.Committed, ByEbi;
      ghost var was, act := View(), ToSwitch(to, items);
      ActStep(was, act, derive);
      binding := to;
      ApplySwitch(items);
      connected := true;
      moves := moves + 1;
      AdvanceKeys(derive);
      flying := flying - multiset{act};
      assert View() == Step(was, Acts(act), derive);
      MovingActs(was, act, derive);
      CommitsMove(was, act, derive);
    }

    // handoverPrepTimeout. A callback that was overtaken by a new preparation ends that one.
    method OnPrepTimeout(ghost derive: Derivation)
      requires Valid() && ToGiveUp in flying
      modifies this
      ensures View() == Step(old(View()), Acts(ToGiveUp), derive)
      ensures Valid() <==> Timely(old(View()).ue, ToGiveUp)
      ensures SameService(old(View()).ue, View().ue)
    {
      hide Forgotten, Settled, Step, Timely, SameService;
      ghost var was := View();
      ActStep(was, ToGiveUp, derive);
      if phase == Preparing { ForgetPreparation(); }
      flying := flying - multiset{ToGiveUp};
      assert View() == Step(was, Acts(ToGiveUp), derive);
      PreparingActs(was, ToGiveUp, derive);
      OtherActsKeepService(was, ToGiveUp, derive);
    }

    // handoverExecTimeout.
    method OnExecTimeout(ghost derive: Derivation)
      requires Valid() && ToEnd in flying
      modifies this
      ensures View() == Step(old(View()), Acts(ToEnd), derive)
      ensures Valid() <==> Timely(old(View()).ue, ToEnd)
      ensures SameService(old(View()).ue, View().ue)
    {
      hide Settled, Step, Timely, SameService;
      ghost var was := View();
      ActStep(was, ToEnd, derive);
      if phase == Executing { ClearHandover(); }
      flying := flying - multiset{ToEnd};
      assert View() == Step(was, Acts(ToEnd), derive);
      EndingActs(was, ToEnd, derive);
      OtherActsKeepService(was, ToEnd, derive);
    }
  }
}
