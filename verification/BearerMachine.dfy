/**
 * The per-UE bearer procedure machine: Create, Update and Delete Bearer transactions from
 * S11, the NAS and E-RAB results that confirm them, their timers, and the PDN connectivity
 * procedures that draw on the same eleven EPS bearer identities
 * (internal/s1ap/dedicated_bearer.go, erab_release.go, erab_modify.go, esm.go and nas.go).
 *
 * A `State` is what the UE context holds between two regions locked with ue.Lock(); every
 * function below is one such region. Where the source ranges over a Go map and stops at the
 * first match, the match is an argument, so that every iteration order is covered.
 */
module BearerMachine {
  import opened Common
  import opened EbiAllocation
  import T = ActivationTimer

  // ---------------------------------------------------------------- identities

  datatype Kind = Create | Update | LocalUpdate | Delete

  // The transaction map key: bearerTxKey for S11 procedures, "brm|..." for UE-initiated ones.
  datatype Key = Gtp(peer: string, msg: Kind, teid: nat, seqNum: nat) | Local(ebi: Octet, pti: Octet)

  // DedicatedBearerTransaction.ID and pendingPDNReservationID. The peer is not part of an ID.
  datatype TxId = GtpId(msg: Kind, teid: nat, seqNum: nat) | LocalId(ebi: Octet, pti: Octet)
                | PdnId(pti: Octet, apn: string)

  function KindOf(k: Key): Kind {
    match k case Gtp(_, m, _, _) => m case Local(_, _) => LocalUpdate
  }

  function IdOf(k: Key): TxId {
    match k case Gtp(_, m, t, s) => GtpId(m, t, s) case Local(e, p) => LocalId(e, p)
  }

  // ---------------------------------------------------------------- bearers and transactions

  // A user-plane endpoint; NoTransport is TEID 0 with a nil address.
  datatype Transport = Transport(teid: nat, ip: seq<Octet>)

  const NoTransport: Transport := Transport(0, [])

  datatype QoS = QoS(qci: Octet, arp: Octet, level: seq<Octet>, tft: seq<Octet>, pco: seq<Octet>)

  datatype RanNasCause = NoCause | EsmCause(value: Octet) | S1apCause(group: Octet, value: Octet)

  // DedicatedBearerContext. AssignedEBI is the key under which the bearer is stored.
  datatype Bearer = Bearer(
    txId: TxId, linked: Octet, legacy: Octet, qos: QoS, sgw: Transport, enb: Transport,
    nasAccepted: bool, nasRejected: bool, established: bool, erabFailed: bool,
    ran: RanNasCause, timer: T.Timer)

  datatype CreateState = Received | WaitingForLink | WaitingForUE | Paging | ActivatingNAS
                       | SettingUpERAB | WaitingResults | CleaningUpERAB | Completed | Failed | TimedOut

  type Fingerprint = (Octet, nat, multiset<(Octet, Octet, seq<Octet>)>)

  // DedicatedBearerTransaction. `cleanup` is the item list captured by the E-RAB release
  // goroutine of a failed Create; `modifying` says an E-RAB Modify is registered for an Update.
  datatype Tx = Tx(linked: Octet, fingerprint: Fingerprint, bearers: map<Octet, Bearer>,
                   state: CreateState, cleanup: set<Octet>, modifying: bool)

  datatype Pdn = Pdn(ebi: Octet, pti: Octet, nasAccepted: bool, established: bool, modifyFailed: bool,
                     aggregating: bool, disconnecting: bool, deletePending: bool)

  // A PDN Connectivity Request between the region that reserved its EBI and the one that
  // installs it as PendingPDN (gateway selection runs unlocked in between).
  datatype PdnRequest = PdnRequest(ebi: Octet, pti: Octet, apn: string)

  datatype PendingPdn = PendingPdn(apn: string, pdn: Pdn)

  datatype Access = Access(registered: bool, idle: bool, binding: bool)

  // ---------------------------------------------------------------- S11 answers

  const ACCEPTED: Octet := 16
  const ACCEPTED_PARTIALLY: Octet := 17
  const CONTEXT_NOT_FOUND: Octet := 64
  const SYSTEM_FAILURE: Octet := 72
  const ALL_ADDRESSES_OCCUPIED: Octet := 84
  const UE_NOT_RESPONDING: Octet := 87
  const UE_REFUSES: Octet := 88
  const REQUEST_REJECTED: Octet := 94
  // The source defines CauseRequestDenied as an alias of CauseRequestRejected.
  const REQUEST_DENIED: Octet := REQUEST_REJECTED

  const MAX_PENDING_CREATES: nat := 4

  datatype BearerAnswer = BearerAnswer(accepted: bool, ran: RanNasCause, sgw: Transport, enb: Transport)

  // Go lists the bearers in map order; the answer is the same up to that order.
  datatype Response = Response(cause: Octet, bearers: map<Octet, BearerAnswer>)

  // Messages towards the S-GW: the answer that ends an admitted transaction, the answer to a
  // request that is not admitted, the replay of a cached final answer, and the denial of a
  // Delete whose NAS message could not be sent, after which the Delete is still pending.
  datatype Out = Answer(key: Key, response: Response) | Immediate(key: Key, cause: Octet)
               | Replay(key: Key, response: Response) | Premature(key: Key, cause: Octet)

  datatype State = State(
    defaultEbi: Octet, defaultApn: string, access: Access,
    pdns: map<string, Pdn>, pendingPdn: Option<PendingPdn>, inFlight: set<PdnRequest>,
    dedicated: map<Octet, Bearer>, reservations: map<Octet, TxId>, pending: map<Key, Tx>,
    cached: map<Key, Response>,
    // What was sent on S11, and the transactions ever admitted, or dropped with their PDN.
    out: seq<Out>, admitted: multiset<Key>, dropped: multiset<Key>)

  // The transactions answered so far, with multiplicity.
  function AnsweredKeys(out: seq<Out>): multiset<Key> {
    if out == [] then multiset{}
    else
      var last := out[|out| - 1];
      AnsweredKeys(out[..|out| - 1]) + if last.Answer? then multiset{last.key} else multiset{}
  }

  predicate ActiveS1(s: State) {
    !s.access.idle && s.access.binding
  }

  ghost predicate IsCreate(s: State, k: Key) {
    k in s.pending && KindOf(k) == Create
  }

  ghost function PendingCreates(s: State): set<Key> {
    set k | k in s.pending && KindOf(k) == Create && !Terminal(s.pending[k].state)
  }

  predicate Terminal(c: CreateState) {
    c == Completed || c == Failed || c == TimedOut
  }

  // ---------------------------------------------------------------- shared steps

  function Reply(s: State, k: Key, cause: Octet): State {
    s.(out := s.out + [Immediate(k, cause)])
  }

  function Install(s: State, k: Key, tx: Tx): State {
    s.(pending := s.pending[k := tx], admitted := s.admitted + multiset{k})
  }

  // Removes an admitted transaction and answers it.
  function Close(s: State, k: Key, r: Response): State {
    s.(pending := s.pending - {k}, out := s.out + [Answer(k, r)])
  }

  // As Close, for answers that sendFinalCreateBearerResponse also caches for retransmissions.
  function CloseFinal(s: State, k: Key, r: Response): State {
    Close(s, k, r).(cached := s.cached[k := r])
  }

  function PutTx(s: State, k: Key, tx: Tx): State {
    s.(pending := s.pending[k := tx])
  }

  function PutBearer(s: State, k: Key, e: Octet, b: Bearer): State
    requires k in s.pending
  {
    PutTx(s, k, s.pending[k].(bearers := s.pending[k].bearers[e := b]))
  }

  function ReleaseOwned(reservations: map<Octet, TxId>, id: TxId): map<Octet, TxId> {
    map e | e in reservations && reservations[e] != id :: reservations[e]
  }

  // ---------------------------------------------------------------- outcome of a Create

  predicate Active(b: Bearer) {
    b.nasAccepted && b.established
  }

  predicate Decided(b: Bearer) {
    b.nasRejected || b.erabFailed || Active(b)
  }

  ghost predicate AllDecided(tx: Tx) {
    forall e :: e in tx.bearers ==> Decided(tx.bearers[e])
  }

  function ActiveBearers(tx: Tx): set<Octet> {
    set e | e in tx.bearers && Active(tx.bearers[e])
  }

  // failedCreateBearerReleaseItems: failed bearers for which the eNB may hold an E-RAB.
  function ReleaseItems(tx: Tx): set<Octet> {
    set e | e in tx.bearers && !Active(tx.bearers[e])
            && (tx.bearers[e].established || tx.bearers[e].enb.teid != 0 || tx.bearers[e].enb.ip != [])
  }

  // evaluateCreateBearerOutcome.
  function OverallCause(tx: Tx): Octet {
    var failed := tx.bearers.Keys - ActiveBearers(tx);
    if failed == {} then ACCEPTED
    else if ActiveBearers(tx) != {} then ACCEPTED_PARTIALLY
    else if exists e :: e in failed && tx.bearers[e].timer.timedOut then UE_NOT_RESPONDING
    else if exists e :: e in failed && tx.bearers[e].nasRejected then UE_REFUSES
    else if exists e :: e in failed && (tx.bearers[e].nasRejected || tx.bearers[e].erabFailed) then REQUEST_REJECTED
    else REQUEST_DENIED
  }

  // createBearersFromTx: the per-bearer part of the answer.
  function BearerAnswers(tx: Tx): map<Octet, BearerAnswer> {
    map e | e in tx.bearers ::
      BearerAnswer(Active(tx.bearers[e]), if Active(tx.bearers[e]) then NoCause else tx.bearers[e].ran,
                   tx.bearers[e].sgw, tx.bearers[e].enb)
  }

  function Installed(tx: Tx): map<Octet, Bearer> {
    map e | e in ActiveBearers(tx) :: tx.bearers[e].(legacy := 0)
  }

  // finalizeCreateBearerTransactionLocked, with the answer its goroutine sends.
  function Finalize(s: State, k: Key): State
    requires k in s.pending
  {
    var tx := s.pending[k];
    CloseFinal(s.(dedicated := s.dedicated + Installed(tx),
                  reservations := s.reservations - tx.bearers.Keys),
               k, Response(OverallCause(tx), BearerAnswers(tx)))
  }

  // maybeCompleteCreateBearerLocked.
  ghost function MaybeComplete(s: State, k: Key): State
    requires k in s.pending
  {
    var tx := s.pending[k];
    if KindOf(k) != Create || tx.state == CleaningUpERAB || !AllDecided(tx) then s
    else if ReleaseItems(tx) != {} && ActiveS1(s) then
      PutTx(s, k, tx.(state := CleaningUpERAB, cleanup := ReleaseItems(tx)))
    else Finalize(s, k)
  }

  // failCreateBearerTransaction; also onCreateBearerTimeout with REQUEST_DENIED.
  function FailCreate(s: State, k: Key, cause: Octet): State {
    if k !in s.pending then s
    else CloseFinal(s.(reservations := ReleaseOwned(s.reservations, IdOf(k))), k,
                    Response(cause, BearerAnswers(s.pending[k])))
  }

  // ---------------------------------------------------------------- Create Bearer Request

  datatype CreateBearer = CreateBearer(ebi: Octet, qos: QoS, sgw: Transport)
  datatype CreateRequest = CreateRequest(teid: nat, seqNum: nat, linked: Octet, bearers: seq<CreateBearer>)

  function RequestedEbis(req: CreateRequest): seq<Octet> {
    seq(|req.bearers|, i requires 0 <= i < |req.bearers| => req.bearers[i].ebi)
  }

  function Policies(bearers: seq<CreateBearer>): seq<(Octet, Octet, seq<Octet>)> {
    seq(|bearers|, i requires 0 <= i < |bearers| => (bearers[i].qos.qci, bearers[i].qos.arp, bearers[i].qos.tft))
  }

  function FingerprintOf(req: CreateRequest): Fingerprint {
    (req.linked, |req.bearers|, multiset(Policies(req.bearers)))
  }

  // Every EBI assignDedicatedEBIsLocked and allocateDefaultBearerIDLocked treat as taken.
  ghost function Used(s: State): set<Octet> {
    (if s.defaultEbi != 0 then {s.defaultEbi} else {})
    + (set a | a in s.pdns && s.pdns[a].ebi != 0 :: s.pdns[a].ebi)
    + (if s.pendingPdn.Some? && s.pendingPdn.value.pdn.ebi != 0 then {s.pendingPdn.value.pdn.ebi} else {})
    + s.dedicated.Keys + s.reservations.Keys
    + (set k, e | k in s.pending && e in s.pending[k].bearers :: e)
  }

  ghost function LegacyUsed(s: State): set<Octet> {
    {1} + (set k, e | k in s.pending && e in s.pending[k].bearers && s.pending[k].bearers[e].legacy != 0
                      :: s.pending[k].bearers[e].legacy)
  }

  function EffectiveQci(qci: Octet): Octet {
    if qci == 0 then 9 else qci
  }

  function LegacyNeeded(req: CreateRequest, ims: bool): seq<bool> {
    seq(|req.bearers|, i requires 0 <= i < |req.bearers| =>
      ims && (EffectiveQci(req.bearers[i].qos.qci) == 1 || EffectiveQci(req.bearers[i].qos.qci) == 2))
  }

  function NewBearer(id: TxId, linked: Octet, b: CreateBearer, legacy: Octet): Bearer {
    Bearer(id, linked, legacy, b.qos.(qci := EffectiveQci(b.qos.qci)), b.sgw, NoTransport,
           false, false, false, false, NoCause, T.Fresh)
  }

  // The bearers and reservations of the first |ids| bearer contexts.
  function NewBearers(id: TxId, req: CreateRequest, ids: seq<Octet>, legacy: seq<Octet>): (bs: map<Octet, Bearer>)
    requires |ids| <= |legacy| && |ids| <= |req.bearers|
    ensures bs.Keys == set e | e in ids
  {
    if ids == [] then map[]
    else
      var n := |ids| - 1;
      NewBearers(id, req, ids[..n], legacy)[ids[n] := NewBearer(id, req.linked, req.bearers[n], legacy[n])]
  }

  function Reserve(reservations: map<Octet, TxId>, ids: seq<Octet>, id: TxId): map<Octet, TxId> {
    reservations + map e | e in ids :: id
  }

  ghost predicate EquivalentPending(s: State, f: Fingerprint) {
    exists k :: k in s.pending && KindOf(k) == Create && s.pending[k].fingerprint == f
                && !Terminal(s.pending[k].state)
  }

  // linkedBearerActiveLocked and linkedBearerReadyLocked.
  ghost predicate LinkedActive(s: State, e: Octet) {
    e == 0 || s.defaultEbi == e || exists a :: a in s.pdns && s.pdns[a].ebi == e && !s.pdns[a].disconnecting
  }

  ghost predicate LinkedReady(s: State, e: Octet) {
    e == 0
    || (if exists a :: a in s.pdns && s.pdns[a].ebi == e
        then exists a :: a in s.pdns && s.pdns[a].ebi == e && !s.pdns[a].disconnecting
                         && s.pdns[a].nasAccepted && s.pdns[a].established && !s.pdns[a].modifyFailed
        else s.defaultEbi == e)
  }

  // The PDN found by findUEByLocalS11TEID, as read under the lock.
  datatype Linked = Linked(ebi: Octet, ims: bool, aggregating: bool)

  ghost predicate Owned(s: State, k: Key) {
    k in s.pending
    && forall e :: e in s.pending[k].bearers ==> e in s.reservations && s.reservations[e] == IdOf(k)
  }

  // maybeFlushInitialIMSBearerSetupLocked may pick any of these.
  ghost predicate Flushable(s: State, linked: Octet, k: Key) {
    IsCreate(s, k) && s.pending[k].linked == linked
    && (s.pending[k].state == Received || s.pending[k].state == WaitingForLink)
  }

  // HandleCreateBearerRequest up to its first unlock. `pick` is the transaction the
  // aggregation picks when the linked default activation is still staged.
  ghost function CreateBearerRequest(s: State, peer: string, req: CreateRequest,
                                     linked: Option<Linked>, pick: Key): State
  {
    var k := Gtp(peer, Create, req.teid, req.seqNum);
    if linked.None? then Reply(s, k, CONTEXT_NOT_FOUND)
    else if k in s.cached then s.(out := s.out + [Replay(k, s.cached[k])])
    else if k in s.pending then s
    else if EquivalentPending(s, FingerprintOf(req)) then Reply(s, k, REQUEST_REJECTED)
    else if |PendingCreates(s)| >= MAX_PENDING_CREATES then Reply(s, k, REQUEST_DENIED)
    else Allocate(s, k, req, linked.value, pick)
  }

  // assignDedicatedEBIsLocked and the loop over the bearer contexts.
  ghost function Allocate(s: State, k: Key, req: CreateRequest, linked: Linked, pick: Key): State {
    var ids := Assign(RequestedEbis(req), Used(s));
    var legacy := AssignLegacy(LegacyNeeded(req, linked.ims), LegacyUsed(s));
    if |ids| < |req.bearers| then Reply(s, k, ALL_ADDRESSES_OCCUPIED)
    else if |legacy| < |req.bearers| then
      // Reservations made for the bearers before the failing one stay behind.
      Reply(s.(reservations := Reserve(s.reservations, ids[..|legacy|], IdOf(k))), k, REQUEST_DENIED)
    else Proceed(Admit(s, k, req, ids, legacy), k, linked, pick)
  }

  function Admit(s: State, k: Key, req: CreateRequest, ids: seq<Octet>, legacy: seq<Octet>): State
    requires |ids| == |req.bearers| == |legacy|
  {
    Install(s.(reservations := Reserve(s.reservations, ids, IdOf(k))), k,
            Tx(req.linked, FingerprintOf(req), NewBearers(IdOf(k), req, ids, legacy), Received, {}, false))
  }

  // The branch on access and linked bearer readiness that ends the region. When the aggregation
  // finds no transaction to pick the request stays as received.
  ghost function Proceed(s: State, k: Key, linked: Linked, pick: Key): State
    requires k in s.pending
  {
    var tx := s.pending[k];
    if ActiveS1(s) && linked.aggregating then
      if !Flushable(s, linked.ebi, pick) then s
      else if !Owned(s, pick) then Deny(s, k)
      else PutTx(s, pick, s.pending[pick].(state := SettingUpERAB))
    else if !LinkedReady(s, tx.linked) then PutTx(s, k, tx.(state := WaitingForLink))
    else if !ActiveS1(s) && s.access.registered && s.access.idle then PutTx(s, k, tx.(state := WaitingForUE))
    else if ActiveS1(s) then s
    else Deny(s, k)
  }

  function Deny(s: State, k: Key): State {
    Close(s.(reservations := ReleaseOwned(s.reservations, IdOf(k))), k, Response(REQUEST_DENIED, map[]))
  }

  // The later regions that only record progress: paging started, picked by the aggregation of
  // a staged default activation, E-RAB Setup sent.
  ghost function MarkProgress(s: State, k: Key, to: CreateState): State
    requires IsCreate(s, k)
  {
    if to == Paging || to == WaitingResults
       || (to == SettingUpERAB && Flushable(s, s.pending[k].linked, k) && Owned(s, k))
    then PutTx(s, k, s.pending[k].(state := to)) else s
  }

  // resumeCreateBearerTransaction up to the unlock before the E-RAB Setup is sent.
  ghost function Resume(s: State, k: Key): State {
    if k !in s.pending || KindOf(k) != Create || Terminal(s.pending[k].state) then s
    else if !ActiveS1(s) then PutTx(s, k, s.pending[k].(state := WaitingForUE))
    else if !LinkedActive(s, s.pending[k].linked) then
      Close(s.(reservations := ReleaseOwned(s.reservations, IdOf(k))), k,
            Response(CONTEXT_NOT_FOUND, BearerAnswers(s.pending[k])))
    else if !LinkedReady(s, s.pending[k].linked) then PutTx(s, k, s.pending[k].(state := WaitingForLink))
    else PutTx(s, k, s.pending[k].(state := if Owned(s, k) then SettingUpERAB else ActivatingNAS))
  }

  // ---------------------------------------------------------------- results of a Create

  // Activate Dedicated EPS Bearer Context Accept or Reject, for the transaction `k` it matched.
  ghost function ActivationResult(s: State, k: Key, e: Octet, accepted: bool, esmCause: Octet): State
    requires IsCreate(s, k) && e in s.pending[k].bearers
  {
    var b := s.pending[k].bearers[e];
    if e !in s.reservations || s.reservations[e] != IdOf(k) || b.txId != IdOf(k) then s
    else
      var b1 := b.(timer := T.Stop(b.timer));
      var b2 := if accepted then b1.(nasAccepted := true)
                else b1.(nasRejected := true, ran := EsmCause(esmCause));
      MaybeComplete(PutBearer(s, k, e, b2), k)
  }

  // completeDedicatedERABSetupForBearer, for the transaction `k` it matched.
  ghost function SetupResult(s: State, k: Key, e: Octet, success: bool, enb: Transport, cause: RanNasCause): State
    requires IsCreate(s, k) && e in s.pending[k].bearers
  {
    var b := s.pending[k].bearers[e];
    if e !in s.reservations || s.reservations[e] != IdOf(k) then s
    else
      var b1 := b.(enb := enb, established := success, erabFailed := !success,
                   ran := if success then b.ran else cause);
      MaybeComplete(PutBearer(s, k, e, b1), k)
  }

  function Answered(b: Bearer): bool {
    b.nasAccepted || b.nasRejected
  }

  // onDedicatedT3485Expiry up to its first unlock; AfterExpiry is the second region.
  ghost function TimerExpiry(s: State, k: Key, e: Octet, generation: nat): State {
    if !IsCreate(s, k) || e !in s.pending[k].bearers then s
    else
      var b := s.pending[k].bearers[e];
      var (t, reaction) := T.Expire(b.timer, Answered(b), generation, ActiveS1(s));
      PutBearer(s, k, e, b.(timer := t, nasRejected := b.nasRejected || reaction == T.GiveUp))
  }

  ghost function AfterExpiry(s: State, k: Key): State {
    if k in s.pending then MaybeComplete(s, k) else s
  }

  function TimerStart(s: State, k: Key, e: Octet, payload: T.Payload): State {
    if k in s.pending && KindOf(k) == Create && e in s.pending[k].bearers then
      var b := s.pending[k].bearers[e];
      PutBearer(s, k, e, b.(timer := T.Start(b.timer, Answered(b), payload)))
    else s
  }

  // ---------------------------------------------------------------- E-RAB release outcomes

  datatype ReleaseOutcome = ReleaseOutcome(cause: Octet, released: set<Octet>, failed: set<Octet>, missing: set<Octet>)

  // evaluateDedicatedDeleteBearerReleaseOutcome.
  function EvaluateRelease(expected: set<Octet>, released: set<Octet>, failed: set<Octet>): ReleaseOutcome {
    var r := expected * released;
    var f := expected * failed - released;
    var m := expected - released - failed;
    ReleaseOutcome(
      if r != {} && f == {} && m == {} then ACCEPTED
      else if r != {} then ACCEPTED_PARTIALLY
      else if f != {} || m != {} then REQUEST_DENIED
      else SYSTEM_FAILURE,
      r, f, m)
  }

  function Torn(b: Bearer, failed: bool): Bearer {
    b.(established := false, enb := NoTransport, erabFailed := b.erabFailed || failed)
  }

  function AfterCleanup(tx: Tx, o: ReleaseOutcome): Tx {
    tx.(bearers := map e | e in tx.bearers ::
      if e in o.released then Torn(tx.bearers[e], false)
      else if e in o.failed || e in o.missing then Torn(tx.bearers[e], true)
      else tx.bearers[e])
  }

  // completeDedicatedCreateBearerCleanupERABRelease. Its procedure expects the captured items.
  function CleanupDone(s: State, k: Key, released: set<Octet>, failed: set<Octet>): State {
    if k !in s.pending || KindOf(k) != Create || s.pending[k].cleanup == {} then s
    else
      var o := EvaluateRelease(s.pending[k].cleanup, released, failed);
      Finalize(PutTx(s, k, AfterCleanup(s.pending[k], o)), k)
  }

  // failCreateBearerCleanupAfterERABReleaseError: the release could not be sent.
  function CleanupError(s: State, k: Key): State {
    if k !in s.pending || KindOf(k) != Create || s.pending[k].cleanup == {} then s
    else
      var tx := s.pending[k];
      Finalize(PutTx(s, k, tx.(bearers := map e | e in tx.bearers :: Torn(tx.bearers[e], false))), k)
  }

  // ---------------------------------------------------------------- Update Bearer

  datatype Change = Change(ebi: Octet, qos: QoS)

  // applyUpdateBearerRequestToDedicatedBearer: absent (zero or empty) fields keep their value.
  function Changed(q: QoS, c: QoS): QoS {
    QoS(if c.qci != 0 then c.qci else q.qci, if c.arp != 0 then c.arp else q.arp,
        if c.level != [] then c.level else q.level, if c.tft != [] then c.tft else q.tft,
        if c.pco != [] then c.pco else q.pco)
  }

  // updateBearerChangesERABConfiguration.
  predicate ChangesErab(q: QoS, c: QoS) {
    (c.qci != 0 && c.qci != q.qci) || (c.arp != 0 && c.arp != q.arp) || (c.level != [] && c.level != q.level)
  }

  function Updated(b: Bearer, id: TxId, c: Change, active: bool): Bearer {
    var reconfigure := active && b.established && ChangesErab(b.qos, c.qos);
    b.(txId := id, nasAccepted := false, nasRejected := false, qos := Changed(b.qos, c.qos),
       established := b.established && !reconfigure, erabFailed := b.erabFailed && !reconfigure)
  }

  // Every change starts from the active record, so the last one for an EBI wins.
  function UpdatedBearers(dedicated: map<Octet, Bearer>, id: TxId, cs: seq<Change>, active: bool): (bs: map<Octet, Bearer>)
    ensures bs.Keys <= dedicated.Keys
  {
    if cs == [] then map[]
    else
      var n := |cs| - 1;
      var bs := UpdatedBearers(dedicated, id, cs[..n], active);
      if cs[n].ebi in dedicated then bs[cs[n].ebi := Updated(dedicated[cs[n].ebi], id, cs[n], active)] else bs
  }

  // findConflictingPendingNetworkUpdateLocked.
  ghost predicate ConflictingUpdate(s: State, cs: seq<Change>) {
    exists i, k :: 0 <= i < |cs| && k in s.pending && KindOf(k) == Update && cs[i].ebi in s.pending[k].bearers
  }

  // HandleUpdateBearerRequest up to its first unlock.
  ghost function UpdateBearerRequest(s: State, peer: string, teid: nat, seqNum: nat, cs: seq<Change>): State {
    var k := Gtp(peer, Update, teid, seqNum);
    if k in s.pending then s
    else if ConflictingUpdate(s, cs) then Reply(s, k, REQUEST_DENIED)
    else
      var bs := UpdatedBearers(s.dedicated, IdOf(k), cs, ActiveS1(s));
      if bs == map[] then Reply(s, k, CONTEXT_NOT_FOUND)
      else Install(s, k, Tx(0, (0, 0, multiset{}), bs, Received, {}, false))
  }

  // SendERABModifyRequestTracked registers the E-RAB procedure after the NAS messages were sent.
  function ModifySent(s: State, k: Key): State {
    if k in s.pending && KindOf(k) == Update then PutTx(s, k, s.pending[k].(modifying := true)) else s
  }

  predicate Confirmed(tx: Tx, b: Bearer) {
    !b.erabFailed && b.nasAccepted && (tx.modifying ==> b.established)
  }

  // maybeCompleteUpdateBearerLocked. The loop stops at the first bearer that failed or is still
  // open; with both kinds present `failureFirst` says which one the map iteration met.
  ghost function MaybeCompleteUpdate(s: State, k: Key, failureFirst: bool): State
    requires k in s.pending
  {
    var tx := s.pending[k];
    var failed := exists e :: e in tx.bearers && tx.bearers[e].erabFailed;
    var open := exists e :: e in tx.bearers && !tx.bearers[e].erabFailed && !Confirmed(tx, tx.bearers[e]);
    if KindOf(k) != Update then s
    else if failed && (failureFirst || !open) then Close(s, k, Response(REQUEST_REJECTED, map[]))
    else if failed || open then s
    else Close(s.(dedicated := s.dedicated + tx.bearers), k, Response(ACCEPTED, map[]))
  }

  // Modify EPS Bearer Context Accept or Reject, for the transaction `k` it matched.
  ghost function ModifyResult(s: State, k: Key, e: Octet, accepted: bool, failureFirst: bool): State
    requires k in s.pending && (KindOf(k) == Update || KindOf(k) == LocalUpdate) && e in s.pending[k].bearers
  {
    var b := s.pending[k].bearers[e];
    if KindOf(k) == Update then
      if accepted then MaybeCompleteUpdate(PutBearer(s, k, e, b.(nasAccepted := true)), k, failureFirst)
      else Close(s, k, Response(UE_REFUSES, map[]))
    else
      // A UE-initiated modification has no S11 answer.
      var s1 := s.(pending := s.pending - {k});
      if accepted then s1.(dedicated := s.dedicated[e := b]) else s1
  }

  // completeDedicatedUpdateBearerERABModify.
  ghost function ErabModified(s: State, k: Key, modified: set<Octet>, failed: set<Octet>, failureFirst: bool): State {
    if k !in s.pending || KindOf(k) != Update then s
    else
      var tx := s.pending[k];
      var tx1 := tx.(bearers := map e | e in tx.bearers ::
        if e in failed then tx.bearers[e].(established := false, erabFailed := true)
        else if e in modified then tx.bearers[e].(established := true, erabFailed := false)
        else tx.bearers[e]);
      MaybeCompleteUpdate(PutTx(s, k, tx1), k, failureFirst)
  }

  // failUpdateBearerTransaction(ByID) and onUpdateBearerTimeout.
  function FailUpdate(s: State, k: Key, cause: Octet): State {
    if k in s.pending && KindOf(k) == Update then Close(s, k, Response(cause, map[])) else s
  }

  // ---------------------------------------------------------------- UE-initiated modification

  // HandleLocalBearerResourceModification, and the withdrawal when the NAS message cannot be sent.
  function LocalModification(s: State, e: Octet, pti: Octet, tfa: seq<Octet>): State {
    var k := Local(e, pti);
    if e !in s.dedicated || k in s.pending then s
    else
      var b := s.dedicated[e];
      var next := b.(txId := IdOf(k), qos := b.qos.(tft := if tfa != [] then tfa else b.qos.tft));
      PutTx(s, k, Tx(b.linked, (0, 0, multiset{}), map[e := next], Received, {}, false))
  }

  function LocalWithdrawn(s: State, e: Octet, pti: Octet): State {
    s.(pending := s.pending - {Local(e, pti)})
  }

  // ---------------------------------------------------------------- Delete Bearer

  // HandleDeleteBearerRequest up to its first unlock.
  function DeleteBearerRequest(s: State, peer: string, teid: nat, seqNum: nat, ebis: set<Octet>): State {
    var k := Gtp(peer, Delete, teid, seqNum);
    if k in s.pending then s
    else
      var bs := map e | e in ebis && e in s.dedicated :: s.dedicated[e].(txId := IdOf(k));
      if bs == map[] then Reply(s, k, ACCEPTED)
      else Install(s, k, Tx(0, (0, 0, multiset{}), bs, Received, {}, false))
  }

  // When a Deactivate message cannot be sent the request is answered, yet stays pending.
  function DeleteSendFailed(s: State, k: Key): State {
    if k in s.pending && KindOf(k) == Delete
    then s.(out := s.out + [Premature(k, REQUEST_DENIED)]) else s
  }

  ghost predicate ReleaseOverS1(s: State, tx: Tx) {
    && ActiveS1(s)
    && exists e :: e in tx.bearers
                   && (tx.bearers[e].established || tx.bearers[e].enb.teid != 0 || tx.bearers[e].enb.ip != [])
  }

  // Deactivate EPS Bearer Context Accept, for the transaction `k` it matched.
  ghost function DeactivateAccepted(s: State, k: Key, e: Octet): State
    requires k in s.pending && KindOf(k) == Delete && e in s.pending[k].bearers
  {
    var s1 := PutBearer(s, k, e, s.pending[k].bearers[e].(nasAccepted := true));
    var tx := s1.pending[k];
    if exists x :: x in tx.bearers && !tx.bearers[x].nasAccepted then s1
    else if ReleaseOverS1(s1, tx) then PutTx(s1, k, tx.(cleanup := tx.bearers.Keys))
    else Close(s1.(dedicated := s1.dedicated - tx.bearers.Keys), k, Response(ACCEPTED, map[]))
  }

  // completeDedicatedDeleteBearerERABRelease: what could not be released stays, marked failed.
  function DeleteReleased(s: State, k: Key, released: set<Octet>, failed: set<Octet>): State {
    if k !in s.pending || KindOf(k) != Delete || s.pending[k].cleanup == {} then s
    else
      var o := EvaluateRelease(s.pending[k].cleanup, released, failed);
      Close(s.(dedicated := map e | e in s.dedicated && e !in o.released ::
              if e in o.failed || e in o.missing
              then s.dedicated[e].(established := false, erabFailed := true) else s.dedicated[e]),
            k, Response(o.cause, map[]))
  }

  // failDeleteBearerAfterERABReleaseError.
  function DeleteReleaseError(s: State, k: Key): State {
    if k in s.pending && KindOf(k) == Delete then Close(s, k, Response(REQUEST_DENIED, map[])) else s
  }

  // ---------------------------------------------------------------- PDN connectivity

  // handlePDNConnectivityRequest up to the unlock after the reservation. The EBI is the
  // allocateDefaultBearerIDLocked result; 0 means none is free and nothing is reserved.
  ghost function DefaultEbiFor(s: State): Octet {
    FirstFree(Used(s), MIN_EBI, MAX_EBI)
  }

  ghost function PdnReserve(s: State, pti: Octet, apn: string): State {
    var e := DefaultEbiFor(s);
    if apn in s.pdns || s.pendingPdn.Some? || e == 0 then s
    else s.(reservations := s.reservations[e := PdnId(pti, apn)],
            inFlight := s.inFlight + {PdnRequest(e, pti, apn)})
  }

  function NewPdn(ebi: Octet, pti: Octet): Pdn {
    Pdn(ebi, pti, false, false, false, false, false, false)
  }

  // The request installs its PDN without looking again at what else happened meanwhile.
  function PdnInstall(s: State, r: PdnRequest): State {
    if r !in s.inFlight then s
    else s.(inFlight := s.inFlight - {r}, pendingPdn := Some(PendingPdn(r.apn, NewPdn(r.ebi, r.pti))))
  }

  // A request that fails between the two regions leaves its reservation behind.
  function PdnAbandon(s: State, r: PdnRequest): State {
    s.(inFlight := s.inFlight - {r})
  }

  // ESM information transfer: a PendingPDN without an EBI, dropped when the answer arrives.
  function EsmInformation(s: State, pti: Octet, apn: string): State {
    if s.pendingPdn.Some? then s else s.(pendingPdn := Some(PendingPdn(apn, NewPdn(0, pti))))
  }

  // releasePendingPDNReservationLocked.
  function ReleasePdn(reservations: map<Octet, TxId>, p: PendingPdn, ebi: Octet): map<Octet, TxId> {
    if ebi != 0 && ebi in reservations && reservations[ebi] == PdnId(p.pdn.pti, p.apn)
    then reservations - {ebi} else reservations
  }

  function PendingPdnDropped(s: State): State {
    if s.pendingPdn.None? then s
    else s.(pendingPdn := None,
            reservations := ReleasePdn(s.reservations, s.pendingPdn.value, s.pendingPdn.value.pdn.ebi))
  }

  // handlePendingPDNCSRResult for an accepted Create Session Response carrying `ebi`.
  function SessionCreated(s: State, ebi: Octet): State {
    if s.pendingPdn.None? then s
    else if ebi == 0 then PendingPdnDropped(s)
    else
      var p := s.pendingPdn.value;
      var res := if p.pdn.ebi != ebi
                 then ReleasePdn(s.reservations, p, p.pdn.ebi)[ebi := PdnId(p.pdn.pti, p.apn)]
                 else s.reservations;
      s.(pdns := s.pdns[p.apn := p.pdn.(ebi := ebi)], pendingPdn := None, reservations := ReleasePdn(res, p, ebi))
  }

  // findPDNByLinkedEBILocked materialises the attach default bearer as a PDN when none carries it.
  ghost function Materialise(s: State): State {
    if s.defaultEbi == 0 || s.defaultApn == "" || s.defaultApn in s.pdns
       || (exists a :: a in s.pdns && s.pdns[a].ebi == s.defaultEbi) then s
    else s.(pdns := s.pdns[s.defaultApn := NewPdn(s.defaultEbi, 0)])
  }

  // Activation and disconnect progress of a PDN, modelled in their own modules: anything but its identity.
  function PdnProgress(s: State, apn: string, p: Pdn): State {
    if apn in s.pdns then s.(pdns := s.pdns[apn := p.(ebi := s.pdns[apn].ebi, pti := s.pdns[apn].pti)]) else s
  }

  // advancePDNDisconnectCleanup and completePDNDisconnectERABRelease delete linked dedicated bearers.
  function DedicatedRemoved(s: State, ebis: set<Octet>): State {
    s.(dedicated := s.dedicated - ebis)
  }

  // cleanupDisconnectedPDN. Transactions linked to the PDN vanish without an answer, and the
  // reservations of its pending Creates stay behind.
  ghost function PdnRemoved(s: State, apn: string): State {
    if apn !in s.pdns || !s.pdns[apn].deletePending then s
    else
      var e := s.pdns[apn].ebi;
      var gone := set k | k in s.pending && s.pending[k].linked == e;
      s.(pdns := s.pdns - {apn},
         dedicated := map x | x in s.dedicated && s.dedicated[x].linked != e :: s.dedicated[x],
         pending := s.pending - gone,
         dropped := s.dropped + multiset(gone))
  }

  function AccessChanged(s: State, a: Access): State {
    s.(access := a)
  }

  // ---------------------------------------------------------------- events and runs

  datatype Event =
    | CreateArrives(peer: string, req: CreateRequest, link: Option<Linked>, pick: Key)
    | Marked(key: Key, to: CreateState)
    | Resumed(key: Key)
    | CreateFails(key: Key, cause: Octet)
    | Activation(key: Key, ebi: Octet, accepted: bool, cause: Octet)
    | SetupAnswered(key: Key, ebi: Octet, success: bool, enb: Transport, ran: RanNasCause)
    | Started(key: Key, ebi: Octet, payload: T.Payload)
    | Expired(key: Key, ebi: Octet, generation: nat)
    | ExpiryHandled(key: Key)
    | CleanedUp(key: Key, released: set<Octet>, failed: set<Octet>)
    | CleanupNotSent(key: Key)
    | UpdateArrives(peer: string, teid: nat, seqNum: nat, changes: seq<Change>)
    | ModifyRegistered(key: Key)
    | Modification(key: Key, ebi: Octet, accepted: bool, failureFirst: bool)
    | ModifyAnswered(key: Key, modified: set<Octet>, failed: set<Octet>, failureFirst: bool)
    | UpdateFails(key: Key, cause: Octet)
    | LocalArrives(ebi: Octet, pti: Octet, tfa: seq<Octet>)
    | LocalFails(ebi: Octet, pti: Octet)
    | DeleteArrives(peer: string, teid: nat, seqNum: nat, ebis: set<Octet>)
    | DeleteNotSent(key: Key)
    | Deactivation(key: Key, ebi: Octet)
    | DeleteAnswered(key: Key, released: set<Octet>, failed: set<Octet>)
    | DeleteFails(key: Key)
    | PdnArrives(pti: Octet, apn: string)
    | PdnInstalls(request: PdnRequest)
    | PdnAbandons(request: PdnRequest)
    | InformationRequested(pti: Octet, apn: string)
    | PendingPdnFails
    | SessionAnswered(ebi: Octet)
    | DefaultMaterialised
    | PdnAdvances(apn: string, pdn: Pdn)
    | LinkedRemoved(ebis: set<Octet>)
    | PdnRemoval(apn: string)
    | AccessMoves(access: Access)

  ghost predicate Matches(s: State, k: Key, kinds: set<Kind>, e: Octet) {
    k in s.pending && KindOf(k) in kinds && e in s.pending[k].bearers
  }

  ghost function StepCreate(s: State, ev: Event): State {
    match ev
    case CreateArrives(peer, req, link, pick) => CreateBearerRequest(s, peer, req, link, pick)
    case Marked(k, to) => if IsCreate(s, k) then MarkProgress(s, k, to) else s
    case Resumed(k) => Resume(s, k)
    case CreateFails(k, cause) => if IsCreate(s, k) then FailCreate(s, k, cause) else s
    case Activation(k, e, ok, cause) =>
      if Matches(s, k, {Create}, e) then ActivationResult(s, k, e, ok, cause) else s
    case SetupAnswered(k, e, ok, enb, ran) =>
      if Matches(s, k, {Create}, e) then SetupResult(s, k, e, ok, enb, ran) else s
    case Started(k, e, p) => TimerStart(s, k, e, p)
    case Expired(k, e, g) => TimerExpiry(s, k, e, g)
    case ExpiryHandled(k) => AfterExpiry(s, k)
    case CleanedUp(k, r, f) => CleanupDone(s, k, r, f)
    case CleanupNotSent(k) => CleanupError(s, k)
    case _ => s
  }

  ghost function StepUpdate(s: State, ev: Event): State {
    match ev
    case UpdateArrives(peer, teid, n, cs) => UpdateBearerRequest(s, peer, teid, n, cs)
    case ModifyRegistered(k) => ModifySent(s, k)
    case Modification(k, e, ok, ff) =>
      if Matches(s, k, {Update, LocalUpdate}, e) then ModifyResult(s, k, e, ok, ff) else s
    case ModifyAnswered(k, m, f, ff) => ErabModified(s, k, m, f, ff)
    case UpdateFails(k, cause) => FailUpdate(s, k, cause)
    case LocalArrives(e, pti, tfa) => LocalModification(s, e, pti, tfa)
    case LocalFails(e, pti) => LocalWithdrawn(s, e, pti)
    case _ => s
  }

  ghost function StepDelete(s: State, ev: Event): State {
    match ev
    case DeleteArrives(peer, teid, n, ebis) => DeleteBearerRequest(s, peer, teid, n, ebis)
    case DeleteNotSent(k) => DeleteSendFailed(s, k)
    case Deactivation(k, e) => if Matches(s, k, {Delete}, e) then DeactivateAccepted(s, k, e) else s
    case DeleteAnswered(k, r, f) => DeleteReleased(s, k, r, f)
    case DeleteFails(k) => DeleteReleaseError(s, k)
    case _ => s
  }

  ghost function StepPdn(s: State, ev: Event): State {
    match ev
    case PdnArrives(pti, apn) => PdnReserve(s, pti, apn)
    case PdnInstalls(r) => PdnInstall(s, r)
    case PdnAbandons(r) => PdnAbandon(s, r)
    case InformationRequested(pti, apn) => EsmInformation(s, pti, apn)
    case PendingPdnFails => PendingPdnDropped(s)
    case SessionAnswered(e) => SessionCreated(s, e)
    case DefaultMaterialised => Materialise(s)
    case PdnAdvances(apn, p) => PdnProgress(s, apn, p)
    case LinkedRemoved(es) => DedicatedRemoved(s, es)
    case PdnRemoval(apn) => PdnRemoved(s, apn)
    case AccessMoves(a) => AccessChanged(s, a)
    case _ => s
  }

  predicate CreateEvent(ev: Event) {
    ev.CreateArrives? || ev.Marked? || ev.Resumed? || ev.CreateFails? || ev.Activation? || ev.SetupAnswered?
    || ev.Started? || ev.Expired? || ev.ExpiryHandled? || ev.CleanedUp? || ev.CleanupNotSent?
  }

  predicate DeleteEvent(ev: Event) {
    ev.DeleteArrives? || ev.DeleteNotSent? || ev.Deactivation? || ev.DeleteAnswered? || ev.DeleteFails?
  }

  predicate PdnEvent(ev: Event) {
    ev.PdnArrives? || ev.PdnInstalls? || ev.PdnAbandons? || ev.InformationRequested? || ev.PendingPdnFails?
    || ev.SessionAnswered? || ev.DefaultMaterialised? || ev.PdnAdvances? || ev.LinkedRemoved?
    || ev.PdnRemoval? || ev.AccessMoves?
  }

  ghost function Step(s: State, ev: Event): State {
    if CreateEvent(ev) then StepCreate(s, ev)
    else if PdnEvent(ev) then StepPdn(s, ev)
    else if DeleteEvent(ev) then StepDelete(s, ev)
    else StepUpdate(s, ev)
  }

  // Any interleaving of the regions, in any order.
  ghost function Run(s: State, evs: seq<Event>): State
    decreases |evs|
  {
    if evs == [] then s else Run(Step(s, evs[0]), evs[1..])
  }
}
