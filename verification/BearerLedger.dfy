/**
 * Whole-run properties of the bearer machine: the books of S11 transactions balance, at most
 * four Creates are pending, legacy identifiers never clash, and a retransmitted request either
 * changes nothing or replays the answer that was sent.
 */
module BearerLedger {
  import opened Common
  import opened EbiAllocation
  import opened BearerMachine
  import opened BearerInvariants
  import T = ActivationTimer

  // ---------------------------------------------------------------- the books

  // The transactions that S11 asked for.
  predicate Accounted(k: Key) {
    k.Gtp? && k.msg != LocalUpdate
  }

  function Settled(s: State, k: Key): nat {
    AnsweredKeys(s.out)[k] + s.dropped[k]
  }

  // Every admission is pending, answered, or dropped with its PDN, and never two of these.
  ghost predicate Balanced(s: State) {
    forall k :: Accounted(k) ==> s.admitted[k] == Settled(s, k) + if k in s.pending then 1 else 0
  }

  ghost predicate CacheSound(s: State) {
    forall k :: k in s.cached ==>
      Accounted(k) && k.msg == Create && k !in s.pending && Answer(k, s.cached[k]) in s.out
  }

  ghost predicate Books(s: State) {
    Balanced(s) && CacheSound(s) && |PendingCreates(s)| <= MAX_PENDING_CREATES && LegacyDistinct(s)
  }

  // No new legacy identifiers.
  ghost predicate LegacySubset(s: State, t: State) {
    forall k, e :: IsCreate(t, k) && e in t.pending[k].bearers ==>
      IsCreate(s, k) && e in s.pending[k].bearers && t.pending[k].bearers[e].legacy == s.pending[k].bearers[e].legacy
  }

  // Nothing that was sent is taken back, a cached answer never changes, and the transaction
  // it answered is never admitted again.
  ghost predicate Extends(s: State, t: State) {
    s.out <= t.out
    && forall k :: k in s.cached ==> k in t.cached && t.cached[k] == s.cached[k] && t.admitted[k] == s.admitted[k]
  }

  // Denials of Deletes that stay pending, with multiplicity.
  function PrematureKeys(out: seq<Out>): multiset<Key> {
    if out == [] then multiset{}
    else
      var last := out[|out| - 1];
      PrematureKeys(out[..|out| - 1]) + if last.Premature? then multiset{last.key} else multiset{}
  }

  ghost predicate Grows(s: State, t: State) {
    Books(s) ==> Books(t) && Extends(s, t) && PrematureKeys(t.out) == PrematureKeys(s.out)
  }

  lemma GrowsTwice(s: State, mid: State, t: State)
    requires Grows(s, mid) && Grows(mid, t)
    ensures Grows(s, t)
  {}

  lemma NoStep(s: State)
    ensures Grows(s, s)
  {}

  lemma Sent(out: seq<Out>, o: Out)
    ensures AnsweredKeys(out + [o]) == AnsweredKeys(out) + if o.Answer? then multiset{o.key} else multiset{}
    ensures PrematureKeys(out + [o]) == PrematureKeys(out) + if o.Premature? then multiset{o.key} else multiset{}
  {
    assert (out + [o])[..|out|] == out;
  }

  // Steps that send no answer and neither admit nor end a transaction.
  lemma QuietStep(s: State, t: State)
    requires t.out == s.out || (|t.out| == |s.out| + 1 && t.out == s.out + [t.out[|s.out|]]
                                && !t.out[|s.out|].Answer? && !t.out[|s.out|].Premature?)
    requires t.admitted == s.admitted && t.dropped == s.dropped && t.cached == s.cached
    requires forall k :: Accounted(k) ==> (k in t.pending <==> k in s.pending)
    requires PendingCreates(t) <= PendingCreates(s) && LegacySubset(s, t)
    ensures Grows(s, t)
  {
    hide AnsweredKeys, PrematureKeys;
    if t.out != s.out { Sent(s.out, t.out[|s.out|]); }
    SubsetSize(PendingCreates(t), PendingCreates(s));
    LegacyKept(s, t);
  }

  lemma LegacyKept(s: State, t: State)
    requires LegacySubset(s, t)
    ensures LegacyDistinct(s) ==> LegacyDistinct(t)
  {}

  lemma ClosingBalances(s: State, t: State, k: Key, r: Response)
    requires k in s.pending && t.pending == s.pending - {k} && t.out == s.out + [Answer(k, r)]
    requires t.admitted == s.admitted && t.dropped == s.dropped
    ensures Balanced(s) ==> Balanced(t)
    ensures PrematureKeys(t.out) == PrematureKeys(s.out)
  {
    Sent(s.out, Answer(k, r));
    hide AnsweredKeys, PrematureKeys;
  }

  lemma ClosingCaches(s: State, t: State, k: Key, r: Response)
    requires k in s.pending && (KindOf(k) == Create ==> Accounted(k))
    requires t.pending == s.pending - {k} && t.out == s.out + [Answer(k, r)] && t.admitted == s.admitted
    requires t.cached == s.cached || (KindOf(k) == Create && k !in s.cached && t.cached == s.cached[k := r])
    ensures CacheSound(s) ==> CacheSound(t) && Extends(s, t)
  {
    assert Answer(k, r) in t.out by { assert t.out[|s.out|] == Answer(k, r); }
  }

  lemma ClosingStep(s: State, t: State, k: Key, r: Response)
    requires k in s.pending && (KindOf(k) == Create ==> Accounted(k))
    requires t.pending == s.pending - {k} && t.out == s.out + [Answer(k, r)]
    requires t.admitted == s.admitted && t.dropped == s.dropped
    requires t.cached == s.cached || (KindOf(k) == Create && k !in s.cached && t.cached == s.cached[k := r])
    ensures Grows(s, t)
  {
    hide AnsweredKeys, PrematureKeys, Balanced, CacheSound, Extends, LegacyDistinct;
    ClosingBalances(s, t, k, r);
    ClosingCaches(s, t, k, r);
    SubsetSize(PendingCreates(t), PendingCreates(s));
    LegacyKept(s, t);
  }

  lemma InstallStep(s: State, t: State, k: Key)
    requires k !in s.pending && k in t.pending && t.pending == s.pending[k := t.pending[k]]
    requires t.out == s.out && t.cached == s.cached && (KindOf(k) == Create ==> k !in s.cached)
    requires t.admitted == s.admitted + multiset{k} && t.dropped == s.dropped
    requires KindOf(k) == Create ==> |PendingCreates(s)| < MAX_PENDING_CREATES
    requires LegacyDistinct(s) ==> LegacyDistinct(t)
    ensures Grows(s, t)
  {
    SubsetSize(PendingCreates(t), PendingCreates(s) + if KindOf(k) == Create then {k} else {});
  }

  // ---------------------------------------------------------------- Create steps

  lemma PutTxBooks(s: State, k: Key, tx: Tx)
    requires k in s.pending && (IsCreate(s, k) ==> !Terminal(s.pending[k].state))
    requires tx.bearers.Keys == s.pending[k].bearers.Keys
    requires forall e :: e in tx.bearers ==> tx.bearers[e].legacy == s.pending[k].bearers[e].legacy
    ensures Grows(s, PutTx(s, k, tx))
  {
    hide Grows;
    QuietStep(s, PutTx(s, k, tx));
  }

  lemma FinalizeBooks(s: State, k: Key)
    requires k in s.pending && Accounted(k) && k.msg == Create && CacheSound(s)
    ensures Grows(s, Finalize(s, k))
  {
    hide Grows;
    ClosingStep(s, Finalize(s, k), k, Response(OverallCause(s.pending[k]), BearerAnswers(s.pending[k])));
  }

  lemma MaybeCompleteBooks(s: State, k: Key)
    requires k in s.pending && (KindOf(k) == Create ==> Accounted(k)) && CacheSound(s)
    requires IsCreate(s, k) ==> !Terminal(s.pending[k].state)
    ensures Grows(s, MaybeComplete(s, k))
  {
    hide Grows;
    NoStep(s);
    if KindOf(k) == Create {
      PutTxBooks(s, k, s.pending[k].(state := CleaningUpERAB, cleanup := ReleaseItems(s.pending[k])));
      FinalizeBooks(s, k);
    }
  }

  lemma DenyBooks(s: State, k: Key)
    requires k in s.pending && Accounted(k)
    ensures Grows(s, Deny(s, k))
  {
    hide Grows;
    ClosingStep(s, Deny(s, k), k, Response(REQUEST_DENIED, map[]));
  }

  lemma ProceedBooks(s: State, k: Key, linked: Linked, pick: Key)
    requires IsCreate(s, k) && Accounted(k) && CreateShape(s)
    ensures Grows(s, Proceed(s, k, linked, pick))
  {
    hide Grows;
    var tx := s.pending[k];
    if ActiveS1(s) && linked.aggregating {
      NoStep(s);
      if Flushable(s, linked.ebi, pick) && !Owned(s, pick) {
        DenyBooks(s, k);
      } else if Flushable(s, linked.ebi, pick) {
        PutTxBooks(s, pick, s.pending[pick].(state := SettingUpERAB));
      }
    } else if !LinkedReady(s, tx.linked) {
      PutTxBooks(s, k, tx.(state := WaitingForLink));
    } else if !ActiveS1(s) && s.access.registered && s.access.idle {
      PutTxBooks(s, k, tx.(state := WaitingForUE));
    } else if ActiveS1(s) {
      NoStep(s);
    } else {
      DenyBooks(s, k);
    }
  }

  lemma {:induction false} NewBearersLegacy(id: TxId, req: CreateRequest, ids: seq<Octet>, legacy: seq<Octet>, i: nat)
    requires i < |ids| <= |legacy| && |ids| <= |req.bearers| && Distinct(ids)
    ensures NewBearers(id, req, ids, legacy)[ids[i]].legacy == legacy[i]
  {
    var n := |ids| - 1;
    if i < n {
      NewBearersLegacy(id, req, ids[..n], legacy, i);
    }
  }

  // New bearers whose legacy identifiers are unused and distinct.
  ghost predicate FreshLegacy(s: State, bs: map<Octet, Bearer>) {
    && (forall e :: e in bs && bs[e].legacy != 0 ==>
          MIN_LEGACY <= bs[e].legacy <= MAX_LEGACY && bs[e].legacy !in LegacyUsed(s))
    && (forall e, f :: e in bs && f in bs && bs[e].legacy == bs[f].legacy != 0 ==> e == f)
  }

  lemma NewBearersFreshLegacy(s: State, id: TxId, req: CreateRequest, ids: seq<Octet>, needed: seq<bool>)
    requires Distinct(ids) && |ids| == |req.bearers| == |AssignLegacy(needed, LegacyUsed(s))|
    ensures FreshLegacy(s, NewBearers(id, req, ids, AssignLegacy(needed, LegacyUsed(s))))
  {
    hide LegacyUsed;
    var legacy := AssignLegacy(needed, LegacyUsed(s));
    AssignLegacySound(needed, LegacyUsed(s));
    var bs := NewBearers(id, req, ids, legacy);
    forall e | e in bs ensures exists i :: 0 <= i < |ids| && ids[i] == e && bs[e].legacy == legacy[i] {
      var i :| 0 <= i < |ids| && ids[i] == e;
      NewBearersLegacy(id, req, ids, legacy, i);
    }
  }

  lemma InstallKeepsLegacyDistinct(s: State, t: State, k: Key)
    requires LegacyDistinct(s) && KindOf(k) == Create && k !in s.pending && k in t.pending
    requires t.pending == s.pending[k := t.pending[k]] && FreshLegacy(s, t.pending[k].bearers)
    ensures LegacyDistinct(t)
  {}

  lemma AdmitShape(s: State, k: Key, req: CreateRequest, ids: seq<Octet>, legacy: seq<Octet>)
    requires |ids| == |req.bearers| == |legacy| && CreateShape(s)
    ensures CreateShape(Admit(s, k, req, ids, legacy))
  {
    hide NewBearers;
    NewBearersBelong(IdOf(k), req, ids, legacy);
  }

  lemma AdmitBooks(s: State, k: Key, req: CreateRequest, ids: seq<Octet>, needed: seq<bool>)
    requires |ids| == |req.bearers| == |AssignLegacy(needed, LegacyUsed(s))| && Distinct(ids)
    requires k !in s.pending && k !in s.cached && KindOf(k) == Create
    requires |PendingCreates(s)| < MAX_PENDING_CREATES
    ensures Grows(s, Admit(s, k, req, ids, AssignLegacy(needed, LegacyUsed(s))))
  {
    hide Grows, LegacyDistinct, LegacyUsed, FreshLegacy, PendingCreates, NewBearers, AssignLegacy, Distinct;
    var t := Admit(s, k, req, ids, AssignLegacy(needed, LegacyUsed(s)));
    NewBearersFreshLegacy(s, IdOf(k), req, ids, needed);
    if LegacyDistinct(s) { InstallKeepsLegacyDistinct(s, t, k); }
    InstallStep(s, t, k);
  }

  lemma AdmitThenProceed(s: State, k: Key, req: CreateRequest, ids: seq<Octet>, legacy: seq<Octet>,
                         linked: Linked, pick: Key)
    requires |ids| == |req.bearers| == |legacy| && Accounted(k) && k.msg == Create
    requires Grows(s, Admit(s, k, req, ids, legacy)) && CreateShape(Admit(s, k, req, ids, legacy))
    ensures Grows(s, Proceed(Admit(s, k, req, ids, legacy), k, linked, pick))
  {
    hide Grows;
    hide CreateShape;
    hide Proceed;
    ProceedBooks(Admit(s, k, req, ids, legacy), k, linked, pick);
    GrowsTwice(s, Admit(s, k, req, ids, legacy), Proceed(Admit(s, k, req, ids, legacy), k, linked, pick));
  }

  // A refused request, with whatever was reserved for it.
  lemma RefusalBooks(s: State, reservations: map<Octet, TxId>, k: Key, cause: Octet)
    ensures Grows(s, Reply(s.(reservations := reservations), k, cause))
  {
    hide Grows;
    QuietStep(s, Reply(s.(reservations := reservations), k, cause));
  }

  lemma AllocateBooks(s: State, k: Key, req: CreateRequest, linked: Linked, pick: Key)
    requires k !in s.pending && k !in s.cached && Accounted(k) && k.msg == Create
    requires |PendingCreates(s)| < MAX_PENDING_CREATES && CreateShape(s)
    ensures Grows(s, Allocate(s, k, req, linked, pick))
  {
    hide Grows, Used, LegacyUsed, Assign, AssignLegacy, Proceed, Reserve, PendingCreates, CreateShape;
    var ids := Assign(RequestedEbis(req), Used(s));
    var legacy := AssignLegacy(LegacyNeeded(req, linked.ims), LegacyUsed(s));
    if |ids| < |req.bearers| {
      RefusalBooks(s, s.reservations, k, ALL_ADDRESSES_OCCUPIED);
    } else if |legacy| < |req.bearers| {
      RefusalBooks(s, Reserve(s.reservations, ids[..|legacy|], IdOf(k)), k, REQUEST_DENIED);
    } else {
      AssignSound(RequestedEbis(req), Used(s));
      AdmitBooks(s, k, req, ids, LegacyNeeded(req, linked.ims));
      AdmitShape(s, k, req, ids, legacy);
      AdmitThenProceed(s, k, req, ids, legacy, linked, pick);
    }
  }

  lemma CreateBearerRequestBooks(s: State, peer: string, req: CreateRequest, link: Option<Linked>, pick: Key)
    requires CreateShape(s)
    ensures Grows(s, CreateBearerRequest(s, peer, req, link, pick))
  {
    hide Grows, Allocate, EquivalentPending, FingerprintOf;
    var k := Gtp(peer, Create, req.teid, req.seqNum);
    if link.None? || k in s.cached || k in s.pending || EquivalentPending(s, FingerprintOf(req))
       || |PendingCreates(s)| >= MAX_PENDING_CREATES {
      QuietStep(s, CreateBearerRequest(s, peer, req, link, pick));
    } else {
      AllocateBooks(s, k, req, link.value, pick);
    }
  }

  lemma ResumeBooks(s: State, k: Key)
    requires CreateShape(s)
    ensures Grows(s, Resume(s, k))
  {
    hide Grows;
    NoStep(s);
    if IsCreate(s, k) {
      if ActiveS1(s) && !LinkedActive(s, s.pending[k].linked) {
        ClosingStep(s, Resume(s, k), k, Response(CONTEXT_NOT_FOUND, BearerAnswers(s.pending[k])));
      } else {
        PutTxBooks(s, k, s.pending[k].(state := Resume(s, k).pending[k].state));
      }
    }
  }

  lemma PutBearerBooks(s: State, k: Key, e: Octet, b: Bearer)
    requires IsCreate(s, k) && CreateShape(s) && e in s.pending[k].bearers
    requires b.legacy == s.pending[k].bearers[e].legacy && b.txId == s.pending[k].bearers[e].txId
    ensures Grows(s, PutBearer(s, k, e, b)) && CreateShape(PutBearer(s, k, e, b))
  {
    hide Grows;
    PutTxBooks(s, k, s.pending[k].(bearers := s.pending[k].bearers[e := b]));
  }

  lemma PutThenComplete(s: State, k: Key, e: Octet, b: Bearer)
    requires IsCreate(s, k) && CreateShape(s) && CacheSound(s) && e in s.pending[k].bearers
    requires b.legacy == s.pending[k].bearers[e].legacy && b.txId == s.pending[k].bearers[e].txId
    ensures Grows(s, MaybeComplete(PutBearer(s, k, e, b), k))
  {
    hide Grows;
    PutBearerBooks(s, k, e, b);
    MaybeCompleteBooks(PutBearer(s, k, e, b), k);
    GrowsTwice(s, PutBearer(s, k, e, b), MaybeComplete(PutBearer(s, k, e, b), k));
  }

  lemma ActivationResultBooks(s: State, k: Key, e: Octet, ok: bool, cause: Octet)
    requires Matches(s, k, {Create}, e) && CreateShape(s) && CacheSound(s)
    ensures Grows(s, ActivationResult(s, k, e, ok, cause))
  {
    hide Grows;
    hide MaybeComplete;
    NoStep(s);
    var b := s.pending[k].bearers[e];
    var stopped := b.(timer := T.Stop(b.timer));
    PutThenComplete(s, k, e, if ok then stopped.(nasAccepted := true)
                             else stopped.(nasRejected := true, ran := EsmCause(cause)));
  }

  lemma SetupResultBooks(s: State, k: Key, e: Octet, ok: bool, enb: Transport, ran: RanNasCause)
    requires Matches(s, k, {Create}, e) && CreateShape(s) && CacheSound(s)
    ensures Grows(s, SetupResult(s, k, e, ok, enb, ran))
  {
    hide Grows;
    hide MaybeComplete;
    NoStep(s);
    var b := s.pending[k].bearers[e];
    PutThenComplete(s, k, e, b.(enb := enb, established := ok, erabFailed := !ok, ran := if ok then b.ran else ran));
  }

  lemma TimerBooks(s: State, k: Key, e: Octet, g: nat, p: T.Payload)
    requires CreateShape(s)
    ensures Grows(s, TimerStart(s, k, e, p)) && Grows(s, TimerExpiry(s, k, e, g))
  {
    hide Grows;
    NoStep(s);
    if IsCreate(s, k) && e in s.pending[k].bearers {
      PutBearerBooks(s, k, e, TimerStart(s, k, e, p).pending[k].bearers[e]);
      PutBearerBooks(s, k, e, TimerExpiry(s, k, e, g).pending[k].bearers[e]);
    }
  }

  lemma PutThenFinalize(s: State, k: Key, tx: Tx)
    requires IsCreate(s, k) && CreateShape(s) && CacheSound(s)
    requires tx.bearers.Keys == s.pending[k].bearers.Keys
    requires forall e :: e in tx.bearers ==> tx.bearers[e].legacy == s.pending[k].bearers[e].legacy
    ensures Grows(s, Finalize(PutTx(s, k, tx), k))
  {
    hide Grows;
    PutTxBooks(s, k, tx);
    FinalizeBooks(PutTx(s, k, tx), k);
    GrowsTwice(s, PutTx(s, k, tx), Finalize(PutTx(s, k, tx), k));
  }

  lemma CleanupBooks(s: State, k: Key, released: set<Octet>, failed: set<Octet>)
    requires CreateShape(s) && CacheSound(s)
    ensures Grows(s, CleanupDone(s, k, released, failed)) && Grows(s, CleanupError(s, k))
  {
    hide Grows;
    hide Finalize;
    NoStep(s);
    if IsCreate(s, k) && s.pending[k].cleanup != {} {
      var tx := s.pending[k];
      PutThenFinalize(s, k, AfterCleanup(tx, EvaluateRelease(tx.cleanup, released, failed)));
      PutThenFinalize(s, k, tx.(bearers := map e | e in tx.bearers :: Torn(tx.bearers[e], false)));
    }
  }

  lemma MarkBooks(s: State, k: Key, to: CreateState)
    requires CreateShape(s)
    ensures IsCreate(s, k) ==> Grows(s, MarkProgress(s, k, to))
  {
    hide Grows;
    NoStep(s);
    if IsCreate(s, k) { PutTxBooks(s, k, s.pending[k].(state := to)); }
  }

  lemma FailCreateBooks(s: State, k: Key, cause: Octet)
    requires CreateShape(s) && CacheSound(s)
    ensures IsCreate(s, k) ==> Grows(s, FailCreate(s, k, cause))
  {
    hide Grows;
    if IsCreate(s, k) { ClosingStep(s, FailCreate(s, k, cause), k, Response(cause, BearerAnswers(s.pending[k]))); }
  }

  lemma AfterExpiryBooks(s: State, k: Key)
    requires CreateShape(s) && CacheSound(s)
    ensures Grows(s, AfterExpiry(s, k))
  {
    hide Grows;
    NoStep(s);
    if IsCreate(s, k) { MaybeCompleteBooks(s, k); }
  }

  lemma StepCreateBooks(s: State, ev: Event)
    requires CreateShape(s) && CacheSound(s)
    ensures Grows(s, StepCreate(s, ev))
  {
    hide Grows;
    hide CreateBearerRequest, Resume, ActivationResult, SetupResult, TimerStart, TimerExpiry, CleanupDone, CleanupError;
    hide MarkProgress, FailCreate, AfterExpiry, CreateShape, CacheSound, IsCreate, Matches;
    NoStep(s);
    match ev
    case CreateArrives(peer, req, link, pick) => CreateBearerRequestBooks(s, peer, req, link, pick);
    case Marked(k, to) => MarkBooks(s, k, to);
    case Resumed(k) => ResumeBooks(s, k);
    case CreateFails(k, cause) => FailCreateBooks(s, k, cause);
    case Activation(k, e, ok, cause) =>
      if Matches(s, k, {Create}, e) { ActivationResultBooks(s, k, e, ok, cause); }
    case SetupAnswered(k, e, ok, enb, ran) =>
      if Matches(s, k, {Create}, e) { SetupResultBooks(s, k, e, ok, enb, ran); }
    case Started(k, e, p) => TimerBooks(s, k, e, 0, p);
    case Expired(k, e, g) => TimerBooks(s, k, e, g, []);
    case ExpiryHandled(k) => AfterExpiryBooks(s, k);
    case CleanedUp(k, r, f) => CleanupBooks(s, k, r, f);
    case CleanupNotSent(k) => CleanupBooks(s, k, {}, {});
    case _ =>
  }

  // ---------------------------------------------------------------- other steps

  // Books read Create transactions and the set of pending keys only.
  lemma OtherTxStep(s: State, t: State, k: Key)
    requires k in s.pending && KindOf(k) != Create && k in t.pending
    requires t.pending == s.pending[k := t.pending[k]]
    requires t.out == s.out && t.admitted == s.admitted && t.dropped == s.dropped && t.cached == s.cached
    ensures Grows(s, t)
  {
    hide Grows;
    QuietStep(s, t);
  }

  lemma LocalStep(s: State, t: State, e: Octet, pti: Octet)
    requires t.pending - {Local(e, pti)} == s.pending - {Local(e, pti)}
    requires t.out == s.out && t.admitted == s.admitted && t.dropped == s.dropped && t.cached == s.cached
    ensures Grows(s, t)
  {
    hide Grows;
    forall k: Key | !k.Local? ensures k in t.pending <==> k in s.pending
             ensures k in s.pending ==> t.pending[k] == s.pending[k]
    {
      assert k in t.pending - {Local(e, pti)} <==> k in s.pending - {Local(e, pti)};
      if k in s.pending { assert (t.pending - {Local(e, pti)})[k] == (s.pending - {Local(e, pti)})[k]; }
    }
    QuietStep(s, t);
  }

  lemma MaybeCompleteUpdateBooks(s: State, k: Key, ff: bool)
    requires k in s.pending && KindOf(k) == Update
    ensures Grows(s, MaybeCompleteUpdate(s, k, ff))
  {
    hide Grows, Confirmed;
    NoStep(s);
    var t := MaybeCompleteUpdate(s, k, ff);
    if k !in t.pending {
      ClosingStep(s, t, k, t.out[|s.out|].response);
    }
  }

  lemma UpdateRequestBooks(s: State, peer: string, teid: nat, n: nat, cs: seq<Change>)
    ensures Grows(s, UpdateBearerRequest(s, peer, teid, n, cs))
  {
    hide Grows, UpdatedBearers, ConflictingUpdate, ActiveS1;
    var k := Gtp(peer, Update, teid, n);
    var bs := UpdatedBearers(s.dedicated, IdOf(k), cs, ActiveS1(s));
    if k in s.pending || ConflictingUpdate(s, cs) || bs == map[] {
      QuietStep(s, UpdateBearerRequest(s, peer, teid, n, cs));
    } else {
      InstallOtherBooks(s, k, bs);
    }
  }

  lemma LocalBooks(s: State, e: Octet, pti: Octet, tfa: seq<Octet>)
    ensures Grows(s, LocalModification(s, e, pti, tfa)) && Grows(s, LocalWithdrawn(s, e, pti))
  {
    hide Grows;
    LocalStep(s, LocalModification(s, e, pti, tfa), e, pti);
    LocalStep(s, LocalWithdrawn(s, e, pti), e, pti);
  }

  lemma FailUpdateBooks(s: State, k: Key, cause: Octet)
    ensures Grows(s, FailUpdate(s, k, cause)) && Grows(s, ModifySent(s, k))
  {
    hide Grows;
    NoStep(s);
    if k in s.pending && KindOf(k) == Update {
      OtherTxStep(s, ModifySent(s, k), k);
      ClosingStep(s, FailUpdate(s, k, cause), k, Response(cause, map[]));
    }
  }

  lemma StepUpdateBooks(s: State, ev: Event)
    ensures Grows(s, StepUpdate(s, ev))
  {
    hide Grows;
    hide UpdateBearerRequest, ModifyResult, ErabModified, LocalModification, LocalWithdrawn, ModifySent, FailUpdate;
    hide Matches;
    NoStep(s);
    match ev
    case UpdateArrives(peer, teid, n, cs) => UpdateRequestBooks(s, peer, teid, n, cs);
    case ModifyRegistered(k) => FailUpdateBooks(s, k, 0);
    case Modification(k, e, ok, ff) =>
      if Matches(s, k, {Update, LocalUpdate}, e) { ModifyResultBooks(s, k, e, ok, ff); }
    case ModifyAnswered(k, m, f, ff) => ErabModifiedBooks(s, k, m, f, ff);
    case UpdateFails(k, cause) => FailUpdateBooks(s, k, cause);
    case LocalArrives(e, pti, tfa) => LocalBooks(s, e, pti, tfa);
    case LocalFails(e, pti) => LocalBooks(s, e, pti, []);
    case _ =>
  }

  lemma InstallOtherBooks(s: State, k: Key, bs: map<Octet, Bearer>)
    requires k !in s.pending && KindOf(k) != Create
    ensures Grows(s, Install(s, k, Tx(0, (0, 0, multiset{}), bs, Received, {}, false)))
  {
    hide Grows;
    InstallStep(s, Install(s, k, Tx(0, (0, 0, multiset{}), bs, Received, {}, false)), k);
  }

  lemma ModifyAcceptedBooks(s: State, k: Key, e: Octet, ff: bool)
    requires k in s.pending && KindOf(k) == Update && e in s.pending[k].bearers
    ensures Grows(s, MaybeCompleteUpdate(PutBearer(s, k, e, s.pending[k].bearers[e].(nasAccepted := true)), k, ff))
  {
    hide Grows;
    hide MaybeCompleteUpdate;
    var s1 := PutBearer(s, k, e, s.pending[k].bearers[e].(nasAccepted := true));
    OtherTxStep(s, s1, k);
    MaybeCompleteUpdateBooks(s1, k, ff);
    GrowsTwice(s, s1, MaybeCompleteUpdate(s1, k, ff));
  }

  lemma ModifyResultBooks(s: State, k: Key, e: Octet, accepted: bool, ff: bool)
    requires Matches(s, k, {Update, LocalUpdate}, e)
    ensures Grows(s, ModifyResult(s, k, e, accepted, ff))
  {
    hide Grows;
    if KindOf(k) == LocalUpdate {
      QuietStep(s, ModifyResult(s, k, e, accepted, ff));
    } else if accepted {
      ModifyAcceptedBooks(s, k, e, ff);
    } else {
      ClosingStep(s, Close(s, k, Response(UE_REFUSES, map[])), k, Response(UE_REFUSES, map[]));
    }
  }

  lemma ErabModifiedBooks(s: State, k: Key, modified: set<Octet>, failed: set<Octet>, ff: bool)
    ensures Grows(s, ErabModified(s, k, modified, failed, ff))
  {
    hide Grows;
    hide MaybeCompleteUpdate;
    NoStep(s);
    if k in s.pending && KindOf(k) == Update {
      var tx := s.pending[k];
      var s1 := PutTx(s, k, tx.(bearers := map e | e in tx.bearers ::
        if e in failed then tx.bearers[e].(established := false, erabFailed := true)
        else if e in modified then tx.bearers[e].(established := true, erabFailed := false)
        else tx.bearers[e]));
      OtherTxStep(s, s1, k);
      MaybeCompleteUpdateBooks(s1, k, ff);
      GrowsTwice(s, s1, MaybeCompleteUpdate(s1, k, ff));
    }
  }

  lemma DeleteRequestBooks(s: State, peer: string, teid: nat, n: nat, ebis: set<Octet>)
    ensures Grows(s, DeleteBearerRequest(s, peer, teid, n, ebis))
  {
    hide Grows;
    var k := Gtp(peer, Delete, teid, n);
    var bs := map e | e in ebis && e in s.dedicated :: s.dedicated[e].(txId := IdOf(k));
    NoStep(s);
    if k !in s.pending && bs == map[] {
      QuietStep(s, Reply(s, k, ACCEPTED));
    } else if k !in s.pending {
      InstallOtherBooks(s, k, bs);
    }
  }

  lemma DeactivateBooks(s: State, k: Key, e: Octet)
    requires k in s.pending && KindOf(k) == Delete && e in s.pending[k].bearers
    ensures Grows(s, DeactivateAccepted(s, k, e))
  {
    hide Grows;
    var s1 := PutBearer(s, k, e, s.pending[k].bearers[e].(nasAccepted := true));
    var t := DeactivateAccepted(s, k, e);
    OtherTxStep(s, s1, k);
    NoStep(s1);
    if k in t.pending {
      OtherTxStep(s1, t, k);
    } else {
      ClosingStep(s1, t, k, Response(ACCEPTED, map[]));
    }
    GrowsTwice(s, s1, t);
  }

  lemma DeleteClosedBooks(s: State, k: Key, released: set<Octet>, failed: set<Octet>)
    ensures Grows(s, DeleteReleased(s, k, released, failed)) && Grows(s, DeleteReleaseError(s, k))
  {
    hide Grows;
    NoStep(s);
    if k in s.pending && KindOf(k) == Delete {
      if s.pending[k].cleanup != {} {
        ClosingStep(s, DeleteReleased(s, k, released, failed), k,
                    Response(EvaluateRelease(s.pending[k].cleanup, released, failed).cause, map[]));
      }
      ClosingStep(s, DeleteReleaseError(s, k), k, Response(REQUEST_DENIED, map[]));
    }
  }

  // The pending Delete an event denies before its time.
  function DeniedEarly(s: State, ev: Event): multiset<Key> {
    if ev.DeleteNotSent? && ev.key in s.pending && KindOf(ev.key) == Delete then multiset{ev.key} else multiset{}
  }

  lemma DeleteNotSentBooks(s: State, k: Key)
    requires Books(s)
    ensures var t := DeleteSendFailed(s, k);
            && Books(t) && Extends(s, t)
            && PrematureKeys(t.out) == PrematureKeys(s.out) + DeniedEarly(s, DeleteNotSent(k))
  {
    var t := DeleteSendFailed(s, k);
    if k in s.pending && KindOf(k) == Delete { Sent(s.out, Premature(k, REQUEST_DENIED)); }
    assert PendingCreates(t) == PendingCreates(s);
    LegacyKept(s, t);
  }

  lemma StepDeleteBooks(s: State, ev: Event)
    requires !ev.DeleteNotSent?
    ensures Grows(s, StepDelete(s, ev))
  {
    hide Grows;
    hide DeleteBearerRequest, DeleteSendFailed, DeactivateAccepted, DeleteReleased, DeleteReleaseError;
    NoStep(s);
    match ev
    case DeleteArrives(peer, teid, n, ebis) => DeleteRequestBooks(s, peer, teid, n, ebis);
    case Deactivation(k, e) => if Matches(s, k, {Delete}, e) { DeactivateBooks(s, k, e); }
    case DeleteAnswered(k, r, f) => DeleteClosedBooks(s, k, r, f);
    case DeleteFails(k) => DeleteClosedBooks(s, k, {}, {});
    case _ =>
  }

  lemma PdnRemovedBooks(s: State, apn: string)
    ensures Grows(s, PdnRemoved(s, apn))
  {
    var t := PdnRemoved(s, apn);
    SubsetSize(PendingCreates(t), PendingCreates(s));
    assert LegacySubset(s, t);
  }

  // Nothing of S11 changes.
  ghost predicate SameS11(s: State, t: State) {
    && t.pending == s.pending && t.out == s.out && t.cached == s.cached
    && t.admitted == s.admitted && t.dropped == s.dropped
  }

  lemma PendingPdnStepsAreQuiet(s: State, pti: Octet, apn: string, r: PdnRequest, e: Octet)
    ensures SameS11(s, PdnReserve(s, pti, apn)) && SameS11(s, PdnInstall(s, r)) && SameS11(s, PdnAbandon(s, r))
    ensures SameS11(s, EsmInformation(s, pti, apn)) && SameS11(s, PendingPdnDropped(s)) && SameS11(s, SessionCreated(s, e))
  {
    hide DefaultEbiFor, ReleasePdn;
  }

  lemma EstablishedPdnStepsAreQuiet(s: State, apn: string, p: Pdn, es: set<Octet>, a: Access)
    ensures SameS11(s, s) && SameS11(s, Materialise(s)) && SameS11(s, PdnProgress(s, apn, p))
    ensures SameS11(s, DedicatedRemoved(s, es)) && SameS11(s, AccessChanged(s, a))
  {}

  lemma PdnStepIsQuiet(s: State, ev: Event)
    requires !ev.PdnRemoval?
    ensures SameS11(s, StepPdn(s, ev))
  {
    hide PdnReserve, PdnInstall, PdnAbandon, EsmInformation, PendingPdnDropped, SessionCreated;
    hide Materialise, PdnProgress, DedicatedRemoved, AccessChanged, SameS11;
    EstablishedPdnStepsAreQuiet(s, if ev.PdnAdvances? then ev.apn else "", if ev.PdnAdvances? then ev.pdn else NewPdn(0, 0),
                                if ev.LinkedRemoved? then ev.ebis else {}, if ev.AccessMoves? then ev.access else s.access);
    match ev
    case PdnArrives(pti, apn) => PendingPdnStepsAreQuiet(s, pti, apn, PdnRequest(0, 0, ""), 0);
    case PdnInstalls(r) => PendingPdnStepsAreQuiet(s, 0, "", r, 0);
    case PdnAbandons(r) => PendingPdnStepsAreQuiet(s, 0, "", r, 0);
    case InformationRequested(pti, apn) => PendingPdnStepsAreQuiet(s, pti, apn, PdnRequest(0, 0, ""), 0);
    case PendingPdnFails => PendingPdnStepsAreQuiet(s, 0, "", PdnRequest(0, 0, ""), 0);
    case SessionAnswered(e) => PendingPdnStepsAreQuiet(s, 0, "", PdnRequest(0, 0, ""), e);
    case _ =>
  }

  lemma StepPdnBooks(s: State, ev: Event)
    ensures Grows(s, StepPdn(s, ev))
  {
    hide Grows;
    if ev.PdnRemoval? {
      PdnRemovedBooks(s, ev.apn);
    } else {
      PdnStepIsQuiet(s, ev);
      hide StepPdn;
      QuietStep(s, StepPdn(s, ev));
    }
  }

  lemma StepBooks(s: State, ev: Event)
    requires CreateShape(s) && Books(s)
    ensures Books(Step(s, ev)) && Extends(s, Step(s, ev))
    ensures PrematureKeys(Step(s, ev).out) == PrematureKeys(s.out) + DeniedEarly(s, ev)
  {
    hide Books, Extends, CreateShape;
    if CreateEvent(ev) {
      BooksHoldShapes(s);
      StepCreateBooks(s, ev);
    } else if PdnEvent(ev) {
      StepPdnBooks(s, ev);
    } else if ev.DeleteNotSent? {
      DeleteNotSentBooks(s, ev.key);
    } else if DeleteEvent(ev) {
      StepDeleteBooks(s, ev);
    } else {
      StepUpdateBooks(s, ev);
    }
  }

  lemma BooksHoldShapes(s: State)
    requires Books(s)
    ensures CacheSound(s)
  {}

  // ---------------------------------------------------------------- whole runs

  // An attached UE before any bearer procedure.
  function Attached(defaultEbi: Octet, apn: string, access: Access): State {
    State(defaultEbi, apn, access, map[], None, {}, map[], map[], map[], map[], [], multiset{}, multiset{})
  }

  lemma AttachedIsSound(defaultEbi: Octet, apn: string, access: Access, sgw: nat -> string)
    requires defaultEbi == 0 || MIN_EBI <= defaultEbi <= MAX_EBI
    ensures Identities(Attached(defaultEbi, apn, access), sgw) && Books(Attached(defaultEbi, apn, access))
  {}

  // The denials of pending Deletes over a run.
  ghost function EarlyDenials(s: State, evs: seq<Event>): multiset<Key>
    decreases |evs|
  {
    if evs == [] then multiset{} else DeniedEarly(s, evs[0]) + EarlyDenials(Step(s, evs[0]), evs[1..])
  }

  lemma IdentitiesHoldShapes(s: State, sgw: nat -> string)
    requires Identities(s, sgw)
    ensures CreateShape(s)
  {}

  lemma {:induction false} RunKeeps(s: State, evs: seq<Event>, sgw: nat -> string)
    requires Identities(s, sgw) && Books(s) && LawfulRun(s, evs, sgw)
    ensures Identities(Run(s, evs), sgw) && Books(Run(s, evs)) && Extends(s, Run(s, evs))
    ensures PrematureKeys(Run(s, evs).out) == PrematureKeys(s.out) + EarlyDenials(s, evs)
    decreases |evs|
  {
    hide Step, Identities, Books, DeniedEarly, Lawful;
    if evs != [] {
      IdentitiesHoldShapes(s, sgw);
      StepKeepsIdentities(s, evs[0], sgw);
      StepBooks(s, evs[0]);
      RunKeeps(Step(s, evs[0]), evs[1..], sgw);
    }
  }

  // Every state an attached UE can reach: identities have one owner each, and every admitted
  // transaction is pending, dropped with its PDN, or answered, as often as it was admitted. On top
  // of that a Delete is denied once for every time its NAS message could not be sent.
  lemma ReachableStatesAreSound(defaultEbi: Octet, apn: string, access: Access, evs: seq<Event>, sgw: nat -> string)
    requires defaultEbi == 0 || MIN_EBI <= defaultEbi <= MAX_EBI
    requires LawfulRun(Attached(defaultEbi, apn, access), evs, sgw)
    ensures var start := Attached(defaultEbi, apn, access);
            var s := Run(start, evs);
            && Identities(s, sgw) && LegacyDistinct(s) && |PendingCreates(s)| <= MAX_PENDING_CREATES
            && (forall k :: Accounted(k) ==>
                  s.admitted[k] == AnsweredKeys(s.out)[k] + s.dropped[k] + if k in s.pending then 1 else 0)
            && PrematureKeys(s.out) == EarlyDenials(start, evs)
  {
    hide Run, LawfulRun, Identities, EarlyDenials;
    AttachedIsSound(defaultEbi, apn, access, sgw);
    RunKeeps(Attached(defaultEbi, apn, access), evs, sgw);
    assert PrematureKeys([]) == multiset{};
  }

  // The messages that answer a transaction, be it over or not.
  function Answers(out: seq<Out>, k: Key): nat {
    AnsweredKeys(out)[k] + PrematureKeys(out)[k]
  }

  // Whenever the run could not send a Deactivate message of `k`, the Delete was over.
  ghost predicate EveryDeleteSent(s: State, evs: seq<Event>, k: Key)
    decreases |evs|
  {
    evs == [] || ((evs[0] == DeleteNotSent(k) ==> !(k in s.pending && KindOf(k) == Delete))
                  && EveryDeleteSent(Step(s, evs[0]), evs[1..], k))
  }

  lemma {:induction false} NoEarlyDenialExactlyWhen(s: State, evs: seq<Event>, k: Key)
    ensures EarlyDenials(s, evs)[k] == 0 <==> EveryDeleteSent(s, evs, k)
    decreases |evs|
  {
    hide Step;
    if evs != [] { NoEarlyDenialExactlyWhen(Step(s, evs[0]), evs[1..], k); }
  }

  // Over whole runs a transaction gets one answer for each time it was admitted and ended, and no
  // more, exactly when none of its Deactivate messages failed to be sent while it was pending.
  lemma AnsweredOnceExactlyWhen(defaultEbi: Octet, apn: string, access: Access, evs: seq<Event>, sgw: nat -> string, k: Key)
    requires defaultEbi == 0 || MIN_EBI <= defaultEbi <= MAX_EBI
    requires LawfulRun(Attached(defaultEbi, apn, access), evs, sgw) && Accounted(k)
    ensures var start := Attached(defaultEbi, apn, access);
            var s := Run(start, evs);
            s.admitted[k] == Answers(s.out, k) + s.dropped[k] + (if k in s.pending then 1 else 0)
            <==> EveryDeleteSent(start, evs, k)
  {
    hide Run, LawfulRun, Identities, EarlyDenials, EveryDeleteSent;
    ReachableStatesAreSound(defaultEbi, apn, access, evs, sgw);
    NoEarlyDenialExactlyWhen(Attached(defaultEbi, apn, access), evs, k);
  }

  // ---------------------------------------------------------------- retransmissions

  // What a retransmission should do: nothing, or repeat an answer.
  ghost predicate Harmless(s: State, t: State, k: Key) {
    t == s || (k in s.cached && t == s.(out := s.out + [Replay(k, s.cached[k])]))
  }

  // A Create Bearer Request for a UE that is known is absorbed exactly when its transaction is
  // pending or was answered with a final answer.
  lemma AbsorbedExactlyWhen(s: State, peer: string, req: CreateRequest, linked: Linked, pick: Key)
    ensures var k := Gtp(peer, Create, req.teid, req.seqNum);
            Harmless(s, CreateBearerRequest(s, peer, req, Some(linked), pick), k) <==> k in s.pending || k in s.cached
  {
    var k := Gtp(peer, Create, req.teid, req.seqNum);
    hide Allocate, FingerprintOf, EquivalentPending, PendingCreates;
    if k !in s.pending && k !in s.cached {
      var t := CreateBearerRequest(s, peer, req, Some(linked), pick);
      AllocationIsNoticed(s, k, req, linked, pick);
      assert Noticed(s, t, k);
      NoticedIsNotHarmless(s, t, k);
    }
  }

  // The transaction was admitted, or the request was refused.
  ghost predicate Noticed(s: State, t: State, k: Key) {
    t.admitted[k] == s.admitted[k] + 1 || (|t.out| == |s.out| + 1 && t.out[|s.out|].Immediate?)
  }

  lemma NoticedIsNotHarmless(s: State, t: State, k: Key)
    requires Noticed(s, t, k) && k !in s.cached
    ensures !Harmless(s, t, k)
  {}

  lemma AllocationIsNoticed(s: State, k: Key, req: CreateRequest, linked: Linked, pick: Key)
    ensures Noticed(s, Allocate(s, k, req, linked, pick), k)
  {
    hide Used, LegacyUsed, Assign, AssignLegacy, Proceed;
    var ids := Assign(RequestedEbis(req), Used(s));
    var legacy := AssignLegacy(LegacyNeeded(req, linked.ims), LegacyUsed(s));
    if |ids| == |legacy| == |req.bearers| {
      ProceedAdmitsNothing(Admit(s, k, req, ids, legacy), k, linked, pick);
    }
  }

  lemma ProceedAdmitsNothing(s: State, k: Key, linked: Linked, pick: Key)
    requires k in s.pending
    ensures Proceed(s, k, linked, pick).admitted == s.admitted
  {
    hide ActiveS1, Flushable, Owned, LinkedReady;
  }

  // Once a final answer was sent, any later retransmission repeats that answer, and the
  // transaction is neither admitted nor settled again, whatever happened in between.
  lemma RetransmissionRepeatsTheAnswer(s: State, evs: seq<Event>, peer: string, req: CreateRequest, linked: Linked,
                                       pick: Key, sgw: nat -> string)
    requires Identities(s, sgw) && Books(s) && LawfulRun(s, evs, sgw)
    requires Gtp(peer, Create, req.teid, req.seqNum) in s.cached
    ensures var k := Gtp(peer, Create, req.teid, req.seqNum);
            var t := Run(s, evs);
            && Answer(k, s.cached[k]) in s.out
            && CreateBearerRequest(t, peer, req, Some(linked), pick) == t.(out := t.out + [Replay(k, s.cached[k])])
            && t.admitted[k] == s.admitted[k] && Settled(t, k) == Settled(s, k)
  {
    RunKeeps(s, evs, sgw);
  }

  // The branch that denies a new request at once: there is room for it, but S1 is down and the
  // UE cannot be paged.
  ghost predicate DeniedAtOnce(s: State, k: Key, req: CreateRequest, linked: Linked) {
    && |Assign(RequestedEbis(req), Used(s))| == |req.bearers|
    && |AssignLegacy(LegacyNeeded(req, linked.ims), LegacyUsed(s))| == |req.bearers|
    && (forall e :: e in s.reservations ==> s.reservations[e] != IdOf(k))
    && LinkedReady(s, req.linked) && !ActiveS1(s) && !(s.access.registered && s.access.idle)
  }

  function Denied(s: State, k: Key): State {
    s.(out := s.out + [Answer(k, Response(REQUEST_DENIED, map[]))], admitted := s.admitted + multiset{k})
  }

  // Denials sent straight from the request handler are not cached: apart from the answer the
  // transaction is forgotten, so the same request is admitted and answered again.
  lemma DeniedCreateIsForgotten(s: State, peer: string, req: CreateRequest, linked: Linked, pick: Key)
    requires var k := Gtp(peer, Create, req.teid, req.seqNum);
             && k !in s.pending && k !in s.cached && !EquivalentPending(s, FingerprintOf(req))
             && |PendingCreates(s)| < MAX_PENDING_CREATES && DeniedAtOnce(s, k, req, linked)
    ensures var k := Gtp(peer, Create, req.teid, req.seqNum);
            CreateBearerRequest(s, peer, req, Some(linked), pick) == Denied(s, k)
  {
    hide DeniedAtOnce, Allocate, FingerprintOf, EquivalentPending, PendingCreates;
    AllocationIsDenied(s, Gtp(peer, Create, req.teid, req.seqNum), req, linked, pick);
  }

  lemma AllocationIsDenied(s: State, k: Key, req: CreateRequest, linked: Linked, pick: Key)
    requires k !in s.pending && DeniedAtOnce(s, k, req, linked)
    ensures Allocate(s, k, req, linked, pick) == Denied(s, k)
  {
    hide Used, LegacyUsed, FingerprintOf, RequestedEbis, LegacyNeeded, Assign, AssignLegacy, LinkedReady;
    var ids := Assign(RequestedEbis(req), Used(s));
    AssignSound(RequestedEbis(req), Used(s));
    NotReserved(s, ids);
    DeniedAdmission(s, k, req, ids, AssignLegacy(LegacyNeeded(req, linked.ims), LegacyUsed(s)),
                    linked, pick);
    hide Proceed, Admit;
  }

  lemma NotReserved(s: State, ids: seq<Octet>)
    requires forall i :: 0 <= i < |ids| ==> Requestable(ids[i], Used(s))
    ensures forall e :: e in ids ==> e !in s.reservations
  {}

  lemma ReservedThenReleased(reservations: map<Octet, TxId>, ids: seq<Octet>, id: TxId)
    requires forall e :: e in ids ==> e !in reservations
    requires forall e :: e in reservations ==> reservations[e] != id
    ensures ReleaseOwned(Reserve(reservations, ids, id), id) == reservations
  {
    var all := Reserve(reservations, ids, id);
    var rest := ReleaseOwned(all, id);
    forall e ensures e in rest <==> e in reservations {
      assert e in all <==> e in reservations || e in ids;
    }
    assert rest.Keys == reservations.Keys;
  }

  lemma DeniedAdmission(s: State, k: Key, req: CreateRequest, ids: seq<Octet>, legacy: seq<Octet>,
                        linked: Linked, pick: Key)
    requires |ids| == |req.bearers| == |legacy| && k !in s.pending
    requires forall e :: e in ids ==> e !in s.reservations
    requires forall e :: e in s.reservations ==> s.reservations[e] != IdOf(k)
    requires LinkedReady(s, req.linked) && !ActiveS1(s) && !(s.access.registered && s.access.idle)
    ensures Proceed(Admit(s, k, req, ids, legacy), k, linked, pick) == Denied(s, k)
  {
    hide NewBearers, FingerprintOf;
    var t := Admit(s, k, req, ids, legacy);
    assert Proceed(t, k, linked, pick) == Deny(t, k);
    ReservedThenReleased(s.reservations, ids, IdOf(k));
    assert t.pending - {k} == s.pending;
  }

  // ---------------------------------------------------------------- why one S-GW per TEID

  // Ending a Create releases by transaction ID, which leaves the peer out: it takes away the
  // reservations of another pending Create exactly when that one carries the same ID.
  lemma FailureSparesOthersExactlyWhen(s: State, k: Key, cause: Octet)
    requires IsCreate(s, k)
    requires forall l, e :: IsCreate(s, l) && e in s.pending[l].bearers ==> ReservedFor(s, e, IdOf(l))
    ensures (forall l, e :: l != k && IsCreate(s, l) && e in s.pending[l].bearers ==>
               ReservedFor(FailCreate(s, k, cause), e, IdOf(l)))
            <==> (forall l, e :: l != k && IsCreate(s, l) && e in s.pending[l].bearers ==> IdOf(l) != IdOf(k))
  {}

  // A Create that lost a reservation ignores every later result for that bearer.
  lemma LostReservationIgnoresResults(s: State, k: Key, e: Octet, accepted: bool, cause: Octet, enb: Transport,
                                      ran: RanNasCause)
    requires IsCreate(s, k) && e in s.pending[k].bearers && !ReservedFor(s, e, IdOf(k))
    ensures ActivationResult(s, k, e, accepted, cause) == s && SetupResult(s, k, e, accepted, enb, ran) == s
  {}
}
