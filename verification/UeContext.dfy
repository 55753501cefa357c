/**
 * The UE context and its handlers as the source runs them: fields updated in place, loops over
 * the maps it keeps. Every method is one locked region and is proved to take the context from
 * one State of the bearer machine to the next, so the invariants and run properties proved
 * there hold of it (internal/s1ap/dedicated_bearer.go, erab_release.go and esm.go).
 */
module UeContext {
  import opened Common
  import opened EbiAllocation
  import opened BearerMachine
  import opened BearerInvariants
  import opened BearerLedger
  import opened BearerSound
  import BearerEffects
  import T = ActivationTimer

  // ---------------------------------------------------------------- the part of a map already visited

  ghost function PdnEbis(pdns: map<string, Pdn>, seen: set<string>): set<Octet> {
    set a | a in seen && a in pdns && pdns[a].ebi != 0 :: pdns[a].ebi
  }

  ghost function TxEbis(pending: map<Key, Tx>, seen: set<Key>): set<Octet> {
    set k, e | k in seen && k in pending && e in pending[k].bearers :: e
  }

  ghost function LegacyIn(bearers: map<Octet, Bearer>, seen: set<Octet>): set<Octet> {
    set e | e in seen && e in bearers && bearers[e].legacy != 0 :: bearers[e].legacy
  }

  ghost function TxLegacy(pending: map<Key, Tx>, seen: set<Key>): set<Octet> {
    set k, e | k in seen && k in pending && e in pending[k].bearers && pending[k].bearers[e].legacy != 0
      :: pending[k].bearers[e].legacy
  }

  ghost function OpenCreates(pending: map<Key, Tx>, seen: set<Key>): set<Key> {
    set k | k in seen && k in pending && KindOf(k) == Create && !Terminal(pending[k].state)
  }

  lemma PdnEbisStep(pdns: map<string, Pdn>, seen: set<string>, a: string)
    requires a in pdns
    ensures PdnEbis(pdns, seen + {a}) == PdnEbis(pdns, seen) + if pdns[a].ebi != 0 then {pdns[a].ebi} else {}
  {}

  lemma TxEbisStep(pending: map<Key, Tx>, seen: set<Key>, k: Key)
    requires k in pending
    ensures TxEbis(pending, seen + {k}) == TxEbis(pending, seen) + pending[k].bearers.Keys
  {
    assert forall e :: e in pending[k].bearers ==> e in TxEbis(pending, seen + {k});
  }

  lemma LegacyInStep(bearers: map<Octet, Bearer>, seen: set<Octet>, e: Octet)
    requires e in bearers
    ensures LegacyIn(bearers, seen + {e}) == LegacyIn(bearers, seen)
                                             + if bearers[e].legacy != 0 then {bearers[e].legacy} else {}
  {}

  lemma TxLegacyStep(pending: map<Key, Tx>, seen: set<Key>, k: Key)
    requires k in pending
    ensures TxLegacy(pending, seen + {k}) == TxLegacy(pending, seen) + LegacyIn(pending[k].bearers, pending[k].bearers.Keys)
  {}

  lemma UsedInParts(s: State)
    ensures Used(s) == (if s.defaultEbi != 0 then {s.defaultEbi} else {}) + PdnEbis(s.pdns, s.pdns.Keys)
                       + (if s.pendingPdn.Some? && s.pendingPdn.value.pdn.ebi != 0 then {s.pendingPdn.value.pdn.ebi} else {})
                       + s.dedicated.Keys + s.reservations.Keys + TxEbis(s.pending, s.pending.Keys)
  {}

  // ---------------------------------------------------------------- bearers of one transaction

  // The loop of maybeCompleteCreateBearerLocked.
  method EveryBearerDecided(tx: Tx) returns (allDone: bool)
    ensures allDone <==> AllDecided(tx)
  {
    var left := tx.bearers.Keys;
    while left != {}
      invariant left <= tx.bearers.Keys
      invariant forall e :: e in tx.bearers && e !in left ==> Decided(tx.bearers[e])
    {
      var e := Pick(left);
      left := left - {e};
      if !Decided(tx.bearers[e]) { return false; }
    }
    allDone := true;
  }

  // failedCreateBearerReleaseItems.
  method FailedReleaseItems(tx: Tx) returns (items: set<Octet>)
    ensures items == ReleaseItems(tx)
  {
    items := {};
    var left := tx.bearers.Keys;
    while left != {}
      invariant left <= tx.bearers.Keys
      invariant items == ReleaseItems(tx) - left
    {
      var e := Pick(left);
      left := left - {e};
      var b := tx.bearers[e];
      if !Active(b) && (b.established || b.enb.teid != 0 || b.enb.ip != []) {
        items := items + {e};
      }
    }
  }

  ghost predicate AnyRejected(tx: Tx, es: set<Octet>) {
    exists e :: e in es && e in tx.bearers && tx.bearers[e].nasRejected
  }

  ghost predicate AnyTimedOut(tx: Tx, es: set<Octet>) {
    exists e :: e in es && e in tx.bearers && tx.bearers[e].timer.timedOut
  }

  ghost predicate AnyFailed(tx: Tx, es: set<Octet>) {
    exists e :: e in es && e in tx.bearers && (tx.bearers[e].nasRejected || tx.bearers[e].erabFailed)
  }

  // The counters and flags of evaluateCreateBearerOutcome.
  datatype Tally = Tally(successful: nat, failed: nat, anyReject: bool, anyTimeout: bool, anyFailure: bool)

  // What they say once the bearers `won` and `lost` were counted.
  ghost predicate Tallied(tx: Tx, won: set<Octet>, lost: set<Octet>, y: Tally) {
    && won <= tx.bearers.Keys && lost <= tx.bearers.Keys
    && (forall e :: e in won ==> Active(tx.bearers[e])) && (forall e :: e in lost ==> !Active(tx.bearers[e]))
    && y.successful == |won| && y.failed == |lost|
    && y.anyReject == AnyRejected(tx, lost) && y.anyTimeout == AnyTimedOut(tx, lost) && y.anyFailure == AnyFailed(tx, lost)
  }

  function Tallying(y: Tally, b: Bearer): Tally {
    if Active(b) then y.(successful := y.successful + 1)
    else y.(failed := y.failed + 1, anyReject := y.anyReject || b.nasRejected, anyTimeout := y.anyTimeout || b.timer.timedOut,
            anyFailure := y.anyFailure || b.nasRejected || b.erabFailed)
  }

  function Uncounted(tx: Tx, won: set<Octet>, lost: set<Octet>): set<Octet> {
    tx.bearers.Keys - won - lost
  }

  lemma TallyingStep(tx: Tx, won: set<Octet>, lost: set<Octet>, y: Tally, e: Octet)
    requires Tallied(tx, won, lost, y) && e in Uncounted(tx, won, lost)
    ensures e in tx.bearers
    ensures Uncounted(tx, won + {e}, lost) == Uncounted(tx, won, lost + {e}) == Uncounted(tx, won, lost) - {e}
    ensures if Active(tx.bearers[e]) then Tallied(tx, won + {e}, lost, Tallying(y, tx.bearers[e]))
            else Tallied(tx, won, lost + {e}, Tallying(y, tx.bearers[e]))
  {}

  lemma TalliedOutcome(tx: Tx, won: set<Octet>, lost: set<Octet>, y: Tally)
    requires Tallied(tx, won, lost, y) && Uncounted(tx, won, lost) == {}
    ensures y.successful == |ActiveBearers(tx)| && y.failed == |tx.bearers.Keys - ActiveBearers(tx)|
    ensures OverallCause(tx) == CauseOf(y, |tx.bearers|)
  {
    hide AnyRejected, AnyTimedOut, AnyFailed, Active, ActiveBearers, OverallCause;
    forall e | e in tx.bearers ensures e in won + lost { assert e !in Uncounted(tx, won, lost); }
    assert won + lost == tx.bearers.Keys;
    SplitByOutcome(tx, won, lost);
    CountedOutcome(tx);
    FlaggedOutcome(tx);
  }

  function CauseOf(y: Tally, bearers: nat): Octet {
    if y.successful == bearers then ACCEPTED
    else if y.successful > 0 then ACCEPTED_PARTIALLY
    else if y.anyTimeout then UE_NOT_RESPONDING
    else if y.anyReject then UE_REFUSES
    else if y.anyFailure then REQUEST_REJECTED
    else REQUEST_DENIED
  }

  // evaluateCreateBearerOutcome: what the counters and flags collected in one pass mean.
  method EvaluateOutcome(tx: Tx) returns (cause: Octet, successful: nat, failed: nat)
    ensures cause == OverallCause(tx)
    ensures successful == |ActiveBearers(tx)| && failed == |tx.bearers.Keys - ActiveBearers(tx)|
  {
    var y := Tally(0, 0, false, false, false);
    assert Tallied(tx, {}, {}, y) by { NoFlags(tx); }
    var left := tx.bearers.Keys;
    ghost var won: set<Octet>, lost: set<Octet> := {}, {};
    assert left == Uncounted(tx, won, lost);
    hide Active, Tallied, OverallCause, ActiveBearers, Uncounted;
    while left != {}
      invariant left == Uncounted(tx, won, lost)
      invariant Tallied(tx, won, lost, y)
    {
      var e := Pick(left);
      TallyingStep(tx, won, lost, y, e);
      left := left - {e};
      y := Tallying(y, tx.bearers[e]);
      if Active(tx.bearers[e]) { won := won + {e}; } else { lost := lost + {e}; }
    }
    TalliedOutcome(tx, won, lost, y);
    cause, successful, failed := CauseOf(y, |tx.bearers|), y.successful, y.failed;
  }

  lemma NoFlags(tx: Tx)
    ensures !AnyRejected(tx, {}) && !AnyTimedOut(tx, {}) && !AnyFailed(tx, {})
  {}

  lemma SplitByOutcome(tx: Tx, won: set<Octet>, lost: set<Octet>)
    requires won + lost == tx.bearers.Keys
    requires (forall e :: e in won ==> Active(tx.bearers[e])) && (forall e :: e in lost ==> !Active(tx.bearers[e]))
    ensures won == ActiveBearers(tx) && lost == tx.bearers.Keys - ActiveBearers(tx)
  {
    forall e ensures e in won <==> e in ActiveBearers(tx) {
      assert e in tx.bearers.Keys <==> e in won || e in lost;
    }
    assert won == ActiveBearers(tx);
    forall e ensures e in lost <==> e in tx.bearers.Keys - ActiveBearers(tx) {
      assert e in tx.bearers.Keys <==> e in won || e in lost;
    }
  }

  lemma FlaggedOutcome(tx: Tx)
    ensures var lost := tx.bearers.Keys - ActiveBearers(tx);
            OverallCause(tx) == (if lost == {} then ACCEPTED
                                 else if ActiveBearers(tx) != {} then ACCEPTED_PARTIALLY
                                 else if AnyTimedOut(tx, lost) then UE_NOT_RESPONDING
                                 else if AnyRejected(tx, lost) then UE_REFUSES
                                 else if AnyFailed(tx, lost) then REQUEST_REJECTED
                                 else REQUEST_DENIED)
  {}

  lemma CountedOutcome(tx: Tx)
    ensures |ActiveBearers(tx)| == |tx.bearers| <==> tx.bearers.Keys - ActiveBearers(tx) == {}
    ensures |ActiveBearers(tx)| > 0 <==> ActiveBearers(tx) != {}
  {
    SubsetSize(ActiveBearers(tx), tx.bearers.Keys);
    if tx.bearers.Keys - ActiveBearers(tx) == {} {
      forall e | e in tx.bearers ensures e in ActiveBearers(tx) {
        assert e !in tx.bearers.Keys - ActiveBearers(tx);
      }
      assert ActiveBearers(tx) == tx.bearers.Keys;
    }
  }

  // evaluateDedicatedDeleteBearerReleaseOutcome: three lists filled in one pass.
  method EvaluateReleaseOutcome(expected: set<Octet>, released: set<Octet>, failed: set<Octet>)
    returns (outcome: ReleaseOutcome)
    ensures outcome == EvaluateRelease(expected, released, failed)
  {
    var left := expected;
    var done: set<Octet>, refused: set<Octet>, missing: set<Octet> := {}, {}, {};
    while left != {}
      invariant left <= expected
      invariant done == expected * released - left
      invariant refused == expected * failed - released - left
      invariant missing == expected - released - failed - left
    {
      var e := Pick(left);
      left := left - {e};
      if e in released {
        done := done + {e};
      } else if e in failed {
        refused := refused + {e};
      } else {
        missing := missing + {e};
      }
    }
    assert done == expected * released && refused == expected * failed - released && missing == expected - released - failed;
    var cause := if done != {} && refused == {} && missing == {} then ACCEPTED
                 else if done != {} then ACCEPTED_PARTIALLY
                 else if refused != {} || missing != {} then REQUEST_DENIED
                 else SYSTEM_FAILURE;
    outcome := ReleaseOutcome(cause, done, refused, missing);
  }

  lemma InstalledAreActive(tx: Tx)
    ensures Installed(tx).Keys <= tx.bearers.Keys
    ensures forall e :: e in tx.bearers ==> (e in Installed(tx) <==> Active(tx.bearers[e]))
    ensures forall e :: e in Installed(tx) ==> Installed(tx)[e] == tx.bearers[e].(legacy := 0)
  {}

  // The loop of finalizeCreateBearerTransactionLocked.
  method InstallActive(tx: Tx, dedicated: map<Octet, Bearer>, reservations: map<Octet, TxId>)
    returns (nowDedicated: map<Octet, Bearer>, nowReserved: map<Octet, TxId>)
    ensures nowDedicated == dedicated + Installed(tx)
    ensures nowReserved == reservations - tx.bearers.Keys
  {
    InstalledAreActive(tx);
    hide Installed, Active;
    ghost var won, moved := Installed(tx), map[];
    ghost var gone: set<Octet> := {};
    nowDedicated, nowReserved := dedicated, reservations;
    var left := tx.bearers.Keys;
    while left != {}
      invariant left <= tx.bearers.Keys
      invariant nowDedicated == dedicated + moved
      invariant moved.Keys <= won.Keys <= moved.Keys + left && moved.Keys !! left
      invariant forall e :: e in moved ==> e in won && moved[e] == won[e]
      invariant nowReserved == reservations - gone && gone + left == tx.bearers.Keys
    {
      var e := Pick(left);
      var b := tx.bearers[e];
      left := left - {e};
      RemoveThenRemove(reservations, gone, e);
      gone := gone + {e};
      if Active(b) {
        MergeThenPut(dedicated, moved, e, b.(legacy := 0));
        nowDedicated := nowDedicated[e := b.(legacy := 0)];
        moved := moved[e := b.(legacy := 0)];
      }
      nowReserved := nowReserved - {e};
    }
    assert gone == tx.bearers.Keys;
    assert moved.Keys == won.Keys;
    assert forall e :: e in won ==> moved[e] == won[e];
  }

  // createBearersFromTx, as far as causes and endpoints are concerned.
  method CreateBearersFromTx(tx: Tx) returns (answers: map<Octet, BearerAnswer>)
    ensures answers == BearerAnswers(tx)
    // Every bearer of the transaction is answered: an active one as accepted and without a cause, any
    // other one as failed and with the cause recorded for it.
    ensures answers.Keys == tx.bearers.Keys
    ensures forall e :: e in tx.bearers ==>
      var b := tx.bearers[e];
      && (answers[e].accepted <==> b.nasAccepted && b.established)
      && answers[e].ran == (if b.nasAccepted && b.established then NoCause else b.ran)
      && answers[e].sgw == b.sgw && answers[e].enb == b.enb
  {
    answers := map[];
    var left := tx.bearers.Keys;
    while left != {}
      invariant left <= tx.bearers.Keys
      invariant answers == BearerAnswers(tx) - left
    {
      var e := Pick(left);
      var b := tx.bearers[e];
      left := left - {e};
      var accepted := Active(b);
      answers := answers[e := BearerAnswer(accepted, if accepted then NoCause else b.ran, b.sgw, b.enb)];
    }
  }

  // The three loops of completeDedicatedCreateBearerCleanupERABRelease over the outcome lists.
  method TearDownReleased(tx: Tx, o: ReleaseOutcome) returns (after: Tx)
    requires o.released !! o.failed && o.released !! o.missing && o.failed !! o.missing
    ensures after == AfterCleanup(tx, o)
  {
    var bs := TearDown(tx.bearers, o.released, false);
    bs := TearDown(bs, o.failed, true);
    bs := TearDown(bs, o.missing, true);
    after := tx.(bearers := bs);
    assert bs == AfterCleanup(tx, o).bearers;
  }

  function TornAmong(bearers: map<Octet, Bearer>, ebis: set<Octet>, failed: bool): map<Octet, Bearer> {
    map e | e in bearers :: if e in ebis then Torn(bearers[e], failed) else bearers[e]
  }

  method TearDown(bearers: map<Octet, Bearer>, ebis: set<Octet>, failed: bool) returns (after: map<Octet, Bearer>)
    ensures after == TornAmong(bearers, ebis, failed)
  {
    after := bearers;
    var left := ebis;
    while left != {}
      invariant left <= ebis && after.Keys == bearers.Keys
      invariant forall e :: e in bearers ==>
        after[e] == if e in ebis && e !in left then Torn(bearers[e], failed) else bearers[e]
    {
      var e := Pick(left);
      left := left - {e};
      if e in after { after := after[e := Torn(after[e], failed)]; }
    }
    assert forall e :: e !in left;
    assert forall e :: e in bearers ==> after[e] == if e in ebis then Torn(bearers[e], failed) else bearers[e];
  }

  // The inner loop over the bearers of one transaction.
  method LegacyIdentifiers(bearers: map<Octet, Bearer>) returns (used: set<Octet>)
    ensures used == LegacyIn(bearers, bearers.Keys)
  {
    used := {};
    var left := bearers.Keys;
    while left != {}
      invariant left <= bearers.Keys
      invariant used == LegacyIn(bearers, bearers.Keys - left)
    {
      var e := Pick(left);
      LegacyInStep(bearers, bearers.Keys - left, e);
      assert bearers.Keys - (left - {e}) == (bearers.Keys - left) + {e};
      left := left - {e};
      if bearers[e].legacy != 0 { used := used + {bearers[e].legacy}; }
    }
    assert bearers.Keys - left == bearers.Keys;
  }

  // AssignRequestedBearerIDs on the bearer contexts of the request.
  method AssignIdentities(requested: seq<Octet>, used: set<Octet>) returns (ok: bool, ids: seq<Octet>)
    ensures ok <==> |Assign(requested, used)| == |requested|
    ensures ok ==> ids == Assign(requested, used)
  {
    var ebis := new Octet[|requested|](i requires 0 <= i < |requested| => requested[i]);
    assert ebis[..] == requested;
    var served, _ := AssignRequestedBearerIds(ebis, used);
    ok, ids := served, ebis[..];
  }

  lemma RequestLengths(req: CreateRequest, ims: bool)
    ensures |RequestedEbis(req)| == |req.bearers| == |LegacyNeeded(req, ims)|
  {}

  lemma LegacyUsedIsPending(s: State)
    ensures LegacyUsed(s) == {1} + TxLegacy(s.pending, s.pending.Keys)
  {}

  lemma LegacyUnfold(needed: seq<bool>, i: nat, used: set<Octet>)
    requires i < |needed|
    ensures AssignLegacy(needed[i..], used) ==
      if !needed[i] then [0] + AssignLegacy(needed[i + 1..], used)
      else
        var id := FirstFree(used, MIN_LEGACY, MAX_LEGACY);
        if id == 0 then [] else [id] + AssignLegacy(needed[i + 1..], used + {id})
  {
    assert needed[i..][1..] == needed[i + 1..];
  }

  lemma BuildStart(id: TxId, req: CreateRequest, ids: seq<Octet>, needed: seq<bool>, used: set<Octet>,
                   was: map<Octet, TxId>)
    ensures var none: map<Octet, Bearer> := map[];
            && AssignLegacy(needed, used) == [] + AssignLegacy(needed[0..], used + LegacyIn(none, none.Keys))
            && NewBearers(id, req, ids[..0], []) == none && Reserve(was, ids[..0], id) == was
  {
    var none: map<Octet, Bearer> := map[];
    assert LegacyIn(none, none.Keys) == {};
    assert needed[0..] == needed && used + LegacyIn(none, none.Keys) == used;
    assert ids[..0] == [];
  }

  lemma BuildEnd(needed: seq<bool>, i: nat, used: set<Octet>)
    requires i == |needed|
    ensures AssignLegacy(needed[i..], used) == []
  {}

  // One more bearer built: its identity is new, so nothing built before is replaced.
  lemma BuildStep(id: TxId, req: CreateRequest, ids: seq<Octet>, given: seq<Octet>, i: nat, legacy: Octet,
                  was: map<Octet, TxId>)
    requires i == |given| < |ids| == |req.bearers| && Distinct(ids)
    ensures var bs := NewBearers(id, req, ids[..i], given);
            var b := NewBearer(id, req.linked, req.bearers[i], legacy);
            && NewBearers(id, req, ids[..i + 1], given + [legacy]) == bs[ids[i] := b]
            && LegacyIn(bs[ids[i] := b], bs[ids[i] := b].Keys)
               == LegacyIn(bs, bs.Keys) + (if legacy != 0 then {legacy} else {})
            && Reserve(was, ids[..i + 1], id) == Reserve(was, ids[..i], id)[ids[i] := id]
  {
    hide NewBearers, LegacyIn, Reserve;
    var bs := NewBearers(id, req, ids[..i], given);
    NewBearersStep(id, req, ids, given, i, legacy);
    assert forall e :: e in bs <==> e in ids[..i];
    ReserveStep(was, ids, i, id);
    LegacyOfOneMore(bs, ids[i], NewBearer(id, req.linked, req.bearers[i], legacy));
  }

  lemma NewBearersStep(id: TxId, req: CreateRequest, ids: seq<Octet>, given: seq<Octet>, i: nat, legacy: Octet)
    requires i == |given| < |ids| == |req.bearers|
    ensures NewBearers(id, req, ids[..i + 1], given + [legacy])
            == NewBearers(id, req, ids[..i], given)[ids[i] := NewBearer(id, req.linked, req.bearers[i], legacy)]
  {
    assert ids[..i + 1][..i] == ids[..i] && ids[..i + 1][i] == ids[i];
    NewBearersIgnoreRest(id, req, ids[..i], given, given + [legacy]);
  }

  lemma {:induction false} NewBearersIgnoreRest(id: TxId, req: CreateRequest, ids: seq<Octet>, a: seq<Octet>, b: seq<Octet>)
    requires |ids| <= |a| && |ids| <= |b| && |ids| <= |req.bearers| && a[..|ids|] == b[..|ids|]
    ensures NewBearers(id, req, ids, a) == NewBearers(id, req, ids, b)
  {
    if ids != [] {
      var n := |ids| - 1;
      assert a[..n] == a[..|ids|][..n] && b[..n] == b[..|ids|][..n];
      assert a[n] == a[..|ids|][n] && b[n] == b[..|ids|][n];
      NewBearersIgnoreRest(id, req, ids[..n], a, b);
    }
  }

  lemma LegacyOfOneMore(bs: map<Octet, Bearer>, e: Octet, b: Bearer)
    requires e !in bs
    ensures LegacyIn(bs[e := b], bs[e := b].Keys) == LegacyIn(bs, bs.Keys) + (if b.legacy != 0 then {b.legacy} else {})
  {
    var all := bs[e := b];
    LegacyInStep(all, bs.Keys, e);
    assert all.Keys == bs.Keys + {e};
    assert LegacyIn(all, bs.Keys) == LegacyIn(bs, bs.Keys);
  }

  lemma ReserveStep(was: map<Octet, TxId>, ids: seq<Octet>, i: nat, id: TxId)
    requires i < |ids|
    ensures Reserve(was, ids[..i + 1], id) == Reserve(was, ids[..i], id)[ids[i] := id]
  {
    var init, more := ids[..i], ids[..i + 1];
    var before, after := map e | e in init :: id, map e | e in more :: id;
    assert more == init + [ids[i]];
    assert after.Keys == before.Keys + {ids[i]};
    assert after == before[ids[i] := id];
    MergeThenPut(was, before, ids[i], id);
  }

  function WithErabResult(bearers: map<Octet, Bearer>, ebis: set<Octet>, ok: bool): map<Octet, Bearer> {
    map e | e in bearers :: if e in ebis then bearers[e].(established := ok, erabFailed := !ok) else bearers[e]
  }

  method SetErabResult(bearers: map<Octet, Bearer>, ebis: set<Octet>, ok: bool) returns (after: map<Octet, Bearer>)
    ensures after == WithErabResult(bearers, ebis, ok)
  {
    after := bearers;
    var left := ebis;
    while left != {}
      invariant left <= ebis && after.Keys == bearers.Keys
      invariant forall e :: e in bearers ==>
        after[e] == if e in ebis && e !in left then bearers[e].(established := ok, erabFailed := !ok) else bearers[e]
    {
      var e := Pick(left);
      left := left - {e};
      if e in after { after := after[e := after[e].(established := ok, erabFailed := !ok)]; }
    }
    assert forall e :: e !in left;
    assert forall e :: e in bearers ==>
      after[e] == if e in ebis then bearers[e].(established := ok, erabFailed := !ok) else bearers[e];
  }

  // allDeleteBearerNASAccepted.
  method EveryBearerAccepted(tx: Tx) returns (all: bool)
    ensures all <==> !(exists e :: e in tx.bearers && !tx.bearers[e].nasAccepted)
  {
    var left := tx.bearers.Keys;
    while left != {}
      invariant left <= tx.bearers.Keys
      invariant forall e :: e in tx.bearers && e !in left ==> tx.bearers[e].nasAccepted
    {
      var e := Pick(left);
      left := left - {e};
      if !tx.bearers[e].nasAccepted { return false; }
    }
    all := true;
  }

  // The loop of cleanupDisconnectedPDN over the dedicated bearers.
  method DropLinked(dedicated: map<Octet, Bearer>, linked: Octet) returns (rest: map<Octet, Bearer>)
    ensures rest == map e | e in dedicated && dedicated[e].linked != linked :: dedicated[e]
  {
    ghost var kept := map e | e in dedicated && dedicated[e].linked != linked :: dedicated[e];
    rest := dedicated;
    var left := dedicated.Keys;
    while left != {}
      invariant left <= rest.Keys && rest.Keys == kept.Keys + left
      invariant forall e :: e in rest ==> e in dedicated && rest[e] == dedicated[e]
    {
      var e := Pick(left);
      left := left - {e};
      if rest[e].linked == linked { rest := rest - {e}; }
    }
    assert rest.Keys == kept.Keys;
    assert forall e :: e in kept ==> rest[e] == kept[e];
  }

  lemma PutBack(pending: map<Key, Tx>, k: Key, e: Octet)
    requires k in pending && e in pending[k].bearers
    ensures pending[k := pending[k].(bearers := pending[k].bearers[e := pending[k].bearers[e]])] == pending
  {
    assert pending[k].bearers[e := pending[k].bearers[e]] == pending[k].bearers;
  }

  // ---------------------------------------------------------------- the context

  class Context {
    const defaultEbi: Octet
    const defaultApn: string
    // The S-GW behind each local TEID.
    ghost const sgw: nat -> string
    var access: Access
    var pdns: map<string, Pdn>
    var pendingPdn: Option<PendingPdn>
    var dedicated: map<Octet, Bearer>
    var reservations: map<Octet, TxId>
    var pending: map<Key, Tx>
    // Server.completedCreateBearerResponses, as far as it concerns this UE.
    var completed: map<Key, Response>
    // Requests between two regions, and what was sent, admitted and dropped so far.
    ghost var inFlight: set<PdnRequest>
    ghost var out: seq<Out>
    ghost var admitted: multiset<Key>
    ghost var dropped: multiset<Key>

    ghost function View(): State
      reads this
    {
      State(defaultEbi, defaultApn, access, pdns, pendingPdn, inFlight, dedicated, reservations, pending, completed,
            out, admitted, dropped)
    }

    // The class invariant: identities have one owner each, pending Creates own their reservations,
    // and the S11 books balance. Every region keeps it, and takes back nothing sent or cached.
    ghost predicate Valid()
      reads this
    {
      Sound(View(), sgw)
    }

    constructor (ebi: Octet, apn: string, a: Access, ghost peers: nat -> string)
      requires ebi == 0 || MIN_EBI <= ebi <= MAX_EBI
      ensures Valid() && View() == Attached(ebi, apn, a) && sgw == peers
    {
      AttachedIsSound(ebi, apn, a, peers);
      defaultEbi, defaultApn, access, sgw := ebi, apn, a, peers;
      pdns, pendingPdn, dedicated, reservations, pending, completed := map[], None, map[], map[], map[], map[];
      inFlight, out, admitted, dropped := {}, [], multiset{}, multiset{};
    }

    // ------------------------------------------------------------ scans over the context

    method CountPendingCreates() returns (n: nat)
      ensures n == |PendingCreates(View())|
    {
      n := 0;
      var left := pending.Keys;
      while left != {}
        invariant left <= pending.Keys
        invariant n == |OpenCreates(pending, pending.Keys - left)|
      {
        var k := Pick(left);
        ghost var seen := pending.Keys - left;
        left := left - {k};
        if KindOf(k) == Create && !Terminal(pending[k].state) {
          n := n + 1;
          assert OpenCreates(pending, pending.Keys - left) == OpenCreates(pending, seen) + {k};
        } else {
          assert OpenCreates(pending, pending.Keys - left) == OpenCreates(pending, seen);
        }
      }
      assert PendingCreates(View()) == OpenCreates(pending, pending.Keys - left);
    }

    method FindEquivalentPending(f: Fingerprint) returns (found: bool)
      ensures found <==> EquivalentPending(View(), f)
    {
      var left := pending.Keys;
      while left != {}
        invariant left <= pending.Keys
        invariant forall k :: k in pending && k !in left ==>
          !(KindOf(k) == Create && pending[k].fingerprint == f && !Terminal(pending[k].state))
      {
        var k := Pick(left);
        left := left - {k};
        if KindOf(k) == Create && pending[k].fingerprint == f && !Terminal(pending[k].state) { return true; }
      }
      found := false;
    }

    // The two loops of the used map: over the PDN connections, and over the pending transactions.
    method PdnIdentities() returns (used: set<Octet>)
      ensures used == PdnEbis(pdns, pdns.Keys)
    {
      used := {};
      var left := pdns.Keys;
      while left != {}
        invariant left <= pdns.Keys
        invariant used == PdnEbis(pdns, pdns.Keys - left)
      {
        var a := Pick(left);
        PdnEbisStep(pdns, pdns.Keys - left, a);
        assert pdns.Keys - (left - {a}) == (pdns.Keys - left) + {a};
        left := left - {a};
        if pdns[a].ebi != 0 { used := used + {pdns[a].ebi}; }
      }
      assert pdns.Keys - left == pdns.Keys;
    }

    method PendingIdentities() returns (used: set<Octet>)
      ensures used == TxEbis(pending, pending.Keys)
    {
      used := {};
      var left := pending.Keys;
      while left != {}
        invariant left <= pending.Keys
        invariant used == TxEbis(pending, pending.Keys - left)
      {
        var k := Pick(left);
        TxEbisStep(pending, pending.Keys - left, k);
        assert pending.Keys - (left - {k}) == (pending.Keys - left) + {k};
        left := left - {k};
        used := used + pending[k].bearers.Keys;
      }
      assert pending.Keys - left == pending.Keys;
    }

    // The used map of assignDedicatedEBIsLocked and allocateDefaultBearerIDLocked.
    method UsedIdentities() returns (used: set<Octet>)
      ensures used == Used(View())
    {
      UsedInParts(View());
      hide PdnEbis, TxEbis, Used;
      used := if defaultEbi != 0 then {defaultEbi} else {};
      var ofPdns := PdnIdentities();
      used := used + ofPdns;
      if pendingPdn.Some? && pendingPdn.value.pdn.ebi != 0 { used := used + {pendingPdn.value.pdn.ebi}; }
      var ofPending := PendingIdentities();
      used := used + dedicated.Keys + reservations.Keys + ofPending;
    }

    // ------------------------------------------------------------ the end of a Create

    predicate HasActiveS1()
      reads this
    {
      !access.idle && access.binding
    }

    method FinalizeCreate(k: Key)
      requires k in pending
      modifies this
      ensures View() == Finalize(old(View()), k)
    {
      var tx := pending[k];
      var cause, _, _ := EvaluateOutcome(tx);
      var bearers := CreateBearersFromTx(tx);
      dedicated, reservations := InstallActive(tx, dedicated, reservations);
      pending := pending - {k};
      SendFinalCreateBearerResponse(k, Response(cause, bearers));
    }

    // sendFinalCreateBearerResponse: cached before it is sent.
    method SendFinalCreateBearerResponse(k: Key, r: Response)
      modifies this`completed, this`out
      ensures completed == old(completed)[k := r] && out == old(out) + [Answer(k, r)]
    {
      completed := completed[k := r];
      out := out + [Answer(k, r)];
    }

    method MaybeCompleteCreateBearer(k: Key)
      requires k in pending
      modifies this
      ensures View() == MaybeComplete(old(View()), k)
    {
      var tx := pending[k];
      if KindOf(k) != Create || tx.state == CleaningUpERAB { return; }
      var allDone := EveryBearerDecided(tx);
      if !allDone { return; }
      var items := FailedReleaseItems(tx);
      if items != {} && HasActiveS1() {
        pending := pending[k := tx.(state := CleaningUpERAB, cleanup := items)];
        return;
      }
      FinalizeCreate(k);
    }

    // releaseCreateBearerReservationsLocked.
    method ReleaseReservations(id: TxId)
      modifies this`reservations
      ensures reservations == ReleaseOwned(old(reservations), id)
    {
      ghost var was, kept := reservations, ReleaseOwned(reservations, id);
      var left := reservations.Keys;
      while left != {}
        invariant left <= reservations.Keys
        invariant reservations.Keys == kept.Keys + left
        invariant forall e :: e in reservations ==> reservations[e] == was[e]
      {
        var e := Pick(left);
        left := left - {e};
        if reservations[e] == id { reservations := reservations - {e}; }
      }
      assert reservations.Keys == kept.Keys;
      assert forall e :: e in kept ==> reservations[e] == kept[e];
    }

    method FailCreateBearer(k: Key, cause: Octet)
      requires Valid()
      modifies this
      ensures View() == FailCreate(old(View()), k, cause)
      ensures (k in old(pending) ==> KindOf(k) == Create) ==> Valid() && Extends(old(View()), View())
    {
      hide Sound, Extends;
      if k in pending ==> KindOf(k) == Create { FailureFollows(View(), k, cause, sgw); }
      if k !in pending { return; }
      var bearers := CreateBearersFromTx(pending[k]);
      pending := pending - {k};
      ReleaseReservations(IdOf(k));
      SendFinalCreateBearerResponse(k, Response(cause, bearers));
    }

    // ------------------------------------------------------------ results of a Create

    // findPendingBearerTransactionForResponseLocked for one kind, and the same scan at the head
    // of completeDedicatedERABSetupForBearer.
    method FindByBearer(kind: Kind, e: Octet) returns (found: Option<Key>)
      ensures found.Some? ==> Matches(View(), found.value, {kind}, e)
      ensures found.None? ==> forall k :: !Matches(View(), k, {kind}, e)
    {
      var left := pending.Keys;
      while left != {}
        invariant left <= pending.Keys
        invariant forall k :: k in pending && k !in left ==> !Matches(View(), k, {kind}, e)
      {
        var k := Pick(left);
        left := left - {k};
        if KindOf(k) == kind && e in pending[k].bearers { return Some(k); }
      }
      found := None;
    }

    method HandleActivationResponse(e: Octet, accepted: bool, cause: Octet) returns (found: Option<Key>)
      requires Valid()
      modifies this
      ensures if found.Some? then Matches(old(View()), found.value, {Create}, e)
                                  && View() == ActivationResult(old(View()), found.value, e, accepted, cause)
              else View() == old(View()) && forall k :: !Matches(View(), k, {Create}, e)
      ensures Valid() && Extends(old(View()), View())
    {
      hide Sound, Extends;
      Stays(View(), sgw);
      found := FindByBearer(Create, e);
      if found.None? { return; }
      var k := found.value;
      ActivationFollows(View(), k, e, accepted, cause, sgw);
      var proc := pending[k].bearers[e];
      if e !in reservations || reservations[e] != IdOf(k) || proc.txId != IdOf(k) { return; }
      proc := proc.(timer := T.Stop(proc.timer));
      if accepted {
        proc := proc.(nasAccepted := true);
      } else {
        proc := proc.(nasRejected := true, ran := EsmCause(cause));
      }
      pending := pending[k := pending[k].(bearers := pending[k].bearers[e := proc])];
      MaybeCompleteCreateBearer(k);
    }

    method CompleteErabSetup(e: Octet, success: bool, enb: Transport, cause: RanNasCause) returns (found: Option<Key>)
      requires Valid()
      modifies this
      ensures if found.Some? then Matches(old(View()), found.value, {Create}, e)
                                  && View() == SetupResult(old(View()), found.value, e, success, enb, cause)
              else View() == old(View()) && forall k :: !Matches(View(), k, {Create}, e)
      ensures Valid() && Extends(old(View()), View())
    {
      hide Sound, Extends;
      Stays(View(), sgw);
      found := FindByBearer(Create, e);
      if found.None? { return; }
      var k := found.value;
      SetupFollows(View(), k, e, success, enb, cause, sgw);
      if e !in reservations || reservations[e] != IdOf(k) { return; }
      var proc := pending[k].bearers[e].(enb := enb, established := success, erabFailed := !success);
      if !success { proc := proc.(ran := cause); }
      pending := pending[k := pending[k].(bearers := pending[k].bearers[e := proc])];
      MaybeCompleteCreateBearer(k);
    }

    method CompleteCleanup(k: Key, released: set<Octet>, failed: set<Octet>)
      requires Valid()
      modifies this
      ensures View() == CleanupDone(old(View()), k, released, failed)
      ensures Valid() && Extends(old(View()), View())
    {
      hide Sound, Extends, Finalize;
      CleanupFollows(View(), k, released, failed, sgw);
      if k !in pending || KindOf(k) != Create || pending[k].cleanup == {} { return; }
      var outcome := EvaluateReleaseOutcome(pending[k].cleanup, released, failed);
      var tx := TearDownReleased(pending[k], outcome);
      pending := pending[k := tx];
      FinalizeCreate(k);
    }

    method FailCleanup(k: Key)
      requires Valid()
      modifies this
      ensures View() == CleanupError(old(View()), k)
      ensures Valid() && Extends(old(View()), View())
    {
      hide Sound, Extends, Finalize;
      CleanupFollows(View(), k, {}, {}, sgw);
      if k !in pending || KindOf(k) != Create || pending[k].cleanup == {} { return; }
      var bearers := TearDown(pending[k].bearers, pending[k].bearers.Keys, false);
      assert bearers == map e | e in pending[k].bearers :: Torn(pending[k].bearers[e], false);
      pending := pending[k := pending[k].(bearers := bearers)];
      FinalizeCreate(k);
    }

    // ------------------------------------------------------------ Create Bearer Request

    // allocateDedicatedLegacyTransactionIdentifierLocked: the bearers built so far count as pending.
    method AllocateLegacyIdentifier(built: map<Octet, Bearer>) returns (id: Octet)
      ensures id == FirstFree({1} + TxLegacy(pending, pending.Keys) + LegacyIn(built, built.Keys), MIN_LEGACY, MAX_LEGACY)
    {
      var used := {1};
      var left := pending.Keys;
      while left != {}
        invariant left <= pending.Keys
        invariant used == {1} + TxLegacy(pending, pending.Keys - left)
      {
        var k := Pick(left);
        TxLegacyStep(pending, pending.Keys - left, k);
        assert pending.Keys - (left - {k}) == (pending.Keys - left) + {k};
        left := left - {k};
        var more := LegacyIdentifiers(pending[k].bearers);
        used := used + more;
      }
      assert pending.Keys - left == pending.Keys;
      var more := LegacyIdentifiers(built);
      used := used + more;
      id := FirstFree(used, MIN_LEGACY, MAX_LEGACY);
    }

    // The loop over the bearer contexts of a request: identities are reserved one by one, and a
    // bearer that finds no legacy identifier leaves the earlier reservations behind.
    method BuildBearers(k: Key, req: CreateRequest, ims: bool, ids: seq<Octet>)
      returns (ok: bool, bearers: map<Octet, Bearer>)
      requires |ids| == |req.bearers| && Distinct(ids)
      modifies this`reservations
      ensures var legacy := AssignLegacy(LegacyNeeded(req, ims), LegacyUsed(old(View())));
              && (ok <==> |legacy| == |req.bearers|)
              && reservations == Reserve(old(reservations), ids[..|legacy|], IdOf(k))
              && (ok ==> bearers == NewBearers(IdOf(k), req, ids, legacy))
    {
      LegacyUsedIsPending(View());
      hide NewBearers, Reserve, AssignLegacy, LegacyIn, LegacyUsed, TxLegacy;
      bearers := map[];
      ghost var needed, used, was := LegacyNeeded(req, ims), LegacyUsed(View()), reservations;
      ghost var given: seq<Octet> := [];
      var i := 0;
      BuildStart(IdOf(k), req, ids, needed, used, was);
      while i < |req.bearers|
        invariant 0 <= i == |given| <= |req.bearers|
        invariant reservations == Reserve(was, ids[..i], IdOf(k))
        invariant bearers == NewBearers(IdOf(k), req, ids[..i], given)
        invariant AssignLegacy(needed, used) == given + AssignLegacy(needed[i..], used + LegacyIn(bearers, bearers.Keys))
      {
        var b := req.bearers[i];
        var qci := EffectiveQci(b.qos.qci);
        var legacy := 0;
        ghost var taken := used + LegacyIn(bearers, bearers.Keys);
        LegacyUnfold(needed, i, taken);
        assert needed[i] == (ims && (qci == 1 || qci == 2));
        if ims && (qci == 1 || qci == 2) {
          legacy := AllocateLegacyIdentifier(bearers);
          if legacy == 0 {
            assert given + [] == given;
            return false, bearers;
          }
        }
        BuildStep(IdOf(k), req, ids, given, i, legacy, was);
        bearers := bearers[ids[i] := NewBearer(IdOf(k), req.linked, b, legacy)];
        reservations := reservations[ids[i] := IdOf(k)];
        ghost var taken' := used + LegacyIn(bearers, bearers.Keys);
        assert taken' == if legacy != 0 then taken + {legacy} else taken;
        assert given + ([legacy] + AssignLegacy(needed[i + 1..], taken'))
               == (given + [legacy]) + AssignLegacy(needed[i + 1..], taken');
        given := given + [legacy];
        i := i + 1;
      }
      assert ids[..i] == ids && needed[i..] == [];
      BuildEnd(needed, i, used + LegacyIn(bearers, bearers.Keys));
      assert given + [] == given;
      ok := true;
    }

    // HandleCreateBearerRequest up to its first unlock. `pick` is the transaction that the
    // aggregation meets first, if the linked default activation is still staged.
    method HandleCreateBearerRequest(peer: string, req: CreateRequest, linked: Option<Linked>, pick: Key)
      requires Valid()
      modifies this
      ensures View() == CreateBearerRequest(old(View()), peer, req, linked, pick)
      ensures peer == sgw(req.teid) ==> Valid() && Extends(old(View()), View())
    {
      hide Sound, Extends;
      if peer == sgw(req.teid) { RequestFollows(View(), peer, req, linked, pick, sgw); }
      PdnsAreDistinct(View(), sgw);
      var k := Gtp(peer, Create, req.teid, req.seqNum);
      if linked.None? {
        out := out + [Immediate(k, CONTEXT_NOT_FOUND)];
        return;
      }
      if k in completed {
        out := out + [Replay(k, completed[k])];
        return;
      }
      if k in pending { return; }
      var equivalent := FindEquivalentPending(FingerprintOf(req));
      if equivalent {
        out := out + [Immediate(k, REQUEST_REJECTED)];
        return;
      }
      var n := CountPendingCreates();
      if n >= MAX_PENDING_CREATES {
        out := out + [Immediate(k, REQUEST_DENIED)];
        return;
      }
      AllocateAndProceed(k, req, linked.value, pick);
    }

    method AllocateAndProceed(k: Key, req: CreateRequest, linked: Linked, pick: Key)
      requires k !in pending && DistinctPdns()
      modifies this
      ensures View() == Allocate(old(View()), k, req, linked, pick)
    {
      hide Used, LegacyUsed, NewBearers, Assign, AssignLegacy, Proceed, FingerprintOf, RequestedEbis, LegacyNeeded, Reserve;
      var used := UsedIdentities();
      var ok, ids := AssignIdentities(RequestedEbis(req), used);
      assert |RequestedEbis(req)| == |req.bearers| by { RequestLengths(req, linked.ims); }
      if !ok {
        out := out + [Immediate(k, ALL_ADDRESSES_OCCUPIED)];
        return;
      }
      AssignSound(RequestedEbis(req), used);
      ghost var legacy := AssignLegacy(LegacyNeeded(req, linked.ims), LegacyUsed(View()));
      var served, bearers := BuildBearers(k, req, linked.ims, ids);
      assert |legacy| <= |req.bearers| by { RequestLengths(req, linked.ims); }
      if !served {
        out := out + [Immediate(k, REQUEST_DENIED)];
        return;
      }
      assert ids[..|legacy|] == ids;
      AdmitAndProceed(k, Tx(req.linked, FingerprintOf(req), bearers, Received, {}, false), linked, pick);
    }

    method AdmitAndProceed(k: Key, tx: Tx, linked: Linked, pick: Key)
      requires k !in pending && DistinctPdns()
      modifies this
      ensures View() == Proceed(Install(old(View()), k, tx), k, linked, pick)
    {
      hide Proceed;
      pending := pending[k := tx];
      admitted := admitted + multiset{k};
      ProceedWith(k, linked, pick);
    }

    // buildCreateBearerERABItemsLocked, as far as it can fail.
    method OwnsReservations(k: Key) returns (owned: bool)
      ensures owned <==> Owned(View(), k)
    {
      if k !in pending { return false; }
      var left := pending[k].bearers.Keys;
      while left != {}
        invariant left <= pending[k].bearers.Keys
        invariant forall e :: e in pending[k].bearers && e !in left ==> e in reservations && reservations[e] == IdOf(k)
      {
        var e := Pick(left);
        left := left - {e};
        if e !in reservations || reservations[e] != IdOf(k) { return false; }
      }
      owned := true;
    }

    // No two PDN connections share their default bearer: part of the single ownership of identities.
    ghost predicate DistinctPdns()
      reads this
    {
      forall a, b :: a in pdns && b in pdns && pdns[a].ebi == pdns[b].ebi ==> a == b
    }

    // linkedBearerReadyLocked: the first PDN with the linked EBI decides.
    method LinkedBearerReady(e: Octet) returns (ready: bool)
      requires DistinctPdns()
      ensures ready <==> LinkedReady(View(), e)
    {
      if e == 0 { return true; }
      var left := pdns.Keys;
      while left != {}
        invariant left <= pdns.Keys
        invariant forall a :: a in pdns && a !in left ==> pdns[a].ebi != e
      {
        var a := Pick(left);
        left := left - {a};
        var pdn := pdns[a];
        if pdn.ebi == e {
          return !pdn.disconnecting && pdn.nasAccepted && pdn.established && !pdn.modifyFailed;
        }
      }
      ready := defaultEbi == e;
    }

    // linkedBearerActiveLocked.
    method LinkedBearerActive(e: Octet) returns (active: bool)
      ensures active <==> LinkedActive(View(), e)
    {
      if e == 0 || defaultEbi == e { return true; }
      var left := pdns.Keys;
      while left != {}
        invariant left <= pdns.Keys
        invariant forall a :: a in pdns && a !in left ==> !(pdns[a].ebi == e && !pdns[a].disconnecting)
      {
        var a := Pick(left);
        left := left - {a};
        if pdns[a].ebi == e && !pdns[a].disconnecting { return true; }
      }
      active := false;
    }

    method DenyCreate(k: Key)
      requires k in pending
      modifies this
      ensures View() == Deny(old(View()), k)
    {
      pending := pending - {k};
      ReleaseReservations(IdOf(k));
      out := out + [Answer(k, Response(REQUEST_DENIED, map[]))];
    }

    method ProceedWith(k: Key, linked: Linked, pick: Key)
      requires k in pending && DistinctPdns()
      modifies this
      ensures View() == Proceed(old(View()), k, linked, pick)
    {
      var tx := pending[k];
      if HasActiveS1() && linked.aggregating {
        if pick in pending && KindOf(pick) == Create && pending[pick].linked == linked.ebi
           && (pending[pick].state == Received || pending[pick].state == WaitingForLink) {
          var owned := OwnsReservations(pick);
          if owned {
            pending := pending[pick := pending[pick].(state := SettingUpERAB)];
          } else {
            DenyCreate(k);
          }
        }
        return;
      }
      var ready := LinkedBearerReady(tx.linked);
      if !ready {
        pending := pending[k := tx.(state := WaitingForLink)];
      } else if !HasActiveS1() && access.registered && access.idle {
        pending := pending[k := tx.(state := WaitingForUE)];
      } else if !HasActiveS1() {
        DenyCreate(k);
      }
    }

    // The transaction whose linked bearer is gone.
    method WithdrawCreate(k: Key)
      requires k in pending
      modifies this
      ensures View() == Close(old(View()).(reservations := ReleaseOwned(old(reservations), IdOf(k))), k,
                              Response(CONTEXT_NOT_FOUND, BearerAnswers(old(pending)[k])))
    {
      var bearers := CreateBearersFromTx(pending[k]);
      pending := pending - {k};
      ReleaseReservations(IdOf(k));
      out := out + [Answer(k, Response(CONTEXT_NOT_FOUND, bearers))];
    }

    // The NAS messages are built while the transaction is already marked as activating.
    method ActivateCreate(k: Key)
      requires k in pending
      modifies this`pending
      ensures View() == PutTx(old(View()), k, old(pending)[k].(
                                state := if Owned(old(View()), k) then SettingUpERAB else ActivatingNAS))
    {
      var tx := pending[k];
      pending := pending[k := tx.(state := ActivatingNAS)];
      var owned := OwnsReservations(k);
      assert owned == Owned(old(View()), k);
      if owned { pending := pending[k := tx.(state := SettingUpERAB)]; }
    }

    // resumeCreateBearerTransaction up to the unlock before the E-RAB Setup is sent.
    method ResumeCreateBearer(k: Key)
      requires Valid()
      modifies this
      ensures View() == Resume(old(View()), k)
      ensures Valid() && Extends(old(View()), View())
    {
      hide Sound, Extends;
      ResumptionFollows(View(), k, sgw);
      PdnsAreDistinct(View(), sgw);
      hide LinkedReady, LinkedActive, Owned, BearerAnswers, ReleaseOwned;
      if k !in pending || KindOf(k) != Create || Terminal(pending[k].state) { return; }
      var tx := pending[k];
      if !HasActiveS1() {
        pending := pending[k := tx.(state := WaitingForUE)];
        return;
      }
      var active := LinkedBearerActive(tx.linked);
      if !active {
        WithdrawCreate(k);
        return;
      }
      var ready := LinkedBearerReady(tx.linked);
      if !ready {
        pending := pending[k := tx.(state := WaitingForLink)];
        return;
      }
      ActivateCreate(k);
    }

    // ------------------------------------------------------------ T3485

    method StartActivationTimer(k: Key, e: Octet, payload: T.Payload)
      requires Valid()
      modifies this
      ensures View() == TimerStart(old(View()), k, e, payload)
      ensures Valid() && Extends(old(View()), View())
      // A bearer the UE has answered, or whose timer runs, is left as it is.
      ensures (Matches(old(View()), k, {Create}, e)
               && (Answered(old(pending)[k].bearers[e]) || old(pending)[k].bearers[e].timer.active))
              ==> View() == old(View())
    {
      hide Sound, Extends;
      TimersFollow(View(), k, e, 0, payload, sgw);
      if k !in pending || KindOf(k) != Create || e !in pending[k].bearers { return; }
      PutBack(pending, k, e);
      var proc := pending[k].bearers[e];
      proc := proc.(timer := T.Start(proc.timer, Answered(proc), payload));
      pending := pending[k := pending[k].(bearers := pending[k].bearers[e := proc])];
    }

    method ActivationTimerExpired(k: Key, e: Octet, generation: nat)
      requires Valid()
      modifies this
      ensures View() == TimerExpiry(old(View()), k, e, generation)
      ensures Valid() && Extends(old(View()), View())
      // A callback that is not live changes nothing.
      ensures (Matches(old(View()), k, {Create}, e)
               && !T.Live(old(pending)[k].bearers[e].timer, Answered(old(pending)[k].bearers[e]), generation))
              ==> View() == old(View())
    {
      hide Sound, Extends;
      TimersFollow(View(), k, e, generation, [], sgw);
      if k !in pending || KindOf(k) != Create || e !in pending[k].bearers { return; }
      PutBack(pending, k, e);
      var proc := pending[k].bearers[e];
      var (timer, reaction) := T.Expire(proc.timer, Answered(proc), generation, HasActiveS1());
      proc := proc.(timer := timer);
      if reaction == T.GiveUp { proc := proc.(nasRejected := true); }
      pending := pending[k := pending[k].(bearers := pending[k].bearers[e := proc])];
    }

    // ------------------------------------------------------------ Update Bearer

    // findConflictingPendingNetworkUpdateLocked.
    method FindConflictingUpdate(cs: seq<Change>) returns (conflict: bool)
      ensures conflict <==> ConflictingUpdate(View(), cs)
    {
      var i := 0;
      while i < |cs|
        invariant 0 <= i <= |cs|
        invariant forall j, k :: 0 <= j < i && k in pending && KindOf(k) == Update ==> cs[j].ebi !in pending[k].bearers
      {
        var found := FindByBearer(Update, cs[i].ebi);
        if found.Some? {
          assert Matches(View(), found.value, {Update}, cs[i].ebi);
          return true;
        }
        assert forall k :: k in pending && KindOf(k) == Update && cs[i].ebi in pending[k].bearers
                 ==> Matches(View(), k, {Update}, cs[i].ebi);
        i := i + 1;
      }
      conflict := false;
    }

    method BuildUpdated(id: TxId, cs: seq<Change>) returns (bearers: map<Octet, Bearer>)
      ensures bearers == UpdatedBearers(dedicated, id, cs, ActiveS1(View()))
    {
      bearers := map[];
      var active := HasActiveS1();
      var i := 0;
      while i < |cs|
        invariant 0 <= i <= |cs|
        invariant bearers == UpdatedBearers(dedicated, id, cs[..i], active)
      {
        assert cs[..i + 1][..i] == cs[..i];
        if cs[i].ebi in dedicated {
          bearers := bearers[cs[i].ebi := Updated(dedicated[cs[i].ebi], id, cs[i], active)];
        }
        i := i + 1;
      }
      assert cs[..i] == cs;
    }

    method HandleUpdateBearerRequest(peer: string, teid: nat, seqNum: nat, cs: seq<Change>)
      requires Valid()
      modifies this
      ensures View() == UpdateBearerRequest(old(View()), peer, teid, seqNum, cs)
      ensures Valid() && Extends(old(View()), View())
      // A new request that is not refused is pending with every active bearer it names, each with what
      // the last change for it gives and otherwise as it was; no active bearer changes yet.
      ensures dedicated == old(dedicated)
      ensures Gtp(peer, Update, teid, seqNum) !in old(pending) ==>
                if BearerEffects.Conflicts(old(View()), cs)
                then out == old(out) + [Immediate(Gtp(peer, Update, teid, seqNum), 94)] && pending == old(pending)
                else if !BearerEffects.NamesActive(old(View()), cs)
                then out == old(out) + [Immediate(Gtp(peer, Update, teid, seqNum), 64)] && pending == old(pending)
                else out == old(out) && Gtp(peer, Update, teid, seqNum) in pending
                     && BearerEffects.HoldsUpdate(old(View()), View(), Gtp(peer, Update, teid, seqNum), cs)
    {
      hide Sound, Extends, BearerEffects.HoldsUpdate, BearerEffects.Conflicts, BearerEffects.NamesActive;
      BearerEffects.UpdateIsAdmittedAsRequested(View(), peer, teid, seqNum, cs);
      UpdateRequestFollows(View(), peer, teid, seqNum, cs, sgw);
      var k := Gtp(peer, Update, teid, seqNum);
      if k in pending { return; }
      var conflict := FindConflictingUpdate(cs);
      if conflict {
        out := out + [Immediate(k, REQUEST_DENIED)];
        return;
      }
      var bearers := BuildUpdated(IdOf(k), cs);
      if bearers == map[] {
        out := out + [Immediate(k, CONTEXT_NOT_FOUND)];
        return;
      }
      pending := pending[k := Tx(0, (0, 0, multiset{}), bearers, Received, {}, false)];
      admitted := admitted + multiset{k};
    }

    method CloseTransaction(k: Key, r: Response)
      modifies this`pending, this`out
      ensures pending == old(pending) - {k} && out == old(out) + [Answer(k, r)]
    {
      pending := pending - {k};
      out := out + [Answer(k, r)];
    }

    // maybeCompleteUpdateBearerLocked; the result says which bearer ended the scan.
    method MaybeCompleteUpdateBearer(k: Key) returns (ghost failureFirst: bool)
      requires k in pending
      modifies this
      ensures View() == MaybeCompleteUpdate(old(View()), k, failureFirst)
    {
      hide HasActiveS1;
      failureFirst := false;
      if KindOf(k) != Update { return; }
      var tx := pending[k];
      var left := tx.bearers.Keys;
      while left != {}
        invariant left <= tx.bearers.Keys && View() == old(View()) && !failureFirst
        invariant forall e :: e in tx.bearers && e !in left ==> !tx.bearers[e].erabFailed && Confirmed(tx, tx.bearers[e])
      {
        var e := Pick(left);
        left := left - {e};
        var proc := tx.bearers[e];
        if proc.erabFailed {
          failureFirst := true;
          CloseTransaction(k, Response(REQUEST_REJECTED, map[]));
          return;
        }
        if !proc.nasAccepted || (tx.modifying && !proc.established) { return; }
      }
      dedicated := dedicated + tx.bearers;
      CloseTransaction(k, Response(ACCEPTED, map[]));
    }

    method HandleModifyResponse(k: Key, e: Octet, accepted: bool) returns (ghost failureFirst: bool)
      requires Valid()
      requires Matches(View(), k, {Update, LocalUpdate}, e)
      modifies this
      ensures View() == ModifyResult(old(View()), k, e, accepted, failureFirst)
      ensures Valid() && Extends(old(View()), View())
    {
      hide Sound, Extends;
      ModificationFollows(View(), k, e, accepted, true, sgw);
      ModificationFollows(View(), k, e, accepted, false, sgw);
      failureFirst := false;
      var proc := pending[k].bearers[e];
      if KindOf(k) == Update {
        if accepted {
          pending := pending[k := pending[k].(bearers := pending[k].bearers[e := proc.(nasAccepted := true)])];
          failureFirst := MaybeCompleteUpdateBearer(k);
        } else {
          CloseTransaction(k, Response(UE_REFUSES, map[]));
        }
      } else {
        if accepted { dedicated := dedicated[e := proc]; }
        pending := pending - {k};
      }
    }

    // completeDedicatedUpdateBearerERABModify: the successful items first, then the failed ones.
    method CompleteErabModify(k: Key, modified: set<Octet>, failed: set<Octet>) returns (ghost failureFirst: bool)
      requires Valid()
      modifies this
      ensures View() == ErabModified(old(View()), k, modified, failed, failureFirst)
      ensures Valid() && Extends(old(View()), View())
    {
      hide Sound, Extends;
      ErabModifyFollows(View(), k, modified, failed, true, sgw);
      ErabModifyFollows(View(), k, modified, failed, false, sgw);
      failureFirst := false;
      if k !in pending || KindOf(k) != Update { return; }
      var tx := pending[k];
      var bearers := SetErabResult(tx.bearers, modified, true);
      bearers := SetErabResult(bearers, failed, false);
      pending := pending[k := tx.(bearers := bearers)];
      assert bearers == map e | e in tx.bearers ::
        if e in failed then tx.bearers[e].(established := false, erabFailed := true)
        else if e in modified then tx.bearers[e].(established := true, erabFailed := false)
        else tx.bearers[e];
      failureFirst := MaybeCompleteUpdateBearer(k);
    }

    method RegisterErabModify(k: Key)
      requires Valid()
      modifies this`pending
      ensures View() == ModifySent(old(View()), k)
      ensures Valid() && Extends(old(View()), View())
    {
      hide Sound, Extends;
      UpdateEndsFollow(View(), k, 0, sgw);
      if k in pending && KindOf(k) == Update { pending := pending[k := pending[k].(modifying := true)]; }
    }

    // failUpdateBearerTransaction, its variant by ID, and onUpdateBearerTimeout.
    method FailUpdateBearer(k: Key, cause: Octet)
      requires Valid()
      modifies this
      ensures View() == FailUpdate(old(View()), k, cause)
      ensures Valid() && Extends(old(View()), View())
      // No active record is touched.
      ensures dedicated == old(dedicated)
    {
      hide Sound, Extends;
      UpdateEndsFollow(View(), k, cause, sgw);
      if k in pending && KindOf(k) == Update { CloseTransaction(k, Response(cause, map[])); }
    }

    // HandleLocalBearerResourceModification.
    method HandleLocalModification(e: Octet, pti: Octet, tfa: seq<Octet>)
      requires Valid()
      modifies this`pending
      ensures View() == LocalModification(old(View()), e, pti, tfa)
      ensures Valid() && Extends(old(View()), View())
      // The active record waits for the UE.
      ensures dedicated == old(dedicated) && out == old(out)
    {
      hide Sound, Extends;
      LocalFollows(View(), e, pti, tfa, sgw);
      var k := Local(e, pti);
      if e !in dedicated || k in pending { return; }
      var next := dedicated[e].(txId := IdOf(k));
      if tfa != [] { next := next.(qos := next.qos.(tft := tfa)); }
      pending := pending[k := Tx(dedicated[e].linked, (0, 0, multiset{}), map[e := next], Received, {}, false)];
    }

    // ------------------------------------------------------------ Delete Bearer

    method HandleDeleteBearerRequest(peer: string, teid: nat, seqNum: nat, ebis: seq<Octet>)
      requires Valid()
      modifies this
      ensures View() == DeleteBearerRequest(old(View()), peer, teid, seqNum, Elements(ebis))
      ensures Valid() && Extends(old(View()), View())
    {
      hide Sound, Extends;
      DeleteRequestFollows(View(), peer, teid, seqNum, Elements(ebis), sgw);
      var k := Gtp(peer, Delete, teid, seqNum);
      if k in pending { return; }
      var bearers := CopyForDelete(ebis, IdOf(k));
      if bearers == map[] {
        out := out + [Immediate(k, ACCEPTED)];
        return;
      }
      pending := pending[k := Tx(0, (0, 0, multiset{}), bearers, Received, {}, false)];
      admitted := admitted + multiset{k};
    }

    method CopyForDelete(ebis: seq<Octet>, id: TxId) returns (bearers: map<Octet, Bearer>)
      ensures bearers == map e | e in Elements(ebis) && e in dedicated :: dedicated[e].(txId := id)
    {
      bearers := map[];
      var i := 0;
      while i < |ebis|
        invariant 0 <= i <= |ebis|
        invariant bearers.Keys == Elements(ebis[..i]) * dedicated.Keys
        invariant forall e :: e in bearers ==> bearers[e] == dedicated[e].(txId := id)
      {
        assert Elements(ebis[..i + 1]) == Elements(ebis[..i]) + {ebis[i]} by {
          assert ebis[..i + 1] == ebis[..i] + [ebis[i]];
        }
        if ebis[i] in dedicated { bearers := bearers[ebis[i] := dedicated[ebis[i]].(txId := id)]; }
        i := i + 1;
      }
      assert ebis[..i] == ebis;
      ghost var all := map e | e in Elements(ebis) && e in dedicated :: dedicated[e].(txId := id);
      assert bearers.Keys == all.Keys;
      assert forall e :: e in all ==> bearers[e] == all[e];
    }

    method DeleteNotSent(k: Key)
      requires Valid()
      modifies this`out
      ensures View() == DeleteSendFailed(old(View()), k)
      ensures Valid() && Extends(old(View()), View())
      // The Delete stays pending, so it can be answered again.
      ensures pending == old(pending) && dedicated == old(dedicated)
    {
      hide Sound, Extends;
      DeleteEndsFollow(View(), k, {}, {}, sgw);
      if k in pending && KindOf(k) == Delete { out := out + [Premature(k, REQUEST_DENIED)]; }
    }

    // shouldReleaseDedicatedBearersOverS1Locked.
    method ShouldReleaseOverS1(tx: Tx) returns (release: bool)
      ensures release <==> ReleaseOverS1(View(), tx)
    {
      if !HasActiveS1() { return false; }
      var left := tx.bearers.Keys;
      while left != {}
        invariant left <= tx.bearers.Keys
        invariant forall e :: e in tx.bearers && e !in left ==>
          !tx.bearers[e].established && tx.bearers[e].enb.teid == 0 && tx.bearers[e].enb.ip == []
      {
        var e := Pick(left);
        left := left - {e};
        var b := tx.bearers[e];
        if b.established || b.enb.teid != 0 || b.enb.ip != [] { return true; }
      }
      release := false;
    }

    method HandleDeactivateAccept(k: Key, e: Octet)
      requires Valid()
      requires Matches(View(), k, {Delete}, e)
      modifies this
      ensures View() == DeactivateAccepted(old(View()), k, e)
      ensures Valid() && Extends(old(View()), View())
    {
      hide Sound, Extends;
      DeactivationFollows(View(), k, e, sgw);
      var tx := pending[k].(bearers := pending[k].bearers[e := pending[k].bearers[e].(nasAccepted := true)]);
      pending := pending[k := tx];
      var all := EveryBearerAccepted(tx);
      if !all { return; }
      var release := ShouldReleaseOverS1(tx);
      if release {
        pending := pending[k := tx.(cleanup := tx.bearers.Keys)];
        return;
      }
      dedicated := dedicated - tx.bearers.Keys;
      CloseTransaction(k, Response(ACCEPTED, map[]));
    }

    // completeDedicatedDeleteBearerERABRelease.
    method CompleteDeleteRelease(k: Key, released: set<Octet>, failed: set<Octet>)
      requires Valid()
      modifies this
      ensures View() == DeleteReleased(old(View()), k, released, failed)
      ensures Valid() && Extends(old(View()), View())
    {
      hide Sound, Extends;
      DeleteEndsFollow(View(), k, released, failed, sgw);
      if k !in pending || KindOf(k) != Delete || pending[k].cleanup == {} { return; }
      var o := EvaluateReleaseOutcome(pending[k].cleanup, released, failed);
      var left := SetErabResult(dedicated - o.released, o.failed, false);
      left := SetErabResult(left, o.missing, false);
      assert left == map e | e in dedicated && e !in o.released ::
        if e in o.failed || e in o.missing then dedicated[e].(established := false, erabFailed := true) else dedicated[e];
      dedicated := left;
      CloseTransaction(k, Response(o.cause, map[]));
    }

    method FailDelete(k: Key)
      requires Valid()
      modifies this
      ensures View() == DeleteReleaseError(old(View()), k)
      ensures Valid() && Extends(old(View()), View())
      // The bearers the eNB may still hold stay active.
      ensures dedicated == old(dedicated)
    {
      hide Sound, Extends;
      DeleteEndsFollow(View(), k, {}, {}, sgw);
      if k in pending && KindOf(k) == Delete { CloseTransaction(k, Response(REQUEST_DENIED, map[])); }
    }

    // ------------------------------------------------------------ PDN connectivity

    // handlePDNConnectivityRequest up to the unlock after the reservation.
    method ReserveForPdn(pti: Octet, apn: string)
      requires Valid()
      modifies this
      ensures View() == PdnReserve(old(View()), pti, apn)
      ensures Valid() && Extends(old(View()), View())
    {
      hide Sound, Extends;
      PdnFollows(View(), pti, apn, PdnRequest(0, pti, apn), sgw);
      if apn in pdns || pendingPdn.Some? { return; }
      var used := UsedIdentities();
      var e := FirstFree(used, MIN_EBI, MAX_EBI);
      if e == 0 { return; }
      reservations := reservations[e := PdnId(pti, apn)];
      inFlight := inFlight + {PdnRequest(e, pti, apn)};
    }

    method InstallPendingPdn(ghost r: PdnRequest, ebi: Octet, pti: Octet, apn: string)
      requires Valid()
      requires r in inFlight && r == PdnRequest(ebi, pti, apn)
      modifies this
      ensures View() == PdnInstall(old(View()), r)
      ensures Valid() && Extends(old(View()), View())
    {
      hide Sound, Extends;
      PdnFollows(View(), pti, apn, r, sgw);
      pendingPdn := Some(PendingPdn(apn, NewPdn(ebi, pti)));
      inFlight := inFlight - {r};
    }

    // releasePendingPDNReservationLocked.
    method ReleasePdnReservation(p: PendingPdn, ebi: Octet)
      modifies this`reservations
      ensures reservations == ReleasePdn(old(reservations), p, ebi)
    {
      if ebi != 0 && ebi in reservations && reservations[ebi] == PdnId(p.pdn.pti, p.apn) {
        reservations := reservations - {ebi};
      }
    }

    method DropPendingPdn()
      requires Valid()
      modifies this
      ensures View() == PendingPdnDropped(old(View()))
      ensures Valid() && Extends(old(View()), View())
    {
      hide Sound, Extends;
      PdnFollows(View(), 0, "", PdnRequest(0, 0, ""), sgw);
      if pendingPdn.None? { return; }
      var p := pendingPdn.value;
      pendingPdn := None;
      ReleasePdnReservation(p, p.pdn.ebi);
    }

    method InstallSession(ebi: Octet)
      requires pendingPdn.Some? && ebi != 0
      modifies this
      ensures View() == SessionCreated(old(View()), ebi)
    {
      hide ReleasePdn;
      var p := pendingPdn.value;
      if p.pdn.ebi != ebi {
        ReleasePdnReservation(p, p.pdn.ebi);
        reservations := reservations[ebi := PdnId(p.pdn.pti, p.apn)];
      }
      pdns := pdns[p.apn := p.pdn.(ebi := ebi)];
      pendingPdn := None;
      ReleasePdnReservation(p, ebi);
    }

    // handlePendingPDNCSRResult for an accepted Create Session Response. The EBI it carries is
    // taken as it is, so an S-GW that answers with an EBI in use breaks the single ownership.
    method HandleSessionCreated(ebi: Octet)
      requires Valid()
      modifies this
      ensures View() == SessionCreated(old(View()), ebi)
      ensures Valid() && Extends(old(View()), View()) <==> SessionEbiIsFree(old(View()), ebi)
    {
      hide Sound, Extends, SessionEbiIsFree, ReleasePdn;
      SessionFollowsExactlyWhen(View(), ebi, sgw);
      if pendingPdn.None? { return; }
      if ebi == 0 {
        DropPendingPdn();
        return;
      }
      InstallSession(ebi);
    }

    // The loop of cleanupDisconnectedPDN over the transactions.
    method DropLinkedTransactions(e: Octet) returns (ghost gone: set<Key>)
      modifies this`pending, this`dropped
      ensures gone == set k | k in old(pending) && old(pending)[k].linked == e
      ensures pending == old(pending) - gone && dropped == old(dropped) + multiset(gone)
    {
      gone := {};
      ghost var was := pending;
      var left := pending.Keys;
      while left != {}
        invariant left <= pending.Keys && gone !! left
        invariant pending == was - gone && dropped == old(dropped) + multiset(gone)
        invariant forall k :: k in gone ==> k in was && was[k].linked == e
        invariant forall k :: k in was && k !in gone && was[k].linked == e ==> k in left
      {
        var k := Pick(left);
        left := left - {k};
        if pending[k].linked == e {
          RemoveThenRemove(was, gone, k);
          assert multiset(gone + {k}) == multiset(gone) + multiset{k};
          pending := pending - {k};
          dropped := dropped + multiset{k};
          gone := gone + {k};
        }
      }
    }

    // cleanupDisconnectedPDN.
    method CleanUpPdn(apn: string)
      requires Valid()
      modifies this
      ensures View() == PdnRemoved(old(View()), apn)
      ensures Valid() && Extends(old(View()), View())
    {
      hide Sound, Extends;
      RemovalFollows(View(), apn, sgw);
      if apn !in pdns || !pdns[apn].deletePending { return; }
      var e := pdns[apn].ebi;
      pdns := pdns - {apn};
      dedicated := DropLinked(dedicated, e);
      ghost var gone := DropLinkedTransactions(e);
      assert gone == set k | k in old(View()).pending && old(View()).pending[k].linked == e;
    }
  }
}
