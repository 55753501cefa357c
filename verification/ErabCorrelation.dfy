/**
 * Correlation of E-RAB Setup, Modify and Release Responses with the procedure they answer
 * (internal/s1ap/erab_setup.go:934-976, 1367-1403). S1AP carries no transaction identity, so
 * a response is matched by the E-RABs it names among the procedures of the current S1 binding.
 */
module ErabCorrelation {
  import opened Common
  import opened BearerMachine

  datatype Purpose = CreateSetup | InitialAggregate | DefaultSetup | UpdateModify | DeleteRelease | CreateCleanup
                   | PdnRelease

  // PendingERABProcedure. Generation 0 is not fenced by the S1 binding.
  datatype Procedure = Procedure(purpose: Purpose, expected: set<Octet>, generation: nat)

  predicate Live(p: Procedure, generation: nat) {
    p.generation == 0 || p.generation == generation
  }

  // The procedures a response naming `received` could belong to.
  function Candidates(ps: map<TxId, Procedure>, generation: nat, received: set<Octet>): set<TxId> {
    set id | id in ps && Live(ps[id], generation) && received <= ps[id].expected
  }

  function ExactCandidates(ps: map<TxId, Procedure>, generation: nat, received: set<Octet>): set<TxId> {
    set id | id in ps && Live(ps[id], generation) && ps[id].expected == received
  }

  // `id` is the procedure a response is credited to: the only exact one, or the only one at all.
  ghost predicate Credited(ps: map<TxId, Procedure>, generation: nat, received: set<Octet>, id: TxId) {
    || ExactCandidates(ps, generation, received) == {id}
    || (ExactCandidates(ps, generation, received) == {} && Candidates(ps, generation, received) == {id})
  }

  ghost predicate Ambiguous(ps: map<TxId, Procedure>, generation: nat, received: set<Octet>) {
    || |ExactCandidates(ps, generation, received)| > 1
    || (ExactCandidates(ps, generation, received) == {} && |Candidates(ps, generation, received)| > 1)
  }

  class Procedures {
    var pending: map<TxId, Procedure>
    var generation: nat

    // The test of `received` against the expected E-RABs of one procedure.
    static method Covers(expected: set<Octet>, received: set<Octet>) returns (covers: bool)
      ensures covers <==> received <= expected
    {
      var left := received;
      while left != {}
        invariant left <= received && received - left <= expected
      {
        var e := Pick(left);
        if e !in expected { return false; }
        left := left - {e};
      }
      covers := true;
    }

    // How a response fits one procedure: not at all, as a part, or exactly.
    static method Fit(proc: Procedure, generation: nat, received: set<Octet>) returns (fits: bool, exactly: bool)
      ensures fits <==> Live(proc, generation) && received <= proc.expected
      ensures exactly <==> fits && proc.expected == received
    {
      if proc.generation != 0 && proc.generation != generation { return false, false; }
      fits := Covers(proc.expected, received);
      if fits { SubsetSize(received, proc.expected); }
      exactly := fits && |received| == |proc.expected|;
    }

    // The scan of matchPendingERABProcedureLocked over the pending procedures.
    method Collect(received: set<Octet>) returns (exact: set<TxId>, subset: set<TxId>)
      ensures exact == ExactCandidates(pending, generation, received)
      ensures subset == Candidates(pending, generation, received) - exact
    {
      ghost var all, same := Candidates(pending, generation, received), ExactCandidates(pending, generation, received);
      CandidateFacts(pending, generation, received);
      hide Candidates, ExactCandidates, Live;
      exact, subset := {}, {};
      var left := pending.Keys;
      while left != {}
        invariant left <= pending.Keys
        invariant exact == same - left && subset == all - same - left
      {
        var id := Pick(left);
        left := left - {id};
        var fits, exactly := Fit(pending[id], generation, received);
        if exactly {
          exact := exact + {id};
        } else if fits {
          subset := subset + {id};
        }
      }
    }

    // matchPendingERABProcedureLocked. What it finds belongs to the current binding or is not
    // fenced, expects all of the E-RABs received, and is the only procedure the response can be
    // credited to.
    method Match(received: set<Octet>) returns (found: Option<TxId>, ambiguous: bool)
      ensures found.Some? ==> Credited(pending, generation, received, found.value)
      ensures found.Some? ==>
        && found.value in pending && Live(pending[found.value], generation) && received <= pending[found.value].expected
        && forall other :: Credited(pending, generation, received, other) ==> other == found.value
      ensures ambiguous <==> Ambiguous(pending, generation, received)
      ensures found.None? && !ambiguous ==> Candidates(pending, generation, received) == {}
    {
      ExactAreCandidates(pending, generation, received);
      hide Candidates, ExactCandidates;
      var exact, subset := Collect(received);
      if |exact| == 1 {
        var id := Pick(exact);
        Singleton(exact, id);
        CreditedIsSound(pending, generation, received, id);
        return Some(id), false;
      }
      if |exact| > 1 { return None, true; }
      assert exact == {} && subset == Candidates(pending, generation, received);
      if |subset| == 1 {
        var id := Pick(subset);
        Singleton(subset, id);
        CreditedIsSound(pending, generation, received, id);
        return Some(id), false;
      }
      found, ambiguous := None, |subset| > 1;
    }

    // The end of applyERABSetupResponseForProcedure: the procedure goes once one response
    // covers all of its E-RABs, whatever it was for.
    method ApplySetupResponse(id: TxId, received: set<Octet>)
      requires id in pending
      modifies this`pending
      ensures pending == if old(pending)[id].expected <= received then old(pending) - {id} else old(pending)
    {
      var covered := Covers(received, pending[id].expected);
      if covered { pending := pending - {id}; }
    }
  }

  lemma CandidateFacts(ps: map<TxId, Procedure>, generation: nat, received: set<Octet>)
    ensures var all, same := Candidates(ps, generation, received), ExactCandidates(ps, generation, received);
            && same <= all <= ps.Keys
            && forall id :: id in ps ==>
                 && (id in all <==> Live(ps[id], generation) && received <= ps[id].expected)
                 && (id in same <==> Live(ps[id], generation) && ps[id].expected == received)
  {}

  lemma Singleton<T>(s: set<T>, x: T)
    requires x in s && |s| == 1
    ensures s == {x}
  {
    SubsetSize({x}, s);
  }

  lemma ExactAreCandidates(ps: map<TxId, Procedure>, generation: nat, received: set<Octet>)
    ensures ExactCandidates(ps, generation, received) <= Candidates(ps, generation, received)
  {}

  // ---------------------------------------------------------------- what correlation guarantees

  lemma CreditedIsSound(ps: map<TxId, Procedure>, generation: nat, received: set<Octet>, id: TxId)
    requires Credited(ps, generation, received, id)
    ensures id in ps && Live(ps[id], generation) && received <= ps[id].expected
    ensures forall other :: Credited(ps, generation, received, other) ==> other == id
    ensures !Ambiguous(ps, generation, received)
  {}

  ghost predicate Disjoint(ps: map<TxId, Procedure>, generation: nat) {
    forall a, b :: a in ps && b in ps && a != b && Live(ps[a], generation) && Live(ps[b], generation) ==>
      ps[a].expected !! ps[b].expected
  }

  // While no two live procedures share an E-RAB, every non-empty response to a pending
  // procedure, complete or partial, is credited to exactly that one.
  lemma ResponseFindsItsProcedure(ps: map<TxId, Procedure>, generation: nat, received: set<Octet>, id: TxId)
    requires Disjoint(ps, generation) && received != {}
    requires id in ps && Live(ps[id], generation) && received <= ps[id].expected
    ensures Credited(ps, generation, received, id) && !Ambiguous(ps, generation, received)
  {
    var e := Member(received);
    forall other | other in Candidates(ps, generation, received) ensures other == id {
      assert e in ps[other].expected && e in ps[id].expected;
    }
    assert Candidates(ps, generation, received) == {id};
    ExactAreCandidates(ps, generation, received);
    if ExactCandidates(ps, generation, received) != {} {
      var x := Member(ExactCandidates(ps, generation, received));
      assert ExactCandidates(ps, generation, received) == {id};
    }
    CreditedIsSound(ps, generation, received, id);
  }

  // A complete response is ambiguous exactly when another live procedure expects the same E-RABs.
  lemma CompleteResponseAmbiguousExactlyWhen(ps: map<TxId, Procedure>, generation: nat, id: TxId)
    requires id in ps && Live(ps[id], generation)
    ensures Ambiguous(ps, generation, ps[id].expected)
            <==> exists other :: other in ps && other != id && Live(ps[other], generation)
                                 && ps[other].expected == ps[id].expected
  {
    var exact := ExactCandidates(ps, generation, ps[id].expected);
    assert id in exact;
    if exact == {id} {
      assert |{id}| == 1;
      forall other | other in ps && Live(ps[other], generation) && ps[other].expected == ps[id].expected
        ensures other == id
      {
        assert other in exact;
      }
    } else {
      var other := Member(exact - {id});
      SubsetSize({id, other}, exact);
      assert |{id, other}| == 2;
    }
  }

  // A partial response is credited to another procedure exactly when that one alone is live
  // and expects precisely the E-RABs received.
  lemma PartialResponseIsTakenExactlyWhen(ps: map<TxId, Procedure>, generation: nat, received: set<Octet>,
                                          id: TxId, other: TxId)
    requires id in ps && Live(ps[id], generation) && received < ps[id].expected && id != other
    ensures Credited(ps, generation, received, other) <==> ExactCandidates(ps, generation, received) == {other}
  {
    assert id in Candidates(ps, generation, received);
    assert Candidates(ps, generation, received) == {other} ==> id == other;
  }

  // A procedure of an earlier binding is never credited again.
  lemma StaleProcedureIsNeverCredited(ps: map<TxId, Procedure>, generation: nat, received: set<Octet>, id: TxId)
    requires id in ps && ps[id].generation != 0 && ps[id].generation < generation
    ensures !Credited(ps, generation, received, id)
  {}

  // Two partial responses that cover a procedure between them do not end it.
  lemma PartialResponsesDoNotAddUp(ps: map<TxId, Procedure>, id: TxId, first: set<Octet>, second: set<Octet>)
    requires id in ps && !(ps[id].expected <= first) && !(ps[id].expected <= second)
    ensures AfterSetup(AfterSetup(ps, id, first), id, second) == ps
  {}

  // What ApplySetupResponse leaves.
  function AfterSetup(ps: map<TxId, Procedure>, id: TxId, received: set<Octet>): map<TxId, Procedure> {
    if id in ps && ps[id].expected <= received then ps - {id} else ps
  }

  // The cleanup of a failed Create is registered under the ID of its setup, for the E-RABs to
  // release, so a duplicate of the Setup Response can be credited to it. It survives that, and the
  // Release Response that follows still finds it, exactly when the duplicate does not name all of
  // the E-RABs to release.
  lemma CleanupSurvivesDuplicateExactlyWhen(ps: map<TxId, Procedure>, generation: nat, id: TxId,
                                            received: set<Octet>, released: set<Octet>)
    requires Disjoint(ps, generation) && id in ps && Live(ps[id], generation) && ps[id].purpose == CreateCleanup
    requires received != {} && released != {} && released <= ps[id].expected
    ensures Credited(ps, generation, received, id) <==> received <= ps[id].expected
    ensures var after := AfterSetup(ps, id, received);
            Credited(ps, generation, received, id) ==>
              && (id in after <==> received != ps[id].expected)
              && (Credited(after, generation, released, id) <==> received != ps[id].expected)
              && (received == ps[id].expected ==> Candidates(after, generation, released) == {})
  {
    var after := AfterSetup(ps, id, received);
    if received <= ps[id].expected {
      ResponseFindsItsProcedure(ps, generation, received, id);
      if received == ps[id].expected {
        NothingElseCovers(ps, generation, id, released);
        assert after == ps - {id};
        ExactAreCandidates(after, generation, released);
      } else {
        ResponseFindsItsProcedure(ps, generation, released, id);
      }
    }
  }

  lemma NothingElseCovers(ps: map<TxId, Procedure>, generation: nat, id: TxId, received: set<Octet>)
    requires Disjoint(ps, generation) && id in ps && Live(ps[id], generation)
    requires received != {} && received <= ps[id].expected
    ensures Candidates(ps - {id}, generation, received) == {}
  {
    var e := Member(received);
    var after := ps - {id};
    forall other | other in after && Live(after[other], generation) ensures !(received <= after[other].expected) {
      assert ps[other].expected !! ps[id].expected;
      assert e !in after[other].expected;
    }
    assert Candidates(after, generation, received) == {};
  }

  // ---------------------------------------------------------------- every response has one outcome

  lemma TwoMembers<T(!new)>(s: set<T>)
    ensures |s| > 1 <==> exists a, b :: a in s && b in s && a != b
  {
    if |s| > 1 {
      var a := Member(s);
      var b := Member(s - {a});
      assert a in s && b in s && a != b;
    }
    if exists a, b :: a in s && b in s && a != b {
      var a, b :| a in s && b in s && a != b;
      SubsetSize({a, b}, s);
      assert |{a, b}| == 2;
    }
  }

  // The procedure `a` could be meant; it is meant exactly when it expects nothing else.
  ghost predicate Fits(ps: map<TxId, Procedure>, generation: nat, received: set<Octet>, a: TxId, exactly: bool) {
    a in ps && (ps[a].generation == 0 || ps[a].generation == generation)
    && if exactly then ps[a].expected == received else received <= ps[a].expected
  }

  // A response is ambiguous exactly when two procedures expect what was received and nothing else, or
  // when none does and two expect at least that.
  lemma AmbiguousExactlyWhen(ps: map<TxId, Procedure>, generation: nat, received: set<Octet>)
    ensures Ambiguous(ps, generation, received) <==>
              || (exists a, b :: a != b && Fits(ps, generation, received, a, true) && Fits(ps, generation, received, b, true))
              || ((forall a :: !Fits(ps, generation, received, a, true))
                  && exists a, b :: a != b && Fits(ps, generation, received, a, false) && Fits(ps, generation, received, b, false))
  {
    TwoMembers(ExactCandidates(ps, generation, received));
    TwoMembers(Candidates(ps, generation, received));
    FitsAreCandidates(ps, generation, received);
    hide Fits, Candidates, ExactCandidates;
    if ExactCandidates(ps, generation, received) != {} {
      var a := Member(ExactCandidates(ps, generation, received));
      assert Fits(ps, generation, received, a, true);
    }
  }

  lemma FitsAreCandidates(ps: map<TxId, Procedure>, generation: nat, received: set<Octet>)
    ensures forall a :: a in ExactCandidates(ps, generation, received) <==> Fits(ps, generation, received, a, true)
    ensures forall a :: a in Candidates(ps, generation, received) <==> Fits(ps, generation, received, a, false)
  {}
}
