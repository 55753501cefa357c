/**
 * EPS bearer identity and legacy transaction identifier allocation
 * (internal/gtpv2/create_bearer.go and internal/s1ap/dedicated_bearer.go).
 *
 * Identities 5..15 are shared by default bearers, dedicated bearers and
 * reservations; the network-initiated legacy identifiers are 2..7.
 */
module EbiAllocation {
  import opened Common

  const MIN_EBI: Octet := 5
  const MAX_EBI: Octet := 15
  const MIN_LEGACY: Octet := 2
  const MAX_LEGACY: Octet := 7

  // The scan `for id := lo; id <= hi; id++` for the first unused identity; 0 when there is none.
  function FirstFree(used: set<Octet>, lo: Octet, hi: Octet): (id: Octet)
    requires 0 < lo
    ensures id != 0 ==> lo <= id <= hi && id !in used && forall x: Octet :: lo <= x < id ==> x in used
    ensures id == 0 ==> forall x: Octet :: lo <= x <= hi ==> x in used
    decreases hi + 1 - lo
  {
    if lo > hi then 0
    else if lo !in used then lo
    else FirstFree(used, lo + 1, hi)
  }

  function AllIdentities(): set<Octet> {
    {5, 6, 7, 8, 9, 10, 11, 12, 13, 14, 15}
  }

  function Free(used: set<Octet>): set<Octet> {
    AllIdentities() - used
  }

  predicate Requestable(id: Octet, used: set<Octet>) {
    MIN_EBI <= id <= MAX_EBI && id !in used
  }

  // The identities given to the longest prefix of `requested` that can be served
  // in order; 0 asks for any free identity. The call succeeds when the prefix is everything.
  function Assign(requested: seq<Octet>, used: set<Octet>): (ids: seq<Octet>)
    ensures |ids| <= |requested|
  {
    if requested == [] then []
    else
      var id := if requested[0] == 0 then FirstFree(used, MIN_EBI, MAX_EBI)
                else if Requestable(requested[0], used) then requested[0] else 0;
      if id == 0 then [] else [id] + Assign(requested[1..], used + {id})
  }

  predicate Distinct(ids: seq<Octet>) {
    forall i, j :: 0 <= i < j < |ids| ==> ids[i] != ids[j]
  }

  // What every caller relies on: new identities are in range, unused and pairwise
  // distinct, and an explicit request is honoured.
  lemma {:induction false} AssignSound(requested: seq<Octet>, used: set<Octet>)
    ensures var ids := Assign(requested, used);
            && Distinct(ids)
            && (forall i :: 0 <= i < |ids| ==> Requestable(ids[i], used))
            && (forall i :: 0 <= i < |ids| && requested[i] != 0 ==> ids[i] == requested[i])
  {
    if requested != [] {
      var ids := Assign(requested, used);
      if ids != [] {
        AssignSound(requested[1..], used + {ids[0]});
        var rest := Assign(requested[1..], used + {ids[0]});
        assert ids == [ids[0]] + rest;
        forall i | 0 < i < |ids|
          ensures Requestable(ids[i], used + {ids[0]})
          ensures requested[i] != 0 ==> ids[i] == requested[i]
        {
          assert ids[i] == rest[i - 1] && requested[i] == requested[1..][i - 1];
        }
        forall i, j | 0 <= i < j < |ids| ensures ids[i] != ids[j] {
          if i == 0 {
            assert Requestable(ids[j], used + {ids[0]});
          } else {
            assert ids[i] == rest[i - 1] && ids[j] == rest[j - 1];
          }
        }
      }
    }
  }

  // n bearers without a requested identity are served exactly when n identities are free.
  lemma {:induction false} AssignComplete(requested: seq<Octet>, used: set<Octet>)
    requires forall i :: 0 <= i < |requested| ==> requested[i] == 0
    ensures |Assign(requested, used)| == |requested| <==> |requested| <= |Free(used)|
  {
    if requested != [] {
      var id := FirstFree(used, MIN_EBI, MAX_EBI);
      if id == 0 {
        assert Free(used) == {};
      } else {
        assert id in Free(used);
        assert Free(used + {id}) == Free(used) - {id};
        AssignComplete(requested[1..], used + {id});
      }
    }
  }

  // Explicitly requested identities are all granted exactly when they are in range, unused and distinct.
  lemma {:induction false} AssignRequestedComplete(requested: seq<Octet>, used: set<Octet>)
    requires forall i :: 0 <= i < |requested| ==> requested[i] != 0
    ensures |Assign(requested, used)| == |requested| <==>
            Distinct(requested) && forall i :: 0 <= i < |requested| ==> Requestable(requested[i], used)
  {
    AssignSound(requested, used);
    if requested != [] && Requestable(requested[0], used) {
      var rest := requested[1..];
      AssignRequestedComplete(rest, used + {requested[0]});
      if Distinct(requested) && forall i :: 0 <= i < |requested| ==> Requestable(requested[i], used) {
        forall i | 0 <= i < |rest| ensures Requestable(rest[i], used + {requested[0]}) {
          assert rest[i] == requested[i + 1];
        }
      }
    }
    if |Assign(requested, used)| == |requested| {
      assert Assign(requested, used) == requested;
    }
  }

  // ---------------------------------------------------------------- both kinds of requests together

  function Unassigned(requested: seq<Octet>): nat {
    if requested == [] then 0 else (if requested[0] == 0 then 1 else 0) + Unassigned(requested[1..])
  }

  // How many identities below `e` are asked for by name.
  function NamedBelow(requested: seq<Octet>, e: Octet): nat {
    if requested == [] then 0
    else (if requested[0] != 0 && requested[0] < e then 1 else 0) + NamedBelow(requested[1..], e)
  }

  function Below(e: Octet): set<Octet> {
    set x | x in AllIdentities() && x < e
  }

  ghost predicate NamedAreFree(requested: seq<Octet>, used: set<Octet>) {
    && (forall j :: 0 <= j < |requested| && requested[j] != 0 ==> Requestable(requested[j], used))
    && (forall i, j :: 0 <= i < j < |requested| && requested[j] != 0 ==> requested[i] != requested[j])
  }

  // A bearer without a requested identity takes the least free one, so it can take one that a later
  // bearer asks for by name. It does not as long as a lower one is left when its turn comes.
  ghost predicate Spared(requested: seq<Octet>, used: set<Octet>, p: nat, j: nat)
    requires p < j < |requested|
  {
    requested[p] == 0 && requested[j] != 0 ==>
      Unassigned(requested[..p]) + NamedBelow(requested[..p], requested[j]) < |Below(requested[j]) - used|
  }

  ghost predicate NamedAreSpared(requested: seq<Octet>, used: set<Octet>) {
    forall p, j :: 0 <= p < j < |requested| ==> Spared(requested, used, p, j)
  }

  // Any mix of requests is served in full exactly when there are enough free identities, the named
  // ones are free and distinct, and no bearer before them needs one of them.
  lemma {:induction false} AssignAllExactlyWhen(requested: seq<Octet>, used: set<Octet>)
    ensures |Assign(requested, used)| == |requested| <==>
            |requested| <= |Free(used)| && NamedAreFree(requested, used) && NamedAreSpared(requested, used)
  {
    if requested != [] {
      var first, rest := requested[0], requested[1..];
      if first == 0 {
        var id := FirstFree(used, MIN_EBI, MAX_EBI);
        if id == 0 {
          assert Free(used) == {};
        } else {
          AssignAllExactlyWhen(rest, used + {id});
          OneFewer(used, id);
          LeastIsTaken(requested, used, id);
        }
      } else if Requestable(first, used) {
        AssignAllExactlyWhen(rest, used + {first});
        OneFewer(used, first);
        NamedIsTaken(requested, used);
      }
    }
  }

  lemma OneFewer(used: set<Octet>, id: Octet)
    requires Requestable(id, used)
    ensures |Free(used + {id})| == |Free(used)| - 1
  {
    assert id in AllIdentities();
    Shrinks(AllIdentities(), used, id);
  }

  lemma Shrinks(all: set<Octet>, used: set<Octet>, id: Octet)
    requires id in all && id !in used
    ensures |all - (used + {id})| == |all - used| - 1
  {
    assert all - (used + {id}) == (all - used) - {id};
  }

  lemma OneFewerBelow(used: set<Octet>, id: Octet, e: Octet)
    requires Requestable(id, used)
    ensures |Below(e) - (used + {id})| == |Below(e) - used| - if id < e then 1 else 0
  {
    var low := Below(e) - used;
    assert id < e <==> id in low;
    assert Below(e) - (used + {id}) == low - {id};
  }

  lemma PrefixCounts(requested: seq<Octet>, p: nat, e: Octet)
    requires p < |requested|
    ensures var rest := requested[1..];
            && Unassigned(requested[..p + 1]) == (if requested[0] == 0 then 1 else 0) + Unassigned(rest[..p])
            && NamedBelow(requested[..p + 1], e)
               == (if requested[0] != 0 && requested[0] < e then 1 else 0) + NamedBelow(rest[..p], e)
  {
    assert requested[..p + 1][1..] == requested[1..][..p];
  }

  // Of the requests after the first, none asks by name for the identity the first one got.
  ghost predicate Avoids(requested: seq<Octet>, id: Octet) {
    forall j :: 0 < j < |requested| && requested[j] != 0 ==> requested[j] != id
  }

  lemma TailIsFree(requested: seq<Octet>, used: set<Octet>, id: Octet)
    requires requested != [] && Requestable(id, used) && (requested[0] == 0 || requested[0] == id)
    ensures NamedAreFree(requested[1..], used + {id}) ==> NamedAreFree(requested, used) && Avoids(requested, id)
    ensures NamedAreFree(requested, used) && Avoids(requested, id) ==> NamedAreFree(requested[1..], used + {id})
    ensures NamedAreFree(requested, used) && requested[0] != 0 ==> Avoids(requested, id)
  {
    var rest := requested[1..];
    if NamedAreFree(rest, used + {id}) {
      forall j | 0 < j < |requested| && requested[j] != 0 ensures Requestable(requested[j], used) && requested[j] != id {
        assert rest[j - 1] == requested[j];
      }
      forall i, j | 0 <= i < j < |requested| && requested[j] != 0 ensures requested[i] != requested[j] {
        assert rest[j - 1] == requested[j];
        if i > 0 { assert rest[i - 1] == requested[i]; }
      }
    }
    if NamedAreFree(requested, used) && Avoids(requested, id) {
      forall j | 0 <= j < |rest| && rest[j] != 0 ensures Requestable(rest[j], used + {id}) {
        assert rest[j] == requested[j + 1];
      }
      forall i, j | 0 <= i < j < |rest| && rest[j] != 0 ensures rest[i] != rest[j] {
        assert rest[i] == requested[i + 1] && rest[j] == requested[j + 1];
      }
    }
  }

  // For the later pairs nothing changes: what the first request got counts on both sides.
  lemma TailIsSpared(requested: seq<Octet>, used: set<Octet>, id: Octet, p: nat, j: nat)
    requires p < j < |requested| - 1 && requested[j + 1] != 0 && Requestable(id, used)
    requires requested[0] == id || (requested[0] == 0 && id < requested[j + 1])
    ensures Spared(requested[1..], used + {id}, p, j) <==> Spared(requested, used, p + 1, j + 1)
  {
    PrefixCounts(requested, p, requested[j + 1]);
    OneFewerBelow(used, id, requested[j + 1]);
  }

  lemma NamedIsTaken(requested: seq<Octet>, used: set<Octet>)
    requires requested != [] && requested[0] != 0 && Requestable(requested[0], used)
    ensures var rest, used' := requested[1..], used + {requested[0]};
            NamedAreFree(requested, used) && NamedAreSpared(requested, used)
            <==> NamedAreFree(rest, used') && NamedAreSpared(rest, used')
  {
    var id, rest, used' := requested[0], requested[1..], used + {requested[0]};
    TailIsFree(requested, used, id);
    forall p, j | 0 <= p < j < |rest|
      ensures Spared(rest, used', p, j) <==> Spared(requested, used, p + 1, j + 1)
    {
      if rest[j] != 0 { TailIsSpared(requested, used, id, p, j); }
    }
    ShiftedPairs(requested, used, used');
  }

  lemma ShiftedPairs(requested: seq<Octet>, used: set<Octet>, used': set<Octet>)
    requires requested != [] && forall j :: 0 < j < |requested| ==> Spared(requested, used, 0, j)
    requires forall p, j :: 0 <= p < j < |requested| - 1 ==>
               (Spared(requested[1..], used', p, j) <==> Spared(requested, used, p + 1, j + 1))
    ensures NamedAreSpared(requested, used) <==> NamedAreSpared(requested[1..], used')
  {
    hide Spared;
    var rest := requested[1..];
    if NamedAreSpared(rest, used') {
      forall p, j | 0 <= p < j < |requested| ensures Spared(requested, used, p, j) {
        if p > 0 { assert Spared(rest, used', p - 1, j - 1); }
      }
    }
    if NamedAreSpared(requested, used) {
      forall p, j | 0 <= p < j < |rest| ensures Spared(rest, used', p, j) {
        assert Spared(requested, used, p + 1, j + 1);
      }
    }
  }

  lemma LeastIsBelow(used: set<Octet>, id: Octet, e: Octet)
    requires id == FirstFree(used, MIN_EBI, MAX_EBI) != 0 && Requestable(e, used)
    ensures 0 < |Below(e) - used| <==> id < e
    ensures id <= e
  {
    if id < e { assert id in Below(e) - used; }
    if Below(e) - used != {} {
      var x := Member(Below(e) - used);
      assert id <= x;
    }
  }

  lemma LeastIsTaken(requested: seq<Octet>, used: set<Octet>, id: Octet)
    requires requested != [] && requested[0] == 0 && id == FirstFree(used, MIN_EBI, MAX_EBI) != 0
    ensures var rest, used' := requested[1..], used + {id};
            NamedAreFree(requested, used) && NamedAreSpared(requested, used)
            <==> NamedAreFree(rest, used') && NamedAreSpared(rest, used')
  {
    var rest, used' := requested[1..], used + {id};
    TailIsFree(requested, used, id);
    if NamedAreFree(requested, used) {
      forall j | 0 < j < |requested| && requested[j] != 0
        ensures Spared(requested, used, 0, j) <==> requested[j] != id
        ensures requested[j] != id ==> id < requested[j]
      {
        LeastIsBelow(used, id, requested[j]);
        assert requested[..0] == [];
      }
      if Avoids(requested, id) {
        forall p, j | 0 <= p < j < |rest|
          ensures Spared(rest, used', p, j) <==> Spared(requested, used, p + 1, j + 1)
        {
          if rest[j] != 0 { TailIsSpared(requested, used, id, p, j); }
        }
        ShiftedPairs(requested, used, used');
      }
    }
  }

  // Legacy transaction identifiers for the bearers that need one (IMS, QCI 1 or 2), in
  // request order; 0 where none is needed. Stops at the first bearer that cannot be served.
  function AssignLegacy(needed: seq<bool>, used: set<Octet>): (ids: seq<Octet>)
    ensures |ids| <= |needed|
  {
    if needed == [] then []
    else if !needed[0] then [0] + AssignLegacy(needed[1..], used)
    else
      var id := FirstFree(used, MIN_LEGACY, MAX_LEGACY);
      if id == 0 then [] else [id] + AssignLegacy(needed[1..], used + {id})
  }

  lemma {:induction false} AssignLegacySound(needed: seq<bool>, used: set<Octet>)
    ensures var ids := AssignLegacy(needed, used);
            && (forall i, j :: 0 <= i < j < |ids| && ids[i] != 0 ==> ids[i] != ids[j])
            && (forall i :: 0 <= i < |ids| && ids[i] != 0 ==> MIN_LEGACY <= ids[i] <= MAX_LEGACY && ids[i] !in used)
            && (forall i :: 0 <= i < |ids| ==> (ids[i] != 0 <==> needed[i]))
  {
    if needed != [] {
      var ids := AssignLegacy(needed, used);
      if ids != [] {
        var used' := if needed[0] then used + {ids[0]} else used;
        AssignLegacySound(needed[1..], used');
        var rest := AssignLegacy(needed[1..], used');
        assert ids == [ids[0]] + rest;
        forall i | 0 < i < |ids|
          ensures ids[i] == rest[i - 1] && needed[i] == needed[1..][i - 1]
        {}
      }
    }
  }

  function Needs(needed: seq<bool>): nat {
    if needed == [] then 0 else (if needed[0] then 1 else 0) + Needs(needed[1..])
  }

  // All bearers are served exactly when there are as many free legacy identifiers as bearers that
  // need one.
  lemma {:induction false} AssignLegacyExactlyWhen(needed: seq<bool>, used: set<Octet>)
    ensures |AssignLegacy(needed, used)| == |needed| <==> Needs(needed) <= |{2, 3, 4, 5, 6, 7} - used|
  {
    if needed != [] {
      if !needed[0] {
        AssignLegacyExactlyWhen(needed[1..], used);
      } else {
        var id := FirstFree(used, MIN_LEGACY, MAX_LEGACY);
        if id == 0 {
          assert {2, 3, 4, 5, 6, 7} - used == {};
        } else {
          Shrinks({2, 3, 4, 5, 6, 7}, used, id);
          AssignLegacyExactlyWhen(needed[1..], used + {id});
        }
      }
    }
  }

  // When some bearer is not served, the allocation stops at the first one that finds none left.
  lemma {:induction false} AssignLegacyStopsWhere(needed: seq<bool>, used: set<Octet>)
    requires |AssignLegacy(needed, used)| < |needed|
    ensures var n := |AssignLegacy(needed, used)|;
            needed[n] && Needs(needed[..n]) == |{2, 3, 4, 5, 6, 7} - used|
  {
    var n := |AssignLegacy(needed, used)|;
    if !needed[0] {
      AssignLegacyStopsWhere(needed[1..], used);
      assert needed[..n][1..] == needed[1..][..n - 1];
    } else {
      var id := FirstFree(used, MIN_LEGACY, MAX_LEGACY);
      if id == 0 {
        assert {2, 3, 4, 5, 6, 7} - used == {};
      } else {
        Shrinks({2, 3, 4, 5, 6, 7}, used, id);
        AssignLegacyStopsWhere(needed[1..], used + {id});
        assert needed[..n][1..] == needed[1..][..n - 1];
      }
    }
  }

  // AssignRequestedBearerIDs: rewrites the requested identities in place, first come first
  // served, and adds them to `used`; a refusal leaves the prefix served before it rewritten.
  method AssignRequestedBearerIds(ebis: array<Octet>, used: set<Octet>) returns (ok: bool, usedAfter: set<Octet>)
    modifies ebis
    ensures var ids := Assign(old(ebis[..]), used);
            && (ok <==> |ids| == ebis.Length)
            && (forall k :: 0 <= k < |ids| ==> ebis[k] == ids[k])
            && (forall k :: |ids| <= k < ebis.Length ==> ebis[k] == old(ebis[k]))
            && usedAfter == used + Elements(ids)
  {
    ghost var all: seq<Octet>, given: seq<Octet> := ebis[..], [];
    usedAfter := used;
    var i := 0;
    while i < ebis.Length
      invariant 0 <= i <= ebis.Length && |given| == i
      invariant Assign(all, used) == given + Assign(all[i..], usedAfter)
      invariant forall k :: 0 <= k < i ==> ebis[k] == given[k]
      invariant forall k :: i <= k < ebis.Length ==> ebis[k] == all[k]
      invariant usedAfter == used + Elements(given)
    {
      AssignUnfold(all, i, usedAfter, given);
      var id := ebis[i];
      if id == 0 {
        id := FirstFree(usedAfter, MIN_EBI, MAX_EBI);
        if id == 0 { return false, usedAfter; }
      } else if !(MIN_EBI <= id <= MAX_EBI) || id in usedAfter {
        return false, usedAfter;
      }
      usedAfter := usedAfter + {id};
      ebis[i] := id;
      given := given + [id];
      i := i + 1;
    }
    ok := true;
  }

  function Elements(ids: seq<Octet>): set<Octet> {
    set x | x in ids
  }

  // One iteration of the loop above.
  lemma AssignUnfold(all: seq<Octet>, i: nat, used: set<Octet>, given: seq<Octet>)
    requires i < |all|
    ensures var id := if all[i] == 0 then FirstFree(used, MIN_EBI, MAX_EBI)
                      else if Requestable(all[i], used) then all[i] else 0;
            && Elements(given + [id]) == Elements(given) + {id}
            && given + Assign(all[i..], used) ==
               if id == 0 then given else (given + [id]) + Assign(all[i + 1..], used + {id})
  {}
}
