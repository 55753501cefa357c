/**
 * Delete Session Requests on detach, PDN disconnect and release (internal/s1ap/nas.go:1224-1383,
 * esm.go:971-1005): clearing the control-plane TEID under the lock keeps repeated triggers from
 * deleting a session twice.
 */
module DeleteSession {
  import opened Common

  // A PDN connection: its default bearer, the S-GW's TEID for it (0 once used), and whether its
  // Delete Session Response is awaited.
  datatype Session = Session(ebi: Octet, teid: nat, deleting: bool)

  // DSR for the session of `ebi`, addressed with `teid`.
  datatype Request = Request(ebi: Octet, teid: nat)

  datatype Ue = Ue(defaultEbi: Octet, apn: string, teid: nat, pdns: map<string, Session>, sent: seq<Request>)

  function Put(u: Ue, a: string, s: Session): Ue {
    u.(pdns := u.pdns[a := s])
  }

  // findPDNByLinkedEBILocked: the attach default bearer becomes a PDN when none carries its EBI.
  function Materialised(u: Ue, e: Octet): Ue {
    if e == 0 || e != u.defaultEbi || u.apn == "" || u.apn in u.pdns
       || (exists a :: a in u.pdns && u.pdns[a].ebi == e) then u
    else Put(u, u.apn, Session(u.defaultEbi, u.teid, false))
  }

  ghost predicate Finds(u: Ue, e: Octet, a: string) {
    && a in u.pdns && e != 0
    && if exists b :: b in u.pdns && u.pdns[b].ebi == e then u.pdns[a].ebi == e
       else e == u.defaultEbi && u.apn != "" && a == u.apn
  }

  // sendDeleteSessionForPDN up to its unlock, for the PDN `a` found for `e`.
  function DeleteAt(u: Ue, e: Octet, a: string): Ue
    requires a in u.pdns
  {
    var s := u.pdns[a];
    u.(pdns := u.pdns[a := s.(teid := 0, deleting := true)],
       teid := if u.defaultEbi == e || u.teid == s.teid then 0 else u.teid,
       sent := if s.teid == 0 then u.sent else u.sent + [Request(e, s.teid)])
  }

  ghost function ForPdn(u: Ue, e: Octet, a: string): Ue
    requires Finds(Materialised(u, e), e, a)
  {
    DeleteAt(Materialised(u, e), e, a)
  }

  // resolvePDNForDeleteSessionLocked: by TEID, then the default APN, then any that is alive.
  ghost predicate Resolves(u: Ue, a: string) {
    && a in u.pdns
    && if exists b :: b in u.pdns && u.pdns[b].teid == u.teid then u.pdns[a].teid == u.teid
       else if u.apn != "" && u.apn in u.pdns && u.pdns[u.apn].teid != 0 then a == u.apn
       else u.pdns[a].teid != 0
  }

  ghost predicate ResolvesTo(u: Ue, a: Option<string>) {
    if a.Some? then Resolves(u, a.value) else forall b :: !Resolves(u, b)
  }

  // sendDeleteSession.
  ghost function Legacy(u: Ue, a: Option<string>): Ue
    requires u.teid != 0 ==> ResolvesTo(u, a)
  {
    if u.teid == 0 then u
    else if a.None? then u.(teid := 0, sent := u.sent + [Request(u.defaultEbi, u.teid)])
    else
      var s := u.pdns[a.value];
      Put(u, a.value, s.(teid := 0)).(
        teid := 0, sent := u.sent + [Request(if s.ebi != 0 then s.ebi else u.defaultEbi, u.teid)])
  }

  // cleanupDisconnectedPDN, as far as sessions go.
  function Removed(u: Ue, a: string): Ue {
    u.(pdns := u.pdns - {a})
  }

  // ---------------------------------------------------------------- at most one request per session

  function Count(sent: seq<Request>, e: Octet): nat {
    if sent == [] then 0 else Count(sent[..|sent| - 1], e) + if sent[|sent| - 1].ebi == e then 1 else 0
  }

  lemma CountOneMore(sent: seq<Request>, r: Request, e: Octet)
    ensures Count(sent + [r], e) == Count(sent, e) + if r.ebi == e then 1 else 0
  {}

  // Identities have one owner each: no two PDNs share a default bearer, and the PDN of the default
  // APN is the attach default bearer.
  ghost predicate Coherent(u: Ue) {
    && (forall a, b :: a in u.pdns && b in u.pdns && u.pdns[a].ebi == u.pdns[b].ebi ==> a == b)
    && (forall a :: a in u.pdns ==> u.pdns[a].ebi != 0)
    && (u.apn in u.pdns ==> u.pdns[u.apn].ebi == u.defaultEbi)
  }

  // A session that still has its TEID was not deleted, and none was deleted twice.
  ghost predicate Once(u: Ue) {
    && (forall e :: Count(u.sent, e) <= 1)
    && (forall a :: a in u.pdns && u.pdns[a].teid != 0 ==> Count(u.sent, u.pdns[a].ebi) == 0)
    && (u.teid != 0 ==> Count(u.sent, u.defaultEbi) == 0)
  }

  lemma MaterialisedKeeps(u: Ue, e: Octet)
    requires Coherent(u) && Once(u)
    ensures Coherent(Materialised(u, e)) && Once(Materialised(u, e))
  {}

  // A request for a session that had none, after which nothing alive stands for it.
  lemma OneMoreRequest(u: Ue, t: Ue, r: Request)
    requires Once(u) && t.sent == u.sent + [r] && Count(u.sent, r.ebi) == 0 && t.defaultEbi == u.defaultEbi
    requires forall a :: a in t.pdns && t.pdns[a].teid != 0 ==>
               a in u.pdns && t.pdns[a] == u.pdns[a] && t.pdns[a].ebi != r.ebi
    requires t.teid != 0 ==> u.teid != 0 && u.defaultEbi != r.ebi
    ensures Once(t)
  {}

  lemma DeleteAtKeeps(u: Ue, e: Octet, a: string)
    requires Coherent(u) && Once(u) && a in u.pdns && u.pdns[a].ebi == e
    ensures Coherent(DeleteAt(u, e, a)) && Once(DeleteAt(u, e, a))
  {
    hide Count;
    if u.pdns[a].teid != 0 {
      OneMoreRequest(u, DeleteAt(u, e, a), Request(e, u.pdns[a].teid));
    }
  }

  lemma ForPdnKeeps(u: Ue, e: Octet, a: string)
    requires Coherent(u) && Once(u) && Finds(Materialised(u, e), e, a)
    ensures Coherent(ForPdn(u, e, a)) && Once(ForPdn(u, e, a))
  {
    MaterialisedKeeps(u, e);
    DeleteAtKeeps(Materialised(u, e), e, a);
  }

  lemma AliveResolves(u: Ue)
    ensures (exists b :: b in u.pdns && u.pdns[b].teid != 0) ==> exists a :: Resolves(u, a)
  {
    if exists b :: b in u.pdns && u.pdns[b].teid == u.teid {
      var b :| b in u.pdns && u.pdns[b].teid == u.teid;
      assert Resolves(u, b);
    } else if u.apn != "" && u.apn in u.pdns && u.pdns[u.apn].teid != 0 {
      assert Resolves(u, u.apn);
    } else if exists b :: b in u.pdns && u.pdns[b].teid != 0 {
      var b :| b in u.pdns && u.pdns[b].teid != 0;
      assert Resolves(u, b);
    }
  }

  lemma LegacyKeeps(u: Ue, a: Option<string>)
    requires Coherent(u) && Once(u) && (u.teid != 0 ==> ResolvesTo(u, a))
    ensures Coherent(Legacy(u, a)) && Once(Legacy(u, a))
  {
    hide Count;
    if u.teid != 0 {
      if a.None? {
        AliveResolves(u);
        OneMoreRequest(u, Legacy(u, a), Request(u.defaultEbi, u.teid));
      } else {
        OneMoreRequest(u, Legacy(u, a), Request(u.pdns[a.value].ebi, u.teid));
      }
    }
  }

  // ---------------------------------------------------------------- how each request is addressed

  // The TEID the S-GW gave to the session of the PDN `a`; a PDN that was not recorded yet is the
  // one of the attach default bearer.
  function HeldTeid(u: Ue, a: string): nat {
    if a in u.pdns then u.pdns[a].teid else u.teid
  }

  // `t` is `u` after the session of the PDN `a` with the default bearer `e` was deleted.
  ghost predicate Deletes(u: Ue, t: Ue, e: Octet, a: string) {
    && t.defaultEbi == u.defaultEbi && t.apn == u.apn
    && t.pdns.Keys == u.pdns.Keys + {a} && (a !in u.pdns ==> a == u.apn && e == u.defaultEbi)
    && t.pdns[a] == Session(e, 0, true)
    && (forall b :: b in u.pdns && b != a ==> t.pdns[b] == u.pdns[b])
    && t.sent == u.sent + (if HeldTeid(u, a) == 0 then [] else [Request(e, HeldTeid(u, a))])
    && t.teid == (if e == u.defaultEbi || u.teid == HeldTeid(u, a) then 0 else u.teid)
  }

  // The request for a PDN goes to the TEID its session had, and every other session is left alone.
  lemma PdnRequestIsAddressed(u: Ue, e: Octet, a: string)
    requires Coherent(u) && Finds(Materialised(u, e), e, a)
    ensures Deletes(u, ForPdn(u, e, a), e, a)
    ensures (exists b :: b in u.pdns && u.pdns[b].ebi == e) ==> a in u.pdns && u.pdns[a].ebi == e
    ensures e != 0 && ((forall b :: b in u.pdns ==> u.pdns[b].ebi != e) ==> a == u.apn && a != "" && e == u.defaultEbi)
  {
    var t := ForPdn(u, e, a);
    assert t.pdns.Keys == u.pdns.Keys + {a};
  }

  // Looking for a PDN by its default bearer records at most the attach default bearer as one.
  lemma LookingRecordsTheDefault(u: Ue, e: Octet)
    ensures var t := Materialised(u, e);
            && t == u.(pdns := t.pdns) && (forall b :: b in u.pdns ==> b in t.pdns && t.pdns[b] == u.pdns[b])
            && (forall b :: b in t.pdns && b !in u.pdns ==> b == u.apn && t.pdns[b] == Session(u.defaultEbi, u.teid, false))
            && (u.apn in t.pdns && u.apn !in u.pdns <==>
                  e != 0 && e == u.defaultEbi && u.apn != "" && u.apn !in u.pdns
                  && forall b :: b in u.pdns ==> u.pdns[b].ebi != e)
  {}

  // A PDN is found exactly for a bearer that some PDN carries, and for the attach default bearer when it
  // has an APN.
  lemma FoundExactlyWhen(u: Ue, e: Octet)
    ensures (exists a :: Finds(Materialised(u, e), e, a))
            <==> e != 0 && ((exists b :: b in u.pdns && u.pdns[b].ebi == e) || (e == u.defaultEbi && u.apn != ""))
  {
    var t := Materialised(u, e);
    if e != 0 && exists b :: b in u.pdns && u.pdns[b].ebi == e {
      var b :| b in u.pdns && u.pdns[b].ebi == e;
      assert Finds(t, e, b);
    } else if e != 0 && e == u.defaultEbi && u.apn != "" {
      assert Finds(t, e, u.apn);
    }
  }

  lemma RemovalMeaning(u: Ue, a: string)
    ensures var t := Removed(u, a);
            && t == u.(pdns := t.pdns) && (forall b :: b in t.pdns <==> b in u.pdns && b != a)
            && forall b :: b in t.pdns ==> t.pdns[b] == u.pdns[b]
  {}

  // The session of the bearer `r.ebi` has the TEID of the request. The attach default bearer's TEID
  // is kept beside its PDN as well.
  ghost predicate Addressed(u: Ue, r: Request) {
    (exists a :: a in u.pdns && u.pdns[a].ebi == r.ebi && u.pdns[a].teid == r.teid)
    || (r.ebi == u.defaultEbi && r.teid == u.teid)
  }

  // Deleting the UE's session sends its own TEID, with the bearer of the PDN it is resolved to. That
  // PDN's session has this TEID exactly when the PDN was not found as some other session alive.
  lemma OwnRequestIsAddressedExactlyWhen(u: Ue, a: Option<string>)
    requires Coherent(u) && u.teid != 0 && ResolvesTo(u, a)
    ensures var t := Legacy(u, a);
            && t.teid == 0 && t.defaultEbi == u.defaultEbi && t.apn == u.apn && t.pdns.Keys == u.pdns.Keys
            && (forall b :: b in u.pdns && Some(b) != a ==> t.pdns[b] == u.pdns[b])
            && (a.Some? ==> t.pdns[a.value] == Session(u.pdns[a.value].ebi, 0, u.pdns[a.value].deleting))
            && |t.sent| == |u.sent| + 1 && t.sent[..|u.sent|] == u.sent
            && t.sent[|u.sent|] == Request(if a.Some? then u.pdns[a.value].ebi else u.defaultEbi, u.teid)
            && (Addressed(u, t.sent[|u.sent|])
                <==> a.None? || u.pdns[a.value].teid == u.teid || u.pdns[a.value].ebi == u.defaultEbi)
  {
    var t := Legacy(u, a);
    assert t.sent == u.sent + [t.sent[|u.sent|]];
  }

  // Which PDN that is: one with the UE's own TEID, else the one of the default APN if its session is
  // alive, else any that is alive, and none when none is. So the request is addressed to its session
  // whenever one of the first two exists, or nothing is alive.
  lemma OwnSessionComesFirst(u: Ue, a: Option<string>)
    requires Coherent(u) && u.teid != 0 && ResolvesTo(u, a)
    ensures var own := exists b :: b in u.pdns && u.pdns[b].teid == u.teid;
            var byApn := u.apn != "" && u.apn in u.pdns && u.pdns[u.apn].teid != 0;
            var alive := exists b :: b in u.pdns && u.pdns[b].teid != 0;
            && (a.Some? <==> alive) && (a.Some? ==> a.value in u.pdns && u.pdns[a.value].teid != 0)
            && (own ==> u.pdns[a.value].teid == u.teid) && (!own && byApn ==> a == Some(u.apn))
            && (own || byApn || !alive ==> Addressed(u, Legacy(u, a).sent[|u.sent|]))
  {
    AliveResolves(u);
    OwnRequestIsAddressedExactlyWhen(u, a);
    hide Legacy, Addressed;
  }

  datatype Event = Pdn(ebi: Octet, apn: string) | Whole(target: Option<string>) | Removal(apn: string)
                 | Looked(ebi: Octet)

  ghost predicate Possible(u: Ue, e: Event) {
    match e
    case Pdn(ebi, a) => Finds(Materialised(u, ebi), ebi, a)
    case Whole(a) => u.teid != 0 ==> ResolvesTo(u, a)
    case _ => true
  }

  ghost function Step(u: Ue, e: Event): Ue
    requires Possible(u, e)
  {
    match e
    case Pdn(ebi, a) => ForPdn(u, ebi, a)
    case Whole(a) => Legacy(u, a)
    case Removal(a) => Removed(u, a)
    case Looked(ebi) => Materialised(u, ebi)
  }

  ghost predicate PossibleRun(u: Ue, es: seq<Event>)
    decreases |es|
  {
    es == [] || (Possible(u, es[0]) && PossibleRun(Step(u, es[0]), es[1..]))
  }

  ghost function Run(u: Ue, es: seq<Event>): Ue
    requires PossibleRun(u, es)
    decreases |es|
  {
    if es == [] then u else Run(Step(u, es[0]), es[1..])
  }

  lemma StepKeeps(u: Ue, e: Event)
    requires Coherent(u) && Once(u) && Possible(u, e)
    ensures Coherent(Step(u, e)) && Once(Step(u, e))
  {
    match e
    case Pdn(ebi, a) => ForPdnKeeps(u, ebi, a);
    case Whole(a) => LegacyKeeps(u, a);
    case Removal(a) =>
    case Looked(ebi) => MaterialisedKeeps(u, ebi);
  }

  // Under any repetition and interleaving of the detach, disconnect and release triggers every
  // session gets at most one Delete Session Request.
  lemma {:induction false} AtMostOneRequestPerSession(u: Ue, es: seq<Event>)
    requires Coherent(u) && Once(u) && PossibleRun(u, es)
    ensures Once(Run(u, es)) && forall e :: Count(Run(u, es).sent, e) <= 1
    decreases |es|
  {
    if es != [] {
      StepKeeps(u, es[0]);
      AtMostOneRequestPerSession(Step(u, es[0]), es[1..]);
    }
  }

  // ---------------------------------------------------------------- the UE context

  class Sessions {
    const defaultEbi: Octet
    const apn: string
    var teid: nat
    var pdns: map<string, Session>
    ghost var sent: seq<Request>

    ghost function View(): Ue
      reads this
    {
      Ue(defaultEbi, apn, teid, pdns, sent)
    }

    // findPDNByLinkedEBILocked.
    method FindByLinkedEbi(e: Octet) returns (found: Option<string>)
      modifies this`pdns
      ensures View() == Materialised(old(View()), e)
      ensures found.Some? ==> Finds(View(), e, found.value)
      ensures found.None? ==> forall a :: !Finds(View(), e, a)
    {
      if e == 0 { return None; }
      var left := pdns.Keys;
      while left != {}
        invariant left <= pdns.Keys && pdns == old(pdns)
        invariant forall a :: a in pdns && a !in left ==> pdns[a].ebi != e
      {
        var a := Pick(left);
        left := left - {a};
        if pdns[a].ebi == e { return Some(a); }
      }
      if defaultEbi != e || apn == "" { return None; }
      if apn !in pdns { pdns := pdns[apn := Session(defaultEbi, teid, false)]; }
      found := Some(apn);
    }

    // sendDeleteSessionForPDN.
    method SendForPdn(e: Octet) returns (found: Option<string>)
      modifies this
      ensures found.Some? ==> Finds(Materialised(old(View()), e), e, found.value)
                              && View() == ForPdn(old(View()), e, found.value)
      ensures found.Some? && Coherent(old(View())) ==> Deletes(old(View()), View(), e, found.value)
      ensures found.None? ==> View() == Materialised(old(View()), e)
                              && forall a :: !Finds(Materialised(old(View()), e), e, a)
      // The UE's own TEID goes exactly when the default bearer is this one or shares the TEID;
      // otherwise a detach that deletes the PDN sessions leaves it behind.
      ensures found.Some? && old(teid) != 0 ==>
        (teid == 0 <==> defaultEbi == e || Materialised(old(View()), e).pdns[found.value].teid == old(teid))
      // A session that was alive gets one more request, one that was not gets none.
      ensures found.Some? ==> pdns[found.value].teid == 0
    {
      ghost var was := View();
      found := FindByLinkedEbi(e);
      if found.None? { return; }
      var s := pdns[found.value];
      pdns := pdns[found.value := s.(teid := 0, deleting := true)];
      if defaultEbi == e || teid == s.teid { teid := 0; }
      if s.teid != 0 { sent := sent + [Request(e, s.teid)]; }
      if Coherent(was) { PdnRequestIsAddressed(was, e, found.value); }
      hide Deletes, Coherent;
    }

    // The first loop of sendDeleteSessionsForDetach: the sessions still alive, by default bearer.
    method CollectLive() returns (ebis: seq<Octet>)
      ensures forall e :: e in ebis <==> exists a :: a in pdns && pdns[a].ebi == e && e != 0 && pdns[a].teid != 0
      ensures forall i, j :: 0 <= i < j < |ebis| ==> ebis[i] != ebis[j]
    {
      ebis := [];
      var left := pdns.Keys;
      while left != {}
        invariant left <= pdns.Keys
        invariant forall e :: e in ebis <==>
          exists a :: a in pdns && a !in left && pdns[a].ebi == e && e != 0 && pdns[a].teid != 0
        invariant forall i, j :: 0 <= i < j < |ebis| ==> ebis[i] != ebis[j]
      {
        var a := Pick(left);
        left := left - {a};
        if pdns[a].ebi == 0 || pdns[a].teid == 0 || pdns[a].ebi in ebis { continue; }
        ebis := ebis + [pdns[a].ebi];
      }
    }

    // resolvePDNForDeleteSessionLocked.
    method ResolveTarget() returns (found: Option<string>)
      ensures ResolvesTo(View(), found)
    {
      var left := pdns.Keys;
      while left != {}
        invariant left <= pdns.Keys
        invariant forall a :: a in pdns && a !in left ==> pdns[a].teid != teid
      {
        var a := Pick(left);
        left := left - {a};
        if pdns[a].teid == teid { return Some(a); }
      }
      if apn != "" && apn in pdns && pdns[apn].teid != 0 { return Some(apn); }
      left := pdns.Keys;
      while left != {}
        invariant left <= pdns.Keys
        invariant forall a :: a in pdns && a !in left ==> pdns[a].teid == 0
      {
        var a := Pick(left);
        left := left - {a};
        if pdns[a].teid != 0 { return Some(a); }
      }
      found := None;
    }

    // sendDeleteSession.
    method SendDeleteSession() returns (target: Option<string>)
      modifies this
      ensures old(teid) != 0 ==> ResolvesTo(old(View()), target)
      ensures View() == Legacy(old(View()), target)
    {
      if teid == 0 { return None; }
      target := ResolveTarget();
      assert View() == old(View());
      var ebi := defaultEbi;
      if target.Some? {
        var s := pdns[target.value];
        if s.ebi != 0 { ebi := s.ebi; }
        pdns := pdns[target.value := s.(teid := 0)];
      }
      sent := sent + [Request(ebi, teid)];
      teid := 0;
    }

    // What sendDeleteSessionsForDetach has done once the sessions `done` were deleted.
    ghost predicate Progress(start: map<string, Session>, done: seq<Octet>)
      reads this
    {
      && Coherent(View()) && Once(View()) && pdns.Keys == start.Keys
      && (forall a :: a in start ==> pdns[a].ebi == start[a].ebi)
      && (forall a :: a in start ==> pdns[a].teid == if start[a].ebi in done then 0 else start[a].teid)
      && (forall a :: a in start && start[a].teid != 0 && start[a].ebi in done ==>
            Count(sent, start[a].ebi) == 1 && Request(start[a].ebi, start[a].teid) in sent)
    }

    // sendDeleteSessionsForDetach: when it is done every PDN session that was alive got its one
    // request; without any, the UE's own session did.
    method SendForDetach()
      requires Coherent(View()) && Once(View())
      modifies this
      ensures Once(View())
      ensures forall a :: a in old(pdns) && old(pdns)[a].teid != 0 ==>
        Count(sent, old(pdns)[a].ebi) == 1 && Request(old(pdns)[a].ebi, old(pdns)[a].teid) in sent
      ensures forall a :: a in pdns ==> pdns[a].teid == 0
      ensures old(teid) != 0 && (forall a :: a in old(pdns) ==> old(pdns)[a].teid == 0) ==>
        Request(defaultEbi, old(teid)) in sent
    {
      MaterialisedKeeps(View(), defaultEbi);
      if defaultEbi != 0 && apn != "" { var _ := FindByLinkedEbi(defaultEbi); }
      assert forall a :: a in old(pdns) ==> a in pdns && pdns[a] == old(pdns)[a];
      hide Coherent, Once, Count;
      SendToAll();
    }

    method SendToAll()
      requires Coherent(View()) && Once(View())
      modifies this
      ensures Once(View()) && pdns.Keys == old(pdns).Keys
      ensures forall a :: a in old(pdns) && old(pdns)[a].teid != 0 ==>
        Count(sent, old(pdns)[a].ebi) == 1 && Request(old(pdns)[a].ebi, old(pdns)[a].teid) in sent
      ensures forall a :: a in pdns ==> pdns[a].teid == 0
      ensures (forall a :: a in old(pdns) ==> old(pdns)[a].teid == 0) ==>
        teid == 0 && sent == old(sent) + if old(teid) == 0 then [] else [Request(defaultEbi, old(teid))]
    {
      ghost var start := pdns;
      var ebis := CollectLive();
      assert forall a :: a in start && start[a].teid != 0 ==> start[a].ebi in ebis;
      if |ebis| == 0 {
        SendOwn();
      } else {
        ghost var e := ebis[0];
        assert e in ebis;
        ghost var a :| a in start && start[a].ebi == e && e != 0 && start[a].teid != 0;
        DeleteAll(ebis, start);
      }
    }

    // The case without a live PDN session.
    method SendOwn()
      requires Coherent(View()) && Once(View()) && forall a :: a in pdns ==> pdns[a].teid == 0
      modifies this
      ensures Once(View()) && teid == 0 && pdns == old(pdns)
      ensures sent == old(sent) + if old(teid) == 0 then [] else [Request(defaultEbi, old(teid))]
    {
      ghost var was := View();
      var target := SendDeleteSession();
      LegacyKeeps(was, target);
    }

    method DeleteAll(ebis: seq<Octet>, ghost start: map<string, Session>)
      requires Progress(start, []) && forall e :: e in ebis ==> exists a :: a in start && start[a].ebi == e
      requires forall i, j :: 0 <= i < j < |ebis| ==> ebis[i] != ebis[j]
      modifies this
      ensures Progress(start, ebis)
    {
      var i := 0;
      while i < |ebis|
        invariant 0 <= i <= |ebis| && Progress(start, ebis[..i])
      {
        assert ebis[i] in ebis && ebis[i] !in ebis[..i];
        assert ebis[..i + 1] == ebis[..i] + [ebis[i]];
        ghost var a :| a in start && start[a].ebi == ebis[i];
        SendOne(ebis[i], a, ebis[..i], start);
        i := i + 1;
      }
      assert ebis[..i] == ebis;
    }

    method SendOne(e: Octet, ghost a: string, ghost done: seq<Octet>, ghost start: map<string, Session>)
      requires Progress(start, done) && a in start && start[a].ebi == e && e !in done
      modifies this
      ensures Progress(start, done + [e])
    {
      ghost var was := View();
      assert Finds(Materialised(was, e), e, a);
      var found := SendForPdn(e);
      ForPdnKeeps(was, e, a);
      assert found == Some(a);
      forall x ensures Count(was.sent + [Request(e, start[a].teid)], x) == Count(was.sent, x) + if x == e then 1 else 0 {
        CountOneMore(was.sent, Request(e, start[a].teid), x);
      }
    }
  }
}
