/**
 * E-RAB Modification Indication mapped to an S11 Modify Bearer exchange
 * (internal/s1ap/erab_modification_indication.go:93-362): which bearers the S-GW is told about,
 * how its answer splits the E-RABs the eNB asked for, and what is committed.
 */
module ErabModification {
  import opened Common
  import M = BearerMachine

  type Transport = M.Transport

  // One PDN connection and one dedicated bearer, as far as the user plane is concerned. A
  // dedicated bearer is stored under its assigned EBI.
  datatype Leg = Leg(ebi: Octet, established: bool, modifyFailed: bool, enb: Transport)
  datatype Dedicated = Dedicated(linked: Octet, established: bool, failed: bool, enb: Transport)

  // The UE's user plane: the attach default bearer, the PDN connections, the dedicated bearers.
  datatype UserPlane = UserPlane(defaultEbi: Octet, enb: Transport, sgw: Transport,
                                 pdns: map<string, Leg>, dedicated: map<Octet, Dedicated>)

  datatype Item = Item(ebi: Octet, transport: Transport)
  datatype Cause = Cause(group: Octet, value: Octet)

  const UNKNOWN_ERAB: Cause := Cause(0, 30)
  const TRANSPORT_UNSPECIFIED: Cause := Cause(1, 0)
  const BAD_TRANSPORT: Cause := Cause(1, 1)
  const SEMANTIC_ERROR: Cause := Cause(3, 4)
  const UNSPECIFIED: Cause := Cause(4, 4)

  predicate Usable(t: Transport) {
    t.teid != 0 && t.ip != []
  }

  ghost predicate Names(items: seq<Item>, e: Octet) {
    exists i :: 0 <= i < |items| && items[i].ebi == e
  }

  // ---------------------------------------------------------------- reconciling the two lists

  // `requested` is to be modified; `desired` also holds the transport of the E-RABs that stay.
  datatype Reconciled = Reconciled(requested: map<Octet, Transport>, desired: map<Octet, Transport>, clashes: seq<Octet>)

  function Requests(items: seq<Item>): map<Octet, Transport> {
    if items == [] then map[]
    else
      var n := |items| - 1;
      Requests(items[..n])[items[n].ebi := items[n].transport]
  }

  function Reconcile(modified: seq<Item>, kept: seq<Item>): Reconciled
    decreases |kept|
  {
    if kept == [] then Reconciled(Requests(modified), Requests(modified), [])
    else
      var n := |kept| - 1;
      var r := Reconcile(modified, kept[..n]);
      var e := kept[n].ebi;
      if e in r.desired then Reconciled(r.requested - {e}, r.desired - {e}, r.clashes + [e])
      else r.(desired := r.desired[e := kept[n].transport])
  }

  method ReconcileLists(modified: seq<Item>, kept: seq<Item>) returns (r: Reconciled)
    ensures r == Reconcile(modified, kept)
  {
    var requested: map<Octet, Transport> := map[];
    for i := 0 to |modified|
      invariant requested == Requests(modified[..i])
    {
      assert modified[..i + 1][..i] == modified[..i];
      requested := requested[modified[i].ebi := modified[i].transport];
    }
    assert modified[..|modified|] == modified;
    r := Reconciled(requested, requested, []);
    for i := 0 to |kept|
      invariant r == Reconcile(modified, kept[..i])
    {
      assert kept[..i + 1][..i] == kept[..i];
      var e := kept[i].ebi;
      if e in r.desired {
        r := Reconciled(r.requested - {e}, r.desired - {e}, r.clashes + [e]);
      } else {
        r := r.(desired := r.desired[e := kept[i].transport]);
      }
    }
    assert kept[..|kept|] == kept;
  }

  // An E-RAB is to be modified exactly when it is listed as modified and not as kept; those in
  // both lists clash, and no E-RAB that clashes is modified.
  lemma {:induction false} ReconcileMeaning(modified: seq<Item>, kept: seq<Item>)
    ensures var r := Reconcile(modified, kept);
            && (forall e :: e in r.requested <==> Names(modified, e) && !Names(kept, e))
            && (forall e :: e in r.requested ==> e in r.desired && r.desired[e] == r.requested[e])
            && (forall e :: e in r.clashes ==> e !in r.requested && Names(kept, e))
            && (forall e :: Names(modified, e) && Names(kept, e) ==> e in r.clashes)
            && (forall e :: e in r.requested ==> e in Requests(modified) && r.requested[e] == Requests(modified)[e])
    decreases |kept|
  {
    if kept == [] {
      RequestsNamed(modified);
    } else {
      var n := |kept| - 1;
      ReconcileMeaning(modified, kept[..n]);
      forall e ensures Names(kept, e) <==> Names(kept[..n], e) || e == kept[n].ebi {
        if Names(kept[..n], e) {
          var i :| 0 <= i < n && kept[..n][i].ebi == e;
          assert kept[i].ebi == e;
        }
        if Names(kept, e) && e != kept[n].ebi {
          var i :| 0 <= i < |kept| && kept[i].ebi == e;
          assert kept[..n][i].ebi == e;
        }
      }
    }
  }

  function Occurrences(items: seq<Item>, e: Octet): nat {
    if items == [] then 0
    else Occurrences(items[..|items| - 1], e) + if items[|items| - 1].ebi == e then 1 else 0
  }

  // The last item of the list that names the E-RAB.
  ghost predicate LastNamed(items: seq<Item>, i: nat) {
    i < |items| && forall j :: i < j < |items| ==> items[j].ebi != items[i].ebi
  }

  // An E-RAB that is kept is listed with its transport once, so naming it twice takes it out again: its
  // transport is wanted exactly when it is named as kept an odd number of times and not as modified, or
  // an even number of times and as modified. It clashes when it is named as kept and named before.
  lemma {:induction false} ReconcileExactlyWhen(modified: seq<Item>, kept: seq<Item>, e: Octet)
    ensures var r := Reconcile(modified, kept);
            && (e in r.desired <==> (Occurrences(kept, e) % 2 == 1) != Names(modified, e))
            && (e in r.clashes <==> Occurrences(kept, e) > (if Names(modified, e) then 0 else 1))
            && (e in r.requested <==> Names(modified, e) && Occurrences(kept, e) == 0)
    decreases |kept|
  {
    if kept == [] {
      RequestsNamed(modified);
    } else {
      ReconcileExactlyWhen(modified, kept[..|kept| - 1], e);
    }
  }

  // The transport that counts is the one named last.
  lemma {:induction false} LastTransportCounts(modified: seq<Item>, kept: seq<Item>, e: Octet)
    ensures forall i: nat :: LastNamed(kept, i) && kept[i].ebi == e && e in Reconcile(modified, kept).desired ==>
              Reconcile(modified, kept).desired[e] == kept[i].transport
    ensures forall i: nat :: LastNamed(modified, i) && modified[i].ebi == e && Occurrences(kept, e) == 0 ==>
              e in Reconcile(modified, kept).desired && Reconcile(modified, kept).desired[e] == modified[i].transport
    decreases |kept|
  {
    if kept == [] {
      LastRequestCounts(modified, e);
    } else {
      var n := |kept| - 1;
      LastTransportCounts(modified, kept[..n], e);
      forall i: nat | LastNamed(kept, i) && kept[i].ebi == e && e in Reconcile(modified, kept).desired
        ensures Reconcile(modified, kept).desired[e] == kept[i].transport
      {
        if i < n { assert kept[..n][i] == kept[i] && LastNamed(kept[..n], i); }
      }
    }
  }

  lemma {:induction false} LastRequestCounts(items: seq<Item>, e: Octet)
    ensures forall i: nat :: LastNamed(items, i) && items[i].ebi == e ==>
              e in Requests(items) && Requests(items)[e] == items[i].transport
  {
    if items != [] {
      var n := |items| - 1;
      LastRequestCounts(items[..n], e);
      forall i: nat | LastNamed(items, i) && items[i].ebi == e
        ensures e in Requests(items) && Requests(items)[e] == items[i].transport
      {
        if i < n { assert items[..n][i] == items[i] && LastNamed(items[..n], i); }
      }
    }
  }

  lemma {:induction false} RequestsNamed(items: seq<Item>)
    ensures forall e :: e in Requests(items) <==> Names(items, e)
  {
    if items != [] {
      var n := |items| - 1;
      RequestsNamed(items[..n]);
      forall e ensures e in Requests(items) <==> Names(items, e) {
        if Names(items[..n], e) {
          var i :| 0 <= i < n && items[..n][i].ebi == e;
          assert items[i].ebi == e;
        }
        if Names(items, e) && e != items[n].ebi {
          var i :| 0 <= i < |items| && items[i].ebi == e;
          assert items[..n][i].ebi == e;
        }
      }
    }
  }

  // ---------------------------------------------------------------- the PDN of an E-RAB

  predicate LegServes(l: Leg, e: Octet) {
    l.ebi == e && e != 0 && l.established && !l.modifyFailed
  }

  // findPDNDefaultEBIForBearerLocked.
  function DefaultOf(u: UserPlane, e: Octet): Option<Octet> {
    if exists a :: a in u.pdns && LegServes(u.pdns[a], e) then Some(e)
    else if e != 0 && e in u.dedicated && u.dedicated[e].established then Some(u.dedicated[e].linked)
    else if u.defaultEbi == e && Usable(u.sgw) then Some(e)
    else None
  }

  method FindDefault(u: UserPlane, e: Octet) returns (found: Option<Octet>)
    ensures found == DefaultOf(u, e)
  {
    var left := u.pdns.Keys;
    while left != {}
      invariant left <= u.pdns.Keys
      invariant forall a :: a in u.pdns && a !in left ==> !LegServes(u.pdns[a], e)
    {
      var a := Pick(left);
      left := left - {a};
      if LegServes(u.pdns[a], e) { return Some(e); }
    }
    if e != 0 && e in u.dedicated && u.dedicated[e].established { return Some(u.dedicated[e].linked); }
    found := if u.defaultEbi == e && Usable(u.sgw) then Some(e) else None;
  }

  predicate Valid(u: UserPlane, e: Octet, t: Transport) {
    Usable(t) && DefaultOf(u, e).Some?
  }

  // The bearers the UE has: an established default bearer whose Modify did not fail, an established
  // dedicated bearer, and the attach default bearer once the S-GW's endpoint is known.
  ghost predicate IsDefault(u: UserPlane, e: Octet) {
    || (e != 0 && exists a :: a in u.pdns && u.pdns[a].ebi == e && u.pdns[a].established && !u.pdns[a].modifyFailed)
    || (e == u.defaultEbi && u.sgw.teid != 0 && u.sgw.ip != [])
  }

  ghost predicate IsDedicated(u: UserPlane, e: Octet) {
    e != 0 && e in u.dedicated && u.dedicated[e].established
  }

  // An E-RAB is valid exactly when it is given an endpoint and is one of them. A dedicated bearer belongs
  // to the default bearer it is linked to, and a default bearer to itself.
  lemma ValidExactlyWhen(u: UserPlane, e: Octet, t: Transport)
    ensures Valid(u, e, t) <==> t.teid != 0 && t.ip != [] && (IsDefault(u, e) || IsDedicated(u, e))
    ensures IsDefault(u, e) && !IsDedicated(u, e) ==> DefaultOf(u, e) == Some(e)
    ensures IsDedicated(u, e) && !IsDefault(u, e) ==> DefaultOf(u, e) == Some(u.dedicated[e].linked)
    ensures (exists a :: a in u.pdns && LegServes(u.pdns[a], e)) ==> DefaultOf(u, e) == Some(e)
  {}

  function DropCause(t: Transport): Cause {
    if !Usable(t) then BAD_TRANSPORT else UNKNOWN_ERAB
  }

  datatype Prepared = Prepared(requested: map<Octet, Transport>, desired: map<Octet, Transport>,
                               affected: set<Octet>, dropped: map<Octet, Cause>)

  // What the validation keeps, the default bearers it affects, and what it drops.
  ghost predicate Prepares(u: UserPlane, r: Reconciled, p: Prepared) {
    && (forall e :: e in p.desired <==> e in r.desired && Valid(u, e, r.desired[e]))
    && (forall e :: e in p.desired ==> p.desired[e] == r.desired[e])
    && (forall e :: e in p.requested <==> e in r.requested && e in p.desired)
    && (forall d :: d in p.affected <==> exists e :: e in p.desired && DefaultOf(u, e) == Some(d))
    && (forall e :: e in p.dropped <==> e in r.requested && e !in p.desired)
    && (forall e :: e in p.dropped ==> e in r.desired)
    && (forall e :: e in p.dropped ==>
          p.dropped[e] == if r.desired[e].teid == 0 || r.desired[e].ip == [] then Cause(1, 1) else Cause(0, 30))
  }

  // The validation loop of prepareERABModificationMBR.
  method Validate(u: UserPlane, r: Reconciled) returns (p: Prepared)
    requires forall e :: e in r.requested ==> e in r.desired
    ensures Prepares(u, r, p)
  {
    p := Prepared(r.requested, r.desired, {}, map[]);
    var left := r.desired.Keys;
    while left != {}
      invariant left <= r.desired.Keys
      invariant forall e :: e in p.desired <==> e in r.desired && (e in left || Valid(u, e, r.desired[e]))
      invariant forall e :: e in p.desired ==> p.desired[e] == r.desired[e]
      invariant forall e :: e in p.requested <==> e in r.requested && e in p.desired
      invariant forall d :: d in p.affected <==>
        exists e :: e in p.desired && e !in left && DefaultOf(u, e) == Some(d)
      invariant forall e :: e in p.dropped <==> e in r.requested && e !in p.desired
      invariant forall e :: e in p.dropped ==> p.dropped[e] == DropCause(r.desired[e])
    {
      var e := Pick(left);
      left := left - {e};
      var t := r.desired[e];
      var default := None;
      if Usable(t) { default := FindDefault(u, e); }
      if default.None? {
        var dropped := if e in p.requested then p.dropped[e := DropCause(t)] else p.dropped;
        p := Prepared(p.requested - {e}, p.desired - {e}, p.affected, dropped);
      } else {
        ghost var before := p.affected;
        p := p.(affected := p.affected + {default.value});
        assert e in p.desired && e !in left && DefaultOf(u, e) == Some(default.value);
      }
    }
  }

  // ---------------------------------------------------------------- the S11 bearer list

  // Every affected default bearer with all its established dedicated bearers.
  ghost predicate InFullSet(u: UserPlane, affected: set<Octet>, e: Octet) {
    e in affected || LinkedTo(u, affected, e)
  }

  predicate LinkedTo(u: UserPlane, defaults: set<Octet>, e: Octet) {
    e != 0 && e in u.dedicated && u.dedicated[e].established && u.dedicated[e].linked in defaults
  }

  predicate LegCarries(l: Leg, e: Octet) {
    l.ebi == e && l.established && Usable(l.enb)
  }

  // `t` is where the bearer `e` is carried now.
  ghost predicate Carries(u: UserPlane, e: Octet, t: Transport) {
    if exists a :: a in u.pdns && LegCarries(u.pdns[a], e)
    then exists a :: a in u.pdns && LegCarries(u.pdns[a], e) && u.pdns[a].enb == t
    else if u.defaultEbi == e && Usable(u.enb) then t == u.enb
    else e in u.dedicated && u.dedicated[e].established && Usable(u.dedicated[e].enb) && t == u.dedicated[e].enb
  }

  // The desired transport if the eNB named one, and otherwise the current one.
  ghost predicate TransportOf(u: UserPlane, desired: map<Octet, Transport>, e: Octet, t: Transport) {
    if e in desired then t == desired[e] else Carries(u, e, t)
  }

  // A record that carries the bearer: established, as far as it knows, and with an endpoint.
  predicate CarriesAt(established: bool, enb: Transport, t: Transport) {
    established && enb.teid != 0 && enb.ip != [] && t == enb
  }

  // The S-GW is told the endpoint the eNB wants for a bearer it names, and otherwise the one that a PDN
  // connection has, or failing that the attach default bearer, or failing that a dedicated bearer. A
  // bearer is in the list for an affected default bearer, or as an established dedicated one of it.
  lemma ListedExactlyWhen(u: UserPlane, desired: map<Octet, Transport>, affected: set<Octet>, e: Octet, t: Transport)
    ensures e in desired ==> (TransportOf(u, desired, e, t) <==> t == desired[e])
    ensures e !in desired ==>
              var byPdn := exists a, x :: a in u.pdns && u.pdns[a].ebi == e && CarriesAt(u.pdns[a].established, u.pdns[a].enb, x);
              var byDefault := u.defaultEbi == e && u.enb.teid != 0 && u.enb.ip != [];
              TransportOf(u, desired, e, t) <==>
                || (exists a :: a in u.pdns && u.pdns[a].ebi == e && CarriesAt(u.pdns[a].established, u.pdns[a].enb, t))
                || (!byPdn && byDefault && t == u.enb)
                || (!byPdn && !byDefault && e in u.dedicated && CarriesAt(u.dedicated[e].established, u.dedicated[e].enb, t))
    ensures InFullSet(u, affected, e) <==>
              e in affected
              || (e != 0 && e in u.dedicated && u.dedicated[e].established && u.dedicated[e].linked in affected)
  {
    if a :| a in u.pdns && LegCarries(u.pdns[a], e) {
      assert CarriesAt(u.pdns[a].established, u.pdns[a].enb, u.pdns[a].enb);
    }
  }

  // desiredOrCurrentBearerTransportLocked.
  method FindTransport(u: UserPlane, desired: map<Octet, Transport>, e: Octet) returns (found: Option<Transport>)
    ensures found.Some? ==> TransportOf(u, desired, e, found.value)
    ensures found.None? ==> forall t :: !TransportOf(u, desired, e, t)
  {
    if e in desired { return Some(desired[e]); }
    var left := u.pdns.Keys;
    while left != {}
      invariant left <= u.pdns.Keys
      invariant forall a :: a in u.pdns && a !in left ==> !LegCarries(u.pdns[a], e)
    {
      var a := Pick(left);
      left := left - {a};
      if LegCarries(u.pdns[a], e) { return Some(u.pdns[a].enb); }
    }
    if u.defaultEbi == e && Usable(u.enb) { return Some(u.enb); }
    if e in u.dedicated && u.dedicated[e].established && Usable(u.dedicated[e].enb) { return Some(u.dedicated[e].enb); }
    found := None;
  }

  // Strictly ascending, so every bearer is listed once.
  ghost predicate Ascending(items: seq<Item>) {
    forall i, j :: 0 <= i < j < |items| ==> items[i].ebi < items[j].ebi
  }

  function Insert(items: seq<Item>, x: Item): seq<Item> {
    if items == [] || x.ebi <= items[0].ebi then [x] + items else [items[0]] + Insert(items[1..], x)
  }

  lemma {:induction false} InsertKeepsOrder(items: seq<Item>, x: Item)
    requires Ascending(items) && !Names(items, x.ebi)
    ensures Ascending(Insert(items, x))
    ensures forall y :: y in Insert(items, x) <==> y in items || y == x
    ensures forall e :: Names(Insert(items, x), e) <==> Names(items, e) || e == x.ebi
  {
    var r := Insert(items, x);
    if items == [] || x.ebi <= items[0].ebi {
      assert items != [] ==> items[0].ebi != x.ebi;
    } else {
      var rest := items[1..];
      forall i | 0 <= i < |rest| ensures rest[i].ebi != x.ebi {
        assert rest[i] == items[i + 1];
      }
      InsertKeepsOrder(rest, x);
      var tail := Insert(rest, x);
      forall j | 0 <= j < |tail| ensures items[0].ebi < tail[j].ebi {
        assert tail[j] in tail;
        if tail[j] in rest { var i :| 0 <= i < |rest| && rest[i] == tail[j]; }
      }
    }
    NamesAreElements(r);
    NamesAreElements(items);
  }

  lemma NamesAreElements(items: seq<Item>)
    ensures forall e :: Names(items, e) <==> exists y :: y in items && y.ebi == e
  {}

  // The list under construction: sorted, and exactly the bearers `due`, each with its transport.
  ghost predicate Lists(u: UserPlane, desired: map<Octet, Transport>, out: seq<Item>, due: set<Octet>) {
    && Ascending(out)
    && (forall e :: Names(out, e) <==> e in due)
    && (forall x :: x in out ==> TransportOf(u, desired, x.ebi, x.transport))
  }

  lemma ListsOneMore(u: UserPlane, desired: map<Octet, Transport>, out: seq<Item>, due: set<Octet>, x: Item)
    requires Lists(u, desired, out, due) && x.ebi !in due && TransportOf(u, desired, x.ebi, x.transport)
    ensures Lists(u, desired, Insert(out, x), due + {x.ebi})
  {
    InsertKeepsOrder(out, x);
  }

  // buildFullPDNModifyBearerSetLocked. It fails when some bearer of the full set has no transport.
  method BuildBearerList(u: UserPlane, affected: set<Octet>, desired: map<Octet, Transport>)
    returns (list: Option<seq<Item>>)
    requires affected !! u.dedicated.Keys
    ensures list.Some? ==> Ascending(list.value)
                           && (forall e :: Names(list.value, e) <==> InFullSet(u, affected, e))
                           && (forall x :: x in list.value ==> TransportOf(u, desired, x.ebi, x.transport))
    ensures list.None? ==> exists e :: InFullSet(u, affected, e) && forall t :: !TransportOf(u, desired, e, t)
  {
    var out: seq<Item>, listed: set<Octet> := [], {};
    var left := affected;
    while left != {}
      invariant left <= affected && Lists(u, desired, out, listed)
      invariant forall e :: e in listed <==> InFullSet(u, affected - left, e)
    {
      var d := Pick(left);
      assert InFullSet(u, affected, d);
      ghost var done := affected - left;
      left := left - {d};
      var found := FindTransport(u, desired, d);
      if found.None? { return None; }
      assert d !in listed;
      ListsOneMore(u, desired, out, listed, Item(d, found.value));
      out, listed := Insert(out, Item(d, found.value)), listed + {d};
      var ok;
      ok, out, listed := ListDedicated(u, affected, d, done, desired, out, listed);
      if !ok { return None; }
      assert affected - left == done + {d};
    }
    assert affected - left == affected;
    list := Some(out);
  }

  // The inner loop: the established dedicated bearers linked to one default bearer.
  method ListDedicated(u: UserPlane, affected: set<Octet>, d: Octet, ghost done: set<Octet>,
                       desired: map<Octet, Transport>, out: seq<Item>, listed: set<Octet>)
    returns (ok: bool, more: seq<Item>, nowListed: set<Octet>)
    requires d in affected && d !in done && d !in u.dedicated && Lists(u, desired, out, listed)
    requires forall e :: e in listed <==> InFullSet(u, done, e) || e == d
    ensures ok ==> Lists(u, desired, more, nowListed) && forall e :: e in nowListed <==> InFullSet(u, done + {d}, e)
    ensures !ok ==> exists e :: InFullSet(u, affected, e) && forall t :: !TransportOf(u, desired, e, t)
  {
    more, nowListed := out, listed;
    var left := u.dedicated.Keys;
    while left != {}
      invariant left <= u.dedicated.Keys && Lists(u, desired, more, nowListed)
      invariant forall e :: e in nowListed <==> e in listed || (LinkedTo(u, {d}, e) && e !in left)
    {
      var e := Pick(left);
      left := left - {e};
      var b := u.dedicated[e];
      if e == 0 || b.linked != d || !b.established || e in nowListed { continue; }
      var found := FindTransport(u, desired, e);
      if found.None? {
        assert InFullSet(u, affected, e);
        return false, more, nowListed;
      }
      ListsOneMore(u, desired, more, nowListed, Item(e, found.value));
      more, nowListed := Insert(more, Item(e, found.value)), nowListed + {e};
    }
    ok := true;
  }

  // The identities of the UE have one owner each: a dedicated bearer is never the default bearer
  // of a PDN, nor what another dedicated bearer is linked to.
  ghost predicate Coherent(u: UserPlane) {
    && (forall a :: a in u.pdns ==> u.pdns[a].ebi !in u.dedicated)
    && u.defaultEbi !in u.dedicated
    && (forall e :: e in u.dedicated ==> u.dedicated[e].linked !in u.dedicated)
  }

  lemma AffectedAreDefaults(u: UserPlane, r: Reconciled, p: Prepared)
    requires Coherent(u) && Prepares(u, r, p)
    ensures p.affected !! u.dedicated.Keys
  {
    forall d | d in p.affected ensures d !in u.dedicated {
      var e :| e in p.desired && DefaultOf(u, e) == Some(d);
    }
  }

  // ---------------------------------------------------------------- the whole preparation

  // The indication is answered at once, or a Modify Bearer Request is sent, or it is given up.
  datatype Preparation = Rejected(failures: map<Octet, Cause>)
                       | Sent(bearers: seq<Item>, requested: map<Octet, Transport>, desired: map<Octet, Transport>,
                              clashes: seq<Octet>)
                       | GivenUp

  // finalFailures so far: the clashes and what the validation dropped.
  method CollectFailures(clashes: seq<Octet>, dropped: map<Octet, Cause>) returns (failures: map<Octet, Cause>)
    ensures forall e :: e in failures <==> e in clashes || e in dropped
  {
    failures := map[];
    for i := 0 to |clashes|
      invariant forall e :: e in failures <==> e in clashes[..i]
    {
      failures := failures[clashes[i] := SEMANTIC_ERROR];
    }
    assert clashes[..|clashes|] == clashes;
    failures := failures + dropped;
  }

  // immediateTransportFailures, on top of what failed before.
  method FailAll(failures: map<Octet, Cause>, requested: map<Octet, Transport>) returns (all: map<Octet, Cause>)
    ensures forall e :: e in all <==> e in failures || e in requested
  {
    all := failures;
    var left := requested.Keys;
    while left != {}
      invariant left <= requested.Keys
      invariant forall e :: e in all <==> e in failures || (e in requested && e !in left)
    {
      var e := Pick(left);
      left := left - {e};
      all := all[e := TRANSPORT_UNSPECIFIED];
    }
  }

  // The default bearer `d`, or the dedicated bearer `e`, belongs to a PDN of some desired E-RAB.
  ghost predicate Affects(u: UserPlane, desired: map<Octet, Transport>, d: Octet) {
    exists e :: e in desired && DefaultOf(u, e) == Some(d)
  }

  ghost predicate AffectsDedicated(u: UserPlane, desired: map<Octet, Transport>, e: Octet) {
    e != 0 && e in u.dedicated && u.dedicated[e].established && Affects(u, desired, u.dedicated[e].linked)
  }

  // prepareERABModificationMBR. A request that is sent names every affected PDN's default bearer
  // and all its established dedicated bearers exactly once, in ascending order. An immediate
  // rejection answers every E-RAB the eNB asked to modify. Of these a request that is sent keeps
  // the valid ones and remembers the clashes: an E-RAB that is dropped is in neither, so the
  // answer, which covers what was requested and the clashes (Evaluate), never mentions it.
  method Prepare(u: UserPlane, sgwKnown: bool, modified: seq<Item>, kept: seq<Item>) returns (p: Preparation)
    requires Coherent(u)
    ensures p.Rejected? ==> forall e :: Names(modified, e) ==> e in p.failures
    ensures p.Sent? ==>
      && |p.bearers| > 0 && Ascending(p.bearers)
      && (forall e :: e in p.requested ==> Names(modified, e) && !Names(kept, e) && e in p.desired && Names(p.bearers, e))
      && (forall e :: e in p.clashes ==> e !in p.requested)
      && (forall e :: e in Requests(modified) ==>
            (e in p.requested <==> !Names(kept, e) && Valid(u, e, Requests(modified)[e])))
      && (forall e :: e in Requests(modified) ==> (e in p.clashes <==> Names(kept, e)))
      && (forall x :: x in p.bearers ==> TransportOf(u, p.desired, x.ebi, x.transport))
      && (forall e :: Names(p.bearers, e) <==> Affects(u, p.desired, e) || AffectsDedicated(u, p.desired, e))
  {
    var r := ReconcileLists(modified, kept);
    ReconcileMeaning(modified, kept);
    RequestsNamed(modified);
    var v := Validate(u, r);
    var failures := CollectFailures(r.clashes, v.dropped);
    if v.requested == map[] {
      p := Rejected(failures);
      return;
    }
    if !sgwKnown {
      var all := FailAll(failures, v.requested);
      p := Rejected(all);
      return;
    }
    AffectedAreDefaults(u, r, v);
    var list := BuildBearerList(u, v.affected, v.desired);
    if list.None? { return GivenUp; }
    forall e | e in v.requested ensures InFullSet(u, v.affected, e) {
      assert DefaultOf(u, e) == Some(DefaultOf(u, e).value);
    }
    var e := Pick(v.requested.Keys);
    assert Names(list.value, e);
    assert forall d :: d in v.affected <==> Affects(u, v.desired, d);
    p := Sent(list.value, v.requested, v.desired, r.clashes);
  }

  // ---------------------------------------------------------------- the S-GW's answer

  datatype Result = Result(ebi: Octet, cause: Octet)
  datatype Answer = Answer(cause: Octet, modified: seq<Result>, removed: seq<Octet>)

  predicate Accepted(cause: Octet) {
    cause == 0 || cause == M.ACCEPTED || cause == M.ACCEPTED_PARTIALLY
  }

  // mapMBRBearerFailureToS1AP.
  function MapCause(cause: Octet): Cause {
    if cause == M.CONTEXT_NOT_FOUND then UNKNOWN_ERAB
    else if cause == M.REQUEST_REJECTED then UNSPECIFIED
    else BAD_TRANSPORT
  }

  // The results collected by EBI: the last one for an EBI stands.
  function LastResults(rs: seq<Result>): map<Octet, Octet> {
    if rs == [] then map[]
    else
      var n := |rs| - 1;
      LastResults(rs[..n])[rs[n].ebi := rs[n].cause]
  }

  datatype Verdict = Success | Release | Failed(cause: Cause)

  predicate BareAccept(a: Answer) {
    a.cause == M.ACCEPTED && a.modified == [] && a.removed == []
  }

  function Judge(a: Answer, e: Octet): Verdict {
    var rs := LastResults(a.modified);
    if e in a.removed then Release
    else if e in rs then if Accepted(rs[e]) then Success else Failed(MapCause(rs[e]))
    else if BareAccept(a) then Success
    else Failed(UNSPECIFIED)
  }

  // The result that counts for an E-RAB: the last one that names it.
  ghost predicate Stands(rs: seq<Result>, i: nat) {
    i < |rs| && forall j :: i < j < |rs| ==> rs[j].ebi != rs[i].ebi
  }

  lemma {:induction false} StandingResultCounts(rs: seq<Result>, e: Octet)
    ensures forall i: nat :: Stands(rs, i) && rs[i].ebi == e ==> e in LastResults(rs) && LastResults(rs)[e] == rs[i].cause
    ensures (forall i :: 0 <= i < |rs| ==> rs[i].ebi != e) ==> e !in LastResults(rs)
  {
    if rs != [] {
      var n := |rs| - 1;
      StandingResultCounts(rs[..n], e);
      forall i: nat | Stands(rs, i) && rs[i].ebi == e ensures e in LastResults(rs) && LastResults(rs)[e] == rs[i].cause {
        if i < n {
          assert rs[..n][i] == rs[i];
          assert Stands(rs[..n], i);
        }
      }
    }
  }

  // A removed E-RAB is to be released. Otherwise the result that stands for it decides: no cause, 16
  // and 17 are a success, and each other cause a failure with its own S1AP cause. An E-RAB without a
  // result is a success only if the answer is a bare acceptance.
  lemma VerdictMeaning(a: Answer, e: Octet)
    ensures Judge(a, e) == Release <==> e in a.removed
    ensures forall i: nat :: e !in a.removed && Stands(a.modified, i) && a.modified[i].ebi == e ==>
              Judge(a, e) == match a.modified[i].cause
                             case 0 | 16 | 17 => Success
                             case 64 => Failed(Cause(0, 30))
                             case 94 => Failed(Cause(4, 4))
                             case _ => Failed(Cause(1, 1))
    ensures e !in a.removed && (forall i :: 0 <= i < |a.modified| ==> a.modified[i].ebi != e) ==>
              Judge(a, e) == if a.cause == 16 && a.modified == [] && a.removed == [] then Success else Failed(Cause(4, 4))
  {
    StandingResultCounts(a.modified, e);
  }

  datatype Outcome = Outcome(successful: set<Octet>, failed: map<Octet, Cause>, release: set<Octet>)

  // evaluateERABModificationMBRResult.
  method Evaluate(requested: set<Octet>, clashes: seq<Octet>, answer: Option<Answer>) returns (o: Outcome)
    requires forall e :: e in clashes ==> e !in requested
    ensures answer.None? ==> o.successful == {} && o.release == {}
                             && (forall e :: e in o.failed <==> e in clashes || e in requested)
                             && (forall e :: e in requested ==> o.failed[e] == TRANSPORT_UNSPECIFIED)
    ensures answer.Some? ==>
              && (forall e :: e in o.successful <==> e in requested && Judge(answer.value, e) == Success)
              && (forall e :: e in o.release <==> e in requested && Judge(answer.value, e) == Release)
              && (forall e :: e in o.failed <==> e in clashes || (e in requested && Judge(answer.value, e).Failed?))
              && (forall e :: e in requested && e in o.failed ==> Judge(answer.value, e) == Failed(o.failed[e]))
    ensures forall e :: e in clashes ==> o.failed[e] == SEMANTIC_ERROR
    // What the eNB is told covers exactly these E-RABs, each in one place.
    ensures forall e :: e in requested || e in clashes <==> e in o.successful || e in o.release || e in o.failed
    ensures forall e :: e in o.successful ==> e !in o.release && e !in o.failed
    ensures forall e :: e in o.release ==> e !in o.failed
  {
    var failed: map<Octet, Cause> := map[];
    for i := 0 to |clashes|
      invariant forall e :: e in failed <==> e in clashes[..i]
      invariant forall e :: e in failed ==> failed[e] == SEMANTIC_ERROR
    {
      failed := failed[clashes[i] := SEMANTIC_ERROR];
    }
    assert clashes[..|clashes|] == clashes;
    ghost var first := failed;
    var successful: set<Octet>, release: set<Octet> := {}, {};
    var rs := map[];
    if answer.Some? { rs := CollectResults(answer.value.modified); }
    var left := requested;
    while left != {}
      invariant left <= requested
      invariant forall e :: e in clashes ==> e in failed && failed[e] == SEMANTIC_ERROR
      invariant answer.None? ==> successful == {} && release == {}
                                 && (forall e :: e in failed <==> e in clashes || (e in requested && e !in left))
                                 && (forall e :: e in requested && e !in left ==> failed[e] == TRANSPORT_UNSPECIFIED)
      invariant answer.Some? ==>
        && (forall e :: e in successful <==> e in requested && e !in left && Judge(answer.value, e) == Success)
        && (forall e :: e in release <==> e in requested && e !in left && Judge(answer.value, e) == Release)
        && (forall e :: e in failed <==> e in clashes || (e in requested && e !in left && Judge(answer.value, e).Failed?))
        && (forall e :: e in requested && e in failed ==> Judge(answer.value, e) == Failed(failed[e]))
    {
      var e := Pick(left);
      left := left - {e};
      if answer.None? {
        failed := failed[e := TRANSPORT_UNSPECIFIED];
      } else if e in answer.value.removed {
        release := release + {e};
      } else if e in rs && Accepted(rs[e]) {
        successful := successful + {e};
      } else if e in rs {
        failed := failed[e := MapCause(rs[e])];
      } else if BareAccept(answer.value) {
        successful := successful + {e};
      } else {
        failed := failed[e := UNSPECIFIED];
      }
    }
    o := Outcome(successful, failed, release);
  }

  method CollectResults(rs: seq<Result>) returns (last: map<Octet, Octet>)
    ensures last == LastResults(rs)
  {
    last := map[];
    for i := 0 to |rs|
      invariant last == LastResults(rs[..i])
    {
      assert rs[..i + 1][..i] == rs[..i];
      last := last[rs[i].ebi := rs[i].cause];
    }
    assert rs[..|rs|] == rs;
  }

  // ---------------------------------------------------------------- committing the answer

  // The transports an accepting answer commits, result by result.
  function Commits(rs: seq<Result>, desired: map<Octet, Transport>): map<Octet, Transport> {
    if rs == [] then map[]
    else
      var n := |rs| - 1;
      var c := Commits(rs[..n], desired);
      if Accepted(rs[n].cause) && rs[n].ebi in desired then c[rs[n].ebi := desired[rs[n].ebi]] else c
  }

  // An E-RAB the S-GW removed, a committed one, or one that stays as it is.
  function NextTransport(e: Octet, now: Transport, commits: map<Octet, Transport>, release: set<Octet>): Transport {
    if e in release then M.NoTransport else if e in commits then commits[e] else now
  }

  function Committed(u: UserPlane, commits: map<Octet, Transport>, release: set<Octet>): UserPlane {
    UserPlane(u.defaultEbi, NextTransport(u.defaultEbi, u.enb, commits, release), u.sgw,
      map a | a in u.pdns :: u.pdns[a].(enb := NextTransport(u.pdns[a].ebi, u.pdns[a].enb, commits, release),
                                        established := u.pdns[a].established && u.pdns[a].ebi !in release),
      map e | e in u.dedicated ::
        u.dedicated[e].(enb := NextTransport(e, u.dedicated[e].enb, commits, release),
                        established := u.dedicated[e].established && e !in release,
                        failed := u.dedicated[e].failed || e in release))
  }

  // ---------------------------------------------------------------- what becomes of the records

  // The S-GW's causes that commit a bearer: none given, accepted, accepted in part.
  ghost predicate SomeAccepts(rs: seq<Result>, e: Octet) {
    exists i :: 0 <= i < |rs| && rs[i].ebi == e && (rs[i].cause == 0 || rs[i].cause == 16 || rs[i].cause == 17)
  }

  // Nothing but transports and the state of bearers can differ.
  predicate SameRecords(u: UserPlane, v: UserPlane) {
    && v.defaultEbi == u.defaultEbi && v.sgw == u.sgw
    && v.pdns.Keys == u.pdns.Keys && v.dedicated.Keys == u.dedicated.Keys
    && (forall a :: a in u.pdns ==> v.pdns[a].ebi == u.pdns[a].ebi && v.pdns[a].modifyFailed == u.pdns[a].modifyFailed)
    && (forall e :: e in u.dedicated ==> v.dedicated[e].linked == u.dedicated[e].linked)
  }

  // The three records an E-RAB can have: the attach default bearer, PDN connections, a dedicated bearer.
  predicate KeptAt(u: UserPlane, v: UserPlane, e: Octet)
    requires SameRecords(u, v)
  {
    && (u.defaultEbi == e ==> v.enb == u.enb)
    && (forall a :: a in u.pdns && u.pdns[a].ebi == e ==> v.pdns[a] == u.pdns[a])
    && (e in u.dedicated ==> v.dedicated[e] == u.dedicated[e])
  }

  // Every record of `e` is carried to `t`, and is as established or failed as it was.
  predicate CarriedTo(u: UserPlane, v: UserPlane, e: Octet, t: Transport)
    requires SameRecords(u, v)
  {
    && (u.defaultEbi == e ==> v.enb == t)
    && (forall a :: a in u.pdns && u.pdns[a].ebi == e ==>
          v.pdns[a].enb == t && v.pdns[a].established == u.pdns[a].established)
    && (e in u.dedicated ==>
          v.dedicated[e].enb == t && v.dedicated[e].established == u.dedicated[e].established
          && v.dedicated[e].failed == u.dedicated[e].failed)
  }

  // No record of `e` has a transport or is established, and a dedicated bearer failed.
  predicate GivenUpAt(u: UserPlane, v: UserPlane, e: Octet)
    requires SameRecords(u, v)
  {
    && (u.defaultEbi == e ==> v.enb == Transport.Transport(0, []))
    && (forall a :: a in u.pdns && u.pdns[a].ebi == e ==>
          v.pdns[a].enb == Transport.Transport(0, []) && !v.pdns[a].established)
    && (e in u.dedicated ==>
          v.dedicated[e].enb == Transport.Transport(0, []) && !v.dedicated[e].established && v.dedicated[e].failed)
  }

  // What the S-GW removed is given up, what it accepted is carried to where the eNB wants it, and
  // every other E-RAB keeps its records.
  ghost predicate Settles(u: UserPlane, v: UserPlane, desired: map<Octet, Transport>, rs: seq<Result>, release: set<Octet>) {
    && SameRecords(u, v)
    && (forall e :: e in release ==> GivenUpAt(u, v, e))
    && (forall e :: e in desired && SomeAccepts(rs, e) && e !in release ==> CarriedTo(u, v, e, desired[e]))
    && (forall e: Octet :: e !in release && !(e in desired && SomeAccepts(rs, e)) ==> KeptAt(u, v, e))
  }

  // One E-RAB is carried elsewhere, or given up, and no other record changes.
  ghost predicate CarriesOnly(u: UserPlane, v: UserPlane, e: Octet, t: Transport) {
    SameRecords(u, v) && CarriedTo(u, v, e, t) && forall x: Octet :: x != e ==> KeptAt(u, v, x)
  }

  ghost predicate GivesUpOnly(u: UserPlane, v: UserPlane, e: Octet) {
    SameRecords(u, v) && GivenUpAt(u, v, e) && forall x: Octet :: x != e ==> KeptAt(u, v, x)
  }

  lemma CommittedRecords(u: UserPlane, commits: map<Octet, Transport>, release: set<Octet>)
    ensures var v := Committed(u, commits, release);
            && SameRecords(u, v)
            && (forall e :: e in release ==> GivenUpAt(u, v, e))
            && (forall e :: e in commits && e !in release ==> CarriedTo(u, v, e, commits[e]))
            && (forall e: Octet :: e !in release && e !in commits ==> KeptAt(u, v, e))
  {}

  lemma OneCarried(u: UserPlane, e: Octet, t: Transport)
    ensures CarriesOnly(u, Committed(u, map[e := t], {}), e, t)
  {
    CommittedRecords(u, map[e := t], {});
    assert e in map[e := t];
    hide Committed, CarriedTo, KeptAt, GivenUpAt, SameRecords;
  }

  lemma OneGivenUp(u: UserPlane, e: Octet)
    ensures GivesUpOnly(u, Committed(u, map[], {e}), e)
  {
    CommittedRecords(u, map[], {e});
    hide Committed, CarriedTo, KeptAt, GivenUpAt, SameRecords;
  }

  // What is committed is what the S-GW accepted or removed, for every answer.
  lemma CommitSettles(u: UserPlane, desired: map<Octet, Transport>, rs: seq<Result>, release: set<Octet>)
    ensures Settles(u, Committed(u, Commits(rs, desired), release), desired, rs, release)
  {
    forall e: Octet
      ensures e in Commits(rs, desired) <==> e in desired && SomeAccepts(rs, e)
      ensures e in Commits(rs, desired) ==> Commits(rs, desired)[e] == desired[e]
    {
      CommitsMeaning(rs, desired, e);
    }
    CommittedRecords(u, Commits(rs, desired), release);
    hide Committed, CarriedTo, KeptAt, GivenUpAt, SameRecords, SomeAccepts;
  }

  // The loop over the PDN connections with one default bearer, for records kept as values.
  method CarryLegs(pdns: map<string, Leg>, e: Octet, t: Transport) returns (legs: map<string, Leg>)
    ensures legs == map a | a in pdns :: if pdns[a].ebi == e then pdns[a].(enb := t) else pdns[a]
  {
    legs := pdns;
    var left := pdns.Keys;
    while left != {}
      invariant left <= pdns.Keys && legs.Keys == pdns.Keys
      invariant forall a :: a in pdns ==>
        legs[a] == if a !in left && pdns[a].ebi == e then pdns[a].(enb := t) else pdns[a]
    {
      var a := Pick(left);
      left := left - {a};
      if legs[a].ebi == e { legs := legs[a := legs[a].(enb := t)]; }
    }
  }

  class Bearers {
    const defaultEbi: Octet
    const sgw: Transport
    var enb: Transport
    var pdns: map<string, Leg>
    var dedicated: map<Octet, Dedicated>

    ghost function View(): UserPlane
      reads this
    {
      UserPlane(defaultEbi, enb, sgw, pdns, dedicated)
    }

    constructor (u: UserPlane)
      ensures View() == u
    {
      defaultEbi, sgw, enb, pdns, dedicated := u.defaultEbi, u.sgw, u.enb, u.pdns, u.dedicated;
    }

    // The loop over the PDN connections with one default bearer.
    method SetLegs(e: Octet, t: Transport, gone: bool)
      modifies this`pdns
      ensures pdns == map a | a in old(pdns) ::
        if old(pdns)[a].ebi == e then old(pdns)[a].(enb := t, established := old(pdns)[a].established && !gone)
        else old(pdns)[a]
    {
      var left := pdns.Keys;
      while left != {}
        invariant left <= pdns.Keys && pdns.Keys == old(pdns).Keys
        invariant forall a :: a in pdns ==>
          pdns[a] == if a !in left && old(pdns)[a].ebi == e
                     then old(pdns)[a].(enb := t, established := old(pdns)[a].established && !gone) else old(pdns)[a]
      {
        var a := Pick(left);
        left := left - {a};
        if pdns[a].ebi == e {
          pdns := pdns[a := pdns[a].(enb := t, established := pdns[a].established && !gone)];
        }
      }
    }

    // applyCommittedERABModificationItemLocked.
    method Apply(e: Octet, t: Transport)
      modifies this`enb, this`pdns, this`dedicated
      ensures View() == Committed(old(View()), map[e := t], {})
      ensures CarriesOnly(old(View()), View(), e, t)
    {
      hide CarriesOnly;
      OneCarried(View(), e, t);
      if defaultEbi == e { enb := t; }
      SetLegs(e, t, false);
      if e in dedicated { dedicated := dedicated[e := dedicated[e].(enb := t)]; }
      assert pdns == Committed(old(View()), map[e := t], {}).pdns;
      assert dedicated == Committed(old(View()), map[e := t], {}).dedicated;
    }

    // The release part of commitSuccessfulERABModificationState for one E-RAB.
    method Free(e: Octet)
      modifies this`enb, this`pdns, this`dedicated
      ensures View() == Committed(old(View()), map[], {e})
      ensures GivesUpOnly(old(View()), View(), e)
    {
      hide GivesUpOnly;
      OneGivenUp(View(), e);
      if defaultEbi == e { enb := M.NoTransport; }
      SetLegs(e, M.NoTransport, true);
      if e in dedicated {
        dedicated := dedicated[e := dedicated[e].(enb := M.NoTransport, established := false, failed := true)];
      }
      assert pdns == Committed(old(View()), map[], {e}).pdns;
      assert dedicated == Committed(old(View()), map[], {e}).dedicated;
    }

    // commitSuccessfulERABModificationState.
    method Commit(desired: map<Octet, Transport>, rs: seq<Result>, release: set<Octet>)
      modifies this`enb, this`pdns, this`dedicated
      ensures View() == Committed(old(View()), Commits(rs, desired), release)
      ensures Settles(old(View()), View(), desired, rs, release)
    {
      hide Settles, CarriesOnly, GivesUpOnly;
      CommitSettles(View(), desired, rs, release);
      ghost var was := View();
      NothingCommitted(was);
      for i := 0 to |rs|
        invariant View() == Committed(was, Commits(rs[..i], desired), {})
      {
        assert rs[..i + 1][..i] == rs[..i];
        if Accepted(rs[i].cause) && rs[i].ebi in desired {
          CommitOneMore(was, Commits(rs[..i], desired), rs[i].ebi, desired[rs[i].ebi]);
          Apply(rs[i].ebi, desired[rs[i].ebi]);
        }
      }
      assert rs[..|rs|] == rs;
      var left := release;
      ghost var freed: set<Octet> := {};
      while left != {}
        invariant left + freed == release
        invariant View() == Committed(was, Commits(rs, desired), freed)
      {
        var e := Pick(left);
        left := left - {e};
        FreeOneMore(was, Commits(rs, desired), freed, e);
        freed := freed + {e};
        Free(e);
      }
      assert freed == release;
    }
  }

  lemma NothingCommitted(u: UserPlane)
    ensures Committed(u, map[], {}) == u
  {}

  lemma CommitOneMore(u: UserPlane, c: map<Octet, Transport>, e: Octet, t: Transport)
    ensures Committed(Committed(u, c, {}), map[e := t], {}) == Committed(u, c[e := t], {})
  {
    var a, b := Committed(Committed(u, c, {}), map[e := t], {}), Committed(u, c[e := t], {});
    assert a.pdns == b.pdns;
    assert a.dedicated == b.dedicated;
  }

  lemma FreeOneMore(u: UserPlane, c: map<Octet, Transport>, freed: set<Octet>, e: Octet)
    ensures Committed(Committed(u, c, freed), map[], {e}) == Committed(u, c, freed + {e})
  {
    var a, b := Committed(Committed(u, c, freed), map[], {e}), Committed(u, c, freed + {e});
    assert a.pdns == b.pdns;
    assert a.dedicated == b.dedicated;
  }

  // ---------------------------------------------------------------- reported and committed

  predicate LastAccepts(rs: seq<Result>, e: Octet) {
    e in LastResults(rs) && Accepted(LastResults(rs)[e])
  }

  // Commits are exactly the accepted results for desired E-RABs; the verdict looks at the last one.
  lemma {:induction false} CommitsMeaning(rs: seq<Result>, desired: map<Octet, Transport>, e: Octet)
    ensures e in Commits(rs, desired) <==>
            e in desired && exists i :: 0 <= i < |rs| && rs[i].ebi == e && Accepted(rs[i].cause)
    ensures e in Commits(rs, desired) ==> Commits(rs, desired)[e] == desired[e]
    ensures e in LastResults(rs) ==> exists i :: 0 <= i < |rs| && rs[i] == Result(e, LastResults(rs)[e])
    ensures (exists i :: 0 <= i < |rs| && rs[i].ebi == e) ==> e in LastResults(rs)
  {
    if rs != [] {
      var n := |rs| - 1;
      CommitsMeaning(rs[..n], desired, e);
      forall i | 0 <= i < n ensures rs[..n][i] == rs[i] {}
      if rs[n].ebi != e {
        assert (exists i :: 0 <= i < |rs| && rs[i].ebi == e && Accepted(rs[i].cause))
          <==> (exists i :: 0 <= i < n && rs[..n][i].ebi == e && Accepted(rs[..n][i].cause));
        if e in LastResults(rs) {
          var i :| 0 <= i < n && rs[..n][i] == Result(e, LastResults(rs[..n])[e]);
          assert rs[i] == Result(e, LastResults(rs)[e]);
        }
        if exists i :: 0 <= i < |rs| && rs[i].ebi == e {
          var i :| 0 <= i < |rs| && rs[i].ebi == e;
          assert rs[..n][i].ebi == e;
        }
      } else {
        assert rs[n] == Result(e, LastResults(rs)[e]);
        if e in Commits(rs[..n], desired) {
          var i :| 0 <= i < n && rs[..n][i].ebi == e && Accepted(rs[..n][i].cause);
          assert rs[i].ebi == e && Accepted(rs[i].cause);
        }
      }
    }
  }

  // An E-RAB that is not released is committed exactly when it is reported successful, if and only
  // if the S-GW did not accept without naming any bearer, and the last result for the E-RAB
  // accepts whenever some result does.
  lemma CommittedAsReportedExactlyWhen(desired: map<Octet, Transport>, a: Answer, e: Octet)
    requires e in desired && Judge(a, e) != Release
    ensures (e in Commits(a.modified, desired) <==> Judge(a, e) == Success)
            <==> !BareAccept(a) && (SomeAccepts(a.modified, e) ==> LastAccepts(a.modified, e))
  {
    CommitsMeaning(a.modified, desired, e);
    if LastAccepts(a.modified, e) {
      var i :| 0 <= i < |a.modified| && a.modified[i] == Result(e, LastResults(a.modified)[e]);
      assert SomeAccepts(a.modified, e);
    }
  }

  lemma BareAcceptCommitsNothing(u: UserPlane, desired: map<Octet, Transport>, a: Answer, e: Octet)
    requires BareAccept(a)
    ensures Judge(a, e) == Success && Committed(u, Commits(a.modified, desired), {}) == u
  {}
}
