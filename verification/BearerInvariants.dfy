/**
 * What every step of the bearer machine keeps: each EPS bearer identity has one owner, pending
 * Creates own their reservations, legacy identifiers are distinct, at most four Creates are
 * pending, and the books of S11 transactions balance.
 */
module BearerInvariants {
  import opened Common
  import opened EbiAllocation
  import opened BearerMachine
  import T = ActivationTimer

  // ---------------------------------------------------------------- ownership of identities

  datatype Owner = OfDefault | OfPdn(apn: string) | OfPendingPdn | OfRequest(r: PdnRequest)
                 | OfCreate(key: Key) | OfDedicated

  // A pending Update, Delete or UE-initiated modification holds on to the EBIs of the dedicated
  // bearers it was started for, even after one of those is deleted by another transaction.
  ghost predicate Owns(s: State, o: Owner, e: Octet) {
    match o
    case OfDefault => e == s.defaultEbi != 0
    case OfPdn(a) => a in s.pdns && s.pdns[a].ebi == e
    case OfPendingPdn => s.pendingPdn.Some? && s.pendingPdn.value.pdn.ebi == e != 0
    case OfRequest(r) => r in s.inFlight && r.ebi == e
    case OfCreate(k) => IsCreate(s, k) && e in s.pending[k].bearers
    case OfDedicated => e in s.dedicated || exists k :: Holds(s, k, e)
  }

  ghost predicate Holds(s: State, k: Key, e: Octet) {
    k in s.pending && KindOf(k) != Create && e in s.pending[k].bearers
  }

  // The attach default bearer is the PDN of the default APN.
  predicate SameSession(s: State, o: Owner, p: Owner) {
    o == p || (o == OfDefault && p == OfPdn(s.defaultApn)) || (p == OfDefault && o == OfPdn(s.defaultApn))
  }

  ghost predicate SoleOwner(s: State) {
    forall o, p, e :: Owns(s, o, e) && Owns(s, p, e) ==> SameSession(s, o, p)
  }

  ghost predicate InRange(s: State) {
    forall o, e :: Owns(s, o, e) ==> MIN_EBI <= e <= MAX_EBI
  }

  ghost predicate ReservedFor(s: State, e: Octet, id: TxId) {
    e in s.reservations && s.reservations[e] == id
  }

  ghost predicate Backed(s: State) {
    && (forall k, e :: IsCreate(s, k) && e in s.pending[k].bearers ==> ReservedFor(s, e, IdOf(k)))
    && (forall r :: r in s.inFlight ==> ReservedFor(s, r.ebi, PdnId(r.pti, r.apn)))
    && (s.pendingPdn.Some? && s.pendingPdn.value.pdn.ebi != 0 ==>
          ReservedFor(s, s.pendingPdn.value.pdn.ebi, PdnId(s.pendingPdn.value.pdn.pti, s.pendingPdn.value.apn)))
  }

  // One S-GW per local TEID. Transaction IDs leave the peer out and rely on it.
  ghost predicate OneSgw(s: State, sgw: nat -> string) {
    forall k :: IsCreate(s, k) ==> k.Gtp? && k.peer == sgw(k.teid)
  }

  ghost predicate CreateShape(s: State) {
    forall k :: IsCreate(s, k) ==>
      && !Terminal(s.pending[k].state)
      && s.pending[k].cleanup <= s.pending[k].bearers.Keys
      && forall e :: e in s.pending[k].bearers ==> s.pending[k].bearers[e].txId == IdOf(k)
  }

  ghost predicate LegacyDistinct(s: State) {
    forall k, l, e, f :: IsCreate(s, k) && e in s.pending[k].bearers && IsCreate(s, l) && f in s.pending[l].bearers
                         && s.pending[k].bearers[e].legacy != 0 ==>
      && MIN_LEGACY <= s.pending[k].bearers[e].legacy <= MAX_LEGACY
      && (s.pending[k].bearers[e].legacy == s.pending[l].bearers[f].legacy ==> k == l && e == f)
  }

  ghost predicate Identities(s: State, sgw: nat -> string) {
    SoleOwner(s) && InRange(s) && Backed(s) && OneSgw(s, sgw) && CreateShape(s)
  }

  lemma OwnedIsUsed(s: State, o: Owner, e: Octet)
    requires InRange(s) && Backed(s) && Owns(s, o, e)
    ensures e in Used(s)
  {}

  // The shape of every step: identities stay where they were, move from one owner to another, or
  // are newly taken from those nobody owned.
  ghost predicate Moves(s: State, t: State, from: Owner, to: Owner, taken: set<Octet>) {
    && t.defaultApn == s.defaultApn
    && (forall o, e :: Owns(t, o, e) ==> Owns(s, o, e) || (o == to && (Owns(s, from, e) || e in taken)))
    && (from != to ==> (from.OfCreate? || from.OfRequest? || from.OfPendingPdn?)
                       && forall e :: Owns(s, from, e) ==> !Owns(t, from, e))
    && (forall e :: e in taken ==> MIN_EBI <= e <= MAX_EBI)
    && (forall o, e :: e in taken && Owns(s, o, e) ==> SameSession(s, o, to))
  }

  // Of two owners one is new: the identity was taken from nobody else, and it did not move, since
  // whoever it moved from owned it alone.
  lemma OneMoved(s: State, t: State, from: Owner, to: Owner, taken: set<Octet>, o: Owner, p: Owner, e: Octet)
    requires SoleOwner(s) && Moves(s, t, from, to, taken)
    requires Owns(t, o, e) && Owns(t, p, e) && !(Owns(s, o, e) && Owns(s, p, e))
    ensures SameSession(t, o, p)
  {
    hide Owns;
    assert o == to || p == to;
    assert Owns(s, from, e) && Owns(s, o, e) ==> SameSession(s, from, o);
    assert Owns(s, from, e) && Owns(s, p, e) ==> SameSession(s, from, p);
  }

  lemma MovesKeep(s: State, t: State, from: Owner, to: Owner, taken: set<Octet>)
    requires SoleOwner(s) && InRange(s) && Moves(s, t, from, to, taken)
    ensures SoleOwner(t) && InRange(t)
  {
    forall o, p, e | Owns(t, o, e) && Owns(t, p, e) ensures SameSession(t, o, p) {
      if Owns(s, o, e) && Owns(s, p, e) {
        assert SameSession(s, o, p);
      } else {
        OneMoved(s, t, from, to, taken, o, p, e);
      }
    }
  }

  // ---------------------------------------------------------------- Create transactions

  lemma CreateOwnsAlone(s: State, k: Key)
    requires SoleOwner(s) && IsCreate(s, k)
    ensures forall o, e :: Owns(s, o, e) && e in s.pending[k].bearers ==> o == OfCreate(k)
  {
    forall o, e | Owns(s, o, e) && e in s.pending[k].bearers ensures o == OfCreate(k) {
      assert Owns(s, OfCreate(k), e);
    }
  }

  lemma DedicatedIsFree(s: State, k: Key)
    requires SoleOwner(s) && IsCreate(s, k)
    ensures s.dedicated.Keys !! s.pending[k].bearers.Keys
  {
    forall e | e in s.dedicated && e in s.pending[k].bearers ensures false {
      assert Owns(s, OfDedicated, e) && Owns(s, OfCreate(k), e);
    }
  }

  // A step that rewrites one pending Create in place.
  lemma PutTxKeeps(s: State, k: Key, tx: Tx, sgw: nat -> string)
    requires Identities(s, sgw) && IsCreate(s, k)
    requires tx.bearers.Keys == s.pending[k].bearers.Keys && !Terminal(tx.state) && tx.cleanup <= tx.bearers.Keys
    requires forall e :: e in tx.bearers ==> tx.bearers[e].txId == IdOf(k)
    ensures Identities(PutTx(s, k, tx), sgw)
  {
    var t := PutTx(s, k, tx);
    forall o, e | Owns(t, o, e) ensures Owns(s, o, e) {
      if o.OfDedicated? && e !in s.dedicated { var l :| Holds(t, l, e); assert Holds(s, l, e); }
    }
    MovesKeep(s, t, OfDedicated, OfDedicated, {});
  }

  // Closing a Create whose active bearers, if any, move to the dedicated bearers.
  lemma CloseCreateKeeps(s: State, t: State, k: Key, sgw: nat -> string)
    requires Identities(s, sgw) && IsCreate(s, k)
    requires t.pending == s.pending - {k} && t.defaultEbi == s.defaultEbi && t.defaultApn == s.defaultApn
    requires t.pdns == s.pdns && t.pendingPdn == s.pendingPdn && t.inFlight == s.inFlight
    requires t.dedicated.Keys <= s.dedicated.Keys + s.pending[k].bearers.Keys
    requires forall e :: e in s.reservations && s.reservations[e] != IdOf(k) && e !in s.pending[k].bearers
                         ==> e in t.reservations && t.reservations[e] == s.reservations[e]
    ensures Identities(t, sgw)
  {
    forall o, e | Owns(t, o, e) ensures Owns(s, o, e) || (o == OfDedicated && Owns(s, OfCreate(k), e)) {
      if o.OfDedicated? && e !in t.dedicated { var l :| Holds(t, l, e); assert Holds(s, l, e); }
    }
    MovesKeep(s, t, OfCreate(k), OfDedicated, {});
    CreateOwnsAlone(s, k);
    forall l, e | IsCreate(t, l) && e in t.pending[l].bearers ensures ReservedFor(t, e, IdOf(l)) {
      assert Owns(t, OfCreate(l), e);
      assert ReservedFor(s, e, IdOf(l));
    }
    forall r | r in t.inFlight ensures ReservedFor(t, r.ebi, PdnId(r.pti, r.apn)) {
      assert Owns(t, OfRequest(r), r.ebi);
    }
    if t.pendingPdn.Some? && t.pendingPdn.value.pdn.ebi != 0 {
      assert Owns(t, OfPendingPdn, t.pendingPdn.value.pdn.ebi);
    }
  }

  lemma MaybeCompleteKeeps(s: State, k: Key, sgw: nat -> string)
    requires Identities(s, sgw) && IsCreate(s, k)
    ensures Identities(MaybeComplete(s, k), sgw)
  {
    var tx := s.pending[k];
    var t := MaybeComplete(s, k);
    if t == PutTx(s, k, tx.(state := CleaningUpERAB, cleanup := ReleaseItems(tx))) {
      PutTxKeeps(s, k, tx.(state := CleaningUpERAB, cleanup := ReleaseItems(tx)), sgw);
    } else if t == Finalize(s, k) {
      CloseCreateKeeps(s, t, k, sgw);
    }
  }

  lemma PutBearerKeeps(s: State, k: Key, e: Octet, b: Bearer, sgw: nat -> string)
    requires Identities(s, sgw) && IsCreate(s, k) && e in s.pending[k].bearers && b.txId == IdOf(k)
    ensures Identities(PutBearer(s, k, e, b), sgw) && IsCreate(PutBearer(s, k, e, b), k)
  {
    var tx := s.pending[k];
    PutTxKeeps(s, k, tx.(bearers := tx.bearers[e := b]), sgw);
  }

  lemma ReplaceBearersKeeps(s: State, k: Key, tx: Tx, sgw: nat -> string)
    requires Identities(s, sgw) && IsCreate(s, k)
    requires tx == s.pending[k].(bearers := tx.bearers) && tx.bearers.Keys == s.pending[k].bearers.Keys
    requires forall e :: e in tx.bearers ==> tx.bearers[e].txId == s.pending[k].bearers[e].txId
    ensures Identities(Finalize(PutTx(s, k, tx), k), sgw)
  {
    PutTxKeeps(s, k, tx, sgw);
    var s1 := PutTx(s, k, tx);
    CloseCreateKeeps(s1, Finalize(s1, k), k, sgw);
  }

  // The admission of a Create: its identities were nobody's.
  lemma AdmissionKeeps(s: State, k: Key, tx: Tx, ids: seq<Octet>, sgw: nat -> string)
    requires Identities(s, sgw) && k !in s.pending && KindOf(k) == Create && k.Gtp? && k.peer == sgw(k.teid)
    requires tx.bearers.Keys == (set e | e in ids) && !Terminal(tx.state) && tx.cleanup == {}
    requires forall e :: e in tx.bearers ==> tx.bearers[e].txId == IdOf(k)
    requires forall i :: 0 <= i < |ids| ==> Requestable(ids[i], Used(s))
    ensures Identities(Install(s.(reservations := Reserve(s.reservations, ids, IdOf(k))), k, tx), sgw)
  {
    var r := s.(reservations := Reserve(s.reservations, ids, IdOf(k)));
    assert ids[..|ids|] == ids;
    ReservingKeepsBacked(s, k, ids, |ids|);
    SameOwners(s, r);
    forall o, e | Owns(s, o, e) ensures e !in tx.bearers.Keys {
      OwnedIsUsed(s, o, e);
    }
    assert forall o, e :: Owns(r, o, e) ==> e !in tx.bearers.Keys by {
      OwnersEqual(s, r);
    }
    InstallKeeps(r, k, tx, sgw);
  }

  lemma OwnersEqual(s: State, t: State)
    requires t == s.(reservations := t.reservations)
    ensures forall o, e :: Owns(t, o, e) <==> Owns(s, o, e)
  {
    forall o, e | Owns(t, o, e) != Owns(s, o, e) ensures false {
      assert forall l :: Holds(t, l, e) <==> Holds(s, l, e);
    }
  }

  lemma InstallKeeps(s: State, k: Key, tx: Tx, sgw: nat -> string)
    requires Identities(s, sgw) && k !in s.pending && KindOf(k) == Create && k.Gtp? && k.peer == sgw(k.teid)
    requires !Terminal(tx.state) && tx.cleanup == {}
    requires forall e :: e in tx.bearers ==>
      tx.bearers[e].txId == IdOf(k) && MIN_EBI <= e <= MAX_EBI && ReservedFor(s, e, IdOf(k))
    requires forall o, e :: Owns(s, o, e) ==> e !in tx.bearers.Keys
    ensures Identities(Install(s, k, tx), sgw)
  {
    var t := Install(s, k, tx);
    forall o, e | Owns(t, o, e) ensures Owns(s, o, e) || (o == OfCreate(k) && e in tx.bearers.Keys) {
      if o.OfDedicated? && e !in s.dedicated { var l :| Holds(t, l, e); assert Holds(s, l, e); }
    }
    MovesKeep(s, t, OfCreate(k), OfCreate(k), tx.bearers.Keys);
  }

  lemma ReservingKeepsBacked(s: State, k: Key, ids: seq<Octet>, n: nat)
    requires n <= |ids| && Backed(s)
    requires forall i :: 0 <= i < |ids| ==> Requestable(ids[i], Used(s))
    ensures Backed(s.(reservations := Reserve(s.reservations, ids[..n], IdOf(k))))
    ensures forall e :: e in s.reservations ==> e !in ids[..n]
  {}

  lemma {:induction false} NewBearersBelong(id: TxId, req: CreateRequest, ids: seq<Octet>, legacy: seq<Octet>)
    requires |ids| <= |legacy| && |ids| <= |req.bearers|
    ensures forall e :: e in NewBearers(id, req, ids, legacy) ==> NewBearers(id, req, ids, legacy)[e].txId == id
  {
    if ids != [] {
      NewBearersBelong(id, req, ids[..|ids| - 1], legacy);
    }
  }

  lemma AdmitKeeps(s: State, k: Key, req: CreateRequest, ids: seq<Octet>, legacy: seq<Octet>, sgw: nat -> string)
    requires Identities(s, sgw) && k !in s.pending && KindOf(k) == Create && k.Gtp? && k.peer == sgw(k.teid)
    requires |ids| == |req.bearers| == |legacy| && forall i :: 0 <= i < |ids| ==> Requestable(ids[i], Used(s))
    ensures Identities(Admit(s, k, req, ids, legacy), sgw)
  {
    var tx := Tx(req.linked, FingerprintOf(req), NewBearers(IdOf(k), req, ids, legacy), Received, {}, false);
    NewBearersBelong(IdOf(k), req, ids, legacy);
    AdmissionKeeps(s, k, tx, ids, sgw);
  }

  lemma ProceedKeeps(s: State, k: Key, linked: Linked, pick: Key, sgw: nat -> string)
    requires Identities(s, sgw) && IsCreate(s, k)
    ensures Identities(Proceed(s, k, linked, pick), sgw)
  {
    var tx := s.pending[k];
    if ActiveS1(s) && linked.aggregating {
      if Flushable(s, linked.ebi, pick) && !Owned(s, pick) {
        DenyKeeps(s, k, sgw);
      } else if Flushable(s, linked.ebi, pick) {
        PutTxKeeps(s, pick, s.pending[pick].(state := SettingUpERAB), sgw);
      }
    } else if !LinkedReady(s, tx.linked) {
      PutTxKeeps(s, k, tx.(state := WaitingForLink), sgw);
    } else if !ActiveS1(s) && s.access.registered && s.access.idle {
      PutTxKeeps(s, k, tx.(state := WaitingForUE), sgw);
    } else if !ActiveS1(s) {
      DenyKeeps(s, k, sgw);
    }
  }

  lemma DenyKeeps(s: State, k: Key, sgw: nat -> string)
    requires Identities(s, sgw) && IsCreate(s, k)
    ensures Identities(Deny(s, k), sgw)
  {
    CloseCreateKeeps(s, Deny(s, k), k, sgw);
  }

  lemma AllocateKeeps(s: State, k: Key, req: CreateRequest, linked: Linked, pick: Key, sgw: nat -> string)
    requires Identities(s, sgw) && k !in s.pending && KindOf(k) == Create && k.Gtp? && k.peer == sgw(k.teid)
    ensures Identities(Allocate(s, k, req, linked, pick), sgw)
  {
    hide Used, LegacyUsed, Assign, AssignLegacy, Proceed, Identities, Reserve, FingerprintOf, NewBearers;
    var ids := Assign(RequestedEbis(req), Used(s));
    var legacy := AssignLegacy(LegacyNeeded(req, linked.ims), LegacyUsed(s));
    AssignSound(RequestedEbis(req), Used(s));
    if |ids| < |req.bearers| {
      SameIdentities(s, Reply(s, k, ALL_ADDRESSES_OCCUPIED), sgw);
    } else if |legacy| < |req.bearers| {
      LeftBehindKeeps(s, k, ids, |legacy|, sgw);
    } else {
      AdmitKeeps(s, k, req, ids, legacy, sgw);
      ProceedKeeps(Admit(s, k, req, ids, legacy), k, linked, pick, sgw);
    }
  }

  // Reservations without an owner do no harm.
  lemma LeftBehindKeeps(s: State, k: Key, ids: seq<Octet>, n: nat, sgw: nat -> string)
    requires Identities(s, sgw) && n <= |ids| && forall i :: 0 <= i < |ids| ==> Requestable(ids[i], Used(s))
    ensures Identities(Reply(s.(reservations := Reserve(s.reservations, ids[..n], IdOf(k))), k, REQUEST_DENIED), sgw)
  {
    ReservingKeepsBacked(s, k, ids, n);
    SameOwners(s, Reply(s.(reservations := Reserve(s.reservations, ids[..n], IdOf(k))), k, REQUEST_DENIED));
  }

  lemma CreateBearerRequestKeeps(s: State, peer: string, req: CreateRequest, link: Option<Linked>, pick: Key,
                                 sgw: nat -> string)
    requires Identities(s, sgw) && Lawful(s, CreateArrives(peer, req, link, pick), sgw)
    ensures Identities(CreateBearerRequest(s, peer, req, link, pick), sgw)
  {
    hide Allocate, Identities, EquivalentPending, FingerprintOf, PendingCreates;
    var k := Gtp(peer, Create, req.teid, req.seqNum);
    if link.None? || k in s.cached || k in s.pending || EquivalentPending(s, FingerprintOf(req))
       || |PendingCreates(s)| >= MAX_PENDING_CREATES {
      SameIdentities(s, CreateBearerRequest(s, peer, req, link, pick), sgw);
    } else {
      AllocateKeeps(s, k, req, link.value, pick, sgw);
    }
  }

  // Steps that touch nothing an owner is read from.
  lemma SameOwners(s: State, t: State)
    requires SoleOwner(s) && InRange(s)
    requires t.defaultEbi == s.defaultEbi && t.defaultApn == s.defaultApn && t.pdns == s.pdns
    requires t.pendingPdn == s.pendingPdn && t.inFlight == s.inFlight
    requires t.dedicated == s.dedicated && t.pending == s.pending
    ensures SoleOwner(t) && InRange(t)
  {
    forall o, e | Owns(t, o, e) ensures Owns(s, o, e) {
      if o.OfDedicated? && e !in s.dedicated { var l :| Holds(t, l, e); assert Holds(s, l, e); }
    }
    MovesKeep(s, t, OfDedicated, OfDedicated, {});
  }

  lemma SameIdentities(s: State, t: State, sgw: nat -> string)
    requires Identities(s, sgw)
    requires t.defaultEbi == s.defaultEbi && t.defaultApn == s.defaultApn && t.pdns == s.pdns
    requires t.pendingPdn == s.pendingPdn && t.inFlight == s.inFlight && t.reservations == s.reservations
    requires t.dedicated == s.dedicated && t.pending == s.pending
    ensures Identities(t, sgw)
  {
    SameOwners(s, t);
  }

  // ---------------------------------------------------------------- Update, Delete and local modification

  // Steps of the other transactions: Creates and reservations stay, and a dedicated EBI was
  // already dedicated or held by a pending transaction.
  lemma DedicatedStepKeeps(s: State, t: State, sgw: nat -> string)
    requires Identities(s, sgw)
    requires t.defaultEbi == s.defaultEbi && t.defaultApn == s.defaultApn && t.pdns == s.pdns
    requires t.pendingPdn == s.pendingPdn && t.inFlight == s.inFlight && t.reservations == s.reservations
    requires forall k :: IsCreate(t, k) ==> IsCreate(s, k) && t.pending[k] == s.pending[k]
    requires forall e :: e in t.dedicated ==> Owns(s, OfDedicated, e)
    requires forall k, e :: Holds(t, k, e) ==> Owns(s, OfDedicated, e)
    ensures Identities(t, sgw)
  {
    MovesKeep(s, t, OfDedicated, OfDedicated, {});
  }

  lemma CloseOtherKeeps(s: State, k: Key, dedicated: map<Octet, Bearer>, r: Response, sgw: nat -> string)
    requires Identities(s, sgw) && k in s.pending && KindOf(k) != Create
    requires dedicated.Keys <= s.dedicated.Keys + s.pending[k].bearers.Keys
    ensures Identities(Close(s.(dedicated := dedicated), k, r), sgw)
  {
    var t := Close(s.(dedicated := dedicated), k, r);
    forall e | e in t.dedicated ensures Owns(s, OfDedicated, e) {
      assert e in s.dedicated || Holds(s, k, e);
    }
    forall l, e | Holds(t, l, e) ensures Owns(s, OfDedicated, e) { assert Holds(s, l, e); }
    DedicatedStepKeeps(s, t, sgw);
  }

  lemma CloseUnchangedKeeps(s: State, k: Key, r: Response, sgw: nat -> string)
    requires Identities(s, sgw) && k in s.pending && KindOf(k) != Create
    ensures Identities(Close(s, k, r), sgw)
  {
    assert s == s.(dedicated := s.dedicated);
    CloseOtherKeeps(s, k, s.dedicated, r, sgw);
  }

  lemma PutOtherKeeps(s: State, t: State, k: Key, sgw: nat -> string)
    requires Identities(s, sgw) && KindOf(k) != Create && k in t.pending
    requires t == s.(pending := s.pending[k := t.pending[k]], admitted := t.admitted)
    requires t.pending[k].bearers.Keys <= s.dedicated.Keys + (if k in s.pending then s.pending[k].bearers.Keys else {})
    ensures Identities(t, sgw)
  {
    forall l, e | Holds(t, l, e) ensures Owns(s, OfDedicated, e) {
      if l != k || e !in s.dedicated { assert Holds(s, l, e); }
    }
    DedicatedStepKeeps(s, t, sgw);
  }

  lemma MaybeCompleteUpdateKeeps(s: State, k: Key, failureFirst: bool, sgw: nat -> string)
    requires Identities(s, sgw) && k in s.pending && KindOf(k) == Update
    ensures Identities(MaybeCompleteUpdate(s, k, failureFirst), sgw)
  {
    CloseOtherKeeps(s, k, s.dedicated + s.pending[k].bearers, Response(ACCEPTED, map[]), sgw);
    CloseUnchangedKeeps(s, k, Response(REQUEST_REJECTED, map[]), sgw);
  }

  lemma ModifyResultKeeps(s: State, k: Key, e: Octet, accepted: bool, failureFirst: bool, sgw: nat -> string)
    requires Identities(s, sgw) && Matches(s, k, {Update, LocalUpdate}, e)
    ensures Identities(ModifyResult(s, k, e, accepted, failureFirst), sgw)
  {
    var b := s.pending[k].bearers[e];
    if KindOf(k) == Update {
      var s1 := PutBearer(s, k, e, b.(nasAccepted := true));
      PutOtherKeeps(s, s1, k, sgw);
      MaybeCompleteUpdateKeeps(s1, k, failureFirst, sgw);
      CloseUnchangedKeeps(s, k, Response(UE_REFUSES, map[]), sgw);
    } else {
      var t := ModifyResult(s, k, e, accepted, failureFirst);
      assert Holds(s, k, e);
      forall l, x | Holds(t, l, x) ensures Owns(s, OfDedicated, x) { assert Holds(s, l, x); }
      DedicatedStepKeeps(s, t, sgw);
    }
  }

  lemma ErabModifiedKeeps(s: State, k: Key, modified: set<Octet>, failed: set<Octet>, failureFirst: bool, sgw: nat -> string)
    requires Identities(s, sgw)
    ensures Identities(ErabModified(s, k, modified, failed, failureFirst), sgw)
  {
    if k in s.pending && KindOf(k) == Update {
      var tx := s.pending[k];
      var s1 := PutTx(s, k, tx.(bearers := map e | e in tx.bearers ::
        if e in failed then tx.bearers[e].(established := false, erabFailed := true)
        else if e in modified then tx.bearers[e].(established := true, erabFailed := false)
        else tx.bearers[e]));
      PutOtherKeeps(s, s1, k, sgw);
      MaybeCompleteUpdateKeeps(s1, k, failureFirst, sgw);
    }
  }

  lemma UpdateRequestKeeps(s: State, peer: string, teid: nat, n: nat, cs: seq<Change>, sgw: nat -> string)
    requires Identities(s, sgw)
    ensures Identities(UpdateBearerRequest(s, peer, teid, n, cs), sgw)
  {
    var k := Gtp(peer, Update, teid, n);
    var bs := UpdatedBearers(s.dedicated, IdOf(k), cs, ActiveS1(s));
    if k in s.pending || ConflictingUpdate(s, cs) || bs == map[] {
      SameIdentities(s, UpdateBearerRequest(s, peer, teid, n, cs), sgw);
    } else {
      PutOtherKeeps(s, Install(s, k, Tx(0, (0, 0, multiset{}), bs, Received, {}, false)), k, sgw);
    }
  }

  lemma DeleteRequestKeeps(s: State, peer: string, teid: nat, n: nat, ebis: set<Octet>, sgw: nat -> string)
    requires Identities(s, sgw)
    ensures Identities(DeleteBearerRequest(s, peer, teid, n, ebis), sgw)
  {
    var k := Gtp(peer, Delete, teid, n);
    var t := DeleteBearerRequest(s, peer, teid, n, ebis);
    if k !in s.pending && k in t.pending {
      PutOtherKeeps(s, t, k, sgw);
    } else {
      SameIdentities(s, t, sgw);
    }
  }

  lemma DeactivateKeeps(s: State, k: Key, e: Octet, sgw: nat -> string)
    requires Identities(s, sgw) && Matches(s, k, {Delete}, e)
    ensures Identities(DeactivateAccepted(s, k, e), sgw)
  {
    var s1 := PutBearer(s, k, e, s.pending[k].bearers[e].(nasAccepted := true));
    PutOtherKeeps(s, s1, k, sgw);
    var tx := s1.pending[k];
    if forall x :: x in tx.bearers ==> tx.bearers[x].nasAccepted {
      if ReleaseOverS1(s1, tx) {
        PutOtherKeeps(s1, PutTx(s1, k, tx.(cleanup := tx.bearers.Keys)), k, sgw);
      } else {
        CloseOtherKeeps(s1, k, s1.dedicated - tx.bearers.Keys, Response(ACCEPTED, map[]), sgw);
      }
    }
  }

  lemma DeleteReleasedKeeps(s: State, k: Key, released: set<Octet>, failed: set<Octet>, sgw: nat -> string)
    requires Identities(s, sgw)
    ensures Identities(DeleteReleased(s, k, released, failed), sgw)
  {
    if k in s.pending && KindOf(k) == Delete && s.pending[k].cleanup != {} {
      var o := EvaluateRelease(s.pending[k].cleanup, released, failed);
      CloseOtherKeeps(s, k, DeleteReleased(s, k, released, failed).dedicated, Response(o.cause, map[]), sgw);
    }
  }

  lemma LocalKeeps(s: State, e: Octet, pti: Octet, tfa: seq<Octet>, sgw: nat -> string)
    requires Identities(s, sgw)
    ensures Identities(LocalModification(s, e, pti, tfa), sgw)
    ensures Identities(LocalWithdrawn(s, e, pti), sgw)
  {
    var t := LocalModification(s, e, pti, tfa);
    if Local(e, pti) in t.pending && Local(e, pti) !in s.pending {
      PutOtherKeeps(s, t, Local(e, pti), sgw);
    }
    var w := LocalWithdrawn(s, e, pti);
    forall l, x | Holds(w, l, x) ensures Owns(s, OfDedicated, x) { assert Holds(s, l, x); }
    DedicatedStepKeeps(s, w, sgw);
  }

  // ---------------------------------------------------------------- PDN connectivity

  lemma PdnReserveKeeps(s: State, pti: Octet, apn: string, sgw: nat -> string)
    requires Identities(s, sgw)
    ensures Identities(PdnReserve(s, pti, apn), sgw)
  {
    var e := DefaultEbiFor(s);
    var t := PdnReserve(s, pti, apn);
    if apn !in s.pdns && s.pendingPdn.None? && e != 0 {
      var r := PdnRequest(e, pti, apn);
      forall o | Owns(s, o, e) ensures false { OwnedIsUsed(s, o, e); }
      forall o, x | Owns(t, o, x) ensures Owns(s, o, x) || (o == OfRequest(r) && x == e) {
        if o.OfDedicated? && x !in s.dedicated { var l :| Holds(t, l, x); assert Holds(s, l, x); }
      }
      MovesKeep(s, t, OfRequest(r), OfRequest(r), {e});
    }
  }

  lemma PdnInstallKeeps(s: State, r: PdnRequest, sgw: nat -> string)
    requires Identities(s, sgw)
    ensures Identities(PdnInstall(s, r), sgw)
  {
    var t := PdnInstall(s, r);
    forall o, x | Owns(t, o, x) ensures Owns(s, o, x) || (o == OfPendingPdn && Owns(s, OfRequest(r), x)) {
      if o.OfDedicated? && x !in s.dedicated { var l :| Holds(t, l, x); assert Holds(s, l, x); }
    }
    if r in s.inFlight {
      MovesKeep(s, t, OfRequest(r), OfPendingPdn, {});
    }
  }

  lemma PendingPdnOwnsAlone(s: State)
    requires SoleOwner(s)
    ensures forall o :: s.pendingPdn.Some? && s.pendingPdn.value.pdn.ebi != 0 && Owns(s, o, s.pendingPdn.value.pdn.ebi)
                        ==> o == OfPendingPdn
  {
    if s.pendingPdn.Some? && s.pendingPdn.value.pdn.ebi != 0 {
      assert Owns(s, OfPendingPdn, s.pendingPdn.value.pdn.ebi);
    }
  }

  // Steps that only give identities up, keeping every reservation that still has an owner.
  lemma GivingUpKeeps(s: State, t: State, sgw: nat -> string)
    requires Identities(s, sgw)
    requires t.defaultEbi == s.defaultEbi && t.defaultApn == s.defaultApn
    requires forall o, e :: Owns(t, o, e) ==> Owns(s, o, e)
    requires t.inFlight <= s.inFlight && (t.pendingPdn == s.pendingPdn || t.pendingPdn.None? || t.pendingPdn.value.pdn.ebi == 0)
    requires forall k :: IsCreate(t, k) ==> IsCreate(s, k) && t.pending[k] == s.pending[k]
    requires forall e, id :: ReservedFor(s, e, id) && !ReservedFor(t, e, id) ==>
               s.pendingPdn.Some? && t.pendingPdn.None? && e == s.pendingPdn.value.pdn.ebi != 0
    ensures Identities(t, sgw)
  {
    MovesKeep(s, t, OfDedicated, OfDedicated, {});
    PendingPdnOwnsAlone(s);
    forall k, e | IsCreate(t, k) && e in t.pending[k].bearers ensures ReservedFor(t, e, IdOf(k)) {
      assert Owns(s, OfCreate(k), e);
      assert ReservedFor(s, e, IdOf(k));
    }
    forall r | r in t.inFlight ensures ReservedFor(t, r.ebi, PdnId(r.pti, r.apn)) {
      assert Owns(s, OfRequest(r), r.ebi);
      assert ReservedFor(s, r.ebi, PdnId(r.pti, r.apn));
    }
  }

  lemma NonPdnOwners(s: State, t: State, o: Owner, e: Octet)
    requires t.pending == s.pending && t.dedicated.Keys <= s.dedicated.Keys && t.defaultEbi == s.defaultEbi
    requires (o.OfDefault? || o.OfCreate? || o.OfDedicated?) && Owns(t, o, e)
    ensures Owns(s, o, e)
  {
    if o.OfDedicated? && e !in s.dedicated { var l :| Holds(t, l, e); assert Holds(s, l, e); }
  }

  lemma DedicatedRemovedKeeps(s: State, t: State, sgw: nat -> string)
    requires Identities(s, sgw)
    requires t == s.(dedicated := t.dedicated, access := t.access, inFlight := t.inFlight)
    requires t.dedicated.Keys <= s.dedicated.Keys && t.inFlight <= s.inFlight
    ensures Identities(t, sgw)
  {
    forall o, e | Owns(t, o, e) ensures Owns(s, o, e) {
      if o.OfDefault? || o.OfCreate? || o.OfDedicated? { NonPdnOwners(s, t, o, e); }
    }
    GivingUpKeeps(s, t, sgw);
  }

  lemma PendingPdnKeeps(s: State, t: State, sgw: nat -> string)
    requires Identities(s, sgw)
    requires t == PendingPdnDropped(s) || (s.pendingPdn.None? && exists pti, apn :: t == EsmInformation(s, pti, apn))
    ensures Identities(t, sgw)
  {
    forall o, e | Owns(t, o, e) ensures Owns(s, o, e) {
      if o.OfDefault? || o.OfCreate? || o.OfDedicated? { NonPdnOwners(s, t, o, e); }
    }
    GivingUpKeeps(s, t, sgw);
  }

  lemma PdnProgressKeeps(s: State, apn: string, p: Pdn, sgw: nat -> string)
    requires Identities(s, sgw)
    ensures Identities(PdnProgress(s, apn, p), sgw)
  {
    var t := PdnProgress(s, apn, p);
    forall o, e | Owns(t, o, e) ensures Owns(s, o, e) {
      if o.OfDefault? || o.OfCreate? || o.OfDedicated? { NonPdnOwners(s, t, o, e); }
    }
    GivingUpKeeps(s, t, sgw);
  }

  lemma PdnRemovedKeeps(s: State, apn: string, sgw: nat -> string)
    requires Identities(s, sgw)
    ensures Identities(PdnRemoved(s, apn), sgw)
  {
    var t := PdnRemoved(s, apn);
    forall o, e | Owns(t, o, e) ensures Owns(s, o, e) {
      if o.OfDedicated? && e !in s.dedicated { var l :| Holds(t, l, e); assert Holds(s, l, e); }
    }
    GivingUpKeeps(s, t, sgw);
  }

  lemma MaterialiseKeeps(s: State, sgw: nat -> string)
    requires Identities(s, sgw)
    ensures Identities(Materialise(s), sgw)
  {
    var t := Materialise(s);
    if t != s {
      forall o, e | Owns(t, o, e) ensures Owns(s, o, e) || (o == OfPdn(s.defaultApn) && e == s.defaultEbi) {
        if o.OfDefault? || o.OfCreate? || o.OfDedicated? { NonPdnOwners(s, t, o, e); }
      }
      assert Owns(s, OfDefault, s.defaultEbi);
      MovesKeep(s, t, OfPdn(s.defaultApn), OfPdn(s.defaultApn), {s.defaultEbi});
    }
  }

  // What the S-GW has to do for an accepted Create Session Response to be harmless: answer with
  // the reserved EBI, or with one in range that belongs to nobody else.
  ghost predicate SessionEbiIsFree(s: State, ebi: Octet) {
    s.pendingPdn.None? || ebi == 0
    || (MIN_EBI <= ebi <= MAX_EBI
        && forall o :: Owns(s, o, ebi) ==> o == OfPendingPdn || SameSession(s, o, OfPdn(s.pendingPdn.value.apn)))
  }

  lemma EchoedEbiIsFree(s: State, sgw: nat -> string)
    requires Identities(s, sgw) && s.pendingPdn.Some?
    ensures SessionEbiIsFree(s, s.pendingPdn.value.pdn.ebi)
  {
    var e := s.pendingPdn.value.pdn.ebi;
    forall o | e != 0 && Owns(s, o, e) ensures o == OfPendingPdn {
      assert Owns(s, OfPendingPdn, e);
    }
    if e != 0 { assert Owns(s, OfPendingPdn, e); }
  }

  lemma SessionCreatedKeeps(s: State, ebi: Octet, sgw: nat -> string)
    requires Identities(s, sgw) && SessionEbiIsFree(s, ebi)
    ensures Identities(SessionCreated(s, ebi), sgw)
  {
    if s.pendingPdn.Some? && ebi == 0 {
      PendingPdnKeeps(s, PendingPdnDropped(s), sgw);
    } else if s.pendingPdn.Some? {
      var p := s.pendingPdn.value;
      var t := SessionCreated(s, ebi);
      forall o, e | Owns(t, o, e) ensures Owns(s, o, e) || (o == OfPdn(p.apn) && e == ebi) {
        if o.OfDefault? || o.OfCreate? || o.OfDedicated? { NonPdnOwners(s, t, o, e); }
      }
      SessionTransfers(s, t, ebi);
      PendingPdnOwnsAlone(s);
      forall e, id | ReservedFor(s, e, id) && !ReservedFor(t, e, id) ensures e == ebi || e == p.pdn.ebi {}
      forall k, e | IsCreate(t, k) && e in t.pending[k].bearers ensures ReservedFor(t, e, IdOf(k)) {
        assert Owns(s, OfCreate(k), e);
        assert ReservedFor(s, e, IdOf(k));
      }
      forall r | r in t.inFlight ensures ReservedFor(t, r.ebi, PdnId(r.pti, r.apn)) {
        assert Owns(s, OfRequest(r), r.ebi);
        assert ReservedFor(s, r.ebi, PdnId(r.pti, r.apn));
      }
    }
  }

  lemma SessionTransfers(s: State, t: State, ebi: Octet)
    requires SoleOwner(s) && InRange(s) && s.pendingPdn.Some? && SessionEbiIsFree(s, ebi) && ebi != 0
    requires t.defaultApn == s.defaultApn && t.pendingPdn.None?
    requires forall o, e :: Owns(t, o, e) ==> Owns(s, o, e) || (o == OfPdn(s.pendingPdn.value.apn) && e == ebi)
    ensures SoleOwner(t) && InRange(t)
  {
    var to := OfPdn(s.pendingPdn.value.apn);
    forall o, p, e | Owns(t, o, e) && Owns(t, p, e) ensures SameSession(t, o, p) {
      if e == ebi && (o == to || p == to) {
        assert o == to || Owns(s, o, e);
        assert p == to || Owns(s, p, e);
      } else {
        assert Owns(s, o, e) && Owns(s, p, e);
      }
    }
  }

  // An S-GW that answers with another owner's EBI breaks the single ownership, and only then.
  lemma SessionCreatedKeepsExactlyWhen(s: State, ebi: Octet, sgw: nat -> string)
    requires Identities(s, sgw)
    ensures Identities(SessionCreated(s, ebi), sgw) <==> SessionEbiIsFree(s, ebi)
  {
    if SessionEbiIsFree(s, ebi) {
      SessionCreatedKeeps(s, ebi, sgw);
    } else {
      var t := SessionCreated(s, ebi);
      var to := OfPdn(s.pendingPdn.value.apn);
      assert Owns(t, to, ebi);
      if MIN_EBI <= ebi <= MAX_EBI {
        var o :| Owns(s, o, ebi) && o != OfPendingPdn && !SameSession(s, o, to);
        assert Owns(t, o, ebi) by {
          if o.OfDedicated? && ebi !in s.dedicated { var l :| Holds(s, l, ebi); assert Holds(t, l, ebi); }
        }
        assert !SameSession(t, o, to);
      }
    }
  }

  // What single ownership means for the maps of the UE: default bearers, active dedicated bearers
  // and the bearers of pending Creates are pairwise disjoint and lie in 5..15.
  lemma IdentitiesAreDisjoint(s: State, sgw: nat -> string)
    requires Identities(s, sgw)
    ensures forall a, b :: a in s.pdns && b in s.pdns && s.pdns[a].ebi == s.pdns[b].ebi ==> a == b
    ensures forall a :: a in s.pdns ==> MIN_EBI <= s.pdns[a].ebi <= MAX_EBI && s.pdns[a].ebi !in s.dedicated
    ensures forall a, k :: a in s.pdns && IsCreate(s, k) ==> s.pdns[a].ebi !in s.pending[k].bearers
    ensures forall e :: e in s.dedicated ==> MIN_EBI <= e <= MAX_EBI
    ensures forall k, e :: IsCreate(s, k) && e in s.pending[k].bearers ==>
              MIN_EBI <= e <= MAX_EBI && e !in s.dedicated && ReservedFor(s, e, IdOf(k))
    ensures forall k, l, e :: IsCreate(s, k) && IsCreate(s, l) && e in s.pending[k].bearers && e in s.pending[l].bearers ==>
              k == l
  {
    forall a | a in s.pdns ensures Owns(s, OfPdn(a), s.pdns[a].ebi) {}
    forall e | e in s.dedicated ensures Owns(s, OfDedicated, e) {}
    forall k, e | IsCreate(s, k) && e in s.pending[k].bearers ensures Owns(s, OfCreate(k), e) {}
    hide Owns;
    forall a, b | a in s.pdns && b in s.pdns && s.pdns[a].ebi == s.pdns[b].ebi ensures a == b {
      assert SameSession(s, OfPdn(a), OfPdn(b));
    }
    forall a | a in s.pdns ensures s.pdns[a].ebi !in s.dedicated {
      assert !SameSession(s, OfPdn(a), OfDedicated);
    }
    forall a, k | a in s.pdns && IsCreate(s, k) ensures s.pdns[a].ebi !in s.pending[k].bearers {
      assert !SameSession(s, OfPdn(a), OfCreate(k));
    }
    forall k, e | IsCreate(s, k) && e in s.pending[k].bearers ensures e !in s.dedicated {
      assert !SameSession(s, OfCreate(k), OfDedicated);
    }
    forall k, l, e | IsCreate(s, k) && IsCreate(s, l) && e in s.pending[k].bearers && e in s.pending[l].bearers
      ensures k == l
    {
      assert SameSession(s, OfCreate(k), OfCreate(l));
    }
  }

  // ---------------------------------------------------------------- every step, every run

  // What the environment must respect: one S-GW per TEID, and a harmless EBI in Create Session Responses.
  ghost predicate Lawful(s: State, ev: Event, sgw: nat -> string) {
    && (ev.CreateArrives? ==> ev.peer == sgw(ev.req.teid))
    && (ev.SessionAnswered? ==> SessionEbiIsFree(s, ev.ebi))
  }

  ghost predicate LawfulRun(s: State, evs: seq<Event>, sgw: nat -> string)
    decreases |evs|
  {
    evs == [] || (Lawful(s, evs[0], sgw) && LawfulRun(Step(s, evs[0]), evs[1..], sgw))
  }

  lemma MarkKeeps(s: State, k: Key, to: CreateState, sgw: nat -> string)
    requires Identities(s, sgw) && IsCreate(s, k)
    ensures Identities(MarkProgress(s, k, to), sgw)
  {
    if !Terminal(to) { PutTxKeeps(s, k, s.pending[k].(state := to), sgw); }
  }

  lemma FailCreateKeeps(s: State, k: Key, cause: Octet, sgw: nat -> string)
    requires Identities(s, sgw) && IsCreate(s, k)
    ensures Identities(FailCreate(s, k, cause), sgw)
  {
    CloseCreateKeeps(s, FailCreate(s, k, cause), k, sgw);
  }

  lemma AfterExpiryKeeps(s: State, k: Key, sgw: nat -> string)
    requires Identities(s, sgw)
    ensures Identities(AfterExpiry(s, k), sgw)
  {
    hide Identities;
    if IsCreate(s, k) { MaybeCompleteKeeps(s, k, sgw); }
  }

  predicate ResultEvent(ev: Event) {
    ev.Activation? || ev.SetupAnswered? || ev.Started? || ev.Expired? || ev.ExpiryHandled?
  }

  lemma ResultStepKeeps(s: State, ev: Event, sgw: nat -> string)
    requires Identities(s, sgw) && ResultEvent(ev)
    ensures Identities(StepCreate(s, ev), sgw)
  {
    hide ActivationResult, SetupResult, TimerStart, TimerExpiry, AfterExpiry, Identities, Matches;
    match ev
    case Activation(k, e, ok, cause) =>
      if Matches(s, k, {Create}, e) { ActivationResultKeeps(s, k, e, ok, cause, sgw); }
    case SetupAnswered(k, e, ok, enb, ran) =>
      if Matches(s, k, {Create}, e) { SetupResultKeeps(s, k, e, ok, enb, ran, sgw); }
    case Started(k, e, p) => TimerStepsKeep(s, k, e, 0, p, sgw);
    case Expired(k, e, g) => TimerStepsKeep(s, k, e, g, [], sgw);
    case ExpiryHandled(k) => AfterExpiryKeeps(s, k, sgw);
  }

  lemma StepCreateKeeps(s: State, ev: Event, sgw: nat -> string)
    requires Identities(s, sgw) && Lawful(s, ev, sgw)
    ensures Identities(StepCreate(s, ev), sgw)
  {
    hide CreateBearerRequest, MarkProgress, Resume, FailCreate, CleanupDone, CleanupError, Identities, IsCreate, Lawful;
    if ResultEvent(ev) {
      ResultStepKeeps(s, ev, sgw);
      hide StepCreate;
    } else {
      match ev
      case CreateArrives(peer, req, link, pick) => CreateBearerRequestKeeps(s, peer, req, link, pick, sgw);
      case Marked(k, to) => if IsCreate(s, k) { MarkKeeps(s, k, to, sgw); }
      case Resumed(k) => ResumeKeeps(s, k, sgw);
      case CreateFails(k, cause) => if IsCreate(s, k) { FailCreateKeeps(s, k, cause, sgw); }
      case CleanedUp(k, r, f) => CleanupKeeps(s, k, r, f, sgw);
      case CleanupNotSent(k) => CleanupKeeps(s, k, {}, {}, sgw);
      case _ =>
    }
  }

  lemma ResumeKeeps(s: State, k: Key, sgw: nat -> string)
    requires Identities(s, sgw)
    ensures Identities(Resume(s, k), sgw)
  {
    hide SoleOwner, InRange, Backed, OneSgw, LinkedActive, LinkedReady, Owned, ActiveS1, BearerAnswers;
    if IsCreate(s, k) {
      var tx := s.pending[k];
      if ActiveS1(s) && !LinkedActive(s, tx.linked) {
        CloseCreateKeeps(s, Resume(s, k), k, sgw);
      } else {
        PutTxKeeps(s, k, tx.(state := Resume(s, k).pending[k].state), sgw);
      }
    }
  }

  lemma ActivationResultKeeps(s: State, k: Key, e: Octet, accepted: bool, cause: Octet, sgw: nat -> string)
    requires Identities(s, sgw) && Matches(s, k, {Create}, e)
    ensures Identities(ActivationResult(s, k, e, accepted, cause), sgw)
  {
    var b1 := s.pending[k].bearers[e].(timer := T.Stop(s.pending[k].bearers[e].timer));
    var b2 := if accepted then b1.(nasAccepted := true) else b1.(nasRejected := true, ran := EsmCause(cause));
    PutBearerKeeps(s, k, e, b2, sgw);
    MaybeCompleteKeeps(PutBearer(s, k, e, b2), k, sgw);
  }

  lemma SetupResultKeeps(s: State, k: Key, e: Octet, success: bool, enb: Transport, ran: RanNasCause, sgw: nat -> string)
    requires Identities(s, sgw) && Matches(s, k, {Create}, e)
    ensures Identities(SetupResult(s, k, e, success, enb, ran), sgw)
  {
    var b := s.pending[k].bearers[e];
    var b1 := b.(enb := enb, established := success, erabFailed := !success, ran := if success then b.ran else ran);
    PutBearerKeeps(s, k, e, b1, sgw);
    MaybeCompleteKeeps(PutBearer(s, k, e, b1), k, sgw);
  }

  lemma TimerStepsKeep(s: State, k: Key, e: Octet, g: nat, p: T.Payload, sgw: nat -> string)
    requires Identities(s, sgw)
    ensures Identities(TimerStart(s, k, e, p), sgw) && Identities(TimerExpiry(s, k, e, g), sgw)
  {
    if IsCreate(s, k) && e in s.pending[k].bearers {
      PutBearerKeeps(s, k, e, TimerStart(s, k, e, p).pending[k].bearers[e], sgw);
      PutBearerKeeps(s, k, e, TimerExpiry(s, k, e, g).pending[k].bearers[e], sgw);
    }
  }

  lemma CleanupKeeps(s: State, k: Key, released: set<Octet>, failed: set<Octet>, sgw: nat -> string)
    requires Identities(s, sgw)
    ensures Identities(CleanupDone(s, k, released, failed), sgw) && Identities(CleanupError(s, k), sgw)
  {
    if IsCreate(s, k) && s.pending[k].cleanup != {} {
      var tx := s.pending[k];
      ReplaceBearersKeeps(s, k, AfterCleanup(tx, EvaluateRelease(tx.cleanup, released, failed)), sgw);
      ReplaceBearersKeeps(s, k, tx.(bearers := map e | e in tx.bearers :: Torn(tx.bearers[e], false)), sgw);
    }
  }

  lemma FailUpdateKeeps(s: State, k: Key, cause: Octet, sgw: nat -> string)
    requires Identities(s, sgw)
    ensures Identities(FailUpdate(s, k, cause), sgw) && Identities(ModifySent(s, k), sgw)
  {
    if k in s.pending && KindOf(k) == Update {
      CloseUnchangedKeeps(s, k, Response(cause, map[]), sgw);
      PutOtherKeeps(s, ModifySent(s, k), k, sgw);
    }
  }

  lemma StepUpdateKeeps(s: State, ev: Event, sgw: nat -> string)
    requires Identities(s, sgw)
    ensures Identities(StepUpdate(s, ev), sgw)
  {
    hide UpdateBearerRequest, ModifyResult, ErabModified, LocalModification, LocalWithdrawn, ModifySent, FailUpdate;
    hide Identities, Matches;
    match ev
    case UpdateArrives(peer, teid, n, cs) => UpdateRequestKeeps(s, peer, teid, n, cs, sgw);
    case ModifyRegistered(k) => FailUpdateKeeps(s, k, 0, sgw);
    case Modification(k, e, ok, ff) =>
      if Matches(s, k, {Update, LocalUpdate}, e) { ModifyResultKeeps(s, k, e, ok, ff, sgw); }
    case ModifyAnswered(k, m, f, ff) => ErabModifiedKeeps(s, k, m, f, ff, sgw);
    case UpdateFails(k, cause) => FailUpdateKeeps(s, k, cause, sgw);
    case LocalArrives(e, pti, tfa) => LocalKeeps(s, e, pti, tfa, sgw);
    case LocalFails(e, pti) => LocalKeeps(s, e, pti, [], sgw);
    case _ =>
  }

  lemma DeleteEndsKeep(s: State, k: Key, sgw: nat -> string)
    requires Identities(s, sgw)
    ensures Identities(DeleteReleaseError(s, k), sgw) && Identities(DeleteSendFailed(s, k), sgw)
  {
    SameIdentities(s, DeleteSendFailed(s, k), sgw);
    if k in s.pending && KindOf(k) == Delete { CloseUnchangedKeeps(s, k, Response(REQUEST_DENIED, map[]), sgw); }
  }

  lemma StepDeleteKeeps(s: State, ev: Event, sgw: nat -> string)
    requires Identities(s, sgw)
    ensures Identities(StepDelete(s, ev), sgw)
  {
    hide DeleteBearerRequest, DeactivateAccepted, DeleteReleased, DeleteReleaseError, DeleteSendFailed;
    hide Identities, Matches;
    match ev
    case DeleteArrives(peer, teid, n, ebis) => DeleteRequestKeeps(s, peer, teid, n, ebis, sgw);
    case DeleteNotSent(k) => DeleteEndsKeep(s, k, sgw);
    case Deactivation(k, e) => if Matches(s, k, {Delete}, e) { DeactivateKeeps(s, k, e, sgw); }
    case DeleteAnswered(k, r, f) => DeleteReleasedKeeps(s, k, r, f, sgw);
    case DeleteFails(k) => DeleteEndsKeep(s, k, sgw);
    case _ =>
  }

  lemma InformationKeeps(s: State, pti: Octet, apn: string, sgw: nat -> string)
    requires Identities(s, sgw)
    ensures Identities(EsmInformation(s, pti, apn), sgw)
  {
    hide Identities;
    if s.pendingPdn.None? { PendingPdnKeeps(s, EsmInformation(s, pti, apn), sgw); }
  }

  lemma StepPdnKeeps(s: State, ev: Event, sgw: nat -> string)
    requires Identities(s, sgw) && Lawful(s, ev, sgw)
    ensures Identities(StepPdn(s, ev), sgw)
  {
    hide SessionEbiIsFree, PdnReserve, PdnInstall, SessionCreated, Materialise, PdnProgress, PdnRemoved, Identities;
    hide PendingPdnDropped, EsmInformation;
    match ev
    case PdnArrives(pti, apn) => PdnReserveKeeps(s, pti, apn, sgw);
    case PdnInstalls(r) => PdnInstallKeeps(s, r, sgw);
    case PdnAbandons(r) => DedicatedRemovedKeeps(s, PdnAbandon(s, r), sgw);
    case InformationRequested(pti, apn) =>
      InformationKeeps(s, pti, apn, sgw);
    case PendingPdnFails => PendingPdnKeeps(s, PendingPdnDropped(s), sgw);
    case SessionAnswered(e) => SessionCreatedKeeps(s, e, sgw);
    case DefaultMaterialised => MaterialiseKeeps(s, sgw);
    case PdnAdvances(apn, p) => PdnProgressKeeps(s, apn, p, sgw);
    case LinkedRemoved(es) => DedicatedRemovedKeeps(s, DedicatedRemoved(s, es), sgw);
    case PdnRemoval(apn) => PdnRemovedKeeps(s, apn, sgw);
    case AccessMoves(a) => DedicatedRemovedKeeps(s, AccessChanged(s, a), sgw);
    case _ =>
  }

  lemma StepKeepsIdentities(s: State, ev: Event, sgw: nat -> string)
    requires Identities(s, sgw) && Lawful(s, ev, sgw)
    ensures Identities(Step(s, ev), sgw)
  {
    if CreateEvent(ev) {
      StepCreateKeeps(s, ev, sgw);
    } else if PdnEvent(ev) {
      StepPdnKeeps(s, ev, sgw);
    } else if DeleteEvent(ev) {
      StepDeleteKeeps(s, ev, sgw);
    } else {
      StepUpdateKeeps(s, ev, sgw);
    }
  }
}
