/**
 * The invariant of the UE context, region by region: identities have one owner each and the S11
 * books balance, and what was sent or cached is never taken back.
 */
module BearerSound {
  import opened Common
  import opened BearerMachine
  import opened BearerInvariants
  import opened BearerLedger
  import T = ActivationTimer

  ghost predicate Sound(s: State, sgw: nat -> string) {
    Identities(s, sgw) && Books(s)
  }

  // `t` may follow `s`.
  ghost predicate Follows(s: State, t: State, sgw: nat -> string) {
    Sound(t, sgw) && Extends(s, t)
  }

  lemma Shapes(s: State, sgw: nat -> string)
    requires Sound(s, sgw)
    ensures CreateShape(s) && CacheSound(s)
  {
    IdentitiesHoldShapes(s, sgw);
    BooksHoldShapes(s);
  }

  lemma Next(s: State, t: State, sgw: nat -> string)
    requires Sound(s, sgw) && Identities(t, sgw) && Grows(s, t)
    ensures Follows(s, t, sgw)
  {
    hide Identities, Books, Extends;
  }

  lemma Stays(s: State, sgw: nat -> string)
    requires Sound(s, sgw)
    ensures Follows(s, s, sgw)
  {
    hide Identities, Books;
  }

  // ---------------------------------------------------------------- Create

  lemma RequestFollows(s: State, peer: string, req: CreateRequest, link: Option<Linked>, pick: Key, sgw: nat -> string)
    requires Sound(s, sgw) && peer == sgw(req.teid)
    ensures Follows(s, CreateBearerRequest(s, peer, req, link, pick), sgw)
  {
    hide CreateBearerRequest, Grows, Books, Identities, Extends, CreateShape, CacheSound;
    Shapes(s, sgw);
    CreateBearerRequestKeeps(s, peer, req, link, pick, sgw);
    CreateBearerRequestBooks(s, peer, req, link, pick);
    Next(s, CreateBearerRequest(s, peer, req, link, pick), sgw);
  }

  lemma ResumptionFollows(s: State, k: Key, sgw: nat -> string)
    requires Sound(s, sgw)
    ensures Follows(s, Resume(s, k), sgw)
  {
    hide Resume, Grows, Books, Identities, Extends, CreateShape, CacheSound;
    Shapes(s, sgw);
    ResumeKeeps(s, k, sgw);
    ResumeBooks(s, k);
    Next(s, Resume(s, k), sgw);
  }

  lemma FailureFollows(s: State, k: Key, cause: Octet, sgw: nat -> string)
    requires Sound(s, sgw) && (k in s.pending ==> KindOf(k) == Create)
    ensures Follows(s, FailCreate(s, k, cause), sgw)
  {
    hide Grows, Books, Identities, Extends, CreateShape, CacheSound, Close, CloseFinal, ReleaseOwned, BearerAnswers;
    Shapes(s, sgw);
    Stays(s, sgw);
    if IsCreate(s, k) {
      FailCreateKeeps(s, k, cause, sgw);
      FailCreateBooks(s, k, cause);
      Next(s, FailCreate(s, k, cause), sgw);
    }
  }

  lemma ActivationFollows(s: State, k: Key, e: Octet, ok: bool, cause: Octet, sgw: nat -> string)
    requires Sound(s, sgw) && Matches(s, k, {Create}, e)
    ensures Follows(s, ActivationResult(s, k, e, ok, cause), sgw)
  {
    hide ActivationResult, Grows, Books, Identities, Extends, CreateShape, CacheSound;
    Shapes(s, sgw);
    ActivationResultKeeps(s, k, e, ok, cause, sgw);
    ActivationResultBooks(s, k, e, ok, cause);
    Next(s, ActivationResult(s, k, e, ok, cause), sgw);
  }

  lemma SetupFollows(s: State, k: Key, e: Octet, ok: bool, enb: Transport, ran: RanNasCause, sgw: nat -> string)
    requires Sound(s, sgw) && Matches(s, k, {Create}, e)
    ensures Follows(s, SetupResult(s, k, e, ok, enb, ran), sgw)
  {
    hide SetupResult, Grows, Books, Identities, Extends, CreateShape, CacheSound;
    Shapes(s, sgw);
    SetupResultKeeps(s, k, e, ok, enb, ran, sgw);
    SetupResultBooks(s, k, e, ok, enb, ran);
    Next(s, SetupResult(s, k, e, ok, enb, ran), sgw);
  }

  lemma TimersFollow(s: State, k: Key, e: Octet, g: nat, p: T.Payload, sgw: nat -> string)
    requires Sound(s, sgw)
    ensures Follows(s, TimerStart(s, k, e, p), sgw) && Follows(s, TimerExpiry(s, k, e, g), sgw)
  {
    hide TimerStart, TimerExpiry, Grows, Books, Identities, Extends, CreateShape, CacheSound;
    Shapes(s, sgw);
    TimerStepsKeep(s, k, e, g, p, sgw);
    TimerBooks(s, k, e, g, p);
    Next(s, TimerStart(s, k, e, p), sgw);
    Next(s, TimerExpiry(s, k, e, g), sgw);
  }

  lemma CleanupFollows(s: State, k: Key, released: set<Octet>, failed: set<Octet>, sgw: nat -> string)
    requires Sound(s, sgw)
    ensures Follows(s, CleanupDone(s, k, released, failed), sgw) && Follows(s, CleanupError(s, k), sgw)
  {
    hide CleanupDone, CleanupError, Grows, Books, Identities, Extends, CreateShape, CacheSound;
    Shapes(s, sgw);
    CleanupKeeps(s, k, released, failed, sgw);
    CleanupBooks(s, k, released, failed);
    Next(s, CleanupDone(s, k, released, failed), sgw);
    Next(s, CleanupError(s, k), sgw);
  }

  // ---------------------------------------------------------------- Update and UE-initiated modification

  lemma UpdateRequestFollows(s: State, peer: string, teid: nat, n: nat, cs: seq<Change>, sgw: nat -> string)
    requires Sound(s, sgw)
    ensures Follows(s, UpdateBearerRequest(s, peer, teid, n, cs), sgw)
  {
    hide UpdateBearerRequest, Grows, Books, Identities, Extends;
    UpdateRequestKeeps(s, peer, teid, n, cs, sgw);
    UpdateRequestBooks(s, peer, teid, n, cs);
    Next(s, UpdateBearerRequest(s, peer, teid, n, cs), sgw);
  }

  lemma ModificationFollows(s: State, k: Key, e: Octet, ok: bool, ff: bool, sgw: nat -> string)
    requires Sound(s, sgw) && Matches(s, k, {Update, LocalUpdate}, e)
    ensures Follows(s, ModifyResult(s, k, e, ok, ff), sgw)
  {
    hide ModifyResult, Grows, Books, Identities, Extends;
    ModifyResultKeeps(s, k, e, ok, ff, sgw);
    ModifyResultBooks(s, k, e, ok, ff);
    Next(s, ModifyResult(s, k, e, ok, ff), sgw);
  }

  lemma ErabModifyFollows(s: State, k: Key, m: set<Octet>, f: set<Octet>, ff: bool, sgw: nat -> string)
    requires Sound(s, sgw)
    ensures Follows(s, ErabModified(s, k, m, f, ff), sgw)
  {
    hide ErabModified, Grows, Books, Identities, Extends;
    ErabModifiedKeeps(s, k, m, f, ff, sgw);
    ErabModifiedBooks(s, k, m, f, ff);
    Next(s, ErabModified(s, k, m, f, ff), sgw);
  }

  lemma UpdateEndsFollow(s: State, k: Key, cause: Octet, sgw: nat -> string)
    requires Sound(s, sgw)
    ensures Follows(s, FailUpdate(s, k, cause), sgw) && Follows(s, ModifySent(s, k), sgw)
  {
    hide FailUpdate, ModifySent, Grows, Books, Identities, Extends;
    FailUpdateKeeps(s, k, cause, sgw);
    FailUpdateBooks(s, k, cause);
    Next(s, FailUpdate(s, k, cause), sgw);
    Next(s, ModifySent(s, k), sgw);
  }

  lemma LocalFollows(s: State, e: Octet, pti: Octet, tfa: seq<Octet>, sgw: nat -> string)
    requires Sound(s, sgw)
    ensures Follows(s, LocalModification(s, e, pti, tfa), sgw)
  {
    hide LocalModification, LocalWithdrawn, Grows, Books, Identities, Extends;
    LocalKeeps(s, e, pti, tfa, sgw);
    LocalBooks(s, e, pti, tfa);
    Next(s, LocalModification(s, e, pti, tfa), sgw);
  }

  // ---------------------------------------------------------------- Delete

  lemma DeleteRequestFollows(s: State, peer: string, teid: nat, n: nat, ebis: set<Octet>, sgw: nat -> string)
    requires Sound(s, sgw)
    ensures Follows(s, DeleteBearerRequest(s, peer, teid, n, ebis), sgw)
  {
    hide DeleteBearerRequest, Grows, Books, Identities, Extends;
    DeleteRequestKeeps(s, peer, teid, n, ebis, sgw);
    DeleteRequestBooks(s, peer, teid, n, ebis);
    Next(s, DeleteBearerRequest(s, peer, teid, n, ebis), sgw);
  }

  lemma DeactivationFollows(s: State, k: Key, e: Octet, sgw: nat -> string)
    requires Sound(s, sgw) && Matches(s, k, {Delete}, e)
    ensures Follows(s, DeactivateAccepted(s, k, e), sgw)
  {
    hide DeactivateAccepted, Grows, Books, Identities, Extends;
    DeactivateKeeps(s, k, e, sgw);
    DeactivateBooks(s, k, e);
    Next(s, DeactivateAccepted(s, k, e), sgw);
  }

  lemma DeleteEndsFollow(s: State, k: Key, released: set<Octet>, failed: set<Octet>, sgw: nat -> string)
    requires Sound(s, sgw)
    ensures Follows(s, DeleteReleased(s, k, released, failed), sgw) && Follows(s, DeleteReleaseError(s, k), sgw)
    ensures Follows(s, DeleteSendFailed(s, k), sgw)
  {
    hide DeleteReleased, DeleteReleaseError, DeleteSendFailed, Grows, Books, Identities, Extends, DeniedEarly;
    DeleteReleasedKeeps(s, k, released, failed, sgw);
    DeleteEndsKeep(s, k, sgw);
    DeleteClosedBooks(s, k, released, failed);
    DeleteNotSentBooks(s, k);
    Next(s, DeleteReleased(s, k, released, failed), sgw);
    Next(s, DeleteReleaseError(s, k), sgw);
  }

  // ---------------------------------------------------------------- PDN connectivity

  lemma QuietGrows(s: State, t: State)
    requires SameS11(s, t)
    ensures Grows(s, t)
  {
    hide Grows;
    QuietStep(s, t);
  }

  lemma PdnFollows(s: State, pti: Octet, apn: string, r: PdnRequest, sgw: nat -> string)
    requires Sound(s, sgw)
    ensures Follows(s, PdnReserve(s, pti, apn), sgw) && Follows(s, PdnInstall(s, r), sgw)
    ensures Follows(s, PendingPdnDropped(s), sgw)
  {
    hide PdnReserve, PdnInstall, PendingPdnDropped, PdnAbandon, EsmInformation, SessionCreated;
    hide Grows, Books, Identities, Extends, SameS11;
    PendingPdnStepsAreQuiet(s, pti, apn, r, 0);
    PdnReserveKeeps(s, pti, apn, sgw);
    PdnInstallKeeps(s, r, sgw);
    PendingPdnKeeps(s, PendingPdnDropped(s), sgw);
    QuietGrows(s, PdnReserve(s, pti, apn));
    QuietGrows(s, PdnInstall(s, r));
    QuietGrows(s, PendingPdnDropped(s));
    Next(s, PdnReserve(s, pti, apn), sgw);
    Next(s, PdnInstall(s, r), sgw);
    Next(s, PendingPdnDropped(s), sgw);
  }

  // A Create Session Response keeps the invariant exactly when its EBI is free for the PDN.
  lemma SessionFollowsExactlyWhen(s: State, ebi: Octet, sgw: nat -> string)
    requires Sound(s, sgw)
    ensures Follows(s, SessionCreated(s, ebi), sgw) <==> SessionEbiIsFree(s, ebi)
  {
    hide PdnReserve, PdnInstall, PendingPdnDropped, PdnAbandon, EsmInformation, SessionCreated, SessionEbiIsFree;
    hide Grows, Books, Identities, Extends, SameS11;
    PendingPdnStepsAreQuiet(s, 0, "", PdnRequest(0, 0, ""), ebi);
    SessionCreatedKeepsExactlyWhen(s, ebi, sgw);
    QuietGrows(s, SessionCreated(s, ebi));
    if SessionEbiIsFree(s, ebi) { Next(s, SessionCreated(s, ebi), sgw); }
  }

  lemma RemovalFollows(s: State, apn: string, sgw: nat -> string)
    requires Sound(s, sgw)
    ensures Follows(s, PdnRemoved(s, apn), sgw)
  {
    hide PdnRemoved, Grows, Books, Identities, Extends;
    PdnRemovedKeeps(s, apn, sgw);
    PdnRemovedBooks(s, apn);
    Next(s, PdnRemoved(s, apn), sgw);
  }

  // No two PDN connections share their default bearer.
  lemma PdnsAreDistinct(s: State, sgw: nat -> string)
    requires Sound(s, sgw)
    ensures forall a, b :: a in s.pdns && b in s.pdns && s.pdns[a].ebi == s.pdns[b].ebi ==> a == b
  {
    hide Identities;
    IdentitiesAreDisjoint(s, sgw);
  }
}
