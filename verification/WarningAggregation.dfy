/**
 * Public warning response aggregation (internal/s1ap/pws.go:50-150, 208-262): one CBC request
 * goes to many eNBs whose answers carry no CBC identity, so a key is reserved per procedure,
 * message identifier and serial number, a transaction is stored under it, and answers or a timer
 * take the transaction out again. The reserved keys and the stored transactions are two tables
 * with a lock each: what touches both does so in two regions.
 */
module WarningAggregation {
  import opened Common

  // pwsResponseKey.
  datatype Key = Key(procedure: Octet, messageId: nat, serial: nat)

  type Enb = string

  // pwsTransaction and the progress of its send loop.
  datatype Tx = Tx(key: Key, targets: set<Enb>, pending: set<Enb>, answered: set<Enb>, sendFailed: set<Enb>,
                   sent: set<Enb>, sending: bool)

  // An answer of an eNB that has found its transaction.
  datatype Reply = Reply(n: nat, enb: Enb)

  // Transactions have numbers that stand for their pointers. `storing` and `releases` are the keys
  // of the handlers between their two regions: reserved and not stored yet, taken out and not
  // released yet. `counting` are the answers that have found their transaction, `taking` the
  // transactions that an answer has seen complete.
  datatype State = State(
    txs: map<nat, Tx>, installed: map<Key, nat>, bases: set<Key>, timers: set<nat>,
    storing: multiset<Key>, releases: multiset<Key>, counting: multiset<Reply>, taking: set<nat>,
    // Transactions taken out for their indication, and those given up because nothing was sent.
    finished: multiset<nat>, abandoned: multiset<nat>)

  const Empty: State := State(map[], map[], {}, {}, multiset{}, multiset{}, multiset{}, {}, multiset{}, multiset{})

  // ---------------------------------------------------------------- the regions

  // The first lock of SendSBcAPWarningForPeer: reserves the key, or rejects the request.
  function Reserve(s: State, key: Key): State {
    if key in s.bases then s else s.(bases := s.bases + {key}, storing := s.storing + multiset{key})
  }

  // The transaction is stored under its key, over whatever is there, and its timer starts.
  function Store(s: State, n: nat, key: Key, targets: set<Enb>): State {
    if key !in s.storing || n in s.txs then s
    else s.(storing := s.storing - multiset{key}, txs := s.txs[n := Tx(key, targets, targets, {}, {}, {}, true)],
            installed := s.installed[key := n], timers := s.timers + {n})
  }

  predicate Untried(s: State, n: nat, enb: Enb) {
    n in s.txs && s.txs[n].sending && enb in s.txs[n].targets && enb !in s.txs[n].sent && enb !in s.txs[n].sendFailed
  }

  // One round of the send loop.
  function Send(s: State, n: nat, enb: Enb, ok: bool): State {
    if !Untried(s, n, enb) then s
    else
      var t := s.txs[n];
      s.(txs := s.txs[n := if ok then t.(sent := t.sent + {enb})
                           else t.(pending := t.pending - {enb}, sendFailed := t.sendFailed + {enb})])
  }

  predicate AllTried(s: State, n: nat) {
    n in s.txs && s.txs[n].sending && s.txs[n].targets == s.txs[n].sent + s.txs[n].sendFailed
  }

  // The end of the send loop: a request that reached nobody is given up, and whatever is stored
  // under its key is deleted.
  function EndSending(s: State, n: nat): State {
    if !AllTried(s, n) then s
    else
      var t := s.txs[n];
      var s1 := s.(txs := s.txs[n := t.(sending := false)]);
      if t.sent != {} then s1
      else s1.(installed := s1.installed - {t.key}, abandoned := s1.abandoned + multiset{n},
               releases := s1.releases + multiset{t.key})
  }

  // handlePWSResponse finds the transaction stored under the key.
  function Load(s: State, key: Key, enb: Enb): State {
    if key in s.installed then s.(counting := s.counting + multiset{Reply(s.installed[key], enb)}) else s
  }

  function Counted(s: State, n: nat, enb: Enb): State {
    if n !in s.txs || enb !in s.txs[n].pending then s
    else
      var t := s.txs[n].(pending := s.txs[n].pending - {enb}, answered := s.txs[n].answered + {enb});
      s.(txs := s.txs[n := t], taking := if t.pending == {} then s.taking + {n} else s.taking)
  }

  // The answer is counted under the transaction's own lock.
  function Count(s: State, n: nat, enb: Enb): State {
    if Reply(n, enb) !in s.counting then s
    else Counted(s.(counting := s.counting - multiset{Reply(n, enb)}), n, enb)
  }

  predicate Installed(s: State, n: nat) {
    n in s.txs && s.txs[n].key in s.installed && s.installed[s.txs[n].key] == n
  }

  // The transaction stored under the key is taken out, to be indicated once.
  function Take(s: State, key: Key): State
    requires key in s.installed
  {
    s.(installed := s.installed - {key}, finished := s.finished + multiset{s.installed[key]},
       releases := s.releases + multiset{key})
  }

  // The answer that completed a transaction takes it out if it is still the one stored.
  function Complete(s: State, n: nat): State {
    if n !in s.taking then s
    else
      var s1 := s.(taking := s.taking - {n});
      if Installed(s1, n) then Take(s1, s1.txs[n].key) else s1
  }

  // expirePWSTransaction takes out whatever is stored under the key of the transaction that
  // started the timer.
  function Expire(s: State, n: nat): State {
    if n !in s.timers then s
    else
      var s1 := s.(timers := s.timers - {n});
      if n in s.txs && s.txs[n].key in s.installed then Take(s1, s.txs[n].key) else s1
  }

  // releasePWSTransactionBase, whoever holds the key by now.
  function Release(s: State, key: Key): State {
    if key !in s.releases then s else s.(releases := s.releases - multiset{key}, bases := s.bases - {key})
  }

  // ---------------------------------------------------------------- runs

  datatype Event = Reserves(key: Key) | Stores(n: nat, key: Key, targets: set<Enb>) | Sends(n: nat, enb: Enb, ok: bool)
                 | Ends(n: nat) | Loads(key: Key, enb: Enb) | Counts(n: nat, enb: Enb) | Completes(n: nat)
                 | TimesOut(n: nat) | Releases(key: Key)

  function Step(s: State, e: Event): State {
    match e
    case Reserves(key) => Reserve(s, key)
    case Stores(n, key, targets) => Store(s, n, key, targets)
    case Sends(n, enb, ok) => Send(s, n, enb, ok)
    case Ends(n) => EndSending(s, n)
    case Loads(key, enb) => Load(s, key, enb)
    case Counts(n, enb) => Count(s, n, enb)
    case Completes(n) => Complete(s, n)
    case TimesOut(n) => Expire(s, n)
    case Releases(key) => Release(s, key)
  }

  function Run(s: State, es: seq<Event>): State
    decreases |es|
  {
    if es == [] then s else Run(Step(s, es[0]), es[1..])
  }

  // ---------------------------------------------------------------- what every run keeps

  // Every target waits, or has answered or could not be reached. An answer can come before the
  // request was sent to its eNB, if it belongs to an earlier request with the same key.
  predicate Split(t: Tx) {
    && t.pending + t.answered + t.sendFailed == t.targets
    && t.pending !! t.answered && t.pending !! t.sendFailed && t.sent !! t.sendFailed
    && t.sent <= t.targets
  }

  // Transactions are stored under their own key and split; one that an answer has completed waits
  // for nobody.
  ghost predicate Shaped(s: State) {
    && (forall n :: n in s.txs ==> Split(s.txs[n]))
    && (forall k :: k in s.installed ==> s.installed[k] in s.txs && s.txs[s.installed[k]].key == k)
    && (forall n :: n in s.taking ==> n in s.txs && s.txs[n].pending == {})
  }

  // Each transaction is taken out at most once and given up at most once, and then not stored. It
  // is given up at the end of its sending.
  ghost predicate EndedOnce(s: State) {
    && (forall n :: s.finished[n] <= 1 && s.abandoned[n] <= 1)
    && (forall n :: n in s.finished || n in s.abandoned ==> n in s.txs && !Installed(s, n))
    && (forall n :: n in s.abandoned ==> !s.txs[n].sending)
  }

  ghost predicate Sound(s: State) {
    Shaped(s) && EndedOnce(s)
  }

  lemma StoringKeepsShaped(s: State, n: nat, key: Key, targets: set<Enb>)
    requires Shaped(s)
    ensures Shaped(Store(s, n, key, targets)) && Shaped(Reserve(s, key)) && Shaped(Release(s, key))
  {}

  lemma SendingKeepsShaped(s: State, n: nat, enb: Enb, ok: bool)
    requires Shaped(s)
    ensures Shaped(Send(s, n, enb, ok))
  {
    if n in s.txs { assert Split(s.txs[n]); }
  }

  lemma EndKeepsShaped(s: State, n: nat)
    requires Shaped(s)
    ensures Shaped(EndSending(s, n))
  {
    if n in s.txs { assert Split(s.txs[n]); }
  }

  lemma CountKeepsShaped(s: State, key: Key, n: nat, enb: Enb)
    requires Shaped(s)
    ensures Shaped(Load(s, key, enb)) && Shaped(Count(s, n, enb))
  {
    hide Counted;
    CountedKeepsShaped(s.(counting := s.counting - multiset{Reply(n, enb)}), n, enb);
  }

  lemma CountedKeepsShaped(s: State, n: nat, enb: Enb)
    requires Shaped(s)
    ensures Shaped(Counted(s, n, enb))
  {
    if n in s.txs { assert Split(s.txs[n]); }
  }

  lemma TakingKeepsShaped(s: State, n: nat)
    requires Shaped(s)
    ensures Shaped(Complete(s, n)) && Shaped(Expire(s, n))
  {
    hide Split;
  }

  lemma StepKeepsShaped(s: State, e: Event)
    requires Shaped(s)
    ensures Shaped(Step(s, e))
  {
    hide Shaped, Store, Send, EndSending, Load, Count, Complete, Expire, Reserve, Release;
    match e
    case Reserves(key) => StoringKeepsShaped(s, 0, key, {});
    case Stores(n, key, targets) => StoringKeepsShaped(s, n, key, targets);
    case Sends(n, enb, ok) => SendingKeepsShaped(s, n, enb, ok);
    case Ends(n) => EndKeepsShaped(s, n);
    case Loads(key, enb) => CountKeepsShaped(s, key, 0, enb);
    case Counts(n, enb) => CountKeepsShaped(s, Key(0, 0, 0), n, enb);
    case Completes(n) => TakingKeepsShaped(s, n);
    case TimesOut(n) => TakingKeepsShaped(s, n);
    case Releases(key) => StoringKeepsShaped(s, 0, key, {});
  }

  lemma TakeKeepsEnded(s: State, key: Key)
    requires Shaped(s) && EndedOnce(s) && key in s.installed
    ensures EndedOnce(Take(s, key))
  {}

  lemma StoreKeepsEnded(s: State, n: nat, key: Key, targets: set<Enb>)
    requires Shaped(s) && EndedOnce(s)
    ensures EndedOnce(Store(s, n, key, targets))
  {}

  lemma SendingKeepsEnded(s: State, n: nat, enb: Enb, ok: bool)
    requires Shaped(s) && EndedOnce(s)
    ensures EndedOnce(Send(s, n, enb, ok))
  {
    hide Split;
  }

  lemma EndKeepsEnded(s: State, n: nat)
    requires Shaped(s) && EndedOnce(s)
    ensures EndedOnce(EndSending(s, n))
  {
    hide Split;
  }

  lemma CountKeepsEnded(s: State, key: Key, n: nat, enb: Enb)
    requires Shaped(s) && EndedOnce(s)
    ensures EndedOnce(Load(s, key, enb)) && EndedOnce(Count(s, n, enb))
  {
    hide Counted;
    CountedKeepsEnded(s.(counting := s.counting - multiset{Reply(n, enb)}), n, enb);
  }

  lemma CountedKeepsEnded(s: State, n: nat, enb: Enb)
    requires EndedOnce(s)
    ensures EndedOnce(Counted(s, n, enb))
  {}

  lemma CompletionKeepsEnded(s: State, n: nat)
    requires Shaped(s) && EndedOnce(s)
    ensures EndedOnce(Complete(s, n))
  {
    hide Split;
    if n in s.taking && Installed(s, n) { TakeKeepsEnded(s.(taking := s.taking - {n}), s.txs[n].key); }
  }

  lemma ExpiryKeepsEnded(s: State, n: nat)
    requires Shaped(s) && EndedOnce(s)
    ensures EndedOnce(Expire(s, n))
  {
    hide Split;
    if n in s.txs && s.txs[n].key in s.installed { TakeKeepsEnded(s.(timers := s.timers - {n}), s.txs[n].key); }
  }

  lemma StepKeeps(s: State, e: Event)
    requires Sound(s)
    ensures Sound(Step(s, e))
  {
    StepKeepsShaped(s, e);
    hide Shaped, EndedOnce, Store, Send, EndSending, Load, Count, Complete, Expire;
    match e
    case Reserves(key) => KeysAreNoEnding(s, key);
    case Stores(n, key, targets) => StoreKeepsEnded(s, n, key, targets);
    case Sends(n, enb, ok) => SendingKeepsEnded(s, n, enb, ok);
    case Ends(n) => EndKeepsEnded(s, n);
    case Loads(key, enb) => CountKeepsEnded(s, key, 0, enb);
    case Counts(n, enb) => CountKeepsEnded(s, Key(0, 0, 0), n, enb);
    case Completes(n) => CompletionKeepsEnded(s, n);
    case TimesOut(n) => ExpiryKeepsEnded(s, n);
    case Releases(key) => KeysAreNoEnding(s, key);
  }

  lemma KeysAreNoEnding(s: State, key: Key)
    requires EndedOnce(s)
    ensures EndedOnce(Reserve(s, key)) && EndedOnce(Release(s, key))
  {}

  // Over every interleaving of the regions, whatever the timers and the answers do.
  lemma {:induction false} RunKeeps(s: State, es: seq<Event>)
    requires Sound(s)
    ensures Sound(Run(s, es))
    decreases |es|
  {
    hide Step, Sound;
    if es != [] {
      StepKeeps(s, es[0]);
      RunKeeps(Step(s, es[0]), es[1..]);
    }
  }

  // ---------------------------------------------------------------- one transaction per key

  function Holders(s: State, k: Key): nat {
    s.storing[k] + (if k in s.installed then 1 else 0) + s.releases[k]
  }

  // A reserved key is being stored, has a transaction, or is about to be released, and exactly one
  // of these; a key that is free is none of them.
  ghost predicate OneHolder(s: State) {
    forall k :: Holders(s, k) == if k in s.bases then 1 else 0
  }

  predicate GivesUp(s: State, n: nat) {
    AllTried(s, n) && s.txs[n].sent == {}
  }

  // A request is given up although nothing is stored under its key.
  predicate ReleasesTwice(s: State, e: Event) {
    e.Ends? && GivesUp(s, e.n) && s.txs[e.n].key !in s.installed
  }

  // Reserving a key keeps two requests apart, step by step, exactly as long as no request that
  // reached nobody is given up after its transaction was taken out.
  lemma StepKeepsOneHolderExactlyWhen(s: State, e: Event)
    requires OneHolder(s)
    ensures OneHolder(Step(s, e)) <==> !ReleasesTwice(s, e)
  {
    var t := Step(s, e);
    if ReleasesTwice(s, e) {
      var k := s.txs[e.n].key;
      assert Holders(t, k) == Holders(s, k) + 1;
      assert k !in s.bases ==> Holders(s, k) == 0;
    } else if e.Reserves? || e.Stores? || e.Releases? || e.Loads? {
      hide Send, EndSending, Count, Complete, Expire;
      forall k ensures Holders(t, k) == if k in t.bases then 1 else 0 {
        assert Holders(s, k) == if k in s.bases then 1 else 0;
      }
    } else {
      MovesNoKey(s, e);
      hide Step;
      forall k ensures Holders(t, k) == if k in t.bases then 1 else 0 {
        assert Holders(s, k) == if k in s.bases then 1 else 0;
      }
    }
  }

  ghost predicate SameHolders(s: State, t: State) {
    t.bases == s.bases && forall k :: Holders(t, k) == Holders(s, k)
  }

  lemma TakeMovesNoKey(s: State, key: Key)
    requires key in s.installed
    ensures SameHolders(s, Take(s, key))
  {}

  lemma OutsMoveNoKey(s: State, n: nat)
    ensures SameHolders(s, Complete(s, n)) && SameHolders(s, Expire(s, n))
  {
    hide Take;
    if n in s.taking && Installed(s, n) { TakeMovesNoKey(s.(taking := s.taking - {n}), s.txs[n].key); }
    if n in s.timers && n in s.txs && s.txs[n].key in s.installed {
      TakeMovesNoKey(s.(timers := s.timers - {n}), s.txs[n].key);
    }
  }

  lemma EndMovesNoKey(s: State, n: nat)
    requires !ReleasesTwice(s, Ends(n))
    ensures SameHolders(s, EndSending(s, n))
  {}

  lemma AnswersMoveNoKey(s: State, n: nat, enb: Enb, ok: bool)
    ensures SameHolders(s, Count(s, n, enb)) && SameHolders(s, Send(s, n, enb, ok))
  {}

  // Taking out and giving up turn a stored transaction into a release.
  lemma MovesNoKey(s: State, e: Event)
    requires !ReleasesTwice(s, e) && (e.Sends? || e.Ends? || e.Counts? || e.Completes? || e.TimesOut?)
    ensures SameHolders(s, Step(s, e))
  {
    hide Send, EndSending, Count, Complete, Expire, SameHolders, ReleasesTwice;
    match e
    case Sends(n, enb, ok) => AnswersMoveNoKey(s, n, enb, ok);
    case Counts(n, enb) => AnswersMoveNoKey(s, n, enb, true);
    case Ends(n) => EndMovesNoKey(s, n);
    case Completes(n) => OutsMoveNoKey(s, n);
    case TimesOut(n) => OutsMoveNoKey(s, n);
  }

  // A transaction is stored over another one exactly when a request whose key is reserved finds
  // one there, which cannot be while every key has one holder.
  lemma StoreDisplacesExactlyWhen(s: State, n: nat, key: Key, targets: set<Enb>, other: nat)
    requires Installed(s, other) && n !in s.txs
    ensures !Installed(Store(s, n, key, targets), other) <==> key in s.storing && s.txs[other].key == key
    ensures OneHolder(s) ==> Installed(Store(s, n, key, targets), other)
  {
    if OneHolder(s) { assert Holders(s, key) <= 1; }
  }

  predicate NoDoubleRelease(s: State, es: seq<Event>)
    decreases |es|
  {
    es == [] || (!ReleasesTwice(s, es[0]) && NoDoubleRelease(Step(s, es[0]), es[1..]))
  }

  lemma Prefixes(s: State, es: seq<Event>, i: nat)
    requires es != [] && i < |es|
    ensures Run(s, es[..i + 1]) == Run(Step(s, es[0]), es[1..][..i])
  {
    hide Step;
    assert es[..i + 1][0] == es[0] && es[..i + 1][1..] == es[1..][..i];
  }

  // Over a whole run every reserved key keeps its one holder exactly when that never happens.
  lemma {:induction false} OneHolderThroughoutExactlyWhen(s: State, es: seq<Event>)
    requires OneHolder(s)
    ensures (forall i :: 0 <= i <= |es| ==> OneHolder(Run(s, es[..i]))) <==> NoDoubleRelease(s, es)
    decreases |es|
  {
    hide Step, OneHolder, ReleasesTwice;
    assert es[..0] == [];
    if es != [] {
      var t, rest := Step(s, es[0]), es[1..];
      StepKeepsOneHolderExactlyWhen(s, es[0]);
      forall i | 0 <= i <= |rest| ensures Run(s, es[..i + 1]) == Run(t, rest[..i]) { Prefixes(s, es, i); }
      assert rest[..0] == [];
      assert Run(s, es[..1]) == t;
      if OneHolder(t) { OneHolderThroughoutExactlyWhen(t, rest); }
      forall i | 0 < i <= |es| ensures Run(s, es[..i]) == Run(t, rest[..i - 1]) {}
    }
  }

  // It does happen: a request whose timer fires before its only send fails is given up after it
  // was taken out, so its key is released twice. The second release frees the key while another
  // request has a transaction there, and a third request stores its own over it.
  lemma KeyIsGivenToTwo(key: Key, enb: Enb)
    ensures var cut := Run(Empty, [Reserves(key), Stores(0, key, {enb}), TimesOut(0), Sends(0, enb, false), Ends(0)]);
            var second := Run(cut, [Releases(key), Reserves(key), Stores(1, key, {enb})]);
            var third := Run(second, [Releases(key), Reserves(key), Stores(2, key, {enb})]);
            && !OneHolder(cut) && Installed(second, 1)
            && Installed(third, 2) && !Installed(third, 1) && 1 !in third.finished && 1 !in third.abandoned
  {
    var cut := Run(Empty, [Reserves(key), Stores(0, key, {enb}), TimesOut(0), Sends(0, enb, false), Ends(0)]);
    GivenUpLate(key, enb);
    var second := Run(cut, [Releases(key), Reserves(key), Stores(1, key, {enb})]);
    ReleasedAndStored(cut, key, 1, {enb});
    ReleasedAndStored(second, key, 2, {enb});
    assert Holders(cut, key) == 2;
  }

  // One request to one eNB: stored, taken out by its timer, its send failed, given up.
  function Alone(key: Key, enb: Enb): Tx {
    Tx(key, {enb}, {enb}, {}, {}, {}, true)
  }

  function Started(key: Key, enb: Enb): State {
    Empty.(txs := map[0 := Alone(key, enb)], installed := map[key := 0], bases := {key}, timers := {0})
  }

  function CutShort(key: Key, enb: Enb): State {
    Empty.(txs := map[0 := Alone(key, enb)], bases := {key}, releases := multiset{key}, finished := multiset{0})
  }

  function Failed(key: Key, enb: Enb, sending: bool): Tx {
    Tx(key, {enb}, {}, {}, {enb}, {}, sending)
  }

  lemma Starts(key: Key, enb: Enb)
    ensures Store(Reserve(Empty, key), 0, key, {enb}) == Started(key, enb)
  {
    var s := Reserve(Empty, key);
    assert s.storing == multiset{key} && s.storing - multiset{key} == multiset{};
    assert s.bases == {key};
  }

  lemma IsCutShort(key: Key, enb: Enb)
    ensures Expire(Started(key, enb), 0) == CutShort(key, enb)
  {
    var s := Started(key, enb);
    assert s.installed - {key} == map[] && s.timers - {0} == {};
  }

  lemma FailsAndGivesUp(key: Key, enb: Enb)
    ensures EndSending(Send(CutShort(key, enb), 0, enb, false), 0)
            == CutShort(key, enb).(txs := map[0 := Failed(key, enb, false)],
                                   releases := multiset{key, key}, abandoned := multiset{0})
  {
    var s := CutShort(key, enb);
    var t := Send(s, 0, enb, false);
    var none: set<Enb> := {};
    assert {enb} - {enb} == none && none + {enb} == {enb};
    assert t.txs[0] == Failed(key, enb, true);
    assert t == s.(txs := map[0 := Failed(key, enb, true)]);
    assert t.txs[0].targets == t.txs[0].sent + t.txs[0].sendFailed;
    assert t.installed - {key} == map[];
  }

  lemma GivenUpLate(key: Key, enb: Enb)
    ensures var cut := Run(Empty, [Reserves(key), Stores(0, key, {enb}), TimesOut(0), Sends(0, enb, false), Ends(0)]);
            && cut.txs.Keys == {0} && cut.txs[0].key == key && cut.installed == map[] && cut.storing == multiset{}
            && cut.releases == multiset{key, key} && cut.finished == multiset{0} && cut.abandoned == multiset{0}
  {
    hide Reserve, Store, Expire, Send, EndSending;
    FiveSteps(Empty, Reserves(key), Stores(0, key, {enb}), TimesOut(0), Sends(0, enb, false), Ends(0));
    Starts(key, enb);
    IsCutShort(key, enb);
    FailsAndGivesUp(key, enb);
  }

  lemma OneMore(s: State, a: Event, es: seq<Event>)
    ensures Run(s, [a] + es) == Run(Step(s, a), es)
  {
    hide Step;
    assert ([a] + es)[1..] == es;
  }

  lemma ThreeSteps(s: State, a: Event, b: Event, c: Event)
    ensures Run(s, [a, b, c]) == Step(Step(Step(s, a), b), c)
  {
    hide Step;
    OneMore(s, a, [b, c]);
    OneMore(Step(s, a), b, [c]);
    OneMore(Step(Step(s, a), b), c, []);
    assert [a, b, c] == [a] + [b, c] && [b, c] == [b] + [c] && [c] == [c] + [];
  }

  lemma FiveSteps(s: State, a: Event, b: Event, c: Event, d: Event, e: Event)
    ensures Run(s, [a, b, c, d, e]) == Step(Step(Step(Step(Step(s, a), b), c), d), e)
  {
    hide Step, Run;
    OneMore(s, a, [b, c, d, e]);
    OneMore(Step(s, a), b, [c, d, e]);
    ThreeSteps(Step(Step(s, a), b), c, d, e);
    assert [a, b, c, d, e] == [a] + [b, c, d, e] && [b, c, d, e] == [b] + [c, d, e];
  }

  // With a release left over, the key of whatever is stored goes to the next request.
  lemma ReleasedAndStored(s: State, key: Key, n: nat, targets: set<Enb>)
    requires key in s.releases && key !in s.storing && n !in s.txs
    ensures var t := Run(s, [Releases(key), Reserves(key), Stores(n, key, targets)]);
            && t.txs == s.txs[n := Tx(key, targets, targets, {}, {}, {}, true)]
            && t.installed == s.installed[key := n] && t.storing == s.storing
            && t.releases == s.releases - multiset{key} && t.finished == s.finished && t.abandoned == s.abandoned
  {
    hide Run, Reserve, Release, Store;
    ThreeSteps(s, Releases(key), Reserves(key), Stores(n, key, targets));
    ReleasedAndReserved(s, key);
    StoresIt(Reserve(Release(s, key), key), s.storing, key, n, targets);
  }

  lemma ReleasedAndReserved(s: State, key: Key)
    requires key in s.releases
    ensures var t := Reserve(Release(s, key), key);
            && t.txs == s.txs && t.installed == s.installed && t.storing == s.storing + multiset{key}
            && t.releases == s.releases - multiset{key} && t.finished == s.finished && t.abandoned == s.abandoned
  {}

  lemma StoresIt(s: State, rest: multiset<Key>, key: Key, n: nat, targets: set<Enb>)
    requires s.storing == rest + multiset{key} && n !in s.txs
    ensures var t := Store(s, n, key, targets);
            && t.txs == s.txs[n := Tx(key, targets, targets, {}, {}, {}, true)]
            && t.installed == s.installed[key := n] && t.storing == rest && t.releases == s.releases
            && t.finished == s.finished && t.abandoned == s.abandoned
  {
    assert s.storing - multiset{key} == rest;
  }

  // ---------------------------------------------------------------- indicated or given up

  // The request is still being sent and has reached nobody yet.
  predicate Unsent(s: State, n: nat) {
    n in s.txs && s.txs[n].sending && s.txs[n].sent == {}
  }

  // Every transaction is stored, taken out or given up, and exactly one of these. While its request
  // has reached nobody it is stored.
  ghost predicate Conserved(s: State) {
    forall n :: n in s.txs ==>
      && s.finished[n] + s.abandoned[n] + (if Installed(s, n) then 1 else 0) == 1
      && (Unsent(s, n) ==> Installed(s, n))
  }

  // A transaction is taken out before its request has reached anybody: by a timer, its own or one
  // that an earlier request under the key has left, or by answers to an earlier request.
  predicate Cuts(s: State, e: Event) {
    match e
    case TimesOut(n) => n in s.timers && n in s.txs && s.txs[n].key in s.installed && Unsent(s, s.installed[s.txs[n].key])
    case Completes(n) => n in s.taking && Installed(s, n) && Unsent(s, n)
    case _ => false
  }

  lemma StoreLeavesOthers(s: State, n: nat, key: Key, targets: set<Enb>, m: nat)
    requires OneHolder(s) && n !in s.txs && m in s.txs
    ensures var t := Store(s, n, key, targets);
            Installed(t, m) == Installed(s, m) && m in t.txs && t.txs[m] == s.txs[m]
  {
    if Installed(s, m) { StoreDisplacesExactlyWhen(s, n, key, targets, m); }
  }

  lemma StoreConserves(s: State, n: nat, key: Key, targets: set<Enb>)
    requires Sound(s) && OneHolder(s) && Conserved(s)
    ensures Conserved(Store(s, n, key, targets))
  {
    hide Shaped, OneHolder, Installed;
    if key in s.storing && n !in s.txs {
      var t := Store(s, n, key, targets);
      StoredIsInstalled(s, n, key, targets);
      assert n !in s.finished && n !in s.abandoned;
      forall m | m in s.txs ensures Installed(t, m) == Installed(s, m) && Unsent(t, m) == Unsent(s, m) {
        StoreLeavesOthers(s, n, key, targets, m);
      }
      hide EndedOnce;
    }
  }

  lemma SendConserves(s: State, n: nat, enb: Enb, ok: bool)
    requires Conserved(s)
    ensures Conserved(Send(s, n, enb, ok))
  {}

  lemma EndConserves(s: State, n: nat)
    requires Sound(s) && Conserved(s)
    ensures Conserved(EndSending(s, n))
  {
    hide Split;
  }

  lemma CountConserves(s: State, n: nat, enb: Enb)
    requires Conserved(s)
    ensures Conserved(Count(s, n, enb))
  {}

  lemma TakeConservesExactlyWhen(s: State, key: Key)
    requires Sound(s) && Conserved(s) && key in s.installed
    ensures Conserved(Take(s, key)) <==> !Unsent(s, s.installed[key])
  {
    hide Split;
    var n, t := s.installed[key], Take(s, key);
    assert Installed(s, n) && !Installed(t, n);
    forall m | m in s.txs && m != n ensures Installed(t, m) == Installed(s, m) {}
  }

  lemma OutsConserveExactlyWhen(s: State, n: nat)
    requires Sound(s) && Conserved(s)
    ensures Conserved(Complete(s, n)) <==> !Cuts(s, Completes(n))
    ensures Conserved(Expire(s, n)) <==> !Cuts(s, TimesOut(n))
  {
    hide Split, Take;
    var c, x := s.(taking := s.taking - {n}), s.(timers := s.timers - {n});
    SoundWithout(s, n);
    if n in s.taking && Installed(s, n) { TakeConservesExactlyWhen(c, s.txs[n].key); }
    if n in s.timers && n in s.txs && s.txs[n].key in s.installed { TakeConservesExactlyWhen(x, s.txs[n].key); }
  }

  lemma SoundWithout(s: State, n: nat)
    requires Sound(s) && Conserved(s)
    ensures var c, x := s.(taking := s.taking - {n}), s.(timers := s.timers - {n});
            Sound(c) && Sound(x) && Conserved(c) && Conserved(x)
  {
    var c, x := s.(taking := s.taking - {n}), s.(timers := s.timers - {n});
    SameStore(s, c);
    SameStore(s, x);
    hide Sound, Conserved;
  }

  lemma SameStore(s: State, t: State)
    requires Sound(s) && Conserved(s) && t.taking <= s.taking
    requires t.txs == s.txs && t.installed == s.installed && t.finished == s.finished && t.abandoned == s.abandoned
    ensures Sound(t) && Conserved(t)
  {
    hide Split;
    forall m ensures Installed(t, m) == Installed(s, m) && Unsent(t, m) == Unsent(s, m) {}
    hide Installed, Unsent;
  }

  lemma KeysConserve(s: State, key: Key, enb: Enb)
    requires Conserved(s)
    ensures Conserved(Reserve(s, key)) && Conserved(Release(s, key)) && Conserved(Load(s, key, enb))
  {}

  // Every request is indicated or given up, never both, and never lost: a step keeps this exactly
  // when it does not take out a transaction whose request has reached nobody yet.
  lemma StepConservesExactlyWhen(s: State, e: Event)
    requires Sound(s) && OneHolder(s) && Conserved(s)
    ensures Conserved(Step(s, e)) <==> !Cuts(s, e)
    ensures OneHolder(Step(s, e))
  {
    StepKeepsOneHolderExactlyWhen(s, e);
    assert !ReleasesTwice(s, e);
    hide Sound, OneHolder, Conserved, Store, Send, EndSending, Load, Count, Complete, Expire, Reserve, Release;
    match e
    case Reserves(key) => KeysConserve(s, key, "");
    case Stores(n, key, targets) => StoreConserves(s, n, key, targets);
    case Sends(n, enb, ok) => SendConserves(s, n, enb, ok);
    case Ends(n) => EndConserves(s, n);
    case Loads(key, enb) => KeysConserve(s, key, enb);
    case Counts(n, enb) => CountConserves(s, n, enb);
    case Completes(n) => OutsConserveExactlyWhen(s, n);
    case TimesOut(n) => OutsConserveExactlyWhen(s, n);
    case Releases(key) => KeysConserve(s, key, "");
  }

  predicate NoCuts(s: State, es: seq<Event>)
    decreases |es|
  {
    es == [] || (!Cuts(s, es[0]) && NoCuts(Step(s, es[0]), es[1..]))
  }

  lemma {:induction false} ConservedThroughoutExactlyWhen(s: State, es: seq<Event>)
    requires Sound(s) && OneHolder(s) && Conserved(s)
    ensures (forall i :: 0 <= i <= |es| ==> Conserved(Run(s, es[..i]))) <==> NoCuts(s, es)
    ensures NoCuts(s, es) ==> OneHolder(Run(s, es))
    decreases |es|
  {
    hide Step, OneHolder, Conserved, Cuts, Sound;
    assert es[..0] == [];
    if es != [] {
      var t, rest := Step(s, es[0]), es[1..];
      StepKeeps(s, es[0]);
      StepConservesExactlyWhen(s, es[0]);
      forall i | 0 <= i <= |rest| ensures Run(s, es[..i + 1]) == Run(t, rest[..i]) { Prefixes(s, es, i); }
      assert rest[..0] == [];
      assert Run(s, es[..1]) == t;
      if Conserved(t) { ConservedThroughoutExactlyWhen(t, rest); }
      forall i | 0 < i <= |es| ensures Run(s, es[..i]) == Run(t, rest[..i - 1]) {}
    }
  }

  // ---------------------------------------------------------------- both indicated and given up

  ghost predicate Exclusive(s: State) {
    forall n :: s.finished[n] + s.abandoned[n] <= 1
  }

  // A request that reached nobody is given up after its transaction was taken out.
  predicate GivesUpLate(s: State, e: Event) {
    e.Ends? && GivesUp(s, e.n) && e.n in s.finished
  }

  predicate NoLateGiveUp(s: State, es: seq<Event>)
    decreases |es|
  {
    es == [] || (!GivesUpLate(s, es[0]) && NoLateGiveUp(Step(s, es[0]), es[1..]))
  }

  // The events that neither store a transaction nor remove one.
  predicate Quiet(e: Event) {
    !e.Stores? && !e.Ends? && !e.Completes? && !e.TimesOut?
  }

  ghost predicate SameTables(s: State, t: State) {
    && t.installed == s.installed && t.finished == s.finished && t.abandoned == s.abandoned
    && forall n :: n in s.txs ==> n in t.txs && t.txs[n].key == s.txs[n].key
  }

  lemma KeysAreQuiet(s: State, key: Key, enb: Enb)
    ensures SameTables(s, Reserve(s, key)) && SameTables(s, Release(s, key)) && SameTables(s, Load(s, key, enb))
  {}

  lemma AnswersAreQuiet(s: State, n: nat, enb: Enb, ok: bool)
    ensures SameTables(s, Count(s, n, enb)) && SameTables(s, Send(s, n, enb, ok))
  {}

  lemma QuietStep(s: State, e: Event)
    requires Quiet(e)
    ensures SameTables(s, Step(s, e))
  {
    hide Reserve, Release, Load, Count, Send, SameTables;
    match e
    case Reserves(key) => KeysAreQuiet(s, key, "");
    case Releases(key) => KeysAreQuiet(s, key, "");
    case Loads(key, enb) => KeysAreQuiet(s, key, enb);
    case Counts(n, enb) => AnswersAreQuiet(s, n, enb, true);
    case Sends(n, enb, ok) => AnswersAreQuiet(s, n, enb, ok);
  }

  lemma EndIsExclusiveExactlyWhen(s: State, n: nat)
    requires EndedOnce(s)
    ensures Exclusive(EndSending(s, n)) <==> Exclusive(s) && !GivesUpLate(s, Ends(n))
  {
    hide Installed;
    var t := EndSending(s, n);
    if GivesUp(s, n) {
      assert t.abandoned == s.abandoned + multiset{n} && t.finished == s.finished;
      forall m ensures t.abandoned[m] == s.abandoned[m] + if m == n then 1 else 0 {}
      assert s.abandoned[n] == 0;
    } else {
      assert t.abandoned == s.abandoned && t.finished == s.finished;
    }
  }

  lemma TakingIsExclusive(s: State, n: nat)
    requires Sound(s)
    ensures Exclusive(Complete(s, n)) <==> Exclusive(s)
    ensures Exclusive(Expire(s, n)) <==> Exclusive(s)
  {
    hide Take, Split;
    var c, x := s.(taking := s.taking - {n}), s.(timers := s.timers - {n});
    if n in s.taking && Installed(s, n) { TakeIsExclusive(c, s.txs[n].key); }
    if n in s.timers && n in s.txs && s.txs[n].key in s.installed { TakeIsExclusive(x, s.txs[n].key); }
  }

  lemma TakeIsExclusive(s: State, key: Key)
    requires key in s.installed && s.finished[s.installed[key]] == 0 && s.abandoned[s.installed[key]] == 0
    ensures Exclusive(Take(s, key)) <==> Exclusive(s)
  {
    var n, t := s.installed[key], Take(s, key);
    forall m ensures t.finished[m] == s.finished[m] + if m == n then 1 else 0 {}
  }

  lemma StepIsExclusiveExactlyWhen(s: State, e: Event)
    requires Sound(s)
    ensures Exclusive(Step(s, e)) <==> Exclusive(s) && !GivesUpLate(s, e)
  {
    hide Complete, Expire, EndSending, Exclusive, GivesUp;
    if Quiet(e) {
      QuietStep(s, e);
      SameEndings(s, Step(s, e));
    } else if e.Stores? {
      SameEndings(s, Step(s, e));
    } else if e.Ends? {
      EndIsExclusiveExactlyWhen(s, e.n);
    } else {
      TakingIsExclusive(s, e.n);
    }
  }

  lemma SameEndings(s: State, t: State)
    requires t.finished == s.finished && t.abandoned == s.abandoned
    ensures Exclusive(t) <==> Exclusive(s)
  {}

  // No transaction is ever both indicated and given up, over whole runs without any assumption,
  // exactly when none is given up after it was taken out.
  lemma {:induction false} NeverBothExactlyWhen(s: State, es: seq<Event>)
    requires Sound(s)
    ensures Exclusive(Run(s, es)) <==> Exclusive(s) && NoLateGiveUp(s, es)
    decreases |es|
  {
    hide Step, Exclusive, GivesUpLate, Sound;
    if es != [] {
      StepKeeps(s, es[0]);
      StepIsExclusiveExactlyWhen(s, es[0]);
      NeverBothExactlyWhen(Step(s, es[0]), es[1..]);
    }
  }

  // ---------------------------------------------------------------- what a give-up does to others

  // Giving up keeps every key to its one holder and every other transaction in place exactly when
  // the transaction is still the stored one.
  lemma GiveUpIsCleanExactlyWhen(s: State, n: nat)
    requires Sound(s) && OneHolder(s) && GivesUp(s, n)
    ensures var t := EndSending(s, n);
            OneHolder(t) && (forall m :: m != n && Installed(s, m) ==> Installed(t, m)) <==> Installed(s, n)
  {
    var t, key := EndSending(s, n), s.txs[n].key;
    StepKeepsOneHolderExactlyWhen(s, Ends(n));
    hide OneHolder, Split;
    if key in s.installed && !Installed(s, n) {
      var m := s.installed[key];
      assert m != n && Installed(s, m) && !Installed(t, m);
    }
  }

  // A later transaction is deleted with it exactly when it is stored under the same key. Its key
  // is then released, and it is neither indicated nor given up.
  lemma GiveUpLosesAnotherExactlyWhen(s: State, n: nat, later: nat)
    requires Sound(s) && GivesUp(s, n) && later != n && Installed(s, later)
    ensures var t := EndSending(s, n);
            && (!Installed(t, later) <==> s.txs[later].key == s.txs[n].key)
            && (!Installed(t, later) ==>
                  later !in t.finished && later !in t.abandoned && s.txs[later].key in t.releases)
  {
    hide Split;
  }

  // What was deleted or overwritten is never indicated, however long the run and whoever answers.
  lemma {:induction false} LostForGood(s: State, es: seq<Event>, n: nat)
    requires Sound(s) && n in s.txs && !Installed(s, n) && n !in s.finished
    ensures n !in Run(s, es).finished && !Installed(Run(s, es), n)
    decreases |es|
  {
    hide Step, Sound;
    if es != [] {
      StepKeeps(s, es[0]);
      StaysOut(s, es[0], n);
      LostForGood(Step(s, es[0]), es[1..], n);
    }
  }

  lemma StaysOut(s: State, e: Event, n: nat)
    requires Sound(s) && n in s.txs && !Installed(s, n) && n !in s.finished
    ensures n in Step(s, e).txs && !Installed(Step(s, e), n) && n !in Step(s, e).finished
  {
    hide Split;
    if Quiet(e) {
      QuietStep(s, e);
      hide Step;
    } else if e.Stores? {
      hide EndSending, Complete, Expire;
    } else if e.Ends? {
      hide Complete, Expire;
    } else {
      TakesOnlyTheStored(s, e.n, n);
      hide Complete, Expire;
    }
  }

  lemma TakesOnlyTheStored(s: State, m: nat, n: nat)
    requires Sound(s) && n in s.txs && !Installed(s, n) && n !in s.finished
    ensures var t := Complete(s, m); n in t.txs && !Installed(t, n) && n !in t.finished
    ensures var t := Expire(s, m); n in t.txs && !Installed(t, n) && n !in t.finished
  {
    hide Split, Take;
    if m in s.taking && Installed(s, m) { TakesOne(s.(taking := s.taking - {m}), s.txs[m].key, n); }
    if m in s.timers && m in s.txs && s.txs[m].key in s.installed { TakesOne(s.(timers := s.timers - {m}), s.txs[m].key, n); }
  }

  lemma TakesOne(s: State, key: Key, n: nat)
    requires key in s.installed && n in s.txs && s.installed[key] != n && !Installed(s, n) && n !in s.finished
    ensures var t := Take(s, key); n in t.txs && !Installed(t, n) && n !in t.finished
  {}

  // ---------------------------------------------------------------- the timer outlives its transaction

  // The timer of a transaction ends whatever is stored under its key: a later transaction exactly
  // when that is what it finds.
  lemma StaleTimerEndsLaterTransactionExactlyWhen(s: State, n: nat, later: nat)
    requires Sound(s) && n in s.timers && n in s.txs && later in s.txs && later != n && later !in s.finished
    ensures later in Expire(s, n).finished <==> s.txs[later].key == s.txs[n].key && Installed(s, later)
  {
    hide Split;
  }

  // ---------------------------------------------------------------- a failure after the last answer

  // The transaction is stored, waits for nobody, and no answer is about to take it out.
  predicate Stranded(s: State, n: nat) {
    Installed(s, n) && s.txs[n].pending == {} && n !in s.taking
  }

  // A send failure strands a transaction exactly when it concerns the only eNB that is still
  // waited for.
  lemma SendFailureStrandsExactlyWhen(s: State, n: nat, enb: Enb)
    requires Sound(s) && Installed(s, n) && !Stranded(s, n) && Untried(s, n, enb)
    ensures Stranded(Send(s, n, enb, false), n) <==> s.txs[n].pending == {enb}
  {
    assert Split(s.txs[n]);
  }

  // No answer can end it then, only a timer: if it is ever indicated, one has fired.
  lemma {:induction false} StrandedWaitsForTimer(s: State, es: seq<Event>, n: nat)
    requires n in s.txs && s.txs[n].pending == {} && n !in s.taking && n !in s.finished
    requires forall i :: 0 <= i < |es| ==> !es[i].TimesOut?
    ensures n !in Run(s, es).finished
    decreases |es|
  {
    hide Step;
    if es != [] {
      NoAnswerEndsIt(s, es[0], n);
      StrandedWaitsForTimer(Step(s, es[0]), es[1..], n);
    }
  }

  ghost predicate Forgotten(s: State, n: nat) {
    n in s.txs && s.txs[n].pending == {} && n !in s.taking && n !in s.finished
  }

  lemma CountingEndsNothing(s: State, m: nat, enb: Enb, n: nat)
    requires Forgotten(s, n)
    ensures Forgotten(Count(s, m, enb), n)
  {}

  lemma CompletingEndsNoOther(s: State, m: nat, n: nat)
    requires Forgotten(s, n)
    ensures Forgotten(Complete(s, m), n)
  {}

  lemma SendingEndsNothing(s: State, m: nat, enb: Enb, ok: bool, n: nat)
    requires Forgotten(s, n)
    ensures Forgotten(Send(s, m, enb, ok), n) && Forgotten(EndSending(s, m), n)
  {}

  lemma NoAnswerEndsIt(s: State, e: Event, n: nat)
    requires Forgotten(s, n) && !e.TimesOut?
    ensures Forgotten(Step(s, e), n)
  {
    match e
    case Sends(m, enb, ok) => SendingEndsNothing(s, m, enb, ok, n); hide Send;
    case Ends(m) => SendingEndsNothing(s, m, "", true, n); hide EndSending;
    case Counts(m, enb) => CountingEndsNothing(s, m, enb, n); hide Count;
    case Completes(m) => CompletingEndsNoOther(s, m, n); hide Complete;
    case _ =>
  }

  // ---------------------------------------------------------------- the server

  class Server {
    // pwsTransactions, pwsTransactionBases and the running timers.
    var txs: map<nat, Tx>
    var installed: map<Key, nat>
    var bases: set<Key>
    var timers: set<nat>
    // What the handlers between two of their regions are about to do.
    ghost var storing: multiset<Key>
    ghost var releases: multiset<Key>
    ghost var counting: multiset<Reply>
    ghost var taking: set<nat>
    ghost var finished: multiset<nat>
    ghost var abandoned: multiset<nat>

    ghost function View(): State
      reads this
    {
      State(txs, installed, bases, timers, storing, releases, counting, taking, finished, abandoned)
    }

    // The class invariant: targets are split, and each transaction is taken out once and given up once.
    ghost predicate Valid()
      reads this
    {
      Sound(View())
    }

    constructor ()
      ensures Valid() && View() == Empty && OneHolder(View()) && Conserved(View())
    {
      txs, installed, bases, timers := map[], map[], {}, {};
      storing, releases, counting, taking := multiset{}, multiset{}, multiset{}, {};
      finished, abandoned := multiset{}, multiset{};
    }

    // The first lock of SendSBcAPWarningForPeer.
    method ReserveKey(key: Key) returns (ok: bool)
      requires Valid()
      modifies this
      ensures View() == Reserve(old(View()), key) && Valid()
      ensures ok <==> key !in old(bases)
      ensures OneHolder(old(View())) ==> OneHolder(View()) && (ok ==> key !in installed)
    {
      hide Sound, OneHolder;
      StepKeeps(View(), Reserves(key));
      if OneHolder(View()) { FreeKeyIsEmpty(View(), key); }
      if key in bases { return false; }
      bases := bases + {key};
      storing := storing + multiset{key};
      ok := true;
    }

    // pwsTransactions.Store, and the start of the timer.
    method StoreTransaction(n: nat, key: Key, targets: set<Enb>)
      requires Valid() && key in storing && n !in txs
      modifies this
      ensures View() == Store(old(View()), n, key, targets) && Valid() && Installed(View(), n)
      ensures OneHolder(old(View())) ==>
                OneHolder(View()) && forall m :: Installed(old(View()), m) ==> Installed(View(), m)
    {
      hide Sound, OneHolder, Installed;
      ghost var was := View();
      StepKeeps(was, Stores(n, key, targets));
      StoredIsInstalled(was, n, key, targets);
      if OneHolder(was) { StoringDisplacesNothing(was, n, key, targets); }
      storing := storing - multiset{key};
      txs := txs[n := Tx(key, targets, targets, {}, {}, {}, true)];
      installed := installed[key := n];
      timers := timers + {n};
    }

    // A send that failed.
    method RecordFailure(n: nat, enb: Enb)
      requires Valid() && Untried(View(), n, enb)
      modifies this
      ensures View() == Send(old(View()), n, enb, false) && Valid()
      // It strands the transaction exactly when nobody else was waited for.
      ensures Installed(old(View()), n) && !Stranded(old(View()), n) ==>
                (Stranded(View(), n) <==> old(txs)[n].pending == {enb})
    {
      hide Sound, Stranded;
      StepKeeps(View(), Sends(n, enb, false));
      if Installed(View(), n) && !Stranded(View(), n) { SendFailureStrandsExactlyWhen(View(), n, enb); }
      var t := txs[n];
      txs := txs[n := t.(pending := t.pending - {enb}, sendFailed := t.sendFailed + {enb})];
    }

    // The end of the send loop.
    method EndOfSending(n: nat)
      requires Valid() && AllTried(View(), n)
      modifies this
      ensures View() == EndSending(old(View()), n) && Valid()
      // A request is given up exactly when it reached nobody, and keys keep their one holder
      // exactly when something is still stored under its key.
      ensures finished == old(finished) && (abandoned != old(abandoned) <==> GivesUp(old(View()), n))
      ensures OneHolder(old(View())) ==>
                (OneHolder(View()) <==> (GivesUp(old(View()), n) ==> old(txs)[n].key in old(installed)))
    {
      hide Sound, OneHolder;
      ghost var was := View();
      StepKeeps(was, Ends(n));
      if OneHolder(was) { StepKeepsOneHolderExactlyWhen(was, Ends(n)); }
      var t := txs[n];
      txs := txs[n := t.(sending := false)];
      if t.sent == {} {
        installed := installed - {t.key};
        abandoned := abandoned + multiset{n};
        releases := releases + multiset{t.key};
        assert abandoned[n] == was.abandoned[n] + 1;
      }
    }

    // handlePWSResponse looks the key up.
    method FindTransaction(key: Key, enb: Enb) returns (found: Option<nat>)
      requires Valid()
      modifies this`counting
      ensures View() == Load(old(View()), key, enb) && Valid()
      ensures found.Some? ==> Installed(View(), found.value) && Reply(found.value, enb) in counting
      ensures found.None? ==> forall n :: n in txs && txs[n].key == key ==> !Installed(View(), n)
    {
      StepKeeps(View(), Loads(key, enb));
      if key !in installed { return None; }
      found := Some(installed[key]);
      counting := counting + multiset{Reply(installed[key], enb)};
    }

    // The answer of an eNB, counted under the lock of the transaction it has found.
    method CountAnswer(n: nat, enb: Enb) returns (done: bool)
      requires Valid() && Reply(n, enb) in counting && n in txs
      modifies this
      ensures View() == Count(old(View()), n, enb) && Valid()
      // The last answer, and only that one, goes on to take the transaction out.
      ensures done <==> old(txs)[n].pending == {enb}
      ensures done ==> n in taking
      ensures finished == old(finished) && abandoned == old(abandoned) && installed == old(installed)
    {
      hide Sound, Split, Installed;
      StepKeeps(View(), Counts(n, enb));
      counting := counting - multiset{Reply(n, enb)};
      if enb !in txs[n].pending { return false; }
      txs := txs[n := txs[n].(pending := txs[n].pending - {enb}, answered := txs[n].answered + {enb})];
      done := txs[n].pending == {};
      if done { taking := taking + {n}; }
    }

    // CompareAndDelete and, on success, the start of finishPWSTransaction.
    method CompleteTransaction(n: nat) returns (mine: bool)
      requires Valid() && n in taking && n in txs
      modifies this
      ensures View() == Complete(old(View()), n) && Valid()
      ensures mine <==> Installed(old(View()), n)
      // Each transaction is indicated at most once, and nobody else's key is given back.
      ensures finished[n] <= 1 && (mine ==> finished[n] == 1 && releases == old(releases) + multiset{txs[n].key})
      ensures !mine ==> finished == old(finished) && releases == old(releases)
    {
      hide Sound;
      StepKeeps(View(), Completes(n));
      FinishedOnce(Complete(View(), n), n);
      taking := taking - {n};
      var key := txs[n].key;
      mine := key in installed && installed[key] == n;
      if mine { TakeOut(key); }
    }

    // The transaction stored under the key goes to finishPWSTransaction.
    method TakeOut(key: Key)
      requires key in installed
      modifies this`installed, this`finished, this`releases
      ensures View() == Take(old(View()), key)
    {
      finished := finished + multiset{installed[key]};
      installed := installed - {key};
      releases := releases + multiset{key};
    }

    // expirePWSTransaction.
    method OnTimeout(n: nat)
      requires Valid() && n in timers && n in txs
      modifies this
      ensures View() == Expire(old(View()), n) && Valid() && n !in timers
      // It ends what is stored under the key, which can be a later transaction.
      ensures forall m :: m in finished && m !in old(finished) <==>
                m in txs && txs[m].key == txs[n].key && Installed(old(View()), m)
      ensures abandoned == old(abandoned)
    {
      hide Sound, Installed;
      StepKeeps(View(), TimesOut(n));
      ExpiryTakesTheStored(View(), n);
      timers := timers - {n};
      var key := txs[n].key;
      if key in installed { TakeOut(key); }
    }

    // releasePWSTransactionBase.
    method ReleaseKey(key: Key)
      requires Valid() && key in releases
      modifies this
      ensures View() == Release(old(View()), key) && Valid() && key !in bases
      ensures OneHolder(old(View())) ==> OneHolder(View()) && key !in installed && key !in releases
    {
      hide Sound, OneHolder;
      StepKeeps(View(), Releases(key));
      if OneHolder(View()) { ReleasedKeyIsEmpty(View(), key); }
      releases := releases - multiset{key};
      bases := bases - {key};
    }
  }

  lemma FreeKeyIsEmpty(s: State, key: Key)
    requires OneHolder(s)
    ensures OneHolder(Reserve(s, key)) && (key !in s.bases ==> key !in s.installed)
  {
    StepKeepsOneHolderExactlyWhen(s, Reserves(key));
    assert Holders(s, key) == if key in s.bases then 1 else 0;
  }

  lemma StoredIsInstalled(s: State, n: nat, key: Key, targets: set<Enb>)
    requires key in s.storing && n !in s.txs
    ensures Installed(Store(s, n, key, targets), n)
  {}

  lemma StoringDisplacesNothing(s: State, n: nat, key: Key, targets: set<Enb>)
    requires OneHolder(s)
    ensures OneHolder(Store(s, n, key, targets))
    ensures forall m :: Installed(s, m) ==> Installed(Store(s, n, key, targets), m)
  {
    StepKeepsOneHolderExactlyWhen(s, Stores(n, key, targets));
    forall m | Installed(s, m) ensures Installed(Store(s, n, key, targets), m) {
      if n !in s.txs { StoreDisplacesExactlyWhen(s, n, key, targets, m); }
    }
  }

  lemma ReleasedKeyIsEmpty(s: State, key: Key)
    requires OneHolder(s) && key in s.releases
    ensures OneHolder(Release(s, key)) && key !in s.installed && key !in Release(s, key).releases
  {
    StepKeepsOneHolderExactlyWhen(s, Releases(key));
    assert Holders(s, key) == if key in s.bases then 1 else 0;
  }

  lemma ExpiryTakesTheStored(s: State, n: nat)
    requires Sound(s) && n in s.timers && n in s.txs
    ensures forall m :: m in Expire(s, n).finished && m !in s.finished <==>
              m in s.txs && s.txs[m].key == s.txs[n].key && Installed(s, m)
  {
    hide Split;
  }

  lemma FinishedOnce(s: State, n: nat)
    requires Sound(s)
    ensures s.finished[n] <= 1
  {}

  // ---------------------------------------------------------------- answers lead to the indication

  // A round of the send loop tries one eNB: it was reached, or it is not waited for any more.
  lemma SendMeaning(s: State, n: nat, enb: Enb, ok: bool)
    ensures var t := Send(s, n, enb, ok);
            if Untried(s, n, enb) then
              && n in t.txs && t == s.(txs := s.txs[n := t.txs[n]])
              && (ok ==> t.txs[n] == s.txs[n].(sent := s.txs[n].sent + {enb}))
              && (!ok ==> t.txs[n] == s.txs[n].(pending := s.txs[n].pending - {enb},
                                                 sendFailed := s.txs[n].sendFailed + {enb}))
            else t == s
    ensures Untried(s, n, enb) <==>
              n in s.txs && s.txs[n].sending && enb in s.txs[n].targets - s.txs[n].sent - s.txs[n].sendFailed
  {}

  // An answer is counted for the transaction that is stored under its key when it arrives. The answer
  // of the last eNB waited for goes on to take the transaction out.
  lemma AnswerMeaning(s: State, key: Key, n: nat, enb: Enb)
    ensures Load(s, key, enb)
            == if key in s.installed then s.(counting := s.counting + multiset{Reply(s.installed[key], enb)}) else s
    ensures var t := Count(s, n, enb);
            var waited := n in s.txs && enb in s.txs[n].pending;
            if Reply(n, enb) !in s.counting then t == s
            else
              && t.counting == s.counting - multiset{Reply(n, enb)}
              && (!waited ==> t == s.(counting := t.counting))
              && (waited ==>
                    && n in t.txs && t == s.(counting := t.counting, txs := s.txs[n := t.txs[n]], taking := t.taking)
                    && t.txs[n] == s.txs[n].(pending := s.txs[n].pending - {enb}, answered := s.txs[n].answered + {enb})
                    && t.taking == if s.txs[n].pending - {enb} == {} then s.taking + {n} else s.taking)
  {}

  // The answers of these eNBs, one after the other.
  function AnswersOf(key: Key, n: nat, order: seq<Enb>): seq<Event> {
    if order == [] then [] else [Loads(key, order[0]), Counts(n, order[0])] + AnswersOf(key, n, order[1..])
  }

  // What the answers have done: `order` has answered, the rest is waited for, and the transaction goes
  // on to be taken out once nobody is.
  ghost predicate Gathered(s: State, t: State, n: nat, order: seq<Enb>) {
    && n in s.txs && n in t.txs && Installed(t, n) && t.txs[n].key == s.txs[n].key
    && t.txs[n].pending == s.txs[n].pending - (set e | e in order)
    && t.txs[n].answered == s.txs[n].answered + (set e | e in order)
    && (order != [] ==> (t.txs[n].pending == {} ==> n in t.taking))
    && t.finished == s.finished && t.installed == s.installed && t.counting == s.counting
  }

  lemma OneAnswer(s: State, n: nat, enb: Enb)
    requires Installed(s, n) && enb in s.txs[n].pending
    ensures var t := Step(Step(s, Loads(s.txs[n].key, enb)), Counts(n, enb));
            && Installed(t, n) && t.txs[n].key == s.txs[n].key
            && t.txs[n].pending == s.txs[n].pending - {enb} && t.txs[n].answered == s.txs[n].answered + {enb}
            && (t.txs[n].pending == {} ==> n in t.taking)
            && t.finished == s.finished && t.installed == s.installed && t.counting == s.counting
  {
    assert s.counting + multiset{Reply(n, enb)} - multiset{Reply(n, enb)} == s.counting;
  }

  lemma {:induction false} AnswersGather(s: State, n: nat, order: seq<Enb>)
    requires Installed(s, n) && (forall i :: 0 <= i < |order| ==> order[i] in s.txs[n].pending)
    requires forall i, j :: 0 <= i < j < |order| ==> order[i] != order[j]
    ensures Gathered(s, Run(s, AnswersOf(s.txs[n].key, n, order)), n, order)
    decreases |order|
  {
    hide Step;
    var key := s.txs[n].key;
    if order == [] {
    } else {
      OneAnswer(s, n, order[0]);
      var es := AnswersOf(key, n, order);
      var u := Step(Step(s, Loads(key, order[0])), Counts(n, order[0]));
      assert es[1..][1..] == AnswersOf(key, n, order[1..]);
      assert Run(s, es) == Run(Step(s, es[0]), es[1..]);
      assert Run(Step(s, es[0]), es[1..]) == Run(u, AnswersOf(key, n, order[1..]));
      forall i | 0 <= i < |order[1..]| ensures order[1..][i] in u.txs[n].pending { assert order[1..][i] == order[i + 1]; }
      AnswersGather(u, n, order[1..]);
      assert (set e | e in order) == {order[0]} + set e | e in order[1..];
      if order[1..] == [] { assert AnswersOf(key, n, order[1..]) == []; }
    }
  }

  // When every eNB that is waited for answers, in whatever order, the transaction is indicated by the
  // answers alone, and once.
  lemma EveryOrderOfAnswersIndicates(s: State, n: nat, order: seq<Enb>)
    requires Sound(s) && Installed(s, n) && s.txs[n].pending != {} && s.txs[n].pending == set e | e in order
    requires forall i, j :: 0 <= i < j < |order| ==> order[i] != order[j]
    ensures var t := Run(s, AnswersOf(s.txs[n].key, n, order));
            var u := Step(t, Completes(n));
            && n in t.txs && t.txs[n].pending == {} && t.txs[n].answered == s.txs[n].answered + s.txs[n].pending
            && s.finished[n] == 0 && u.finished[n] == 1 && !Installed(u, n) && s.txs[n].key in u.releases
  {
    forall i | 0 <= i < |order| ensures order[i] in s.txs[n].pending { assert order[i] in order; }
    AnswersGather(s, n, order);
    NotFinishedYet(s, n);
    hide Run, Step, Sound, Gathered, Installed;
    assert order != [];
    GatheredCompletes(s, Run(s, AnswersOf(s.txs[n].key, n, order)), n, order);
  }

  lemma NotFinishedYet(s: State, n: nat)
    requires Sound(s) && Installed(s, n)
    ensures n in s.txs && s.finished[n] == 0
  {
    hide Shaped;
  }

  lemma GatheredCompletes(s: State, t: State, n: nat, order: seq<Enb>)
    requires Gathered(s, t, n, order) && order != [] && s.txs[n].pending == set e | e in order
    ensures n in t.txs && t.txs[n].pending == {} && t.txs[n].answered == s.txs[n].answered + s.txs[n].pending
    ensures var u := Step(t, Completes(n));
            u.finished[n] == s.finished[n] + 1 && !Installed(u, n) && s.txs[n].key in u.releases
  {}
}
