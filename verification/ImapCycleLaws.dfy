/** Whole-run safety of the IMAP cycle: what every step keeps, and what follows
    over every run. */
module ImapCycleLaws {
  import opened Domain
  import opened MessageIdentity
  import opened ImapServer
  import opened StoreTables
  import opened StoreLaws
  import opened StoreRuns
  import opened ImapPass
  import opened ImapPassLaws
  import opened ImapCycle

  // ----- writes of server flags

  /** A flag the server held for its message since may be written at any time. */
  lemma FlagsKeptReflects(naming: Naming, held: map<string, Flags>, held': map<string, Flags>, missing: seq<ListedMessage>,
                          unnamed: set<nat>, h: History, a: nat, b: nat, z: nat)
    requires ValidHistory(h) && a <= b && Reflects(naming, held, missing, unnamed, h, a, z)
    requires FlagsKept(naming, held, held', h, b, z)
    ensures Reflects(naming, held', missing, unnamed, h, a, z)
  {
    if SameNumbers(h[a], h[z]) {
      forall u, i | IsOf(naming, h[a], u, i) && !Withheld(naming, unnamed, u)
        ensures Holds(held', missing, i)
      {
        assert Holds(held, missing, i);
      }
      forall i | i in held'
        ensures exists u :: StoredFor(naming, unnamed, h, a, z, u, i, held'[i])
      {
        var u :| StoredFor(naming, unnamed, h, a, z, u, i, held[i]);
        if !Withheld(naming, unnamed, u) {
          KeptFlagSeen(naming, held, held', h, a, b, z, u, i, Seen);
          KeptFlagSeen(naming, held, held', h, a, b, z, u, i, Flagged);
        }
        assert StoredFor(naming, unnamed, h, a, z, u, i, held'[i]);
      }
    }
  }

  lemma KeptFlagSeen(naming: Naming, held: map<string, Flags>, held': map<string, Flags>,
                     h: History, a: nat, b: nat, z: nat, u: nat, i: string, flag: Flag)
    requires ValidHistory(h) && a <= b && a <= z < |h| && SameNumbers(h[a], h[z])
    requires FlagsKept(naming, held, held', h, b, z)
    requires i in held && StandsFor(naming, h, a, z, u, i, held[i])
    ensures FlagSeen(h, a, z, u, flag, held'[i].Of(flag))
  {
    assert FlagSeen(h, a, z, u, flag, held[i].Of(flag));
    if held'[i].Of(flag) != held[i].Of(flag) {
      var k, v :| b <= k <= z && IsOf(naming, h[k], v, i) && SeenAt(h, k, v, flag, held'[i].Of(flag));
      SameNumbersSameMessages(h, a, k, z);
      IdentityStays(naming, h, a, k, u, i);
      OneMessagePerIdentity(naming, h[k], u, v, i);
    }
  }

  /** Settling the value the server showed keeps the folder's messages, and its
      flags the server's. */
  lemma SettleKeepsFlags(s: Setting, t: Tables, identities: seq<string>, flag: Flag, value: bool, h: History, a: nat, z: nat)
    requires Valid(t) && z < |h|
    requires forall i :: i in identities ==> WasServerFlag(s.naming, h, a, z, i, flag, value)
    ensures Valid(Settle(t, s.account, identities, flag, value))
    ensures FlagsKept(s.naming, Held(t, s.Folder()), Held(Settle(t, s.account, identities, flag, value), s.Folder()), h, a, z)
  {
    FlagWritesKeepValid(t, s.Key(""), s.account, identities, flag, value);
    var t' := Settle(t, s.account, identities, flag, value);
    var held, held' := Held(t, s.Folder()), Held(t', s.Folder());
    forall i
      ensures i in held' <==> i in held
      ensures i in held ==> held'[i] == if i in identities then held[i].With(flag, value) else held[i]
    {
      HeldIsMembership(t, s.Folder(), i);
      HeldIsMembership(t', s.Folder(), i);
    }
    forall i, f | i in held
      ensures held'[i].Of(f) == held[i].Of(f) || WasServerFlag(s.naming, h, a, z, i, f, held'[i].Of(f))
    {
    }
  }

  lemma SameFlags(a: map<string, Flags>, b: map<string, Flags>)
    requires forall i :: i in a <==> i in b
    requires forall i :: i in a ==> a[i] == b[i]
    ensures a == b
  {
  }

  lemma WishKeepsHeld(s: Setting, t: Tables, k: MessageKey, flag: Flag, wanted: bool)
    requires Valid(t)
    ensures Valid(WriteWish(t, k, flag, wanted)) && Held(WriteWish(t, k, flag, wanted), s.Folder()) == Held(t, s.Folder())
  {
    FlagWritesKeepValid(t, k, s.account, [], flag, wanted);
    var t' := WriteWish(t, k, flag, wanted);
    forall i
      ensures i in Held(t', s.Folder()) <==> i in Held(t, s.Folder())
      ensures i in Held(t, s.Folder()) ==> Held(t', s.Folder())[i] == Held(t, s.Folder())[i]
    {
      HeldIsMembership(t, s.Folder(), i);
      HeldIsMembership(t', s.Folder(), i);
    }
    SameFlags(Held(t', s.Folder()), Held(t, s.Folder()));
  }

  lemma DropKeepsHeld(s: Setting, t: Tables, identities: seq<string>, flag: Flag, refused: bool)
    requires Valid(t)
    ensures Valid(DropRefused(t, s.account, identities, flag, refused))
    ensures Held(DropRefused(t, s.account, identities, flag, refused), s.Folder()) == Held(t, s.Folder())
  {
    FlagWritesKeepValid(t, s.Key(""), s.account, identities, flag, refused);
    var t' := DropRefused(t, s.account, identities, flag, refused);
    forall i
      ensures i in Held(t', s.Folder()) <==> i in Held(t, s.Folder())
      ensures i in Held(t, s.Folder()) ==> Held(t', s.Folder())[i] == Held(t, s.Folder())[i]
    {
      HeldIsMembership(t, s.Folder(), i);
      HeldIsMembership(t', s.Folder(), i);
    }
    SameFlags(Held(t', s.Folder()), Held(t, s.Folder()));
  }

  // ----- the steps, one by one

  lemma ServerActsKeeps(s: Setting, w: World, w': World)
    requires Inv(s, w) && Next(s, w, ServerActs, w')
    ensures Inv(s, w')
  {
    var n, n' := Now(w), Now(w');
    var held := Held(w.t, s.Folder());
    assert forall k :: 0 <= k <= n ==> w'.h[k] == w.h[k];
    if StateOf(s, w.t).synchronized {
      ReflectsLater(s.naming, held, [], w.unnamed, w.h, w.opening, n, w'.h, n');
    }
    assert Synchronized(s, w');
    match w.cycle
    case Idle =>
    case Opened(c, numbers, sync, pending, plan) =>
      if sync.state.synchronized {
        ReflectsLater(s.naming, sync.stored, [], w.unnamed, w.h, w.opening, c, w'.h, c);
      }
    case Filling(_, _, _, _, _, _, _, _, _) => FillingLater(s, w, w');
    case Reopened(_, _, _, _, _, _, _) => ReopenedLater(s, w, w');
  }

  lemma FillingLater(s: Setting, w: World, w': World)
    requires Inv(s, w) && w.cycle.Filling? && ValidHistory(w'.h) && |w.h| <= |w'.h| && w'.h[..|w.h|] == w.h
    requires w' == w.(h := w'.h)
    ensures CycleSound(s, w')
  {
    var c, n := w.cycle.c, Now(w);
    assert forall k :: 0 <= k <= n ==> w'.h[k] == w.h[k];
    forall m | m in w.cycle.listed
      ensures EntryWasThere(s.naming, w'.h, c, Now(w'), m)
    {
      var k :| c <= k <= n && IsOf(s.naming, w.h[k], m.uid, m.identity) && w.h[k].messages[m.uid].flags == m.flags;
      assert IsOf(s.naming, w'.h[k], m.uid, m.identity);
    }
    if w.cycle.complete {
      ReflectsLater(s.naming, Held(w.t, s.Folder()), w.cycle.missing, w.cycle.unnamed, w.h, c, n, w'.h, Now(w'));
    }
  }

  lemma ReopenedLater(s: Setting, w: World, w': World)
    requires Inv(s, w) && w.cycle.Reopened? && ValidHistory(w'.h) && |w.h| <= |w'.h| && w'.h[..|w.h|] == w.h
    requires w' == w.(h := w'.h)
    ensures CycleSound(s, w')
  {
    var c := w.cycle.c;
    assert forall k :: 0 <= k <= Now(w) ==> w'.h[k] == w.h[k];
    if w.cycle.sync.state.synchronized {
      ReflectsLater(s.naming, w.cycle.sync.stored, [], w.unnamed, w.h, w.opening, c, w'.h, c);
    }
    if w.cycle.complete {
      ReflectsLater(s.naming, w.cycle.sync.stored, [], w.cycle.unnamed, w.h, w.cycle.first, c, w'.h, c);
      var before :| Reports(before, w.h[w.cycle.first]) && w.cycle.plan == PlanOf(w.cycle.numbers, Some(before), false);
      assert Reports(before, w'.h[w.cycle.first]);
    }
  }

  /** What leaves the folder's messages, flags and state alone leaves the rest. */
  lemma SameFolderKeeps(s: Setting, w: World, w': World)
    requires Inv(s, w) && w'.h == w.h && w'.opening == w.opening && w'.unnamed == w.unnamed && (w'.cycle == w.cycle || w'.cycle == Idle)
    requires Valid(w'.t) && s.Folder() in w'.t.folders
    requires StateOf(s, w'.t) == StateOf(s, w.t) && Held(w'.t, s.Folder()) == Held(w.t, s.Folder())
    ensures Inv(s, w')
  {
    assert Synchronized(s, w');
    assert SyncOf(s, w'.t) == SyncOf(s, w.t);
  }

  lemma UserWishesKeeps(s: Setting, w: World, k: MessageKey, flag: Flag, wanted: bool, w': World)
    requires Inv(s, w) && Next(s, w, UserWishes(k, flag, wanted), w')
    ensures Inv(s, w')
  {
    WishKeepsHeld(s, w.t, k, flag, wanted);
    SameFolderKeeps(s, w, w');
  }

  lemma IsRefusedKeeps(s: Setting, w: World, command: seq<ListedMessage>, flag: Flag, wanted: bool, w': World)
    requires Inv(s, w) && Next(s, w, IsRefused(command, flag, wanted), w')
    ensures Inv(s, w')
  {
    DropKeepsHeld(s, w.t, IdentitiesOf(command), flag, wanted);
    SameFolderKeeps(s, w, w');
  }

  lemma OthersActKeeps(s: Setting, w: World, refused: set<PendingChange>, w': World)
    requires Inv(s, w) && Next(s, w, OthersAct(refused), w')
    ensures Inv(s, w')
  {
    hide Reflects, Reports, Held, FlagsKept, WishKept, Valid;
    if StateOf(s, w.t).synchronized {
      FlagsKeptReflects(s.naming, Held(w.t, s.Folder()), Held(w'.t, s.Folder()), [], w.unnamed, w.h, w.opening, w.opening, Now(w));
    }
  }

  lemma SettledSynchronized(s: Setting, w: World, c: nat, w': World)
    requires w.h != [] && ValidHistory(w.h) && Synchronized(s, w) && (StateOf(s, w.t).synchronized ==> w.opening <= c)
    requires w'.h == w.h && w'.opening == w.opening && w'.unnamed == w.unnamed && StateOf(s, w'.t) == StateOf(s, w.t)
    requires FlagsKept(s.naming, Held(w.t, s.Folder()), Held(w'.t, s.Folder()), w.h, c, Now(w))
    ensures Synchronized(s, w')
  {
    hide Reflects, FlagsKept, Held, Reports;
    if StateOf(s, w.t).synchronized {
      FlagsKeptReflects(s.naming, Held(w.t, s.Folder()), Held(w'.t, s.Folder()), [], w.unnamed, w.h, w.opening, c, Now(w));
    }
  }

  lemma SettledFilling(s: Setting, w: World, w': World)
    requires w.h != [] && ValidHistory(w.h) && w.cycle.Filling? && CycleSound(s, w)
    requires w'.h == w.h && w'.opening == w.opening && StateOf(s, w'.t) == StateOf(s, w.t)
    requires w'.cycle.Filling? && w'.cycle == w.cycle.(sent := w'.cycle.sent)
    requires FlagsKept(s.naming, Held(w.t, s.Folder()), Held(w'.t, s.Folder()), w.h, w.cycle.c, Now(w))
    ensures CycleSound(s, w')
  {
    hide Reflects, FlagsKept, Held, Reports, EntryWasThere;
    if w.cycle.complete {
      FlagsKeptReflects(s.naming, Held(w.t, s.Folder()), Held(w'.t, s.Folder()), w.cycle.missing, w.cycle.unnamed,
                        w.h, w.cycle.c, w.cycle.c, Now(w));
    }
  }

  /** Settling keeps both what the folder reflects and what the cycle relies on. */
  lemma SettlingKeeps(s: Setting, w: World, identities: seq<string>, flag: Flag, value: bool, w': World)
    requires Inv(s, w) && w.cycle.Filling?
    requires w'.h == w.h && w'.opening == w.opening && w'.unnamed == w.unnamed && w'.t == Settle(w.t, s.account, identities, flag, value)
    requires w'.cycle.Filling? && w'.cycle == w.cycle.(sent := w'.cycle.sent)
    requires forall i :: i in identities ==> WasServerFlag(s.naming, w.h, w.cycle.c, Now(w), i, flag, value)
    ensures Inv(s, w')
  {
    hide Reflects, FlagsKept, Held, Reports, EntryWasThere, WasServerFlag;
    SettleKeepsFlags(s, w.t, identities, flag, value, w.h, w.cycle.c, Now(w));
    SettledSynchronized(s, w, w.cycle.c, w');
    SettledFilling(s, w, w');
  }

  /** A listed message's flag was the server's since the opening. */
  lemma ListedIsServerFlag(s: Setting, w: World, shown: ListedMessage, flag: Flag)
    requires w.h != [] && w.cycle.Filling? && CycleSound(s, w) && shown in w.cycle.listed
    ensures WasServerFlag(s.naming, w.h, w.cycle.c, Now(w), shown.identity, flag, shown.flags.Of(flag))
  {
    assert EntryWasThere(s.naming, w.h, w.cycle.c, Now(w), shown);
    EntryFlag(s.naming, w.h, w.cycle.c, Now(w), shown, flag);
  }

  lemma EntryFlag(naming: Naming, h: History, c: nat, z: nat, m: ListedMessage, flag: Flag)
    requires z < |h| && EntryWasThere(naming, h, c, z, m)
    ensures WasServerFlag(naming, h, c, z, m.identity, flag, m.flags.Of(flag))
  {
    var k :| c <= k <= z && IsOf(naming, h[k], m.uid, m.identity) && h[k].messages[m.uid].flags == m.flags;
    assert SeenAt(h, k, m.uid, flag, m.flags.Of(flag));
  }

  lemma SettlesShownKeeps(s: Setting, w: World, shown: ListedMessage, flag: Flag, w': World)
    requires Inv(s, w) && Next(s, w, SettlesShown(shown, flag), w')
    ensures Inv(s, w')
  {
    hide Reflects, Held, Reports, EntryWasThere, WasServerFlag;
    ListedIsServerFlag(s, w, shown, flag);
    SettlingKeeps(s, w, [shown.identity], flag, shown.flags.Of(flag), w');
  }

  lemma {:induction false} NamedByUidIs(command: seq<ListedMessage>, uid: nat)
    ensures NamedByUid(command, uid).Some? ==>
              NamedByUid(command, uid).value in command && NamedByUid(command, uid).value.uid == uid
    ensures NamedByUid(command, uid).None? ==> forall m :: m in command ==> m.uid != uid
  {
    if command != [] && command[0].uid != uid {
      NamedByUidIs(command[1..], uid);
    }
  }

  /** A confirmed identity is one of the command's, and the reading showed its
      message holding the wanted value. */
  lemma {:induction false} ConfirmedWasRead(command: seq<ListedMessage>, flag: Flag, wanted: bool, reading: seq<ListedUid>, i: string)
    returns (m: ListedMessage, e: ListedUid)
    requires i in Confirmed(command, flag, wanted, reading)
    ensures m in command && m.identity == i
    ensures e in reading && e.uid == m.uid && e.flags.Of(flag) == wanted
  {
    var n := |reading| - 1;
    if i in Confirmed(command, flag, wanted, reading[..n]) {
      m, e := ConfirmedWasRead(command, flag, wanted, reading[..n], i);
    } else {
      e := reading[n];
      NamedByUidIs(command, e.uid);
      m := NamedByUid(command, e.uid).value;
    }
  }

  lemma ConfirmsKeeps(s: Setting, w: World, command: seq<ListedMessage>, flag: Flag, wanted: bool, reading: seq<ListedUid>, w': World)
    requires Inv(s, w) && Next(s, w, Confirms(command, flag, wanted, reading), w')
    ensures Inv(s, w')
  {
    forall i | i in Confirmed(command, flag, wanted, reading)
      ensures WasServerFlag(s.naming, w.h, w.cycle.c, Now(w), i, flag, wanted)
    {
      ConfirmedIsServerFlag(s, w, command, flag, wanted, reading, i);
    }
    SettlingKeeps(s, w, Confirmed(command, flag, wanted, reading), flag, wanted, w');
  }

  /** A confirmed value was the server's at a moment since the opening. */
  lemma ConfirmedIsServerFlag(s: Setting, w: World, command: seq<ListedMessage>, flag: Flag, wanted: bool, reading: seq<ListedUid>, i: string)
    requires Inv(s, w) && w.cycle.Filling? && (forall m :: m in command ==> m in w.cycle.listed)
    requires TrueEntries(w.h, w.cycle.c, Now(w), reading) && i in Confirmed(command, flag, wanted, reading)
    ensures WasServerFlag(s.naming, w.h, w.cycle.c, Now(w), i, flag, wanted)
  {
    var c, n := w.cycle.c, Now(w);
    var m, e := ConfirmedWasRead(command, flag, wanted, reading, i);
    assert TrueSometime(w.h, c, n, e);
    var k :| c <= k <= n && TrueAt(w.h, k, e);
    assert EntryWasThere(s.naming, w.h, c, n, m);
    var j :| c <= j <= n && IsOf(s.naming, w.h[j], m.uid, m.identity);
    IdentityAtBoth(s.naming, w.h, c, n, j, k, m.uid, i);
    assert SeenAt(w.h, k, m.uid, flag, wanted);
  }

  lemma IdentityAtBoth(naming: Naming, h: History, c: nat, n: nat, j: nat, k: nat, u: nat, i: string)
    requires ValidHistory(h) && c <= j <= n < |h| && c <= k <= n && h[c].uidValidity == h[n].uidValidity
    requires IsOf(naming, h[j], u, i) && u in h[k].messages
    ensures IsOf(naming, h[k], u, i)
  {
    FollowsLater(h, c, j);
    FollowsLater(h, j, n);
    FollowsLater(h, c, k);
    FollowsLater(h, k, n);
    if j <= k {
      IdentityStays(naming, h, j, k, u, i);
    } else {
      IdentityStays(naming, h, k, j, u, i);
    }
  }

  lemma OpensKeeps(s: Setting, w: World, numbers: FolderNumbers, w': World)
    requires Inv(s, w) && Next(s, w, Opens(numbers), w')
    ensures Inv(s, w')
  {
    OpenedIsSound(s, w, w');
  }

  lemma OpenedIsSound(s: Setting, w: World, w': World)
    requires w.h != [] && Synchronized(s, w)
    requires w'.h == w.h && w'.t == w.t && w'.opening == w.opening && w'.unnamed == w.unnamed && w'.cycle.Opened?
    requires w'.cycle.c == Now(w) && Reports(w'.cycle.numbers, w.h[Now(w)]) && w'.cycle.sync == SyncOf(s, w.t)
    requires
      var state := StateOf(s, w.t);
      w'.cycle.plan == PlanOf(w'.cycle.numbers, if state.synchronized then state.numbers else None, w'.cycle.pending != {})
    ensures CycleSound(s, w') && Synchronized(s, w')
  {
    hide Reflects, Held, Reports;
  }

  lemma ReopensKeeps(s: Setting, w: World, numbers: FolderNumbers, w': World)
    requires Inv(s, w) && Next(s, w, Reopens(numbers), w')
    ensures Inv(s, w')
  {
    ReopenedIsSound(s, w, w');
  }

  lemma ReopenedIsSound(s: Setting, w: World, w': World)
    requires w.h != [] && w.cycle.Filling? && w.cycle.missing == [] && CycleSound(s, w) && Synchronized(s, w)
    requires w'.h == w.h && w'.t == w.t && w'.opening == w.opening && w'.unnamed == w.unnamed && w'.cycle.Reopened?
    requires w'.cycle.c == Now(w) && Reports(w'.cycle.numbers, w.h[Now(w)])
    requires w'.cycle.first == w.cycle.c && w'.cycle.complete == w.cycle.complete && w'.cycle.unnamed == w.cycle.unnamed && w'.cycle.sync == SyncOf(s, w.t)
    requires w'.cycle.plan == PlanOf(w'.cycle.numbers, if w.cycle.complete then Some(w.cycle.numbers) else None, false)
    ensures CycleSound(s, w') && Synchronized(s, w')
  {
    if w.cycle.complete {
      var before := w.cycle.numbers;
      assert Reports(before, w'.h[w'.cycle.first]) && w'.cycle.plan == PlanOf(w'.cycle.numbers, Some(before), false);
    }
  }

  // ----- the passes

  lemma EmptyBatchChangesNothing(t: Tables, folder: FolderKey)
    requires folder in t.folders
    ensures ApplyBatch(t, folder, EMPTY_BATCH) == t
  {
    assert WithFlagStates(t.messages, folder.account, []) == t.messages;
    assert ArrivedKeys(folder.account, []) == {};
    assert WithArrived(t.messages, folder.account, []) == t.messages;
    assert Related(folder, {}) == {};
    assert KnownKeys(folder.account, []) == {};
  }

  /** The messages whose identity the listing the plan rests on was not told. */
  function UnnamedBefore(w: World): set<nat>
    requires w.cycle.Opened? || w.cycle.Reopened?
  {
    if w.cycle.Opened? then w.unnamed else w.cycle.unnamed
  }

  /** The opening the plan was compared with, or any when everything is listed. */
  ghost predicate PassSound(s: Setting, w: World)
    requires (w.cycle.Opened? || w.cycle.Reopened?) && w.h != []
  {
    && w.cycle.c <= Now(w) && w.cycle.sync == SyncOf(s, w.t) && Reports(w.cycle.numbers, w.h[w.cycle.c])
    && (w.cycle.sync.state.synchronized ==>
          w.opening <= w.cycle.c && Reflects(s.naming, w.cycle.sync.stored, [], w.unnamed, w.h, w.opening, w.cycle.c))
    && exists a :: PlanRests(s.naming, w.cycle.sync.stored, UnnamedBefore(w), w.h, a, w.cycle.c, w.cycle.plan)
  }

  lemma PassIsSound(s: Setting, w: World)
    requires Inv(s, w) && (w.cycle.Opened? || w.cycle.Reopened?)
    ensures PassSound(s, w)
  {
    if w.cycle.Opened? {
      if w.cycle.sync.state.synchronized {
        PlanCompares(w.h, w.opening, w.cycle.c, w.cycle.sync.state.numbers.value, w.cycle.numbers, w.cycle.pending != {});
        assert PlanRests(s.naming, w.cycle.sync.stored, UnnamedBefore(w), w.h, w.opening, w.cycle.c, w.cycle.plan);
      } else {
        assert PlanRests(s.naming, w.cycle.sync.stored, UnnamedBefore(w), w.h, 0, w.cycle.c, w.cycle.plan);
      }
    } else {
      if w.cycle.complete {
        var before :| Reports(before, w.h[w.cycle.first]) && w.cycle.plan == PlanOf(w.cycle.numbers, Some(before), false);
        PlanCompares(w.h, w.cycle.first, w.cycle.c, before, w.cycle.numbers, false);
        assert PlanRests(s.naming, w.cycle.sync.stored, UnnamedBefore(w), w.h, w.cycle.first, w.cycle.c, w.cycle.plan);
      } else {
        assert PlanRests(s.naming, w.cycle.sync.stored, UnnamedBefore(w), w.h, 0, w.cycle.c, w.cycle.plan);
      }
    }
  }

  lemma CompletePassReflectsWorld(s: Setting, w: World, messages: seq<ListedUid>, listed: seq<ListedMessage>, b: Batch, t': Tables)
    requires ValidHistory(w.h) && Valid(w.t) && s.Folder() in w.t.folders
    requires (w.cycle.Opened? || w.cycle.Reopened?) && PassSound(s, w)
    requires Answer(w.h, w.cycle.c, Now(w), w.cycle.plan, messages, true)
    requires listed == Identify(s.naming, w.h[w.cycle.c].uidValidity, messages)
    requires b == PassBatch(w.cycle.sync, w.cycle.numbers, w.cycle.plan, listed, true)
    requires t' == ApplyBatch(w.t, s.Folder(), b)
    ensures Reflects(s.naming, Held(t', s.Folder()), Missing(listed, w.cycle.sync.stored), UnnamedNow(s, w, messages),
                     w.h, w.cycle.c, Now(w))
  {
    var a :| PlanRests(s.naming, w.cycle.sync.stored, UnnamedBefore(w), w.h, a, w.cycle.c, w.cycle.plan);
    CompletePassReflects(s.naming, w.t, s.Folder(), w.cycle.sync, w.cycle.numbers, UnnamedBefore(w), w.h, a, w.cycle.c, Now(w), w.cycle.plan, messages);
  }

  predicate MarkedBy(s: Setting, t: Tables, missing: seq<ListedMessage>, numbers: FolderNumbers) {
    if missing != [] then StateOf(s, t) == DEFAULT_STATE
    else StateOf(s, t).synchronized && StateOf(s, t).numbers == Some(numbers)
  }

  /** The folder's state after a pass: not completed while messages are missing,
      else completed with the pass's numbers when its listing completed. */
  lemma StateAfterPass(s: Setting, w: World, listed: seq<ListedMessage>, complete: bool, b: Batch, t': Tables)
    requires (w.cycle.Opened? || w.cycle.Reopened?) && s.Folder() in w.t.folders && w.cycle.sync == SyncOf(s, w.t)
    requires b == PassBatch(w.cycle.sync, w.cycle.numbers, w.cycle.plan, listed, complete)
    requires t' == ApplyBatch(w.t, s.Folder(), b)
    ensures complete || Missing(listed, w.cycle.sync.stored) != [] ==>
              MarkedBy(s, t', Missing(listed, w.cycle.sync.stored), w.cycle.numbers)
    ensures !complete && Missing(listed, w.cycle.sync.stored) == [] ==> StateOf(s, t') == StateOf(s, w.t)
  {
  }

  lemma RefusedPassReflectsWorld(s: Setting, w: World, messages: seq<ListedUid>, listed: seq<ListedMessage>, b: Batch, t': Tables)
    requires ValidHistory(w.h) && Valid(w.t) && s.Folder() in w.t.folders
    requires (w.cycle.Opened? || w.cycle.Reopened?) && PassSound(s, w) && StateOf(s, w.t).synchronized
    requires Answer(w.h, w.cycle.c, Now(w), w.cycle.plan, messages, false)
    requires listed == Identify(s.naming, w.h[w.cycle.c].uidValidity, messages)
    requires b == PassBatch(w.cycle.sync, w.cycle.numbers, w.cycle.plan, listed, false)
    requires t' == ApplyBatch(w.t, s.Folder(), b)
    ensures Reflects(s.naming, Held(t', s.Folder()), [], w.unnamed, w.h, w.opening, Now(w))
  {
    RefusedPassKeeps(s.naming, w.t, s.Folder(), w.cycle.sync, w.cycle.numbers, w.unnamed, w.h, w.opening, w.cycle.c, Now(w), w.cycle.plan, messages);
  }

  /** After a pass the folder, if marked synchronized, reflects the opening whose
      numbers it keeps; and a complete pass leaves it reflecting its own opening. */
  ghost predicate PassKept(s: Setting, w: World, missing: seq<ListedMessage>, unnamed: set<nat>, complete: bool, w': World)
    requires (w.cycle.Opened? || w.cycle.Reopened?) && w'.h != []
  {
    && Valid(w'.t) && s.Folder() in w'.t.folders && Synchronized(s, w')
    && (missing != [] ==> !StateOf(s, w'.t).synchronized)
    && (complete ==> Reflects(s.naming, Held(w'.t, s.Folder()), missing, unnamed, w'.h, w.cycle.c, Now(w')))
    && (StateOf(s, w'.t).synchronized ==> w'.opening <= w.cycle.c)
  }

  /** A folder marked with the numbers of an opening it reflects is sound. */
  lemma MarkedFolderKept(s: Setting, w: World, missing: seq<ListedMessage>, unnamed: set<nat>, w': World)
    requires (w.cycle.Opened? || w.cycle.Reopened?) && w'.h != [] && w.cycle.c <= Now(w')
    requires Reports(w.cycle.numbers, w'.h[w.cycle.c]) && Valid(w'.t) && s.Folder() in w'.t.folders
    requires Reflects(s.naming, Held(w'.t, s.Folder()), missing, unnamed, w'.h, w.cycle.c, Now(w'))
    requires MarkedBy(s, w'.t, missing, w.cycle.numbers)
    requires missing == [] ==> w'.opening == w.cycle.c && w'.unnamed == unnamed
    ensures PassKept(s, w, missing, unnamed, true, w')
  {
  }

  lemma CompletePassKeeps(s: Setting, w: World, listed: seq<ListedMessage>, unnamed: set<nat>, b: Batch, w': World)
    requires w.h != [] && Valid(w.t) && s.Folder() in w.t.folders
    requires (w.cycle.Opened? || w.cycle.Reopened?) && w.cycle.sync == SyncOf(s, w.t)
    requires w.cycle.c <= Now(w) && Reports(w.cycle.numbers, w.h[w.cycle.c])
    requires b == PassBatch(w.cycle.sync, w.cycle.numbers, w.cycle.plan, listed, true)
    requires w'.h == w.h && w'.t == ApplyBatch(w.t, s.Folder(), b)
    requires Missing(listed, w.cycle.sync.stored) == [] ==> w'.opening == w.cycle.c && w'.unnamed == unnamed
    requires Reflects(s.naming, Held(w'.t, s.Folder()), Missing(listed, w.cycle.sync.stored), unnamed, w.h, w.cycle.c, Now(w))
    ensures PassKept(s, w, Missing(listed, w.cycle.sync.stored), unnamed, true, w')
  {
    hide Reflects, Held, Reports, Valid;
    BatchKeepsValid(w.t, s.Folder(), b);
    StateAfterPass(s, w, listed, true, b, w'.t);
    MarkedFolderKept(s, w, Missing(listed, w.cycle.sync.stored), unnamed, w');
  }

  /** A folder whose pass was refused is sound when it reflects what it reflected,
      or is no longer marked. */
  lemma RefusedFolderKept(s: Setting, w: World, missing: seq<ListedMessage>, unnamed: set<nat>, w': World)
    requires (w.cycle.Opened? || w.cycle.Reopened?) && w.h != [] && Synchronized(s, w)
    requires StateOf(s, w.t).synchronized ==> w.opening <= w.cycle.c
    requires w'.h == w.h && w'.opening == w.opening && w'.unnamed == w.unnamed && Valid(w'.t) && s.Folder() in w'.t.folders
    requires if missing != [] then !StateOf(s, w'.t).synchronized else StateOf(s, w'.t) == StateOf(s, w.t)
    requires StateOf(s, w'.t).synchronized ==>
               Reflects(s.naming, Held(w'.t, s.Folder()), [], w'.unnamed, w'.h, w'.opening, Now(w'))
    ensures PassKept(s, w, missing, unnamed, false, w')
  {
    hide Reflects, Held, Reports, Valid;
  }

  lemma RefusedPassKeepsWorld(s: Setting, w: World, messages: seq<ListedUid>, listed: seq<ListedMessage>, unnamed: set<nat>,
                              b: Batch, w': World)
    requires ValidHistory(w.h) && Valid(w.t) && s.Folder() in w.t.folders
    requires (w.cycle.Opened? || w.cycle.Reopened?) && PassSound(s, w) && Synchronized(s, w)
    requires Answer(w.h, w.cycle.c, Now(w), w.cycle.plan, messages, false)
    requires listed == Identify(s.naming, w.h[w.cycle.c].uidValidity, messages)
    requires b == PassBatch(w.cycle.sync, w.cycle.numbers, w.cycle.plan, listed, false)
    requires w'.h == w.h && w'.opening == w.opening && w'.unnamed == w.unnamed && w'.t == ApplyBatch(w.t, s.Folder(), b)
    ensures PassKept(s, w, Missing(listed, w.cycle.sync.stored), unnamed, false, w')
  {
    hide Reflects, Held, Reports, Answer, Identify, PlanRests, Valid, ValidHistory;
    BatchKeepsValid(w.t, s.Folder(), b);
    StateAfterPass(s, w, listed, false, b, w'.t);
    if StateOf(s, w'.t).synchronized {
      RefusedPassReflectsWorld(s, w, messages, listed, b, w'.t);
    }
    RefusedFolderKept(s, w, Missing(listed, w.cycle.sync.stored), unnamed, w');
  }

  lemma PassKeeps(s: Setting, w: World, messages: seq<ListedUid>, complete: bool, listed: seq<ListedMessage>, w': World)
    requires Inv(s, w) && (w.cycle.Opened? || w.cycle.Reopened?)
    requires Answer(w.h, w.cycle.c, Now(w), w.cycle.plan, messages, complete)
    requires listed == Identify(s.naming, w.h[w.cycle.c].uidValidity, messages)
    requires w' == AfterPass(s, w, listed, UnnamedNow(s, w, messages), complete, w'.cycle)
    ensures PassKept(s, w, Missing(listed, w.cycle.sync.stored), UnnamedNow(s, w, messages), complete, w')
  {
    PassIsSound(s, w);
    var b := PassBatch(w.cycle.sync, w.cycle.numbers, w.cycle.plan, listed, complete);
    EmptyBatchChangesNothing(w.t, s.Folder());
    if complete {
      CompletePassReflectsWorld(s, w, messages, listed, b, w'.t);
      CompletePassKeeps(s, w, listed, UnnamedNow(s, w, messages), b, w');
    } else {
      RefusedPassKeepsWorld(s, w, messages, listed, UnnamedNow(s, w, messages), b, w');
    }
  }

  lemma ListedWereThere(s: Setting, w: World, messages: seq<ListedUid>, complete: bool)
    requires ValidHistory(w.h) && w.cycle.Opened? && Answer(w.h, w.cycle.c, Now(w), w.cycle.plan, messages, complete)
    ensures forall m :: m in Identify(s.naming, w.h[w.cycle.c].uidValidity, messages) ==>
              EntryWasThere(s.naming, w.h, w.cycle.c, Now(w), m)
  {
    AnswerIsTrue(w.h, w.cycle.c, Now(w), w.cycle.plan, messages, complete);
    forall m | m in Identify(s.naming, w.h[w.cycle.c].uidValidity, messages)
      ensures EntryWasThere(s.naming, w.h, w.cycle.c, Now(w), m)
    {
      var k := ListedWasThere(s.naming, w.h, w.cycle.c, Now(w), messages, m);
    }
  }

  /** A cycle that goes on to fill is sound after its first pass. */
  lemma FillingIsSound(s: Setting, w: World, w': World)
    requires w.h != [] && w.cycle.Opened? && w.cycle.c <= Now(w) && Reports(w.cycle.numbers, w.h[w.cycle.c])
    requires w'.h == w.h && w'.cycle.Filling? && w'.cycle.c == w.cycle.c && w'.cycle.numbers == w.cycle.numbers
    requires w'.cycle.fetched == (w'.cycle.missing != [])
    requires forall m :: m in w'.cycle.listed ==> EntryWasThere(s.naming, w.h, w.cycle.c, Now(w), m)
    requires PassKept(s, w, w'.cycle.missing, w'.cycle.unnamed, w'.cycle.complete, w')
    ensures CycleSound(s, w')
  {
    hide Reflects, Held, Reports, EntryWasThere;
  }

  lemma FirstPassKeeps(s: Setting, w: World, messages: seq<ListedUid>, complete: bool, w': World)
    requires Inv(s, w) && Next(s, w, FirstPass(messages, complete), w')
    ensures Inv(s, w')
  {
    PassKeeps(s, w, messages, complete, Identify(s.naming, w.h[w.cycle.c].uidValidity, messages), w');
    ListedWereThere(s, w, messages, complete);
    FillingIsSound(s, w, w');
  }

  lemma SecondPassKeeps(s: Setting, w: World, messages: seq<ListedUid>, complete: bool, w': World)
    requires Inv(s, w) && Next(s, w, SecondPass(messages, complete), w')
    ensures Inv(s, w')
  {
    PassKeeps(s, w, messages, complete, Identify(s.naming, w.h[w.cycle.c].uidValidity, messages), w');
  }

  // ----- fetching what is missing

  lemma {:induction false} KnownOfIs(s: Setting, t: Tables, chunk: seq<ListedMessage>, i: string, flags: Flags)
    ensures (i, flags) in KnownOf(s, t, chunk) <==>
              s.Key(i) in t.messages && exists m :: m in chunk && m.identity == i && m.flags == flags
  {
    if chunk != [] {
      var n := |chunk| - 1;
      KnownOfIs(s, t, chunk[..n], i, flags);
      assert chunk == chunk[..n] + [chunk[n]];
    }
  }

  lemma {:induction false} LastArrivedFrom(arrived: seq<Message>, i: string, flags: Flags)
    ensures if i in Identities(arrived)
            then exists m :: m in arrived && m.identity == i && m.flags == LastArrivedFlags(arrived, i, flags)
            else LastArrivedFlags(arrived, i, flags) == flags
  {
    if arrived != [] {
      var n := |arrived| - 1;
      LastArrivedFrom(arrived[..n], i, flags);
      assert arrived == arrived[..n] + [arrived[n]];
    }
  }

  /** Where the flags of a held message come from after a fetched batch: the
      listing, a row, or what was stored. */
  lemma HeldAfterFetch(s: Setting, t: Tables, chunk: seq<ListedMessage>, rows: seq<Message>, i: string)
    requires Valid(t) && s.Folder() in t.folders
    ensures
      var t' := ApplyBatch(t, s.Folder(), FetchBatch(s, t, chunk, rows));
      var held, held' := Held(t, s.Folder()), Held(t', s.Folder());
      && (i in held ==> i in held')
      && (i in Identities(rows) ==> i in held')
      && (s.Key(i) in t.messages && i in ListedIdentities(chunk) ==> i in held')
      && (i in held' ==>
            || (s.Key(i) in t.messages && ListedWith(chunk, i, held'[i]))
            || (exists row :: row in rows && row.identity == i && row.flags == held'[i])
            || (i in held && held'[i] == held[i]))
  {
    var b := FetchBatch(s, t, chunk, rows);
    var t' := ApplyBatch(t, s.Folder(), b);
    HeldAfterBatch(t, s.Folder(), b, i);
    KeysAfterBatch(t, s.Folder(), b, s.Key(i));
    if i in ListedIdentities(chunk) && s.Key(i) in t.messages {
      var m :| m in chunk && m.identity == i;
      KnownOfIs(s, t, chunk, i, m.flags);
      assert (i, m.flags) in b.knownArrived;
    }
    if i in Held(t', s.Folder()) {
      var before := FlagsAfterBatch(t, s.Folder(), b, i);
      var fetched := LastArrivedFlags(rows, i, before);
      LastArrivedFrom(rows, i, before);
      LastFlagsFrom(b.knownArrived, i, fetched);
      KnownOfIs(s, t, chunk, i, LastFlags(b.knownArrived, i, fetched));
      if i !in Held(t, s.Folder()) && i !in Identities(rows) {
        assert i in Named(b.knownArrived);
        var e :| e in b.knownArrived && e.0 == i;
        assert (i, e.1) in b.knownArrived;
      }
    }
  }

  /** A fetched batch moves its chunk from the missing to the held. */
  lemma FetchReflects(s: Setting, w: World, chunk: seq<ListedMessage>, rest: seq<ListedMessage>, rows: seq<Message>, t': Tables)
    requires ValidHistory(w.h) && Valid(w.t) && s.Folder() in w.t.folders && w.cycle.Filling?
    requires w.cycle.missing == chunk + rest
    requires Reflects(s.naming, Held(w.t, s.Folder()), w.cycle.missing, w.cycle.unnamed, w.h, w.cycle.c, Now(w))
    requires RowsAnswer(s, w, chunk, rows, false)
    requires t' == ApplyBatch(w.t, s.Folder(), FetchBatch(s, w.t, chunk, rows))
    ensures Reflects(s.naming, Held(t', s.Folder()), rest, w.cycle.unnamed, w.h, w.cycle.c, Now(w))
  {
    var h, c, n := w.h, w.cycle.c, Now(w);
    var held, held' := Held(w.t, s.Folder()), Held(t', s.Folder());
    if SameNumbers(h[c], h[n]) {
      forall u, i | IsOf(s.naming, h[c], u, i) && !Withheld(s.naming, w.cycle.unnamed, u)
        ensures Holds(held', rest, i)
      {
        assert Holds(held, w.cycle.missing, i);
        HeldAfterFetch(s, w.t, chunk, rows, i);
        if i !in held {
          var m :| m in w.cycle.missing && m.identity == i;
          assert StandsFor(s.naming, h, c, n, m.uid, m.identity, m.flags);
          FetchedOrRest(s, w, chunk, rest, rows, m);
        }
      }
      forall i | i in held'
        ensures exists u :: StoredFor(s.naming, w.cycle.unnamed, h, c, n, u, i, held'[i])
      {
        HeldAfterFetch(s, w.t, chunk, rows, i);
        FetchedStandsFor(s, w, chunk, rest, rows, i, held'[i]);
      }
    }
  }

  /** With unchanged numbers nothing of the chunk is gone. */
  lemma FetchedOrRest(s: Setting, w: World, chunk: seq<ListedMessage>, rest: seq<ListedMessage>, rows: seq<Message>, m: ListedMessage)
    requires ValidHistory(w.h) && w.cycle.Filling? && RowsAnswer(s, w, chunk, rows, false)
    requires SameNumbers(w.h[w.cycle.c], w.h[Now(w)])
    requires m in chunk + rest && m.uid in w.h[w.cycle.c].messages
    ensures m in rest || m.identity in Identities(rows)
            || (s.Key(m.identity) in w.t.messages && m.identity in ListedIdentities(chunk))
  {
    if m in chunk && s.Key(m.identity) !in w.t.messages && GoneSince(w.h, w.cycle.c, Now(w), m.uid) {
      var k :| w.cycle.c <= k <= Now(w) && m.uid !in w.h[k].messages;
      SameNumbersSameMessages(w.h, w.cycle.c, k, Now(w));
    }
  }

  lemma FetchedStandsFor(s: Setting, w: World, chunk: seq<ListedMessage>, rest: seq<ListedMessage>, rows: seq<Message>,
                         i: string, flags: Flags)
    requires ValidHistory(w.h) && w.cycle.Filling? && w.cycle.missing == chunk + rest
    requires Reflects(s.naming, Held(w.t, s.Folder()), w.cycle.missing, w.cycle.unnamed, w.h, w.cycle.c, Now(w))
    requires SameNumbers(w.h[w.cycle.c], w.h[Now(w)]) && RowsAnswer(s, w, chunk, rows, false)
    requires
      || ListedWith(chunk, i, flags)
      || (exists row :: row in rows && row.identity == i && row.flags == flags)
      || (i in Held(w.t, s.Folder()) && flags == Held(w.t, s.Folder())[i])
    ensures exists u :: StoredFor(s.naming, w.cycle.unnamed, w.h, w.cycle.c, Now(w), u, i, flags)
  {
    var h, c, n := w.h, w.cycle.c, Now(w);
    if ListedWith(chunk, i, flags) {
      var m :| m in chunk && m.identity == i && m.flags == flags;
      assert m in w.cycle.missing;
      assert StoredFor(s.naming, w.cycle.unnamed, h, c, n, m.uid, i, flags);
    } else if row :| row in rows && row.identity == i && row.flags == flags {
      assert RowOf(s, w, chunk, row);
      var m :| m in chunk && m.identity == row.identity && s.Key(m.identity) !in w.t.messages && HadFlags(h, c, n, m.uid, row.flags);
      assert m in w.cycle.missing;
      RowFlagsSeen(h, c, n, m.uid, flags);
      assert StoredFor(s.naming, w.cycle.unnamed, h, c, n, m.uid, i, flags);
    }
  }

  lemma RowFlagsSeen(h: History, c: nat, n: nat, u: nat, flags: Flags)
    requires n < |h| && HadFlags(h, c, n, u, flags)
    ensures FlagsSeen(h, c, n, u, flags)
  {
    var k :| c <= k <= n && u in h[k].messages && h[k].messages[u].flags == flags;
    assert SeenAt(h, k, u, Seen, flags.seen) && SeenAt(h, k, u, Flagged, flags.flagged);
  }

  lemma FetchStores(s: Setting, t: Tables, b: Batch)
    requires Valid(t) && s.Folder() in t.folders && b.state.None?
    ensures StoreUnlessEmpty(t, s.Folder(), b) == ApplyBatch(t, s.Folder(), b)
    ensures Valid(ApplyBatch(t, s.Folder(), b)) && s.Folder() in ApplyBatch(t, s.Folder(), b).folders
    ensures StateOf(s, ApplyBatch(t, s.Folder(), b)) == StateOf(s, t)
  {
    EmptyBatchChangesNothing(t, s.Folder());
    BatchKeepsValid(t, s.Folder(), b);
  }

  lemma FetchesKeeps(s: Setting, w: World, rows: seq<Message>, refused: bool, w': World)
    requires Inv(s, w) && Next(s, w, Fetches(rows, refused), w')
    ensures Inv(s, w')
  {
    hide Reflects, Held, Reports, RowsAnswer, EntryWasThere;
    var chunk := Chunk(w.cycle.missing);
    FetchStores(s, w.t, FetchBatch(s, w.t, chunk, rows));
    if !refused {
      if w.cycle.complete {
        FetchedChunkReflects(s, w, chunk, w'.cycle.missing, rows, w'.t);
      }
      FillingGoesOn(s, w, w');
    }
    UnmarkedIsSound(s, w');
  }

  lemma UnmarkedIsSound(s: Setting, w: World)
    requires w.h != [] && !StateOf(s, w.t).synchronized
    ensures Synchronized(s, w)
  {
  }

  lemma FetchedChunkReflects(s: Setting, w: World, chunk: seq<ListedMessage>, rest: seq<ListedMessage>, rows: seq<Message>, t': Tables)
    requires ValidHistory(w.h) && Valid(w.t) && s.Folder() in w.t.folders && w.cycle.Filling?
    requires chunk == Chunk(w.cycle.missing) && rest == w.cycle.missing[|chunk|..]
    requires Reflects(s.naming, Held(w.t, s.Folder()), w.cycle.missing, w.cycle.unnamed, w.h, w.cycle.c, Now(w))
    requires RowsAnswer(s, w, chunk, rows, false)
    requires t' == ApplyBatch(w.t, s.Folder(), FetchBatch(s, w.t, chunk, rows))
    ensures Reflects(s.naming, Held(t', s.Folder()), rest, w.cycle.unnamed, w.h, w.cycle.c, Now(w))
  {
    ChunkAndRest(w.cycle.missing);
    FetchReflects(s, w, chunk, rest, rows, t');
  }

  lemma ChunkAndRest(missing: seq<ListedMessage>)
    ensures missing == Chunk(missing) + missing[|Chunk(missing)|..]
  {
  }

  /** A filling cycle with fewer messages missing is as sound as before. */
  lemma FillingGoesOn(s: Setting, w: World, w': World)
    requires w.h != [] && w.cycle.Filling? && w.cycle.missing != [] && CycleSound(s, w)
    requires w'.h == w.h && w'.cycle.Filling? && w'.cycle == w.cycle.(missing := w'.cycle.missing)
    requires StateOf(s, w'.t) == StateOf(s, w.t)
    requires w.cycle.complete ==> Reflects(s.naming, Held(w'.t, s.Folder()), w'.cycle.missing, w'.cycle.unnamed, w'.h, w'.cycle.c, Now(w'))
    ensures CycleSound(s, w')
  {
    hide Reflects, Held, Reports, EntryWasThere;
  }

  // ----- every run

  ghost predicate Init(s: Setting, w: World) {
    && ValidHistory(w.h) && Valid(w.t) && w.cycle == Idle
    && s.Folder() in w.t.folders && !StateOf(s, w.t).synchronized
  }

  ghost predicate IsRun(s: Setting, ws: seq<World>, steps: seq<Step>) {
    && |ws| == |steps| + 1
    && forall j :: 0 <= j < |steps| ==> Next(s, ws[j], steps[j], ws[j + 1])
  }

  lemma StepKeeps(s: Setting, w: World, step: Step, w': World)
    requires Inv(s, w) && Next(s, w, step, w')
    ensures Inv(s, w')
  {
    hide Reflects, Held, Reports, EntryWasThere, Answer, RowsAnswer, FlagsKept, TrueEntries, Identify;
    match step
    case ServerActs => ServerActsKeeps(s, w, w');
    case UserWishes(k, flag, wanted) => UserWishesKeeps(s, w, k, flag, wanted, w');
    case OthersAct(refused) => OthersActKeeps(s, w, refused, w');
    case Opens(numbers) => OpensKeeps(s, w, numbers, w');
    case FirstPass(messages, complete) => FirstPassKeeps(s, w, messages, complete, w');
    case SettlesShown(shown, flag) => SettlesShownKeeps(s, w, shown, flag, w');
    case Confirms(command, flag, wanted, reading) => ConfirmsKeeps(s, w, command, flag, wanted, reading, w');
    case IsRefused(command, flag, wanted) => IsRefusedKeeps(s, w, command, flag, wanted, w');
    case Fetches(rows, refused) => FetchesKeeps(s, w, rows, refused, w');
    case Reopens(numbers) => ReopensKeeps(s, w, numbers, w');
    case SecondPass(messages, complete) => SecondPassKeeps(s, w, messages, complete, w');
    case Stops => SameFolderKeeps(s, w, w');
  }

  lemma {:induction false} EveryRunKeeps(s: Setting, ws: seq<World>, steps: seq<Step>)
    requires IsRun(s, ws, steps) && Inv(s, ws[0])
    ensures Inv(s, ws[|steps|])
  {
    if steps != [] {
      var n := |steps| - 1;
      assert IsRun(s, ws[..n + 1], steps[..n]);
      EveryRunKeeps(s, ws[..n + 1], steps[..n]);
      StepKeeps(s, ws[n], steps[n], ws[n + 1]);
    }
  }

  /** Over every run with refusals, lost connections and renumbering: a folder
      marked synchronized holds only messages of a server whose UIDVALIDITY, EXISTS
      and UIDNEXT are those it keeps, and every one whose identity the listings told,
      on a Generic folder so exactly the server's; each flag of those is one the
      server held since that opening, and the current one if HIGHESTMODSEQ is
      unchanged. */
  lemma SynchronizedFolderIsTheServer(s: Setting, ws: seq<World>, steps: seq<Step>)
    requires IsRun(s, ws, steps) && Init(s, ws[0])
    ensures
      var w := ws[|steps|];
      var state, held := StateOf(s, w.t), Held(w.t, s.Folder());
      state.synchronized && w.h != [] ==>
        && state.numbers.Some? && w.opening < |w.h| && Reports(state.numbers.value, w.h[w.opening])
        && (SameNumbers(w.h[w.opening], w.h[Now(w)]) ==>
              && (forall i :: i in held ==> exists u :: IsOf(s.naming, w.h[Now(w)], u, i))
              && (forall u, i :: IsOf(s.naming, w.h[Now(w)], u, i) && !Withheld(s.naming, w.unnamed, u) ==> i in held)
              && (w.h[w.opening].highestModseq == w.h[Now(w)].highestModseq ==>
                    forall i, u :: i in held && IsOf(s.naming, w.h[Now(w)], u, i) && !Withheld(s.naming, w.unnamed, u) ==>
                      held[i] == w.h[Now(w)].messages[u].flags))
  {
    EveryRunKeeps(s, ws, steps);
    var w := ws[|steps|];
    if StateOf(s, w.t).synchronized && SameNumbers(w.h[w.opening], w.h[Now(w)]) {
      ReflectsTheServer(s.naming, Held(w.t, s.Folder()), w.unnamed, w.h, w.opening, Now(w));
    }
  }

  lemma ReflectsTheServer(naming: Naming, held: map<string, Flags>, unnamed: set<nat>, h: History, a: nat, z: nat)
    requires ValidHistory(h) && Reflects(naming, held, [], unnamed, h, a, z) && SameNumbers(h[a], h[z])
    ensures forall i :: i in held ==> exists u :: IsOf(naming, h[z], u, i)
    ensures forall u, i :: IsOf(naming, h[z], u, i) && !Withheld(naming, unnamed, u) ==> i in held
    ensures h[a].highestModseq == h[z].highestModseq ==>
              forall i, u :: i in held && IsOf(naming, h[z], u, i) && !Withheld(naming, unnamed, u) ==>
                held[i] == h[z].messages[u].flags
  {
    forall i | i in held
      ensures exists u :: IsOf(naming, h[z], u, i)
    {
      var u := HeldIsThere(naming, held, unnamed, h, a, z, i);
    }
    forall u, i | IsOf(naming, h[z], u, i) && !Withheld(naming, unnamed, u)
      ensures i in held
    {
      ThereIsHeld(naming, held, unnamed, h, a, z, u, i);
    }
    if h[a].highestModseq == h[z].highestModseq {
      forall i, u | i in held && IsOf(naming, h[z], u, i) && !Withheld(naming, unnamed, u)
        ensures held[i] == h[z].messages[u].flags
      {
        HeldFlagsAreCurrent(naming, held, unnamed, h, a, z, i, u);
      }
    }
  }

  lemma HeldIsThere(naming: Naming, held: map<string, Flags>, unnamed: set<nat>, h: History, a: nat, z: nat, i: string)
    returns (u: nat)
    requires ValidHistory(h) && Reflects(naming, held, [], unnamed, h, a, z) && SameNumbers(h[a], h[z]) && i in held
    ensures IsOf(naming, h[z], u, i) && StoredFor(naming, unnamed, h, a, z, u, i, held[i])
  {
    SameNumbersSameMessages(h, a, a, z);
    u :| StoredFor(naming, unnamed, h, a, z, u, i, held[i]);
    IdentityStays(naming, h, a, z, u, i);
  }

  lemma ThereIsHeld(naming: Naming, held: map<string, Flags>, unnamed: set<nat>, h: History, a: nat, z: nat, u: nat, i: string)
    requires ValidHistory(h) && Reflects(naming, held, [], unnamed, h, a, z) && SameNumbers(h[a], h[z])
    requires IsOf(naming, h[z], u, i) && !Withheld(naming, unnamed, u)
    ensures i in held
  {
    SameNumbersSameMessages(h, a, a, z);
    IdentityStays(naming, h, a, z, u, i);
    assert Holds(held, [], i);
  }

  lemma HeldFlagsAreCurrent(naming: Naming, held: map<string, Flags>, unnamed: set<nat>, h: History, a: nat, z: nat, i: string, u: nat)
    requires ValidHistory(h) && Reflects(naming, held, [], unnamed, h, a, z) && SameNumbers(h[a], h[z])
    requires h[a].highestModseq == h[z].highestModseq
    requires i in held && IsOf(naming, h[z], u, i) && !Withheld(naming, unnamed, u)
    ensures held[i] == h[z].messages[u].flags
  {
    var v := HeldIsThere(naming, held, unnamed, h, a, z, i);
    OneMessagePerIdentity(naming, h[z], u, v, i);
    SeenStays(h, a, z, z, u, Seen, held[i].seen);
    SeenStays(h, a, z, z, u, Flagged, held[i].flagged);
  }
}
