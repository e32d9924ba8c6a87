/** What a state pass proves: a complete one makes the folder reflect its opening,
    a refused one keeps what it reflected, and a message the server had all along is
    removed only by a listing that withholds its identity. */
module ImapPassLaws {
  import opened Domain
  import opened MessageIdentity
  import opened ImapServer
  import opened StoreTables
  import opened StoreLaws
  import opened ImapPass

  lemma AnswerIsTrue(h: History, c: nat, d: nat, plan: PassPlan, messages: seq<ListedUid>, complete: bool)
    requires Answer(h, c, d, plan, messages, complete)
    ensures TrueEntries(h, c, d, messages)
  {
  }

  /** With unchanged numbers, a message listed at all is a message of the opening. */
  lemma ListedStandsFor(naming: Naming, h: History, c: nat, d: nat, messages: seq<ListedUid>, m: ListedMessage)
    requires ValidHistory(h) && TrueEntries(h, c, d, messages) && SameNumbers(h[c], h[d])
    requires m in Identify(naming, h[c].uidValidity, messages)
    ensures StandsFor(naming, h, c, d, m.uid, m.identity, m.flags)
  {
    var k := ListedWasThere(naming, h, c, d, messages, m);
    SameNumbersSameMessages(h, c, k, d);
    IdentityStays(naming, h, c, k, m.uid, m.identity);
    assert SeenAt(h, k, m.uid, Seen, m.flags.seen) && SeenAt(h, k, m.uid, Flagged, m.flags.flagged);
  }

  /** A message the fast listing left out still has the stored flags. */
  lemma UnlistedFlagsStand(naming: Naming, held: map<string, Flags>, unnamed: set<nat>, h: History, a: nat, c: nat, d: nat,
                           plan: PassPlan, messages: seq<ListedUid>, u: nat, i: string, k: nat)
    requires ValidHistory(h) && Answer(h, c, d, plan, messages, true) && !plan.Everything?
    requires PlanRests(naming, held, unnamed, h, a, c, plan) && SameNumbers(h[c], h[d])
    requires i in held && StandsFor(naming, h, a, c, u, i, held[i])
    requires if plan.Nothing? then k == c else c <= k <= d && u in h[k].messages && h[k].messages[u].modseq <= h[a].highestModseq
    ensures SeenAt(h, k, u, Seen, held[i].seen) && SeenAt(h, k, u, Flagged, held[i].flagged)
    ensures FlagsSeen(h, c, d, u, held[i])
  {
    SameNumbersSameMessages(h, a, c, c);
    SameNumbersSameMessages(h, c, k, d);
    SeenStays(h, a, c, k, u, Seen, held[i].seen);
    SeenStays(h, a, c, k, u, Flagged, held[i].flagged);
  }

  /** A flag seen since `a` stands at `k`, if the message has no newer mod-sequence there. */
  lemma SeenStays(h: History, a: nat, c: nat, k: nat, u: nat, flag: Flag, value: bool)
    requires ValidHistory(h) && a <= c <= k < |h| && h[a].uidValidity == h[k].uidValidity
    requires u in h[k].messages && h[k].messages[u].modseq <= h[a].highestModseq
    requires FlagSeen(h, a, c, u, flag, value)
    ensures SeenAt(h, k, u, flag, value)
  {
    var j :| a <= j <= c && SeenAt(h, j, u, flag, value);
    OldModseqSameMessage(h, a, j, k, u);
  }

  /** The messages of the opening that a complete pass accounts for: every one is
      then held, or listed and missing, unless its identity was withheld. */
  lemma OpeningIsCovered(naming: Naming, held: map<string, Flags>, unnamed: set<nat>, h: History, a: nat, c: nat, d: nat,
                         plan: PassPlan, messages: seq<ListedUid>, u: nat, i: string)
    requires ValidHistory(h) && Answer(h, c, d, plan, messages, true)
    requires PlanRests(naming, held, unnamed, h, a, c, plan) && SameNumbers(h[c], h[d])
    requires IsOf(naming, h[c], u, i)
    requires !Withheld(naming, UnnamedAfter(plan, unnamed, UnnamedUids(naming, h[c].uidValidity, messages)), u)
    ensures
      var listed := Identify(naming, h[c].uidValidity, messages);
      if plan.Everything? then i in ListedIdentities(listed) else i in held
  {
    if plan.Everything? {
      forall k | c <= k <= d
        ensures u in h[k].messages
      {
        SameNumbersSameMessages(h, c, k, d);
      }
      EverythingLists(naming, h, c, d, messages, u, i);
    } else {
      SameNumbersSameMessages(h, a, c, c);
      IdentityStays(naming, h, a, c, u, i);
      assert Holds(held, [], i);
    }
  }

  /** A complete listing of every message gives the identity of a message there
      all the time, or withholds it. */
  lemma EverythingLists(naming: Naming, h: History, c: nat, d: nat, messages: seq<ListedUid>, u: nat, i: string)
    requires ValidHistory(h) && Answer(h, c, d, Everything, messages, true)
    requires Throughout(h, c, d, u) && IsOf(naming, h[c], u, i)
    ensures Lists(messages, u)
    ensures u in UnnamedUids(naming, h[c].uidValidity, messages)
            || i in ListedIdentities(Identify(naming, h[c].uidValidity, messages))
  {
    assert |h[c].messages| != 0;
    AnswerIsTrue(h, c, d, Everything, messages, true);
    var n :| 0 <= n < |messages| && messages[n].uid == u;
    var k := EntryIs(naming, h, c, d, messages, messages[n], u, i);
    EntryIdentified(naming, h[c].uidValidity, messages, n);
  }

  /** A message that stays in the folder through a complete pass stands for one
      of the opening, with flags seen since the opening. */
  lemma StayingStandsFor(naming: Naming, held: map<string, Flags>, unnamed: set<nat>, h: History, a: nat, c: nat, d: nat,
                         plan: PassPlan, messages: seq<ListedUid>, i: string, flags: Flags)
    requires ValidHistory(h) && Answer(h, c, d, plan, messages, true)
    requires PlanRests(naming, held, unnamed, h, a, c, plan) && SameNumbers(h[c], h[d])
    requires i in held
    requires
      var listed := Identify(naming, h[c].uidValidity, messages);
      && (plan.Everything? ==> i in ListedIdentities(listed))
      && (if i in ListedIdentities(listed) then ListedWith(listed, i, flags) else flags == held[i])
    ensures
      var unnamed' := UnnamedAfter(plan, unnamed, UnnamedUids(naming, h[c].uidValidity, messages));
      exists u :: StoredFor(naming, unnamed', h, c, d, u, i, flags)
  {
    if i in ListedIdentities(Identify(naming, h[c].uidValidity, messages)) {
      AnswerIsTrue(h, c, d, plan, messages, true);
      SameNumbersSameMessages(h, c, c, d);
      var u := KeptListedStandsFor(naming, h, c, c, d, messages, i, flags);
      assert StoredFor(naming, UnnamedAfter(plan, unnamed, UnnamedUids(naming, h[c].uidValidity, messages)), h, c, d, u, i, flags);
    } else {
      UnlistedStandsFor(naming, held, unnamed, h, a, c, d, plan, messages, i);
    }
  }

  lemma UnlistedStandsFor(naming: Naming, held: map<string, Flags>, unnamed: set<nat>, h: History, a: nat, c: nat, d: nat,
                          plan: PassPlan, messages: seq<ListedUid>, i: string)
    requires ValidHistory(h) && Answer(h, c, d, plan, messages, true) && !plan.Everything?
    requires PlanRests(naming, held, unnamed, h, a, c, plan) && SameNumbers(h[c], h[d])
    requires i in held && i !in ListedIdentities(Identify(naming, h[c].uidValidity, messages))
    ensures
      var unnamed' := UnnamedAfter(plan, unnamed, UnnamedUids(naming, h[c].uidValidity, messages));
      exists u :: StoredFor(naming, unnamed', h, c, d, u, i, held[i])
  {
    var unnamed' := UnnamedAfter(plan, unnamed, UnnamedUids(naming, h[c].uidValidity, messages));
    var u :| StoredFor(naming, unnamed, h, a, c, u, i, held[i]);
    SameNumbersSameMessages(h, a, c, c);
    IdentityStays(naming, h, a, c, u, i);
    if !Withheld(naming, unnamed', u) {
      var k := UnlistedMoment(naming, h, a, c, d, plan, messages, u, i);
      UnlistedFlagsStand(naming, held, unnamed, h, a, c, d, plan, messages, u, i, k);
    }
    assert StoredFor(naming, unnamed', h, c, d, u, i, held[i]);
  }

  /** A message of the opening without a listed identity was not listed, if its
      identity was not withheld. */
  lemma UnlistedUid(naming: Naming, h: History, c: nat, d: nat, messages: seq<ListedUid>, u: nat, i: string)
    requires ValidHistory(h) && TrueEntries(h, c, d, messages)
    requires IsOf(naming, h[c], u, i) && !Withheld(naming, UnnamedUids(naming, h[c].uidValidity, messages), u)
    requires i !in ListedIdentities(Identify(naming, h[c].uidValidity, messages))
    ensures !Lists(messages, u)
  {
    if Lists(messages, u) {
      var n :| 0 <= n < |messages| && messages[n].uid == u;
      var k := EntryIs(naming, h, c, d, messages, messages[n], u, i);
      EntryIdentified(naming, h[c].uidValidity, messages, n);
    }
  }

  lemma UnlistedMoment(naming: Naming, h: History, a: nat, c: nat, d: nat, plan: PassPlan, messages: seq<ListedUid>,
                       u: nat, i: string) returns (k: nat)
    requires ValidHistory(h) && Answer(h, c, d, plan, messages, true) && !plan.Everything?
    requires a <= c
    requires plan.ChangedFlags? ==> plan.since == h[a].highestModseq
    requires SameNumbers(h[c], h[d]) && IsOf(naming, h[c], u, i)
    requires !Withheld(naming, UnnamedUids(naming, h[c].uidValidity, messages), u)
    requires i !in ListedIdentities(Identify(naming, h[c].uidValidity, messages))
    ensures if plan.Nothing? then k == c else c <= k <= d && u in h[k].messages && h[k].messages[u].modseq <= h[a].highestModseq
  {
    if plan.Nothing? {
      k := c;
    } else {
      AnswerIsTrue(h, c, d, plan, messages, true);
      UnlistedUid(naming, h, c, d, messages, u, i);
      forall j | c <= j <= d
        ensures u in h[j].messages
      {
        SameNumbersSameMessages(h, c, j, d);
      }
      assert |h[c].messages| != 0;
      assert Throughout(h, c, d, u);
      assert NotNewer(h, c, d, u, plan.since);
      k :| c <= k <= d && u in h[k].messages && h[k].messages[u].modseq <= plan.since;
    }
  }

  /** After a complete pass the store reflects the pass's opening, the listed
      messages it does not hold still missing, whatever the pass listed. */
  lemma CompletePassReflects(naming: Naming, t: Tables, folder: FolderKey, sync: FolderSync, numbers: FolderNumbers,
                             unnamed: set<nat>, h: History, a: nat, c: nat, d: nat, plan: PassPlan, messages: seq<ListedUid>)
    requires Valid(t) && folder in t.folders && sync.stored == Held(t, folder)
    requires ValidHistory(h) && Answer(h, c, d, plan, messages, true)
    requires PlanRests(naming, sync.stored, unnamed, h, a, c, plan)
    ensures
      var listed := Identify(naming, h[c].uidValidity, messages);
      var b := PassBatch(sync, numbers, plan, listed, true);
      Reflects(naming, Held(ApplyBatch(t, folder, b), folder), Missing(listed, sync.stored),
               UnnamedAfter(plan, unnamed, UnnamedUids(naming, h[c].uidValidity, messages)), h, c, d)
  {
    var unnamed' := UnnamedAfter(plan, unnamed, UnnamedUids(naming, h[c].uidValidity, messages));
    var listed := Identify(naming, h[c].uidValidity, messages);
    var b := PassBatch(sync, numbers, plan, listed, true);
    var held, held' := sync.stored, Held(ApplyBatch(t, folder, b), folder);
    var missing := Missing(listed, held);
    if SameNumbers(h[c], h[d]) {
      forall u, i | IsOf(naming, h[c], u, i) && !Withheld(naming, unnamed', u)
        ensures Holds(held', missing, i)
      {
        OpeningIsCovered(naming, held, unnamed, h, a, c, d, plan, messages, u, i);
        HeldAfterPass(t, folder, b, listed, i);
        if i !in held {
          var m :| m in listed && m.identity == i;
          MissingIs(listed, held, m);
        }
      }
      forall i | i in held'
        ensures exists u :: StoredFor(naming, unnamed', h, c, d, u, i, held'[i])
      {
        HeldAfterPass(t, folder, b, listed, i);
        StayingStandsFor(naming, held, unnamed, h, a, c, d, plan, messages, i, held'[i]);
      }
      AnswerIsTrue(h, c, d, plan, messages, true);
      forall m | m in missing
        ensures StandsFor(naming, h, c, d, m.uid, m.identity, m.flags)
      {
        MissingIs(listed, held, m);
        ListedStandsFor(naming, h, c, d, messages, m);
      }
    }
  }

  /** The numbers stay the same between two moments only if they were the same
      in between; the store then goes on reflecting the earlier opening. */
  lemma ReflectsLater(naming: Naming, held: map<string, Flags>, missing: seq<ListedMessage>, unnamed: set<nat>,
                      h: History, a: nat, z: nat, h': History, z': nat)
    requires Reflects(naming, held, missing, unnamed, h, a, z)
    requires |h| <= |h'| && h'[..|h|] == h && ValidHistory(h') && z <= z' < |h'|
    ensures Reflects(naming, held, missing, unnamed, h', a, z')
  {
    assert forall k :: 0 <= k < |h| ==> h'[k] == h[k];
    if SameNumbers(h'[a], h'[z']) {
      SameNumbersSameMessages(h', a, z, z');
      forall u, i, flags | StandsFor(naming, h, a, z, u, i, flags)
        ensures StandsFor(naming, h', a, z', u, i, flags)
      {
        SeenLater(h, a, z, u, flags, h', a, z');
      }
      forall i | i in held
        ensures exists u :: StoredFor(naming, unnamed, h', a, z', u, i, held[i])
      {
        var u :| StoredFor(naming, unnamed, h, a, z, u, i, held[i]);
        assert StandsFor(naming, h, a, z, u, i, held[i]) ==> StandsFor(naming, h', a, z', u, i, held[i]);
        assert StoredFor(naming, unnamed, h', a, z', u, i, held[i]);
      }
    }
  }

  lemma SeenLater(h: History, a: nat, z: nat, u: nat, flags: Flags, h': History, a': nat, z': nat)
    requires z < |h| <= |h'| && h'[..|h|] == h && a' <= a && z <= z' < |h'|
    requires FlagsSeen(h, a, z, u, flags)
    ensures FlagsSeen(h', a', z', u, flags)
  {
    var i :| a <= i <= z && SeenAt(h, i, u, Seen, flags.seen);
    var j :| a <= j <= z && SeenAt(h, j, u, Flagged, flags.flagged);
    assert h'[i] == h[i] && h'[j] == h[j];
    assert SeenAt(h', i, u, Seen, flags.seen) && SeenAt(h', j, u, Flagged, flags.flagged);
  }

  /** A refused listing removes nothing, and its flags are the server's: the
      store reflects the earlier opening as before. */
  lemma RefusedPassKeeps(naming: Naming, t: Tables, folder: FolderKey, sync: FolderSync, numbers: FolderNumbers,
                         unnamed: set<nat>, h: History, o: nat, c: nat, d: nat, plan: PassPlan, messages: seq<ListedUid>)
    requires Valid(t) && folder in t.folders && sync.stored == Held(t, folder)
    requires ValidHistory(h) && Answer(h, c, d, plan, messages, false)
    requires o <= c && Reflects(naming, sync.stored, [], unnamed, h, o, c)
    ensures
      var listed := Identify(naming, h[c].uidValidity, messages);
      var b := PassBatch(sync, numbers, plan, listed, false);
      Reflects(naming, Held(ApplyBatch(t, folder, b), folder), [], unnamed, h, o, d)
  {
    var listed := Identify(naming, h[c].uidValidity, messages);
    var b := PassBatch(sync, numbers, plan, listed, false);
    var held, held' := sync.stored, Held(ApplyBatch(t, folder, b), folder);
    AnswerIsTrue(h, c, d, plan, messages, false);
    if SameNumbers(h[o], h[d]) {
      SameNumbersSameMessages(h, o, c, d);
      forall u, i | IsOf(naming, h[o], u, i) && !Withheld(naming, unnamed, u)
        ensures Holds(held', [], i)
      {
        assert Holds(held, [], i);
        HeldAfterPass(t, folder, b, listed, i);
      }
      forall i | i in held'
        ensures exists u :: StoredFor(naming, unnamed, h, o, d, u, i, held'[i])
      {
        HeldAfterPass(t, folder, b, listed, i);
        KeptStandsFor(naming, held, unnamed, h, o, c, d, messages, i, held'[i]);
      }
    }
  }

  /** A held message, its flags listed or not, goes on standing for one of the
      earlier opening. */
  lemma KeptStandsFor(naming: Naming, held: map<string, Flags>, unnamed: set<nat>, h: History, o: nat, c: nat, d: nat,
                      messages: seq<ListedUid>, i: string, flags: Flags)
    requires ValidHistory(h) && TrueEntries(h, c, d, messages) && o <= c
    requires Reflects(naming, held, [], unnamed, h, o, c) && SameNumbers(h[o], h[d]) && i in held
    requires
      var listed := Identify(naming, h[c].uidValidity, messages);
      if i in ListedIdentities(listed) then ListedWith(listed, i, flags) else flags == held[i]
    ensures exists u :: StoredFor(naming, unnamed, h, o, d, u, i, flags)
  {
    if i in ListedIdentities(Identify(naming, h[c].uidValidity, messages)) {
      var u := KeptListedStandsFor(naming, h, o, c, d, messages, i, flags);
      assert StoredFor(naming, unnamed, h, o, d, u, i, flags);
    } else {
      SameNumbersSameMessages(h, o, c, d);
      KeptUnlistedStandsFor(naming, held, unnamed, h, o, c, d, i);
    }
  }

  lemma KeptUnlistedStandsFor(naming: Naming, held: map<string, Flags>, unnamed: set<nat>, h: History, o: nat, c: nat, d: nat, i: string)
    requires o <= c <= d < |h| && SameNumbers(h[o], h[c])
    requires Reflects(naming, held, [], unnamed, h, o, c) && i in held
    ensures exists u :: StoredFor(naming, unnamed, h, o, d, u, i, held[i])
  {
    var u :| StoredFor(naming, unnamed, h, o, c, u, i, held[i]);
    if !Withheld(naming, unnamed, u) {
      SeenLater(h, o, c, u, held[i], h, o, d);
    }
    assert StoredFor(naming, unnamed, h, o, d, u, i, held[i]);
  }

  lemma KeptListedStandsFor(naming: Naming, h: History, o: nat, c: nat, d: nat,
                            messages: seq<ListedUid>, i: string, flags: Flags) returns (u: nat)
    requires ValidHistory(h) && TrueEntries(h, c, d, messages) && o <= c && SameNumbers(h[o], h[d])
    requires ListedWith(Identify(naming, h[c].uidValidity, messages), i, flags)
    ensures StandsFor(naming, h, o, d, u, i, flags)
  {
    SameNumbersSameMessages(h, o, c, d);
    var m :| m in Identify(naming, h[c].uidValidity, messages) && m.identity == i && m.flags == flags;
    ListedStandsFor(naming, h, c, d, messages, m);
    u := m.uid;
    StandsFromEarlier(naming, h, o, c, d, u, i, flags);
  }

  lemma StandsFromEarlier(naming: Naming, h: History, o: nat, c: nat, d: nat, u: nat, i: string, flags: Flags)
    requires ValidHistory(h) && o <= c <= d < |h| && SameNumbers(h[o], h[d])
    requires StandsFor(naming, h, c, d, u, i, flags)
    ensures StandsFor(naming, h, o, d, u, i, flags)
  {
    SameNumbersSameMessages(h, o, c, d);
    IdentityStays(naming, h, o, c, u, i);
    SeenLater(h, c, d, u, flags, h, o, d);
  }

  /** A pass removes a stored message the server had all along exactly when it is
      a complete listing of every message that withholds its identity. */
  lemma PresentRemovedIffUnnamed(naming: Naming, sync: FolderSync, numbers: FolderNumbers,
                                 h: History, c: nat, d: nat, plan: PassPlan, messages: seq<ListedUid>, complete: bool,
                                 u: nat, i: string)
    requires ValidHistory(h) && Answer(h, c, d, plan, messages, complete)
    requires i in sync.stored && forall k :: c <= k <= d ==> IsOf(naming, h[k], u, i)
    ensures i in PassBatch(sync, numbers, plan, Identify(naming, h[c].uidValidity, messages), complete).removed
            <==> complete && plan.Everything? && u in UnnamedUids(naming, h[c].uidValidity, messages)
  {
    var listed := Identify(naming, h[c].uidValidity, messages);
    if complete && plan.Everything? {
      assert IsOf(naming, h[c], u, i);
      forall k | c <= k <= d
        ensures u in h[k].messages
      {
        assert IsOf(naming, h[k], u, i);
      }
      EverythingLists(naming, h, c, d, messages, u, i);
      if i in ListedIdentities(listed) {
        NamedIsNotUnnamed(naming, h, c, d, messages, u, i);
      }
    }
  }

  /** A listing that gives the identity of a message there all along did not withhold it. */
  lemma NamedIsNotUnnamed(naming: Naming, h: History, c: nat, d: nat, messages: seq<ListedUid>, u: nat, i: string)
    requires ValidHistory(h) && TrueEntries(h, c, d, messages)
    requires forall k :: c <= k <= d ==> IsOf(naming, h[k], u, i)
    requires i in ListedIdentities(Identify(naming, h[c].uidValidity, messages))
    ensures u !in UnnamedUids(naming, h[c].uidValidity, messages)
  {
    var m :| m in Identify(naming, h[c].uidValidity, messages) && m.identity == i;
    var k := ListedWasThere(naming, h, c, d, messages, m);
    OneMessagePerIdentity(naming, h[k], u, m.uid, i);
    IdentifiedEntry(naming, h[c].uidValidity, messages, m);
    var n :| 0 <= n < |messages| && messages[n].uid == u
      && IdentityOf(naming.rule, naming.folder, h[c].uidValidity, u, messages[n].gmail) == Some(i);
    forall e | e in messages && e.uid == u
      ensures e == messages[n]
    {
      var o :| 0 <= o < |messages| && messages[o] == e;
      assert Ascending(messages);
    }
  }

  /** The case: a stored message that never left its label is listed without
      X-GM-MSGID, and the listing's proof removes it. */
  lemma WithheldIdentityRemoves()
    ensures
      var naming := Naming(Gmail, "INBOX");
      var there := Mailbox(1, map[3 := ServerMessage(Some(7), Flags(false, false), 5)], 9, 5);
      var i := "gmail:" + Decimal(7);
      var sync := FolderSync(DEFAULT_STATE, map[i := Flags(false, false)]);
      var messages := [ListedUid(3, None, Flags(false, false))];
      var numbers := FolderNumbers(Some(1), 1, Some(9), None);
      && ValidHistory([there]) && IsOf(naming, there, 3, i)
      && Answer([there], 0, 0, Everything, messages, true)
      && i in PassBatch(sync, numbers, Everything, Identify(naming, 1, messages), true).removed
  {
    var naming := Naming(Gmail, "INBOX");
    var there := Mailbox(1, map[3 := ServerMessage(Some(7), Flags(false, false), 5)], 9, 5);
    var i := "gmail:" + Decimal(7);
    var sync := FolderSync(DEFAULT_STATE, map[i := Flags(false, false)]);
    var messages := [ListedUid(3, None, Flags(false, false))];
    var numbers := FolderNumbers(Some(1), 1, Some(9), None);
    assert TrueAt([there], 0, messages[0]);
    assert TrueSometime([there], 0, 0, messages[0]);
    assert messages[0].uid == 3;
    assert messages[0] in messages;
    PresentRemovedIffUnnamed(naming, sync, numbers, [there], 0, 0, Everything, messages, true, 3, i);
  }
}
