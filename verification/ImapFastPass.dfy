/** The fast state pass refines the full one: listing nothing, or only what
    changed, stores the very batch some listing of every message would store,
    exactly when it leaves out only what stood as it is stored. */
module ImapFastPass {
  import opened Domain
  import opened MessageIdentity
  import opened ImapServer
  import opened ImapPass
  import opened ImapPassLaws

  /** The listing with one more entry at its place in UID order. */
  function Insert(messages: seq<ListedUid>, e: ListedUid): seq<ListedUid> {
    if messages == [] || messages[|messages| - 1].uid < e.uid then messages + [e]
    else Insert(messages[..|messages| - 1], e) + [messages[|messages| - 1]]
  }

  lemma {:induction false} InsertAdds(messages: seq<ListedUid>, e: ListedUid, x: ListedUid)
    ensures x in Insert(messages, e) <==> x in messages || x == e
  {
    if messages != [] {
      var n := |messages| - 1;
      assert messages == messages[..n] + [messages[n]];
      InsertAdds(messages[..n], e, x);
    }
  }

  lemma PrefixLists(messages: seq<ListedUid>, n: nat, u: nat)
    requires n <= |messages|
    ensures Lists(messages[..n], u) ==> Lists(messages, u)
  {
    if Lists(messages[..n], u) {
      var i :| 0 <= i < n && messages[..n][i].uid == u;
      assert messages[i].uid == u;
    }
  }

  lemma {:induction false} InsertKeepsOrder(messages: seq<ListedUid>, e: ListedUid)
    requires Ascending(messages) && !Lists(messages, e.uid)
    ensures Ascending(Insert(messages, e))
  {
    if messages != [] && !(messages[|messages| - 1].uid < e.uid) {
      var n := |messages| - 1;
      assert e.uid < messages[n].uid;
      PrefixLists(messages, n, e.uid);
      InsertKeepsOrder(messages[..n], e);
      var shorter := Insert(messages[..n], e);
      forall i | 0 <= i < |shorter|
        ensures shorter[i].uid < messages[n].uid
      {
        InsertAdds(messages[..n], e, shorter[i]);
      }
    }
  }

  /** An entry the store agrees with, or one without identity, changes nothing
      a pass stores. */
  ghost predicate Agreed(naming: Naming, validity: nat, stored: map<string, Flags>, e: ListedUid) {
    var identity := IdentityOf(naming.rule, naming.folder, validity, e.uid, e.gmail);
    identity.Some? ==> identity.value in stored && stored[identity.value] == e.flags
  }

  lemma {:induction false} AgreedEntryChangesNothing(naming: Naming, validity: nat, stored: map<string, Flags>,
                                                    messages: seq<ListedUid>, e: ListedUid)
    requires Agreed(naming, validity, stored, e)
    ensures ChangedStates(Identify(naming, validity, Insert(messages, e)), stored)
            == ChangedStates(Identify(naming, validity, messages), stored)
    ensures Missing(Identify(naming, validity, Insert(messages, e)), stored)
            == Missing(Identify(naming, validity, messages), stored)
  {
    if messages == [] || messages[|messages| - 1].uid < e.uid {
      AppendedEntry(naming, validity, stored, messages, e);
    } else {
      var n := |messages| - 1;
      assert messages == messages[..n] + [messages[n]];
      AgreedEntryChangesNothing(naming, validity, stored, messages[..n], e);
      AppendedEntry(naming, validity, stored, messages[..n], messages[n]);
      AppendedEntry(naming, validity, stored, Insert(messages[..n], e), messages[n]);
    }
  }

  /** What one more entry at the end adds to the flag states and the missing. */
  lemma AppendedEntry(naming: Naming, validity: nat, stored: map<string, Flags>, messages: seq<ListedUid>, e: ListedUid)
    ensures
      var identity := IdentityOf(naming.rule, naming.folder, validity, e.uid, e.gmail);
      var before, after := Identify(naming, validity, messages), Identify(naming, validity, messages + [e]);
      if identity.None? then after == before
      else
        var m := ListedMessage(identity.value, e.uid, e.flags);
        && ChangedStates(after, stored) == ChangedStates(before, stored)
             + (if m.identity in stored && stored[m.identity] != m.flags then [(m.identity, m.flags)] else [])
        && Missing(after, stored) == (if m.identity in stored then [] else [m]) + Missing(before, stored)
  {
    assert (messages + [e])[..|messages|] == messages;
    var identity := IdentityOf(naming.rule, naming.folder, validity, e.uid, e.gmail);
    var before := Identify(naming, validity, messages);
    if identity.Some? {
      assert (before + [ListedMessage(identity.value, e.uid, e.flags)])[..|before|] == before;
    } else {
      assert before + [] == before;
    }
  }

  // ----- the condition

  /** At some moment of the reading the message was there as it is stored. */
  ghost predicate ThereAsStored(naming: Naming, stored: map<string, Flags>, h: History, c: nat, d: nat, i: string)
    requires d < |h|
  {
    exists k, v :: c <= k <= d && IsOf(naming, h[k], v, i) && i in stored && h[k].messages[v].flags == stored[i]
  }

  /** Every stored message of the opening whose identity the fast listing does not
      give was there, at some moment of the reading, as it is stored. */
  ghost predicate OmitsOnlyStored(naming: Naming, stored: map<string, Flags>, h: History, c: nat, d: nat, fast: set<string>)
    requires d < |h|
  {
    && c <= d
    && forall u, i :: IsOf(naming, h[c], u, i) && i in stored && i !in fast ==> ThereAsStored(naming, stored, h, c, d, i)
  }

  function Given(naming: Naming, validity: nat, messages: seq<ListedUid>): set<string> {
    ListedIdentities(Identify(naming, validity, messages))
  }

  // ----- the fast listing, completed

  /** The entries that have an identity. */
  function NamedEntries(naming: Naming, validity: nat, messages: seq<ListedUid>): seq<ListedUid> {
    if messages == [] then []
    else
      var last := messages[|messages| - 1];
      NamedEntries(naming, validity, messages[..|messages| - 1])
      + if IdentityOf(naming.rule, naming.folder, validity, last.uid, last.gmail).Some? then [last] else []
  }

  lemma {:induction false} NamedEntriesAre(naming: Naming, validity: nat, messages: seq<ListedUid>)
    ensures Identify(naming, validity, NamedEntries(naming, validity, messages)) == Identify(naming, validity, messages)
    ensures forall e :: e in NamedEntries(naming, validity, messages) ==>
              e in messages && IdentityOf(naming.rule, naming.folder, validity, e.uid, e.gmail).Some?
    ensures Ascending(messages) ==> Ascending(NamedEntries(naming, validity, messages))
  {
    if messages != [] {
      var n := |messages| - 1;
      var before := NamedEntries(naming, validity, messages[..n]);
      NamedEntriesAre(naming, validity, messages[..n]);
      if IdentityOf(naming.rule, naming.folder, validity, messages[n].uid, messages[n].gmail).Some? {
        assert (before + [messages[n]])[..|before|] == before;
        if Ascending(messages) {
          forall i | 0 <= i < |before|
            ensures before[i].uid < messages[n].uid
          {
            assert before[i] in messages[..n];
          }
        }
      } else {
        assert before + [] == before;
      }
    }
  }

  /** The entry is true, and withholds no identity the folder holds. */
  ghost predicate Tells(naming: Naming, stored: map<string, Flags>, h: History, c: nat, d: nat, e: ListedUid)
    requires c <= d < |h|
  {
    exists k :: c <= k <= d && TrueAt(h, k, e) && TellsIdentity(naming, stored, h[k], h[c].uidValidity, e)
  }

  ghost predicate TellsIdentity(naming: Naming, stored: map<string, Flags>, s: Mailbox, validity: nat, e: ListedUid) {
    forall i :: IsOf(naming, s, e.uid, i) && i in stored ==>
      IdentityOf(naming.rule, naming.folder, validity, e.uid, e.gmail) == Some(i)
  }

  ghost predicate Telling(naming: Naming, stored: map<string, Flags>, h: History, c: nat, d: nat, messages: seq<ListedUid>) {
    && TrueEntries(h, c, d, messages)
    && forall e :: e in messages ==> Tells(naming, stored, h, c, d, e)
  }

  lemma NamedEntriesTell(naming: Naming, stored: map<string, Flags>, h: History, c: nat, d: nat, messages: seq<ListedUid>)
    requires ValidHistory(h) && TrueEntries(h, c, d, messages)
    ensures Telling(naming, stored, h, c, d, NamedEntries(naming, h[c].uidValidity, messages))
  {
    NamedEntriesAre(naming, h[c].uidValidity, messages);
    assert TrueEntries(h, c, d, NamedEntries(naming, h[c].uidValidity, messages));
    forall e | e in NamedEntries(naming, h[c].uidValidity, messages)
      ensures Tells(naming, stored, h, c, d, e)
    {
      NamedEntryTells(naming, stored, h, c, d, e);
    }
  }

  lemma NamedEntryTells(naming: Naming, stored: map<string, Flags>, h: History, c: nat, d: nat, e: ListedUid)
    requires ValidHistory(h) && c <= d < |h| && h[c].uidValidity == h[d].uidValidity && TrueSometime(h, c, d, e)
    requires IdentityOf(naming.rule, naming.folder, h[c].uidValidity, e.uid, e.gmail).Some?
    ensures Tells(naming, stored, h, c, d, e)
  {
    var k :| c <= k <= d && TrueAt(h, k, e);
    FollowsLater(h, c, k);
    FollowsLater(h, k, d);
    assert TellsIdentity(naming, stored, h[k], h[c].uidValidity, e);
  }

  /** The listing accounts for message `u` of the opening: a stored one by its identity, another by its place. */
  ghost predicate Accounts(naming: Naming, stored: map<string, Flags>, s: Mailbox, full: seq<ListedUid>, u: nat) {
    if exists i :: IsOf(naming, s, u, i) && i in stored
    then forall i :: IsOf(naming, s, u, i) ==> i in Given(naming, s.uidValidity, full)
    else Lists(full, u)
  }

  /** An entry for a message not yet accounted for, which the store agrees with. */
  lemma NextEntry(naming: Naming, stored: map<string, Flags>, h: History, c: nat, d: nat, full: seq<ListedUid>, u: nat)
    returns (e: ListedUid)
    requires ValidHistory(h) && Telling(naming, stored, h, c, d, full) && u in h[c].messages
    requires !Accounts(naming, stored, h[c], full, u)
    requires OmitsOnlyStored(naming, stored, h, c, d, Given(naming, h[c].uidValidity, full))
    requires naming.rule.Generic? ==> forall i :: IsOf(naming, h[c], u, i) ==> i in stored
    ensures Agreed(naming, h[c].uidValidity, stored, e) && !Lists(full, e.uid) && Tells(naming, stored, h, c, d, e)
    ensures IdentityOf(naming.rule, naming.folder, h[c].uidValidity, e.uid, e.gmail).None? ==> e.uid == u
    ensures (exists i :: IsOf(naming, h[c], u, i) && i in stored)
            || IdentityOf(naming.rule, naming.folder, h[c].uidValidity, e.uid, e.gmail).None?
    ensures forall i :: IsOf(naming, h[c], u, i) && i in stored ==>
              IdentityOf(naming.rule, naming.folder, h[c].uidValidity, e.uid, e.gmail) == Some(i)
  {
    if i :| IsOf(naming, h[c], u, i) && i in stored {
      assert ThereAsStored(naming, stored, h, c, d, i);
      var k, v :| c <= k <= d && IsOf(naming, h[k], v, i) && h[k].messages[v].flags == stored[i];
      e := StoredEntry(naming, stored, h, c, d, full, k, v, i);
    } else {
      assert naming.rule.Gmail? by {
        if naming.rule.Generic? {
          assert IsOf(naming, h[c], u, "imap:" + naming.folder + "/" + Place(h[c].uidValidity, u));
        }
      }
      e := ListedUid(u, None, h[c].messages[u].flags);
      assert TrueAt(h, c, e) && TellsIdentity(naming, stored, h[c], h[c].uidValidity, e);
    }
  }

  lemma StoredEntry(naming: Naming, stored: map<string, Flags>, h: History, c: nat, d: nat, full: seq<ListedUid>,
                    k: nat, v: nat, i: string) returns (e: ListedUid)
    requires ValidHistory(h) && Telling(naming, stored, h, c, d, full) && i !in Given(naming, h[c].uidValidity, full)
    requires c <= k <= d && IsOf(naming, h[k], v, i) && i in stored && h[k].messages[v].flags == stored[i]
    ensures Agreed(naming, h[c].uidValidity, stored, e) && !Lists(full, e.uid) && Tells(naming, stored, h, c, d, e)
    ensures IdentityOf(naming.rule, naming.folder, h[c].uidValidity, e.uid, e.gmail) == Some(i)
  {
    e := ListedUid(v, h[k].messages[v].gmail, stored[i]);
    FollowsLater(h, c, k);
    FollowsLater(h, k, d);
    assert TrueAt(h, k, e) && TellsIdentity(naming, stored, h[k], h[c].uidValidity, e);
    if Lists(full, v) {
      var n :| 0 <= n < |full| && full[n].uid == v;
      assert Tells(naming, stored, h, c, d, full[n]);
      var j :| c <= j <= d && TrueAt(h, j, full[n]) && TellsIdentity(naming, stored, h[j], h[c].uidValidity, full[n]);
      SameIdentity(naming, h, c, d, j, k, v, i);
      EntryIdentified(naming, h[c].uidValidity, full, n);
    }
  }

  lemma SameIdentity(naming: Naming, h: History, c: nat, d: nat, j: nat, k: nat, v: nat, i: string)
    requires ValidHistory(h) && c <= j <= d < |h| && c <= k <= d && h[c].uidValidity == h[d].uidValidity
    requires v in h[j].messages && IsOf(naming, h[k], v, i)
    ensures IsOf(naming, h[j], v, i)
  {
    FollowsLater(h, c, j);
    FollowsLater(h, j, d);
    FollowsLater(h, c, k);
    FollowsLater(h, k, d);
    if j <= k {
      IdentityStays(naming, h, j, k, v, i);
    } else {
      IdentityStays(naming, h, k, j, v, i);
    }
  }

  /** The listing with an entry for each message of `todo` not accounted for, all of them agreed. */
  lemma {:induction false} CompletedListing(naming: Naming, stored: map<string, Flags>, h: History, c: nat, d: nat,
                                            messages: seq<ListedUid>, todo: set<nat>) returns (full: seq<ListedUid>)
    requires ValidHistory(h) && Telling(naming, stored, h, c, d, messages)
    requires todo <= h[c].messages.Keys
    requires OmitsOnlyStored(naming, stored, h, c, d, Given(naming, h[c].uidValidity, messages))
    requires naming.rule.Generic? ==> forall u, i :: IsOf(naming, h[c], u, i) ==> i in stored
    requires forall u :: u in h[c].messages && u !in todo ==> Accounts(naming, stored, h[c], messages, u)
    ensures Telling(naming, stored, h, c, d, full)
    ensures forall u :: u in h[c].messages ==> Accounts(naming, stored, h[c], full, u)
    ensures messages == [] && todo == {} ==> full == []
    ensures ChangedStates(Identify(naming, h[c].uidValidity, full), stored)
            == ChangedStates(Identify(naming, h[c].uidValidity, messages), stored)
    ensures Missing(Identify(naming, h[c].uidValidity, full), stored)
            == Missing(Identify(naming, h[c].uidValidity, messages), stored)
    decreases todo
  {
    if todo == {} {
      full := messages;
    } else {
      var u :| u in todo;
      if Accounts(naming, stored, h[c], messages, u) {
        full := CompletedListing(naming, stored, h, c, d, messages, todo - {u});
      } else {
        var e := NextEntry(naming, stored, h, c, d, messages, u);
        AgreedEntryChangesNothing(naming, h[c].uidValidity, stored, messages, e);
        InsertedTells(naming, stored, h, c, d, messages, e);
        InsertedAccounts(naming, stored, h[c], messages, e, u);
        full := CompletedListing(naming, stored, h, c, d, Insert(messages, e), todo - {u});
      }
    }
  }

  lemma InsertedTells(naming: Naming, stored: map<string, Flags>, h: History, c: nat, d: nat, messages: seq<ListedUid>, e: ListedUid)
    requires Telling(naming, stored, h, c, d, messages) && !Lists(messages, e.uid) && Tells(naming, stored, h, c, d, e)
    ensures Telling(naming, stored, h, c, d, Insert(messages, e))
  {
    assert TrueSometime(h, c, d, e);
    InsertedIsTrue(h, c, d, messages, e);
    forall x | x in Insert(messages, e)
      ensures Tells(naming, stored, h, c, d, x)
    {
      InsertAdds(messages, e, x);
    }
  }

  /** One more entry gives its own identity beside the others, and accounts for its message. */
  lemma InsertedAccounts(naming: Naming, stored: map<string, Flags>, s: Mailbox, messages: seq<ListedUid>, e: ListedUid, u: nat)
    requires IdentityOf(naming.rule, naming.folder, s.uidValidity, e.uid, e.gmail).None? ==> e.uid == u
    requires forall i :: IsOf(naming, s, u, i) && i in stored ==>
               IdentityOf(naming.rule, naming.folder, s.uidValidity, e.uid, e.gmail) == Some(i)
    requires Agreed(naming, s.uidValidity, stored, e)
    requires (exists i :: IsOf(naming, s, u, i) && i in stored)
             || IdentityOf(naming.rule, naming.folder, s.uidValidity, e.uid, e.gmail).None?
    ensures Given(naming, s.uidValidity, messages) <= Given(naming, s.uidValidity, Insert(messages, e))
    ensures Accounts(naming, stored, s, Insert(messages, e), u)
    ensures forall v :: Accounts(naming, stored, s, messages, v) ==> Accounts(naming, stored, s, Insert(messages, e), v)
  {
    var more := Insert(messages, e);
    forall i
      ensures i in Given(naming, s.uidValidity, messages) ==> i in Given(naming, s.uidValidity, more)
      ensures IdentityOf(naming.rule, naming.folder, s.uidValidity, e.uid, e.gmail) == Some(i) ==> i in Given(naming, s.uidValidity, more)
    {
      if i in Given(naming, s.uidValidity, messages) || GivesIdentity(naming, s.uidValidity, e, i) {
        GivenAfter(naming, s.uidValidity, messages, e, i);
      }
    }
    forall v
      ensures Lists(messages, v) ==> Lists(more, v)
      ensures Lists(more, e.uid)
    {
      ListsAfter(messages, e, v);
      ListsAfter(messages, e, e.uid);
    }
  }

  lemma ListsAfter(messages: seq<ListedUid>, e: ListedUid, v: nat)
    ensures Lists(messages, v) || v == e.uid ==> Lists(Insert(messages, e), v)
  {
    ListsMember(Insert(messages, e), v);
    ListsMember(messages, v);
    if Lists(messages, v) {
      var x :| x in messages && x.uid == v;
      InsertAdds(messages, e, x);
    }
    InsertAdds(messages, e, e);
  }

  ghost predicate GivesIdentity(naming: Naming, validity: nat, e: ListedUid, i: string) {
    IdentityOf(naming.rule, naming.folder, validity, e.uid, e.gmail) == Some(i)
  }

  lemma GivenIs(naming: Naming, validity: nat, messages: seq<ListedUid>, i: string)
    ensures i in Given(naming, validity, messages) <==> exists e :: e in messages && GivesIdentity(naming, validity, e, i)
  {
    if i in Given(naming, validity, messages) {
      var m :| m in Identify(naming, validity, messages) && m.identity == i;
      IdentifiedEntry(naming, validity, messages, m);
      var n :| 0 <= n < |messages| && messages[n].uid == m.uid
        && IdentityOf(naming.rule, naming.folder, validity, m.uid, messages[n].gmail) == Some(i);
      assert messages[n] in messages && GivesIdentity(naming, validity, messages[n], i);
    }
    if e :| e in messages && GivesIdentity(naming, validity, e, i) {
      var n :| 0 <= n < |messages| && messages[n] == e;
      EntryIdentified(naming, validity, messages, n);
    }
  }

  lemma GivenAfter(naming: Naming, validity: nat, messages: seq<ListedUid>, e: ListedUid, i: string)
    requires i in Given(naming, validity, messages) || GivesIdentity(naming, validity, e, i)
    ensures i in Given(naming, validity, Insert(messages, e))
  {
    GivenIs(naming, validity, messages, i);
    GivenIs(naming, validity, Insert(messages, e), i);
    if x :| x in messages && GivesIdentity(naming, validity, x, i) {
      InsertAdds(messages, e, x);
    } else {
      InsertAdds(messages, e, e);
    }
  }

  lemma InsertedIsTrue(h: History, c: nat, d: nat, messages: seq<ListedUid>, e: ListedUid)
    requires TrueEntries(h, c, d, messages) && !Lists(messages, e.uid) && TrueSometime(h, c, d, e)
    ensures TrueEntries(h, c, d, Insert(messages, e))
    ensures forall u :: Lists(Insert(messages, e), u) <==> Lists(messages, u) || u == e.uid
  {
    InsertKeepsOrder(messages, e);
    var more := Insert(messages, e);
    forall x
      ensures x in more <==> x in messages || x == e
    {
      InsertAdds(messages, e, x);
    }
    forall u
      ensures Lists(more, u) <==> Lists(messages, u) || u == e.uid
    {
      ListsMember(more, u);
      ListsMember(messages, u);
    }
  }

  lemma ListsMember(messages: seq<ListedUid>, u: nat)
    ensures Lists(messages, u) <==> exists e :: e in messages && e.uid == u
  {
  }

  // ----- the fast pass is a full one

  /** The fast listing, completed with what it left out, is a listing of every
      message that the server may have given, and the pass stores the same. */
  lemma FastPassIsAFullPass(naming: Naming, sync: FolderSync, numbers: FolderNumbers, unnamed: set<nat>,
                            h: History, a: nat, c: nat, d: nat, plan: PassPlan, messages: seq<ListedUid>) returns (full: seq<ListedUid>)
    requires ValidHistory(h) && !plan.Everything? && Answer(h, c, d, plan, messages, true)
    requires PlanRests(naming, sync.stored, unnamed, h, a, c, plan)
    requires OmitsOnlyStored(naming, sync.stored, h, c, d, Given(naming, h[c].uidValidity, messages))
    ensures Answer(h, c, d, Everything, full, true)
    ensures PassBatch(sync, numbers, Everything, Identify(naming, h[c].uidValidity, full), true)
            == PassBatch(sync, numbers, plan, Identify(naming, h[c].uidValidity, messages), true)
  {
    AnswerIsTrue(h, c, d, plan, messages, true);
    var named := NamedEntries(naming, h[c].uidValidity, messages);
    NamedEntriesAre(naming, h[c].uidValidity, messages);
    NamedEntriesTell(naming, sync.stored, h, c, d, messages);
    GenericOpeningIsStored(naming, sync.stored, unnamed, h, a, c);
    full := CompletedListing(naming, sync.stored, h, c, d, named, h[c].messages.Keys);
    FullAnswers(naming, sync.stored, h, c, d, plan, messages, named, full);
    AllStoredGiven(naming, sync.stored, unnamed, h, a, c, full);
    SameBatch(sync, numbers, plan, Identify(naming, h[c].uidValidity, messages), Identify(naming, h[c].uidValidity, full));
  }

  lemma SameBatch(sync: FolderSync, numbers: FolderNumbers, plan: PassPlan,
                  fastListed: seq<ListedMessage>, fullListed: seq<ListedMessage>)
    requires !plan.Everything? && sync.stored.Keys <= ListedIdentities(fullListed)
    requires ChangedStates(fullListed, sync.stored) == ChangedStates(fastListed, sync.stored)
    requires Missing(fullListed, sync.stored) == Missing(fastListed, sync.stored)
    ensures PassBatch(sync, numbers, Everything, fullListed, true) == PassBatch(sync, numbers, plan, fastListed, true)
  {
  }

  lemma AllStoredGiven(naming: Naming, stored: map<string, Flags>, unnamed: set<nat>, h: History, a: nat, c: nat, full: seq<ListedUid>)
    requires ValidHistory(h) && Reflects(naming, stored, [], unnamed, h, a, c) && SameNumbers(h[a], h[c])
    requires forall u :: u in h[c].messages ==> Accounts(naming, stored, h[c], full, u)
    ensures stored.Keys <= Given(naming, h[c].uidValidity, full)
  {
    forall i | i in stored
      ensures i in Given(naming, h[c].uidValidity, full)
    {
      StoredIsGiven(naming, stored, unnamed, h, a, c, full, i);
    }
  }

  lemma GenericOpeningIsStored(naming: Naming, stored: map<string, Flags>, unnamed: set<nat>, h: History, a: nat, c: nat)
    requires ValidHistory(h) && Reflects(naming, stored, [], unnamed, h, a, c) && SameNumbers(h[a], h[c])
    ensures naming.rule.Generic? ==> forall u, i :: IsOf(naming, h[c], u, i) ==> i in stored
  {
    if naming.rule.Generic? {
      forall u, i | IsOf(naming, h[c], u, i)
        ensures i in stored
      {
        SameNumbersSameMessages(h, a, c, c);
        IdentityStays(naming, h, a, c, u, i);
        assert Holds(stored, [], i);
      }
    }
  }

  lemma FullAnswers(naming: Naming, stored: map<string, Flags>, h: History, c: nat, d: nat, plan: PassPlan,
                    messages: seq<ListedUid>, named: seq<ListedUid>, full: seq<ListedUid>)
    requires ValidHistory(h) && Answer(h, c, d, plan, messages, true) && Telling(naming, stored, h, c, d, full)
    requires named == NamedEntries(naming, h[c].uidValidity, messages)
    requires forall u :: u in h[c].messages ==> Accounts(naming, stored, h[c], full, u)
    requires named == [] && h[c].messages.Keys == {} ==> full == []
    ensures Answer(h, c, d, Everything, full, true)
  {
    assert |h[c].messages| == 0 ==> h[c].messages.Keys == {};
    forall u | Throughout(h, c, d, u)
      ensures Lists(full, u)
    {
      assert u in h[c].messages;
      if i :| IsOf(naming, h[c], u, i) && i in stored {
        GivenIsListed(naming, h, c, d, full, u, i);
      }
    }
  }

  lemma GivenIsListed(naming: Naming, h: History, c: nat, d: nat, full: seq<ListedUid>, u: nat, i: string)
    requires ValidHistory(h) && TrueEntries(h, c, d, full) && Throughout(h, c, d, u)
    requires IsOf(naming, h[c], u, i) && i in Given(naming, h[c].uidValidity, full)
    ensures Lists(full, u)
  {
    var m :| m in Identify(naming, h[c].uidValidity, full) && m.identity == i;
    var k := ListedWasThere(naming, h, c, d, full, m);
    SameIdentity(naming, h, c, d, k, c, u, i);
    OneMessagePerIdentity(naming, h[k], u, m.uid, i);
    IdentifiedEntry(naming, h[c].uidValidity, full, m);
    var n :| 0 <= n < |full| && full[n].uid == u;
  }

  lemma StoredIsGiven(naming: Naming, stored: map<string, Flags>, unnamed: set<nat>, h: History, a: nat, c: nat,
                      full: seq<ListedUid>, i: string)
    requires ValidHistory(h) && Reflects(naming, stored, [], unnamed, h, a, c) && SameNumbers(h[a], h[c]) && i in stored
    requires forall u :: u in h[c].messages ==> Accounts(naming, stored, h[c], full, u)
    ensures i in Given(naming, h[c].uidValidity, full)
  {
    var u := StoredIsOfOpening(naming, stored, unnamed, h, a, c, i);
    assert Accounts(naming, stored, h[c], full, u);
  }

  lemma StoredIsOfOpening(naming: Naming, stored: map<string, Flags>, unnamed: set<nat>, h: History, a: nat, c: nat, i: string)
    returns (u: nat)
    requires ValidHistory(h) && Reflects(naming, stored, [], unnamed, h, a, c) && SameNumbers(h[a], h[c]) && i in stored
    ensures IsOf(naming, h[c], u, i) && StoredFor(naming, unnamed, h, a, c, u, i, stored[i])
  {
    u :| StoredFor(naming, unnamed, h, a, c, u, i, stored[i]);
    SameNumbersSameMessages(h, a, c, c);
    IdentityStays(naming, h, a, c, u, i);
  }

  // ----- when the fast listing omits only what stands as stored

  /** No listing withheld an identity. */
  predicate NoneWithheld(naming: Naming, unnamed: set<nat>) {
    naming.rule.Generic? || unnamed == {}
  }

  /** Listing nothing always does; CHANGEDSINCE does when no message of the
      opening is removed while it is read; as long as no identity is withheld. */
  lemma FastListingOmitsOnlyStored(naming: Naming, stored: map<string, Flags>, unnamed: set<nat>,
                                   h: History, a: nat, c: nat, d: nat, plan: PassPlan, messages: seq<ListedUid>)
    requires ValidHistory(h) && !plan.Everything? && Answer(h, c, d, plan, messages, true)
    requires PlanRests(naming, stored, unnamed, h, a, c, plan)
    requires NoneWithheld(naming, unnamed) && NoneWithheld(naming, UnnamedUids(naming, h[c].uidValidity, messages))
    requires plan.Nothing? || h[c].messages.Keys <= h[d].messages.Keys
    ensures OmitsOnlyStored(naming, stored, h, c, d, Given(naming, h[c].uidValidity, messages))
  {
    AnswerIsTrue(h, c, d, plan, messages, true);
    forall u, i | IsOf(naming, h[c], u, i) && i in stored && i !in Given(naming, h[c].uidValidity, messages)
      ensures ThereAsStored(naming, stored, h, c, d, i)
    {
      var v := StoredIsOfOpening(naming, stored, unnamed, h, a, c, i);
      OneMessagePerIdentity(naming, h[c], u, v, i);
      UnlistedUid(naming, h, c, d, messages, u, i);
      var k := OmittedMoment(h, a, c, d, plan, messages, u);
      OmittedStands(naming, stored, h, a, c, d, k, u, i);
    }
  }

  lemma OmittedStands(naming: Naming, stored: map<string, Flags>, h: History, a: nat, c: nat, d: nat, k: nat, u: nat, i: string)
    requires ValidHistory(h) && a <= c <= k <= d < |h| && h[k].uidValidity == h[a].uidValidity
    requires i in stored && IsOf(naming, h[c], u, i) && FlagsSeen(h, a, c, u, stored[i])
    requires u in h[k].messages && h[k].messages[u].modseq <= h[a].highestModseq
    ensures ThereAsStored(naming, stored, h, c, d, i)
  {
    FollowsLater(h, a, c);
    FollowsLater(h, c, k);
    IdentityStays(naming, h, c, k, u, i);
    SeenStays(h, a, c, k, u, Seen, stored[i].seen);
    SeenStays(h, a, c, k, u, Flagged, stored[i].flagged);
    assert IsOf(naming, h[k], u, i) && h[k].messages[u].flags == stored[i];
  }

  lemma OmittedMoment(h: History, a: nat, c: nat, d: nat, plan: PassPlan, messages: seq<ListedUid>, u: nat) returns (k: nat)
    requires ValidHistory(h) && !plan.Everything? && Answer(h, c, d, plan, messages, true)
    requires a <= c && h[a].uidValidity == h[c].uidValidity
    requires plan.Nothing? ==> h[a].highestModseq == h[c].highestModseq
    requires plan.ChangedFlags? ==> plan.since == h[a].highestModseq
    requires plan.Nothing? || h[c].messages.Keys <= h[d].messages.Keys
    requires u in h[c].messages && !Lists(messages, u)
    ensures c <= k <= d && u in h[k].messages && h[k].messages[u].modseq <= h[a].highestModseq
    ensures h[k].uidValidity == h[a].uidValidity
  {
    if plan.Nothing? {
      k := c;
    } else {
      forall j | c <= j <= d
        ensures u in h[j].messages
      {
        FollowsLater(h, c, j);
        FollowsLater(h, j, d);
        FollowsLater(h, c, d);
      }
      assert |h[c].messages| != 0;
      assert Throughout(h, c, d, u);
      assert NotNewer(h, c, d, u, plan.since);
      k :| c <= k <= d && u in h[k].messages && h[k].messages[u].modseq <= plan.since;
      FollowsLater(h, c, k);
      FollowsLater(h, k, d);
    }
  }

  /** There is no other case: when some full listing stores the same, the fast one
      omitted only what stands as stored. */
  lemma FullPassOmitsOnlyStored(naming: Naming, sync: FolderSync, numbers: FolderNumbers, h: History, c: nat, d: nat,
                                plan: PassPlan, messages: seq<ListedUid>, full: seq<ListedUid>)
    requires ValidHistory(h) && !plan.Everything? && Answer(h, c, d, Everything, full, true)
    requires PassBatch(sync, numbers, Everything, Identify(naming, h[c].uidValidity, full), true)
             == PassBatch(sync, numbers, plan, Identify(naming, h[c].uidValidity, messages), true)
    ensures OmitsOnlyStored(naming, sync.stored, h, c, d, Given(naming, h[c].uidValidity, messages))
  {
    AnswerIsTrue(h, c, d, Everything, full, true);
    SameBatchSaysSame(sync, numbers, plan, Identify(naming, h[c].uidValidity, messages), Identify(naming, h[c].uidValidity, full));
    forall i | i in sync.stored && i !in Given(naming, h[c].uidValidity, messages)
      ensures ThereAsStored(naming, sync.stored, h, c, d, i)
    {
      OmittedIsThereAsStored(naming, sync.stored, h, c, d, messages, full, i);
    }
  }

  lemma SameBatchSaysSame(sync: FolderSync, numbers: FolderNumbers, plan: PassPlan,
                          fastListed: seq<ListedMessage>, fullListed: seq<ListedMessage>)
    requires !plan.Everything?
    requires PassBatch(sync, numbers, Everything, fullListed, true) == PassBatch(sync, numbers, plan, fastListed, true)
    ensures ChangedStates(fullListed, sync.stored) == ChangedStates(fastListed, sync.stored)
    ensures sync.stored.Keys <= ListedIdentities(fullListed)
  {
    var removed := PassBatch(sync, numbers, Everything, fullListed, true).removed;
    assert removed == sync.stored.Keys - ListedIdentities(fullListed);
    assert removed == PassBatch(sync, numbers, plan, fastListed, true).removed == {};
    forall i | i in sync.stored.Keys
      ensures i in ListedIdentities(fullListed)
    {
      assert i !in removed;
    }
  }

  lemma OmittedIsThereAsStored(naming: Naming, stored: map<string, Flags>, h: History, c: nat, d: nat,
                               messages: seq<ListedUid>, full: seq<ListedUid>, i: string)
    requires ValidHistory(h) && TrueEntries(h, c, d, full)
    requires ChangedStates(Identify(naming, h[c].uidValidity, full), stored)
             == ChangedStates(Identify(naming, h[c].uidValidity, messages), stored)
    requires i !in Given(naming, h[c].uidValidity, messages)
    requires i in stored && i in Given(naming, h[c].uidValidity, full)
    ensures ThereAsStored(naming, stored, h, c, d, i)
  {
    var fastListed := Identify(naming, h[c].uidValidity, messages);
    var fullListed := Identify(naming, h[c].uidValidity, full);
    var m :| m in fullListed && m.identity == i;
    var k := ListedWasThere(naming, h, c, d, full, m);
    if m.flags != stored[i] {
      ChangedStatesAre(fullListed, stored, i, m.flags);
      ChangedStatesAre(fastListed, stored, i, m.flags);
      assert false;
    }
  }

  /** Both halves: a fast pass stores what some full one would exactly when its
      listing omits only what stands as stored. */
  lemma FastIsFullIff(naming: Naming, sync: FolderSync, numbers: FolderNumbers, unnamed: set<nat>,
                      h: History, a: nat, c: nat, d: nat, plan: PassPlan, messages: seq<ListedUid>)
    requires ValidHistory(h) && !plan.Everything? && Answer(h, c, d, plan, messages, true)
    requires PlanRests(naming, sync.stored, unnamed, h, a, c, plan)
    ensures (exists full :: StoresTheSame(naming, sync, numbers, h, c, d, plan, messages, full))
            <==> OmitsOnlyStored(naming, sync.stored, h, c, d, Given(naming, h[c].uidValidity, messages))
  {
    if full :| StoresTheSame(naming, sync, numbers, h, c, d, plan, messages, full) {
      FullPassOmitsOnlyStored(naming, sync, numbers, h, c, d, plan, messages, full);
    }
    if OmitsOnlyStored(naming, sync.stored, h, c, d, Given(naming, h[c].uidValidity, messages)) {
      var full := FastPassIsAFullPass(naming, sync, numbers, unnamed, h, a, c, d, plan, messages);
      assert StoresTheSame(naming, sync, numbers, h, c, d, plan, messages, full);
    }
  }

  ghost predicate StoresTheSame(naming: Naming, sync: FolderSync, numbers: FolderNumbers, h: History, c: nat, d: nat,
                                plan: PassPlan, messages: seq<ListedUid>, full: seq<ListedUid>)
    requires c < |h|
  {
    && Answer(h, c, d, Everything, full, true)
    && PassBatch(sync, numbers, Everything, Identify(naming, h[c].uidValidity, full), true)
       == PassBatch(sync, numbers, plan, Identify(naming, h[c].uidValidity, messages), true)
  }

  // ----- the case it shuts out

  const INBOX := Naming(Generic, "INBOX")

  const STARRED_ID := "imap:INBOX/" + Place(1, 3)

  /** A message is starred before the opening and removed while CHANGEDSINCE is read. */
  const STARRED_THEN_REMOVED: History := [
    Mailbox(1, map[3 := ServerMessage(None, Flags(false, false), 5)], 9, 5),
    Mailbox(1, map[3 := ServerMessage(None, Flags(false, true), 6)], 9, 6),
    Mailbox(1, map[], 9, 6)]

  lemma StarredIsAHistory()
    ensures ValidHistory(STARRED_THEN_REMOVED)
    ensures forall k, v, i :: 0 <= k < 3 && IsOf(INBOX, STARRED_THEN_REMOVED[k], v, i) ==> v == 3 && k < 2 && i == STARRED_ID
    ensures IsOf(INBOX, STARRED_THEN_REMOVED[0], 3, STARRED_ID) && IsOf(INBOX, STARRED_THEN_REMOVED[1], 3, STARRED_ID)
  {
    var h := STARRED_THEN_REMOVED;
    assert FollowsAt(h, 1) && FollowsAt(h, 2);
    assert "imap:" + "INBOX" + "/" + Place(1, 3) == STARRED_ID;
  }

  lemma StarredIsReflected()
    ensures Reflects(INBOX, map[STARRED_ID := Flags(false, false)], [], {}, STARRED_THEN_REMOVED, 0, 1)
  {
    var h := STARRED_THEN_REMOVED;
    var stored := map[STARRED_ID := Flags(false, false)];
    StarredIsAHistory();
    assert SeenAt(h, 0, 3, Seen, false) && SeenAt(h, 0, 3, Flagged, false);
    assert StoredFor(INBOX, {}, h, 0, 1, 3, STARRED_ID, stored[STARRED_ID]);
  }

  /** The fast listing may leave it out, though no listing of every message could
      show it as it is stored. */
  lemma RemovedWhileListed()
    ensures
      var stored := map[STARRED_ID := Flags(false, false)];
      && ValidHistory(STARRED_THEN_REMOVED)
      && PlanRests(INBOX, stored, {}, STARRED_THEN_REMOVED, 0, 1, ChangedFlags(5))
      && Answer(STARRED_THEN_REMOVED, 1, 2, ChangedFlags(5), [], true)
      && !OmitsOnlyStored(INBOX, stored, STARRED_THEN_REMOVED, 1, 2, Given(INBOX, 1, []))
  {
    var stored := map[STARRED_ID := Flags(false, false)];
    StarredIsAHistory();
    StarredIsReflected();
    assert !ThereAsStored(INBOX, stored, STARRED_THEN_REMOVED, 1, 2, STARRED_ID);
  }
}
