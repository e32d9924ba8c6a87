/** The state pass of an IMAP cycle: what it lists, told by the opening's
    numbers, and the batch it stores. */
module ImapPass {
  import opened Domain
  import opened MessageIdentity
  import opened ImapServer
  import opened StoreTables
  import opened StoreLaws

  datatype PassPlan = Nothing | ChangedFlags(since: nat) | Everything

  /** A listed message the cycle knows by its identity. */
  datatype ListedMessage = ListedMessage(identity: string, uid: nat, flags: Flags)

  /** What a cycle reads of its folder at its start. */
  datatype FolderSync = FolderSync(state: FolderState, stored: map<string, Flags>)

  /** How the folder's messages are identified: the rule and the folder's name. */
  datatype Naming = Naming(rule: IdentityRule, folder: string)

  // ----- the cycle's own computations

  function PlanOf(numbers: FolderNumbers, reference: Option<FolderNumbers>, pendingChanges: bool): PassPlan {
    match reference
    case None => Everything
    case Some(before) =>
      var sameMessages :=
        && numbers.uidValidity.Some? && numbers.uidValidity == before.uidValidity
        && numbers.messageCount == before.messageCount
        && numbers.uidNext.Some? && numbers.uidNext == before.uidNext;
      match (before.highestModseq, numbers.highestModseq)
      case (Some(since), Some(highest)) =>
        if sameMessages && !pendingChanges
        then if highest == since then Nothing else ChangedFlags(since)
        else Everything
      case _ => Everything
  }

  /** Each listed message with its identity; one without is left out. */
  function Identify(naming: Naming, validity: nat, messages: seq<ListedUid>): seq<ListedMessage> {
    if messages == [] then []
    else
      var last := messages[|messages| - 1];
      var identity := IdentityOf(naming.rule, naming.folder, validity, last.uid, last.gmail);
      Identify(naming, validity, messages[..|messages| - 1])
      + if identity.Some? then [ListedMessage(identity.value, last.uid, last.flags)] else []
  }

  /** The messages a listing showed without an identity, which the cycle leaves out. */
  function UnnamedUids(naming: Naming, validity: nat, messages: seq<ListedUid>): set<nat> {
    set e | e in messages && IdentityOf(naming.rule, naming.folder, validity, e.uid, e.gmail).None? :: e.uid
  }

  /** The listed messages the folder does not hold, highest UID first. */
  function Missing(listed: seq<ListedMessage>, stored: map<string, Flags>): seq<ListedMessage> {
    if listed == [] then []
    else
      var last := listed[|listed| - 1];
      (if last.identity in stored then [] else [last]) + Missing(listed[..|listed| - 1], stored)
  }

  /** The listed flags that differ from the stored ones. */
  function ChangedStates(listed: seq<ListedMessage>, stored: map<string, Flags>): seq<(string, Flags)> {
    if listed == [] then []
    else
      var last := listed[|listed| - 1];
      ChangedStates(listed[..|listed| - 1], stored)
      + if last.identity in stored && stored[last.identity] != last.flags then [(last.identity, last.flags)] else []
  }

  function ListedIdentities(listed: seq<ListedMessage>): set<string> {
    set m | m in listed :: m.identity
  }

  function PassState(stored: FolderState, numbers: FolderNumbers, complete: bool, missing: bool): Option<FolderState> {
    if missing then Some(DEFAULT_STATE)
    else if complete && !(stored.synchronized && stored.numbers == Some(numbers))
    then Some(FolderState(None, None, true, Some(numbers)))
    else None
  }

  /** What the pass stores: removals only from a complete listing of every
      message, the changed flags and the folder's state. */
  function PassBatch(sync: FolderSync, numbers: FolderNumbers, plan: PassPlan, listed: seq<ListedMessage>, complete: bool): Batch {
    Batch(
      if complete && plan.Everything? then sync.stored.Keys - ListedIdentities(listed) else {},
      ChangedStates(listed, sync.stored),
      [],
      [],
      PassState(sync.state, numbers, complete, Missing(listed, sync.stored) != []))
  }

  /** A batch that changes nothing is not written. */
  function StoreUnlessEmpty(t: Tables, folder: FolderKey, b: Batch): Tables
    requires folder in t.folders
  {
    if b == EMPTY_BATCH then t else ApplyBatch(t, folder, b)
  }

  // ----- what the server may answer

  /** The listing the plan calls for, read between the opening `c` and `d`; a
      folder that opened empty is listed without a command. */
  ghost predicate Answer(h: History, c: nat, d: nat, plan: PassPlan, messages: seq<ListedUid>, complete: bool) {
    && c <= d < |h| && h[c].uidValidity == h[d].uidValidity
    && if plan.Nothing? || |h[c].messages| == 0 then messages == [] && complete
       else match plan
         case Nothing => messages == [] && complete
         case ChangedFlags(since) => ChangedListing(h, c, d, since, messages, complete)
         case Everything => Listing(h, c, d, messages, complete)
  }

  // ----- what the store reflects

  /** Message `u` of the mailbox is the one stored as `i`. */
  predicate IsOf(naming: Naming, s: Mailbox, u: nat, i: string) {
    u in s.messages && IdentityOf(naming.rule, naming.folder, s.uidValidity, u, s.messages[u].gmail) == Some(i)
  }

  predicate SeenAt(h: History, j: nat, u: nat, flag: Flag, value: bool)
    requires j < |h|
  {
    u in h[j].messages && h[j].messages[u].flags.Of(flag) == value
  }

  ghost predicate FlagSeen(h: History, a: nat, z: nat, u: nat, flag: Flag, value: bool)
    requires z < |h|
  {
    exists j :: a <= j <= z && SeenAt(h, j, u, flag, value)
  }

  /** Each flag is a value the server held for the message between `a` and `z`. */
  ghost predicate FlagsSeen(h: History, a: nat, z: nat, u: nat, flags: Flags)
    requires z < |h|
  {
    FlagSeen(h, a, z, u, Seen, flags.seen) && FlagSeen(h, a, z, u, Flagged, flags.flagged)
  }

  ghost predicate StandsFor(naming: Naming, h: History, a: nat, z: nat, u: nat, i: string, flags: Flags)
    requires a <= z < |h|
  {
    IsOf(naming, h[a], u, i) && FlagsSeen(h, a, z, u, flags)
  }

  ghost predicate Holds(held: map<string, Flags>, missing: seq<ListedMessage>, i: string) {
    i in held || exists m :: m in missing && m.identity == i
  }

  /** The message was listed without its identity: a Gmail message, since a place is never withheld. */
  predicate Withheld(naming: Naming, unnamed: set<nat>, u: nat) {
    naming.rule.Gmail? && u in unnamed
  }

  /** What is stored as `i` stands for message `u` of opening `a`; its flags too,
      unless the listing withheld its identity. */
  ghost predicate StoredFor(naming: Naming, unnamed: set<nat>, h: History, a: nat, z: nat, u: nat, i: string, flags: Flags)
    requires a <= z < |h|
  {
    IsOf(naming, h[a], u, i) && (Withheld(naming, unnamed, u) || FlagsSeen(h, a, z, u, flags))
  }

  /** The folder's messages and those still missing are the identified messages
      of opening `a`, as long as moment `z` has the same numbers; every stored
      flag was the server's since. Nothing of this is said of the messages whose
      identity the listings withheld, but that those stored are of the opening. */
  ghost predicate Reflects(naming: Naming, held: map<string, Flags>, missing: seq<ListedMessage>, unnamed: set<nat>,
                           h: History, a: nat, z: nat) {
    && a <= z < |h|
    && (SameNumbers(h[a], h[z]) ==>
          && (forall u, i :: IsOf(naming, h[a], u, i) && !Withheld(naming, unnamed, u) ==> Holds(held, missing, i))
          && (forall i :: i in held ==> exists u :: StoredFor(naming, unnamed, h, a, z, u, i, held[i]))
          && (forall m :: m in missing ==> StandsFor(naming, h, a, z, m.uid, m.identity, m.flags)))
  }

  /** The messages without a told identity after a listing: those of a listing of
      every message, added to the earlier ones by a fast one. */
  function UnnamedAfter(plan: PassPlan, earlier: set<nat>, now: set<nat>): set<nat> {
    if plan.Everything? then now else earlier + now
  }

  lemma OneMessagePerIdentity(naming: Naming, s: Mailbox, u: nat, v: nat, i: string)
    requires SoundMailbox(s) && IsOf(naming, s, u, i) && IsOf(naming, s, v, i)
    ensures u == v
  {
    match naming.rule
    case Generic =>
      GenericIdentityIsThePlace(naming.folder, s.uidValidity, u, s.messages[u].gmail, s.uidValidity, v, s.messages[v].gmail);
    case Gmail =>
      GmailIdentityIsItsNumber(naming.folder, s.uidValidity, u, s.messages[u].gmail.value, v, s.messages[v].gmail.value);
  }

  lemma IdentityStays(naming: Naming, h: History, j: nat, k: nat, u: nat, i: string)
    requires ValidHistory(h) && j <= k < |h|
    requires h[j].uidValidity == h[k].uidValidity && u in h[j].messages && u in h[k].messages
    ensures IsOf(naming, h[j], u, i) <==> IsOf(naming, h[k], u, i)
  {
    FollowsLater(h, j, k);
  }

  // ----- what a listing proves

  /** Every listed message is an entry of the listing that has an identity. */
  lemma {:induction false} IdentifiedEntry(naming: Naming, validity: nat, messages: seq<ListedUid>, m: ListedMessage)
    requires m in Identify(naming, validity, messages)
    ensures exists i :: 0 <= i < |messages| && messages[i].uid == m.uid && messages[i].flags == m.flags
              && IdentityOf(naming.rule, naming.folder, validity, m.uid, messages[i].gmail) == Some(m.identity)
  {
    var n := |messages| - 1;
    if m in Identify(naming, validity, messages[..n]) {
      IdentifiedEntry(naming, validity, messages[..n], m);
      var i :| 0 <= i < n && messages[..n][i].uid == m.uid && messages[..n][i].flags == m.flags
        && IdentityOf(naming.rule, naming.folder, validity, m.uid, messages[..n][i].gmail) == Some(m.identity);
      assert messages[i].uid == m.uid;
    } else {
      assert messages[n].uid == m.uid;
    }
  }

  lemma {:induction false} EntryIdentified(naming: Naming, validity: nat, messages: seq<ListedUid>, i: nat)
    requires i < |messages|
    ensures
      var e := messages[i];
      var identity := IdentityOf(naming.rule, naming.folder, validity, e.uid, e.gmail);
      identity.Some? ==> ListedMessage(identity.value, e.uid, e.flags) in Identify(naming, validity, messages)
  {
    var n := |messages| - 1;
    if i < n {
      EntryIdentified(naming, validity, messages[..n], i);
    }
  }

  /** A listed message was on the server, with those flags, at a moment of the reading. */
  lemma ListedWasThere(naming: Naming, h: History, c: nat, d: nat, messages: seq<ListedUid>, m: ListedMessage) returns (k: nat)
    requires ValidHistory(h) && TrueEntries(h, c, d, messages)
    requires m in Identify(naming, h[c].uidValidity, messages)
    ensures c <= k <= d && IsOf(naming, h[k], m.uid, m.identity) && h[k].messages[m.uid].flags == m.flags
    ensures h[k].uidValidity == h[c].uidValidity
  {
    IdentifiedEntry(naming, h[c].uidValidity, messages, m);
    var i :| 0 <= i < |messages| && messages[i].uid == m.uid && messages[i].flags == m.flags
      && IdentityOf(naming.rule, naming.folder, h[c].uidValidity, m.uid, messages[i].gmail) == Some(m.identity);
    assert TrueSometime(h, c, d, messages[i]);
    k :| c <= k <= d && TrueAt(h, k, messages[i]);
    FollowsLater(h, c, k);
    FollowsLater(h, k, d);
  }

  /** An entry that has an identity tells the identity of its message. */
  lemma EntryIs(naming: Naming, h: History, c: nat, d: nat, messages: seq<ListedUid>, e: ListedUid, u: nat, i: string) returns (k: nat)
    requires ValidHistory(h) && TrueEntries(h, c, d, messages)
    requires e in messages && e.uid == u && u in h[c].messages
    requires IsOf(naming, h[c], u, i)
    ensures c <= k <= d && TrueAt(h, k, e)
    ensures u in UnnamedUids(naming, h[c].uidValidity, messages)
            || IdentityOf(naming.rule, naming.folder, h[c].uidValidity, u, e.gmail) == Some(i)
  {
    assert TrueSometime(h, c, d, e);
    k :| c <= k <= d && TrueAt(h, k, e);
    FollowsLater(h, c, k);
    FollowsLater(h, k, d);
  }

  lemma {:induction false} MissingIs(listed: seq<ListedMessage>, stored: map<string, Flags>, m: ListedMessage)
    ensures m in Missing(listed, stored) <==> m in listed && m.identity !in stored
  {
    if listed != [] {
      MissingIs(listed[..|listed| - 1], stored, m);
      assert listed == listed[..|listed| - 1] + [listed[|listed| - 1]];
    }
  }

  lemma {:induction false} ChangedStatesAre(listed: seq<ListedMessage>, stored: map<string, Flags>, i: string, flags: Flags)
    ensures (i, flags) in ChangedStates(listed, stored) <==>
              i in stored && stored[i] != flags && exists m :: m in listed && m.identity == i && m.flags == flags
  {
    if listed != [] {
      var n := |listed| - 1;
      ChangedStatesAre(listed[..n], stored, i, flags);
      assert listed == listed[..n] + [listed[n]];
    }
  }

  lemma {:induction false} LastFlagsFrom(entries: seq<(string, Flags)>, i: string, flags: Flags)
    ensures LastFlags(entries, i, flags) == flags || (i, LastFlags(entries, i, flags)) in entries
    ensures (exists f :: (i, f) in entries) ==> (i, LastFlags(entries, i, flags)) in entries
  {
    if entries != [] {
      var n := |entries| - 1;
      LastFlagsFrom(entries[..n], i, flags);
      assert entries == entries[..n] + [entries[n]];
    }
  }

  /** After the pass's batch the folder holds what it held without the removals,
      each listed message with listed flags and each other one with its own. */
  lemma HeldAfterPass(t: Tables, folder: FolderKey, b: Batch, listed: seq<ListedMessage>, i: string)
    requires Valid(t) && folder in t.folders
    requires b.flagStates == ChangedStates(listed, Held(t, folder)) && b.arrived == [] && b.knownArrived == []
    ensures i in Held(ApplyBatch(t, folder, b), folder) <==> i in Held(t, folder) && i !in b.removed
    ensures i in Held(ApplyBatch(t, folder, b), folder) ==>
              var flags := Held(ApplyBatch(t, folder, b), folder)[i];
              if i in ListedIdentities(listed)
              then ListedWith(listed, i, flags)
              else flags == Held(t, folder)[i]
  {
    HeldAfterBatch(t, folder, b, i);
    assert Identities(b.arrived) == {} && Named(b.knownArrived) == {};
    if i in Held(ApplyBatch(t, folder, b), folder) {
      var before := FlagsAfterBatch(t, folder, b, i);
      var flags := LastFlags(b.flagStates, i, before);
      LastFlagsFrom(b.flagStates, i, before);
      ChangedStatesAre(listed, Held(t, folder), i, flags);
      if i in ListedIdentities(listed) {
        var m :| m in listed && m.identity == i;
        ChangedStatesAre(listed, Held(t, folder), i, m.flags);
        if m.flags == before && flags == before {
          assert ListedWith(listed, i, flags);
        }
      }
    }
  }

  ghost predicate ListedWith(listed: seq<ListedMessage>, i: string, flags: Flags) {
    exists m :: m in listed && m.identity == i && m.flags == flags
  }

  // ----- a complete pass makes the store reflect its opening

  /** What the plan says of the two openings it compared. */
  lemma PlanCompares(h: History, a: nat, c: nat, reference: FolderNumbers, numbers: FolderNumbers, pendingChanges: bool)
    requires a <= c < |h| && Reports(reference, h[a]) && Reports(numbers, h[c])
    ensures var plan := PlanOf(numbers, Some(reference), pendingChanges);
            && (!plan.Everything? ==> SameNumbers(h[a], h[c]))
            && (plan.Nothing? ==> h[a].highestModseq == h[c].highestModseq)
            && (plan.ChangedFlags? ==> plan.since == h[a].highestModseq)
            && (pendingChanges ==> plan.Everything?)
  {
  }

  /** UIDVALIDITY and UIDNEXT are told and equal, and EXISTS is: under one numbering
      nothing came or went. */
  predicate TellSameMessages(before: FolderNumbers, now: FolderNumbers) {
    && now.uidValidity.Some? && before.uidValidity.Some? && now.uidValidity.value == before.uidValidity.value
    && now.uidNext.Some? && before.uidNext.Some? && now.uidNext.value == before.uidNext.value
    && now.messageCount == before.messageCount
  }

  /** Nothing is listed exactly when all numbers of the reference are told again and
      no change is pending; only changed flags, and those since the reference, exactly
      when all but HIGHESTMODSEQ are, which both tell. */
  lemma PlanIff(numbers: FolderNumbers, reference: Option<FolderNumbers>, pendingChanges: bool)
    ensures
      var plan := PlanOf(numbers, reference, pendingChanges);
      var fast := reference.Some? && !pendingChanges && TellSameMessages(reference.value, numbers)
                  && reference.value.highestModseq.Some? && numbers.highestModseq.Some?;
      && (plan == Nothing <==> fast && numbers.highestModseq.value == reference.value.highestModseq.value)
      && (plan.ChangedFlags? <==> fast && numbers.highestModseq.value != reference.value.highestModseq.value)
      && (plan.ChangedFlags? ==> plan.since == reference.value.highestModseq.value)
  {
  }

  /** The plan was chosen against an opening the store reflects. */
  ghost predicate PlanRests(naming: Naming, held: map<string, Flags>, unnamed: set<nat>, h: History, a: nat, c: nat, plan: PassPlan) {
    plan.Everything? || (
      && Reflects(naming, held, [], unnamed, h, a, c) && SameNumbers(h[a], h[c])
      && (plan.Nothing? ==> h[a].highestModseq == h[c].highestModseq)
      && (plan.ChangedFlags? ==> plan.since == h[a].highestModseq))
  }
}
