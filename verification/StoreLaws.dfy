/** What every operation of the store keeps, what a batch does to a folder, and
    that a batch may be stored twice. */
module StoreLaws {
  import opened Domain
  import opened StoreTables

  // ----- integrity

  lemma RemovalsKeepValid(t: Tables, folder: FolderKey, removed: set<string>)
    requires Valid(t)
    ensures Valid(Removals(t, folder, removed))
  {
    var r := Removals(t, folder, removed);
    forall k | k in r.messages
      ensures InSomeFolder(r, k)
    {
      if removed != {} && k.account != folder.account {
        var m :| m in t.memberships && m.message == k;
        assert m in r.memberships;
      }
    }
  }

  lemma BatchKeepsValid(t: Tables, folder: FolderKey, b: Batch)
    requires Valid(t) && folder in t.folders
    ensures Valid(ApplyBatch(t, folder, b))
  {
    RemovalsKeepValid(t, folder, b.removed);
    forall k | k in ApplyBatch(t, folder, b).messages
      ensures InSomeFolder(ApplyBatch(t, folder, b), k)
    {
      ArrivedOrKept(t, folder, b, k);
    }
  }

  lemma ArrivedOrKept(t: Tables, folder: FolderKey, b: Batch, k: MessageKey)
    requires folder in t.folders && Valid(Removals(t, folder, b.removed)) && k in ApplyBatch(t, folder, b).messages
    ensures InSomeFolder(ApplyBatch(t, folder, b), k)
  {
    var r, t' := Removals(t, folder, b.removed), ApplyBatch(t, folder, b);
    if k in ArrivedKeys(folder.account, b.arrived) {
      assert Membership(folder, k) in t'.memberships;
    } else {
      var m :| m in r.memberships && m.message == k;
      assert m in t'.memberships;
    }
  }

  lemma ReplaceFoldersKeepsValid(t: Tables, account: string, listed: seq<ListedFolder>)
    requires Valid(t)
    ensures Valid(ReplaceFolders(t, account, listed))
  {
    var t' := ReplaceFolders(t, account, listed);
    forall k | k in t'.messages
      ensures InSomeFolder(t', k)
    {
      if k.account != account {
        var m :| m in t.memberships && m.message == k;
        assert m in t'.memberships;
      }
    }
  }

  /** The last entry of a folder list that names the folder. */
  predicate ListsLast(listed: seq<ListedFolder>, identity: string, j: int) {
    && 0 <= j < |listed| && listed[j].identity == identity
    && forall l :: j < l < |listed| ==> listed[l].identity != identity
  }

  lemma {:induction false} LastListedIs(listed: seq<ListedFolder>, identity: string)
    ensures LastListed(listed, identity).Some? <==> exists f :: f in listed && f.identity == identity
    ensures LastListed(listed, identity).Some? ==>
              exists j :: ListsLast(listed, identity, j) && listed[j] == LastListed(listed, identity).value
  {
    if listed != [] {
      var n := |listed| - 1;
      LastListedIs(listed[..n], identity);
      assert listed == listed[..n] + [listed[n]];
      if listed[n].identity == identity {
        assert ListsLast(listed, identity, n);
      } else if LastListed(listed[..n], identity).Some? {
        var j :| ListsLast(listed[..n], identity, j) && listed[..n][j] == LastListed(listed[..n], identity).value;
        assert ListsLast(listed, identity, j);
      }
    }
  }

  /** After a folder list the account has exactly the listed folders, each with the
      name it was last listed under; one it had keeps what it remembers, a new one
      remembers nothing. Other accounts' folders stay. */
  lemma ListedFolderIs(t: Tables, account: string, listed: seq<ListedFolder>, k: FolderKey)
    ensures k.account == account ==>
              (k in ReplaceFolders(t, account, listed).folders <==> exists f :: f in listed && f.identity == k.identity)
    ensures k.account == account && k in ReplaceFolders(t, account, listed).folders ==>
              var row := ReplaceFolders(t, account, listed).folders[k];
              && (exists j :: ListsLast(listed, k.identity, j) && row.name == listed[j].name && row.selectable == listed[j].selectable)
              && row.state == (if k in t.folders then t.folders[k].state else DEFAULT_STATE)
    ensures k.account != account ==>
              && (k in ReplaceFolders(t, account, listed).folders <==> k in t.folders)
              && (k in t.folders ==> ReplaceFolders(t, account, listed).folders[k] == t.folders[k])
  {
    LastListedIs(listed, k.identity);
    assert k in ListedKeys(account, listed) <==> k.account == account && exists f :: f in listed && f.identity == k.identity;
  }

  /** With a folder its memberships go, and the messages no other folder holds; all
      other rows stay as they are. */
  lemma ReplacedListKeeps(t: Tables, account: string, listed: seq<ListedFolder>)
    requires Valid(t)
    ensures
      var t' := ReplaceFolders(t, account, listed);
      && (forall m :: m in t'.memberships <==> m in t.memberships && m.folder in t'.folders)
      && (forall k :: k in t'.messages <==> k in t.messages && InSomeFolder(t', k))
      && (forall k :: k in t'.messages ==> t'.messages[k] == t.messages[k])
  {
    var t' := ReplaceFolders(t, account, listed);
    forall k | k in t.messages && k.account != account
      ensures InSomeFolder(t', k)
    {
      var m :| m in t.memberships && m.message == k;
      assert m in t'.memberships;
    }
    forall m | m in t.memberships
      ensures m in t'.memberships <==> m.folder in t'.folders
    {
      assert m.folder in t.folders;
    }
  }

  lemma DeleteOtherAccountsKeepsValid(t: Tables, current: set<string>)
    requires Valid(t)
    ensures Valid(DeleteOtherAccounts(t, current))
    ensures forall k :: k in DeleteOtherAccounts(t, current).messages <==> k in t.messages && k.account in current
    ensures forall k :: k in DeleteOtherAccounts(t, current).folders <==> k in t.folders && k.account in current
    ensures forall m :: m in DeleteOtherAccounts(t, current).memberships <==> m in t.memberships && m.folder.account in current
    ensures forall k :: k in DeleteOtherAccounts(t, current).messages ==> DeleteOtherAccounts(t, current).messages[k] == t.messages[k]
    ensures forall k :: k in DeleteOtherAccounts(t, current).folders ==> DeleteOtherAccounts(t, current).folders[k] == t.folders[k]
  {
    var t' := DeleteOtherAccounts(t, current);
    forall k | k in t.messages && k.account !in current
      ensures k.account in OtherAccounts(t, current)
    {
      var m :| m in t.memberships && m.message == k;
      assert m.folder in t.folders;
    }
    forall k | k in t'.messages
      ensures InSomeFolder(t', k)
    {
      var m :| m in t.memberships && m.message == k;
      assert m in t'.memberships;
    }
  }

  lemma FlagWritesKeepValid(t: Tables, k: MessageKey, account: string, identities: seq<string>, flag: Flag, value: bool)
    requires Valid(t)
    ensures Valid(WriteWish(t, k, flag, value))
    ensures Valid(Settle(t, account, identities, flag, value))
    ensures Valid(DropRefused(t, account, identities, flag, value))
  {
    SameKeysKeepValid(t, WriteWish(t, k, flag, value));
    SameKeysKeepValid(t, Settle(t, account, identities, flag, value));
    SameKeysKeepValid(t, DropRefused(t, account, identities, flag, value));
  }

  lemma SameKeysKeepValid(t: Tables, t': Tables)
    requires Valid(t) && t'.messages.Keys == t.messages.Keys && t'.folders == t.folders && t'.memberships == t.memberships
    ensures Valid(t')
  {
    forall k | k in t'.messages
      ensures InSomeFolder(t', k)
    {
      assert InSomeFolder(t, k);
    }
  }

  // ----- what a batch does to its folder

  lemma ArrivedRowFor(kept: Option<MessageRow>, arrived: seq<Message>, identity: string)
    ensures (exists m :: m in arrived && m.identity == identity) ==> ArrivedRow(kept, arrived, identity).Some?
    ensures !(exists m :: m in arrived && m.identity == identity) ==> ArrivedRow(kept, arrived, identity) == kept
  {
    if arrived != [] {
      ArrivedRowFor(kept, arrived[..|arrived| - 1], identity);
      assert arrived == arrived[..|arrived| - 1] + [arrived[|arrived| - 1]];
    }
  }

  function Identities(arrived: seq<Message>): set<string> {
    set m | m in arrived :: m.identity
  }

  function Named(entries: seq<(string, Flags)>): set<string> {
    set e | e in entries :: e.0
  }

  /** The flags the last record of `arrived` for `identity` carries. */
  function LastArrivedFlags(arrived: seq<Message>, identity: string, flags: Flags): Flags {
    if arrived == [] then flags
    else if arrived[|arrived| - 1].identity == identity then arrived[|arrived| - 1].flags
    else LastArrivedFlags(arrived[..|arrived| - 1], identity, flags)
  }

  lemma ArrivedRowFlags(kept: Option<MessageRow>, arrived: seq<Message>, identity: string, flags: Flags)
    requires kept.Some? ==> kept.value.flags == flags
    ensures ArrivedRow(kept, arrived, identity).Some? ==>
              ArrivedRow(kept, arrived, identity).value.flags == LastArrivedFlags(arrived, identity, flags)
  {
  }

  /** The flags of a message the folder holds after a batch, given those before it. */
  function FlagsAfter(b: Batch, identity: string, before: Flags): Flags {
    LastFlags(b.knownArrived, identity, LastArrivedFlags(b.arrived, identity, LastFlags(b.flagStates, identity, before)))
  }

  /** The messages of a folder after a batch into it: those not removed, those
      that arrived in full, and the related ones the account holds. */
  lemma HeldAfterBatch(t: Tables, folder: FolderKey, b: Batch, i: string)
    requires Valid(t) && folder in t.folders
    ensures i in Held(ApplyBatch(t, folder, b), folder) <==>
            || (i in Held(t, folder) && i !in b.removed)
            || i in Identities(b.arrived)
            || (i in Named(b.knownArrived) && MessageKey(folder.account, i) in ApplyBatch(t, folder, b).messages)
  {
    var r, t' := Removals(t, folder, b.removed), ApplyBatch(t, folder, b);
    BatchKeepsValid(t, folder, b);
    HeldIsMembership(t', folder, i);
    HeldIsMembership(t, folder, i);
    var k := MessageKey(folder.account, i);
    assert i in Identities(b.arrived) <==> k in ArrivedKeys(folder.account, b.arrived);
    assert i in Named(b.knownArrived) <==> k in KnownKeys(folder.account, b.knownArrived);
    assert Membership(folder, k) in r.memberships <==> Membership(folder, k) in t.memberships && i !in b.removed;
  }

  /** A batch into one folder leaves the other folders and their memberships, and the
      other accounts' messages; of its own folder it writes only what is remembered. */
  lemma BatchLeavesOthers(t: Tables, folder: FolderKey, b: Batch)
    requires folder in t.folders
    ensures
      var t' := ApplyBatch(t, folder, b);
      && t'.folders == t.folders[folder := t.folders[folder].(state := b.state.GetOr(t.folders[folder].state))]
      && (forall m: Membership :: m.folder != folder ==> (m in t'.memberships <==> m in t.memberships))
      && (forall k: MessageKey :: k.account != folder.account ==> (k in t'.messages <==> k in t.messages))
      && (forall k: MessageKey :: k.account != folder.account && k in t.messages ==> t'.messages[k] == t.messages[k])
  {
    hide ApplyBatch;
    BatchLeavesFolders(t, folder, b);
    forall k: MessageKey | k.account != folder.account
      ensures k in ApplyBatch(t, folder, b).messages <==> k in t.messages
      ensures k in t.messages ==> ApplyBatch(t, folder, b).messages[k] == t.messages[k]
    {
      KeysAfterBatch(t, folder, b, k);
      if k in t.messages {
        RowAfterBatch(t, folder, b, k);
      }
    }
  }

  lemma BatchLeavesFolders(t: Tables, folder: FolderKey, b: Batch)
    requires folder in t.folders
    ensures
      var t' := ApplyBatch(t, folder, b);
      && t'.folders == t.folders[folder := t.folders[folder].(state := b.state.GetOr(t.folders[folder].state))]
      && (forall m: Membership :: m.folder != folder ==> (m in t'.memberships <==> m in t.memberships))
  {
  }

  lemma HeldIsMembership(t: Tables, folder: FolderKey, i: string)
    requires Valid(t)
    ensures i in Held(t, folder) <==> Membership(folder, MessageKey(folder.account, i)) in t.memberships
    ensures i in Held(t, folder) ==> Held(t, folder)[i] == t.messages[MessageKey(folder.account, i)].flags
  {
    var m := Membership(folder, MessageKey(folder.account, i));
    assert m.message.identity == i;
    if i in Held(t, folder) {
      assert m in t.memberships;
    }
  }

  /** Each of them has the flags the batch says last, over those it had. */
  lemma FlagsAfterBatch(t: Tables, folder: FolderKey, b: Batch, i: string) returns (before: Flags)
    requires Valid(t) && folder in t.folders
    requires i in Held(ApplyBatch(t, folder, b), folder)
    ensures i in Held(t, folder) && i !in b.removed ==> before == Held(t, folder)[i]
    ensures Held(ApplyBatch(t, folder, b), folder)[i] == FlagsAfter(b, i, before)
  {
    var r, t' := Removals(t, folder, b.removed), ApplyBatch(t, folder, b);
    BatchKeepsValid(t, folder, b);
    RemovalsKeepValid(t, folder, b.removed);
    var k := MessageKey(folder.account, i);
    HeldIsMembership(t', folder, i);
    HeldIsMembership(t, folder, i);
    before := if k in r.messages then r.messages[k].flags else Flags(false, false);
    if i in Held(t, folder) && i !in b.removed {
      assert Membership(folder, k) in r.memberships;
    }
    var stated := WithFlagStates(r.messages, folder.account, b.flagStates);
    var kept := Lookup(stated, k);
    ArrivedRowFor(kept, b.arrived, i);
    ArrivedRowFlags(kept, b.arrived, i, LastFlags(b.flagStates, i, before));
    LastArrivedNamed(b.arrived, i, LastFlags(b.flagStates, i, before));
    var messages := WithArrived(stated, folder.account, b.arrived);
    assert k in messages;
    assert k in ArrivedKeys(folder.account, b.arrived) <==> exists m :: m in b.arrived && m.identity == i;
  }

  lemma LastArrivedNamed(arrived: seq<Message>, i: string, flags: Flags)
    ensures !(exists m :: m in arrived && m.identity == i) ==> LastArrivedFlags(arrived, i, flags) == flags
  {
  }

  /** The last entry, or record, about the message. */
  predicate NamesLast(entries: seq<(string, Flags)>, identity: string, j: int) {
    && 0 <= j < |entries| && entries[j].0 == identity
    && forall l :: j < l < |entries| ==> entries[l].0 != identity
  }

  predicate RecordedLast(arrived: seq<Message>, identity: string, j: int) {
    && 0 <= j < |arrived| && arrived[j].identity == identity
    && forall l :: j < l < |arrived| ==> arrived[l].identity != identity
  }

  lemma {:induction false} LastFlagsAt(entries: seq<(string, Flags)>, identity: string, flags: Flags)
    ensures identity !in Named(entries) ==> LastFlags(entries, identity, flags) == flags
    ensures identity in Named(entries) ==>
              exists j :: NamesLast(entries, identity, j) && entries[j].1 == LastFlags(entries, identity, flags)
  {
    if entries != [] {
      var n := |entries| - 1;
      LastFlagsAt(entries[..n], identity, flags);
      assert entries == entries[..n] + [entries[n]];
      if entries[n].0 == identity {
        assert NamesLast(entries, identity, n) && entries[n] in entries;
      } else if identity in Named(entries) {
        assert identity in Named(entries[..n]);
        var j :| NamesLast(entries[..n], identity, j) && entries[..n][j].1 == LastFlags(entries[..n], identity, flags);
        assert NamesLast(entries, identity, j);
      }
    }
  }

  lemma {:induction false} LastArrivedAt(arrived: seq<Message>, identity: string, flags: Flags)
    ensures identity !in Identities(arrived) ==> LastArrivedFlags(arrived, identity, flags) == flags && LastRecord(arrived, identity).None?
    ensures identity in Identities(arrived) ==>
              exists j :: RecordedLast(arrived, identity, j) && arrived[j].flags == LastArrivedFlags(arrived, identity, flags)
                          && LastRecord(arrived, identity) == Some(arrived[j])
  {
    if arrived != [] {
      var n := |arrived| - 1;
      LastArrivedAt(arrived[..n], identity, flags);
      assert arrived == arrived[..n] + [arrived[n]];
      if arrived[n].identity == identity {
        assert RecordedLast(arrived, identity, n) && arrived[n] in arrived;
      } else if identity in Identities(arrived) {
        assert identity in Identities(arrived[..n]);
        var j :| RecordedLast(arrived[..n], identity, j) && arrived[..n][j].flags == LastArrivedFlags(arrived[..n], identity, flags)
          && LastRecord(arrived[..n], identity) == Some(arrived[..n][j]);
        assert RecordedLast(arrived, identity, j);
      }
    }
  }

  /** Of a batch's parts the later one wins, and in each the last entry: the known
      arrivals over the records, those over the changed flags. */
  lemma LaterPartWins(b: Batch, identity: string, before: Flags)
    ensures
      var flags := FlagsAfter(b, identity, before);
      if identity in Named(b.knownArrived) then
        exists j :: NamesLast(b.knownArrived, identity, j) && flags == b.knownArrived[j].1
      else if identity in Identities(b.arrived) then
        exists j :: RecordedLast(b.arrived, identity, j) && flags == b.arrived[j].flags
      else if identity in Named(b.flagStates) then
        exists j :: NamesLast(b.flagStates, identity, j) && flags == b.flagStates[j].1
      else flags == before
  {
    var stated := LastFlags(b.flagStates, identity, before);
    LastFlagsAt(b.flagStates, identity, before);
    LastArrivedAt(b.arrived, identity, stated);
    LastFlagsAt(b.knownArrived, identity, LastArrivedFlags(b.arrived, identity, stated));
  }

  // ----- a batch stored twice

  /** What the records of a sequence do to a message's content, whatever it was. */
  datatype ContentEffect = Fixed(content: Content) | KeepsStored | KeepsStoredText

  function EffectOf(arrived: seq<Message>, identity: string): ContentEffect {
    if arrived == [] then KeepsStored
    else
      var earlier := EffectOf(arrived[..|arrived| - 1], identity);
      var last := arrived[|arrived| - 1];
      if last.identity != identity || last.content.NotDownloaded? then earlier
      else if !last.content.TextNotReturned? then Fixed(last.content)
      else if earlier.Fixed? then Fixed(MergedContent(earlier.content, last.content))
      else KeepsStoredText
  }

  function ContentAfter(effect: ContentEffect, kept: Option<Content>): Content {
    match effect
    case Fixed(content) => content
    case KeepsStored => kept.GetOr(NotDownloaded)
    case KeepsStoredText => MergedContent(kept.GetOr(NotDownloaded), TextNotReturned)
  }

  function LastRecord(arrived: seq<Message>, identity: string): Option<Message> {
    if arrived == [] then None
    else if arrived[|arrived| - 1].identity == identity then Some(arrived[|arrived| - 1])
    else LastRecord(arrived[..|arrived| - 1], identity)
  }

  /** The row after a batch's records: the last one's fields, flags and preview,
      the user's pending values as they were, and the content by its effect. */
  lemma {:induction false} ArrivedRowIs(kept: Option<MessageRow>, arrived: seq<Message>, identity: string)
    ensures ArrivedRow(kept, arrived, identity) ==
            match LastRecord(arrived, identity)
            case None => kept
            case Some(m) => Some(MessageRow(m.fields, m.received, m.flags,
              if kept.Some? then kept.value.pending else NO_PENDING,
              ContentAfter(EffectOf(arrived, identity), if kept.Some? then Some(kept.value.content) else None),
              m.preview))
    ensures LastRecord(arrived, identity).None? ==> EffectOf(arrived, identity).KeepsStored?
  {
    if arrived != [] {
      ArrivedRowIs(kept, arrived[..|arrived| - 1], identity);
    }
  }

  /** A batch's records met by the row they left, whatever its flags, leave it again. */
  lemma ArrivedRowReplays(kept: Option<MessageRow>, arrived: seq<Message>, identity: string, flags: Flags)
    requires LastRecord(arrived, identity).Some?
    ensures ArrivedRow(kept, arrived, identity).Some?
    ensures ArrivedRow(Some(ArrivedRow(kept, arrived, identity).value.(flags := flags)), arrived, identity)
            == ArrivedRow(kept, arrived, identity)
  {
    ArrivedRowIs(kept, arrived, identity);
    ArrivedRowIs(Some(ArrivedRow(kept, arrived, identity).value.(flags := flags)), arrived, identity);
  }

  lemma LastRecordNamed(arrived: seq<Message>, identity: string)
    ensures LastRecord(arrived, identity).Some? <==> identity in Identities(arrived)
  {
  }

  lemma LastFlagsReplays(entries: seq<(string, Flags)>, identity: string, a: Flags, b: Flags)
    ensures LastFlags(entries, identity, LastFlags(entries, identity, a)) == LastFlags(entries, identity, a)
    ensures LastFlags(entries, identity, a) == LastFlags(entries, identity, b)
            || (LastFlags(entries, identity, a) == a && LastFlags(entries, identity, b) == b)
  {
  }

  /** Whether the message `k` stays stored all through the batch: it is held by
      another folder, or this one does not lose it. */
  ghost predicate StaysThroughBatch(t: Tables, folder: FolderKey, b: Batch, k: MessageKey) {
    k in Removals(t, folder, b.removed).messages
  }

  lemma KeysAfterBatch(t: Tables, folder: FolderKey, b: Batch, k: MessageKey)
    requires folder in t.folders
    ensures k in ApplyBatch(t, folder, b).messages <==>
              StaysThroughBatch(t, folder, b, k) || (k.account == folder.account && k.identity in Identities(b.arrived))
  {
    assert k in ArrivedKeys(folder.account, b.arrived) <==>
      k.account == folder.account && k.identity in Identities(b.arrived);
  }

  /** The row of a message after a batch, in closed form. */
  lemma RowAfterBatch(t: Tables, folder: FolderKey, b: Batch, k: MessageKey)
    requires folder in t.folders && k in ApplyBatch(t, folder, b).messages
    ensures ApplyBatch(t, folder, b).messages[k] == RowAfter(Lookup(Removals(t, folder, b.removed).messages, k), folder.account, b, k)
  {
    var r := Removals(t, folder, b.removed).messages;
    LastRecordNamed(b.arrived, k.identity);
    assert k in ArrivedKeys(folder.account, b.arrived) <==>
      k.account == folder.account && k.identity in Identities(b.arrived);
    if k.account == folder.account && k in r {
      ArrivedRowFor(Some(r[k].(flags := LastFlags(b.flagStates, k.identity, r[k].flags))), b.arrived, k.identity);
    }
  }

  function RowAfter(kept: Option<MessageRow>, account: string, b: Batch, k: MessageKey): MessageRow {
    if k.account != account then kept.GetOr(EMPTY_ROW)
    else
      var stated := if kept.Some?
        then Some(kept.value.(flags := LastFlags(b.flagStates, k.identity, kept.value.flags))) else None;
      var row := ArrivedRow(stated, b.arrived, k.identity).GetOr(EMPTY_ROW);
      row.(flags := LastFlags(b.knownArrived, k.identity, row.flags))
  }

  lemma RowReplays(kept: Option<MessageRow>, account: string, b: Batch, k: MessageKey)
    requires kept.Some? || (k.account == account && k.identity in Identities(b.arrived))
    ensures RowAfter(Some(RowAfter(kept, account, b, k)), account, b, k) == RowAfter(kept, account, b, k)
  {
    var i := k.identity;
    if k.account == account {
      var stated := if kept.Some? then Some(kept.value.(flags := LastFlags(b.flagStates, i, kept.value.flags))) else None;
      var once := RowAfter(kept, account, b, k);
      LastRecordNamed(b.arrived, i);
      ArrivedRowIs(stated, b.arrived, i);
      ArrivedRowIs(Some(once.(flags := LastFlags(b.flagStates, i, once.flags))), b.arrived, i);
      if i in Identities(b.arrived) {
        ArrivedRowReplays(stated, b.arrived, i, LastFlags(b.flagStates, i, once.flags));
      } else {
        LastFlagsReplays(b.knownArrived, i, kept.value.flags, LastFlags(b.flagStates, i, kept.value.flags));
        LastFlagsReplays(b.knownArrived, i, once.flags, LastFlags(b.flagStates, i, kept.value.flags));
        LastFlagsReplays(b.flagStates, i, once.flags, kept.value.flags);
        LastFlagsReplays(b.knownArrived, i, LastFlags(b.flagStates, i, once.flags), LastFlags(b.flagStates, i, kept.value.flags));
      }
    }
  }

  /** A message left in place by a batch's removals is left in place again. */
  lemma StaysAgain(t: Tables, folder: FolderKey, b: Batch, k: MessageKey)
    requires Valid(t) && folder in t.folders
    requires StaysThroughBatch(t, folder, b, k)
    ensures StaysThroughBatch(ApplyBatch(t, folder, b), folder, b, k)
  {
    var r, t1 := Removals(t, folder, b.removed), ApplyBatch(t, folder, b);
    RemovalsKeepValid(t, folder, b.removed);
    var m :| m in r.memberships && m.message == k;
    assert m in t1.memberships && k in t1.messages;
    if b.removed != {} {
      assert m in WithoutMemberships(t1.memberships, folder, b.removed);
    }
  }

  lemma MembershipsReplay(t: Tables, folder: FolderKey, b: Batch)
    requires Valid(t) && folder in t.folders
    ensures ApplyBatch(ApplyBatch(t, folder, b), folder, b).messages.Keys == ApplyBatch(t, folder, b).messages.Keys
    ensures ApplyBatch(ApplyBatch(t, folder, b), folder, b).memberships == ApplyBatch(t, folder, b).memberships
  {
    var t1 := ApplyBatch(t, folder, b);
    var t2 := ApplyBatch(t1, folder, b);
    forall k
      ensures k in t2.messages <==> k in t1.messages
    {
      KeysAfterBatch(t, folder, b, k);
      KeysAfterBatch(t1, folder, b, k);
      if StaysThroughBatch(t, folder, b, k) {
        StaysAgain(t, folder, b, k);
      }
    }
    assert t2.messages.Keys == t1.messages.Keys;
    forall m | m in t1.memberships
      ensures m in t2.memberships
    {
      if m !in Removals(t1, folder, b.removed).memberships {
        assert m !in Removals(t, folder, b.removed).memberships;
      }
    }
  }

  lemma RowReplaysInTables(t: Tables, folder: FolderKey, b: Batch, k: MessageKey)
    requires Valid(t) && folder in t.folders
    requires k in ApplyBatch(t, folder, b).messages
    requires k in ApplyBatch(ApplyBatch(t, folder, b), folder, b).messages
    ensures ApplyBatch(ApplyBatch(t, folder, b), folder, b).messages[k] == ApplyBatch(t, folder, b).messages[k]
  {
    var t1 := ApplyBatch(t, folder, b);
    KeysAfterBatch(t, folder, b, k);
    RowAfterBatch(t, folder, b, k);
    RowAfterBatch(t1, folder, b, k);
    RowReplays(Lookup(Removals(t, folder, b.removed).messages, k), folder.account, b, k);
    if StaysThroughBatch(t, folder, b, k) {
      StaysAgain(t, folder, b, k);
    }
  }

  /** Storing a batch twice leaves what storing it once leaves. */
  lemma BatchReplays(t: Tables, folder: FolderKey, b: Batch)
    requires Valid(t) && folder in t.folders
    ensures ApplyBatch(ApplyBatch(t, folder, b), folder, b) == ApplyBatch(t, folder, b)
  {
    MembershipsReplay(t, folder, b);
    MessagesReplay(t, folder, b);
  }

  lemma MessagesReplay(t: Tables, folder: FolderKey, b: Batch)
    requires Valid(t) && folder in t.folders
    requires ApplyBatch(ApplyBatch(t, folder, b), folder, b).messages.Keys == ApplyBatch(t, folder, b).messages.Keys
    ensures ApplyBatch(ApplyBatch(t, folder, b), folder, b).messages == ApplyBatch(t, folder, b).messages
  {
    var once, twice := ApplyBatch(t, folder, b).messages, ApplyBatch(ApplyBatch(t, folder, b), folder, b).messages;
    forall k | k in once
      ensures twice[k] == once[k]
    {
      RowReplaysInTables(t, folder, b, k);
    }
    SameRows(once, twice);
  }

  lemma SameRows(a: map<MessageKey, MessageRow>, b: map<MessageKey, MessageRow>)
    requires a.Keys == b.Keys && forall k :: k in a ==> a[k] == b[k]
    ensures a == b
  {
  }

  /** What the only record of a message does to its content: one that says the text
      was not downloaded keeps what is stored, one that says it was not returned keeps
      a stored text, every other replaces it. */
  lemma OnlyRecordContent(kept: MessageRow, arrived: seq<Message>, j: nat)
    requires j < |arrived| && forall l :: 0 <= l < |arrived| && l != j ==> arrived[l].identity != arrived[j].identity
    ensures
      var row := ArrivedRow(Some(kept), arrived, arrived[j].identity);
      row.Some? && row.value.content ==
        if arrived[j].content.NotDownloaded? then kept.content
        else if arrived[j].content.TextNotReturned? && kept.content.Text? then kept.content
        else arrived[j].content
  {
    ArrivedRowIs(Some(kept), arrived, arrived[j].identity);
    OnlyRecordEffect(arrived, j);
    LastArrivedAt(arrived, arrived[j].identity, kept.flags);
    assert arrived[j] in arrived;
  }

  lemma {:induction false} OnlyRecordEffect(arrived: seq<Message>, j: nat)
    requires j < |arrived| && forall l :: 0 <= l < |arrived| && l != j ==> arrived[l].identity != arrived[j].identity
    ensures EffectOf(arrived, arrived[j].identity) ==
            match arrived[j].content
            case NotDownloaded => KeepsStored
            case TextNotReturned => KeepsStoredText
            case content => Fixed(content)
  {
    var n := |arrived| - 1;
    if j < n {
      OnlyRecordEffect(arrived[..n], j);
    } else {
      LastArrivedAt(arrived[..n], arrived[j].identity, Flags(false, false));
      assert arrived[j].identity !in Identities(arrived[..n]);
      ArrivedRowIs(None, arrived[..n], arrived[j].identity);
    }
  }

  // ----- a stored text stays

  /** Within one batch, a record without a text to show takes the place of the
      stored one before a record whose text was not returned. */
  predicate LosesText(arrived: seq<Message>, identity: string) {
    arrived != [] &&
    var last, earlier := arrived[|arrived| - 1], arrived[..|arrived| - 1];
    if last.identity != identity || last.content.NotDownloaded? then LosesText(earlier, identity)
    else last.content.TextNotReturned? && (LosesText(earlier, identity) || ReplacesText(earlier, identity))
  }

  /** The batch's last record with something to store holds neither a text nor
      the word that none was returned. */
  predicate ReplacesText(arrived: seq<Message>, identity: string) {
    arrived != [] &&
    var last, earlier := arrived[|arrived| - 1], arrived[..|arrived| - 1];
    if last.identity != identity || last.content.NotDownloaded? then ReplacesText(earlier, identity)
    else !last.content.TextNotReturned? && !last.content.Text?
  }

  lemma {:induction false} EffectOnText(arrived: seq<Message>, identity: string, text: string)
    ensures ContentAfter(EffectOf(arrived, identity), Some(Text(text))).TextNotReturned? <==> LosesText(arrived, identity)
    ensures !ContentAfter(EffectOf(arrived, identity), Some(Text(text))).NotDownloaded?
    ensures ReplacesText(arrived, identity) <==>
              (EffectOf(arrived, identity).Fixed? && !EffectOf(arrived, identity).content.Text?
               && !EffectOf(arrived, identity).content.TextNotReturned?)
    ensures EffectOf(arrived, identity).Fixed? ==> !EffectOf(arrived, identity).content.NotDownloaded?
  {
    if arrived != [] {
      EffectOnText(arrived[..|arrived| - 1], identity, text);
    }
  }

  /** While its message stays, a stored text never becomes "not downloaded", and
      it becomes "not returned" exactly by a batch that holds two records for
      the message in the order `LosesText` names. */
  lemma StoredTextAfterBatch(t: Tables, folder: FolderKey, b: Batch, k: MessageKey)
    requires folder in t.folders && StaysThroughBatch(t, folder, b, k)
    requires t.messages[k].content.Text?
    ensures k in ApplyBatch(t, folder, b).messages
    ensures !ApplyBatch(t, folder, b).messages[k].content.NotDownloaded?
    ensures ApplyBatch(t, folder, b).messages[k].content.TextNotReturned? <==>
              k.account == folder.account && LosesText(b.arrived, k.identity)
  {
    KeysAfterBatch(t, folder, b, k);
    RowAfterBatch(t, folder, b, k);
    var row := t.messages[k];
    assert Removals(t, folder, b.removed).messages[k] == row;
    ArrivedRowIs(Some(row.(flags := LastFlags(b.flagStates, k.identity, row.flags))), b.arrived, k.identity);
    EffectOnText(b.arrived, k.identity, row.content.text);
  }

  /** One record of each message loses no text. */
  lemma {:induction false} OneRecordKeepsText(arrived: seq<Message>, identity: string)
    requires forall i, j :: 0 <= i < j < |arrived| ==> arrived[i].identity != arrived[j].identity
    ensures !LosesText(arrived, identity)
    ensures identity !in Identities(arrived) ==> !ReplacesText(arrived, identity)
  {
    if arrived != [] {
      var earlier := arrived[..|arrived| - 1];
      OneRecordKeepsText(earlier, identity);
      if arrived[|arrived| - 1].identity == identity {
        assert identity !in Identities(earlier);
      } else {
        assert identity in Identities(earlier) ==> identity in Identities(arrived);
      }
    }
  }

  /** A message without a record in the batch keeps its content. */
  lemma NoRecordKeepsContent(t: Tables, folder: FolderKey, b: Batch, k: MessageKey)
    requires folder in t.folders && StaysThroughBatch(t, folder, b, k)
    requires k.account == folder.account ==> k.identity !in Identities(b.arrived)
    ensures k in ApplyBatch(t, folder, b).messages
    ensures ApplyBatch(t, folder, b).messages[k].content == t.messages[k].content
  {
    KeysAfterBatch(t, folder, b, k);
    assert k !in ArrivedKeys(folder.account, b.arrived);
  }

  // ----- the batch that loses a stored text

  const WORK := FolderKey("work", "Inbox")

  const LETTER := MessageKey("work", "letter")

  const NO_FIELDS := Fields(None, None, None)

  /** A folder that holds one message with its text. */
  function OneText(text: string): Tables {
    Tables(map[WORK := FolderRow("Inbox", true, DEFAULT_STATE)],
           map[LETTER := EMPTY_ROW.(content := Text(text))],
           {Membership(WORK, LETTER)})
  }

  /** Two records of the message: one without a text to show, then one whose text was not returned. */
  const TWO_RECORDS := [
    Message("letter", NO_FIELDS, None, Flags(false, false), Explained("Encrypted"), ""),
    Message("letter", NO_FIELDS, None, Flags(false, false), TextNotReturned, "")]

  /** The batch with both leaves "not returned" in place of the stored text. */
  lemma TwoRecordsLoseText(text: string)
    ensures
      var t := OneText(text);
      var b := Batch({}, [], [], TWO_RECORDS, None);
      && Valid(t) && t.messages[LETTER].content == Text(text)
      && LETTER in ApplyBatch(t, WORK, b).messages
      && ApplyBatch(t, WORK, b).messages[LETTER].content == TextNotReturned
  {
    var t := OneText(text);
    assert Membership(WORK, LETTER) in t.memberships;
    assert TWO_RECORDS[..1] == [TWO_RECORDS[0]];
    assert LosesText(TWO_RECORDS, "letter");
    StoredTextAfterBatch(t, WORK, Batch({}, [], [], TWO_RECORDS, None), LETTER);
  }
}
