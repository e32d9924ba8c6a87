/** The mail store: folder, message and membership tables changed in place, each
    operation one step behind the store's lock. */
module StoreClass {
  import opened Domain
  import opened StoreTables
  import opened StoreLaws

  /** How a write of a load's result ended; `Failed` when the store does not
      hold the folder, whose transaction is then rolled back. */
  datatype StoreWrite = Stored | LoadCancelled | Failed

  class Store {
    var folders: map<FolderKey, FolderRow>
    var messages: map<MessageKey, MessageRow>
    var memberships: set<Membership>

    ghost function Contents(): Tables
      reads this
    {
      Tables(folders, messages, memberships)
    }

    ghost predicate Sound()
      reads this
    {
      Valid(Contents())
    }

    constructor ()
      ensures Contents() == EMPTY_TABLES
      ensures Sound()
    {
      folders, messages, memberships := map[], map[], {};
    }

    /** Stores one batch of a cycle, whole or not at all. */
    method StoreBatch(folder: FolderKey, batch: Batch, loadCancelled: bool) returns (written: StoreWrite)
      requires Sound()
      modifies this
      ensures Sound()
      ensures written == if loadCancelled then LoadCancelled else if folder in old(folders) then Stored else Failed
      ensures Contents() == if written.Stored? then ApplyBatch(old(Contents()), folder, batch) else old(Contents())
    {
      if loadCancelled {
        return LoadCancelled;
      }
      if folder !in folders {
        return Failed;
      }
      var account := folder.account;
      ghost var before := Contents();
      ghost var r := Removals(before, folder, batch.removed);
      // Only a removal can leave a message in no folder.
      if batch.removed != {} {
        DeleteMemberships(folder, batch.removed);
        DeleteMessagesWithoutFolder(account);
      }
      assert messages == r.messages && memberships == r.memberships;
      SetFlagStates(account, batch.flagStates);
      StoreArrived(folder, batch.arrived);
      RelateKnown(folder, batch.knownArrived);
      if batch.state.Some? {
        folders := folders[folder := folders[folder].(state := batch.state.value)];
      }
      BatchIsItsParts(before, folder, batch, Contents());
      return Stored;
    }

    method DeleteMemberships(folder: FolderKey, removed: set<string>)
      modifies this`memberships
      ensures memberships == WithoutMemberships(old(memberships), folder, removed)
    {
      var left := removed;
      while left != {}
        invariant left <= removed
        invariant memberships == WithoutMemberships(old(memberships), folder, removed - left)
      {
        var identity :| identity in left;
        memberships := memberships - {Membership(folder, MessageKey(folder.account, identity))};
        left := left - {identity};
      }
      assert removed - left == removed;
    }

    method DeleteMessagesWithoutFolder(account: string)
      modifies this`messages
      ensures messages == WithoutFolderless(old(messages), account, memberships)
    {
      messages := map k | k in messages && (k.account == account ==> exists m :: m in memberships && m.message == k)
        :: messages[k];
    }

    method SetFlagStates(account: string, entries: seq<(string, Flags)>)
      modifies this`messages
      ensures messages == WithFlagStates(old(messages), account, entries)
    {
      for i := 0 to |entries|
        invariant messages == WithFlagStates(old(messages), account, entries[..i])
      {
        var k := MessageKey(account, entries[i].0);
        assert entries[..i + 1][..i] == entries[..i];
        if k in messages {
          messages := messages[k := messages[k].(flags := entries[i].1)];
        }
      }
      assert entries[..|entries|] == entries;
    }

    method StoreArrived(folder: FolderKey, arrived: seq<Message>)
      modifies this`messages, this`memberships
      ensures messages == WithArrived(old(messages), folder.account, arrived)
      ensures memberships == old(memberships) + Related(folder, ArrivedKeys(folder.account, arrived))
    {
      for i := 0 to |arrived|
        invariant messages == WithArrived(old(messages), folder.account, arrived[..i])
        invariant memberships == old(memberships) + Related(folder, ArrivedKeys(folder.account, arrived[..i]))
      {
        var k := MessageKey(folder.account, arrived[i].identity);
        var kept := if k in messages then Some(messages[k]) else None;
        StoreOneMore(old(messages), folder.account, arrived, i);
        messages := messages[k := MergedRow(kept, arrived[i])];
        memberships := memberships + {Membership(folder, k)};
        RelateOneMore(folder, arrived, i);
      }
      assert arrived[..|arrived|] == arrived;
    }

    method RelateKnown(folder: FolderKey, known: seq<(string, Flags)>)
      modifies this`messages, this`memberships
      ensures messages == WithFlagStates(old(messages), folder.account, known)
      ensures memberships ==
              old(memberships) + Related(folder, KnownKeys(folder.account, known) * old(messages).Keys)
    {
      for i := 0 to |known|
        invariant messages == old(messages)
        invariant memberships ==
                  old(memberships) + Related(folder, KnownKeys(folder.account, known[..i]) * old(messages).Keys)
      {
        var k := MessageKey(folder.account, known[i].0);
        assert KnownKeys(folder.account, known[..i + 1]) == KnownKeys(folder.account, known[..i]) + {k} by {
          assert known[..i + 1] == known[..i] + [known[i]];
        }
        if k in messages {
          memberships := memberships + {Membership(folder, k)};
        }
      }
      assert known[..|known|] == known;
      SetFlagStates(folder.account, known);
    }

    /** Replaces the account's folder list with a completed one. */
    method ReplaceFolderList(account: string, listed: seq<ListedFolder>, loadCancelled: bool) returns (written: StoreWrite)
      requires Sound()
      modifies this
      ensures Sound()
      ensures written == if loadCancelled then LoadCancelled else Stored
      ensures Contents() == if loadCancelled then old(Contents()) else ReplaceFolders(old(Contents()), account, listed)
    {
      if loadCancelled {
        return LoadCancelled;
      }
      ghost var before := Contents();
      DeleteUnlistedFolders(account, listed);
      DeleteMessagesWithoutFolder(account);
      UpsertFolders(account, listed);
      assert Contents() == ReplaceFolders(before, account, listed);
      ReplaceFoldersKeepsValid(before, account, listed);
      return Stored;
    }

    /** Deletes the account's folders that are not listed, with their memberships. */
    method DeleteUnlistedFolders(account: string, listed: seq<ListedFolder>)
      modifies this`folders, this`memberships
      ensures folders == map k | k in old(folders) && (k.account == account ==> k in ListedKeys(account, listed))
                           :: old(folders)[k]
      ensures memberships == set m | m in old(memberships) && m.folder in folders
    {
      var kept := set f | f in listed :: FolderKey(account, f.identity);
      folders := map k | k in folders && (k.account == account ==> k in kept) :: folders[k];
      memberships := set m | m in memberships && m.folder in folders;
    }

    /** Updates the listed folders the store holds, keeping their state, and
        inserts the others as never synchronized. */
    method UpsertFolders(account: string, listed: seq<ListedFolder>)
      modifies this`folders
      ensures folders == WithListed(old(folders), account, listed)
    {
      for i := 0 to |listed|
        invariant folders == WithListed(old(folders), account, listed[..i])
      {
        var f := listed[i];
        var k := FolderKey(account, f.identity);
        UpsertOneMore(old(folders), account, listed, i);
        folders := folders[k := UpsertedRow(if k in folders then Some(folders[k]) else None, f)];
      }
      assert listed[..|listed|] == listed;
    }

    /** Stores the value of `flag` the user wants, whatever the server's value is. */
    method WritePendingFlag(k: MessageKey, flag: Flag, wanted: bool)
      requires Sound()
      modifies this`messages
      ensures Sound()
      ensures Contents() == WriteWish(old(Contents()), k, flag, wanted)
    {
      FlagWritesKeepValid(Contents(), k, k.account, [], flag, wanted);
      if k in messages {
        messages := messages[k := messages[k].(pending := messages[k].pending.With(flag, Some(wanted)))];
      }
    }

    /** The cycle saw the server hold `value`: it becomes the server value and
        ends a pending value equal to it. */
    method SettleFlags(account: string, identities: seq<string>, flag: Flag, value: bool)
      requires Sound()
      modifies this`messages
      ensures Sound()
      ensures Contents() == Settle(old(Contents()), account, identities, flag, value)
    {
      ghost var before := Contents();
      for i := 0 to |identities|
        invariant messages == Settle(before, account, identities[..i], flag, value).messages
      {
        var k := MessageKey(account, identities[i]);
        SettleOneMore(before, account, identities, i, flag, value);
        if k in messages {
          var row := messages[k];
          messages := messages[k := row.(
            flags := row.flags.With(flag, value),
            pending := if row.pending.Of(flag) == Some(value) then row.pending.With(flag, None) else row.pending)];
        }
      }
      assert identities[..|identities|] == identities;
      FlagWritesKeepValid(before, MessageKey(account, ""), account, identities, flag, value);
    }

    /** The server refused `refused`: a pending value equal to it ends. */
    method DropPendingFlags(account: string, identities: seq<string>, flag: Flag, refused: bool)
      requires Sound()
      modifies this`messages
      ensures Sound()
      ensures Contents() == DropRefused(old(Contents()), account, identities, flag, refused)
    {
      ghost var before := Contents();
      for i := 0 to |identities|
        invariant messages == DropRefused(before, account, identities[..i], flag, refused).messages
      {
        var k := MessageKey(account, identities[i]);
        DropOneMore(before, account, identities, i, flag, refused);
        if k in messages {
          var row := messages[k];
          messages := messages[k := row.(
            pending := if row.pending.Of(flag) == Some(refused) then row.pending.With(flag, None) else row.pending)];
        }
      }
      assert identities[..|identities|] == identities;
      FlagWritesKeepValid(before, MessageKey(account, ""), account, identities, flag, refused);
    }

    /** Deletes the stored mail of every account that is not current. */
    method DeleteAccountsExcept(current: set<string>) returns (removed: set<string>)
      requires Sound()
      modifies this
      ensures Sound()
      ensures removed == OtherAccounts(old(Contents()), current)
      ensures Contents() == DeleteOtherAccounts(old(Contents()), current)
    {
      DeleteOtherAccountsKeepsValid(Contents(), current);
      removed := set k | k in folders && k.account !in current :: k.account;
      folders := map k | k in folders && k.account !in removed :: folders[k];
      messages := map k | k in messages && k.account !in removed :: messages[k];
      memberships := set m | m in memberships && m.folder.account !in removed && m.message.account !in removed;
    }
  }

  lemma StoreOneMore(messages: map<MessageKey, MessageRow>, account: string, arrived: seq<Message>, i: nat)
    requires i < |arrived|
    ensures
      var k := MessageKey(account, arrived[i].identity);
      var before := WithArrived(messages, account, arrived[..i]);
      WithArrived(messages, account, arrived[..i + 1]) == before[k := MergedRow(Lookup(before, k), arrived[i])]
  {
    var prefix, longer := arrived[..i], arrived[..i + 1];
    assert longer[..i] == prefix && longer == prefix + [arrived[i]];
    var k := MessageKey(account, arrived[i].identity);
    assert ArrivedKeys(account, longer) == ArrivedKeys(account, prefix) + {k};
    var before := WithArrived(messages, account, prefix);
    forall j | j in messages.Keys + ArrivedKeys(account, longer)
      ensures WithArrived(messages, account, longer)[j] == before[k := MergedRow(Lookup(before, k), arrived[i])][j]
    {
      RowOneMore(messages, account, prefix, arrived[i], j);
    }
  }

  lemma RowOneMore(messages: map<MessageKey, MessageRow>, account: string, prefix: seq<Message>, m: Message, j: MessageKey)
    requires j in messages.Keys + ArrivedKeys(account, prefix + [m])
    ensures
      var k := MessageKey(account, m.identity);
      var before := WithArrived(messages, account, prefix);
      WithArrived(messages, account, prefix + [m])[j] == before[k := MergedRow(Lookup(before, k), m)][j]
  {
    assert (prefix + [m])[..|prefix|] == prefix;
    assert j in ArrivedKeys(account, prefix) <==>
      j.account == account && exists m :: m in prefix && m.identity == j.identity;
    ArrivedRowFor(Lookup(messages, j), prefix, j.identity);
    ArrivedRowFor(Lookup(messages, j), prefix + [m], j.identity);
  }

  lemma RelateOneMore(folder: FolderKey, arrived: seq<Message>, i: nat)
    requires i < |arrived|
    ensures Related(folder, ArrivedKeys(folder.account, arrived[..i + 1]))
         == Related(folder, ArrivedKeys(folder.account, arrived[..i])) + {Membership(folder, MessageKey(folder.account, arrived[i].identity))}
  {
    assert arrived[..i + 1] == arrived[..i] + [arrived[i]];
    assert ArrivedKeys(folder.account, arrived[..i + 1])
        == ArrivedKeys(folder.account, arrived[..i]) + {MessageKey(folder.account, arrived[i].identity)};
  }

  lemma BatchIsItsParts(t: Tables, folder: FolderKey, b: Batch, t': Tables)
    requires Valid(t) && folder in t.folders
    requires
      var r := Removals(t, folder, b.removed);
      var messages := WithArrived(WithFlagStates(r.messages, folder.account, b.flagStates), folder.account, b.arrived);
      && t'.messages == WithFlagStates(messages, folder.account, b.knownArrived)
      && t'.memberships == r.memberships + Related(folder, ArrivedKeys(folder.account, b.arrived))
                           + Related(folder, KnownKeys(folder.account, b.knownArrived) * messages.Keys)
      && t'.folders == if b.state.Some? then t.folders[folder := t.folders[folder].(state := b.state.value)] else t.folders
    ensures t' == ApplyBatch(t, folder, b)
    ensures Valid(t')
  {
    var r := Removals(t, folder, b.removed);
    var messages := WithArrived(WithFlagStates(r.messages, folder.account, b.flagStates), folder.account, b.arrived);
    UnionsJoin(r.memberships, folder, ArrivedKeys(folder.account, b.arrived),
               KnownKeys(folder.account, b.knownArrived) * messages.Keys);
    BatchKeepsValid(t, folder, b);
  }

  lemma UnionsJoin(memberships: set<Membership>, folder: FolderKey, a: set<MessageKey>, b: set<MessageKey>)
    ensures memberships + Related(folder, a) + Related(folder, b) == memberships + Related(folder, a + b)
  {
  }

  lemma SettleOneMore(t: Tables, account: string, identities: seq<string>, i: nat, flag: Flag, value: bool)
    requires i < |identities|
    ensures
      var k := MessageKey(account, identities[i]);
      var before := Settle(t, account, identities[..i], flag, value).messages;
      Settle(t, account, identities[..i + 1], flag, value).messages ==
      if k in before
      then before[k := before[k].(flags := before[k].flags.With(flag, value),
                                  pending := WithoutEnded(before[k].pending, flag, value))]
      else before
  {
    assert identities[..i + 1] == identities[..i] + [identities[i]];
  }

  lemma DropOneMore(t: Tables, account: string, identities: seq<string>, i: nat, flag: Flag, refused: bool)
    requires i < |identities|
    ensures
      var k := MessageKey(account, identities[i]);
      var before := DropRefused(t, account, identities[..i], flag, refused).messages;
      DropRefused(t, account, identities[..i + 1], flag, refused).messages ==
      if k in before then before[k := before[k].(pending := WithoutEnded(before[k].pending, flag, refused))] else before
  {
    assert identities[..i + 1] == identities[..i] + [identities[i]];
  }

  /** Folder `j` after one more listed entry. */
  ghost predicate UpsertedRight(before: map<FolderKey, FolderRow>, after: map<FolderKey, FolderRow>,
                                k: FolderKey, f: ListedFolder, j: FolderKey)
  {
    && (j in after <==> j in before || j == k)
    && (j in after ==>
          after[j] == if j == k then UpsertedRow(if j in before then Some(before[j]) else None, f) else before[j])
  }

  lemma UpsertedAt(folders: map<FolderKey, FolderRow>, account: string, prefix: seq<ListedFolder>, f: ListedFolder, j: FolderKey)
    ensures UpsertedRight(WithListed(folders, account, prefix), WithListed(folders, account, prefix + [f]),
                          FolderKey(account, f.identity), f, j)
  {
    var longer := prefix + [f];
    assert longer[..|prefix|] == prefix;
    assert ListedKeys(account, longer) == ListedKeys(account, prefix) + {FolderKey(account, f.identity)};
    LastListedNamed(prefix, account);
    assert j == FolderKey(j.account, j.identity);
  }

  lemma UpsertedMap(before: map<FolderKey, FolderRow>, after: map<FolderKey, FolderRow>, k: FolderKey, f: ListedFolder)
    requires forall j :: UpsertedRight(before, after, k, f, j)
    ensures after == before[k := UpsertedRow(if k in before then Some(before[k]) else None, f)]
  {
    var updated := before[k := UpsertedRow(if k in before then Some(before[k]) else None, f)];
    forall j
      ensures j in after <==> j in updated
      ensures j in after ==> after[j] == updated[j]
    {
      assert UpsertedRight(before, after, k, f, j);
    }
  }

  lemma UpsertOneMore(folders: map<FolderKey, FolderRow>, account: string, listed: seq<ListedFolder>, i: nat)
    requires i < |listed|
    ensures
      var k := FolderKey(account, listed[i].identity);
      var before := WithListed(folders, account, listed[..i]);
      WithListed(folders, account, listed[..i + 1]) ==
      before[k := UpsertedRow(if k in before then Some(before[k]) else None, listed[i])]
  {
    var k, f := FolderKey(account, listed[i].identity), listed[i];
    var before, after := WithListed(folders, account, listed[..i]), WithListed(folders, account, listed[..i + 1]);
    assert listed[..i + 1] == listed[..i] + [f];
    forall j
      ensures UpsertedRight(before, after, k, f, j)
    {
      UpsertedAt(folders, account, listed[..i], f, j);
    }
    UpsertedMap(before, after, k, f);
  }

  lemma LastListedNamed(listed: seq<ListedFolder>, account: string)
    ensures forall i :: FolderKey(account, i) in ListedKeys(account, listed) <==> LastListed(listed, i).Some?
  {
    if listed != [] {
      LastListedNamed(listed[..|listed| - 1], account);
      assert listed == listed[..|listed| - 1] + [listed[|listed| - 1]];
    }
  }
}
