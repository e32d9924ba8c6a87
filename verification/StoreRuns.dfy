/** Whole runs of the store: any sequence of its operations by the cycles, the
    folder list, the accounts and the user, in any interleaving. */
module StoreRuns {
  import opened Domain
  import opened StoreTables
  import opened StoreLaws

  datatype Event =
    | StoreBatch(folder: FolderKey, batch: Batch)
    | Wish(message: MessageKey, flag: Flag, wanted: bool)
    | SeenHeld(account: string, identities: seq<string>, flag: Flag, value: bool)
    | Refused(account: string, identities: seq<string>, flag: Flag, value: bool)
    | FolderList(account: string, listed: seq<ListedFolder>)
    | Accounts(current: set<string>)

  function Apply(t: Tables, e: Event): Tables {
    match e
    case StoreBatch(folder, batch) => if folder in t.folders then ApplyBatch(t, folder, batch) else t
    case Wish(k, flag, wanted) => WriteWish(t, k, flag, wanted)
    case SeenHeld(account, identities, flag, value) => Settle(t, account, identities, flag, value)
    case Refused(account, identities, flag, value) => DropRefused(t, account, identities, flag, value)
    case FolderList(account, listed) => ReplaceFolders(t, account, listed)
    case Accounts(current) => DeleteOtherAccounts(t, current)
  }

  /** The tables after the events, in their order. */
  function Run(t: Tables, es: seq<Event>): Tables {
    if es == [] then t else Apply(Run(t, es[..|es| - 1]), es[|es| - 1])
  }

  /** Every reachable state is sound: no dangling membership, no message without
      a folder of its own account. */
  lemma {:induction false} EveryRunIsSound(es: seq<Event>)
    ensures Valid(Run(EMPTY_TABLES, es))
  {
    if es != [] {
      var t, e := Run(EMPTY_TABLES, es[..|es| - 1]), es[|es| - 1];
      EveryRunIsSound(es[..|es| - 1]);
      match e
      case StoreBatch(folder, batch) =>
        if folder in t.folders {
          BatchKeepsValid(t, folder, batch);
        }
      case Wish(k, flag, wanted) => FlagWritesKeepValid(t, k, k.account, [], flag, wanted);
      case SeenHeld(account, identities, flag, value) =>
        FlagWritesKeepValid(t, MessageKey(account, ""), account, identities, flag, value);
      case Refused(account, identities, flag, value) =>
        FlagWritesKeepValid(t, MessageKey(account, ""), account, identities, flag, value);
      case FolderList(account, listed) => ReplaceFoldersKeepsValid(t, account, listed);
      case Accounts(current) => DeleteOtherAccountsKeepsValid(t, current);
    }
  }

  /** The user's pending value of a message's flag, if there is one. */
  function PendingOf(t: Tables, k: MessageKey, flag: Flag): Option<bool> {
    if k in t.messages then t.messages[k].pending.Of(flag) else None
  }

  /** The value the window shows: the wish where there is one, else the server's. */
  function Shown(t: Tables, k: MessageKey, flag: Flag): bool
    requires k in t.messages
  {
    PendingOf(t, k, flag).GetOr(t.messages[k].flags.Of(flag))
  }

  /** Whether the event takes the message from its last folder. */
  ghost predicate LosesMessage(t: Tables, e: Event, k: MessageKey) {
    match e
    case StoreBatch(folder, batch) => folder in t.folders && !StaysThroughBatch(t, folder, batch, k)
    case Wish(_, _, _) => false
    case SeenHeld(_, _, _, _) => false
    case Refused(_, _, _, _) => false
    case FolderList(_, _) => k !in Apply(t, e).messages
    case Accounts(_) => k !in Apply(t, e).messages
  }

  /** A message leaves with a batch exactly when the batch removes it from its
      folder and no other folder holds it. */
  lemma BatchLosesLastFolder(t: Tables, folder: FolderKey, b: Batch, k: MessageKey)
    requires Valid(t) && folder in t.folders && k in t.messages
    ensures LosesMessage(t, StoreBatch(folder, b), k) <==>
              k.account == folder.account && k.identity in b.removed
              && forall m :: m in t.memberships && m.message == k ==> m.folder == folder
  {
    if b.removed != {} && k.account == folder.account {
      var kept := WithoutMemberships(t.memberships, folder, b.removed);
      if LosesMessage(t, StoreBatch(folder, b), k) {
        var m :| m in t.memberships && m.message == k;
        assert m !in kept;
        forall m | m in t.memberships && m.message == k
          ensures m.folder == folder
        {
          assert m !in kept;
        }
      }
    }
  }

  /** Whether the event ends a wish `wanted`: the server was seen to hold that
      very value, or refused it, or the message left its last folder. */
  ghost predicate EndsWish(t: Tables, e: Event, k: MessageKey, flag: Flag, wanted: bool) {
    || LosesMessage(t, e, k)
    || (e.SeenHeld? && e.account == k.account && k.identity in e.identities && e.flag == flag && e.value == wanted)
    || (e.Refused? && e.account == k.account && k.identity in e.identities && e.flag == flag && e.value == wanted)
  }

  /** What any one event does to a message's pending value. */
  lemma PendingAfter(t: Tables, e: Event, k: MessageKey, flag: Flag)
    ensures PendingOf(Apply(t, e), k, flag) ==
            if e.Wish? && e.message == k && e.flag == flag && k in t.messages then Some(e.wanted)
            else if PendingOf(t, k, flag).Some? && !EndsWish(t, e, k, flag, PendingOf(t, k, flag).value)
            then PendingOf(t, k, flag)
            else None
  {
    match e
    case StoreBatch(folder, batch) =>
      if folder in t.folders {
        PendingAfterBatch(t, folder, batch, k, flag);
      }
    case Wish(_, _, _) =>
    case SeenHeld(_, _, _, _) =>
    case Refused(_, _, _, _) =>
    case FolderList(_, _) =>
    case Accounts(_) =>
  }

  /** What an event other than a batch does to the rest of a row: the server's value of
      a settled flag becomes the value seen, and nothing else changes. */
  lemma RowAfterEvent(t: Tables, e: Event, k: MessageKey)
    requires !e.StoreBatch? && k in Apply(t, e).messages
    ensures k in t.messages
    ensures Apply(t, e).messages[k] == t.messages[k].(
              pending := Apply(t, e).messages[k].pending,
              flags := if e.SeenHeld? && e.account == k.account && k.identity in e.identities
                       then Flags(if e.flag.Seen? then e.value else t.messages[k].flags.seen,
                                  if e.flag.Flagged? then e.value else t.messages[k].flags.flagged)
                       else t.messages[k].flags)
  {
  }

  /** A batch never touches the pending value of a message that stays. */
  lemma PendingAfterBatch(t: Tables, folder: FolderKey, b: Batch, k: MessageKey, flag: Flag)
    requires folder in t.folders
    ensures PendingOf(ApplyBatch(t, folder, b), k, flag) ==
            if StaysThroughBatch(t, folder, b, k) then PendingOf(t, k, flag) else None
  {
    var r := Removals(t, folder, b.removed).messages;
    KeysAfterBatch(t, folder, b, k);
    if k in ApplyBatch(t, folder, b).messages {
      RowAfterBatch(t, folder, b, k);
      var kept := Lookup(r, k);
      var stated := if kept.Some?
        then Some(kept.value.(flags := LastFlags(b.flagStates, k.identity, kept.value.flags))) else None;
      ArrivedRowIs(stated, b.arrived, k.identity);
      LastRecordNamed(b.arrived, k.identity);
    }
  }

  /** Event `e` at state `t` leaves a wish `wanted` the latest and unended. */
  ghost predicate LeavesWish(t: Tables, e: Event, k: MessageKey, flag: Flag, wanted: bool) {
    !(e.Wish? && e.message == k && e.flag == flag) && !EndsWish(t, e, k, flag, wanted)
  }

  /** Event `i` wishes `wanted` for a stored message, and every later event leaves
      that wish the latest and unended. */
  ghost predicate Unended(t: Tables, es: seq<Event>, i: nat, k: MessageKey, flag: Flag, wanted: bool)
    requires i < |es|
  {
    var n := |es| - 1;
    if i == n
    then es[n] == Wish(k, flag, wanted) && k in Run(t, es[..n]).messages
    else Unended(t, es[..n], i, k, flag, wanted) && LeavesWish(Run(t, es[..n]), es[n], k, flag, wanted)
  }

  ghost predicate Stands(t: Tables, es: seq<Event>, i: nat, k: MessageKey, flag: Flag, wanted: bool) {
    i < |es| && Unended(t, es, i, k, flag, wanted)
  }

  /** Over every run, a message's pending value is the user's latest wish, as
      long as nothing ended it, and nothing else. */
  lemma {:induction false} PendingIsTheLatestWish(t: Tables, es: seq<Event>, k: MessageKey, flag: Flag, wanted: bool)
    requires PendingOf(t, k, flag).None?
    ensures PendingOf(Run(t, es), k, flag) == Some(wanted) <==> exists i :: Stands(t, es, i, k, flag, wanted)
  {
    if es != [] {
      var n := |es| - 1;
      var prefix, e := es[..n], es[n];
      PendingIsTheLatestWish(t, prefix, k, flag, wanted);
      PendingAfter(Run(t, prefix), e, k, flag);
      forall i: nat
        ensures Stands(t, es, i, k, flag, wanted) <==>
                if i == n then e == Wish(k, flag, wanted) && k in Run(t, prefix).messages
                else Stands(t, prefix, i, k, flag, wanted) && LeavesWish(Run(t, prefix), e, k, flag, wanted)
      {
      }
      if PendingOf(Run(t, es), k, flag) == Some(wanted) {
        if e == Wish(k, flag, wanted) && k in Run(t, prefix).messages {
          assert Stands(t, es, n, k, flag, wanted);
        } else {
          var i :| Stands(t, prefix, i, k, flag, wanted);
          assert Stands(t, es, i, k, flag, wanted);
        }
      }
    }
  }

  /** Without a wish the row shows what the server reported last. */
  lemma RowShowsTheServer(t: Tables, k: MessageKey, flag: Flag)
    requires k in t.messages && (if flag.Seen? then t.messages[k].pending.seen.None? else t.messages[k].pending.flagged.None?)
    ensures Shown(t, k, flag) == if flag.Seen? then t.messages[k].flags.seen else t.messages[k].flags.flagged
  {
  }

  /** While a wish is pending, the row shows it, whatever the server reports. */
  lemma RowShowsTheWish(t: Tables, es: seq<Event>, i: nat, k: MessageKey, flag: Flag, wanted: bool)
    requires PendingOf(t, k, flag).None?
    requires Stands(t, es, i, k, flag, wanted)
    ensures k in Run(t, es).messages && Shown(Run(t, es), k, flag) == wanted
  {
    PendingIsTheLatestWish(t, es, k, flag, wanted);
  }
}
