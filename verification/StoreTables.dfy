/** The store's tables as values, and what each operation does to them. A table
    is a map by its unique key, so that "once per account" is built in; the row
    numbers, which only order the list, are left out. */
module StoreTables {
  import opened Domain

  datatype FolderKey = FolderKey(account: string, identity: string)

  datatype MessageKey = MessageKey(account: string, identity: string)

  datatype Membership = Membership(folder: FolderKey, message: MessageKey)

  /** What a folder list says of a folder. */
  datatype ListedFolder = ListedFolder(identity: string, name: string, selectable: bool)

  datatype FolderRow = FolderRow(name: string, selectable: bool, state: FolderState)

  datatype MessageRow = MessageRow(
    fields: Fields,
    received: Option<int>,
    flags: Flags,
    pending: Pending,
    content: Content,
    preview: string)

  datatype Tables = Tables(
    folders: map<FolderKey, FolderRow>,
    messages: map<MessageKey, MessageRow>,
    memberships: set<Membership>)

  const EMPTY_TABLES := Tables(map[], map[], {})

  // ----- integrity

  ghost predicate InSomeFolder(t: Tables, k: MessageKey) {
    exists m :: m in t.memberships && m.message == k
  }

  /** No membership has a dangling end or joins two accounts, and every message
      belongs to a folder. */
  ghost predicate Valid(t: Tables) {
    && (forall m :: m in t.memberships ==>
          m.folder in t.folders && m.message in t.messages && m.folder.account == m.message.account)
    && (forall k :: k in t.messages ==> InSomeFolder(t, k))
  }

  // ----- the parts of a batch, each in closed form

  /** The flags the last entry for `identity` gives, `flags` when none does. */
  function LastFlags(entries: seq<(string, Flags)>, identity: string, flags: Flags): Flags {
    if entries == [] then flags
    else if entries[|entries| - 1].0 == identity then entries[|entries| - 1].1
    else LastFlags(entries[..|entries| - 1], identity, flags)
  }

  function WithFlagStates(
    messages: map<MessageKey, MessageRow>, account: string, entries: seq<(string, Flags)>
  ): map<MessageKey, MessageRow> {
    map k | k in messages ::
      if k.account == account
      then messages[k].(flags := LastFlags(entries, k.identity, messages[k].flags))
      else messages[k]
  }

  /** The content kept when a record with `received` meets a stored `kept`: a
      text not downloaded replaces nothing, a text not returned no text. */
  function MergedContent(kept: Content, received: Content): Content {
    if received.NotDownloaded? || (received.TextNotReturned? && kept.Text?) then kept else received
  }

  /** The row after one full record: everything replaced but the content by the
      rule above and the user's pending values. */
  function MergedRow(kept: Option<MessageRow>, m: Message): MessageRow {
    match kept
    case None => MessageRow(m.fields, m.received, m.flags, NO_PENDING, m.content, m.preview)
    case Some(row) =>
      MessageRow(m.fields, m.received, m.flags, row.pending, MergedContent(row.content, m.content), m.preview)
  }

  /** The row after every record of `arrived` for `identity`, in their order. */
  function ArrivedRow(kept: Option<MessageRow>, arrived: seq<Message>, identity: string): Option<MessageRow> {
    if arrived == [] then kept
    else
      var last := arrived[|arrived| - 1];
      var earlier := ArrivedRow(kept, arrived[..|arrived| - 1], identity);
      if last.identity == identity then Some(MergedRow(earlier, last)) else earlier
  }

  function Lookup(messages: map<MessageKey, MessageRow>, k: MessageKey): Option<MessageRow> {
    if k in messages then Some(messages[k]) else None
  }

  function ArrivedKeys(account: string, arrived: seq<Message>): set<MessageKey> {
    set m | m in arrived :: MessageKey(account, m.identity)
  }

  function WithArrived(
    messages: map<MessageKey, MessageRow>, account: string, arrived: seq<Message>
  ): map<MessageKey, MessageRow> {
    map k | k in messages.Keys + ArrivedKeys(account, arrived) ::
      if k in ArrivedKeys(account, arrived)
      then ArrivedRow(Lookup(messages, k), arrived, k.identity).GetOr(EMPTY_ROW)
      else messages[k]
  }

  const EMPTY_ROW := MessageRow(Fields(None, None, None), None, Flags(false, false), NO_PENDING, NotDownloaded, "")

  function WithoutFolderless(
    messages: map<MessageKey, MessageRow>, account: string, memberships: set<Membership>
  ): map<MessageKey, MessageRow> {
    map k | k in messages && (k.account == account ==> exists m :: m in memberships && m.message == k) :: messages[k]
  }

  function WithoutMemberships(
    memberships: set<Membership>, folder: FolderKey, removed: set<string>
  ): set<Membership> {
    set m | m in memberships && !(m.folder == folder && m.message.account == folder.account && m.message.identity in removed)
  }

  function KnownKeys(account: string, known: seq<(string, Flags)>): set<MessageKey> {
    set e | e in known :: MessageKey(account, e.0)
  }

  function Related(folder: FolderKey, keys: set<MessageKey>): set<Membership> {
    set k | k in keys :: Membership(folder, k)
  }

  // ----- the operations

  /** The tables after a batch's removals. */
  function Removals(t: Tables, folder: FolderKey, removed: set<string>): Tables {
    if removed == {} then t
    else
      var memberships := WithoutMemberships(t.memberships, folder, removed);
      t.(memberships := memberships, messages := WithoutFolderless(t.messages, folder.account, memberships))
  }

  function ApplyBatch(t: Tables, folder: FolderKey, b: Batch): Tables
    requires folder in t.folders
  {
    var r := Removals(t, folder, b.removed);
    var account := folder.account;
    var messages := WithArrived(WithFlagStates(r.messages, account, b.flagStates), account, b.arrived);
    var related := ArrivedKeys(account, b.arrived) + KnownKeys(account, b.knownArrived) * messages.Keys;
    Tables(
      if b.state.Some? then t.folders[folder := t.folders[folder].(state := b.state.value)] else t.folders,
      WithFlagStates(messages, account, b.knownArrived),
      r.memberships + Related(folder, related))
  }

  /** The wish is stored as made; a message the store lacks is left as it is. */
  function WriteWish(t: Tables, k: MessageKey, flag: Flag, wanted: bool): Tables {
    if k in t.messages
    then t.(messages := t.messages[k := t.messages[k].(pending := t.messages[k].pending.With(flag, Some(wanted)))])
    else t
  }

  /** The pending values without the one of `flag`, if it is `ended`. */
  function WithoutEnded(p: Pending, flag: Flag, ended: bool): Pending {
    if p.Of(flag) == Some(ended) then p.With(flag, None) else p
  }

  function Settle(t: Tables, account: string, identities: seq<string>, flag: Flag, value: bool): Tables {
    t.(messages := map k | k in t.messages ::
      if k.account == account && k.identity in identities
      then t.messages[k].(
        flags := t.messages[k].flags.With(flag, value),
        pending := WithoutEnded(t.messages[k].pending, flag, value))
      else t.messages[k])
  }

  function DropRefused(t: Tables, account: string, identities: seq<string>, flag: Flag, refused: bool): Tables {
    t.(messages := map k | k in t.messages ::
      if k.account == account && k.identity in identities
      then t.messages[k].(pending := WithoutEnded(t.messages[k].pending, flag, refused))
      else t.messages[k])
  }

  function ListedKeys(account: string, listed: seq<ListedFolder>): set<FolderKey> {
    set f | f in listed :: FolderKey(account, f.identity)
  }

  /** The last entry for `identity`, as an upsert in order leaves it. */
  function LastListed(listed: seq<ListedFolder>, identity: string): Option<ListedFolder> {
    if listed == [] then None
    else if listed[|listed| - 1].identity == identity then Some(listed[|listed| - 1])
    else LastListed(listed[..|listed| - 1], identity)
  }

  /** The row an upsert of `f` leaves: a stored folder keeps its state, a new
      one was never synchronized. */
  function UpsertedRow(kept: Option<FolderRow>, f: ListedFolder): FolderRow {
    FolderRow(f.name, f.selectable, if kept.Some? then kept.value.state else DEFAULT_STATE)
  }

  function WithListed(folders: map<FolderKey, FolderRow>, account: string, listed: seq<ListedFolder>): map<FolderKey, FolderRow> {
    map k | k in folders.Keys + ListedKeys(account, listed) ::
      if k in ListedKeys(account, listed)
      then UpsertedRow(
        if k in folders then Some(folders[k]) else None,
        LastListed(listed, k.identity).GetOr(ListedFolder("", "", false)))
      else folders[k]
  }

  function ReplaceFolders(t: Tables, account: string, listed: seq<ListedFolder>): Tables {
    var kept := map k | k in t.folders && (k.account == account ==> k in ListedKeys(account, listed)) :: t.folders[k];
    var memberships := set m | m in t.memberships && m.folder in kept;
    Tables(WithListed(kept, account, listed), WithoutFolderless(t.messages, account, memberships), memberships)
  }

  /** The accounts with stored folders that are not current. */
  function OtherAccounts(t: Tables, current: set<string>): set<string> {
    set k | k in t.folders && k.account !in current :: k.account
  }

  function DeleteOtherAccounts(t: Tables, current: set<string>): Tables {
    var others := OtherAccounts(t, current);
    Tables(
      map k | k in t.folders && k.account !in others :: t.folders[k],
      map k | k in t.messages && k.account !in others :: t.messages[k],
      set m | m in t.memberships && m.folder.account !in others && m.message.account !in others)
  }

  // ----- what the reads return

  /** The identity and the server's flags of every message the folder holds. */
  function Held(t: Tables, folder: FolderKey): map<string, Flags> {
    map m | m in t.memberships && m.folder == folder && m.message in t.messages && m.message.account == folder.account
      :: m.message.identity := t.messages[m.message].flags
  }
}
