/** The cycle of an IMAP folder as a state machine over its awaits and its store
    writes, with the server and the user acting between any two of them, the
    account's other folders and its folder list between two cycles, since one load
    runs at a time, and the cycle stopping anywhere. */
module ImapCycle {
  import opened Domain
  import opened MessageIdentity
  import opened ImapServer
  import opened StoreTables
  import opened StoreLaws
  import opened StoreRuns
  import opened ImapPass
  import opened ImapPassLaws

  const BATCH_SIZE: nat := 100

  type SentChanges = map<(string, Flag), bool>

  /** Where the running cycle is. `c` is the moment of the opening it works
      from; `first` that of its first pass, once the folder is open again;
      `unnamed` are the messages whose identity its first pass was not told. */
  datatype Cycle =
    | Idle
    | Opened(c: nat, numbers: FolderNumbers, sync: FolderSync, pending: set<PendingChange>, plan: PassPlan)
    | Filling(c: nat, numbers: FolderNumbers, pending: set<PendingChange>, complete: bool,
              listed: seq<ListedMessage>, missing: seq<ListedMessage>, fetched: bool, sent: SentChanges,
              unnamed: set<nat>)
    | Reopened(first: nat, complete: bool, unnamed: set<nat>, c: nat, numbers: FolderNumbers, sync: FolderSync, plan: PassPlan)

  /** `opening` is the moment of the opening whose numbers the folder keeps, and
      `unnamed` are the messages whose identity it was not told. */
  datatype World = World(h: History, t: Tables, cycle: Cycle, opening: nat, unnamed: set<nat>)

  /** The folder a run is about. */
  datatype Setting = Setting(naming: Naming, account: string) {
    function Folder(): FolderKey {
      FolderKey(account, naming.folder)
    }

    function Key(identity: string): MessageKey {
      MessageKey(account, identity)
    }
  }

  datatype Step =
    | ServerActs
    | UserWishes(message: MessageKey, flag: Flag, wanted: bool)
    | OthersAct(refusals: set<PendingChange>)
    | Opens(numbers: FolderNumbers)
    | FirstPass(messages: seq<ListedUid>, complete: bool)
    | SettlesShown(shown: ListedMessage, flag: Flag)
    | Confirms(command: seq<ListedMessage>, flag: Flag, wanted: bool, reading: seq<ListedUid>)
    | IsRefused(command: seq<ListedMessage>, flag: Flag, wanted: bool)
    | Fetches(rows: seq<Message>, refused: bool)
    | Reopens(numbers: FolderNumbers)
    | SecondPass(messages: seq<ListedUid>, complete: bool)
    | Stops

  function Now(w: World): nat
    requires w.h != []
  {
    |w.h| - 1
  }

  function StateOf(s: Setting, t: Tables): FolderState {
    if s.Folder() in t.folders then t.folders[s.Folder()].state else DEFAULT_STATE
  }

  function SyncOf(s: Setting, t: Tables): FolderSync {
    FolderSync(StateOf(s, t), Held(t, s.Folder()))
  }

  /** The folder's pending changes. */
  function PendingChanges(s: Setting, t: Tables): set<PendingChange> {
    set i, flag | i in Held(t, s.Folder()).Keys && flag in {Seen, Flagged} && PendingOf(t, s.Key(i), flag).Some?
      :: PendingChange(i, flag, PendingOf(t, s.Key(i), flag).value)
  }

  function Chunk(missing: seq<ListedMessage>): seq<ListedMessage> {
    if |missing| <= BATCH_SIZE then missing else missing[..BATCH_SIZE]
  }

  /** The chunk's messages the account already holds, with their listed flags. */
  function KnownOf(s: Setting, t: Tables, chunk: seq<ListedMessage>): seq<(string, Flags)> {
    if chunk == [] then []
    else
      var last := chunk[|chunk| - 1];
      KnownOf(s, t, chunk[..|chunk| - 1]) + if s.Key(last.identity) in t.messages then [(last.identity, last.flags)] else []
  }

  /** The identities of the command whose message the reading shows as wanted. */
  function Confirmed(command: seq<ListedMessage>, flag: Flag, wanted: bool, reading: seq<ListedUid>): seq<string> {
    if reading == [] then []
    else
      var last := reading[|reading| - 1];
      var named := NamedByUid(command, last.uid);
      Confirmed(command, flag, wanted, reading[..|reading| - 1])
      + if last.flags.Of(flag) == wanted && named.Some? then [named.value.identity] else []
  }

  function NamedByUid(command: seq<ListedMessage>, uid: nat): Option<ListedMessage> {
    if command == [] then None
    else if command[0].uid == uid then Some(command[0])
    else NamedByUid(command[1..], uid)
  }

  function SentAfter(sent: SentChanges, command: seq<ListedMessage>, flag: Flag, wanted: bool): SentChanges {
    sent + map m | m in command :: (m.identity, flag) := wanted
  }

  /** A fetched row belongs to a message of the chunk that the account lacked,
      with flags the server gave it since the opening. */
  ghost predicate RowOf(s: Setting, w: World, chunk: seq<ListedMessage>, row: Message)
    requires w.cycle.Filling? && w.h != []
  {
    exists m :: m in chunk && m.identity == row.identity && s.Key(m.identity) !in w.t.messages
      && HadFlags(w.h, w.cycle.c, Now(w), m.uid, row.flags)
  }

  ghost predicate HadFlags(h: History, c: nat, d: nat, u: nat, flags: Flags)
    requires d < |h|
  {
    exists k :: c <= k <= d && u in h[k].messages && h[k].messages[u].flags == flags
  }

  ghost predicate GoneSince(h: History, c: nat, d: nat, u: nat)
    requires d < |h|
  {
    exists k :: c <= k <= d && u !in h[k].messages
  }

  /** The rows answer the chunk: an OK leaves out only messages that are gone. */
  ghost predicate RowsAnswer(s: Setting, w: World, chunk: seq<ListedMessage>, rows: seq<Message>, refused: bool)
    requires w.cycle.Filling? && w.h != []
  {
    && w.cycle.c <= Now(w)
    && w.h[w.cycle.c].uidValidity == w.h[Now(w)].uidValidity
    && (forall row :: row in rows ==> RowOf(s, w, chunk, row))
    && (!refused ==> forall m :: m in chunk && s.Key(m.identity) !in w.t.messages ==>
          (exists row :: row in rows && row.identity == m.identity) || GoneSince(w.h, w.cycle.c, Now(w), m.uid))
  }

  function FetchBatch(s: Setting, t: Tables, chunk: seq<ListedMessage>, rows: seq<Message>): Batch {
    Batch({}, [], KnownOf(s, t, chunk), rows, None)
  }

  /** What the account's other folders and its folder list may do between two
      cycles: they leave this folder its messages, write only flags the server held,
      and end a wish only with such a value or when the server refused it. */
  ghost predicate LeavesFolder(s: Setting, w: World, refused: set<PendingChange>, t': Tables)
    requires w.h != []
  {
    && Valid(t') && s.Folder() in t'.folders && StateOf(s, t') == StateOf(s, w.t)
    && FlagsKept(s.naming, Held(w.t, s.Folder()), Held(t', s.Folder()), w.h, w.opening, Now(w))
    && (forall i, flag :: i in Held(w.t, s.Folder()) ==> WishKept(s, w, refused, t', i, flag))
  }

  ghost predicate WishKept(s: Setting, w: World, refused: set<PendingChange>, t': Tables, i: string, flag: Flag)
    requires w.h != []
  {
    var wish, wish' := PendingOf(w.t, s.Key(i), flag), PendingOf(t', s.Key(i), flag);
    || wish' == wish
    || (wish'.None? && wish.Some?
        && (PendingChange(i, flag, wish.value) in refused
            || WasServerFlag(s.naming, w.h, w.opening, Now(w), i, flag, wish.value)))
  }

  /** The same messages, each flag as before or one the server held for its
      message between `a` and `z`. */
  ghost predicate FlagsKept(naming: Naming, held: map<string, Flags>, held': map<string, Flags>, h: History, a: nat, z: nat) {
    && z < |h|
    && held'.Keys == held.Keys
    && forall i, flag :: i in held ==> held'[i].Of(flag) == held[i].Of(flag) || WasServerFlag(naming, h, a, z, i, flag, held'[i].Of(flag))
  }

  ghost predicate WasServerFlag(naming: Naming, h: History, a: nat, z: nat, i: string, flag: Flag, value: bool)
    requires z < |h|
  {
    exists k, u :: a <= k <= z && IsOf(naming, h[k], u, i) && SeenAt(h, k, u, flag, value)
  }

  ghost predicate Next(s: Setting, w: World, step: Step, w': World) {
    && w.h != [] && w'.h != []
    && s.Folder() in w.t.folders
    && match step
       case ServerActs =>
         && w' == w.(h := w'.h) && ValidHistory(w'.h)
         && |w'.h| == |w.h| + 1 && w'.h[..|w.h|] == w.h
       case UserWishes(k, flag, wanted) => w' == w.(t := WriteWish(w.t, k, flag, wanted))
       case OthersAct(refused) => w.cycle.Idle? && w' == w.(t := w'.t) && LeavesFolder(s, w, refused, w'.t)
       case Opens(numbers) =>
         var state := StateOf(s, w.t);
         var reference := if state.synchronized then state.numbers else None;
         var pending := PendingChanges(s, w.t);
         && w.cycle.Idle? && Reports(numbers, w.h[Now(w)])
         && w' == w.(cycle := Opened(Now(w), numbers, SyncOf(s, w.t), pending, PlanOf(numbers, reference, pending != {})))
       case FirstPass(messages, complete) =>
         && w.cycle.Opened? && Answer(w.h, w.cycle.c, Now(w), w.cycle.plan, messages, complete)
         && var listed := Identify(s.naming, w.h[w.cycle.c].uidValidity, messages);
            var missing := Missing(listed, w.cycle.sync.stored);
            w' == AfterPass(s, w, listed, UnnamedNow(s, w, messages), complete,
                            Filling(w.cycle.c, w.cycle.numbers, w.cycle.pending, complete, listed, missing, missing != [], map[],
                                    UnnamedNow(s, w, messages)))
       case SettlesShown(shown, flag) =>
         && w.cycle.Filling? && shown in w.cycle.listed
         && PendingChange(shown.identity, flag, shown.flags.Of(flag)) in w.cycle.pending
         && w' == w.(t := Settle(w.t, s.account, [shown.identity], flag, shown.flags.Of(flag)))
       case Confirms(command, flag, wanted, reading) =>
         && w.cycle.Filling? && (forall m :: m in command ==> m in w.cycle.listed)
         && TrueEntries(w.h, w.cycle.c, Now(w), reading)
         && w' == w.(t := Settle(w.t, s.account, Confirmed(command, flag, wanted, reading), flag, wanted),
                     cycle := w.cycle.(sent := SentAfter(w.cycle.sent, command, flag, wanted)))
       case IsRefused(command, flag, wanted) =>
         && w.cycle.Filling?
         && w' == w.(t := DropRefused(w.t, s.account, IdentitiesOf(command), flag, wanted), cycle := Idle)
       case Fetches(rows, refused) =>
         && w.cycle.Filling? && w.cycle.missing != []
         && var chunk := Chunk(w.cycle.missing);
            && RowsAnswer(s, w, chunk, rows, refused)
            && w' == w.(t := StoreUnlessEmpty(w.t, s.Folder(), FetchBatch(s, w.t, chunk, rows)),
                        cycle := if refused then Idle else w.cycle.(missing := w.cycle.missing[|chunk|..]))
       case Reopens(numbers) =>
         && w.cycle.Filling? && w.cycle.missing == [] && (w.cycle.fetched || w.cycle.sent != map[])
         && Reports(numbers, w.h[Now(w)]) && numbers.uidValidity == w.cycle.numbers.uidValidity
         && w' == w.(cycle := Reopened(w.cycle.c, w.cycle.complete, w.cycle.unnamed, Now(w), numbers, SyncOf(s, w.t),
                       PlanOf(numbers, if w.cycle.complete then Some(w.cycle.numbers) else None, false)))
       case SecondPass(messages, complete) =>
         && w.cycle.Reopened? && Answer(w.h, w.cycle.c, Now(w), w.cycle.plan, messages, complete)
         && w' == AfterPass(s, w, Identify(s.naming, w.h[w.cycle.c].uidValidity, messages), UnnamedNow(s, w, messages), complete, Idle)
       case Stops => w' == w.(cycle := Idle)
  }

  function IdentitiesOf(command: seq<ListedMessage>): seq<string> {
    seq(|command|, j requires 0 <= j < |command| => command[j].identity)
  }

  /** The messages whose identity was not told, once the pass listed `messages`. */
  function UnnamedNow(s: Setting, w: World, messages: seq<ListedUid>): set<nat>
    requires (w.cycle.Opened? || w.cycle.Reopened?) && w.cycle.c < |w.h|
  {
    UnnamedAfter(w.cycle.plan, if w.cycle.Opened? then w.unnamed else w.cycle.unnamed,
                 UnnamedUids(s.naming, w.h[w.cycle.c].uidValidity, messages))
  }

  /** The world after a state pass stored its batch. */
  function AfterPass(s: Setting, w: World, listed: seq<ListedMessage>, unnamed: set<nat>, complete: bool, cycle: Cycle): World
    requires (w.cycle.Opened? || w.cycle.Reopened?) && s.Folder() in w.t.folders
  {
    var b := PassBatch(w.cycle.sync, w.cycle.numbers, w.cycle.plan, listed, complete);
    World(
      w.h,
      StoreUnlessEmpty(w.t, s.Folder(), b),
      cycle,
      if complete && Missing(listed, w.cycle.sync.stored) == [] then w.cycle.c else w.opening,
      if complete && Missing(listed, w.cycle.sync.stored) == [] then unnamed else w.unnamed)
  }

  // ----- the invariant

  /** A folder marked synchronized reflects the opening whose numbers it keeps. */
  ghost predicate Synchronized(s: Setting, w: World)
    requires w.h != []
  {
    var state := StateOf(s, w.t);
    state.synchronized ==>
      && state.numbers.Some? && w.opening <= Now(w) && Reports(state.numbers.value, w.h[w.opening])
      && Reflects(s.naming, Held(w.t, s.Folder()), [], w.unnamed, w.h, w.opening, Now(w))
  }

  ghost predicate CycleSound(s: Setting, w: World)
    requires w.h != []
  {
    match w.cycle
    case Idle => true
    case Opened(c, numbers, sync, pending, plan) =>
      && c <= Now(w) && Reports(numbers, w.h[c]) && sync == SyncOf(s, w.t)
      && (sync.state.synchronized ==> w.opening <= c && Reflects(s.naming, sync.stored, [], w.unnamed, w.h, w.opening, c))
      && plan == PlanOf(numbers, if sync.state.synchronized then sync.state.numbers else None, pending != {})
    case Filling(c, numbers, pending, complete, listed, missing, fetched, sent, unnamed) =>
      && c <= Now(w) && Reports(numbers, w.h[c])
      && (forall m :: m in listed ==> EntryWasThere(s.naming, w.h, c, Now(w), m))
      && (missing != [] ==> fetched)
      && (fetched ==> !StateOf(s, w.t).synchronized)
      && (complete ==> Reflects(s.naming, Held(w.t, s.Folder()), missing, unnamed, w.h, c, Now(w)))
      && (StateOf(s, w.t).synchronized ==> w.opening <= c)
    case Reopened(first, complete, unnamed, c, numbers, sync, plan) =>
      && first <= c <= Now(w) && Reports(numbers, w.h[c]) && sync == SyncOf(s, w.t)
      && (sync.state.synchronized ==> w.opening <= c && Reflects(s.naming, sync.stored, [], w.unnamed, w.h, w.opening, c))
      && (if complete
          then exists before :: Reports(before, w.h[first]) && plan == PlanOf(numbers, Some(before), false)
          else plan.Everything?)
      && (complete ==> Reflects(s.naming, sync.stored, [], unnamed, w.h, first, c))
  }

  /** A listed message was on the server with its listed flags since the opening. */
  ghost predicate EntryWasThere(naming: Naming, h: History, c: nat, z: nat, m: ListedMessage)
    requires z < |h|
  {
    exists k :: c <= k <= z && IsOf(naming, h[k], m.uid, m.identity) && h[k].messages[m.uid].flags == m.flags
  }

  ghost predicate Inv(s: Setting, w: World) {
    && ValidHistory(w.h) && Valid(w.t) && s.Folder() in w.t.folders
    && Synchronized(s, w) && CycleSound(s, w)
  }
}
