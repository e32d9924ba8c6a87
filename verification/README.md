# Mailbag: a verified model

Mailbag is a desktop mail client that keeps a local copy of the user's mail and
brings it up to date in *cycles*: one folder at a time, from an IMAP server
(Generic IMAP or Gmail) or from Microsoft 365, while the user may mark messages
read or star them and other clients change the same mailbox. This project models
that synchronization, the store it shares with the window, the reader that copes
with imperfect IMAP servers, the text algorithms with a standard behind them, and
three event-driven pieces of the window, and proves what they promise.

`dafny verify dfyconfig.toml` checks all of it.

## How the model is built

* **The store** (`StoreTables`, `StoreLaws`, `StoreClass`, `StoreRuns`). The three
  tables are maps by their unique keys. Each operation has a closed form on values;
  the class `Store` changes its fields in place, loop by loop, and every method is
  proved to leave exactly that closed form. Runs are arbitrary sequences of
  operations by the cycles, the folder list, the accounts and the user.
* **The IMAP cycle** (`ImapServer`, `ImapPass`, `ImapPassLaws`, `ImapFastPass`,
  `ImapCycle`, `ImapCycleLaws`, `ImapRuns`, `ImapWishes`, `ImapPassRun`). The server is a
  ghost history of mailbox states under what RFC 3501 (section 2.3.1.1) and RFC 7162
  (sections 3.1.2 and 3.1.4.1) require: UIDs only grow, UIDNEXT never falls, every
  flag change raises the mod-sequence. What the cycle is told is true at some moment
  of the reading, and a complete answer leaves out nothing that was there all the
  time; a Gmail server may list a message without its identifier. The cycle is a state
  machine over its awaits and its writes; the server and the user act between any two
  of them, the account's other folders between two cycles, since one load runs at a
  time, and it may stop anywhere. `ImapPassRun` runs the pass on the store in loops and
  is tied to it.
* **Sending** (`Sending`, `Delivery`, `CycleSending`). The user's wishes are grouped into
  commands and sent to a server whose other clients act before each command, while the
  user makes more wishes during every wait. `CycleSending` is a whole cycle: the pass,
  every fetched chunk with the sending step after it, and the second pass.
* **The Microsoft 365 cycle** (`GraphCycle`, `GraphCycleLaws`, `GraphRules`,
  `GraphCycleRun`, `GraphRequest`, `DeltaMerge`). A link is a cursor into a change log: the place of an unfinished
  reading or the position of a round. What is assumed of the service: an entry tells
  its message as of a moment of the reading; a message is read again after its page was
  asked for; at the end of a reading, a change after
  the reading last told its message comes with the next round; a first reading tells
  every message that stays in the folder; the position a reading ends at is not
  before its first request. Entries older than the reading's own start and delayed
  change reports are outside this assumption: the client promises agreement only as
  far as the service reports changes. The class `FolderCycle` is the loop itself,
  each turn a step of the state machine; `GraphRequest` is one request with the
  cycle's one renewal of its access token.
* **The reader** (`RowLadder`, `TextPlan`, `TextReading`). Every command gets a scripted
  answer: any responses, ended by OK, a refusal, a parse failure or a lost connection.
  Each command and its answer are logged, and what is reported, stored or shown is
  stated by that log.
* **Text** (`Utf7`, `Flowed`, `MimeWalk`, `MimeWalkLaws`, `Preview`). Each algorithm
  keeps its loops and is proved against the encoding or the meaning the standard gives.
* **The window** (`ListDiff`, `ShownRows`, `Observer`). Classes whose fields the
  events change, with row objects, read numbers and reentrant callbacks. That the
  rows of a list have distinct identities is the store's unique key.

## Findings

* A text already stored can become "text not returned" through one batch: when the
  batch holds two records of the message, the first of them without a text to show.
  `StoreLaws.StoredTextAfterBatch` says exactly when, `StoreLaws.TwoRecordsLoseText` is
  such a batch. The IMAP cycle never writes one, since it fetches only messages the
  account lacks (`ImapRuns.StepKeepsContent`); a Microsoft 365 page is merged to one
  entry per message first (`DeltaMerge.MergePerMessage`).
* The fast IMAP pass stores what some full listing would if and only if every stored
  message of the opening whose identity the fast listing does not give was there, at
  some moment of the reading, as it is stored (`ImapFastPass.FastIsFullIff`). That holds
  when nothing is listed, and when no message is removed while CHANGEDSINCE is being
  read; a message changed before the opening and removed during the reading breaks it
  (`ImapFastPass.RemovedWhileListed`). Such a pass is still safe: it runs into the next
  opening's numbers.
* A Gmail message that never left its label is removed from the folder when a complete
  listing of every message shows it without X-GM-MSGID
  (`ImapPassLaws.WithheldIdentityRemoves`), and in no other case
  (`ImapPassLaws.PresentRemovedIffUnnamed`, `ImapRuns.PresentStays`). A folder marked
  synchronized may lack exactly such messages, or keep older flags of those a fast
  listing showed so (`ImapCycleLaws.SynchronizedFolderIsTheServer`); a Generic folder never
  does.

## Model

| member | source | states |
|---|---|---|
| `StoreLaws.BatchKeepsValid` | crates/mailbag-store/src/lib.rs:167-194 | after a batch no membership has a dangling end and every message belongs to a folder of its own account |
| `StoreLaws.ReplaceFoldersKeepsValid` | crates/mailbag-store/src/lib.rs:101-121 | replacing the folder list keeps the tables sound |
| `StoreLaws.ListedFolderIs` | crates/mailbag-store/src/folders.rs:41-65 | after a folder list the account has exactly the listed folders, under the names last listed; one it had keeps what it remembers, a new one remembers nothing |
| `StoreLaws.ReplacedListKeeps` | crates/mailbag-store/src/lib.rs:101-121 | with a folder go its memberships and the messages no other folder holds, and nothing else changes |
| `StoreLaws.DeleteOtherAccountsKeepsValid` | crates/mailbag-store/src/lib.rs:312-337 | deleting other accounts keeps the tables sound |
| `StoreLaws.BatchReplays` | crates/mailbag-store/src/lib.rs:167-194 | storing a batch twice is storing it once |
| `StoreLaws.HeldAfterBatch` | crates/mailbag-store/src/folders.rs:171-280 | exactly which messages a folder holds after a batch |
| `StoreLaws.FlagsAfterBatch` | crates/mailbag-store/src/folders.rs:190-280 | which server flags each message has after a batch, the later part of the batch winning |
| `StoreLaws.LaterPartWins` | crates/mailbag-store/src/folders.rs:190-280 | by position: the last known arrival, else the last record, else the last changed flags, else what was stored |
| `StoreLaws.BatchLeavesOthers` | crates/mailbag-store/src/lib.rs:167-194 | other folders, their memberships and other accounts' messages stay, and of its own folder only what is remembered is written |
| `StoreLaws.ArrivedRowIs` | crates/mailbag-store/src/folders.rs:216-261 | the row several records of one message leave: the last record's fields, the pending values kept, the content by the merge rule |
| `StoreLaws.OnlyRecordContent` | crates/mailbag-store/src/folders.rs:216-261 | what a message's only record does to its content: not downloaded keeps all, not returned keeps a text, everything else replaces |
| `StoreLaws.StoredTextAfterBatch` | crates/mailbag-store/src/folders.rs:216-261 | a stored text never becomes "not downloaded", and becomes "not returned" if and only if the batch has two records in the named order |
| `StoreLaws.OneRecordKeepsText` | crates/mailbag-store/src/folders.rs:216-261 | a batch with one record per message loses no stored text |
| `ImapRuns.StepKeepsContent` | crates/mailbag-providers/src/cycle/imap.rs:404-437 | no step of an IMAP cycle changes the stored content of a message that stays |
| `StoreLaws.TwoRecordsLoseText` | crates/mailbag-store/src/folders.rs:216-261 | tables and a batch that leaves "not returned" where the text was stored |
| `StoreClass.Store.StoreBatch` | crates/mailbag-store/src/lib.rs:167-194 | the loops over the tables leave exactly the batch's closed form, whole or, when cancelled or the folder is unknown, not at all |
| `StoreClass.Store.DeleteMemberships` | crates/mailbag-store/src/folders.rs:171-186 | removes the folder's memberships of the named messages and no other |
| `StoreLaws.RemovalsKeepValid` | crates/mailbag-store/src/folders.rs:346-356 | after memberships are removed, deleting the account's messages no folder holds any more leaves none without a folder, and no membership without its message |
| `StoreClass.Store.SetFlagStates` | crates/mailbag-store/src/folders.rs:190-212 | each message takes the last flags given for it |
| `StoreClass.Store.StoreArrived` | crates/mailbag-store/src/folders.rs:216-261 | rows and memberships after every full record |
| `StoreClass.Store.RelateKnown` | crates/mailbag-store/src/folders.rs:266-280 | relates the known messages the account holds and takes their flags |
| `StoreClass.Store.ReplaceFolderList` | crates/mailbag-store/src/lib.rs:101-121 | listed folders kept with their state or inserted, the others gone with their memberships and folderless messages |
| `StoreClass.Store.WritePendingFlag` | crates/mailbag-store/src/lib.rs:210-225 | stores the wish and nothing else |
| `StoreClass.Store.SettleFlags` | crates/mailbag-store/src/lib.rs:231-241 | the value becomes the server's and ends an equal wish, no other |
| `StoreClass.Store.DropPendingFlags` | crates/mailbag-store/src/lib.rs:246-256 | ends an equal wish and leaves the server's value |
| `StoreClass.Store.DeleteAccountsExcept` | crates/mailbag-store/src/lib.rs:312-337 | removes the folders, messages and memberships of the accounts not current, and names them |
| `StoreRuns.EveryRunIsSound` | crates/mailbag-store/src/lib.rs:101-337 | every state reachable by any sequence of operations is sound |
| `StoreRuns.PendingAfter` | crates/mailbag-store/src/lib.rs:210-256 | what any one operation does to a message's pending value |
| `StoreRuns.RowAfterEvent` | crates/mailbag-store/src/lib.rs:210-256 | of the rest of a row only a settled flag's server value changes, to the value seen |
| `StoreRuns.BatchLosesLastFolder` | crates/mailbag-store/src/lib.rs:167-194 | a message leaves with a batch if and only if the batch removes it from its last folder |
| `StoreRuns.PendingIsTheLatestWish` | crates/mailbag-store/src/lib.rs:167-256 | over every interleaving of the store's operations a pending value is the user's latest wish if and only if none since settled or refused that value or took the message from its last folder |
| `ImapWishes.StepEndsWish` | crates/mailbag-providers/src/cycle/pending.rs:47-136 | a step of a cycle ends a wish only when the server refused that very value, or held it for the message at a moment since the cycle's opening |
| `ImapWishes.PendingIsTheLatestWish` | crates/mailbag-providers/src/cycle/imap.rs:60-129 | over every run, with wishes at any moment of any cycle, the pending value of a message the folder holds is the latest wish, or absent once a step since that wish had such a proof |
| `StoreRuns.RowShowsTheWish` | crates/mailbag-store/src/folders.rs:363-390 | while a wish stands, the row shows it whatever the server reports |
| `MessageIdentity.GenericIdentityIsThePlace` | crates/mailbag-providers/src/cycle/imap.rs:358-405 | no two places of a Generic folder share an identity, whatever numbering they belong to |
| `MessageIdentity.IdentitiesTellFolders` | crates/mailbag-providers/src/cycle/imap.rs:358-405 | two Generic identities are equal if and only if folder, numbering and UID are, whatever slashes a name holds, and none equals a Gmail one |
| `MessageIdentity.GmailIdentityIsItsNumber` | crates/mailbag-providers/src/cycle/imap.rs:358-405 | Gmail identities are as distinct as their numbers |
| `ImapServer.SameNumbersSameMessages` | crates/mailbag-providers/src/cycle/imap.rs:149-171 | equal UIDVALIDITY, EXISTS and UIDNEXT force the same messages at both openings and at every moment between |
| `ImapServer.OldModseqSameMessage` | crates/mailbag-providers/src/cycle/imap.rs:149-171 | a mod-sequence not above the reference means the message is unchanged since |
| `ImapPass.PlanCompares` | crates/mailbag-providers/src/cycle/imap.rs:149-171 | a plan short of everything means equal numbers under one numbering, no pending change, and the reference's mod-sequence to list from |
| `ImapPass.PlanIff` | crates/mailbag-providers/src/cycle/imap.rs:149-171 | nothing is listed if and only if a reference is told again in all numbers and no change is pending; the flags changed since it if and only if all but HIGHESTMODSEQ is |
| `ImapRuns.OpensFastIff` | crates/mailbag-providers/src/cycle/imap.rs:60-75 | where all numbers are told, what an opening lists follows from the folder's being synchronized with the numbers the server has and from no wish being pending, both ways |
| `ImapRuns.ReopensFastIff` | crates/mailbag-providers/src/cycle/imap.rs:118-127 | the same of the second pass, against the first one's numbers |
| `ImapRuns.QuietFolderOpensFast` | crates/mailbag-providers/src/cycle/imap.rs:60-75 | over every run, a synchronized folder on an unchanged server and without a wish is opened without a listing |
| `ImapRuns.CycleGoesOn` | crates/mailbag-providers/src/cycle/imap.rs:60-129 | from every reachable kind of state the next await has its step, whatever the server answers |
| `ImapPass.OneMessagePerIdentity` | crates/mailbag-providers/src/cycle/imap.rs:358-405 | an identity names one message of a mailbox |
| `ImapPass.HeldAfterPass` | crates/mailbag-providers/src/cycle/imap.rs:186-247 | which messages the folder holds after a pass, each with its listed flags if it was listed |
| `ImapPassLaws.CompletePassReflects` | crates/mailbag-providers/src/cycle/imap.rs:186-308 | a complete pass, fast or full, leaves the folder and the missing messages reflecting its opening |
| `ImapPassLaws.RefusedPassKeeps` | crates/mailbag-providers/src/cycle/imap.rs:186-247 | a refused pass loses nothing of what the folder reflected |
| `ImapPassLaws.PresentRemovedIffUnnamed` | crates/mailbag-providers/src/cycle/imap.rs:275-308 | a pass removes a stored message that was on the server throughout if and only if it is a complete listing of every message that shows it without its identity |
| `ImapPassLaws.WithheldIdentityRemoves` | crates/mailbag-providers/src/cycle/imap.rs:367-405 | a Gmail listing that does |
| `ImapFastPass.FastPassIsAFullPass` | crates/mailbag-providers/src/cycle/imap.rs:149-247 | a fast listing completed with what it left out is a full listing the server may have given, and the pass stores the very same batch |
| `ImapFastPass.FastListingOmitsOnlyStored` | crates/mailbag-providers/src/cycle/imap.rs:186-247 | with no identity withheld, listing nothing always meets the condition for that, CHANGEDSINCE when no message is removed meanwhile |
| `ImapFastPass.FullPassOmitsOnlyStored` | crates/mailbag-providers/src/cycle/imap.rs:186-247 | the converse, on Generic and Gmail folders: when some full listing stores the same, the condition holds |
| `ImapFastPass.FastIsFullIff` | crates/mailbag-providers/src/cycle/imap.rs:149-247 | a fast pass stores what some full listing would if and only if it omits only stored messages that stood as stored at a moment of the reading |
| `ImapFastPass.RemovedWhileListed` | crates/mailbag-providers/src/cycle/imap.rs:186-247 | a history in which the condition fails |
| `ImapCycleLaws.StepKeeps` | crates/mailbag-providers/src/cycle/imap.rs:60-129 | every step of the cycle, the server, the user and the other folders keeps the invariant |
| `ImapCycleLaws.EveryRunKeeps` | crates/mailbag-providers/src/cycle/imap.rs:60-129 | so does every run, however often the cycle is cut off |
| `ImapCycleLaws.FetchReflects` | crates/mailbag-providers/src/cycle/imap.rs:97-117 | a fetched chunk moves its messages from missing to held without losing one |
| `ImapCycleLaws.ConfirmedWasRead` | crates/mailbag-providers/src/cycle/pending.rs:112-133 | only a message the reading showed with the wanted value is confirmed |
| `ImapCycleLaws.SynchronizedFolderIsTheServer` | crates/mailbag-providers/src/cycle/imap.rs:60-129 | over every run with refusals, lost connections and renumbering, a folder marked synchronized holds only messages of a server with the numbers it keeps and every one whose identity was told, on a Generic folder so exactly the server's, with the current flags when HIGHESTMODSEQ is unchanged |
| `ImapRuns.PresentStays` | crates/mailbag-providers/src/cycle/imap.rs:186-308 | over every run a message the server has throughout stays in the folder if and only if no pass lists it without its identity |
| `ImapRuns.QuietPassStoresNothing` | crates/mailbag-providers/src/cycle/imap.rs:186-247 | a further cycle without a server change and without a wish stores nothing and fetches nothing if and only if its listing gives the identities it gave |
| `ImapRuns.SecondPassMissesNothing` | crates/mailbag-providers/src/cycle/imap.rs:97-128 | after a complete first listing and unrefused fetches of every chunk, a quiet server's second listing misses nothing |
| `ImapRuns.CompletedCycleConverges` | crates/mailbag-providers/src/cycle/imap.rs:60-129 | after any cut-off, refused or renumbered cycles, one whose listings complete and withhold no identity and whose fetches are not refused, against a server quiet since it opened the folder, leaves exactly the server's identified messages with their flags, and its numbers |
| `ImapPassRun.MissingMessages` | crates/mailbag-providers/src/cycle/imap.rs:261-271 | the sorted filter of the listing gives the missing messages |
| `ImapPassRun.MissingFall` | crates/mailbag-providers/src/cycle/imap.rs:261-271 | the missing messages come highest UID first |
| `ImapPassRun.FetchesNewest` | crates/mailbag-providers/src/cycle/imap.rs:97-117 | over every run a fetch asks for a hundred of the missing messages, or all that are left, each with a higher UID than those still to come |
| `ImapPassRun.IdentifyListing` | crates/mailbag-providers/src/cycle/imap.rs:358-405 | the identified messages of a listing, those without identity left out |
| `ImapPassRun.RunStatePass` | crates/mailbag-providers/src/cycle/imap.rs:186-226 | the pass run on the store finds the identified and the missing messages and leaves the tables with its batch |
| `ImapPassRun.PassIsAStep` | crates/mailbag-providers/src/cycle/imap.rs:186-226 | those tables are a step of the cycle's state machine |
| `ImapPassRun.StoreArrivals` | crates/mailbag-providers/src/cycle/imap.rs:97-117 | storing a chunk's arrivals is that machine's step |
| `ImapPassRun.StoreOne` | crates/mailbag-providers/src/store_load.rs:131-156 | a batch that changes nothing is not written |
| `Sending.PlanCommands` | crates/mailbag-providers/src/cycle/pending.rs:87-102 | the grouping loop gives the planned commands |
| `Sending.EachWishInOneCommand` | crates/mailbag-providers/src/cycle/pending.rs:81-136 | every unsent wish on a listed message is in exactly one command of its flag and value, nothing else is, and each command has one to a hundred messages in ascending UID order |
| `Sending.CommandsAreFull` | crates/mailbag-providers/src/cycle/pending.rs:87-102 | a command for the same flag and value as the one before follows only a full one, with higher UIDs |
| `Sending.StepNeverTwice` | crates/mailbag-providers/src/cycle/pending.rs:26-30 | no sending step repeats the value sent last for a message's flag |
| `Delivery.SendCommand` | crates/mailbag-providers/src/cycle/pending.rs:100-134 | what one command leaves in the store when it is accepted, refused or its outcome is unknown |
| `Delivery.SettledIsHeld` | crates/mailbag-providers/src/cycle/pending.rs:112-133 | a wish is settled only while the server holds that very value |
| `Delivery.HeldIsSettled` | crates/mailbag-providers/src/cycle/pending.rs:112-133 | a whole reading settles every message of the command that holds it |
| `Delivery.SendImapChanges` | crates/mailbag-providers/src/cycle/pending.rs:81-136 | while the user makes more wishes, no value is sent twice in a row over all the cycle's steps; with no refusal and no other client every wish of the step is held by the server and, unless made again meanwhile, settled, and nothing else changes |
| `Delivery.EndChangesTheListingShows` | crates/mailbag-providers/src/cycle/pending.rs:47-69 | settles the wishes the listing shows, group by group |
| `Delivery.ShownEnd` | crates/mailbag-providers/src/cycle/pending.rs:47-69 | of the pending values exactly those end that were read before the listing and that it shows; one wished anew meanwhile stays |
| `CycleSending.ByIdentityIsWell` | crates/mailbag-providers/src/cycle/imap.rs:79-83 | a listing in ascending UID order gives each identity a UID of its own |
| `CycleSending.StartIsDelivered` | crates/mailbag-providers/src/cycle/imap.rs:75-91 | the first sending step delivers every wish of the cycle's start that the listing did not show already |
| `CycleSending.StepKeepsDelivered` | crates/mailbag-providers/src/cycle/imap.rs:97-111 | a later step leaves what was delivered |
| `CycleSending.SendThroughCycle` | crates/mailbag-providers/src/cycle/imap.rs:60-129 | a whole cycle asks for every chunk of the missing messages in its turn until one is refused or lost, and for the folder anew if and only if anything was missing or sent; no value is sent twice in a row for one message's flag; with no refusal and no other client all wishes present at its start on listed messages, unless made again since, are settled and held by the server at its end |
| `CycleSending.ChunksAreMissing` | crates/mailbag-providers/src/cycle/imap.rs:97-98 | the chunks are the missing messages in their order, one to a hundred each |
| `CycleSending.FetchChunk` | crates/mailbag-providers/src/cycle/imap.rs:97-106 | stores exactly the batch of the rows that came over the wishes made meanwhile, and nothing when the connection was lost |
| `Delivery.SendGraphChanges` | crates/mailbag-providers/src/cycle/pending.rs:143-183 | while the user makes more wishes, accepted changes end, the refused one is dropped, those after a failure stay |
| `Delivery.GraphWishEnds` | crates/mailbag-providers/src/cycle/pending.rs:143-183 | a wish ends exactly when the service accepted or refused that very change |
| `GraphCycleLaws.StepKeeps` | crates/mailbag-providers/src/cycle/graph.rs:54-172 | every step of the delta reading keeps the invariant: saved places and positions stay usable |
| `GraphCycleLaws.CompletedCycleAgrees` | crates/mailbag-providers/src/cycle/graph.rs:54-172 | after any interrupted and rejected cycles, one that completes leaves every message as the service had it at some moment since the cycle began, and keeps a position of such a moment |
| `GraphCycleLaws.QuietCycleConverges` | crates/mailbag-providers/src/cycle/graph.rs:54-172 | against a quiet service the folder's messages are then the service's |
| `GraphCycleLaws.AtMostTwoSwitches` | crates/mailbag-providers/src/cycle/graph.rs:35-48 | a cycle changes its mode at most twice |
| `GraphCycleLaws.SwitchesGoDown` | crates/mailbag-providers/src/cycle/graph.rs:35-48 | each change of mode goes down from first fill over round to full rereading |
| `GraphCycleLaws.RemovedWasGone` | crates/mailbag-providers/src/cycle/graph.rs:153-169 | nothing is removed without a moment since the reading's start at which the service did not have it |
| `GraphCycleLaws.PresentStays` | crates/mailbag-providers/src/cycle/graph.rs:54-172 | over every run a held message stays that the service has in the folder ever since the moment the saved links and the running reading reach back to |
| `GraphCycleLaws.PageInTheStore` | crates/mailbag-providers/src/cycle/graph.rs:326-409 | the batch a page becomes leaves exactly these messages in the store's folder, with the page's state |
| `GraphRules.StartGoesOn` | crates/mailbag-providers/src/cycle/graph.rs:180-197 | a start goes on with the very reading of a saved place, else asks for the changes since the saved position's moment, else for everything, against what the folder holds |
| `GraphRules.CutOffGoesOn` | crates/mailbag-providers/src/cycle/graph.rs:54-172 | over every run, however often cycles are rejected and cut off without storing a page, the next start asks where the last stored page saved |
| `GraphRules.EntryIsTaken` | crates/mailbag-providers/src/cycle/graph.rs:326-409 | a removal removes; a full entry is stored as reported unless another folder holds the message or a round's account does; every other is stored as the service has it since the page was asked for |
| `GraphRules.UnnamedStays` | crates/mailbag-providers/src/cycle/graph.rs:153-169 | a message the page does not name stays, but for one the end of a full rereading did not list |
| `GraphRules.PageMarks` | crates/mailbag-providers/src/cycle/graph.rs:123-171 | a stored page marks the folder synchronized if and only if it completes the cycle |
| `GraphRules.RoundNamesFew` | crates/mailbag-providers/src/cycle/graph.rs:94-112 | over every run a round's pages have named at most a hundred of the messages held when its cycle began |
| `GraphRules.RoundIsGivenUp` | crates/mailbag-providers/src/cycle/graph.rs:94-112 | the page that names more stores nothing and starts a full rereading |
| `GraphCycleRun.FolderCycle.Start` | crates/mailbag-providers/src/cycle/graph.rs:54-68 | a start is the state machine's step: it asks at the saved place, else at the saved position, else from the beginning |
| `GraphCycleRun.FolderCycle.BatchFromChanges` | crates/mailbag-providers/src/cycle/graph.rs:326-409 | the loop over a page's entries finds exactly the messages told in and out of the folder |
| `GraphCycleRun.FolderCycle.TakePage` | crates/mailbag-providers/src/cycle/graph.rs:74-171 | one turn of the loop leaves the whole world the state machine says |
| `GraphCycleRun.PageKeeps` | crates/mailbag-providers/src/cycle/graph.rs:74-171 | each turn keeps the invariant |
| `GraphRequest.GraphService.Request` | crates/mailbag-providers/src/cycle/graph.rs:474-491 | over a whole cycle one renewal at most; a request is repeated once at most, after a refused token and only with a different one |
| `DeltaMerge.MergePerMessage` | crates/mailbag-providers/src/cycle/graph.rs:206-261 | the fold over a page gives each message what its own entries mean |
| `DeltaMerge.FoldIsMeaning` | crates/mailbag-providers/src/cycle/graph.rs:206-261 | that meaning: a removal met with anything else is read again; the last full entry with later flags over it; else whether any other field changed |
| `DeltaMerge.OrderAmongMessagesIsNothing` | crates/mailbag-providers/src/cycle/graph.rs:206-261 | any number of exchanges of neighbouring entries of different messages leaves the merged page the same |
| `DeltaMerge.MixedInAnyOrder` | crates/mailbag-providers/src/cycle/graph.rs:206-261 | a removal met with another entry is read again in any order |
| `RowLadder.RowIsTold` | crates/mailbag-imap/src/fetch_responses.rs:59-104 | by position among the responses: a message has a row if and only if a response of it has header lines; those, the date, Gmail's two items together and the structure are the first told, the flags the last, neither set when none came |
| `RowLadder.CollectRows` | crates/mailbag-imap/src/fetch_responses.rs:59-92 | the rows among the responses: requested, distinct, highest UID first, each as told, none left out |
| `RowLadder.KeepListed` | crates/mailbag-imap/src/fetch_responses.rs:37-54 | of a listing's pieces the flags and the identifier of each message that come last by position count |
| `RowLadder.Reader.Fetch` | crates/mailbag-imap/src/reader.rs:527-549 | one command with the server's own answer, after a reconnection exactly when the last answer could not be parsed |
| `RowLadder.Reader.FetchStructuresApart` | crates/mailbag-imap/src/reader.rs:347-380 | one structure command for each row, each row with its own answer's structure, only messages proven gone dropped; a failure has its reason |
| `RowLadder.Reader.ReadUnansweredApart` | crates/mailbag-imap/src/reader.rs:307-338 | asks apart for exactly the messages without a structured row; structured rows stay, every lacking one is explained |
| `RowLadder.Reader.FetchRowsByUid` | crates/mailbag-imap/src/reader.rs:255-295 | for every server behaviour, a read asks again apart exactly when the first command did not suffice, and has strictly descending requested rows as the server told them, never loses a row first told with its structure, lacks one only if the last row command did not tell it or an OK proved it gone, and carries that command's refusal; it fails only for a failed reconnection, a lost or twice unparsed answer or a refusal marked temporary |
| `TextPlan.TextIsTold` | crates/mailbag-imap/src/fetch_responses.rs:206-245 | by position among the responses: received if and only if this very message's responses carry header and body of every path, each part the first such header and body of its own path; gone if and only if an OK brought no response of it |
| `TextPlan.TextReader.FetchText` | crates/mailbag-imap/src/reader.rs:418-479 | one command for each shape of request; on success each request is reported exactly once, on failure none twice, each with what the responses to the one command of its shape told of its own message |
| `TextPlan.OnePart` | crates/mailbag-providers/src/imap_texts.rs:248-253 | a message of one part has no text and page at once, so its one body is never taken for a page |
| `TextPlan.MessageReading.constructor` | crates/mailbag-providers/src/imap_texts.rs:112-169 | what is planned for each structure and age |
| `TextPlan.WantedIsFor` | crates/mailbag-providers/src/imap_texts.rs:112-182 | a message is asked for if and only if it has a text or a page; a recent one whole, its page last; another for the first 64 KiB of its page and then its first text |
| `TextPlan.MessageReading.Receive` | crates/mailbag-providers/src/imap_texts.rs:186-204 | there is always a part to take: the last one is the page, the others the plain parts in order |
| `TextPlan.FirstWordsAre` | crates/mailbag-providers/src/imap_texts.rs:209-229 | the preview is the first source with words |
| `TextPlan.TextIs` | crates/mailbag-imap/src/fetch_responses.rs:206-245 | the same of the sections a message's plan asked for |
| `TextReading.ReadContents` | crates/mailbag-providers/src/imap_texts.rs:42-85 | for every answer, each message shows what the one command that asked for it brought: left out exactly when an OK gave it nothing, its text from the plain sections in order, its preview from the page after them |
| `Utf7.DecodeUtf16Group` | crates/mailbag-imap/src/utf7.rs:34-60 | the regrouping loop decodes a group, its accumulator always below two to its bit count and within 32 bits |
| `Utf7.GroupTextIsItsEncoding` | crates/mailbag-imap/src/utf7.rs:34-60 | a group is read as a text if and only if it is that text's encoding, fewer than six zero bits filling its last letter |
| `Utf7.DecodeGroups` | crates/mailbag-imap/src/utf7.rs:15-31 | the loop over the groups decodes the whole name or none of it |
| `Utf7.Decode` | crates/mailbag-imap/src/utf7.rs:11-13 | a name that is not valid stays as sent |
| `Utf7.WrittenDecodes` | crates/mailbag-imap/src/utf7.rs:15-31 | every way of writing a name in plain, escaped and shifted pieces decodes to what the pieces mean |
| `Utf7.DecodedIsWritten` | crates/mailbag-imap/src/utf7.rs:15-31 | and nothing else decodes |
| `Utf7.EncodedDecodes` | crates/mailbag-imap/src/utf7.rs:11-60 | every Unicode name comes back from its encoding by section 5.1.3 of RFC 3501 |
| `Utf7.FromToUtf16` | crates/mailbag-imap/src/utf7.rs:59 | UTF-16 round trip |
| `Utf7.ToFromUtf16` | crates/mailbag-imap/src/utf7.rs:59 | and back: code units that decode are the text's own |
| `Flowed.UnflowLines` | crates/mailbag-content/src/lib.rs:322-349 | the joining loop builds the lines as they are shown |
| `Flowed.UnflowText` | crates/mailbag-content/src/lib.rs:322-349 | the whole text's lines joined |
| `Flowed.ShownReadsBack` | crates/mailbag-content/src/lib.rs:322-349 | a quoted line as shown reads back as that line |
| `Flowed.NothingIsLost` | crates/mailbag-content/src/lib.rs:322-349 | for every input, every kept character stays in order at its quoting depth; without DelSp every received character is kept |
| `Flowed.FlowedComesBack` | crates/mailbag-content/src/lib.rs:322-356 | for every choice of soft breaks, space-stuffing and line ends legal under section 4.2 of RFC 3676, each paragraph comes back as one line at its depth and each separator alone |
| `MimeWalk.ProjectNumbers` | crates/mailbag-imap/src/part_tree.rs:27-54 | every child's section is its parent's and its place |
| `MimeWalk.TreeOfMessage` | crates/mailbag-imap/src/part_tree.rs:27-54 | the tree is the structure the server described, a message of one part section 1 |
| `MimeWalk.FileNameForms` | crates/mailbag-content/src/lib.rs:192-204 | a parameter counts as a file name if and only if it has one of RFC 2231's forms |
| `MimeWalk.Walk.Visit` | crates/mailbag-content/src/lib.rs:126-187 | the walk adds exactly the part's texts, page and explanation to what it found before |
| `MimeWalk.SelectTextParts` | crates/mailbag-content/src/lib.rs:77-100 | the sections, or why there are none |
| `MimeWalkLaws.SectionsAreTheTexts` | crates/mailbag-content/src/lib.rs:126-231 | the sections are exactly the unattached plain texts the rules reach: last alternative with text, signed first child, named related root, nothing in attachments or encrypted sets |
| `MimeWalkLaws.SectionsIncrease` | crates/mailbag-content/src/lib.rs:126-187 | they increase lexicographically |
| `MimeWalkLaws.SelectionOfMessage` | crates/mailbag-imap/src/part_tree.rs:27-54 | for every message: exactly the texts, in reading order, none twice |
| `MimeWalkLaws.PageIsTheFirst` | crates/mailbag-content/src/preview.rs:35-59 | the preview's page is the first one reached that is not an attached file; there is a page if and only if any is reached |
| `MimeWalkLaws.NoTextIsExplained` | crates/mailbag-content/src/lib.rs:77-187 | a message without a text is explained by the first encrypted or S/MIME part reached |
| `MimeWalkLaws.RelatedRootIs` | crates/mailbag-content/src/lib.rs:206-231 | the root of a related set is the first child whose Content-ID the first `start` parameter names, with or without angle brackets, else the first child |
| `Preview.NormaliseWords` | crates/mailbag-content/src/preview.rs:148-173 | the loop, stopping at its limit, gives the cut of all the words |
| `Preview.NextCharacter` | crates/mailbag-content/src/preview.rs:148-173 | every visible character is kept in order, after one space exactly when a blank lies between it and the one before |
| `Preview.PreviewIsClean` | crates/mailbag-content/src/preview.rs:148-197 | at most 400 characters, single inner spaces, no blank edges, nothing invisible; cut only when the words are longer, and then by no more than a space |
| `Preview.PreviewIsStable` | crates/mailbag-content/src/preview.rs:148-173 | idempotent |
| `Preview.PreviewGrows` | crates/mailbag-content/src/preview.rs:148-173 | the preview of a text's beginning begins the text's preview |
| `Preview.CleanCut` | crates/mailbag-content/src/preview.rs:97-116 | the longest beginning of a base64 piece whose characters form whole groups, which the decoder's check accepts |
| `ListDiff.UpdateListByDifference` | crates/mailbag/src/mail_ui.rs:717-773 | the list shows exactly the rows with their flags, every message listed unchanged keeps its own object, the closed rows are returned |
| `ListDiff.ReplaceMiddle` | crates/mailbag/src/mail_ui.rs:722-760 | the splice count taken from the map's size replaces exactly the middle |
| `ListDiff.StretchKeepsObject` | crates/mailbag/src/mail_ui.rs:722-760 | a message listed before and after is in the same stretch of the scan |
| `ListDiff.CloseLeavingRows` | crates/mailbag/src/mail_ui.rs:777-794 | closes exactly the shown rows whose message is no longer listed as it is |
| `ShownRows.ShownMailbox.FinishRead` | crates/mailbag/src/window_ui.rs:1020-1035 | only the latest read's answer is kept |
| `ShownRows.Window.SelectionChanges` | crates/mailbag/src/window_ui.rs:435-442 | the selected mailbox is held or being read, and one already held is not read again |
| `ShownRows.Window.StoreChanges` | crates/mailbag/src/window_ui.rs:448-455 | a change of the shown account is followed by a read; during a read only one more is marked |
| `ShownRows.Window.ReadShownMailboxAgain` | crates/mailbag/src/window_ui.rs:559-575 | at most one follow-up is queued, and the rows on screen stay meanwhile |
| `ShownRows.Window.Answers` | crates/mailbag/src/window_ui.rs:579-608 | late answers change nothing; the latest one's rows are shown; when no read runs they come from a read started after the account's last change |
| `Observer.AccountObserver.RequestRead` | crates/goa-adapter/src/client.rs:144-160 | at most one read in flight; a burst during a read marks one more |
| `Observer.AccountObserver.RefreshAccounts` | crates/goa-adapter/src/client.rs:97-106 | a retry stays pending and is covered, also when a callback makes it |
| `Observer.AccountObserver.PublishUpdate` | crates/goa-adapter/src/client.rs:274-277 | what is published, with callbacks that retry or stop |
| `Observer.AccountObserver.FinishRead` | crates/goa-adapter/src/client.rs:239-270 | the retry ends only with a read started after the last one; a marked request starts exactly one more read |
| `Observer.AccountObserver.ReadAnswers` | crates/goa-adapter/src/client.rs:195-210 | the accounts read are published as complete, those known before as failed; a retry stays pending and one more read starts exactly when a request came since the read started; after a stop nothing is published and no read starts |
| `Observer.AccountObserver.ConnectionAnswers` | crates/goa-adapter/src/client.rs:162-185 | a connection goes on with the read; without one the accounts known before are published as failed |

## Left out

- A folder's parent and role, which a folder list replaces like its name.
- Row numbers and the order of the listed rows: the store's row ids only order the list.
- SQLite itself, opening and discarding store files, the schema's text: each operation is one atomic step.
- `ImapCycleLaws.SynchronizedFolderIsTheServer`: speaks of identities and flags; rows' fields and texts are what the fetch brought, not compared with the server.
- `CycleSending.SendThroughCycle`: the rows its fetches bring are inputs; what they may be is `ImapCycle`'s `RowsAnswer`.
- `ImapWishes.PendingIsTheLatestWish`: speaks of a message while the folder holds it; what another folder's cycle may end is `ImapCycle`'s `LeavesFolder`.
- `GraphCycleLaws.CompletedCycleAgrees`: follows which messages the folder holds; read states and stars of a Microsoft 365 folder are stored as told and not followed over time.
- `RowLadder.Reader.FetchRowsByUid`: server alerts, log lines and the renumbering check of a reconnection, which ends the read like any failed one.
- `Observer.AccountObserver.ReadAnswers`: an answer is taken for the one read in flight, as in the code; cancelling it on the bus is not modelled.
- The IMAP cycle's outer sequence of awaits is the state machine `ImapCycle`; as a method it is `CycleSending.SendThroughCycle`, whose server knows flags only.
- Other folders' cycles act on an IMAP folder only through flags the server held and through the account's messages.
- Sockets, TLS, sign-in, D-Bus and HTTP requests, logging and counters.
- mail-parser, imap-proto, charset decoding, `html_to_text` and the JSON readers: their results are inputs.
- Widgets, animations, focus, timers, date wording and failure texts; `shown_rows`, `next_after_leaving` and the banner choice.
- The 30-day limit and Graph's dates, which only choose which texts are fetched.
