/** The sending step of an IMAP cycle: the folder's pending changes go to the
    server, one command per flag, value and hundred messages, each confirmed by
    the flags read right after it. */
module Sending {
  import opened Domain
  import opened Sequences
  import opened ImapServer
  import opened StoreTables
  import opened StoreLaws
  import opened StoreRuns
  import opened StoreClass
  import opened ImapPass
  import opened ImapCycle

  const UIDS_PER_COMMAND: nat := 100

  datatype Command = Command(flag: Flag, wanted: bool, messages: seq<ListedMessage>)

  /** A wish to send: its message is listed, and this cycle did not send that very value last. */
  predicate ToSend(change: PendingChange, listed: map<string, ListedMessage>, sent: SentChanges) {
    && change.identity in listed
    && !((change.identity, change.flag) in sent && sent[(change.identity, change.flag)] == change.wanted)
  }

  /** The messages of the wishes for one flag and value, in the order read. */
  function Group(pending: seq<PendingChange>, listed: map<string, ListedMessage>, sent: SentChanges,
                 flag: Flag, wanted: bool): seq<ListedMessage>
  {
    if pending == [] then []
    else
      var last := pending[|pending| - 1];
      Group(pending[..|pending| - 1], listed, sent, flag, wanted)
      + if last.flag == flag && last.wanted == wanted && ToSend(last, listed, sent) then [listed[last.identity]] else []
  }

  // ----- sorting and cutting

  function InsertByUid(messages: seq<ListedMessage>, m: ListedMessage): seq<ListedMessage> {
    if messages == [] || messages[|messages| - 1].uid <= m.uid then messages + [m]
    else InsertByUid(messages[..|messages| - 1], m) + [messages[|messages| - 1]]
  }

  function SortedByUid(messages: seq<ListedMessage>): seq<ListedMessage> {
    if messages == [] then [] else InsertByUid(SortedByUid(messages[..|messages| - 1]), messages[|messages| - 1])
  }

  function Chunks(messages: seq<ListedMessage>): seq<seq<ListedMessage>> {
    if messages == [] then []
    else if |messages| <= UIDS_PER_COMMAND then [messages]
    else [messages[..UIDS_PER_COMMAND]] + Chunks(messages[UIDS_PER_COMMAND..])
  }

  function CommandsOf(flag: Flag, wanted: bool, chunks: seq<seq<ListedMessage>>): seq<Command> {
    seq(|chunks|, j requires 0 <= j < |chunks| => Command(flag, wanted, chunks[j]))
  }

  function GroupCommands(pending: seq<PendingChange>, listed: map<string, ListedMessage>, sent: SentChanges,
                         flag: Flag, wanted: bool): seq<Command>
  {
    CommandsOf(flag, wanted, Chunks(SortedByUid(Group(pending, listed, sent, flag, wanted))))
  }

  /** All commands of a sending step, in the order of their flags and values. */
  function PlannedCommands(pending: seq<PendingChange>, listed: map<string, ListedMessage>, sent: SentChanges): seq<Command> {
    GroupCommands(pending, listed, sent, Seen, false) + GroupCommands(pending, listed, sent, Seen, true)
    + GroupCommands(pending, listed, sent, Flagged, false) + GroupCommands(pending, listed, sent, Flagged, true)
  }

  /** The messages grouped under each flag and value. */
  type Groups = map<(Flag, bool), seq<ListedMessage>>

  function GroupAt(groups: Groups, flag: Flag, wanted: bool): seq<ListedMessage> {
    if (flag, wanted) in groups then groups[(flag, wanted)] else []
  }

  ghost predicate GroupsAre(groups: Groups, pending: seq<PendingChange>, listed: map<string, ListedMessage>, sent: SentChanges) {
    forall flag, wanted :: GroupAt(groups, flag, wanted) == Group(pending, listed, sent, flag, wanted)
  }

  function WithChange(groups: Groups, change: PendingChange, listed: map<string, ListedMessage>, sent: SentChanges): Groups {
    if ToSend(change, listed, sent)
    then groups[(change.flag, change.wanted) := GroupAt(groups, change.flag, change.wanted) + [listed[change.identity]]]
    else groups
  }

  lemma GroupsGrow(groups: Groups, pending: seq<PendingChange>, change: PendingChange,
                   listed: map<string, ListedMessage>, sent: SentChanges)
    requires GroupsAre(groups, pending, listed, sent)
    ensures GroupsAre(WithChange(groups, change, listed, sent), pending + [change], listed, sent)
  {
    hide Group, WithChange, ToSend, GroupAt;
    forall flag, wanted
      ensures GroupAt(WithChange(groups, change, listed, sent), flag, wanted) == Group(pending + [change], listed, sent, flag, wanted)
    {
      assert GroupAt(groups, flag, wanted) == Group(pending, listed, sent, flag, wanted);
      OneGroupGrows(groups, pending, change, listed, sent, flag, wanted);
    }
  }

  lemma OneGroupGrows(groups: Groups, pending: seq<PendingChange>, change: PendingChange,
                      listed: map<string, ListedMessage>, sent: SentChanges, flag: Flag, wanted: bool)
    requires GroupAt(groups, flag, wanted) == Group(pending, listed, sent, flag, wanted)
    ensures GroupAt(WithChange(groups, change, listed, sent), flag, wanted) == Group(pending + [change], listed, sent, flag, wanted)
  {
    assert (pending + [change])[..|pending|] == pending;
  }

  method GroupPending(pending: seq<PendingChange>, listed: map<string, ListedMessage>, sent: SentChanges)
    returns (groups: Groups)
    ensures GroupsAre(groups, pending, listed, sent)
  {
    groups := map[];
    for i := 0 to |pending|
      invariant GroupsAre(groups, pending[..i], listed, sent)
    {
      var change := pending[i];
      GroupsGrow(groups, pending[..i], change, listed, sent);
      assert pending[..i + 1] == pending[..i] + [change];
      if change.identity in listed {
        if !((change.identity, change.flag) in sent && sent[(change.identity, change.flag)] == change.wanted) {
          var earlier := GroupAt(groups, change.flag, change.wanted);
          groups := groups[(change.flag, change.wanted) := earlier + [listed[change.identity]]];
        }
      }
    }
    assert pending[..|pending|] == pending;
  }

  /** The commands of a sending step: the groups in the order of their flags and
      values, each sorted by UID and cut. */
  method PlanCommands(pending: seq<PendingChange>, listed: map<string, ListedMessage>, sent: SentChanges)
    returns (commands: seq<Command>)
    ensures commands == PlannedCommands(pending, listed, sent)
  {
    var groups := GroupPending(pending, listed, sent);
    commands := CommandsOf(Seen, false, Chunks(SortedByUid(GroupAt(groups, Seen, false))))
      + CommandsOf(Seen, true, Chunks(SortedByUid(GroupAt(groups, Seen, true))))
      + CommandsOf(Flagged, false, Chunks(SortedByUid(GroupAt(groups, Flagged, false))))
      + CommandsOf(Flagged, true, Chunks(SortedByUid(GroupAt(groups, Flagged, true))));
  }

  // ----- every wish is in exactly one command

  /** The wishes a command delivers, and those of several commands in their order. */
  function Entries(flag: Flag, wanted: bool, messages: seq<ListedMessage>): seq<PendingChange> {
    seq(|messages|, j requires 0 <= j < |messages| => PendingChange(messages[j].identity, flag, wanted))
  }

  function LogOf(commands: seq<Command>): seq<PendingChange> {
    if commands == [] then []
    else
      var last := commands[|commands| - 1];
      LogOf(commands[..|commands| - 1]) + Entries(last.flag, last.wanted, last.messages)
  }

  /** The wishes a sending step has to send, in the order read. */
  function Unsent(pending: seq<PendingChange>, listed: map<string, ListedMessage>, sent: SentChanges): seq<PendingChange> {
    if pending == [] then []
    else
      var last := pending[|pending| - 1];
      Unsent(pending[..|pending| - 1], listed, sent) + if ToSend(last, listed, sent) then [last] else []
  }

  /** The listing by identity; its UIDs are distinct. */
  ghost predicate WellListed(listed: map<string, ListedMessage>) {
    && (forall i :: i in listed ==> listed[i].identity == i)
    && (forall i, j :: i in listed && j in listed && listed[i].uid == listed[j].uid ==> i == j)
  }

  lemma EntriesSum(flag: Flag, wanted: bool, a: seq<ListedMessage>, b: seq<ListedMessage>)
    ensures Entries(flag, wanted, a + b) == Entries(flag, wanted, a) + Entries(flag, wanted, b)
  {
  }

  lemma {:induction false} InsertKeepsEntries(flag: Flag, wanted: bool, messages: seq<ListedMessage>, m: ListedMessage)
    ensures multiset(Entries(flag, wanted, InsertByUid(messages, m)))
         == multiset(Entries(flag, wanted, messages)) + multiset(Entries(flag, wanted, [m]))
  {
    if messages == [] || messages[|messages| - 1].uid <= m.uid {
      EntriesSum(flag, wanted, messages, [m]);
    } else {
      var n := |messages| - 1;
      InsertKeepsEntries(flag, wanted, messages[..n], m);
      EntriesSum(flag, wanted, messages[..n], [messages[n]]);
      EntriesSum(flag, wanted, InsertByUid(messages[..n], m), [messages[n]]);
      assert messages == messages[..n] + [messages[n]];
    }
  }

  lemma {:induction false} InsertKeepsSorted(messages: seq<ListedMessage>, m: ListedMessage)
    requires Sorted(messages)
    ensures Sorted(InsertByUid(messages, m))
    ensures forall e :: e in InsertByUid(messages, m) ==> e == m || e in messages
  {
    if messages != [] && m.uid < messages[|messages| - 1].uid {
      var n := |messages| - 1;
      InsertKeepsSorted(messages[..n], m);
      forall e | e in InsertByUid(messages[..n], m)
        ensures e.uid <= messages[n].uid
      {
      }
    }
  }

  predicate Sorted(messages: seq<ListedMessage>) {
    forall i, j :: 0 <= i < j < |messages| ==> messages[i].uid <= messages[j].uid
  }

  lemma {:induction false} SortingKeeps(flag: Flag, wanted: bool, messages: seq<ListedMessage>)
    ensures Sorted(SortedByUid(messages))
    ensures multiset(Entries(flag, wanted, SortedByUid(messages))) == multiset(Entries(flag, wanted, messages))
  {
    if messages != [] {
      var n := |messages| - 1;
      SortingKeeps(flag, wanted, messages[..n]);
      InsertKeepsSorted(SortedByUid(messages[..n]), messages[n]);
      InsertKeepsEntries(flag, wanted, SortedByUid(messages[..n]), messages[n]);
      EntriesSum(flag, wanted, messages[..n], [messages[n]]);
      assert messages == messages[..n] + [messages[n]];
    }
  }

  lemma LogOfLast(commands: seq<Command>, last: Command)
    ensures LogOf(commands + [last]) == LogOf(commands) + Entries(last.flag, last.wanted, last.messages)
  {
    assert (commands + [last])[..|commands|] == commands;
  }

  lemma {:induction false} LogOfSum(a: seq<Command>, b: seq<Command>)
    ensures LogOf(a + b) == LogOf(a) + LogOf(b)
  {
    hide Entries;
    if b == [] {
      assert a + b == a;
    } else {
      var n := |b| - 1;
      LogOfSum(a, b[..n]);
      assert b == b[..n] + [b[n]];
      OneMoreLogged(a, b[..n], b[n]);
    }
  }

  lemma OneMoreLogged(a: seq<Command>, b: seq<Command>, c: Command)
    requires LogOf(a + b) == LogOf(a) + LogOf(b)
    ensures LogOf(a + (b + [c])) == LogOf(a) + LogOf(b + [c])
  {
    hide *;
    LogOfLast(b, c);
    LogOfLast(a + b, c);
    Associates(a, b, [c]);
    Associates(LogOf(a), LogOf(b), Entries(c.flag, c.wanted, c.messages));
  }

  lemma OneCommandLog(flag: Flag, wanted: bool, messages: seq<ListedMessage>)
    ensures LogOf([Command(flag, wanted, messages)]) == Entries(flag, wanted, messages)
  {
    var one := [Command(flag, wanted, messages)];
    assert one[..0] == [];
    assert LogOf(one) == LogOf(one[..0]) + Entries(flag, wanted, messages);
  }

  /** No command is empty or too long, and each keeps the order. */
  lemma {:induction false} ChunkSizes(messages: seq<ListedMessage>)
    requires Sorted(messages)
    ensures forall chunk :: chunk in Chunks(messages) ==> 1 <= |chunk| <= UIDS_PER_COMMAND && Sorted(chunk)
  {
    if |messages| > UIDS_PER_COMMAND {
      ChunkSizes(messages[UIDS_PER_COMMAND..]);
    }
  }

  /** Cutting loses nothing. */
  lemma {:induction false} CuttingKeeps(flag: Flag, wanted: bool, messages: seq<ListedMessage>)
    ensures LogOf(CommandsOf(flag, wanted, Chunks(messages))) == Entries(flag, wanted, messages)
  {
    if messages == [] {
    } else if |messages| <= UIDS_PER_COMMAND {
      assert CommandsOf(flag, wanted, [messages]) == [Command(flag, wanted, messages)];
      OneCommandLog(flag, wanted, messages);
    } else {
      var head, tail := messages[..UIDS_PER_COMMAND], messages[UIDS_PER_COMMAND..];
      CuttingKeeps(flag, wanted, tail);
      assert CommandsOf(flag, wanted, [head] + Chunks(tail))
          == [Command(flag, wanted, head)] + CommandsOf(flag, wanted, Chunks(tail));
      LogOfSum([Command(flag, wanted, head)], CommandsOf(flag, wanted, Chunks(tail)));
      OneCommandLog(flag, wanted, head);
      assert messages == head + tail;
      EntriesSum(flag, wanted, head, tail);
    }
  }

  /** Of two commands one after the other for one flag and value, the first is full and
      its messages come before those of the second. */
  ghost predicate FillsFirst(commands: seq<Command>) {
    forall i :: 0 < i < |commands| ==> FullBefore(commands[i - 1], commands[i])
  }

  predicate FullBefore(c: Command, d: Command) {
    c.flag == d.flag && c.wanted == d.wanted ==> |c.messages| == 100 && Sorted(c.messages + d.messages)
  }

  lemma {:induction false} ChunksAreFull(flag: Flag, wanted: bool, messages: seq<ListedMessage>)
    requires Sorted(messages)
    ensures FillsFirst(CommandsOf(flag, wanted, Chunks(messages)))
    ensures Chunks(messages) != [] ==> Chunks(messages)[0] == messages[..if |messages| <= 100 then |messages| else 100]
  {
    if |messages| > UIDS_PER_COMMAND {
      var head, tail := messages[..UIDS_PER_COMMAND], messages[UIDS_PER_COMMAND..];
      ChunksAreFull(flag, wanted, tail);
      var commands, later := CommandsOf(flag, wanted, Chunks(messages)), CommandsOf(flag, wanted, Chunks(tail));
      assert commands == [Command(flag, wanted, head)] + later;
      assert head + Chunks(tail)[0] == messages[..|head| + |Chunks(tail)[0]|];
      forall i | 0 < i < |commands|
        ensures FullBefore(commands[i - 1], commands[i])
      {
        if i > 1 {
          assert FullBefore(later[i - 2], later[i - 1]);
        }
      }
    }
  }

  lemma OfOneGroup(flag: Flag, wanted: bool, chunks: seq<seq<ListedMessage>>)
    ensures forall c :: c in CommandsOf(flag, wanted, chunks) ==> c.flag == flag && c.wanted == wanted
  {
  }

  lemma FillsSum(a: seq<Command>, b: seq<Command>)
    requires FillsFirst(a) && FillsFirst(b)
    requires forall c, d :: c in a && d in b ==> c.flag != d.flag || c.wanted != d.wanted
    ensures FillsFirst(a + b)
  {
    forall i | 0 < i < |a + b|
      ensures FullBefore((a + b)[i - 1], (a + b)[i])
    {
      if i < |a| {
        assert FullBefore(a[i - 1], a[i]);
      } else if i > |a| {
        assert FullBefore(b[i - 1 - |a|], b[i - |a|]);
      } else {
        assert a[i - 1] in a && b[0] in b;
      }
    }
  }

  /** No command is sent before the one before it for the same flag and value is full. */
  lemma CommandsAreFull(pending: seq<PendingChange>, listed: map<string, ListedMessage>, sent: SentChanges)
    ensures FillsFirst(PlannedCommands(pending, listed, sent))
  {
    GroupFills(pending, listed, sent, Seen, false);
    GroupFills(pending, listed, sent, Seen, true);
    GroupFills(pending, listed, sent, Flagged, false);
    GroupFills(pending, listed, sent, Flagged, true);
    hide FillsFirst, GroupCommands;
    var a, b := GroupCommands(pending, listed, sent, Seen, false), GroupCommands(pending, listed, sent, Seen, true);
    var c, d := GroupCommands(pending, listed, sent, Flagged, false), GroupCommands(pending, listed, sent, Flagged, true);
    FillsSum(a, b);
    FillsSum(a + b, c);
    FillsSum(a + b + c, d);
  }

  lemma GroupFills(pending: seq<PendingChange>, listed: map<string, ListedMessage>, sent: SentChanges, flag: Flag, wanted: bool)
    ensures FillsFirst(GroupCommands(pending, listed, sent, flag, wanted))
    ensures forall c :: c in GroupCommands(pending, listed, sent, flag, wanted) ==> c.flag == flag && c.wanted == wanted
  {
    var messages := Group(pending, listed, sent, flag, wanted);
    SortingKeeps(flag, wanted, messages);
    ChunksAreFull(flag, wanted, SortedByUid(messages));
    OfOneGroup(flag, wanted, Chunks(SortedByUid(messages)));
  }

  lemma GroupLog(pending: seq<PendingChange>, listed: map<string, ListedMessage>, sent: SentChanges, flag: Flag, wanted: bool)
    ensures multiset(LogOf(GroupCommands(pending, listed, sent, flag, wanted)))
         == multiset(Entries(flag, wanted, Group(pending, listed, sent, flag, wanted)))
    ensures forall c :: c in GroupCommands(pending, listed, sent, flag, wanted) ==>
              1 <= |c.messages| <= UIDS_PER_COMMAND && Sorted(c.messages)
  {
    var messages := Group(pending, listed, sent, flag, wanted);
    SortingKeeps(flag, wanted, messages);
    CuttingKeeps(flag, wanted, SortedByUid(messages));
    ChunkSizes(SortedByUid(messages));
  }

  /** The entries of all four groups, as read. */
  function GroupedEntries(pending: seq<PendingChange>, listed: map<string, ListedMessage>, sent: SentChanges): multiset<PendingChange> {
    multiset(Entries(Seen, false, Group(pending, listed, sent, Seen, false)))
    + multiset(Entries(Seen, true, Group(pending, listed, sent, Seen, true)))
    + multiset(Entries(Flagged, false, Group(pending, listed, sent, Flagged, false)))
    + multiset(Entries(Flagged, true, Group(pending, listed, sent, Flagged, true)))
  }

  lemma GroupGrows(pending: seq<PendingChange>, listed: map<string, ListedMessage>, sent: SentChanges, flag: Flag, wanted: bool)
    requires WellListed(listed) && pending != []
    ensures
      var n := |pending| - 1;
      var last := pending[n];
      multiset(Entries(flag, wanted, Group(pending, listed, sent, flag, wanted)))
      == multiset(Entries(flag, wanted, Group(pending[..n], listed, sent, flag, wanted)))
         + if last.flag == flag && last.wanted == wanted && ToSend(last, listed, sent) then multiset{last} else multiset{}
  {
    var n := |pending| - 1;
    var last, earlier := pending[n], Group(pending[..n], listed, sent, flag, wanted);
    if last.flag == flag && last.wanted == wanted && ToSend(last, listed, sent) {
      EntriesSum(flag, wanted, earlier, [listed[last.identity]]);
      assert Entries(flag, wanted, [listed[last.identity]]) == [last];
    } else {
      assert Group(pending, listed, sent, flag, wanted) == earlier;
    }
  }

  lemma UnsentGrows(pending: seq<PendingChange>, listed: map<string, ListedMessage>, sent: SentChanges)
    requires pending != []
    ensures
      var n := |pending| - 1;
      multiset(Unsent(pending, listed, sent)) == multiset(Unsent(pending[..n], listed, sent))
        + if ToSend(pending[n], listed, sent) then multiset{pending[n]} else multiset{}
  {
  }

  lemma {:induction false} GroupsAreUnsent(pending: seq<PendingChange>, listed: map<string, ListedMessage>, sent: SentChanges)
    requires WellListed(listed)
    ensures GroupedEntries(pending, listed, sent) == multiset(Unsent(pending, listed, sent))
  {
    if pending != [] {
      GroupsAreUnsent(pending[..|pending| - 1], listed, sent);
      UnsentGrows(pending, listed, sent);
      GroupGrows(pending, listed, sent, Seen, false);
      GroupGrows(pending, listed, sent, Seen, true);
      GroupGrows(pending, listed, sent, Flagged, false);
      GroupGrows(pending, listed, sent, Flagged, true);
    }
  }

  /** Each unsent wish on a listed message is in exactly one command, of its flag
      and value, and the commands hold nothing else; each has between one and a
      hundred messages in ascending UID order. */
  lemma EachWishInOneCommand(pending: seq<PendingChange>, listed: map<string, ListedMessage>, sent: SentChanges)
    requires WellListed(listed)
    ensures multiset(LogOf(PlannedCommands(pending, listed, sent))) == multiset(Unsent(pending, listed, sent))
    ensures forall c :: c in PlannedCommands(pending, listed, sent) ==>
              1 <= |c.messages| <= 100 && Sorted(c.messages)
  {
    var a, b := GroupCommands(pending, listed, sent, Seen, false), GroupCommands(pending, listed, sent, Seen, true);
    var c, d := GroupCommands(pending, listed, sent, Flagged, false), GroupCommands(pending, listed, sent, Flagged, true);
    GroupLog(pending, listed, sent, Seen, false);
    GroupLog(pending, listed, sent, Seen, true);
    GroupLog(pending, listed, sent, Flagged, false);
    GroupLog(pending, listed, sent, Flagged, true);
    GroupsAreUnsent(pending, listed, sent);
    LogOfSum(a, b);
    LogOfSum(a + b, c);
    LogOfSum(a + b + c, d);
  }

  // ----- nothing is sent twice in a row

  /** The value sent last for a message's flag. */
  function LastSent(log: seq<PendingChange>, identity: string, flag: Flag): Option<bool> {
    if log == [] then None
    else
      var last := log[|log| - 1];
      if last.identity == identity && last.flag == flag then Some(last.wanted)
      else LastSent(log[..|log| - 1], identity, flag)
  }

  /** No entry of the log repeats the value sent before it for the same flag of
      the same message. */
  predicate NeverTwice(log: seq<PendingChange>) {
    log == []
    || var last := log[|log| - 1];
       && NeverTwice(log[..|log| - 1])
       && LastSent(log[..|log| - 1], last.identity, last.flag) != Some(last.wanted)
  }

  /** `sent` holds the value sent last for each message's flag. */
  ghost predicate Tracks(sent: SentChanges, log: seq<PendingChange>) {
    forall identity, flag ::
      LastSent(log, identity, flag) == if (identity, flag) in sent then Some(sent[(identity, flag)]) else None
  }

  /** One wish for each flag of a message. */
  ghost predicate Distinct(pending: seq<PendingChange>) {
    forall i, j :: 0 <= i < j < |pending| ==> !SameKey(pending[i], pending[j])
  }

  predicate SameKey(a: PendingChange, b: PendingChange) {
    a.identity == b.identity && a.flag == b.flag
  }

  lemma {:induction false} LastSentAfter(log: seq<PendingChange>, more: seq<PendingChange>, identity: string, flag: Flag)
    ensures LastSent(log + more, identity, flag) ==
            if LastSent(more, identity, flag).Some? then LastSent(more, identity, flag) else LastSent(log, identity, flag)
    ensures LastSent(more, identity, flag).Some? <==> exists e :: e in more && e.identity == identity && e.flag == flag
  {
    if more == [] {
      assert log + more == log;
    } else {
      var n := |more| - 1;
      LastSentAfter(log, more[..n], identity, flag);
      assert (log + more)[..|log + more| - 1] == log + more[..n];
      assert more == more[..n] + [more[n]];
    }
  }

  lemma {:induction false} NewValuesNeverTwice(log: seq<PendingChange>, more: seq<PendingChange>)
    requires NeverTwice(log) && Distinct(more)
    requires forall e :: e in more ==> LastSent(log, e.identity, e.flag) != Some(e.wanted)
    ensures NeverTwice(log + more)
  {
    if more == [] {
      assert log + more == log;
    } else {
      var n := |more| - 1;
      NewValuesNeverTwice(log, more[..n]);
      assert (log + more)[..|log + more| - 1] == log + more[..n];
      LastSentAfter(log, more[..n], more[n].identity, more[n].flag);
    }
  }

  lemma {:induction false} OnceInDistinct(pending: seq<PendingChange>, e: PendingChange)
    requires Distinct(pending)
    ensures multiset(pending)[e] <= 1
  {
    if pending != [] {
      var n := |pending| - 1;
      OnceInDistinct(pending[..n], e);
      assert pending == pending[..n] + [pending[n]];
      if pending[n] == e {
        assert e !in pending[..n];
      }
    }
  }

  lemma OneOfAKey(pending: seq<PendingChange>, a: PendingChange, b: PendingChange)
    requires Distinct(pending) && a in pending && b in pending && SameKey(a, b)
    ensures a == b
  {
  }

  lemma SameEntriesDistinct(log: seq<PendingChange>, pending: seq<PendingChange>)
    requires multiset(log) == multiset(pending) && Distinct(pending)
    ensures Distinct(log)
  {
    forall i, j | 0 <= i < j < |log|
      ensures !SameKey(log[i], log[j])
    {
      assert log[i] in multiset(log) && log[j] in multiset(log);
      OnceInDistinct(pending, log[i]);
      if SameKey(log[i], log[j]) {
        OneOfAKey(pending, log[i], log[j]);
        TwoPlacesCountTwice(log, i, j);
      }
    }
  }

  lemma {:induction false} UnsentIsPending(pending: seq<PendingChange>, listed: map<string, ListedMessage>, sent: SentChanges)
    requires Distinct(pending)
    ensures Distinct(Unsent(pending, listed, sent))
    ensures forall e :: e in Unsent(pending, listed, sent) <==> e in pending && ToSend(e, listed, sent)
  {
    if pending != [] {
      var n := |pending| - 1;
      UnsentIsPending(pending[..n], listed, sent);
      assert pending == pending[..n] + [pending[n]];
      forall e | e in pending[..n]
        ensures !SameKey(e, pending[n])
      {
      }
    }
  }

  /** What a sending step may send: each of its wishes once, and each new. */
  lemma PlanIsDistinct(pending: seq<PendingChange>, listed: map<string, ListedMessage>, sent: SentChanges)
    requires WellListed(listed) && Distinct(pending)
    ensures Distinct(LogOf(PlannedCommands(pending, listed, sent)))
    ensures forall e :: e in LogOf(PlannedCommands(pending, listed, sent)) <==> e in pending && ToSend(e, listed, sent)
  {
    EachWishInOneCommand(pending, listed, sent);
    UnsentIsPending(pending, listed, sent);
    var log := LogOf(PlannedCommands(pending, listed, sent));
    SameEntriesDistinct(log, Unsent(pending, listed, sent));
    forall e
      ensures e in log <==> e in Unsent(pending, listed, sent)
    {
      assert e in log <==> e in multiset(log);
    }
  }

  lemma {:induction false} CommandTracks(sent: SentChanges, log: seq<PendingChange>, c: Command)
    requires Tracks(sent, log)
    ensures Tracks(SentAfter(sent, c.messages, c.flag, c.wanted), log + Entries(c.flag, c.wanted, c.messages))
  {
    var more := Entries(c.flag, c.wanted, c.messages);
    forall identity, flag
      ensures LastSent(log + more, identity, flag)
           == var after := SentAfter(sent, c.messages, c.flag, c.wanted);
              if (identity, flag) in after then Some(after[(identity, flag)]) else None
    {
      LastSentAfter(log, more, identity, flag);
      AllTheSame(more, c.flag, c.wanted, identity, flag);
      if exists m :: m in c.messages && m.identity == identity && c.flag == flag {
        var m :| m in c.messages && m.identity == identity && c.flag == flag;
        var j :| 0 <= j < |c.messages| && c.messages[j] == m;
        assert more[j] in more;
      }
    }
  }

  lemma {:induction false} AllTheSame(log: seq<PendingChange>, flag: Flag, wanted: bool, identity: string, f: Flag)
    requires forall e :: e in log ==> e.flag == flag && e.wanted == wanted
    ensures LastSent(log, identity, f).Some? ==> f == flag && LastSent(log, identity, f) == Some(wanted)
  {
    if log != [] {
      AllTheSame(log[..|log| - 1], flag, wanted, identity, f);
    }
  }

  // ----- the commands' messages

  lemma {:induction false} GroupIsListed(pending: seq<PendingChange>, listed: map<string, ListedMessage>, sent: SentChanges,
                                         flag: Flag, wanted: bool)
    requires WellListed(listed)
    ensures forall m :: m in Group(pending, listed, sent, flag, wanted) ==> m.identity in listed && listed[m.identity] == m
  {
    if pending != [] {
      GroupIsListed(pending[..|pending| - 1], listed, sent, flag, wanted);
    }
  }

  lemma {:induction false} SortedHolds(messages: seq<ListedMessage>)
    ensures forall m :: m in SortedByUid(messages) ==> m in messages
  {
    if messages != [] {
      var n := |messages| - 1;
      SortedHolds(messages[..n]);
      SortingKeeps(Seen, true, messages[..n]);
      InsertKeepsSorted(SortedByUid(messages[..n]), messages[n]);
    }
  }

  lemma {:induction false} ChunksHold(messages: seq<ListedMessage>)
    ensures forall chunk, m :: chunk in Chunks(messages) && m in chunk ==> m in messages
  {
    if |messages| > UIDS_PER_COMMAND {
      ChunksHold(messages[UIDS_PER_COMMAND..]);
    }
  }

  predicate AreListed(messages: seq<ListedMessage>, listed: map<string, ListedMessage>) {
    forall m :: m in messages ==> m.identity in listed && listed[m.identity] == m
  }

  lemma GroupCommandsAreListed(pending: seq<PendingChange>, listed: map<string, ListedMessage>, sent: SentChanges,
                               flag: Flag, wanted: bool)
    requires WellListed(listed)
    ensures forall c :: c in GroupCommands(pending, listed, sent, flag, wanted) ==> AreListed(c.messages, listed)
  {
    var messages := Group(pending, listed, sent, flag, wanted);
    GroupIsListed(pending, listed, sent, flag, wanted);
    SortedHolds(messages);
    ChunksHold(SortedByUid(messages));
  }

  lemma PlannedAreListed(pending: seq<PendingChange>, listed: map<string, ListedMessage>, sent: SentChanges)
    requires WellListed(listed)
    ensures forall c :: c in PlannedCommands(pending, listed, sent) ==> AreListed(c.messages, listed)
  {
    GroupCommandsAreListed(pending, listed, sent, Seen, false);
    GroupCommandsAreListed(pending, listed, sent, Seen, true);
    GroupCommandsAreListed(pending, listed, sent, Flagged, false);
    GroupCommandsAreListed(pending, listed, sent, Flagged, true);
  }

  // ----- the first commands of a step

  lemma {:induction false} LogOfFirst(commands: seq<Command>, n: nat)
    requires n <= |commands|
    ensures LogOf(commands[..n]) <= LogOf(commands)
  {
    LogOfSum(commands[..n], commands[n..]);
    assert commands == commands[..n] + commands[n..];
  }

  lemma LogOfOneMore(commands: seq<Command>, n: nat)
    requires n < |commands|
    ensures LogOf(commands[..n + 1])
         == LogOf(commands[..n]) + Entries(commands[n].flag, commands[n].wanted, commands[n].messages)
  {
    assert commands[..n + 1][..n] == commands[..n];
  }

  /** A step's first commands send nothing a second time in a row. */
  lemma StepNeverTwice(pending: seq<PendingChange>, listed: map<string, ListedMessage>, sent: SentChanges,
                       log: seq<PendingChange>, commands: seq<Command>, n: nat)
    requires WellListed(listed) && Distinct(pending) && commands == PlannedCommands(pending, listed, sent) && n <= |commands|
    requires Tracks(sent, log) && NeverTwice(log)
    ensures Distinct(LogOf(commands[..n])) && NeverTwice(log + LogOf(commands[..n]))
  {
    PlanIsDistinct(pending, listed, sent);
    LogOfFirst(commands, n);
    var more := LogOf(commands[..n]);
    forall e | e in more
      ensures LastSent(log, e.identity, e.flag) != Some(e.wanted)
    {
      assert e in LogOf(commands);
    }
    NewValuesNeverTwice(log, more);
  }
}
