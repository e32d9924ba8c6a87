/** Reading the rows of messages from a server that may answer in pieces, refuse,
    break the parser or close the connection: rows and structures together, then
    what is missing apart, then each structure on its own. */
module RowLadder {
  import opened Domain

  datatype Structure = Structure(tree: string)

  datatype GmailRow = GmailRow(messageId: nat, labels: seq<string>)

  /** One FETCH response; each item may be there or not. */
  datatype Response = Response(
    uid: Option<nat>,
    flags: Option<Flags>,
    headers: Option<string>,
    date: Option<int>,
    gmailId: Option<nat>,
    labels: Option<seq<string>>,
    structure: Option<Structure>)

  datatype Row = Row(
    uid: nat,
    flags: Flags,
    date: Option<int>,
    headers: string,
    gmail: Option<GmailRow>,
    structure: Option<Structure>)

  datatype Reply = Reply(temporary: bool, text: string)

  /** How a command ended. A response the parser rejects fails the whole answer
      and leaves the session unusable. */
  datatype End = Completed | Rejected(reply: Reply) | Unparsed | ConnectionLost

  datatype Answer = Answer(responses: seq<Response>, end: End)

  datatype Items = RowsAndStructures | RowsOnly | StructureOnly

  /** A command that was sent, and its answer. */
  datatype Exchange = Exchange(items: Items, uids: seq<nat>, answer: Answer)

  // ----- one message among the responses

  function Own(responses: seq<Response>, u: nat): seq<Response> {
    if responses == [] then []
    else
      var last := responses[|responses| - 1];
      Own(responses[..|responses| - 1], u) + if last.uid == Some(u) then [last] else []
  }

  /** The first, and the last, value the responses have of an item. */
  function First<T>(own: seq<Response>, item: Response -> Option<T>): Option<T> {
    if own == [] then None else if item(own[0]).Some? then item(own[0]) else First(own[1..], item)
  }

  function Last<T>(own: seq<Response>, item: Response -> Option<T>): Option<T> {
    if own == [] then None
    else if item(own[|own| - 1]).Some? then item(own[|own| - 1])
    else Last(own[..|own| - 1], item)
  }

  function LastFlags(own: seq<Response>): Flags {
    Last(own, (r: Response) => r.flags).GetOr(Flags(false, false))
  }

  function LastGmailId(own: seq<Response>): Option<nat> {
    Last(own, (r: Response) => r.gmailId)
  }

  function StructureOf(own: seq<Response>): Option<Structure> {
    First(own, (r: Response) => r.structure)
  }

  /** The message's row, if its header lines came: the first of each item, the
      latest flags. */
  function RowFrom(u: nat, own: seq<Response>): Option<Row> {
    match First(own, (r: Response) => r.headers)
    case None => None
    case Some(headers) =>
      var id, labels := First(own, (r: Response) => r.gmailId), First(own, (r: Response) => r.labels);
      var gmail := if id.Some? && labels.Some? then Some(GmailRow(id.value, labels.value)) else None;
      Some(Row(u, LastFlags(own), First(own, (r: Response) => r.date), headers, gmail, StructureOf(own)))
  }

  function RowOf(responses: seq<Response>, u: nat): Option<Row> {
    RowFrom(u, Own(responses, u))
  }

  // ----- what the responses tell

  /** The response is about the message; without one, any response counts. */
  predicate About(r: Response, of: Option<nat>) {
    of.None? || r.uid == of
  }

  predicate FirstAt<T>(responses: seq<Response>, of: Option<nat>, item: Response -> Option<T>, i: int) {
    && 0 <= i < |responses| && About(responses[i], of) && item(responses[i]).Some?
    && forall j :: 0 <= j < i && About(responses[j], of) ==> item(responses[j]).None?
  }

  predicate LastAt<T>(responses: seq<Response>, of: Option<nat>, item: Response -> Option<T>, i: int) {
    && 0 <= i < |responses| && About(responses[i], of) && item(responses[i]).Some?
    && forall j :: i < j < |responses| && About(responses[j], of) ==> item(responses[j]).None?
  }

  ghost predicate NeverTold<T>(responses: seq<Response>, of: Option<nat>, item: Response -> Option<T>) {
    forall i :: 0 <= i < |responses| && About(responses[i], of) ==> item(responses[i]).None?
  }

  /** The value of an item in the first, or last, response of the message that has it. */
  ghost predicate FirstTold<T>(responses: seq<Response>, of: Option<nat>, item: Response -> Option<T>, told: Option<T>) {
    if told.None? then NeverTold(responses, of, item)
    else exists i :: FirstAt(responses, of, item, i) && item(responses[i]) == told
  }

  ghost predicate LastTold<T>(responses: seq<Response>, of: Option<nat>, item: Response -> Option<T>, told: Option<T>) {
    if told.None? then NeverTold(responses, of, item)
    else exists i :: LastAt(responses, of, item, i) && item(responses[i]) == told
  }

  /** The latest flags of the message, neither set when none came. */
  ghost predicate FlagsTold(responses: seq<Response>, u: nat, flags: Flags) {
    || LastTold(responses, Some(u), (r: Response) => r.flags, Some(flags))
    || (LastTold(responses, Some(u), (r: Response) => r.flags, None) && flags == Flags(false, false))
  }

  /** The responses bring the row, but for its structure: its header lines, its date
      and Gmail's two items are the first that came, the two only together, its flags
      the latest. */
  ghost predicate TellsRow(responses: seq<Response>, row: Row) {
    var of := Some(row.uid);
    && FirstTold(responses, of, (r: Response) => r.headers, Some(row.headers))
    && FlagsTold(responses, row.uid, row.flags)
    && FirstTold(responses, of, (r: Response) => r.date, row.date)
    && match row.gmail
       case Some(gmail) =>
         && FirstTold(responses, of, (r: Response) => r.gmailId, Some(gmail.messageId))
         && FirstTold(responses, of, (r: Response) => r.labels, Some(gmail.labels))
       case None =>
         || FirstTold(responses, of, (r: Response) => r.gmailId, None)
         || FirstTold(responses, of, (r: Response) => r.labels, None)
  }

  /** The structure the responses have first: of the message, or of any. */
  ghost predicate TellsStructure(responses: seq<Response>, of: Option<nat>, structure: Option<Structure>) {
    FirstTold(responses, of, (r: Response) => r.structure, structure)
  }

  /** Some response of the message has header lines. */
  ghost predicate HasHeaders(responses: seq<Response>, u: nat) {
    exists i :: 0 <= i < |responses| && responses[i].uid == Some(u) && responses[i].headers.Some?
  }

  lemma {:induction false} FirstOfMore<T>(own: seq<Response>, last: Response, item: Response -> Option<T>)
    ensures First(own + [last], item) == if First(own, item).Some? then First(own, item) else item(last)
  {
    if own != [] {
      assert (own + [last])[1..] == own[1..] + [last];
      FirstOfMore(own[1..], last, item);
    }
  }

  lemma LastOfMore<T>(own: seq<Response>, last: Response, item: Response -> Option<T>)
    ensures Last(own + [last], item) == if item(last).Some? then item(last) else Last(own, item)
  {
    assert (own + [last])[..|own|] == own;
  }

  lemma OneMoreFirst<T>(responses: seq<Response>, of: Option<nat>, item: Response -> Option<T>, told: Option<T>, last: Response)
    requires FirstTold(responses, of, item, told)
    ensures FirstTold(responses + [last], of, item, if told.None? && About(last, of) then item(last) else told)
  {
    var all := responses + [last];
    if told.Some? {
      var i :| FirstAt(responses, of, item, i) && item(responses[i]) == told;
      assert FirstAt(all, of, item, i);
    } else if About(last, of) && item(last).Some? {
      assert FirstAt(all, of, item, |responses|);
    }
  }

  lemma OneMoreLast<T>(responses: seq<Response>, of: Option<nat>, item: Response -> Option<T>, told: Option<T>, last: Response)
    requires LastTold(responses, of, item, told)
    ensures LastTold(responses + [last], of, item, if About(last, of) && item(last).Some? then item(last) else told)
  {
    var all := responses + [last];
    if About(last, of) && item(last).Some? {
      assert LastAt(all, of, item, |responses|);
    } else if told.Some? {
      var i :| LastAt(responses, of, item, i) && item(responses[i]) == told;
      assert LastAt(all, of, item, i);
    }
  }

  /** The first and the last of a message's own responses, by their places among all. */
  lemma {:induction false} OwnAreTold<T>(responses: seq<Response>, u: nat, item: Response -> Option<T>)
    ensures FirstTold(responses, Some(u), item, First(Own(responses, u), item))
    ensures LastTold(responses, Some(u), item, Last(Own(responses, u), item))
  {
    if responses != [] {
      var n := |responses| - 1;
      var own, last := Own(responses[..n], u), responses[n];
      OwnAreTold(responses[..n], u, item);
      assert responses == responses[..n] + [last];
      OneMoreFirst(responses[..n], Some(u), item, First(own, item), last);
      OneMoreLast(responses[..n], Some(u), item, Last(own, item), last);
      if last.uid == Some(u) {
        FirstOfMore(own, last, item);
        LastOfMore(own, last, item);
      } else {
        assert own + [] == own;
      }
    }
  }

  lemma {:induction false} FirstOfAll<T>(responses: seq<Response>, item: Response -> Option<T>)
    ensures FirstTold(responses, None, item, First(responses, item))
  {
    if responses != [] {
      var n := |responses| - 1;
      FirstOfAll(responses[..n], item);
      assert responses == responses[..n] + [responses[n]];
      OneMoreFirst(responses[..n], None, item, First(responses[..n], item), responses[n]);
      FirstOfMore(responses[..n], responses[n], item);
    }
  }

  lemma FirstIsOne<T>(responses: seq<Response>, of: Option<nat>, item: Response -> Option<T>, a: Option<T>, b: Option<T>)
    requires FirstTold(responses, of, item, a) && FirstTold(responses, of, item, b)
    ensures a == b
  {
    if a.Some? && b.Some? {
      var i :| FirstAt(responses, of, item, i) && item(responses[i]) == a;
      var j :| FirstAt(responses, of, item, j) && item(responses[j]) == b;
      assert i == j;
    }
  }

  lemma {:induction false} OwnIsAny(responses: seq<Response>, u: nat)
    ensures Own(responses, u) != [] <==> exists i :: 0 <= i < |responses| && responses[i].uid == Some(u)
  {
    if responses != [] {
      var n := |responses| - 1;
      OwnIsAny(responses[..n], u);
      assert forall i :: 0 <= i < n ==> responses[..n][i] == responses[i];
      if responses[n].uid != Some(u) && Own(responses[..n], u) != [] {
        var i :| 0 <= i < n && responses[..n][i].uid == Some(u);
        assert responses[i].uid == Some(u);
      }
    }
  }

  lemma FlagsAreTold(responses: seq<Response>, u: nat)
    ensures FlagsTold(responses, u, LastFlags(Own(responses, u)))
  {
    OwnAreTold(responses, u, (r: Response) => r.flags);
  }

  lemma HeadersAreTold(responses: seq<Response>, u: nat)
    ensures FirstTold(responses, Some(u), (r: Response) => r.headers, First(Own(responses, u), (r: Response) => r.headers))
    ensures First(Own(responses, u), (r: Response) => r.headers).Some? <==> HasHeaders(responses, u)
  {
    OwnAreTold(responses, u, (r: Response) => r.headers);
    if First(Own(responses, u), (r: Response) => r.headers).Some? {
      var i :| FirstAt(responses, Some(u), (r: Response) => r.headers, i);
      assert responses[i].uid == Some(u) && responses[i].headers.Some?;
    }
  }

  /** A message has a row exactly when some response of it has header lines, and the
      row is the one the responses tell. */
  lemma RowIsTold(responses: seq<Response>, u: nat)
    ensures RowOf(responses, u).Some? <==> HasHeaders(responses, u)
    ensures RowOf(responses, u).Some? ==>
              var row := RowOf(responses, u).value;
              row.uid == u && TellsRow(responses, row) && TellsStructure(responses, Some(u), row.structure)
  {
    hide FirstTold, LastTold, FlagsTold, HasHeaders, First, Last;
    HeadersAreTold(responses, u);
    FlagsAreTold(responses, u);
    OwnAreTold(responses, u, (r: Response) => r.date);
    OwnAreTold(responses, u, (r: Response) => r.gmailId);
    OwnAreTold(responses, u, (r: Response) => r.labels);
    OwnAreTold(responses, u, (r: Response) => r.structure);
  }

  // ----- lists of rows

  predicate Descending(rows: seq<Row>) {
    forall i, j :: 0 <= i < j < |rows| ==> rows[j].uid < rows[i].uid
  }

  predicate HasRow(rows: seq<Row>, u: nat) {
    exists i :: 0 <= i < |rows| && rows[i].uid == u
  }

  /** The rows of the requested messages among the responses. */
  ghost predicate RowsAmong(responses: seq<Response>, uids: seq<nat>, rows: seq<Row>) {
    && Descending(rows)
    && (forall i :: 0 <= i < |rows| ==> rows[i].uid in uids && RowOf(responses, rows[i].uid) == Some(rows[i]))
    && (forall u :: u in uids && RowOf(responses, u).Some? ==> HasRow(rows, u))
  }

  /** The rows of the requested messages as the responses tell them: highest UID
      first, one for each message with header lines. */
  ghost predicate RowsTold(responses: seq<Response>, uids: seq<nat>, rows: seq<Row>) {
    && Descending(rows)
    && (forall row :: row in rows ==>
          row.uid in uids && TellsRow(responses, row) && TellsStructure(responses, Some(row.uid), row.structure))
    && (forall u :: u in uids && HasHeaders(responses, u) ==> HasRow(rows, u))
  }

  lemma RowsAreTold(responses: seq<Response>, uids: seq<nat>, rows: seq<Row>)
    requires RowsAmong(responses, uids, rows)
    ensures RowsTold(responses, uids, rows)
  {
    hide RowOf, TellsRow, TellsStructure, HasHeaders;
    forall row | row in rows
      ensures row.uid in uids && TellsRow(responses, row) && TellsStructure(responses, Some(row.uid), row.structure)
    {
      RowIsTold(responses, row.uid);
    }
    forall u | u in uids && HasHeaders(responses, u)
      ensures HasRow(rows, u)
    {
      RowIsTold(responses, u);
    }
  }

  lemma HighestExists(uids: set<nat>)
    requires uids != {}
    ensures exists u :: u in uids && forall v :: v in uids ==> v <= u
  {
    var u :| u in uids;
    if v :| v in uids && v > u {
      var above := set o | o in uids && o > u;
      assert v in above && u !in above;
      HighestExists(above);
      var h :| h in above && forall o :: o in above ==> o <= h;
      assert forall o :: o in uids ==> o in above || o <= h;
    } else {
      assert forall v :: v in uids ==> v <= u;
    }
  }

  /** The responses by message, in the order they came. */
  method GroupByUid(responses: seq<Response>, uids: seq<nat>) returns (byUid: map<nat, seq<Response>>)
    ensures forall u :: u in byUid <==> u in uids && Own(responses, u) != []
    ensures forall u :: u in byUid ==> byUid[u] == Own(responses, u)
  {
    byUid := map[];
    for i := 0 to |responses|
      invariant forall u :: u in byUid <==> u in uids && Own(responses[..i], u) != []
      invariant forall u :: u in byUid ==> byUid[u] == Own(responses[..i], u)
    {
      var response := responses[i];
      ghost var before := byUid;
      if response.uid.Some? && response.uid.value in uids {
        var u := response.uid.value;
        byUid := byUid[u := (if u in byUid then byUid[u] else []) + [response]];
      }
      forall u
        ensures u in byUid <==> u in uids && Own(responses[..i + 1], u) != []
        ensures u in byUid ==> byUid[u] == Own(responses[..i + 1], u)
      {
        assert responses[..i + 1][..i] == responses[..i];
        assert u in before <==> u in uids && Own(responses[..i], u) != [];
      }
    }
    assert responses[..|responses|] == responses;
  }

  /** The rows read so far: those above every message still to come. */
  ghost predicate RowsDown(responses: seq<Response>, uids: seq<nat>, all: set<nat>, left: set<nat>, rows: seq<Row>) {
    && Descending(rows)
    && (forall i, v :: 0 <= i < |rows| && v in left ==> v < rows[i].uid)
    && (forall i :: 0 <= i < |rows| ==> rows[i].uid in uids && RowOf(responses, rows[i].uid) == Some(rows[i]))
    && (forall u :: u in all - left && RowOf(responses, u).Some? ==> HasRow(rows, u))
  }

  lemma NextRowDown(responses: seq<Response>, uids: seq<nat>, all: set<nat>, left: set<nat>, rows: seq<Row>, u: nat, rows': seq<Row>)
    requires RowsDown(responses, uids, all, left, rows) && u in left && u in uids && forall v :: v in left ==> v <= u
    requires rows' == rows + match RowOf(responses, u) { case Some(row) => [row] case None => [] }
    ensures RowsDown(responses, uids, all, left - {u}, rows')
  {
    forall v | v in all - (left - {u}) && RowOf(responses, v).Some?
      ensures HasRow(rows', v)
    {
      if v == u {
        assert rows'[|rows|].uid == u;
      } else {
        var i :| 0 <= i < |rows| && rows[i].uid == v;
        assert rows'[i].uid == v;
      }
    }
  }

  /** The rows of the requested messages, highest UID first. */
  method CollectRows(responses: seq<Response>, uids: seq<nat>) returns (rows: seq<Row>)
    ensures RowsAmong(responses, uids, rows) && RowsTold(responses, uids, rows)
  {
    var byUid := GroupByUid(responses, uids);
    var left := byUid.Keys;
    rows := [];
    while left != {}
      invariant left <= byUid.Keys
      invariant RowsDown(responses, uids, byUid.Keys, left, rows)
      decreases left
    {
      HighestExists(left);
      var u :| u in left && forall v :: v in left ==> v <= u;
      var row := RowFrom(u, byUid[u]);
      ghost var before := rows;
      if row.Some? {
        rows := rows + [row.value];
      }
      NextRowDown(responses, uids, byUid.Keys, left, before, u, rows);
      left := left - {u};
    }
    forall u | u in uids && RowOf(responses, u).Some?
      ensures HasRow(rows, u)
    {
      assert u in byUid.Keys - left;
    }
    RowsAreTold(responses, uids, rows);
  }

  // ----- a listing

  /** What a listing knows of a message. */
  datatype Listed = Listed(flags: Flags, gmailId: Option<nat>)

  /** The messages of a listing, whose items may come in separate responses mixed
      with later flag changes: the latest of each counts. */
  method KeepListed(responses: seq<Response>) returns (listed: map<nat, Listed>)
    ensures forall u :: u in listed <==> exists i :: 0 <= i < |responses| && responses[i].uid == Some(u)
    ensures forall u :: u in listed ==> FlagsTold(responses, u, listed[u].flags)
    ensures forall u :: u in listed ==> LastTold(responses, Some(u), (r: Response) => r.gmailId, listed[u].gmailId)
  {
    listed := map[];
    for i := 0 to |responses|
      invariant forall u :: u in listed <==> Own(responses[..i], u) != []
      invariant forall u :: u in listed ==>
                  listed[u] == Listed(LastFlags(Own(responses[..i], u)), LastGmailId(Own(responses[..i], u)))
    {
      var response := responses[i];
      ghost var before := listed;
      if response.uid.Some? {
        var u := response.uid.value;
        var message := if u in listed then listed[u] else Listed(Flags(false, false), None);
        if response.flags.Some? {
          message := message.(flags := response.flags.value);
        }
        if response.gmailId.Some? {
          message := message.(gmailId := response.gmailId);
        }
        listed := listed[u := message];
      }
      forall u
        ensures u in listed <==> Own(responses[..i + 1], u) != []
        ensures u in listed ==>
                  listed[u] == Listed(LastFlags(Own(responses[..i + 1], u)), LastGmailId(Own(responses[..i + 1], u)))
      {
        assert responses[..i + 1][..i] == responses[..i];
        ghost var own := Own(responses[..i], u);
        assert u in before <==> own != [];
        LastOfMore(own, response, (r: Response) => r.flags);
        LastOfMore(own, response, (r: Response) => r.gmailId);
        assert own + [] == own;
      }
    }
    assert responses[..|responses|] == responses;
    forall u
      ensures u in listed <==> exists i :: 0 <= i < |responses| && responses[i].uid == Some(u)
      ensures u in listed ==> FlagsTold(responses, u, listed[u].flags)
      ensures u in listed ==> LastTold(responses, Some(u), (r: Response) => r.gmailId, listed[u].gmailId)
    {
      OwnIsAny(responses, u);
      FlagsAreTold(responses, u);
      OwnAreTold(responses, u, (r: Response) => r.gmailId);
    }
  }

  // ----- the reader

  /** Why a read failed. */
  datatype Failure = ServerRefused(reply: Reply) | CommandFailed | ReconnectFailed

  class Reader {
    /** What the server answers to each command, and whether each reconnection succeeds. */
    const answers: nat -> Answer
    const reconnects: nat -> bool
    var needsReconnect: bool
    ghost var log: seq<Exchange>
    var commands: nat
    var reconnections: nat

    /** The log holds the server's own answers, in their order; a session is left
        unusable by the last one, when it could not be parsed. */
    ghost predicate Valid()
      reads this
    {
      && commands == |log| && (forall k :: 0 <= k < |log| ==> log[k].answer == answers(k))
      && (needsReconnect <==> log != [] && log[|log| - 1].answer.end.Unparsed?)
    }

    /** Why a read failed: a reconnection did, the last command's answer was lost or,
        of the second row command, could not be parsed, or the server put off
        describing a message. */
    ghost predicate FailedAs(failure: Failure, start: nat, reconnected: nat)
      reads this
    {
      match failure
      case ReconnectFailed => reconnections > reconnected && !reconnects(reconnections - 1)
      case CommandFailed =>
        |log| > start && var e := log[|log| - 1]; e.answer.end.ConnectionLost? || (e.items.RowsOnly? && e.answer.end.Unparsed?)
      case ServerRefused(reply) =>
        |log| > start && var e := log[|log| - 1]; e.items.StructureOnly? && e.answer.end == Rejected(reply) && reply.temporary
    }

    constructor (answers: nat -> Answer, reconnects: nat -> bool)
      ensures Valid() && !needsReconnect && log == [] && reconnections == 0
      ensures this.answers == answers && this.reconnects == reconnects
    {
      this.answers, this.reconnects := answers, reconnects;
      needsReconnect, log, commands, reconnections := false, [], 0, 0;
    }

    /** Runs one command, on a fresh session after an answer that could not be parsed. */
    method Fetch(uids: seq<nat>, items: Items) returns (answer: Option<Answer>)
      requires Valid()
      modifies this
      ensures Valid()
      ensures answer.None? ==> log == old(log)
      ensures answer.Some? ==> log == old(log) + [Exchange(items, uids, answer.value)] && answer.value == answers(|old(log)|)
      ensures answer.Some? <==> !old(needsReconnect) || reconnects(old(reconnections))
      ensures reconnections == old(reconnections) + if old(needsReconnect) then 1 else 0
    {
      if needsReconnect {
        var reconnected := reconnects(reconnections);
        reconnections := reconnections + 1;
        if !reconnected {
          return None;
        }
        needsReconnect := false;
      }
      answer := Some(answers(commands));
      commands := commands + 1;
      log := log + [Exchange(items, uids, answer.value)];
      if answer.value.end.Unparsed? {
        needsReconnect := true;
      }
    }

    /** Reads each row's structure on its own. A row the server no longer answers
        for is dropped; one whose structure cannot be read keeps none. */
    method FetchStructuresApart(rows: seq<Row>) returns (kept: seq<Row>, failure: Option<Failure>)
      requires Valid() && Descending(rows)
      modifies this
      ensures Valid() && old(reconnections) <= reconnections
      ensures |old(log)| <= |log| && log[..|old(log)|] == old(log)
      ensures forall k :: |old(log)| <= k < |log| ==> log[k].items.StructureOnly?
      ensures failure.None? ==> KeptApart(log, |old(log)|, rows, kept) && AsksStructures(log, |old(log)|, rows)
      ensures failure.Some? ==> FailedAs(failure.value, |old(log)|, old(reconnections))
    {
      hide KeptApart, AsksStructures, FirstTold, First, Valid;
      kept := [];
      ghost var start := |log|;
      ApartBegins(log);
      for i := 0 to |rows|
        invariant Valid() && old(reconnections) <= reconnections
        invariant start <= |log| && log[..start] == old(log)
        invariant forall k :: start <= k < |log| ==> log[k].items.StructureOnly?
        invariant KeptApart(log, start, rows[..i], kept) && AsksStructures(log, start, rows[..i])
      {
        var row := rows[i];
        ghost var before := log;
        var answer := Fetch([row.uid], StructureOnly);
        if answer.None? {
          return kept, Some(ReconnectFailed);
        }
        var structure := StructureOf(answer.value.responses);
        FirstOfAll(answer.value.responses, (r: Response) => r.structure);
        var end := answer.value.end;
        if end.ConnectionLost? {
          return kept, Some(CommandFailed);
        }
        if end.Rejected? && end.reply.temporary {
          return kept, Some(ServerRefused(end.reply));
        }
        assert log[|before|] == Exchange(StructureOnly, [row.uid], answer.value);
        assert rows[..i + 1] == rows[..i] + [row];
        AsksOneMore(before, log, start, rows[..i], row);
        if end.Completed? && structure.None? {
          OneGone(before, log, start, rows[..i], kept, row);
        } else {
          OneKept(before, log, start, rows[..i], kept, row, structure);
          kept := kept + [row.(structure := structure)];
        }
      }
      assert rows[..|rows|] == rows;
      return kept, None;
    }

    /** Reads the messages not answered for, or answered for without a structure. */
    method ReadUnansweredApart(uids: seq<nat>, rows: seq<Row>)
      returns (all: seq<Row>, refusal: Option<Reply>, failure: Option<Failure>)
      requires Valid() && Descending(rows)
      modifies this
      ensures Valid() && old(reconnections) <= reconnections
      ensures |old(log)| <= |log| && log[..|old(log)|] == old(log)
      ensures failure.None? ==> ReadApart(log, |old(log)|, uids, rows, all) && AsksApart(log, |old(log)|, uids, rows)
      ensures failure.None? ==> refusal == RefusalOf(log, |old(log)|)
      ensures failure.Some? ==> FailedAs(failure.value, |old(log)|, old(reconnections))
    {
      hide KeptApart, AsksStructures, RowsAmong, RowsTold, ReadApart, AsksApart, Valid, WithStructure, Unanswered, SortedByUid;
      var structured := WithStructure(rows);
      var unanswered := Unanswered(uids, structured);
      if unanswered == [] {
        AllStructured(log, |log|, uids, rows);
        NoneApart(log, uids, rows);
        return structured, None, None;
      }
      var answer := Fetch(unanswered, RowsOnly);
      if answer.None? {
        return structured, None, Some(ReconnectFailed);
      }
      var answered := CollectRows(answer.value.responses, unanswered);
      refusal := None;
      match answer.value.end {
        case Completed =>
        case Rejected(reply) => refusal := Some(reply);
        case _ => return structured, None, Some(CommandFailed);
      }
      ghost var asked := log;
      var kept, failed := FetchStructuresApart(answered);
      if failed.Some? {
        return structured, refusal, failed;
      }
      assert log[..|asked|] == asked;
      assert log[|old(log)|] == asked[|old(log)|] == Exchange(RowsOnly, unanswered, answer.value);
      all := SortedByUid(structured + kept);
      MergeIs(log, |old(log)|, uids, rows, structured, unanswered, answered, kept);
      AskedApart(log, |old(log)|, uids, rows, unanswered, answered);
      return all, refusal, None;
    }

    /** The second half of a read whose first answer was not enough. */
    method ReadRest(uids: seq<nat>, rows: seq<Row>)
      returns (all: seq<Row>, refusal: Option<Reply>, failure: Option<Failure>)
      requires Valid() && log != [] && FirstAnswer(log[|log| - 1], uids, rows)
      requires !Suffices(log[|log| - 1], uids, rows)
      modifies this
      ensures Valid() && old(reconnections) <= reconnections && Extends(old(log), log)
      ensures failure.None? ==> LadderRead(log, |old(log)| - 1, uids, all) && LadderAsks(log, |old(log)| - 1, uids, refusal)
      ensures failure.Some? ==> FailedAs(failure.value, |old(log)|, old(reconnections))
    {
      hide LadderRead, LadderAsks, ReadApart, AsksApart, Valid;
      ghost var asked := log;
      all, refusal, failure := ReadUnansweredApart(uids, rows);
      if failure.None? {
        assert log[..|asked|][|asked| - 1] == asked[|asked| - 1];
        LadderIs(log, |asked| - 1, uids, rows, all);
        LadderAsked(log, |asked| - 1, uids, rows, refusal);
      }
    }

    /** Reads the rows of the messages with their structures. */
    method FetchRowsByUid(uids: seq<nat>) returns (rows: seq<Row>, refusal: Option<Reply>, failure: Option<Failure>)
      requires Valid()
      modifies this
      ensures Valid() && old(reconnections) <= reconnections && Extends(old(log), log)
      ensures uids == [] ==> log == old(log) && rows == [] && refusal.None? && failure.None?
      ensures failure.None? ==> LadderRead(log, |old(log)|, uids, rows)
      ensures failure.None? && uids != [] ==> LadderAsks(log, |old(log)|, uids, refusal)
      ensures failure.Some? ==> FailedAs(failure.value, |old(log)|, old(reconnections))
    {
      hide LadderRead, RowsAmong, RowsTold, LadderAsks;
      if uids == [] {
        NothingAsked(log);
        return [], None, None;
      }
      var answer := Fetch(uids, RowsAndStructures);
      if answer.None? {
        return [], None, Some(ReconnectFailed);
      }
      rows := CollectRows(answer.value.responses, uids);
      assert FirstAnswer(log[|log| - 1], uids, rows);
      if answer.value.end.ConnectionLost? {
        return rows, None, Some(CommandFailed);
      }
      if answer.value.end.Completed? {
        FirstAnswerIsAll(log, |old(log)|, uids, rows);
        FirstAnswerAsks(log, |old(log)|, uids, rows, None);
        return rows, None, None;
      }
      if answer.value.end.Rejected? && |rows| == |uids| && Structured(rows) {
        FirstAnswerIsAll(log, |old(log)|, uids, rows);
        FirstAnswerAsks(log, |old(log)|, uids, rows, Some(answer.value.end.reply));
        return rows, Some(answer.value.end.reply), None;
      }
      rows, refusal, failure := ReadRest(uids, rows);
    }
  }

  // ----- what is asked for

  predicate Structured(rows: seq<Row>) {
    forall row :: row in rows ==> row.structure.Some?
  }

  /** One structure command for each row, in their order, and no other. */
  ghost predicate AsksStructures(log: seq<Exchange>, start: nat, rows: seq<Row>) {
    && |log| == start + |rows|
    && forall i :: 0 <= i < |rows| ==> AsksStructure(log[start + i], rows[i].uid)
  }

  predicate AsksStructure(e: Exchange, u: nat) {
    e.items.StructureOnly? && e.uids == [u]
  }

  lemma ApartBegins(log: seq<Exchange>)
    ensures KeptApart(log, |log|, [], []) && AsksStructures(log, |log|, [])
  {
  }

  lemma AsksOneMore(log: seq<Exchange>, log': seq<Exchange>, start: nat, rows: seq<Row>, row: Row)
    requires start <= |log| && AsksStructures(log, start, rows) && |log'| == |log| + 1 && Extends(log, log')
    requires AsksStructure(log'[|log|], row.uid)
    ensures AsksStructures(log', start, rows + [row])
  {
    forall i | 0 <= i < |rows|
      ensures AsksStructure(log'[start + i], rows[i].uid)
    {
      assert log'[..|log|][start + i] == log'[start + i];
    }
  }

  /** The message has a row with a structure among the rows. */
  predicate HasStructured(rows: seq<Row>, u: nat) {
    exists i :: 0 <= i < |rows| && rows[i].uid == u && rows[i].structure.Some?
  }

  /** What is asked for apart: the rows of exactly the messages without a structured
      one, in one command, then the structure of each row it brought, highest UID first. */
  ghost predicate AsksApart(log: seq<Exchange>, start: nat, uids: seq<nat>, rows: seq<Row>) {
    if forall u :: u in uids ==> HasStructured(rows, u) then |log| == start
    else
      && |log| > start && log[start].items.RowsOnly?
      && (forall u :: u in log[start].uids <==> u in uids && !HasStructured(rows, u))
      && exists answered :: RowsTold(log[start].answer.responses, log[start].uids, answered) && AsksStructures(log, start + 1, answered)
  }

  /** The refusal of the row command sent apart, if one was and was refused. */
  function RefusalOf(log: seq<Exchange>, start: nat): Option<Reply> {
    if start < |log| && log[start].answer.end.Rejected? then Some(log[start].answer.end.reply) else None
  }

  /** The rows and structures of all in one command; more is asked for exactly when it
      was refused without bringing all of them, or could not be parsed. */
  ghost predicate LadderAsks(log: seq<Exchange>, start: nat, uids: seq<nat>, refusal: Option<Reply>) {
    && start < |log| && log[start].items.RowsAndStructures? && log[start].uids == uids
    && exists rows :: RowsTold(log[start].answer.responses, uids, rows) && AsksAfter(log, start, uids, rows, refusal)
  }

  predicate Suffices(e: Exchange, uids: seq<nat>, rows: seq<Row>) {
    e.answer.end.Completed? || (e.answer.end.Rejected? && |rows| == |uids| && Structured(rows))
  }

  /** The refusal that travels with the rows is the first command's when its answer
      suffices, else that of the row command sent apart. */
  ghost predicate AsksAfter(log: seq<Exchange>, start: nat, uids: seq<nat>, rows: seq<Row>, refusal: Option<Reply>)
    requires start < |log|
  {
    if Suffices(log[start], uids, rows) then |log| == start + 1 && refusal == RefusalOf(log, start)
    else AsksApart(log, start + 1, uids, rows) && refusal == RefusalOf(log, start + 1)
  }

  lemma HasStructuredIs(rows: seq<Row>, u: nat)
    requires Descending(rows)
    ensures HasStructured(rows, u) <==> HasRow(WithStructure(rows), u)
  {
    WithStructureIs(rows);
    HasRowIs(WithStructure(rows), u);
    if HasStructured(rows, u) {
      var i :| 0 <= i < |rows| && rows[i].uid == u && rows[i].structure.Some?;
      assert rows[i] in WithStructure(rows);
    }
    if row :| row in WithStructure(rows) && row.uid == u {
      assert row in rows;
    }
  }

  lemma NoneApart(log: seq<Exchange>, uids: seq<nat>, rows: seq<Row>)
    requires Descending(rows) && Unanswered(uids, WithStructure(rows)) == []
    ensures AsksApart(log, |log|, uids, rows)
  {
    UnansweredIs(uids, WithStructure(rows));
    forall u | u in uids
      ensures HasStructured(rows, u)
    {
      HasStructuredIs(rows, u);
      assert u !in Unanswered(uids, WithStructure(rows));
    }
  }

  lemma AskedApart(log: seq<Exchange>, start: nat, uids: seq<nat>, rows: seq<Row>, unanswered: seq<nat>, answered: seq<Row>)
    requires Descending(rows) && unanswered == Unanswered(uids, WithStructure(rows)) && unanswered != []
    requires start < |log| && log[start].items.RowsOnly? && log[start].uids == unanswered
    requires RowsTold(log[start].answer.responses, unanswered, answered) && AsksStructures(log, start + 1, answered)
    ensures AsksApart(log, start, uids, rows)
  {
    UnansweredIs(uids, WithStructure(rows));
    forall u
      ensures u in unanswered <==> u in uids && !HasStructured(rows, u)
    {
      HasStructuredIs(rows, u);
    }
    assert unanswered[0] in uids;
  }

  lemma FirstAnswerAsks(log: seq<Exchange>, start: nat, uids: seq<nat>, rows: seq<Row>, refusal: Option<Reply>)
    requires start + 1 == |log| && FirstAnswer(log[start], uids, rows) && Suffices(log[start], uids, rows)
    requires refusal == RefusalOf(log, start)
    ensures LadderAsks(log, start, uids, refusal)
  {
    RowsAreTold(log[start].answer.responses, uids, rows);
    assert AsksAfter(log, start, uids, rows, refusal);
  }

  lemma LadderAsked(log: seq<Exchange>, start: nat, uids: seq<nat>, rows: seq<Row>, refusal: Option<Reply>)
    requires start < |log| && FirstAnswer(log[start], uids, rows) && !Suffices(log[start], uids, rows)
    requires AsksApart(log, start + 1, uids, rows) && refusal == RefusalOf(log, start + 1)
    ensures LadderAsks(log, start, uids, refusal)
  {
    RowsAreTold(log[start].answer.responses, uids, rows);
    assert AsksAfter(log, start, uids, rows, refusal);
  }

  // ----- what the answers say of a message

  ghost predicate FirstAnswer(e: Exchange, uids: seq<nat>, rows: seq<Row>) {
    e.items.RowsAndStructures? && e.uids == uids && RowsAmong(e.answer.responses, uids, rows)
  }

  /** The rows of a successful read: highest UID first, each asked for and as the
      server answered; a message without one was withheld by the last row command
      about it or proven gone; a row that first came with its structure is never lost. */
  ghost predicate LadderRead(log: seq<Exchange>, start: nat, uids: seq<nat>, rows: seq<Row>) {
    && Descending(rows)
    && (forall row :: row in rows ==> row.uid in uids && Genuine(log, start, row))
    && (forall u :: u in uids && !HasRow(rows, u) ==> LastAnswerLacks(log, start, u) || ProvenGone(log, start, u))
    && (forall u :: u in uids && FirstAnsweredStructured(log, start, u) ==>
          exists row :: row in rows && row.uid == u && AsFirstTold(log, start, row))
  }

  /** The row is what a row command brought, its structure that command's or what
      a structure command about the message brought. */
  ghost predicate Genuine(log: seq<Exchange>, start: nat, row: Row) {
    exists k :: start <= k < |log| && BroughtBy(log, start, log[k], row)
  }

  ghost predicate BroughtBy(log: seq<Exchange>, start: nat, e: Exchange, row: Row) {
    && AsksRow(e, row.uid) && TellsRow(e.answer.responses, row)
    && (TellsStructure(e.answer.responses, Some(row.uid), row.structure) || DescribedAs(log, start, row.uid, row.structure))
  }

  lemma GenuineFrom(log: seq<Exchange>, start: nat, later: nat, row: Row)
    requires start <= later && Genuine(log, later, row)
    ensures Genuine(log, start, row)
  {
    var k :| later <= k < |log| && BroughtBy(log, later, log[k], row);
    if DescribedAs(log, later, row.uid, row.structure) {
      var m :| later <= m < |log| && DescribesAs(log[m], row.uid, row.structure);
      assert DescribedAs(log, start, row.uid, row.structure);
    }
    assert BroughtBy(log, start, log[k], row);
  }

  /** The last row command about the message brought no row for it. */
  ghost predicate LastAnswerLacks(log: seq<Exchange>, start: nat, u: nat) {
    exists k :: start <= k < |log| && LacksLast(log, k, u)
  }

  ghost predicate LacksLast(log: seq<Exchange>, k: nat, u: nat)
    requires k < |log|
  {
    && AsksRow(log[k], u) && !HasHeaders(log[k].answer.responses, u)
    && forall j :: k < j < |log| ==> !AsksRow(log[j], u)
  }

  predicate AsksRow(e: Exchange, u: nat) {
    !e.items.StructureOnly? && u in e.uids
  }

  /** An OK without a structure proved the message gone. */
  ghost predicate ProvenGone(log: seq<Exchange>, start: nat, u: nat) {
    exists k :: start <= k < |log| && ProvesGone(log[k], u)
  }

  ghost predicate ProvesGone(e: Exchange, u: nat) {
    e.items.StructureOnly? && e.uids == [u] && e.answer.end.Completed? && TellsStructure(e.answer.responses, None, None)
  }

  /** A structure command about the message brought `structure`, or did not end OK. */
  ghost predicate DescribesAs(e: Exchange, u: nat, structure: Option<Structure>) {
    e.items.StructureOnly? && e.uids == [u] && TellsStructure(e.answer.responses, None, structure)
  }

  ghost predicate DescribedAs(log: seq<Exchange>, start: nat, u: nat, structure: Option<Structure>) {
    exists k :: start <= k < |log| && DescribesAs(log[k], u, structure)
  }

  /** The first command brought the message's row with its structure. */
  ghost predicate FirstAnsweredStructured(log: seq<Exchange>, start: nat, u: nat) {
    && start < |log| && HasHeaders(log[start].answer.responses, u)
    && !TellsStructure(log[start].answer.responses, Some(u), None)
  }

  /** The row the first command told, with the structure it told. */
  ghost predicate AsFirstTold(log: seq<Exchange>, start: nat, row: Row) {
    start < |log| && TellsRow(log[start].answer.responses, row) && TellsStructure(log[start].answer.responses, Some(row.uid), row.structure)
  }

  lemma FirstToldIs(log: seq<Exchange>, start: nat, u: nat)
    requires FirstAnsweredStructured(log, start, u)
    ensures var row := RowOf(log[start].answer.responses, u);
            row.Some? && row.value.uid == u && row.value.structure.Some? && AsFirstTold(log, start, row.value)
  {
    RowIsTold(log[start].answer.responses, u);
  }

  /** Reading structures apart keeps the rows' order, gives each its own answer's
      structure and drops only messages proven gone. */
  ghost predicate KeptApart(log: seq<Exchange>, start: nat, rows: seq<Row>, kept: seq<Row>) {
    && Descending(kept)
    && (forall i :: 0 <= i < |kept| ==> FromRow(log, start, rows, kept[i]))
    && (forall i :: 0 <= i < |rows| ==> HasRow(kept, rows[i].uid) || ProvenGone(log, start, rows[i].uid))
  }

  ghost predicate FromRow(log: seq<Exchange>, start: nat, rows: seq<Row>, row: Row) {
    exists i :: 0 <= i < |rows| && row == rows[i].(structure := row.structure) && DescribedAs(log, start, row.uid, row.structure)
  }

  ghost predicate Extends(log: seq<Exchange>, log': seq<Exchange>) {
    |log| <= |log'| && log'[..|log|] == log
  }

  lemma GoneLater(log: seq<Exchange>, log': seq<Exchange>, start: nat, u: nat)
    requires Extends(log, log') && ProvenGone(log, start, u)
    ensures ProvenGone(log', start, u)
  {
    var k :| start <= k < |log| && ProvesGone(log[k], u);
    assert log'[k] == log[k];
  }

  lemma FromRowLater(log: seq<Exchange>, log': seq<Exchange>, start: nat, rows: seq<Row>, more: seq<Row>, row: Row)
    requires Extends(log, log') && FromRow(log, start, rows, row)
    ensures FromRow(log', start, rows + more, row)
  {
    var i :| 0 <= i < |rows| && row == rows[i].(structure := row.structure) && DescribedAs(log, start, row.uid, row.structure);
    var k :| start <= k < |log| && DescribesAs(log[k], row.uid, row.structure);
    assert log'[k] == log[k];
    assert (rows + more)[i] == rows[i];
    assert DescribedAs(log', start, row.uid, row.structure);
  }

  lemma KeptLater(log: seq<Exchange>, log': seq<Exchange>, start: nat, rows: seq<Row>, kept: seq<Row>, row: Row)
    requires Extends(log, log') && KeptApart(log, start, rows, kept)
    ensures forall i :: 0 <= i < |kept| ==> FromRow(log', start, rows + [row], kept[i])
    ensures forall i :: 0 <= i < |rows| ==> HasRow(kept, rows[i].uid) || ProvenGone(log', start, rows[i].uid)
  {
    forall i | 0 <= i < |kept|
      ensures FromRow(log', start, rows + [row], kept[i])
    {
      FromRowLater(log, log', start, rows, [row], kept[i]);
    }
    forall i | 0 <= i < |rows| && !HasRow(kept, rows[i].uid)
      ensures ProvenGone(log', start, rows[i].uid)
    {
      GoneLater(log, log', start, rows[i].uid);
    }
  }

  lemma OneGone(log: seq<Exchange>, log': seq<Exchange>, start: nat, rows: seq<Row>, kept: seq<Row>, row: Row)
    requires start <= |log| < |log'| && Extends(log, log') && KeptApart(log, start, rows, kept) && ProvesGone(log'[|log|], row.uid)
    ensures KeptApart(log', start, rows + [row], kept)
  {
    KeptLater(log, log', start, rows, kept, row);
    assert ProvenGone(log', start, row.uid);
  }

  lemma OneKept(log: seq<Exchange>, log': seq<Exchange>, start: nat, rows: seq<Row>, kept: seq<Row>, row: Row,
                structure: Option<Structure>)
    requires start <= |log| < |log'| && Extends(log, log') && KeptApart(log, start, rows, kept)
    requires DescribesAs(log'[|log|], row.uid, structure) && Descending(rows + [row])
    ensures KeptApart(log', start, rows + [row], kept + [row.(structure := structure)])
  {
    KeptLater(log, log', start, rows, kept, row);
    var all, last := rows + [row], row.(structure := structure);
    assert DescribedAs(log', start, row.uid, structure);
    assert all[|rows|] == row;
    assert FromRow(log', start, all, last);
    forall i | 0 <= i < |kept|
      ensures row.uid < kept[i].uid
    {
      var j :| 0 <= j < |rows| && kept[i] == rows[j].(structure := kept[i].structure);
      assert all[j] == rows[j];
    }
    forall i | 0 <= i < |all|
      ensures HasRow(kept + [last], all[i].uid) || ProvenGone(log', start, all[i].uid)
    {
      if i < |rows| {
        if HasRow(kept, rows[i].uid) {
          var j :| 0 <= j < |kept| && kept[j].uid == rows[i].uid;
          assert (kept + [last])[j].uid == rows[i].uid;
        }
      } else {
        assert (kept + [last])[|kept|].uid == row.uid;
      }
    }
  }

  // ----- reading the unanswered apart

  function WithStructure(rows: seq<Row>): seq<Row> {
    if rows == [] then []
    else
      var last := rows[|rows| - 1];
      WithStructure(rows[..|rows| - 1]) + if last.structure.Some? then [last] else []
  }

  lemma {:induction false} WithStructureIs(rows: seq<Row>)
    requires Descending(rows)
    ensures Descending(WithStructure(rows))
    ensures forall row :: row in WithStructure(rows) <==> row in rows && row.structure.Some?
  {
    if rows != [] {
      var n := |rows| - 1;
      WithStructureIs(rows[..n]);
      assert rows == rows[..n] + [rows[n]];
      forall i | 0 <= i < |WithStructure(rows[..n])|
        ensures rows[n].uid < WithStructure(rows[..n])[i].uid
      {
        var row := WithStructure(rows[..n])[i];
        assert row in rows[..n];
      }
    }
  }

  function Unanswered(uids: seq<nat>, rows: seq<Row>): seq<nat> {
    if uids == [] then []
    else
      var last := uids[|uids| - 1];
      Unanswered(uids[..|uids| - 1], rows) + if HasRow(rows, last) then [] else [last]
  }

  lemma {:induction false} UnansweredIs(uids: seq<nat>, rows: seq<Row>)
    ensures forall u :: u in Unanswered(uids, rows) <==> u in uids && !HasRow(rows, u)
  {
    if uids != [] {
      UnansweredIs(uids[..|uids| - 1], rows);
      assert uids == uids[..|uids| - 1] + [uids[|uids| - 1]];
    }
  }

  /** A row put before the first one with a lower UID. */
  function InsertedByUid(rows: seq<Row>, row: Row): seq<Row> {
    if rows == [] || row.uid <= rows[|rows| - 1].uid then rows + [row]
    else InsertedByUid(rows[..|rows| - 1], row) + [rows[|rows| - 1]]
  }

  function SortedByUid(rows: seq<Row>): seq<Row> {
    if rows == [] then [] else InsertedByUid(SortedByUid(rows[..|rows| - 1]), rows[|rows| - 1])
  }

  predicate LacksUid(rows: seq<Row>, u: nat) {
    forall i :: 0 <= i < |rows| ==> rows[i].uid != u
  }

  lemma {:induction false} InsertingHolds(rows: seq<Row>, row: Row, o: Row)
    ensures o in InsertedByUid(rows, row) <==> o in rows || o == row
  {
    if rows != [] && row.uid > rows[|rows| - 1].uid {
      InsertingHolds(rows[..|rows| - 1], row, o);
      assert rows == rows[..|rows| - 1] + [rows[|rows| - 1]];
    }
  }

  lemma {:induction false} InsertingKeeps(rows: seq<Row>, row: Row)
    requires Descending(rows) && LacksUid(rows, row.uid)
    ensures Descending(InsertedByUid(rows, row))
  {
    if rows != [] && row.uid > rows[|rows| - 1].uid {
      var n := |rows| - 1;
      var front := InsertedByUid(rows[..n], row);
      InsertingKeeps(rows[..n], row);
      forall i | 0 <= i < |front|
        ensures rows[n].uid < front[i].uid
      {
        InsertingHolds(rows[..n], row, front[i]);
      }
    }
  }

  ghost predicate DistinctUids(rows: seq<Row>) {
    forall i, j :: 0 <= i < j < |rows| ==> rows[i].uid != rows[j].uid
  }

  lemma {:induction false} SortingKeeps(rows: seq<Row>)
    requires DistinctUids(rows)
    ensures Descending(SortedByUid(rows))
    ensures forall o :: o in SortedByUid(rows) <==> o in rows
  {
    if rows != [] {
      var n := |rows| - 1;
      SortingKeeps(rows[..n]);
      assert rows == rows[..n] + [rows[n]];
      var sorted := SortedByUid(rows[..n]);
      forall i | 0 <= i < |sorted|
        ensures sorted[i].uid != rows[n].uid
      {
        assert sorted[i] in rows[..n];
      }
      InsertingKeeps(sorted, rows[n]);
      forall o
        ensures o in SortedByUid(rows) <==> o in rows
      {
        InsertingHolds(sorted, rows[n], o);
      }
    }
  }

  lemma HasRowIs(rows: seq<Row>, u: nat)
    ensures HasRow(rows, u) <==> exists row :: row in rows && row.uid == u
  {
    if row :| row in rows && row.uid == u {
      var i :| 0 <= i < |rows| && rows[i] == row;
      assert rows[i].uid == u;
    }
  }

  /** What reading the unanswered apart leaves: every structured row it was given,
      and of the others each one it lacks explained. */
  ghost predicate ReadApart(log: seq<Exchange>, start: nat, uids: seq<nat>, rows: seq<Row>, all: seq<Row>) {
    && Descending(all)
    && (forall row :: row in all ==> row.uid in uids || HasRow(rows, row.uid))
    && (forall row :: row in all ==> row in rows || Genuine(log, start, row))
    && (forall row :: row in rows && row.structure.Some? ==> row in all)
    && (forall u :: u in uids && !HasRow(all, u) ==> LastAnswerLacks(log, start, u) || ProvenGone(log, start, u))
  }

  lemma AllStructured(log: seq<Exchange>, start: nat, uids: seq<nat>, rows: seq<Row>)
    requires Descending(rows) && Unanswered(uids, WithStructure(rows)) == []
    ensures ReadApart(log, start, uids, rows, WithStructure(rows))
  {
    var structured := WithStructure(rows);
    WithStructureIs(rows);
    UnansweredIs(uids, structured);
    forall row | row in structured
      ensures HasRow(rows, row.uid)
    {
      HasRowIs(rows, row.uid);
    }
    forall u | u in uids
      ensures HasRow(structured, u)
    {
      assert u !in Unanswered(uids, structured);
    }
  }

  /** The two lists have no message in common. */
  lemma PartsAreDistinct(uids: seq<nat>, structured: seq<Row>, unanswered: seq<nat>, kept: seq<Row>)
    requires Descending(structured) && Descending(kept) && unanswered == Unanswered(uids, structured)
    requires forall i :: 0 <= i < |kept| ==> kept[i].uid in unanswered
    ensures DistinctUids(structured + kept)
  {
    UnansweredIs(uids, structured);
    forall i, j | 0 <= i < |structured| && 0 <= j < |kept|
      ensures structured[i].uid != kept[j].uid
    {
      assert !HasRow(structured, kept[j].uid);
    }
  }

  /** A row's structure is told apart from the rest of it. */
  lemma SameRowTold(responses: seq<Response>, row: Row, structure: Option<Structure>)
    requires TellsRow(responses, row)
    ensures TellsRow(responses, row.(structure := structure))
  {
  }

  lemma KeptAreGenuine(log: seq<Exchange>, start: nat, unanswered: seq<nat>, answered: seq<Row>, kept: seq<Row>)
    requires start < |log| && log[start].items.RowsOnly? && log[start].uids == unanswered
    requires RowsAmong(log[start].answer.responses, unanswered, answered) && KeptApart(log, start + 1, answered, kept)
    ensures forall i :: 0 <= i < |kept| ==> kept[i].uid in unanswered && Genuine(log, start, kept[i])
  {
    forall i | 0 <= i < |kept|
      ensures kept[i].uid in unanswered && Genuine(log, start, kept[i])
    {
      assert FromRow(log, start + 1, answered, kept[i]);
      var j :| 0 <= j < |answered| && kept[i] == answered[j].(structure := kept[i].structure)
        && DescribedAs(log, start + 1, kept[i].uid, kept[i].structure);
      var m :| start + 1 <= m < |log| && DescribesAs(log[m], kept[i].uid, kept[i].structure);
      assert DescribedAs(log, start, kept[i].uid, kept[i].structure);
      RowIsTold(log[start].answer.responses, kept[i].uid);
      SameRowTold(log[start].answer.responses, answered[j], kept[i].structure);
      assert BroughtBy(log, start, log[start], kept[i]);
    }
  }

  /** A message asked for apart that has no row in the end. */
  lemma LackingApart(log: seq<Exchange>, start: nat, unanswered: seq<nat>, answered: seq<Row>, kept: seq<Row>, u: nat)
    requires start < |log| && log[start].items.RowsOnly? && log[start].uids == unanswered && u in unanswered
    requires forall k :: start < k < |log| ==> log[k].items.StructureOnly?
    requires RowsAmong(log[start].answer.responses, unanswered, answered) && KeptApart(log, start + 1, answered, kept)
    requires !HasRow(kept, u)
    ensures LastAnswerLacks(log, start, u) || ProvenGone(log, start, u)
  {
    if HasRow(answered, u) {
      var i :| 0 <= i < |answered| && answered[i].uid == u;
      assert ProvenGone(log, start + 1, u);
      var k :| start + 1 <= k < |log| && ProvesGone(log[k], u);
      assert ProvenGone(log, start, u);
    } else {
      RowIsTold(log[start].answer.responses, u);
      assert LacksLast(log, start, u);
    }
  }

  lemma MergeIs(log: seq<Exchange>, start: nat, uids: seq<nat>, rows: seq<Row>, structured: seq<Row>,
                unanswered: seq<nat>, answered: seq<Row>, kept: seq<Row>)
    requires Descending(rows) && structured == WithStructure(rows) && unanswered == Unanswered(uids, structured)
    requires start < |log| && log[start].items.RowsOnly? && log[start].uids == unanswered
    requires forall k :: start < k < |log| ==> log[k].items.StructureOnly?
    requires RowsAmong(log[start].answer.responses, unanswered, answered) && KeptApart(log, start + 1, answered, kept)
    ensures ReadApart(log, start, uids, rows, SortedByUid(structured + kept))
  {
    var all := SortedByUid(structured + kept);
    WithStructureIs(rows);
    UnansweredIs(uids, structured);
    KeptAreGenuine(log, start, unanswered, answered, kept);
    PartsAreDistinct(uids, structured, unanswered, kept);
    SortingKeeps(structured + kept);
    forall row | row in all
      ensures row.uid in uids || HasRow(rows, row.uid)
    {
      if row in structured {
        HasRowIs(rows, row.uid);
      } else {
        assert row in kept;
      }
    }
    forall u | u in uids && !HasRow(all, u)
      ensures LastAnswerLacks(log, start, u) || ProvenGone(log, start, u)
    {
      HasRowIs(all, u);
      HasRowIs(structured, u);
      HasRowIs(kept, u);
      LackingApart(log, start, unanswered, answered, kept, u);
    }
  }

  // ----- the whole ladder

  lemma NothingAsked(log: seq<Exchange>)
    ensures LadderRead(log, |log|, [], [])
  {
  }

  /** The first command's answer stands alone. */
  lemma FirstAnswerIsAll(log: seq<Exchange>, start: nat, uids: seq<nat>, rows: seq<Row>)
    requires start + 1 == |log| && FirstAnswer(log[start], uids, rows)
    ensures LadderRead(log, start, uids, rows)
  {
    forall row | row in rows
      ensures row.uid in uids && Genuine(log, start, row)
    {
      var i :| 0 <= i < |rows| && rows[i] == row;
      RowIsTold(log[start].answer.responses, row.uid);
      assert BroughtBy(log, start, log[start], row);
    }
    forall u | u in uids && !HasRow(rows, u)
      ensures LastAnswerLacks(log, start, u)
    {
      RowIsTold(log[start].answer.responses, u);
      assert LacksLast(log, start, u);
    }
    forall u | u in uids && FirstAnsweredStructured(log, start, u)
      ensures exists row :: row in rows && row.uid == u && AsFirstTold(log, start, row)
    {
      FirstToldIs(log, start, u);
      var i :| 0 <= i < |rows| && rows[i].uid == u;
      assert rows[i] in rows;
    }
  }

  lemma LadderIs(log: seq<Exchange>, start: nat, uids: seq<nat>, rows: seq<Row>, all: seq<Row>)
    requires start < |log| && FirstAnswer(log[start], uids, rows)
    requires ReadApart(log, start + 1, uids, rows, all)
    ensures LadderRead(log, start, uids, all)
  {
    forall row | row in all
      ensures row.uid in uids && Genuine(log, start, row)
    {
      if HasRow(rows, row.uid) {
        var j :| 0 <= j < |rows| && rows[j].uid == row.uid;
      }
      if row in rows {
        var j :| 0 <= j < |rows| && rows[j] == row;
        RowIsTold(log[start].answer.responses, row.uid);
        assert BroughtBy(log, start, log[start], row);
      } else {
        GenuineFrom(log, start, start + 1, row);
      }
    }
    forall u | u in uids && !HasRow(all, u)
      ensures LastAnswerLacks(log, start, u) || ProvenGone(log, start, u)
    {
      if LastAnswerLacks(log, start + 1, u) {
        var k :| start + 1 <= k < |log| && LacksLast(log, k, u);
      } else {
        var k :| start + 1 <= k < |log| && ProvesGone(log[k], u);
      }
    }
    forall u | u in uids && FirstAnsweredStructured(log, start, u)
      ensures exists row :: row in all && row.uid == u && AsFirstTold(log, start, row)
    {
      FirstToldIs(log, start, u);
      var i :| 0 <= i < |rows| && rows[i].uid == u;
      assert rows[i] in rows && rows[i].structure.Some?;
    }
  }
}
