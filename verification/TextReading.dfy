/** What a cycle shows of the messages whose rows arrived: every reading planned,
    all their requests read together, each report taken by its own message. */
module TextReading {
  import opened Domain
  import opened Sequences
  import opened MimeWalk
  import opened TextPlan

  predicate DistinctRows(rows: seq<Row>) {
    forall i, j :: 0 <= i < j < |rows| ==> rows[i].uid != rows[j].uid
  }

  /** The requests of all messages, in their order. */
  function AllWanted(rows: seq<Row>): seq<TextRequest> {
    if rows == [] then [] else AllWanted(rows[..|rows| - 1]) + WantedOf(rows[|rows| - 1])
  }

  /** Each request is some row's own. */
  lemma {:induction false} WantedByRow(rows: seq<Row>, r: TextRequest) returns (i: nat)
    requires r in AllWanted(rows)
    ensures i < |rows| && WantedOf(rows[i]) == [r]
  {
    var n := |rows| - 1;
    if r in AllWanted(rows[..n]) {
      i := WantedByRow(rows[..n], r);
    } else {
      i := n;
    }
  }

  lemma {:induction false} RowIsWanted(rows: seq<Row>, i: nat)
    requires i < |rows| && WantedOf(rows[i]) != []
    ensures WantedOf(rows[i])[0] in AllWanted(rows)
  {
    var n := |rows| - 1;
    if i < n {
      RowIsWanted(rows[..n], i);
      assert rows[..n][i] == rows[i];
    } else {
      assert WantedOf(rows[n])[0] in WantedOf(rows[n]);
    }
  }

  predicate DistinctUids(requests: seq<TextRequest>) {
    forall i, j :: 0 <= i < j < |requests| ==> requests[i].uid != requests[j].uid
  }

  lemma {:induction false} WantedDistinct(rows: seq<Row>)
    requires DistinctRows(rows)
    ensures DistinctUids(AllWanted(rows))
  {
    if rows != [] {
      var n := |rows| - 1;
      WantedDistinct(rows[..n]);
      forall r | r in AllWanted(rows[..n])
        ensures r.uid != rows[n].uid
      {
        var i := WantedByRow(rows[..n], r);
      }
    }
  }

  lemma {:induction false} CountsOnce(requests: seq<TextRequest>, r: TextRequest)
    requires DistinctUids(requests)
    ensures multiset(requests)[r] <= 1
  {
    if requests != [] {
      var n := |requests| - 1;
      CountsOnce(requests[..n], r);
      assert requests == requests[..n] + [requests[n]];
      if requests[n] == r {
        assert r !in requests[..n];
      }
    }
  }

  /** As many requests, each as often, have UIDs as distinct. */
  lemma SameRequestsDistinct(some: seq<TextRequest>, all: seq<TextRequest>)
    requires multiset(some) == multiset(all) && DistinctUids(all)
    ensures DistinctUids(some)
  {
    forall i, j | 0 <= i < j < |some|
      ensures some[i].uid != some[j].uid
    {
      assert some[i] in multiset(some) && some[j] in multiset(some);
      assert some[i] in all && some[j] in all;
      CountsOnce(all, some[i]);
      if some[i] == some[j] {
        TwoPlacesCountTwice(some, i, j);
      }
    }
  }

  /** What was reported for a message, if anything. */
  function TextFor(reports: seq<Report>, uid: nat): Option<MessageText> {
    if reports == [] then None
    else
      var last := reports[|reports| - 1];
      if last.request.uid == uid then Some(last.text) else TextFor(reports[..|reports| - 1], uid)
  }

  lemma {:induction false} TextForIs(reports: seq<Report>, uid: nat)
    ensures TextFor(reports, uid).Some? <==> exists r :: r in reports && r.request.uid == uid
    ensures TextFor(reports, uid).Some? ==> exists r :: r in reports && r.request.uid == uid && r.text == TextFor(reports, uid).value
  {
    if reports != [] {
      var n := |reports| - 1;
      TextForIs(reports[..n], uid);
      assert reports == reports[..n] + [reports[n]];
    }
  }

  /** The report is the row's own, and has as many parts as were asked for. */
  ghost predicate Fits(rows: seq<Row>, r: Report) {
    exists i :: 0 <= i < |rows| && WantedOf(rows[i]) == [r.request]
                && (r.text.Received? ==> |r.text.parts| == |AskedSections(rows[i].structure.value, rows[i].recent)|)
  }

  lemma ReportFits(rows: seq<Row>, log: seq<Exchange>, start: nat, r: Report)
    requires r.request in AllWanted(rows) && ReportedSince(log, start, r)
    ensures Fits(rows, r)
  {
    var i := WantedByRow(rows, r.request);
    var k :| start <= k < |log| && ReportedBy(log[k], r);
    TextIs(rows[i].structure.value, rows[i].recent, log[k].answer.responses, r.request.uid, log[k].answer.end.Rejected?, r.text);
  }

  // ----- the readings

  ghost predicate Separate(readings: seq<MessageReading>) {
    forall i, j :: 0 <= i < j < |readings| ==> readings[i] != readings[j]
  }

  /** Each reading holds what was reported for its row. */
  ghost predicate AllHold(readings: seq<MessageReading>, rows: seq<Row>, decoders: Decoders, reports: seq<Report>)
    requires |readings| == |rows|
    reads readings
  {
    forall i :: 0 <= i < |rows| ==> readings[i].HoldsFor(rows[i], decoders, TextFor(reports, rows[i].uid))
  }

  method PlanReading(row: Row) returns (reading: MessageReading, requests: seq<TextRequest>)
    ensures fresh(reading) && reading.IsFresh(row) && requests == WantedOf(row)
  {
    reading := new MessageReading(row.structure, row.recent);
    reading.WantedIs(row);
    requests := reading.Wanted(row.uid);
  }

  method PlanReadings(rows: seq<Row>, ghost decoders: Decoders) returns (readings: seq<MessageReading>, requests: seq<TextRequest>)
    ensures |readings| == |rows| && Separate(readings) && requests == AllWanted(rows)
    ensures fresh(readings) && AllHold(readings, rows, decoders, [])
  {
    hide WantedOf;
    readings, requests := [], [];
    for n := 0 to |rows|
      invariant |readings| == n && Separate(readings) && requests == AllWanted(rows[..n])
      invariant fresh(readings) && AllHold(readings, rows[..n], decoders, [])
    {
      var reading, wanted := PlanReading(rows[n]);
      PlannedMore(readings, reading, rows[..n], rows[n], decoders);
      assert rows[..n] + [rows[n]] == rows[..n + 1];
      readings, requests := readings + [reading], requests + wanted;
    }
    assert rows[..|rows|] == rows;
  }

  lemma PlannedMore(readings: seq<MessageReading>, reading: MessageReading, rows: seq<Row>, row: Row, decoders: Decoders)
    requires |readings| == |rows| && Separate(readings) && reading !in readings
    requires AllHold(readings, rows, decoders, []) && reading.IsFresh(row)
    ensures Separate(readings + [reading]) && AllHold(readings + [reading], rows + [row], decoders, [])
    ensures AllWanted(rows + [row]) == AllWanted(rows) + WantedOf(row)
  {
    assert (rows + [row])[..|rows|] == rows;
  }

  method PlaceOf(rows: seq<Row>, uid: nat) returns (i: nat)
    requires DistinctRows(rows) && exists k :: 0 <= k < |rows| && rows[k].uid == uid
    ensures i < |rows| && rows[i].uid == uid
  {
    i := 0;
    while rows[i].uid != uid
      invariant i < |rows| && forall k :: 0 <= k < i ==> rows[k].uid != uid
      decreases |rows| - i
    {
      i := i + 1;
    }
  }

  /** A report goes to the reading of its own message. */
  method ReceiveOne(readings: seq<MessageReading>, rows: seq<Row>, ghost earlier: seq<Report>, report: Report, decoders: Decoders)
    requires |readings| == |rows| && Separate(readings) && DistinctRows(rows)
    requires AllHold(readings, rows, decoders, earlier) && TextFor(earlier, report.request.uid).None? && Fits(rows, report)
    modifies readings
    ensures AllHold(readings, rows, decoders, earlier + [report])
  {
    var i := PlaceOf(rows, report.request.uid);
    FitsItsRow(rows, report, i);
    ghost var told := report.text;
    assert readings[i].HoldsFor(rows[i], decoders, None);
    readings[i].ReceiveOwn(rows[i], report.text, decoders);
    assert readings[i].HoldsFor(rows[i], decoders, Some(told));
    forall k | 0 <= k < |rows| && k != i
      ensures readings[k].HoldsFor(rows[k], decoders, TextFor(earlier, rows[k].uid))
    {
      assert readings[k] != readings[i];
    }
    OneMoreHolds(readings, rows, decoders, earlier, report, i);
  }

  lemma OneMoreHolds(readings: seq<MessageReading>, rows: seq<Row>, decoders: Decoders, earlier: seq<Report>, report: Report, i: nat)
    requires |readings| == |rows| && DistinctRows(rows) && i < |rows| && rows[i].uid == report.request.uid
    requires readings[i].HoldsFor(rows[i], decoders, Some(report.text))
    requires forall k :: 0 <= k < |rows| && k != i ==> readings[k].HoldsFor(rows[k], decoders, TextFor(earlier, rows[k].uid))
    ensures AllHold(readings, rows, decoders, earlier + [report])
  {
    forall k | 0 <= k < |rows|
      ensures TextFor(earlier + [report], rows[k].uid) == if k == i then Some(report.text) else TextFor(earlier, rows[k].uid)
    {
      assert (earlier + [report])[..|earlier|] == earlier;
    }
  }

  lemma FitsItsRow(rows: seq<Row>, report: Report, i: nat)
    requires DistinctRows(rows) && Fits(rows, report) && i < |rows| && rows[i].uid == report.request.uid
    ensures WantedOf(rows[i]) == [report.request]
    ensures report.text.Received? ==> |report.text.parts| == |AskedSections(rows[i].structure.value, rows[i].recent)|
  {
  }

  method ReceiveAll(readings: seq<MessageReading>, rows: seq<Row>, reports: seq<Report>, decoders: Decoders)
    requires |readings| == |rows| && Separate(readings) && DistinctRows(rows) && AllHold(readings, rows, decoders, [])
    requires DistinctUids(Requests(reports)) && forall r :: r in reports ==> Fits(rows, r)
    modifies readings
    ensures AllHold(readings, rows, decoders, reports)
  {
    for n := 0 to |reports|
      invariant AllHold(readings, rows, decoders, reports[..n])
    {
      NotToldYet(reports, n);
      ReceiveOne(readings, rows, reports[..n], reports[n], decoders);
      assert reports[..n] + [reports[n]] == reports[..n + 1];
    }
    assert reports[..|reports|] == reports;
  }

  lemma NotToldYet(reports: seq<Report>, n: nat)
    requires n < |reports| && DistinctUids(Requests(reports))
    ensures TextFor(reports[..n], reports[n].request.uid).None?
  {
    TextForIs(reports[..n], reports[n].request.uid);
    forall r | r in reports[..n]
      ensures r.request.uid != reports[n].request.uid
    {
      var k :| 0 <= k < n && reports[k] == r;
      assert Requests(reports)[k].uid != Requests(reports)[n].uid;
    }
  }

  function ShownOf(contents: map<nat, (Content, string)>, uid: nat): Option<(Content, string)> {
    if uid in contents then Some(contents[uid]) else None
  }

  /** The content and preview of every message that did not disappear. */
  method FinishAll(readings: seq<MessageReading>, rows: seq<Row>, decoders: Decoders, ghost reports: seq<Report>)
    returns (contents: map<nat, (Content, string)>)
    requires |readings| == |rows| && DistinctRows(rows)
    requires AllHold(readings, rows, decoders, reports)
    ensures forall i :: 0 <= i < |rows| ==>
              FinishedAs(rows[i], decoders, TextFor(reports, rows[i].uid), ShownOf(contents, rows[i].uid))
  {
    hide FinishedAs, TextFor;
    contents := map[];
    for n := 0 to |rows|
      invariant forall u :: u in contents ==> exists i :: 0 <= i < n && rows[i].uid == u
      invariant forall i :: 0 <= i < n ==>
                  FinishedAs(rows[i], decoders, TextFor(reports, rows[i].uid), ShownOf(contents, rows[i].uid))
    {
      assert readings[n].HoldsFor(rows[n], decoders, TextFor(reports, rows[n].uid));
      var result := readings[n].Finish(decoders, rows[n], TextFor(reports, rows[n].uid));
      assert rows[n].uid !in contents;
      if result.Some? {
        contents := contents[rows[n].uid := result.value];
      }
    }
  }

  // ----- the whole reading

  /** The reports of the requests told as the log says make each row what it shows. */
  lemma RowShows(rows: seq<Row>, i: nat, decoders: Decoders, log: seq<Exchange>, start: nat, reports: seq<Report>,
                 shown: Option<(Content, string)>)
    requires DistinctRows(rows) && i < |rows| && multiset(Requests(reports)) == multiset(AllWanted(rows))
    requires forall r :: r in reports ==> ReportedSince(log, start, r)
    requires FinishedAs(rows[i], decoders, TextFor(reports, rows[i].uid), shown)
    ensures ShownBy(rows[i], decoders, log, start, shown)
  {
    var row := rows[i];
    TextForIs(reports, row.uid);
    if WantedOf(row) != [] {
      var r := OwnReport(rows, i, reports);
      var k :| start <= k < |log| && ReportedBy(log[k], r);
      AnswerShows(row, decoders, log[k].answer, r.text, shown);
    }
  }

  /** A row with a request has its report, and no other of its UID. */
  lemma OwnReport(rows: seq<Row>, i: nat, reports: seq<Report>) returns (r: Report)
    requires DistinctRows(rows) && i < |rows| && WantedOf(rows[i]) != []
    requires multiset(Requests(reports)) == multiset(AllWanted(rows))
    ensures r in reports && WantedOf(rows[i]) == [r.request] && TextFor(reports, rows[i].uid) == Some(r.text)
  {
    var w := WantedOf(rows[i])[0];
    RowIsWanted(rows, i);
    assert w in multiset(Requests(reports));
    assert w in Requests(reports);
    var k :| 0 <= k < |reports| && Requests(reports)[k] == w;
    TextForIs(reports, rows[i].uid);
    assert reports[k] in reports && reports[k].request.uid == rows[i].uid;
    r :| r in reports && r.request.uid == rows[i].uid && r.text == TextFor(reports, rows[i].uid).value;
    OwnRequest(rows, i, reports, r);
  }

  lemma OwnRequest(rows: seq<Row>, i: nat, reports: seq<Report>, r: Report)
    requires DistinctRows(rows) && i < |rows| && r in reports && r.request.uid == rows[i].uid
    requires multiset(Requests(reports)) == multiset(AllWanted(rows))
    ensures WantedOf(rows[i]) == [r.request]
  {
    ReportIsWanted(rows, reports, r);
    var j := WantedByRow(rows, r.request);
    assert j == i;
  }

  lemma ReportIsWanted(rows: seq<Row>, reports: seq<Report>, r: Report)
    requires r in reports && multiset(Requests(reports)) == multiset(AllWanted(rows))
    ensures r.request in AllWanted(rows)
  {
    var k :| 0 <= k < |reports| && reports[k] == r;
    assert Requests(reports)[k] == r.request;
    assert r.request in multiset(Requests(reports));
  }

  lemma AnswerShows(row: Row, decoders: Decoders, answer: Answer, text: MessageText, shown: Option<(Content, string)>)
    requires WantedOf(row) != [] && FinishedAs(row, decoders, Some(text), shown)
    requires TextTold(answer.responses, row.uid, Paths(WantedOf(row)[0].parts), answer.end.Rejected?, text)
    ensures Shows(row, decoders, answer, shown)
  {
    TextIs(row.structure.value, row.recent, answer.responses, row.uid, answer.end.Rejected?, text);
    if text.Received? {
      assert ArrivedAs(row.structure.value, row.recent, answer.responses, row.uid, text.parts);
    }
  }

  /** Every row shows what its own command's answer made of it. */
  ghost predicate AllShown(rows: seq<Row>, decoders: Decoders, log: seq<Exchange>, start: nat, contents: map<nat, (Content, string)>) {
    forall i :: 0 <= i < |rows| ==> ShownBy(rows[i], decoders, log, start, ShownOf(contents, rows[i].uid))
  }

  /** The reports taken and the readings finished. */
  method TakeReports(readings: seq<MessageReading>, rows: seq<Row>, reports: seq<Report>, decoders: Decoders,
                     ghost log: seq<Exchange>, ghost start: nat) returns (contents: map<nat, (Content, string)>)
    requires |readings| == |rows| && Separate(readings) && DistinctRows(rows) && AllHold(readings, rows, decoders, [])
    requires multiset(Requests(reports)) == multiset(AllWanted(rows))
    requires forall r :: r in reports ==> ReportedSince(log, start, r)
    modifies readings
    ensures AllShown(rows, decoders, log, start, contents)
  {
    ReportsFit(rows, log, start, reports);
    ReceiveAll(readings, rows, reports, decoders);
    contents := FinishAll(readings, rows, decoders, reports);
    RowsShow(rows, decoders, log, start, reports, contents);
  }

  /** Reads what is shown of the messages: one command for each shape of request,
      and of each message what the answer to its own command gave it. A message
      left out disappeared. The reading fails exactly when its last command did. */
  method ReadContents(reader: TextReader, rows: seq<Row>, decoders: Decoders)
    returns (contents: map<nat, (Content, string)>, failed: bool)
    requires DistinctRows(rows)
    modifies reader
    ensures old(reader.log) <= reader.log && AsksByShape(reader.log, |old(reader.log)|, AllWanted(rows))
    ensures AnsweredBy(reader.log, |old(reader.log)|, reader.answers, old(reader.commands))
    ensures failed <==> LastFails(reader.log, |old(reader.log)|)
    ensures !failed ==> AllShown(rows, decoders, reader.log, |old(reader.log)|, contents)
  {
    hide *;
    var readings, requests := PlanReadings(rows, decoders);
    var reports;
    reports, failed := reader.FetchText(requests);
    if failed {
      return map[], true;
    }
    contents := TakeReports(readings, rows, reports, decoders, reader.log, |old(reader.log)|);
  }

  lemma RowsShow(rows: seq<Row>, decoders: Decoders, log: seq<Exchange>, start: nat, reports: seq<Report>,
                 contents: map<nat, (Content, string)>)
    requires DistinctRows(rows) && multiset(Requests(reports)) == multiset(AllWanted(rows))
    requires forall r :: r in reports ==> ReportedSince(log, start, r)
    requires forall i :: 0 <= i < |rows| ==>
               FinishedAs(rows[i], decoders, TextFor(reports, rows[i].uid), ShownOf(contents, rows[i].uid))
    ensures AllShown(rows, decoders, log, start, contents)
  {
    forall i | 0 <= i < |rows|
      ensures ShownBy(rows[i], decoders, log, start, ShownOf(contents, rows[i].uid))
    {
      RowShows(rows, i, decoders, log, start, reports, ShownOf(contents, rows[i].uid));
    }
  }

  lemma ReportsFit(rows: seq<Row>, log: seq<Exchange>, start: nat, reports: seq<Report>)
    requires DistinctRows(rows) && multiset(Requests(reports)) == multiset(AllWanted(rows))
    requires forall r :: r in reports ==> ReportedSince(log, start, r)
    ensures DistinctUids(Requests(reports)) && forall r :: r in reports ==> Fits(rows, r)
  {
    WantedDistinct(rows);
    SameRequestsDistinct(Requests(reports), AllWanted(rows));
    forall r | r in reports
      ensures Fits(rows, r)
    {
      ReportIsWanted(rows, reports, r);
      ReportFits(rows, log, start, r);
    }
  }
}
