/** What a cycle reads of a message's text: the plan from its structure, the text
    commands and what they report, and what the plan receives of it. */
module TextPlan {
  import opened Domain
  import opened MimeWalk

  /** The parts of one request: a single-part message's body, or leaves by number. */
  datatype TextParts = SinglePartBody | MultipartLeaves(leaves: seq<Section>)

  datatype TextRequest = TextRequest(uid: nat, parts: TextParts, limit: Option<nat>)

  datatype ReceivedPart = ReceivedPart(header: string, body: string)

  datatype MessageText = Received(parts: seq<ReceivedPart>) | NotReturned | Disappeared

  const PREVIEW_PIECE_BYTES: nat := 65536

  // ----- the commands

  /** A body section as FETCH names it. */
  datatype SectionName = MessageHeader | PartHeader(section: Section) | PartBody(section: Section)

  datatype Path = Path(header: SectionName, body: SectionName)

  /** Header and body of each requested part, in the order requested. */
  function Paths(parts: TextParts): seq<Path> {
    match parts
    case SinglePartBody => [Path(MessageHeader, PartBody([1]))]
    case MultipartLeaves(leaves) =>
      seq(|leaves|, j requires 0 <= j < |leaves| => Path(PartHeader(leaves[j]), PartBody(leaves[j])))
  }

  /** A response carries some sections of a message. */
  datatype Response = Response(uid: Option<nat>, sections: map<SectionName, string>)

  datatype End = Completed | Rejected(temporary: bool) | Failed

  datatype Answer = Answer(responses: seq<Response>, end: End)

  function FirstSection(responses: seq<Response>, uid: nat, name: SectionName): Option<string> {
    if responses == [] then None
    else if responses[0].uid == Some(uid) && name in responses[0].sections then Some(responses[0].sections[name])
    else FirstSection(responses[1..], uid, name)
  }

  predicate Answered(responses: seq<Response>, uid: nat) {
    exists i :: 0 <= i < |responses| && responses[i].uid == Some(uid)
  }

  function PartAt(responses: seq<Response>, uid: nat, path: Path): Option<ReceivedPart> {
    var header, body := FirstSection(responses, uid, path.header), FirstSection(responses, uid, path.body);
    if header.Some? && body.Some? then Some(ReceivedPart(header.value, body.value)) else None
  }

  function AllParts(responses: seq<Response>, uid: nat, paths: seq<Path>): Option<seq<ReceivedPart>> {
    if paths == [] then Some([])
    else
      var earlier := AllParts(responses, uid, paths[..|paths| - 1]);
      var last := PartAt(responses, uid, paths[|paths| - 1]);
      if earlier.Some? && last.Some? then Some(earlier.value + [last.value]) else None
  }

  /** One message's text among the responses: after OK a message without a response
      is gone, after a refusal the server failed to return it. */
  function MessageTextOf(responses: seq<Response>, uid: nat, paths: seq<Path>, rejected: bool): MessageText {
    if !Answered(responses, uid) then if rejected then NotReturned else Disappeared
    else
      var parts := AllParts(responses, uid, paths);
      if parts.Some? then Received(parts.value) else NotReturned
  }

  // ----- what the responses tell

  /** Response `i` is the first one of this very message that carries the section. */
  predicate CarriesFirst(responses: seq<Response>, uid: nat, name: SectionName, i: int) {
    && 0 <= i < |responses| && responses[i].uid == Some(uid) && name in responses[i].sections
    && forall j :: 0 <= j < i && responses[j].uid == Some(uid) ==> name !in responses[j].sections
  }

  /** What the first of the message's responses that carries the section carries. */
  ghost predicate SectionTold(responses: seq<Response>, uid: nat, name: SectionName, content: string) {
    exists i :: CarriesFirst(responses, uid, name, i) && responses[i].sections[name] == content
  }

  /** Some response of the message carries the section. */
  ghost predicate Carried(responses: seq<Response>, uid: nat, name: SectionName) {
    exists i :: 0 <= i < |responses| && responses[i].uid == Some(uid) && name in responses[i].sections
  }

  ghost predicate PartCarried(responses: seq<Response>, uid: nat, path: Path) {
    Carried(responses, uid, path.header) && Carried(responses, uid, path.body)
  }

  ghost predicate PartTold(responses: seq<Response>, uid: nat, path: Path, part: ReceivedPart) {
    SectionTold(responses, uid, path.header, part.header) && SectionTold(responses, uid, path.body, part.body)
  }

  /** What the responses to one command tell of a message: received when the message's
      own responses carry the header and the body of every path, each part its path's;
      gone when it has no response and the command ended OK; else not returned. */
  ghost predicate TextTold(responses: seq<Response>, uid: nat, paths: seq<Path>, rejected: bool, text: MessageText) {
    match text
    case Disappeared => !Answered(responses, uid) && !rejected
    case NotReturned =>
      if Answered(responses, uid) then exists j :: 0 <= j < |paths| && !PartCarried(responses, uid, paths[j]) else rejected
    case Received(parts) =>
      && Answered(responses, uid) && |parts| == |paths|
      && forall j :: 0 <= j < |paths| ==> PartTold(responses, uid, paths[j], parts[j])
  }

  lemma {:induction false} SectionIsTold(responses: seq<Response>, uid: nat, name: SectionName)
    ensures FirstSection(responses, uid, name).Some? <==> Carried(responses, uid, name)
    ensures FirstSection(responses, uid, name).Some? ==>
              SectionTold(responses, uid, name, FirstSection(responses, uid, name).value)
  {
    if responses != [] {
      var rest := responses[1..];
      if responses[0].uid == Some(uid) && name in responses[0].sections {
        assert CarriesFirst(responses, uid, name, 0);
      } else {
        SectionIsTold(rest, uid, name);
        if FirstSection(rest, uid, name).Some? {
          var i :| CarriesFirst(rest, uid, name, i) && rest[i].sections[name] == FirstSection(rest, uid, name).value;
          assert CarriesFirst(responses, uid, name, i + 1);
        }
        if Carried(responses, uid, name) {
          var i :| 0 <= i < |responses| && responses[i].uid == Some(uid) && name in responses[i].sections;
          assert rest[i - 1] == responses[i];
        }
      }
    }
  }

  lemma PartIsTold(responses: seq<Response>, uid: nat, path: Path)
    ensures PartAt(responses, uid, path).Some? <==> PartCarried(responses, uid, path)
    ensures PartAt(responses, uid, path).Some? ==> PartTold(responses, uid, path, PartAt(responses, uid, path).value)
  {
    SectionIsTold(responses, uid, path.header);
    SectionIsTold(responses, uid, path.body);
  }

  /** The parts received are the parts requested, in their order; they lack only when
      one of them did not come whole. */
  lemma {:induction false} PartsAreTold(responses: seq<Response>, uid: nat, paths: seq<Path>)
    ensures
      var parts := AllParts(responses, uid, paths);
      && (parts.Some? ==> |parts.value| == |paths|
                          && forall j :: 0 <= j < |paths| ==> PartTold(responses, uid, paths[j], parts.value[j]))
      && (parts.None? ==> exists j :: 0 <= j < |paths| && !PartCarried(responses, uid, paths[j]))
  {
    hide PartTold, PartCarried, PartAt;
    if paths != [] {
      var n := |paths| - 1;
      PartsAreTold(responses, uid, paths[..n]);
      PartIsTold(responses, uid, paths[n]);
      if AllParts(responses, uid, paths[..n]).None? {
        var j :| 0 <= j < n && !PartCarried(responses, uid, paths[..n][j]);
        assert !PartCarried(responses, uid, paths[j]);
      }
    }
  }

  lemma TextIsTold(responses: seq<Response>, uid: nat, paths: seq<Path>, rejected: bool)
    ensures TextTold(responses, uid, paths, rejected, MessageTextOf(responses, uid, paths, rejected))
  {
    PartsAreTold(responses, uid, paths);
  }

  /** What is reported to the caller for one request. */
  datatype Report = Report(request: TextRequest, text: MessageText)

  function Requests(reports: seq<Report>): seq<TextRequest> {
    seq(|reports|, j requires 0 <= j < |reports| => reports[j].request)
  }

  datatype Shape = Shape(parts: TextParts, limit: Option<nat>)

  function ShapeOf(request: TextRequest): Shape {
    Shape(request.parts, request.limit)
  }

  /** The requests of a shape, and those of several shapes. */
  function OfShape(uids: seq<nat>, shape: Shape): seq<TextRequest> {
    seq(|uids|, j requires 0 <= j < |uids| => TextRequest(uids[j], shape.parts, shape.limit))
  }

  function WithShape(requests: seq<TextRequest>, shape: Shape): seq<TextRequest> {
    if requests == [] then []
    else
      var last := requests[|requests| - 1];
      WithShape(requests[..|requests| - 1], shape) + if ShapeOf(last) == shape then [last] else []
  }

  lemma {:induction false} WithShapeCounts(requests: seq<TextRequest>, shape: Shape, r: TextRequest)
    ensures multiset(WithShape(requests, shape))[r] == if ShapeOf(r) == shape then multiset(requests)[r] else 0
  {
    if requests != [] {
      var n := |requests| - 1;
      WithShapeCounts(requests[..n], shape, r);
      assert requests == requests[..n] + [requests[n]];
    }
  }

  function GroupOf(groups: map<Shape, seq<nat>>, shape: Shape): seq<nat> {
    if shape in groups then groups[shape] else []
  }

  /** The group of a shape holds its requests, in their order; only a shape that is asked for has one. */
  ghost predicate GroupIs(groups: map<Shape, seq<nat>>, requests: seq<TextRequest>, shape: Shape) {
    && OfShape(GroupOf(groups, shape), shape) == WithShape(requests, shape)
    && (shape in groups <==> WithShape(requests, shape) != [])
  }

  ghost predicate GroupsAre(groups: map<Shape, seq<nat>>, requests: seq<TextRequest>) {
    forall shape :: GroupIs(groups, requests, shape)
  }

  lemma GroupsGrow(groups: map<Shape, seq<nat>>, requests: seq<TextRequest>, request: TextRequest)
    requires GroupsAre(groups, requests)
    ensures GroupsAre(groups[ShapeOf(request) := GroupOf(groups, ShapeOf(request)) + [request.uid]], requests + [request])
  {
    var key := ShapeOf(request);
    var more := groups[key := GroupOf(groups, key) + [request.uid]];
    forall shape
      ensures GroupIs(more, requests + [request], shape)
    {
      assert GroupIs(groups, requests, shape);
      assert (requests + [request])[..|requests|] == requests;
      if shape == key {
        assert OfShape(GroupOf(more, key), key) == OfShape(GroupOf(groups, key), key) + [request];
      }
    }
  }

  method GroupByShape(requests: seq<TextRequest>) returns (groups: map<Shape, seq<nat>>)
    ensures GroupsAre(groups, requests)
  {
    groups := map[];
    for i := 0 to |requests|
      invariant GroupsAre(groups, requests[..i])
    {
      var key := ShapeOf(requests[i]);
      var earlier := GroupOf(groups, key);
      assert requests[..i + 1] == requests[..i] + [requests[i]];
      GroupsGrow(groups, requests[..i], requests[i]);
      groups := groups[key := earlier + [requests[i].uid]];
    }
    assert requests[..|requests|] == requests;
  }

  /** One command and its answer: the messages of one shape of request. */
  datatype Exchange = Exchange(shape: Shape, uids: seq<nat>, answer: Answer)

  /** A failure, or a refusal the server marks temporary, fails the read. */
  predicate Fails(answer: Answer) {
    answer.end.Failed? || (answer.end.Rejected? && answer.end.temporary)
  }

  predicate LastFails(log: seq<Exchange>, start: nat) {
    start < |log| && Fails(log[|log| - 1].answer)
  }

  /** The report tells what the exchange's answer gave its message. */
  ghost predicate ReportedBy(x: Exchange, r: Report) {
    && x.shape == ShapeOf(r.request) && r.request.uid in x.uids && !Fails(x.answer)
    && TextTold(x.answer.responses, r.request.uid, Paths(r.request.parts), x.answer.end.Rejected?, r.text)
  }

  ghost predicate ReportedSince(log: seq<Exchange>, start: nat, r: Report) {
    exists k :: start <= k < |log| && ReportedBy(log[k], r)
  }

  /** The commands from `start` on ask for the requests of one shape each, no shape twice. */
  ghost predicate AsksByShape(log: seq<Exchange>, start: nat, requests: seq<TextRequest>) {
    && (forall k :: start <= k < |log| ==> log[k].uids != [] && OfShape(log[k].uids, log[k].shape) == WithShape(requests, log[k].shape))
    && (forall k, l :: start <= k < l < |log| ==> log[k].shape != log[l].shape)
  }

  /** Their answers are the server's, in their order. */
  ghost predicate AnsweredBy(log: seq<Exchange>, start: nat, answers: nat -> Answer, from: nat) {
    forall k :: start <= k < |log| ==> log[k].answer == answers(from + k - start)
  }

  /** The text commands of a cycle against a server that answers as it likes. */
  class TextReader {
    const answers: nat -> Answer
    var commands: nat
    ghost var log: seq<Exchange>

    constructor (answers: nat -> Answer)
      ensures commands == 0 && this.answers == answers && log == []
    {
      this.answers, commands, log := answers, 0, [];
    }

    method Fetch(shape: Shape, uids: seq<nat>) returns (answer: Answer)
      modifies this
      ensures commands == old(commands) + 1 && answer == answers(old(commands))
      ensures log == old(log) + [Exchange(shape, uids, answer)]
    {
      answer := answers(commands);
      commands := commands + 1;
      log := log + [Exchange(shape, uids, answer)];
    }

    /** One command for each shape of request. On success each request is reported
        exactly once, on a failure none twice; every report tells what the answer to
        the one command of its shape gave its own message. */
    method FetchText(requests: seq<TextRequest>) returns (reports: seq<Report>, failed: bool)
      modifies this
      ensures old(log) <= log && commands == old(commands) + |log| - |old(log)|
      ensures AsksByShape(log, |old(log)|, requests) && AnsweredBy(log, |old(log)|, answers, old(commands))
      ensures multiset(Requests(reports)) <= multiset(requests)
      ensures !failed ==> multiset(Requests(reports)) == multiset(requests)
      ensures failed <==> LastFails(log, |old(log)|)
      ensures forall r :: r in reports ==> ReportedSince(log, |old(log)|, r)
    {
      var groups := GroupByShape(requests);
      var left := groups.Keys;
      reports := [];
      ghost var start, from := |log|, commands;
      while left != {}
        invariant left <= groups.Keys && old(log) <= log && commands == from + |log| - start
        invariant AsksByShape(log, start, requests) && AnsweredBy(log, start, answers, from)
        invariant AllFine(log, start, left)
        invariant CountsOf(reports, requests, groups.Keys - left)
        invariant forall r :: r in reports ==> ReportedSince(log, start, r)
        decreases left
      {
        var shape :| shape in left;
        ghost var before, at := log, commands;
        var answer := Fetch(shape, groups[shape]);
        ghost var x := Exchange(shape, groups[shape], answer);
        assert GroupIs(groups, requests, shape);
        AsksGrow(before, start, x, requests);
        AnswersGrow(before, start, x, answers, from, at);
        if Fails(answer) {
          AllStay(before, start, x, reports, []);
          CountsWithin(reports, requests, groups.Keys - left);
          return reports, true;
        }
        FineGrows(before, start, x, left);
        var group := ReportGroup(x, groups[shape], shape, answer);
        GroupCounts(groups, requests, left, shape, reports, group);
        AllStay(before, start, x, reports, group);
        reports := reports + group;
        left := left - {shape};
      }
      AllCounted(reports, requests, groups);
      return reports, false;
    }
  }

  /** The commands so far did not fail, and none was of a shape that is left. */
  ghost predicate AllFine(log: seq<Exchange>, start: nat, left: set<Shape>) {
    forall k :: start <= k < |log| ==> log[k].shape !in left && !Fails(log[k].answer)
  }

  lemma FineGrows(log: seq<Exchange>, start: nat, x: Exchange, left: set<Shape>)
    requires start <= |log| && AllFine(log, start, left) && x.shape in left && !Fails(x.answer)
    ensures AllFine(log + [x], start, left - {x.shape})
  {
  }

  lemma AllStay(log: seq<Exchange>, start: nat, x: Exchange, reports: seq<Report>, group: seq<Report>)
    requires start <= |log| && (forall r :: r in reports ==> ReportedSince(log, start, r))
    requires forall r :: r in group ==> ReportedBy(x, r)
    ensures forall r :: r in reports + group ==> ReportedSince(log + [x], start, r)
  {
    forall r | r in reports + group
      ensures ReportedSince(log + [x], start, r)
    {
      ReportsStay(log, start, x, r);
    }
  }

  method ReportGroup(ghost x: Exchange, uids: seq<nat>, shape: Shape, answer: Answer) returns (group: seq<Report>)
    requires x == Exchange(shape, uids, answer) && !Fails(answer)
    ensures Requests(group) == OfShape(uids, shape)
    ensures forall r :: r in group ==> ReportedBy(x, r)
  {
    group := [];
    for i := 0 to |uids|
      invariant |group| == i
      invariant forall j :: 0 <= j < i ==> group[j].request == TextRequest(uids[j], shape.parts, shape.limit)
      invariant forall r :: r in group ==> ReportedBy(x, r)
    {
      var report := Report(TextRequest(uids[i], shape.parts, shape.limit),
                           MessageTextOf(answer.responses, uids[i], Paths(shape.parts), answer.end.Rejected?));
      TextIsTold(answer.responses, uids[i], Paths(shape.parts), answer.end.Rejected?);
      assert ReportedBy(x, report);
      group := group + [report];
    }
  }

  lemma AsksGrow(log: seq<Exchange>, start: nat, x: Exchange, requests: seq<TextRequest>)
    requires start <= |log| && AsksByShape(log, start, requests)
    requires x.uids != [] && OfShape(x.uids, x.shape) == WithShape(requests, x.shape)
    requires forall k :: start <= k < |log| ==> log[k].shape != x.shape
    ensures AsksByShape(log + [x], start, requests)
  {
    var more := log + [x];
    forall k | start <= k < |more|
      ensures more[k].uids != [] && OfShape(more[k].uids, more[k].shape) == WithShape(requests, more[k].shape)
    {
      if k < |log| {
        assert more[k] == log[k];
      }
    }
  }

  lemma AnswersGrow(log: seq<Exchange>, start: nat, x: Exchange, answers: nat -> Answer, from: nat, at: nat)
    requires start <= |log| && AnsweredBy(log, start, answers, from)
    requires at == from + |log| - start && x.answer == answers(at)
    ensures AnsweredBy(log + [x], start, answers, from)
  {
  }

  lemma ReportsStay(log: seq<Exchange>, start: nat, x: Exchange, r: Report)
    requires start <= |log| && (ReportedSince(log, start, r) || ReportedBy(x, r))
    ensures ReportedSince(log + [x], start, r)
  {
    if k :| start <= k < |log| && ReportedBy(log[k], r) {
      assert (log + [x])[k] == log[k];
    } else {
      assert (log + [x])[|log|] == x;
    }
  }

  /** The reports are those of the requests of these shapes, each as often as it was made. */
  ghost predicate CountsOf(reports: seq<Report>, requests: seq<TextRequest>, shapes: set<Shape>) {
    forall r :: TimesTold(reports, r) == if ShapeOf(r) in shapes then multiset(requests)[r] else 0
  }

  function TimesTold(reports: seq<Report>, r: TextRequest): nat {
    multiset(Requests(reports))[r]
  }

  lemma CountsWithin(reports: seq<Report>, requests: seq<TextRequest>, shapes: set<Shape>)
    requires CountsOf(reports, requests, shapes)
    ensures multiset(Requests(reports)) <= multiset(requests)
  {
    forall r
      ensures multiset(Requests(reports))[r] <= multiset(requests)[r]
    {
      assert TimesTold(reports, r) <= multiset(requests)[r];
    }
  }

  lemma AllCounted(reports: seq<Report>, requests: seq<TextRequest>, groups: map<Shape, seq<nat>>)
    requires CountsOf(reports, requests, groups.Keys) && GroupsAre(groups, requests)
    ensures multiset(Requests(reports)) == multiset(requests)
  {
    forall r
      ensures multiset(Requests(reports))[r] == multiset(requests)[r]
    {
      assert GroupIs(groups, requests, ShapeOf(r));
      WithShapeCounts(requests, ShapeOf(r), r);
      assert TimesTold(reports, r) == multiset(requests)[r];
    }
  }

  lemma GroupCounts(groups: map<Shape, seq<nat>>, requests: seq<TextRequest>, left: set<Shape>, shape: Shape,
                    reports: seq<Report>, group: seq<Report>)
    requires GroupIs(groups, requests, shape) && shape in left && left <= groups.Keys
    requires Requests(group) == OfShape(groups[shape], shape)
    requires CountsOf(reports, requests, groups.Keys - left)
    ensures CountsOf(reports + group, requests, groups.Keys - (left - {shape}))
  {
    forall r
      ensures TimesTold(reports + group, r) == if ShapeOf(r) in groups.Keys - (left - {shape}) then multiset(requests)[r] else 0
    {
      GroupCount(requests, shape, reports, group, r);
    }
  }

  lemma GroupCount(requests: seq<TextRequest>, shape: Shape, reports: seq<Report>, group: seq<Report>, r: TextRequest)
    requires Requests(group) == WithShape(requests, shape)
    ensures TimesTold(reports + group, r) == TimesTold(reports, r) + if ShapeOf(r) == shape then multiset(requests)[r] else 0
  {
    assert Requests(reports + group) == Requests(reports) + Requests(group);
    WithShapeCounts(requests, shape, r);
  }

  // ----- the plan

  /** What the decoders give, which this model does not look into. */
  datatype Decoders = Decoders(
    text: seq<ReceivedPart> -> Content,
    piece: (ReceivedPart, bool) -> string,
    preview: string -> string)

  function ExplanationText(e: Explanation): string {
    match e
    case IsEncrypted => "encrypted"
    case SecuredWithSMime => "secured with S/MIME"
    case NoPlainText(hasHtml) => if hasHtml then "a web page only" else "no text"
  }

  function TextPartsOf(root: Part, sections: seq<Section>): TextParts {
    if root.children == [] then SinglePartBody else MultipartLeaves(sections)
  }

  /** A message of one part has at most one text, and never a text and a page. */
  lemma OnePart(root: Part)
    requires root.children == []
    ensures |TextSections(root)| <= 1
    ensures TextSections(root) != [] ==> TextSections(root) == [root.section] && FirstPage(root).None?
  {
  }

  /** What a recent message shows before its text is there. */
  function ContentBefore(structure: Option<Part>): Content {
    match structure
    case None => StructureUnreadable
    case Some(root) =>
      if TextSections(root) != [] then TextNotReturned
      else Explained(ExplanationText(ExplanationOf(root).GetOr(NoPlainText(HasPage(root)))))
  }

  function Sources(decoders: Decoders, pieces: Option<MessageText>, pageFirst: bool, content: Content): seq<string> {
    (if pieces.Some? && pieces.value.Received?
     then seq(|pieces.value.parts|, i requires 0 <= i < |pieces.value.parts| =>
              decoders.piece(pieces.value.parts[i], i == 0 && pageFirst))
     else [])
    + if content.Text? then [decoders.preview(content.text)] else []
  }

  function FirstWords(sources: seq<string>): string {
    if sources == [] then "" else if sources[0] != "" then sources[0] else FirstWords(sources[1..])
  }

  /** The preview is the first source with words, and empty when none has any. */
  lemma {:induction false} FirstWordsAre(sources: seq<string>)
    ensures FirstWords(sources) == "" <==> forall k :: 0 <= k < |sources| ==> sources[k] == ""
    ensures FirstWords(sources) != "" ==>
              exists k :: 0 <= k < |sources| && sources[k] == FirstWords(sources) && forall j :: 0 <= j < k ==> sources[j] == ""
  {
    if sources != [] && sources[0] == "" {
      FirstWordsAre(sources[1..]);
      if FirstWords(sources) != "" {
        var k :| 0 <= k < |sources| - 1 && sources[1..][k] == FirstWords(sources) && forall j :: 0 <= j < k ==> sources[1..][j] == "";
        assert sources[k + 1] == FirstWords(sources);
        forall j | 0 <= j < k + 1
          ensures sources[j] == ""
        {
          assert j > 0 ==> sources[j] == sources[1..][j - 1];
        }
      } else {
        forall k | 0 <= k < |sources|
          ensures sources[k] == ""
        {
          assert k > 0 ==> sources[k] == sources[1..][k - 1];
        }
      }
    }
  }

  // ----- what is shown of a message

  /** A message whose row arrived; a recent one's text is read whole. */
  datatype Row = Row(uid: nat, structure: Option<Part>, recent: bool)

  predicate ReadsWhole(root: Part, recent: bool) {
    recent && TextSections(root) != []
  }

  /** The sections asked for: of a recent message the plain ones and the page after
      them, of another the beginnings of the page and of the first plain one. */
  function AskedSections(root: Part, recent: bool): seq<Section> {
    var plain, page := TextSections(root), FirstPage(root);
    if ReadsWhole(root, recent) then plain + (if page.Some? then [page.value] else [])
    else if page.Some? then [page.value] + (if plain == [] then [] else [plain[0]])
    else if recent || plain == [] then []
    else [plain[0]]
  }

  /** The one request of a message, if it has any. */
  function WantedOf(row: Row): seq<TextRequest> {
    if row.structure.None? || AskedSections(row.structure.value, row.recent) == [] then []
    else
      var root := row.structure.value;
      [TextRequest(row.uid, TextPartsOf(root, AskedSections(root, row.recent)),
                   if ReadsWhole(root, row.recent) then None else Some(PREVIEW_PIECE_BYTES))]
  }

  /** What is shown before a text is read, or where none is. */
  function Unread(row: Row): Content {
    if row.recent then ContentBefore(row.structure) else NotDownloaded
  }

  /** A message is asked for exactly when it has a text or a page to read. A recent one
      with a text is read whole, its page after the texts; of another the first 64 KiB
      come of its page and then of its first text. */
  lemma WantedIsFor(row: Row)
    ensures WantedOf(row) == [] <==>
              row.structure.None? || (TextSections(row.structure.value) == [] && FirstPage(row.structure.value).None?)
    ensures WantedOf(row) != [] ==>
              var root := row.structure.value;
              var plain, page, sections := TextSections(root), FirstPage(root), AskedSections(root, row.recent);
              && |WantedOf(row)| == 1 && WantedOf(row)[0].uid == row.uid
              && if row.recent && plain != [] then
                   && WantedOf(row)[0].limit.None? && plain <= sections
                   && sections[|plain|..] == (if page.Some? then [page.value] else [])
                 else
                   && WantedOf(row)[0].limit == Some(65536)
                   && sections == (if page.Some? then [page.value] else []) + plain[..if plain == [] then 0 else 1]
  {
  }

  /** Without a text read, an older message counts as not downloaded; of a recent one
      it is said that its structure could not be read, that its text did not come, or
      why it has none: the first encrypted or S/MIME part reached, else whether there
      is a web page. */
  lemma UnreadIs(row: Row)
    ensures Unread(row).NotDownloaded? <==> !row.recent
    ensures Unread(row).StructureUnreadable? <==> row.recent && row.structure.None?
    ensures Unread(row).TextNotReturned? <==> row.recent && row.structure.Some? && TextSections(row.structure.value) != []
    ensures Unread(row).Explained? <==> row.recent && row.structure.Some? && TextSections(row.structure.value) == []
    ensures Unread(row).Explained? ==>
              var root := row.structure.value;
              Unread(row).explanation == ExplanationText(
                if ExplanationOf(root).Some? then ExplanationOf(root).value else NoPlainText(HasPage(root)))
  {
  }

  function SectionPath(root: Part, section: Section): Path {
    if root.children == [] then Path(MessageHeader, PartBody([1])) else Path(PartHeader(section), PartBody(section))
  }

  /** Each section asked for has its own header and body among the paths, in the order asked. */
  lemma AskedPaths(root: Part, recent: bool)
    requires AskedSections(root, recent) != []
    ensures
      var sections := AskedSections(root, recent);
      var paths := Paths(TextPartsOf(root, sections));
      |paths| == |sections| && forall j :: 0 <= j < |sections| ==> paths[j] == SectionPath(root, sections[j])
  {
    if root.children == [] {
      OnePart(root);
    }
  }

  /** Every section arrived in the message's own responses, header and body. */
  ghost predicate AllArrived(root: Part, recent: bool, responses: seq<Response>, uid: nat) {
    && Answered(responses, uid)
    && forall j :: 0 <= j < |AskedSections(root, recent)| ==>
         PartCarried(responses, uid, SectionPath(root, AskedSections(root, recent)[j]))
  }

  /** The parts as they arrived, each its own section's header and body from the
      message's own responses. */
  ghost predicate ArrivedAs(root: Part, recent: bool, responses: seq<Response>, uid: nat, parts: seq<ReceivedPart>) {
    && |parts| == |AskedSections(root, recent)|
    && forall j :: 0 <= j < |parts| ==> PartTold(responses, uid, SectionPath(root, AskedSections(root, recent)[j]), parts[j])
  }

  lemma ToldIsCarried(responses: seq<Response>, uid: nat, path: Path, part: ReceivedPart)
    requires PartTold(responses, uid, path, part)
    ensures PartCarried(responses, uid, path)
  {
    var i :| CarriesFirst(responses, uid, path.header, i) && responses[i].sections[path.header] == part.header;
    var j :| CarriesFirst(responses, uid, path.body, j) && responses[j].sections[path.body] == part.body;
  }

  /** What the answer to its command says of the message. */
  lemma TextIs(root: Part, recent: bool, responses: seq<Response>, uid: nat, rejected: bool, text: MessageText)
    requires AskedSections(root, recent) != []
    requires TextTold(responses, uid, Paths(TextPartsOf(root, AskedSections(root, recent))), rejected, text)
    ensures text.Disappeared? <==> !Answered(responses, uid) && !rejected
    ensures text.Received? <==> AllArrived(root, recent, responses, uid)
    ensures text.Received? ==> ArrivedAs(root, recent, responses, uid, text.parts)
  {
    hide PartTold, PartCarried;
    var sections := AskedSections(root, recent);
    var paths := Paths(TextPartsOf(root, sections));
    AskedPaths(root, recent);
    assert AllArrived(root, recent, responses, uid) <==>
           Answered(responses, uid) && forall j :: 0 <= j < |paths| ==> PartCarried(responses, uid, paths[j]);
    if text.Received? {
      forall j | 0 <= j < |paths|
        ensures PartCarried(responses, uid, paths[j])
      {
        ToldIsCarried(responses, uid, paths[j], text.parts[j]);
      }
    }
  }

  /** What is shown of a message whose parts arrived: the plain parts make its text,
      the page only its preview. */
  ghost predicate ShowsParts(row: Row, decoders: Decoders, parts: seq<ReceivedPart>, shown: (Content, string))
    requires row.structure.Some? && |parts| == |AskedSections(row.structure.value, row.recent)|
  {
    var root := row.structure.value;
    var page := FirstPage(root);
    if ReadsWhole(root, row.recent) then
      var n := |TextSections(root)|;
      var text := decoders.text(parts[..n]);
      && shown.0 == text
      && shown.1 == FirstWords((if page.Some? then [decoders.piece(parts[n], true)] else [])
                               + (if text.Text? then [decoders.preview(text.text)] else []))
    else
      && shown.0 == Unread(row)
      && shown.1 == FirstWords(seq(|parts|, j requires 0 <= j < |parts| => decoders.piece(parts[j], j == 0 && page.Some?)))
  }

  /** What one answer makes of a message that was asked for: gone after an OK that
      gave it nothing, shown with its parts when all arrived, else without them. */
  ghost predicate Shows(row: Row, decoders: Decoders, answer: Answer, shown: Option<(Content, string)>)
    requires WantedOf(row) != []
  {
    var root := row.structure.value;
    && (shown.None? <==> !Answered(answer.responses, row.uid) && !answer.end.Rejected?)
    && (shown.Some? ==>
          if AllArrived(root, row.recent, answer.responses, row.uid)
          then exists parts :: ArrivedAs(root, row.recent, answer.responses, row.uid, parts)
                               && ShowsParts(row, decoders, parts, shown.value)
          else shown.value == (if ReadsWhole(root, row.recent) then TextNotReturned else Unread(row), ""))
  }

  /** What a reading holds of a message that did not disappear. */
  ghost predicate ReceivedIs(row: Row, decoders: Decoders, text: MessageText, content: Content, pieces: Option<MessageText>)
    requires WantedOf(row) != [] && !text.Disappeared?
  {
    var root := row.structure.value;
    && (text.Received? ==> |text.parts| == |AskedSections(root, row.recent)|)
    && if !ReadsWhole(root, row.recent) then content == Unread(row) && pieces == Some(text)
    else if text.NotReturned? then content == TextNotReturned && pieces.None?
    else
      var n := |TextSections(root)|;
      && content == decoders.text(text.parts[..n])
      && pieces == if FirstPage(root).Some? then Some(Received([text.parts[n]])) else None
  }

  /** What a finished reading shows, by what was reported for its message. */
  ghost predicate FinishedAs(row: Row, decoders: Decoders, told: Option<MessageText>, shown: Option<(Content, string)>) {
    match told
    case None => shown == Some((Unread(row), ""))
    case Some(text) =>
      && WantedOf(row) != [] && (shown.None? <==> text.Disappeared?)
      && (text.NotReturned? ==>
            shown == Some((if ReadsWhole(row.structure.value, row.recent) then TextNotReturned else Unread(row), "")))
      && (text.Received? ==> |text.parts| == |AskedSections(row.structure.value, row.recent)|
                             && ShowsParts(row, decoders, text.parts, shown.value))
  }

  lemma FinishShows(row: Row, decoders: Decoders, text: MessageText, content: Content, pieces: Option<MessageText>, pageFirst: bool)
    requires WantedOf(row) != [] && !text.Disappeared? && ReceivedIs(row, decoders, text, content, pieces)
    requires pageFirst == FirstPage(row.structure.value).Some?
    ensures FinishedAs(row, decoders, Some(text), Some((content, FirstWords(Sources(decoders, pieces, pageFirst, content)))))
  {
    var root := row.structure.value;
    if text.Received? && ReadsWhole(root, row.recent) {
      var ofText := if content.Text? then [decoders.preview(content.text)] else [];
      if FirstPage(root).Some? {
        assert Sources(decoders, pieces, pageFirst, content) == [decoders.piece(text.parts[|TextSections(root)|], true)] + ofText;
      } else {
        assert Sources(decoders, pieces, pageFirst, content) == [] + ofText;
      }
    } else if text.Received? {
      assert Sources(decoders, pieces, pageFirst, content)
          == seq(|text.parts|, j requires 0 <= j < |text.parts| => decoders.piece(text.parts[j], j == 0 && pageFirst));
    } else {
      assert Sources(decoders, pieces, pageFirst, content) == [];
    }
  }

  /** A message without a request shows why it has no text; another what the answer
      to the one command that asked for it makes of it. */
  ghost predicate ShownBy(row: Row, decoders: Decoders, log: seq<Exchange>, start: nat, shown: Option<(Content, string)>) {
    if WantedOf(row) == [] then shown == Some((Unread(row), ""))
    else exists k :: start <= k < |log| && log[k].shape == ShapeOf(WantedOf(row)[0]) && row.uid in log[k].uids
                     && Shows(row, decoders, log[k].answer, shown)
  }

  // ----- the reading of a message

  class MessageReading {
    var content: Content
    var textParts: Option<TextParts>
    var pieceParts: Option<TextParts>
    var pageFirst: bool
    var pageWithText: bool
    var pieces: Option<MessageText>
    var disappeared: bool

    /** What is read of a message, by its structure and its age. */
    ghost predicate Plans(structure: Option<Part>, recent: bool)
      reads this
    {
      match structure
      case None => textParts.None? && pieceParts.None? && !pageFirst && !pageWithText
      case Some(root) =>
        var plain, page := TextSections(root), FirstPage(root);
        && (textParts.Some? <==> recent && plain != [])
        && (pageFirst <==> page.Some?)
        && (pageWithText <==> textParts.Some? && page.Some?)
        && (textParts.Some? ==> textParts.value == TextPartsOf(root, if page.Some? then plain + [page.value] else plain))
        && (pageWithText ==> textParts.value.MultipartLeaves?)
        && (pieceParts.Some? <==> textParts.None? && (page.Some? || (!recent && plain != [])))
        && (pieceParts.Some? ==> pieceParts.value == TextPartsOf(root,
              if page.None? then plain[..1] else if plain == [] then [page.value] else [page.value, plain[0]]))
    }

    /** Plans the reading: a recent message's text whole, with its page in the same
        request; of another message the beginnings its preview may come from. */
    constructor (structure: Option<Part>, recent: bool)
      ensures Plans(structure, recent) && pieces.None? && !disappeared
      ensures content == if recent then ContentBefore(structure) else NotDownloaded
    {
      content, textParts, pieceParts := NotDownloaded, None, None;
      pageFirst, pageWithText, pieces, disappeared := false, false, None, false;
      new;
      if structure.None? {
        if recent {
          content := StructureUnreadable;
        }
        return;
      }
      var root := structure.value;
      if root.children == [] {
        OnePart(root);
      }
      var selection := SelectTextParts(root);
      var plain: seq<Section> := [];
      if selection.Parts? {
        plain := selection.sections;
      } else if recent {
        content := Explained(ExplanationText(selection.explanation));
      }
      if recent && plain != [] {
        content := TextNotReturned;
        textParts := Some(TextPartsOf(root, plain));
      }
      var page := FirstPage(root);
      pageFirst := page.Some?;
      if page.Some? && textParts.Some? {
        textParts := Some(TextPartsOf(root, plain + [page.value]));
        pageWithText := true;
      } else if page.Some? {
        pieceParts := Some(TextPartsOf(root, if plain == [] then [page.value] else [page.value, plain[0]]));
      } else if plain != [] && !recent {
        pieceParts := Some(TextPartsOf(root, plain[..1]));
      }
    }

    /** The requests of a message: one at most. */
    function Wanted(uid: nat): seq<TextRequest>
      reads this
    {
      (if textParts.Some? then [TextRequest(uid, textParts.value, None)] else [])
      + (if pieceParts.Some? then [TextRequest(uid, pieceParts.value, Some(PREVIEW_PIECE_BYTES))] else [])
    }

    /** Takes what was reported for one of the requests. Where the page was read with
        the text, it is the last part received and the others are the plain parts in
        order; so there is always one to take. */
    method Receive(limit: Option<nat>, text: MessageText, decoders: Decoders,
                   ghost structure: Option<Part>, ghost recent: bool)
      requires Plans(structure, recent)
      requires limit.None? ==> textParts.Some? && (text.Received? ==> |text.parts| == |Paths(textParts.value)|)
      modifies this`content, this`pieces, this`disappeared
      ensures text.Disappeared? ==> disappeared && content == old(content) && pieces == old(pieces)
      ensures !text.Disappeared? ==> disappeared == old(disappeared)
      ensures limit.Some? && !text.Disappeared? ==> content == old(content) && pieces == Some(text)
      ensures limit.None? && text.NotReturned? ==> content == TextNotReturned && pieces == old(pieces)
      ensures limit.None? && text.Received? ==>
                var n := |TextSections(structure.value)|;
                && n <= |text.parts| <= n + 1
                && content == decoders.text(text.parts[..n])
                && pieces == if FirstPage(structure.value).Some? then Some(Received([text.parts[n]])) else old(pieces)
    {
      if text.Disappeared? {
        disappeared := true;
        return;
      }
      if limit.None? && structure.Some? && structure.value.children == [] {
        OnePart(structure.value);
      }
      if limit.None? && text.Received? && pageWithText {
        var last := |text.parts| - 1;
        var page := text.parts[last];
        pieces := Some(Received([page]));
        content := decoders.text(text.parts[..last]);
      } else if limit.None? {
        if text.Received? {
          content := decoders.text(text.parts);
          assert text.parts[..|text.parts|] == text.parts;
        } else {
          content := TextNotReturned;
        }
      } else {
        pieces := Some(text);
      }
    }

    ghost predicate IsFresh(row: Row)
      reads this
    {
      Plans(row.structure, row.recent) && content == Unread(row) && pieces.None? && !disappeared
    }

    /** The reading has taken what was reported for its request. */
    ghost predicate HasReceived(row: Row, decoders: Decoders, text: MessageText)
      requires WantedOf(row) != []
      reads this
    {
      && Plans(row.structure, row.recent) && (disappeared <==> text.Disappeared?)
      && (!text.Disappeared? ==> ReceivedIs(row, decoders, text, content, pieces))
    }

    lemma WantedIs(row: Row)
      requires Plans(row.structure, row.recent)
      ensures Wanted(row.uid) == WantedOf(row)
    {
      if row.structure.Some? {
        var plain, page := TextSections(row.structure.value), FirstPage(row.structure.value);
        if plain != [] {
          assert plain[..1] == [plain[0]] && plain + [] == plain;
        }
        if page.Some? {
          assert [page.value] + [] == [page.value];
          assert plain != [] ==> [page.value] + [plain[0]] == [page.value, plain[0]];
        }
      }
    }

    /** Takes the report of the message's own request. */
    method ReceiveOwn(row: Row, text: MessageText, decoders: Decoders)
      requires IsFresh(row) && WantedOf(row) != []
      requires text.Received? ==> |text.parts| == |AskedSections(row.structure.value, row.recent)|
      modifies this`content, this`pieces, this`disappeared
      ensures HasReceived(row, decoders, text)
    {
      WantedIs(row);
      AskedPaths(row.structure.value, row.recent);
      assert Wanted(row.uid)[0] == WantedOf(row)[0];
      Receive(if textParts.Some? then None else Some(PREVIEW_PIECE_BYTES), text, decoders, row.structure, row.recent);
    }

    /** The content and the preview, none when the message disappeared. */
    method Finish(decoders: Decoders, ghost row: Row, ghost told: Option<MessageText>) returns (result: Option<(Content, string)>)
      requires HoldsFor(row, decoders, told)
      ensures FinishedAs(row, decoders, told, result)
    {
      if disappeared {
        return None;
      }
      if told.Some? {
        FinishShows(row, decoders, told.value, content, pieces, pageFirst);
      } else {
        assert Sources(decoders, pieces, pageFirst, content) == [];
      }
      return Some((content, FirstWords(Sources(decoders, pieces, pageFirst, content))));
    }

    /** The reading of a row, with what was reported for it so far. */
    ghost predicate HoldsFor(row: Row, decoders: Decoders, told: Option<MessageText>)
      reads this
    {
      match told
      case None => IsFresh(row)
      case Some(text) => WantedOf(row) != [] && HasReceived(row, decoders, text)
    }
  }
}
