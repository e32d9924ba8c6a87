/** Joining the soft line breaks of flowed text (sections 4.1 to 4.5 of RFC 3676). */
module Flowed {
  import opened Domain

  // ----- one line of the received text

  /** How many `c` the line starts with. */
  function Leading(line: string, c: char): (n: nat)
    ensures n <= |line| && (forall j :: 0 <= j < n ==> line[j] == c) && (n < |line| ==> line[n] != c)
  {
    if line == "" || line[0] != c then 0 else 1 + Leading(line[1..], c)
  }

  function WithoutReturn(line: string): string {
    if line != "" && line[|line| - 1] == '\r' then line[..|line| - 1] else line
  }

  function WithoutStuffing(text: string): string {
    if text != "" && text[0] == ' ' then text[1..] else text
  }

  predicate EndsWithSpace(text: string) {
    text != "" && text[|text| - 1] == ' '
  }

  const SEPARATOR := "-- "

  /** A line as received: its quoting depth and its text without the protecting space. */
  datatype Line = Line(depth: nat, text: string) {
    predicate IsSeparator() {
      text == SEPARATOR
    }

    /** Whether the paragraph goes on in the next line. */
    predicate Flows() {
      !IsSeparator() && EndsWithSpace(text)
    }

    /** The text that is kept: without the space that marks a soft break, where
        the sender says that space is no part of it. */
    function Kept(deleteSpace: bool): string {
      if Flows() && deleteSpace then text[..|text| - 1] else text
    }
  }

  function Received(raw: string): Line {
    var line := WithoutReturn(raw);
    var depth := Leading(line, '>');
    Line(depth, WithoutStuffing(line[depth..]))
  }

  function QuoteMarks(depth: nat): (marks: string)
    ensures |marks| == depth
  {
    if depth == 0 then "" else QuoteMarks(depth - 1) + ">"
  }

  function QuotePrefix(depth: nat): string {
    if depth == 0 then "" else QuoteMarks(depth) + " "
  }

  /** A line as shown. */
  function Shown(line: Line): string {
    QuotePrefix(line.depth) + line.text
  }

  /** What is shown of a quoted line reads back as that line: the quote marks, a space,
      the text. */
  lemma ShownReadsBack(line: Line)
    requires line.text == "" || line.text[|line.text| - 1] != '\r'
    ensures line.depth > 0 ==> Received(Shown(line)) == line
    ensures line.depth == 0 ==> Shown(line) == line.text
  {
    if line.depth > 0 {
      var rest := " " + line.text;
      assert Shown(line) == QuoteMarks(line.depth) + rest;
      MarksLead(line.depth, rest);
      assert WithoutReturn(Shown(line)) == Shown(line);
      assert Shown(line)[line.depth..] == rest;
    }
  }

  // ----- the joining

  /** The lines so far and the depth of a paragraph still open. */
  datatype Joining = Joining(lines: seq<Line>, open: Option<nat>)

  function Next(joining: Joining, line: Line, deleteSpace: bool): Joining {
    var kept := line.Kept(deleteSpace);
    var open := if line.Flows() then Some(line.depth) else None;
    var n := |joining.lines|;
    if joining.open == Some(line.depth) && !line.IsSeparator() && n > 0
    then Joining(joining.lines[..n - 1] + [Line(joining.lines[n - 1].depth, joining.lines[n - 1].text + kept)], open)
    else Joining(joining.lines + [Line(line.depth, kept)], open)
  }

  function Joined(raws: seq<string>, deleteSpace: bool): Joining {
    if raws == [] then Joining([], None)
    else Next(Joined(raws[..|raws| - 1], deleteSpace), Received(raws[|raws| - 1]), deleteSpace)
  }

  function AllShown(lines: seq<Line>): seq<string> {
    seq(|lines|, j requires 0 <= j < |lines| => Shown(lines[j]))
  }

  /** An open paragraph is the last line's. */
  lemma {:induction false} OpenIsLast(raws: seq<string>, deleteSpace: bool)
    ensures
      var joining := Joined(raws, deleteSpace);
      joining.open.Some? ==> joining.lines != [] && joining.lines[|joining.lines| - 1].depth == joining.open.value
  {
    if raws != [] {
      OpenIsLast(raws[..|raws| - 1], deleteSpace);
    }
  }

  lemma ShownNext(before: Joining, line: Line, deleteSpace: bool)
    requires before.open.Some? ==> before.lines != [] && before.lines[|before.lines| - 1].depth == before.open.value
    ensures
      var shown, kept := AllShown(before.lines), line.Kept(deleteSpace);
      AllShown(Next(before, line, deleteSpace).lines) ==
      if before.open == Some(line.depth) && !line.IsSeparator()
      then shown[|shown| - 1 := shown[|shown| - 1] + kept]
      else shown + [QuotePrefix(line.depth) + kept]
  {
    var after, kept := Next(before, line, deleteSpace), line.Kept(deleteSpace);
    if before.open == Some(line.depth) && !line.IsSeparator() {
      var last := before.lines[|before.lines| - 1];
      assert QuotePrefix(last.depth) + (last.text + kept) == (QuotePrefix(last.depth) + last.text) + kept;
    }
  }

  /** One line taken apart. */
  method ReadLine(raw: string, deleteSpace: bool)
    returns (depth: nat, content: string, isSeparator: bool, endsParagraph: bool)
    ensures depth == Received(raw).depth && content == Received(raw).Kept(deleteSpace)
    ensures isSeparator == Received(raw).IsSeparator() && endsParagraph == !Received(raw).Flows()
  {
    var line := WithoutReturn(raw);
    depth := Leading(line, '>');
    content := WithoutStuffing(line[depth..]);
    isSeparator := content == SEPARATOR;
    endsParagraph := isSeparator || !EndsWithSpace(content);
    if !endsParagraph && deleteSpace {
      content := content[..|content| - 1];
    }
  }

  /** The line before a signature stands alone, and nothing joins it. */
  lemma SeparatorStandsAlone(before: Joining, depth: nat, deleteSpace: bool)
    ensures Next(before, Line(depth, "-- "), deleteSpace) == Joining(before.lines + [Line(depth, "-- ")], None)
  {
  }

  /** The joining in one pass, the lines built as they are shown. */
  method UnflowLines(raws: seq<string>, deleteSpace: bool) returns (lines: seq<string>)
    ensures lines == AllShown(Joined(raws, deleteSpace).lines)
  {
    lines := [];
    var open: Option<nat> := None;
    for i := 0 to |raws|
      invariant lines == AllShown(Joined(raws[..i], deleteSpace).lines)
      invariant open == Joined(raws[..i], deleteSpace).open
    {
      var depth, content, isSeparator, endsParagraph := ReadLine(raws[i], deleteSpace);
      JoinedOneMore(raws, i, deleteSpace);
      OpenIsLast(raws[..i], deleteSpace);
      ShownNext(Joined(raws[..i], deleteSpace), Received(raws[i]), deleteSpace);
      if open == Some(depth) && !isSeparator {
        lines := lines[|lines| - 1 := lines[|lines| - 1] + content];
      } else {
        lines := lines + [QuotePrefix(depth) + content];
      }
      open := if endsParagraph then None else Some(depth);
    }
    assert raws[..|raws|] == raws;
  }

  lemma JoinedOneMore(raws: seq<string>, i: nat, deleteSpace: bool)
    requires i < |raws|
    ensures Joined(raws[..i + 1], deleteSpace) == Next(Joined(raws[..i], deleteSpace), Received(raws[i]), deleteSpace)
  {
    assert raws[..i + 1][..i] == raws[..i];
  }

  // ----- whole texts

  function Split(text: string): (lines: seq<string>)
    ensures lines != []
  {
    if text == "" then [""]
    else
      var rest := Split(text[1..]);
      if text[0] == '\n' then [""] + rest else [[text[0]] + rest[0]] + rest[1..]
  }

  function JoinedBy(lines: seq<string>): string
    requires lines != []
  {
    if |lines| == 1 then lines[0] else lines[0] + "\n" + JoinedBy(lines[1..])
  }

  method UnflowText(text: string, deleteSpace: bool) returns (shown: string)
    ensures Joined(Split(text), deleteSpace).lines != []
    ensures shown == JoinedBy(AllShown(Joined(Split(text), deleteSpace).lines))
  {
    LinesStay(Split(text), deleteSpace);
    var lines := UnflowLines(Split(text), deleteSpace);
    return JoinedBy(lines);
  }

  lemma {:induction false} LinesStay(raws: seq<string>, deleteSpace: bool)
    requires raws != []
    ensures Joined(raws, deleteSpace).lines != []
  {
  }

  predicate NoNewline(lines: seq<string>) {
    forall i :: 0 <= i < |lines| ==> '\n' !in lines[i]
  }

  lemma {:induction false} SplitOfLine(line: string, rest: string)
    requires '\n' !in line
    ensures Split(line + "\n" + rest) == [line] + Split(rest)
    ensures Split(line) == [line]
  {
    if line == "" {
      assert ("" + "\n" + rest)[1..] == rest;
    } else {
      SplitOfLine(line[1..], rest);
      assert (line + "\n" + rest)[1..] == line[1..] + "\n" + rest;
      assert line == [line[0]] + line[1..];
    }
  }

  lemma {:induction false} SplitOfJoined(lines: seq<string>)
    requires lines != [] && NoNewline(lines)
    ensures Split(JoinedBy(lines)) == lines
  {
    if |lines| == 1 {
      SplitOfLine(lines[0], "");
    } else {
      SplitOfJoined(lines[1..]);
      SplitOfLine(lines[0], JoinedBy(lines[1..]));
    }
  }

  // ----- nothing is lost

  /** Every character with its quoting depth, in order. */
  function Marked(line: Line): seq<(nat, char)> {
    seq(|line.text|, j requires 0 <= j < |line.text| => (line.depth, line.text[j]))
  }

  function AllMarked(lines: seq<Line>): seq<(nat, char)> {
    if lines == [] then [] else AllMarked(lines[..|lines| - 1]) + Marked(lines[|lines| - 1])
  }

  /** The kept text of every received line, with its depth. */
  function KeptLines(raws: seq<string>, deleteSpace: bool): seq<Line> {
    seq(|raws|, j requires 0 <= j < |raws| => Line(Received(raws[j]).depth, Received(raws[j]).Kept(deleteSpace)))
  }

  /** The joining keeps every kept character, in order and at its depth; without
      DelSp every character of the received text is kept. */
  lemma {:induction false} NothingIsLost(raws: seq<string>, deleteSpace: bool)
    ensures AllMarked(Joined(raws, deleteSpace).lines) == AllMarked(KeptLines(raws, deleteSpace))
    ensures forall j :: 0 <= j < |raws| && !deleteSpace ==> KeptLines(raws, deleteSpace)[j] == Received(raws[j])
  {
    hide Received, Next;
    if raws != [] {
      var n := |raws| - 1;
      var before, line := Joined(raws[..n], deleteSpace), Received(raws[n]);
      NothingIsLost(raws[..n], deleteSpace);
      OpenIsLast(raws[..n], deleteSpace);
      assert KeptLines(raws, deleteSpace)[..n] == KeptLines(raws[..n], deleteSpace);
      MarkedNext(before, line, deleteSpace);
    }
  }

  lemma MarkedNext(before: Joining, line: Line, deleteSpace: bool)
    requires before.open.Some? ==> before.lines != [] && before.lines[|before.lines| - 1].depth == before.open.value
    ensures AllMarked(Next(before, line, deleteSpace).lines)
         == AllMarked(before.lines) + Marked(Line(line.depth, line.Kept(deleteSpace)))
  {
    var after := Next(before, line, deleteSpace);
    if before.open == Some(line.depth) && !line.IsSeparator() {
      MarkedJoined(before.lines, after.lines, Line(line.depth, line.Kept(deleteSpace)));
    } else {
      assert after.lines[..|before.lines|] == before.lines;
    }
  }

  /** Text joined to the last line is marked after it. */
  lemma MarkedJoined(before: seq<Line>, after: seq<Line>, more: Line)
    requires before != [] && |after| == |before| && before[|before| - 1].depth == more.depth
    requires after[..|before| - 1] == before[..|before| - 1]
    requires after[|before| - 1] == Line(more.depth, before[|before| - 1].text + more.text)
    ensures AllMarked(after) == AllMarked(before) + Marked(more)
  {
    var n := |before| - 1;
    MarkedSum(more.depth, before[n].text, more.text);
    assert before[n] == Line(more.depth, before[n].text);
  }

  lemma MarkedSum(depth: nat, a: string, b: string)
    ensures Marked(Line(depth, a + b)) == Marked(Line(depth, a)) + Marked(Line(depth, b))
  {
  }

  // ----- section 4.2 the other way

  /** A line as a sender may write it: whether a space protects its start, and
      whether it ends in CR LF. */
  datatype Writing = Writing(stuffed: bool, carriageReturn: bool)

  function Written(depth: nat, text: string, w: Writing): string {
    QuoteMarks(depth) + Protected(text, w) + if w.carriageReturn then "\r" else ""
  }

  /** What a sender must see to: a text that starts with a space or a quote mark
      is protected, and holds no line end of its own. */
  predicate MayWrite(text: string, w: Writing) {
    && '\n' !in text && '\r' !in text
    && (w.stuffed || text == "" || (text[0] != ' ' && text[0] != '>'))
  }

  lemma {:induction false} LeadingIs(line: string, c: char, n: nat)
    requires n <= |line| && (forall j :: 0 <= j < n ==> line[j] == c) && (n < |line| ==> line[n] != c)
    ensures Leading(line, c) == n
  {
    if n > 0 {
      LeadingIs(line[1..], c, n - 1);
    }
  }

  lemma MarksLead(depth: nat, rest: string)
    requires rest == "" || rest[0] != '>'
    ensures Leading(QuoteMarks(depth) + rest, '>') == depth
  {
    MarksAreMarks(depth);
    LeadingIs(QuoteMarks(depth) + rest, '>', depth);
  }

  lemma {:induction false} MarksAreMarks(depth: nat)
    ensures forall j :: 0 <= j < depth ==> QuoteMarks(depth)[j] == '>'
  {
    if depth > 0 {
      MarksAreMarks(depth - 1);
    }
  }

  function Protected(text: string, w: Writing): string {
    if w.stuffed then " " + text else text
  }

  lemma ReturnIsDropped(line: string, w: Writing)
    requires '\r' !in line
    ensures WithoutReturn(line + if w.carriageReturn then "\r" else "") == line
  {
  }

  /** A written line is received as it was meant. */
  lemma WrittenIsReceived(depth: nat, text: string, w: Writing)
    requires MayWrite(text, w)
    ensures Received(Written(depth, text, w)) == Line(depth, text)
  {
    var protected := Protected(text, w);
    var line := QuoteMarks(depth) + protected;
    assert WithoutReturn(Written(depth, text, w)) == line by {
      MarksAreMarks(depth);
      ReturnIsDropped(line, w);
    }
    MarksLead(depth, protected);
    assert line[depth..] == protected;
    assert WithoutStuffing(protected) == text;
  }

  /** A paragraph in the pieces its soft breaks cut it into, or a separator. */
  datatype Block = Paragraph(depth: nat, pieces: seq<string>) | Separator(depth: nat)

  function Concat(pieces: seq<string>): string {
    if pieces == [] then "" else Concat(pieces[..|pieces| - 1]) + pieces[|pieces| - 1]
  }

  /** The line shown for the block. */
  function BlockLine(block: Block): Line {
    match block
    case Paragraph(depth, pieces) => Line(depth, Concat(pieces))
    case Separator(depth) => Line(depth, SEPARATOR)
  }

  /** The text on the line of piece `j`: with DelSp a soft break's space is added. */
  function PieceText(pieces: seq<string>, j: nat, deleteSpace: bool): string
    requires j < |pieces|
  {
    if j < |pieces| - 1 && deleteSpace then pieces[j] + " " else pieces[j]
  }

  /** What section 4.2 asks of a paragraph: every line but the last ends in a
      space, the last one does not, and none is the separator. */
  predicate LegalParagraph(pieces: seq<string>, deleteSpace: bool) {
    && pieces != []
    && (forall j :: 0 <= j < |pieces| - 1 ==>
          EndsWithSpace(PieceText(pieces, j, deleteSpace)) && PieceText(pieces, j, deleteSpace) != SEPARATOR)
    && !EndsWithSpace(pieces[|pieces| - 1])
  }

  /** The block as lines of one depth. */
  function BlockTexts(block: Block, deleteSpace: bool): seq<Line> {
    match block
    case Paragraph(depth, pieces) =>
      seq(|pieces|, j requires 0 <= j < |pieces| => Line(depth, PieceText(pieces, j, deleteSpace)))
    case Separator(depth) => [Line(depth, SEPARATOR)]
  }

  function TextLines(blocks: seq<Block>, deleteSpace: bool): seq<Line> {
    if blocks == [] then []
    else TextLines(blocks[..|blocks| - 1], deleteSpace) + BlockTexts(blocks[|blocks| - 1], deleteSpace)
  }

  predicate LegalBlocks(blocks: seq<Block>, deleteSpace: bool) {
    forall i :: 0 <= i < |blocks| && blocks[i].Paragraph? ==> LegalParagraph(blocks[i].pieces, deleteSpace)
  }

  /** The joining over received lines. */
  function JoinedLines(lines: seq<Line>, deleteSpace: bool): Joining {
    if lines == [] then Joining([], None)
    else Next(JoinedLines(lines[..|lines| - 1], deleteSpace), lines[|lines| - 1], deleteSpace)
  }

  lemma {:induction false} JoinedOfWritten(lines: seq<Line>, ws: seq<Writing>, raws: seq<string>, deleteSpace: bool)
    requires |ws| == |lines| == |raws|
    requires forall i :: 0 <= i < |lines| ==> MayWrite(lines[i].text, ws[i])
    requires forall i :: 0 <= i < |lines| ==> raws[i] == Written(lines[i].depth, lines[i].text, ws[i])
    ensures Joined(raws, deleteSpace) == JoinedLines(lines, deleteSpace)
  {
    if lines != [] {
      var n := |lines| - 1;
      JoinedOfWritten(lines[..n], ws[..n], raws[..n], deleteSpace);
      WrittenIsReceived(lines[n].depth, lines[n].text, ws[n]);
    }
  }

  lemma FirstPiece(before: seq<Line>, line: Line, deleteSpace: bool)
    requires JoinedLines(before, deleteSpace).open.None?
    ensures JoinedLines(before + [line], deleteSpace) ==
            Joining(JoinedLines(before, deleteSpace).lines + [Line(line.depth, line.Kept(deleteSpace))],
                    if line.Flows() then Some(line.depth) else None)
  {
    assert (before + [line])[..|before|] == before;
  }

  /** One more line of an open paragraph. */
  lemma NextPiece(lines: seq<Line>, done: seq<Line>, depth: nat, text: string, line: Line, deleteSpace: bool)
    requires JoinedLines(lines, deleteSpace) == Joining(done + [Line(depth, text)], Some(depth))
    requires line.depth == depth && !line.IsSeparator()
    ensures JoinedLines(lines + [line], deleteSpace) ==
            Joining(done + [Line(depth, text + line.Kept(deleteSpace))], if line.Flows() then Some(depth) else None)
  {
    assert (lines + [line])[..|lines|] == lines;
    assert (done + [Line(depth, text)])[..|done|] == done;
  }

  lemma PieceIs(depth: nat, pieces: seq<string>, j: nat, deleteSpace: bool)
    requires LegalParagraph(pieces, deleteSpace) && j < |pieces|
    ensures
      var line := Line(depth, PieceText(pieces, j, deleteSpace));
      !line.IsSeparator() && line.Kept(deleteSpace) == pieces[j] && (line.Flows() <==> j < |pieces| - 1)
  {
  }

  lemma ConcatOneMore(pieces: seq<string>, n: nat)
    requires n < |pieces|
    ensures Concat(pieces[..n + 1]) == Concat(pieces[..n]) + pieces[n]
    ensures Concat(pieces[..0]) + pieces[n] == pieces[n]
  {
    assert pieces[..n + 1][..n] == pieces[..n];
  }

  /** The lines of a block, after lines that leave no paragraph open, become one line. */
  lemma {:induction false} PiecesJoin(before: seq<Line>, depth: nat, pieces: seq<string>, all: seq<Line>, n: nat, deleteSpace: bool)
    requires LegalParagraph(pieces, deleteSpace) && n < |pieces|
    requires all == BlockTexts(Paragraph(depth, pieces), deleteSpace)
    requires JoinedLines(before, deleteSpace).open.None?
    ensures JoinedLines(before + all[..n + 1], deleteSpace) ==
            Joining(JoinedLines(before, deleteSpace).lines + [Line(depth, Concat(pieces[..n + 1]))],
                    if n + 1 < |pieces| then Some(depth) else None)
  {
    assert before + all[..n + 1] == (before + all[..n]) + [all[n]];
    PieceIs(depth, pieces, n, deleteSpace);
    ConcatOneMore(pieces, n);
    if n == 0 {
      assert before + all[..0] == before;
      FirstPiece(before, all[0], deleteSpace);
    } else {
      PiecesJoin(before, depth, pieces, all, n - 1, deleteSpace);
      NextPiece(before + all[..n], JoinedLines(before, deleteSpace).lines, depth, Concat(pieces[..n]), all[n], deleteSpace);
    }
  }

  function BlockLines(blocks: seq<Block>): seq<Line> {
    seq(|blocks|, j requires 0 <= j < |blocks| => BlockLine(blocks[j]))
  }

  /** One block after lines that leave no paragraph open. */
  lemma BlockJoins(before: seq<Line>, block: Block, texts: seq<Line>, deleteSpace: bool)
    requires block.Paragraph? ==> LegalParagraph(block.pieces, deleteSpace)
    requires texts == BlockTexts(block, deleteSpace) && JoinedLines(before, deleteSpace).open.None?
    ensures JoinedLines(before + texts, deleteSpace) == Joining(JoinedLines(before, deleteSpace).lines + [BlockLine(block)], None)
  {
    match block
    case Paragraph(depth, pieces) =>
      PiecesJoin(before, depth, pieces, texts, |pieces| - 1, deleteSpace);
      assert texts[..|pieces|] == texts && pieces[..|pieces|] == pieces;
    case Separator(depth) =>
      assert texts == [Line(depth, SEPARATOR)];
      FirstPiece(before, texts[0], deleteSpace);
  }

  lemma {:induction false} BlocksJoin(blocks: seq<Block>, deleteSpace: bool)
    requires LegalBlocks(blocks, deleteSpace)
    ensures JoinedLines(TextLines(blocks, deleteSpace), deleteSpace) == Joining(BlockLines(blocks), None)
  {
    if blocks != [] {
      var n := |blocks| - 1;
      var before, texts := TextLines(blocks[..n], deleteSpace), BlockTexts(blocks[n], deleteSpace);
      assert JoinedLines(before, deleteSpace) == Joining(BlockLines(blocks[..n]), None) by {
        BlocksJoin(blocks[..n], deleteSpace);
      }
      assert JoinedLines(before + texts, deleteSpace) == Joining(BlockLines(blocks[..n]) + [BlockLine(blocks[n])], None) by {
        BlockJoins(before, blocks[n], texts, deleteSpace);
      }
      BlockLinesOneMore(blocks);
    }
  }

  lemma BlockLinesOneMore(blocks: seq<Block>)
    requires blocks != []
    ensures BlockLines(blocks) == BlockLines(blocks[..|blocks| - 1]) + [BlockLine(blocks[|blocks| - 1])]
  {
  }

  lemma WrittenHasNoNewline(depth: nat, text: string, w: Writing)
    requires MayWrite(text, w)
    ensures '\n' !in Written(depth, text, w)
  {
    MarksAreMarks(depth);
  }

  /** A sender's text, however it breaks the paragraphs softly, protects its lines
      and ends them, comes back as each paragraph on one line at its depth and each
      separator alone. */
  lemma FlowedComesBack(blocks: seq<Block>, lines: seq<Line>, ws: seq<Writing>, raws: seq<string>, deleteSpace: bool)
    requires blocks != [] && LegalBlocks(blocks, deleteSpace)
    requires lines == TextLines(blocks, deleteSpace) && |ws| == |lines| == |raws| > 0
    requires forall i :: 0 <= i < |lines| ==> MayWrite(lines[i].text, ws[i])
    requires forall i :: 0 <= i < |lines| ==> raws[i] == Written(lines[i].depth, lines[i].text, ws[i])
    ensures Joined(Split(JoinedBy(raws)), deleteSpace).lines == BlockLines(blocks)
  {
    assert Split(JoinedBy(raws)) == raws by {
      forall i | 0 <= i < |raws|
        ensures '\n' !in raws[i]
      {
        WrittenHasNoNewline(lines[i].depth, lines[i].text, ws[i]);
      }
      SplitOfJoined(raws);
    }
    JoinedOfWritten(lines, ws, raws, deleteSpace);
    BlocksJoin(blocks, deleteSpace);
  }
}
