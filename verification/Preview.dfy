/** The words a list row previews: white space folded, what shows nothing left
    out, cut to the first characters; and the clean cut of a base64 piece. */
module Preview {
  import opened Domain

  const PREVIEW_CHARACTERS: nat := 400

  // ----- characters

  /** Unicode white space. */
  predicate IsWhiteSpace(c: char) {
    var v := c as int;
    || 0x9 <= v <= 0xD || v in {0x20, 0x85, 0xA0, 0x1680} || 0x2000 <= v <= 0x200A
    || v in {0x2028, 0x2029, 0x202F, 0x205F, 0x3000}
  }

  predicate IsBlank(c: char) {
    IsWhiteSpace(c) || c as int in {0x2800, 0x180E}
  }

  predicate IsControl(c: char) {
    c as int < 0x20 || 0x7F <= c as int < 0xA0
  }

  predicate IsInvisible(c: char) {
    var v := c as int;
    || IsControl(c) || v in {0xAD, 0x34F, 0xFEFF} || 0x200B <= v <= 0x200F || 0x202A <= v <= 0x202E
    || 0x2060 <= v <= 0x2064 || 0x2066 <= v <= 0x206F
  }

  predicate IsVisible(c: char) {
    !IsBlank(c) && !IsInvisible(c)
  }

  // ----- the words without a limit

  /** The words so far, and whether a blank waits before the next one. */
  datatype Folding = Folding(words: string, spacePending: bool)

  function Folded(text: string): Folding {
    if text == "" then Folding("", false)
    else
      var before, c := Folded(text[..|text| - 1]), text[|text| - 1];
      if IsBlank(c) then before.(spacePending := before.words != "")
      else if IsInvisible(c) then before
      else Folding(before.words + (if before.spacePending then " " else "") + [c], false)
  }

  /** All visible characters of the text, one space where there were blanks between. */
  function Words(text: string): string {
    Folded(text).words
  }

  function TrimmedEnd(s: string): string {
    if s != "" && IsWhiteSpace(s[|s| - 1]) then TrimmedEnd(s[..|s| - 1]) else s
  }

  function Cut(s: string): string {
    if |s| <= PREVIEW_CHARACTERS then s else s[..PREVIEW_CHARACTERS]
  }

  /** The preview: the first characters of the words. */
  function Normalised(text: string): string {
    TrimmedEnd(Cut(Words(text)))
  }

  // ----- the loop

  method NormaliseWords(text: string) returns (preview: string)
    ensures preview == Normalised(text)
  {
    var words, characters, spacePending := "", 0, false;
    for i := 0 to |text|
      invariant Folded(text[..i]) == Folding(words, spacePending)
      invariant characters == |words| <= PREVIEW_CHARACTERS
    {
      var c := text[i];
      assert text[..i + 1][..i] == text[..i];
      if IsBlank(c) {
        spacePending := words != "";
        continue;
      }
      if IsInvisible(c) {
        continue;
      }
      ghost var before := words;
      if spacePending {
        words := words + " ";
        characters := characters + 1;
        spacePending := false;
      }
      if characters >= PREVIEW_CHARACTERS {
        LimitReached(text, i, before, words);
        return TrimmedEnd(words);
      }
      words := words + [c];
      characters := characters + 1;
    }
    assert text[..|text|] == text;
    return TrimmedEnd(words);
  }

  /** What later characters do: they only add to the words. */
  lemma {:induction false} WordsGrow(text: string, n: nat)
    requires n <= |text|
    ensures Words(text[..n]) <= Words(text)
  {
    if n == |text| {
      assert text[..n] == text;
    } else {
      var m := |text| - 1;
      WordsGrow(text[..m], n);
      assert text[..m][..n] == text[..n];
    }
  }

  lemma VisibleIsNoSpace(c: char)
    requires IsVisible(c)
    ensures !IsWhiteSpace(c)
  {
  }

  /** The words end in a visible character. */
  lemma {:induction false} WordsEndVisibly(text: string)
    ensures Words(text) != "" ==> IsVisible(Words(text)[|Words(text)| - 1])
  {
    if text != "" {
      WordsEndVisibly(text[..|text| - 1]);
    }
  }

  lemma TrimmedSpace(s: string)
    requires s == "" || !IsWhiteSpace(s[|s| - 1])
    ensures TrimmedEnd(s) == s && TrimmedEnd(s + " ") == s
  {
    assert (s + " ")[..|s|] == s;
  }

  /** The cut of longer words, whichever side of the waiting space it falls. */
  lemma CutAtLimit(all: string, before: string, words: string)
    requires before != "" && !IsWhiteSpace(before[|before| - 1]) && |before| <= PREVIEW_CHARACTERS <= |words|
    requires (words == before || words == before + " ") && words <= all
    ensures TrimmedEnd(words) == before == TrimmedEnd(Cut(all))
  {
    TrimmedSpace(before);
    if |before| == PREVIEW_CHARACTERS {
      assert before <= words;
      assert Cut(all) == before;
    } else {
      assert Cut(all) == words;
    }
  }

  /** Where the limit stops the loop, the rest of the text changes nothing. */
  lemma LimitReached(text: string, i: nat, before: string, words: string)
    requires i < |text| && IsVisible(text[i]) && before == Words(text[..i]) && |before| <= PREVIEW_CHARACTERS
    requires words == before + if Folded(text[..i]).spacePending then " " else ""
    requires |words| >= PREVIEW_CHARACTERS
    ensures TrimmedEnd(words) == Normalised(text)
  {
    hide IsBlank, IsInvisible, IsWhiteSpace;
    assert before != "" && !IsWhiteSpace(before[|before| - 1]) by {
      PendingHasWords(text[..i]);
      WordsEndVisibly(text[..i]);
      VisibleIsNoSpace(before[|before| - 1]);
    }
    assert words <= Words(text) by {
      WordsGrow(text, i + 1);
      VisibleAddsToWords(text, i);
      assert words <= words + [text[i]];
    }
    CutAtLimit(Words(text), before, words);
  }

  lemma VisibleAddsToWords(text: string, i: nat)
    requires i < |text| && IsVisible(text[i])
    ensures Words(text[..i + 1]) == Words(text[..i]) + (if Folded(text[..i]).spacePending then " " else "") + [text[i]]
  {
    assert text[..i + 1][..i] == text[..i];
  }

  lemma {:induction false} PendingHasWords(text: string)
    ensures Folded(text).spacePending ==> Words(text) != ""
  {
    if text != "" {
      PendingHasWords(text[..|text| - 1]);
    }
  }

  // ----- which characters, and where a space

  /** Visible are all characters but white space, the two that show as blank, the
      controls, and those that show nothing: soft hyphen, joiners, the marks of
      direction, the invisible operators, the byte order mark. */
  lemma VisibleCodes(c: char)
    ensures
      var v := c as int;
      IsVisible(c) <==>
        && v > 0x20 && !(0x7F <= v <= 0xA0) && v !in {0xAD, 0x34F, 0x1680, 0x180E, 0x2800, 0x3000, 0xFEFF}
        && !(0x2000 <= v <= 0x200F) && !(0x2028 <= v <= 0x202F) && !(0x205F <= v <= 0x2064) && !(0x2066 <= v <= 0x206F)
  {
  }

  predicate NothingVisible(s: string) {
    forall i :: 0 <= i < |s| ==> !IsVisible(s[i])
  }

  predicate HasBlank(s: string) {
    exists i :: 0 <= i < |s| && IsBlank(s[i])
  }

  lemma {:induction false} BetweenWords(text: string, between: string)
    requires NothingVisible(between) && !Folded(text).spacePending
    ensures Folded(text + between) == Folding(Words(text), Words(text) != "" && HasBlank(between))
  {
    if between == "" {
      assert text + between == text;
    } else {
      var n := |between| - 1;
      BetweenWords(text, between[..n]);
      assert (text + between)[..|text + between| - 1] == text + between[..n];
      assert between == between[..n] + [between[n]];
      assert HasBlank(between) <==> HasBlank(between[..n]) || IsBlank(between[n]) by {
        if HasBlank(between[..n]) {
          var i :| 0 <= i < n && IsBlank(between[..n][i]);
          assert IsBlank(between[i]);
        }
        if i :| 0 <= i < |between| && IsBlank(between[i]) && i < n {
          assert IsBlank(between[..n][i]);
        }
      }
    }
  }

  lemma PendingEndsInBlank(text: string)
    requires text != "" && IsVisible(text[|text| - 1])
    ensures !Folded(text).spacePending
  {
  }

  /** Each next visible character is kept, after a space exactly when a blank lies
      between it and the visible one before; what stands before the first one and
      what shows nothing leaves no trace. */
  lemma NextCharacter(text: string, between: string, c: char)
    requires text == "" || IsVisible(text[|text| - 1])
    requires NothingVisible(between) && IsVisible(c)
    ensures Words(text + between + [c]) == Words(text) + (if text != "" && HasBlank(between) then " " else "") + [c]
  {
    if text != "" {
      PendingEndsInBlank(text);
    }
    BetweenWords(text, between);
    assert (text + between + [c])[..|text + between|] == text + between;
  }

  // ----- what a preview looks like

  predicate OneSpaceAt(s: string, i: nat)
    requires 0 < i < |s|
  {
    !(s[i - 1] == ' ' && s[i] == ' ')
  }

  /** Visible characters and single spaces, none at the start. */
  predicate CleanFront(s: string) {
    && (forall i :: 0 <= i < |s| ==> s[i] == ' ' || IsVisible(s[i]))
    && (s != "" ==> s[0] != ' ')
    && (forall i :: 0 < i < |s| ==> OneSpaceAt(s, i))
  }

  /** Visible characters and single spaces between them. */
  predicate Clean(s: string) {
    CleanFront(s) && (s != "" ==> s[|s| - 1] != ' ')
  }

  lemma FrontOfClean(s: string, n: nat)
    requires CleanFront(s) && n <= |s|
    ensures CleanFront(s[..n])
  {
    forall i | 0 < i < n
      ensures OneSpaceAt(s[..n], i)
    {
      assert OneSpaceAt(s, i);
    }
  }

  lemma {:induction false} WordsAreClean(text: string)
    ensures Clean(Words(text))
  {
    if text != "" {
      var n := |text| - 1;
      WordsAreClean(text[..n]);
      PendingHasWords(text[..n]);
      var before, words := Words(text[..n]), Words(text);
      assert before <= words;
      forall i | 0 < i < |words|
        ensures OneSpaceAt(words, i)
      {
        if i < |before| {
          assert OneSpaceAt(before, i);
        }
      }
    }
  }

  lemma CutIsClean(s: string)
    requires Clean(s)
    ensures Clean(TrimmedEnd(Cut(s))) && |TrimmedEnd(Cut(s))| <= PREVIEW_CHARACTERS && TrimmedEnd(Cut(s)) <= Cut(s)
    ensures if |s| <= PREVIEW_CHARACTERS then TrimmedEnd(Cut(s)) == s else |TrimmedEnd(Cut(s))| >= PREVIEW_CHARACTERS - 1
  {
    var cut := Cut(s);
    FrontOfClean(s, |cut|);
    assert cut == s[..|cut|];
    if cut != "" && cut[|cut| - 1] == ' ' {
      var shorter := cut[..|cut| - 1];
      assert shorter != "" && shorter[|shorter| - 1] == s[|shorter| - 1];
      assert cut == shorter + " ";
      assert OneSpaceAt(s, |shorter|);
      FrontOfClean(s, |shorter|);
      assert shorter == s[..|shorter|];
      TrimmedSpace(shorter);
    } else {
      assert cut == "" || !IsWhiteSpace(cut[|cut| - 1]);
    }
  }

  /** A preview has at most 400 characters, all visible but single spaces between
      words; only words longer than that are cut, and lose no more than a space. */
  lemma PreviewIsClean(text: string)
    ensures Clean(Normalised(text)) && |Normalised(text)| <= 400 && Normalised(text) <= Words(text)
    ensures if |Words(text)| <= 400 then Normalised(text) == Words(text) else |Normalised(text)| >= 399
  {
    WordsAreClean(text);
    CutIsClean(Words(text));
  }

  /** Clean text folds to itself; a space at its end waits. */
  lemma {:induction false} CleanStays(s: string)
    requires CleanFront(s)
    ensures Folded(s) == if s != "" && s[|s| - 1] == ' ' then Folding(s[..|s| - 1], true) else Folding(s, false)
  {
    if s != "" {
      var n := |s| - 1;
      FrontOfClean(s, n);
      CleanStays(s[..n]);
      assert s == s[..n] + [s[n]];
      if n > 0 {
        assert OneSpaceAt(s, n);
        if s[n - 1] == ' ' {
          assert s[..n] == s[..n][..n - 1] + " ";
        }
      }
    }
  }

  /** A preview made of a preview is the same. */
  lemma PreviewIsStable(text: string)
    ensures Normalised(Normalised(text)) == Normalised(text)
  {
    var preview := Normalised(text);
    PreviewIsClean(text);
    CleanStays(preview);
    if preview != "" {
      VisibleIsNoSpace(preview[|preview| - 1]);
    }
  }

  /** The preview of a text's beginning is the beginning of its preview. */
  lemma PreviewGrows(text: string, n: nat)
    requires n <= |text|
    ensures Normalised(text[..n]) <= Normalised(text)
  {
    var short, long := Words(text[..n]), Words(text);
    WordsGrow(text, n);
    WordsAreClean(text[..n]);
    WordsAreClean(text);
    if |short| >= PREVIEW_CHARACTERS {
      assert Cut(short) == Cut(long);
    } else {
      WordsEndVisibly(text[..n]);
      if short != "" {
        VisibleIsNoSpace(short[|short| - 1]);
      }
      assert Normalised(text[..n]) == short;
      TrimKeeps(Cut(long), short);
    }
  }

  /** Trimming never cuts into a beginning that ends visibly. */
  lemma {:induction false} TrimKeeps(s: string, front: string)
    requires front <= s && (front == "" || !IsWhiteSpace(front[|front| - 1]))
    ensures front <= TrimmedEnd(s)
  {
    if s != "" && IsWhiteSpace(s[|s| - 1]) {
      assert front != s;
      assert front <= s[..|s| - 1];
      TrimKeeps(s[..|s| - 1], front);
    }
  }

  // ----- a piece cut from a base64 body

  type Byte = b: int | 0 <= b < 256

  predicate IsAsciiWhiteSpace(b: Byte) {
    b in {0x20, 0x9, 0xA, 0xC, 0xD}
  }

  function Count(bytes: seq<Byte>): nat {
    if bytes == [] then 0
    else Count(bytes[..|bytes| - 1]) + if IsAsciiWhiteSpace(bytes[|bytes| - 1]) then 0 else 1
  }

  /** The places of the characters of base64, white space left out. */
  ghost function Characters(bytes: seq<Byte>): set<int> {
    set i | 0 <= i < |bytes| && bytes[i] !in {0x20, 0x9, 0xA, 0xC, 0xD}
  }

  lemma {:induction false} CountIs(bytes: seq<Byte>)
    ensures Count(bytes) == |Characters(bytes)|
  {
    if bytes != [] {
      var n := |bytes| - 1;
      CountIs(bytes[..n]);
      assert Characters(bytes) == Characters(bytes[..n]) + (if IsAsciiWhiteSpace(bytes[n]) then {} else {n});
    }
  }

  /** The decoder's check: the characters are whole groups of four. */
  predicate GroupsAreComplete(body: seq<Byte>) {
    Count(body) % 4 == 0
  }

  lemma {:induction false} CountGrows(bytes: seq<Byte>, m: nat, n: nat)
    requires m <= n <= |bytes|
    ensures Count(bytes[..m]) <= Count(bytes[..n])
  {
    if m < n {
      CountGrows(bytes, m, n - 1);
      assert bytes[..n][..n - 1] == bytes[..n - 1];
    }
  }

  /** Drops the characters of an incomplete last group: the longest beginning that
      the decoder accepts. */
  method CleanCut(piece: seq<Byte>, base64: bool) returns (cut: seq<Byte>)
    ensures cut <= piece
    ensures !base64 ==> cut == piece
    ensures base64 ==> |Characters(cut)| % 4 == 0
    ensures base64 ==> forall n :: |cut| < n <= |piece| ==> |Characters(piece[..n])| % 4 != 0
  {
    forall n | 0 <= n <= |piece|
      ensures GroupsAreComplete(piece[..n]) <==> |Characters(piece[..n])| % 4 == 0
    {
      CountIs(piece[..n]);
    }
    if !base64 {
      return piece;
    }
    var incomplete := Count(piece) % 4;
    var end := |piece|;
    assert piece[..|piece|] == piece;
    while incomplete > 0
      invariant 0 <= end <= |piece| && 0 <= incomplete < 4
      invariant Count(piece) % 4 >= incomplete && Count(piece[..end]) == Count(piece) - Count(piece) % 4 + incomplete
      invariant incomplete == 0 ==> forall n :: end < n <= |piece| ==> !GroupsAreComplete(piece[..n])
      decreases end
    {
      assert end > 0;
      end := end - 1;
      assert piece[..end + 1][..end] == piece[..end];
      if !IsAsciiWhiteSpace(piece[end]) {
        incomplete := incomplete - 1;
        if incomplete == 0 {
          LeftOverIsIncomplete(piece, end);
        }
      }
    }
    return piece[..end];
  }

  lemma LeftOverIsIncomplete(piece: seq<Byte>, end: nat)
    requires end < |piece| && !IsAsciiWhiteSpace(piece[end])
    requires Count(piece[..end]) == Count(piece) - Count(piece) % 4
    ensures forall n :: end < n <= |piece| ==> !GroupsAreComplete(piece[..n])
  {
    forall n | end < n <= |piece|
      ensures !GroupsAreComplete(piece[..n])
    {
      CountGrows(piece, end + 1, n);
      CountGrows(piece, n, |piece|);
      assert piece[..end + 1][..end] == piece[..end] && piece[..|piece|] == piece;
      NotWhole(Count(piece), Count(piece[..n]));
    }
  }

  lemma NotWhole(all: nat, some: nat)
    requires all - all % 4 < some <= all
    ensures some % 4 != 0
  {
  }
}
