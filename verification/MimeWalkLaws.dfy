/** The walk over a message's parts meets its declarative meaning. */
module MimeWalkLaws {
  import opened Domain
  import opened MimeWalk

  // ----- where the text is

  /** The numbers a path of child places adds to a section. */
  function Numbers(path: seq<nat>): Section {
    seq(|path|, j requires 0 <= j < |path| => path[j] + 1)
  }

  /** Whether child `i` belongs to what is shown of the part: of a signed set the
      first, of a related set the root, of other sets but an encrypted one any. */
  predicate Enters(p: Part, i: nat) {
    && i < |p.children| && !IsAttachment(p.common)
    && match KindOf(p.common)
       case Alternative => true
       case Signed => i == 0
       case Related => RelatedRoot(p) == Some(i)
       case OtherMultipart => true
       case _ => false
  }

  predicate IsText(p: Part) {
    !IsAttachment(p.common) && KindOf(p.common) == PlainText && !IsAttachedFile(p.common)
  }

  /** Some path of entered children leads to a text. */
  ghost predicate HasText(p: Part) {
    IsText(p) || exists i: nat :: Enters(p, i) && HasText(p.children[i])
  }

  /** Of alternatives, the last one that has text is the one to read. */
  ghost predicate EntersText(p: Part, i: nat) {
    && Enters(p, i)
    && (KindOf(p.common) == Alternative ==> forall j :: i < j < |p.children| ==> !HasText(p.children[j]))
  }

  /** The path leads to a plain text to read. */
  ghost predicate TextLeaf(p: Part, path: seq<nat>) {
    if path == [] then IsText(p) else EntersText(p, path[0]) && TextLeaf(p.children[path[0]], path[1..])
  }

  ghost predicate TextAt(p: Part, s: Section) {
    exists path :: TextLeaf(p, path) && s == p.section + Numbers(path)
  }

  /** The child's sections are the part's. */
  lemma SectionThroughChild(p: Part, i: nat, path: seq<nat>)
    requires Numbered(p) && i < |p.children|
    ensures p.section + Numbers([i] + path) == p.children[i].section + Numbers(path)
  {
    assert Numbers([i] + path) == [i + 1] + Numbers(path);
  }

  ghost predicate TextInChild(p: Part, i: nat, s: Section) {
    EntersText(p, i) && TextAt(p.children[i], s)
  }

  /** A text lies below a child that is entered, and nowhere else. */
  lemma TextBelow(p: Part, s: Section)
    requires Numbered(p) && !IsText(p)
    ensures TextAt(p, s) <==> exists i: nat :: TextInChild(p, i, s)
  {
    if TextAt(p, s) {
      var path :| TextLeaf(p, path) && s == p.section + Numbers(path);
      assert path == [path[0]] + path[1..];
      SectionThroughChild(p, path[0], path[1..]);
      assert TextAt(p.children[path[0]], s);
      assert TextInChild(p, path[0], s);
    }
    if i: nat :| TextInChild(p, i, s) {
      var path :| TextLeaf(p.children[i], path) && s == p.children[i].section + Numbers(path);
      SectionThroughChild(p, i, path);
      assert ([i] + path)[1..] == path;
      assert TextLeaf(p, [i] + path);
    }
  }

  lemma TextHere(p: Part, s: Section)
    requires IsText(p)
    ensures TextAt(p, s) <==> s == p.section
  {
    assert TextLeaf(p, []) && p.section + Numbers([]) == p.section;
    forall path | TextLeaf(p, path)
      ensures path == []
    {
    }
  }

  lemma {:induction false} InAllTexts(p: Part, n: nat, s: Section)
    requires n <= |p.children|
    ensures s in AllTexts(p, n) <==> exists i: nat :: i < n && s in TextSections(p.children[i])
  {
    if n > 0 {
      InAllTexts(p, n - 1, s);
    }
  }

  /** `s` is in child `i`, and no child after it has text. */
  ghost predicate InLast(p: Part, i: nat, n: nat, s: Section)
    requires n <= |p.children|
  {
    i < n && s in TextSections(p.children[i]) && forall j :: i < j < n ==> TextSections(p.children[j]) == []
  }

  /** The last alternative with text, found from the end. */
  lemma {:induction false} LastWithTextIs(p: Part, n: nat, s: Section)
    requires n <= |p.children|
    ensures s in LastWithText(p, n) <==> exists i: nat :: InLast(p, i, n, s)
  {
    if n > 0 {
      LastWithTextIs(p, n - 1, s);
      if TextSections(p.children[n - 1]) == [] {
        var m := n - 1;
        if i: nat :| InLast(p, i, m, s) {
          assert InLast(p, i, n, s);
        }
        if i: nat :| InLast(p, i, n, s) {
          assert InLast(p, i, m, s);
        }
      } else if s in TextSections(p.children[n - 1]) {
        assert InLast(p, n - 1, n, s);
      }
    }
  }

  lemma {:induction false} AllTextsNonempty(p: Part, n: nat)
    requires n <= |p.children|
    ensures AllTexts(p, n) != [] <==> exists i: nat :: i < n && TextSections(p.children[i]) != []
    ensures LastWithText(p, n) != [] <==> exists i: nat :: i < n && TextSections(p.children[i]) != []
  {
    if n > 0 {
      AllTextsNonempty(p, n - 1);
    }
  }

  /** A part has text exactly when the walk finds any below it. */
  lemma {:induction false} HasTextIff(p: Part)
    ensures HasText(p) <==> TextSections(p) != []
    decreases p
  {
    if !IsText(p) {
      forall i | 0 <= i < |p.children|
        ensures HasText(p.children[i]) <==> TextSections(p.children[i]) != []
      {
        HasTextIff(p.children[i]);
      }
      AllTextsNonempty(p, |p.children|);
      if !IsAttachment(p.common) {
        match KindOf(p.common)
        case Signed => assert p.children != [] ==> Enters(p, 0);
        case Related => assert RelatedRoot(p).Some? ==> Enters(p, RelatedRoot(p).value);
        case Alternative => assert forall i: nat :: i < |p.children| ==> Enters(p, i);
        case OtherMultipart => assert forall i: nat :: i < |p.children| ==> Enters(p, i);
        case _ =>
      }
    }
  }

  lemma AlternativeBelow(p: Part, s: Section)
    requires !IsAttachment(p.common) && KindOf(p.common) == Alternative
    ensures s in TextSections(p) <==> exists i: nat :: EntersText(p, i) && s in TextSections(p.children[i])
  {
    var n := |p.children|;
    LastWithTextIs(p, n, s);
    forall j | 0 <= j < n
      ensures HasText(p.children[j]) <==> TextSections(p.children[j]) != []
    {
      HasTextIff(p.children[j]);
    }
    forall i: nat | i < n
      ensures InLast(p, i, n, s) <==> EntersText(p, i) && s in TextSections(p.children[i])
    {
    }
  }

  /** What the walk does with its children is to follow those it enters. */
  lemma SectionsBelow(p: Part, s: Section)
    requires !IsText(p)
    ensures s in TextSections(p) <==> exists i: nat :: EntersText(p, i) && s in TextSections(p.children[i])
  {
    if !IsAttachment(p.common) {
      match KindOf(p.common)
      case Alternative => AlternativeBelow(p, s);
      case Signed => assert p.children != [] ==> EntersText(p, 0);
      case Related => assert RelatedRoot(p).Some? ==> EntersText(p, RelatedRoot(p).value);
      case OtherMultipart =>
        InAllTexts(p, |p.children|, s);
        forall i: nat | i < |p.children|
          ensures EntersText(p, i)
        {
        }
      case _ =>
    }
  }

  /** The selected sections are exactly the texts the path rules reach. */
  lemma {:induction false} SectionsAreTheTexts(p: Part, s: Section)
    requires Numbered(p)
    ensures s in TextSections(p) <==> TextAt(p, s)
    decreases p
  {
    if IsText(p) {
      TextHere(p, s);
    } else {
      forall i: nat | i < |p.children|
        ensures s in TextSections(p.children[i]) <==> TextAt(p.children[i], s)
      {
        SectionsAreTheTexts(p.children[i], s);
      }
      SectionsBelow(p, s);
      TextBelow(p, s);
      forall i: nat
        ensures TextInChild(p, i, s) <==> EntersText(p, i) && s in TextSections(p.children[i])
      {
      }
    }
  }

  // ----- their order

  /** Lexicographic order of sections, which is reading order. */
  predicate Before(a: Section, b: Section) {
    b != [] && (a == [] || a[0] < b[0] || (a[0] == b[0] && Before(a[1..], b[1..])))
  }

  predicate Increasing(sections: seq<Section>) {
    forall i, j :: 0 <= i < j < |sections| ==> Before(sections[i], sections[j])
  }

  lemma {:induction false} BeforeByNumber(section: Section, a: Section, b: Section, k: nat, m: nat)
    requires k < m && section + [k] <= a && section + [m] <= b
    ensures Before(a, b)
  {
    var n := |section|;
    assert a[..n + 1] == section + [k] && b[..n + 1] == section + [m];
    if n == 0 {
      assert a[0] == (section + [k])[0] && b[0] == (section + [m])[0];
    } else {
      assert a[0] == section[0] == b[0];
      assert section[1..] + [k] == (section + [k])[1..] && section[1..] + [m] == (section + [m])[1..];
      assert a[1..][..n] == (section + [k])[1..] && b[1..][..n] == (section + [m])[1..];
      BeforeByNumber(section[1..], a[1..], b[1..], k, m);
    }
  }

  lemma {:induction false} BeforeIsStrict(a: Section)
    ensures !Before(a, a)
  {
    if a != [] {
      BeforeIsStrict(a[1..]);
    }
  }

  /** Sections below child `i` start with its number. */
  ghost predicate Under(section: Section, sections: seq<Section>) {
    forall j :: 0 <= j < |sections| ==> section <= sections[j]
  }

  function ChildSection(p: Part, i: nat): Section {
    p.section + [i + 1]
  }

  ghost predicate BelowChild(p: Part, n: nat, s: Section) {
    exists i: nat :: i < n && ChildSection(p, i) <= s
  }

  lemma {:induction false} AllTextsIncrease(p: Part, n: nat)
    requires Numbered(p) && n <= |p.children|
    requires forall i :: 0 <= i < n ==> Increasing(TextSections(p.children[i])) && Under(p.children[i].section, TextSections(p.children[i]))
    ensures Increasing(AllTexts(p, n))
    ensures forall j :: 0 <= j < |AllTexts(p, n)| ==> BelowChild(p, n, AllTexts(p, n)[j])
  {
    if n > 0 {
      AllTextsIncrease(p, n - 1);
      var before, last := AllTexts(p, n - 1), TextSections(p.children[n - 1]);
      forall j, k | 0 <= j < |before| && 0 <= k < |last|
        ensures Before(before[j], last[k])
      {
        var i: nat :| i < n - 1 && ChildSection(p, i) <= before[j];
        BeforeByNumber(p.section, before[j], last[k], i + 1, n);
      }
      forall j | 0 <= j < |AllTexts(p, n)|
        ensures BelowChild(p, n, AllTexts(p, n)[j])
      {
        if j < |before| {
          assert BelowChild(p, n - 1, before[j]);
        } else {
          assert ChildSection(p, n - 1) <= AllTexts(p, n)[j];
        }
      }
    }
  }

  lemma {:induction false} LastIsOne(p: Part, n: nat)
    requires n <= |p.children|
    ensures LastWithText(p, n) == [] || exists i :: 0 <= i < n && LastWithText(p, n) == TextSections(p.children[i])
  {
    if n > 0 {
      LastIsOne(p, n - 1);
    }
  }

  lemma PrefixOfPrefix(a: Section, b: Section, c: Section)
    requires a <= b <= c
    ensures a <= c
  {
    assert a == b[..|a|] == c[..|a|];
  }

  ghost predicate Ordered(p: Part) {
    Increasing(TextSections(p)) && Under(p.section, TextSections(p))
  }

  lemma UnderParent(p: Part, i: nat, sections: seq<Section>)
    requires Numbered(p) && i < |p.children| && Under(p.children[i].section, sections)
    ensures Under(p.section, sections)
  {
    forall j | 0 <= j < |sections|
      ensures p.section <= sections[j]
    {
      PrefixOfPrefix(p.section, p.children[i].section, sections[j]);
    }
  }

  lemma MixedOrdered(p: Part)
    requires Numbered(p) && !IsAttachment(p.common) && KindOf(p.common) == OtherMultipart
    requires forall i :: 0 <= i < |p.children| ==> Ordered(p.children[i])
    ensures Ordered(p)
  {
    AllTextsIncrease(p, |p.children|);
    forall j | 0 <= j < |TextSections(p)|
      ensures p.section <= TextSections(p)[j]
    {
      assert BelowChild(p, |p.children|, TextSections(p)[j]);
      var i: nat :| i < |p.children| && ChildSection(p, i) <= TextSections(p)[j];
      PrefixOfPrefix(p.section, ChildSection(p, i), TextSections(p)[j]);
    }
  }

  lemma OneChildOrdered(p: Part, i: nat)
    requires Numbered(p) && i < |p.children| && Ordered(p.children[i]) && TextSections(p) == TextSections(p.children[i])
    ensures Ordered(p)
  {
    UnderParent(p, i, TextSections(p));
  }

  /** The selected sections increase, so that no part is read twice or out of order. */
  lemma {:induction false} SectionsIncrease(p: Part)
    requires Numbered(p)
    ensures Ordered(p)
    decreases p
  {
    forall i | 0 <= i < |p.children|
      ensures Ordered(p.children[i])
    {
      SectionsIncrease(p.children[i]);
    }
    if !IsAttachment(p.common) {
      match KindOf(p.common)
      case Alternative =>
        LastIsOne(p, |p.children|);
        if TextSections(p) != [] {
          var i :| 0 <= i < |p.children| && LastWithText(p, |p.children|) == TextSections(p.children[i]);
          OneChildOrdered(p, i);
        }
      case Signed =>
        if p.children != [] {
          OneChildOrdered(p, 0);
        }
      case Related =>
        if RelatedRoot(p).Some? {
          OneChildOrdered(p, RelatedRoot(p).value);
        }
      case OtherMultipart => MixedOrdered(p);
      case _ =>
    }
  }

  /** For every message: exactly the texts reached, in reading order, none twice. */
  lemma SelectionOfMessage(body: Body)
    ensures
      var root := MessageTree(body);
      && (forall s :: s in TextSections(root) <==> TextAt(root, s))
      && Increasing(TextSections(root))
      && forall i, j :: 0 <= i < j < |TextSections(root)| ==> TextSections(root)[i] != TextSections(root)[j]
  {
    var root := MessageTree(body);
    ProjectNumbers(body, if body.Multi? then [] else [1]);
    forall s
      ensures s in TextSections(root) <==> TextAt(root, s)
    {
      SectionsAreTheTexts(root, s);
    }
    SectionsIncrease(root);
    forall i, j | 0 <= i < j < |TextSections(root)|
      ensures TextSections(root)[i] != TextSections(root)[j]
    {
      BeforeIsStrict(TextSections(root)[i]);
    }
  }

  // ----- what is reached first

  /** The path leads through entered children to the part `q`. */
  ghost predicate LeadsTo(p: Part, path: seq<nat>, q: Part) {
    if path == [] then q == p else Enters(p, path[0]) && LeadsTo(p.children[path[0]], path[1..], q)
  }

  /** A part of the wanted kind that is reached and no attachment. */
  ghost predicate Reached(p: Part, q: Part, wanted: Common -> bool) {
    !IsAttachment(q.common) && wanted(q.common) && exists path :: LeadsTo(p, path, q)
  }

  const UNATTACHED_PAGE: Common -> bool := common => KindOf(common) == Page && !IsAttachedFile(common)
  const ANY_PAGE: Common -> bool := common => KindOf(common) == Page
  const SECRET: Common -> bool := common => KindOf(common) == Encrypted || KindOf(common) == Secured

  /** Nothing below a part of the wanted kind is entered. */
  ghost predicate Final(wanted: Common -> bool) {
    forall common :: wanted(common) ==> KindOf(common) !in [Alternative, Signed, Related, OtherMultipart]
  }

  /** The part is reached, and nothing wanted in reading order before it. */
  ghost predicate IsFirst(p: Part, q: Option<Part>, wanted: Common -> bool) {
    match q
    case None => forall o :: !Reached(p, o, wanted)
    case Some(first) =>
      && Reached(p, first, wanted)
      && forall o :: Reached(p, o, wanted) ==> o == first || Before(first.section, o.section)
  }

  ghost predicate ReachedInChild(p: Part, i: nat, q: Part, wanted: Common -> bool) {
    Enters(p, i) && Reached(p.children[i], q, wanted)
  }

  lemma ReachedBelow(p: Part, q: Part, wanted: Common -> bool)
    requires Final(wanted) && (IsAttachment(p.common) || !wanted(p.common))
    ensures Reached(p, q, wanted) <==> exists i: nat :: ReachedInChild(p, i, q, wanted)
  {
    if Reached(p, q, wanted) {
      var path :| LeadsTo(p, path, q);
      assert LeadsTo(p.children[path[0]], path[1..], q);
      assert ReachedInChild(p, path[0], q, wanted);
    }
    if i: nat :| ReachedInChild(p, i, q, wanted) {
      var path :| LeadsTo(p.children[i], path, q);
      assert ([i] + path)[1..] == path;
      assert LeadsTo(p, [i] + path, q);
    }
  }

  lemma {:induction false} SectionOfPath(p: Part, path: seq<nat>, q: Part)
    requires Numbered(p) && LeadsTo(p, path, q)
    ensures q.section == p.section + Numbers(path)
    decreases path
  {
    if path == [] {
      assert p.section + [] == p.section;
    } else {
      SectionOfPath(p.children[path[0]], path[1..], q);
      assert path == [path[0]] + path[1..];
      SectionThroughChild(p, path[0], path[1..]);
    }
  }

  lemma ReachedUnder(p: Part, i: nat, q: Part, wanted: Common -> bool)
    requires Numbered(p) && ReachedInChild(p, i, q, wanted)
    ensures p.section + [i + 1] <= q.section
  {
    var path :| LeadsTo(p.children[i], path, q);
    SectionOfPath(p.children[i], path, q);
  }

  /** A part below an earlier child comes before those below child `n`. */
  lemma EarlierChildFirst(p: Part, i: nat, n: nat, first: Part, o: Part, wanted: Common -> bool)
    requires Numbered(p) && i < n && ReachedInChild(p, i, first, wanted) && ReachedInChild(p, n, o, wanted)
    ensures Before(first.section, o.section)
  {
    ReachedUnder(p, i, first, wanted);
    ReachedUnder(p, n, o, wanted);
    BeforeByNumber(p.section, first.section, o.section, i + 1, n + 1);
  }

  /** The first of the wanted parts below the first `n` children. */
  ghost predicate IsFirstOf(p: Part, n: nat, q: Option<Part>, wanted: Common -> bool)
    requires n <= |p.children|
  {
    match q
    case None => forall i: nat, o :: i < n ==> !ReachedInChild(p, i, o, wanted)
    case Some(first) =>
      && (exists i: nat :: i < n && ReachedInChild(p, i, first, wanted))
      && forall i: nat, o :: i < n && ReachedInChild(p, i, o, wanted) ==> o == first || Before(first.section, o.section)
  }

  lemma FirstOfEarlier(p: Part, n: nat, first: Part, wanted: Common -> bool)
    requires Numbered(p) && n < |p.children| && IsFirstOf(p, n, Some(first), wanted)
    ensures IsFirstOf(p, n + 1, Some(first), wanted)
  {
    var m: nat :| m < n && ReachedInChild(p, m, first, wanted);
    forall i: nat, o | i < n + 1 && ReachedInChild(p, i, o, wanted)
      ensures o == first || Before(first.section, o.section)
    {
      if i == n {
        EarlierChildFirst(p, m, n, first, o, wanted);
      }
    }
  }

  lemma FirstOfLast(p: Part, n: nat, last: Option<Part>, wanted: Common -> bool)
    requires Numbered(p) && n < |p.children| && Enters(p, n)
    requires IsFirstOf(p, n, None, wanted) && IsFirst(p.children[n], last, wanted)
    ensures IsFirstOf(p, n + 1, last, wanted)
  {
    forall i: nat, o | i < n + 1 && ReachedInChild(p, i, o, wanted)
      ensures last.Some? && (o == last.value || Before(last.value.section, o.section))
    {
      assert i == n && Reached(p.children[n], o, wanted);
    }
    if last.Some? {
      assert ReachedInChild(p, n, last.value, wanted);
    }
  }

  /** The first wanted part, found by following the children that are entered. */
  ghost function FirstReached(p: Part, wanted: Common -> bool): Option<Part>
    decreases p, |p.children| + 1
  {
    if IsAttachment(p.common) then None
    else if wanted(p.common) then Some(p)
    else FirstReachedOf(p, |p.children|, wanted)
  }

  ghost function FirstReachedOf(p: Part, n: nat, wanted: Common -> bool): Option<Part>
    requires n <= |p.children|
    decreases p, n
  {
    if n == 0 then None
    else if Enters(p, n - 1) then Or(FirstReachedOf(p, n - 1, wanted), FirstReached(p.children[n - 1], wanted))
    else FirstReachedOf(p, n - 1, wanted)
  }

  ghost predicate ChildDone(p: Part, i: nat, wanted: Common -> bool) {
    i < |p.children| && IsFirst(p.children[i], FirstReached(p.children[i], wanted), wanted)
  }

  lemma OneChildMore(p: Part, n: nat, wanted: Common -> bool)
    requires Numbered(p) && ChildDone(p, n, wanted) && IsFirstOf(p, n, FirstReachedOf(p, n, wanted), wanted)
    ensures IsFirstOf(p, n + 1, FirstReachedOf(p, n + 1, wanted), wanted)
  {
    var before := FirstReachedOf(p, n, wanted);
    if !Enters(p, n) {
      assert forall o :: !ReachedInChild(p, n, o, wanted);
    } else if before.Some? {
      FirstOfEarlier(p, n, before.value, wanted);
    } else {
      FirstOfLast(p, n, FirstReached(p.children[n], wanted), wanted);
    }
  }

  lemma {:induction false} FirstReachedOfIs(p: Part, n: nat, wanted: Common -> bool)
    requires Numbered(p) && n <= |p.children| && (forall i: nat :: i < n ==> ChildDone(p, i, wanted))
    ensures IsFirstOf(p, n, FirstReachedOf(p, n, wanted), wanted)
  {
    hide Numbered, ChildDone, FirstReached;
    if n > 0 {
      FirstReachedOfIs(p, n - 1, wanted);
      assert ChildDone(p, n - 1, wanted);
      OneChildMore(p, n - 1, wanted);
    }
  }

  lemma FirstOfAllIsFirst(p: Part, q: Option<Part>, wanted: Common -> bool)
    requires Final(wanted) && (IsAttachment(p.common) || !wanted(p.common)) && IsFirstOf(p, |p.children|, q, wanted)
    ensures IsFirst(p, q, wanted)
  {
    forall o
      ensures Reached(p, o, wanted) <==> exists i: nat :: ReachedInChild(p, i, o, wanted)
    {
      ReachedBelow(p, o, wanted);
    }
  }

  lemma WantedHere(p: Part, wanted: Common -> bool)
    requires Final(wanted) && !IsAttachment(p.common) && wanted(p.common)
    ensures IsFirst(p, Some(p), wanted)
  {
    assert LeadsTo(p, [], p);
    forall path, o | LeadsTo(p, path, o)
      ensures o == p
    {
    }
  }

  /** Following the entered children finds the first wanted part in reading order. */
  lemma {:induction false} FirstReachedIs(p: Part, wanted: Common -> bool)
    requires Numbered(p) && Final(wanted)
    ensures IsFirst(p, FirstReached(p, wanted), wanted)
    decreases p
  {
    if !IsAttachment(p.common) && wanted(p.common) {
      WantedHere(p, wanted);
    } else if IsAttachment(p.common) {
      assert IsFirstOf(p, |p.children|, None, wanted);
      FirstOfAllIsFirst(p, None, wanted);
    } else {
      forall i: nat | i < |p.children|
        ensures ChildDone(p, i, wanted)
      {
        FirstReachedIs(p.children[i], wanted);
      }
      FirstReachedOfIs(p, |p.children|, wanted);
      FirstOfAllIsFirst(p, FirstReachedOf(p, |p.children|, wanted), wanted);
    }
  }

  // ----- the page and the explanation

  /** The only child entered decides. */
  lemma {:induction false} OnlyEntered(p: Part, n: nat, i: nat, wanted: Common -> bool)
    requires n <= |p.children| && i < |p.children| && forall j: nat :: Enters(p, j) <==> j == i
    ensures FirstReachedOf(p, n, wanted) == if i < n then FirstReached(p.children[i], wanted) else None
  {
    if n > 0 {
      OnlyEntered(p, n - 1, i, wanted);
    }
  }

  lemma {:induction false} NoneEntered(p: Part, n: nat, wanted: Common -> bool)
    requires n <= |p.children| && forall j: nat :: !Enters(p, j)
    ensures FirstReachedOf(p, n, wanted).None?
  {
    if n > 0 {
      NoneEntered(p, n - 1, wanted);
    }
  }

  function SectionOf(q: Option<Part>): Option<Section> {
    if q.Some? then Some(q.value.section) else None
  }

  lemma {:induction false} PagesOf(p: Part, n: nat)
    requires n <= |p.children| && (forall i: nat :: i < |p.children| ==> Enters(p, i))
    requires forall i: nat :: i < |p.children| ==> FindsPages(p.children[i])
    ensures FirstPageOf(p, n) == SectionOf(FirstReachedOf(p, n, UNATTACHED_PAGE))
    ensures HasPageIn(p, n) <==> FirstReachedOf(p, n, ANY_PAGE).Some?
  {
    if n > 0 {
      PagesOf(p, n - 1);
      assert FindsPages(p.children[n - 1]);
    }
  }

  ghost predicate FindsPages(p: Part) {
    && FirstPage(p) == SectionOf(FirstReached(p, UNATTACHED_PAGE))
    && (HasPage(p) <==> FirstReached(p, ANY_PAGE).Some?)
  }

  lemma {:induction false} PagesAreReached(p: Part)
    ensures FindsPages(p)
    decreases p
  {
    forall i: nat | i < |p.children|
      ensures FindsPages(p.children[i])
    {
      PagesAreReached(p.children[i]);
    }
    if !IsAttachment(p.common) {
      match KindOf(p.common)
      case Alternative => PagesOf(p, |p.children|);
      case OtherMultipart => PagesOf(p, |p.children|);
      case Signed => OneOrNone(p, if p.children != [] then Some(0) else None);
      case Related => OneOrNone(p, RelatedRoot(p));
      case _ =>
        NoneEntered(p, |p.children|, UNATTACHED_PAGE);
        NoneEntered(p, |p.children|, ANY_PAGE);
    }
  }

  lemma OneOrNone(p: Part, at: Option<nat>)
    requires at.Some? ==> at.value < |p.children|
    requires forall j: nat :: Enters(p, j) <==> at == Some(j)
    ensures forall wanted :: FirstReachedOf(p, |p.children|, wanted) ==
                             if at.Some? then FirstReached(p.children[at.value], wanted) else None
  {
    forall wanted
      ensures FirstReachedOf(p, |p.children|, wanted) == if at.Some? then FirstReached(p.children[at.value], wanted) else None
    {
      if at.Some? {
        OnlyEntered(p, |p.children|, at.value, wanted);
      } else {
        NoneEntered(p, |p.children|, wanted);
      }
    }
  }

  /** The page for the preview is the first one reached that is not an attached file;
      whether there is a page at all is asked of every one reached. */
  lemma PageIsTheFirst(p: Part)
    requires Numbered(p)
    ensures FirstPage(p).None? <==> forall q :: !Reached(p, q, UNATTACHED_PAGE)
    ensures FirstPage(p).Some? ==>
              exists q: Part :: q.section == FirstPage(p).value && Reached(p, q, UNATTACHED_PAGE)
                          && forall o :: Reached(p, o, UNATTACHED_PAGE) ==> o == q || Before(q.section, o.section)
    ensures HasPage(p) <==> exists q :: Reached(p, q, ANY_PAGE)
  {
    PagesAreReached(p);
    FirstReachedIs(p, UNATTACHED_PAGE);
    FirstReachedIs(p, ANY_PAGE);
  }

  function ExplainedBy(q: Option<Part>): Option<Explanation> {
    if q.None? then None else Some(if KindOf(q.value.common) == Encrypted then IsEncrypted else SecuredWithSMime)
  }

  ghost predicate Explains(p: Part) {
    TextSections(p) == [] ==> ExplanationOf(p) == ExplainedBy(FirstReached(p, SECRET))
  }

  lemma {:induction false} ExplanationsOf(p: Part, n: nat)
    requires n <= |p.children| && (forall i: nat :: i < |p.children| ==> Enters(p, i))
    requires forall i: nat :: i < |p.children| ==> TextSections(p.children[i]) == [] && Explains(p.children[i])
    ensures ExplanationIn(p, n) == ExplainedBy(FirstReachedOf(p, n, SECRET))
  {
    if n > 0 {
      ExplanationsOf(p, n - 1);
      assert Explains(p.children[n - 1]);
    }
  }

  lemma {:induction false} ExplanationIsReached(p: Part)
    ensures Explains(p)
    decreases p
  {
    if TextSections(p) == [] && !IsAttachment(p.common) {
      forall i: nat | i < |p.children|
        ensures Explains(p.children[i])
      {
        ExplanationIsReached(p.children[i]);
      }
      AllTextsNonempty(p, |p.children|);
      match KindOf(p.common)
      case Alternative => ExplanationsOf(p, |p.children|);
      case OtherMultipart => ExplanationsOf(p, |p.children|);
      case Signed => OneOrNone(p, if p.children != [] then Some(0) else None);
      case Related => OneOrNone(p, RelatedRoot(p));
      case _ => NoneEntered(p, |p.children|, SECRET);
    }
  }

  lemma SecretIsFinal()
    ensures Final(SECRET)
  {
  }

  /** Why a message without a text has none: the first encrypted or S/MIME part that
      is reached says so; without one, whether any web page is reached. */
  lemma NoTextIsExplained(p: Part)
    requires Numbered(p) && TextSections(p) == []
    ensures ExplanationOf(p).None? <==> forall q :: !Reached(p, q, SECRET)
    ensures ExplanationOf(p).Some? ==>
              exists q :: Reached(p, q, SECRET) && (forall o :: Reached(p, o, SECRET) ==> o == q || Before(q.section, o.section))
                          && ExplanationOf(p).value == (if KindOf(q.common) == Encrypted then IsEncrypted else SecuredWithSMime)
  {
    hide Reached, Before, FirstReached, ExplanationOf, TextSections, Numbered, Final;
    SecretIsFinal();
    ExplanationIsReached(p);
    FirstReachedIs(p, SECRET);
  }

  // ----- the kinds and the root of a related set

  /** The media types the walk tells apart, and the two marks of a file. */
  lemma KindsByType(common: Common)
    ensures IsAttachment(common) <==> common.disposition == Some("attachment")
    ensures IsAttachedFile(common) <==>
              && common.disposition != Some("inline")
              && exists i :: 0 <= i < |common.parameters| && IsFileNameParameter(common.parameters[i].0)
    ensures
      var kind, type_, subtype := KindOf(common), common.mediaType, common.mediaSubtype;
      && (kind == Alternative <==> type_ == "multipart" && subtype == "alternative")
      && (kind == Signed <==> type_ == "multipart" && subtype == "signed")
      && (kind == Encrypted <==> type_ == "multipart" && subtype == "encrypted")
      && (kind == Related <==> type_ == "multipart" && subtype == "related")
      && (kind == OtherMultipart <==> type_ == "multipart" && subtype !in ["alternative", "signed", "encrypted", "related"])
      && (kind == PlainText <==> type_ == "text" && subtype == "plain")
      && (kind == Page <==> type_ == "text" && subtype == "html")
      && (kind == Secured <==> type_ == "application" && (subtype == "pkcs7-mime" || subtype == "x-pkcs7-mime"))
  {
  }

  predicate AllAre(s: string, c: char) {
    forall i :: 0 <= i < |s| ==> s[i] == c
  }

  /** `id` is what `start` names: without the angle brackets around it. */
  ghost predicate Bracketed(start: string, id: string) {
    && (id != "" ==> id[0] != '<' && id[|id| - 1] != '>')
    && exists left, right :: AllAre(left, '<') && AllAre(right, '>') && start == left + id + right
  }

  /** The value of the set's first `start` parameter. */
  ghost predicate StartsAt(p: Part, start: string) {
    exists i :: 0 <= i < |p.common.parameters| && p.common.parameters[i] == ("start", start)
                && forall j :: 0 <= j < i ==> p.common.parameters[j].0 != "start"
  }

  ghost predicate NamedAsRoot(p: Part, i: int) {
    0 <= i < |p.children| && exists start, id :: StartsAt(p, start) && Bracketed(start, id) && p.children[i].contentId == Some(id)
  }

  lemma {:induction false} TrimStartIs(s: string, left: string, rest: string, c: char)
    requires s == left + rest && AllAre(left, c) && (rest != "" ==> rest[0] != c)
    ensures TrimStart(s, c) == rest
  {
    if left != "" {
      assert s[0] == left[0] && s[1..] == left[1..] + rest;
      TrimStartIs(s[1..], left[1..], rest, c);
    } else {
      assert s == rest;
    }
  }

  lemma {:induction false} TrimEndIs(s: string, rest: string, right: string, c: char)
    requires s == rest + right && AllAre(right, c) && (rest != "" ==> rest[|rest| - 1] != c)
    ensures TrimEnd(s, c) == rest
  {
    if right != "" {
      var n := |right| - 1;
      assert s[|s| - 1] == right[n] && s[..|s| - 1] == rest + right[..n];
      TrimEndIs(s[..|s| - 1], rest, right[..n], c);
    } else {
      assert s == rest;
    }
  }

  lemma {:induction false} TrimStartLeaves(s: string, c: char) returns (left: string)
    ensures s == left + TrimStart(s, c) && AllAre(left, c) && (TrimStart(s, c) != "" ==> TrimStart(s, c)[0] != c)
  {
    if s != "" && s[0] == c {
      left := TrimStartLeaves(s[1..], c);
      left := [c] + left;
    } else {
      left := "";
    }
  }

  lemma {:induction false} TrimEndLeaves(s: string, c: char) returns (right: string)
    ensures s == TrimEnd(s, c) + right && AllAre(right, c) && (TrimEnd(s, c) != "" ==> TrimEnd(s, c)[|TrimEnd(s, c)| - 1] != c)
  {
    if s != "" && s[|s| - 1] == c {
      right := TrimEndLeaves(s[..|s| - 1], c);
      right := right + [c];
    } else {
      right := "";
    }
  }

  lemma BracketedIs(start: string, id: string)
    ensures Bracketed(start, id) <==> id == TrimEnd(TrimStart(start, '<'), '>')
  {
    var inner := TrimStart(start, '<');
    var left := TrimStartLeaves(start, '<');
    var right := TrimEndLeaves(inner, '>');
    if id == TrimEnd(inner, '>') {
      assert start == left + id + right;
    }
    if Bracketed(start, id) {
      var l, r :| AllAre(l, '<') && AllAre(r, '>') && start == l + id + r;
      assert start == l + (id + r);
      TrimStartIs(start, l, id + r, '<');
      TrimEndIs(inner, id, r, '>');
    }
  }

  lemma {:induction false} ParameterIs(parameters: seq<(string, string)>, name: string)
    ensures
      var value := ParameterFrom(parameters, name);
      && (value.None? ==> forall i :: 0 <= i < |parameters| ==> parameters[i].0 != name)
      && (value.Some? ==> exists i :: 0 <= i < |parameters| && parameters[i] == (name, value.value)
                                      && forall j :: 0 <= j < i ==> parameters[j].0 != name)
  {
    if parameters != [] && parameters[0].0 != name {
      ParameterIs(parameters[1..], name);
      var value := ParameterFrom(parameters, name);
      if value.Some? {
        var i :| 0 <= i < |parameters| - 1 && parameters[1..][i] == (name, value.value)
                 && forall j :: 0 <= j < i ==> parameters[1..][j].0 != name;
        assert parameters[i + 1] == (name, value.value);
        forall j | 0 <= j < i + 1
          ensures parameters[j].0 != name
        {
          assert j > 0 ==> parameters[j] == parameters[1..][j - 1];
        }
      } else {
        forall i | 0 <= i < |parameters|
          ensures parameters[i].0 != name
        {
          assert i > 0 ==> parameters[i] == parameters[1..][i - 1];
        }
      }
    }
  }

  lemma StartIs(p: Part, start: string)
    ensures StartsAt(p, start) <==> Parameter(p.common, "start") == Some(start)
  {
    ParameterIs(p.common.parameters, "start");
    if StartsAt(p, start) {
      var i :| 0 <= i < |p.common.parameters| && p.common.parameters[i] == ("start", start)
               && forall j :: 0 <= j < i ==> p.common.parameters[j].0 != "start";
      var value := Parameter(p.common, "start").value;
      var k :| 0 <= k < |p.common.parameters| && p.common.parameters[k] == ("start", value)
               && forall j :: 0 <= j < k ==> p.common.parameters[j].0 != "start";
      assert i == k;
    }
  }

  lemma {:induction false} WithContentIdIs(children: seq<Part>, id: string)
    ensures
      var at := WithContentId(children, id);
      && (at.None? ==> forall i :: 0 <= i < |children| ==> children[i].contentId != Some(id))
      && (at.Some? ==> children[at.value].contentId == Some(id) && forall j :: 0 <= j < at.value ==> children[j].contentId != Some(id))
  {
    if children != [] && children[0].contentId != Some(id) {
      WithContentIdIs(children[1..], id);
      assert forall i :: 1 <= i < |children| ==> children[i] == children[1..][i - 1];
    }
  }

  lemma NamedAsRootIs(p: Part, i: int)
    requires 0 <= i < |p.children|
    ensures NamedAsRoot(p, i) <==>
              var start := Parameter(p.common, "start");
              start.Some? && p.children[i].contentId == Some(TrimEnd(TrimStart(start.value, '<'), '>'))
  {
    if start, id :| StartsAt(p, start) && Bracketed(start, id) && p.children[i].contentId == Some(id) {
      StartIs(p, start);
      BracketedIs(start, id);
    }
    var start := Parameter(p.common, "start");
    if start.Some? {
      var id := TrimEnd(TrimStart(start.value, '<'), '>');
      StartIs(p, start.value);
      BracketedIs(start.value, id);
    }
  }

  /** The root of a related set is the first child whose Content-ID its first `start`
      parameter names, with or without angle brackets; when it names none, the first
      child; a set without children has none. */
  lemma RelatedRootIs(p: Part)
    ensures RelatedRoot(p).None? <==> p.children == []
    ensures RelatedRoot(p).Some? ==>
              var at := RelatedRoot(p).value;
              if exists i :: NamedAsRoot(p, i) then NamedAsRoot(p, at) && forall j :: 0 <= j < at ==> !NamedAsRoot(p, j)
              else at == 0
  {
    hide NamedAsRoot, TrimStart, TrimEnd, Parameter;
    var start := Parameter(p.common, "start");
    forall i | 0 <= i < |p.children|
      ensures NamedAsRoot(p, i) <==>
                start.Some? && p.children[i].contentId == Some(TrimEnd(TrimStart(start.value, '<'), '>'))
    {
      NamedAsRootIs(p, i);
    }
    OnlyChildrenAreNamed(p);
    if start.Some? {
      WithContentIdIs(p.children, TrimEnd(TrimStart(start.value, '<'), '>'));
    }
  }

  lemma OnlyChildrenAreNamed(p: Part)
    ensures forall i :: NamedAsRoot(p, i) ==> 0 <= i < |p.children|
  {
  }
}
