/** The parts of a message numbered as IMAP sections, and the walk that chooses
    its readable text. */
module MimeWalk {
  import opened Domain

  type Section = seq<nat>

  datatype Common = Common(
    mediaType: string,
    mediaSubtype: string,
    parameters: seq<(string, string)>,
    disposition: Option<string>)

  /** A message's structure as the server describes it. */
  datatype Body = Multi(common: Common, bodies: seq<Body>) | Single(common: Common, contentId: Option<string>)

  datatype Part = Part(section: Section, common: Common, contentId: Option<string>, children: seq<Part>)

  // ----- numbering

  function Project(body: Body, section: Section): Part {
    match body
    case Multi(common, bodies) =>
      Part(section, common, None,
           seq(|bodies|, i requires 0 <= i < |bodies| => Project(bodies[i], section + [i + 1])))
    case Single(common, contentId) => Part(section, common, contentId, [])
  }

  /** The tree of a message: a single part is section 1. */
  function MessageTree(body: Body): Part {
    Project(body, if body.Multi? then [] else [1])
  }

  /** Every child's number follows its parent's. */
  predicate Numbered(p: Part) {
    forall i :: 0 <= i < |p.children| ==> p.children[i].section == p.section + [i + 1] && Numbered(p.children[i])
  }

  lemma {:induction false} ProjectNumbers(body: Body, section: Section)
    ensures Numbered(Project(body, section)) && Project(body, section).section == section
  {
    if body.Multi? {
      forall i | 0 <= i < |body.bodies|
        ensures Numbered(Project(body.bodies[i], section + [i + 1]))
        ensures Project(body.bodies[i], section + [i + 1]).section == section + [i + 1]
      {
        ProjectNumbers(body.bodies[i], section + [i + 1]);
      }
    }
  }

  /** The tree is the structure the server described. */
  ghost predicate Mirrors(p: Part, body: Body) {
    && p.common == body.common
    && match body
       case Single(_, contentId) => p.contentId == contentId && p.children == []
       case Multi(_, bodies) =>
         && p.contentId.None? && |p.children| == |bodies|
         && forall i :: 0 <= i < |bodies| ==> Mirrors(p.children[i], bodies[i])
  }

  lemma {:induction false} ProjectMirrors(body: Body, section: Section)
    ensures Mirrors(Project(body, section), body)
  {
    if body.Multi? {
      forall i | 0 <= i < |body.bodies|
        ensures Mirrors(Project(body.bodies[i], section + [i + 1]), body.bodies[i])
      {
        ProjectMirrors(body.bodies[i], section + [i + 1]);
      }
    }
  }

  /** A message's tree is its structure, every child's section its parent's and its
      place; a message of one part is section 1. */
  lemma TreeOfMessage(body: Body)
    ensures Mirrors(MessageTree(body), body) && Numbered(MessageTree(body))
    ensures MessageTree(body).section == if body.Single? then [1] else []
  {
    ProjectMirrors(body, if body.Multi? then [] else [1]);
    ProjectNumbers(body, if body.Multi? then [] else [1]);
  }

  // ----- what a part says of itself

  predicate Digits(s: string) {
    s != "" && forall i :: 0 <= i < |s| ==> '0' <= s[i] <= '9'
  }

  function WithoutStar(s: string): string {
    if s != "" && s[|s| - 1] == '*' then s[..|s| - 1] else s
  }

  /** `name` itself, the extended `name*`, and continuations such as `name*0` and `name*1*`. */
  predicate IsFileNameParameter(parameter: string) {
    "name" <= parameter
    && var suffix := parameter[4..];
       suffix == ""
       || (suffix[0] == '*' && (suffix[1..] == "" || Digits(WithoutStar(suffix[1..]))))
  }

  /** A continuation's number, with or without the mark of an extended value. */
  predicate Continues(parameter: string, digits: string) {
    Digits(digits) && (parameter == "name*" + digits || parameter == "name*" + (digits + "*"))
  }

  lemma ContinuesIsFileName(parameter: string, digits: string)
    requires Continues(parameter, digits)
    ensures IsFileNameParameter(parameter)
  {
    var continuation := if parameter == "name*" + digits then digits else digits + "*";
    assert parameter == "name*" + continuation;
    assert parameter[..4] == "name" && parameter[4..] == "*" + continuation && parameter[4..][1..] == continuation;
    assert (digits + "*")[..|digits|] == digits;
    assert WithoutStar(continuation) == digits;
  }

  /** Exactly the forms of RFC 2231 for the one parameter `name`. */
  lemma FileNameForms(parameter: string)
    ensures IsFileNameParameter(parameter) <==>
              parameter == "name" || parameter == "name*" || exists digits :: Continues(parameter, digits)
  {
    if IsFileNameParameter(parameter) {
      var suffix := parameter[4..];
      assert parameter == "name" + suffix;
      if suffix != "" {
        var continuation := suffix[1..];
        assert suffix == "*" + continuation;
        assert parameter == "name*" + continuation;
        if continuation != "" {
          assert continuation == WithoutStar(continuation) || continuation == WithoutStar(continuation) + "*";
          assert Continues(parameter, WithoutStar(continuation));
        }
      }
    }
    if digits :| Continues(parameter, digits) {
      ContinuesIsFileName(parameter, digits);
    }
  }

  predicate HasFileName(common: Common) {
    exists i :: 0 <= i < |common.parameters| && IsFileNameParameter(common.parameters[i].0)
  }

  predicate IsAttachment(common: Common) {
    common.disposition == Some("attachment")
  }

  /** A file name without an explicit inline disposition marks an attached file. */
  predicate IsAttachedFile(common: Common) {
    HasFileName(common) && common.disposition != Some("inline")
  }

  datatype Kind = Alternative | Signed | Encrypted | Related | OtherMultipart | PlainText | Page | Secured | Other

  function KindOf(common: Common): Kind {
    if common.mediaType == "multipart" then
      if common.mediaSubtype == "alternative" then Alternative
      else if common.mediaSubtype == "signed" then Signed
      else if common.mediaSubtype == "encrypted" then Encrypted
      else if common.mediaSubtype == "related" then Related
      else OtherMultipart
    else if common.mediaType == "text" && common.mediaSubtype == "plain" then PlainText
    else if common.mediaType == "text" && common.mediaSubtype == "html" then Page
    else if common.mediaType == "application" && common.mediaSubtype in ["pkcs7-mime", "x-pkcs7-mime"] then Secured
    else Other
  }

  function Parameter(common: Common, name: string): Option<string> {
    ParameterFrom(common.parameters, name)
  }

  function ParameterFrom(parameters: seq<(string, string)>, name: string): Option<string> {
    if parameters == [] then None
    else if parameters[0].0 == name then Some(parameters[0].1)
    else ParameterFrom(parameters[1..], name)
  }

  function TrimStart(s: string, c: char): string {
    if s != "" && s[0] == c then TrimStart(s[1..], c) else s
  }

  function TrimEnd(s: string, c: char): string {
    if s != "" && s[|s| - 1] == c then TrimEnd(s[..|s| - 1], c) else s
  }

  function WithContentId(children: seq<Part>, id: string): (at: Option<nat>)
    ensures at.Some? ==> at.value < |children|
  {
    if children == [] then None
    else if children[0].contentId == Some(id) then Some(0)
    else
      var later := WithContentId(children[1..], id);
      if later.Some? then Some(later.value + 1) else None
  }

  /** The root of a related set: the child its `start` parameter names, else the first. */
  function RelatedRoot(p: Part): (at: Option<nat>)
    ensures at.Some? ==> at.value < |p.children|
  {
    var start := Parameter(p.common, "start");
    var named := if start.Some?
      then WithContentId(p.children, TrimEnd(TrimStart(start.value, '<'), '>')) else None;
    if named.Some? then named else if p.children != [] then Some(0) else None
  }

  // ----- what the walk finds

  datatype Explanation = IsEncrypted | SecuredWithSMime | NoPlainText(hasHtml: bool)

  function Or<T>(a: Option<T>, b: Option<T>): Option<T> {
    if a.Some? then a else b
  }

  /** The sections of the plain text to read. */
  function TextSections(p: Part): seq<Section>
    decreases p, |p.children| + 1
  {
    if IsAttachment(p.common) then []
    else
      match KindOf(p.common)
      case Alternative => LastWithText(p, |p.children|)
      case Signed => if p.children != [] then TextSections(p.children[0]) else []
      case Related => if RelatedRoot(p).Some? then TextSections(p.children[RelatedRoot(p).value]) else []
      case OtherMultipart => AllTexts(p, |p.children|)
      case PlainText => if IsAttachedFile(p.common) then [] else [p.section]
      case _ => []
  }

  /** Those of the first `n` children, in their order. */
  function AllTexts(p: Part, n: nat): seq<Section>
    requires n <= |p.children|
    decreases p, n
  {
    if n == 0 then [] else AllTexts(p, n - 1) + TextSections(p.children[n - 1])
  }

  /** Those of the last of the first `n` children that has any. */
  function LastWithText(p: Part, n: nat): seq<Section>
    requires n <= |p.children|
    decreases p, n
  {
    if n == 0 then []
    else if TextSections(p.children[n - 1]) != [] then TextSections(p.children[n - 1])
    else LastWithText(p, n - 1)
  }

  /** The first page that is not an attached file. */
  function FirstPage(p: Part): Option<Section>
    decreases p, |p.children| + 1
  {
    if IsAttachment(p.common) then None
    else
      match KindOf(p.common)
      case Alternative => FirstPageOf(p, |p.children|)
      case Signed => if p.children != [] then FirstPage(p.children[0]) else None
      case Related => if RelatedRoot(p).Some? then FirstPage(p.children[RelatedRoot(p).value]) else None
      case OtherMultipart => FirstPageOf(p, |p.children|)
      case Page => if IsAttachedFile(p.common) then None else Some(p.section)
      case _ => None
  }

  function FirstPageOf(p: Part, n: nat): Option<Section>
    requires n <= |p.children|
    decreases p, n
  {
    if n == 0 then None else Or(FirstPageOf(p, n - 1), FirstPage(p.children[n - 1]))
  }

  predicate HasPage(p: Part)
    decreases p, |p.children| + 1
  {
    !IsAttachment(p.common)
    && match KindOf(p.common)
       case Alternative => HasPageIn(p, |p.children|)
       case Signed => p.children != [] && HasPage(p.children[0])
       case Related => RelatedRoot(p).Some? && HasPage(p.children[RelatedRoot(p).value])
       case OtherMultipart => HasPageIn(p, |p.children|)
       case Page => true
       case _ => false
  }

  predicate HasPageIn(p: Part, n: nat)
    requires n <= |p.children|
    decreases p, n
  {
    n > 0 && (HasPageIn(p, n - 1) || HasPage(p.children[n - 1]))
  }

  /** Why there is no text; of alternatives, those with text explain nothing. */
  function ExplanationOf(p: Part): Option<Explanation>
    decreases p, |p.children| + 1
  {
    if IsAttachment(p.common) then None
    else
      match KindOf(p.common)
      case Alternative => ExplanationIn(p, |p.children|)
      case Signed => if p.children != [] then ExplanationOf(p.children[0]) else None
      case Encrypted => Some(IsEncrypted)
      case Related => if RelatedRoot(p).Some? then ExplanationOf(p.children[RelatedRoot(p).value]) else None
      case OtherMultipart => ExplanationIn(p, |p.children|)
      case Secured => Some(SecuredWithSMime)
      case _ => None
  }

  function ExplanationIn(p: Part, n: nat): Option<Explanation>
    requires n <= |p.children|
    decreases p, n
  {
    if n == 0 then None
    else if KindOf(p.common) == Alternative && TextSections(p.children[n - 1]) != [] then ExplanationIn(p, n - 1)
    else Or(ExplanationIn(p, n - 1), ExplanationOf(p.children[n - 1]))
  }

  // ----- the walk

  class Walk {
    var parts: seq<Section>
    var hasHtml: bool
    var htmlPart: Option<Section>
    var explanation: Option<Explanation>

    constructor ()
      ensures parts == [] && !hasHtml && htmlPart.None? && explanation.None?
    {
      parts, hasHtml, htmlPart, explanation := [], false, None, None;
    }

    /** Goes through the part and adds what it finds. */
    method Visit(part: Part)
      modifies this
      ensures parts == old(parts) + TextSections(part)
      ensures hasHtml == (old(hasHtml) || HasPage(part))
      ensures htmlPart == Or(old(htmlPart), FirstPage(part))
      ensures explanation == Or(old(explanation), ExplanationOf(part))
      decreases part, 1
    {
      if IsAttachment(part.common) {
        return;
      }
      match KindOf(part.common)
      case Alternative => VisitAlternatives(part);
      case Signed =>
        if part.children != [] {
          Visit(part.children[0]);
        }
      case Encrypted => explanation := Or(explanation, Some(IsEncrypted));
      case Related =>
        var root := RelatedRoot(part);
        if root.Some? {
          Visit(part.children[root.value]);
        }
      case OtherMultipart => VisitAll(part);
      case PlainText =>
        if !IsAttachedFile(part.common) {
          parts := parts + [part.section];
        }
      case Page =>
        hasHtml := true;
        if htmlPart.None? && !IsAttachedFile(part.common) {
          htmlPart := Some(part.section);
        }
      case Secured => explanation := Or(explanation, Some(SecuredWithSMime));
      case Other =>
    }

    method VisitAll(part: Part)
      requires !IsAttachment(part.common) && KindOf(part.common) == OtherMultipart
      modifies this
      ensures parts == old(parts) + TextSections(part)
      ensures hasHtml == (old(hasHtml) || HasPage(part))
      ensures htmlPart == Or(old(htmlPart), FirstPage(part))
      ensures explanation == Or(old(explanation), ExplanationOf(part))
      decreases part, 0
    {
      for i := 0 to |part.children|
        invariant parts == old(parts) + AllTexts(part, i)
        invariant hasHtml == (old(hasHtml) || HasPageIn(part, i))
        invariant htmlPart == Or(old(htmlPart), FirstPageOf(part, i))
        invariant explanation == Or(old(explanation), ExplanationIn(part, i))
      {
        Visit(part.children[i]);
      }
    }

    /** Each branch on its own; the last one with text is the richest to show. */
    method VisitAlternatives(part: Part)
      requires !IsAttachment(part.common) && KindOf(part.common) == Alternative
      modifies this
      ensures parts == old(parts) + TextSections(part)
      ensures hasHtml == (old(hasHtml) || HasPage(part))
      ensures htmlPart == Or(old(htmlPart), FirstPage(part))
      ensures explanation == Or(old(explanation), ExplanationOf(part))
      decreases part, 0
    {
      var chosen: Option<seq<Section>> := None;
      for i := 0 to |part.children|
        invariant parts == old(parts)
        invariant LastWithText(part, i) == chosen.GetOr([])
        invariant hasHtml == (old(hasHtml) || HasPageIn(part, i))
        invariant htmlPart == Or(old(htmlPart), FirstPageOf(part, i))
        invariant explanation == Or(old(explanation), ExplanationIn(part, i))
      {
        var branch := new Walk();
        branch.Visit(part.children[i]);
        assert branch.parts == TextSections(part.children[i]);
        hasHtml := hasHtml || branch.hasHtml;
        htmlPart := Or(htmlPart, branch.htmlPart);
        if branch.parts == [] {
          explanation := Or(explanation, branch.explanation);
        } else {
          chosen := Some(branch.parts);
        }
      }
      if chosen.Some? {
        parts := parts + chosen.value;
      }
    }
  }

  datatype TextSelection = Parts(sections: seq<Section>) | NoParts(explanation: Explanation)

  /** The plain text parts to read, or why there are none. */
  method SelectTextParts(root: Part) returns (selection: TextSelection)
    ensures selection ==
            if TextSections(root) != [] then Parts(TextSections(root))
            else NoParts(ExplanationOf(root).GetOr(NoPlainText(HasPage(root))))
  {
    var walk := new Walk();
    walk.Visit(root);
    assert walk.parts == TextSections(root);
    if walk.parts != [] {
      return Parts(walk.parts);
    }
    return NoParts(walk.explanation.GetOr(NoPlainText(walk.hasHtml)));
  }
}
