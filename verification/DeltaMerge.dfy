/** A page's entries merged per message: the fold the cycle runs, and what it
    amounts to for each message on its own. */
module DeltaMerge {
  import opened Domain

  datatype GraphMessage = GraphMessage(id: string, isRead: bool, flagged: bool, fields: Fields)

  datatype MessageChange =
    | Removed(removedId: string)
    | Listed(message: GraphMessage)
    | Changed(changedId: string, isRead: Option<bool>, flagged: Option<bool>, otherFields: bool)
  {
    function Id(): string {
      match this
      case Removed(id) => id
      case Listed(m) => m.id
      case Changed(id, _, _, _) => id
    }
  }

  /** The entry a message is read again for. */
  function ReadAgain(id: string): MessageChange {
    Changed(id, None, None, true)
  }

  // ----- the fold

  /** A later entry after an earlier one of the same message, neither of them
      marking it removed unless both do. */
  function Combined(earlier: MessageChange, later: MessageChange): MessageChange {
    match (earlier, later)
    case (Listed(m), Changed(_, isRead, flagged, false)) =>
      Listed(m.(isRead := isRead.GetOr(m.isRead), flagged := flagged.GetOr(m.flagged)))
    case (Changed(_, _, _, earlierFields), Changed(id, _, _, otherFields)) =>
      Changed(id, None, None, otherFields || earlierFields)
    case _ => later
  }

  /** The message's own entries, in their order. */
  function Own(changes: seq<MessageChange>, id: string): seq<MessageChange> {
    if changes == [] then []
    else
      var last := changes[|changes| - 1];
      Own(changes[..|changes| - 1], id) + if last.Id() == id then [last] else []
  }

  datatype Merging = Merging(change: MessageChange, readAgain: bool)

  function Fold(own: seq<MessageChange>): Merging
    requires own != []
  {
    var last := own[|own| - 1];
    if |own| == 1 then Merging(last, false)
    else
      var earlier := Fold(own[..|own| - 1]);
      if earlier.readAgain then earlier
      else if earlier.change.Removed? != last.Removed? then Merging(ReadAgain(last.Id()), true)
      else Merging(Combined(earlier.change, last), false)
  }

  // ----- what it amounts to

  ghost predicate Mixed(own: seq<MessageChange>) {
    (exists c :: c in own && c.Removed?) && (exists c :: c in own && !c.Removed?)
  }

  /** Every entry is partial and changes no field but the flags. */
  predicate FlagOnly(own: seq<MessageChange>) {
    forall c :: c in own ==> c.Changed? && !c.otherFields
  }

  ghost predicate OtherFields(own: seq<MessageChange>) {
    exists c :: c in own && c.Changed? && c.otherFields
  }

  /** The place of the last full entry, -1 without one. */
  function LastListed(own: seq<MessageChange>): (at: int)
    ensures -1 <= at < |own|
    ensures at >= 0 ==> own[at].Listed?
    ensures forall j :: at < j < |own| ==> !own[j].Listed?
  {
    if own == [] then -1
    else if own[|own| - 1].Listed? then |own| - 1
    else LastListed(own[..|own| - 1])
  }

  /** The last read state, or star, the partial entries give. */
  function LastRead(partial: seq<MessageChange>, isRead: bool): bool {
    if partial == [] then isRead
    else
      var last := partial[|partial| - 1];
      if last.Changed? && last.isRead.Some? then last.isRead.value else LastRead(partial[..|partial| - 1], isRead)
  }

  function LastFlagged(partial: seq<MessageChange>, flagged: bool): bool {
    if partial == [] then flagged
    else
      var last := partial[|partial| - 1];
      if last.Changed? && last.flagged.Some? then last.flagged.value else LastFlagged(partial[..|partial| - 1], flagged)
  }

  /** What the last full entry and the partial ones after it amount to. */
  ghost function ListedMeaning(message: GraphMessage, partial: seq<MessageChange>, id: string): MessageChange {
    if FlagOnly(partial)
    then Listed(message.(isRead := LastRead(partial, message.isRead), flagged := LastFlagged(partial, message.flagged)))
    else if FlagOnly(partial[..|partial| - 1]) then partial[|partial| - 1]
    else ReadAgain(id)
  }

  /** The merged entry from the message's own entries: met with a removal and
      anything else, it is read again; the last full entry stands with the flags of
      the partial ones after it, unless one of those changed another field; partial
      entries alone say whether any changed another field. */
  ghost function Meaning(own: seq<MessageChange>): MessageChange
    requires own != []
  {
    var last := own[|own| - 1];
    var at := LastListed(own);
    if Mixed(own) then ReadAgain(last.Id())
    else if last.Removed? then last
    else if at >= 0 then ListedMeaning(own[at].message, own[at + 1..], last.Id())
    else if |own| == 1 then last
    else Changed(last.Id(), None, None, OtherFields(own))
  }

  ghost predicate OfOne(own: seq<MessageChange>, id: string) {
    forall c :: c in own ==> c.Id() == id
  }

  lemma {:induction false} OwnIsOfOne(changes: seq<MessageChange>, id: string)
    ensures OfOne(Own(changes, id), id)
  {
    if changes != [] {
      OwnIsOfOne(changes[..|changes| - 1], id);
    }
  }

  lemma MixedGrows(own: seq<MessageChange>)
    requires |own| > 1
    ensures Mixed(own) <==> Mixed(own[..|own| - 1]) || own[|own| - 2].Removed? != own[|own| - 1].Removed?
  {
    var n := |own| - 1;
    assert own == own[..n] + [own[n]];
    assert own[n - 1] in own[..n];
    if !Mixed(own[..n]) {
      forall c | c in own[..n]
        ensures c.Removed? == own[n - 1].Removed?
      {
      }
    }
  }

  lemma ListedMeaningGrows(message: GraphMessage, partial: seq<MessageChange>, last: MessageChange, id: string)
    requires last.Changed? && last.Id() == id && forall c :: c in partial ==> c.Changed? && c.Id() == id
    ensures ListedMeaning(message, partial + [last], id) == Combined(ListedMeaning(message, partial, id), last)
  {
    assert (partial + [last])[..|partial|] == partial;
    assert FlagOnly(partial + [last]) <==> FlagOnly(partial) && !last.otherFields;
    if !FlagOnly(partial) {
      assert partial[|partial| - 1] in partial;
      assert partial == partial[..|partial| - 1] + [partial[|partial| - 1]];
    }
  }

  lemma NoneRemoved(own: seq<MessageChange>, c: MessageChange, d: MessageChange)
    requires !Mixed(own) && c in own && d in own
    ensures c.Removed? == d.Removed?
  {
  }

  /** Without a removal, what follows the last full entry is partial. */
  lemma PartialAfterLast(own: seq<MessageChange>, id: string, at: nat, c: MessageChange)
    requires OfOne(own, id) && !Mixed(own) && at == LastListed(own) && c in own[at + 1..]
    ensures c.Changed? && c.Id() == id
  {
    var k :| at + 1 <= k < |own| && own[k] == c;
    assert own[at] in own && own[k] in own;
    NoneRemoved(own, own[at], c);
  }

  lemma NotMixedAfterListed(own: seq<MessageChange>, id: string, at: nat)
    requires OfOne(own, id) && !Mixed(own) && at == LastListed(own)
    ensures forall c :: c in own[at + 1..] ==> c.Changed? && c.Id() == id
    ensures Meaning(own) == ListedMeaning(own[at].message, own[at + 1..], id)
  {
    forall c | c in own[at + 1..]
      ensures c.Changed? && c.Id() == id
    {
      PartialAfterLast(own, id, at, c);
    }
    MeaningWithListed(own, id, at);
  }

  lemma MeaningWithListed(own: seq<MessageChange>, id: string, at: nat)
    requires OfOne(own, id) && !Mixed(own) && at == LastListed(own)
    ensures Meaning(own) == ListedMeaning(own[at].message, own[at + 1..], id)
  {
    hide LastListed, ListedMeaning, FlagOnly, OtherFields;
    var last := own[|own| - 1];
    assert own[at] in own && last in own;
    NoneRemoved(own, own[at], last);
  }

  lemma ListedAtInPrefix(own: seq<MessageChange>, prefix: seq<MessageChange>, last: MessageChange, at: nat)
    requires own == prefix + [last] && !last.Listed? && LastListed(own) == at
    ensures at < |prefix| && LastListed(prefix) == at && prefix[at] == own[at] && own[at + 1..] == prefix[at + 1..] + [last]
  {
    assert own[..|own| - 1] == prefix;
  }

  /** One more partial entry after a full one. */
  lemma PartialAfterListed(own: seq<MessageChange>, prefix: seq<MessageChange>, last: MessageChange, id: string)
    requires own == prefix + [last] && prefix != [] && OfOne(own, id) && !Mixed(own) && !Mixed(prefix)
    requires last.Changed? && LastListed(own) >= 0
    ensures Meaning(own) == Combined(Meaning(prefix), last)
  {
    var at := LastListed(own);
    ListedAtInPrefix(own, prefix, last, at);
    assert Meaning(own) == ListedMeaning(own[at].message, own[at + 1..], id) by {
      NotMixedAfterListed(own, id, at);
    }
    assert (forall c :: c in prefix[at + 1..] ==> c.Changed? && c.Id() == id)
      && Meaning(prefix) == ListedMeaning(own[at].message, prefix[at + 1..], id) by {
      NotMixedAfterListed(prefix, id, at);
    }
    assert last in own;
    ListedMeaningGrows(own[at].message, prefix[at + 1..], last, id);
  }

  /** One more partial entry after partial ones. */
  lemma PartialAfterPartial(own: seq<MessageChange>, id: string)
    requires |own| > 1 && OfOne(own, id) && !Mixed(own) && own[|own| - 1].Changed? && LastListed(own) < 0
    ensures Meaning(own) == Combined(Meaning(own[..|own| - 1]), own[|own| - 1])
  {
    var n := |own| - 1;
    var prefix, last := own[..n], own[n];
    MixedGrows(own);
    assert own == prefix + [last];
    assert LastListed(prefix) == -1;
    assert last in own && prefix[n - 1] in own;
    assert OtherFields(own) <==> OtherFields(prefix) || last.otherFields;
    if n == 1 {
      assert prefix == [prefix[0]];
    }
  }

  /** One more entry, unless a removal met another entry. */
  lemma MeaningGrows(own: seq<MessageChange>, id: string)
    requires |own| > 1 && OfOne(own, id) && !Mixed(own) && !own[|own| - 1].Removed?
    ensures Meaning(own) == Combined(Meaning(own[..|own| - 1]), own[|own| - 1])
  {
    var n := |own| - 1;
    MixedGrows(own);
    if own[n].Listed? {
      assert own[n + 1..] == [];
    } else if LastListed(own) >= 0 {
      assert own == own[..n] + [own[n]];
      PartialAfterListed(own, own[..n], own[n], id);
    } else {
      PartialAfterPartial(own, id);
    }
  }

  lemma MeaningIsRemoved(own: seq<MessageChange>, id: string)
    requires own != [] && OfOne(own, id) && !Mixed(own)
    ensures Meaning(own).Removed? <==> own[|own| - 1].Removed?
  {
    assert own[|own| - 1] in own;
  }

  lemma MixedMeaning(own: seq<MessageChange>, id: string)
    requires own != [] && OfOne(own, id) && Mixed(own)
    ensures Meaning(own) == ReadAgain(id)
  {
    assert own[|own| - 1] in own;
  }

  lemma OneMeaning(own: seq<MessageChange>, id: string)
    requires |own| == 1 && OfOne(own, id)
    ensures !Mixed(own) && Meaning(own) == own[0]
  {
    assert own[1..] == [] && own[0] in own;
  }

  /** One more entry of a message without a removal met with another entry. */
  lemma UnmixedGrows(own: seq<MessageChange>, id: string)
    requires |own| > 1 && OfOne(own, id) && !Mixed(own)
    ensures Meaning(own) == Combined(Meaning(own[..|own| - 1]), own[|own| - 1])
  {
    if own[|own| - 1].Removed? {
      assert Meaning(own) == own[|own| - 1];
    } else {
      MeaningGrows(own, id);
    }
  }

  lemma OfOnePrefix(own: seq<MessageChange>, id: string)
    requires own != [] && OfOne(own, id)
    ensures OfOne(own[..|own| - 1], id) && own[|own| - 1].Id() == id
  {
    assert own[|own| - 1] in own;
  }

  /** The fold gives what the entries mean. */
  lemma {:induction false} FoldIsMeaning(own: seq<MessageChange>, id: string)
    requires own != [] && OfOne(own, id)
    ensures Fold(own) == Merging(Meaning(own), Mixed(own))
  {
    if |own| == 1 {
      OneMeaning(own, id);
    } else {
      var prefix := own[..|own| - 1];
      OfOnePrefix(own, id);
      FoldIsMeaning(prefix, id);
      MixedGrows(own);
      if Mixed(prefix) {
        MixedMeaning(prefix, id);
        MixedMeaning(own, id);
      } else {
        MeaningIsRemoved(prefix, id);
        if Mixed(own) {
          MixedMeaning(own, id);
        } else {
          UnmixedGrows(own, id);
        }
      }
    }
  }

  lemma FoldGrows(own: seq<MessageChange>, change: MessageChange)
    ensures Fold(own + [change]) ==
            if own == [] then Merging(change, false)
            else if Fold(own).readAgain then Fold(own)
            else if Fold(own).change.Removed? != change.Removed? then Merging(ReadAgain(change.Id()), true)
            else Merging(Combined(Fold(own).change, change), false)
  {
    assert (own + [change])[..|own|] == own;
  }

  lemma OwnGrows(changes: seq<MessageChange>, i: nat, id: string)
    requires i < |changes|
    ensures Own(changes[..i + 1], id) == Own(changes[..i], id) + if changes[i].Id() == id then [changes[i]] else []
  {
    assert changes[..i + 1][..i] == changes[..i];
  }

  /** Each message of the page has what its own entries mean, and no other message an entry. */
  ghost predicate IsMerged(changes: seq<MessageChange>, merged: map<string, MessageChange>) {
    && (forall id :: id in merged <==> Own(changes, id) != [])
    && (forall id :: id in merged ==> merged[id] == Meaning(Own(changes, id)))
  }

  /** The page merged in one pass over its entries. */
  method MergePerMessage(changes: seq<MessageChange>) returns (merged: map<string, MessageChange>)
    ensures IsMerged(changes, merged)
  {
    merged := map[];
    var readAgain: set<string> := {};
    for i := 0 to |changes|
      invariant forall id :: id in merged <==> Own(changes[..i], id) != []
      invariant forall id :: id in merged ==> Merging(merged[id], id in readAgain) == Fold(Own(changes[..i], id))
      invariant readAgain <= merged.Keys
    {
      var change := changes[i];
      var id := change.Id();
      FoldGrows(Own(changes[..i], id), change);
      forall other
        ensures Own(changes[..i + 1], other) == Own(changes[..i], other) + if id == other then [change] else []
        ensures id != other ==> Own(changes[..i + 1], other) == Own(changes[..i], other)
      {
        OwnGrows(changes, i, other);
      }
      if id !in readAgain {
        if id in merged {
          if merged[id].Removed? != change.Removed? {
            readAgain := readAgain + {id};
            merged := merged[id := ReadAgain(id)];
          } else {
            merged := merged[id := Combined(merged[id], change)];
          }
        } else {
          merged := merged[id := change];
        }
      }
    }
    assert changes[..|changes|] == changes;
    forall id | id in merged
      ensures merged[id] == Meaning(Own(changes, id))
    {
      OwnIsOfOne(changes, id);
      FoldIsMeaning(Own(changes, id), id);
    }
  }

  // ----- the order among messages

  lemma {:induction false} OwnSum(a: seq<MessageChange>, b: seq<MessageChange>, id: string)
    ensures Own(a + b, id) == Own(a, id) + Own(b, id)
  {
    if b == [] {
      assert a + b == a;
    } else {
      var n := |b| - 1;
      OwnSum(a, b[..n], id);
      assert (a + b)[..|a + b| - 1] == a + b[..n];
    }
  }

  /** `other` is the page with its entries `k` and `k + 1`, of different messages, exchanged. */
  predicate ExchangedAt(changes: seq<MessageChange>, other: seq<MessageChange>, k: nat) {
    && k + 1 < |changes| && changes[k].Id() != changes[k + 1].Id()
    && other == changes[..k] + ([changes[k + 1]] + [changes[k]]) + changes[k + 2..]
  }

  ghost predicate Exchanged(changes: seq<MessageChange>, other: seq<MessageChange>) {
    exists k: nat :: ExchangedAt(changes, other, k)
  }

  lemma OwnOfOne(c: MessageChange, id: string)
    ensures Own([c], id) == if c.Id() == id then [c] else []
  {
    assert [c][..0] == [];
  }

  lemma PairOwn(before: seq<MessageChange>, a: MessageChange, b: MessageChange, after: seq<MessageChange>, id: string)
    ensures Own(before + ([a] + [b]) + after, id)
         == Own(before, id) + ((if a.Id() == id then [a] else []) + (if b.Id() == id then [b] else [])) + Own(after, id)
  {
    OwnSum(before + ([a] + [b]), after, id);
    OwnSum(before, [a] + [b], id);
    OwnSum([a], [b], id);
    OwnOfOne(a, id);
    OwnOfOne(b, id);
  }

  lemma ExchangedOwn(changes: seq<MessageChange>, other: seq<MessageChange>, id: string)
    requires Exchanged(changes, other)
    ensures Own(changes, id) == Own(other, id)
  {
    var k: nat :| ExchangedAt(changes, other, k);
    var before, a, b, after := changes[..k], changes[k], changes[k + 1], changes[k + 2..];
    assert changes == before + ([a] + [b]) + after;
    PairOwn(before, a, b, after, id);
    PairOwn(before, b, a, after, id);
    if a.Id() == id {
      assert [a] + [] == [a] && [] + [a] == [a];
    } else if b.Id() == id {
      assert [b] + [] == [b] && [] + [b] == [b];
    }
  }

  /** Each page is the one before it with one such exchange. */
  ghost predicate ExchangedStepwise(pages: seq<seq<MessageChange>>) {
    forall k :: 0 < k < |pages| ==> Exchanged(pages[k - 1], pages[k])
  }

  lemma {:induction false} StepwiseOwn(pages: seq<seq<MessageChange>>, n: nat, id: string)
    requires n < |pages| && ExchangedStepwise(pages)
    ensures Own(pages[0], id) == Own(pages[n], id)
  {
    if n > 0 {
      StepwiseOwn(pages, n - 1, id);
      ExchangedOwn(pages[n - 1], pages[n], id);
    }
  }

  /** Any number of exchanges of neighbouring entries of different messages leaves
      the merged page the very same. */
  lemma OrderAmongMessagesIsNothing(pages: seq<seq<MessageChange>>, first: map<string, MessageChange>, last: map<string, MessageChange>)
    requires pages != [] && ExchangedStepwise(pages)
    requires IsMerged(pages[0], first) && IsMerged(pages[|pages| - 1], last)
    ensures first == last
  {
    forall id
      ensures Own(pages[0], id) == Own(pages[|pages| - 1], id)
    {
      StepwiseOwn(pages, |pages| - 1, id);
    }
    forall id | id in first
      ensures id in last && last[id] == first[id]
    {
    }
    forall id | id in last
      ensures id in first
    {
    }
  }

  /** A removal met with another entry is read again in any order of the message's entries. */
  lemma MixedInAnyOrder(own: seq<MessageChange>, other: seq<MessageChange>, id: string)
    requires multiset(own) == multiset(other) && Mixed(own) && OfOne(own, id)
    ensures own != [] && other != [] && Fold(other).change == Fold(own).change == Changed(id, None, None, true)
  {
    forall c
      ensures c in own <==> c in other
    {
      assert c in own <==> c in multiset(own);
      assert c in other <==> c in multiset(other);
    }
    FoldIsMeaning(own, id);
    FoldIsMeaning(other, id);
  }
}
