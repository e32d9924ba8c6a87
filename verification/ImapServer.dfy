/** A mailbox on an IMAP server that other clients change too, as the history of
    its states, under what RFC 3501 and RFC 7162 require of the server. */
module ImapServer {
  import opened Domain
  import opened MessageIdentity

  /** `gmail` is X-GM-MSGID, on a Gmail server. */
  datatype ServerMessage = ServerMessage(gmail: Option<nat>, flags: Flags, modseq: nat)

  datatype Mailbox = Mailbox(uidValidity: nat, messages: map<nat, ServerMessage>, uidNext: nat, highestModseq: nat)

  /** One message of a listing, and a listing in ascending UID order. */
  datatype ListedUid = ListedUid(uid: nat, gmail: Option<nat>, flags: Flags)

  type History = seq<Mailbox>

  /** UIDs lie below UIDNEXT (section 2.3.1.1 of RFC 3501), mod-sequences do not
      exceed HIGHESTMODSEQ (section 3.1.2 of RFC 7162), and a Gmail identifier
      names one message of a mailbox. */
  ghost predicate SoundMailbox(s: Mailbox) {
    && (forall u :: u in s.messages ==> u < s.uidNext && s.messages[u].modseq <= s.highestModseq)
    && (forall u, v | u in s.messages && v in s.messages && s.messages[u].gmail.Some?
          && s.messages[u].gmail == s.messages[v].gmail :: u == v)
  }

  /** What may lie between two states: a new message takes a UID from UIDNEXT on,
      UIDNEXT never falls, every change of a message's flags raises its
      mod-sequence above the HIGHESTMODSEQ before it (sections 3.1.2 and 3.1.4.1
      of RFC 7162), and any of this may end only with a higher UIDVALIDITY. A
      removal raises nothing. */
  ghost predicate Follows(s: Mailbox, t: Mailbox) {
    && s.uidValidity <= t.uidValidity
    && (s.uidValidity == t.uidValidity ==>
          && s.uidNext <= t.uidNext && s.highestModseq <= t.highestModseq
          && (forall u :: u in t.messages && u !in s.messages ==>
                s.uidNext <= u && s.highestModseq < t.messages[u].modseq)
          && (forall u :: u in t.messages && u in s.messages ==>
                && t.messages[u].gmail == s.messages[u].gmail
                && (t.messages[u] == s.messages[u] || s.highestModseq < t.messages[u].modseq)))
  }

  ghost predicate ValidHistory(h: History) {
    && h != []
    && (forall i :: 0 <= i < |h| ==> SoundMailbox(h[i]))
    && (forall i :: 0 < i < |h| ==> FollowsAt(h, i))
  }

  ghost predicate FollowsAt(h: History, i: nat)
    requires 0 < i < |h|
  {
    Follows(h[i - 1], h[i])
  }

  lemma FollowsIsTransitive(s: Mailbox, t: Mailbox, r: Mailbox)
    requires SoundMailbox(s) && SoundMailbox(t) && SoundMailbox(r)
    requires Follows(s, t) && Follows(t, r)
    ensures Follows(s, r)
  {
  }

  /** What holds between neighbours holds between any two moments. */
  lemma {:induction false} FollowsLater(h: History, i: nat, j: nat)
    requires ValidHistory(h) && i <= j < |h|
    ensures Follows(h[i], h[j])
    decreases j - i
  {
    if i < j {
      FollowsLater(h, i, j - 1);
      assert FollowsAt(h, j);
      FollowsIsTransitive(h[i], h[j - 1], h[j]);
    }
  }

  /** UIDVALIDITY, EXISTS and UIDNEXT are equal. */
  predicate SameNumbers(s: Mailbox, t: Mailbox) {
    s.uidValidity == t.uidValidity && |s.messages| == |t.messages| && s.uidNext == t.uidNext
  }

  lemma EqualSizes<T>(a: set<T>, b: set<T>)
    requires a <= b && |a| == |b|
    ensures a == b
  {
    forall x | x in b
      ensures x in a
    {
      if x !in a {
        SubsetIsNotLarger(a, b - {x});
      }
    }
  }

  lemma SubsetIsNotLarger<T>(a: set<T>, b: set<T>)
    requires a <= b
    ensures |a| <= |b|
  {
    if a != {} {
      var x :| x in a;
      SubsetIsNotLarger(a - {x}, b - {x});
    }
  }

  /** Equal UIDVALIDITY, EXISTS and UIDNEXT force the very same messages, at both
      ends and at every moment between: nothing can have arrived, and what left
      would show in the count. */
  lemma SameNumbersSameMessages(h: History, a: nat, k: nat, c: nat)
    requires ValidHistory(h) && a <= k <= c < |h|
    requires SameNumbers(h[a], h[c])
    ensures h[a].messages.Keys == h[k].messages.Keys == h[c].messages.Keys
    ensures SameNumbers(h[a], h[k]) && SameNumbers(h[k], h[c])
  {
    FollowsLater(h, a, k);
    FollowsLater(h, k, c);
    FollowsLater(h, a, c);
    assert |h[a].messages.Keys| == |h[c].messages.Keys|;
    EqualSizes(h[c].messages.Keys, h[a].messages.Keys);
    assert h[k].messages.Keys <= h[a].messages.Keys;
    forall u | u in h[a].messages
      ensures u in h[k].messages
    {
      assert u < h[a].uidNext;
    }
  }

  /** An unchanged mod-sequence bound means unchanged flags: a message whose
      mod-sequence at `k` is not above the HIGHESTMODSEQ of `a` is as it was then. */
  lemma OldModseqSameMessage(h: History, a: nat, j: nat, k: nat, u: nat)
    requires ValidHistory(h) && a <= j <= k < |h|
    requires h[a].uidValidity == h[k].uidValidity
    requires u in h[k].messages && h[k].messages[u].modseq <= h[a].highestModseq
    ensures u in h[j].messages && h[j].messages[u] == h[k].messages[u]
  {
    FollowsLater(h, a, j);
    FollowsLater(h, j, k);
    FollowsLater(h, a, k);
  }

  // ----- what the cycle is told

  /** The numbers an opening at state `s` may report: what it reports is true. */
  predicate Reports(numbers: FolderNumbers, s: Mailbox) {
    && (numbers.uidValidity.Some? ==> numbers.uidValidity.value == s.uidValidity)
    && numbers.messageCount == |s.messages|
    && (numbers.uidNext.Some? ==> numbers.uidNext.value == s.uidNext)
    && (numbers.highestModseq.Some? ==> numbers.highestModseq.value == s.highestModseq)
  }

  predicate Ascending(messages: seq<ListedUid>) {
    forall i, j :: 0 <= i < j < |messages| ==> messages[i].uid < messages[j].uid
  }

  /** The entry tells the message as it was at moment `k`; a Gmail server may
      withhold the identifier. */
  predicate TrueAt(h: History, k: nat, e: ListedUid)
    requires k < |h|
  {
    && e.uid in h[k].messages && h[k].messages[e.uid].flags == e.flags
    && (e.gmail.None? || h[k].messages[e.uid].gmail == e.gmail)
  }

  ghost predicate TrueSometime(h: History, c: nat, d: nat, e: ListedUid)
    requires d < |h|
  {
    exists k :: c <= k <= d && TrueAt(h, k, e)
  }

  /** Every entry tells its message as it was at some moment of the reading. */
  ghost predicate TrueEntries(h: History, c: nat, d: nat, messages: seq<ListedUid>) {
    && c <= d < |h| && h[c].uidValidity == h[d].uidValidity
    && Ascending(messages)
    && forall e :: e in messages ==> TrueSometime(h, c, d, e)
  }

  predicate Lists(messages: seq<ListedUid>, u: nat) {
    exists i :: 0 <= i < |messages| && messages[i].uid == u
  }

  ghost predicate Throughout(h: History, c: nat, d: nat, u: nat)
    requires d < |h|
  {
    forall k :: c <= k <= d ==> u in h[k].messages
  }

  ghost predicate NotNewer(h: History, c: nat, d: nat, u: nat, since: nat)
    requires d < |h|
  {
    exists k :: c <= k <= d && u in h[k].messages && h[k].messages[u].modseq <= since
  }

  /** A listing of every message, read between `c` and `d`: nothing is invented,
      and a complete one leaves out no message that was there all the time. */
  ghost predicate Listing(h: History, c: nat, d: nat, messages: seq<ListedUid>, complete: bool) {
    && TrueEntries(h, c, d, messages)
    && (complete ==> forall u :: Throughout(h, c, d, u) ==> Lists(messages, u))
  }

  /** The CHANGEDSINCE listing: a complete one leaves out only messages whose
      mod-sequence was not above `since` at some moment of the reading. */
  ghost predicate ChangedListing(h: History, c: nat, d: nat, since: nat, messages: seq<ListedUid>, complete: bool) {
    && TrueEntries(h, c, d, messages)
    && (complete ==> forall u :: Throughout(h, c, d, u) && !Lists(messages, u) ==> NotNewer(h, c, d, u, since))
  }
}
