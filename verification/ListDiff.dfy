/** The message list's row objects made to follow newly read rows: the common
    beginning and end stay, one splice replaces the middle. */
module ListDiff {
  import opened Domain

  datatype ListRow = ListRow(
    identity: string,
    fields: Fields,
    received: Option<int>,
    seen: bool,
    flagged: bool,
    preview: string)

  /** Whether both show one message, apart from its read state and star. */
  predicate SameMessage(a: ListRow, b: ListRow) {
    a.identity == b.identity && a.fields == b.fields && a.received == b.received && a.preview == b.preview
  }

  /** Two rows of one message that differ at most in its read state and star. */
  lemma SameMessageIff(a: ListRow, b: ListRow)
    ensures SameMessage(a, b) <==> a == b.(seen := a.seen, flagged := a.flagged)
  {
  }

  predicate DistinctRows(rows: seq<ListRow>) {
    forall i, j :: 0 <= i < j < |rows| ==> rows[i].identity != rows[j].identity
  }

  /** A row object of the list, made from a stored row. */
  class MessageItem {
    const listed: ListRow
    var unread: bool
    var starred: bool
    var shown: bool

    constructor (row: ListRow)
      ensures listed == row && unread == !row.seen && starred == row.flagged && shown
    {
      listed, unread, starred, shown := row, !row.seen, row.flagged, true;
    }

    predicate ListsSameMessage(row: ListRow) {
      SameMessage(listed, row)
    }
  }

  ghost predicate DistinctItems(items: seq<MessageItem>) {
    forall i, j :: 0 <= i < j < |items| ==> items[i].listed.identity != items[j].listed.identity
  }

  /** The list model the view shows. */
  class ListStore {
    var items: seq<MessageItem>

    constructor ()
      ensures items == []
    {
      items := [];
    }

    method Splice(position: nat, removals: nat, additions: seq<MessageItem>)
      requires position + removals <= |items|
      modifies this
      ensures items == old(items[..position] + additions + items[position + removals..])
    {
      items := items[..position] + additions + items[position + removals..];
    }
  }

  // ----- the common beginning and end

  /** The last `n` of both show the same messages. */
  predicate SameEnd(items: seq<MessageItem>, rows: seq<ListRow>, n: nat)
    requires n <= |items| && n <= |rows|
  {
    forall i :: |items| - n <= i < |items| ==> items[i].ListsSameMessage(rows[i - |items| + |rows|])
  }

  method CommonStart(items: seq<MessageItem>, rows: seq<ListRow>) returns (n: nat)
    ensures n <= |items| && n <= |rows|
    ensures forall i :: 0 <= i < n ==> items[i].ListsSameMessage(rows[i])
  {
    n := 0;
    while n < |items| && n < |rows| && items[n].ListsSameMessage(rows[n])
      invariant n <= |items| && n <= |rows|
      invariant forall i :: 0 <= i < n ==> items[i].ListsSameMessage(rows[i])
    {
      n := n + 1;
    }
  }

  method CommonEnd(items: seq<MessageItem>, rows: seq<ListRow>, start: nat) returns (n: nat)
    requires start <= |items| && start <= |rows|
    ensures n <= |items| - start && n <= |rows| - start
    ensures SameEnd(items, rows, n)
  {
    n := 0;
    while n < |items| - start && n < |rows| - start && items[|items| - 1 - n].ListsSameMessage(rows[|rows| - 1 - n])
      invariant n <= |items| - start && n <= |rows| - start
      invariant SameEnd(items, rows, n)
    {
      n := n + 1;
    }
  }

  // ----- the replaced middle

  /** The items to be replaced, by identity; there are as many as places. */
  method ByIdentity(items: seq<MessageItem>) returns (byIdentity: map<string, MessageItem>)
    requires DistinctItems(items)
    ensures |byIdentity| == |items|
    ensures forall i :: 0 <= i < |items| ==> items[i].listed.identity in byIdentity && byIdentity[items[i].listed.identity] == items[i]
    ensures forall k :: k in byIdentity ==> byIdentity[k] in items && byIdentity[k].listed.identity == k
  {
    byIdentity := map[];
    for n := 0 to |items|
      invariant |byIdentity| == n
      invariant forall i :: 0 <= i < n ==> items[i].listed.identity in byIdentity && byIdentity[items[i].listed.identity] == items[i]
      invariant forall k :: k in byIdentity ==> byIdentity[k] in items[..n] && byIdentity[k].listed.identity == k
    {
      byIdentity := byIdentity[items[n].listed.identity := items[n]];
    }
    assert items[..|items|] == items;
  }

  /** The objects for the new middle: a replaced one that shows its message
      unchanged, otherwise a new one, closed if the change is animated. */
  method ItemsFor(rows: seq<ListRow>, removed: map<string, MessageItem>, animated: bool) returns (added: seq<MessageItem>)
    requires forall k :: k in removed ==> removed[k].listed.identity == k
    ensures |added| == |rows|
    ensures forall i :: 0 <= i < |rows| ==> AddedFor(rows[i], removed, added[i])
    ensures forall item :: item in added ==> item in removed.Values || (fresh(item) && item.shown == !animated)
  {
    added := [];
    for n := 0 to |rows|
      invariant |added| == n
      invariant forall i :: 0 <= i < n ==> AddedFor(rows[i], removed, added[i])
      invariant forall item :: item in added ==> item in removed.Values || (fresh(item) && item.shown == !animated)
    {
      var row := rows[n];
      if row.identity in removed && removed[row.identity].ListsSameMessage(row) {
        added := added + [removed[row.identity]];
      } else {
        var item := new MessageItem(row);
        if animated {
          item.shown := false;
        }
        added := added + [item];
      }
    }
  }

  // ----- the whole update

  /** A message listed unchanged before and after. */
  ghost predicate KeepsObjects(before: seq<MessageItem>, rows: seq<ListRow>, after: seq<MessageItem>) {
    |after| == |rows|
    && forall p, q :: 0 <= p < |before| && 0 <= q < |rows| && SameMessage(before[p].listed, rows[q]) ==> after[q] == before[p]
  }

  ghost predicate Lists(items: seq<MessageItem>, rows: seq<ListRow>) {
    |items| == |rows| && forall i :: 0 <= i < |rows| ==> items[i].ListsSameMessage(rows[i])
  }

  /** What the scan found: the common beginning and end, the replaced items and the new middle. */
  ghost predicate Scanned(before: seq<MessageItem>, rows: seq<ListRow>, start: nat, end: nat,
                          removed: map<string, MessageItem>, added: seq<MessageItem>) {
    && start + end <= |before| && start + end <= |rows| && |added| == |rows| - start - end
    && (forall i :: 0 <= i < start ==> before[i].ListsSameMessage(rows[i]))
    && SameEnd(before, rows, end)
    && (forall i :: start <= i < |before| - end ==>
          before[i].listed.identity in removed && removed[before[i].listed.identity] == before[i])
    && (forall i :: 0 <= i < |added| ==> AddedFor(rows[start + i], removed, added[i]))
  }

  ghost predicate AddedFor(row: ListRow, removed: map<string, MessageItem>, item: MessageItem) {
    && item.ListsSameMessage(row)
    && (row.identity in removed && removed[row.identity].ListsSameMessage(row) ==> item == removed[row.identity])
  }

  function Spliced(before: seq<MessageItem>, start: nat, end: nat, added: seq<MessageItem>): seq<MessageItem>
    requires start + end <= |before|
  {
    before[..start] + added + before[|before| - end..]
  }

  /** The new list from its three stretches. */
  lemma StretchesList(before: seq<MessageItem>, rows: seq<ListRow>, start: nat, end: nat,
                      removed: map<string, MessageItem>, added: seq<MessageItem>, after: seq<MessageItem>)
    requires Scanned(before, rows, start, end, removed, added) && after == Spliced(before, start, end, added)
    ensures Lists(after, rows)
  {
    forall i | 0 <= i < |rows|
      ensures after[i].ListsSameMessage(rows[i])
    {
      if i < start {
        assert after[i] == before[i];
      } else if i < |rows| - end {
        assert after[i] == added[i - start];
        assert AddedFor(rows[start + (i - start)], removed, added[i - start]);
      } else {
        var p := i - |rows| + |before|;
        assert after[i] == before[p];
        assert before[p].ListsSameMessage(rows[p - |before| + |rows|]);
      }
    }
  }

  /** A message listed before and after is in the same stretch, and keeps its object. */
  lemma StretchKeepsObject(before: seq<MessageItem>, rows: seq<ListRow>, start: nat, end: nat,
                           removed: map<string, MessageItem>, added: seq<MessageItem>, after: seq<MessageItem>, p: nat, q: nat)
    requires DistinctItems(before) && DistinctRows(rows)
    requires Scanned(before, rows, start, end, removed, added) && after == Spliced(before, start, end, added)
    requires p < |before| && q < |rows| && SameMessage(before[p].listed, rows[q])
    ensures q < |after| && after[q] == before[p]
  {
    if q < start {
      OnePlace(before, p, q);
    } else if q >= |rows| - end {
      OnePlace(before, p, q - |rows| + |before|);
    } else {
      MiddleStays(before, rows, start, end, removed, added, p, q);
      assert AddedFor(rows[start + (q - start)], removed, added[q - start]);
    }
  }

  lemma OnePlace(items: seq<MessageItem>, i: nat, j: nat)
    requires DistinctItems(items) && i < |items| && j < |items|
    requires items[i].listed.identity == items[j].listed.identity
    ensures i == j
  {
  }

  /** An item whose message is listed in the new middle is in the old one. */
  lemma MiddleStays(before: seq<MessageItem>, rows: seq<ListRow>, start: nat, end: nat,
                    removed: map<string, MessageItem>, added: seq<MessageItem>, p: nat, q: nat)
    requires DistinctRows(rows) && Scanned(before, rows, start, end, removed, added)
    requires p < |before| && start <= q < |rows| - end && SameMessage(before[p].listed, rows[q])
    ensures start <= p < |before| - end
  {
  }

  lemma ListedAreDistinct(items: seq<MessageItem>, rows: seq<ListRow>)
    requires Lists(items, rows) && DistinctRows(rows)
    ensures DistinctItems(items) && forall i, j :: 0 <= i < j < |items| ==> items[i] != items[j]
  {
    forall i, j | 0 <= i < j < |items|
      ensures items[i].listed.identity != items[j].listed.identity
    {
      assert rows[i].identity != rows[j].identity;
    }
  }

  /** Makes the list show exactly the rows. */
  method UpdateListByDifference(list: ListStore, rows: seq<ListRow>, animated: bool) returns (closed: seq<MessageItem>)
    requires DistinctItems(list.items) && DistinctRows(rows)
    modifies list, list.items
    ensures Lists(list.items, rows) && DistinctItems(list.items)
    ensures forall i :: 0 <= i < |rows| ==> list.items[i].listed == rows[i].(seen := list.items[i].listed.seen, flagged := list.items[i].listed.flagged)
    ensures forall i :: 0 <= i < |rows| ==> list.items[i].unread == !rows[i].seen && list.items[i].starred == rows[i].flagged
    ensures KeepsObjects(old(list.items), rows, list.items)
    ensures forall item :: item in list.items ==>
              || (item in old(list.items) && item.shown == old(item.shown))
              || (fresh(item) && item.shown == !animated)
    ensures forall item :: item in closed <==> item in list.items && !item.shown
  {
    ReplaceMiddle(list, rows, animated);
    ListedAreDistinct(list.items, rows);
    assert forall i :: 0 <= i < |list.items| ==> list.items[i] in old(list.items) || fresh(list.items[i]);
    closed := ShowFlags(list.items, rows);
  }

  /** The scan: the common beginning and end, and the objects of the new middle. */
  method Scan(items: seq<MessageItem>, rows: seq<ListRow>, animated: bool)
    returns (start: nat, end: nat, removed: map<string, MessageItem>, added: seq<MessageItem>)
    requires DistinctItems(items)
    ensures Scanned(items, rows, start, end, removed, added)
    ensures |removed| == |items| - start - end
    ensures forall item :: item in added ==> item in items || (fresh(item) && item.shown == !animated)
  {
    start := CommonStart(items, rows);
    end := CommonEnd(items, rows, start);
    var middle := items[start..|items| - end];
    removed := ByIdentity(middle);
    var wanted := rows[start..|rows| - end];
    added := ItemsFor(wanted, removed, animated);
    assert forall i :: start <= i < |items| - end ==> items[i] == middle[i - start];
    assert forall i :: 0 <= i < |wanted| ==> wanted[i] == rows[start + i];
  }

  /** The scan and the splice, whose count is the map's size. */
  method ReplaceMiddle(list: ListStore, rows: seq<ListRow>, animated: bool)
    requires DistinctItems(list.items) && DistinctRows(rows)
    modifies list
    ensures Lists(list.items, rows) && KeepsObjects(old(list.items), rows, list.items)
    ensures forall item :: item in list.items ==> item in old(list.items) || (fresh(item) && item.shown == !animated)
  {
    ghost var before := list.items;
    var start, end, removed, added := Scan(list.items, rows, animated);
    if |removed| > 0 || |added| > 0 {
      list.Splice(start, |removed|, added);
    }
    ghost var after := list.items;
    assert after == Spliced(before, start, end, added);
    StretchesList(before, rows, start, end, removed, added, after);
    forall p, q | 0 <= p < |before| && 0 <= q < |rows| && SameMessage(before[p].listed, rows[q])
      ensures after[q] == before[p]
    {
      StretchKeepsObject(before, rows, start, end, removed, added, after, p, q);
    }
  }

  /** Every row's read state and star changed in place; the closed rows are returned. */
  method ShowFlags(items: seq<MessageItem>, rows: seq<ListRow>) returns (closed: seq<MessageItem>)
    requires |items| == |rows| && forall i, j :: 0 <= i < j < |items| ==> items[i] != items[j]
    modifies items
    ensures forall i :: 0 <= i < |rows| ==> items[i].unread == !rows[i].seen && items[i].starred == rows[i].flagged
    ensures forall item :: item in items ==> item.shown == old(item.shown)
    ensures forall item :: item in closed <==> item in items && !item.shown
  {
    closed := [];
    for n := 0 to |rows|
      invariant forall i :: 0 <= i < n ==> items[i].unread == !rows[i].seen && items[i].starred == rows[i].flagged
      invariant forall item :: item in items ==> item.shown == old(item.shown)
      invariant forall item :: item in closed <==> item in items[..n] && !item.shown
    {
      var item := items[n];
      if item.unread == rows[n].seen {
        item.unread := !rows[n].seen;
      }
      if item.starred != rows[n].flagged {
        item.starred := rows[n].flagged;
      }
      assert items[..n + 1] == items[..n] + [item];
      if !item.shown {
        closed := closed + [item];
      }
    }
    assert items[..|rows|] == items;
  }

  // ----- rows that leave

  predicate ListedUnchanged(row: ListRow, rows: seq<ListRow>) {
    exists i :: 0 <= i < |rows| && SameMessage(row, rows[i])
  }

  method RowsByIdentity(rows: seq<ListRow>) returns (byIdentity: map<string, ListRow>)
    requires DistinctRows(rows)
    ensures forall i :: 0 <= i < |rows| ==> rows[i].identity in byIdentity && byIdentity[rows[i].identity] == rows[i]
    ensures forall k :: k in byIdentity ==> byIdentity[k] in rows && byIdentity[k].identity == k
  {
    byIdentity := map[];
    for n := 0 to |rows|
      invariant forall i :: 0 <= i < n ==> rows[i].identity in byIdentity && byIdentity[rows[i].identity] == rows[i]
      invariant forall k :: k in byIdentity ==> byIdentity[k] in rows && byIdentity[k].identity == k
    {
      byIdentity := byIdentity[rows[n].identity := rows[n]];
    }
  }

  /** The rows by identity answer whether a message is listed unchanged. */
  lemma StaysIffUnchanged(row: ListRow, rows: seq<ListRow>, byIdentity: map<string, ListRow>)
    requires forall i :: 0 <= i < |rows| ==> rows[i].identity in byIdentity && byIdentity[rows[i].identity] == rows[i]
    requires forall k :: k in byIdentity ==> byIdentity[k] in rows && byIdentity[k].identity == k
    ensures row.identity in byIdentity && SameMessage(row, byIdentity[row.identity]) <==> ListedUnchanged(row, rows)
  {
    if row.identity in byIdentity && SameMessage(row, byIdentity[row.identity]) {
      var i :| 0 <= i < |rows| && rows[i] == byIdentity[row.identity];
      assert SameMessage(row, rows[i]);
    }
  }

  /** Closes exactly the shown rows whose message is no longer listed as it is,
      and says whether there were any. */
  method CloseLeavingRows(list: ListStore, rows: seq<ListRow>) returns (started: bool)
    requires DistinctItems(list.items) && DistinctRows(rows)
    modifies list.items
    ensures forall item :: item in list.items ==> item.shown == (old(item.shown) && ListedUnchanged(item.listed, rows))
    ensures forall item :: item in list.items ==> item.unread == old(item.unread) && item.starred == old(item.starred)
    ensures started <==> exists item :: item in list.items && old(item.shown) && !ListedUnchanged(item.listed, rows)
  {
    hide ListedUnchanged, SameMessage;
    var byIdentity := RowsByIdentity(rows);
    started := false;
    for n := 0 to |list.items|
      invariant forall i :: 0 <= i < n ==>
                  list.items[i].shown == (old(list.items[i].shown) && ListedUnchanged(list.items[i].listed, rows))
      invariant forall i :: n <= i < |list.items| ==> list.items[i].shown == old(list.items[i].shown)
      invariant forall item :: item in list.items ==> item.unread == old(item.unread) && item.starred == old(item.starred)
      invariant started <==> exists i :: 0 <= i < n && old(list.items[i].shown) && !ListedUnchanged(list.items[i].listed, rows)
    {
      var item := list.items[n];
      var identity := item.listed.identity;
      var stays := identity in byIdentity && item.ListsSameMessage(byIdentity[identity]);
      StaysIffUnchanged(item.listed, rows, byIdentity);
      if !stays && item.shown {
        item.shown := false;
        started := true;
      }
    }
  }
}
