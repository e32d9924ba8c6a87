/** A whole IMAP cycle from its first listing to its second pass, as it sends the
    user's wishes: after the listing and after every fetched chunk, while the user
    goes on making wishes. */
module CycleSending {
  import opened Domain
  import opened ImapServer
  import opened StoreTables
  import opened StoreLaws
  import opened StoreRuns
  import opened StoreClass
  import opened ImapPass
  import opened ImapCycle
  import opened ImapPassRun
  import opened ImapWishes
  import opened Sending
  import opened Delivery

  /** What a fetch of a chunk brings: its rows, and whether the server refused to go on or was lost. */
  datatype Fetched = Fetched(rows: seq<Message>, refused: bool, lost: bool)

  /** The numbers of an opening and the listing after it. */
  datatype Opening = Opening(numbers: FolderNumbers, validity: nat, messages: seq<ListedUid>, complete: bool)

  // ----- the listing by identity

  /** The listed messages by their identities; of two with one identity the later counts. */
  function ByIdentity(listed: seq<ListedMessage>): map<string, ListedMessage> {
    if listed == [] then map[]
    else
      var last := listed[|listed| - 1];
      ByIdentity(listed[..|listed| - 1])[last.identity := last]
  }

  method ListedByIdentity(listed: seq<ListedMessage>) returns (byIdentity: map<string, ListedMessage>)
    requires Rising(listed)
    ensures byIdentity == ByIdentity(listed) && WellListed(byIdentity)
  {
    byIdentity := map[];
    for n := 0 to |listed|
      invariant byIdentity == ByIdentity(listed[..n])
    {
      assert listed[..n + 1][..n] == listed[..n];
      byIdentity := byIdentity[listed[n].identity := listed[n]];
    }
    assert listed[..|listed|] == listed;
    ByIdentityIsWell(listed);
  }

  lemma {:induction false} ByIdentityIs(listed: seq<ListedMessage>, i: string)
    ensures i in ByIdentity(listed) <==> i in ListedIdentities(listed)
    ensures i in ByIdentity(listed) ==> ByIdentity(listed)[i] in listed && ByIdentity(listed)[i].identity == i
  {
    if listed != [] {
      var n := |listed| - 1;
      ByIdentityIs(listed[..n], i);
      assert listed == listed[..n] + [listed[n]];
    }
  }

  /** A listing in ascending UID order gives each identity a UID of its own. */
  lemma ByIdentityIsWell(listed: seq<ListedMessage>)
    requires Rising(listed)
    ensures WellListed(ByIdentity(listed))
  {
    var byIdentity := ByIdentity(listed);
    forall i | i in byIdentity
      ensures byIdentity[i] in listed && byIdentity[i].identity == i
    {
      ByIdentityIs(listed, i);
    }
    forall i, j | i in byIdentity && j in byIdentity && byIdentity[i].uid == byIdentity[j].uid
      ensures i == j
    {
      var k :| 0 <= k < |listed| && listed[k] == byIdentity[i];
      var l :| 0 <= l < |listed| && listed[l] == byIdentity[j];
      assert k == l;
    }
  }

  // ----- the wishes of the cycle's start

  /** The listing tells the flags the server has. */
  ghost predicate Current(listed: map<string, ListedMessage>, flags: map<nat, Flags>) {
    forall i :: i in listed && listed[i].uid in flags ==> flags[listed[i].uid] == listed[i].flags
  }

  /** Every listed wish of `start` that the user did not wish again is settled, and
      the server, if it still has the message, holds it. */
  ghost predicate AllDelivered(s: Setting, listed: map<string, ListedMessage>, start: seq<PendingChange>, made: seq<Wish>,
                               flags: map<nat, Flags>, t: Tables) {
    forall e :: e in start && e.identity in listed && !Wished(s, made, e.identity, e.flag) ==> Delivered(s, listed, flags, t, e)
  }

  lemma BatchKeepsDelivered(s: Setting, listed: map<string, ListedMessage>, start: seq<PendingChange>, made: seq<Wish>,
                            flags: map<nat, Flags>, t: Tables, b: Batch)
    requires s.Folder() in t.folders && AllDelivered(s, listed, start, made, flags, t)
    ensures AllDelivered(s, listed, start, made, flags, StoreUnlessEmpty(t, s.Folder(), b))
  {
    forall e | e in start && e.identity in listed && !Wished(s, made, e.identity, e.flag)
      ensures Delivered(s, listed, flags, StoreUnlessEmpty(t, s.Folder(), b), e)
    {
      PendingAfterBatch(t, s.Folder(), b, s.Key(e.identity), e.flag);
    }
  }

  lemma WishesKeepDelivered(s: Setting, listed: map<string, ListedMessage>, start: seq<PendingChange>, made: seq<Wish>,
                            more: seq<Wish>, flags: map<nat, Flags>, t: Tables)
    requires AllDelivered(s, listed, start, made, flags, t)
    ensures AllDelivered(s, listed, start, made + more, flags, WithWishes(t, more))
  {
    forall e | e in start && e.identity in listed && !Wished(s, made + more, e.identity, e.flag)
      ensures Delivered(s, listed, flags, WithWishes(t, more), e)
    {
      WishedSum(s, made, more, e.identity, e.flag);
      WishesLeave(s, t, more, e.identity, e.flag);
    }
  }

  /** A later sending step leaves what was delivered: it sends only what is pending. */
  lemma StepKeepsDelivered(s: Setting, listed: map<string, ListedMessage>, start: seq<PendingChange>, made: seq<Wish>,
                           log: seq<PendingChange>, more: seq<Wish>,
                           flags: map<nat, Flags>, t: Tables, flags': map<nat, Flags>, t': Tables)
    requires AllDelivered(s, listed, start, made, flags, t)
    requires DeliveredLog(s, listed, log, more, flags, t, flags', t')
    requires forall o :: o in log ==> o in PendingChanges(s, t)
    ensures AllDelivered(s, listed, start, made + more, flags', t')
  {
    forall e | e in start && e.identity in listed && !Wished(s, made + more, e.identity, e.flag)
      ensures Delivered(s, listed, flags', t', e)
    {
      WishedSum(s, made, more, e.identity, e.flag);
      if o :| o in log && o.identity == e.identity && o.flag == e.flag {
        IsPendingChange(s, t, o);
        assert listed[e.identity].uid !in flags;
      } else {
        assert SameFlag(listed[e.identity].uid, e.flag, flags, flags');
      }
    }
  }

  /** The first sending step delivers every wish the listing did not show already:
      `t` are the tables at the cycle's start, `t1` after the pass stored its batch. */
  lemma StartIsDelivered(s: Setting, listed: map<string, ListedMessage>, start: seq<PendingChange>, log: seq<PendingChange>,
                         made: seq<Wish>, more: seq<Wish>, flags: map<nat, Flags>, t1: Tables, flags': map<nat, Flags>, t': Tables)
    requires Current(listed, flags)
    requires forall e :: e in start && e.identity in listed && !Wished(s, made, e.identity, e.flag) ==> e in PendingChanges(s, t1)
    requires DeliveredLog(s, listed, log, more, flags, AfterShown(t1, s, start, listed), flags', t')
    requires forall o :: o in log <==> o in PendingChanges(s, AfterShown(t1, s, start, listed)) && o.identity in listed
    ensures AllDelivered(s, listed, start, made + more, flags', t')
  {
    forall e | e in start && e.identity in listed && !Wished(s, made + more, e.identity, e.flag)
      ensures Delivered(s, listed, flags', t', e)
    {
      WishedSum(s, made, more, e.identity, e.flag);
      assert e in PendingChanges(s, t1);
      OneStartDelivered(s, listed, start, log, more, flags, t1, flags', t', e);
    }
  }

  lemma OneStartDelivered(s: Setting, listed: map<string, ListedMessage>, start: seq<PendingChange>, log: seq<PendingChange>,
                          more: seq<Wish>, flags: map<nat, Flags>, t1: Tables, flags': map<nat, Flags>, t': Tables, e: PendingChange)
    requires Current(listed, flags) && e in start && e.identity in listed && e in PendingChanges(s, t1)
    requires DeliveredLog(s, listed, log, more, flags, AfterShown(t1, s, start, listed), flags', t')
    requires forall o :: o in log <==> o in PendingChanges(s, AfterShown(t1, s, start, listed)) && o.identity in listed
    requires !Wished(s, more, e.identity, e.flag)
    ensures Delivered(s, listed, flags', t', e)
  {
    var t2 := AfterShown(t1, s, start, listed);
    IsPendingChange(s, t1, e);
    ShownEnd(t1, s, start, listed, e.identity, e.flag);
    assert e == PendingChange(e.identity, e.flag, e.wanted);
    if ListingShows(e, listed) {
      assert PendingOf(t2, s.Key(e.identity), e.flag).None?;
      ShownStays(s, listed, log, more, flags, t2, flags', t', e);
    } else {
      IsPendingChange(s, t2, e);
      assert e in log;
    }
  }

  /** A wish the listing showed was not sent, and stays as the server has it. */
  lemma ShownStays(s: Setting, listed: map<string, ListedMessage>, log: seq<PendingChange>, more: seq<Wish>,
                   flags: map<nat, Flags>, t: Tables, flags': map<nat, Flags>, t': Tables, e: PendingChange)
    requires Current(listed, flags) && ListingShows(e, listed) && PendingOf(t, s.Key(e.identity), e.flag).None?
    requires DeliveredLog(s, listed, log, more, flags, t, flags', t')
    requires forall o :: o in log ==> o in PendingChanges(s, t)
    requires !Wished(s, more, e.identity, e.flag)
    ensures Delivered(s, listed, flags', t', e)
  {
    if o :| o in log && o.identity == e.identity && o.flag == e.flag {
      IsPendingChange(s, t, o);
    } else {
      assert !Logged(log, e.identity, e.flag);
      assert SameFlag(listed[e.identity].uid, e.flag, flags, flags');
    }
  }

  /** The wishes of listed messages outlast the pass: they stay in the folder with
      their pending values, unless they are wished again. */
  lemma StartOutlastsPass(s: Setting, t: Tables, made: seq<Wish>, t1: Tables, b: Batch, listed: seq<ListedMessage>, e: PendingChange)
    requires t1 == WithWishes(t, made) && Valid(t1) && s.Folder() in t1.folders && e in PendingChanges(s, t)
    requires e.identity in ListedIdentities(listed) && !Wished(s, made, e.identity, e.flag)
    requires b.arrived == [] && b.removed !! ListedIdentities(listed)
    ensures e in PendingChanges(s, StoreUnlessEmpty(t1, s.Folder(), b))
  {
    var t2 := StoreUnlessEmpty(t1, s.Folder(), b);
    WishesLeave(s, t, made, e.identity, e.flag);
    IsPendingChange(s, t, e);
    assert e.identity in Held(t1, s.Folder()).Keys;
    if b != EMPTY_BATCH {
      HeldAfterBatch(t1, s.Folder(), b, e.identity);
    }
    BatchKeepsWish(s, t1, b, e.identity, e.flag);
    IsPendingChange(s, t2, e);
  }

  lemma AllOutlastPass(s: Setting, t: Tables, made: seq<Wish>, t1: Tables, sync: FolderSync, opening: Opening, plan: PassPlan,
                       listing: seq<ListedMessage>, start: seq<PendingChange>, t2: Tables)
    requires t1 == WithWishes(t, made) && Valid(t1) && s.Folder() in t1.folders
    requires forall e :: e in start ==> e in PendingChanges(s, t)
    requires t2 == StoreUnlessEmpty(t1, s.Folder(), PassBatch(sync, opening.numbers, plan, listing, opening.complete))
    ensures forall e :: e in start && e.identity in ByIdentity(listing) && !Wished(s, made, e.identity, e.flag) ==>
              e in PendingChanges(s, t2)
  {
    forall e | e in start && e.identity in ByIdentity(listing) && !Wished(s, made, e.identity, e.flag)
      ensures e in PendingChanges(s, t2)
    {
      ByIdentityIs(listing, e.identity);
      StartOutlastsPass(s, t, made, t1, PassBatch(sync, opening.numbers, plan, listing, opening.complete), listing, e);
    }
  }

  /** A sending step leaves what was delivered, whatever it comes to. */
  lemma SendingKeepsDelivered(s: Setting, listed: map<string, ListedMessage>, start: seq<PendingChange>, made: seq<Wish>,
                              log: seq<PendingChange>, log': seq<PendingChange>, more: seq<Wish>,
                              flags: map<nat, Flags>, t: Tables, flags': map<nat, Flags>, t': Tables, sent: SentChanges)
    requires log <= log' && AllDelivered(s, listed, start, made, flags, t)
    requires DeliveredLog(s, listed, log'[|log|..], more, flags, t, flags', t')
    requires forall e :: e in log'[|log|..] <==> e in PendingChanges(s, t) && ToSend(e, listed, sent)
    ensures AllDelivered(s, listed, start, made + more, flags', t')
  {
    StepKeepsDelivered(s, listed, start, made, log'[|log|..], more, flags, t, flags', t');
  }

  // ----- the cycle

  /** The batch of a state pass that began when the tables were `t`. */
  function PassAt(s: Setting, t: Tables, opening: Opening, plan: PassPlan): Batch {
    PassBatch(SyncOf(s, t), opening.numbers, plan, Identify(s.naming, opening.validity, opening.messages), opening.complete)
  }

  /** The missing messages in the chunks they are fetched in. */
  function ChunksOf(missing: seq<ListedMessage>): (chunks: seq<seq<ListedMessage>>)
    decreases |missing|
  {
    if missing == [] then [] else [Chunk(missing)] + ChunksOf(missing[|Chunk(missing)|..])
  }

  function RowRequests(chunks: seq<seq<ListedMessage>>): seq<Request> {
    seq(|chunks|, j requires 0 <= j < |chunks| => Rows(chunks[j]))
  }

  /** What a cycle asked for: the first `n` chunks, each after one whose rows came
      unrefused, and after all of them the folder's state anew, when there was anything
      missing or sent. */
  ghost predicate AsksInTurn(asked: seq<Request>, chunks: seq<seq<ListedMessage>>, fetches: nat -> Fetched, n: nat,
                             reopened: bool, ended: bool, sentAny: bool) {
    && n <= |chunks| && asked == RowRequests(chunks[..n]) + (if reopened then [Reopening] else [])
    && (forall k :: 0 <= k < n - 1 ==> !fetches(k).refused && !fetches(k).lost)
    && if !ended || (n > 0 && fetches(n - 1).refused) then !reopened
       else n == |chunks| && (reopened <==> chunks != [] || sentAny)
  }

  lemma ChunksGoOn(missing: seq<ListedMessage>, left: seq<ListedMessage>, n: nat)
    requires n <= |ChunksOf(missing)| && left != [] && ChunksOf(left) == ChunksOf(missing)[n..]
    ensures 1 <= |Chunk(left)| <= |left|
    ensures n < |ChunksOf(missing)| && ChunksOf(missing)[n] == Chunk(left)
    ensures ChunksOf(left[|Chunk(left)|..]) == ChunksOf(missing)[n + 1..]
    ensures RowRequests(ChunksOf(missing)[..n + 1]) == RowRequests(ChunksOf(missing)[..n]) + [Rows(Chunk(left))]
  {
    assert ChunksOf(left)[0] == Chunk(left) && ChunksOf(left)[1..] == ChunksOf(left[|Chunk(left)|..]);
  }

  lemma NothingYet(chunks: seq<seq<ListedMessage>>, wishes: nat -> seq<Wish>, at: nat)
    ensures chunks[0..] == chunks && RowRequests(chunks[..0]) == [] && LogOf([]) == [] && Made(wishes, at, at) == []
  {
  }

  lemma NoneLeft(missing: seq<ListedMessage>, n: nat)
    requires n <= |ChunksOf(missing)| && ChunksOf([]) == ChunksOf(missing)[n..]
    ensures n == |ChunksOf(missing)| && ChunksOf(missing)[..n] == ChunksOf(missing)
  {
  }

  /** The chunks are the missing messages in their order, and each has one to a hundred. */
  lemma {:induction false} ChunksAreMissing(missing: seq<ListedMessage>)
    ensures missing == Flattened(ChunksOf(missing))
    ensures forall chunk :: chunk in ChunksOf(missing) ==> 1 <= |chunk| <= 100
    decreases |missing|
  {
    if missing != [] {
      var chunk := Chunk(missing);
      ChunksAreMissing(missing[|chunk|..]);
      assert missing == chunk + missing[|chunk|..];
      assert ChunksOf(missing)[0] == chunk && ChunksOf(missing)[1..] == ChunksOf(missing[|chunk|..]);
    }
  }

  function Flattened(chunks: seq<seq<ListedMessage>>): seq<ListedMessage> {
    if chunks == [] then [] else chunks[0] + Flattened(chunks[1..])
  }

  /** Something was sent exactly when the log has an entry. */
  lemma SentIsLogged(sent: SentChanges, log: seq<PendingChange>)
    requires Tracks(sent, log)
    ensures sent == map[] <==> log == []
  {
    assert forall key :: key in sent ==> LastSent(log, key.0, key.1).Some?;
    if log != [] {
      var e := log[|log| - 1];
      assert LastSent(log, e.identity, e.flag).Some?;
    }
  }

  /** The batch is stored, if it changes anything, over the wishes made meanwhile. */
  ghost predicate LeavesBatch(s: Setting, t: Tables, made: seq<Wish>, b: Batch, t': Tables) {
    var wished := WithWishes(t, made);
    s.Folder() in wished.folders && t' == StoreUnlessEmpty(wished, s.Folder(), b)
  }

  /** A cycle that did not go well ended as the last of its exchanges did. */
  ghost predicate EndsAs(server: Server, from: nat, end: End)
    reads server
  {
    from <= server.at && (!end.Ok? ==> from < server.at && server.turns(server.at - 1).end == end)
  }

  lemma EndsFrom(server: Server, from: nat, end: End)
    requires from <= server.at && (!end.Ok? ==> from < server.at && server.turns(server.at - 1).end == end)
    ensures EndsAs(server, from, end)
  {
  }

  lemma EndsLater(server: Server, from: nat, later: nat, end: End)
    requires from <= later && EndsAs(server, later, end)
    ensures EndsAs(server, from, end) && later <= server.at
  {
  }

  /** The first pass, and the wishes its listing shows. `start` are the pending
      changes before, `made` the wishes made meanwhile, `t1` the tables after the pass. */
  method ListFirst(store: Store, user: User, s: Setting, opening: Opening)
    returns (listed: map<string, ListedMessage>, missing: seq<ListedMessage>,
             ghost start: seq<PendingChange>, ghost made: seq<Wish>, ghost t1: Tables)
    requires store.Sound() && s.Folder() in store.folders && Ascending(opening.messages)
    modifies store, user
    ensures store.Sound() && s.Folder() in store.folders && WellListed(listed)
    ensures listed == ByIdentity(Identify(s.naming, opening.validity, opening.messages))
    ensures missing == Missing(Identify(s.naming, opening.validity, opening.messages), Held(old(store.Contents()), s.Folder()))
    ensures
      var state := StateOf(s, old(store.Contents()));
      var plan := PlanOf(opening.numbers, if state.synchronized then state.numbers else None, start != []);
      LeavesBatch(s, old(store.Contents()), made, PassAt(s, old(store.Contents()), opening, plan), t1)
    ensures forall e :: e in start <==> e in PendingChanges(s, old(store.Contents()))
    ensures forall e :: e in start && e.identity in listed && !Wished(s, made, e.identity, e.flag) ==> e in PendingChanges(s, t1)
    ensures store.Contents() == AfterShown(t1, s, start, listed)
    ensures old(user.at) <= user.at && made == Made(user.wishes, old(user.at), user.at)
  {
    hide PendingChanges, WellListed, Identify, Missing;
    ghost var t := store.Contents();
    var sync := SyncOf(s, Tables(store.folders, store.messages, store.memberships));
    var pending := ReadPending(store, s);
    start := pending;
    made := user.Act(store);
    var plan := PlanOf(opening.numbers, if sync.state.synchronized then sync.state.numbers else None, pending != []);
    ghost var before := store.Contents();
    var listing;
    listing, missing := RunStatePass(store, s, opening.messages, opening.complete, sync, opening.numbers, plan, opening.validity);
    listed := ListedByIdentity(listing);
    t1 := store.Contents();
    AllOutlastPass(s, t, made, before, sync, opening, plan, listing, start, t1);
    EndChangesTheListingShows(store, s, listed, pending);
  }

  lemma NothingSentYet()
    ensures Tracks(map[], []) && NeverTwice([]) && LogOf([]) == []
  {
  }

  /** Before anything was sent every wish on a listed message is to be sent. */
  lemma NewToSend(listed: map<string, ListedMessage>)
    ensures forall e :: ToSend(e, listed, map[]) <==> e.identity in listed
  {
  }

  /** The first pass, the wishes its listing shows, and the first sending step. */
  method SendAtCycleStart(server: Server, store: Store, user: User, s: Setting, opening: Opening)
    returns (listed: map<string, ListedMessage>, missing: seq<ListedMessage>, sent: SentChanges, end: End,
             ghost start: seq<PendingChange>, ghost log: seq<PendingChange>, ghost made: seq<Wish>)
    requires store.Sound() && s.Folder() in store.folders && Ascending(opening.messages)
    modifies server, store, user
    ensures store.Sound() && s.Folder() in store.folders && WellListed(listed) && NeverTwice(log)
    ensures end.Ok? ==> Tracks(sent, log)
    ensures EndsAs(server, old(server.at), end)
    ensures forall e :: e in start <==> e in PendingChanges(s, old(store.Contents()))
    ensures listed == ByIdentity(Identify(s.naming, opening.validity, opening.messages)) && server.asked == old(server.asked)
    ensures missing == Missing(Identify(s.naming, opening.validity, opening.messages), Held(old(store.Contents()), s.Folder()))
    ensures old(server.received) <= server.received && log == LogOf(server.received[|old(server.received)|..])
    ensures old(user.at) <= user.at && made == Made(user.wishes, old(user.at), user.at)
    ensures Alone(server.turns) && Current(listed, old(server.flags)) ==>
              end.Ok? && AllDelivered(s, listed, start, made, server.flags, store.Contents())
  {
    hide *;
    ghost var t1, first, more;
    NothingSentYet();
    listed, missing, start, first, t1 := ListFirst(store, user, s, opening);
    ghost var moment := user.at;
    sent, end, log, more := SendImapChanges(server, store, user, s, listed, map[], []);
    made := first + more;
    EndsFrom(server, old(server.at), end);
    MadeSum(user.wishes, old(user.at), moment, user.at);
    NewToSend(listed);
    if Alone(server.turns) && Current(listed, old(server.flags)) {
      assert log[0..] == log;
      StartIsDelivered(s, listed, start, log, first, more, old(server.flags), t1, server.flags, store.Contents());
    }
  }

  /** One chunk fetched, while the user and other clients act, and stored. */
  method FetchChunk(server: Server, store: Store, user: User, s: Setting, ghost listed: map<string, ListedMessage>,
                    chunk: seq<ListedMessage>, fetched: Fetched, ghost start: seq<PendingChange>, ghost made: seq<Wish>)
    returns (ghost made': seq<Wish>)
    requires store.Sound() && s.Folder() in store.folders
    modifies server, store, user
    ensures store.Sound() && s.Folder() in store.folders && server.received == old(server.received) && old(server.at) <= server.at
    ensures server.asked == old(server.asked) + [Rows(chunk)]
    ensures old(user.at) <= user.at && made' == made + Made(user.wishes, old(user.at), user.at)
    ensures
      var meanwhile := Made(user.wishes, old(user.at), user.at);
      var wished := WithWishes(old(store.Contents()), meanwhile);
      if fetched.lost then store.Contents() == wished
      else LeavesBatch(s, old(store.Contents()), meanwhile, FetchBatch(s, wished, chunk, fetched.rows), store.Contents())
    ensures Alone(server.turns) && AllDelivered(s, listed, start, made, old(server.flags), old(store.Contents())) ==>
              AllDelivered(s, listed, start, made', server.flags, store.Contents())
  {
    ghost var t := store.Contents();
    server.Wait(Rows(chunk));
    ghost var meanwhile := user.Act(store);
    made' := made + meanwhile;
    ghost var t1 := store.Contents();
    if AllDelivered(s, listed, start, made, server.flags, t) {
      WishesKeepDelivered(s, listed, start, made, meanwhile, server.flags, t);
    }
    if !fetched.lost {
      var known := KnownArrivals(store, s, chunk);
      var batch := Batch({}, [], known, fetched.rows, None);
      if AllDelivered(s, listed, start, made', server.flags, t1) {
        BatchKeepsDelivered(s, listed, start, made', server.flags, t1, batch);
      }
      StoreOne(store, s.Folder(), batch);
    }
  }

  /** A fetched chunk and the sending step after it. */
  method FetchAndSend(server: Server, store: Store, user: User, s: Setting, listed: map<string, ListedMessage>,
                      chunk: seq<ListedMessage>, fetched: Fetched, sent: SentChanges,
                      ghost start: seq<PendingChange>, ghost log: seq<PendingChange>, ghost made: seq<Wish>)
    returns (sent': SentChanges, end: End, ghost log': seq<PendingChange>, ghost made': seq<Wish>)
    requires store.Sound() && s.Folder() in store.folders && WellListed(listed) && Tracks(sent, log) && NeverTwice(log)
    modifies server, store, user
    ensures store.Sound() && NeverTwice(log')
    ensures end.Ok? ==> Tracks(sent', log') && s.Folder() in store.folders && !fetched.lost
    ensures old(server.at) <= server.at && (fetched.lost || EndsAs(server, old(server.at), end))
    ensures server.asked == old(server.asked) + [Rows(chunk)]
    ensures old(server.received) <= server.received && log' == log + LogOf(server.received[|old(server.received)|..])
    ensures old(user.at) <= user.at && made' == made + Made(user.wishes, old(user.at), user.at)
    ensures Alone(server.turns) && AllDelivered(s, listed, start, made, old(server.flags), old(store.Contents())) ==>
              AllDelivered(s, listed, start, made', server.flags, store.Contents())
  {
    hide *;
    made' := FetchChunk(server, store, user, s, listed, chunk, fetched, start, made);
    ghost var moment := user.at;
    if fetched.lost {
      NothingYet([], user.wishes, user.at);
      assert server.received[|old(server.received)|..] == [];
      return sent, Lost, log, made';
    }
    ghost var t, flags := store.Contents(), server.flags;
    ghost var more;
    sent', end, log', more := SendImapChanges(server, store, user, s, listed, sent, log);
    EndsFrom(server, old(server.at), end);
    if Alone(server.turns) && AllDelivered(s, listed, start, made', flags, t) {
      SendingKeepsDelivered(s, listed, start, made', log, log', more, flags, t, server.flags, store.Contents(), sent);
    }
    MadeSum(user.wishes, old(user.at), moment, user.at);
    made' := made' + more;
  }

  /** Every chunk of the missing messages fetched in its turn, each followed by a
      sending step, until one is refused or lost. */
  method FetchAll(server: Server, store: Store, user: User, s: Setting, listed: map<string, ListedMessage>,
                  missing: seq<ListedMessage>, fetches: nat -> Fetched, sent: SentChanges,
                  ghost start: seq<PendingChange>, ghost log: seq<PendingChange>, ghost made: seq<Wish>)
    returns (sent': SentChanges, end: End, refused: bool, ghost log': seq<PendingChange>, ghost made': seq<Wish>, ghost n: nat)
    requires store.Sound() && s.Folder() in store.folders && WellListed(listed) && Tracks(sent, log) && NeverTwice(log)
    modifies server, store, user
    ensures store.Sound() && NeverTwice(log')
    ensures end.Ok? ==> Tracks(sent', log') && s.Folder() in store.folders
    ensures old(server.at) <= server.at && (EndsAs(server, old(server.at), end) || (n > 0 && fetches(n - 1).lost))
    ensures n <= |ChunksOf(missing)| && server.asked == old(server.asked) + RowRequests(ChunksOf(missing)[..n])
    ensures forall j :: 0 <= j < n - 1 ==> !fetches(j).refused && !fetches(j).lost
    ensures end.Ok? ==> (refused <==> n > 0 && fetches(n - 1).refused)
    ensures end.Ok? && !refused ==> n == |ChunksOf(missing)|
    ensures old(server.received) <= server.received && log' == log + LogOf(server.received[|old(server.received)|..])
    ensures old(user.at) <= user.at && made' == made + Made(user.wishes, old(user.at), user.at)
    ensures Alone(server.turns) && AllDelivered(s, listed, start, made, old(server.flags), old(store.Contents())) ==>
              AllDelivered(s, listed, start, made', server.flags, store.Contents())
  {
    hide *;
    ghost var calm := Alone(server.turns) && AllDelivered(s, listed, start, made, server.flags, store.Contents());
    sent', end, refused, log', made', n := sent, Ok, false, log, made, 0;
    var left, k := missing, 0;
    NothingYet(ChunksOf(missing), user.wishes, user.at);
    assert server.received[|server.received|..] == [];
    while left != []
      invariant store.Sound() && s.Folder() in store.folders && end.Ok? && !refused
      invariant old(server.at) <= server.at
      invariant k == n <= |ChunksOf(missing)| && ChunksOf(left) == ChunksOf(missing)[n..]
      invariant server.asked == old(server.asked) + RowRequests(ChunksOf(missing)[..n])
      invariant forall j :: 0 <= j < n ==> !fetches(j).refused && !fetches(j).lost
      invariant Tracks(sent', log') && NeverTwice(log')
      invariant old(server.received) <= server.received && log' == log + LogOf(server.received[|old(server.received)|..])
      invariant old(user.at) <= user.at && made' == made + Made(user.wishes, old(user.at), user.at)
      invariant calm ==> AllDelivered(s, listed, start, made', server.flags, store.Contents())
      decreases |left|
    {
      var chunk := Chunk(left);
      ghost var received, moment, at := server.received, user.at, server.at;
      ChunksGoOn(missing, left, n);
      sent', end, log', made' := FetchAndSend(server, store, user, s, listed, chunk, fetches(k), sent', start, log', made');
      n := n + 1;
      if !fetches(k).lost {
        EndsLater(server, old(server.at), at, end);
      }
      LaterLog(old(server.received), received, server.received);
      MadeSum(user.wishes, old(user.at), moment, user.at);
      refused := fetches(k).refused;
      if !end.Ok? || refused {
        return;
      }
      left, k := left[|chunk|..], k + 1;
    }
    NoneLeft(missing, n);
    EndsFrom(server, old(server.at), end);
  }

  /** A whole cycle: it fetches every chunk of the missing messages in its turn and,
      when anything was missing or sent, ends with a second pass. What it sends for one
      message's flag never repeats the value sent before. With no other client and no
      refused command, every wish present at its start on a listed message, unless
      made again since, is settled at its end, and the server, if it still has the
      message, holds it: also when the fetches are refused or lost. */
  method SendThroughCycle(server: Server, store: Store, user: User, s: Setting, first: Opening, fetches: nat -> Fetched, second: Opening)
    returns (end: End, ghost start: seq<PendingChange>, ghost log: seq<PendingChange>, ghost made: seq<Wish>, ghost n: nat, ghost reopened: bool)
    requires store.Sound() && s.Folder() in store.folders && Ascending(first.messages) && Ascending(second.messages)
    modifies server, store, user
    ensures store.Sound()
    ensures EndsAs(server, old(server.at), end) || (n > 0 && fetches(n - 1).lost)
    ensures
      var missing := Missing(Identify(s.naming, first.validity, first.messages), Held(old(store.Contents()), s.Folder()));
      old(server.asked) <= server.asked
      && AsksInTurn(server.asked[|old(server.asked)|..], ChunksOf(missing), fetches, n, reopened, end.Ok?, log != [])
    ensures forall e :: e in start <==> e in PendingChanges(s, old(store.Contents()))
    ensures old(server.received) <= server.received && log == LogOf(server.received[|old(server.received)|..]) && NeverTwice(log)
    ensures old(user.at) <= user.at && made == Made(user.wishes, old(user.at), user.at)
    ensures
      var listed := ByIdentity(Identify(s.naming, first.validity, first.messages));
      Alone(server.turns) && Current(listed, old(server.flags)) ==>
        AllDelivered(s, listed, start, made, server.flags, store.Contents())
  {
    hide *;
    ghost var asked := server.asked;
    n, reopened := 0, false;
    var listed, missing, sent, refused;
    listed, missing, sent, end, start, log, made := SendAtCycleStart(server, store, user, s, first);
    if !end.Ok? {
      NothingAsked(ChunksOf(missing), fetches, log != []);
      assert server.asked[|asked|..] == [];
      return;
    }
    ghost var received, moment, at := server.received, user.at, server.at;
    EndsLater(server, old(server.at), old(server.at), end);
    sent, end, refused, log, made, n := FetchAll(server, store, user, s, listed, missing, fetches, sent, start, log, made);
    if !(n > 0 && fetches(n - 1).lost) {
      EndsLater(server, old(server.at), at, end);
    }
    LaterLog(old(server.received), received, server.received);
    MadeSum(user.wishes, old(user.at), moment, user.at);
    assert server.asked[|asked|..] == RowRequests(ChunksOf(missing)[..n]);
    if end.Ok? && !refused {
      SentIsLogged(sent, log);
      NoChunks(missing);
    }
    if end.Ok? && !refused && (missing != [] || sent != map[]) {
      moment := user.at;
      reopened := true;
      made := SecondPass(server, store, user, s, listed, first, second, start, made);
      MadeSum(user.wishes, old(user.at), moment, user.at);
      AskedLater(asked, RowRequests(ChunksOf(missing)[..n]), [Reopening]);
      EndsFrom(server, old(server.at), end);
    }
    AskedInTurn(server.asked[|asked|..], ChunksOf(missing), fetches, n, reopened, end.Ok?, refused, log != []);
  }

  lemma AskedLater(asked: seq<Request>, rows: seq<Request>, more: seq<Request>)
    ensures (asked + rows + more)[|asked|..] == rows + more
  {
  }

  lemma NothingAsked(chunks: seq<seq<ListedMessage>>, fetches: nat -> Fetched, sentAny: bool)
    ensures AsksInTurn([], chunks, fetches, 0, false, false, sentAny)
  {
  }

  lemma AskedInTurn(asked: seq<Request>, chunks: seq<seq<ListedMessage>>, fetches: nat -> Fetched, n: nat,
                    reopened: bool, ended: bool, refused: bool, sentAny: bool)
    requires n <= |chunks| && asked == RowRequests(chunks[..n]) + (if reopened then [Reopening] else [])
    requires forall j :: 0 <= j < n - 1 ==> !fetches(j).refused && !fetches(j).lost
    requires ended ==> (refused <==> n > 0 && fetches(n - 1).refused)
    requires ended && !refused ==> n == |chunks|
    requires reopened <==> ended && !refused && (chunks != [] || sentAny)
    ensures AsksInTurn(asked, chunks, fetches, n, reopened, ended, sentAny)
  {
  }

  lemma NoChunks(missing: seq<ListedMessage>)
    ensures missing == [] <==> ChunksOf(missing) == []
  {
  }

  lemma LaterLog(a: seq<Command>, b: seq<Command>, c: seq<Command>)
    requires a <= b <= c
    ensures LogOf(c[|a|..]) == LogOf(b[|a|..]) + LogOf(c[|b|..])
  {
    LogOfSum(b[|a|..], c[|b|..]);
    assert c[|a|..] == b[|a|..] + c[|b|..];
  }

  /** The folder opened again, and the second pass. */
  method SecondPass(server: Server, store: Store, user: User, s: Setting, ghost listed: map<string, ListedMessage>,
                    first: Opening, second: Opening, ghost start: seq<PendingChange>, ghost made: seq<Wish>)
    returns (ghost made': seq<Wish>)
    requires store.Sound() && s.Folder() in store.folders && Ascending(second.messages)
    modifies server, store, user
    ensures store.Sound() && old(server.at) <= server.at && server.received == old(server.received) && server.asked == old(server.asked) + [Reopening]
    ensures old(user.at) <= user.at && made' == made + Made(user.wishes, old(user.at), user.at)
    ensures
      var plan := PlanOf(second.numbers, if first.complete then Some(first.numbers) else None, false);
      LeavesBatch(s, old(store.Contents()), Made(user.wishes, old(user.at), user.at),
                  PassAt(s, old(store.Contents()), second, plan), store.Contents())
    ensures Alone(server.turns) && AllDelivered(s, listed, start, made, old(server.flags), old(store.Contents())) ==>
              AllDelivered(s, listed, start, made', server.flags, store.Contents())
  {
    ghost var t := store.Contents();
    server.Wait(Reopening);
    var sync := SyncOf(s, Tables(store.folders, store.messages, store.memberships));
    var plan := PlanOf(second.numbers, if first.complete then Some(first.numbers) else None, false);
    ghost var meanwhile := user.Act(store);
    made' := made + meanwhile;
    ghost var t1 := store.Contents();
    var listing, missing := RunStatePass(store, s, second.messages, second.complete, sync, second.numbers, plan, second.validity);
    if Alone(server.turns) && AllDelivered(s, listed, start, made, old(server.flags), t) {
      WishesKeepDelivered(s, listed, start, made, meanwhile, server.flags, t);
      BatchKeepsDelivered(s, listed, start, made', server.flags, t1, PassBatch(sync, second.numbers, plan, listing, second.complete));
    }
  }
}
