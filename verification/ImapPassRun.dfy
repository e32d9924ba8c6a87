/** The state pass and the arrivals at work on the store: the loops over a listing
    and the writes they end in. */
module ImapPassRun {
  import opened Domain
  import opened MessageIdentity
  import opened ImapServer
  import opened StoreTables
  import opened StoreLaws
  import opened StoreClass
  import opened ImapPass
  import opened ImapCycle
  import opened ImapCycleLaws
  import opened ImapPassLaws

  /** Each listed message with its identity. */
  method IdentifyListing(naming: Naming, validity: nat, messages: seq<ListedUid>) returns (listed: seq<ListedMessage>)
    ensures listed == Identify(naming, validity, messages)
  {
    listed := [];
    for i := 0 to |messages|
      invariant listed == Identify(naming, validity, messages[..i])
    {
      var m := messages[i];
      assert messages[..i + 1][..i] == messages[..i];
      var identity := IdentityOf(naming.rule, naming.folder, validity, m.uid, m.gmail);
      if identity.Some? {
        listed := listed + [ListedMessage(identity.value, m.uid, m.flags)];
      }
    }
    assert messages[..|messages|] == messages;
  }

  // ----- the missing messages, highest UID first

  predicate Falling(messages: seq<ListedMessage>) {
    forall i, j :: 0 <= i < j < |messages| ==> messages[j].uid < messages[i].uid
  }

  predicate Rising(messages: seq<ListedMessage>) {
    forall i, j :: 0 <= i < j < |messages| ==> messages[i].uid < messages[j].uid
  }

  /** The identified messages keep the listing's order. */
  lemma {:induction false} IdentifiedRise(naming: Naming, validity: nat, messages: seq<ListedUid>)
    requires Ascending(messages)
    ensures Rising(Identify(naming, validity, messages))
    ensures forall m :: m in Identify(naming, validity, messages) ==> Lists(messages, m.uid)
  {
    if messages != [] {
      var n := |messages| - 1;
      IdentifiedRise(naming, validity, messages[..n]);
      var before, after := Identify(naming, validity, messages[..n]), Identify(naming, validity, messages);
      forall i | 0 <= i < |before|
        ensures before[i].uid < messages[n].uid
      {
        assert Lists(messages[..n], before[i].uid);
        var k :| 0 <= k < n && messages[..n][k].uid == before[i].uid;
      }
      forall m | m in after
        ensures Lists(messages, m.uid)
      {
        if m in before {
          var k :| 0 <= k < n && messages[..n][k].uid == m.uid;
          assert messages[k].uid == m.uid;
        } else {
          assert messages[n].uid == m.uid;
        }
      }
    }
  }

  function Insert(messages: seq<ListedMessage>, m: ListedMessage): seq<ListedMessage> {
    if messages == [] || messages[|messages| - 1].uid >= m.uid then messages + [m]
    else Insert(messages[..|messages| - 1], m) + [messages[|messages| - 1]]
  }

  /** A message lower than all the sorted ones goes to their end, one higher to their front. */
  lemma {:induction false} HigherGoesFirst(messages: seq<ListedMessage>, m: ListedMessage)
    requires forall i :: 0 <= i < |messages| ==> messages[i].uid < m.uid
    ensures Insert(messages, m) == [m] + messages
  {
    if messages != [] {
      var n := |messages| - 1;
      HigherGoesFirst(messages[..n], m);
      assert messages == messages[..n] + [messages[n]];
    }
  }

  lemma {:induction false} MissingAreListed(listed: seq<ListedMessage>, stored: map<string, Flags>)
    ensures forall m :: m in Missing(listed, stored) ==> m in listed
  {
    if listed != [] {
      MissingAreListed(listed[..|listed| - 1], stored);
    }
  }

  /** The listed messages the folder does not hold, sorted highest UID first as they come. */
  method MissingMessages(listed: seq<ListedMessage>, stored: map<string, Flags>) returns (missing: seq<ListedMessage>)
    requires Rising(listed)
    ensures missing == Missing(listed, stored)
  {
    missing := [];
    for i := 0 to |listed|
      invariant missing == Missing(listed[..i], stored)
    {
      assert listed[..i + 1][..i] == listed[..i];
      if listed[i].identity !in stored {
        MissingAreListed(listed[..i], stored);
        forall j | 0 <= j < |missing|
          ensures missing[j].uid < listed[i].uid
        {
          assert missing[j] in listed[..i];
        }
        HigherGoesFirst(missing, listed[i]);
        missing := Insert(missing, listed[i]);
      }
    }
    assert listed[..|listed|] == listed;
  }

  /** The newest messages come first. */
  lemma {:induction false} MissingFall(listed: seq<ListedMessage>, stored: map<string, Flags>)
    requires Rising(listed)
    ensures Falling(Missing(listed, stored))
  {
    if listed != [] {
      var n := |listed| - 1;
      MissingFall(listed[..n], stored);
      MissingAreListed(listed[..n], stored);
      var before := Missing(listed[..n], stored);
      forall i | 0 <= i < |before|
        ensures before[i].uid < listed[n].uid
      {
        assert before[i] in listed[..n];
      }
    }
  }

  ghost predicate FillsFalling(w: World) {
    w.cycle.Filling? ==> Falling(w.cycle.missing)
  }

  lemma StepKeepsFalling(s: Setting, w: World, step: Step, w': World)
    requires Next(s, w, step, w') && FillsFalling(w)
    ensures FillsFalling(w')
  {
    hide Reflects, Held, Reports, RowsAnswer, StoreUnlessEmpty;
    if step.FirstPass? {
      AnswerIsTrue(w.h, w.cycle.c, Now(w), w.cycle.plan, step.messages, step.complete);
      var listed := Identify(s.naming, w.h[w.cycle.c].uidValidity, step.messages);
      IdentifiedRise(s.naming, w.h[w.cycle.c].uidValidity, step.messages);
      MissingFall(listed, w.cycle.sync.stored);
    }
  }

  lemma {:induction false} EveryRunFalls(s: Setting, ws: seq<World>, steps: seq<Step>)
    requires IsRun(s, ws, steps) && FillsFalling(ws[0])
    ensures FillsFalling(ws[|steps|])
  {
    hide Next;
    if steps != [] {
      var n := |steps| - 1;
      assert IsRun(s, ws[..n + 1], steps[..n]);
      EveryRunFalls(s, ws[..n + 1], steps[..n]);
      assert Next(s, ws[n], steps[n], ws[n + 1]);
      StepKeepsFalling(s, ws[n], steps[n], ws[n + 1]);
    }
  }

  /** Over every run a fetch asks for one to a hundred of the missing messages, for
      fewer only when no more are missing, and every one with a higher UID than all
      those still to come. */
  lemma FetchesNewest(s: Setting, ws: seq<World>, steps: seq<Step>, rows: seq<Message>, refused: bool, w': World)
    requires IsRun(s, ws, steps) && Init(s, ws[0]) && Next(s, ws[|steps|], Fetches(rows, refused), w')
    ensures
      var missing := ws[|steps|].cycle.missing;
      var chunk := Chunk(missing);
      && 1 <= |chunk| <= 100 && (|chunk| < 100 ==> chunk == missing)
      && (forall row :: row in rows ==> row.identity in ListedIdentities(chunk))
      && (!refused ==> w'.cycle.Filling? && missing == chunk + w'.cycle.missing
                       && forall m, o :: m in chunk && o in w'.cycle.missing ==> o.uid < m.uid)
  {
    hide RowsAnswer, StoreUnlessEmpty, FetchBatch;
    EveryRunFalls(s, ws, steps);
    var w := ws[|steps|];
    RowsAreOfChunk(s, w, Chunk(w.cycle.missing), rows, refused);
  }

  lemma RowsAreOfChunk(s: Setting, w: World, chunk: seq<ListedMessage>, rows: seq<Message>, refused: bool)
    requires w.cycle.Filling? && w.h != [] && RowsAnswer(s, w, chunk, rows, refused)
    ensures forall row :: row in rows ==> row.identity in ListedIdentities(chunk)
  {
    forall row | row in rows
      ensures row.identity in ListedIdentities(chunk)
    {
      assert RowOf(s, w, chunk, row);
    }
  }

  // ----- the pass

  /** The flags that differ from the stored ones. */
  method ChangedFlagStates(listed: seq<ListedMessage>, stored: map<string, Flags>) returns (states: seq<(string, Flags)>)
    ensures states == ChangedStates(listed, stored)
  {
    states := [];
    for i := 0 to |listed|
      invariant states == ChangedStates(listed[..i], stored)
    {
      assert listed[..i + 1][..i] == listed[..i];
      if listed[i].identity in stored && stored[listed[i].identity] != listed[i].flags {
        states := states + [(listed[i].identity, listed[i].flags)];
      }
    }
    assert listed[..|listed|] == listed;
  }

  /** Stores a batch, unless it changes nothing. */
  method StoreOne(store: Store, folder: FolderKey, batch: Batch)
    requires store.Sound() && folder in store.folders
    modifies store
    ensures store.Sound()
    ensures store.Contents() == StoreUnlessEmpty(old(store.Contents()), folder, batch)
  {
    if batch != EMPTY_BATCH {
      var written := store.StoreBatch(folder, batch, false);
    }
  }

  /** A state pass: its listing's messages, those missing, and the batch stored of it. */
  method RunStatePass(store: Store, s: Setting, messages: seq<ListedUid>, complete: bool,
                      sync: FolderSync, numbers: FolderNumbers, plan: PassPlan, validity: nat)
    returns (listed: seq<ListedMessage>, missing: seq<ListedMessage>)
    requires store.Sound() && s.Folder() in store.folders && Ascending(messages)
    modifies store
    ensures store.Sound()
    ensures listed == Identify(s.naming, validity, messages) && Rising(listed)
    ensures missing == Missing(listed, sync.stored) && Falling(missing)
    ensures store.Contents() == StoreUnlessEmpty(old(store.Contents()), s.Folder(), PassBatch(sync, numbers, plan, listed, complete))
  {
    listed := IdentifyListing(s.naming, validity, messages);
    IdentifiedRise(s.naming, validity, messages);
    missing := MissingMessages(listed, sync.stored);
    MissingFall(listed, sync.stored);
    var removed := if complete && plan.Everything? then sync.stored.Keys - (set m | m in listed :: m.identity) else {};
    var states := ChangedFlagStates(listed, sync.stored);
    var batch := Batch(removed, states, [], [], PassState(sync.state, numbers, complete, missing != []));
    assert batch == PassBatch(sync, numbers, plan, listed, complete);
    StoreOne(store, s.Folder(), batch);
  }

  /** What the pass leaves is a step of the cycle's state machine, so that all it
      keeps is kept: `t` are the tables the pass left. */
  lemma PassIsAStep(s: Setting, w: World, messages: seq<ListedUid>, complete: bool,
                    listed: seq<ListedMessage>, missing: seq<ListedMessage>, t: Tables, w': World)
    requires s.Folder() in w.t.folders && (w.cycle.Opened? || w.cycle.Reopened?)
    requires w.h != [] && Answer(w.h, w.cycle.c, Now(w), w.cycle.plan, messages, complete)
    requires listed == Identify(s.naming, w.h[w.cycle.c].uidValidity, messages) && missing == Missing(listed, w.cycle.sync.stored)
    requires t == StoreUnlessEmpty(w.t, s.Folder(), PassBatch(w.cycle.sync, w.cycle.numbers, w.cycle.plan, listed, complete))
    requires w'.h == w.h && w'.t == t
    requires if complete && missing == [] then w'.opening == w.cycle.c && w'.unnamed == UnnamedNow(s, w, messages)
             else w'.opening == w.opening && w'.unnamed == w.unnamed
    requires w'.cycle == if w.cycle.Reopened? then Idle
                         else Filling(w.cycle.c, w.cycle.numbers, w.cycle.pending, complete, listed, missing, missing != [], map[],
                                      UnnamedNow(s, w, messages))
    ensures Next(s, w, if w.cycle.Opened? then FirstPass(messages, complete) else SecondPass(messages, complete), w')
  {
  }

  // ----- the arrivals

  /** The chunk's messages the account holds, related without fetching them. */
  method KnownArrivals(store: Store, s: Setting, chunk: seq<ListedMessage>) returns (known: seq<(string, Flags)>)
    ensures known == KnownOf(s, store.Contents(), chunk)
  {
    known := [];
    for i := 0 to |chunk|
      invariant known == KnownOf(s, store.Contents(), chunk[..i])
    {
      assert chunk[..i + 1][..i] == chunk[..i];
      if s.Key(chunk[i].identity) in store.messages {
        known := known + [(chunk[i].identity, chunk[i].flags)];
      }
    }
    assert chunk[..|chunk|] == chunk;
  }

  /** One chunk of the missing messages with the rows that came for it. */
  method StoreArrivals(store: Store, s: Setting, ghost w: World, chunk: seq<ListedMessage>, rows: seq<Message>, refused: bool)
    requires store.Sound() && s.Folder() in store.folders && store.Contents() == w.t && w.h != []
    requires w.cycle.Filling? && w.cycle.missing != [] && chunk == Chunk(w.cycle.missing) && RowsAnswer(s, w, chunk, rows, refused)
    modifies store
    ensures store.Sound()
    ensures Next(s, w, Fetches(rows, refused),
                 w.(t := store.Contents(),
                    cycle := if refused then Idle else w.cycle.(missing := w.cycle.missing[|chunk|..])))
  {
    var known := KnownArrivals(store, s, chunk);
    StoreOne(store, s.Folder(), Batch({}, [], known, rows, None));
  }
}
