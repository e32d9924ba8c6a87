/** Laws of every run of the IMAP cycle: a message the server has all along is
    removed only by a listing that withholds its identity, a cycle that meets no
    change stores nothing, and one that completes against a quiet server leaves
    that server's messages. */
module ImapRuns {
  import opened Domain
  import opened MessageIdentity
  import opened ImapServer
  import opened StoreTables
  import opened StoreLaws
  import opened StoreRuns
  import opened ImapPass
  import opened ImapPassLaws
  import opened ImapFastPass
  import opened ImapCycle
  import opened ImapCycleLaws

  // ----- nothing disappears without proof

  /** The running cycle opened the folder at moment `n` or later. */
  ghost predicate OpenedSince(w: World, n: nat) {
    match w.cycle
    case Idle => true
    case Opened(c, _, _, _, _) => n <= c
    case Filling(c, _, _, _, _, _, _, _, _) => n <= c
    case Reopened(_, _, _, c, _, _, _) => n <= c
  }

  ghost predicate ThereSince(naming: Naming, h: History, n: nat, u: nat, i: string) {
    forall k :: n <= k < |h| ==> IsOf(naming, h[k], u, i)
  }

  /** The step is a pass whose complete listing of every message shows `u` without its identity. */
  predicate WithholdsIdentity(s: Setting, w: World, step: Step, u: nat) {
    && (step.FirstPass? || step.SecondPass?) && step.complete
    && (w.cycle.Opened? || w.cycle.Reopened?) && w.cycle.plan.Everything? && w.cycle.c < |w.h|
    && u in UnnamedUids(s.naming, w.h[w.cycle.c].uidValidity, step.messages)
  }

  lemma PassKeepsPresent(s: Setting, w: World, messages: seq<ListedUid>, complete: bool, listed: seq<ListedMessage>, b: Batch,
                         t': Tables, n: nat, u: nat, i: string)
    requires ValidHistory(w.h) && Valid(w.t) && s.Folder() in w.t.folders
    requires (w.cycle.Opened? || w.cycle.Reopened?) && n <= w.cycle.c && w.cycle.sync.stored == Held(w.t, s.Folder())
    requires Answer(w.h, w.cycle.c, Now(w), w.cycle.plan, messages, complete)
    requires listed == Identify(s.naming, w.h[w.cycle.c].uidValidity, messages)
    requires b == PassBatch(w.cycle.sync, w.cycle.numbers, w.cycle.plan, listed, complete)
    requires t' == StoreUnlessEmpty(w.t, s.Folder(), b)
    requires i in Held(w.t, s.Folder()) && ThereSince(s.naming, w.h, n, u, i)
    ensures i in Held(t', s.Folder()) <==>
              !(complete && w.cycle.plan.Everything? && u in UnnamedUids(s.naming, w.h[w.cycle.c].uidValidity, messages))
  {
    PresentRemovedIffUnnamed(s.naming, w.cycle.sync, w.cycle.numbers, w.h, w.cycle.c, Now(w), w.cycle.plan, messages, complete, u, i);
    HeldUnlessRemoved(w.t, s.Folder(), b, listed, i);
  }

  lemma HeldUnlessRemoved(t: Tables, folder: FolderKey, b: Batch, listed: seq<ListedMessage>, i: string)
    requires Valid(t) && folder in t.folders && i in Held(t, folder)
    requires b.flagStates == ChangedStates(listed, Held(t, folder)) && b.arrived == [] && b.knownArrived == []
    ensures i in Held(StoreUnlessEmpty(t, folder, b), folder) <==> i !in b.removed
  {
    HeldAfterPass(t, folder, b, listed, i);
    EmptyBatchChangesNothing(t, folder);
  }

  lemma PassStepKeepsPresent(s: Setting, w: World, step: Step, w': World, n: nat, u: nat, i: string)
    requires Inv(s, w) && Next(s, w, step, w') && OpenedSince(w, n) && (step.FirstPass? || step.SecondPass?)
    requires i in Held(w.t, s.Folder()) && ThereSince(s.naming, w.h, n, u, i)
    ensures i in Held(w'.t, s.Folder()) <==> !WithholdsIdentity(s, w, step, u)
  {
    hide Reflects, Held, Reports, Answer, ThereSince, Identify, UnnamedUids;
    var listed := Identify(s.naming, w.h[w.cycle.c].uidValidity, step.messages);
    var b := PassBatch(w.cycle.sync, w.cycle.numbers, w.cycle.plan, listed, step.complete);
    PassKeepsPresent(s, w, step.messages, step.complete, listed, b, w'.t, n, u, i);
  }

  lemma FetchKeepsHeld(s: Setting, w: World, rows: seq<Message>, refused: bool, w': World, i: string)
    requires Inv(s, w) && Next(s, w, Fetches(rows, refused), w') && i in Held(w.t, s.Folder())
    ensures i in Held(w'.t, s.Folder())
  {
    FetchStores(s, w.t, FetchBatch(s, w.t, Chunk(w.cycle.missing), rows));
    HeldAfterFetch(s, w.t, Chunk(w.cycle.missing), rows, i);
  }

  lemma SettleKeepsHeld(s: Setting, t: Tables, identities: seq<string>, flag: Flag, value: bool, i: string)
    requires Valid(t) && i in Held(t, s.Folder())
    ensures i in Held(Settle(t, s.account, identities, flag, value), s.Folder())
  {
    FlagWritesKeepValid(t, s.Key(""), s.account, identities, flag, value);
    HeldIsMembership(t, s.Folder(), i);
    HeldIsMembership(Settle(t, s.account, identities, flag, value), s.Folder(), i);
  }

  lemma OtherStepKeepsHeld(s: Setting, w: World, step: Step, w': World, i: string)
    requires Inv(s, w) && Next(s, w, step, w') && !step.FirstPass? && !step.SecondPass?
    requires i in Held(w.t, s.Folder())
    ensures i in Held(w'.t, s.Folder())
  {
    hide Reflects, Held, Reports, Answer, RowsAnswer;
    match step
    case ServerActs =>
    case UserWishes(k, flag, wanted) => WishKeepsHeld(s, w.t, k, flag, wanted);
    case OthersAct(_) =>
    case Opens(numbers) =>
    case SettlesShown(shown, flag) => SettleKeepsHeld(s, w.t, [shown.identity], flag, shown.flags.Of(flag), i);
    case Confirms(command, flag, wanted, reading) =>
      SettleKeepsHeld(s, w.t, Confirmed(command, flag, wanted, reading), flag, wanted, i);
    case IsRefused(command, flag, wanted) => DropKeepsHeld(s, w.t, IdentitiesOf(command), flag, wanted);
    case Fetches(rows, refused) => FetchKeepsHeld(s, w, rows, refused, w', i);
    case Reopens(numbers) =>
    case Stops =>
  }

  lemma OpenedSinceStays(s: Setting, w: World, step: Step, w': World, n: nat)
    requires Next(s, w, step, w') && n < |w.h| && OpenedSince(w, n)
    ensures OpenedSince(w', n)
  {
  }

  /** A step takes a message the server has all along from the folder exactly when
      it is a pass that withholds its identity. */
  lemma StepKeepsPresent(s: Setting, w: World, step: Step, w': World, n: nat, u: nat, i: string)
    requires Inv(s, w) && Next(s, w, step, w') && n < |w.h| && OpenedSince(w, n)
    requires i in Held(w.t, s.Folder()) && ThereSince(s.naming, w.h, n, u, i)
    ensures i in Held(w'.t, s.Folder()) <==> !WithholdsIdentity(s, w, step, u)
  {
    if step.FirstPass? || step.SecondPass? {
      PassStepKeepsPresent(s, w, step, w', n, u, i);
    } else {
      OtherStepKeepsHeld(s, w, step, w', i);
    }
  }

  ghost predicate HeldAlong(s: Setting, ws: seq<World>, i: string) {
    forall j :: 0 <= j < |ws| ==> i in Held(ws[j].t, s.Folder())
  }

  ghost predicate NoneWithholds(s: Setting, ws: seq<World>, steps: seq<Step>, u: nat)
    requires |ws| == |steps| + 1
  {
    forall j :: 0 <= j < |steps| ==> !WithholdsIdentity(s, ws[j], steps[j], u)
  }

  /** Over every run from a moment no cycle ran: a message the folder holds and
      the server has from then on stays in the folder, whatever is refused,
      interrupted or done by others, exactly as long as no pass lists it without
      its identity. */
  lemma {:induction false} PresentStays(s: Setting, ws: seq<World>, steps: seq<Step>, u: nat, i: string)
    requires IsRun(s, ws, steps) && Inv(s, ws[0]) && ws[0].cycle == Idle
    requires i in Held(ws[0].t, s.Folder()) && ThereSince(s.naming, ws[|steps|].h, Now(ws[0]), u, i)
    ensures HeldAlong(s, ws, i) <==> NoneWithholds(s, ws, steps, u)
    ensures OpenedSince(ws[|steps|], Now(ws[0])) && |ws[0].h| <= |ws[|steps|].h|
  {
    hide Inv, Next, Held, WithholdsIdentity, IsOf;
    if steps != [] {
      var n := |steps| - 1;
      assert IsRun(s, ws[..n + 1], steps[..n]);
      var w, w' := ws[n], ws[n + 1];
      assert Next(s, w, steps[n], w');
      HistoryGrows(s, w, steps[n], w');
      assert ThereSince(s.naming, w.h, Now(ws[0]), u, i);
      EveryRunKeeps(s, ws[..n + 1], steps[..n]);
      PresentStays(s, ws[..n + 1], steps[..n], u, i);
      OpenedSinceStays(s, w, steps[n], w', Now(ws[0]));
      if i in Held(w.t, s.Folder()) {
        StepKeepsPresent(s, w, steps[n], w', Now(ws[0]), u, i);
      }
      AlongOneMore(s, ws, steps, u, i);
    }
  }

  lemma AlongOneMore(s: Setting, ws: seq<World>, steps: seq<Step>, u: nat, i: string)
    requires |ws| == |steps| + 1 && steps != []
    ensures
      var n := |steps| - 1;
      && (HeldAlong(s, ws, i) <==> HeldAlong(s, ws[..n + 1], i) && i in Held(ws[n + 1].t, s.Folder()))
      && (NoneWithholds(s, ws, steps, u) <==>
            NoneWithholds(s, ws[..n + 1], steps[..n], u) && !WithholdsIdentity(s, ws[n], steps[n], u))
      && (HeldAlong(s, ws[..n + 1], i) ==> i in Held(ws[n].t, s.Folder()))
  {
    var n := |steps| - 1;
    assert ws == ws[..n + 1] + [ws[n + 1]] && steps == steps[..n] + [steps[n]];
    assert ws[..n + 1][n] == ws[n];
  }

  lemma HistoryGrows(s: Setting, w: World, step: Step, w': World)
    requires Next(s, w, step, w')
    ensures |w.h| <= |w'.h| && forall k :: 0 <= k < |w.h| ==> w'.h[k] == w.h[k]
  {
  }

  // ----- a stored text stays

  /** The rows fetched for a chunk are of messages the account lacked, so that a
      batch of the cycle changes no stored content. */
  lemma FetchKeepsContent(s: Setting, w: World, rows: seq<Message>, refused: bool, w': World, k: MessageKey)
    requires Inv(s, w) && Next(s, w, Fetches(rows, refused), w') && k in w.t.messages
    ensures k in w'.t.messages && w'.t.messages[k].content == w.t.messages[k].content
  {
    RowsAreNew(s, w, Chunk(w.cycle.missing), rows, refused, k);
    NoRecordKeepsContent(w.t, s.Folder(), FetchBatch(s, w.t, Chunk(w.cycle.missing), rows), k);
    EmptyBatchChangesNothing(w.t, s.Folder());
  }

  lemma RowsAreNew(s: Setting, w: World, chunk: seq<ListedMessage>, rows: seq<Message>, refused: bool, k: MessageKey)
    requires w.cycle.Filling? && w.h != [] && RowsAnswer(s, w, chunk, rows, refused) && k in w.t.messages
    ensures k.account == s.account ==> k.identity !in Identities(rows)
  {
    forall row | row in rows
      ensures s.Key(row.identity) != k
    {
      assert RowOf(s, w, chunk, row);
    }
  }

  lemma PassKeepsContent(s: Setting, w: World, step: Step, w': World, k: MessageKey)
    requires Inv(s, w) && Next(s, w, step, w') && (step.FirstPass? || step.SecondPass?)
    requires k in w.t.messages && k in w'.t.messages
    ensures w'.t.messages[k].content == w.t.messages[k].content
  {
    var listed := Identify(s.naming, w.h[w.cycle.c].uidValidity, step.messages);
    var b := PassBatch(w.cycle.sync, w.cycle.numbers, w.cycle.plan, listed, step.complete);
    EmptyBatchChangesNothing(w.t, s.Folder());
    if b != EMPTY_BATCH {
      KeysAfterBatch(w.t, s.Folder(), b, k);
      NoRecordKeepsContent(w.t, s.Folder(), b, k);
    }
  }

  /** No step of the cycle, the server or the user changes the stored content of a
      message that stays, its text or why it has none. */
  lemma StepKeepsContent(s: Setting, w: World, step: Step, w': World, k: MessageKey)
    requires Inv(s, w) && Next(s, w, step, w') && !step.OthersAct?
    requires k in w.t.messages && k in w'.t.messages
    ensures w'.t.messages[k].content == w.t.messages[k].content
  {
    hide Inv, Held, Reflects, Answer, RowsAnswer, TrueEntries;
    match step
    case FirstPass(_, _) => PassKeepsContent(s, w, step, w', k);
    case SecondPass(_, _) => PassKeepsContent(s, w, step, w', k);
    case Fetches(rows, refused) => FetchKeepsContent(s, w, rows, refused, w', k);
    case _ =>
  }

  // ----- a cycle goes on

  /** The next await of a cycle, whatever the server answers, has its step. */
  ghost predicate Enabled(s: Setting, w: World, step: Step) {
    exists w' :: Next(s, w, step, w')
  }

  /** No cycle gets stuck: an idle one opens the folder, an opened one takes every
      listing of its plan, while messages are missing every answer about the next
      chunk is taken, and after them, when anything was fetched or sent, the folder is
      opened again and every listing of the second plan taken. */
  lemma CycleGoesOn(s: Setting, w: World, numbers: FolderNumbers, messages: seq<ListedUid>, complete: bool,
                    rows: seq<Message>, refused: bool)
    requires Inv(s, w)
    ensures w.cycle.Idle? && Reports(numbers, w.h[Now(w)]) ==> Enabled(s, w, Opens(numbers))
    ensures w.cycle.Opened? && Answer(w.h, w.cycle.c, Now(w), w.cycle.plan, messages, complete) ==>
              Enabled(s, w, FirstPass(messages, complete))
    ensures w.cycle.Filling? && w.cycle.missing != [] && RowsAnswer(s, w, Chunk(w.cycle.missing), rows, refused) ==>
              Enabled(s, w, Fetches(rows, refused))
    ensures w.cycle.Filling? && w.cycle.missing == [] && (w.cycle.fetched || w.cycle.sent != map[])
            && Reports(numbers, w.h[Now(w)]) && numbers.uidValidity == w.cycle.numbers.uidValidity ==>
              Enabled(s, w, Reopens(numbers))
    ensures w.cycle.Reopened? && Answer(w.h, w.cycle.c, Now(w), w.cycle.plan, messages, complete) ==>
              Enabled(s, w, SecondPass(messages, complete))
  {
    hide Reflects, Held, Reports, Answer, RowsAnswer, StoreUnlessEmpty, FetchBatch, PassBatch, PendingChanges, SyncOf;
    match w.cycle
    case Idle =>
      var state := StateOf(s, w.t);
      var pending := PendingChanges(s, w.t);
      assert Reports(numbers, w.h[Now(w)]) ==> Next(s, w, Opens(numbers), w.(cycle :=
        Opened(Now(w), numbers, SyncOf(s, w.t), pending, PlanOf(numbers, if state.synchronized then state.numbers else None, pending != {}))));
    case Opened(c, n, sync, pending, plan) =>
      if Answer(w.h, c, Now(w), plan, messages, complete) {
        var listed := Identify(s.naming, w.h[c].uidValidity, messages);
        var missing := Missing(listed, sync.stored);
        var unnamed := UnnamedNow(s, w, messages);
        assert Next(s, w, FirstPass(messages, complete), AfterPass(s, w, listed, unnamed, complete,
          Filling(c, n, pending, complete, listed, missing, missing != [], map[], unnamed)));
      }
    case Filling(_, _, _, _, _, missing, _, _, _) =>
      if missing != [] {
        assert RowsAnswer(s, w, Chunk(missing), rows, refused) ==> Next(s, w, Fetches(rows, refused), w.(
          t := StoreUnlessEmpty(w.t, s.Folder(), FetchBatch(s, w.t, Chunk(missing), rows)),
          cycle := if refused then ImapCycle.Idle else w.cycle.(missing := missing[|Chunk(missing)|..])));
      } else {
        ReopensWhenDue(s, w, numbers);
      }
    case Reopened(_, _, _, c, _, _, plan) =>
      if Answer(w.h, c, Now(w), plan, messages, complete) {
        var listed := Identify(s.naming, w.h[c].uidValidity, messages);
        assert Next(s, w, SecondPass(messages, complete),
          AfterPass(s, w, listed, UnnamedNow(s, w, messages), complete, ImapCycle.Idle));
      }
  }

  lemma ReopensWhenDue(s: Setting, w: World, numbers: FolderNumbers)
    requires Inv(s, w) && w.cycle.Filling? && w.cycle.missing == []
    ensures (w.cycle.fetched || w.cycle.sent != map[])
            && Reports(numbers, w.h[Now(w)]) && numbers.uidValidity == w.cycle.numbers.uidValidity ==>
              Enabled(s, w, Reopens(numbers))
  {
    hide Reflects, Held, Reports, SyncOf;
    if (w.cycle.fetched || w.cycle.sent != map[]) && Reports(numbers, w.h[Now(w)]) && numbers.uidValidity == w.cycle.numbers.uidValidity {
      assert Next(s, w, Reopens(numbers), w.(cycle := Reopened(w.cycle.c, w.cycle.complete, w.cycle.unnamed, Now(w), numbers, SyncOf(s, w.t),
        PlanOf(numbers, if w.cycle.complete then Some(w.cycle.numbers) else None, false))));
    }
  }

  // ----- when a cycle is fast

  predicate AllTold(numbers: FolderNumbers) {
    numbers.uidValidity.Some? && numbers.uidNext.Some? && numbers.highestModseq.Some?
  }

  ghost predicate NoWish(s: Setting, t: Tables) {
    forall i, flag :: i in Held(t, s.Folder()) ==> PendingOf(t, s.Key(i), flag).None?
  }

  lemma NoWishNoChange(s: Setting, t: Tables)
    ensures PendingChanges(s, t) == {} <==> NoWish(s, t)
  {
    if i, flag :| i in Held(t, s.Folder()) && PendingOf(t, s.Key(i), flag).Some? {
      assert flag in {Seen, Flagged};
      assert PendingChange(i, flag, PendingOf(t, s.Key(i), flag).value) in PendingChanges(s, t);
    }
  }

  /** The folder is synchronized with an opening of the numbers the server has now,
      and no wish is pending. */
  ghost predicate MayBeFast(s: Setting, w: World) {
    && w.h != [] && StateOf(s, w.t).synchronized && NoWish(s, w.t)
    && w.opening < |w.h| && SameNumbers(w.h[w.opening], w.h[Now(w)])
  }

  /** Where a server tells all numbers, a cycle of a synchronized folder lists nothing
      exactly when no wish is pending and the folder has the numbers it had at the
      opening it is synchronized with, and the changed flags exactly when only its
      HIGHESTMODSEQ is another; a folder that is not synchronized, or with a wish
      pending, is listed whole. */
  lemma OpensFastIff(s: Setting, w: World, numbers: FolderNumbers, w': World)
    requires Inv(s, w) && Next(s, w, Opens(numbers), w') && AllTold(numbers)
    requires StateOf(s, w.t).synchronized ==> AllTold(StateOf(s, w.t).numbers.value)
    ensures w'.cycle.Opened? && w'.t == w.t
    ensures !MayBeFast(s, w) ==> w'.cycle.plan == Everything
    ensures MayBeFast(s, w) ==>
              var known, highest := w.h[w.opening].highestModseq, w.h[Now(w)].highestModseq;
              w'.cycle.plan == if highest == known then Nothing else ChangedFlags(known)
  {
    NoWishNoChange(s, w.t);
    PlanIff(numbers, if StateOf(s, w.t).synchronized then StateOf(s, w.t).numbers else None, PendingChanges(s, w.t) != {});
  }

  /** The second pass is told by the first one's numbers: it lists nothing, or the
      flags changed since, when that one completed and nothing came or went. */
  lemma ReopensFastIff(s: Setting, w: World, numbers: FolderNumbers, w': World)
    requires Inv(s, w) && Next(s, w, Reopens(numbers), w') && AllTold(numbers) && AllTold(w.cycle.numbers)
    ensures w'.cycle.Reopened? && w'.t == w.t
    ensures
      var before, now := w.h[w.cycle.c], w.h[Now(w)];
      w'.cycle.plan == if !(w.cycle.complete && SameNumbers(before, now)) then Everything
                       else if now.highestModseq == before.highestModseq then Nothing
                       else ChangedFlags(before.highestModseq)
  {
    PlanIff(numbers, if w.cycle.complete then Some(w.cycle.numbers) else None, false);
  }

  /** Over every run: a synchronized folder whose server is as it was at the opening
      it is synchronized with, and without a wish, is opened without a listing. */
  lemma QuietFolderOpensFast(s: Setting, ws: seq<World>, steps: seq<Step>, numbers: FolderNumbers, w': World)
    requires IsRun(s, ws, steps) && Init(s, ws[0])
    requires Next(s, ws[|steps|], Opens(numbers), w') && AllTold(numbers)
    requires
      var w := ws[|steps|];
      && StateOf(s, w.t).synchronized && AllTold(StateOf(s, w.t).numbers.GetOr(numbers)) && NoWish(s, w.t)
      && w.opening < |w.h| && w.h[Now(w)] == w.h[w.opening]
    ensures w'.cycle.Opened? && w'.cycle.plan == Nothing
  {
    EveryRunKeeps(s, ws, steps);
    OpensFastIff(s, ws[|steps|], numbers, w');
  }

  // ----- a cycle that meets no change

  ghost predicate QuietSince(h: History, a: nat, z: nat) {
    a <= z < |h| && forall k :: a <= k <= z ==> h[k] == h[a]
  }

  lemma {:induction false} NoChangedStates(listed: seq<ListedMessage>, stored: map<string, Flags>)
    requires forall m :: m in listed ==> m.identity in stored && stored[m.identity] == m.flags
    ensures ChangedStates(listed, stored) == [] && Missing(listed, stored) == []
  {
    if listed != [] {
      var n := |listed| - 1;
      assert listed[n] in listed;
      assert forall m :: m in listed[..n] ==> m in listed;
      NoChangedStates(listed[..n], stored);
    }
  }

  /** An entry of a message whose identity was told before is stored as it is listed. */
  lemma QuietListedIsStored(naming: Naming, held: map<string, Flags>, unnamed: set<nat>, h: History, o: nat, c: nat, d: nat,
                            messages: seq<ListedUid>, m: ListedMessage)
    requires ValidHistory(h) && QuietSince(h, o, d) && o <= c && TrueEntries(h, c, d, messages)
    requires Reflects(naming, held, [], unnamed, h, o, d)
    requires m in Identify(naming, h[c].uidValidity, messages) && !Withheld(naming, unnamed, m.uid)
    ensures m.identity in held && held[m.identity] == m.flags
  {
    var k := ListedWasThere(naming, h, c, d, messages, m);
    assert h[k] == h[d] && h[o] == h[d];
    ThereIsHeld(naming, held, unnamed, h, o, d, m.uid, m.identity);
    HeldFlagsAreCurrent(naming, held, unnamed, h, o, d, m.identity, m.uid);
  }

  /** The listing shows the messages whose identity was not told before as they
      are stored, and withholds the identity of none that is stored. */
  ghost predicate TellsAsStored(s: Setting, w: World, messages: seq<ListedUid>, complete: bool)
    requires (w.cycle.Opened? || w.cycle.Reopened?) && w.cycle.c < |w.h|
  {
    && (forall m :: m in Identify(s.naming, w.h[w.cycle.c].uidValidity, messages) && Withheld(s.naming, w.unnamed, m.uid) ==>
          m.identity in w.cycle.sync.stored && w.cycle.sync.stored[m.identity] == m.flags)
    && (complete && w.cycle.plan.Everything? ==>
          forall u, i :: IsOf(s.naming, w.h[w.cycle.c], u, i) && i in w.cycle.sync.stored ==>
            u !in UnnamedUids(s.naming, w.h[w.cycle.c].uidValidity, messages))
  }

  /** A cycle of a synchronized folder that meets the very server its numbers tell
      of, complete or refused, fast or listing everything, stores nothing and finds
      nothing to fetch, exactly when the listing gives the identities it gave. */
  lemma QuietPassStoresNothing(s: Setting, w: World, messages: seq<ListedUid>, complete: bool, w': World)
    requires Inv(s, w) && Next(s, w, FirstPass(messages, complete), w')
    requires StateOf(s, w.t).synchronized && StateOf(s, w.t).numbers == Some(w.cycle.numbers)
    requires QuietSince(w.h, w.opening, Now(w))
    ensures
      var listed := Identify(s.naming, w.h[w.cycle.c].uidValidity, messages);
      PassBatch(w.cycle.sync, w.cycle.numbers, w.cycle.plan, listed, complete) == EMPTY_BATCH
      <==> TellsAsStored(s, w, messages, complete)
    ensures TellsAsStored(s, w, messages, complete) ==> w'.t == w.t && w'.cycle.missing == [] && !w'.cycle.fetched
  {
    var listed := Identify(s.naming, w.h[w.cycle.c].uidValidity, messages);
    var b := PassBatch(w.cycle.sync, w.cycle.numbers, w.cycle.plan, listed, complete);
    AnswerIsTrue(w.h, w.cycle.c, Now(w), w.cycle.plan, messages, complete);
    if TellsAsStored(s, w, messages, complete) {
      QuietAsStored(s, w, messages, complete, listed);
      NoChangedStates(listed, w.cycle.sync.stored);
      assert b.removed == {};
    } else if b == EMPTY_BATCH {
      EmptyTells(s, w, messages, complete, listed);
    }
  }

  lemma QuietAsStored(s: Setting, w: World, messages: seq<ListedUid>, complete: bool, listed: seq<ListedMessage>)
    requires Inv(s, w) && w.cycle.Opened? && Answer(w.h, w.cycle.c, Now(w), w.cycle.plan, messages, complete)
    requires StateOf(s, w.t).synchronized && QuietSince(w.h, w.opening, Now(w))
    requires listed == Identify(s.naming, w.h[w.cycle.c].uidValidity, messages) && TellsAsStored(s, w, messages, complete)
    ensures forall m :: m in listed ==> m.identity in w.cycle.sync.stored && w.cycle.sync.stored[m.identity] == m.flags
    ensures complete && w.cycle.plan.Everything? ==> w.cycle.sync.stored.Keys <= ListedIdentities(listed)
  {
    var h, o, c, d := w.h, w.opening, w.cycle.c, Now(w);
    AnswerIsTrue(h, c, d, w.cycle.plan, messages, complete);
    forall m | m in listed
      ensures m.identity in w.cycle.sync.stored && w.cycle.sync.stored[m.identity] == m.flags
    {
      if !Withheld(s.naming, w.unnamed, m.uid) {
        QuietListedIsStored(s.naming, w.cycle.sync.stored, w.unnamed, h, o, c, d, messages, m);
      }
    }
    if complete && w.cycle.plan.Everything? {
      forall i | i in w.cycle.sync.stored
        ensures i in ListedIdentities(listed)
      {
        QuietStoredIsListed(s.naming, w.cycle.sync.stored, w.unnamed, h, o, c, d, messages, i);
      }
    }
  }

  /** On a quiet server a complete listing of every message that withholds no
      stored identity gives every stored one. */
  lemma QuietStoredIsListed(naming: Naming, held: map<string, Flags>, unnamed: set<nat>, h: History, o: nat, c: nat, d: nat,
                            messages: seq<ListedUid>, i: string)
    requires ValidHistory(h) && QuietSince(h, o, d) && o <= c && Answer(h, c, d, Everything, messages, true)
    requires Reflects(naming, held, [], unnamed, h, o, d) && i in held
    requires forall u :: IsOf(naming, h[c], u, i) ==> u !in UnnamedUids(naming, h[c].uidValidity, messages)
    ensures i in ListedIdentities(Identify(naming, h[c].uidValidity, messages))
  {
    assert h[c] == h[o] && h[d] == h[o];
    var u := HeldIsThere(naming, held, unnamed, h, o, d, i);
    forall k | c <= k <= d
      ensures u in h[k].messages
    {
      assert h[k] == h[o];
    }
    EverythingLists(naming, h, c, d, messages, u, i);
  }

  /** A batch that changes nothing comes from a listing that tells what is stored. */
  lemma EmptyTells(s: Setting, w: World, messages: seq<ListedUid>, complete: bool, listed: seq<ListedMessage>)
    requires Inv(s, w) && w.cycle.Opened? && Answer(w.h, w.cycle.c, Now(w), w.cycle.plan, messages, complete)
    requires QuietSince(w.h, w.opening, Now(w)) && w.opening <= w.cycle.c
    requires listed == Identify(s.naming, w.h[w.cycle.c].uidValidity, messages)
    requires PassBatch(w.cycle.sync, w.cycle.numbers, w.cycle.plan, listed, complete) == EMPTY_BATCH
    ensures TellsAsStored(s, w, messages, complete)
  {
    var stored := w.cycle.sync.stored;
    assert Missing(listed, stored) == [];
    forall m | m in listed
      ensures m.identity in stored && stored[m.identity] == m.flags
    {
      MissingIs(listed, stored, m);
      ChangedStatesAre(listed, stored, m.identity, m.flags);
    }
    if complete && w.cycle.plan.Everything? {
      EmptyWithholdsNothing(s, w, messages, listed);
    }
  }

  lemma EmptyWithholdsNothing(s: Setting, w: World, messages: seq<ListedUid>, listed: seq<ListedMessage>)
    requires ValidHistory(w.h) && w.cycle.Opened? && Answer(w.h, w.cycle.c, Now(w), Everything, messages, true)
    requires QuietSince(w.h, w.opening, Now(w)) && w.opening <= w.cycle.c
    requires listed == Identify(s.naming, w.h[w.cycle.c].uidValidity, messages)
    requires PassBatch(w.cycle.sync, w.cycle.numbers, Everything, listed, true) == EMPTY_BATCH
    ensures forall u, i :: IsOf(s.naming, w.h[w.cycle.c], u, i) && i in w.cycle.sync.stored ==>
              u !in UnnamedUids(s.naming, w.h[w.cycle.c].uidValidity, messages)
  {
    var stored := w.cycle.sync.stored;
    AnswerIsTrue(w.h, w.cycle.c, Now(w), Everything, messages, true);
    forall u, i | IsOf(s.naming, w.h[w.cycle.c], u, i) && i in stored
      ensures u !in UnnamedUids(s.naming, w.h[w.cycle.c].uidValidity, messages)
    {
      NothingRemoved(w.cycle.sync, w.cycle.numbers, listed, i);
      QuietlyThere(s.naming, w.h, w.opening, w.cycle.c, Now(w), u, i);
      NamedIsNotUnnamed(s.naming, w.h, w.cycle.c, Now(w), messages, u, i);
    }
  }

  lemma NothingRemoved(sync: FolderSync, numbers: FolderNumbers, listed: seq<ListedMessage>, i: string)
    requires PassBatch(sync, numbers, Everything, listed, true) == EMPTY_BATCH && i in sync.stored
    ensures i in ListedIdentities(listed)
  {
    assert i !in sync.stored.Keys - ListedIdentities(listed);
  }

  lemma QuietlyThere(naming: Naming, h: History, o: nat, c: nat, d: nat, u: nat, i: string)
    requires QuietSince(h, o, d) && o <= c <= d && IsOf(naming, h[c], u, i)
    ensures forall k :: c <= k <= d ==> IsOf(naming, h[k], u, i)
  {
    forall k | c <= k <= d
      ensures IsOf(naming, h[k], u, i)
    {
      assert h[k] == h[o] && h[c] == h[o];
    }
  }

  // ----- convergence

  /** The pass that ends a cycle whose listings completed: the second one, after
      every missing message was fetched, or a first one that found nothing missing. */
  ghost predicate Completes(s: Setting, w: World, step: Step) {
    && w.h != []
    && match step
       case FirstPass(messages, complete) =>
         && w.cycle.Opened? && w.cycle.c < |w.h| && complete
         && Missing(Identify(s.naming, w.h[w.cycle.c].uidValidity, messages), w.cycle.sync.stored) == []
       case SecondPass(_, complete) => w.cycle.Reopened? && w.cycle.c < |w.h| && w.cycle.complete && complete
       case _ => false
  }

  /** The moment of the cycle's first opening. */
  function FirstOpening(w: World): nat
    requires w.cycle.Opened? || w.cycle.Reopened?
  {
    if w.cycle.Opened? then w.cycle.c else w.cycle.first
  }

  /** Once every missing message is stored, a quiet server's second listing misses
      nothing whose identity was told before. */
  lemma SecondPassMissesNothing(s: Setting, w: World, messages: seq<ListedUid>)
    requires Inv(s, w) && w.cycle.Reopened? && w.cycle.complete
    requires Answer(w.h, w.cycle.c, Now(w), w.cycle.plan, messages, true)
    requires QuietSince(w.h, w.cycle.first, Now(w)) && NoneWithheld(s.naming, w.cycle.unnamed)
    ensures Missing(Identify(s.naming, w.h[w.cycle.c].uidValidity, messages), w.cycle.sync.stored) == []
  {
    var h, c, d := w.h, w.cycle.c, Now(w);
    var listed := Identify(s.naming, h[c].uidValidity, messages);
    AnswerIsTrue(h, c, d, w.cycle.plan, messages, true);
    if Missing(listed, w.cycle.sync.stored) != [] {
      var m := Missing(listed, w.cycle.sync.stored)[0];
      MissingIs(listed, w.cycle.sync.stored, m);
      var k := ListedWasThere(s.naming, h, c, d, messages, m);
      assert h[k] == h[c] && h[w.cycle.first] == h[c];
      ThereIsHeld(s.naming, w.cycle.sync.stored, w.cycle.unnamed, h, w.cycle.first, c, m.uid, m.identity);
    }
  }

  lemma CompletedIsMarked(s: Setting, w: World, step: Step, w': World)
    requires Inv(s, w) && Next(s, w, step, w') && Completes(s, w, step)
    requires Missing(Identify(s.naming, w.h[w.cycle.c].uidValidity, step.messages), w.cycle.sync.stored) == []
    ensures StateOf(s, w'.t).synchronized && StateOf(s, w'.t).numbers == Some(w.cycle.numbers)
    ensures w'.opening == w.cycle.c && w'.h == w.h && w'.unnamed == UnnamedNow(s, w, step.messages)
    ensures FirstOpening(w) <= w.cycle.c < |w.h|
  {
    var listed := Identify(s.naming, w.h[w.cycle.c].uidValidity, step.messages);
    var b := PassBatch(w.cycle.sync, w.cycle.numbers, w.cycle.plan, listed, true);
    StateAfterPass(s, w, listed, true, b, ApplyBatch(w.t, s.Folder(), b));
    EmptyBatchChangesNothing(w.t, s.Folder());
  }

  /** The folder holds exactly the server's identified messages, with their flags. */
  ghost predicate IsTheServer(s: Setting, w: World)
    requires w.h != []
  {
    var held := Held(w.t, s.Folder());
    && (forall i :: i in held <==> exists u :: IsOf(s.naming, w.h[Now(w)], u, i))
    && (forall i, u :: i in held && IsOf(s.naming, w.h[Now(w)], u, i) ==> held[i] == w.h[Now(w)].messages[u].flags)
  }

  lemma MarkedIsTheServer(s: Setting, w: World)
    requires w.h != [] && ValidHistory(w.h) && Synchronized(s, w) && StateOf(s, w.t).synchronized
    requires QuietSince(w.h, w.opening, Now(w)) && NoneWithheld(s.naming, w.unnamed)
    ensures IsTheServer(s, w)
  {
    assert w.h[w.opening] == w.h[Now(w)];
    ReflectsTheServer(s.naming, Held(w.t, s.Folder()), w.unnamed, w.h, w.opening, Now(w));
  }

  lemma MarkedConverges(s: Setting, h: History, first: nat, w': World)
    requires Inv(s, w') && w'.h == h && first <= w'.opening < |h| && QuietSince(h, first, |h| - 1)
    requires StateOf(s, w'.t).synchronized && NoneWithheld(s.naming, w'.unnamed)
    ensures IsTheServer(s, w')
  {
    assert h[w'.opening] == h[first];
    MarkedIsTheServer(s, w');
  }

  lemma CompletedStepConverges(s: Setting, w: World, step: Step, w': World)
    requires Inv(s, w) && Next(s, w, step, w') && Completes(s, w, step)
    requires QuietSince(w.h, FirstOpening(w), Now(w))
    requires NoneWithheld(s.naming, UnnamedNow(s, w, step.messages))
    requires w.cycle.Reopened? ==> NoneWithheld(s.naming, w.cycle.unnamed)
    ensures StateOf(s, w'.t).synchronized && StateOf(s, w'.t).numbers == Some(w.cycle.numbers)
    ensures w'.h != [] && IsTheServer(s, w')
  {
    hide Reflects, Held, IsTheServer, Reports, Answer;
    if w.cycle.Reopened? {
      SecondPassMissesNothing(s, w, step.messages);
    }
    CompletedIsMarked(s, w, step, w');
    StepKeeps(s, w, step, w');
    MarkedConverges(s, w.h, FirstOpening(w), w');
  }

  /** Whatever cycles were cut off, refused or renumbered before: one whose listings
      complete against a server quiet since it opened the folder, none of its fetches
      refused and no identity withheld, leaves exactly that server's identified
      messages with their flags, and its numbers for the next cycle. */
  lemma CompletedCycleConverges(s: Setting, ws: seq<World>, steps: seq<Step>, w: World, step: Step, w': World)
    requires IsRun(s, ws, steps) && Init(s, ws[0]) && w == ws[|steps|]
    requires Next(s, w, step, w') && Completes(s, w, step)
    requires QuietSince(w.h, FirstOpening(w), Now(w))
    requires NoneWithheld(s.naming, UnnamedNow(s, w, step.messages))
    requires w.cycle.Reopened? ==> NoneWithheld(s.naming, w.cycle.unnamed)
    ensures StateOf(s, w'.t).synchronized && StateOf(s, w'.t).numbers == Some(w.cycle.numbers)
    ensures w'.h != [] && IsTheServer(s, w')
  {
    EveryRunKeeps(s, ws, steps);
    CompletedStepConverges(s, w, step, w');
  }
}
