/** The user's wishes over every run of the IMAP cycle: a pending value is the
    latest wish, and ends only with a proof from the server. */
module ImapWishes {
  import opened Domain
  import opened ImapServer
  import opened StoreTables
  import opened StoreLaws
  import opened StoreRuns
  import opened ImapPass
  import opened ImapCycle
  import opened ImapCycleLaws
  import opened ImapRuns

  predicate IsWish(s: Setting, step: Step, i: string, flag: Flag) {
    step.UserWishes? && step.message == s.Key(i) && step.flag == flag
  }

  /** The step may end the wish `wanted`: the server refused that very value, or was
      seen to hold it for the message at a moment since the cycle opened the folder,
      or, between two cycles, since the opening whose numbers the folder keeps. */
  ghost predicate ProvesEnd(s: Setting, w: World, step: Step, i: string, flag: Flag, wanted: bool) {
    match step
    case IsRefused(command, f, v) => f == flag && v == wanted && i in IdentitiesOf(command)
    case SettlesShown(shown, f) =>
      f == flag && shown.identity == i && w.cycle.Filling? && w.h != [] && WasServerFlag(s.naming, w.h, w.cycle.c, Now(w), i, flag, wanted)
    case Confirms(command, f, v, _) =>
      f == flag && v == wanted && i in IdentitiesOf(command)
      && w.cycle.Filling? && w.h != [] && WasServerFlag(s.naming, w.h, w.cycle.c, Now(w), i, flag, wanted)
    case OthersAct(refusals) =>
      PendingChange(i, flag, wanted) in refusals || (w.h != [] && WasServerFlag(s.naming, w.h, w.opening, Now(w), i, flag, wanted))
    case _ => false
  }

  // ----- one step

  lemma BatchKeepsWish(s: Setting, t: Tables, b: Batch, i: string, flag: Flag)
    requires Valid(t) && s.Folder() in t.folders && (b.removed == {} || b.arrived == [])
    requires i in Held(t, s.Folder()) && i in Held(StoreUnlessEmpty(t, s.Folder(), b), s.Folder())
    ensures PendingOf(StoreUnlessEmpty(t, s.Folder(), b), s.Key(i), flag) == PendingOf(t, s.Key(i), flag)
  {
    EmptyBatchChangesNothing(t, s.Folder());
    PendingAfterBatch(t, s.Folder(), b, s.Key(i), flag);
    KeysAfterBatch(t, s.Folder(), b, s.Key(i));
    assert ArrivedKeys(s.account, []) == {};
  }

  lemma PassKeepsWish(s: Setting, w: World, step: Step, w': World, i: string, flag: Flag)
    requires Inv(s, w) && Next(s, w, step, w') && (step.FirstPass? || step.SecondPass?)
    requires i in Held(w.t, s.Folder()) && i in Held(w'.t, s.Folder())
    ensures PendingOf(w'.t, s.Key(i), flag) == PendingOf(w.t, s.Key(i), flag)
  {
    var listed := Identify(s.naming, w.h[w.cycle.c].uidValidity, step.messages);
    BatchKeepsWish(s, w.t, PassBatch(w.cycle.sync, w.cycle.numbers, w.cycle.plan, listed, step.complete), i, flag);
  }

  lemma FetchKeepsWish(s: Setting, w: World, rows: seq<Message>, refused: bool, w': World, i: string, flag: Flag)
    requires Inv(s, w) && Next(s, w, Fetches(rows, refused), w')
    requires i in Held(w.t, s.Folder()) && i in Held(w'.t, s.Folder())
    ensures PendingOf(w'.t, s.Key(i), flag) == PendingOf(w.t, s.Key(i), flag)
  {
    BatchKeepsWish(s, w.t, FetchBatch(s, w.t, Chunk(w.cycle.missing), rows), i, flag);
  }

  /** Only the wish of the settled flag that equals the settled value ends. */
  lemma SettleEndsEqual(s: Setting, t: Tables, identities: seq<string>, flag: Flag, value: bool, i: string, f: Flag)
    ensures PendingOf(Settle(t, s.account, identities, flag, value), s.Key(i), f) ==
            if i in identities && f == flag && PendingOf(t, s.Key(i), f) == Some(value) then None else PendingOf(t, s.Key(i), f)
    ensures PendingOf(DropRefused(t, s.account, identities, flag, value), s.Key(i), f) ==
            if i in identities && f == flag && PendingOf(t, s.Key(i), f) == Some(value) then None else PendingOf(t, s.Key(i), f)
  {
  }

  /** A pending value stays as it was, or ended with its proof. */
  ghost predicate StaysOrEnds(s: Setting, w: World, step: Step, w': World, i: string, flag: Flag) {
    var wish, wish' := PendingOf(w.t, s.Key(i), flag), PendingOf(w'.t, s.Key(i), flag);
    wish' == wish || (wish'.None? && wish.Some? && ProvesEnd(s, w, step, i, flag, wish.value))
  }

  lemma ShownEnds(s: Setting, w: World, shown: ListedMessage, f: Flag, w': World, i: string, flag: Flag)
    requires Inv(s, w) && Next(s, w, SettlesShown(shown, f), w')
    ensures StaysOrEnds(s, w, SettlesShown(shown, f), w', i, flag)
  {
    hide Reflects, Held, Reports, EntryWasThere, WasServerFlag;
    SettleEndsEqual(s, w.t, [shown.identity], f, shown.flags.Of(f), i, flag);
    ListedIsServerFlag(s, w, shown, f);
  }

  lemma ConfirmedEnds(s: Setting, w: World, command: seq<ListedMessage>, f: Flag, wanted: bool, reading: seq<ListedUid>,
                      w': World, i: string, flag: Flag)
    requires Inv(s, w) && Next(s, w, Confirms(command, f, wanted, reading), w')
    ensures StaysOrEnds(s, w, Confirms(command, f, wanted, reading), w', i, flag)
  {
    var confirmed := Confirmed(command, f, wanted, reading);
    SettleEndsEqual(s, w.t, confirmed, f, wanted, i, flag);
    if i in confirmed {
      var m, e := ConfirmedWasRead(command, f, wanted, reading, i);
      var j :| 0 <= j < |command| && command[j] == m;
      assert IdentitiesOf(command)[j] == i;
      ConfirmedIsServerFlag(s, w, command, f, wanted, reading, i);
    }
  }

  lemma RefusedEnds(s: Setting, w: World, command: seq<ListedMessage>, f: Flag, wanted: bool, w': World, i: string, flag: Flag)
    requires Next(s, w, IsRefused(command, f, wanted), w')
    ensures StaysOrEnds(s, w, IsRefused(command, f, wanted), w', i, flag)
  {
    SettleEndsEqual(s, w.t, IdentitiesOf(command), f, wanted, i, flag);
  }

  lemma OthersEnd(s: Setting, w: World, refusals: set<PendingChange>, w': World, i: string, flag: Flag)
    requires Next(s, w, OthersAct(refusals), w') && i in Held(w.t, s.Folder())
    ensures StaysOrEnds(s, w, OthersAct(refusals), w', i, flag)
  {
    assert WishKept(s, w, refusals, w'.t, i, flag);
  }

  lemma OtherStepsKeep(s: Setting, w: World, step: Step, w': World, i: string, flag: Flag)
    requires Next(s, w, step, w') && !IsWish(s, step, i, flag)
    requires step.ServerActs? || step.UserWishes? || step.Opens? || step.Reopens? || step.Stops?
    ensures PendingOf(w'.t, s.Key(i), flag) == PendingOf(w.t, s.Key(i), flag)
  {
  }

  /** What any one step but a wish does to a pending value of a message that stays
      in the folder: nothing, or it ends it with its proof. */
  lemma StepEndsWish(s: Setting, w: World, step: Step, w': World, i: string, flag: Flag)
    requires Inv(s, w) && Next(s, w, step, w') && !IsWish(s, step, i, flag)
    requires i in Held(w.t, s.Folder()) && i in Held(w'.t, s.Folder())
    ensures StaysOrEnds(s, w, step, w', i, flag)
  {
    hide Inv, Reflects, Held, ProvesEnd, PendingOf, Answer, RowsAnswer;
    match step
    case OthersAct(refusals) => OthersEnd(s, w, refusals, w', i, flag);
    case FirstPass(_, _) => PassKeepsWish(s, w, step, w', i, flag);
    case SettlesShown(shown, f) => ShownEnds(s, w, shown, f, w', i, flag);
    case Confirms(command, f, v, reading) => ConfirmedEnds(s, w, command, f, v, reading, w', i, flag);
    case IsRefused(command, f, v) => RefusedEnds(s, w, command, f, v, w', i, flag);
    case Fetches(rows, refused) => FetchKeepsWish(s, w, rows, refused, w', i, flag);
    case SecondPass(_, _) => PassKeepsWish(s, w, step, w', i, flag);
    case _ => OtherStepsKeep(s, w, step, w', i, flag);
  }

  // ----- every run

  /** The user's latest wish for the flag, `before` when there was none. */
  function LatestWish(s: Setting, before: Option<bool>, steps: seq<Step>, i: string, flag: Flag): Option<bool> {
    if steps == [] then before
    else
      var last := steps[|steps| - 1];
      if IsWish(s, last, i, flag) then Some(last.wanted) else LatestWish(s, before, steps[..|steps| - 1], i, flag)
  }

  /** Since the latest wish, a step with a proof could end it. */
  ghost predicate Ended(s: Setting, ws: seq<World>, steps: seq<Step>, i: string, flag: Flag, wanted: bool)
    requires |ws| == |steps| + 1
  {
    steps != [] &&
    var n := |steps| - 1;
    && !IsWish(s, steps[n], i, flag)
    && (ProvesEnd(s, ws[n], steps[n], i, flag, wanted) || Ended(s, ws[..n + 1], steps[..n], i, flag, wanted))
  }

  /** Over every run, with wishes made at any moment of any cycle: while the folder
      holds the message, its pending value is the user's latest wish, or absent
      once a step since that wish had the proof that the server held or refused
      that very value. */
  lemma {:induction false} PendingIsTheLatestWish(s: Setting, ws: seq<World>, steps: seq<Step>, i: string, flag: Flag)
    requires IsRun(s, ws, steps) && Inv(s, ws[0]) && HeldAlong(s, ws, i)
    ensures
      var wish := LatestWish(s, PendingOf(ws[0].t, s.Key(i), flag), steps, i, flag);
      var pending := PendingOf(ws[|steps|].t, s.Key(i), flag);
      pending == wish || (pending.None? && wish.Some? && Ended(s, ws, steps, i, flag, wish.value))
  {
    hide Inv, Next, Held, PendingOf, ProvesEnd;
    if steps != [] {
      var n := |steps| - 1;
      var w, w' := ws[n], ws[n + 1];
      assert IsRun(s, ws[..n + 1], steps[..n]) && HeldAlong(s, ws[..n + 1], i);
      PendingIsTheLatestWish(s, ws[..n + 1], steps[..n], i, flag);
      EveryRunKeeps(s, ws[..n + 1], steps[..n]);
      assert Next(s, w, steps[n], w');
      if IsWish(s, steps[n], i, flag) {
        WishIsStored(s, w, steps[n], w', i, flag);
      } else {
        StepEndsWish(s, w, steps[n], w', i, flag);
      }
    }
  }

  lemma WishIsStored(s: Setting, w: World, step: Step, w': World, i: string, flag: Flag)
    requires Valid(w.t) && Next(s, w, step, w') && IsWish(s, step, i, flag) && i in Held(w.t, s.Folder())
    ensures PendingOf(w'.t, s.Key(i), flag) == Some(step.wanted)
  {
    HeldIsMembership(w.t, s.Folder(), i);
  }
}
