/** What every step of a Microsoft 365 cycle keeps, and what a completed one gives. */
module GraphCycleLaws {
  import opened Domain
  import opened StoreTables
  import opened StoreLaws
  import opened GraphCycle

  /** A message stored as of `a` and unchanged up to `q` is stored as of `q`. */
  lemma TrueSinceLater(w: World, id: string, a: nat, q: nat)
    requires TrueSince(w.h, w.held, id, a) && q < |w.h| && Unchanged(w.h, id, a, q)
    ensures TrueSince(w.h, w.held, id, q)
  {
    var m :| a <= m < |w.h| && (id in w.held <==> id in w.h[m]);
    if m < q {
      assert id in w.held <==> id in w.h[q];
    }
  }

  lemma TrueSinceEarlier(w: World, id: string, a: nat, b: nat)
    requires TrueSince(w.h, w.held, id, b) && a <= b
    ensures TrueSince(w.h, w.held, id, a)
  {
  }

  predicate Grows(h: History, h': History) {
    |h| <= |h'| && h'[..|h|] == h
  }

  lemma TrueSinceGrows(w: World, w': World, id: string, a: nat)
    requires TrueSince(w.h, w.held, id, a) && Grows(w.h, w'.h) && (id in w'.held <==> id in w.held)
    ensures TrueSince(w'.h, w'.held, id, a)
  {
    var m :| a <= m < |w.h| && (id in w.held <==> id in w.h[m]);
    assert w'.h[m] == w.h[m];
  }

  // ----- one page

  /** Every message the page names is stored as the service had it at the entry's
      moment or later; the others stay as they were. */
  lemma PageStored(w: World, a: Answer, held: set<string>, w': World, id: string)
    requires Answers(w, a) && w'.h == w.h && w'.held == held
    requires held == w.held - RemovedBy(w.h, a, w.cycle.mode) + ArrivedBy(w.h, a, w.cycle.mode)
    ensures id in a.entries ==> TrueSince(w'.h, w'.held, id, a.entries[id].asOf)
    ensures id !in a.entries ==> (id in w'.held <==> id in w.held)
  {
    if id in a.entries {
      var m := ToldAt(id, a, w.cycle.mode);
      assert a.entries[id].asOf <= m < |w.h|;
      assert id in w'.held <==> id in w'.h[m];
    }
  }

  /** The reading after the page: all it told is stored. */
  lemma SeenAfterPage(w: World, a: Answer, d: Delta, d': Delta, w': World)
    requires Answers(w, a) && w'.h == w.h
    requires w'.held == w.held - RemovedBy(w.h, a, w.cycle.mode) + ArrivedBy(w.h, a, w.cycle.mode)
    requires d == DeltaFrom(w.links, w.cycle.from, a.asked) && d' == d.(seen := SeenAfter(d.seen, a.entries))
    requires SeenStored(w.h, w.held, d)
    ensures SeenStored(w'.h, w'.held, d')
  {
    forall id | id in d'.seen
      ensures TrueSince(w'.h, w'.held, id, d'.seen[id])
    {
      PageStored(w, a, w'.held, w', id);
      if id !in a.entries {
        TrueSinceGrows(w, w', id, d.seen[id]);
      }
    }
  }

  /** Storing a page of a reading that counts from `p` on keeps what was stored true since `p`. */
  lemma BaseAfterPage(w: World, a: Answer, p: nat, w': World)
    requires Answers(w, a) && w'.h == w.h && AllTrueSince(w.h, w.held, p)
    requires w'.held == w.held - RemovedBy(w.h, a, w.cycle.mode) + ArrivedBy(w.h, a, w.cycle.mode)
    requires p <= DeltaFrom(w.links, w.cycle.from, a.asked).start
    ensures AllTrueSince(w'.h, w'.held, p)
  {
    forall id
      ensures TrueSince(w'.h, w'.held, id, p)
    {
      PageStored(w, a, w'.held, w', id);
      if id in a.entries {
        TrueSinceEarlier(w', id, p, a.entries[id].asOf);
      } else {
        TrueSinceGrows(w, w', id, p);
      }
    }
  }

  // ----- the end of a reading

  /** A message the ended reading told is stored as of its end. */
  lemma SeenAtEnd(w: World, d: Delta, q: nat, id: string)
    requires EndsAt(w.h, d, q) && SeenStored(w.h, w.held, d) && id in d.seen
    ensures TrueSince(w.h, w.held, id, q)
  {
    TrueSinceLater(w, id, d.seen[id], q);
  }

  lemma RoundEnds(w: World, d: Delta, q: nat)
    requires EndsAt(w.h, d, q) && SeenStored(w.h, w.held, d) && !d.first && AllTrueSince(w.h, w.held, d.start)
    ensures AllTrueSince(w.h, w.held, q)
  {
    forall id
      ensures TrueSince(w.h, w.held, id, q)
    {
      if id in d.seen {
        SeenAtEnd(w, d, q, id);
      } else {
        TrueSinceLater(w, id, d.start, q);
      }
    }
  }

  /** At the end of a first reading, when only what it told is held, everything
      held is true since its position, and everything not held too. */
  lemma FirstEnds(w: World, d: Delta, q: nat)
    requires EndsAt(w.h, d, q) && SeenStored(w.h, w.held, d) && d.first && OnlySeenHeld(w.held, d)
    ensures AllTrueSince(w.h, w.held, q)
  {
    forall id
      ensures TrueSince(w.h, w.held, id, q)
    {
      if id in d.seen {
        SeenAtEnd(w, d, q, id);
      } else {
        assert AbsentSometime(w.h, id, q);
        var m :| q <= m < |w.h| && id !in w.h[m];
        assert id in w.held <==> id in w.h[m];
      }
    }
  }

  // ----- the steps

  lemma ServiceActsKeeps(w: World, w': World)
    requires Inv(w) && Next(w, ServiceActs, w')
    ensures Inv(w')
  {
    forall id, a: nat | TrueSince(w.h, w.held, id, a)
      ensures TrueSince(w'.h, w'.held, id, a)
    {
      TrueSinceGrows(w, w', id, a);
    }
    if w.state.serverPosition.Some? {
      assert PositionSound(w', w.state.serverPosition.value);
    }
    if w.state.fillPlace.Some? {
      assert PlaceSound(w', w.state.fillPlace.value);
    }
  }

  lemma StartsKeeps(w: World, w': World)
    requires Inv(w) && Next(w, Starts, w')
    ensures Inv(w')
  {
    if w.state.serverPosition.Some? {
      assert PositionSound(w', w.state.serverPosition.value);
    }
  }

  lemma RereadsKeeps(w: World, w': World)
    requires Inv(w) && w.cycle.Running? && !w.cycle.mode.FullRereading?
    requires w'.cycle.Running? && w' == w.(cycle := Rereads(w).(named := w'.cycle.named))
    ensures Inv(w')
  {
    if w.state.serverPosition.Some? {
      assert PositionSound(w', w.state.serverPosition.value);
    }
    if w.state.fillPlace.Some? {
      assert PlaceSound(w', w.state.fillPlace.value);
    }
  }

  lemma FillGoesOn(w: World, a: Answer, w': World)
    requires Inv(w) && Answers(w, a) && StoresPage(w, a, w') && a.next.More? && w.cycle.mode.FirstFill?
    ensures Inv(w')
  {
    var d := DeltaFrom(w.links, w.cycle.from, a.asked);
    SeenAfterPage(w, a, d, d.(seen := SeenAfter(d.seen, a.entries)), w');
    assert PlaceSound(w', a.next.link);
  }

  /** The reading in progress, before and after the page. */
  lemma RoundPage(w: World, a: Answer, w': World)
    requires Inv(w) && Answers(w, a) && w.cycle.mode.Round? && w'.h == w.h
    requires w'.held == w.held - RemovedBy(w.h, a, w.cycle.mode) + ArrivedBy(w.h, a, w.cycle.mode)
    ensures
      var d := DeltaFrom(w.links, w.cycle.from, a.asked);
      && !d.first && d.start == BaseOf(w) && w.cycle.began <= d.begun
      && SeenStored(w'.h, w'.held, d.(seen := SeenAfter(d.seen, a.entries)))
      && AllTrueSince(w'.h, w'.held, BaseOf(w))
  {
    var d := DeltaFrom(w.links, w.cycle.from, a.asked);
    assert SeenStored(w.h, w.held, d);
    SeenAfterPage(w, a, d, d.(seen := SeenAfter(d.seen, a.entries)), w');
    BaseAfterPage(w, a, BaseOf(w), w');
  }

  lemma RoundGoesOn(w: World, a: Answer, w': World)
    requires Inv(w) && Answers(w, a) && StoresPage(w, a, w') && a.next.More? && w.cycle.mode.Round?
    ensures Inv(w')
  {
    RoundPage(w, a, w');
    BaseKept(w, w', a.next.link, w'.links[a.next.link]);
  }

  /** A position the cycle falls back on stays sound while what is stored stays true since it. */
  lemma BaseKept(w: World, w': World, link: string, meaning: Link)
    requires StateSound(w) && w'.h == w.h && GivesLink(w.links, w'.links, link, meaning)
    requires w'.state.serverPosition == w.state.serverPosition
    requires w.state.serverPosition.Some? ==> AllTrueSince(w'.h, w'.held, BaseOf(w))
    ensures BaseOf(w') == BaseOf(w)
    ensures w.state.serverPosition.Some? ==> PositionSound(w', w.state.serverPosition.value)
  {
  }

  lemma RereadingPage(w: World, a: Answer, d: Delta, d': Delta, w': World)
    requires Inv(w) && Answers(w, a) && w.cycle.mode.FullRereading? && w'.h == w.h
    requires w'.held == w.held - RemovedBy(w.h, a, w.cycle.mode) + ArrivedBy(w.h, a, w.cycle.mode)
    requires d == DeltaFrom(w.links, w.cycle.from, a.asked) && d' == d.(seen := SeenAfter(d.seen, a.entries))
    ensures d.first && BaseOf(w) <= d.start <= d.begun && w.cycle.began <= d.begun && d.seen.Keys == w.cycle.mode.listed
    ensures SeenStored(w'.h, w'.held, d')
    ensures w.state.serverPosition.Some? ==> AllTrueSince(w'.h, w'.held, BaseOf(w))
    ensures forall id :: id in w'.held ==> id in w.cycle.stored || id in d'.seen
  {
    assert SeenStored(w.h, w.held, d);
    SeenAfterPage(w, a, d, d', w');
    if w.state.serverPosition.Some? {
      BaseAfterPage(w, a, BaseOf(w), w');
    }
  }

  lemma RereadingGoesOn(w: World, a: Answer, w': World)
    requires Inv(w) && Answers(w, a) && StoresPage(w, a, w') && a.next.More? && w.cycle.mode.FullRereading?
    ensures Inv(w')
  {
    var d := DeltaFrom(w.links, w.cycle.from, a.asked);
    RereadingPage(w, a, d, d.(seen := SeenAfter(d.seen, a.entries)), w');
    BaseKept(w, w', a.next.link, w'.links[a.next.link]);
  }

  /** The end of a first fill: what is stored is true since the position it ends at. */
  lemma FillEnds(w: World, a: Answer, w': World)
    requires Inv(w) && Answers(w, a) && StoresPage(w, a, w') && a.next.Done? && w.cycle.mode.FirstFill?
    ensures AllTrueSince(w'.h, w'.held, a.ends)
    ensures !w.cycle.mode.continued ==> w.cycle.began <= a.ends
  {
    var d := DeltaFrom(w.links, w.cycle.from, a.asked);
    var d' := d.(seen := SeenAfter(d.seen, a.entries));
    SeenAfterPage(w, a, d, d', w');
    FirstEnds(w', d', a.ends);
  }

  lemma RoundIsOver(w: World, a: Answer, w': World)
    requires Inv(w) && Answers(w, a) && StoresPage(w, a, w') && a.next.Done? && w.cycle.mode.Round?
    ensures AllTrueSince(w'.h, w'.held, a.ends) && w.cycle.began <= a.ends
  {
    var d := DeltaFrom(w.links, w.cycle.from, a.asked);
    RoundPage(w, a, w');
    RoundEnds(w', d.(seen := SeenAfter(d.seen, a.entries)), a.ends);
  }

  /** The end of a full rereading removes what it did not list. */
  lemma RereadingIsOver(w: World, a: Answer, w': World)
    requires Inv(w) && Answers(w, a) && StoresPage(w, a, w') && a.next.Done? && w.cycle.mode.FullRereading?
    ensures AllTrueSince(w'.h, w'.held, a.ends) && w.cycle.began <= a.ends
  {
    var d := DeltaFrom(w.links, w.cycle.from, a.asked);
    var d' := d.(seen := SeenAfter(d.seen, a.entries));
    var before := w'.(held := w.held - RemovedBy(w.h, a, w.cycle.mode) + ArrivedBy(w.h, a, w.cycle.mode));
    RereadingPage(w, a, d, d', before);
    forall id | id in d'.seen
      ensures TrueSince(w'.h, w'.held, id, d'.seen[id])
    {
      TrueSinceGrows(before, w', id, d'.seen[id]);
    }
    FirstEnds(w', d', a.ends);
  }

  lemma StoresKeeps(w: World, a: Answer, w': World)
    requires Inv(w) && Next(w, Stores(a), w')
    ensures Inv(w')
  {
    if a.next.More? {
      match w.cycle.mode
      case FirstFill(_) => FillGoesOn(w, a, w');
      case Round => RoundGoesOn(w, a, w');
      case FullRereading(_) => RereadingGoesOn(w, a, w');
    } else {
      match w.cycle.mode
      case FirstFill(_) => FillEnds(w, a, w');
      case Round => RoundIsOver(w, a, w');
      case FullRereading(_) => RereadingIsOver(w, a, w');
      assert PositionSound(w', a.next.link);
    }
  }

  lemma StepKeeps(w: World, step: Step, w': World)
    requires Inv(w) && Next(w, step, w')
    ensures Inv(w')
  {
    match step
    case ServiceActs => ServiceActsKeeps(w, w');
    case Starts => StartsKeeps(w, w');
    case Stores(a) => StoresKeeps(w, a, w');
    case NamesTooMany(_) => RereadsKeeps(w, w');
    case IsRejected => RereadsKeeps(w, w');
    case Stops =>
  }

  // ----- whole runs

  /** A run from an empty folder whose steps the cycle, its interruptions, the
      service and its rejections take in any order. */
  ghost predicate IsRun(ws: seq<World>, steps: seq<Step>) {
    && |ws| == |steps| + 1
    && (forall i :: 0 <= i < |steps| ==> StepAt(ws, steps, i))
  }

  ghost predicate StepAt(ws: seq<World>, steps: seq<Step>, i: nat)
    requires i < |steps| && |ws| == |steps| + 1
  {
    Next(ws[i], steps[i], ws[i + 1])
  }

  ghost predicate Initial(w: World) {
    w.h != [] && w.held == {} && w.state == DEFAULT_STATE && w.cycle == Idle
  }

  lemma {:induction false} EveryRunKeeps(ws: seq<World>, steps: seq<Step>, n: nat)
    requires IsRun(ws, steps) && Initial(ws[0]) && n <= |steps|
    ensures Inv(ws[n])
  {
    if n > 0 {
      EveryRunKeeps(ws, steps, n - 1);
      assert StepAt(ws, steps, n - 1);
      StepKeeps(ws[n - 1], steps[n - 1], ws[n]);
    }
  }

  /** Whether the step completes the cycle. */
  predicate Completes(w: World, step: Step, w': World) {
    w.cycle.Running? && w'.cycle.Idle? && step.Stores?
  }

  /** Whatever interrupted and rejected cycles came before, a cycle that completes
      leaves every message as the service had it at some moment since the cycle
      began, and keeps the position of such a moment. */
  lemma CompletedCycleAgrees(ws: seq<World>, steps: seq<Step>, n: nat)
    requires IsRun(ws, steps) && Initial(ws[0]) && n < |steps|
    requires Completes(ws[n], steps[n], ws[n + 1])
    ensures ws[n + 1].state.synchronized
    ensures AllTrueSince(ws[n + 1].h, ws[n + 1].held, ws[n].cycle.began)
    ensures PositionSound(ws[n + 1], ws[n + 1].state.serverPosition.GetOr("")) && ws[n].cycle.began <= BaseOf(ws[n + 1])
  {
    EveryRunKeeps(ws, steps, n);
    EveryRunKeeps(ws, steps, n + 1);
    assert StepAt(ws, steps, n);
    var w, a, w' := ws[n], steps[n].answer, ws[n + 1];
    match w.cycle.mode {
      case FirstFill(_) => FillEnds(w, a, w');
      case Round => RoundIsOver(w, a, w');
      case FullRereading(_) => RereadingIsOver(w, a, w');
    }
    forall id
      ensures TrueSince(w'.h, w'.held, id, w.cycle.began)
    {
      TrueSinceEarlier(w', id, w.cycle.began, a.ends);
    }
  }

  /** The folder did not change on the service since moment `a`. */
  ghost predicate QuietSince(h: History, a: nat) {
    a < |h| && forall m :: a <= m < |h| ==> h[m] == h[a]
  }

  /** Against a service that was quiet since the cycle began, the folder's
      messages are the service's. */
  lemma QuietCycleConverges(ws: seq<World>, steps: seq<Step>, n: nat)
    requires IsRun(ws, steps) && Initial(ws[0]) && n < |steps|
    requires Completes(ws[n], steps[n], ws[n + 1])
    requires QuietSince(ws[n + 1].h, ws[n].cycle.began)
    ensures ws[n + 1].held == ws[n + 1].h[ws[n].cycle.began]
  {
    CompletedCycleAgrees(ws, steps, n);
    EveryRunKeeps(ws, steps, n);
    EveryRunKeeps(ws, steps, n + 1);
    assert StepAt(ws, steps, n);
    var w' := ws[n + 1];
    forall id
      ensures id in w'.held <==> id in w'.h[ws[n].cycle.began]
    {
      assert TrueSince(w'.h, w'.held, id, ws[n].cycle.began);
    }
  }

  /** A cycle changes what it reads at most twice: a first fill to a round, and
      either to a full rereading. */
  lemma AtMostTwoSwitches(ws: seq<World>, steps: seq<Step>, n: nat)
    requires IsRun(ws, steps) && Initial(ws[0]) && n <= |steps| && ws[n].cycle.Running?
    ensures ws[n].cycle.switches + Rank(ws[n].cycle.mode) <= 2
  {
    EveryRunKeeps(ws, steps, n);
  }

  /** Every switch goes down in rank: never back to a first fill, nor from a full
      rereading to anything. */
  lemma SwitchesGoDown(w: World, step: Step, w': World)
    requires Inv(w) && Next(w, step, w') && w.cycle.Running? && w'.cycle.Running?
    ensures w'.cycle.began == w.cycle.began
    ensures if w'.cycle.switches == w.cycle.switches then Rank(w'.cycle.mode) == Rank(w.cycle.mode)
            else w'.cycle.switches == w.cycle.switches + 1 && Rank(w'.cycle.mode) < Rank(w.cycle.mode)
  {
  }

  /** The moment the reading in progress counts from. */
  function ReadingStart(w: World, a: Answer): nat
    requires w.cycle.Running?
  {
    DeltaFrom(w.links, w.cycle.from, a.asked).start
  }

  /** The end of a full rereading removes a message only after a moment without it. */
  lemma UnlistedWasGone(w: World, a: Answer, id: string)
    requires Inv(w) && Answers(w, a) && a.next.Done? && w.cycle.mode.FullRereading?
    requires id !in w.cycle.mode.listed + a.entries.Keys
    ensures AbsentSometime(w.h, id, ReadingStart(w, a))
  {
    var d := DeltaFrom(w.links, w.cycle.from, a.asked);
    var d' := d.(seen := SeenAfter(d.seen, a.entries));
    assert d.first && d.start <= d.begun && d.seen.Keys == w.cycle.mode.listed;
    assert EndsAt(w.h, d', a.ends);
    assert AbsentSometime(w.h, id, a.ends);
    var m :| a.ends <= m < |w.h| && id !in w.h[m];
  }

  lemma ToldGone(w: World, a: Answer, id: string)
    requires Answers(w, a) && id in RemovedBy(w.h, a, w.cycle.mode)
    ensures AbsentSometime(w.h, id, ReadingStart(w, a))
  {
    var m := ToldAt(id, a, w.cycle.mode);
    assert a.entries[id].asOf <= m;
  }

  /** Nothing is removed without proof: the service did not have the message in
      the folder at some moment since the reading's start. */
  lemma RemovedWasGone(w: World, step: Step, w': World, id: string)
    requires Inv(w) && Next(w, step, w') && id in w.held && id !in w'.held
    ensures step.Stores? && AbsentSometime(w.h, id, ReadingStart(w, step.answer))
  {
    var a := step.answer;
    if id in RemovedBy(w.h, a, w.cycle.mode) {
      ToldGone(w, a, id);
    } else {
      UnlistedWasGone(w, a, id);
    }
  }

  ghost predicate ThereSince(h: History, p: nat, id: string) {
    forall m :: p <= m < |h| ==> id in h[m]
  }

  /** What the link stands for reaches back no further than `p`. */
  ghost predicate LinkSince(links: map<string, Link>, link: string, p: nat) {
    link in links && match links[link]
                     case Position(m) => p <= m
                     case Place(d) => p <= d.start && p <= d.begun
  }

  /** The saved links and the running reading reach back no further than `p`. */
  ghost predicate ReadsSince(w: World, p: nat) {
    && p < |w.h|
    && (w.state.serverPosition.Some? ==> LinkSince(w.links, w.state.serverPosition.value, p))
    && (w.state.fillPlace.Some? ==> LinkSince(w.links, w.state.fillPlace.value, p))
    && (w.cycle.Running? ==> p <= w.cycle.since && (w.cycle.from.At? ==> LinkSince(w.links, w.cycle.from.link, p)))
  }

  lemma DeltaSince(w: World, a: Answer, p: nat)
    requires Answers(w, a) && ReadsSince(w, p)
    ensures p <= DeltaFrom(w.links, w.cycle.from, a.asked).start && p <= DeltaFrom(w.links, w.cycle.from, a.asked).begun
  {
  }

  lemma LinkStays(links: map<string, Link>, links': map<string, Link>, link: string, meaning: Link, other: string, p: nat)
    requires GivesLink(links, links', link, meaning) && LinkSince(links, other, p)
    ensures LinkSince(links', other, p)
  {
  }

  lemma PageReadsSince(w: World, a: Answer, w': World, p: nat)
    requires Inv(w) && Answers(w, a) && StoresPage(w, a, w') && ReadsSince(w, p)
    ensures ReadsSince(w', p)
  {
    DeltaSince(w, a, p);
    var d := DeltaFrom(w.links, w.cycle.from, a.asked);
    var link := a.next.link;
    var meaning := if a.next.More? then Place(d.(seen := SeenAfter(d.seen, a.entries))) else Position(a.ends);
    assert GivesLink(w.links, w'.links, link, meaning) && LinkSince(w'.links, link, p);
    if w.state.serverPosition.Some? {
      LinkStays(w.links, w'.links, link, meaning, w.state.serverPosition.value, p);
    }
  }

  lemma StepReadsSince(w: World, step: Step, w': World, p: nat)
    requires Inv(w) && Next(w, step, w') && ReadsSince(w, p)
    ensures ReadsSince(w', p)
  {
    match step
    case Stores(a) => PageReadsSince(w, a, w', p);
    case _ =>
  }

  lemma StepKeepsPresent(w: World, step: Step, w': World, p: nat, id: string)
    requires Inv(w) && Next(w, step, w') && ReadsSince(w, p) && id in w.held && ThereSince(w.h, p, id)
    ensures id in w'.held
  {
    if id !in w'.held {
      RemovedWasGone(w, step, w', id);
      DeltaSince(w, step.answer, p);
    }
  }

  /** Over every run, a held message stays that the service has in the folder ever
      since the moment the saved links and the running reading reach back to. */
  lemma {:induction false} PresentStays(ws: seq<World>, steps: seq<Step>, i: nat, j: nat, p: nat, id: string)
    requires IsRun(ws, steps) && Initial(ws[0]) && i <= j <= |steps|
    requires ReadsSince(ws[i], p) && id in ws[i].held && ThereSince(ws[j].h, p, id)
    ensures id in ws[j].held && ReadsSince(ws[j], p)
    decreases j
  {
    if i < j {
      var w, w' := ws[j - 1], ws[j];
      EveryRunKeeps(ws, steps, j - 1);
      assert StepAt(ws, steps, j - 1);
      StepGrows(w, steps[j - 1], w');
      forall m | p <= m < |w.h|
        ensures id in w.h[m]
      {
        assert w'.h[m] == w.h[m];
      }
      PresentStays(ws, steps, i, j - 1, p, id);
      StepReadsSince(w, steps[j - 1], w', p);
      StepKeepsPresent(w, steps[j - 1], w', p, id);
    }
  }

  lemma StepGrows(w: World, step: Step, w': World)
    requires Next(w, step, w')
    ensures Grows(w.h, w'.h)
  {
  }

  // ----- the page in the store

  /** The batch a page becomes leaves the folder exactly the messages the cycle's
      steps say: `unlisted` is what the end of a full rereading removes. */
  lemma PageInTheStore(t: Tables, folder: FolderKey, h: History, a: Answer, mode: Mode, unlisted: set<string>,
                       records: seq<Message>, state: FolderState)
    requires Valid(t) && folder in t.folders
    requires forall i :: i in Identities(records) <==> i in ArrivedBy(h, a, mode)
    requires unlisted !! a.entries.Keys
    ensures
      var b := Batch(RemovedBy(h, a, mode) + unlisted, [], [], records, Some(state));
      && Held(ApplyBatch(t, folder, b), folder).Keys
         == Held(t, folder).Keys - RemovedBy(h, a, mode) + ArrivedBy(h, a, mode) - unlisted
      && ApplyBatch(t, folder, b).folders[folder].state == state
  {
    var b := Batch(RemovedBy(h, a, mode) + unlisted, [], [], records, Some(state));
    HeldIsPage(t, folder, RemovedBy(h, a, mode), ArrivedBy(h, a, mode), unlisted, b);
  }

  lemma HeldIsPage(t: Tables, folder: FolderKey, removed: set<string>, arrived: set<string>, unlisted: set<string>, b: Batch)
    requires Valid(t) && folder in t.folders && b.knownArrived == [] && b.removed == removed + unlisted
    requires arrived !! unlisted && forall i :: i in Identities(b.arrived) <==> i in arrived
    ensures Held(ApplyBatch(t, folder, b), folder).Keys == Held(t, folder).Keys - removed + arrived - unlisted
  {
    forall i
      ensures i in Held(ApplyBatch(t, folder, b), folder).Keys <==> i in Held(t, folder).Keys - removed + arrived - unlisted
    {
      HeldAfterRecords(t, folder, b, i);
    }
    SameMembers(Held(ApplyBatch(t, folder, b), folder).Keys, Held(t, folder).Keys - removed + arrived - unlisted);
  }

  lemma SameMembers(a: set<string>, b: set<string>)
    requires forall i :: i in a <==> i in b
    ensures a == b
  {
  }

  lemma HeldAfterRecords(t: Tables, folder: FolderKey, b: Batch, i: string)
    requires Valid(t) && folder in t.folders && b.knownArrived == []
    ensures i in Held(ApplyBatch(t, folder, b), folder) <==> (i in Held(t, folder) && i !in b.removed) || i in Identities(b.arrived)
  {
    HeldAfterBatch(t, folder, b, i);
    assert Named(b.knownArrived) == {};
  }
}
