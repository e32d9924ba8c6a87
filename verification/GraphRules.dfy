/** How a Microsoft 365 cycle goes on from what is saved, what a page makes of each
    entry, and how many stored messages a round may name. */
module GraphRules {
  import opened Domain
  import opened GraphCycle
  import opened GraphCycleLaws

  // ----- where a cycle starts

  /** The next request asks at the link with the reading `d`. */
  ghost predicate GoesOnWith(w: World, link: string, d: Delta) {
    w.cycle.Running? && w.cycle.from == At(link) && forall asked :: DeltaFrom(w.links, w.cycle.from, asked) == d
  }

  /** The next request asks at the link for the changes since moment `p`. */
  ghost predicate AsksSince(w: World, link: string, p: nat) {
    w.cycle.Running? && w.cycle.from == At(link) && forall asked :: DeltaFrom(w.links, w.cycle.from, asked) == Delta(false, p, asked, map[])
  }

  /** The next request begins the folder's reading anew. */
  ghost predicate AsksForAll(w: World) {
    w.cycle.Running? && w.cycle.from == FirstReading && forall asked :: DeltaFrom(w.links, w.cycle.from, asked) == Delta(true, asked, asked, map[])
  }

  /** A start goes on with the reading of a saved place, all it told before included;
      else it is a round of the changes since the saved position; without either the
      folder is read from the beginning, and a folder that holds messages so that the
      end removes what was not listed. */
  lemma StartGoesOn(w: World, w': World)
    requires Inv(w) && Next(w, Starts, w')
    ensures w'.h == w.h && w'.held == w.held && w'.state == w.state && w'.links == w.links
    ensures w'.cycle.Running? && w'.cycle.stored == w.held && w'.cycle.roundStart == w.state.serverPosition
    ensures w.state.fillPlace.Some? ==>
              && w'.cycle.mode == FirstFill(true)
              && GoesOnWith(w', w.state.fillPlace.value, w.links[w.state.fillPlace.value].delta)
    ensures w.state.fillPlace.None? && w.state.serverPosition.Some? ==>
              && w'.cycle.mode == Round
              && AsksSince(w', w.state.serverPosition.value, w.links[w.state.serverPosition.value].moment)
    ensures w.state.fillPlace.None? && w.state.serverPosition.None? ==>
              && AsksForAll(w')
              && w'.cycle.mode == (if w.held == {} then FirstFill(false) else FullRereading({}))
  {
  }

  // ----- a cycle cut off

  predicate LinksStay(links: map<string, Link>, links': map<string, Link>) {
    forall link :: link in links ==> link in links' && links'[link] == links[link]
  }

  lemma StepLinksStay(w: World, step: Step, w': World)
    requires Next(w, step, w')
    ensures LinksStay(w.links, w'.links)
    ensures !step.Stores? ==> w'.links == w.links && w'.state == w.state && w'.held == w.held
  {
  }

  ghost predicate NothingStored(steps: seq<Step>, n: nat, m: nat)
    requires n <= m <= |steps|
  {
    forall k :: n <= k < m ==> !steps[k].Stores?
  }

  /** Only a stored page changes the folder, what it remembers and the links given out. */
  lemma {:induction false} OnlyPagesChange(ws: seq<World>, steps: seq<Step>, n: nat, m: nat)
    requires IsRun(ws, steps) && n <= m <= |steps| && NothingStored(steps, n, m)
    ensures ws[m].state == ws[n].state && ws[m].held == ws[n].held && ws[m].links == ws[n].links
    decreases m
  {
    if n < m {
      OnlyPagesChange(ws, steps, n, m - 1);
      assert StepAt(ws, steps, m - 1);
      StepLinksStay(ws[m - 1], steps[m - 1], ws[m]);
    }
  }

  /** The reading once the page was taken. */
  function ReadingAfter(w: World, a: Answer): Delta
    requires w.cycle.Running?
  {
    var d := DeltaFrom(w.links, w.cycle.from, a.asked);
    d.(seen := SeenAfter(d.seen, a.entries))
  }

  /** What a stored page lets the next cycle do, when nothing is stored until it
      starts: a first fill goes on at the page's link with all it told; the end of a
      reading is where the next round asks; a round cut off starts again at the
      position it began at, a full rereading at the position kept, or in full. */
  ghost predicate GoesOnAfter(w: World, a: Answer, w': World)
    requires w.cycle.Running?
  {
    var c, link := w.cycle, a.next.link;
    match a.next
    case More(_) =>
      if c.mode.FirstFill? then w'.cycle.Running? && w'.cycle.mode == FirstFill(true) && GoesOnWith(w', link, ReadingAfter(w, a))
      else if c.roundStart.Some? then
        && w'.cycle.Running? && w'.cycle.mode == Round && AsksSince(w', c.roundStart.value, BaseOf(w))
      else
        && AsksForAll(w') && c.mode.FullRereading? && (w'.held != {} ==> w'.cycle.mode == FullRereading({}))
    case Done(_) => w'.cycle.Running? && w'.cycle.mode == Round && AsksSince(w', link, a.ends)
  }

  lemma PageSaves(w: World, a: Answer, w1: World, w2: World, w': World)
    requires Inv(w) && Next(w, Stores(a), w1) && Inv(w2) && Next(w2, Starts, w')
    requires w2.state == w1.state && w2.links == w1.links
    ensures w.cycle.Running? && GoesOnAfter(w, a, w')
  {
    StartGoesOn(w2, w');
    StepLinksStay(w, Stores(a), w1);
  }

  /** A cycle that is cut off after storing a page, however often cycles are rejected,
      cut off and started without storing one, is followed by one that asks where that
      page saved. */
  lemma CutOffGoesOn(ws: seq<World>, steps: seq<Step>, n: nat, m: nat)
    requires IsRun(ws, steps) && Initial(ws[0]) && n < m < |steps|
    requires steps[n].Stores? && NothingStored(steps, n + 1, m) && steps[m].Starts?
    ensures ws[n].cycle.Running? && GoesOnAfter(ws[n], steps[n].answer, ws[m + 1])
  {
    hide GoesOnAfter, Inv, Next;
    EveryRunKeeps(ws, steps, n);
    EveryRunKeeps(ws, steps, m);
    assert StepAt(ws, steps, n) && StepAt(ws, steps, m);
    OnlyPagesChange(ws, steps, n + 1, m);
    PageSaves(ws[n], steps[n].answer, ws[n + 1], ws[m], ws[m + 1]);
  }

  // ----- what a page makes of each entry

  /** An entry marked removed takes the message from the folder. A full one that no
      other folder has a claim to, and that tells a round nothing it holds, is stored
      as reported. Every other entry only names its message, which is stored as the
      service has it at a moment since the page was asked for. */
  lemma EntryIsTaken(w: World, a: Answer, w': World, id: string)
    requires Inv(w) && Next(w, Stores(a), w') && id in a.entries
    ensures a.entries[id].Removed? ==> id !in w'.held
    ensures a.entries[id].Listed? && id !in a.elsewhere && !(id in a.known && w.cycle.mode.Round?) ==> id in w'.held
    ensures a.entries[id].Changed? || (a.entries[id].Listed? && (id in a.elsewhere || (id in a.known && w.cycle.mode.Round?))) ==>
              TrueSince(w'.h, w'.held, id, a.asked)
  {
    var m := ToldAt(id, a, w.cycle.mode);
    assert a.entries[id].asOf <= m < |w.h| && EntryTrue(w.h, id, a.entries[id]);
    assert id in RemovedBy(w.h, a, w.cycle.mode) <==> id !in w.h[m];
    assert id in ArrivedBy(w.h, a, w.cycle.mode) <==> id in w.h[m];
    assert id in w'.held <==> id in w'.h[m];
  }

  /** A message the page does not name stays as it was, but for the end of a full
      rereading, which removes those of the folder's messages that were not listed. */
  lemma UnnamedStays(w: World, a: Answer, w': World, id: string)
    requires Inv(w) && Next(w, Stores(a), w') && id !in a.entries
    ensures id in w'.held <==>
              id in w.held && !(a.next.Done? && w.cycle.mode.FullRereading? && id in w.cycle.stored && id !in w.cycle.mode.listed)
  {
  }

  /** A stored page marks the folder synchronized exactly when it completes the cycle. */
  lemma PageMarks(w: World, a: Answer, w': World)
    requires Inv(w) && Next(w, Stores(a), w')
    ensures w'.state.synchronized <==> w'.cycle.Idle?
    ensures w'.cycle.Idle? <==> a.next.Done? && w.cycle.mode != FirstFill(true)
  {
  }

  // ----- how much a round may read

  /** How many of the stored messages the running round's pages named so far. */
  ghost function NamedInRound(ws: seq<World>, steps: seq<Step>, n: nat): nat
    requires IsRun(ws, steps) && n <= |steps|
  {
    if n == 0 || ws[n].cycle.Idle? || steps[n - 1].Starts? then 0
    else NamedInRound(ws, steps, n - 1) + NamedBy(ws[n - 1], steps[n - 1])
  }

  function NamedBy(w: World, step: Step): nat {
    if step.Stores? && w.cycle.Running? && w.cycle.mode.Round? then |step.answer.entries.Keys * w.cycle.stored| else 0
  }

  /** `named` of the stored messages were named so far: at most a hundred by a round,
      none by a first fill. */
  ghost predicate NamesFew(w: World, named: nat) {
    match w.cycle
    case Idle => true
    case Running(_, FirstFill(_), _, _, counted, _, _, _) => counted == 0 == named
    case Running(_, Round, _, _, counted, _, _, _) => counted == named <= 100
    case Running(_, FullRereading(_), _, _, _, _, _, _) => true
  }

  lemma StepNamesFew(w: World, step: Step, w': World, named: nat)
    requires Inv(w) && Next(w, step, w') && NamesFew(w, named)
    ensures NamesFew(w', if w'.cycle.Idle? || step.Starts? then 0 else named + NamedBy(w, step))
  {
  }

  /** Over every run a round has named at most a hundred of the messages the folder
      held when its cycle began. */
  lemma {:induction false} RoundNamesFew(ws: seq<World>, steps: seq<Step>, n: nat)
    requires IsRun(ws, steps) && Initial(ws[0]) && n <= |steps|
    ensures NamesFew(ws[n], NamedInRound(ws, steps, n))
  {
    hide NamesFew, Next, Inv, NamedBy;
    if n > 0 {
      RoundNamesFew(ws, steps, n - 1);
      EveryRunKeeps(ws, steps, n - 1);
      assert StepAt(ws, steps, n - 1);
      StepNamesFew(ws[n - 1], steps[n - 1], ws[n], NamedInRound(ws, steps, n - 1));
      IdleNamesNone(ws[n], NamedInRound(ws, steps, n));
    } else {
      IdleNamesNone(ws[0], 0);
    }
  }

  lemma IdleNamesNone(w: World, named: nat)
    ensures w.cycle.Idle? ==> NamesFew(w, named)
  {
  }

  /** A round is given up exactly with the page that names more than a hundred: then
      nothing of it is stored, and the whole folder is read against what it holds. */
  lemma RoundIsGivenUp(ws: seq<World>, steps: seq<Step>, n: nat)
    requires IsRun(ws, steps) && Initial(ws[0]) && n < |steps| && ws[n].cycle.Running? && ws[n].cycle.mode.Round?
    ensures steps[n].Stores? ==>
              NamedInRound(ws, steps, n) + |steps[n].answer.entries.Keys * ws[n].cycle.stored| <= 100
    ensures steps[n].NamesTooMany? ==>
              && NamedInRound(ws, steps, n) + |steps[n].answer.entries.Keys * ws[n].cycle.stored| > 100
              && AsksForAll(ws[n + 1]) && ws[n + 1].cycle.mode == FullRereading({}) && ws[n + 1].cycle.stored == ws[n].held
              && ws[n + 1].held == ws[n].held && ws[n + 1].state == ws[n].state
  {
    RoundNamesFew(ws, steps, n);
    assert StepAt(ws, steps, n);
  }
}
