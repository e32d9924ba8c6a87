/** The loop of a Microsoft 365 cycle: the reading it is in, changed in place page
    by page, each turn one step of the cycle's state machine. */
module GraphCycleRun {
  import opened Domain
  import opened GraphCycle
  import opened GraphCycleLaws

  /** A merged entry as it arrives. */
  datatype Kind = MarkedRemoved | Full | Partial

  /** What arrives of a page: its entries, which messages the account and its other
      folders hold, and where the messages read again are. */
  datatype Page = Page(kinds: map<string, Kind>, elsewhere: set<string>, known: set<string>, again: map<string, bool>, next: NextPage)

  function KindOf(e: Entry): Kind {
    match e
    case Removed(_) => MarkedRemoved
    case Listed(_) => Full
    case Changed(_) => Partial
  }

  /** The page is what the service's answer amounts to. */
  ghost predicate Arrives(h: History, page: Page, a: Answer, mode: Mode) {
    && page.kinds == (map id | id in a.entries :: KindOf(a.entries[id]))
    && page.elsewhere == a.elsewhere && page.known == a.known && page.next == a.next
    && forall id :: id in a.entries && ReadAgain(id, a.entries[id], a, mode) ==>
         id in page.again && id in a.reread && a.reread[id] < |h| && page.again[id] == (id in h[a.reread[id]])
  }

  class FolderCycle {
    var from: From
    var mode: Mode
    var stored: set<string>
    var roundStart: Option<string>
    var named: nat
    var running: bool
    /** The folder in the store. */
    var held: set<string>
    var state: FolderState
    ghost var h: History
    ghost var links: map<string, Link>
    ghost var since: nat
    ghost var began: nat
    ghost var switches: nat

    constructor ()
      ensures Initial(Now()) && Inv(Now())
    {
      from, mode, stored, roundStart, named, running := FirstReading, Round, {}, None, 0, false;
      held, state := {}, DEFAULT_STATE;
      h, links, since, began, switches := [{}], map[], 0, 0, 0;
    }

    ghost function Now(): World
      reads this
    {
      World(h, links, held, state,
            if running then Running(from, mode, stored, roundStart, named, since, began, switches) else Idle)
    }

    /** Reads what the cycle starts from. */
    method Start()
      requires !running && h != []
      modifies this
      ensures Next(old(Now()), Starts, Now())
      ensures old(state.fillPlace).Some? ==> from == At(old(state.fillPlace).value) && mode == FirstFill(true)
      ensures old(state.fillPlace).None? && old(state.serverPosition).Some? ==>
                from == At(old(state.serverPosition).value) && mode == Round
      ensures old(state.fillPlace).None? && old(state.serverPosition).None? ==>
                from == FirstReading && mode == if old(held) == {} then FirstFill(false) else FullRereading({})
      ensures running && held == old(held) && state == old(state)
    {
      var start, reading := Begin();
      SetOut(start, reading);
    }

    method SetOut(start: From, reading: Mode)
      requires h != []
      modifies this`from, this`mode, this`stored, this`roundStart, this`named, this`running, this`since, this`began, this`switches
      ensures from == start && mode == reading && stored == held && roundStart == state.serverPosition && named == 0 && running
      ensures since == began == |h| - 1 && switches == 0
    {
      stored, from, mode := held, start, reading;
      roundStart, named, running := state.serverPosition, 0, true;
      since, began, switches := |h| - 1, |h| - 1, 0;
    }

    /** Where the reading starts. */
    method Begin() returns (start: From, reading: Mode)
      ensures (start, reading) == WhereToStart(state, held)
    {
      if state.fillPlace.Some? {
        return At(state.fillPlace.value), FirstFill(true);
      }
      if state.serverPosition.Some? {
        return At(state.serverPosition.value), Round;
      }
      if held != {} {
        return FirstReading, FullRereading({});
      }
      return FirstReading, FirstFill(false);
    }

    /** The service no longer accepts the link: the whole folder is read instead. */
    method Reject()
      requires running && h != [] && from.At? && !mode.FullRereading?
      modifies this
      ensures Next(old(Now()), IsRejected, Now())
    {
      ReadAgainInFull();
    }

    method ReadAgainInFull()
      requires running && h != []
      modifies this
      ensures Now() == old(Now()).(cycle := Rereads(old(Now())))
    {
      stored := held;
      from, mode := FirstReading, FullRereading({});
      since, switches := |h| - 1, switches + 1;
    }

    /** The messages of the page that are in the folder, and those that are not. */
    method BatchFromChanges(page: Page, ghost a: Answer) returns (removed: set<string>, arrived: set<string>)
      requires running && Answers(Now(), a) && Arrives(h, page, a, mode)
      ensures removed == RemovedBy(h, a, mode) && arrived == ArrivedBy(h, a, mode)
    {
      removed, arrived := {}, {};
      var left := page.kinds.Keys;
      while left != {}
        invariant left <= page.kinds.Keys
        invariant forall id :: id in removed <==> id in RemovedBy(h, a, mode) && id !in left
        invariant forall id :: id in arrived <==> id in ArrivedBy(h, a, mode) && id !in left
        decreases left
      {
        var id :| id in left;
        var kind := page.kinds[id];
        var here: bool;
        if kind.MarkedRemoved? {
          here := false;
        } else if kind.Partial? || id in page.elsewhere || (id in page.known && mode.Round?) {
          here := page.again[id];
        } else {
          here := true;
        }
        PlaceIsTold(page, a, id, here);
        if here {
          arrived := arrived + {id};
        } else {
          removed := removed + {id};
        }
        left := left - {id};
      }
    }

    lemma PlaceIsTold(page: Page, a: Answer, id: string, here: bool)
      requires running && Answers(Now(), a) && Arrives(h, page, a, mode) && id in page.kinds
      requires here == if page.kinds[id].MarkedRemoved? then false
                       else if page.kinds[id].Partial? || id in page.elsewhere || (id in page.known && mode.Round?)
                       then page.again[id] else true
      ensures id in RemovedBy(h, a, mode) <==> !here
      ensures id in ArrivedBy(h, a, mode) <==> here
    {
      var m := ToldAt(id, a, mode);
      assert a.entries[id].asOf <= |h| - 1 && EntryTrue(h, id, a.entries[id]);
      assert m < |h| && (id in h[m] <==> here);
    }

    /** Counts the stored messages a round's page names. */
    method CountNamed(page: Page, ghost a: Answer) returns (tooMany: bool)
      requires running && Answers(Now(), a) && Arrives(h, page, a, mode)
      modifies this`named
      ensures Now() == Counted(old(Now()), a)
      ensures tooMany == NamesMany(old(Now()), a)
    {
      if !mode.Round? {
        return false;
      }
      assert page.kinds.Keys == a.entries.Keys;
      assert page.kinds.Keys * stored == a.entries.Keys * stored;
      named := named + |page.kinds.Keys * stored|;
      return named > ROUND_READINGS_LIMIT;
    }

    /** One page: too many stored messages named and the whole folder is read
        instead; otherwise the page is stored with the place or position it saves. */
    method TakePage(page: Page, ghost a: Answer, ghost links': map<string, Link>)
      requires running && h != [] && Answers(Now(), a) && Arrives(h, page, a, mode)
      requires GivesLinks(Now(), a, links')
      modifies this
      ensures Now() == AfterPage(old(Now()), a, links')
    {
      ghost var w := Now();
      var tooMany := CountNamed(page, a);
      CountedIs(w, a);
      KeysArrive(h, page, a, mode);
      if tooMany {
        ReadAgainInFull();
      } else {
        var removed, arrived := BatchFromChanges(page, a);
        StorePage(removed, arrived, page.kinds.Keys, page.next, links');
      }
    }

    /** The page's messages; only a full rereading's end removes what it did not list. */
    method WriteMessages(removed: set<string>, arrived: set<string>, ids: set<string>, last: bool)
      requires arrived <= ids
      modifies this`mode, this`held
      ensures mode == if old(mode).FullRereading? then FullRereading(old(mode).listed + ids) else old(mode)
      ensures held == if last && mode.FullRereading? then old(held) - removed + arrived - (stored - mode.listed)
                      else old(held) - removed + arrived
    {
      if mode.FullRereading? {
        mode := FullRereading(mode.listed + ids);
      }
      var unlisted := if last && mode.FullRereading? then stored - mode.listed else {};
      held := held - (removed + unlisted) + arrived;
    }

    /** The page's batch with the state it saves, and how the reading goes on. */
    method StorePage(removed: set<string>, arrived: set<string>, ids: set<string>, next: NextPage, ghost links': map<string, Link>)
      requires running && h != [] && arrived <= ids
      modifies this
      ensures Now() == PageEnds(old(Now()), links', removed, arrived, ids, next)
    {
      WriteMessages(removed, arrived, ids, next.Done?);
      links := links';
      match next
      case More(link) => GoOn(link);
      case Done(link) =>
        if mode == FirstFill(true) {
          FillIsDone(link);
        } else {
          state, running := Completed(link), false;
        }
    }

    /** Not the reading's last page: the folder is not completed. */
    method GoOn(link: string)
      requires h != []
      modifies this`state, this`from, this`since
      ensures state == (if mode.FirstFill? then FolderState(None, Some(link), false, None) else FolderState(roundStart, None, false, None))
      ensures from == At(link) && since == |h| - 1
    {
      state := if mode.FirstFill? then FolderState(None, Some(link), false, None)
               else FolderState(roundStart, None, false, None);
      from, since := At(link), |h| - 1;
    }

    /** A first fill that went on from a saved place is followed by a round. */
    method FillIsDone(link: string)
      requires h != []
      modifies this`state, this`roundStart, this`from, this`mode, this`since, this`switches
      ensures state == FolderState(Some(link), None, false, None) && roundStart == Some(link) && from == At(link) && mode == Round
      ensures since == |h| - 1 && switches == old(switches) + 1
    {
      state := FolderState(Some(link), None, false, None);
      roundStart, from, mode := Some(link), At(link), Round;
      since, switches := |h| - 1, switches + 1;
    }
  }

  // ----- what a page leaves

  ghost predicate GivesLinks(w: World, a: Answer, links': map<string, Link>)
    requires w.cycle.Running?
  {
    var d := DeltaFrom(w.links, w.cycle.from, a.asked);
    match a.next
    case More(link) => GivesLink(w.links, links', link, Place(d.(seen := SeenAfter(d.seen, a.entries))))
    case Done(link) => GivesLink(w.links, links', link, Position(a.ends))
  }

  /** The world after a round's page counted the stored messages it names. */
  function Counted(w: World, a: Answer): World
    requires w.cycle.Running?
  {
    if w.cycle.mode.Round? then w.(cycle := w.cycle.(named := NamedStored(w.cycle, a))) else w
  }

  lemma KeysArrive(h: History, page: Page, a: Answer, mode: Mode)
    requires Arrives(h, page, a, mode)
    ensures page.kinds.Keys == a.entries.Keys && page.next == a.next
  {
  }

  predicate NamesMany(w: World, a: Answer)
    requires w.cycle.Running?
  {
    w.cycle.mode.Round? && NamedStored(w.cycle, a) > ROUND_READINGS_LIMIT
  }

  lemma CountedIs(w: World, a: Answer)
    requires Answers(w, a)
    ensures Answers(Counted(w, a), a) && Counted(w, a).h == w.h && Counted(w, a).cycle.mode == w.cycle.mode
    ensures Counted(w, a).cycle.Running?
  {
  }

  ghost function PageEnds(w: World, links': map<string, Link>, removed: set<string>, arrived: set<string>,
                          ids: set<string>, next: NextPage): World
    requires w.cycle.Running? && w.h != []
  {
    var c, held := w.cycle, w.held - removed + arrived;
    var mode := if c.mode.FullRereading? then FullRereading(c.mode.listed + ids) else c.mode;
    match next
    case More(link) =>
      World(w.h, links', held, PageState(c, link), c.(from := At(link), mode := mode, since := GraphCycle.Now(w)))
    case Done(link) =>
      if mode == FirstFill(true) then
        World(w.h, links', held, FolderState(Some(link), None, false, None),
              Running(At(link), Round, c.stored, Some(link), c.named, GraphCycle.Now(w), c.began, c.switches + 1))
      else
        World(w.h, links', if mode.FullRereading? then held - (c.stored - mode.listed) else held, Completed(link), Idle)
  }

  /** What one page makes of the world. */
  ghost function AfterPage(w: World, a: Answer, links': map<string, Link>): World
    requires w.cycle.Running? && w.h != []
  {
    var counted := Counted(w, a);
    if NamesMany(w, a) then counted.(cycle := Rereads(counted))
    else PageEnds(counted, links', RemovedBy(w.h, a, w.cycle.mode), ArrivedBy(w.h, a, w.cycle.mode), a.entries.Keys, a.next)
  }

  lemma ManyIsNext(w: World, a: Answer, w': World)
    requires w.h != [] && Answers(w, a) && NamesMany(w, a) && w' == w.(cycle := Rereads(w).(named := NamedStored(w.cycle, a)))
    ensures Next(w, NamesTooMany(a), w')
  {
  }

  lemma ManyAfterPage(w: World, a: Answer, links': map<string, Link>)
    requires w.cycle.Running? && w.h != [] && NamesMany(w, a)
    ensures AfterPage(w, a, links') == w.(cycle := Rereads(w).(named := NamedStored(w.cycle, a)))
  {
  }

  lemma StoredIsNext(w: World, a: Answer, w': World)
    requires w.h != [] && Answers(w, a) && !NamesMany(w, a) && StoresPage(w, a, w')
    ensures Next(w, Stores(a), w')
  {
  }

  lemma MoreIsStored(w: World, a: Answer, links': map<string, Link>)
    requires w.h != [] && Answers(w, a) && GivesLinks(w, a, links') && !NamesMany(w, a) && a.next.More?
    ensures StoresPage(w, a, AfterPage(w, a, links'))
  {
  }

  lemma DoneIsStored(w: World, a: Answer, links': map<string, Link>)
    requires w.h != [] && Answers(w, a) && GivesLinks(w, a, links') && !NamesMany(w, a) && a.next.Done?
    ensures StoresPage(w, a, AfterPage(w, a, links'))
  {
  }

  /** Each turn of the loop is a step of the cycle's state machine. */
  lemma PageIsAStep(w: World, a: Answer, links': map<string, Link>, w': World)
    requires w.h != [] && Answers(w, a) && GivesLinks(w, a, links') && !NamesMany(w, a) && w' == AfterPage(w, a, links')
    ensures Next(w, Stores(a), w')
  {
    assert StoresPage(w, a, w') by {
      if a.next.More? {
        MoreIsStored(w, a, links');
      } else {
        DoneIsStored(w, a, links');
      }
    }
    StoredIsNext(w, a, w');
  }

  /** So the loop keeps what the state machine keeps. */
  lemma PageKeeps(w: World, a: Answer, links': map<string, Link>, w': World)
    requires Inv(w) && Answers(w, a) && GivesLinks(w, a, links') && w' == AfterPage(w, a, links')
    ensures Inv(w')
  {
    if NamesMany(w, a) {
      ManyAfterPage(w, a, links');
      ManyIsNext(w, a, w');
      StepKeeps(w, NamesTooMany(a), w');
    } else {
      PageIsAStep(w, a, links', w');
      StepKeeps(w, Stores(a), w');
    }
  }
}
