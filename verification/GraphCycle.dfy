/** The cycle of a Microsoft 365 folder as a state machine: a delta reading whose
    every page is stored before the next is asked for, which may be cut off between
    any two pages and whose saved links the service may reject. The model follows
    which messages the folder holds. */
module GraphCycle {
  import opened Domain

  /** How many stored messages a round may name before the whole folder is read instead. */
  const ROUND_READINGS_LIMIT: nat := 100

  // ----- the service

  /** The folder's messages at every moment. */
  type History = seq<set<string>>

  /** A delta reading as the service knows it: `start` is the moment its changes
      count from, `begun` that of its first request; `seen` says as of which
      moment it last told each message. */
  datatype Delta = Delta(first: bool, start: nat, begun: nat, seen: map<string, nat>)

  /** What a link stands for: the place of an unfinished reading, or the
      position a round counts from. */
  datatype Link = Place(delta: Delta) | Position(moment: nat)

  /** A merged entry of a page, telling its message as of a moment. A partial
      entry says nothing of where the message is. */
  datatype Entry = Removed(asOf: nat) | Listed(asOf: nat) | Changed(asOf: nat)

  datatype NextPage = More(link: string) | Done(link: string)

  predicate EntryTrue(h: History, id: string, e: Entry)
    requires e.asOf < |h|
  {
    match e
    case Removed(a) => id !in h[a]
    case Listed(a) => id in h[a]
    case Changed(_) => true
  }

  function SeenAfter(seen: map<string, nat>, entries: map<string, Entry>): map<string, nat> {
    seen + map id | id in entries :: entries[id].asOf
  }

  ghost predicate Unchanged(h: History, id: string, a: nat, q: nat)
    requires q < |h|
  {
    forall m :: a < m <= q ==> (id in h[m] <==> id in h[a])
  }

  ghost predicate AbsentSometime(h: History, id: string, q: nat) {
    exists m :: q <= m < |h| && id !in h[m]
  }

  /** What the end of a reading at position `q` promises: a change after the
      reading last told its message comes with the next round, and so does every
      change of a message it did not tell; a first reading tells every message
      that stays in the folder. */
  ghost predicate EndsAt(h: History, d: Delta, q: nat) {
    && d.begun <= q < |h|
    && (forall id :: id in d.seen ==> Unchanged(h, id, d.seen[id], q))
    && (forall id :: id !in d.seen ==> if d.first then AbsentSometime(h, id, q) else Unchanged(h, id, d.start, q))
  }

  // ----- the cycle

  datatype Mode = FirstFill(continued: bool) | Round | FullRereading(listed: set<string>)

  datatype From = FirstReading | At(link: string)

  /** `since` is the moment of the cycle's latest step, `began` of its first. */
  datatype Cycle =
    | Idle
    | Running(from: From, mode: Mode, stored: set<string>, roundStart: Option<string>, named: nat,
              since: nat, began: nat, switches: nat)

  datatype World = World(h: History, links: map<string, Link>, held: set<string>, state: FolderState, cycle: Cycle)

  /** What a page's answers amount to: when it was asked for, its entries, the
      moments at which messages were read again, and how the page goes on. */
  datatype Answer = Answer(
    asked: nat, entries: map<string, Entry>, reread: map<string, nat>, elsewhere: set<string>, known: set<string>,
    next: NextPage, ends: nat)

  datatype Step =
    | ServiceActs
    | Starts
    | Stores(answer: Answer)
    | NamesTooMany(answer: Answer)
    | IsRejected
    | Stops

  function Now(w: World): nat
    requires w.h != []
  {
    |w.h| - 1
  }

  function Completed(link: string): FolderState {
    FolderState(Some(link), None, true, None)
  }

  /** Where the reading starts, by the saved links and whether the folder holds messages. */
  function WhereToStart(state: FolderState, stored: set<string>): (From, Mode) {
    match (state.fillPlace, state.serverPosition)
    case (Some(place), _) => (At(place), FirstFill(true))
    case (None, Some(position)) => (At(position), Round)
    case (None, None) => if stored != {} then (FirstReading, FullRereading({})) else (FirstReading, FirstFill(false))
  }

  /** The reading a request goes on with. */
  function DeltaFrom(links: map<string, Link>, from: From, asked: nat): Delta {
    match from
    case FirstReading => Delta(true, asked, asked, map[])
    case At(link) =>
      if link in links then
        match links[link]
        case Place(d) => d
        case Position(p) => Delta(false, p, asked, map[])
      else Delta(false, 0, 0, map[])
  }

  /** Whether the message is read as the service has it now, instead of stored as reported. */
  predicate ReadAgain(id: string, e: Entry, a: Answer, mode: Mode) {
    match e
    case Removed(_) => false
    case Listed(_) => id in a.elsewhere || (id in a.known && mode.Round?)
    case Changed(_) => true
  }

  /** The moment the stored answer about a message is true of. */
  function ToldAt(id: string, a: Answer, mode: Mode): nat
    requires id in a.entries
  {
    if ReadAgain(id, a.entries[id], a, mode) && id in a.reread then a.reread[id] else a.entries[id].asOf
  }

  /** The messages of the page that the folder does not hold, and those it holds. */
  function RemovedBy(h: History, a: Answer, mode: Mode): set<string> {
    set id | id in a.entries && ToldAt(id, a, mode) < |h| && id !in h[ToldAt(id, a, mode)]
  }

  function ArrivedBy(h: History, a: Answer, mode: Mode): set<string> {
    set id | id in a.entries && ToldAt(id, a, mode) < |h| && id in h[ToldAt(id, a, mode)]
  }

  /** The service's page: every entry is true as of a moment of its reading, a
      message is read again after the page was asked for and not before the entry's
      moment, and the end keeps its promise. */
  ghost predicate Answers(w: World, a: Answer) {
    && w.h != [] && w.cycle.Running? && w.cycle.since <= a.asked <= Now(w) && w.held <= a.known
    && (w.cycle.from.At? ==> w.cycle.from.link in w.links)
    && var d := DeltaFrom(w.links, w.cycle.from, a.asked);
       && (forall id :: id in a.entries ==> d.start <= a.entries[id].asOf <= Now(w) && EntryTrue(w.h, id, a.entries[id]))
       && (forall id :: id in a.entries && ReadAgain(id, a.entries[id], a, w.cycle.mode) ==>
             id in a.reread && a.entries[id].asOf <= a.reread[id] <= Now(w) && a.asked <= a.reread[id])
       && (a.next.Done? ==> EndsAt(w.h, d.(seen := SeenAfter(d.seen, a.entries)), a.ends))
  }

  /** The service gives a link out; it never gives one link two meanings. */
  predicate GivesLink(links: map<string, Link>, links': map<string, Link>, link: string, meaning: Link) {
    links' == links[link := meaning] && (link in links ==> links[link] == meaning)
  }

  function NamedStored(c: Cycle, a: Answer): nat
    requires c.Running?
  {
    c.named + |a.entries.Keys * c.stored|
  }

  /** The state a page that is not the last saves. */
  function PageState(c: Cycle, link: string): FolderState
    requires c.Running?
  {
    if c.mode.FirstFill? then FolderState(None, Some(link), false, None) else FolderState(c.roundStart, None, false, None)
  }

  function Rereads(w: World): Cycle
    requires w.cycle.Running? && w.h != []
  {
    w.cycle.(from := FirstReading, mode := FullRereading({}), stored := w.held, since := Now(w), switches := w.cycle.switches + 1)
  }

  function ModeAfter(mode: Mode, a: Answer): Mode {
    if mode.FullRereading? then FullRereading(mode.listed + a.entries.Keys) else mode
  }

  ghost predicate StoresPage(w: World, a: Answer, w': World)
    requires w.h != [] && w.cycle.Running?
  {
    var c := w.cycle;
    var held := w.held - RemovedBy(w.h, a, c.mode) + ArrivedBy(w.h, a, c.mode);
    var d := DeltaFrom(w.links, c.from, a.asked);
    var mode := ModeAfter(c.mode, a);
    var named := if c.mode.Round? then NamedStored(c, a) else c.named;
    && w'.h == w.h
    && match a.next
       case More(link) =>
         && GivesLink(w.links, w'.links, link, Place(d.(seen := SeenAfter(d.seen, a.entries))))
         && w'.held == held && w'.state == PageState(c, link)
         && w'.cycle == c.(from := At(link), mode := mode, named := named, since := Now(w))
       case Done(link) =>
         && GivesLink(w.links, w'.links, link, Position(a.ends))
         && if c.mode == FirstFill(true) then
              && w'.held == held && w'.state == FolderState(Some(link), None, false, None)
              && w'.cycle == c.(from := At(link), mode := Round, roundStart := Some(link), since := Now(w),
                                switches := c.switches + 1)
            else
              && w'.held == (if mode.FullRereading? then held - (c.stored - mode.listed) else held)
              && w'.state == Completed(link) && w'.cycle == Idle
  }

  ghost predicate Next(w: World, step: Step, w': World) {
    && w.h != []
    && match step
       case ServiceActs => w' == w.(h := w'.h) && |w'.h| == |w.h| + 1 && w'.h[..|w.h|] == w.h
       case Starts =>
         var (from, mode) := WhereToStart(w.state, w.held);
         w.cycle.Idle? && w' == w.(cycle := Running(from, mode, w.held, w.state.serverPosition, 0, Now(w), Now(w), 0))
       case Stores(a) =>
         && Answers(w, a) && (w.cycle.mode.Round? ==> NamedStored(w.cycle, a) <= ROUND_READINGS_LIMIT)
         && StoresPage(w, a, w')
       case NamesTooMany(a) =>
         && Answers(w, a) && w.cycle.mode.Round? && NamedStored(w.cycle, a) > ROUND_READINGS_LIMIT
         && w' == w.(cycle := Rereads(w).(named := NamedStored(w.cycle, a)))
       case IsRejected =>
         && w.cycle.Running? && w.cycle.from.At? && !w.cycle.mode.FullRereading?
         && w' == w.(cycle := Rereads(w))
       case Stops => w' == w.(cycle := Idle)
  }

  // ----- the invariant

  /** Whether the folder holds the message is what the service had at some moment since `a`. */
  ghost predicate TrueSince(h: History, held: set<string>, id: string, a: nat) {
    exists m :: a <= m < |h| && (id in held <==> id in h[m])
  }

  /** Every message the reading told is stored as of then or later. */
  ghost predicate SeenStored(h: History, held: set<string>, d: Delta) {
    forall id :: id in d.seen ==> TrueSince(h, held, id, d.seen[id])
  }

  ghost predicate AllTrueSince(h: History, held: set<string>, p: nat) {
    forall id :: TrueSince(h, held, id, p)
  }

  ghost predicate OnlySeenHeld(held: set<string>, d: Delta) {
    forall id :: id in held ==> id in d.seen
  }

  ghost predicate PositionSound(w: World, link: string) {
    link in w.links && w.links[link].Position? && w.links[link].moment < |w.h| && AllTrueSince(w.h, w.held, w.links[link].moment)
  }

  ghost predicate PlaceSound(w: World, link: string) {
    && link in w.links && w.links[link].Place? && w.links[link].delta.first
    && SeenStored(w.h, w.held, w.links[link].delta) && OnlySeenHeld(w.held, w.links[link].delta)
  }

  ghost predicate StateSound(w: World) {
    && (w.state.serverPosition.Some? ==> PositionSound(w, w.state.serverPosition.value))
    && (w.state.fillPlace.Some? ==> w.state.serverPosition.None? && PlaceSound(w, w.state.fillPlace.value))
    && (w.state.synchronized ==> w.state.serverPosition.Some?)
  }

  function Rank(mode: Mode): nat {
    match mode
    case FirstFill(_) => 2
    case Round => 1
    case FullRereading(_) => 0
  }

  /** The position an interrupted round or full reading falls back on. */
  function BaseOf(w: World): nat {
    if w.state.serverPosition.Some? && w.state.serverPosition.value in w.links && w.links[w.state.serverPosition.value].Position?
    then w.links[w.state.serverPosition.value].moment else 0
  }

  ghost predicate FillSound(w: World)
    requires w.cycle.Running? && w.cycle.mode.FirstFill?
  {
    && w.state.serverPosition.None?
    && match w.cycle.from
       case FirstReading => !w.cycle.mode.continued && w.held == {} && w.state.fillPlace.None?
       case At(link) =>
         && w.state.fillPlace == Some(link) && PlaceSound(w, link)
         && (!w.cycle.mode.continued ==> w.cycle.began <= w.links[link].delta.begun)
  }

  ghost predicate RoundSound(w: World)
    requires w.cycle.Running? && w.cycle.mode.Round?
  {
    && w.state.serverPosition.Some? && w.cycle.from.At? && w.cycle.from.link in w.links
    && match w.links[w.cycle.from.link]
       case Position(p) => p == BaseOf(w)
       case Place(d) => !d.first && d.start == BaseOf(w) && w.cycle.began <= d.begun && SeenStored(w.h, w.held, d)
  }

  ghost predicate RereadingSound(w: World)
    requires w.cycle.Running? && w.cycle.mode.FullRereading?
  {
    match w.cycle.from
    case FirstReading => w.cycle.mode.listed == {} && w.held == w.cycle.stored
    case At(link) =>
      && link in w.links && w.links[link].Place?
      && var d := w.links[link].delta;
         && d.first && w.cycle.began <= d.begun && BaseOf(w) <= d.start <= d.begun && SeenStored(w.h, w.held, d)
         && d.seen.Keys == w.cycle.mode.listed
         && (forall id :: id in w.held ==> id in w.cycle.stored || id in d.seen)
  }

  ghost predicate CycleSound(w: World)
    requires w.h != []
  {
    w.cycle.Running? ==>
      && w.cycle.began <= w.cycle.since <= Now(w)
      && w.cycle.roundStart == w.state.serverPosition
      && BaseOf(w) <= w.cycle.since
      && w.cycle.switches + Rank(w.cycle.mode) <= 2
      && match w.cycle.mode
         case FirstFill(_) => FillSound(w)
         case Round => RoundSound(w)
         case FullRereading(_) => RereadingSound(w)
  }

  ghost predicate Inv(w: World) {
    && w.h != [] && StateSound(w) && CycleSound(w)
  }
}
