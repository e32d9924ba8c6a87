/** The sending step at work: the commands go to a server whose other clients act
    before each of them, the user makes wishes while each is answered, and every
    answer is written to the store. */
module Delivery {
  import opened Domain
  import opened Sequences
  import opened ImapServer
  import opened StoreTables
  import opened StoreRuns
  import opened StoreClass
  import opened ImapPass
  import opened ImapCycle
  import opened ImapCycleLaws
  import opened Sending

  /** How a command ended: `Lost` is a connection gone before the answer. */
  datatype End = Ok | Refused | Lost

  /** One command at the server: what other clients did before it, which of its
      messages it reached when it did not end OK, and how it ended. */
  datatype Turn = Turn(others: map<nat, Flags>, gone: set<nat>, reached: set<nat>, end: End)

  predicate Calm(turn: Turn) {
    turn.others == map[] && turn.gone == {} && turn.end.Ok?
  }

  /** No other client acts and no command fails. */
  ghost predicate Alone(turns: nat -> Turn) {
    forall k: nat :: Calm(turns(k))
  }

  function AfterOthers(flags: map<nat, Flags>, turn: Turn): map<nat, Flags> {
    map u | u in flags && u !in turn.gone :: if u in turn.others then turn.others[u] else flags[u]
  }

  function WithStored(flags: map<nat, Flags>, uids: seq<nat>, reached: Option<set<nat>>, flag: Flag, wanted: bool): map<nat, Flags> {
    map u | u in flags ::
      if u in uids && (reached.None? || u in reached.value) then flags[u].With(flag, wanted) else flags[u]
  }

  /** The flags reported for `uids`, in their order; a message that is gone is not reported. */
  function Reported(flags: map<nat, Flags>, uids: seq<nat>, reached: Option<set<nat>>): seq<ListedUid> {
    if uids == [] then []
    else
      var u := uids[|uids| - 1];
      Reported(flags, uids[..|uids| - 1], reached)
      + if u in flags && (reached.None? || u in reached.value) then [ListedUid(u, None, flags[u])] else []
  }

  function UidsOf(messages: seq<ListedMessage>): seq<nat> {
    seq(|messages|, j requires 0 <= j < |messages| => messages[j].uid)
  }

  function ReachOf(turn: Turn): Option<set<nat>> {
    if turn.end.Ok? then None else Some(turn.reached)
  }

  /** What a cycle asks for besides its sending: the rows of some messages, or the folder's state anew. */
  datatype Request = Rows(messages: seq<ListedMessage>) | Reopening

  class Server {
    const turns: nat -> Turn
    var at: nat
    var flags: map<nat, Flags>
    /** The `UID STORE` commands received, with the messages their UIDs name. */
    ghost var received: seq<Command>
    /** The other requests, in their order. */
    ghost var asked: seq<Request>

    constructor (turns: nat -> Turn, flags: map<nat, Flags>)
      ensures this.turns == turns && this.flags == flags && at == 0 && received == [] && asked == []
    {
      this.turns, this.flags, at, received, asked := turns, flags, 0, [], [];
    }

    /** A wait for anything else, in which other clients act. */
    method Wait(ghost request: Request)
      modifies this`at, this`flags, this`asked
      ensures asked == old(asked) + [request]
      ensures at == old(at) + 1 && flags == AfterOthers(old(flags), turns(old(at)))
      ensures Alone(turns) ==> flags == old(flags)
    {
      CalmLeaves(flags, turns(at));
      flags := AfterOthers(flags, turns(at));
      at := at + 1;
      asked := asked + [request];
    }

    /** `UID STORE` of one flag. */
    method StoreFlags(uids: seq<nat>, flag: Flag, wanted: bool, ghost messages: seq<ListedMessage>) returns (end: End)
      requires uids == UidsOf(messages)
      modifies this`at, this`flags, this`received
      ensures received == old(received) + [Command(flag, wanted, messages)]
      ensures at == old(at) + 1 && end == turns(old(at)).end
      ensures flags == WithStored(AfterOthers(old(flags), turns(old(at))), uids, ReachOf(turns(old(at))), flag, wanted)
    {
      var turn := turns(at);
      at := at + 1;
      flags := WithStored(AfterOthers(flags, turn), uids, ReachOf(turn), flag, wanted);
      received := received + [Command(flag, wanted, messages)];
      return turn.end;
    }

    /** `UID FETCH` of the flags; a refused one reports what came before the refusal. */
    method FetchFlags(uids: seq<nat>) returns (reading: seq<ListedUid>, end: End)
      modifies this`at, this`flags
      ensures at == old(at) + 1 && end == turns(old(at)).end
      ensures flags == AfterOthers(old(flags), turns(old(at)))
      ensures reading == Reported(flags, uids, ReachOf(turns(old(at))))
    {
      var turn := turns(at);
      at := at + 1;
      flags := AfterOthers(flags, turn);
      return Reported(flags, uids, ReachOf(turn)), turn.end;
    }
  }

  // ----- the user

  datatype Wish = Wish(message: MessageKey, flag: Flag, wanted: bool)

  function WithWishes(t: Tables, wishes: seq<Wish>): Tables {
    if wishes == [] then t
    else
      var last := wishes[|wishes| - 1];
      WriteWish(WithWishes(t, wishes[..|wishes| - 1]), last.message, last.flag, last.wanted)
  }

  predicate Wished(s: Setting, wishes: seq<Wish>, i: string, flag: Flag) {
    exists w :: w in wishes && w.message == s.Key(i) && w.flag == flag
  }

  /** The wishes made at the user's moments from `a` on, before `b`. */
  function Made(wishes: nat -> seq<Wish>, a: nat, b: nat): seq<Wish>
    requires a <= b
  {
    if a == b then [] else Made(wishes, a, b - 1) + wishes(b - 1)
  }

  lemma {:induction false} MadeSum(wishes: nat -> seq<Wish>, a: nat, b: nat, c: nat)
    requires a <= b <= c
    ensures Made(wishes, a, b) + Made(wishes, b, c) == Made(wishes, a, c)
    decreases c
  {
    if b < c {
      MadeSum(wishes, a, b, c - 1);
    }
  }

  /** The user, who makes wishes whenever the cycle waits. */
  class User {
    const wishes: nat -> seq<Wish>
    var at: nat

    constructor (wishes: nat -> seq<Wish>)
      ensures this.wishes == wishes && at == 0
    {
      this.wishes, at := wishes, 0;
    }

    method Act(store: Store) returns (ghost made: seq<Wish>)
      requires store.Sound()
      modifies this, store
      ensures store.Sound() && at == old(at) + 1 && made == wishes(old(at)) == Made(wishes, old(at), at)
      ensures store.Contents() == WithWishes(old(store.Contents()), made) && store.folders == old(store.folders)
    {
      var now := wishes(at);
      at := at + 1;
      ghost var t := store.Contents();
      for n := 0 to |now|
        invariant store.Sound() && store.Contents() == WithWishes(t, now[..n])
        invariant at == old(at) + 1 && store.folders == old(store.folders)
      {
        store.WritePendingFlag(now[n].message, now[n].flag, now[n].wanted);
        assert now[..n + 1][..n] == now[..n];
      }
      assert now[..|now|] == now;
      assert Made(wishes, old(at), at) == [] + now;
      made := now;
    }
  }

  lemma {:induction false} WishesSum(t: Tables, a: seq<Wish>, b: seq<Wish>)
    ensures WithWishes(WithWishes(t, a), b) == WithWishes(t, a + b)
  {
    if b == [] {
      assert a + b == a;
    } else {
      var n := |b| - 1;
      WishesSum(t, a, b[..n]);
      assert (a + b)[..|a + b| - 1] == a + b[..n];
    }
  }

  /** Wishes change the pending values they are made for, and nothing else. */
  lemma {:induction false} WishesLeave(s: Setting, t: Tables, wishes: seq<Wish>, i: string, flag: Flag)
    ensures !Wished(s, wishes, i, flag) ==> PendingOf(WithWishes(t, wishes), s.Key(i), flag) == PendingOf(t, s.Key(i), flag)
    ensures WithWishes(t, wishes).messages.Keys == t.messages.Keys
    ensures WithWishes(t, wishes).memberships == t.memberships && WithWishes(t, wishes).folders == t.folders
  {
    if wishes != [] {
      var n := |wishes| - 1;
      WishesLeave(s, t, wishes[..n], i, flag);
      assert wishes == wishes[..n] + [wishes[n]];
    }
  }

  lemma WishedSum(s: Setting, a: seq<Wish>, b: seq<Wish>, i: string, flag: Flag)
    ensures Wished(s, a + b, i, flag) <==> Wished(s, a, i, flag) || Wished(s, b, i, flag)
  {
  }

  // ----- one command

  /** Sends one command, reads its messages' flags and writes the answer. Only
      what the reading shows is settled; a refusal drops the command's wishes; a
      lost connection leaves them. */
  method SendCommand(server: Server, store: Store, user: User, s: Setting, c: Command, sent: SentChanges)
    returns (sent': SentChanges, end: End, ghost made: seq<Wish>)
    requires store.Sound()
    modifies server, store, user
    ensures store.Sound() && store.folders == old(store.folders)
    ensures server.received == old(server.received) + [c] && server.asked == old(server.asked)
    ensures old(server.at) < server.at && (!end.Ok? ==> server.turns(server.at - 1).end == end)
    ensures old(user.at) <= user.at && made == Made(user.wishes, old(user.at), user.at)
    ensures end.Refused? ==>
              && sent' == sent
              && store.Contents() == DropRefused(WithWishes(old(store.Contents()), made),
                                                 s.account, IdentitiesOf(c.messages), c.flag, c.wanted)
    ensures end.Lost? ==>
              && store.Contents() == WithWishes(old(store.Contents()), made)
              && sent' in [sent, SentAfter(sent, c.messages, c.flag, c.wanted)]
    ensures end.Ok? ==>
              && sent' == SentAfter(sent, c.messages, c.flag, c.wanted)
              && exists reached :: store.Contents() == Answered(WithWishes(old(store.Contents()), made), s, c, server.flags, reached)
    ensures Alone(server.turns) ==>
              && end.Ok?
              && server.flags == WithStored(old(server.flags), UidsOf(c.messages), None, c.flag, c.wanted)
              && store.Contents() == Answered(WithWishes(old(store.Contents()), made), s, c, server.flags, None)
  {
    ghost var before := store.Contents();
    CalmLeaves(server.flags, server.turns(server.at));
    var stored := server.StoreFlags(UidsOf(c.messages), c.flag, c.wanted, c.messages);
    made := user.Act(store);
    if stored.Refused? {
      store.DropPendingFlags(s.account, IdentitiesOf(c.messages), c.flag, c.wanted);
      return sent, End.Refused, made;
    }
    if stored.Lost? {
      return sent, Lost, made;
    }
    sent' := SentAfter(sent, c.messages, c.flag, c.wanted);
    ghost var more, moment := [], user.at;
    end, more := ReadBack(server, store, user, s, c);
    WishesSum(before, made, more);
    MadeSum(user.wishes, old(user.at), moment, user.at);
    made := made + more;
  }

  /** Reads the flags of a command's messages right after it, and settles those the
      reading shows as wanted; a refused reading shows what came before the refusal. */
  method ReadBack(server: Server, store: Store, user: User, s: Setting, c: Command) returns (end: End, ghost made: seq<Wish>)
    requires store.Sound()
    modifies server, store, user
    ensures store.Sound() && store.folders == old(store.folders) && server.received == old(server.received) && server.asked == old(server.asked)
    ensures old(user.at) <= user.at && made == Made(user.wishes, old(user.at), user.at)
    ensures server.at == old(server.at) + 1 && (end.Lost? <==> server.turns(old(server.at)).end.Lost?)
    ensures end.Ok? || (end.Lost? && store.Contents() == WithWishes(old(store.Contents()), made))
    ensures end.Ok? ==> exists reached :: store.Contents() == Answered(WithWishes(old(store.Contents()), made), s, c, server.flags, reached)
    ensures Alone(server.turns) ==>
              && end.Ok? && server.flags == old(server.flags)
              && store.Contents() == Answered(WithWishes(old(store.Contents()), made), s, c, server.flags, None)
  {
    ghost var turn := server.turns(server.at);
    CalmLeaves(server.flags, turn);
    var reading, read := server.FetchFlags(UidsOf(c.messages));
    made := user.Act(store);
    ghost var t := store.Contents();
    if read.Lost? {
      return Lost, made;
    }
    Confirm(store, s, c, reading);
    assert store.Contents() == Answered(t, s, c, server.flags, ReachOf(turn));
    return Ok, made;
  }

  /** Settles what the reading shows as wanted. */
  method Confirm(store: Store, s: Setting, c: Command, reading: seq<ListedUid>)
    requires store.Sound()
    modifies store
    ensures store.Sound() && store.folders == old(store.folders)
    ensures store.Contents() ==
            Settle(old(store.Contents()), s.account, Confirmed(c.messages, c.flag, c.wanted, reading), c.flag, c.wanted)
  {
    var confirmed := Confirmed(c.messages, c.flag, c.wanted, reading);
    if confirmed != [] {
      store.SettleFlags(s.account, confirmed, c.flag, c.wanted);
    } else {
      NothingToSettle(store.Contents(), s.account, c.flag, c.wanted);
    }
  }

  function Answered(t: Tables, s: Setting, c: Command, flags: map<nat, Flags>, reached: Option<set<nat>>): Tables {
    Settle(t, s.account, Confirmed(c.messages, c.flag, c.wanted, Reported(flags, UidsOf(c.messages), reached)), c.flag, c.wanted)
  }

  lemma CalmLeaves(flags: map<nat, Flags>, turn: Turn)
    ensures Calm(turn) ==> AfterOthers(flags, turn) == flags
  {
  }

  lemma NothingToSettle(t: Tables, account: string, flag: Flag, value: bool)
    ensures Settle(t, account, [], flag, value) == t
  {
    assert Settle(t, account, [], flag, value).messages == t.messages;
  }

  // ----- what an answer proves

  lemma {:induction false} ReportedIs(flags: map<nat, Flags>, uids: seq<nat>, reached: Option<set<nat>>, e: ListedUid)
    ensures e in Reported(flags, uids, reached) <==>
              e.uid in uids && e.uid in flags && (reached.None? || e.uid in reached.value) && e == ListedUid(e.uid, None, flags[e.uid])
  {
    if uids != [] {
      var n := |uids| - 1;
      ReportedIs(flags, uids[..n], reached, e);
      assert uids == uids[..n] + [uids[n]];
    }
  }

  /** A wish is settled only when the server holds that very value. */
  lemma SettledIsHeld(c: Command, flags: map<nat, Flags>, reached: Option<set<nat>>, i: string)
    requires i in Confirmed(c.messages, c.flag, c.wanted, Reported(flags, UidsOf(c.messages), reached))
    ensures exists m :: m in c.messages && m.identity == i && m.uid in flags && flags[m.uid].Of(c.flag) == c.wanted
  {
    var m, e := ConfirmedWasRead(c.messages, c.flag, c.wanted, Reported(flags, UidsOf(c.messages), reached), i);
    ReportedIs(flags, UidsOf(c.messages), reached, e);
  }

  lemma {:induction false} ShownIsConfirmed(command: seq<ListedMessage>, flag: Flag, wanted: bool, reading: seq<ListedUid>, e: ListedUid)
    requires e in reading && e.flags.Of(flag) == wanted && NamedByUid(command, e.uid).Some?
    ensures NamedByUid(command, e.uid).value.identity in Confirmed(command, flag, wanted, reading)
  {
    var n := |reading| - 1;
    assert reading == reading[..n] + [reading[n]];
    if e in reading[..n] {
      ShownIsConfirmed(command, flag, wanted, reading[..n], e);
    }
  }

  /** A whole reading settles every message of the command the server holds as wanted. */
  lemma HeldIsSettled(c: Command, flags: map<nat, Flags>, m: ListedMessage)
    requires m in c.messages && m.uid in flags && flags[m.uid].Of(c.flag) == c.wanted
    requires forall o :: o in c.messages && o.uid == m.uid ==> o == m
    ensures m.identity in Confirmed(c.messages, c.flag, c.wanted, Reported(flags, UidsOf(c.messages), None))
  {
    var j :| 0 <= j < |c.messages| && c.messages[j] == m;
    assert UidsOf(c.messages)[j] == m.uid;
    var e := ListedUid(m.uid, None, flags[m.uid]);
    ReportedIs(flags, UidsOf(c.messages), None, e);
    NamedByUidIs(c.messages, m.uid);
    ShownIsConfirmed(c.messages, c.flag, c.wanted, Reported(flags, UidsOf(c.messages), None), e);
  }

  // ----- a whole sending step

  ghost predicate Logged(log: seq<PendingChange>, identity: string, flag: Flag) {
    exists e :: e in log && e.identity == identity && e.flag == flag
  }

  /** The server, if it still has the message, holds the wanted value. */
  predicate ServerHolds(listed: map<string, ListedMessage>, flags: map<nat, Flags>, e: PendingChange)
    requires e.identity in listed
  {
    listed[e.identity].uid in flags ==> flags[listed[e.identity].uid].Of(e.flag) == e.wanted
  }

  /** The wish ended, and the server, if it still has the message, holds it. */
  predicate Delivered(s: Setting, listed: map<string, ListedMessage>, flags: map<nat, Flags>, t: Tables, e: PendingChange)
    requires e.identity in listed
  {
    && ServerHolds(listed, flags, e)
    && (listed[e.identity].uid in flags ==> PendingOf(t, s.Key(e.identity), e.flag).None?)
  }

  predicate SameFlag(uid: nat, flag: Flag, flags: map<nat, Flags>, flags': map<nat, Flags>) {
    uid in flags && uid in flags' ==> flags'[uid].Of(flag) == flags[uid].Of(flag)
  }

  predicate SamePending(s: Setting, i: string, flag: Flag, t: Tables, t': Tables) {
    PendingOf(t', s.Key(i), flag) == PendingOf(t, s.Key(i), flag)
  }

  /** After the wishes of `log` were sent: the server holds each, and each is settled
      unless the user wished again meanwhile; everything else is untouched. */
  ghost predicate DeliveredLog(s: Setting, listed: map<string, ListedMessage>, log: seq<PendingChange>, made: seq<Wish>,
                               flags: map<nat, Flags>, t: Tables, flags': map<nat, Flags>, t': Tables) {
    && flags'.Keys == flags.Keys
    && (forall e :: e in log ==>
          && e.identity in listed && ServerHolds(listed, flags', e)
          && (!Wished(s, made, e.identity, e.flag) ==> Delivered(s, listed, flags', t', e)))
    && (forall i, flag :: i in listed && !Logged(log, i, flag) ==>
          && SameFlag(listed[i].uid, flag, flags, flags')
          && (!Wished(s, made, i, flag) ==> SamePending(s, i, flag, t, t')))
  }

  /** What one command, sent with nobody else around, does. */
  ghost predicate Sent(s: Setting, c: Command, made: seq<Wish>, flags: map<nat, Flags>, t: Tables, flags': map<nat, Flags>, t': Tables) {
    && flags' == WithStored(flags, UidsOf(c.messages), None, c.flag, c.wanted)
    && t' == Answered(WithWishes(t, made), s, c, flags', None)
  }

  ghost predicate OfListing(listed: map<string, ListedMessage>, c: Command) {
    forall m :: m in c.messages ==> m.identity in listed && listed[m.identity] == m
  }

  /** A command of a planned step, sent with nobody else around, delivers its wishes. */
  lemma CommandDelivers(s: Setting, listed: map<string, ListedMessage>, log: seq<PendingChange>, c: Command,
                        made: seq<Wish>, more: seq<Wish>, flags: map<nat, Flags>, t: Tables,
                        flags1: map<nat, Flags>, t1: Tables, flags2: map<nat, Flags>, t2: Tables)
    requires WellListed(listed) && DeliveredLog(s, listed, log, made, flags, t, flags1, t1)
    requires Distinct(log + Entries(c.flag, c.wanted, c.messages)) && OfListing(listed, c)
    requires forall m :: m in c.messages ==> PendingOf(t, s.Key(m.identity), c.flag) == Some(c.wanted)
    requires Sent(s, c, more, flags1, t1, flags2, t2)
    ensures DeliveredLog(s, listed, log + Entries(c.flag, c.wanted, c.messages), made + more, flags, t, flags2, t2)
  {
    var entries := Entries(c.flag, c.wanted, c.messages);
    NotLoggedTwice(log, entries);
    forall e | e in log + entries
      ensures e.identity in listed && ServerHolds(listed, flags2, e)
      ensures !Wished(s, made + more, e.identity, e.flag) ==> Delivered(s, listed, flags2, t2, e)
    {
      WishedSum(s, made, more, e.identity, e.flag);
      if e in entries {
        EntryDelivered(s, listed, log, c, made, more, flags, t, flags1, t1, flags2, t2, e);
      } else {
        assert e in log;
        EntryLeftAlone(s, listed, c, more, flags1, t1, flags2, t2, e);
      }
    }
    forall i, flag | i in listed && !Logged(log + entries, i, flag)
      ensures SameFlag(listed[i].uid, flag, flags, flags2)
      ensures !Wished(s, made + more, i, flag) ==> SamePending(s, i, flag, t, t2)
    {
      WishedSum(s, made, more, i, flag);
      LoggedSum(log, entries, i, flag);
      OthersLeftAlone(s, listed, c, more, flags1, t1, flags2, t2, i, flag);
    }
  }

  lemma LoggedSum(log: seq<PendingChange>, more: seq<PendingChange>, i: string, flag: Flag)
    ensures Logged(log + more, i, flag) <==> Logged(log, i, flag) || Logged(more, i, flag)
  {
    assert forall e :: e in log + more <==> e in log || e in more;
  }

  /** A command and the wishes made meanwhile change nothing but its own flag of
      its own messages and the values wished for. */
  lemma OthersLeftAlone(s: Setting, listed: map<string, ListedMessage>, c: Command, more: seq<Wish>,
                        flags1: map<nat, Flags>, t1: Tables, flags2: map<nat, Flags>, t2: Tables, i: string, flag: Flag)
    requires WellListed(listed) && i in listed && !Logged(Entries(c.flag, c.wanted, c.messages), i, flag)
    requires OfListing(listed, c) && Sent(s, c, more, flags1, t1, flags2, t2)
    ensures SameFlag(listed[i].uid, flag, flags1, flags2)
    ensures !Wished(s, more, i, flag) ==> SamePending(s, i, flag, t1, t2)
  {
    WishesLeave(s, t1, more, i, flag);
    if flag == c.flag {
      forall m | m in c.messages
        ensures m.identity != i && m.uid != listed[i].uid
      {
        var j :| 0 <= j < |c.messages| && c.messages[j] == m;
        assert Entries(c.flag, c.wanted, c.messages)[j].identity == m.identity;
      }
      if i in Confirmed(c.messages, c.flag, c.wanted, Reported(flags2, UidsOf(c.messages), None)) {
        SettledIsHeld(c, flags2, None, i);
      }
    }
  }

  /** No message's flag is in both parts of a distinct log. */
  lemma NotLoggedTwice(log: seq<PendingChange>, more: seq<PendingChange>)
    requires Distinct(log + more)
    ensures forall e :: e in log ==> !Logged(more, e.identity, e.flag)
    ensures forall e :: e in more ==> !Logged(log, e.identity, e.flag)
  {
    forall e, o | e in log && o in more
      ensures !SameKey(e, o)
    {
      var i :| 0 <= i < |log| && log[i] == e;
      var j :| 0 <= j < |more| && more[j] == o;
      assert !SameKey((log + more)[i], (log + more)[|log| + j]);
    }
  }

  /** A wish sent before stays delivered, unless it is wished again. */
  lemma EntryLeftAlone(s: Setting, listed: map<string, ListedMessage>, c: Command, more: seq<Wish>,
                       flags1: map<nat, Flags>, t1: Tables, flags2: map<nat, Flags>, t2: Tables, e: PendingChange)
    requires WellListed(listed) && e.identity in listed && ServerHolds(listed, flags1, e)
    requires !Logged(Entries(c.flag, c.wanted, c.messages), e.identity, e.flag)
    requires OfListing(listed, c) && Sent(s, c, more, flags1, t1, flags2, t2)
    ensures ServerHolds(listed, flags2, e)
    ensures Delivered(s, listed, flags1, t1, e) && !Wished(s, more, e.identity, e.flag) ==> Delivered(s, listed, flags2, t2, e)
  {
    OthersLeftAlone(s, listed, c, more, flags1, t1, flags2, t2, e.identity, e.flag);
  }

  lemma EntryDelivered(s: Setting, listed: map<string, ListedMessage>, log: seq<PendingChange>, c: Command,
                       made: seq<Wish>, more: seq<Wish>, flags: map<nat, Flags>, t: Tables,
                       flags1: map<nat, Flags>, t1: Tables, flags2: map<nat, Flags>, t2: Tables, e: PendingChange)
    requires WellListed(listed) && DeliveredLog(s, listed, log, made, flags, t, flags1, t1)
    requires e in Entries(c.flag, c.wanted, c.messages) && !Logged(log, e.identity, e.flag)
    requires OfListing(listed, c)
    requires forall m :: m in c.messages ==> PendingOf(t, s.Key(m.identity), c.flag) == Some(c.wanted)
    requires Sent(s, c, more, flags1, t1, flags2, t2)
    ensures e.identity in listed && ServerHolds(listed, flags2, e)
    ensures !Wished(s, made, e.identity, e.flag) && !Wished(s, more, e.identity, e.flag) ==> Delivered(s, listed, flags2, t2, e)
  {
    var j :| 0 <= j < |c.messages| && Entries(c.flag, c.wanted, c.messages)[j] == e;
    var m := c.messages[j];
    if m.uid in flags2 {
      assert UidsOf(c.messages)[j] == m.uid;
      HeldIsSettled(c, flags2, m);
      if !Wished(s, made, e.identity, e.flag) && !Wished(s, more, e.identity, e.flag) {
        assert SamePending(s, e.identity, e.flag, t, t1);
        WishesLeave(s, t1, more, e.identity, e.flag);
      }
    }
  }

  lemma OneMoreWish(s: Setting, t: Tables, pending: seq<PendingChange>, e: PendingChange)
    requires Distinct(pending) && e !in pending && e in PendingChanges(s, t)
    requires forall o :: o in pending ==> o in PendingChanges(s, t)
    ensures Distinct(pending + [e])
  {
    forall o | o in pending
      ensures !SameKey(o, e)
    {
      assert PendingOf(t, s.Key(e.identity), e.flag) == Some(e.wanted);
      assert PendingOf(t, s.Key(o.identity), o.flag) == Some(o.wanted);
    }
  }

  /** The folder's pending changes, in some order. */
  method ReadPending(store: Store, s: Setting) returns (pending: seq<PendingChange>)
    ensures Distinct(pending)
    ensures forall e :: e in pending <==> e in PendingChanges(s, store.Contents())
  {
    pending := [];
    var all := PendingChanges(s, Tables(store.folders, store.messages, store.memberships));
    var left := all;
    while left != {}
      invariant left <= all && Distinct(pending)
      invariant forall e :: e in pending <==> e in all - left
    {
      var e :| e in left;
      OneMoreWish(s, store.Contents(), pending, e);
      pending := pending + [e];
      left := left - {e};
    }
  }

  /** The entries of a planned command are wishes the step read. */
  lemma PlannedIsPending(pending: seq<PendingChange>, listed: map<string, ListedMessage>, sent: SentChanges,
                         commands: seq<Command>, n: nat, s: Setting, t: Tables)
    requires WellListed(listed) && Distinct(pending) && commands == PlannedCommands(pending, listed, sent) && n < |commands|
    requires forall e :: e in pending <==> e in PendingChanges(s, t)
    ensures forall m :: m in commands[n].messages ==>
              && m.identity in listed && listed[m.identity] == m
              && PendingOf(t, s.Key(m.identity), commands[n].flag) == Some(commands[n].wanted)
  {
    PlannedAreListed(pending, listed, sent);
    PlanIsDistinct(pending, listed, sent);
    LogOfOneMore(commands, n);
    LogOfFirst(commands, n + 1);
    var c := commands[n];
    forall m | m in c.messages
      ensures m.identity in listed && listed[m.identity] == m && PendingOf(t, s.Key(m.identity), c.flag) == Some(c.wanted)
    {
      assert AreListed(c.messages, listed);
      var j :| 0 <= j < |c.messages| && c.messages[j] == m;
      var e := Entries(c.flag, c.wanted, c.messages)[j];
      assert e in LogOf(commands[..n + 1]);
      assert e in LogOf(commands);
    }
  }

  lemma NextIsTracked(pending: seq<PendingChange>, listed: map<string, ListedMessage>, sent: SentChanges,
                      log: seq<PendingChange>, commands: seq<Command>, n: nat, before: SentChanges)
    requires WellListed(listed) && Distinct(pending) && commands == PlannedCommands(pending, listed, sent) && n < |commands|
    requires Tracks(sent, log) && NeverTwice(log) && Tracks(before, log + LogOf(commands[..n]))
    ensures NeverTwice(log + LogOf(commands[..n + 1]))
    ensures Tracks(SentAfter(before, commands[n].messages, commands[n].flag, commands[n].wanted), log + LogOf(commands[..n + 1]))
  {
    hide NeverTwice, Tracks, Distinct, WellListed, PlannedCommands, LogOf;
    var c := commands[n];
    StepNeverTwice(pending, listed, sent, log, commands, n + 1);
    LogOfOneMore(commands, n);
    CommandTracks(before, log + LogOf(commands[..n]), c);
    assert log + LogOf(commands[..n + 1]) == log + LogOf(commands[..n]) + Entries(c.flag, c.wanted, c.messages);
  }

  lemma NextDelivers(pending: seq<PendingChange>, listed: map<string, ListedMessage>, sent: SentChanges,
                     commands: seq<Command>, n: nat, s: Setting, made: seq<Wish>, more: seq<Wish>,
                     flags: map<nat, Flags>, t: Tables, flags1: map<nat, Flags>, t1: Tables, flags2: map<nat, Flags>, t2: Tables)
    requires WellListed(listed) && Distinct(pending) && commands == PlannedCommands(pending, listed, sent) && n < |commands|
    requires forall e :: e in pending <==> e in PendingChanges(s, t)
    requires DeliveredLog(s, listed, LogOf(commands[..n]), made, flags, t, flags1, t1)
    requires Sent(s, commands[n], more, flags1, t1, flags2, t2)
    ensures DeliveredLog(s, listed, LogOf(commands[..n + 1]), made + more, flags, t, flags2, t2)
  {
    PlannedIsPending(pending, listed, sent, commands, n, s, t);
    PlanIsDistinct(pending, listed, sent);
    LogOfOneMore(commands, n);
    LogOfFirst(commands, n + 1);
    CommandDelivers(s, listed, LogOf(commands[..n]), commands[n], made, more, flags, t, flags1, t1, flags2, t2);
  }

  lemma NothingSent(s: Setting, listed: map<string, ListedMessage>, commands: seq<Command>, log: seq<PendingChange>,
                    flags: map<nat, Flags>, t: Tables)
    ensures commands[..0] == [] && log + LogOf([]) == log
    ensures DeliveredLog(s, listed, LogOf([]), [], flags, t, flags, t)
  {
  }

  /** Sends the planned commands, in their order. */
  method SendPlanned(server: Server, store: Store, user: User, s: Setting, listed: map<string, ListedMessage>,
                     ghost pending: seq<PendingChange>, commands: seq<Command>, sent: SentChanges, ghost log: seq<PendingChange>)
    returns (sent': SentChanges, end: End, ghost n: nat, ghost made: seq<Wish>)
    requires store.Sound() && WellListed(listed) && Distinct(pending) && commands == PlannedCommands(pending, listed, sent)
    requires forall e :: e in pending <==> e in PendingChanges(s, store.Contents())
    requires Tracks(sent, log) && NeverTwice(log)
    modifies server, store, user
    ensures store.Sound() && store.folders == old(store.folders)
    ensures n <= |commands| && server.received == old(server.received) + commands[..n] && server.asked == old(server.asked)
    ensures old(user.at) <= user.at && made == Made(user.wishes, old(user.at), user.at)
    ensures NeverTwice(log + LogOf(commands[..n]))
    ensures end.Ok? ==> n == |commands| && Tracks(sent', log + LogOf(commands))
    ensures old(server.at) <= server.at
    ensures !end.Ok? ==> old(server.at) < server.at && server.turns(server.at - 1).end == end
    ensures Alone(server.turns) ==>
              end.Ok? && DeliveredLog(s, listed, LogOf(commands), made, old(server.flags), old(store.Contents()), server.flags, store.Contents())
  {
    hide DeliveredLog, NeverTwice, Tracks, WellListed, Distinct, PlannedCommands, PendingChanges, LogOf, WithWishes, WithStored;
    ghost var t, flags := store.Contents(), server.flags;
    sent', end, n, made := sent, Ok, 0, [];
    NothingSent(s, listed, commands, log, flags, t);
    for k := 0 to |commands|
      invariant store.Sound() && end.Ok? && store.folders == old(store.folders)
      invariant old(server.at) <= server.at
      invariant n == k && server.received == old(server.received) + commands[..k] && server.asked == old(server.asked)
      invariant old(user.at) <= user.at && made == Made(user.wishes, old(user.at), user.at)
      invariant NeverTwice(log + LogOf(commands[..k])) && Tracks(sent', log + LogOf(commands[..k]))
      invariant Alone(server.turns) ==>
                  DeliveredLog(s, listed, LogOf(commands[..k]), made, flags, t, server.flags, store.Contents())
    {
      ghost var flags1, t1 := server.flags, store.Contents();
      NextIsTracked(pending, listed, sent, log, commands, k, sent');
      ghost var more, moment := [], user.at;
      sent', end, more := SendCommand(server, store, user, s, commands[k], sent');
      n := k + 1;
      OneMore(old(server.received), commands, k);
      MadeSum(user.wishes, old(user.at), moment, user.at);
      if !end.Ok? {
        made := made + more;
        return;
      }
      if Alone(server.turns) {
        NextDelivers(pending, listed, sent, commands, k, s, made, more, flags, t, flags1, t1, server.flags, store.Contents());
      }
      made := made + more;
    }
    assert commands[..|commands|] == commands;
  }

  /** Sends the folder's pending changes. `log` is what the cycle sent before, and
      grows by what this step sends; `made` are the wishes the user makes meanwhile. */
  method SendImapChanges(server: Server, store: Store, user: User, s: Setting, listed: map<string, ListedMessage>, sent: SentChanges,
                         ghost log: seq<PendingChange>)
    returns (sent': SentChanges, end: End, ghost log': seq<PendingChange>, ghost made: seq<Wish>)
    requires store.Sound() && WellListed(listed)
    requires Tracks(sent, log) && NeverTwice(log)
    modifies server, store, user
    ensures store.Sound() && store.folders == old(store.folders)
    ensures NeverTwice(log') && log <= log' && server.asked == old(server.asked)
    ensures old(server.received) <= server.received && log' == log + LogOf(server.received[|old(server.received)|..])
    ensures old(user.at) <= user.at && made == Made(user.wishes, old(user.at), user.at)
    ensures end.Ok? ==> Tracks(sent', log')
    ensures old(server.at) <= server.at
    ensures !end.Ok? ==> old(server.at) < server.at && server.turns(server.at - 1).end == end
    ensures end.Ok? ==> forall e :: e in log'[|log|..] <==>
              e in PendingChanges(s, old(store.Contents())) && ToSend(e, listed, sent)
    ensures Alone(server.turns) ==>
              && end.Ok?
              && DeliveredLog(s, listed, log'[|log|..], made, old(server.flags), old(store.Contents()), server.flags, store.Contents())
  {
    hide *;
    ghost var t := store.Contents();
    var pending := ReadPending(store, s);
    var commands := PlanCommands(pending, listed, sent);
    ghost var n;
    sent', end, n, made := SendPlanned(server, store, user, s, listed, pending, commands, sent, log);
    log' := log + LogOf(commands[..n]);
    assert log'[|log|..] == LogOf(commands[..n]) && server.received[|old(server.received)|..] == commands[..n];
    if end.Ok? {
      assert commands[..n] == commands;
      PlanIsDistinct(pending, listed, sent);
    }
  }

  // ----- the start of a cycle

  /** The identities whose wish for this flag and value the listing shows, in the order read. */
  function ShownFor(pending: seq<PendingChange>, listed: map<string, ListedMessage>, flag: Flag, value: bool): seq<string> {
    if pending == [] then []
    else
      var last := pending[|pending| - 1];
      ShownFor(pending[..|pending| - 1], listed, flag, value)
      + if last.flag == flag && last.wanted == value && ListingShows(last, listed) then [last.identity] else []
  }

  predicate ListingShows(change: PendingChange, listed: map<string, ListedMessage>) {
    change.identity in listed && listed[change.identity].flags.Of(change.flag) == change.wanted
  }

  function AfterShown(t: Tables, s: Setting, pending: seq<PendingChange>, listed: map<string, ListedMessage>): Tables {
    var t1 := Settle(t, s.account, ShownFor(pending, listed, Seen, false), Seen, false);
    var t2 := Settle(t1, s.account, ShownFor(pending, listed, Seen, true), Seen, true);
    var t3 := Settle(t2, s.account, ShownFor(pending, listed, Flagged, false), Flagged, false);
    Settle(t3, s.account, ShownFor(pending, listed, Flagged, true), Flagged, true)
  }

  function IdentitiesAt(shown: map<(Flag, bool), seq<string>>, flag: Flag, value: bool): seq<string> {
    if (flag, value) in shown then shown[(flag, value)] else []
  }

  ghost predicate ShownAre(shown: map<(Flag, bool), seq<string>>, pending: seq<PendingChange>, listed: map<string, ListedMessage>) {
    forall flag, value :: IdentitiesAt(shown, flag, value) == ShownFor(pending, listed, flag, value)
  }

  lemma ShownGrow(shown: map<(Flag, bool), seq<string>>, pending: seq<PendingChange>, change: PendingChange,
                  listed: map<string, ListedMessage>)
    requires ShownAre(shown, pending, listed)
    ensures
      var more := shown[(change.flag, change.wanted) := IdentitiesAt(shown, change.flag, change.wanted) + [change.identity]];
      ShownAre(if ListingShows(change, listed) then more else shown, pending + [change], listed)
  {
    var more := shown[(change.flag, change.wanted) := IdentitiesAt(shown, change.flag, change.wanted) + [change.identity]];
    var after := if ListingShows(change, listed) then more else shown;
    forall flag, value
      ensures IdentitiesAt(after, flag, value) == ShownFor(pending + [change], listed, flag, value)
    {
      assert (pending + [change])[..|pending|] == pending;
      assert IdentitiesAt(shown, flag, value) == ShownFor(pending, listed, flag, value);
    }
  }

  method GroupShown(pending: seq<PendingChange>, listed: map<string, ListedMessage>)
    returns (shown: map<(Flag, bool), seq<string>>)
    ensures ShownAre(shown, pending, listed)
  {
    shown := map[];
    for i := 0 to |pending|
      invariant ShownAre(shown, pending[..i], listed)
    {
      var change := pending[i];
      ShownGrow(shown, pending[..i], change, listed);
      assert pending[..i + 1] == pending[..i] + [change];
      if change.identity in listed && listed[change.identity].flags.Of(change.flag) == change.wanted {
        var earlier := IdentitiesAt(shown, change.flag, change.wanted);
        shown := shown[(change.flag, change.wanted) := earlier + [change.identity]];
      }
    }
    assert pending[..|pending|] == pending;
  }

  /** Ends, without a command, the wishes whose value the listing shows. */
  method EndChangesTheListingShows(store: Store, s: Setting, listed: map<string, ListedMessage>, pending: seq<PendingChange>)
    requires store.Sound()
    modifies store
    ensures store.Sound()
    ensures store.Contents() == AfterShown(old(store.Contents()), s, pending, listed)
  {
    var shown := GroupShown(pending, listed);
    store.SettleFlags(s.account, IdentitiesAt(shown, Seen, false), Seen, false);
    store.SettleFlags(s.account, IdentitiesAt(shown, Seen, true), Seen, true);
    store.SettleFlags(s.account, IdentitiesAt(shown, Flagged, false), Flagged, false);
    store.SettleFlags(s.account, IdentitiesAt(shown, Flagged, true), Flagged, true);
  }

  lemma {:induction false} ShownForIs(pending: seq<PendingChange>, listed: map<string, ListedMessage>, flag: Flag, value: bool, i: string)
    ensures i in ShownFor(pending, listed, flag, value) <==>
              PendingChange(i, flag, value) in pending && ListingShows(PendingChange(i, flag, value), listed)
  {
    if pending != [] {
      var n := |pending| - 1;
      ShownForIs(pending[..n], listed, flag, value, i);
      assert pending == pending[..n] + [pending[n]];
      assert pending[n] == PendingChange(pending[n].identity, pending[n].flag, pending[n].wanted);
    }
  }

  lemma IsPendingChange(s: Setting, t: Tables, e: PendingChange)
    ensures e in PendingChanges(s, t) <==>
              e.identity in Held(t, s.Folder()).Keys && PendingOf(t, s.Key(e.identity), e.flag) == Some(e.wanted)
  {
    if e.identity in Held(t, s.Folder()).Keys && PendingOf(t, s.Key(e.identity), e.flag) == Some(e.wanted) {
      assert e.flag in {Seen, Flagged};
      assert e == PendingChange(e.identity, e.flag, PendingOf(t, s.Key(e.identity), e.flag).value);
    }
  }

  lemma SettleOnPending(s: Setting, t: Tables, identities: seq<string>, flag: Flag, value: bool, i: string, f: Flag)
    ensures
      var t' := Settle(t, s.account, identities, flag, value);
      && (i in Held(t', s.Folder()).Keys <==> i in Held(t, s.Folder()).Keys)
      && PendingOf(t', s.Key(i), f) ==
         if i in identities && f == flag && PendingOf(t, s.Key(i), f) == Some(value) then None else PendingOf(t, s.Key(i), f)
  {
  }

  /** Of the pending values, exactly those end that were read before the listing
      and that the listing shows; one wished anew meanwhile stays. */
  lemma ShownEnd(t: Tables, s: Setting, pending: seq<PendingChange>, listed: map<string, ListedMessage>, i: string, flag: Flag)
    ensures
      var before := PendingOf(t, s.Key(i), flag);
      PendingOf(AfterShown(t, s, pending, listed), s.Key(i), flag) ==
      if before.Some? && PendingChange(i, flag, before.value) in pending
         && ListingShows(PendingChange(i, flag, before.value), listed) then None else before
    ensures i in Held(AfterShown(t, s, pending, listed), s.Folder()).Keys <==> i in Held(t, s.Folder()).Keys
  {
    var f0, f1 := ShownFor(pending, listed, Seen, false), ShownFor(pending, listed, Seen, true);
    var f2, f3 := ShownFor(pending, listed, Flagged, false), ShownFor(pending, listed, Flagged, true);
    var t1 := Settle(t, s.account, f0, Seen, false);
    var t2 := Settle(t1, s.account, f1, Seen, true);
    var t3 := Settle(t2, s.account, f2, Flagged, false);
    SettleOnPending(s, t, f0, Seen, false, i, flag);
    SettleOnPending(s, t1, f1, Seen, true, i, flag);
    SettleOnPending(s, t2, f2, Flagged, false, i, flag);
    SettleOnPending(s, t3, f3, Flagged, true, i, flag);
    ShownForIs(pending, listed, flag, false, i);
    ShownForIs(pending, listed, flag, true, i);
  }

  // ----- Microsoft 365

  /** What the service answers to one change. */
  datatype GraphAnswer = Accepted | Status(code: nat) | NoConnection

  /** A 4xx answer other than the token's 401 refuses the change itself; any other
      failure leaves its outcome unknown. */
  predicate RefusesTheChange(answer: GraphAnswer) {
    answer.Status? && 400 <= answer.code < 500 && answer.code != 401
  }

  /** The tables after the service accepted the changes, in their order, with the
      wishes the user made while each was answered. */
  function AcceptedAll(t: Tables, s: Setting, changes: seq<PendingChange>, made: seq<seq<Wish>>): Tables
    requires |made| == |changes|
  {
    if changes == [] then t
    else
      var n := |changes| - 1;
      var before := WithWishes(AcceptedAll(t, s, changes[..n], made[..n]), made[n]);
      Settle(before, s.account, [changes[n].identity], changes[n].flag, changes[n].wanted)
  }

  predicate WishedInAny(s: Setting, made: seq<seq<Wish>>, i: string, flag: Flag) {
    exists j :: 0 <= j < |made| && Wished(s, made[j], i, flag)
  }

  /** Accepted changes end, and no other, where the user does not wish again. */
  lemma {:induction false} AcceptedEnd(t: Tables, s: Setting, changes: seq<PendingChange>, made: seq<seq<Wish>>, i: string, flag: Flag)
    requires |made| == |changes| && !WishedInAny(s, made, i, flag)
    requires forall e :: e in changes ==> PendingOf(t, s.Key(e.identity), e.flag) == Some(e.wanted)
    ensures PendingOf(AcceptedAll(t, s, changes, made), s.Key(i), flag) ==
            if Logged(changes, i, flag) then None else PendingOf(t, s.Key(i), flag)
  {
    if changes != [] {
      var n := |changes| - 1;
      var last, before := changes[n], AcceptedAll(t, s, changes[..n], made[..n]);
      assert forall j :: 0 <= j < n ==> made[..n][j] == made[j];
      AcceptedEnd(t, s, changes[..n], made[..n], i, flag);
      assert !Wished(s, made[n], i, flag);
      WishesLeave(s, before, made[n], i, flag);
      SettleOnPending(s, WithWishes(before, made[n]), [last.identity], last.flag, last.wanted, i, flag);
      LoggedOneMore(changes, i, flag);
      assert last in changes;
    }
  }

  lemma LoggedOneMore(changes: seq<PendingChange>, i: string, flag: Flag)
    requires changes != []
    ensures Logged(changes, i, flag) <==>
            || Logged(changes[..|changes| - 1], i, flag)
            || (changes[|changes| - 1].identity == i && changes[|changes| - 1].flag == flag)
  {
    assert changes == changes[..|changes| - 1] + [changes[|changes| - 1]];
  }

  ghost predicate AllAccepted(answers: nat -> GraphAnswer, n: nat) {
    forall k :: 0 <= k < n ==> answers(k).Accepted?
  }

  /** The wishes are those the user made at its moments from `a` on. */
  ghost predicate ActsAre(made: seq<seq<Wish>>, wishes: nat -> seq<Wish>, a: nat) {
    forall k :: 0 <= k < |made| ==> made[k] == wishes(a + k)
  }

  lemma ActsGrow(made: seq<seq<Wish>>, wishes: nat -> seq<Wish>, a: nat, more: seq<Wish>)
    requires ActsAre(made, wishes, a) && more == wishes(a + |made|)
    ensures ActsAre(made + [more], wishes, a) && (made + [more])[..|made|] == made
  {
  }

  lemma NoneYet(answers: nat -> GraphAnswer, wishes: nat -> seq<Wish>, a: nat)
    ensures AllAccepted(answers, 0) && ActsAre([], wishes, a)
  {
  }

  lemma AllAcceptedMore(answers: nat -> GraphAnswer, n: nat)
    requires AllAccepted(answers, n) && answers(n).Accepted?
    ensures AllAccepted(answers, n + 1)
  {
  }

  lemma AcceptedMore(t: Tables, s: Setting, changes: seq<PendingChange>, n: nat, made: seq<seq<Wish>>, more: seq<Wish>)
    requires n < |changes| && |made| == n
    ensures AcceptedAll(t, s, changes[..n + 1], made + [more])
         == Settle(WithWishes(AcceptedAll(t, s, changes[..n], made), more),
                   s.account, [changes[n].identity], changes[n].flag, changes[n].wanted)
    ensures (made + [more])[..n] == made
  {
    assert changes[..n + 1][..n] == changes[..n];
  }

  /** Sends every pending change of the folder, one request each: those accepted
      end, the first one refused is dropped, and those after a failure stay. */
  method SendGraphChanges(store: Store, user: User, s: Setting, answers: nat -> GraphAnswer)
    returns (end: End, ghost changes: seq<PendingChange>, ghost accepted: nat, ghost made: seq<seq<Wish>>)
    requires store.Sound()
    modifies store, user
    ensures store.Sound()
    ensures Distinct(changes) && forall e :: e in changes <==> e in PendingChanges(s, old(store.Contents()))
    ensures accepted <= |changes| && AllAccepted(answers, accepted)
    ensures |made| == if end.Ok? then accepted else accepted + 1
    ensures ActsAre(made, user.wishes, old(user.at))
    ensures end.Ok? ==> accepted == |changes| && store.Contents() == AcceptedAll(old(store.Contents()), s, changes, made)
    ensures !end.Ok? ==> accepted < |changes| && !answers(accepted).Accepted?
    ensures !end.Ok? ==>
              (end.Refused? <==> answers(accepted).Status? && 400 <= answers(accepted).code <= 499 && answers(accepted).code != 401)
    ensures !end.Ok? ==>
              store.Contents() == AfterFailure(AcceptedAll(old(store.Contents()), s, changes[..accepted], made[..accepted]), s,
                                               changes[accepted], made[accepted], end.Refused?)
  {
    hide PendingChanges, WithWishes, Settle, AllAccepted, ActsAre;
    ghost var t := store.Contents();
    var pending := ReadPending(store, s);
    changes, accepted, end, made := pending, 0, Ok, [];
    NoneYet(answers, user.wishes, user.at);
    for n := 0 to |pending|
      invariant store.Sound() && end.Ok? && changes == pending && accepted == n && |made| == n
      invariant user.at == old(user.at) + n && ActsAre(made, user.wishes, old(user.at))
      invariant AllAccepted(answers, n)
      invariant store.Contents() == AcceptedAll(t, s, pending[..n], made)
    {
      var change := pending[n];
      var answer := answers(n);
      ghost var meanwhile := user.Act(store);
      ActsGrow(made, user.wishes, old(user.at), meanwhile);
      AcceptedMore(t, s, pending, n, made, meanwhile);
      made := made + [meanwhile];
      if answer.Accepted? {
        store.SettleFlags(s.account, [change.identity], change.flag, change.wanted);
        AllAcceptedMore(answers, n);
        accepted := n + 1;
      } else if RefusesTheChange(answer) {
        store.DropPendingFlags(s.account, [change.identity], change.flag, change.wanted);
        end := End.Refused;
        return;
      } else {
        end := Lost;
        return;
      }
    }
    assert pending[..|pending|] == pending;
  }

  /** Of the first changes, exactly those accepted end. */
  lemma AcceptedWishEnds(t: Tables, s: Setting, changes: seq<PendingChange>, accepted: nat, made: seq<seq<Wish>>, e: PendingChange)
    requires Distinct(changes) && forall o :: o in changes <==> o in PendingChanges(s, t)
    requires accepted <= |changes| && |made| == accepted
    requires e in changes && !WishedInAny(s, made, e.identity, e.flag)
    ensures PendingOf(AcceptedAll(t, s, changes[..accepted], made), s.Key(e.identity), e.flag) ==
            if e in changes[..accepted] then None else Some(e.wanted)
  {
    var first := changes[..accepted];
    forall o | o in changes
      ensures PendingOf(t, s.Key(o.identity), o.flag) == Some(o.wanted)
    {
      IsPendingChange(s, t, o);
    }
    assert forall o :: o in first ==> o in changes;
    AcceptedEnd(t, s, first, made, e.identity, e.flag);
    if o :| o in first && o.identity == e.identity && o.flag == e.flag {
      OneOfAKey(changes, o, e);
    }
  }

  /** The tables a sending ends in: with the change refused that the answer refused,
      or the wishes made until the connection was lost. */
  function AfterFailure(before: Tables, s: Setting, change: PendingChange, meanwhile: seq<Wish>, refused: bool): Tables {
    var wished := WithWishes(before, meanwhile);
    if refused then DropRefused(wished, s.account, [change.identity], change.flag, change.wanted) else wished
  }

  lemma FailureEnds(before: Tables, s: Setting, change: PendingChange, meanwhile: seq<Wish>, refused: bool, i: string, flag: Flag)
    requires !Wished(s, meanwhile, i, flag)
    ensures PendingOf(AfterFailure(before, s, change, meanwhile, refused), s.Key(i), flag) ==
            if refused && change == PendingChange(i, flag, change.wanted) && PendingOf(before, s.Key(i), flag) == Some(change.wanted)
            then None else PendingOf(before, s.Key(i), flag)
  {
    WishesLeave(s, before, meanwhile, i, flag);
  }

  /** A wish on a Microsoft 365 message ends exactly when the service accepted or
      refused that very change: the first `accepted` were accepted, and the next one
      was refused or lost. */
  lemma GraphWishEnds(t: Tables, s: Setting, changes: seq<PendingChange>, accepted: nat, made: seq<seq<Wish>>,
                      meanwhile: seq<Wish>, refused: bool, e: PendingChange)
    requires Distinct(changes) && forall o :: o in changes <==> o in PendingChanges(s, t)
    requires accepted < |changes| && |made| == accepted
    requires e in changes && !WishedInAny(s, made, e.identity, e.flag) && !Wished(s, meanwhile, e.identity, e.flag)
    ensures
      var before := AcceptedAll(t, s, changes[..accepted], made);
      PendingOf(AfterFailure(before, s, changes[accepted], meanwhile, refused), s.Key(e.identity), e.flag) ==
      if e in changes[..accepted] || (refused && e == changes[accepted]) then None else Some(e.wanted)
  {
    var before := AcceptedAll(t, s, changes[..accepted], made);
    AcceptedWishEnds(t, s, changes, accepted, made, e);
    FailureEnds(before, s, changes[accepted], meanwhile, refused, e.identity, e.flag);
    if changes[accepted].identity == e.identity && changes[accepted].flag == e.flag {
      OneOfAKey(changes, changes[accepted], e);
    }
  }
}
