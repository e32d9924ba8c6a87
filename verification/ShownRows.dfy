/** The window's reads of the selected mailbox's rows: numbered, one at a time for
    what is shown, with one more after a change that came during a read. */
module ShownRows {
  import opened Domain
  import opened StoreTables

  datatype Stored = NotRead | Reading(again: bool) | Read(rows: Option<seq<string>>) | ReadFailed

  datatype Answer = Found(rows: Option<seq<string>>) | Unreadable

  /** The selected mailbox's stored rows as the window last read them. */
  class ShownMailbox {
    var folder: Option<FolderKey>
    var latestRead: nat
    var stored: Stored
    var rereading: bool
    var readDue: bool

    constructor ()
      ensures folder.None? && latestRead == 0 && stored.NotRead? && !rereading && !readDue
    {
      folder, latestRead, stored, rereading, readDue := None, 0, NotRead, false, false;
    }

    /** Whether this mailbox's stored messages are on screen, or being read. */
    predicate Holds(f: FolderKey)
      reads this
    {
      folder == Some(f) && (stored.Read? || stored.Reading?)
    }

    predicate IsReading()
      reads this
    {
      rereading || stored.Reading?
    }

    method StartRead(f: FolderKey) returns (read: nat)
      modifies this
      ensures read == latestRead == old(latestRead) + 1 && folder == Some(f) && !rereading && !readDue
      ensures stored == Reading(old(folder) == Some(f) && old((stored.Read? && stored.rows.Some?) || stored == Reading(true)))
    {
      latestRead := latestRead + 1;
      rereading, readDue := false, false;
      var again := folder == Some(f) && ((stored.Read? && stored.rows.Some?) || stored == Reading(true));
      folder := Some(f);
      stored := Reading(again);
      return latestRead;
    }

    method StartReread() returns (read: nat)
      modifies this`latestRead, this`rereading
      ensures read == latestRead == old(latestRead) + 1 && rereading
    {
      latestRead := latestRead + 1;
      rereading := true;
      return latestRead;
    }

    /** Keeps what the read found, if no newer read started meanwhile. */
    method FinishRead(read: nat, answer: Answer) returns (latest: bool)
      modifies this`stored, this`rereading
      ensures latest == (read == latestRead)
      ensures if latest then !rereading && stored == (if answer.Found? then Read(answer.rows) else ReadFailed)
              else rereading == old(rereading) && stored == old(stored)
    {
      if read != latestRead {
        return false;
      }
      rereading := false;
      stored := if answer.Found? then Read(answer.rows) else ReadFailed;
      return true;
    }

    method Forget()
      modifies this
      ensures latestRead == old(latestRead) + 1 && folder.None? && stored.NotRead? && !rereading && !readDue
    {
      latestRead := latestRead + 1;
      folder, stored, rereading, readDue := None, NotRead, false, false;
    }

    method ForgetReadFailure()
      modifies this`stored
      ensures stored == if old(stored).ReadFailed? then NotRead else old(stored)
    {
      if stored.ReadFailed? {
        stored := NotRead;
      }
    }

    method TakeReadDue() returns (due: bool)
      modifies this`readDue
      ensures due == old(readDue) && !readDue
    {
      due := readDue;
      readDue := false;
    }
  }

  /** A read that runs: of which folder, and at which event it started. */
  datatype Run = Run(folder: FolderKey, at: nat)

  class Window {
    var selected: Option<FolderKey>
    const shown: ShownMailbox
    /** The reads that were started and have not answered, by number. */
    ghost var running: map<nat, Run>
    /** The count of events so far, and at which the store last changed for an account. */
    ghost var now: nat
    ghost var changes: map<string, nat>
    /** The number of the read whose answer is shown, its folder and its start. */
    ghost var answered: nat
    ghost var source: Run

    ghost function ChangedAt(account: string): nat
      reads this
    {
      if account in changes then changes[account] else 0
    }

    /** Numbers only grow, and what is shown or being read is the selected folder's. */
    ghost predicate Ordered()
      reads this, shown
    {
      && (forall r :: r in running ==> r <= shown.latestRead && running[r].at <= now)
      && (forall account :: account in changes ==> changes[account] <= now)
      && answered <= shown.latestRead
      && (shown.IsReading() <==> shown.latestRead in running)
      && (shown.IsReading() ==> answered < shown.latestRead)
      && (shown.readDue ==> shown.IsReading())
      && (shown.rereading ==> shown.stored.Read?)
      && (shown.stored.Read? || shown.stored.Reading? ==> shown.folder.Some? && selected == shown.folder)
      && (shown.IsReading() ==> running[shown.latestRead].folder == shown.folder.value)
      && (shown.stored.Read? ==> source.folder == shown.folder.value)
    }

    /** The rows come from a read started after the account's last change, unless a
        read that did runs, or one more is due. */
    ghost predicate Fresh()
      reads this, shown
      requires Ordered()
    {
      && (shown.IsReading() && !shown.readDue ==> running[shown.latestRead].at >= ChangedAt(shown.folder.value.account))
      && (!shown.IsReading() && shown.stored.Read? ==> source.at >= ChangedAt(shown.folder.value.account))
    }

    ghost predicate Valid()
      reads this, shown
    {
      Ordered() && Fresh()
    }

    constructor ()
      ensures Valid() && fresh(shown) && selected.None? && !shown.IsReading()
    {
      selected := None;
      shown := new ShownMailbox();
      running, now, changes, answered, source := map[], 0, map[], 0, Run(FolderKey("", ""), 0);
    }

    // ----- the reads

    method ReadShownMailbox()
      requires Ordered()
      modifies this`running, shown
      ensures selected.Some? ==> Valid() && shown.IsReading() && shown.Holds(selected.value) && !shown.readDue
      ensures selected.Some? ==> running.Keys == old(running.Keys) + {shown.latestRead} && shown.latestRead == old(shown.latestRead) + 1
      ensures selected.Some? ==>
                && !shown.rereading && shown.folder == selected
                && shown.stored == Reading(old(shown.folder) == selected
                                           && old((shown.stored.Read? && shown.stored.rows.Some?) || shown.stored == Reading(true)))
      ensures selected.None? ==> unchanged(this) && unchanged(shown)
    {
      if selected.None? {
        return;
      }
      var read := shown.StartRead(selected.value);
      running := running[read := Run(selected.value, now)];
    }

    /** Reads again while the rows on screen stay; during a read only one more is marked. */
    method ReadShownMailboxAgain()
      requires Ordered()
      modifies this`running, shown
      ensures Ordered()
      ensures selected.Some? ==> Fresh() && shown.IsReading() && shown.Holds(selected.value)
      ensures selected.Some? && old(shown.Holds(selected.value) && shown.IsReading()) ==>
                shown.readDue && running == old(running) && shown.latestRead == old(shown.latestRead)
      ensures selected.Some? && !old(shown.Holds(selected.value) && shown.IsReading()) ==>
                !shown.readDue && shown.latestRead == old(shown.latestRead) + 1
                && running.Keys == old(running.Keys) + {shown.latestRead}
      ensures old(shown.stored.Read?) && selected == old(shown.folder) ==> shown.stored == old(shown.stored)
      ensures selected.Some? ==> shown.folder == selected
      ensures selected.Some? && old(shown.stored.ReadFailed? || shown.stored.NotRead?) ==> shown.stored == Reading(false)
      ensures selected.None? ==> unchanged(this) && unchanged(shown)
    {
      if selected.None? {
        return;
      }
      if !shown.Holds(selected.value) {
        ReadShownMailbox();
        return;
      }
      if shown.IsReading() {
        shown.readDue := true;
        return;
      }
      var read := shown.StartReread();
      running := running[read := Run(selected.value, now)];
    }

    // ----- the events

    method SelectionChanges(to: Option<FolderKey>)
      requires Valid()
      modifies this`selected, this`running, this`now, shown
      ensures Valid() && selected == to
      ensures to.Some? ==> shown.Holds(to.value)
      ensures to.Some? && old(shown.Holds(to.value)) ==> unchanged(shown)
      ensures to.None? ==> shown.stored.NotRead? && shown.folder.None?
    {
      now := now + 1;
      selected := to;
      if to.None? {
        shown.Forget();
      } else if !shown.Holds(to.value) {
        StartOther(to.value);
      }
    }

    /** The first read of another mailbox than the one shown. */
    method StartOther(f: FolderKey)
      requires selected == Some(f) && !shown.Holds(f)
      requires forall r :: r in running ==> r <= shown.latestRead && running[r].at <= now
      requires forall account :: account in changes ==> changes[account] <= now
      requires answered <= shown.latestRead && (shown.IsReading() <==> shown.latestRead in running)
      modifies this`running, shown
      ensures Valid() && shown.IsReading() && shown.Holds(f)
    {
      var read := shown.StartRead(f);
      running := running[read := Run(f, now)];
    }

    /** A load stored something of the account, or the user's change was stored. */
    method StoreChanges(account: string)
      requires Valid()
      modifies this`running, this`now, this`changes, shown
      ensures Valid()
      ensures ChangedAt(account) == now == old(now) + 1
      ensures selected.None? || selected.value.account != account ==> unchanged(shown) && running == old(running)
      ensures selected.Some? && selected.value.account == account ==> shown.IsReading() && shown.Holds(selected.value)
      ensures selected.Some? && selected.value.account == account && old(shown.IsReading()) ==>
                shown.readDue && running == old(running)
    {
      now := now + 1;
      changes := changes[account := now];
      if selected.Some? && selected.value.account == account {
        ReadShownMailboxAgain();
      }
    }

    method LoadStarts()
      requires Valid()
      modifies shown
      ensures Valid()
      ensures shown.stored == if old(shown.stored).ReadFailed? then NotRead else old(shown.stored)
    {
      shown.ForgetReadFailure();
    }

    /** A folder list load that completed reads the rows only when they are not held. */
    method FolderListLoaded()
      requires Valid()
      modifies this`running, shown
      ensures Valid()
      ensures selected.Some? ==> shown.Holds(selected.value)
      ensures selected.Some? && old(shown.Holds(selected.value)) ==> unchanged(shown) && running == old(running)
    {
      if selected.Some? && !shown.Holds(selected.value) {
        ReadShownMailbox();
      }
    }

    /** The sidebar's new folders no longer show the selection. */
    method SelectionDisappears()
      requires Valid()
      modifies this`selected, shown
      ensures Valid() && selected.None? && shown.stored.NotRead?
    {
      selected := None;
      shown.Forget();
    }

    /** Accounts no longer shown: what was read of them is forgotten. */
    method AccountsChange(visible: set<string>)
      requires Valid()
      modifies shown
      ensures Valid()
      ensures shown.folder.Some? ==> shown.folder.value.account in visible
      ensures old(shown.folder).None? || old(shown.folder).value.account in visible ==> unchanged(shown)
    {
      if shown.folder.Some? && shown.folder.value.account !in visible {
        shown.Forget();
      }
    }

    /** A read answers, maybe late. A superseded answer changes nothing; the latest
        one is shown, and the read that a change made due starts. */
    method Answers(read: nat, answer: Answer)
      requires Valid() && read in running
      modifies this`running, this`answered, this`source, shown
      ensures Valid()
      ensures read != old(shown.latestRead) ==>
                unchanged(shown) && answered == old(answered) && running == old(running) - {read}
      ensures old(answered) <= answered
      ensures read == old(shown.latestRead) ==>
                answered == read && source == old(running)[read]
                && !shown.readDue && (shown.IsReading() <==> old(shown.readDue))
                && running.Keys == old(running.Keys) - {read} + (if shown.IsReading() then {read + 1} else {})
      ensures read == old(shown.latestRead) ==>
                && shown.folder == old(shown.folder)
                && shown.stored == (if answer.Found? then Read(answer.rows) else if old(shown.readDue) then Reading(false) else ReadFailed)
    {
      ghost var run := running[read];
      ghost var left := running - {read};
      running := left;
      var latest := shown.FinishRead(read, answer);
      if !latest {
        return;
      }
      answered, source := read, run;
      var due := shown.TakeReadDue();
      if due {
        ReadShownMailboxAgain();
      }
    }
  }
}
