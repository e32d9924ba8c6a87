/** The observer of the desktop's accounts: one read at a time, requests during a
    read folded into one more, and callbacks that may themselves retry or stop. */
module Observer {
  import opened Domain

  datatype Check = NotChecked | Complete | CheckFailed

  datatype AccountUpdate = AccountUpdate(accounts: map<string, string>, lastCheck: Check, retryPending: bool)

  /** What the application's callback does while it runs. */
  datatype Action = Retry | Stop

  class AccountObserver {
    /** What callback number `n` does, whatever it is given. */
    const reactions: nat -> seq<Action>
    var callbacks: nat
    var update: AccountUpdate
    var connected: bool
    var readRunning: bool
    var refetchNeeded: bool
    var stopped: bool

    /** What was published, how many reads were started, and how many answers are still to come. */
    ghost var published: seq<AccountUpdate>
    ghost var readCount: nat
    ghost var outstanding: nat
    /** The count of events, and at which the last request, the last retry, the
        running read and the last finished read came. */
    ghost var now: nat
    ghost var lastRequest: nat
    ghost var lastRetry: nat
    ghost var startedAt: nat
    ghost var coveredBy: nat

    /** At most one read is in flight, and every request before a stop is covered
        by a read started after it: the finished one, the running one, or the one
        that follows it. */
    ghost predicate Valid()
      reads this
    {
      && lastRetry <= lastRequest <= now && coveredBy <= startedAt <= now
      && outstanding <= 1
      && (!stopped ==>
            && (outstanding == 1 <==> readRunning)
            && (refetchNeeded ==> readRunning)
            && (readRunning ==> (refetchNeeded <==> startedAt < lastRequest))
            && (!readRunning ==> lastRequest <= coveredBy)
            && (!update.retryPending ==> lastRetry <= coveredBy)
            && (update.retryPending ==> readRunning))
    }

    /** Starts observing with a first read. */
    constructor (reactions: nat -> seq<Action>)
      ensures Valid() && !stopped && readRunning && readCount == 1 && published == []
      ensures this.reactions == reactions && update == AccountUpdate(map[], NotChecked, false)
    {
      this.reactions := reactions;
      callbacks, update := 0, AccountUpdate(map[], NotChecked, false);
      connected, readRunning, refetchNeeded, stopped := false, false, false, false;
      published, readCount, outstanding := [], 0, 0;
      now, lastRequest, lastRetry, startedAt, coveredBy := 0, 0, 0, 0, 0;
      new;
      RequestRead();
    }

    /** A signal or a retry asks for a read: it starts one, or marks that one more is needed. */
    method RequestRead()
      requires Valid()
      modifies this`readRunning, this`refetchNeeded, this`readCount, this`outstanding, this`now, this`lastRequest, this`startedAt
      ensures Valid()
      ensures stopped ==> unchanged(this)
      ensures !stopped ==> readRunning && lastRequest == now == old(now) + 1
      ensures !stopped ==> if old(readRunning) then refetchNeeded && readCount == old(readCount) && startedAt == old(startedAt)
                           else !refetchNeeded && readCount == old(readCount) + 1 && startedAt == now
    {
      if stopped {
        return;
      }
      now := now + 1;
      lastRequest := now;
      if readRunning {
        refetchNeeded := true;
        return;
      }
      StartRead();
    }

    /** Whether through the bus connection or directly, one answer is to come. */
    method StartRead()
      requires !readRunning && !stopped && !refetchNeeded && outstanding == 0
      modifies this`readRunning, this`readCount, this`outstanding, this`startedAt
      ensures readRunning && readCount == old(readCount) + 1 && outstanding == 1 && startedAt == now
    {
      readRunning := true;
      readCount, outstanding, startedAt := readCount + 1, 1, now;
    }

    /** The user's Retry: the pending mark stays until a read started after it answers. */
    method RefreshAccounts()
      requires Valid()
      modifies this
      ensures Valid()
      ensures old(stopped) ==> unchanged(this)
      ensures !stopped ==> update.retryPending && readRunning && old(now) < lastRetry
      ensures !old(stopped) ==> update == old(update).(retryPending := true)
      ensures old(now) <= now && old(lastRetry) <= lastRetry && coveredBy == old(coveredBy)
      ensures old(callbacks) <= callbacks && (old(stopped) ==> stopped)
      ensures !old(stopped) ==> update.retryPending && old(now) < lastRetry
      ensures published == old(published)
              + if old(stopped) || old(update.retryPending) then [] else [update]
      ensures old(readCount) <= readCount <= old(readCount) + (if old(stopped) || old(readRunning) then 0 else 1)
      decreases if update.retryPending then 0 else 1, 0
    {
      if stopped {
        return;
      }
      var wasPending := update.retryPending;
      RequestReadForRetry();
      if !wasPending {
        PublishUpdate();
      }
    }

    method RequestReadForRetry()
      requires Valid() && !stopped
      modifies this
      ensures Valid() && !stopped && readRunning && callbacks == old(callbacks) && connected == old(connected)
      ensures update == old(update).(retryPending := true) && lastRetry == lastRequest == now == old(now) + 1
      ensures published == old(published) && readCount == old(readCount) + if old(readRunning) then 0 else 1
      ensures coveredBy == old(coveredBy)
    {
      RequestRead();
      update := update.(retryPending := true);
      lastRetry := now;
    }

    /** Among the callback's actions is a retry that no stop comes before. */
    static predicate Retries(actions: seq<Action>, n: nat)
      requires n <= |actions|
    {
      exists i :: 0 <= i < n && actions[i].Retry? && Stop !in actions[..i]
    }

    /** The callback gets a copy of the update and may retry or stop; whatever it does
        is done when it returns. */
    method PublishUpdate()
      requires Valid() && !stopped
      modifies this
      ensures Valid()
      ensures update == old(update) || update == old(update).(retryPending := true)
      ensures published == old(published) + [old(update)]
              + (if update.retryPending && !old(update.retryPending) then [update] else [])
      ensures old(now) <= now && old(lastRetry) <= lastRetry && coveredBy == old(coveredBy)
      ensures old(readCount) <= readCount <= old(readCount) + (if old(readRunning) then 0 else 1)
      ensures !stopped && old(readRunning) ==> readRunning
      ensures callbacks > old(callbacks)
      ensures Stop in reactions(old(callbacks)) ==> stopped
      ensures Retries(reactions(old(callbacks)), |reactions(old(callbacks))|) ==> update.retryPending && old(now) < lastRetry
      decreases if update.retryPending then 0 else 1, 1
    {
      ghost var pending := update.retryPending;
      published := published + [update];
      var actions := reactions(callbacks);
      callbacks := callbacks + 1;
      for i := 0 to |actions|
        invariant Valid()
        invariant update == old(update) || update == old(update).(retryPending := true)
        invariant published == old(published) + [old(update)]
                  + (if update.retryPending && !pending then [update] else [])
        invariant old(now) <= now && old(lastRetry) <= lastRetry && coveredBy == old(coveredBy)
        invariant old(readCount) <= readCount <= old(readCount) + (if old(readRunning) then 0 else 1)
        invariant !stopped && old(readRunning) ==> readRunning
        invariant !stopped && readCount > old(readCount) ==> readRunning
        invariant callbacks > old(callbacks)
        invariant Stop in actions[..i] ==> stopped
        invariant Retries(actions, i) ==> update.retryPending && old(now) < lastRetry
        invariant stopped ==> Stop in actions[..i] || (update.retryPending && old(now) < lastRetry)
      {
        assert actions[..i + 1] == actions[..i] + [actions[i]];
        match actions[i]
        case Retry => RefreshAccounts();
        case Stop => StopObserving();
      }
      assert actions[..|actions|] == actions;
    }

    /** Cancels the read in flight; nothing is published from then on. */
    method StopObserving()
      requires Valid()
      modifies this`stopped, this`readRunning, this`connected
      ensures Valid() && stopped && !readRunning && !connected
    {
      stopped := true;
      readRunning := false;
      connected := false;
    }

    /** The bus connection answers, late or not: a connected observer reads on. */
    method ConnectionAnswers(succeeded: bool)
      requires Valid() && outstanding == 1 && !connected
      modifies this
      ensures Valid()
      ensures old(stopped) ==> published == old(published) && readCount == old(readCount) && outstanding == 0 && update == old(update)
      ensures !old(stopped) && succeeded ==>
                && connected && readRunning && outstanding == 1 && update == old(update)
                && published == old(published) && readCount == old(readCount) && startedAt == old(startedAt)
      ensures !old(stopped) && !succeeded ==>
                && Tells(old(published), published, old(update.accounts), CheckFailed, old(update.retryPending && startedAt < lastRequest))
                && Shows(old(update.accounts), CheckFailed) && coveredBy == old(startedAt)
                && old(readCount) + (if old(startedAt < lastRequest) then 1 else 0) <= readCount <= old(readCount) + 1
    {
      if stopped {
        outstanding := 0;
        return;
      }
      if succeeded {
        connected := true;
        // The read the connection was made for goes on.
        assert readRunning;
      } else {
        FinishRead(None);
      }
    }

    /** The first update told since is of these accounts and this check, its retry
        pending or not. */
    static ghost predicate Tells(before: seq<AccountUpdate>, after: seq<AccountUpdate>, accounts: map<string, string>, check: Check,
                                 retryPending: bool)
    {
      before < after && after[|before|] == AccountUpdate(accounts, check, retryPending)
    }

    ghost predicate Shows(accounts: map<string, string>, check: Check)
      reads this
    {
      update.accounts == accounts && update.lastCheck == check
    }

    /** The account read answers; after a stop it is dropped. Accounts that were read
        are published as complete, of a failed read those known before; a retry stays
        pending exactly when a request came since the read started, and then one more
        read starts. */
    method ReadAnswers(result: Option<map<string, string>>)
      requires Valid() && outstanding == 1
      modifies this
      ensures Valid()
      ensures old(stopped) ==> published == old(published) && readCount == old(readCount) && update == old(update)
      ensures !old(stopped) && result.Some? ==>
                && Tells(old(published), published, result.value, Complete, old(update.retryPending && startedAt < lastRequest))
                && Shows(result.value, Complete)
      ensures !old(stopped) && result.None? ==>
                && Tells(old(published), published, old(update.accounts), CheckFailed, old(update.retryPending && startedAt < lastRequest))
                && Shows(old(update.accounts), CheckFailed)
      ensures !old(stopped) ==>
                && coveredBy == old(startedAt)
                && old(readCount) + (if old(startedAt < lastRequest) then 1 else 0) <= readCount <= old(readCount) + 1
    {
      if stopped {
        outstanding := 0;
        return;
      }
      FinishRead(result);
    }

    /** Keeps the result; the retry is over only when no request came during the
        read. Scheduling is settled before the callback runs. */
    method FinishRead(result: Option<map<string, string>>)
      requires Valid() && !stopped && readRunning
      modifies this
      ensures Valid()
      ensures |published| > |old(published)| && published[..|old(published)|] == old(published)
      ensures published[|old(published)|] == AccountUpdate(
                if result.Some? then result.value else old(update.accounts),
                if result.Some? then Complete else CheckFailed,
                old(update.retryPending && refetchNeeded))
      ensures update == published[|old(published)|] || update == published[|old(published)|].(retryPending := true)
      ensures callbacks > old(callbacks) && (Stop in reactions(old(callbacks)) ==> stopped)
      ensures coveredBy == old(startedAt)
      ensures old(readCount) <= readCount <= old(readCount) + 1
      ensures old(refetchNeeded) ==> readCount == old(readCount) + 1
    {
      readRunning := false;
      outstanding, coveredBy := 0, startedAt;
      update := update.(
        accounts := if result.Some? then result.value else update.accounts,
        lastCheck := if result.Some? then Complete else CheckFailed);
      if !refetchNeeded {
        update := update.(retryPending := false);
      }
      if refetchNeeded {
        refetchNeeded := false;
        StartRead();
      }
      PublishUpdate();
    }
  }
}
