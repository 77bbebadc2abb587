/**
 What the invariant gives for every interleaving of a round: one result, decisions on this round's
 persisted values only, at most one guarded attempt per obligation, and progress until the round returns.
 */
module RoundFacts {
  import opened Wrappers
  import opened FixedPoint
  import opened Lending
  import opened Refresh
  import opened Selection
  import opened Plan
  import opened PlanFacts
  import opened Capsule
  import opened Round
  import opened RoundInvariant

  // ---------------------------------------------------------------- confluence

  /** A result assigns one view to each market, so two results of the same round are equal. */
  lemma RoundResultUnique(env: Env, start: Memory, r1: map<string, MarketView>, r2: map<string, MarketView>)
    requires MemoryWellFormed(start) && RoundResult(env, start, r1) && RoundResult(env, start, r2)
    ensures r1 == r2
  {
    hide MemoryWellFormed, CanRefetch, FinalView, ViewOf;
    forall name | name in start.markets
      ensures r1[name] == r2[name]
    {
      if i :| 0 <= i < |env.markets| && Name(env, i) == name {
        assert CanRefetch(env, start, i);
      }
    }
  }

  /** Once a task is done, the current obligation is the final one. */
  lemma DoneIsFinal(env: Env, attempted: Updates, updated: set<Task>, t: Task, view: MarketView)
    requires t.market < |env.markets| && t.key in view.obligations && t in attempted && t in updated
    requires OutcomeFor(env, t, view) == Finished(attempted[t])
    ensures CurrentObligation(attempted, updated, t, view) == FinalObligation(env, t, view)
  {
    hide OutcomeFor;
  }

  /** A view made of final obligations over the persisted book is the final view. */
  lemma AllFinal(env: Env, i: nat, before: MarketView, now: MarketView, attempted: Updates, updated: set<Task>)
    requires i < |env.markets| && Answered(env.fetches(i), before.initialized, before.obligations.Keys)
    requires var view := PersistedView(env, i, before);
             && now.initialized && now.book == view.book && now.obligations.Keys == view.obligations.Keys
             && forall k :: k in view.obligations ==>
                  var t := Task(i, k);
                  && t in updated && t in attempted && OutcomeFor(env, t, view) == Finished(attempted[t])
                  && now.obligations[k] == CurrentObligation(attempted, updated, t, view)
    ensures now == FinalView(env, i, before)
  {
    hide OutcomeFor, FinalObligation, CurrentObligation, FetchedObligations;
    var view := PersistedView(env, i, before);
    forall k | k in view.obligations
      ensures now.obligations[k] == FinalObligation(env, Task(i, k), view)
    {
      DoneIsFinal(env, attempted, updated, Task(i, k), view);
    }
  }

  lemma CompleteMarket(env: Env, start: Memory, s: State, i: nat)
    requires MemoryWellFormed(start) && MemoryPart(start, s.memory) && i < |env.markets|
    requires HoldsPersisted(env, start, s.memory, s.attempted, s.updated, i)
    requires AttemptPart(env, start, s.attempted) && s.updated <= s.attempted.Keys
    requires CanRefetch(env, start, i)
    requires forall k :: k in Persisted(env, start, i).obligations ==> Task(i, k) in s.updated
    ensures ViewOf(s.memory.heap, s.memory.markets[Name(env, i)]) ==
            FinalView(env, i, ViewOf(start.heap, start.markets[Name(env, i)]))
  {
    assert WellFormed(s.memory.heap, s.memory.markets[Name(env, i)].inner);
    assert WellFormed(start.heap, start.markets[Name(env, i)].inner);
    hide MemoryWellFormed, MemoryPart, WellFormed, ViewOf, OutcomeFor, FinalView, CurrentObligation, PersistedView, Known;
    AllFinal(env, i, ViewOf(start.heap, start.markets[Name(env, i)]),
             ViewOf(s.memory.heap, s.memory.markets[Name(env, i)]), s.attempted, s.updated);
  }

  /** In a complete state every obligation of a persisted market has had all its tasks. */
  lemma CompleteTasks(env: Env, start: Memory, s: State, i: nat)
    requires MemoryWellFormed(start) && Inv(env, start, s) && Complete(env, s) && i < |env.markets|
    ensures i in s.persisted && CanRefetch(env, start, i)
    ensures forall k :: k in Persisted(env, start, i).obligations ==> Task(i, k) in s.updated
  {
    hide PersistPart, PendingPart, UntouchedPart, DecidePart, AttemptPart, LogPart, ClonePart, MemoryPart, MemoryWellFormed;
    assert i in s.snapshots && s.snapshots[i] == s.fetched[i];
    assert FetchedAs(env, start, s.memory.heap, i, s.fetched[i]);
    forall k | k in Persisted(env, start, i).obligations
      ensures Task(i, k) in s.updated
    {
      FetchedReads(env, start, s.memory.heap, Task(i, k), s.fetched[i]);
    }
  }

  /** Every run that completes ends in the round's one result. */
  lemma CompleteIsResult(env: Env, start: Memory, s: State)
    requires Given(env, start) && Inv(env, start, s) && Complete(env, s)
    ensures MemoryWellFormed(s.memory) && RoundResult(env, start, Views(s.memory))
  {
    forall i | 0 <= i < |env.markets|
      ensures CanRefetch(env, start, i)
      ensures Name(env, i) in s.memory.markets
      ensures Views(s.memory)[Name(env, i)] == FinalView(env, i, ViewOf(start.heap, start.markets[Name(env, i)]))
    {
      hide ClonePart, FetchPart, PendingPart, UntouchedPart, SnapshotPart, DecidePart, AttemptPart, LogPart, MemoryWellFormed, FinalView;
      CompleteTasks(env, start, s, i);
      assert HoldsPersisted(env, start, s.memory, s.attempted, s.updated, i);
      CompleteMarket(env, start, s, i);
    }
    UntouchedViews(env, start, s);
  }

  lemma UntouchedViews(env: Env, start: Memory, s: State)
    requires Given(env, start) && MemoryPart(start, s.memory) && UntouchedPart(env, start, s.memory.markets, s.persisted)
    ensures forall name :: name in start.markets && (forall i :: 0 <= i < |env.markets| ==> Name(env, i) != name) ==>
              Views(s.memory)[name] == ViewOf(start.heap, start.markets[name])
  {
    forall name | name in start.markets && (forall i :: 0 <= i < |env.markets| ==> Name(env, i) != name)
      ensures Views(s.memory)[name] == ViewOf(start.heap, start.markets[name])
    {
      ViewStable(start.heap, s.memory.heap, start.markets[name].inner);
    }
  }

  /**
   Confluence. Two complete runs of the same round, however interleaved, leave every market with the same
   view: the result that the start of the round and the replies determine.
   */
  lemma Confluence(env: Env, start: Memory, steps1: seq<Step>, steps2: seq<Step>)
    requires Given(env, start)
    requires Run(env, Start(start), steps1).Some? && Complete(env, Run(env, Start(start), steps1).value)
    requires Run(env, Start(start), steps2).Some? && Complete(env, Run(env, Start(start), steps2).value)
    ensures var m1, m2 := Run(env, Start(start), steps1).value.memory, Run(env, Start(start), steps2).value.memory;
            && MemoryWellFormed(m1) && MemoryWellFormed(m2)
            && Views(m1) == Views(m2)
            && RoundResult(env, start, Views(m1))
  {
    hide Inv, RoundResult, MemoryWellFormed;
    RunKeepsInv(env, start, steps1);
    RunKeepsInv(env, start, steps2);
    CompleteIsResult(env, start, Run(env, Start(start), steps1).value);
    CompleteIsResult(env, start, Run(env, Start(start), steps2).value);
    RoundResultUnique(env, start, Views(Run(env, Start(start), steps1).value.memory),
                      Views(Run(env, Start(start), steps2).value.memory));
  }

  // ---------------------------------------------------------------- what the result is, in terms of the replies

  lemma PersistedFromReplies(env: Env, start: Memory, i: nat)
    requires MemoryWellFormed(start) && i < |env.markets| && CanRefetch(env, start, i)
    ensures var before, view := ViewOf(start.heap, start.markets[Name(env, i)]), Persisted(env, start, i);
            FromReplies(view.obligations, view.book, env.fetches(i), before.initialized, before.obligations.Keys)
    ensures forall k :: k in Persisted(env, start, i).obligations ==> Persisted(env, start, i).obligations[k].pubkey == k
  {
    var before := ViewOf(start.heap, start.markets[Name(env, i)]);
    hide MemoryWellFormed, FetchedObligations, FetchedBook, FromReplies, ViewOf, Answered;
    FetchedFromReplies(env.fetches(i), before.initialized, before.obligations.Keys);
    OwnKeys(Persisted(env, start, i), env.fetches(i), before.initialized, before.obligations.Keys);
  }

  lemma OwnKeys(view: MarketView, replies: FetchReplies, initialized: bool, keys: set<Pubkey>)
    requires Answered(replies, initialized, keys)
    requires FromReplies(view.obligations, view.book, replies, initialized, keys)
    ensures forall k :: k in view.obligations ==> view.obligations[k].pubkey == k
  {
  }

  /** The wallet can be read and holds something. */
  ghost predicate HasFunds(env: Env, t: Task) {
    env.tasks(t).balance.Some? && env.tasks(t).balance.value > 0
  }

  /** On the given data the obligation refreshes and is flagged, and there are funds. */
  ghost predicate Due(env: Env, t: Task, view: MarketView)
    requires t.key in view.obligations
  {
    var refreshed := RefreshOf(view.obligations[t.key].inner, view.book);
    refreshed.Success? && Flagged(refreshed.value.obligation) && HasFunds(env, t)
  }

  lemma FinalFromReplies(env: Env, t: Task, view: MarketView)
    requires t.market < |env.markets| && t.key in view.obligations && OutcomeFor(env, t, view).Finished?
    requires view.obligations[t.key].pubkey == t.key
    ensures if Due(env, t, view) then
              env.tasks(t).account.Some? && FinalObligation(env, t, view) == Enhanced(env.tasks(t).account.value, t.key)
            else FinalObligation(env, t, view) == view.obligations[t.key]
  {
    hide DecisionOf, RefreshOf, Flagged, Resolvable;
    var d, b := SelectionIsLastMaximum(view.obligations[t.key].inner, view.book);
  }

  /** The market at the end of a round: its persisted data, with what was read back for every obligation due. */
  ghost predicate EndsAs(env: Env, i: nat, view: MarketView, now: MarketView) {
    && now.initialized
    && now.book == view.book
    && now.obligations.Keys == view.obligations.Keys
    && forall k :: k in view.obligations ==>
         var t := Task(i, k);
         if Due(env, t, view) then
           env.tasks(t).account.Some? && now.obligations[k] == Enhanced(env.tasks(t).account.value, k)
         else now.obligations[k] == view.obligations[k]
  }

  /**
   The result of a complete run, without the model's own result functions: each market holds what its
   replies say, except that an obligation whose liquidation was due holds what was read back for it.
   */
  lemma ResultFromReplies(env: Env, start: Memory, steps: seq<Step>, i: nat)
    requires Given(env, start) && i < |env.markets|
    requires Run(env, Start(start), steps).Some? && Complete(env, Run(env, Start(start), steps).value)
    ensures var m := Run(env, Start(start), steps).value.memory;
            && MemoryWellFormed(m) && CanRefetch(env, start, i) && Name(env, i) in m.markets
            && EndsAs(env, i, Persisted(env, start, i), Views(m)[Name(env, i)])
  {
    hide Run, Complete, Inv, MemoryWellFormed, EndsAs;
    RunKeepsInv(env, start, steps);
    var s := Run(env, Start(start), steps).value;
    CompleteIsResult(env, start, s);
    CompleteFinished(env, start, s, i);
    PersistedFromReplies(env, start, i);
    StartEntry(start, Name(env, i));
    FinalEndsAs(env, i, ViewOf(start.heap, start.markets[Name(env, i)]));
    assert Views(s.memory)[Name(env, i)] == FinalView(env, i, ViewOf(start.heap, start.markets[Name(env, i)]));
  }

  lemma StartEntry(start: Memory, name: string)
    requires MemoryWellFormed(start) && name in start.markets
    ensures WellFormed(start.heap, start.markets[name].inner)
  {
  }

  lemma CompleteFinished(env: Env, start: Memory, s: State, i: nat)
    requires Given(env, start) && Inv(env, start, s) && Complete(env, s) && i < |env.markets|
    ensures CanRefetch(env, start, i)
    ensures forall k :: k in Persisted(env, start, i).obligations ==>
              OutcomeFor(env, Task(i, k), Persisted(env, start, i)).Finished?
  {
    hide MemoryWellFormed, FetchPart, PersistPart, ClonePart, PendingPart, UntouchedPart, SnapshotPart, DecidePart, LogPart,
         MemoryPart, OutcomeFor, Persisted;
    CompleteTasks(env, start, s, i);
    forall k | k in Persisted(env, start, i).obligations
      ensures OutcomeFor(env, Task(i, k), Persisted(env, start, i)).Finished?
    {
      assert Task(i, k) in s.attempted;
    }
  }

  lemma FinalEndsAs(env: Env, i: nat, before: MarketView)
    requires i < |env.markets| && Answered(env.fetches(i), before.initialized, before.obligations.Keys)
    requires var view := PersistedView(env, i, before);
             forall k :: k in view.obligations ==>
               view.obligations[k].pubkey == k && OutcomeFor(env, Task(i, k), view).Finished?
    ensures EndsAs(env, i, PersistedView(env, i, before), FinalView(env, i, before))
  {
    hide OutcomeFor, FinalObligation, Due, FetchedObligations, FetchedBook;
    var view := PersistedView(env, i, before);
    forall k | k in view.obligations
      ensures var t := Task(i, k);
              if Due(env, t, view) then
                env.tasks(t).account.Some? && FinalView(env, i, before).obligations[k] == Enhanced(env.tasks(t).account.value, k)
              else FinalView(env, i, before).obligations[k] == view.obligations[k]
    {
      FinalFromReplies(env, Task(i, k), view);
    }
  }

  // ---------------------------------------------------------------- snapshot isolation

  /**
   Snapshot isolation. At any point of any interleaving, a task that reads through its snapshot finds the
   obligation, reserves and feeds persisted in this round, and every decision already taken is the
   decision on those values; write-backs that have happened in between are invisible to it.
   */
  lemma SnapshotIsolation(env: Env, start: Memory, steps: seq<Step>, t: Task)
    requires Given(env, start) && Run(env, Start(start), steps).Some?
    ensures var s := Run(env, Start(start), steps).value;
            t.market in s.snapshots && t.key in s.snapshots[t.market].obligations ==>
              && Known(env, start, t)
              && var data, view := s.snapshots[t.market], Persisted(env, start, t.market);
              && IsObligation(s.memory.heap, data.obligations[t.key]) && IsBook(s.memory.heap, data)
              && s.memory.heap[data.obligations[t.key]].obligation == view.obligations[t.key]
              && Book(s.memory.heap[data.reserves].reserves, s.memory.heap[data.oracleData].oracles) == view.book
    ensures var s := Run(env, Start(start), steps).value;
            t in s.decided ==> Known(env, start, t) && s.decided[t] == DecisionFor(Persisted(env, start, t.market), t.key)
  {
    RunKeepsInv(env, start, steps);
    hide Run, MemoryWellFormed, MemoryPart, OrderPart, ClonePart, FetchPart, PersistPart, PendingPart, UntouchedPart, SnapshotPart,
         AttemptPart, LogPart, Known, DecisionFor, Persisted, CanRefetch, IsObligation, IsBook;
    var s := Run(env, Start(start), steps).value;
    if t.market in s.snapshots && t.key in s.snapshots[t.market].obligations {
      SnapshotReadsPersisted(env, start, s, t);
    }
  }

  // ---------------------------------------------------------------- attempt safety

  /** An attempt is warranted: its obligation, priced on this round's data, is over its limit, and there are funds. */
  ghost predicate Warranted(env: Env, start: Memory, a: Attempt)
    requires MemoryWellFormed(start)
  {
    && Known(env, start, a.task)
    && var view := Persisted(env, start, a.task.market);
    var o := view.obligations[a.task.key];
    var r := RefreshOf(o.inner, view.book);
    && a.candidate.obligation == o
    && DecisionOf(o.inner, view.book) == Some(a.candidate.selected)
    && r.Success?
    && r.value.obligation.borrowedValue > r.value.obligation.unhealthyBorrowValue > 0
    && env.tasks(a.task).balance == Some(a.amount) && a.amount > 0
  }

  lemma RecordedWarranted(env: Env, start: Memory, decided: map<Task, Option<Candidate>>, a: Attempt)
    requires MemoryWellFormed(start) && DecidePart(env, start, decided) && Recorded(env, decided, a)
    ensures Warranted(env, start, a)
  {
    hide MemoryWellFormed, PlanOf, ReserveOrder, Persisted, CanRefetch;
    var view := Persisted(env, start, a.task.market);
    assert decided[a.task] == DecisionFor(view, a.task.key);
    DecisionNeedsFlag(view.obligations[a.task.key].inner, view.book);
  }

  lemma DecisionNeedsFlag(o: Obligation, book: Book)
    requires DecisionOf(o, book).Some?
    ensures RefreshOf(o, book).Success? && Flagged(RefreshOf(o, book).value.obligation)
  {
  }

  /**
   Attempt safety. In every interleaving each (market, obligation) has at most one liquidation attempt in
   the round, and only a warranted one.
   */
  lemma AttemptsSafe(env: Env, start: Memory, steps: seq<Step>)
    requires Given(env, start) && Run(env, Start(start), steps).Some?
    ensures var log := Run(env, Start(start), steps).value.log;
            && (forall m, n :: 0 <= m < n < |log| ==> log[m].task != log[n].task)
            && (forall n :: 0 <= n < |log| ==> Warranted(env, start, log[n]))
  {
    RunKeepsInv(env, start, steps);
    hide Run, MemoryWellFormed, MemoryPart, OrderPart, ClonePart, FetchPart, PersistPart, PendingPart, UntouchedPart, SnapshotPart,
         AttemptPart, DecidePart, Warranted, Recorded;
    var s := Run(env, Start(start), steps).value;
    forall n | 0 <= n < |s.log|
      ensures Warranted(env, start, s.log[n])
    {
      RecordedWarranted(env, start, s.decided, s.log[n]);
    }
  }

  /** What a task's attempt hands to the node when it runs in state s, even if it panics afterwards. */
  ghost function Sent(env: Env, s: State, t: Task, order: seq<Pubkey>): Option<Attempt> {
    if t in s.decided && t !in s.attempted && t.market < |env.markets| && s.decided[t].Some? then
      var c, replies := s.decided[t].value, env.tasks(t);
      if replies.tokenAccount && HasFunds(env, t) && ReserveOrder(order, c.obligation.inner) && replies.blockhash then
        var plan := PlanOf(replies.balance.value, c.selected.borrow, c.selected.deposit, env.markets[t.market],
                           c.obligation, replies.wallet, order);
        if plan.Success? then Some(Attempt(t, c, replies.balance.value, order, plan.value)) else None
      else None
    else None
  }

  /** Whatever becomes of it, a transaction is sent only with warrant, and only by a task not logged before. */
  lemma SendsSafely(env: Env, start: Memory, steps: seq<Step>, t: Task, order: seq<Pubkey>)
    requires Given(env, start) && Run(env, Start(start), steps).Some?
    requires Sent(env, Run(env, Start(start), steps).value, t, order).Some?
    ensures var s := Run(env, Start(start), steps).value;
            && Warranted(env, start, Sent(env, s, t, order).value)
            && forall n :: 0 <= n < |s.log| ==> s.log[n].task != t
  {
    RunKeepsInv(env, start, steps);
    var s := Run(env, Start(start), steps).value;
    hide Run, Inv, MemoryWellFormed, DecidePart, LogPart, Sent, Warranted, Recorded;
    SentRecorded(env, s, t, order);
    LogFacts(env, start, s);
    RecordedWarranted(env, start, s.decided, Sent(env, s, t, order).value);
    LoggedIsAttempted(env, s);
  }

  lemma SentRecorded(env: Env, s: State, t: Task, order: seq<Pubkey>)
    requires Sent(env, s, t, order).Some?
    ensures t !in s.attempted && Recorded(env, s.decided, Sent(env, s, t, order).value)
  {
    hide PlanOf, ReserveOrder;
  }

  lemma LogFacts(env: Env, start: Memory, s: State)
    requires Given(env, start) && Inv(env, start, s)
    ensures DecidePart(env, start, s.decided) && LogPart(env, s.decided, s.attempted, s.log)
  {
    hide MemoryWellFormed, MemoryPart, OrderPart, ClonePart, FetchPart, PersistPart, PendingPart, UntouchedPart, SnapshotPart,
         AttemptPart, DecidePart, LogPart;
  }

  lemma LoggedIsAttempted(env: Env, s: State)
    requires LogPart(env, s.decided, s.attempted, s.log)
    ensures forall n :: 0 <= n < |s.log| ==> s.log[n].task in s.attempted
  {
    hide Recorded;
  }

  /** The log is what was sent: an attempt that finishes appends exactly what it sent, if anything. */
  lemma LogsWhatWasSent(env: Env, s: State, t: Task, order: seq<Pubkey>)
    requires DoAttempt(env, s, t, order).Some?
    ensures DoAttempt(env, s, t, order).value.log ==
            s.log + (if Sent(env, s, t, order).Some? then [Sent(env, s, t, order).value] else [])
  {
    hide PlanOf, ReserveOrder;
  }

  // ---------------------------------------------------------------- the broadcast

  /** Two rounds that differ at most in what the node said to the transactions. */
  ghost predicate SameButBroadcast(env: Env, env': Env) {
    && env.markets == env'.markets && env.fetches == env'.fetches
    && forall t :: env'.tasks(t) == env.tasks(t).(broadcast := env'.tasks(t).broadcast)
  }

  /** A failed broadcast counts as success: no step of the round, and so no run, depends on it. */
  lemma {:induction false} BroadcastIgnored(env: Env, env': Env, s: State, steps: seq<Step>)
    requires SameButBroadcast(env, env')
    ensures Run(env, s, steps) == Run(env', s, steps)
  {
    if steps != [] {
      var front := steps[..|steps| - 1];
      BroadcastIgnored(env, env', s, front);
      if Run(env, s, front).Some? {
        StepIgnoresBroadcast(env, env', Run(env, s, front).value, steps[|steps| - 1]);
      }
    }
  }

  lemma StepIgnoresBroadcast(env: Env, env': Env, s: State, step: Step)
    requires SameButBroadcast(env, env')
    ensures Do(env, s, step) == Do(env', s, step)
  {
    hide Fetch, CanFetch, PlanOf, ReserveOrder, DecisionOf, WithMarketData, WithObligation;
  }

  // ---------------------------------------------------------------- exactly the right attempts

  lemma FinishedWithUpdate(env: Env, t: Task, view: MarketView)
    requires t.market < |env.markets| && t.key in view.obligations && OutcomeFor(env, t, view).Finished?
    ensures OutcomeFor(env, t, view).update.Some? <==>
            DecisionOf(view.obligations[t.key].inner, view.book).Some? && HasFunds(env, t)
  {
    hide DecisionOf, Resolvable;
  }

  /** In a complete state a task is in the log exactly if it left something to write back. */
  lemma LoggedIfUpdated(env: Env, start: Memory, s: State, t: Task)
    requires Given(env, start) && Inv(env, start, s) && Complete(env, s) && Known(env, start, t)
    ensures t in s.attempted && OutcomeFor(env, t, Persisted(env, start, t.market)) == Finished(s.attempted[t])
    ensures (exists n :: 0 <= n < |s.log| && s.log[n].task == t) <==> s.attempted[t].Some?
  {
    hide MemoryWellFormed, MemoryPart, ClonePart, FetchPart, PersistPart, PendingPart, UntouchedPart, SnapshotPart,
         DecidePart, Persisted, CanRefetch, OutcomeFor, Complete, Recorded;
    CompleteTasks(env, start, s, t.market);
    assert Task(t.market, t.key) == t;
  }

  /**
   Exactly the right attempts. When a round has returned, an obligation was attempted if and only if its
   refresh on this round's data succeeded and flagged it and there were funds: none is missed.
   */
  lemma AttemptedExactly(env: Env, start: Memory, steps: seq<Step>, t: Task)
    requires Given(env, start) && Run(env, Start(start), steps).Some?
    requires Complete(env, Run(env, Start(start), steps).value) && Known(env, start, t)
    ensures var view := Persisted(env, start, t.market);
            var refreshed := RefreshOf(view.obligations[t.key].inner, view.book);
            var log := Run(env, Start(start), steps).value.log;
            (exists n :: 0 <= n < |log| && log[n].task == t) <==>
              refreshed.Success? && Flagged(refreshed.value.obligation) && HasFunds(env, t)
  {
    var s, view := Run(env, Start(start), steps).value, Persisted(env, start, t.market);
    RunKeepsInv(env, start, steps);
    hide Run, Inv, Complete, MemoryWellFormed, OutcomeFor, HasFunds, RefreshOf, Flagged, DecisionOf;
    LoggedIfUpdated(env, start, s, t);
    FinishedWithUpdate(env, t, view);
    var d, b := SelectionIsLastMaximum(view.obligations[t.key].inner, view.book);
  }

  /** A live entry differs from what was persisted only after a recorded attempt on that very obligation. */
  lemma ReplacedOnlyAfterAttempt(env: Env, start: Memory, steps: seq<Step>, i: nat, k: Pubkey)
    requires Given(env, start) && Run(env, Start(start), steps).Some?
    requires var s := Run(env, Start(start), steps).value;
             && i in s.persisted && i < |env.markets|
             && MemoryWellFormed(s.memory) && Name(env, i) in s.memory.markets && CanRefetch(env, start, i)
             && var now := ViewOf(s.memory.heap, s.memory.markets[Name(env, i)]).obligations;
             && k in now
             && (k !in Persisted(env, start, i).obligations || now[k] != Persisted(env, start, i).obligations[k])
    ensures var s := Run(env, Start(start), steps).value;
            Task(i, k) in s.updated && exists n :: 0 <= n < |s.log| && s.log[n].task == Task(i, k)
  {
    RunKeepsInv(env, start, steps);
    hide Run, MemoryWellFormed, OrderPart, ClonePart, FetchPart, PendingPart, UntouchedPart, SnapshotPart,
         AttemptPart, DecidePart, Persisted, CanRefetch;
    var s := Run(env, Start(start), steps).value;
    assert HoldsPersisted(env, start, s.memory, s.attempted, s.updated, i);
  }

  /** The feeds of every market follow its configuration, and its addresses and symbols are unique. */
  ghost predicate WellConfigured(env: Env) {
    forall i :: 0 <= i < |env.markets| ==>
      && UniqueAddresses(env.markets[i].reserves) && UniqueSymbols(env.markets[i].reserves)
      && (env.fetches(i).feeds.Some? ==> FollowsConfig(env.fetches(i).feeds.value, env.markets[i].reserves))
  }

  /**
   The transaction refreshes every reserve once with its configured price accounts, then the obligation,
   creates exactly the missing destination accounts, and closes on the selected positions with every account
   taken from the reserves configured at their addresses.
   */
  ghost predicate HitsSelection(env: Env, a: Attempt) {
    && RefreshesFirst(a.plan, a.order)
    && RefreshesObligationOnce(a.plan, |a.order|, a.candidate.obligation)
    && LiquidatesLast(a.plan)
    && a.task.market < |env.markets|
    && var close := a.plan[|a.plan| - 1];
    && TargetsSelected(close, a.candidate.selected, env.markets[a.task.market])
    && close.amount == a.amount
    && close.source == TokenAccount(env.tasks(a.task).wallet.payer, a.candidate.selected.borrow.mintAddress)
    && ClosesOnSelected(close, a.amount, a.candidate.selected, env.markets[a.task.market],
                        a.candidate.obligation.pubkey, env.tasks(a.task).wallet.payer)
    && RefreshesConfigured(a.plan, a.order, env.markets[a.task.market].reserves)
    && CreatesMissing(a.plan, |a.order| + 1, env.tasks(a.task).wallet)
  }

  /**
   End to end. In every interleaving over well-configured markets, every transaction sent refreshes each
   reserve of its obligation once before the obligation, and closes by liquidating exactly the deposit and
   borrow that this round's data selected, paid from the account whose balance was read.
   */
  lemma AttemptsHitSelection(env: Env, start: Memory, steps: seq<Step>, n: nat)
    requires Given(env, start) && WellConfigured(env)
    requires Run(env, Start(start), steps).Some? && n < |Run(env, Start(start), steps).value.log|
    ensures var a := Run(env, Start(start), steps).value.log[n];
            Warranted(env, start, a) && HitsSelection(env, a)
  {
    assert MemoryWellFormed(start);
    hide *;
    RunKeepsInv(env, start, steps);
    var s := Run(env, Start(start), steps).value;
    LoggedRecorded(env, start, s, n);
    RecordHitsSelection(env, start, s.decided, s.log[n]);
  }

  lemma LoggedRecorded(env: Env, start: Memory, s: State, n: nat)
    requires Given(env, start) && Inv(env, start, s) && n < |s.log|
    ensures DecidePart(env, start, s.decided) && Recorded(env, s.decided, s.log[n])
  {
    hide MemoryWellFormed, MemoryPart, OrderPart, ClonePart, FetchPart, PersistPart, PendingPart, UntouchedPart, SnapshotPart,
         AttemptPart, DecidePart, Recorded;
  }

  /** The book of a persisted market is what its fetch read. */
  lemma KnownBook(env: Env, start: Memory, t: Task)
    requires MemoryWellFormed(start) && Known(env, start, t)
    ensures BookAnswered(env.fetches(t.market))
    ensures Persisted(env, start, t.market).book == FetchedBook(env.fetches(t.market))
  {
    hide MemoryWellFormed;
  }

  lemma RecordHitsSelection(env: Env, start: Memory, decided: map<Task, Option<Candidate>>, a: Attempt)
    requires MemoryWellFormed(start) && WellConfigured(env)
    requires DecidePart(env, start, decided) && Recorded(env, decided, a)
    ensures Warranted(env, start, a) && HitsSelection(env, a)
  {
    hide MemoryWellFormed, RefreshesFirst, RefreshesObligationOnce, LiquidatesLast, TargetsSelected, DecisionOf, RefreshOf, CanRefetch,
         UniqueAddresses, UniqueSymbols, FollowsConfig, PlanOf, DecidePart, ClosesOnSelected, RefreshesConfigured, CreatesMissing;
    RecordedWarranted(env, start, decided, a);
    var view := Persisted(env, start, a.task.market);
    var market, wallet := env.markets[a.task.market], env.tasks(a.task).wallet;
    KnownBook(env, start, a.task);
    PlanOrder(a.amount, a.candidate.selected.borrow, a.candidate.selected.deposit, market, a.candidate.obligation, wallet, a.order);
    UniqueSymbolsSuffice(a.candidate.obligation, view.book, market, a.amount, wallet, a.order);
    RecordCloses(env, start, decided, a);
    PlanAmount(a.amount, a.candidate.selected.borrow, a.candidate.selected.deposit, market, a.candidate.obligation, wallet, a.order);
  }

  /** The accounts named by a recorded attempt. */
  lemma RecordCloses(env: Env, start: Memory, decided: map<Task, Option<Candidate>>, a: Attempt)
    requires MemoryWellFormed(start) && WellConfigured(env)
    requires DecidePart(env, start, decided) && Recorded(env, decided, a)
    ensures a.plan != []
    ensures ClosesOnSelected(a.plan[|a.plan| - 1], a.amount, a.candidate.selected, env.markets[a.task.market],
                             a.candidate.obligation.pubkey, env.tasks(a.task).wallet.payer)
    ensures RefreshesConfigured(a.plan, a.order, env.markets[a.task.market].reserves)
    ensures CreatesMissing(a.plan, |a.order| + 1, env.tasks(a.task).wallet)
  {
    hide MemoryWellFormed, DecisionOf, RefreshOf, CanRefetch, UniqueAddresses, UniqueSymbols, FollowsConfig, PlanOf, DecidePart,
         ClosesOnSelected, ClosesBySymbol, RefreshesConfigured, CreatesMissing, ClosesOn;
    RecordedWarranted(env, start, decided, a);
    var view := Persisted(env, start, a.task.market);
    KnownBook(env, start, a.task);
    var s, market, wallet := a.candidate.selected, env.markets[a.task.market], env.tasks(a.task).wallet;
    PlanContents(a.amount, s.borrow, s.deposit, market, a.candidate.obligation, wallet, a.order);
    ReadsClose(a.plan, a.amount, s.borrow.symbol, s.deposit.symbol, market, a.candidate.obligation.pubkey, wallet, a.order);
    SelectedClose(a.candidate.obligation.inner, view.book, market, a.plan[|a.plan| - 1], a.amount,
                  a.candidate.obligation.pubkey, wallet.payer);
  }

  lemma PlanAmount(amount: u64, borrow: Borrow, deposit: Deposit, market: Market, o: Enhanced, wallet: Wallet, order: seq<Pubkey>)
    requires PlanOf(amount, borrow, deposit, market, o, wallet, order).Success?
    ensures var plan := PlanOf(amount, borrow, deposit, market, o, wallet, order).value;
            plan != [] && plan[|plan| - 1].LiquidateAndRedeem? && plan[|plan| - 1].amount == amount
  {
  }
}
