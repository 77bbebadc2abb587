/**
 A round without panics cannot get stuck: until it returns some step is enabled, and no run is longer than
 the number of its tasks allows. So every schedule that keeps taking enabled steps completes the round.
 */
module RoundProgress {
  import opened Wrappers
  import opened Lending
  import opened Refresh
  import opened Selection
  import opened Plan
  import opened Capsule
  import opened Round
  import opened RoundInvariant
  import opened RoundFacts

  /** No reply of the round makes a task panic: each market can be fetched and each attempt ends. */
  ghost predicate PanicFree(env: Env, start: Memory)
    requires MemoryWellFormed(start)
  {
    forall i :: 0 <= i < |env.markets| ==>
      && CanRefetch(env, start, i)
      && forall k :: k in Persisted(env, start, i).obligations ==>
           OutcomeFor(env, Task(i, k), Persisted(env, start, i)).Finished?
  }

  /** A market's fetch ends: feeds and reserves can be read, and so can its known accounts or its first listing. */
  ghost predicate MarketAnswers(env: Env, start: Memory, i: nat)
    requires i < |env.markets| && MemoryWellFormed(start)
  {
    && Name(env, i) in start.markets
    && var entry, replies := start.markets[Name(env, i)], env.fetches(i);
    && replies.feeds != None
    && replies.reserves != Undecodable
    && (entry.initialized ==> forall k :: k in entry.inner.obligations ==> k in replies.accounts)
    && (!entry.initialized ==> replies.listing != Undecodable)
  }

  lemma CanRefetchExactly(env: Env, start: Memory, i: nat)
    requires i < |env.markets| && MemoryWellFormed(start)
    ensures CanRefetch(env, start, i) <==> MarketAnswers(env, start, i)
  {
    if Name(env, i) in start.markets {
      var entry := start.markets[Name(env, i)];
      assert ViewOf(start.heap, entry).obligations.Keys == entry.inner.obligations.Keys;
    }
  }

  /** A task's attempt ends: nothing to do, or no funds, or every later reply and lookup is there. */
  ghost predicate TaskAnswers(env: Env, t: Task, view: MarketView)
    requires t.market < |env.markets| && t.key in view.obligations
  {
    var o, replies := view.obligations[t.key].inner, env.tasks(t);
    var refreshed, decision := RefreshOf(o, view.book), DecisionOf(o, view.book);
    refreshed.Success? && Flagged(refreshed.value.obligation) ==>
      && decision != None
      && replies.tokenAccount
      && replies.balance != None
      && (replies.balance != Some(0) ==>
            && Resolvable(o, decision.value.borrow.symbol, decision.value.deposit.symbol, env.markets[t.market])
            && replies.blockhash
            && replies.account != None)
  }

  lemma FinishesExactly(env: Env, t: Task, view: MarketView)
    requires t.market < |env.markets| && t.key in view.obligations
    ensures OutcomeFor(env, t, view).Finished? <==> TaskAnswers(env, t, view)
  {
    var d, b := SelectionIsLastMaximum(view.obligations[t.key].inner, view.book);
    hide DecisionOf, RefreshOf, Flagged, Resolvable;
  }

  /** A set of keys can be listed. */
  lemma ListKeys(keys: set<Pubkey>) returns (order: seq<Pubkey>)
    ensures Lists(order, keys) && |order| == |keys|
    ensures (set k | k in order) == keys
    decreases keys
  {
    order := [];
    if keys != {} {
      var x :| x in keys;
      var rest := ListKeys(keys - {x});
      order := rest + [x];
      assert forall k :: k in order <==> k in rest || k == x;
    }
  }

  lemma ListedKeysCanFetch(before: Retriever, replies: FetchReplies) returns (order: seq<Pubkey>)
    requires Answered(replies, before.initialized, before.inner.obligations.Keys)
    ensures CanFetch(before, replies, order)
  {
    order := ListKeys(before.inner.obligations.Keys);
    assert forall j :: 0 <= j < |order| ==> order[j] in before.inner.obligations;
  }

  lemma FetchEnabled(env: Env, start: Memory, s: State, i: nat) returns (step: Step)
    requires MemoryWellFormed(start) && ClonePart(env, start, s.cloned)
    requires i < |env.markets| && i in s.cloned && i !in s.fetched && CanRefetch(env, start, i)
    ensures Do(env, s, step).Some?
  {
    hide Fetch, CanFetch;
    var before := start.markets[Name(env, i)];
    assert ViewOf(start.heap, before).obligations.Keys == before.inner.obligations.Keys;
    var order := ListedKeysCanFetch(before, env.fetches(i));
    step := FinishFetch(i, order);
  }

  lemma DecideEnabled(env: Env, start: Memory, s: State, t: Task)
    requires Given(env, start) && Inv(env, start, s)
    requires t.market in s.snapshots && t.key in s.snapshots[t.market].obligations && t !in s.decided
    ensures Do(env, s, DecideOn(t)).Some?
  {
    hide MemoryPart, ClonePart, FetchPart, PersistPart, PendingPart, UntouchedPart, SnapshotPart, OrderPart,
         DecidePart, AttemptPart, LogPart, MemoryWellFormed, Known, Persisted, IsBook, IsObligation;
    SnapshotReadsPersisted(env, start, s, t);
  }

  lemma AttemptEnabledStep(env: Env, s: State, t: Task, view: MarketView) returns (step: Step)
    requires t.market < |env.markets| && t.key in view.obligations
    requires t in s.decided && t !in s.attempted && s.decided[t] == DecisionFor(view, t.key)
    requires OutcomeFor(env, t, view).Finished?
    ensures Do(env, s, step).Some?
  {
    hide DecisionFor, PlanOf, Resolvable;
    match s.decided[t]
    case None =>
      step := AttemptOn(t, []);
    case Some(c) =>
      var reserves := TotalReserves(c.obligation.inner);
      var order := ListKeys(set a | a in reserves);
      step := AttemptOn(t, order);
      var replies := env.tasks(t);
      if replies.balance.value != 0 {
        PlanExists(replies.balance.value, c.selected.borrow, c.selected.deposit, env.markets[t.market],
                   c.obligation, replies.wallet, order);
      }
  }

  /** The parts of the invariant that decide what is enabled. */
  lemma EnabledFacts(env: Env, start: Memory, s: State)
    requires Given(env, start) && Inv(env, start, s)
    ensures ClonePart(env, start, s.cloned) && OrderPart(env, s) && DecidePart(env, start, s.decided)
    ensures s.memory.markets.Keys == start.markets.Keys
  {
    hide ClonePart, FetchPart, PersistPart, PendingPart, UntouchedPart, SnapshotPart, OrderPart,
         DecidePart, AttemptPart, LogPart, MemoryWellFormed;
  }

  lemma TaskEnabled(env: Env, start: Memory, s: State, t: Task) returns (step: Step)
    requires Given(env, start) && Inv(env, start, s) && PanicFree(env, start)
    requires forall i :: 0 <= i < |env.markets| ==> i in s.snapshots
    requires t.market < |env.markets| && t.key in s.snapshots[t.market].obligations && t !in s.updated
    requires forall u: Task :: u.market < |env.markets| && u.key in s.snapshots[u.market].obligations && t in s.attempted ==> u in s.decided
    ensures Do(env, s, step).Some?
  {
    hide Inv, MemoryWellFormed, Known, DecisionFor, OutcomeFor, Persisted, CanRefetch, DoDecide, DoAttempt;
    if t !in s.decided {
      step := DecideOn(t);
      DecideEnabled(env, start, s, t);
    } else if t !in s.attempted {
      EnabledFacts(env, start, s);
      KnownKey(env, start, t);
      step := AttemptEnabledStep(env, s, t, Persisted(env, start, t.market));
    } else {
      step := WriteBack(t);
    }
  }

  /** The first index at which a property fails. */
  ghost function FirstMissing(have: set<nat>, n: nat): (i: nat)
    requires exists j :: 0 <= j < n && j !in have
    ensures i < n && i !in have && forall j :: 0 <= j < i ==> j in have
    decreases n
  {
    if exists j :: 0 <= j < n - 1 && j !in have then FirstMissing(have, n - 1) else n - 1
  }

  /** The main task's phases: clone, fetch, persist, snapshot. */
  lemma PhaseProgress(env: Env, start: Memory, s: State) returns (step: Step)
    requires MemoryWellFormed(start) && ClonePart(env, start, s.cloned)
    requires s.memory.markets.Keys == start.markets.Keys
    requires forall i :: 0 <= i < |env.markets| ==> CanRefetch(env, start, i)
    requires exists i :: 0 <= i < |env.markets| && i !in s.snapshots.Keys
    ensures Do(env, s, step).Some?
  {
    hide ClonePart, MemoryWellFormed, DoDecide, DoAttempt, DoFetch, DoWriteBack;
    var n := |env.markets|;
    if i :| 0 <= i < n && i !in s.cloned {
      step := CloneCapsule(i);
    } else if i :| 0 <= i < n && i !in s.fetched {
      assert CanRefetch(env, start, i);
      step := FetchEnabled(env, start, s, i);
    } else if i :| 0 <= i < n && i !in s.persisted {
      step := Persist(i);
    } else {
      var i := FirstMissing(s.snapshots.Keys, n);
      assert CanRefetch(env, start, i);
      step := Snapshot(i);
    }
  }

  /** Progress: in every reachable state of a panic-free round that has not returned, some step is enabled. */
  lemma Progress(env: Env, start: Memory, s: State) returns (step: Step)
    requires Given(env, start) && Inv(env, start, s) && PanicFree(env, start) && !Complete(env, s)
    ensures Do(env, s, step).Some?
  {
    EnabledFacts(env, start, s);
    if i :| 0 <= i < |env.markets| && i !in s.snapshots {
      hide Inv, ClonePart, MemoryWellFormed, OrderPart, DecidePart, OutcomeFor, Persisted, Do, Complete, CanRefetch;
      step := PhaseProgress(env, start, s);
    } else {
      hide *;
      step := TaskProgress(env, start, s);
    }
  }

  lemma TaskProgress(env: Env, start: Memory, s: State) returns (step: Step)
    requires Given(env, start) && Inv(env, start, s) && PanicFree(env, start) && !Complete(env, s)
    requires forall i :: 0 <= i < |env.markets| ==> i in s.snapshots
    ensures Do(env, s, step).Some?
  {
    hide Inv, MemoryWellFormed, PanicFree;
    var i, k :| 0 <= i < |env.markets| && k in s.snapshots[i].obligations && Task(i, k) !in s.updated;
    if u: Task :| u.market < |env.markets| && u.key in s.snapshots[u.market].obligations && u !in s.decided {
      step := DecideOn(u);
      DecideEnabled(env, start, s, u);
    } else {
      step := TaskEnabled(env, start, s, Task(i, k));
    }
  }

  // ---------------------------------------------------------------- runs are bounded

  /** Every obligation of every market of the round. */
  ghost function AllTasks(env: Env, start: Memory): set<Task>
    requires MemoryWellFormed(start) && forall i :: 0 <= i < |env.markets| ==> CanRefetch(env, start, i)
  {
    set i, k | 0 <= i < |env.markets| && k in Persisted(env, start, i).obligations :: Task(i, k)
  }

  /** How many task steps a state has behind it. */
  ghost function StepsTaken(s: State): nat {
    |s.cloned| + |s.fetched| + |s.persisted| + |s.snapshots| + |s.decided| + |s.attempted| + |s.updated|
  }

  lemma NewEntry<K, V>(m: map<K, V>, k: K, v: V)
    requires k !in m
    ensures |m[k := v]| == |m| + 1
  {
    assert m[k := v].Keys == m.Keys + {k};
  }

  lemma MainStepCounts(env: Env, s: State, step: Step)
    requires !step.DecideOn? && !step.AttemptOn? && !step.WriteBack? && Do(env, s, step).Some?
    ensures StepsTaken(Do(env, s, step).value) == StepsTaken(s) + 1
  {
    hide Fetch, CanFetch, WithMarketData, DoDecide, DoAttempt, DoWriteBack;
    var s' := Do(env, s, step).value;
    match step
    case CloneCapsule(i) => NewEntry(s.cloned, i, s'.cloned[i]);
    case FinishFetch(i, _) => NewEntry(s.fetched, i, s'.fetched[i]);
    case Persist(i) =>
    case Snapshot(i) => NewEntry(s.snapshots, i, s'.snapshots[i]);
  }

  lemma DecideCounts(env: Env, s: State, t: Task)
    requires DoDecide(env, s, t).Some?
    ensures StepsTaken(DoDecide(env, s, t).value) == StepsTaken(s) + 1
  {
    hide DecisionOf, IsBook, IsObligation;
    var s' := DoDecide(env, s, t).value;
    NewEntry(s.decided, t, s'.decided[t]);
  }

  /** An attempt enters one result, and perhaps logs it. */
  lemma AttemptShape(env: Env, s: State, t: Task, order: seq<Pubkey>)
    requires DoAttempt(env, s, t, order).Some?
    ensures var s' := DoAttempt(env, s, t, order).value;
            t !in s.attempted && t in s'.attempted
            && s' == s.(attempted := s.attempted[t := s'.attempted[t]], log := s'.log)
  {
    hide PlanOf, ReserveOrder;
  }

  lemma AttemptCounts(env: Env, s: State, t: Task, order: seq<Pubkey>)
    requires DoAttempt(env, s, t, order).Some?
    ensures StepsTaken(DoAttempt(env, s, t, order).value) == StepsTaken(s) + 1
  {
    hide DoAttempt;
    var s' := DoAttempt(env, s, t, order).value;
    AttemptShape(env, s, t, order);
    NewEntry(s.attempted, t, s'.attempted[t]);
  }

  lemma WriteBackCounts(env: Env, s: State, t: Task)
    requires DoWriteBack(env, s, t).Some?
    ensures StepsTaken(DoWriteBack(env, s, t).value) == StepsTaken(s) + 1
  {
    hide DecidedUpTo, WithObligation;
  }

  lemma StepCounts(env: Env, s: State, step: Step)
    requires Do(env, s, step).Some?
    ensures StepsTaken(Do(env, s, step).value) == StepsTaken(s) + 1
  {
    hide StepsTaken, DoClone, DoFetch, DoPersist, DoSnapshot, DoDecide, DoAttempt, DoWriteBack;
    match step
    case DecideOn(t) => DecideCounts(env, s, t);
    case AttemptOn(t, order) => AttemptCounts(env, s, t, order);
    case WriteBack(t) => WriteBackCounts(env, s, t);
    case _ => MainStepCounts(env, s, step);
  }

  lemma {:induction false} RunCounts(env: Env, s: State, steps: seq<Step>)
    requires Run(env, s, steps).Some?
    ensures StepsTaken(Run(env, s, steps).value) == StepsTaken(s) + |steps|
  {
    hide Do, StepsTaken;
    if steps != [] {
      var front := steps[..|steps| - 1];
      RunCounts(env, s, front);
      StepCounts(env, Run(env, s, front).value, steps[|steps| - 1]);
    }
  }

  lemma {:induction false} BoundedSet(s: set<nat>, n: nat)
    requires forall i :: i in s ==> i < n
    ensures |s| <= n
  {
    if s != {} {
      if n - 1 in s {
        BoundedSet(s - {n - 1}, n - 1);
      } else {
        BoundedSet(s, n - 1);
      }
    }
  }

  lemma Subset<T>(a: set<T>, b: set<T>)
    requires a <= b
    ensures |a| <= |b|
    decreases a
  {
    if x :| x in a {
      Subset(a - {x}, b - {x});
    }
  }

  lemma IndicesBounded(env: Env, start: Memory, s: State)
    requires Given(env, start) && Inv(env, start, s)
    ensures forall i :: i in s.cloned || i in s.fetched || i in s.persisted || i in s.snapshots ==> i < |env.markets|
    ensures s.decided.Keys >= s.attempted.Keys >= s.updated
  {
    hide FetchPart, PersistPart, PendingPart, UntouchedPart, DecidePart, AttemptPart, LogPart, MemoryWellFormed, MemoryPart;
  }

  lemma TasksBounded(env: Env, start: Memory, decided: map<Task, Option<Candidate>>)
    requires MemoryWellFormed(start) && DecidePart(env, start, decided)
    requires forall i :: 0 <= i < |env.markets| ==> CanRefetch(env, start, i)
    ensures decided.Keys <= AllTasks(env, start)
  {
    hide MemoryWellFormed, DecisionFor, Persisted, CanRefetch;
    forall t | t in decided
      ensures t in AllTasks(env, start)
    {
      assert Known(env, start, t);
      assert Task(t.market, t.key) == t;
    }
  }

  /**
   No run of a round takes more than four steps per market and three per obligation. With Progress, a
   panic-free round always returns: every run can be extended until it is complete, and not for ever.
   */
  lemma RunsAreBounded(env: Env, start: Memory, steps: seq<Step>)
    requires Given(env, start) && Run(env, Start(start), steps).Some?
    requires forall i :: 0 <= i < |env.markets| ==> CanRefetch(env, start, i)
    ensures |steps| <= 4 * |env.markets| + 3 * |AllTasks(env, start)|
  {
    RunKeepsInv(env, start, steps);
    RunCounts(env, Start(start), steps);
    var s := Run(env, Start(start), steps).value;
    IndicesBounded(env, start, s);
    EnabledFacts(env, start, s);
    hide Inv, Run, MemoryWellFormed, CanRefetch, DecidePart, OrderPart, ClonePart, AllTasks;
    var n := |env.markets|;
    BoundedSet(s.cloned.Keys, n);
    BoundedSet(s.fetched.Keys, n);
    BoundedSet(s.persisted, n);
    BoundedSet(s.snapshots.Keys, n);
    TasksBounded(env, start, s.decided);
    Subset(s.decided.Keys, AllTasks(env, start));
    Subset(s.attempted.Keys, s.decided.Keys);
    Subset(s.updated, s.attempted.Keys);
  }

  /** A complete run exists exactly when the round is panic-free; from any state reached, it can be finished. */
  lemma {:induction false} CanFinish(env: Env, start: Memory, steps: seq<Step>) returns (all: seq<Step>)
    requires Given(env, start) && PanicFree(env, start) && Run(env, Start(start), steps).Some?
    ensures steps <= all && Run(env, Start(start), all).Some? && Complete(env, Run(env, Start(start), all).value)
    decreases 4 * |env.markets| + 3 * |AllTasks(env, start)| - |steps|
  {
    var s := Run(env, Start(start), steps).value;
    if Complete(env, s) {
      all := steps;
    } else {
      RunKeepsInv(env, start, steps);
      var step := Progress(env, start, s);
      var longer := steps + [step];
      assert longer[..|longer| - 1] == steps;
      RunsAreBounded(env, start, longer);
      all := CanFinish(env, start, longer);
    }
  }

  /** Only a panic-free round completes. */
  lemma CompleteIsPanicFree(env: Env, start: Memory, s: State)
    requires Given(env, start) && Inv(env, start, s) && Complete(env, s)
    ensures PanicFree(env, start)
  {
    forall i | 0 <= i < |env.markets|
      ensures CanRefetch(env, start, i)
      ensures forall k :: k in Persisted(env, start, i).obligations ==>
                OutcomeFor(env, Task(i, k), Persisted(env, start, i)).Finished?
    {
      hide Inv, Complete, MemoryWellFormed, OutcomeFor, Persisted, CanRefetch;
      CompleteFinished(env, start, s, i);
    }
  }

  /** A round can complete if and only if no reply makes a task panic. */
  lemma CompletesIffPanicFree(env: Env, start: Memory)
    requires Given(env, start)
    ensures PanicFree(env, start) <==>
            exists steps :: Run(env, Start(start), steps).Some? && Complete(env, Run(env, Start(start), steps).value)
  {
    if PanicFree(env, start) {
      assert Run(env, Start(start), []).Some?;
      var all := CanFinish(env, start, []);
    }
    if steps :| Run(env, Start(start), steps).Some? && Complete(env, Run(env, Start(start), steps).value) {
      hide Inv, Run, PanicFree, MemoryWellFormed, Complete;
      RunKeepsInv(env, start, steps);
      CompleteIsPanicFree(env, start, Run(env, Start(start), steps).value);
    }
  }
}
