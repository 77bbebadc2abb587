/**
 The invariant of a round: what every step of every interleaving keeps. Each part speaks of one phase, and
 ties what a task holds to values fixed by the start of the round and the replies.
 */
module RoundInvariant {
  import opened Wrappers
  import opened Lending
  import opened Refresh
  import opened Selection
  import opened Plan
  import opened Capsule
  import opened Round

  /** What the proofs assume of a round: distinct market addresses and a well-formed start. */
  ghost predicate Given(env: Env, start: Memory) {
    DistinctMarkets(env) && MemoryWellFormed(start)
  }

  /** Cells are only added, markets never come or go, entries stay well formed. */
  ghost predicate MemoryPart(start: Memory, memory: Memory) {
    && start.heap <= memory.heap
    && memory.markets.Keys == start.markets.Keys
    && MemoryWellFormed(memory)
  }

  /** A clone's own entry is the one from the start of the round. */
  ghost predicate ClonePart(env: Env, start: Memory, cloned: map<nat, map<string, Retriever>>) {
    forall i :: i in cloned ==>
      && i < |env.markets|
      && (Name(env, i) in cloned[i] <==> Name(env, i) in start.markets)
      && (Name(env, i) in cloned[i] ==> cloned[i][Name(env, i)] == start.markets[Name(env, i)])
  }

  ghost predicate FetchedAs(env: Env, start: Memory, heap: Heap, i: nat, d: MarketData)
    requires MemoryWellFormed(start)
  {
    && i < |env.markets|
    && CanRefetch(env, start, i)
    && WellFormed(heap, d)
    && ObligationsOf(heap, d) == Persisted(env, start, i).obligations
    && BookOf(heap, d) == Persisted(env, start, i).book
  }

  /** Every finished fetch produced the persisted view of its market. */
  ghost predicate FetchPart(env: Env, start: Memory, heap: Heap, fetched: map<nat, MarketData>)
    requires MemoryWellFormed(start)
  {
    forall i :: i in fetched ==> FetchedAs(env, start, heap, i, fetched[i])
  }

  type Updates = map<Task, Option<Enhanced>>

  /** The obligation market i holds under key k: the persisted one, or what a finished write-back put there. */
  ghost function CurrentObligation(attempted: Updates, updated: set<Task>, t: Task, view: MarketView): Enhanced
    requires t.key in view.obligations
  {
    if t in updated && t in attempted && attempted[t].Some? then attempted[t].value
    else view.obligations[t.key]
  }

  /** After its writer, market i holds the fetched data with the finished write-backs on top. */
  ghost predicate HoldsPersisted(env: Env, start: Memory, memory: Memory, attempted: Updates, updated: set<Task>, i: nat)
    requires MemoryWellFormed(start) && MemoryPart(start, memory)
  {
    && i < |env.markets| && CanRefetch(env, start, i)
    && var now := ViewOf(memory.heap, memory.markets[Name(env, i)]);
    var view := Persisted(env, start, i);
    && now.initialized
    && now.book == view.book
    && now.obligations.Keys == view.obligations.Keys
    && forall k :: k in now.obligations ==> now.obligations[k] == CurrentObligation(attempted, updated, Task(i, k), view)
  }

  ghost predicate PersistPart(env: Env, start: Memory, memory: Memory, attempted: Updates, updated: set<Task>,
                              persisted: set<nat>)
    requires MemoryWellFormed(start) && MemoryPart(start, memory)
  {
    forall i :: i in persisted ==> HoldsPersisted(env, start, memory, attempted, updated, i)
  }

  /** Until market i is snapshotted it holds the very cells its fetch allocated. */
  ghost predicate PendingPart(env: Env, memory: Memory, fetched: map<nat, MarketData>, persisted: set<nat>,
                              snapshots: map<nat, MarketData>) {
    forall i :: i in persisted && i !in snapshots ==>
      i < |env.markets| && i in fetched && Name(env, i) in memory.markets && memory.markets[Name(env, i)].inner == fetched[i]
  }

  /** Nothing else has touched a market: not one without a finished writer, not one outside the configuration. */
  ghost predicate UntouchedPart(env: Env, start: Memory, markets: map<string, Retriever>, persisted: set<nat>) {
    forall name :: name in start.markets && (forall i :: i in persisted && i < |env.markets| ==> Name(env, i) != name) ==>
      name in markets && markets[name] == start.markets[name]
  }

  /** A snapshot is the fetched data itself: it was taken after all writers and before any write-back. */
  ghost predicate SnapshotPart(env: Env, fetched: map<nat, MarketData>, persisted: set<nat>, snapshots: map<nat, MarketData>) {
    && (forall i :: i in snapshots ==> i in persisted && i in fetched && snapshots[i] == fetched[i])
    && (forall i, j :: i in snapshots && 0 <= j < |env.markets| ==> j in persisted)
  }

  /** Phases of one market's tasks happen in order. */
  ghost predicate OrderPart(env: Env, s: State) {
    && s.persisted <= s.fetched.Keys <= s.cloned.Keys
    && (forall t :: t in s.decided ==> t.market in s.snapshots)
    && s.updated <= s.attempted.Keys <= s.decided.Keys
    && (forall t, i :: t in s.updated && 0 <= i < |env.markets| ==> i in s.snapshots)
  }

  /** Every decision is the one the persisted values of this round determine. */
  ghost predicate DecidePart(env: Env, start: Memory, decided: map<Task, Option<Candidate>>)
    requires MemoryWellFormed(start)
  {
    forall t :: t in decided ==> Known(env, start, t) && decided[t] == DecisionFor(Persisted(env, start, t.market), t.key)
  }

  /** Every attempt ended as the decision and the replies determine. */
  ghost predicate AttemptPart(env: Env, start: Memory, attempted: Updates)
    requires MemoryWellFormed(start)
  {
    forall t :: t in attempted ==>
      Known(env, start, t) && OutcomeFor(env, t, Persisted(env, start, t.market)) == Finished(attempted[t])
  }

  /** A recorded attempt followed a positive decision, had funds, and sent the plan for that decision. */
  ghost predicate Recorded(env: Env, decided: map<Task, Option<Candidate>>, a: Attempt) {
    && a.task in decided && decided[a.task] == Some(a.candidate)
    && a.task.market < |env.markets|
    && env.tasks(a.task).balance == Some(a.amount) && a.amount > 0
    && ReserveOrder(a.order, a.candidate.obligation.inner)
    && PlanOf(a.amount, a.candidate.selected.borrow, a.candidate.selected.deposit, env.markets[a.task.market],
              a.candidate.obligation, env.tasks(a.task).wallet, a.order) == Success(a.plan)
  }

  /** At most one record per task, and a value to write back only for a recorded attempt. */
  ghost predicate LogPart(env: Env, decided: map<Task, Option<Candidate>>, attempted: Updates, log: seq<Attempt>) {
    && (forall n :: 0 <= n < |log| ==> Recorded(env, decided, log[n]))
    && (forall m, n :: 0 <= m < n < |log| ==> log[m].task != log[n].task)
    && (forall n :: 0 <= n < |log| ==> log[n].task in attempted && attempted[log[n].task].Some?)
    && (forall t :: t in attempted && attempted[t].Some? ==> exists n :: 0 <= n < |log| && log[n].task == t)
  }

  ghost predicate Inv(env: Env, start: Memory, s: State)
    requires MemoryWellFormed(start)
  {
    && MemoryPart(start, s.memory)
    && OrderPart(env, s)
    && ClonePart(env, start, s.cloned)
    && FetchPart(env, start, s.memory.heap, s.fetched)
    && PersistPart(env, start, s.memory, s.attempted, s.updated, s.persisted)
    && PendingPart(env, s.memory, s.fetched, s.persisted, s.snapshots)
    && UntouchedPart(env, start, s.memory.markets, s.persisted)
    && SnapshotPart(env, s.fetched, s.persisted, s.snapshots)
    && DecidePart(env, start, s.decided)
    && AttemptPart(env, start, s.attempted)
    && LogPart(env, s.decided, s.attempted, s.log)
  }

  lemma StartInv(env: Env, start: Memory)
    requires Given(env, start)
    ensures Inv(env, start, Start(start))
  {
  }

  // ---------------------------------------------------------------- fetching

  /** A clone taken before market i's own writer ran holds i's entry from the start of the round. */
  lemma CloneSeesStart(env: Env, start: Memory, s: State, i: nat)
    requires DistinctMarkets(env) && i < |env.markets| && i !in s.persisted
    requires s.memory.markets.Keys == start.markets.Keys
    requires ClonePart(env, start, s.cloned) && UntouchedPart(env, start, s.memory.markets, s.persisted)
    ensures ClonePart(env, start, s.cloned[i := s.memory.markets])
  {
    assert forall j :: j in s.persisted && j < |env.markets| ==> Name(env, j) != Name(env, i);
  }

  lemma CloneKeepsInv(env: Env, start: Memory, s: State, i: nat)
    requires Given(env, start) && Inv(env, start, s) && DoClone(env, s, i).Some?
    ensures Inv(env, start, DoClone(env, s, i).value)
  {
    hide ClonePart, FetchPart, PersistPart, PendingPart, UntouchedPart, SnapshotPart, DecidePart, AttemptPart, LogPart;
    hide MemoryWellFormed;
    CloneSeesStart(env, start, s, i);
  }

  lemma FetchPartGrows(env: Env, start: Memory, heap: Heap, heap': Heap, fetched: map<nat, MarketData>)
    requires MemoryWellFormed(start) && heap <= heap' && FetchPart(env, start, heap, fetched)
    ensures FetchPart(env, start, heap', fetched)
  {
    hide MemoryWellFormed, CanRefetch, Persisted;
    forall i | i in fetched
      ensures FetchedAs(env, start, heap', i, fetched[i])
    {
      assert FetchedAs(env, start, heap, i, fetched[i]);
      ViewStable(heap, heap', fetched[i]);
    }
  }

  /** The same markets over more cells. */
  lemma MemoryGrows(start: Memory, memory: Memory, heap': Heap)
    requires MemoryPart(start, memory) && memory.heap <= heap'
    ensures MemoryPart(start, memory.(heap := heap'))
    ensures forall name :: name in memory.markets ==>
              ViewOf(heap', memory.markets[name]) == ViewOf(memory.heap, memory.markets[name])
  {
    forall name | name in memory.markets
      ensures WellFormed(heap', memory.markets[name].inner)
      ensures ViewOf(heap', memory.markets[name]) == ViewOf(memory.heap, memory.markets[name])
    {
      ViewStable(memory.heap, heap', memory.markets[name].inner);
    }
  }

  lemma PersistPartGrows(env: Env, start: Memory, memory: Memory, heap': Heap, attempted: Updates, updated: set<Task>,
                         persisted: set<nat>)
    requires MemoryWellFormed(start) && MemoryPart(start, memory) && MemoryPart(start, memory.(heap := heap'))
    requires memory.heap <= heap' && PersistPart(env, start, memory, attempted, updated, persisted)
    ensures PersistPart(env, start, memory.(heap := heap'), attempted, updated, persisted)
  {
    hide MemoryWellFormed, Persisted, CurrentObligation;
    MemoryGrows(start, memory, heap');
    forall i | i in persisted
      ensures HoldsPersisted(env, start, memory.(heap := heap'), attempted, updated, i)
    {
      assert HoldsPersisted(env, start, memory, attempted, updated, i);
    }
  }

  /** The fetch made from the clone is the persisted view of the market. */
  lemma FetchYieldsPersisted(env: Env, start: Memory, heap: Heap, i: nat, before: Retriever, order: seq<Pubkey>)
    requires MemoryWellFormed(start) && start.heap <= heap && i < |env.markets|
    requires Name(env, i) in start.markets && before == start.markets[Name(env, i)]
    requires CanFetch(before, env.fetches(i), order)
    ensures var (h, data) := Fetch(heap, before, env.fetches(i), order);
            heap <= h && FetchedAs(env, start, h, i, data)
  {
    hide Fetch, CanFetch;
    FetchMeans(heap, before, env.fetches(i), order);
    assert ViewOf(start.heap, before).obligations.Keys == before.inner.obligations.Keys;
  }

  /** A finished fetch adds cells and one entry, holding the persisted view of its market. */
  lemma FetchStep(env: Env, start: Memory, s: State, i: nat, order: seq<Pubkey>)
    requires MemoryWellFormed(start) && start.heap <= s.memory.heap
    requires ClonePart(env, start, s.cloned) && DoFetch(env, s, i, order).Some?
    ensures var s' := DoFetch(env, s, i, order).value;
            && i in s'.fetched && i !in s.fetched && i in s.cloned
            && s.memory.heap <= s'.memory.heap
            && FetchedAs(env, start, s'.memory.heap, i, s'.fetched[i])
            && s' == s.(memory := s.memory.(heap := s'.memory.heap), fetched := s.fetched[i := s'.fetched[i]])
  {
    hide FetchedAs, MemoryWellFormed, Fetch, CanFetch;
    var before := s.cloned[i][Name(env, i)];
    assert before == start.markets[Name(env, i)];
    FetchYieldsPersisted(env, start, s.memory.heap, i, before, order);
  }

  lemma FetchPartAfter(env: Env, start: Memory, heap: Heap, heap': Heap, fetched: map<nat, MarketData>, i: nat, data: MarketData)
    requires MemoryWellFormed(start) && heap <= heap'
    requires FetchPart(env, start, heap, fetched) && FetchedAs(env, start, heap', i, data)
    ensures FetchPart(env, start, heap', fetched[i := data])
  {
    FetchPartGrows(env, start, heap, heap', fetched);
    hide FetchedAs, MemoryWellFormed;
  }

  lemma BookkeepingAfterFetch(env: Env, s: State, i: nat, data: MarketData, heap': Heap)
    requires OrderPart(env, s) && i in s.cloned && i !in s.fetched
    requires SnapshotPart(env, s.fetched, s.persisted, s.snapshots)
    requires PendingPart(env, s.memory, s.fetched, s.persisted, s.snapshots)
    ensures OrderPart(env, s.(memory := s.memory.(heap := heap'), fetched := s.fetched[i := data]))
    ensures SnapshotPart(env, s.fetched[i := data], s.persisted, s.snapshots)
    ensures PendingPart(env, s.memory.(heap := heap'), s.fetched[i := data], s.persisted, s.snapshots)
  {
  }

  lemma FetchKeepsInv(env: Env, start: Memory, s: State, i: nat, order: seq<Pubkey>)
    requires Given(env, start) && Inv(env, start, s) && DoFetch(env, s, i, order).Some?
    ensures Inv(env, start, DoFetch(env, s, i, order).value)
  {
    assert start.heap <= s.memory.heap;
    hide OrderPart, ClonePart, FetchPart, PersistPart, PendingPart, UntouchedPart, SnapshotPart, DecidePart, AttemptPart,
         LogPart, MemoryPart, MemoryWellFormed, FetchedAs, DoFetch;
    FetchStep(env, start, s, i, order);
    var s' := DoFetch(env, s, i, order).value;
    MemoryGrows(start, s.memory, s'.memory.heap);
    FetchPartAfter(env, start, s.memory.heap, s'.memory.heap, s.fetched, i, s'.fetched[i]);
    PersistPartGrows(env, start, s.memory, s'.memory.heap, s.attempted, s.updated, s.persisted);
    BookkeepingAfterFetch(env, s, i, s'.fetched[i], s'.memory.heap);
  }

  // ---------------------------------------------------------------- persisting

  /** Before any write-back, a fetched market entry holds the persisted view. */
  lemma EntryHoldsPersisted(env: Env, start: Memory, memory: Memory, attempted: Updates, updated: set<Task>, i: nat)
    requires MemoryWellFormed(start) && MemoryPart(start, memory) && i < |env.markets|
    requires Name(env, i) in memory.markets && memory.markets[Name(env, i)].initialized
    requires FetchedAs(env, start, memory.heap, i, memory.markets[Name(env, i)].inner)
    requires forall t :: t in updated ==> t.market != i
    ensures HoldsPersisted(env, start, memory, attempted, updated, i)
  {
    hide MemoryWellFormed, CanRefetch, Persisted;
    assert forall k :: Task(i, k) !in updated;
  }

  lemma WriterMemory(start: Memory, memory: Memory, name: string, data: MarketData)
    requires MemoryPart(start, memory) && WellFormed(memory.heap, data) && name in memory.markets
    ensures MemoryPart(start, WithMarketData(memory, name, data))
  {
    hide WellFormed;
  }

  lemma PersistPartAfterWriter(env: Env, start: Memory, s: State, i: nat)
    requires DistinctMarkets(env) && MemoryWellFormed(start) && MemoryPart(start, s.memory)
    requires i < |env.markets| && i in s.fetched && i !in s.persisted && Name(env, i) in s.memory.markets
    requires FetchedAs(env, start, s.memory.heap, i, s.fetched[i])
    requires MemoryPart(start, WithMarketData(s.memory, Name(env, i), s.fetched[i]))
    requires forall t :: t in s.updated ==> t.market != i
    requires PersistPart(env, start, s.memory, s.attempted, s.updated, s.persisted)
    ensures PersistPart(env, start, WithMarketData(s.memory, Name(env, i), s.fetched[i]), s.attempted, s.updated,
                        s.persisted + {i})
  {
    hide MemoryWellFormed, CanRefetch, Persisted, CurrentObligation, FetchedAs;
    var memory' := WithMarketData(s.memory, Name(env, i), s.fetched[i]);
    EntryHoldsPersisted(env, start, memory', s.attempted, s.updated, i);
    forall j | j in s.persisted
      ensures HoldsPersisted(env, start, memory', s.attempted, s.updated, j)
    {
      assert HoldsPersisted(env, start, s.memory, s.attempted, s.updated, j);
      assert Name(env, j) != Name(env, i);
    }
  }

  lemma PersistStep(env: Env, s: State, i: nat)
    requires DoPersist(env, s, i).Some?
    ensures i < |env.markets| && i in s.fetched && i !in s.persisted
    ensures DoPersist(env, s, i).value ==
            s.(memory := WithMarketData(s.memory, Name(env, i), s.fetched[i]), persisted := s.persisted + {i})
  {
  }

  lemma BookkeepingAfterPersist(env: Env, start: Memory, s: State, i: nat)
    requires DistinctMarkets(env) && i < |env.markets| && i in s.fetched && i !in s.persisted
    requires Name(env, i) in s.memory.markets
    requires OrderPart(env, s) && SnapshotPart(env, s.fetched, s.persisted, s.snapshots)
    requires PendingPart(env, s.memory, s.fetched, s.persisted, s.snapshots)
    requires s.memory.markets.Keys == start.markets.Keys
    requires UntouchedPart(env, start, s.memory.markets, s.persisted)
    ensures var s' := s.(memory := WithMarketData(s.memory, Name(env, i), s.fetched[i]), persisted := s.persisted + {i});
            && OrderPart(env, s')
            && SnapshotPart(env, s.fetched, s'.persisted, s.snapshots)
            && PendingPart(env, s'.memory, s.fetched, s'.persisted, s.snapshots)
            && UntouchedPart(env, start, s'.memory.markets, s'.persisted)
    ensures forall t :: t in s.updated ==> t.market != i
  {
    assert forall j :: 0 <= j < |env.markets| && j != i ==> Name(env, j) != Name(env, i);
  }

  lemma PersistKeepsInv(env: Env, start: Memory, s: State, i: nat)
    requires Given(env, start) && Inv(env, start, s) && DoPersist(env, s, i).Some?
    ensures Inv(env, start, DoPersist(env, s, i).value)
  {
    PersistStep(env, s, i);
    assert FetchedAs(env, start, s.memory.heap, i, s.fetched[i]) && Name(env, i) in s.memory.markets by {
      hide PersistPart, PendingPart, UntouchedPart, SnapshotPart, DecidePart, AttemptPart, LogPart, MemoryWellFormed;
      assert FetchedAs(env, start, s.memory.heap, i, s.fetched[i]);
    }
    assert WellFormed(s.memory.heap, s.fetched[i]);
    assert s.memory.markets.Keys == start.markets.Keys;
    hide OrderPart, ClonePart, FetchPart, PersistPart, PendingPart, UntouchedPart, SnapshotPart, DecidePart, AttemptPart,
         LogPart, MemoryPart, MemoryWellFormed, FetchedAs, DoPersist, WellFormed;
    WriterMemory(start, s.memory, Name(env, i), s.fetched[i]);
    BookkeepingAfterPersist(env, start, s, i);
    PersistPartAfterWriter(env, start, s, i);
  }

  // ---------------------------------------------------------------- snapshots and decisions

  lemma SnapshotKeepsInv(env: Env, start: Memory, s: State, i: nat)
    requires Given(env, start) && Inv(env, start, s) && DoSnapshot(env, s, i).Some?
    ensures Inv(env, start, DoSnapshot(env, s, i).value)
  {
    hide MemoryPart, ClonePart, FetchPart, PersistPart, UntouchedPart, DecidePart, AttemptPart, LogPart, MemoryWellFormed;
    assert i in s.persisted;
    assert s.memory.markets[Name(env, i)].inner == s.fetched[i];
  }

  /** What a decision task reads through its snapshot, at any time, is the persisted view of its market. */
  lemma SnapshotReadsPersisted(env: Env, start: Memory, s: State, t: Task)
    requires Given(env, start) && Inv(env, start, s)
    requires t.market in s.snapshots && t.key in s.snapshots[t.market].obligations
    ensures Known(env, start, t)
    ensures var data, view := s.snapshots[t.market], Persisted(env, start, t.market);
            && IsObligation(s.memory.heap, data.obligations[t.key]) && IsBook(s.memory.heap, data)
            && s.memory.heap[data.obligations[t.key]].obligation == view.obligations[t.key]
            && Book(s.memory.heap[data.reserves].reserves, s.memory.heap[data.oracleData].oracles) == view.book
  {
    hide MemoryPart, ClonePart, PersistPart, PendingPart, UntouchedPart, DecidePart, AttemptPart, LogPart,
         MemoryWellFormed, CanRefetch, Persisted;
    var data := s.snapshots[t.market];
    assert FetchedAs(env, start, s.memory.heap, t.market, data);
    FetchedReads(env, start, s.memory.heap, t, data);
  }

  lemma FetchedReads(env: Env, start: Memory, heap: Heap, t: Task, data: MarketData)
    requires MemoryWellFormed(start) && FetchedAs(env, start, heap, t.market, data)
    ensures t.key in data.obligations <==> Known(env, start, t)
    ensures t.key in data.obligations ==>
              var view := Persisted(env, start, t.market);
              && IsObligation(heap, data.obligations[t.key]) && IsBook(heap, data)
              && heap[data.obligations[t.key]].obligation == view.obligations[t.key]
              && view.obligations[t.key].pubkey == t.key
              && Book(heap[data.reserves].reserves, heap[data.oracleData].oracles) == view.book
  {
    hide MemoryWellFormed, CanRefetch, Persisted;
    assert t.key in data.obligations <==> t.key in ObligationsOf(heap, data);
    assert t.key in data.obligations ==> ObligationAt(heap, data.obligations[t.key], t.key);
  }

  lemma LogIgnoresDecision(env: Env, s: State, t: Task, d: Option<Candidate>)
    requires LogPart(env, s.decided, s.attempted, s.log) && t !in s.decided
    ensures LogPart(env, s.decided[t := d], s.attempted, s.log)
  {
    hide PlanOf, ReserveOrder;
    forall n | 0 <= n < |s.log|
      ensures Recorded(env, s.decided[t := d], s.log[n])
    {
      assert Recorded(env, s.decided, s.log[n]);
    }
  }

  lemma DecidePartAfter(env: Env, start: Memory, decided: map<Task, Option<Candidate>>, t: Task)
    requires MemoryWellFormed(start) && DecidePart(env, start, decided) && Known(env, start, t)
    ensures DecidePart(env, start, decided[t := DecisionFor(Persisted(env, start, t.market), t.key)])
  {
    hide MemoryWellFormed, Known, DecisionFor, Persisted;
  }

  lemma DecideKeepsInv(env: Env, start: Memory, s: State, t: Task)
    requires Given(env, start) && Inv(env, start, s) && DoDecide(env, s, t).Some?
    ensures Inv(env, start, DoDecide(env, s, t).value)
  {
    hide MemoryPart, ClonePart, FetchPart, PersistPart, PendingPart, UntouchedPart, SnapshotPart, DecidePart, AttemptPart,
         LogPart, MemoryWellFormed, DecisionOf, Persisted, IsBook, IsObligation;
    SnapshotReadsPersisted(env, start, s, t);
    var d := DecisionFor(Persisted(env, start, t.market), t.key);
    assert DoDecide(env, s, t).value == s.(decided := s.decided[t := d]);
    DecidePartAfter(env, start, s.decided, t);
    LogIgnoresDecision(env, s, t, d);
  }

  // ---------------------------------------------------------------- attempts

  /** An attempt that does not panic ends as the decision and the replies determine, in every plan order. */
  lemma AttemptOutcome(env: Env, s: State, t: Task, order: seq<Pubkey>, view: MarketView)
    requires DoAttempt(env, s, t, order).Some?
    requires t.key in view.obligations && s.decided[t] == DecisionFor(view, t.key)
    ensures var s' := DoAttempt(env, s, t, order).value;
            && s'.attempted.Keys == s.attempted.Keys + {t}
            && OutcomeFor(env, t, view) == Finished(s'.attempted[t])
            && s' == s.(attempted := s.attempted[t := s'.attempted[t]], log := s'.log)
  {
    hide DecisionFor, PlanOf, Resolvable;
    match s.decided[t]
    case None =>
    case Some(c) =>
      var replies := env.tasks(t);
      if replies.balance.Some? && replies.balance.value != 0 && ReserveOrder(order, c.obligation.inner) {
        PlanExists(replies.balance.value, c.selected.borrow, c.selected.deposit, env.markets[t.market],
                   c.obligation, replies.wallet, order);
      }
  }

  /** An attempt adds a record exactly when it leaves something to write back. */
  lemma AttemptRecord(env: Env, s: State, t: Task, order: seq<Pubkey>)
    requires DoAttempt(env, s, t, order).Some?
    ensures var s' := DoAttempt(env, s, t, order).value;
            && t in s'.attempted
            && (s'.attempted[t] == None ==> s'.log == s.log)
            && (s'.attempted[t].Some? ==>
                  && |s'.log| == |s.log| + 1 && s'.log[..|s.log|] == s.log && s'.log[|s.log|].task == t
                  && Recorded(env, s.decided, s'.log[|s.log|]))
  {
    hide PlanOf, ReserveOrder;
  }

  lemma AttemptLogged(env: Env, s: State, t: Task, order: seq<Pubkey>)
    requires DoAttempt(env, s, t, order).Some? && LogPart(env, s.decided, s.attempted, s.log)
    requires t !in s.attempted
    requires var s' := DoAttempt(env, s, t, order).value;
             t in s'.attempted && s'.attempted == s.attempted[t := s'.attempted[t]]
    ensures var s' := DoAttempt(env, s, t, order).value; LogPart(env, s.decided, s'.attempted, s'.log)
  {
    hide DoAttempt, Recorded;
    var s' := DoAttempt(env, s, t, order).value;
    AttemptRecord(env, s, t, order);
    assert forall n :: 0 <= n < |s.log| ==> s'.log[n] == s.log[n];
    forall u | u in s'.attempted && s'.attempted[u].Some?
      ensures exists n :: 0 <= n < |s'.log| && s'.log[n].task == u
    {
      if u != t {
        var n :| 0 <= n < |s.log| && s.log[n].task == u;
        assert s'.log[n] == s.log[n];
      }
    }
  }

  lemma PersistPartIgnoresAttempt(env: Env, start: Memory, s: State, t: Task, e: Option<Enhanced>)
    requires MemoryWellFormed(start) && MemoryPart(start, s.memory) && t !in s.updated
    requires PersistPart(env, start, s.memory, s.attempted, s.updated, s.persisted)
    ensures PersistPart(env, start, s.memory, s.attempted[t := e], s.updated, s.persisted)
  {
    hide MemoryWellFormed, MemoryPart, CanRefetch, Persisted;
    forall i | i in s.persisted
      ensures HoldsPersisted(env, start, s.memory, s.attempted[t := e], s.updated, i)
    {
      assert HoldsPersisted(env, start, s.memory, s.attempted, s.updated, i);
    }
  }

  lemma AttemptPartAfter(env: Env, start: Memory, attempted: Updates, t: Task, e: Option<Enhanced>)
    requires MemoryWellFormed(start) && AttemptPart(env, start, attempted) && Known(env, start, t)
    requires OutcomeFor(env, t, Persisted(env, start, t.market)) == Finished(e)
    ensures AttemptPart(env, start, attempted[t := e])
  {
    hide MemoryWellFormed, Known, OutcomeFor, Persisted;
  }

  lemma AttemptEnabled(env: Env, start: Memory, s: State, t: Task, order: seq<Pubkey>)
    requires MemoryWellFormed(start) && DoAttempt(env, s, t, order).Some?
    requires OrderPart(env, s) && DecidePart(env, start, s.decided)
    ensures t in s.decided && t !in s.attempted && t !in s.updated && Known(env, start, t)
    ensures s.decided[t] == DecisionFor(Persisted(env, start, t.market), t.key)
  {
    hide MemoryWellFormed, DecisionFor, PlanOf, ReserveOrder;
  }

  lemma OrderAfterAttempt(env: Env, s: State, t: Task, e: Option<Enhanced>, log: seq<Attempt>)
    requires OrderPart(env, s) && t in s.decided
    ensures OrderPart(env, s.(attempted := s.attempted[t := e], log := log))
  {
  }

  lemma AttemptKeepsInv(env: Env, start: Memory, s: State, t: Task, order: seq<Pubkey>)
    requires Given(env, start) && Inv(env, start, s) && DoAttempt(env, s, t, order).Some?
    ensures Inv(env, start, DoAttempt(env, s, t, order).value)
  {
    hide OrderPart, MemoryPart, ClonePart, FetchPart, PersistPart, PendingPart, UntouchedPart, SnapshotPart, DecidePart,
         AttemptPart, LogPart, MemoryWellFormed, DecisionFor, OutcomeFor, Persisted, CanRefetch, DoAttempt;
    AttemptEnabled(env, start, s, t, order);
    AttemptOutcome(env, s, t, order, Persisted(env, start, t.market));
    var s' := DoAttempt(env, s, t, order).value;
    AttemptPartAfter(env, start, s.attempted, t, s'.attempted[t]);
    PersistPartIgnoresAttempt(env, start, s, t, s'.attempted[t]);
    AttemptLogged(env, s, t, order);
    OrderAfterAttempt(env, s, t, s'.attempted[t], s'.log);
  }

  // ---------------------------------------------------------------- write-backs

  /** A write-back goes to the key the task was started for. */
  lemma WriteBackKey(env: Env, t: Task, view: MarketView)
    requires t.market < |env.markets| && t.key in view.obligations && view.obligations[t.key].pubkey == t.key
    requires OutcomeFor(env, t, view).Finished? && OutcomeFor(env, t, view).update.Some?
    ensures OutcomeFor(env, t, view).update.value.pubkey == t.key
  {
    hide DecisionOf, Resolvable;
  }

  /** Replacing one obligation of one market, on views. */
  lemma WithObligationMeans(m: Memory, market: string, e: Enhanced)
    requires MemoryWellFormed(m) && market in m.markets
    ensures var m' := WithObligation(m, market, e);
            && m.heap <= m'.heap && m'.markets.Keys == m.markets.Keys && MemoryWellFormed(m')
            && (forall name :: name in m.markets && name != market ==>
                  && m'.markets[name] == m.markets[name]
                  && ViewOf(m'.heap, m'.markets[name]) == ViewOf(m.heap, m.markets[name]))
            && var view := ViewOf(m.heap, m.markets[market]);
               ViewOf(m'.heap, m'.markets[market]) == view.(obligations := view.obligations[e.pubkey := e])
  {
    var m' := WithObligation(m, market, e);
    assert m.heap <= m'.heap;
    forall name | name in m.markets
      ensures WellFormed(m'.heap, m.markets[name].inner)
      ensures ViewOf(m'.heap, m.markets[name]) == ViewOf(m.heap, m.markets[name])
    {
      ViewStable(m.heap, m'.heap, m.markets[name].inner);
    }
    ReplacedEntry(m.heap, m.markets[market], e);
  }

  lemma ReplacedEntry(heap: Heap, r: Retriever, e: Enhanced)
    requires WellFormed(heap, r.inner)
    ensures var heap' := heap + [ObligationCell(e)];
            var r' := r.(inner := r.inner.(obligations := r.inner.obligations[e.pubkey := |heap|]));
            && WellFormed(heap', r'.inner)
            && ViewOf(heap', r') == ViewOf(heap, r).(obligations := ViewOf(heap, r).obligations[e.pubkey := e])
  {
    var heap' := heap + [ObligationCell(e)];
    var inner' := r.inner.(obligations := r.inner.obligations[e.pubkey := |heap|]);
    forall k | k in inner'.obligations
      ensures ObligationAt(heap', inner'.obligations[k], k)
    {
      assert k != e.pubkey ==> ObligationAt(heap, r.inner.obligations[k], k);
    }
    assert forall k :: k in r.inner.obligations ==> ObligationAt(heap, r.inner.obligations[k], k);
    assert ObligationsOf(heap', inner') == ObligationsOf(heap, r.inner)[e.pubkey := e];
  }

  /** Marking a task without an update as done changes no current obligation. */
  lemma NothingToWrite(env: Env, start: Memory, s: State, t: Task)
    requires MemoryWellFormed(start) && MemoryPart(start, s.memory) && t in s.attempted && s.attempted[t] == None
    requires PersistPart(env, start, s.memory, s.attempted, s.updated, s.persisted)
    ensures PersistPart(env, start, s.memory, s.attempted, s.updated + {t}, s.persisted)
  {
    hide MemoryWellFormed, MemoryPart, CanRefetch, Persisted;
    forall i | i in s.persisted
      ensures HoldsPersisted(env, start, s.memory, s.attempted, s.updated + {t}, i)
    {
      assert HoldsPersisted(env, start, s.memory, s.attempted, s.updated, i);
    }
  }

  lemma PersistPartAfterWriteBack(env: Env, start: Memory, s: State, t: Task, e: Enhanced)
    requires DistinctMarkets(env) && MemoryWellFormed(start) && MemoryPart(start, s.memory)
    requires t.market < |env.markets| && Name(env, t.market) in s.memory.markets
    requires t in s.attempted && s.attempted[t] == Some(e) && e.pubkey == t.key && Known(env, start, t)
    requires PersistPart(env, start, s.memory, s.attempted, s.updated, s.persisted)
    ensures var memory' := WithObligation(s.memory, Name(env, t.market), e);
            MemoryPart(start, memory') && s.memory.heap <= memory'.heap
    ensures PersistPart(env, start, WithObligation(s.memory, Name(env, t.market), e), s.attempted, s.updated + {t}, s.persisted)
  {
    hide MemoryWellFormed, Persisted, WithObligation, WellFormed, ViewOf;
    var memory' := WithObligation(s.memory, Name(env, t.market), e);
    WithObligationMeans(s.memory, Name(env, t.market), e);
    forall i | i in s.persisted
      ensures HoldsPersisted(env, start, memory', s.attempted, s.updated + {t}, i)
    {
      assert HoldsPersisted(env, start, s.memory, s.attempted, s.updated, i);
      assert i != t.market ==> Name(env, i) != Name(env, t.market);
    }
  }

  lemma WriteBackStep(env: Env, s: State, t: Task)
    requires DoWriteBack(env, s, t).Some?
    ensures t in s.attempted && t.market < |env.markets|
    ensures forall i :: 0 <= i < |env.markets| ==> i in s.snapshots
    ensures DoWriteBack(env, s, t).value ==
            s.(memory := if s.attempted[t].Some? then WithObligation(s.memory, Name(env, t.market), s.attempted[t].value) else s.memory,
               updated := s.updated + {t})
    ensures var markets' := DoWriteBack(env, s, t).value.memory.markets;
            && markets'.Keys == s.memory.markets.Keys
            && forall name :: name in s.memory.markets && name != Name(env, t.market) ==> markets'[name] == s.memory.markets[name]
  {
    hide DecidedUpTo;
  }

  lemma WriteBackHasFetched(env: Env, start: Memory, s: State, t: Task)
    requires OrderPart(env, s) && MemoryPart(start, s.memory) && t in s.attempted
    requires SnapshotPart(env, s.fetched, s.persisted, s.snapshots)
    ensures t.market in s.fetched && s.memory.markets.Keys == start.markets.Keys
  {
    hide MemoryWellFormed;
  }

  /** What a task is about to write back belongs to the task's own key. */
  lemma WriteBackOwnKey(env: Env, start: Memory, s: State, t: Task)
    requires MemoryWellFormed(start) && MemoryPart(start, s.memory)
    requires AttemptPart(env, start, s.attempted) && FetchPart(env, start, s.memory.heap, s.fetched)
    requires t in s.attempted && s.attempted[t].Some? && t.market in s.fetched
    ensures Known(env, start, t) && t.market < |env.markets| && Name(env, t.market) in s.memory.markets
    ensures s.attempted[t].value.pubkey == t.key
  {
    hide MemoryWellFormed, Persisted, OutcomeFor;
    KnownKey(env, start, t);
    assert FetchedAs(env, start, s.memory.heap, t.market, s.fetched[t.market]);
    FetchedReads(env, start, s.memory.heap, t, s.fetched[t.market]);
    WriteBackKey(env, t, Persisted(env, start, t.market));
  }

  lemma BookkeepingAfterWriteBack(env: Env, start: Memory, s: State, t: Task, memory': Memory)
    requires t in s.attempted && t.market < |env.markets| && forall i :: 0 <= i < |env.markets| ==> i in s.snapshots
    requires OrderPart(env, s) && s.memory.markets.Keys == start.markets.Keys == memory'.markets.Keys
    requires forall name :: name in s.memory.markets && name != Name(env, t.market) ==>
               memory'.markets[name] == s.memory.markets[name]
    requires UntouchedPart(env, start, s.memory.markets, s.persisted)
    requires PendingPart(env, s.memory, s.fetched, s.persisted, s.snapshots)
    requires SnapshotPart(env, s.fetched, s.persisted, s.snapshots)
    ensures OrderPart(env, s.(memory := memory', updated := s.updated + {t}))
    ensures UntouchedPart(env, start, memory'.markets, s.persisted)
    ensures PendingPart(env, memory', s.fetched, s.persisted, s.snapshots)
  {
    assert t.market in s.persisted;
    assert forall i :: i in s.persisted ==> i in s.snapshots by {
      assert PendingPart(env, s.memory, s.fetched, s.persisted, s.snapshots);
    }
  }

  lemma WriteBackKeepsInv(env: Env, start: Memory, s: State, t: Task)
    requires Given(env, start) && Inv(env, start, s) && DoWriteBack(env, s, t).Some?
    ensures Inv(env, start, DoWriteBack(env, s, t).value)
  {
    hide OrderPart, ClonePart, FetchPart, PersistPart, PendingPart, UntouchedPart, SnapshotPart, DecidePart, AttemptPart,
         LogPart, MemoryPart, MemoryWellFormed, Known, DoWriteBack, WithObligation;
    WriteBackStep(env, s, t);
    var s' := DoWriteBack(env, s, t).value;
    WriteBackHasFetched(env, start, s, t);
    if s.attempted[t].Some? {
      var e := s.attempted[t].value;
      WriteBackOwnKey(env, start, s, t);
      PersistPartAfterWriteBack(env, start, s, t, e);
      FetchPartGrows(env, start, s.memory.heap, s'.memory.heap, s.fetched);
    } else {
      NothingToWrite(env, start, s, t);
    }
    BookkeepingAfterWriteBack(env, start, s, t, s'.memory);
  }

  lemma KnownKey(env: Env, start: Memory, t: Task)
    requires MemoryWellFormed(start) && Known(env, start, t)
    ensures t.market < |env.markets| && CanRefetch(env, start, t.market)
    ensures t.key in Persisted(env, start, t.market).obligations
  {
  }

  // ---------------------------------------------------------------- all steps, all runs

  lemma StepKeepsInv(env: Env, start: Memory, s: State, step: Step)
    requires Given(env, start) && Inv(env, start, s) && Do(env, s, step).Some?
    ensures Inv(env, start, Do(env, s, step).value)
  {
    match step
    case CloneCapsule(i) => CloneKeepsInv(env, start, s, i);
    case FinishFetch(i, order) => FetchKeepsInv(env, start, s, i, order);
    case Persist(i) => PersistKeepsInv(env, start, s, i);
    case Snapshot(i) => SnapshotKeepsInv(env, start, s, i);
    case DecideOn(t) => DecideKeepsInv(env, start, s, t);
    case AttemptOn(t, order) => AttemptKeepsInv(env, start, s, t, order);
    case WriteBack(t) => WriteBackKeepsInv(env, start, s, t);
  }

  /** The invariant holds after every run, whatever the interleaving. */
  lemma {:induction false} RunKeepsInv(env: Env, start: Memory, steps: seq<Step>)
    requires Given(env, start) && Run(env, Start(start), steps).Some?
    ensures Inv(env, start, Run(env, Start(start), steps).value)
  {
    if steps == [] {
      StartInv(env, start);
    } else {
      var front := steps[..|steps| - 1];
      RunKeepsInv(env, start, front);
      StepKeepsInv(env, start, Run(env, Start(start), front).value, steps[|steps| - 1]);
    }
  }
}
