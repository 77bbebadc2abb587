/**
 The capsule as the mutable object the liquidator shares, and one round executed sequentially on it: market
 by market, obligation by obligation. The round is also a run of the concurrent state machine, so it ends
 in the same result as every other interleaving.
 */
module Liquidator {
  import opened Wrappers
  import opened Lending
  import opened Refresh
  import opened Selection
  import opened Plan
  import opened Capsule
  import opened Round
  import opened RoundInvariant
  import opened RoundFacts
  import opened RoundProgress

  lemma {:induction false} ListsCount(order: seq<Pubkey>, keys: set<Pubkey>)
    requires Lists(order, keys)
    ensures |order| == |keys|
  {
    if order != [] {
      var n := |order| - 1;
      assert order[n] in keys;
      forall x
        ensures x in order[..n] <==> x in keys - {order[n]}
      {
        assert x in order <==> x in order[..n] || x == order[n];
      }
      ListsCount(order[..n], keys - {order[n]});
    } else {
      assert keys == {};
    }
  }

  class MarketsCapsule {
    var markets: map<string, Retriever>
    var heap: Heap

    ghost function Contents(): Memory
      reads this
    {
      Memory(markets, heap)
    }

    constructor ()
      ensures Contents() == Memory(map[], [])
    {
      markets, heap := map[], [];
    }

    /** Arc::new: a cell nobody else holds. */
    method Allocate(cell: Cell) returns (arc: nat)
      modifies this`heap
      ensures arc == old(|heap|) && heap == old(heap) + [cell]
    {
      arc := |heap|;
      heap := heap + [cell];
    }

    method UpdateInitially(market: string)
      modifies this
      ensures Contents() == Register(old(Contents()), market)
      ensures heap == old(heap) + [OraclesCell(map[]), ReservesCell(map[])]
      ensures markets == old(markets)[market := Retriever(MarketData(|old(heap)|, map[], |old(heap)| + 1), market, false)]
    {
      var oracleData := Allocate(OraclesCell(map[]));
      var reserves := Allocate(ReservesCell(map[]));
      markets := markets[market := Retriever(MarketData(oracleData, map[], reserves), market, false)];
    }

    method UpdateMarketDataFor(market: string, marketData: MarketData)
      modifies this`markets
      ensures Contents() == WithMarketData(old(Contents()), market, marketData)
      ensures market in old(markets) ==>
                markets == old(markets)[market := Retriever(marketData, old(markets)[market].lendingMarket, true)]
      ensures market !in old(markets) ==> markets == old(markets)
    {
      if market in markets {
        var target := markets[market];
        target := target.(inner := marketData);
        target := target.(initialized := true);
        markets := markets[market := target];
      }
    }

    method UpdateDistinctObligationFor(market: string, obligation: Enhanced)
      modifies this
      ensures Contents() == WithObligation(old(Contents()), market, obligation)
      ensures market in old(markets) ==>
                && heap == old(heap) + [ObligationCell(obligation)]
                && var before := old(markets)[market];
                markets == old(markets)[market := before.(inner :=
                  before.inner.(obligations := before.inner.obligations[obligation.pubkey := |old(heap)|]))]
      ensures market !in old(markets) ==> markets == old(markets) && heap == old(heap)
    {
      if market in markets {
        var target := markets[market];
        var arc := Allocate(ObligationCell(obligation));
        var obligations := target.inner.obligations[obligation.pubkey := arc];
        markets := markets[market := target.(inner := target.inner.(obligations := obligations))];
      }
    }

    /** Insert fetched obligations one by one, each behind its own cell. */
    method InsertObligations(entries: seq<Enhanced>) returns (obligations: map<Pubkey, nat>)
      modifies this`heap
      ensures (heap, obligations) == InsertAll(old(heap), entries)
    {
      obligations := map[];
      for i := 0 to |entries|
        invariant (heap, obligations) == InsertAll(old(heap), entries[..i])
      {
        assert entries[..i + 1][..i] == entries[..i];
        var arc := Allocate(ObligationCell(entries[i]));
        obligations := obligations[entries[i].pubkey := arc];
      }
      assert entries[..|entries|] == entries;
    }

    /** Fetch for one entry of a cloned capsule; None when a reply makes the task panic. */
    method FetchMarketData(before: Retriever, replies: FetchReplies) returns (data: Option<MarketData>, order: seq<Pubkey>)
      modifies this`heap
      ensures data.Some? <==> Answered(replies, before.initialized, before.inner.obligations.Keys)
      ensures data.Some? ==> CanFetch(before, replies, order) && (heap, data.value) == Fetch(old(heap), before, replies, order)
      ensures data.Some? ==> WellFormed(heap, data.value)
      ensures data.Some? ==>
                FromReplies(ObligationsOf(heap, data.value), BookOf(heap, data.value), replies,
                            before.initialized, before.inner.obligations.Keys)
    {
      hide FromReplies, WellFormed, ObligationsOf, BookOf;
      order := Drain(before.inner.obligations.Keys);
      ListsCount(order, before.inner.obligations.Keys);
      assert (set k | k in order) == before.inner.obligations.Keys;
      var entries := [];
      if before.initialized {
        var i := 0;
        while i < |order|
          invariant i <= |order| && forall j :: 0 <= j < i ==> order[j] in replies.accounts
        {
          if order[i] !in replies.accounts {
            assert order[i] in before.inner.obligations.Keys;
            return None, order;
          }
          i := i + 1;
        }
        entries := AccountsInOrder(order, replies.accounts);
      } else {
        if replies.listing.Undecodable? {
          return None, order;
        }
        entries := ListedOr(replies.listing, []);
      }
      if replies.reserves.Undecodable? || replies.feeds.None? {
        return None, order;
      }
      var book := FetchedBook(replies);
      var obligations := InsertObligations(entries);
      ghost var h := heap;
      var oracleData := Allocate(OraclesCell(book.oracles));
      var reserves := Allocate(ReservesCell(book.reserves));
      assert heap == h + [OraclesCell(book.oracles), ReservesCell(book.reserves)];
      data := Some(MarketData(oracleData, obligations, reserves));
      FetchMeans(old(heap), before, replies, order);
    }
  }

  // ---------------------------------------------------------------- the sequential schedule is a run

  lemma Advance(env: Env, start: Memory, steps: seq<Step>, s: State, step: Step)
    requires Run(env, Start(start), steps) == Some(s) && Do(env, s, step).Some?
    ensures Run(env, Start(start), steps + [step]) == Do(env, s, step)
  {
    assert (steps + [step])[..|steps|] == steps;
  }

  /** The indices below n. */
  ghost predicate UpTo(s: set<nat>, n: nat) {
    forall i: nat :: i in s <==> i < n
  }

  /** Nothing has happened beyond the fetches. */
  ghost predicate OnlyFetched(s: State) {
    && s.persisted == {} && s.snapshots == map[] && s.decided == map[] && s.attempted == map[] && s.updated == {} && s.log == []
  }

  /** The first n markets have been fetched, as the list says. */
  ghost predicate FetchedFirst(s: State, data: seq<MarketData>, n: nat) {
    && n == |data|
    && UpTo(s.cloned.Keys, n) && UpTo(s.fetched.Keys, n)
    && forall i :: 0 <= i < n ==> s.fetched[i] == data[i]
  }

  lemma FetchStepDone(env: Env, s: State, i: nat, data: MarketData, heap: Heap, order: seq<Pubkey>)
    requires i < |env.markets| && i !in s.cloned && i !in s.fetched && Name(env, i) in s.memory.markets
    requires var before := s.memory.markets[Name(env, i)];
             CanFetch(before, env.fetches(i), order) && (heap, data) == Fetch(s.memory.heap, before, env.fetches(i), order)
    ensures var s1 := s.(cloned := s.cloned[i := s.memory.markets]);
            && Do(env, s, CloneCapsule(i)) == Some(s1)
            && Do(env, s1, FinishFetch(i, order)) ==
               Some(s1.(memory := s.memory.(heap := heap), fetched := s.fetched[i := data]))
  {
    hide Fetch, CanFetch;
  }

  lemma NotRefetchable(env: Env, start: Memory, i: nat)
    requires MemoryWellFormed(start) && i < |env.markets| && Name(env, i) in start.markets
    requires var before := start.markets[Name(env, i)];
             !Answered(env.fetches(i), before.initialized, before.inner.obligations.Keys)
    ensures !CanRefetch(env, start, i)
  {
    var before := start.markets[Name(env, i)];
    assert ViewOf(start.heap, before).obligations.Keys == before.inner.obligations.Keys;
  }

  lemma FetchAdvances(env: Env, start: Memory, steps: seq<Step>, s: State, i: nat, data: MarketData, heap: Heap, order: seq<Pubkey>)
    returns (steps': seq<Step>, s': State)
    requires Run(env, Start(start), steps) == Some(s)
    requires i < |env.markets| && i !in s.cloned && i !in s.fetched && Name(env, i) in s.memory.markets
    requires var before := s.memory.markets[Name(env, i)];
             CanFetch(before, env.fetches(i), order) && (heap, data) == Fetch(s.memory.heap, before, env.fetches(i), order)
    ensures Run(env, Start(start), steps') == Some(s')
    ensures s' == s.(memory := s.memory.(heap := heap), cloned := s.cloned[i := s.memory.markets], fetched := s.fetched[i := data])
  {
    hide Run, Do, Fetch, CanFetch;
    FetchStepDone(env, s, i, data, heap, order);
    Advance(env, start, steps, s, CloneCapsule(i));
    var s1 := s.(cloned := s.cloned[i := s.memory.markets]);
    Advance(env, start, steps + [CloneCapsule(i)], s1, FinishFetch(i, order));
    steps' := steps + [CloneCapsule(i)] + [FinishFetch(i, order)];
    s' := s1.(memory := s.memory.(heap := heap), fetched := s.fetched[i := data]);
  }

  /** Fetch every market in turn; stops at a panic. */
  method FetchAll(env: Env, capsule: MarketsCapsule, ghost start: Memory)
    returns (ok: bool, data: seq<MarketData>, ghost steps: seq<Step>, ghost s: State)
    requires Given(env, start) && capsule.Contents() == start
    modifies capsule`heap
    ensures !ok ==> exists i :: 0 <= i < |env.markets| && !CanRefetch(env, start, i)
    ensures ok ==> Run(env, Start(start), steps) == Some(s) && s.memory == capsule.Contents()
    ensures ok ==> OnlyFetched(s) && FetchedFirst(s, data, |env.markets|)
  {
    hide Run, Fetch, CanFetch, MemoryWellFormed, Do, ViewOf, CanRefetch, DistinctMarkets;
    ok, data, steps, s := true, [], [], Start(start);
    assert Run(env, Start(start), []) == Some(Start(start)) by {
      RunNothing(env, Start(start));
    }
    for i := 0 to |env.markets|
      invariant Run(env, Start(start), steps) == Some(s) && s.memory == capsule.Contents()
      invariant OnlyFetched(s) && FetchedFirst(s, data, i)
      invariant capsule.markets == start.markets
    {
      var clone := capsule.markets;
      if Name(env, i) !in clone {
        UnknownMarket(env, start, i);
        ok := false;
        return;
      }
      var fetched, order := capsule.FetchMarketData(clone[Name(env, i)], env.fetches(i));
      if fetched == None {
        NotRefetchable(env, start, i);
        ok := false;
        return;
      }
      steps, s := FetchAdvances(env, start, steps, s, i, fetched.value, capsule.heap, order);
      data := data + [fetched.value];
    }
  }

  lemma RunNothing(env: Env, s: State)
    ensures Run(env, s, []) == Some(s)
  {
  }

  lemma UnknownMarket(env: Env, start: Memory, i: nat)
    requires MemoryWellFormed(start) && i < |env.markets| && Name(env, i) !in start.markets
    ensures !CanRefetch(env, start, i)
  {
  }

  /** Persist every market in turn. */
  method PersistAll(env: Env, capsule: MarketsCapsule, data: seq<MarketData>, ghost start: Memory, ghost steps0: seq<Step>, ghost s0: State)
    returns (ghost steps: seq<Step>, ghost s: State)
    requires Run(env, Start(start), steps0) == Some(s0) && s0.memory == capsule.Contents()
    requires OnlyFetched(s0) && FetchedFirst(s0, data, |env.markets|)
    modifies capsule`markets
    ensures Run(env, Start(start), steps) == Some(s) && s.memory == capsule.Contents()
    ensures s == s0.(memory := s.memory, persisted := s.persisted) && UpTo(s.persisted, |env.markets|)
  {
    steps, s := steps0, s0;
    for i := 0 to |env.markets|
      invariant Run(env, Start(start), steps) == Some(s) && s.memory == capsule.Contents()
      invariant s == s0.(memory := s.memory, persisted := s.persisted) && UpTo(s.persisted, i)
    {
      capsule.UpdateMarketDataFor(Name(env, i), data[i]);
      hide Run, WithMarketData;
      assert Do(env, s, Persist(i)) == Some(s.(memory := capsule.Contents(), persisted := s.persisted + {i}));
      Advance(env, start, steps, s, Persist(i));
      steps, s := steps + [Persist(i)], s.(memory := capsule.Contents(), persisted := s.persisted + {i});
    }
  }

  ghost predicate SnapshotFirst(s: State, snapshots: seq<MarketData>, n: nat) {
    n == |snapshots| && UpTo(s.snapshots.Keys, n) && forall i :: 0 <= i < n ==> s.snapshots[i] == snapshots[i]
  }

  /** After the writers the next market can be read. */
  lemma SnapshotNext(env: Env, s: State, snapshots: seq<MarketData>, i: nat)
    requires i < |env.markets| && Name(env, i) in s.memory.markets
    requires UpTo(s.persisted, |env.markets|) && SnapshotFirst(s, snapshots, i)
    ensures var d := s.memory.markets[Name(env, i)].inner;
            var s' := s.(snapshots := s.snapshots[i := d]);
            Do(env, s, Snapshot(i)) == Some(s') && SnapshotFirst(s', snapshots + [d], i + 1)
  {
  }

  /** Read every market's entry in turn. */
  method SnapshotAll(env: Env, capsule: MarketsCapsule, ghost start: Memory, ghost steps0: seq<Step>, ghost s0: State)
    returns (snapshots: seq<MarketData>, ghost steps: seq<Step>, ghost s: State)
    requires Run(env, Start(start), steps0) == Some(s0) && s0.memory == capsule.Contents()
    requires UpTo(s0.persisted, |env.markets|) && s0.snapshots == map[]
    requires forall i :: 0 <= i < |env.markets| ==> Name(env, i) in s0.memory.markets
    ensures Run(env, Start(start), steps) == Some(s)
    ensures s == s0.(snapshots := s.snapshots) && SnapshotFirst(s, snapshots, |env.markets|)
  {
    snapshots, steps, s := [], steps0, s0;
    for i := 0 to |env.markets|
      invariant Run(env, Start(start), steps) == Some(s)
      invariant s == s0.(snapshots := s.snapshots) && SnapshotFirst(s, snapshots, i)
    {
      var entry := capsule.markets[Name(env, i)];
      hide Run, Do, SnapshotFirst;
      SnapshotNext(env, s, snapshots, i);
      Advance(env, start, steps, s, Snapshot(i));
      steps, s := steps + [Snapshot(i)], s.(snapshots := s.snapshots[i := entry.inner]);
      snapshots := snapshots + [entry.inner];
    }
  }

  // ---------------------------------------------------------------- one obligation

  /** The run so far: where the steps lead, with the capsule's current contents. */
  ghost predicate Reached(env: Env, start: Memory, steps: seq<Step>, s: State, memory: Memory) {
    Run(env, Start(start), steps) == Some(s) && s.memory == memory
  }

  lemma ReachedInv(env: Env, start: Memory, steps: seq<Step>, s: State, memory: Memory)
    requires Given(env, start) && Reached(env, start, steps, s, memory)
    ensures Inv(env, start, s)
  {
    hide Run, Inv;
    RunKeepsInv(env, start, steps);
  }

  /** What an attempt leaves: nothing because of a panic, or an optional update with an optional record. */
  datatype Effect = Aborted | Effect(update: Option<Enhanced>, log: seq<Attempt>)

  /** Some reply to the attempt is missing, or a lookup of the transaction finds nothing. */
  ghost predicate AttemptPanics(env: Env, t: Task, candidate: Option<Candidate>)
    requires t.market < |env.markets|
  {
    && candidate.Some?
    && var replies, c := env.tasks(t), candidate.value;
    || !replies.tokenAccount
    || replies.balance == None
    || (replies.balance.value != 0 && (!replies.blockhash || replies.account == None))
    || (replies.balance.value != 0
        && !Resolvable(c.obligation.inner, c.selected.borrow.symbol, c.selected.deposit.symbol, env.markets[t.market]))
  }

  /** The attempt on one candidate: wallet, transaction, and the obligation read back. */
  method AttemptLiquidation(env: Env, t: Task, candidate: Option<Candidate>, log: seq<Attempt>)
    returns (effect: Effect, order: seq<Pubkey>)
    requires t.market < |env.markets|
    ensures forall s: State :: t in s.decided && s.decided[t] == candidate && t !in s.attempted && s.log == log ==>
              DoAttempt(env, s, t, order) ==
                if effect.Aborted? then None else Some(s.(attempted := s.attempted[t := effect.update], log := effect.log))
    ensures candidate == None ==> effect.Effect?
    ensures effect.Aborted? ==> AttemptPanics(env, t, candidate)
  {
    hide PlanOf;
    order := [];
    if candidate == None {
      return Effect(None, log), order;
    }
    var c, replies := candidate.value, env.tasks(t);
    if !replies.tokenAccount || replies.balance == None {
      return Aborted, order;
    }
    if replies.balance.value == 0 {
      return Effect(None, log), order;
    }
    var plan;
    plan, order := Liquidate(replies.balance.value, c.selected.borrow, c.selected.deposit, env.markets[t.market],
                             c.obligation, replies.wallet);
    if plan.Failure? {
      if plan.error.Panicked? {
        PlanExists(replies.balance.value, c.selected.borrow, c.selected.deposit, env.markets[t.market],
                   c.obligation, replies.wallet, order);
        return Aborted, order;
      }
      return Effect(None, log), order;
    }
    if !replies.blockhash {
      return Aborted, order;
    }
    // the broadcast's own result is only printed
    if replies.account == None {
      return Aborted, order;
    }
    effect := Effect(Some(Enhanced(replies.account.value, c.obligation.pubkey)),
                     log + [Attempt(t, c, replies.balance.value, order, plan.value)]);
  }

  lemma SnapshotReadable(env: Env, start: Memory, steps: seq<Step>, s: State, memory: Memory, t: Task)
    requires Given(env, start) && Reached(env, start, steps, s, memory)
    requires t.market in s.snapshots && t.key in s.snapshots[t.market].obligations
    ensures Known(env, start, t)
    ensures var data, view := s.snapshots[t.market], Persisted(env, start, t.market);
            && IsObligation(memory.heap, data.obligations[t.key]) && IsBook(memory.heap, data)
            && memory.heap[data.obligations[t.key]].obligation == view.obligations[t.key]
            && Book(memory.heap[data.reserves].reserves, memory.heap[data.oracleData].oracles) == view.book
  {
    ReachedInv(env, start, steps, s, memory);
    hide Run, Inv, MemoryWellFormed, Known, Persisted, CanRefetch, IsObligation, IsBook;
    SnapshotReadsPersisted(env, start, s, t);
  }

  lemma DecideAdvances(env: Env, start: Memory, steps: seq<Step>, s: State, t: Task, candidate: Option<Candidate>)
    requires Run(env, Start(start), steps) == Some(s) && DoDecide(env, s, t) == Some(s.(decided := s.decided[t := candidate]))
    ensures Run(env, Start(start), steps + [DecideOn(t)]) == Some(s.(decided := s.decided[t := candidate]))
  {
    hide Run, DoDecide;
    Advance(env, start, steps, s, DecideOn(t));
  }

  /** The decision task of one obligation, reading through its market's snapshot. */
  method DecideTask(env: Env, capsule: MarketsCapsule, t: Task, data: MarketData,
                    ghost start: Memory, ghost steps0: seq<Step>, ghost s0: State)
    returns (candidate: Option<Candidate>, ghost steps: seq<Step>, ghost s: State)
    requires Given(env, start) && Reached(env, start, steps0, s0, capsule.Contents())
    requires t.market in s0.snapshots && s0.snapshots[t.market] == data && t.key in data.obligations && t !in s0.decided
    ensures Reached(env, start, steps, s, capsule.Contents()) && s == s0.(decided := s0.decided[t := candidate])
    ensures Known(env, start, t) && candidate == DecisionFor(Persisted(env, start, t.market), t.key)
  {
    hide Run, MemoryWellFormed, Known, Persisted, CanRefetch, DecisionOf;
    SnapshotReadable(env, start, steps0, s0, capsule.Contents(), t);
    var obligation := capsule.heap[data.obligations[t.key]].obligation;
    var book := Book(capsule.heap[data.reserves].reserves, capsule.heap[data.oracleData].oracles);
    var selected := Decide(obligation.inner, book);
    candidate := match selected case None => None case Some(v) => Some(Candidate(v, obligation));
    s := s0.(decided := s0.decided[t := candidate]);
    DecideAdvances(env, start, steps0, s0, t, candidate);
    steps := steps0 + [DecideOn(t)];
  }

  /** A task of the round ends in a panic. */
  ghost predicate TaskPanics(env: Env, start: Memory, t: Task)
    requires MemoryWellFormed(start)
  {
    Known(env, start, t) && OutcomeFor(env, t, Persisted(env, start, t.market)) == Panics
  }

  /** Both tasks of one obligation. */
  method RunTask(env: Env, capsule: MarketsCapsule, t: Task, data: MarketData, log: seq<Attempt>,
                 ghost start: Memory, ghost steps0: seq<Step>, ghost s0: State)
    returns (effect: Effect, ghost steps: seq<Step>, ghost s: State)
    requires Given(env, start) && Reached(env, start, steps0, s0, capsule.Contents()) && t.market < |env.markets|
    requires t.market in s0.snapshots && s0.snapshots[t.market] == data && t.key in data.obligations
    requires t !in s0.decided && t !in s0.attempted && s0.log == log
    ensures effect.Effect? ==>
              && Reached(env, start, steps, s, capsule.Contents())
              && t in s.decided
              && s == s0.(decided := s0.decided[t := s.decided[t]], attempted := s0.attempted[t := effect.update], log := effect.log)
    ensures effect.Aborted? ==> TaskPanics(env, start, t)
  {
    hide Run, MemoryWellFormed, Known, Persisted, CanRefetch, DecisionFor, Resolvable, DoAttempt;
    var candidate;
    candidate, steps, s := DecideTask(env, capsule, t, data, start, steps0, s0);
    var order;
    effect, order := AttemptLiquidation(env, t, candidate, log);
    if effect.Effect? {
      Advance(env, start, steps, s, AttemptOn(t, order));
      steps := steps + [AttemptOn(t, order)];
      s := s.(attempted := s.attempted[t := effect.update], log := effect.log);
    }
  }

  // ---------------------------------------------------------------- all obligations, then the write-backs

  /** The listed tasks, and no others, have been decided and attempted, with the listed updates. */
  ghost predicate Handled(s: State, tasks: seq<Task>, updates: seq<Option<Enhanced>>) {
    && |tasks| == |updates|
    && (forall t :: t in s.decided <==> t in tasks)
    && (forall t :: t in s.attempted <==> t in tasks)
    && (forall n :: 0 <= n < |tasks| ==> tasks[n] in s.attempted && s.attempted[tasks[n]] == updates[n])
    && (forall m, n :: 0 <= m < n < |tasks| ==> tasks[m] != tasks[n])
  }

  /** Only decisions, attempts and records were added. */
  ghost predicate OnlyTasksSince(s0: State, s: State) {
    s == s0.(decided := s.decided, attempted := s.attempted, log := s.log)
  }

  lemma HandledMore(s: State, s': State, tasks: seq<Task>, updates: seq<Option<Enhanced>>, t: Task, d: Option<Candidate>, u: Option<Enhanced>)
    requires Handled(s, tasks, updates) && t !in tasks
    requires s'.decided == s.decided[t := d] && s'.attempted == s.attempted[t := u]
    ensures Handled(s', tasks + [t], updates + [u])
  {
    forall n | 0 <= n < |tasks| + 1
      ensures (tasks + [t])[n] in s'.attempted && s'.attempted[(tasks + [t])[n]] == (updates + [u])[n]
    {
      if n < |tasks| {
        assert tasks[n] in tasks;
      }
    }
  }

  /** The handles a round collects: its tasks, what each is to write back, and the attempts made. */
  datatype Handles = Handles(tasks: seq<Task>, updates: seq<Option<Enhanced>>, log: seq<Attempt>)

  /** Exactly the tasks of the first n markets have been handled since s0. */
  ghost predicate MarketsHandled(s0: State, s: State, h: Handles, snapshots: seq<MarketData>, n: nat)
    requires n <= |snapshots|
  {
    && OnlyTasksSince(s0, s)
    && Handled(s, h.tasks, h.updates) && s.log == h.log
    && (forall t :: t in h.tasks ==> t.market < n)
    && (forall i, k :: 0 <= i < n && k in snapshots[i].obligations ==> Task(i, k) in h.tasks)
  }

  /** Some tasks of market i have been handled after the earlier ones: those of the listed keys. */
  ghost predicate PartlyHandled(s0: State, s: State, h: Handles, snapshots: seq<MarketData>, i: nat, keys: seq<Pubkey>)
    requires i <= |snapshots|
  {
    && OnlyTasksSince(s0, s)
    && Handled(s, h.tasks, h.updates) && s.log == h.log
    && (forall t :: t in h.tasks ==> t.market < i || (t.market == i && t.key in keys))
    && (forall m, k :: 0 <= m < i && k in snapshots[m].obligations ==> Task(m, k) in h.tasks)
    && (forall k :: k in keys ==> Task(i, k) in h.tasks)
  }

  lemma OneMoreHandled(s0: State, s: State, s': State, h: Handles, snapshots: seq<MarketData>, i: nat,
                       keys: seq<Pubkey>, k: Pubkey, update: Option<Enhanced>, log: seq<Attempt>)
    requires i < |snapshots| && PartlyHandled(s0, s, h, snapshots, i, keys) && k !in keys
    requires var t := Task(i, k);
             && t in s'.decided
             && s' == s.(decided := s.decided[t := s'.decided[t]], attempted := s.attempted[t := update], log := log)
    ensures PartlyHandled(s0, s', Handles(h.tasks + [Task(i, k)], h.updates + [update], log), snapshots, i, keys + [k])
  {
    HandledMore(s, s', h.tasks, h.updates, Task(i, k), s'.decided[Task(i, k)], update);
  }

  lemma MarketBegun(s0: State, s: State, h: Handles, snapshots: seq<MarketData>, i: nat)
    requires i < |snapshots| && MarketsHandled(s0, s, h, snapshots, i)
    ensures PartlyHandled(s0, s, h, snapshots, i, [])
  {
  }

  lemma MarketDone(s0: State, s: State, h: Handles, snapshots: seq<MarketData>, i: nat, keys: seq<Pubkey>)
    requires i < |snapshots| && PartlyHandled(s0, s, h, snapshots, i, keys)
    requires Lists(keys, snapshots[i].obligations.Keys)
    ensures MarketsHandled(s0, s, h, snapshots, i + 1)
  {
    hide Handled;
  }

  lemma NextTask(s0: State, s: State, h: Handles, snapshots: seq<MarketData>, i: nat, keys: seq<Pubkey>, k: Pubkey)
    requires i < |snapshots| && SnapshotFirst(s0, snapshots, |snapshots|)
    requires PartlyHandled(s0, s, h, snapshots, i, keys) && k !in keys && k in snapshots[i].obligations
    ensures i in s.snapshots && s.snapshots[i] == snapshots[i] && s.log == h.log
    ensures Task(i, k) !in s.decided && Task(i, k) !in s.attempted
  {
  }

  /** All tasks of one market, in the order its hash map is iterated. */
  method RunMarket(env: Env, capsule: MarketsCapsule, i: nat, snapshots: seq<MarketData>, h0: Handles,
                   ghost start: Memory, ghost s0: State, ghost steps1: seq<Step>, ghost s1: State)
    returns (ok: bool, h: Handles, ghost steps: seq<Step>, ghost s: State)
    requires Given(env, start) && Reached(env, start, steps1, s1, capsule.Contents())
    requires i < |env.markets| == |snapshots| && SnapshotFirst(s0, snapshots, |snapshots|)
    requires MarketsHandled(s0, s1, h0, snapshots, i)
    ensures ok ==> Reached(env, start, steps, s, capsule.Contents()) && MarketsHandled(s0, s, h, snapshots, i + 1)
    ensures !ok ==> exists t :: TaskPanics(env, start, t)
  {
    hide Run, MemoryWellFormed, DistinctMarkets, TaskPanics, Reached, MarketsHandled, PartlyHandled, SnapshotFirst;
    ok, h, steps, s := true, h0, steps1, s1;
    var order := Drain(snapshots[i].obligations.Keys);
    MarketBegun(s0, s, h, snapshots, i);
    assert order[..0] == [];
    for j := 0 to |order|
      invariant Reached(env, start, steps, s, capsule.Contents())
      invariant PartlyHandled(s0, s, h, snapshots, i, order[..j])
    {
      assert order[..j + 1] == order[..j] + [order[j]];
      NextTask(s0, s, h, snapshots, i, order[..j], order[j]);
      var effect, steps', s' := RunTask(env, capsule, Task(i, order[j]), snapshots[i], h.log, start, steps, s);
      if effect.Aborted? {
        ok := false;
        return;
      }
      OneMoreHandled(s0, s, s', h, snapshots, i, order[..j], order[j], effect.update, effect.log);
      h := Handles(h.tasks + [Task(i, order[j])], h.updates + [effect.update], effect.log);
      steps, s := steps', s';
    }
    assert order[..|order|] == order;
    MarketDone(s0, s, h, snapshots, i, order);
  }

  /** All tasks of all markets. */
  method RunAll(env: Env, capsule: MarketsCapsule, snapshots: seq<MarketData>,
                ghost start: Memory, ghost steps0: seq<Step>, ghost s0: State)
    returns (ok: bool, h: Handles, ghost steps: seq<Step>, ghost s: State)
    requires Given(env, start) && Reached(env, start, steps0, s0, capsule.Contents())
    requires SnapshotFirst(s0, snapshots, |env.markets|)
    requires s0.decided == map[] && s0.attempted == map[] && s0.log == []
    ensures ok ==> Reached(env, start, steps, s, capsule.Contents())
    ensures ok ==> |snapshots| == |env.markets| && MarketsHandled(s0, s, h, snapshots, |snapshots|)
    ensures !ok ==> exists t :: TaskPanics(env, start, t)
  {
    ok, h, steps, s := true, Handles([], [], []), steps0, s0;
    assert MarketsHandled(s0, s, h, snapshots, 0);
    hide Run, MemoryWellFormed, DistinctMarkets, TaskPanics, Reached, MarketsHandled;
    for i := 0 to |env.markets|
      invariant Reached(env, start, steps, s, capsule.Contents())
      invariant MarketsHandled(s0, s, h, snapshots, i)
    {
      ok, h, steps, s := RunMarket(env, capsule, i, snapshots, h, start, s0, steps, s);
      if !ok {
        return;
      }
    }
  }

  lemma WriteBackAdvances(env: Env, start: Memory, steps: seq<Step>, s: State, t: Task, memory: Memory)
    requires Run(env, Start(start), steps) == Some(s)
    requires t in s.attempted && t !in s.updated && t.market < |env.markets|
    requires forall j :: 0 <= j < |env.markets| ==> j in s.snapshots
    requires forall j, k :: j in s.snapshots && k in s.snapshots[j].obligations ==> Task(j, k) in s.decided
    requires memory == if s.attempted[t].Some? then WithObligation(s.memory, Name(env, t.market), s.attempted[t].value) else s.memory
    ensures Run(env, Start(start), steps + [WriteBack(t)]) == Some(s.(memory := memory, updated := s.updated + {t}))
  {
    hide Run, WithObligation;
    assert DecidedUpTo(s, t.market);
    assert DoWriteBack(env, s, t) == Some(s.(memory := memory, updated := s.updated + {t}));
    Advance(env, start, steps, s, WriteBack(t));
  }

  /** Write back every update, in the order the attempts were awaited. */
  method WriteBackAll(env: Env, capsule: MarketsCapsule, tasks: seq<Task>, updates: seq<Option<Enhanced>>,
                      ghost start: Memory, ghost steps0: seq<Step>, ghost s0: State)
    returns (ghost steps: seq<Step>, ghost s: State)
    requires Reached(env, start, steps0, s0, capsule.Contents()) && Handled(s0, tasks, updates) && s0.updated == {}
    requires forall t :: t in tasks ==> t.market < |env.markets|
    requires forall j :: j in s0.snapshots <==> 0 <= j < |env.markets|
    requires forall j, k :: j in s0.snapshots && k in s0.snapshots[j].obligations ==> Task(j, k) in tasks
    modifies capsule
    ensures Reached(env, start, steps, s, capsule.Contents())
    ensures s == s0.(memory := s.memory, updated := s.updated) && forall t :: t in s.updated <==> t in tasks
  {
    hide Run, WithObligation;
    steps, s := steps0, s0;
    for n := 0 to |tasks|
      invariant Reached(env, start, steps, s, capsule.Contents())
      invariant s == s0.(memory := s.memory, updated := s.updated)
      invariant forall t :: t in s.updated <==> t in tasks[..n]
    {
      var t := tasks[n];
      assert tasks[..n + 1] == tasks[..n] + [t];
      if updates[n].Some? {
        capsule.UpdateDistinctObligationFor(Name(env, t.market), updates[n].value);
      }
      WriteBackAdvances(env, start, steps, s, t, capsule.Contents());
      steps, s := steps + [WriteBack(t)], s.(memory := capsule.Contents(), updated := s.updated + {t});
    }
    assert tasks[..|tasks|] == tasks;
  }

  lemma HandledAll(s0: State, s: State, h: Handles, snapshots: seq<MarketData>)
    requires SnapshotFirst(s0, snapshots, |snapshots|) && MarketsHandled(s0, s, h, snapshots, |snapshots|)
    ensures OnlyTasksSince(s0, s) && Handled(s, h.tasks, h.updates) && s.log == h.log
    ensures forall t :: t in h.tasks ==> t.market < |snapshots|
    ensures forall j :: j in s.snapshots <==> 0 <= j < |snapshots|
    ensures forall j, k :: j in s.snapshots && k in s.snapshots[j].obligations ==> Task(j, k) in h.tasks
  {
    hide Handled;
  }

  /** A market that cannot be refetched, or a task that panics, rules out a panic-free round. */
  lemma NotPanicFree(env: Env, start: Memory, t: Task)
    requires MemoryWellFormed(start) && TaskPanics(env, start, t)
    ensures !PanicFree(env, start)
  {
    hide MemoryWellFormed, CanRefetch, OutcomeFor, Persisted;
    assert Task(t.market, t.key) == t;
  }

  lemma FetchedNames(env: Env, start: Memory, s: State, n: nat)
    requires Given(env, start) && Inv(env, start, s) && n <= |env.markets|
    requires forall i :: 0 <= i < n ==> i in s.fetched
    ensures forall i :: 0 <= i < n ==> Name(env, i) in s.memory.markets
  {
    hide ClonePart, PersistPart, PendingPart, UntouchedPart, SnapshotPart, OrderPart, DecidePart, AttemptPart, LogPart, MemoryWellFormed;
    forall i | 0 <= i < n
      ensures Name(env, i) in s.memory.markets
    {
      assert FetchedAs(env, start, s.memory.heap, i, s.fetched[i]);
    }
  }

  /**
   One round, run sequentially on the shared capsule. It returns normally exactly when no reply makes a
   task panic, and then leaves the result every interleaving leaves; its attempts are warranted and there is
   at most one for each obligation.
   */
  method ProcessMarkets(env: Env, capsule: MarketsCapsule) returns (completed: bool, log: seq<Attempt>)
    requires Given(env, capsule.Contents())
    modifies capsule
    ensures completed <==> PanicFree(env, old(capsule.Contents()))
    ensures completed ==>
              MemoryWellFormed(capsule.Contents()) && RoundResult(env, old(capsule.Contents()), Views(capsule.Contents()))
    ensures completed ==> forall m, n :: 0 <= m < n < |log| ==> log[m].task != log[n].task
    ensures completed ==> forall n :: 0 <= n < |log| ==> Warranted(env, old(capsule.Contents()), log[n])
  {
    hide Run, MemoryWellFormed, DistinctMarkets, TaskPanics, RoundResult, Warranted, Inv;
    ghost var start := capsule.Contents();
    log := [];
    var data, snapshots, h;
    ghost var steps, s;
    completed, data, steps, s := FetchAll(env, capsule, start);
    if !completed {
      return;
    }
    steps, s := PersistAll(env, capsule, data, start, steps, s);
    RunKeepsInv(env, start, steps);
    FetchedNames(env, start, s, |env.markets|);
    snapshots, steps, s := SnapshotAll(env, capsule, start, steps, s);
    ghost var s0 := s;
    completed, h, steps, s := RunAll(env, capsule, snapshots, start, steps, s);
    if !completed {
      ghost var t :| TaskPanics(env, start, t);
      NotPanicFree(env, start, t);
      return;
    }
    log := h.log;
    HandledAll(s0, s, h, snapshots);
    steps, s := WriteBackAll(env, capsule, h.tasks, h.updates, start, steps, s);
    RunKeepsInv(env, start, steps);
    CompleteIsPanicFree(env, start, s);
    CompleteIsResult(env, start, s);
    AttemptsSafe(env, start, steps);
  }
}
