/**
 The liquidator's life: registration of the configured markets, then any number of completed rounds, each
 with its own replies and its own interleaving.
 */
module Runs {
  import opened Wrappers
  import opened Refresh
  import opened Capsule
  import opened Round
  import opened RoundInvariant
  import opened RoundFacts

  // ---------------------------------------------------------------- start-up

  /** The capsule after the registration tasks for the given markets ran, in that order. */
  function Registered(names: seq<string>): Memory {
    if names == [] then Memory(map[], [])
    else Register(Registered(names[..|names| - 1]), names[|names| - 1])
  }

  const EMPTY_VIEW: MarketView := MarketView(false, map[], Book(map[], map[]))

  lemma EmptyEntry(heap: Heap, name: string)
    ensures var heap' := heap + [OraclesCell(map[]), ReservesCell(map[])];
            var r := Retriever(MarketData(|heap|, map[], |heap| + 1), name, false);
            WellFormed(heap', r.inner) && ViewOf(heap', r) == EMPTY_VIEW
  {
  }

  lemma RegisterMeans(m: Memory, name: string)
    requires MemoryWellFormed(m)
    ensures var m' := Register(m, name);
            && MemoryWellFormed(m')
            && m'.markets.Keys == m.markets.Keys + {name}
            && forall n :: n in m'.markets ==>
                 ViewOf(m'.heap, m'.markets[n]) == if n == name then EMPTY_VIEW else ViewOf(m.heap, m.markets[n])
  {
    var m' := Register(m, name);
    assert m.heap <= m'.heap;
    EmptyEntry(m.heap, name);
    forall n | n in m'.markets
      ensures WellFormed(m'.heap, m'.markets[n].inner)
      ensures ViewOf(m'.heap, m'.markets[n]) == if n == name then EMPTY_VIEW else ViewOf(m.heap, m.markets[n])
    {
      hide ViewOf;
      if n != name {
        ViewStable(m.heap, m'.heap, m.markets[n].inner);
        SameView(m.heap, m'.heap, m.markets[n]);
      }
    }
  }

  lemma SameView(heap: Heap, heap': Heap, r: Retriever)
    requires WellFormed(heap, r.inner) && WellFormed(heap', r.inner)
    requires ObligationsOf(heap', r.inner) == ObligationsOf(heap, r.inner) && BookOf(heap', r.inner) == BookOf(heap, r.inner)
    ensures ViewOf(heap', r) == ViewOf(heap, r)
  {
    hide WellFormed, ObligationsOf, BookOf;
  }

  lemma {:induction false} RegisteredMeans(names: seq<string>)
    ensures MemoryWellFormed(Registered(names))
    ensures Registered(names).markets.Keys == (set n | n in names)
    ensures forall n :: n in names ==> Views(Registered(names))[n] == EMPTY_VIEW
  {
    if names != [] {
      var k := |names| - 1;
      RegisteredMeans(names[..k]);
      RegisterMeans(Registered(names[..k]), names[k]);
      assert names == names[..k] + [names[k]];
      hide Register, ViewOf;
      assert forall n :: n in names[..k] ==> Views(Registered(names[..k]))[n] == EMPTY_VIEW;
    }
  }

  /** Registration tasks may run in any order. */
  lemma RegistrationOrderIrrelevant(names: seq<string>, names': seq<string>)
    requires forall n :: n in names <==> n in names'
    ensures MemoryWellFormed(Registered(names)) && MemoryWellFormed(Registered(names'))
    ensures Views(Registered(names)) == Views(Registered(names'))
  {
    RegisteredMeans(names);
    RegisteredMeans(names');
    assert forall n :: n in Registered(names).markets ==> n in names;
  }

  // ---------------------------------------------------------------- histories

  /** One completed round: its replies and the interleaving that happened. */
  datatype RoundRun = RoundRun(env: Env, steps: seq<Step>)

  ghost predicate SameMarkets(env: Env, names: seq<string>) {
    |env.markets| == |names| && forall i :: 0 <= i < |names| ==> Name(env, i) == names[i]
  }

  /**
   The memory after rounds that follow one another, each over the same markets and each running to
   completion; None when some round does not.
   */
  ghost function Play(start: Memory, names: seq<string>, rounds: seq<RoundRun>): Option<Memory> {
    if rounds == [] then Some(start)
    else
      match Play(start, names, rounds[..|rounds| - 1])
      case None => None
      case Some(before) => PlayRound(before, names, rounds[|rounds| - 1])
  }

  ghost function PlayRound(before: Memory, names: seq<string>, round: RoundRun): Option<Memory> {
    var s := Run(round.env, Start(before), round.steps);
    if SameMarkets(round.env, names) && s.Some? && Complete(round.env, s.value) then Some(s.value.memory) else None
  }

  ghost predicate Distinct(names: seq<string>) {
    forall i, j :: 0 <= i < j < |names| ==> names[i] != names[j]
  }

  /**
   What holds between rounds: the markets are the configured ones, so every lookup by market succeeds, and
   each obligation is stored under its own account key.
   */
  ghost predicate BetweenRounds(m: Memory, names: seq<string>) {
    && MemoryWellFormed(m)
    && m.markets.Keys == (set n | n in names)
    && forall n :: n in names ==> KeysMatch(Views(m)[n])
  }

  ghost predicate KeysMatch(v: MarketView) {
    forall k :: k in v.obligations ==> v.obligations[k].pubkey == k
  }

  lemma WellFormedKeysMatch(heap: Heap, r: Retriever)
    requires WellFormed(heap, r.inner)
    ensures KeysMatch(ViewOf(heap, r))
  {
    forall k | k in ViewOf(heap, r).obligations
      ensures ViewOf(heap, r).obligations[k].pubkey == k
    {
      assert ObligationAt(heap, r.inner.obligations[k], k);
    }
  }

  /** The round's result keeps each market's key set once it is initialised. */
  lemma ResultKeeps(env: Env, start: Memory, i: nat)
    requires i < |env.markets| && MemoryWellFormed(start) && CanRefetch(env, start, i)
    ensures var before := ViewOf(start.heap, start.markets[Name(env, i)]);
            var after := FinalView(env, i, before);
            after.initialized && (before.initialized ==> after.obligations.Keys == before.obligations.Keys)
  {
    hide MemoryWellFormed, FinalObligation;
  }

  /** A round's memory is well formed and holds the round's result. */
  lemma RoundEnds(env: Env, start: Memory, steps: seq<Step>)
    requires Given(env, start)
    requires Run(env, Start(start), steps).Some? && Complete(env, Run(env, Start(start), steps).value)
    ensures var m := Run(env, Start(start), steps).value.memory;
            MemoryWellFormed(m) && RoundResult(env, start, Views(m))
  {
    hide Inv, Complete, MemoryWellFormed, RoundResult;
    RunKeepsInv(env, start, steps);
    CompleteIsResult(env, start, Run(env, Start(start), steps).value);
  }

  /** Known key sets do not change, and every market is initialised. */
  ghost predicate KeysConstant(start: Memory, m: Memory, names: seq<string>)
    requires BetweenRounds(start, names) && BetweenRounds(m, names)
  {
    forall n :: n in names ==>
      && Views(m)[n].initialized
      && (Views(start)[n].initialized ==> Views(m)[n].obligations.Keys == Views(start)[n].obligations.Keys)
  }

  /** What a round's result says of one market. */
  lemma ResultAt(env: Env, start: Memory, m: Memory, i: nat)
    requires i < |env.markets| && MemoryWellFormed(start)
    requires MemoryWellFormed(m) && RoundResult(env, start, Views(m))
    ensures var n := Name(env, i);
            && n in start.markets && n in m.markets
            && var before, after := Views(start)[n], Views(m)[n];
               && KeysMatch(after) && after.initialized
               && (before.initialized ==> after.obligations.Keys == before.obligations.Keys)
  {
    var n := Name(env, i);
    assert Views(m).Keys == m.markets.Keys;
    assert CanRefetch(env, start, i);
    assert WellFormed(m.heap, m.markets[n].inner);
    hide WellFormed, ViewOf, FinalView, KeysMatch, CanRefetch;
    ResultKeeps(env, start, i);
    WellFormedKeysMatch(m.heap, m.markets[n]);
  }

  lemma ResultBetweenRounds(env: Env, start: Memory, names: seq<string>, m: Memory)
    requires SameMarkets(env, names) && BetweenRounds(start, names)
    requires MemoryWellFormed(m) && RoundResult(env, start, Views(m))
    ensures BetweenRounds(m, names) && KeysConstant(start, m, names)
  {
    assert Views(m).Keys == m.markets.Keys && Views(start).Keys == start.markets.Keys;
    hide RoundResult, ViewOf, WellFormed, KeysMatch;
    forall n | n in names
      ensures n in m.markets && KeysMatch(Views(m)[n]) && Views(m)[n].initialized
      ensures Views(start)[n].initialized ==> Views(m)[n].obligations.Keys == Views(start)[n].obligations.Keys
    {
      var i :| 0 <= i < |names| && names[i] == n;
      ResultAt(env, start, m, i);
    }
  }

  /** One round keeps what holds between rounds, and the key sets of initialised markets. */
  lemma RoundKeeps(before: Memory, names: seq<string>, round: RoundRun)
    requires Distinct(names) && BetweenRounds(before, names) && PlayRound(before, names, round).Some?
    ensures var m := PlayRound(before, names, round).value; BetweenRounds(m, names) && KeysConstant(before, m, names)
  {
    assert Given(round.env, before);
    hide Run, Complete, BetweenRounds, KeysConstant;
    RoundEnds(round.env, before, round.steps);
    ResultBetweenRounds(round.env, before, names, Run(round.env, Start(before), round.steps).value.memory);
  }

  /** The first part of a history is a history. */
  lemma {:induction false} PlayPrefix(start: Memory, names: seq<string>, rounds: seq<RoundRun>, k: nat)
    requires Play(start, names, rounds).Some? && k <= |rounds|
    ensures Play(start, names, rounds[..k]).Some?
  {
    hide PlayRound;
    if k < |rounds| {
      var front := rounds[..|rounds| - 1];
      PlayPrefix(start, names, front, k);
      assert front[..k] == rounds[..k];
    } else {
      assert rounds[..k] == rounds;
    }
  }

  lemma {:induction false} PlayKeeps(start: Memory, names: seq<string>, rounds: seq<RoundRun>)
    requires Distinct(names) && BetweenRounds(start, names) && Play(start, names, rounds).Some?
    ensures BetweenRounds(Play(start, names, rounds).value, names)
    ensures rounds != [] ==> forall n :: n in names ==> Views(Play(start, names, rounds).value)[n].initialized
  {
    hide PlayRound;
    if rounds != [] {
      var front := rounds[..|rounds| - 1];
      PlayKeeps(start, names, front);
      hide BetweenRounds;
      RoundKeeps(Play(start, names, front).value, names, rounds[|rounds| - 1]);
    }
  }

  /** From the end of the first round on, key sets are constant. */
  lemma {:induction false} KeysConstantOver(start: Memory, names: seq<string>, rounds: seq<RoundRun>, k: nat)
    requires Distinct(names) && BetweenRounds(start, names) && Play(start, names, rounds).Some? && 0 < k <= |rounds|
    ensures Play(start, names, rounds[..k]).Some?
    ensures BetweenRounds(Play(start, names, rounds[..k]).value, names) && BetweenRounds(Play(start, names, rounds).value, names)
    ensures KeysConstant(Play(start, names, rounds[..k]).value, Play(start, names, rounds).value, names)
  {
    PlayPrefix(start, names, rounds, k);
    PlayKeeps(start, names, rounds[..k]);
    PlayKeeps(start, names, rounds);
    if k == |rounds| {
      assert rounds[..k] == rounds;
    } else {
      hide PlayRound, BetweenRounds;
      var front := rounds[..|rounds| - 1];
      assert front[..k] == rounds[..k];
      KeysConstantOver(start, names, front, k);
      RoundKeeps(Play(start, names, front).value, names, rounds[|rounds| - 1]);
    }
  }

  lemma RegisteredBetweenRounds(names: seq<string>)
    ensures BetweenRounds(Registered(names), names)
    ensures forall n :: n in names ==> !Views(Registered(names))[n].initialized
  {
    RegisteredMeans(names);
  }

  /**
   Whole-run cache invariant. From start-up on, over any number of completed rounds: the set of markets
   never changes, initialized goes from false to true with the first round and stays, every obligation sits
   under its own key, and a market's key set is constant from the end of its first round.
   */
  lemma CacheInvariant(names: seq<string>, rounds: seq<RoundRun>, k: nat)
    requires Distinct(names) && Play(Registered(names), names, rounds).Some? && k <= |rounds|
    ensures Play(Registered(names), names, rounds[..k]).Some?
    ensures var early, late := Play(Registered(names), names, rounds[..k]).value, Play(Registered(names), names, rounds).value;
            && BetweenRounds(early, names) && BetweenRounds(late, names)
            && early.markets.Keys == late.markets.Keys == (set n | n in names)
            && (forall n :: n in names ==> (Views(early)[n].initialized <==> k > 0))
            && (k > 0 ==> KeysConstant(early, late, names))
  {
    hide MemoryWellFormed, ViewOf, KeysMatch, PlayRound;
    var start := Registered(names);
    RegisteredBetweenRounds(names);
    PlayPrefix(start, names, rounds, k);
    PlayKeeps(start, names, rounds[..k]);
    PlayKeeps(start, names, rounds);
    if k > 0 {
      KeysConstantOver(start, names, rounds, k);
    }
  }

  /** Attempt safety over whole histories: in every round, at most one attempt per obligation, each warranted. */
  lemma HistoryAttemptsSafe(names: seq<string>, rounds: seq<RoundRun>, r: nat)
    requires Distinct(names) && Play(Registered(names), names, rounds).Some? && r < |rounds|
    ensures Play(Registered(names), names, rounds[..r]).Some?
    ensures var before := Play(Registered(names), names, rounds[..r]).value;
            && MemoryWellFormed(before)
            && Run(rounds[r].env, Start(before), rounds[r].steps).Some?
            && var log := Run(rounds[r].env, Start(before), rounds[r].steps).value.log;
               && (forall m, n :: 0 <= m < n < |log| ==> log[m].task != log[n].task)
               && (forall n :: 0 <= n < |log| ==> Warranted(rounds[r].env, before, log[n]))
  {
    var start := Registered(names);
    RegisteredBetweenRounds(names);
    PlayPrefix(start, names, rounds, r);
    PlayPrefix(start, names, rounds, r + 1);
    PlayKeeps(start, names, rounds[..r]);
    assert rounds[..r + 1][..r] == rounds[..r];
    var before := Play(start, names, rounds[..r]).value;
    assert PlayRound(before, names, rounds[r]).Some?;
    assert Given(rounds[r].env, before);
    hide Run, Complete, Warranted, MemoryWellFormed, Play;
    AttemptsSafe(rounds[r].env, before, rounds[r].steps);
  }
}
