/**
 One liquidation round as a state machine. Every task of process_markets is cut at the points where it
 touches the shared capsule or a reply arrives; a run is any order of enabled steps.
 */
module Round {
  import opened Wrappers
  import opened FixedPoint
  import opened Lending
  import opened Refresh
  import opened Selection
  import opened Plan
  import opened Capsule

  // ---------------------------------------------------------------- what a round is given

  /** An obligation's tasks, named by the index of the market and the obligation's key. */
  datatype Task = Task(market: nat, key: Pubkey)

  /** Replies to one attempt, in the order they are needed; where there is none, or a false, the task panics. */
  datatype TaskReplies = TaskReplies(
    tokenAccount: bool,                 // the repay account exists or its creation could be sent
    balance: Option<u64>,
    wallet: Wallet,
    blockhash: bool,
    broadcast: bool,                    // whether the node took the transaction; either way the attempt goes on
    account: Option<Obligation>)        // the obligation read back

  /** The markets in configuration order, and the reply to every request of the round. */
  datatype Env = Env(markets: seq<Market>, fetches: nat -> FetchReplies, tasks: Task -> TaskReplies)

  function Name(env: Env, i: nat): string
    requires i < |env.markets|
  {
    env.markets[i].address
  }

  ghost predicate DistinctMarkets(env: Env) {
    forall i, j :: 0 <= i < j < |env.markets| ==> Name(env, i) != Name(env, j)
  }

  // ---------------------------------------------------------------- the state

  /** A positive decision, with the obligation as the task read it. */
  datatype Candidate = Candidate(selected: Selected, obligation: Enhanced)

  /** One call of liquidate_and_redeem that built its transaction. */
  datatype Attempt = Attempt(task: Task, candidate: Candidate, amount: u64, order: seq<Pubkey>, plan: seq<Instruction>)

  datatype State = State(
    memory: Memory,
    cloned: map<nat, map<string, Retriever>>,      // the capsule as fetch task i copied it
    fetched: map<nat, MarketData>,                 // what fetch task i returned
    persisted: set<nat>,                           // writers that ran
    snapshots: map<nat, MarketData>,               // the entry read for market i before its tasks start
    decided: map<Task, Option<Candidate>>,
    attempted: map<Task, Option<Enhanced>>,        // the obligation to write back, if any
    updated: set<Task>,
    log: seq<Attempt>)

  function Start(memory: Memory): State {
    State(memory, map[], map[], {}, map[], map[], map[], {}, [])
  }

  datatype Step =
    | CloneCapsule(i: nat)
    | FinishFetch(i: nat, order: seq<Pubkey>)
    | Persist(i: nat)
    | Snapshot(i: nat)
    | DecideOn(t: Task)
    | AttemptOn(t: Task, order: seq<Pubkey>)
    | WriteBack(t: Task)

  // ---------------------------------------------------------------- the steps; None is "not enabled"

  /** A fetch task clones the whole capsule under a read lock. */
  function DoClone(env: Env, s: State, i: nat): Option<State> {
    if i < |env.markets| && i !in s.cloned then Some(s.(cloned := s.cloned[i := s.memory.markets])) else None
  }

  /** The replies are in; the task works on its own clone only. */
  function DoFetch(env: Env, s: State, i: nat, order: seq<Pubkey>): Option<State> {
    if i < |env.markets| && i in s.cloned && i !in s.fetched && Name(env, i) in s.cloned[i]
      && CanFetch(s.cloned[i][Name(env, i)], env.fetches(i), order) then
      var (heap, data) := Fetch(s.memory.heap, s.cloned[i][Name(env, i)], env.fetches(i), order);
      Some(s.(memory := s.memory.(heap := heap), fetched := s.fetched[i := data]))
    else None
  }

  /** The main task awaits the fetches in order and spawns a writer after each; writers run at any time after. */
  function DoPersist(env: Env, s: State, i: nat): Option<State> {
    if i < |env.markets| && (forall j | 0 <= j <= i :: j in s.fetched) && i !in s.persisted then
      Some(s.(memory := WithMarketData(s.memory, Name(env, i), s.fetched[i]), persisted := s.persisted + {i}))
    else None
  }

  /** After all writers, the main task copies each market's entry in order and spawns the market's tasks. */
  function DoSnapshot(env: Env, s: State, i: nat): Option<State> {
    if i < |env.markets| && i !in s.snapshots && Name(env, i) in s.memory.markets
      && (forall j | 0 <= j < |env.markets| :: j in s.persisted) && (forall j | 0 <= j < i :: j in s.snapshots) then
      Some(s.(snapshots := s.snapshots[i := s.memory.markets[Name(env, i)].inner]))
    else None
  }

  predicate IsObligation(heap: Heap, cell: nat) {
    cell < |heap| && heap[cell].ObligationCell?
  }

  predicate IsBook(heap: Heap, d: MarketData) {
    && d.reserves < |heap| && heap[d.reserves].ReservesCell?
    && d.oracleData < |heap| && heap[d.oracleData].OraclesCell?
  }

  /** A decision task reads the cells behind its snapshot when it runs, not when the snapshot was taken. */
  function DoDecide(env: Env, s: State, t: Task): Option<State> {
    if t.market in s.snapshots && t.key in s.snapshots[t.market].obligations && t !in s.decided
      && IsObligation(s.memory.heap, s.snapshots[t.market].obligations[t.key])
      && IsBook(s.memory.heap, s.snapshots[t.market]) then
      var data, heap := s.snapshots[t.market], s.memory.heap;
      var obligation := heap[data.obligations[t.key]].obligation;
      var book := Book(heap[data.reserves].reserves, heap[data.oracleData].oracles);
      var candidate :=
        match DecisionOf(obligation.inner, book)
        case None => None
        case Some(selected) => Some(Candidate(selected, obligation));
      Some(s.(decided := s.decided[t := candidate]))
    else None
  }

  /** An order in which the hash set of the obligation's reserves may be iterated. */
  predicate ReserveOrder(order: seq<Pubkey>, o: Obligation) {
    && (forall a :: a in order ==> a in TotalReserves(o))
    && (forall a :: a in TotalReserves(o) ==> a in order)
    && (forall i, j :: 0 <= i < j < |order| ==> order[i] != order[j])
  }

  /** A task that awaits its decision, reads the wallet, attempts the liquidation and reads the obligation back. */
  function DoAttempt(env: Env, s: State, t: Task, order: seq<Pubkey>): Option<State> {
    if t in s.decided && t !in s.attempted && t.market < |env.markets| then
      var replies := env.tasks(t);
      match s.decided[t]
      case None => Some(s.(attempted := s.attempted[t := None]))
      case Some(c) =>
        if !replies.tokenAccount || replies.balance.None? then None
        else if replies.balance.value == 0 then Some(s.(attempted := s.attempted[t := None]))
        else if !ReserveOrder(order, c.obligation.inner) then None
        else
          match PlanOf(replies.balance.value, c.selected.borrow, c.selected.deposit, env.markets[t.market],
                       c.obligation, replies.wallet, order)
          case Failure(Panicked) => None
          case Failure(ReservesAreNotIdentified) => Some(s.(attempted := s.attempted[t := None]))
          case Success(plan) =>
            if !replies.blockhash then None
            else if replies.account.None? then None
            else
              Some(s.(attempted := s.attempted[t := Some(Enhanced(replies.account.value, c.obligation.pubkey))],
                      log := s.log + [Attempt(t, c, replies.balance.value, order, plan)]))
    else None
  }

  /** All decisions of the markets up to i are in: the market tasks up to i have returned. */
  predicate DecidedUpTo(s: State, i: nat) {
    forall j | 0 <= j <= i :: j in s.snapshots && forall k | k in s.snapshots[j].obligations :: Task(j, k) in s.decided
  }

  /** The main task awaits markets in order and spawns a writer for each finished attempt. */
  function DoWriteBack(env: Env, s: State, t: Task): Option<State> {
    if t in s.attempted && t !in s.updated && t.market < |env.markets|
      && (forall j | 0 <= j < |env.markets| :: j in s.snapshots) && DecidedUpTo(s, t.market) then
      var memory :=
        match s.attempted[t]
        case None => s.memory
        case Some(obligation) => WithObligation(s.memory, Name(env, t.market), obligation);
      Some(s.(memory := memory, updated := s.updated + {t}))
    else None
  }

  function Do(env: Env, s: State, step: Step): Option<State> {
    match step
    case CloneCapsule(i) => DoClone(env, s, i)
    case FinishFetch(i, order) => DoFetch(env, s, i, order)
    case Persist(i) => DoPersist(env, s, i)
    case Snapshot(i) => DoSnapshot(env, s, i)
    case DecideOn(t) => DoDecide(env, s, t)
    case AttemptOn(t, order) => DoAttempt(env, s, t, order)
    case WriteBack(t) => DoWriteBack(env, s, t)
  }

  /** The state a sequence of steps leads to; None when some step was not enabled. */
  function Run(env: Env, s: State, steps: seq<Step>): Option<State> {
    if steps == [] then Some(s)
    else
      match Run(env, s, steps[..|steps| - 1])
      case None => None
      case Some(s') => Do(env, s', steps[|steps| - 1])
  }

  /** The round has returned: every market was read and every obligation's last task is done. */
  ghost predicate Complete(env: Env, s: State) {
    forall i :: 0 <= i < |env.markets| ==>
      i in s.snapshots && forall k :: k in s.snapshots[i].obligations ==> Task(i, k) in s.updated
  }

  // ---------------------------------------------------------------- what a round should compute

  /** The market as the persist phase leaves it, from its entry at the start of the round. */
  ghost function PersistedView(env: Env, i: nat, before: MarketView): MarketView
    requires Answered(env.fetches(i), before.initialized, before.obligations.Keys)
  {
    var replies := env.fetches(i);
    MarketView(true, FetchedObligations(replies, before.initialized, before.obligations.Keys),
               FetchedBook(replies))
  }

  ghost function DecisionFor(view: MarketView, k: Pubkey): Option<Candidate>
    requires k in view.obligations
  {
    var e := view.obligations[k];
    match DecisionOf(e.inner, view.book)
    case None => None
    case Some(selected) => Some(Candidate(selected, e))
  }

  /** How an attempt ends: by a panic, or with the obligation to write back, if any. */
  datatype Outcome = Panics | Finished(update: Option<Enhanced>)

  ghost function OutcomeFor(env: Env, t: Task, view: MarketView): Outcome
    requires t.market < |env.markets| && t.key in view.obligations
  {
    match DecisionFor(view, t.key)
    case None => Finished(None)
    case Some(c) =>
      var replies := env.tasks(t);
      if !replies.tokenAccount || replies.balance.None? then Panics
      else if replies.balance.value == 0 then Finished(None)
      else if !Resolvable(c.obligation.inner, c.selected.borrow.symbol, c.selected.deposit.symbol, env.markets[t.market]) then Panics
      else if !replies.blockhash || replies.account.None? then Panics
      else Finished(Some(Enhanced(replies.account.value, c.obligation.pubkey)))
  }

  /** The obligation a market ends the round with under key k. */
  ghost function FinalObligation(env: Env, t: Task, view: MarketView): Enhanced
    requires t.market < |env.markets| && t.key in view.obligations
  {
    match OutcomeFor(env, t, view)
    case Finished(Some(e)) => e
    case _ => view.obligations[t.key]
  }

  /** The market at the end of the round: its persisted data, with the attempted obligations replaced. */
  ghost function FinalView(env: Env, i: nat, before: MarketView): MarketView
    requires i < |env.markets|
    requires Answered(env.fetches(i), before.initialized, before.obligations.Keys)
  {
    var view := PersistedView(env, i, before);
    view.(obligations := map k | k in view.obligations :: FinalObligation(env, Task(i, k), view))
  }

  ghost predicate CanRefetch(env: Env, start: Memory, i: nat)
    requires i < |env.markets| && MemoryWellFormed(start)
  {
    && Name(env, i) in start.markets
    && var before := ViewOf(start.heap, start.markets[Name(env, i)]);
       Answered(env.fetches(i), before.initialized, before.obligations.Keys)
  }

  /** Market i's view after the persist phase of a round that starts in the given memory. */
  ghost function Persisted(env: Env, start: Memory, i: nat): MarketView
    requires i < |env.markets| && MemoryWellFormed(start) && CanRefetch(env, start, i)
  {
    PersistedView(env, i, ViewOf(start.heap, start.markets[Name(env, i)]))
  }

  /** The task's obligation is among those persisted for its market. */
  ghost predicate Known(env: Env, start: Memory, t: Task)
    requires MemoryWellFormed(start)
  {
    t.market < |env.markets| && CanRefetch(env, start, t.market) && t.key in Persisted(env, start, t.market).obligations
  }

  /** The round's result on views: what markets in the configuration become, others unchanged. */
  ghost predicate RoundResult(env: Env, start: Memory, result: map<string, MarketView>)
    requires MemoryWellFormed(start)
  {
    && result.Keys == start.markets.Keys
    && (forall i :: 0 <= i < |env.markets| ==>
          && CanRefetch(env, start, i)
          && result[Name(env, i)] == FinalView(env, i, ViewOf(start.heap, start.markets[Name(env, i)])))
    && (forall name :: name in start.markets && (forall i :: 0 <= i < |env.markets| ==> Name(env, i) != name) ==>
          result[name] == ViewOf(start.heap, start.markets[name]))
  }
}
