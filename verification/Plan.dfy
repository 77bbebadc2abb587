/**
 The liquidation transaction: market configuration, the price-feed map keyed by reserve, and the list of
 instructions liquidate_and_redeem emits after resolving the selected positions by token symbol.
 */
module Plan {
  import opened Wrappers
  import opened FixedPoint
  import opened Lending
  import opened Refresh

  // ---------------------------------------------------------------- configuration

  /** A reserve as the market configuration lists it. */
  datatype ReserveInfo = ReserveInfo(
    symbol: string,
    mint: Pubkey,
    address: Pubkey,
    pythOracle: Pubkey,
    switchboardOracle: Pubkey,
    collateralMint: Pubkey,
    collateralSupply: Pubkey,
    liquidityAddress: Pubkey,
    feeReceiver: Pubkey)

  datatype Market = Market(address: string, key: Pubkey, reserves: seq<ReserveInfo>)

  ghost predicate UniqueAddresses(reserves: seq<ReserveInfo>) {
    forall i, j :: 0 <= i < j < |reserves| ==> reserves[i].address != reserves[j].address
  }

  ghost predicate UniqueSymbols(reserves: seq<ReserveInfo>) {
    forall i, j :: 0 <= i < j < |reserves| ==> reserves[i].symbol != reserves[j].symbol
  }

  // ---------------------------------------------------------------- the price-feed map

  function OracleOf(info: ReserveInfo): OracleData {
    OracleData(info.symbol, info.address, info.mint)
  }

  predicate IndicesInto(done: seq<nat>, n: nat) {
    forall i :: 0 <= i < |done| ==> done[i] < n
  }

  /** The map after the tasks for the reserves at the given indices finished, in that order. */
  function OraclesAfter(reserves: seq<ReserveInfo>, priced: seq<bool>, done: seq<nat>): map<Pubkey, OracleData>
    requires |priced| == |reserves| && IndicesInto(done, |reserves|)
  {
    if done == [] then map[]
    else
      var oracles := OraclesAfter(reserves, priced, done[..|done| - 1]);
      var k := done[|done| - 1];
      if priced[k] then oracles[reserves[k].address := OracleOf(reserves[k])] else oracles
  }

  /** One task per reserve inserts into the shared map; a task without a price inserts nothing. */
  method GetTokenOracleData(reserves: seq<ReserveInfo>, priced: seq<bool>, completion: seq<nat>)
    returns (result: map<Pubkey, OracleData>)
    requires |priced| == |reserves| && IndicesInto(completion, |reserves|)
    ensures result == OraclesAfter(reserves, priced, completion)
  {
    result := map[];
    for i := 0 to |completion|
      invariant result == OraclesAfter(reserves, priced, completion[..i])
    {
      assert completion[..i + 1][..i] == completion[..i];
      var k := completion[i];
      if priced[k] {
        var oracleData := OracleOf(reserves[k]);
        result := result[oracleData.reserveAddress := oracleData];
      }
    }
    assert completion[..|completion|] == completion;
  }

  /** Every entry of a price-feed map describes the configured reserve at its key. */
  ghost predicate FollowsConfig(oracles: map<Pubkey, OracleData>, reserves: seq<ReserveInfo>) {
    forall a :: a in oracles ==> exists i :: 0 <= i < |reserves| && reserves[i].address == a && oracles[a] == OracleOf(reserves[i])
  }

  lemma {:induction false} OraclesFollowConfig(reserves: seq<ReserveInfo>, priced: seq<bool>, done: seq<nat>)
    requires |priced| == |reserves| && IndicesInto(done, |reserves|)
    ensures FollowsConfig(OraclesAfter(reserves, priced, done), reserves)
    ensures forall a :: a in OraclesAfter(reserves, priced, done) <==>
              exists i :: 0 <= i < |done| && priced[done[i]] && reserves[done[i]].address == a
  {
    if done != [] {
      var n := |done| - 1;
      var front, k := done[..n], done[n];
      OraclesFollowConfig(reserves, priced, front);
      var before := OraclesAfter(reserves, priced, front);
      assert forall i :: 0 <= i < n ==> front[i] == done[i];
      assert FollowsConfig(before, reserves);
      forall a
        ensures a in OraclesAfter(reserves, priced, done) <==>
                exists i :: 0 <= i < |done| && priced[done[i]] && reserves[done[i]].address == a
      {
        if a in before {
          var i :| 0 <= i < n && priced[front[i]] && reserves[front[i]].address == a;
          assert priced[done[i]] && reserves[done[i]].address == a;
        }
      }
    }
  }

  /** With distinct reserve addresses the map does not depend on the order in which the tasks finish. */
  lemma OracleOrderIrrelevant(reserves: seq<ReserveInfo>, priced: seq<bool>, done: seq<nat>, done': seq<nat>)
    requires |priced| == |reserves| && IndicesInto(done, |reserves|) && IndicesInto(done', |reserves|)
    requires UniqueAddresses(reserves) && multiset(done) == multiset(done')
    ensures OraclesAfter(reserves, priced, done) == OraclesAfter(reserves, priced, done')
  {
    OraclesFollowConfig(reserves, priced, done);
    OraclesFollowConfig(reserves, priced, done');
    SameKeys(reserves, priced, done, done');
    SameKeys(reserves, priced, done', done);
  }

  lemma SameKeys(reserves: seq<ReserveInfo>, priced: seq<bool>, done: seq<nat>, done': seq<nat>)
    requires |priced| == |reserves| && IndicesInto(done, |reserves|) && IndicesInto(done', |reserves|)
    requires multiset(done) == multiset(done')
    ensures OraclesAfter(reserves, priced, done).Keys <= OraclesAfter(reserves, priced, done').Keys
  {
    OraclesFollowConfig(reserves, priced, done);
    OraclesFollowConfig(reserves, priced, done');
    forall a | a in OraclesAfter(reserves, priced, done)
      ensures a in OraclesAfter(reserves, priced, done')
    {
      var i :| 0 <= i < |done| && priced[done[i]] && reserves[done[i]].address == a;
      assert done[i] in multiset(done');
      var j :| 0 <= j < |done'| && done'[j] == done[i];
    }
  }

  // ---------------------------------------------------------------- lookups

  /** The first element that satisfies the predicate; unwrapping None panics. */
  function FindWhere<T>(list: seq<T>, p: T -> bool): Option<T> {
    if list == [] then None else if p(list[0]) then Some(list[0]) else FindWhere(list[1..], p)
  }

  lemma {:induction false} FindWhereFirst<T>(list: seq<T>, p: T -> bool) returns (i: nat)
    ensures FindWhere(list, p) == None ==> forall x :: x in list ==> !p(x)
    ensures FindWhere(list, p).Some? ==>
              && i < |list| && FindWhere(list, p).value == list[i] && p(list[i])
              && forall j :: 0 <= j < i ==> !p(list[j])
  {
    i := 0;
    if list != [] && !p(list[0]) {
      var k := FindWhereFirst(list[1..], p);
      i := k + 1;
      assert list == [list[0]] + list[1..];
      if FindWhere(list, p).Some? {
        forall j | 0 <= j < i
          ensures !p(list[j])
        {
          assert j > 0 ==> list[j] == list[1..][j - 1];
        }
      }
    }
  }

  function AtAddress(a: Pubkey): ReserveInfo -> bool {
    (x: ReserveInfo) => x.address == a
  }

  function WithSymbol(symbol: string): ReserveInfo -> bool {
    (x: ReserveInfo) => x.symbol == symbol
  }

  /** The symbol map: a later reserve overwrites an earlier one with the same symbol. */
  function SymbolMap(reserves: seq<ReserveInfo>): map<string, ReserveInfo> {
    if reserves == [] then map[]
    else SymbolMap(reserves[..|reserves| - 1])[reserves[|reserves| - 1].symbol := reserves[|reserves| - 1]]
  }

  lemma {:induction false} SymbolMapLast(reserves: seq<ReserveInfo>, symbol: string) returns (i: nat)
    ensures symbol in SymbolMap(reserves) <==> exists r :: r in reserves && r.symbol == symbol
    ensures symbol in SymbolMap(reserves) ==>
              && i < |reserves| && reserves[i].symbol == symbol && SymbolMap(reserves)[symbol] == reserves[i]
              && forall j :: i < j < |reserves| ==> reserves[j].symbol != symbol
  {
    i := 0;
    if reserves != [] {
      var n := |reserves| - 1;
      assert reserves == reserves[..n] + [reserves[n]];
      if reserves[n].symbol == symbol {
        i := n;
      } else {
        i := SymbolMapLast(reserves[..n], symbol);
      }
    }
  }

  // ---------------------------------------------------------------- instructions

  /** The associated token account of a wallet for a mint. */
  datatype TokenAccount = TokenAccount(wallet: Pubkey, mint: Pubkey)

  datatype AccountKey = Account(key: Pubkey) | ClockSysvar

  datatype AccountMeta = AccountMeta(key: AccountKey, isSigner: bool, isWritable: bool)

  datatype Instruction =
    | RefreshReserve(reserve: Pubkey, pythOracle: Pubkey, switchboardOracle: Pubkey)
    | RefreshObligation(accounts: seq<AccountMeta>)
    | CreateTokenAccount(account: TokenAccount)
    | LiquidateAndRedeem(
        amount: u64,
        source: TokenAccount,
        destinationCollateral: TokenAccount,
        destinationLiquidity: TokenAccount,
        repayReserve: Pubkey,
        repayLiquiditySupply: Pubkey,
        withdrawReserve: Pubkey,
        withdrawCollateralMint: Pubkey,
        withdrawCollateralSupply: Pubkey,
        withdrawLiquiditySupply: Pubkey,
        withdrawFeeReceiver: Pubkey,
        obligation: Pubkey,
        lendingMarket: Pubkey,
        authority: Pubkey)

  /** The refresh_obligation builder: the obligation, the clock, then the given reserves read-only. */
  function RefreshObligationInstruction(obligation: Pubkey, reserves: seq<Pubkey>): Instruction {
    RefreshObligation(
      [AccountMeta(Account(obligation), false, true), AccountMeta(ClockSysvar, false, false)]
      + seq(|reserves|, i requires 0 <= i < |reserves| => AccountMeta(Account(reserves[i]), false, false)))
  }

  datatype PlanFailure = Panicked | ReservesAreNotIdentified

  /** The deposits' reserves in order, then the borrows' reserves in order. */
  function TotalReserves(o: Obligation): seq<Pubkey> {
    seq(|o.deposits|, i requires 0 <= i < |o.deposits| => o.deposits[i].depositReserve)
    + seq(|o.borrows|, i requires 0 <= i < |o.borrows| => o.borrows[i].borrowReserve)
  }

  /** The surroundings of an attempt: who pays, and which token accounts already exist. */
  datatype Wallet = Wallet(payer: Pubkey, existing: set<TokenAccount>)

  // ---------------------------------------------------------------- the transaction

  /** A hash set's elements in the unspecified order its iteration yields. */
  method Drain(elements: set<Pubkey>) returns (order: seq<Pubkey>)
    ensures Lists(order, elements)
  {
    order := [];
    var left := elements;
    while left != {}
      invariant left <= elements
      invariant Lists(order, elements - left)
      decreases left
    {
      var x :| x in left;
      order := order + [x];
      left := left - {x};
    }
  }

  /** A sequence that lists a set, each element once. */
  ghost predicate Lists(order: seq<Pubkey>, elements: set<Pubkey>) {
    && (forall x :: x in order <==> x in elements)
    && (forall i, j :: 0 <= i < j < |order| ==> order[i] != order[j])
  }

  /** Every lookup finds something: the reserves of the obligation by address, the tokens by symbol. */
  ghost predicate Resolvable(o: Obligation, repaySymbol: string, withdrawSymbol: string, market: Market) {
    && (forall a :: a in TotalReserves(o) ==> exists r :: r in market.reserves && r.address == a)
    && (exists r :: r in market.reserves && r.symbol == repaySymbol)
    && (exists r :: r in market.reserves && r.symbol == withdrawSymbol)
  }

  function Unwrap<T>(o: Option<T>): Result<T, PlanFailure> {
    match o case None => Failure(Panicked) case Some(v) => Success(v)
  }

  function RefreshInstruction(a: Pubkey, market: Market): Result<Instruction, PlanFailure> {
    var info :- Unwrap(FindWhere(market.reserves, AtAddress(a)));
    Success(RefreshReserve(a, info.pythOracle, info.switchboardOracle))
  }

  /** The reserve refreshes, in the given order. */
  function RefreshInstructions(order: seq<Pubkey>, market: Market): Result<seq<Instruction>, PlanFailure> {
    if order == [] then Success([])
    else
      var ixs :- RefreshInstructions(order[..|order| - 1], market);
      var ix :- RefreshInstruction(order[|order| - 1], market);
      Success(ixs + [ix])
  }

  function CreateIfMissing(account: TokenAccount, wallet: Wallet): seq<Instruction> {
    if account in wallet.existing then [] else [CreateTokenAccount(account)]
  }

  /** The closing instruction, from the symbol lookups. */
  function LiquidateInstruction(
    amount: u64, repayToken: ReserveInfo, withdrawToken: ReserveInfo, repay: ReserveInfo, withdraw: ReserveInfo,
    market: Market, obligation: Pubkey, wallet: Wallet): Instruction
  {
    LiquidateAndRedeem(
      amount,
      TokenAccount(wallet.payer, repayToken.mint),
      TokenAccount(wallet.payer, withdraw.collateralMint),
      TokenAccount(wallet.payer, withdrawToken.mint),
      repay.address,
      repay.liquidityAddress,
      withdraw.address,
      withdraw.collateralMint,
      withdraw.collateralSupply,
      withdraw.liquidityAddress,
      withdraw.feeReceiver,
      obligation,
      market.key,
      wallet.payer)
  }

  /** The instruction list for one iteration order of the reserve set. */
  function PlanOf(amount: u64, borrow: Borrow, deposit: Deposit, market: Market, obligation: Enhanced,
                  wallet: Wallet, order: seq<Pubkey>): Result<seq<Instruction>, PlanFailure>
  {
    var refreshes :- RefreshInstructions(order, market);
    var repayToken :- Unwrap(FindWhere(market.reserves, WithSymbol(borrow.symbol)));
    var withdrawToken :- Unwrap(FindWhere(market.reserves, WithSymbol(deposit.symbol)));
    var symbols := SymbolMap(market.reserves);
    if deposit.symbol !in symbols || borrow.symbol !in symbols then
      Failure(ReservesAreNotIdentified)
    else
      var repay, withdraw := symbols[borrow.symbol], symbols[deposit.symbol];
      Success(
        refreshes
        + [RefreshObligationInstruction(obligation.pubkey, TotalReserves(obligation.inner))]
        + CreateIfMissing(TokenAccount(wallet.payer, withdraw.collateralMint), wallet)
        + CreateIfMissing(TokenAccount(wallet.payer, withdrawToken.mint), wallet)
        + [LiquidateInstruction(amount, repayToken, withdrawToken, repay, withdraw, market, obligation.pubkey, wallet)])
  }

  lemma RefreshInstructionFound(a: Pubkey, market: Market)
    ensures RefreshInstruction(a, market).Success? <==> exists r :: r in market.reserves && r.address == a
    ensures RefreshInstruction(a, market).Failure? ==> RefreshInstruction(a, market).error == Panicked
  {
    var _ := FindWhereFirst(market.reserves, AtAddress(a));
  }

  lemma SymbolFound(symbol: string, reserves: seq<ReserveInfo>)
    ensures FindWhere(reserves, WithSymbol(symbol)).Some? <==> exists r :: r in reserves && r.symbol == symbol
    ensures symbol in SymbolMap(reserves) <==> exists r :: r in reserves && r.symbol == symbol
  {
    var _ := FindWhereFirst(reserves, WithSymbol(symbol));
    var _ := SymbolMapLast(reserves, symbol);
  }

  lemma {:induction false} RefreshesFound(order: seq<Pubkey>, market: Market)
    ensures RefreshInstructions(order, market).Success? <==>
            forall i :: 0 <= i < |order| ==> RefreshInstruction(order[i], market).Success?
    ensures RefreshInstructions(order, market).Success? ==>
              var ixs := RefreshInstructions(order, market).value;
              && |ixs| == |order|
              && forall i :: 0 <= i < |order| ==> RefreshInstruction(order[i], market) == Success(ixs[i])
    ensures RefreshInstructions(order, market).Failure? ==> RefreshInstructions(order, market).error == Panicked
  {
    if order != [] {
      var n := |order| - 1;
      RefreshesFound(order[..n], market);
      RefreshInstructionFound(order[n], market);
      assert forall i :: 0 <= i < n ==> order[..n][i] == order[i];
    }
  }

  /**
   A plan exists exactly when every lookup succeeds, whatever order the set was iterated in. Any other
   outcome is a panic: the error reserved for unknown symbols is unreachable, because the panicking
   lookups by the same symbols come first.
   */
  lemma PlanExists(amount: u64, borrow: Borrow, deposit: Deposit, market: Market, obligation: Enhanced,
                   wallet: Wallet, order: seq<Pubkey>)
    requires forall a :: a in order <==> a in TotalReserves(obligation.inner)
    ensures var plan := PlanOf(amount, borrow, deposit, market, obligation, wallet, order);
            && (plan.Success? <==> Resolvable(obligation.inner, borrow.symbol, deposit.symbol, market))
            && (plan.Failure? ==> plan.error == Panicked)
  {
    RefreshesFound(order, market);
    forall i | 0 <= i < |order|
      ensures order[i] in TotalReserves(obligation.inner)
      ensures RefreshInstruction(order[i], market).Success? <==> exists r :: r in market.reserves && r.address == order[i]
    {
      RefreshInstructionFound(order[i], market);
    }
    SymbolFound(borrow.symbol, market.reserves);
    SymbolFound(deposit.symbol, market.reserves);
  }

  // ---------------------------------------------------------------- what the instructions say

  /** r is the first reserve with a symbol. */
  ghost predicate FirstWith(reserves: seq<ReserveInfo>, symbol: string, r: ReserveInfo) {
    exists i :: 0 <= i < |reserves| && reserves[i] == r && r.symbol == symbol
      && forall j :: 0 <= j < i ==> reserves[j].symbol != symbol
  }

  /** r is the last one. */
  ghost predicate LastWith(reserves: seq<ReserveInfo>, symbol: string, r: ReserveInfo) {
    exists i :: 0 <= i < |reserves| && reserves[i] == r && r.symbol == symbol
      && forall j :: i < j < |reserves| ==> reserves[j].symbol != symbol
  }

  ghost predicate FirstAtAddress(reserves: seq<ReserveInfo>, a: Pubkey, i: nat) {
    i < |reserves| && reserves[i].address == a && forall j :: 0 <= j < i ==> reserves[j].address != a
  }

  /** Each reserve refresh carries the price accounts of the configured reserve at its address. */
  ghost predicate RefreshesConfigured(ixs: seq<Instruction>, order: seq<Pubkey>, reserves: seq<ReserveInfo>) {
    && |order| <= |ixs|
    && forall n :: 0 <= n < |order| ==> RefreshAt(ixs[n], order[n], reserves)
  }

  ghost predicate RefreshAt(ix: Instruction, a: Pubkey, reserves: seq<ReserveInfo>) {
    && ix.RefreshReserve? && ix.reserve == a
    && exists i: nat :: FirstAtAddress(reserves, a, i)
         && ix.pythOracle == reserves[i].pythOracle && ix.switchboardOracle == reserves[i].switchboardOracle
  }

  /** Every account of the closing instruction, by the part each of the four lookups plays. */
  ghost predicate ClosesOn(ix: Instruction, amount: u64, repayToken: ReserveInfo, repay: ReserveInfo,
                           withdrawToken: ReserveInfo, withdraw: ReserveInfo,
                           market: Market, obligation: Pubkey, payer: Pubkey) {
    && ix.LiquidateAndRedeem?
    && ix.amount == amount
    && (ix.source.wallet, ix.source.mint) == (payer, repayToken.mint)
    && (ix.destinationCollateral.wallet, ix.destinationCollateral.mint) == (payer, withdraw.collateralMint)
    && (ix.destinationLiquidity.wallet, ix.destinationLiquidity.mint) == (payer, withdrawToken.mint)
    && ix.repayReserve == repay.address
    && ix.repayLiquiditySupply == repay.liquidityAddress
    && ix.withdrawReserve == withdraw.address
    && ix.withdrawCollateralMint == withdraw.collateralMint
    && ix.withdrawCollateralSupply == withdraw.collateralSupply
    && ix.withdrawLiquiditySupply == withdraw.liquidityAddress
    && ix.withdrawFeeReceiver == withdraw.feeReceiver
    && ix.obligation == obligation
    && ix.lendingMarket == market.key
    && ix.authority == payer
  }

  /** The two destination accounts are created, in order and before the end, exactly where they do not exist. */
  ghost predicate CreatesMissing(ixs: seq<Instruction>, from: nat, wallet: Wallet) {
    && from < |ixs| && ixs[|ixs| - 1].LiquidateAndRedeem?
    && var close, creates := ixs[|ixs| - 1], ixs[from..|ixs| - 1];
    var collateral, liquidity := close.destinationCollateral, close.destinationLiquidity;
    if collateral in wallet.existing then
      if liquidity in wallet.existing then creates == [] else creates == [CreateTokenAccount(liquidity)]
    else
      if liquidity in wallet.existing then creates == [CreateTokenAccount(collateral)]
      else creates == [CreateTokenAccount(collateral), CreateTokenAccount(liquidity)]
  }

  ghost predicate ClosesBySymbol(ix: Instruction, amount: u64, repaySymbol: string, withdrawSymbol: string,
                                 market: Market, obligation: Pubkey, payer: Pubkey) {
    exists rt, rr, wt, wr ::
      && FirstWith(market.reserves, repaySymbol, rt) && LastWith(market.reserves, repaySymbol, rr)
      && FirstWith(market.reserves, withdrawSymbol, wt) && LastWith(market.reserves, withdrawSymbol, wr)
      && ClosesOn(ix, amount, rt, rr, wt, wr, market, obligation, payer)
  }

  /**
   The contents of a transaction, by the configuration alone: the tokens are those of the first reserve with
   a symbol, the reserves acted on are the last with it.
   */
  ghost predicate PlanReads(ixs: seq<Instruction>, amount: u64, repaySymbol: string, withdrawSymbol: string,
                            market: Market, obligation: Pubkey, wallet: Wallet, order: seq<Pubkey>) {
    && RefreshesConfigured(ixs, order, market.reserves)
    && CreatesMissing(ixs, |order| + 1, wallet)
    && ClosesBySymbol(ixs[|ixs| - 1], amount, repaySymbol, withdrawSymbol, market, obligation, wallet.payer)
  }

  lemma RefreshRead(a: Pubkey, market: Market)
    requires RefreshInstruction(a, market).Success?
    ensures RefreshAt(RefreshInstruction(a, market).value, a, market.reserves)
  {
    var i := FindWhereFirst(market.reserves, AtAddress(a));
    assert FirstAtAddress(market.reserves, a, i);
  }

  lemma RefreshesRead(order: seq<Pubkey>, market: Market, rest: seq<Instruction>)
    requires RefreshInstructions(order, market).Success?
    ensures RefreshesConfigured(RefreshInstructions(order, market).value + rest, order, market.reserves)
    ensures |RefreshInstructions(order, market).value| == |order|
  {
    RefreshesFound(order, market);
    hide RefreshInstructions, RefreshInstruction, RefreshAt;
    var refreshes := RefreshInstructions(order, market).value;
    forall n | 0 <= n < |order|
      ensures RefreshAt((refreshes + rest)[n], order[n], market.reserves)
    {
      RefreshRead(order[n], market);
    }
  }

  lemma SymbolLookups(reserves: seq<ReserveInfo>, symbol: string)
    requires FindWhere(reserves, WithSymbol(symbol)).Some? && symbol in SymbolMap(reserves)
    ensures FirstWith(reserves, symbol, FindWhere(reserves, WithSymbol(symbol)).value)
    ensures LastWith(reserves, symbol, SymbolMap(reserves)[symbol])
  {
    var first := FindWhereFirst(reserves, WithSymbol(symbol));
    var last := SymbolMapLast(reserves, symbol);
  }

  /** What a plan is put together from. */
  lemma PlanParts(amount: u64, borrow: Borrow, deposit: Deposit, market: Market, obligation: Enhanced,
                  wallet: Wallet, order: seq<Pubkey>)
    returns (middle: Instruction, creates: seq<Instruction>, close: Instruction)
    requires PlanOf(amount, borrow, deposit, market, obligation, wallet, order).Success?
    ensures close.LiquidateAndRedeem?
    ensures ClosesBySymbol(close, amount, borrow.symbol, deposit.symbol, market, obligation.pubkey, wallet.payer)
    ensures creates == CreateIfMissing(close.destinationCollateral, wallet) + CreateIfMissing(close.destinationLiquidity, wallet)
    ensures RefreshInstructions(order, market).Success?
    ensures PlanOf(amount, borrow, deposit, market, obligation, wallet, order).value ==
            RefreshInstructions(order, market).value + [middle] + creates + [close]
  {
    hide RefreshInstructions, RefreshObligationInstruction, CreateIfMissing, FindWhere, SymbolMap, FirstWith, LastWith;
    SymbolLookups(market.reserves, borrow.symbol);
    SymbolLookups(market.reserves, deposit.symbol);
    var symbols := SymbolMap(market.reserves);
    var rt := FindWhere(market.reserves, WithSymbol(borrow.symbol)).value;
    var wt := FindWhere(market.reserves, WithSymbol(deposit.symbol)).value;
    var rr, wr := symbols[borrow.symbol], symbols[deposit.symbol];
    middle := RefreshObligationInstruction(obligation.pubkey, TotalReserves(obligation.inner));
    close := LiquidateInstruction(amount, rt, wt, rr, wr, market, obligation.pubkey, wallet);
    assert ClosesOn(close, amount, rt, rr, wt, wr, market, obligation.pubkey, wallet.payer);
    var first, second := CreateIfMissing(close.destinationCollateral, wallet), CreateIfMissing(close.destinationLiquidity, wallet);
    creates := first + second;
    var refreshes := RefreshInstructions(order, market).value;
    assert refreshes + [middle] + first + second + [close] == refreshes + [middle] + creates + [close];
  }

  /** Everything a successful plan says. */
  lemma PlanContents(amount: u64, borrow: Borrow, deposit: Deposit, market: Market, obligation: Enhanced,
                     wallet: Wallet, order: seq<Pubkey>)
    requires PlanOf(amount, borrow, deposit, market, obligation, wallet, order).Success?
    ensures PlanReads(PlanOf(amount, borrow, deposit, market, obligation, wallet, order).value,
                      amount, borrow.symbol, deposit.symbol, market, obligation.pubkey, wallet, order)
  {
    hide PlanOf, RefreshInstructions, CreateIfMissing, RefreshesConfigured, CreatesMissing, ClosesBySymbol;
    var ixs := PlanOf(amount, borrow, deposit, market, obligation, wallet, order).value;
    var middle, creates, close := PlanParts(amount, borrow, deposit, market, obligation, wallet, order);
    var refreshes := RefreshInstructions(order, market).value;
    assert ixs[|ixs| - 1] == close;
    CreatesRead(refreshes + [middle], creates, close, wallet);
    RefreshesRead(order, market, [middle] + creates + [close]);
    assert ixs == refreshes + ([middle] + creates + [close]);
  }

  lemma CreatesRead(before: seq<Instruction>, creates: seq<Instruction>, close: Instruction, wallet: Wallet)
    requires close.LiquidateAndRedeem?
    requires creates == CreateIfMissing(close.destinationCollateral, wallet) + CreateIfMissing(close.destinationLiquidity, wallet)
    ensures CreatesMissing(before + creates + [close], |before|, wallet)
  {
    var ixs := before + creates + [close];
    assert ixs[|before|..|ixs| - 1] == creates;
  }

  // ---------------------------------------------------------------- the methods

  /** One refresh per distinct reserve. */
  method RefreshReserves(reserves: seq<Pubkey>, market: Market) returns (r: Result<seq<Instruction>, PlanFailure>)
    ensures r == RefreshInstructions(reserves, market)
  {
    RefreshesFound(reserves, market);
    var ixs: seq<Instruction> := [];
    for i := 0 to |reserves|
      invariant RefreshInstructions(reserves[..i], market) == Success(ixs)
    {
      assert reserves[..i + 1][..i] == reserves[..i];
      var info :- Unwrap(FindWhere(market.reserves, AtAddress(reserves[i])));
      ixs := ixs + [RefreshReserve(reserves[i], info.pythOracle, info.switchboardOracle)];
    }
    assert reserves[..|reserves|] == reserves;
    r := Success(ixs);
  }

  /** The distinct reserves of a list, in the unspecified order of a hash set. */
  method DistinctReserves(totalReserves: seq<Pubkey>) returns (order: seq<Pubkey>)
    ensures Lists(order, set a | a in totalReserves)
  {
    var uniqReserveAddresses: set<Pubkey> := {};
    for i := 0 to |totalReserves|
      invariant uniqReserveAddresses == set a | a in totalReserves[..i]
    {
      uniqReserveAddresses := uniqReserveAddresses + {totalReserves[i]};
      assert totalReserves[..i + 1] == totalReserves[..i] + [totalReserves[i]];
    }
    assert totalReserves[..|totalReserves|] == totalReserves;
    order := Drain(uniqReserveAddresses);
  }

  /** Build the transaction of one attempt. */
  method Liquidate(amount: u64, borrow: Borrow, deposit: Deposit, market: Market, obligation: Enhanced, wallet: Wallet)
    returns (r: Result<seq<Instruction>, PlanFailure>, order: seq<Pubkey>)
    ensures Lists(order, set a | a in TotalReserves(obligation.inner))
    ensures r == PlanOf(amount, borrow, deposit, market, obligation, wallet, order)
    ensures r.Success? ==>
              PlanReads(r.value, amount, borrow.symbol, deposit.symbol, market, obligation.pubkey, wallet, order)
  {
    hide PlanReads;
    var totalReserves := TotalReserves(obligation.inner);
    order := DistinctReserves(totalReserves);
    var refreshes := RefreshReserves(order, market);
    if refreshes.Failure? {
      return refreshes, order;
    }
    var ixs := refreshes.value;
    ixs := ixs + [RefreshObligationInstruction(obligation.pubkey, totalReserves)];

    var repayTokenInfo := FindWhere(market.reserves, WithSymbol(borrow.symbol));
    if repayTokenInfo == None {
      return Failure(Panicked), order;
    }
    var symbols := BuildSymbolMap(market.reserves);
    var withdrawTokenInfo := FindWhere(market.reserves, WithSymbol(deposit.symbol));
    if withdrawTokenInfo == None {
      return Failure(Panicked), order;
    }
    if deposit.symbol !in symbols || borrow.symbol !in symbols {
      return Failure(ReservesAreNotIdentified), order;
    }
    var withdrawReserve, repayReserve := symbols[deposit.symbol], symbols[borrow.symbol];
    ixs := ixs + CreateIfMissing(TokenAccount(wallet.payer, withdrawReserve.collateralMint), wallet);
    ixs := ixs + CreateIfMissing(TokenAccount(wallet.payer, withdrawTokenInfo.value.mint), wallet);
    ixs := ixs + [LiquidateInstruction(amount, repayTokenInfo.value, withdrawTokenInfo.value,
                                       repayReserve, withdrawReserve, market, obligation.pubkey, wallet)];
    r := Success(ixs);
    PlanContents(amount, borrow, deposit, market, obligation, wallet, order);
  }

  method BuildSymbolMap(reserves: seq<ReserveInfo>) returns (symbols: map<string, ReserveInfo>)
    ensures symbols == SymbolMap(reserves)
  {
    symbols := map[];
    for i := 0 to |reserves|
      invariant symbols == SymbolMap(reserves[..i])
    {
      assert reserves[..i + 1][..i] == reserves[..i];
      symbols := symbols[reserves[i].symbol := reserves[i]];
    }
    assert reserves[..|reserves|] == reserves;
  }
}
