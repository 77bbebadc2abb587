/**
 Properties of the liquidation transaction: the order of its instructions, and when the lookups by token
 symbol lead back to the reserves that were selected by address.
 */
module PlanFacts {
  import opened Wrappers
  import opened FixedPoint
  import opened Lending
  import opened Refresh
  import opened RefreshFacts
  import opened Selection
  import opened Plan

  // ---------------------------------------------------------------- instruction order

  /** The reserve refreshes come first, one per listed reserve and nothing else. */
  ghost predicate RefreshesFirst(ixs: seq<Instruction>, order: seq<Pubkey>) {
    && |order| < |ixs|
    && (forall i :: 0 <= i < |ixs| ==> (ixs[i].RefreshReserve? <==> i < |order|))
    && (forall i :: 0 <= i < |order| ==> ixs[i].reserve == order[i])
  }

  /** Exactly one refresh of the obligation, at index n, for the given reserves in order. */
  ghost predicate RefreshesObligationOnce(ixs: seq<Instruction>, n: nat, o: Enhanced) {
    && n < |ixs|
    && (forall i :: 0 <= i < |ixs| ==> (ixs[i].RefreshObligation? <==> i == n))
    && RefreshAccounts(ixs[n].accounts, o)
  }

  /** The obligation and the clock, then every deposit's reserve in order, then every borrow's. */
  ghost predicate RefreshAccounts(accounts: seq<AccountMeta>, o: Enhanced) {
    var deposits, borrows := o.inner.deposits, o.inner.borrows;
    && |accounts| == 2 + |deposits| + |borrows|
    && accounts[0] == AccountMeta(Account(o.pubkey), false, true)
    && accounts[1] == AccountMeta(ClockSysvar, false, false)
    && (forall i :: 0 <= i < |deposits| ==> accounts[2 + i] == AccountMeta(Account(deposits[i].depositReserve), false, false))
    && (forall i :: 0 <= i < |borrows| ==>
          accounts[2 + |deposits| + i] == AccountMeta(Account(borrows[i].borrowReserve), false, false))
  }

  lemma RefreshAccountsInOrder(o: Enhanced)
    ensures RefreshAccounts(RefreshObligationInstruction(o.pubkey, TotalReserves(o.inner)).accounts, o)
  {
    var total, deposits, borrows := TotalReserves(o.inner), o.inner.deposits, o.inner.borrows;
    assert forall i :: 0 <= i < |deposits| ==> total[i] == deposits[i].depositReserve;
    assert forall i :: 0 <= i < |borrows| ==> total[|deposits| + i] == borrows[i].borrowReserve;
  }

  ghost predicate LiquidatesLast(ixs: seq<Instruction>) {
    ixs != [] && forall i :: 0 <= i < |ixs| ==> (ixs[i].LiquidateAndRedeem? <==> i == |ixs| - 1)
  }

  /** Reserve a is refreshed by exactly one instruction, before index n. */
  ghost predicate RefreshedOnce(ixs: seq<Instruction>, a: Pubkey, n: nat) {
    exists i :: 0 <= i < n && i < |ixs| && ixs[i].RefreshReserve? && ixs[i].reserve == a
      && forall j :: 0 <= j < |ixs| && ixs[j].RefreshReserve? && ixs[j].reserve == a ==> j == i
  }

  /**
   For every iteration order of the reserve set: each distinct reserve of the obligation is refreshed by
   exactly one instruction and no other reserve is; the obligation is refreshed once, after all of them,
   with deposits before borrows; the liquidation closes the list and occurs nowhere else.
   */
  lemma PlanOrder(amount: u64, borrow: Borrow, deposit: Deposit, market: Market, o: Enhanced,
                  wallet: Wallet, order: seq<Pubkey>)
    requires Lists(order, set a | a in TotalReserves(o.inner))
    requires PlanOf(amount, borrow, deposit, market, o, wallet, order).Success?
    ensures var ixs := PlanOf(amount, borrow, deposit, market, o, wallet, order).value;
            && RefreshesFirst(ixs, order)
            && RefreshesObligationOnce(ixs, |order|, o)
            && LiquidatesLast(ixs)
            && forall a :: a in TotalReserves(o.inner) <==> RefreshedOnce(ixs, a, |order|)
  {
    RefreshesFound(order, market);
    var ixs := PlanOf(amount, borrow, deposit, market, o, wallet, order).value;
    var refreshes := RefreshInstructions(order, market).value;
    forall i | 0 <= i < |order|
      ensures refreshes[i].RefreshReserve? && refreshes[i].reserve == order[i]
    {
      assert RefreshInstruction(order[i], market) == Success(refreshes[i]);
    }
    RefreshAccountsInOrder(o);
    var symbols := SymbolMap(market.reserves);
    var withdrawToken := FindWhere(market.reserves, WithSymbol(deposit.symbol)).value;
    var creates := CreateIfMissing(TokenAccount(wallet.payer, symbols[deposit.symbol].collateralMint), wallet)
                   + CreateIfMissing(TokenAccount(wallet.payer, withdrawToken.mint), wallet);
    assert ixs == refreshes + [ixs[|refreshes|]] + creates + [ixs[|ixs| - 1]];
    PlanShape(refreshes, ixs[|refreshes|], creates, ixs[|ixs| - 1], order);
    EachRefreshedOnce(ixs, order);
  }

  /** Refreshes, then the obligation refresh, then account creations, then the liquidation. */
  lemma PlanShape(refreshes: seq<Instruction>, middle: Instruction, creates: seq<Instruction>, close: Instruction,
                  order: seq<Pubkey>)
    requires |refreshes| == |order|
    requires forall i :: 0 <= i < |order| ==> refreshes[i].RefreshReserve? && refreshes[i].reserve == order[i]
    requires middle.RefreshObligation? && close.LiquidateAndRedeem?
    requires forall i :: 0 <= i < |creates| ==> creates[i].CreateTokenAccount?
    ensures var ixs := refreshes + [middle] + creates + [close];
            && RefreshesFirst(ixs, order) && LiquidatesLast(ixs)
            && ixs[|order|] == middle
            && forall i :: 0 <= i < |ixs| ==> (ixs[i].RefreshObligation? <==> i == |order|)
  {
  }

  lemma EachRefreshedOnce(ixs: seq<Instruction>, order: seq<Pubkey>)
    requires RefreshesFirst(ixs, order)
    requires forall i, j :: 0 <= i < j < |order| ==> order[i] != order[j]
    ensures forall a :: a in order <==> RefreshedOnce(ixs, a, |order|)
  {
    forall a
      ensures a in order <==> RefreshedOnce(ixs, a, |order|)
    {
      if a in order {
        var i :| 0 <= i < |order| && order[i] == a;
        assert ixs[i].RefreshReserve? && ixs[i].reserve == a;
      }
    }
  }

  // ---------------------------------------------------------------- symbols lead back to reserves

  /** A refresh succeeds only when every position has a price feed, and the lists carry that feed's data. */
  lemma RefreshedFromBook(o: Obligation, book: Book)
    requires RefreshOf(o, book).Success?
    ensures forall a :: a in TotalReserves(o) ==> a in book.oracles
    ensures var r := RefreshOf(o, book).value;
            && (forall i :: 0 <= i < |r.deposits| ==> DepositFromBook(r.deposits[i], book))
            && (forall i :: 0 <= i < |r.borrows| ==> BorrowFromBook(r.borrows[i], book))
  {
    var r := RefreshOf(o, book).value;
    DepositsMatch(o.deposits, book);
    BorrowsMatch(o.borrows, book);
    forall i | 0 <= i < |o.deposits|
      ensures o.deposits[i].depositReserve in book.oracles && DepositFromBook(r.deposits[i], book)
    {
      assert DepositMatches(o.deposits[i], r.obligation.deposits[i], r.deposits[i], book);
    }
    forall i | 0 <= i < |o.borrows|
      ensures o.borrows[i].borrowReserve in book.oracles && BorrowFromBook(r.borrows[i], book)
    {
      assert BorrowMatches(o.borrows[i], r.obligation.borrows[i], r.borrows[i], book);
    }
  }

  predicate DepositFromBook(d: Deposit, book: Book) {
    d.depositReserve in book.oracles && d.symbol == book.oracles[d.depositReserve].symbol
  }

  predicate BorrowFromBook(b: Borrow, book: Book) {
    && b.borrowReserve in book.oracles
    && b.symbol == book.oracles[b.borrowReserve].symbol
    && b.mintAddress == book.oracles[b.borrowReserve].mintAddress
  }

  /** The selected positions carry the symbols (and the mint) of configured reserves at their addresses. */
  lemma SelectedFromConfig(o: Obligation, book: Book, market: Market) returns (d: nat, b: nat)
    requires DecisionOf(o, book).Some? && FollowsConfig(book.oracles, market.reserves)
    ensures var s := DecisionOf(o, book).value;
            && d < |market.reserves| && b < |market.reserves|
            && market.reserves[d].address == s.deposit.depositReserve
            && market.reserves[d].symbol == s.deposit.symbol
            && market.reserves[b].address == s.borrow.borrowReserve
            && market.reserves[b].symbol == s.borrow.symbol
            && market.reserves[b].mint == s.borrow.mintAddress
  {
    var s := DecisionOf(o, book).value;
    var i, j := SelectionIsLastMaximum(o, book);
    RefreshedFromBook(o, book);
    var r := RefreshOf(o, book).value;
    assert DepositFromBook(r.deposits[i], book) && BorrowFromBook(r.borrows[j], book);
    d :| 0 <= d < |market.reserves| && market.reserves[d].address == s.deposit.depositReserve
      && book.oracles[s.deposit.depositReserve] == OracleOf(market.reserves[d]);
    b :| 0 <= b < |market.reserves| && market.reserves[b].address == s.borrow.borrowReserve
      && book.oracles[s.borrow.borrowReserve] == OracleOf(market.reserves[b]);
  }

  /** No attempt panics on a lookup: what was selected from the configured feeds can always be resolved. */
  lemma SelectedResolvable(o: Obligation, book: Book, market: Market)
    requires DecisionOf(o, book).Some? && FollowsConfig(book.oracles, market.reserves)
    ensures var s := DecisionOf(o, book).value; Resolvable(o, s.borrow.symbol, s.deposit.symbol, market)
  {
    var d, b := SelectedFromConfig(o, book, market);
    assert market.reserves[d] in market.reserves && market.reserves[b] in market.reserves;
    var _, _ := SelectionIsLastMaximum(o, book);
    RefreshedFromBook(o, book);
    forall a | a in TotalReserves(o)
      ensures exists r :: r in market.reserves && r.address == a
    {
      var i :| 0 <= i < |market.reserves| && market.reserves[i].address == a;
      assert market.reserves[i] in market.reserves;
    }
  }

  /** Another reserve of the market has the same symbol as reserve i. */
  ghost predicate SharedBefore(reserves: seq<ReserveInfo>, i: nat)
    requires i < |reserves|
  {
    exists j :: 0 <= j < i && reserves[j].symbol == reserves[i].symbol
  }

  ghost predicate SharedAfter(reserves: seq<ReserveInfo>, i: nat)
    requires i < |reserves|
  {
    exists j :: i < j < |reserves| && reserves[j].symbol == reserves[i].symbol
  }

  lemma FirstWithSymbol(reserves: seq<ReserveInfo>, i: nat)
    requires UniqueAddresses(reserves) && i < |reserves|
    ensures var found := FindWhere(reserves, WithSymbol(reserves[i].symbol));
            found.Some? && (found.value.address == reserves[i].address <==> !SharedBefore(reserves, i))
  {
    var first := FindWhereFirst(reserves, WithSymbol(reserves[i].symbol));
    assert WithSymbol(reserves[i].symbol)(reserves[i]) && reserves[i] in reserves;
    assert first < i ==> SharedBefore(reserves, i);
  }

  lemma LastWithSymbol(reserves: seq<ReserveInfo>, i: nat)
    requires UniqueAddresses(reserves) && i < |reserves|
    ensures reserves[i].symbol in SymbolMap(reserves)
    ensures SymbolMap(reserves)[reserves[i].symbol].address == reserves[i].address <==> !SharedAfter(reserves, i)
  {
    var last := SymbolMapLast(reserves, reserves[i].symbol);
    assert reserves[i] in reserves;
    assert i < last ==> SharedAfter(reserves, i);
  }

  /**
   Reserve i is what its own symbol resolves to: in the list search exactly when no earlier reserve has
   that symbol, in the symbol map exactly when no later one has.
   */
  lemma SymbolResolution(reserves: seq<ReserveInfo>, i: nat)
    requires UniqueAddresses(reserves) && i < |reserves|
    ensures var found, symbols := FindWhere(reserves, WithSymbol(reserves[i].symbol)), SymbolMap(reserves);
            && found.Some? && reserves[i].symbol in symbols
            && (found.value.address == reserves[i].address <==> !SharedBefore(reserves, i))
            && (symbols[reserves[i].symbol].address == reserves[i].address <==> !SharedAfter(reserves, i))
  {
    FirstWithSymbol(reserves, i);
    LastWithSymbol(reserves, i);
  }

  /** The closing instruction names the selected positions' own reserves, in all four lookups. */
  ghost predicate TargetsSelected(ix: Instruction, s: Selected, market: Market) {
    && ix.LiquidateAndRedeem?
    && ix.repayReserve == s.borrow.borrowReserve
    && ix.withdrawReserve == s.deposit.depositReserve
    && FindWhere(market.reserves, WithSymbol(s.borrow.symbol)).Some?
    && FindWhere(market.reserves, WithSymbol(s.borrow.symbol)).value.address == s.borrow.borrowReserve
    && FindWhere(market.reserves, WithSymbol(s.deposit.symbol)).Some?
    && FindWhere(market.reserves, WithSymbol(s.deposit.symbol)).value.address == s.deposit.depositReserve
  }

  /** No other reserve of the market shares the symbol of the reserve at address a. */
  ghost predicate SymbolUniqueAt(reserves: seq<ReserveInfo>, a: Pubkey) {
    forall i, j | 0 <= i < |reserves| && 0 <= j < |reserves| ::
      reserves[i].address == a && reserves[j].symbol == reserves[i].symbol ==> i == j
  }

  /**
   Symbol round trip. For every decision taken from configured feeds the plan exists, and it names the
   selected reserves in every lookup if and only if no other reserve of the market carries the symbol of
   either of them.
   */
  lemma SymbolRoundTrip(o: Enhanced, book: Book, market: Market, amount: u64, wallet: Wallet, order: seq<Pubkey>)
    requires DecisionOf(o.inner, book).Some?
    requires FollowsConfig(book.oracles, market.reserves) && UniqueAddresses(market.reserves)
    requires Lists(order, set a | a in TotalReserves(o.inner))
    ensures var s := DecisionOf(o.inner, book).value;
            var plan := PlanOf(amount, s.borrow, s.deposit, market, o, wallet, order);
            && plan.Success? && plan.value != []
            && (TargetsSelected(plan.value[|plan.value| - 1], s, market) <==>
                  && SymbolUniqueAt(market.reserves, s.borrow.borrowReserve)
                  && SymbolUniqueAt(market.reserves, s.deposit.depositReserve))
  {
    hide DecisionOf, FollowsConfig, UniqueAddresses, SymbolUniqueAt;
    var s := DecisionOf(o.inner, book).value;
    SelectedResolvable(o.inner, book, market);
    PlanExists(amount, s.borrow, s.deposit, market, o, wallet, order);
    var d, b := SelectedFromConfig(o.inner, book, market);
    SymbolResolution(market.reserves, d);
    SymbolResolution(market.reserves, b);
    UniqueAtIndex(market.reserves, d);
    UniqueAtIndex(market.reserves, b);
  }

  lemma UniqueAtIndex(reserves: seq<ReserveInfo>, i: nat)
    requires UniqueAddresses(reserves) && i < |reserves|
    ensures SymbolUniqueAt(reserves, reserves[i].address) <==> !SharedBefore(reserves, i) && !SharedAfter(reserves, i)
  {
    if !SymbolUniqueAt(reserves, reserves[i].address) {
      var k, j :| 0 <= k < |reserves| && 0 <= j < |reserves| && reserves[k].address == reserves[i].address
        && reserves[j].symbol == reserves[k].symbol && k != j;
      assert k == i;
    }
  }

  /** With unique symbols the round trip holds for whatever was selected. */
  lemma UniqueSymbolsSuffice(o: Enhanced, book: Book, market: Market, amount: u64, wallet: Wallet, order: seq<Pubkey>)
    requires DecisionOf(o.inner, book).Some?
    requires FollowsConfig(book.oracles, market.reserves)
    requires UniqueAddresses(market.reserves) && UniqueSymbols(market.reserves)
    requires Lists(order, set a | a in TotalReserves(o.inner))
    ensures var s := DecisionOf(o.inner, book).value;
            var plan := PlanOf(amount, s.borrow, s.deposit, market, o, wallet, order);
            && plan.Success? && plan.value != []
            && TargetsSelected(plan.value[|plan.value| - 1], s, market)
            && plan.value[|plan.value| - 1].source == TokenAccount(wallet.payer, s.borrow.mintAddress)
  {
    SymbolRoundTrip(o, book, market, amount, wallet, order);
    var s := DecisionOf(o.inner, book).value;
    var d, b := SelectedFromConfig(o.inner, book, market);
    var first := FindWhereFirst(market.reserves, WithSymbol(s.borrow.symbol));
    assert first == b;
  }

  /** Every account of the closing instruction belongs to the reserves configured at the selected addresses. */
  ghost predicate ClosesOnSelected(ix: Instruction, amount: u64, s: Selected, market: Market, obligation: Pubkey, payer: Pubkey) {
    exists b, d :: b in market.reserves && d in market.reserves
      && b.address == s.borrow.borrowReserve && d.address == s.deposit.depositReserve
      && ClosesOn(ix, amount, b, b, d, d, market, obligation, payer)
  }

  /** A close found by the symbols of a decision acts on what was selected. */
  lemma SelectedClose(o: Obligation, book: Book, market: Market, ix: Instruction, amount: u64, obligation: Pubkey, payer: Pubkey)
    requires DecisionOf(o, book).Some?
    requires FollowsConfig(book.oracles, market.reserves) && UniqueSymbols(market.reserves)
    requires var s := DecisionOf(o, book).value;
             ClosesBySymbol(ix, amount, s.borrow.symbol, s.deposit.symbol, market, obligation, payer)
    ensures ClosesOnSelected(ix, amount, DecisionOf(o, book).value, market, obligation, payer)
  {
    hide DecisionOf, FollowsConfig, UniqueSymbols, ClosesBySymbol, ClosesOnSelected;
    var d, b := SelectedFromConfig(o, book, market);
BySymbolIsSelected(ix, amount, DecisionOf(o, book).value, market, obligation, payer, market.reserves[b], market.reserves[d]);
  }

  lemma ReadsClose(plan: seq<Instruction>, amount: u64, repaySymbol: string, withdrawSymbol: string, market: Market,
                   obligation: Pubkey, wallet: Wallet, order: seq<Pubkey>)
    requires PlanReads(plan, amount, repaySymbol, withdrawSymbol, market, obligation, wallet, order)
    ensures plan != []
    ensures ClosesBySymbol(plan[|plan| - 1], amount, repaySymbol, withdrawSymbol, market, obligation, wallet.payer)
  {
    hide RefreshesConfigured, ClosesBySymbol;
  }

  lemma BySymbolIsSelected(ix: Instruction, amount: u64, s: Selected, market: Market, obligation: Pubkey, payer: Pubkey,
                           b: ReserveInfo, d: ReserveInfo)
    requires ClosesBySymbol(ix, amount, s.borrow.symbol, s.deposit.symbol, market, obligation, payer)
    requires UniqueSymbols(market.reserves) && b in market.reserves && d in market.reserves
    requires b.address == s.borrow.borrowReserve && b.symbol == s.borrow.symbol
    requires d.address == s.deposit.depositReserve && d.symbol == s.deposit.symbol
    ensures ClosesOnSelected(ix, amount, s, market, obligation, payer)
  {
    hide ClosesOn, UniqueSymbols, FirstWith, LastWith;
    var rt, rr, wt, wr :|
      && FirstWith(market.reserves, s.borrow.symbol, rt) && LastWith(market.reserves, s.borrow.symbol, rr)
      && FirstWith(market.reserves, s.deposit.symbol, wt) && LastWith(market.reserves, s.deposit.symbol, wr)
      && ClosesOn(ix, amount, rt, rr, wt, wr, market, obligation, payer);
    OnlyOneWith(market.reserves, s.borrow.symbol, rt, rr, b);
    OnlyOneWith(market.reserves, s.deposit.symbol, wt, wr, d);
  }

  lemma OnlyOneWith(reserves: seq<ReserveInfo>, symbol: string, first: ReserveInfo, last: ReserveInfo, r: ReserveInfo)
    requires UniqueSymbols(reserves) && FirstWith(reserves, symbol, first) && LastWith(reserves, symbol, last)
    requires r in reserves && r.symbol == symbol
    ensures first == last == r
  {
  }

  // ---------------------------------------------------------------- what a shared symbol does

  /** A key whose bytes are all the given one. */
  function KeyOf(b: byte): Pubkey {
    Pubkey(seq(32, _ => b))
  }

  /** A reserve of one token per unit, priced at 1, with a liquidation threshold of one half. */
  function UnitReserve(fees: ReserveFees): Reserve {
    Reserve(ReserveLiquidity(0, 0, 0, WAD, 0, WAD), 0,
            ReserveConfig(0, 50, 0, 50, 0, 0, 0, fees, 0, 0, KeyOf(0), 0, 0))
  }

  /** One unit deposited in the reserve and one unit owed to it. */
  function UnitObligation(reserve: Pubkey): Obligation {
    Obligation(KeyOf(0), KeyOf(0), [ObligationCollateral(reserve, 1, 0)], [ObligationLiquidity(reserve, WAD, WAD, 0)], 0, 0, 0, 0)
  }

  function InfoAt(address: Pubkey, symbol: string): ReserveInfo {
    ReserveInfo(symbol, KeyOf(0), address, KeyOf(0), KeyOf(0), KeyOf(0), KeyOf(0), KeyOf(0), KeyOf(0))
  }

  lemma UnitDepositPrice(c: ObligationCollateral, book: Book, fees: ReserveFees)
    requires c.depositReserve in book.reserves && book.reserves[c.depositReserve] == UnitReserve(fees)
    requires c.depositReserve in book.oracles && c.depositedAmount == 1
    ensures PriceDeposit(c, book).Success?
    ensures PriceDeposit(c, book).value.marketValue == WAD && PriceDeposit(c, book).value.unhealthy == WAD / 2
  {
    assert CollateralExchangeRate(UnitReserve(fees)) == Success(WAD);
    assert CheckedPow10(0) == Success(1);
  }

  lemma UnitBorrowPrice(b: ObligationLiquidity, book: Book, fees: ReserveFees)
    requires b.borrowReserve in book.reserves && book.reserves[b.borrowReserve] == UnitReserve(fees)
    requires b.borrowReserve in book.oracles && b.cumulativeBorrowRateWads == b.borrowedAmountWads == WAD
    ensures PriceBorrow(b, book).Success? && PriceBorrow(b, book).value.borrow.marketValue == WAD
  {
    assert CheckedPow10(0) == Success(1);
  }

  /** The unit obligation owes its whole value and may owe half: it is flagged and selected. */
  lemma UnitObligationSelected(a: Pubkey, book: Book, fees: ReserveFees)
    requires a in book.reserves && book.reserves[a] == UnitReserve(fees) && a in book.oracles
    ensures DecisionOf(UnitObligation(a), book).Some?
    ensures DecisionOf(UnitObligation(a), book).value.borrow.borrowReserve == a
  {
    var o := UnitObligation(a);
    UnitDepositPrice(o.deposits[0], book, fees);
    UnitBorrowPrice(o.borrows[0], book, fees);
    hide PriceDeposit, PriceBorrow, DecisionOf;
    assert o.deposits[..0] == [] && o.borrows[..0] == [];
    assert DepositsOf(o.deposits, book) == AddDeposit(DepositSide([], [], 0, 0, 0), o.deposits[0], book);
    assert BorrowsOf(o.borrows, book) == AddBorrow(BorrowSide([], [], 0), o.borrows[0], book);
    DepositsMatch(o.deposits, book);
    BorrowsMatch(o.borrows, book);
    DepositFits(o.deposits[0], book);
    var r := RefreshOf(o, book);
    assert r.Success? && Flagged(r.value.obligation);
    var _, b := SelectionIsLastMaximum(o, book);
    BorrowKeepsReserve(o.borrows[0], r.value.obligation.borrows[0], r.value.borrows[0], book);
  }

  lemma DepositFits(c: ObligationCollateral, book: Book)
    requires PriceDeposit(c, book).Success?
    ensures AddDeposit(DepositSide([], [], 0, 0, 0), c, book).Success?
    ensures AddDeposit(DepositSide([], [], 0, 0, 0), c, book).value.unhealthy == PriceDeposit(c, book).value.unhealthy
  {
    hide PriceDeposit;
  }

  lemma BorrowKeepsReserve(b: ObligationLiquidity, position: ObligationLiquidity, d: Borrow, book: Book)
    requires BorrowMatches(b, position, d, book)
    ensures d.borrowReserve == b.borrowReserve
  {
  }

  /**
   The condition is needed. In a market whose second reserve reuses the first one's symbol, an obligation
   over the first reserve is selected, and its liquidation is sent against the second.
   */
  lemma SharedSymbolMisdirects(fees: ReserveFees, wallet: Wallet)
    returns (o: Enhanced, book: Book, market: Market, order: seq<Pubkey>)
    ensures DecisionOf(o.inner, book).Some? && FollowsConfig(book.oracles, market.reserves) && UniqueAddresses(market.reserves)
    ensures Lists(order, set a | a in TotalReserves(o.inner))
    ensures var s := DecisionOf(o.inner, book).value;
            var plan := PlanOf(1, s.borrow, s.deposit, market, o, wallet, order);
            plan.Success? && plan.value != [] && !TargetsSelected(plan.value[|plan.value| - 1], s, market)
  {
    var first, second := KeyOf(1), KeyOf(2);
    assert first.bytes[0] != second.bytes[0];
    var symbol := "USDC";
    market := Market("market", KeyOf(0), [InfoAt(first, symbol), InfoAt(second, symbol)]);
    book := Book(map[first := UnitReserve(fees)], map[first := OracleOf(market.reserves[0])]);
    o := Enhanced(UnitObligation(first), KeyOf(3));
    UnitObligationSelected(first, book, fees);
    assert TotalReserves(o.inner) == [first, first];
    order := [first];
    hide DecisionOf, PlanOf, TargetsSelected;
    SymbolRoundTrip(o, book, market, 1, wallet, order);
    assert market.reserves[1].symbol == market.reserves[0].symbol && market.reserves[0].address == first;
  }
}
