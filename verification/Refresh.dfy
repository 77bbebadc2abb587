/**
 Refreshing an obligation: pricing every deposit and borrow against one snapshot of the market and
 accumulating the four totals the health test compares.
 */
module Refresh {
  import opened Wrappers
  import opened FixedPoint
  import opened Lending

  /** What the liquidator keeps of a reserve's price feed. */
  datatype OracleData = OracleData(symbol: string, reserveAddress: Pubkey, mintAddress: Pubkey)

  datatype Deposit = Deposit(depositReserve: Pubkey, depositAmount: u64, marketValue: Decimal, symbol: string)

  datatype Borrow = Borrow(
    borrowReserve: Pubkey,
    borrowAmountWads: Decimal,
    marketValue: Decimal,
    mintAddress: Pubkey,
    symbol: string)

  /** The reserves and price feeds one refresh reads. */
  datatype Book = Book(reserves: map<Pubkey, Reserve>, oracles: map<Pubkey, OracleData>)

  datatype Refreshed = Refreshed(obligation: Obligation, deposits: seq<Deposit>, borrows: seq<Borrow>)

  // ---------------------------------------------------------------- one position

  /** A deposit's value, and its weight in the borrow limit and in the liquidation limit. */
  datatype PricedDeposit = PricedDeposit(marketValue: Decimal, allowed: Decimal, unhealthy: Decimal, symbol: string)

  function CollateralValue(amount: u64, reserve: Reserve): Result<Decimal, LendingError> {
    var decimals :- CheckedPow10(reserve.liquidity.mintDecimals);
    var rate :- CollateralExchangeRate(reserve);
    var liquidity :- TryDiv(FromU64(amount), rate);
    var worth :- TryMul(liquidity, reserve.liquidity.marketPrice);
    TryDivU64(worth, decimals)
  }

  function PriceDeposit(c: ObligationCollateral, book: Book): Result<PricedDeposit, LendingError> {
    if c.depositReserve !in book.reserves || c.depositReserve !in book.oracles then
      Failure(InvalidAccountInput)
    else
      var reserve := book.reserves[c.depositReserve];
      var value :- CollateralValue(c.depositedAmount, reserve);
      var allowed :- TryMul(value, FromPercent(reserve.config.loanToValueRatio));
      var unhealthy :- TryMul(value, FromPercent(reserve.config.liquidationThreshold));
      Success(PricedDeposit(value, allowed, unhealthy, book.oracles[c.depositReserve].symbol))
  }

  function DebtValue(amountWads: Decimal, reserve: Reserve): Result<Decimal, LendingError> {
    var decimals :- CheckedPow10(reserve.liquidity.mintDecimals);
    var worth :- TryMul(amountWads, reserve.liquidity.marketPrice);
    TryDivU64(worth, decimals)
  }

  /** A borrow with interest accrued and its market value set, and the list entry made from it. */
  datatype PricedBorrow = PricedBorrow(liquidity: ObligationLiquidity, borrow: Borrow)

  function PriceBorrow(b: ObligationLiquidity, book: Book): Result<PricedBorrow, LendingError> {
    if b.borrowReserve !in book.oracles || b.borrowReserve !in book.reserves then
      Failure(InvalidAccountInput)
    else
      var reserve := book.reserves[b.borrowReserve];
      var oracle := book.oracles[b.borrowReserve];
      var accrued :- AccrueInterest(b, reserve.liquidity.cumulativeBorrowRateWads);
      var value :- DebtValue(accrued.borrowedAmountWads, reserve);
      Success(PricedBorrow(
        accrued.(marketValue := value),
        Borrow(b.borrowReserve, accrued.borrowedAmountWads, value, oracle.mintAddress, oracle.symbol)))
  }

  // ---------------------------------------------------------------- all positions, left to right

  datatype DepositSide = DepositSide(
    positions: seq<ObligationCollateral>,
    deposits: seq<Deposit>,
    deposited: Decimal,
    allowed: Decimal,
    unhealthy: Decimal)

  function AddDeposit(side: DepositSide, c: ObligationCollateral, book: Book): Result<DepositSide, LendingError> {
    var priced :- PriceDeposit(c, book);
    var deposited :- TryAdd(side.deposited, priced.marketValue);
    var allowed :- TryAdd(side.allowed, priced.allowed);
    var unhealthy :- TryAdd(side.unhealthy, priced.unhealthy);
    Success(DepositSide(
      side.positions + [c.(marketValue := priced.marketValue)],
      side.deposits + [Deposit(c.depositReserve, c.depositedAmount, priced.marketValue, priced.symbol)],
      deposited, allowed, unhealthy))
  }

  /** The deposit loop over a list of positions; the first failing position decides the error. */
  function DepositsOf(cs: seq<ObligationCollateral>, book: Book): Result<DepositSide, LendingError> {
    if cs == [] then
      Success(DepositSide([], [], 0, 0, 0))
    else
      var side :- DepositsOf(cs[..|cs| - 1], book);
      AddDeposit(side, cs[|cs| - 1], book)
  }

  datatype BorrowSide = BorrowSide(positions: seq<ObligationLiquidity>, borrows: seq<Borrow>, borrowed: Decimal)

  function AddBorrow(side: BorrowSide, b: ObligationLiquidity, book: Book): Result<BorrowSide, LendingError> {
    var priced :- PriceBorrow(b, book);
    var borrowed :- TryAdd(side.borrowed, priced.borrow.marketValue);
    Success(BorrowSide(side.positions + [priced.liquidity], side.borrows + [priced.borrow], borrowed))
  }

  function BorrowsOf(bs: seq<ObligationLiquidity>, book: Book): Result<BorrowSide, LendingError> {
    if bs == [] then
      Success(BorrowSide([], [], 0))
    else
      var side :- BorrowsOf(bs[..|bs| - 1], book);
      AddBorrow(side, bs[|bs| - 1], book)
  }

  /** The specification of a refresh: all deposits, then all borrows. */
  function RefreshOf(o: Obligation, book: Book): Result<Refreshed, LendingError> {
    var ds :- DepositsOf(o.deposits, book);
    var bs :- BorrowsOf(o.borrows, book);
    Success(Refreshed(
      o.(deposits := ds.positions, borrows := bs.positions,
         depositedValue := ds.deposited, borrowedValue := bs.borrowed,
         allowedBorrowValue := ds.allowed, unhealthyBorrowValue := ds.unhealthy),
      ds.deposits, bs.borrows))
  }

  /** The liquidator's test: a borrow above a non-zero liquidation limit. */
  predicate Flagged(o: Obligation) {
    o.borrowedValue != 0 && o.unhealthyBorrowValue != 0 && o.borrowedValue > o.unhealthyBorrowValue
  }

  function DepositValueOf(): Deposit -> nat {
    (d: Deposit) => d.marketValue
  }

  function BorrowValueOf(): Borrow -> nat {
    (b: Borrow) => b.marketValue
  }

  lemma {:induction false} DepositFailureStops(cs: seq<ObligationCollateral>, i: nat, book: Book)
    requires i <= |cs| && DepositsOf(cs[..i], book).Failure?
    ensures DepositsOf(cs, book) == DepositsOf(cs[..i], book)
  {
    if i < |cs| {
      var front := cs[..|cs| - 1];
      assert front[..i] == cs[..i];
      DepositFailureStops(front, i, book);
    } else {
      assert cs[..i] == cs;
    }
  }

  lemma {:induction false} BorrowFailureStops(bs: seq<ObligationLiquidity>, i: nat, book: Book)
    requires i <= |bs| && BorrowsOf(bs[..i], book).Failure?
    ensures BorrowsOf(bs, book) == BorrowsOf(bs[..i], book)
  {
    if i < |bs| {
      var front := bs[..|bs| - 1];
      assert front[..i] == bs[..i];
      BorrowFailureStops(front, i, book);
    } else {
      assert bs[..i] == bs;
    }
  }

  /** One more position: its failure is the failure of the loop. */
  lemma DepositsStep(cs: seq<ObligationCollateral>, i: nat, book: Book)
    requires i < |cs| && DepositsOf(cs[..i], book).Success?
    ensures DepositsOf(cs[..i + 1], book) == AddDeposit(DepositsOf(cs[..i], book).value, cs[i], book)
    ensures DepositsOf(cs[..i + 1], book).Failure? ==> DepositsOf(cs, book) == DepositsOf(cs[..i + 1], book)
  {
    hide AddDeposit;
    assert cs[..i + 1][..i] == cs[..i];
    if DepositsOf(cs[..i + 1], book).Failure? {
      DepositFailureStops(cs, i + 1, book);
    }
  }

  /** The deposit loop: it rewrites the positions in place and pushes one list entry for each. */
  method RefreshDeposits(positions0: seq<ObligationCollateral>, book: Book)
    returns (r: Result<DepositSide, LendingError>)
    ensures r == DepositsOf(positions0, book)
  {
    var positions := positions0;
    var depositedValue: Decimal, allowedBorrowValue: Decimal, unhealthyBorrowValue: Decimal := 0, 0, 0;
    var deposits: seq<Deposit> := [];
    var i := 0;
    while i < |positions|
      invariant i <= |positions| == |positions0|
      invariant positions[i..] == positions0[i..]
      invariant DepositsOf(positions0[..i], book) ==
        Success(DepositSide(positions[..i], deposits, depositedValue, allowedBorrowValue, unhealthyBorrowValue))
    {
      var collateral := positions[i];
      assert collateral == positions[i..][0] == positions0[i];
      ghost var side := DepositsOf(positions0[..i], book).value;
      DepositsStep(positions0, i, book);
      hide DepositsOf, FromPercent, TryAdd, TryMul, CollateralValue;

      if collateral.depositReserve !in book.reserves {
        return Failure(InvalidAccountInput);
      }
      var depositReserve := book.reserves[collateral.depositReserve];
      if collateral.depositReserve !in book.oracles {
        return Failure(InvalidAccountInput);
      }
      var tokenOracle := book.oracles[collateral.depositReserve];
      var marketValue :- CollateralValue(collateral.depositedAmount, depositReserve);
      positions := positions[i := collateral.(marketValue := marketValue)];
      depositedValue :- TryAdd(depositedValue, marketValue);
      var allowed :- TryMul(marketValue, FromPercent(depositReserve.config.loanToValueRatio));
      allowedBorrowValue :- TryAdd(allowedBorrowValue, allowed);
      var unhealthy :- TryMul(marketValue, FromPercent(depositReserve.config.liquidationThreshold));
      unhealthyBorrowValue :- TryAdd(unhealthyBorrowValue, unhealthy);
      deposits := deposits + [Deposit(collateral.depositReserve, collateral.depositedAmount, marketValue, tokenOracle.symbol)];
      assert positions[..i + 1] == side.positions + [collateral.(marketValue := marketValue)];
      i := i + 1;
    }
    assert positions[..i] == positions && positions0[..i] == positions0;
    r := Success(DepositSide(positions, deposits, depositedValue, allowedBorrowValue, unhealthyBorrowValue));
  }

  /** One more position: its failure is the failure of the loop. */
  lemma BorrowsStep(bs: seq<ObligationLiquidity>, i: nat, book: Book)
    requires i < |bs| && BorrowsOf(bs[..i], book).Success?
    ensures BorrowsOf(bs[..i + 1], book) == AddBorrow(BorrowsOf(bs[..i], book).value, bs[i], book)
    ensures BorrowsOf(bs[..i + 1], book).Failure? ==> BorrowsOf(bs, book) == BorrowsOf(bs[..i + 1], book)
  {
    hide AddBorrow;
    assert bs[..i + 1][..i] == bs[..i];
    if BorrowsOf(bs[..i + 1], book).Failure? {
      BorrowFailureStops(bs, i + 1, book);
    }
  }

  /** The borrow loop: interest first, then the price. */
  method RefreshBorrows(positions0: seq<ObligationLiquidity>, book: Book)
    returns (r: Result<BorrowSide, LendingError>)
    ensures r == BorrowsOf(positions0, book)
  {
    var positions := positions0;
    var borrowedValue: Decimal := 0;
    var borrows: seq<Borrow> := [];
    var i := 0;
    while i < |positions|
      invariant i <= |positions| == |positions0|
      invariant positions[i..] == positions0[i..]
      invariant BorrowsOf(positions0[..i], book) == Success(BorrowSide(positions[..i], borrows, borrowedValue))
    {
      var liquidity := positions[i];
      assert liquidity == positions[i..][0] == positions0[i];
      ghost var side := BorrowsOf(positions0[..i], book).value;
      BorrowsStep(positions0, i, book);
      hide BorrowsOf, TryAdd, DebtValue, AccrueInterest;

      if liquidity.borrowReserve !in book.oracles {
        return Failure(InvalidAccountInput);
      }
      var tokenOracle := book.oracles[liquidity.borrowReserve];
      if liquidity.borrowReserve !in book.reserves {
        return Failure(InvalidAccountInput);
      }
      var reserve := book.reserves[liquidity.borrowReserve];
      var accrued :- AccrueInterest(liquidity, reserve.liquidity.cumulativeBorrowRateWads);
      var marketValue :- DebtValue(accrued.borrowedAmountWads, reserve);
      positions := positions[i := accrued.(marketValue := marketValue)];
      borrowedValue :- TryAdd(borrowedValue, marketValue);
      borrows := borrows + [Borrow(liquidity.borrowReserve, accrued.borrowedAmountWads, marketValue,
                                   tokenOracle.mintAddress, tokenOracle.symbol)];
      assert positions[..i + 1] == side.positions + [accrued.(marketValue := marketValue)];
      i := i + 1;
    }
    assert positions[..i] == positions && positions0[..i] == positions0;
    r := Success(BorrowSide(positions, borrows, borrowedValue));
  }

  /** The refresh as the liquidator runs it, on its own copy of the obligation. */
  method RefreshObligation(enhanced: Obligation, book: Book) returns (r: Result<Refreshed, LendingError>)
    ensures r == RefreshOf(enhanced, book)
  {
    var obligation := enhanced;
    var ds := RefreshDeposits(obligation.deposits, book);
    var depositSide :- ds;
    var bs := RefreshBorrows(obligation.borrows, book);
    var borrowSide :- bs;
    obligation := obligation.(deposits := depositSide.positions, borrows := borrowSide.positions);
    obligation := obligation.(depositedValue := depositSide.deposited, borrowedValue := borrowSide.borrowed);
    obligation := obligation.(allowedBorrowValue := depositSide.allowed, unhealthyBorrowValue := depositSide.unhealthy);
    r := Success(Refreshed(obligation, depositSide.deposits, borrowSide.borrows));
  }
}
