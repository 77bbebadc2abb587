/**
 Accounts of the lending program as the liquidator reads them: keys, reserves and obligations, with the
 two valuations an obligation refresh needs (the collateral exchange rate and interest accrual).
 */
module Lending {
  import opened Wrappers
  import opened FixedPoint

  newtype byte = n: int | 0 <= n < 256

  type Bytes32 = s: seq<byte> | |s| == 32 witness seq(32, _ => 0)

  datatype Pubkey = Pubkey(bytes: Bytes32)

  datatype ReserveFees = ReserveFees(borrowFeeWad: u64, flashLoanFeeWad: u64, hostFeePercentage: u8)

  datatype ReserveConfig = ReserveConfig(
    optimalUtilizationRate: u8,
    loanToValueRatio: u8,
    liquidationBonus: u8,
    liquidationThreshold: u8,
    minBorrowRate: u8,
    optimalBorrowRate: u8,
    maxBorrowRate: u8,
    fees: ReserveFees,
    depositLimit: u64,
    borrowLimit: u64,
    feeReceiver: Pubkey,
    protocolLiquidationFee: u8,
    protocolTakeRate: u8)

  datatype ReserveLiquidity = ReserveLiquidity(
    mintDecimals: u8,
    availableAmount: u64,
    borrowedAmountWads: Decimal,
    cumulativeBorrowRateWads: Decimal,
    accumulatedProtocolFeesWads: Decimal,
    marketPrice: Decimal)

  /** A reserve; of its collateral account only the minted supply matters here. */
  datatype Reserve = Reserve(liquidity: ReserveLiquidity, mintTotalSupply: u64, config: ReserveConfig)

  datatype ObligationCollateral = ObligationCollateral(
    depositReserve: Pubkey,
    depositedAmount: u64,
    marketValue: Decimal)

  datatype ObligationLiquidity = ObligationLiquidity(
    borrowReserve: Pubkey,
    cumulativeBorrowRateWads: Decimal,
    borrowedAmountWads: Decimal,
    marketValue: Decimal)

  datatype Obligation = Obligation(
    lendingMarket: Pubkey,
    owner: Pubkey,
    deposits: seq<ObligationCollateral>,
    borrows: seq<ObligationLiquidity>,
    depositedValue: Decimal,
    borrowedValue: Decimal,
    allowedBorrowValue: Decimal,
    unhealthyBorrowValue: Decimal)

  /** An obligation together with the account it was read from. */
  datatype Enhanced = Enhanced(inner: Obligation, pubkey: Pubkey)

  /** The exchange rate before any collateral is minted is one to one. */
  const INITIAL_COLLATERAL_RATE: Rate := WAD

  function TotalSupply(liquidity: ReserveLiquidity): Result<Decimal, LendingError> {
    var gross :- TryAdd(FromU64(liquidity.availableAmount), liquidity.borrowedAmountWads);
    TrySub(gross, liquidity.accumulatedProtocolFeesWads)
  }

  /** Collateral tokens per unit of liquidity. */
  function CollateralExchangeRate(reserve: Reserve): Result<Rate, LendingError> {
    var totalLiquidity :- TotalSupply(reserve.liquidity);
    if reserve.mintTotalSupply == 0 || totalLiquidity == 0 then
      Success(INITIAL_COLLATERAL_RATE)
    else
      var rate :- TryDiv(FromU64(reserve.mintTotalSupply), totalLiquidity);
      RateFromDecimal(rate)
  }

  /** Bring a borrow up to date with its reserve's cumulative rate, which may not have fallen. */
  function AccrueInterest(liquidity: ObligationLiquidity, cumulativeRate: Decimal)
    : Result<ObligationLiquidity, LendingError>
  {
    if cumulativeRate < liquidity.cumulativeBorrowRateWads then
      Failure(NegativeInterestRate)
    else if cumulativeRate == liquidity.cumulativeBorrowRateWads then
      Success(liquidity)
    else
      var ratio :- TryDiv(cumulativeRate, liquidity.cumulativeBorrowRateWads);
      var compounded :- RateFromDecimal(ratio);
      var owed :- TryMul(liquidity.borrowedAmountWads, compounded);
      Success(liquidity.(borrowedAmountWads := owed, cumulativeBorrowRateWads := cumulativeRate))
  }
}
