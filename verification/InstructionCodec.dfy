/** The wire format of the lending program's instructions: a tag byte, then the fields in order. */
module InstructionCodec {
  import opened Wrappers
  import opened FixedPoint
  import opened Lending
  import opened Bytes

  datatype LendingInstruction =
    | InitLendingMarket(owner: Pubkey, quoteCurrency: Bytes32)
    | SetLendingMarketOwner(newOwner: Pubkey)
    | InitReserve(initialLiquidity: u64, initialConfig: ReserveConfig)
    | RefreshReserve
    | DepositReserveLiquidity(liquidityAmount: u64)
    | RedeemReserveCollateral(collateralAmount: u64)
    | InitObligation
    | RefreshObligation
    | DepositObligationCollateral(collateralAmount: u64)
    | WithdrawObligationCollateral(collateralAmount: u64)
    | BorrowObligationLiquidity(liquidityAmount: u64)
    | RepayObligationLiquidity(liquidityAmount: u64)
    | LiquidateObligation(liquidityAmount: u64)
    | FlashLoan(amount: u64)
    | DepositReserveLiquidityAndObligationCollateral(liquidityAmount: u64)
    | WithdrawObligationCollateralAndRedeemReserveCollateral(collateralAmount: u64)
    | UpdateReserveConfig(config: ReserveConfig)
    | LiquidateObligationAndRedeemReserveCollateral(liquidityAmount: u64)
    | RedeemFees

  // ---------------------------------------------------------------- field readers

  /** A field read from the front of the input, and what is left. */
  type Parsed<T> = Result<(T, seq<byte>), LendingError>

  function UnpackU64(input: seq<byte>): Parsed<u64> {
    if |input| < 8 then Failure(InstructionUnpackError)
    else
      FromLEBound(input[..8]);
      Pow256Of8();
      Success((FromLE(input[..8]), input[8..]))
  }

  function UnpackU8(input: seq<byte>): Parsed<u8> {
    if input == [] then Failure(InstructionUnpackError) else Success((input[0] as nat, input[1..]))
  }

  function UnpackBytes32(input: seq<byte>): Parsed<Bytes32> {
    if |input| < 32 then Failure(InstructionUnpackError) else Success((input[..32], input[32..]))
  }

  function UnpackPubkey(input: seq<byte>): Parsed<Pubkey> {
    if |input| < 32 then Failure(InstructionUnpackError) else Success((Pubkey(input[..32]), input[32..]))
  }

  datatype Rates = Rates(utilization: u8, ltv: u8, bonus: u8, threshold: u8, minimum: u8, optimal: u8, maximum: u8)

  function UnpackRates(input: seq<byte>): Parsed<Rates> {
    var (optimalUtilizationRate, rest) :- UnpackU8(input);
    var (loanToValueRatio, rest) :- UnpackU8(rest);
    var (liquidationBonus, rest) :- UnpackU8(rest);
    var (liquidationThreshold, rest) :- UnpackU8(rest);
    var (minBorrowRate, rest) :- UnpackU8(rest);
    var (optimalBorrowRate, rest) :- UnpackU8(rest);
    var (maxBorrowRate, rest) :- UnpackU8(rest);
    Success((Rates(optimalUtilizationRate, loanToValueRatio, liquidationBonus, liquidationThreshold,
                   minBorrowRate, optimalBorrowRate, maxBorrowRate), rest))
  }

  function UnpackFees(input: seq<byte>): Parsed<ReserveFees> {
    var (borrowFeeWad, rest) :- UnpackU64(input);
    var (flashLoanFeeWad, rest) :- UnpackU64(rest);
    var (hostFeePercentage, rest) :- UnpackU8(rest);
    Success((ReserveFees(borrowFeeWad, flashLoanFeeWad, hostFeePercentage), rest))
  }

  datatype Limits = Limits(deposit: u64, borrow: u64, feeReceiver: Pubkey, liquidationFee: u8, takeRate: u8)

  function UnpackLimits(input: seq<byte>): Parsed<Limits> {
    var (depositLimit, rest) :- UnpackU64(input);
    var (borrowLimit, rest) :- UnpackU64(rest);
    var (feeReceiver, rest) :- UnpackPubkey(rest);
    var (protocolLiquidationFee, rest) :- UnpackU8(rest);
    var (protocolTakeRate, rest) :- UnpackU8(rest);
    Success((Limits(depositLimit, borrowLimit, feeReceiver, protocolLiquidationFee, protocolTakeRate), rest))
  }

  function UnpackConfig(input: seq<byte>): Parsed<ReserveConfig> {
    var (r, rest) :- UnpackRates(input);
    var (fees, rest) :- UnpackFees(rest);
    var (l, rest) :- UnpackLimits(rest);
    Success((ReserveConfig(r.utilization, r.ltv, r.bonus, r.threshold, r.minimum, r.optimal, r.maximum, fees,
                           l.deposit, l.borrow, l.feeReceiver, l.liquidationFee, l.takeRate), rest))
  }

  /** Whatever follows the last field is ignored. */
  function Unpack(input: seq<byte>): Result<LendingInstruction, LendingError> {
    if input == [] then Failure(InstructionUnpackError)
    else
      var tag, rest := input[0], input[1..];
      match tag
      case 0 =>
        var (owner, rest) :- UnpackPubkey(rest);
        var (quoteCurrency, _) :- UnpackBytes32(rest);
        Success(InitLendingMarket(owner, quoteCurrency))
      case 1 => var (newOwner, _) :- UnpackPubkey(rest); Success(SetLendingMarketOwner(newOwner))
      case 2 =>
        var (liquidityAmount, rest) :- UnpackU64(rest);
        var (config, _) :- UnpackConfig(rest);
        Success(InitReserve(liquidityAmount, config))
      case 3 => Success(RefreshReserve)
      case 4 => var (amount, _) :- UnpackU64(rest); Success(DepositReserveLiquidity(amount))
      case 5 => var (amount, _) :- UnpackU64(rest); Success(RedeemReserveCollateral(amount))
      case 6 => Success(InitObligation)
      case 7 => Success(RefreshObligation)
      case 8 => var (amount, _) :- UnpackU64(rest); Success(DepositObligationCollateral(amount))
      case 9 => var (amount, _) :- UnpackU64(rest); Success(WithdrawObligationCollateral(amount))
      case 10 => var (amount, _) :- UnpackU64(rest); Success(BorrowObligationLiquidity(amount))
      case 11 => var (amount, _) :- UnpackU64(rest); Success(RepayObligationLiquidity(amount))
      case 12 => var (amount, _) :- UnpackU64(rest); Success(LiquidateObligation(amount))
      case 13 => var (amount, _) :- UnpackU64(rest); Success(FlashLoan(amount))
      case 14 => var (amount, _) :- UnpackU64(rest); Success(DepositReserveLiquidityAndObligationCollateral(amount))
      case 15 => var (amount, _) :- UnpackU64(rest); Success(WithdrawObligationCollateralAndRedeemReserveCollateral(amount))
      case 16 => var (config, _) :- UnpackConfig(rest); Success(UpdateReserveConfig(config))
      case 17 => var (amount, _) :- UnpackU64(rest); Success(LiquidateObligationAndRedeemReserveCollateral(amount))
      case 18 => Success(RedeemFees)
      case _ => Failure(InstructionUnpackError)
  }

  // ---------------------------------------------------------------- writing

  function U64(n: u64): (bs: seq<byte>)
    ensures |bs| == 8
  {
    ToLE(n, 8)
  }

  function U8(n: u8): seq<byte> {
    [n as byte]
  }

  function RatesOf(c: ReserveConfig): Rates {
    Rates(c.optimalUtilizationRate, c.loanToValueRatio, c.liquidationBonus, c.liquidationThreshold,
          c.minBorrowRate, c.optimalBorrowRate, c.maxBorrowRate)
  }

  function LimitsOf(c: ReserveConfig): Limits {
    Limits(c.depositLimit, c.borrowLimit, c.feeReceiver, c.protocolLiquidationFee, c.protocolTakeRate)
  }

  function PackRates(r: Rates): seq<byte> {
    U8(r.utilization) + U8(r.ltv) + U8(r.bonus) + U8(r.threshold) + U8(r.minimum) + U8(r.optimal) + U8(r.maximum)
  }

  function PackFees(f: ReserveFees): seq<byte> {
    U64(f.borrowFeeWad) + U64(f.flashLoanFeeWad) + U8(f.hostFeePercentage)
  }

  function PackLimits(l: Limits): seq<byte> {
    U64(l.deposit) + U64(l.borrow) + l.feeReceiver.bytes + U8(l.liquidationFee) + U8(l.takeRate)
  }

  function PackConfig(c: ReserveConfig): (bs: seq<byte>)
    ensures |bs| == 74
  {
    PackRates(RatesOf(c)) + PackFees(c.fees) + PackLimits(LimitsOf(c))
  }

  function Tag(x: LendingInstruction): byte {
    match x
    case InitLendingMarket(_, _) => 0
    case SetLendingMarketOwner(_) => 1
    case InitReserve(_, _) => 2
    case RefreshReserve => 3
    case DepositReserveLiquidity(_) => 4
    case RedeemReserveCollateral(_) => 5
    case InitObligation => 6
    case RefreshObligation => 7
    case DepositObligationCollateral(_) => 8
    case WithdrawObligationCollateral(_) => 9
    case BorrowObligationLiquidity(_) => 10
    case RepayObligationLiquidity(_) => 11
    case LiquidateObligation(_) => 12
    case FlashLoan(_) => 13
    case DepositReserveLiquidityAndObligationCollateral(_) => 14
    case WithdrawObligationCollateralAndRedeemReserveCollateral(_) => 15
    case UpdateReserveConfig(_) => 16
    case LiquidateObligationAndRedeemReserveCollateral(_) => 17
    case RedeemFees => 18
  }

  function Fields(x: LendingInstruction): seq<byte> {
    match x
    case InitLendingMarket(owner, quoteCurrency) => owner.bytes + quoteCurrency
    case SetLendingMarketOwner(newOwner) => newOwner.bytes
    case InitReserve(liquidityAmount, config) => U64(liquidityAmount) + PackConfig(config)
    case UpdateReserveConfig(config) => PackConfig(config)
    case RefreshReserve => []
    case InitObligation => []
    case RefreshObligation => []
    case RedeemFees => []
    case DepositReserveLiquidity(amount) => U64(amount)
    case RedeemReserveCollateral(amount) => U64(amount)
    case DepositObligationCollateral(amount) => U64(amount)
    case WithdrawObligationCollateral(amount) => U64(amount)
    case BorrowObligationLiquidity(amount) => U64(amount)
    case RepayObligationLiquidity(amount) => U64(amount)
    case LiquidateObligation(amount) => U64(amount)
    case FlashLoan(amount) => U64(amount)
    case DepositReserveLiquidityAndObligationCollateral(amount) => U64(amount)
    case WithdrawObligationCollateralAndRedeemReserveCollateral(amount) => U64(amount)
    case LiquidateObligationAndRedeemReserveCollateral(amount) => U64(amount)
  }

  /** The encoding of an instruction. */
  function Encoding(x: LendingInstruction): seq<byte> {
    [Tag(x)] + Fields(x)
  }

  /** pack: the buffer grows field by field. */
  method Pack(x: LendingInstruction) returns (buf: seq<byte>)
    ensures buf == Encoding(x)
  {
    hide U64, PackConfig;
    buf := [];
    match x {
      case InitLendingMarket(owner, quoteCurrency) =>
        buf := buf + [0];
        buf := buf + owner.bytes;
        buf := buf + quoteCurrency;
      case SetLendingMarketOwner(newOwner) =>
        buf := buf + [1];
        buf := buf + newOwner.bytes;
      case InitReserve(liquidityAmount, config) =>
        buf := buf + [2];
        buf := buf + U64(liquidityAmount);
        buf := PushConfig(buf, config);
      case RefreshReserve => buf := buf + [3];
      case DepositReserveLiquidity(amount) => buf := buf + [4]; buf := buf + U64(amount);
      case RedeemReserveCollateral(amount) => buf := buf + [5]; buf := buf + U64(amount);
      case InitObligation => buf := buf + [6];
      case RefreshObligation => buf := buf + [7];
      case DepositObligationCollateral(amount) => buf := buf + [8]; buf := buf + U64(amount);
      case WithdrawObligationCollateral(amount) => buf := buf + [9]; buf := buf + U64(amount);
      case BorrowObligationLiquidity(amount) => buf := buf + [10]; buf := buf + U64(amount);
      case RepayObligationLiquidity(amount) => buf := buf + [11]; buf := buf + U64(amount);
      case LiquidateObligation(amount) => buf := buf + [12]; buf := buf + U64(amount);
      case FlashLoan(amount) => buf := buf + [13]; buf := buf + U64(amount);
      case DepositReserveLiquidityAndObligationCollateral(amount) => buf := buf + [14]; buf := buf + U64(amount);
      case WithdrawObligationCollateralAndRedeemReserveCollateral(amount) => buf := buf + [15]; buf := buf + U64(amount);
      case UpdateReserveConfig(config) =>
        buf := buf + [16];
        buf := PushConfig(buf, config);
      case LiquidateObligationAndRedeemReserveCollateral(amount) => buf := buf + [17]; buf := buf + U64(amount);
      case RedeemFees => buf := buf + [18];
    }
  }

  method PushConfig(buf0: seq<byte>, c: ReserveConfig) returns (buf: seq<byte>)
    ensures buf == buf0 + PackConfig(c)
  {
    buf := buf0;
    buf := buf + U8(c.optimalUtilizationRate);
    buf := buf + U8(c.loanToValueRatio);
    buf := buf + U8(c.liquidationBonus);
    buf := buf + U8(c.liquidationThreshold);
    buf := buf + U8(c.minBorrowRate);
    buf := buf + U8(c.optimalBorrowRate);
    buf := buf + U8(c.maxBorrowRate);
    assert buf == buf0 + PackRates(RatesOf(c));
    ghost var buf1 := buf;
    buf := buf + U64(c.fees.borrowFeeWad);
    buf := buf + U64(c.fees.flashLoanFeeWad);
    buf := buf + U8(c.fees.hostFeePercentage);
    assert buf == buf1 + PackFees(c.fees);
    ghost var buf2 := buf;
    buf := buf + U64(c.depositLimit);
    buf := buf + U64(c.borrowLimit);
    buf := buf + c.feeReceiver.bytes;
    buf := buf + U8(c.protocolLiquidationFee);
    buf := buf + U8(c.protocolTakeRate);
    assert buf == buf2 + PackLimits(LimitsOf(c));
  }
}
