/** The instruction codec: round trip, exact acceptance, injectivity and prefix-freedom. */
module CodecFacts {
  import opened Wrappers
  import opened FixedPoint
  import opened Lending
  import opened Bytes
  import opened InstructionCodec

  // ---------------------------------------------------------------- one field

  lemma U64First(n: u64, rest: seq<byte>)
    ensures UnpackU64(U64(n) + rest) == Success((n, rest))
  {
    hide ToLE, FromLE, Pow256;
    var input := U64(n) + rest;
    assert input[..8] == U64(n) && input[8..] == rest;
    LEModulo(n, 8);
    Pow256Of8();
  }

  lemma U8First(n: u8, rest: seq<byte>)
    ensures UnpackU8(U8(n) + rest) == Success((n, rest))
  {
  }

  lemma KeyFirst(k: Pubkey, rest: seq<byte>)
    ensures UnpackPubkey(k.bytes + rest) == Success((k, rest))
    ensures UnpackBytes32(k.bytes + rest) == Success((k.bytes, rest))
  {
    var input := k.bytes + rest;
    assert input[..32] == k.bytes && input[32..] == rest;
  }

  /** A reader takes exactly the first n bytes, or reports that they are missing. */
  lemma U64Reads(input: seq<byte>)
    ensures UnpackU64(input).Success? <==> |input| >= 8
    ensures UnpackU64(input).Failure? ==> UnpackU64(input).error == InstructionUnpackError
    ensures UnpackU64(input).Success? ==>
              var (n, rest) := UnpackU64(input).value; U64(n) + rest == input
  {
    if |input| >= 8 {
      LERewrite(input[..8]);
      assert input == input[..8] + input[8..];
    }
  }

  lemma U8Reads(input: seq<byte>)
    ensures UnpackU8(input).Success? <==> |input| >= 1
    ensures UnpackU8(input).Failure? ==> UnpackU8(input).error == InstructionUnpackError
    ensures UnpackU8(input).Success? ==> var (n, rest) := UnpackU8(input).value; U8(n) + rest == input
  {
  }

  lemma KeyReads(input: seq<byte>)
    ensures UnpackPubkey(input).Success? <==> |input| >= 32
    ensures UnpackPubkey(input).Failure? ==> UnpackPubkey(input).error == InstructionUnpackError
    ensures UnpackPubkey(input).Success? ==> var (k, rest) := UnpackPubkey(input).value; k.bytes + rest == input
  {
  }

  // ---------------------------------------------------------------- the configuration block

  lemma RatesFirst(r: Rates, rest: seq<byte>)
    ensures UnpackRates(PackRates(r) + rest) == Success((r, rest))
  {
    var input := PackRates(r) + rest;
    assert |PackRates(r)| == 7;
    assert input[7..] == rest;
    RatesByIndex(input);
  }

  /** The seven rates are the first seven bytes. */
  lemma RatesByIndex(input: seq<byte>)
    ensures UnpackRates(input).Success? <==> |input| >= 7
    ensures UnpackRates(input).Failure? ==> UnpackRates(input).error == InstructionUnpackError
    ensures UnpackRates(input).Success? ==>
              UnpackRates(input).value ==
              (Rates(input[0] as nat, input[1] as nat, input[2] as nat, input[3] as nat,
                     input[4] as nat, input[5] as nat, input[6] as nat), input[7..])
  {
  }

  lemma RatesReads(input: seq<byte>)
    requires UnpackRates(input).Success?
    ensures var (r, rest) := UnpackRates(input).value; PackRates(r) + rest == input
  {
    RatesByIndex(input);
    hide UnpackRates;
  }

  lemma FeesFirst(f: ReserveFees, rest: seq<byte>)
    ensures UnpackFees(PackFees(f) + rest) == Success((f, rest))
  {
    hide U64, U8, UnpackU64, UnpackU8;
    var r2 := U8(f.hostFeePercentage) + rest;
    var r1 := U64(f.flashLoanFeeWad) + r2;
    assert PackFees(f) + rest == U64(f.borrowFeeWad) + r1;
    U64First(f.borrowFeeWad, r1);
    U64First(f.flashLoanFeeWad, r2);
    U8First(f.hostFeePercentage, rest);
  }

  lemma FeesReads(input: seq<byte>)
    ensures UnpackFees(input).Success? <==> |input| >= 17
    ensures UnpackFees(input).Failure? ==> UnpackFees(input).error == InstructionUnpackError
    ensures UnpackFees(input).Success? ==> var (f, rest) := UnpackFees(input).value; PackFees(f) + rest == input
  {
    U64Reads(input);
    if UnpackU64(input).Success? {
      var (a, r1) := UnpackU64(input).value;
      U64Reads(r1);
      if UnpackU64(r1).Success? {
        var (b, r2) := UnpackU64(r1).value;
        U8Reads(r2);
        hide U64, U8, UnpackU64, UnpackU8;
        if UnpackU8(r2).Success? {
          var (c, r3) := UnpackU8(r2).value;
          assert U64(a) + U64(b) + U8(c) + r3 == U64(a) + (U64(b) + (U8(c) + r3));
        }
      }
    }
  }

  lemma LimitsFirst(l: Limits, rest: seq<byte>)
    ensures UnpackLimits(PackLimits(l) + rest) == Success((l, rest))
  {
    hide U64, U8, UnpackU64, UnpackU8, UnpackPubkey;
    var r4 := U8(l.takeRate) + rest;
    var r3 := U8(l.liquidationFee) + r4;
    var r2 := l.feeReceiver.bytes + r3;
    var r1 := U64(l.borrow) + r2;
    assert PackLimits(l) + rest == U64(l.deposit) + r1;
    U64First(l.deposit, r1);
    U64First(l.borrow, r2);
    KeyFirst(l.feeReceiver, r3);
    U8First(l.liquidationFee, r4);
    U8First(l.takeRate, rest);
  }

  lemma LimitsReads(input: seq<byte>)
    ensures UnpackLimits(input).Success? <==> |input| >= 50
    ensures UnpackLimits(input).Failure? ==> UnpackLimits(input).error == InstructionUnpackError
    ensures UnpackLimits(input).Success? ==> var (l, rest) := UnpackLimits(input).value; PackLimits(l) + rest == input
  {
    U64Reads(input);
    hide U64, U8, UnpackU64, UnpackU8, UnpackPubkey;
    if UnpackU64(input).Success? {
      var (a, r1) := UnpackU64(input).value;
      U64Reads(r1);
      if UnpackU64(r1).Success? {
        var (b, r2) := UnpackU64(r1).value;
        LimitsTail(r2);
        if |r2| >= 34 {
          var (k, r3) := UnpackPubkey(r2).value;
          var (c, r4) := UnpackU8(r3).value;
          var (d, r5) := UnpackU8(r4).value;
          assert U64(a) + U64(b) + k.bytes + U8(c) + U8(d) + r5 == U64(a) + (U64(b) + (k.bytes + (U8(c) + (U8(d) + r5))));
        }
      }
    }
  }

  /** The last three fields: 34 bytes. */
  lemma LimitsTail(input: seq<byte>)
    ensures UnpackPubkey(input).Success? <==> |input| >= 32
    ensures UnpackPubkey(input).Failure? ==> UnpackPubkey(input).error == InstructionUnpackError
    ensures UnpackPubkey(input).Success? ==>
              var (k, r1) := UnpackPubkey(input).value;
              && (UnpackU8(r1).Success? <==> |input| >= 33)
              && (UnpackU8(r1).Failure? ==> UnpackU8(r1).error == InstructionUnpackError)
              && (UnpackU8(r1).Success? ==>
                    var (c, r2) := UnpackU8(r1).value;
                    && (UnpackU8(r2).Success? <==> |input| >= 34)
                    && (UnpackU8(r2).Failure? ==> UnpackU8(r2).error == InstructionUnpackError)
                    && (UnpackU8(r2).Success? ==>
                          var (d, r3) := UnpackU8(r2).value; k.bytes + (U8(c) + (U8(d) + r3)) == input))
  {
    KeyReads(input);
    if UnpackPubkey(input).Success? {
      var (k, r1) := UnpackPubkey(input).value;
      U8Reads(r1);
      if UnpackU8(r1).Success? {
        U8Reads(UnpackU8(r1).value.1);
      }
    }
  }

  lemma ConfigFirst(c: ReserveConfig, rest: seq<byte>)
    ensures UnpackConfig(PackConfig(c) + rest) == Success((c, rest))
  {
    hide PackRates, PackFees, PackLimits, UnpackRates, UnpackFees, UnpackLimits;
    var r2 := PackLimits(LimitsOf(c)) + rest;
    var r1 := PackFees(c.fees) + r2;
    assert PackConfig(c) + rest == PackRates(RatesOf(c)) + r1;
    RatesFirst(RatesOf(c), r1);
    FeesFirst(c.fees, r2);
    LimitsFirst(LimitsOf(c), rest);
  }

  lemma RatesLength(r: Rates)
    ensures |PackRates(r)| == 7
  {
  }

  lemma FeesLength(f: ReserveFees)
    ensures |PackFees(f)| == 17
  {
  }

  lemma LimitsLength(l: Limits)
    ensures |PackLimits(l)| == 50
  {
  }

  lemma ConfigReads(input: seq<byte>)
    ensures UnpackConfig(input).Success? <==> |input| >= 74
    ensures UnpackConfig(input).Failure? ==> UnpackConfig(input).error == InstructionUnpackError
    ensures UnpackConfig(input).Success? ==> var (c, rest) := UnpackConfig(input).value; PackConfig(c) + rest == input
  {
    RatesByIndex(input);
    hide PackRates, PackFees, PackLimits, UnpackRates, UnpackFees, UnpackLimits;
    if UnpackRates(input).Success? {
      RatesReads(input);
      var (r, r1) := UnpackRates(input).value;
      RatesLength(r);
      FeesReads(r1);
      if UnpackFees(r1).Success? {
        var (f, r2) := UnpackFees(r1).value;
        FeesLength(f);
        LimitsReads(r2);
        if UnpackLimits(r2).Success? {
          var (l, r3) := UnpackLimits(r2).value;
          LimitsLength(l);
          assert PackRates(r) + PackFees(f) + PackLimits(l) + r3 == PackRates(r) + (PackFees(f) + (PackLimits(l) + r3));
        }
      }
    }
  }

  // ---------------------------------------------------------------- whole instructions

  /** The length of an encoding, by its tag; None when there is no such instruction. */
  function Length(tag: byte): Option<nat> {
    match tag
    case 0 => Some(65)
    case 1 => Some(33)
    case 2 => Some(83)
    case 3 => Some(1)
    case 6 => Some(1)
    case 7 => Some(1)
    case 16 => Some(75)
    case 18 => Some(1)
    case _ => if tag <= 17 then Some(9) else None
  }

  /** An amount, little-endian, at an offset. */
  predicate AmountAt(b: seq<byte>, offset: nat, amount: u64) {
    offset + 8 <= |b| && FromLE(b[offset..offset + 8]) == amount
  }

  predicate KeyAt(b: seq<byte>, offset: nat, key: seq<byte>) {
    offset + |key| <= |b| && b[offset..offset + |key|] == key
  }

  /** The 74 bytes of a reserve configuration, field by field. */
  predicate ConfigAt(b: seq<byte>, offset: nat, c: ReserveConfig) {
    && offset + 74 <= |b|
    && b[offset] as nat == c.optimalUtilizationRate
    && b[offset + 1] as nat == c.loanToValueRatio
    && b[offset + 2] as nat == c.liquidationBonus
    && b[offset + 3] as nat == c.liquidationThreshold
    && b[offset + 4] as nat == c.minBorrowRate
    && b[offset + 5] as nat == c.optimalBorrowRate
    && b[offset + 6] as nat == c.maxBorrowRate
    && AmountAt(b, offset + 7, c.fees.borrowFeeWad)
    && AmountAt(b, offset + 15, c.fees.flashLoanFeeWad)
    && b[offset + 23] as nat == c.fees.hostFeePercentage
    && AmountAt(b, offset + 24, c.depositLimit)
    && AmountAt(b, offset + 32, c.borrowLimit)
    && KeyAt(b, offset + 40, c.feeReceiver.bytes)
    && b[offset + 72] as nat == c.protocolLiquidationFee
    && b[offset + 73] as nat == c.protocolTakeRate
  }

  predicate JustTag(b: seq<byte>, tag: byte) {
    b == [tag]
  }

  predicate TagAndAmount(b: seq<byte>, tag: byte, amount: u64) {
    |b| == 9 && b[0] == tag && AmountAt(b, 1, amount)
  }

  /** The wire format: the tag of every instruction and the place of each of its fields. */
  predicate OnWire(b: seq<byte>, x: LendingInstruction) {
    match x
    case InitLendingMarket(owner, quoteCurrency) =>
      |b| == 65 && b[0] == 0 && KeyAt(b, 1, owner.bytes) && KeyAt(b, 33, quoteCurrency)
    case SetLendingMarketOwner(newOwner) => |b| == 33 && b[0] == 1 && KeyAt(b, 1, newOwner.bytes)
    case InitReserve(amount, config) => |b| == 83 && b[0] == 2 && AmountAt(b, 1, amount) && ConfigAt(b, 9, config)
    case RefreshReserve => JustTag(b, 3)
    case DepositReserveLiquidity(amount) => TagAndAmount(b, 4, amount)
    case RedeemReserveCollateral(amount) => TagAndAmount(b, 5, amount)
    case InitObligation => JustTag(b, 6)
    case RefreshObligation => JustTag(b, 7)
    case DepositObligationCollateral(amount) => TagAndAmount(b, 8, amount)
    case WithdrawObligationCollateral(amount) => TagAndAmount(b, 9, amount)
    case BorrowObligationLiquidity(amount) => TagAndAmount(b, 10, amount)
    case RepayObligationLiquidity(amount) => TagAndAmount(b, 11, amount)
    case LiquidateObligation(amount) => TagAndAmount(b, 12, amount)
    case FlashLoan(amount) => TagAndAmount(b, 13, amount)
    case DepositReserveLiquidityAndObligationCollateral(amount) => TagAndAmount(b, 14, amount)
    case WithdrawObligationCollateralAndRedeemReserveCollateral(amount) => TagAndAmount(b, 15, amount)
    case UpdateReserveConfig(config) => |b| == 75 && b[0] == 16 && ConfigAt(b, 1, config)
    case LiquidateObligationAndRedeemReserveCollateral(amount) => TagAndAmount(b, 17, amount)
    case RedeemFees => JustTag(b, 18)
  }

  lemma U64Placed(before: seq<byte>, n: u64, rest: seq<byte>)
    ensures AmountAt(before + U64(n) + rest, |before|, n)
  {
    var b := before + U64(n) + rest;
    assert b[|before|..|before| + 8] == U64(n);
    U64First(n, []);
    assert U64(n) + [] == U64(n);
  }

  lemma KeyPlaced(before: seq<byte>, key: seq<byte>, rest: seq<byte>)
    ensures KeyAt(before + key + rest, |before|, key)
  {
    assert (before + key + rest)[|before|..|before| + |key|] == key;
  }

  lemma ConfigPlaced(before: seq<byte>, c: ReserveConfig)
    ensures ConfigAt(before + PackConfig(c), |before|, c)
  {
    var b := before + PackConfig(c);
    var rates, fees, limits := PackRates(RatesOf(c)), PackFees(c.fees), PackLimits(LimitsOf(c));
    RatesLength(RatesOf(c));
    FeesLength(c.fees);
    LimitsLength(LimitsOf(c));
    assert b == before + rates + fees + limits;
    RatesPlaced(before, RatesOf(c), fees + limits);
    assert b == before + rates + (fees + limits);
    FeesPlaced(before + rates, c.fees, limits);
    LimitsPlaced(before + rates + fees, LimitsOf(c));
    hide PackRates, PackFees, PackLimits, AmountAt, KeyAt, PackConfig;
  }

  lemma RatesPlaced(before: seq<byte>, r: Rates, rest: seq<byte>)
    ensures var b, n := before + PackRates(r) + rest, |before|;
            && n + 7 <= |b|
            && b[n] as nat == r.utilization && b[n + 1] as nat == r.ltv && b[n + 2] as nat == r.bonus
            && b[n + 3] as nat == r.threshold && b[n + 4] as nat == r.minimum && b[n + 5] as nat == r.optimal
            && b[n + 6] as nat == r.maximum
  {
    RatesLength(r);
  }

  lemma FeesPlaced(before: seq<byte>, f: ReserveFees, rest: seq<byte>)
    ensures var b, n := before + PackFees(f) + rest, |before|;
            && n + 17 <= |b|
            && AmountAt(b, n, f.borrowFeeWad) && AmountAt(b, n + 8, f.flashLoanFeeWad)
            && b[n + 16] as nat == f.hostFeePercentage
  {
    var b := before + PackFees(f) + rest;
    var tail := U8(f.hostFeePercentage) + rest;
    assert b == before + U64(f.borrowFeeWad) + (U64(f.flashLoanFeeWad) + tail);
    U64Placed(before, f.borrowFeeWad, U64(f.flashLoanFeeWad) + tail);
    assert b == (before + U64(f.borrowFeeWad)) + U64(f.flashLoanFeeWad) + tail;
    U64Placed(before + U64(f.borrowFeeWad), f.flashLoanFeeWad, tail);
    hide AmountAt, U64;
  }

  lemma LimitsPlaced(before: seq<byte>, l: Limits)
    ensures var b, n := before + PackLimits(l), |before|;
            && n + 50 <= |b|
            && AmountAt(b, n, l.deposit) && AmountAt(b, n + 8, l.borrow) && KeyAt(b, n + 16, l.feeReceiver.bytes)
            && b[n + 48] as nat == l.liquidationFee && b[n + 49] as nat == l.takeRate
  {
    var b := before + PackLimits(l);
    var tail := U8(l.liquidationFee) + U8(l.takeRate);
    var p1, p2 := before + U64(l.deposit), before + U64(l.deposit) + U64(l.borrow);
    assert b == before + U64(l.deposit) + (U64(l.borrow) + (l.feeReceiver.bytes + tail));
    U64Placed(before, l.deposit, U64(l.borrow) + (l.feeReceiver.bytes + tail));
    assert b == p1 + U64(l.borrow) + (l.feeReceiver.bytes + tail);
    U64Placed(p1, l.borrow, l.feeReceiver.bytes + tail);
    assert b == p2 + l.feeReceiver.bytes + tail;
    KeyPlaced(p2, l.feeReceiver.bytes, tail);
    hide AmountAt, KeyAt, U64;
  }

  lemma AmountPlaced(tag: byte, amount: u64)
    ensures TagAndAmount([tag] + U64(amount), tag, amount)
  {
    U64Placed([tag], amount, []);
    assert [tag] + U64(amount) + [] == [tag] + U64(amount);
  }

  /** Every encoding is laid out as the format says. */
  lemma EncodingOnWire(x: LendingInstruction)
    ensures OnWire(Encoding(x), x)
  {
    hide U64, PackConfig, AmountAt, KeyAt, ConfigAt, TagAndAmount;
    match x
    case InitLendingMarket(owner, quoteCurrency) =>
      KeyPlaced([0], owner.bytes, quoteCurrency);
      KeyPlaced([0] + owner.bytes, quoteCurrency, []);
      assert Encoding(x) == [0] + owner.bytes + quoteCurrency == [0] + owner.bytes + quoteCurrency + [];
    case SetLendingMarketOwner(newOwner) =>
      KeyPlaced([1], newOwner.bytes, []);
      assert Encoding(x) == [1] + newOwner.bytes + [];
    case InitReserve(amount, config) =>
      U64Placed([2], amount, PackConfig(config));
      ConfigPlaced([2] + U64(amount), config);
      assert Encoding(x) == [2] + U64(amount) + PackConfig(config);
    case UpdateReserveConfig(config) => ConfigPlaced([16], config);
    case RefreshReserve =>
    case InitObligation =>
    case RefreshObligation =>
    case RedeemFees =>
    case _ => AmountPlaced(Tag(x), Amount(x));
  }

  /** An instruction whose only field is an amount. */
  predicate HasAmount(x: LendingInstruction) {
    Length(Tag(x)) == Some(9)
  }

  lemma UnpackSplit(x: LendingInstruction, r: seq<byte>)
    ensures var input := Encoding(x) + r; input != [] && input[0] == Tag(x) && input[1..] == Fields(x) + r
  {
    hide Fields, Tag;
  }

  lemma AmountRoundTrip(x: LendingInstruction, r: seq<byte>)
    requires HasAmount(x)
    ensures Unpack(Encoding(x) + r) == Success(x)
  {
    UnpackSplit(x, r);
    FieldsFirst(x, r);
    hide U64, PackConfig, UnpackU64, UnpackPubkey, UnpackBytes32, UnpackConfig, Encoding, Fields;
  }

  lemma OtherRoundTrip(x: LendingInstruction, r: seq<byte>)
    requires !HasAmount(x)
    ensures Unpack(Encoding(x) + r) == Success(x)
  {
    UnpackSplit(x, r);
    FieldsFirst(x, r);
    hide U64, PackConfig, UnpackU64, UnpackPubkey, UnpackBytes32, UnpackConfig, Encoding, Fields;
  }

  /** Round trip: what pack writes, whatever follows it, unpacks to the instruction. */
  lemma RoundTrip(x: LendingInstruction, r: seq<byte>)
    ensures Unpack(Encoding(x) + r) == Success(x)
  {
    hide Unpack, Encoding, HasAmount;
    if HasAmount(x) {
      AmountRoundTrip(x, r);
    } else {
      OtherRoundTrip(x, r);
    }
  }

  /** How the fields of each instruction read back. */
  lemma FieldsFirst(x: LendingInstruction, r: seq<byte>)
    ensures var input := Fields(x) + r;
            match x
            case InitLendingMarket(owner, quoteCurrency) =>
              && UnpackPubkey(input) == Success((owner, quoteCurrency + r))
              && UnpackBytes32(quoteCurrency + r) == Success((quoteCurrency, r))
            case SetLendingMarketOwner(newOwner) => UnpackPubkey(input) == Success((newOwner, r))
            case InitReserve(amount, config) =>
              && UnpackU64(input) == Success((amount, PackConfig(config) + r))
              && UnpackConfig(PackConfig(config) + r) == Success((config, r))
            case UpdateReserveConfig(config) => UnpackConfig(input) == Success((config, r))
            case RefreshReserve => true
            case InitObligation => true
            case RefreshObligation => true
            case RedeemFees => true
            case _ => UnpackU64(input) == Success((Amount(x), r))
  {
    hide U64, PackConfig, UnpackU64, UnpackConfig;
    match x
    case InitLendingMarket(owner, quoteCurrency) =>
      KeyFirst(owner, quoteCurrency + r);
      KeyFirst(Pubkey(quoteCurrency), r);
      assert owner.bytes + quoteCurrency + r == owner.bytes + (quoteCurrency + r);
    case SetLendingMarketOwner(newOwner) => KeyFirst(newOwner, r);
    case InitReserve(amount, config) =>
      U64First(amount, PackConfig(config) + r);
      ConfigFirst(config, r);
      assert U64(amount) + PackConfig(config) + r == U64(amount) + (PackConfig(config) + r);
    case UpdateReserveConfig(config) => ConfigFirst(config, r);
    case RefreshReserve =>
    case InitObligation =>
    case RefreshObligation =>
    case RedeemFees =>
    case _ => U64First(Amount(x), r);
  }

  /** The amount an instruction carries, when that is its only field. */
  function Amount(x: LendingInstruction): u64 {
    match x
    case DepositReserveLiquidity(amount) => amount
    case RedeemReserveCollateral(amount) => amount
    case DepositObligationCollateral(amount) => amount
    case WithdrawObligationCollateral(amount) => amount
    case BorrowObligationLiquidity(amount) => amount
    case RepayObligationLiquidity(amount) => amount
    case LiquidateObligation(amount) => amount
    case FlashLoan(amount) => amount
    case DepositReserveLiquidityAndObligationCollateral(amount) => amount
    case WithdrawObligationCollateralAndRedeemReserveCollateral(amount) => amount
    case LiquidateObligationAndRedeemReserveCollateral(amount) => amount
    case _ => 0
  }

  /** Distinct instructions have distinct encodings, and none is a prefix of another. */
  lemma PrefixFree(x: LendingInstruction, y: LendingInstruction)
    requires Encoding(x) <= Encoding(y)
    ensures x == y
  {
    hide Encoding, Unpack;
    RoundTrip(x, Encoding(y)[|Encoding(x)|..]);
    RoundTrip(y, []);
    assert Encoding(y) + [] == Encoding(y);
    assert Encoding(x) + Encoding(y)[|Encoding(x)|..] == Encoding(y);
  }

  /**
   Acceptance. unpack fails, always with the same error, exactly when the input is empty, the tag is above
   18, or the input is shorter than the tag's fixed length; otherwise the encoding of the result is exactly
   the input's prefix of that length.
   */
  lemma Acceptance(b: seq<byte>)
    ensures var r := Unpack(b);
            && (r.Success? <==> b != [] && Length(b[0]).Some? && Length(b[0]).value <= |b|)
            && (r.Failure? ==> r.error == InstructionUnpackError)
            && (r.Success? ==> Encoding(r.value) == b[..Length(b[0]).value])
  {
    hide Unpack, Encoding;
    if b == [] {
      AcceptBare(b);
    } else if b[0] == 0 {
      AcceptMarket(b);
    } else if b[0] == 1 {
      AcceptOwner(b);
    } else if b[0] == 16 {
      AcceptConfig(b);
    } else if b[0] == 2 {
      AcceptReserve(b);
    } else if Length(b[0]) == Some(9) {
      AcceptAmount(b);
    } else {
      AcceptBare(b);
    }
  }

  lemma AcceptBare(b: seq<byte>)
    requires b == [] || Length(b[0]) == Some(1) || Length(b[0]) == None
    ensures var r := Unpack(b);
            && (r.Success? <==> b != [] && Length(b[0]).Some?)
            && (r.Failure? ==> r.error == InstructionUnpackError)
            && (r.Success? ==> Encoding(r.value) == b[..1])
  {
    hide UnpackU64, U64, UnpackConfig, PackConfig, UnpackPubkey, UnpackBytes32;
  }

  lemma AcceptAmount(b: seq<byte>)
    requires b != [] && Length(b[0]) == Some(9)
    ensures var r := Unpack(b);
            && (r.Success? <==> |b| >= 9)
            && (r.Failure? ==> r.error == InstructionUnpackError)
            && (r.Success? ==> Encoding(r.value) == b[..9])
  {
    U64Reads(b[1..]);
    hide UnpackU64, UnpackConfig, PackConfig, UnpackPubkey, UnpackBytes32;
    if |b| >= 9 {
      var (n, rest) := UnpackU64(b[1..]).value;
      assert b == [b[0]] + b[1..] == [b[0]] + U64(n) + rest;
      assert b[..9] == [b[0]] + U64(n);
      hide U64;
    }
  }

  /** Cutting a sequence after its first byte and a block of fields. */
  lemma CutAfter(b: seq<byte>, fields: seq<byte>, rest: seq<byte>)
    requires b != [] && fields + rest == b[1..]
    ensures b[..1 + |fields|] == [b[0]] + fields
  {
    assert b == [b[0]] + (fields + rest);
  }

  lemma AcceptOwner(b: seq<byte>)
    requires b != [] && b[0] == 1
    ensures var r := Unpack(b);
            && (r.Success? <==> |b| >= 33)
            && (r.Failure? ==> r.error == InstructionUnpackError)
            && (r.Success? ==> Encoding(r.value) == b[..33])
  {
    KeyReads(b[1..]);
    hide UnpackPubkey, UnpackU64, UnpackConfig, PackConfig, UnpackBytes32;
    if UnpackPubkey(b[1..]).Success? {
      var (k, rest) := UnpackPubkey(b[1..]).value;
      CutAfter(b, k.bytes, rest);
    }
  }

  lemma UnpackTag16(b: seq<byte>)
    requires b != [] && b[0] == 16
    ensures var r := UnpackConfig(b[1..]);
            Unpack(b) == if r.Success? then Success(UpdateReserveConfig(r.value.0)) else Failure(r.error)
  {
    hide UnpackConfig, UnpackU64, UnpackPubkey, UnpackBytes32;
  }

  lemma EncodingOfConfig(c: ReserveConfig)
    ensures Encoding(UpdateReserveConfig(c)) == [16] + PackConfig(c)
  {
    hide PackConfig;
  }

  lemma AcceptConfig(b: seq<byte>)
    requires b != [] && b[0] == 16
    ensures var r := Unpack(b);
            && (r.Success? <==> |b| >= 75)
            && (r.Failure? ==> r.error == InstructionUnpackError)
            && (r.Success? ==> Encoding(r.value) == b[..75])
  {
    hide Unpack, Encoding, UnpackConfig, PackConfig;
    UnpackTag16(b);
    ConfigReads(b[1..]);
    if UnpackConfig(b[1..]).Success? {
      var (c, rest) := UnpackConfig(b[1..]).value;
      EncodingOfConfig(c);
      CutAfter(b, PackConfig(c), rest);
    }
  }

  lemma AcceptMarket(b: seq<byte>)
    requires b != [] && b[0] == 0
    ensures var r := Unpack(b);
            && (r.Success? <==> |b| >= 65)
            && (r.Failure? ==> r.error == InstructionUnpackError)
            && (r.Success? ==> Encoding(r.value) == b[..65])
  {
    hide UnpackU64, UnpackConfig, PackConfig;
    KeyReads(b[1..]);
    if |b| >= 65 {
      var r1 := UnpackPubkey(b[1..]).value.1;
      CutAfter(b, b[1..33] + b[33..65], b[65..]);
    }
  }

  lemma AcceptReserve(b: seq<byte>)
    requires b != [] && b[0] == 2
    ensures var r := Unpack(b);
            && (r.Success? <==> |b| >= 83)
            && (r.Failure? ==> r.error == InstructionUnpackError)
            && (r.Success? ==> Encoding(r.value) == b[..83])
  {
    U64Reads(b[1..]);
    hide UnpackU64, U64, UnpackConfig, PackConfig, UnpackPubkey, UnpackBytes32;
    if UnpackU64(b[1..]).Success? {
      var (amount, r1) := UnpackU64(b[1..]).value;
      ConfigReads(r1);
      if UnpackConfig(r1).Success? {
        var (config, r2) := UnpackConfig(r1).value;
        assert U64(amount) + PackConfig(config) + r2 == U64(amount) + (PackConfig(config) + r2);
        CutAfter(b, U64(amount) + PackConfig(config), r2);
      }
    }
  }
}
