/**
 What one position is worth. A value is the result of several truncating steps; these lemmas bound it by
 the exact quotient, so that a step left out, or done twice, would show.
 */
module PricingFacts {
  import opened Arithmetic
  import opened Bytes
  import opened Wrappers
  import opened FixedPoint
  import opened Lending
  import opened Refresh

  /** Scaling a product by a common factor can be undone. */
  lemma CancelFactor(x: nat, y: nat, w: nat)
    requires w > 0 && x * w <= y * w
    ensures x <= y
  {
    if y + 1 <= x {
      ProductMonotone(y + 1, x, w);
    }
  }

  lemma TwoFactors(a: nat, b: nat, c: nat)
    ensures (a * b) * c == (a * c) * b
  {
  }

  /** Quotient, product and quotient, each truncated: never above the exact value. */
  lemma NeverAbove(x: nat, r: nat, p: nat, m: nat)
    requires r > 0 && m > 0
    ensures (x / r * p / m * m) * r <= x * p
  {
    var q := x / r;
    var v := q * p / m;
    Truncated(q * p, m);
    Truncated(x, r);
    ChainAbove(x, q, r, p, v * m);
  }

  /** Nor below it by more than the two truncations cost. */
  lemma NotFarBelow(x: nat, r: nat, p: nat, m: nat)
    requires r > 0 && m > 0
    ensures x * p <= ((x / r * p / m + 1) * m + p) * r
  {
    var q := x / r;
    var v := q * p / m;
    Truncated(q * p, m);
    Truncated(x, r);
    ChainBelow(x, q, r, p, (v + 1) * m);
  }

  lemma ChainAbove(x: nat, q: nat, r: nat, p: nat, y: nat)
    requires y <= q * p && q * r <= x
    ensures y * r <= x * p
  {
    ProductMonotone(y, q * p, r);
    TwoFactors(q, p, r);
    ProductMonotone(q * r, x, p);
  }

  lemma ChainBelow(x: nat, q: nat, r: nat, p: nat, y: nat)
    requires q * p <= y && x <= (q + 1) * r
    ensures x * p <= (y + p) * r
  {
    ProductMonotone(x, (q + 1) * r, p);
    TwoFactors(q + 1, r, p);
    assert (q + 1) * p == q * p + p;
    ProductMonotone(q * p + p, y + p, r);
  }

  /** The three truncating steps of a deposit's value, with the two divisions of the worth taken as one. */
  lemma ValueSteps(amount: u64, reserve: Reserve)
    requires CollateralValue(amount, reserve).Success?
    ensures CollateralExchangeRate(reserve).Success? && CollateralExchangeRate(reserve).value > 0
    ensures var rate := CollateralExchangeRate(reserve).value;
            var unit := Pow10(reserve.liquidity.mintDecimals);
            && WAD * unit > 0
            && CollateralValue(amount, reserve).value ==
               amount * WAD * WAD / rate * reserve.liquidity.marketPrice / (WAD * unit)
  {
    var rate := CollateralExchangeRate(reserve).value;
    var liquidity := TryDiv(FromU64(amount), rate).value;
    DivTwice(liquidity * reserve.liquidity.marketPrice, WAD, Pow10(reserve.liquidity.mintDecimals));
  }

  /**
   A deposit is worth amount / rate * price in whole tokens. The computed value is never above that exact
   value, and below it by less than one unit plus what one truncated unit of liquidity is worth.
   */
  lemma DepositNeverOvervalued(amount: u64, reserve: Reserve)
    requires CollateralValue(amount, reserve).Success?
    ensures CollateralExchangeRate(reserve).Success?
    ensures var value, rate := CollateralValue(amount, reserve).value, CollateralExchangeRate(reserve).value;
            var price, unit := reserve.liquidity.marketPrice, Pow10(reserve.liquidity.mintDecimals);
            && value * (WAD * unit) * rate <= amount * WAD * WAD * price
            && amount * WAD * WAD * price <= ((value + 1) * (WAD * unit) + price) * rate
  {
    hide CollateralValue, CollateralExchangeRate;
    ValueSteps(amount, reserve);
    var rate := CollateralExchangeRate(reserve).value;
    var price, unit := reserve.liquidity.marketPrice, Pow10(reserve.liquidity.mintDecimals);
    NeverAbove(amount * WAD * WAD, rate, price, WAD * unit);
    NotFarBelow(amount * WAD * WAD, rate, price, WAD * unit);
  }

  /** The scale and the widths everything here is measured in. */
  lemma ScaleAndWidths()
    ensures WAD == Pow10(18) && 100 * PERCENT_SCALER == WAD
    ensures U64_LIMIT == Pow256(8) && U128_LIMIT == Pow256(16) && U192_LIMIT == Pow256(24)
  {
    PowSum(5, 4);
    PowSum(9, 9);
    Pow256Of8();
    Pow256Of16();
    assert Pow256(20) == 256 * 256 * 256 * 256 * Pow256(16);
    assert Pow256(24) == 256 * 256 * 256 * 256 * Pow256(20);
  }

  // ---------------------------------------------------------------- the exchange rate

  /** The supply is what is available plus what is lent, less the protocol's fees; it must neither overflow nor be negative. */
  lemma TotalSupplyExactly(l: ReserveLiquidity)
    ensures var gross := l.availableAmount * WAD + l.borrowedAmountWads;
            TotalSupply(l) ==
              if gross < U192_LIMIT && l.accumulatedProtocolFeesWads <= gross
              then Success(gross - l.accumulatedProtocolFeesWads) else Failure(MathOverflow)
  {
  }

  /** When a reserve has an exchange rate: its supply is a number and the ratio fits a rate. */
  ghost predicate HasRate(reserve: Reserve) {
    var l, minted := reserve.liquidity, reserve.mintTotalSupply;
    var supply := l.availableAmount * WAD + l.borrowedAmountWads - l.accumulatedProtocolFeesWads;
    && l.availableAmount * WAD + l.borrowedAmountWads < U192_LIMIT
    && supply >= 0
    && (minted == 0 || supply == 0 || minted * WAD * WAD / supply < U128_LIMIT)
  }

  /** Minted tokens per unit of liquidity, truncated once; one to one when either is zero. */
  ghost function RateOf(reserve: Reserve): nat
    requires HasRate(reserve)
  {
    var l, minted := reserve.liquidity, reserve.mintTotalSupply;
    var supply := l.availableAmount * WAD + l.borrowedAmountWads - l.accumulatedProtocolFeesWads;
    if minted == 0 || supply == 0 then WAD else minted * WAD * WAD / supply
  }

  /** The exchange rate exists exactly then and is that ratio. */
  lemma ExchangeRateIsRatio(reserve: Reserve)
    ensures CollateralExchangeRate(reserve).Success? <==> HasRate(reserve)
    ensures HasRate(reserve) ==> CollateralExchangeRate(reserve) == Success(RateOf(reserve))
    ensures CollateralExchangeRate(reserve).Failure? ==> CollateralExchangeRate(reserve).error == MathOverflow
  {
    TotalSupplyExactly(reserve.liquidity);
    hide TotalSupply;
  }

  // ---------------------------------------------------------------- when a deposit has a price

  lemma {:induction false} Pow10Monotone(j: nat, k: nat)
    requires j <= k
    ensures Pow10(j) <= Pow10(k)
    decreases k
  {
    if j < k {
      Pow10Monotone(j, k - 1);
    }
  }

  /** Nineteen decimals are the most a token can have. */
  lemma DecimalsExactly(k: u8)
    ensures CheckedPow10(k) == if k <= 19 then Success(Pow10(k)) else Failure(MathOverflow)
  {
    PowSum(5, 5);
    PowSum(5, 4);
    PowSum(10, 9);
    assert Pow10(19) == 10_000_000_000_000_000_000;
    if k <= 19 {
      Pow10Monotone(k, 19);
    } else {
      Pow10Monotone(20, k);
      assert Pow10(20) == 10 * Pow10(19);
    }
  }

  /** Value of an amount of collateral: amount / rate, times price, per token unit in wads. */
  ghost function CollateralWorth(amount: nat, rate: nat, price: nat, unit: nat): nat
    requires rate > 0 && unit > 0
  {
    amount * WAD * WAD / rate * price / unit
  }

  /** The value exists exactly if the decimals and the rate do, the rate is not zero and the product fits. */
  lemma CollateralValueExactly(amount: u64, reserve: Reserve)
    ensures var price, decimals := reserve.liquidity.marketPrice, reserve.liquidity.mintDecimals;
            var value := CollateralValue(amount, reserve);
            && (value.Success? <==>
                  decimals <= 19 && HasRate(reserve) && RateOf(reserve) > 0
                  && amount * WAD * WAD / RateOf(reserve) * price < U192_LIMIT)
            && (value.Success? ==> value.value == CollateralWorth(amount, RateOf(reserve), price, WAD * Pow10(decimals)))
            && (value.Failure? ==> value.error == MathOverflow)
  {
    DecimalsExactly(reserve.liquidity.mintDecimals);
    ExchangeRateIsRatio(reserve);
    hide CollateralExchangeRate, CheckedPow10, HasRate, RateOf, Pow10;
    if CollateralValue(amount, reserve).Success? {
      ValueSteps(amount, reserve);
    }
  }

  /** A deposit's value and weights, and everything that can go wrong on the way to them. */
  lemma DepositPricedExactly(c: ObligationCollateral, book: Book)
    ensures var priced := PriceDeposit(c, book);
            if c.depositReserve in book.reserves && c.depositReserve in book.oracles then
              var reserve := book.reserves[c.depositReserve];
              var value := CollateralValue(c.depositedAmount, reserve);
              var ltv, threshold := reserve.config.loanToValueRatio, reserve.config.liquidationThreshold;
              && (priced.Success? <==>
                    && value.Success?
                    && value.value * ltv * PERCENT_SCALER < U192_LIMIT
                    && value.value * threshold * PERCENT_SCALER < U192_LIMIT)
              && (priced.Success? ==>
                    priced.value == PricedDeposit(value.value, value.value * ltv / 100, value.value * threshold / 100,
                                                  book.oracles[c.depositReserve].symbol))
              && (priced.Failure? ==> priced.error == MathOverflow)
            else priced == Failure(InvalidAccountInput)
  {
    if c.depositReserve in book.reserves && c.depositReserve in book.oracles {
      var reserve := book.reserves[c.depositReserve];
      CollateralValueExactly(c.depositedAmount, reserve);
      hide CollateralValue, TryMul;
      if CollateralValue(c.depositedAmount, reserve).Success? {
        var value := CollateralValue(c.depositedAmount, reserve).value;
        PercentOf(value, reserve.config.loanToValueRatio);
        PercentOf(value, reserve.config.liquidationThreshold);
        OverflowOnly(value, FromPercent(reserve.config.loanToValueRatio));
        OverflowOnly(value, FromPercent(reserve.config.liquidationThreshold));
      }
    }
  }

  lemma OverflowOnly(a: Decimal, b: Decimal)
    ensures TryMul(a, b).Failure? ==> TryMul(a, b).error == MathOverflow
  {
  }

  // ---------------------------------------------------------------- debts

  /** Whether a debt can be brought up to a cumulative rate, and what it is then. */
  ghost predicate CanAccrue(owed: nat, before: nat, rate: nat) {
    rate == before
    || (0 < before < rate && rate * WAD < U192_LIMIT && rate * WAD / before < U128_LIMIT
        && owed * (rate * WAD / before) < U192_LIMIT)
  }

  ghost function Accrued(owed: nat, before: nat, rate: nat): nat
    requires CanAccrue(owed, before, rate)
  {
    if rate == before then owed else owed * (rate * WAD / before) / WAD
  }

  /** A falling rate is an error of its own; otherwise the debt grows by the truncated ratio, or overflows. */
  lemma InterestExactly(b: ObligationLiquidity, rate: Decimal)
    ensures var before, owed := b.cumulativeBorrowRateWads, b.borrowedAmountWads;
            var accrued := AccrueInterest(b, rate);
            && (accrued == Failure(NegativeInterestRate) <==> rate < before)
            && (accrued.Success? <==> CanAccrue(owed, before, rate))
            && (accrued.Success? ==>
                  accrued.value == ObligationLiquidity(b.borrowReserve, rate, Accrued(owed, before, rate), b.marketValue))
            && (accrued.Failure? ==> accrued.error == if rate < before then NegativeInterestRate else MathOverflow)
  {
  }

  /** A debt is worth its accrued amount times the price in whole tokens, truncated once. */
  lemma BorrowValueTruncatedOnce(b: ObligationLiquidity, book: Book)
    requires PriceBorrow(b, book).Success?
    ensures var priced, reserve := PriceBorrow(b, book).value, book.reserves[b.borrowReserve];
            var unit := Pow10(reserve.liquidity.mintDecimals);
            && WAD * unit > 0
            && priced.borrow.marketValue == priced.liquidity.marketValue
            && priced.borrow.borrowAmountWads == priced.liquidity.borrowedAmountWads
            && priced.borrow.marketValue ==
               priced.borrow.borrowAmountWads * reserve.liquidity.marketPrice / (WAD * unit)
  {
    hide AccrueInterest;
    var reserve := book.reserves[b.borrowReserve];
    var accrued := AccrueInterest(b, reserve.liquidity.cumulativeBorrowRateWads).value;
    DivTwice(accrued.borrowedAmountWads * reserve.liquidity.marketPrice, WAD, Pow10(reserve.liquidity.mintDecimals));
  }

  /**
   A debt is priced after it has been brought up to its reserve's rate: everything the priced position and
   the list entry hold, and everything that can go wrong on the way to them.
   */
  lemma BorrowPricedExactly(b: ObligationLiquidity, book: Book)
    ensures var priced := PriceBorrow(b, book);
            if b.borrowReserve in book.reserves && b.borrowReserve in book.oracles then
              var l, oracle := book.reserves[b.borrowReserve].liquidity, book.oracles[b.borrowReserve];
              var before, owed, rate := b.cumulativeBorrowRateWads, b.borrowedAmountWads, l.cumulativeBorrowRateWads;
              && (priced.Success? <==>
                    CanAccrue(owed, before, rate) && l.mintDecimals <= 19
                    && Accrued(owed, before, rate) * l.marketPrice < U192_LIMIT)
              && (priced.Success? ==> PricedAs(b, priced.value, l, oracle))
              && (priced.Failure? ==> priced.error == if rate < before then NegativeInterestRate else MathOverflow)
            else priced == Failure(InvalidAccountInput)
  {
    if b.borrowReserve in book.reserves && b.borrowReserve in book.oracles {
      var l := book.reserves[b.borrowReserve].liquidity;
      InterestExactly(b, l.cumulativeBorrowRateWads);
      DecimalsExactly(l.mintDecimals);
      hide AccrueInterest, CheckedPow10, CanAccrue, Accrued, Pow10;
      if PriceBorrow(b, book).Success? {
        BorrowValueTruncatedOnce(b, book);
      }
    }
  }

  ghost predicate PricedAs(b: ObligationLiquidity, priced: PricedBorrow, l: ReserveLiquidity, oracle: OracleData) {
    var before, owed, rate := b.cumulativeBorrowRateWads, b.borrowedAmountWads, l.cumulativeBorrowRateWads;
    && CanAccrue(owed, before, rate)
    && WAD * Pow10(l.mintDecimals) > 0
    && var amount := Accrued(owed, before, rate);
    var value := amount * l.marketPrice / (WAD * Pow10(l.mintDecimals));
    && priced.liquidity.borrowReserve == priced.borrow.borrowReserve == b.borrowReserve
    && priced.liquidity.cumulativeBorrowRateWads == rate
    && priced.liquidity.borrowedAmountWads == priced.borrow.borrowAmountWads == amount
    && priced.liquidity.marketValue == priced.borrow.marketValue == value
    && priced.borrow.mintAddress == oracle.mintAddress
    && priced.borrow.symbol == oracle.symbol
  }

  /** Accrued interest is at most proportional to the growth of the cumulative rate. */
  lemma InterestAtMostProportional(b: ObligationLiquidity, rate: Decimal)
    requires AccrueInterest(b, rate).Success?
    ensures AccrueInterest(b, rate).value.borrowedAmountWads * b.cumulativeBorrowRateWads <= b.borrowedAmountWads * rate
  {
    var before, owed := b.cumulativeBorrowRateWads, b.borrowedAmountWads;
    if rate > before {
      var ratio := rate * WAD / before;
      var after := owed * ratio / WAD;
      assert AccrueInterest(b, rate).value.borrowedAmountWads == after;
      ProportionalSteps(owed, ratio, after, before, rate);
    }
  }

  lemma ProportionalSteps(owed: nat, ratio: nat, after: nat, before: nat, rate: nat)
    requires before > 0 && ratio == rate * WAD / before && after == owed * ratio / WAD
    ensures after * before <= owed * rate
  {
    Truncated(owed * ratio, WAD);
    Truncated(rate * WAD, before);
    ProductMonotone(after * WAD, owed * ratio, before);
    ProductMonotone(ratio * before, rate * WAD, owed);
    TwoFactors(after, WAD, before);
    assert (owed * ratio) * before == (ratio * before) * owed;
    assert (rate * WAD) * owed == (owed * rate) * WAD;
    CancelFactor(after * before, owed * rate, WAD);
  }
}
