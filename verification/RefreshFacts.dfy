/**
 What a refresh computes, stated on sums over the positions instead of on the loops: when it succeeds,
 what the totals are, that order does not matter, and how far truncation can move the liquidation limit.
 */
module RefreshFacts {
  import opened Arithmetic
  import opened Wrappers
  import opened FixedPoint
  import opened Lending
  import opened Refresh
  import opened Sums

  // ---------------------------------------------------------------- contributions of one position

  function DepositWorth(book: Book): ObligationCollateral -> nat {
    c => match PriceDeposit(c, book) case Success(p) => p.marketValue case Failure(_) => 0
  }

  function DepositAllowed(book: Book): ObligationCollateral -> nat {
    c => match PriceDeposit(c, book) case Success(p) => p.allowed case Failure(_) => 0
  }

  function DepositUnhealthy(book: Book): ObligationCollateral -> nat {
    c => match PriceDeposit(c, book) case Success(p) => p.unhealthy case Failure(_) => 0
  }

  function BorrowWorth(book: Book): ObligationLiquidity -> nat {
    b => match PriceBorrow(b, book) case Success(p) => p.borrow.marketValue case Failure(_) => 0
  }

  ghost predicate DepositsPriced(cs: seq<ObligationCollateral>, book: Book) {
    forall c :: c in cs ==> PriceDeposit(c, book).Success?
  }

  ghost predicate BorrowsPriced(bs: seq<ObligationLiquidity>, book: Book) {
    forall b :: b in bs ==> PriceBorrow(b, book).Success?
  }

  /** Every deposit can be priced and none of the three totals leaves the 192-bit range. */
  ghost predicate DepositsFit(cs: seq<ObligationCollateral>, book: Book) {
    && DepositsPriced(cs, book)
    && SumOf(cs, DepositWorth(book)) < U192_LIMIT
    && SumOf(cs, DepositAllowed(book)) < U192_LIMIT
    && SumOf(cs, DepositUnhealthy(book)) < U192_LIMIT
  }

  ghost predicate BorrowsFit(bs: seq<ObligationLiquidity>, book: Book) {
    BorrowsPriced(bs, book) && SumOf(bs, BorrowWorth(book)) < U192_LIMIT
  }

  // ---------------------------------------------------------------- the loops in closed form

  /** The list entry and the rewritten position that belong to one deposit. */
  ghost predicate DepositMatches(c: ObligationCollateral, position: ObligationCollateral, d: Deposit, book: Book) {
    match PriceDeposit(c, book)
    case Success(p) =>
      && position == c.(marketValue := p.marketValue)
      && d == Deposit(c.depositReserve, c.depositedAmount, p.marketValue, p.symbol)
    case Failure(_) => false
  }

  ghost predicate BorrowMatches(b: ObligationLiquidity, position: ObligationLiquidity, d: Borrow, book: Book) {
    PriceBorrow(b, book) == Success(PricedBorrow(position, d))
  }

  lemma {:induction false} DepositsClosedForm(cs: seq<ObligationCollateral>, book: Book)
    ensures DepositsOf(cs, book).Success? <==> DepositsFit(cs, book)
    ensures DepositsOf(cs, book).Success? ==>
              var side := DepositsOf(cs, book).value;
              && side.deposited == SumOf(cs, DepositWorth(book))
              && side.allowed == SumOf(cs, DepositAllowed(book))
              && side.unhealthy == SumOf(cs, DepositUnhealthy(book))
  {
    if cs != [] {
      var front, last := cs[..|cs| - 1], cs[|cs| - 1];
      DepositsClosedForm(front, book);
      assert cs == front + [last];
      assert DepositsPriced(cs, book) <==> DepositsPriced(front, book) && PriceDeposit(last, book).Success?;
    }
  }

  lemma {:induction false} DepositsMatch(cs: seq<ObligationCollateral>, book: Book)
    requires DepositsOf(cs, book).Success?
    ensures var side := DepositsOf(cs, book).value;
            && |side.positions| == |side.deposits| == |cs|
            && forall i :: 0 <= i < |cs| ==> DepositMatches(cs[i], side.positions[i], side.deposits[i], book)
  {
    if cs != [] {
      DepositsMatch(cs[..|cs| - 1], book);
    }
  }

  lemma {:induction false} BorrowsClosedForm(bs: seq<ObligationLiquidity>, book: Book)
    ensures BorrowsOf(bs, book).Success? <==> BorrowsFit(bs, book)
    ensures BorrowsOf(bs, book).Success? ==> BorrowsOf(bs, book).value.borrowed == SumOf(bs, BorrowWorth(book))
  {
    if bs != [] {
      var front, last := bs[..|bs| - 1], bs[|bs| - 1];
      BorrowsClosedForm(front, book);
      assert bs == front + [last];
      assert BorrowsPriced(bs, book) <==> BorrowsPriced(front, book) && PriceBorrow(last, book).Success?;
    }
  }

  lemma {:induction false} BorrowsMatch(bs: seq<ObligationLiquidity>, book: Book)
    requires BorrowsOf(bs, book).Success?
    ensures var side := BorrowsOf(bs, book).value;
            && |side.positions| == |side.borrows| == |bs|
            && forall i :: 0 <= i < |bs| ==> BorrowMatches(bs[i], side.positions[i], side.borrows[i], book)
  {
    if bs != [] {
      BorrowsMatch(bs[..|bs| - 1], book);
    }
  }

  // ---------------------------------------------------------------- order does not matter

  lemma MultisetMembers<T>(xs: seq<T>, ys: seq<T>)
    requires multiset(xs) == multiset(ys)
    ensures forall x :: x in xs <==> x in ys
  {
    forall x
      ensures x in xs <==> x in ys
    {
      assert x in xs <==> x in multiset(xs);
      assert x in ys <==> x in multiset(ys);
    }
  }

  lemma DepositsReordered(cs: seq<ObligationCollateral>, cs': seq<ObligationCollateral>, book: Book)
    requires multiset(cs) == multiset(cs')
    ensures DepositsOf(cs, book).Success? <==> DepositsOf(cs', book).Success?
    ensures DepositsOf(cs, book).Success? ==>
              var side, side' := DepositsOf(cs, book).value, DepositsOf(cs', book).value;
              (side.deposited, side.allowed, side.unhealthy) == (side'.deposited, side'.allowed, side'.unhealthy)
  {
    DepositsClosedForm(cs, book);
    DepositsClosedForm(cs', book);
    SumPermuted(cs, cs', DepositWorth(book));
    SumPermuted(cs, cs', DepositAllowed(book));
    SumPermuted(cs, cs', DepositUnhealthy(book));
    MultisetMembers(cs, cs');
  }

  lemma BorrowsReordered(bs: seq<ObligationLiquidity>, bs': seq<ObligationLiquidity>, book: Book)
    requires multiset(bs) == multiset(bs')
    ensures BorrowsOf(bs, book).Success? <==> BorrowsOf(bs', book).Success?
    ensures BorrowsOf(bs, book).Success? ==> BorrowsOf(bs, book).value.borrowed == BorrowsOf(bs', book).value.borrowed
  {
    BorrowsClosedForm(bs, book);
    BorrowsClosedForm(bs', book);
    SumPermuted(bs, bs', BorrowWorth(book));
    MultisetMembers(bs, bs');
  }

  /** The four totals of an obligation. */
  function Totals(o: Obligation): (Decimal, Decimal, Decimal, Decimal) {
    (o.depositedValue, o.borrowedValue, o.allowedBorrowValue, o.unhealthyBorrowValue)
  }

  /** Reordering deposits and borrows changes neither the success of a refresh nor any total. */
  lemma RefreshReordered(o: Obligation, o': Obligation, book: Book)
    requires multiset(o.deposits) == multiset(o'.deposits)
    requires multiset(o.borrows) == multiset(o'.borrows)
    ensures RefreshOf(o, book).Success? <==> RefreshOf(o', book).Success?
    ensures RefreshOf(o, book).Success? ==>
              Totals(RefreshOf(o, book).value.obligation) == Totals(RefreshOf(o', book).value.obligation)
  {
    DepositsReordered(o.deposits, o'.deposits, book);
    BorrowsReordered(o.borrows, o'.borrows, book);
  }

  // ---------------------------------------------------------------- totals are consistent

  function CollateralValueOf(): ObligationCollateral -> nat {
    (c: ObligationCollateral) => c.marketValue
  }

  function LiquidityValueOf(): ObligationLiquidity -> nat {
    (b: ObligationLiquidity) => b.marketValue
  }

  /** Equal terms give equal sums. */
  lemma {:induction false} SumsAgree<S, T>(xs: seq<S>, ys: seq<T>, f: S -> nat, g: T -> nat)
    requires |xs| == |ys|
    requires forall i :: 0 <= i < |xs| ==> f(xs[i]) == g(ys[i])
    ensures SumOf(xs, f) == SumOf(ys, g)
  {
    if xs != [] {
      SumsAgree(xs[..|xs| - 1], ys[..|ys| - 1], f, g);
    }
  }

  /** Deposit entry i, deposit position i and the deposit total come from the same input positions. */
  ghost predicate DepositsConsistent(cs: seq<ObligationCollateral>, side: DepositSide, book: Book) {
    && |side.positions| == |side.deposits| == |cs|
    && (forall i :: 0 <= i < |cs| ==> DepositMatches(cs[i], side.positions[i], side.deposits[i], book))
    && side.deposited == SumOf(side.deposits, DepositValueOf()) == SumOf(side.positions, CollateralValueOf())
  }

  ghost predicate BorrowsConsistent(bs: seq<ObligationLiquidity>, side: BorrowSide, book: Book) {
    && |side.positions| == |side.borrows| == |bs|
    && (forall i :: 0 <= i < |bs| ==> BorrowMatches(bs[i], side.positions[i], side.borrows[i], book))
    && side.borrowed == SumOf(side.borrows, BorrowValueOf()) == SumOf(side.positions, LiquidityValueOf())
  }

  lemma DepositTotalsAreSums(cs: seq<ObligationCollateral>, book: Book)
    requires DepositsOf(cs, book).Success?
    ensures DepositsConsistent(cs, DepositsOf(cs, book).value, book)
  {
    var side := DepositsOf(cs, book).value;
    DepositsMatch(cs, book);
    DepositsClosedForm(cs, book);
    SumsAgree(cs, side.deposits, DepositWorth(book), DepositValueOf());
    SumsAgree(cs, side.positions, DepositWorth(book), CollateralValueOf());
  }

  lemma BorrowTotalsAreSums(bs: seq<ObligationLiquidity>, book: Book)
    requires BorrowsOf(bs, book).Success?
    ensures BorrowsConsistent(bs, BorrowsOf(bs, book).value, book)
  {
    var side := BorrowsOf(bs, book).value;
    BorrowsMatch(bs, book);
    BorrowsClosedForm(bs, book);
    SumsAgree(bs, side.borrows, BorrowWorth(book), BorrowValueOf());
    SumsAgree(bs, side.positions, BorrowWorth(book), LiquidityValueOf());
  }

  /**
   The stored market values, the returned lists and the totals tell one story: entry i of each list and
   position i of the obligation come from input position i, and the totals are the sums of their values.
   */
  lemma TotalsAreSums(o: Obligation, book: Book)
    requires RefreshOf(o, book).Success?
    ensures var r := RefreshOf(o, book).value;
            var after := r.obligation;
            && (after.lendingMarket, after.owner) == (o.lendingMarket, o.owner)
            && DepositsConsistent(o.deposits, DepositSide(after.deposits, r.deposits,
                 after.depositedValue, after.allowedBorrowValue, after.unhealthyBorrowValue), book)
            && BorrowsConsistent(o.borrows, BorrowSide(after.borrows, r.borrows, after.borrowedValue), book)
  {
    DepositTotalsAreSums(o.deposits, book);
    BorrowTotalsAreSums(o.borrows, book);
  }

  // ---------------------------------------------------------------- truncation of the limits

  /** 100 times the exact contribution of a deposit to the liquidation limit. */
  function ExactUnhealthy(book: Book): ObligationCollateral -> nat {
    c => match PriceDeposit(c, book)
         case Success(p) => p.marketValue * book.reserves[c.depositReserve].config.liquidationThreshold
         case Failure(_) => 0
  }

  lemma PricedWeights(c: ObligationCollateral, book: Book)
    requires PriceDeposit(c, book).Success?
    ensures var p := PriceDeposit(c, book).value;
            var config := book.reserves[c.depositReserve].config;
            && p.allowed == p.marketValue * config.loanToValueRatio / 100
            && p.unhealthy == p.marketValue * config.liquidationThreshold / 100
  {
    var p := PriceDeposit(c, book).value;
    var config := book.reserves[c.depositReserve].config;
    PercentOf(p.marketValue, config.loanToValueRatio);
    PercentOf(p.marketValue, config.liquidationThreshold);
  }

  lemma {:induction false} UnhealthyWithinOnePerDeposit(cs: seq<ObligationCollateral>, book: Book)
    requires DepositsPriced(cs, book)
    ensures 100 * SumOf(cs, DepositUnhealthy(book)) <= SumOf(cs, ExactUnhealthy(book))
    ensures SumOf(cs, ExactUnhealthy(book)) <= 100 * SumOf(cs, DepositUnhealthy(book)) + 99 * |cs|
  {
    if cs != [] {
      UnhealthyWithinOnePerDeposit(cs[..|cs| - 1], book);
      PricedWeights(cs[|cs| - 1], book);
    }
  }

  /** 100 times the exact liquidation limit E of an obligation's deposits. */
  ghost function ExactLimit(o: Obligation, book: Book): nat {
    SumOf(o.deposits, ExactUnhealthy(book))
  }

  /**
   With n deposits the computed limit lies in (E - n, E]. So a debt above E is flagged whenever the
   computed limit is not zero, and no debt at or below E - n ever is.
   */
  lemma HealthTestErrorBound(o: Obligation, book: Book)
    requires RefreshOf(o, book).Success? && |o.deposits| >= 1
    ensures var r := RefreshOf(o, book).value.obligation;
            var e, n := ExactLimit(o, book), |o.deposits|;
            && e - 100 * n < 100 * r.unhealthyBorrowValue <= e
            && (100 * r.borrowedValue > e && r.unhealthyBorrowValue != 0 ==> Flagged(r))
            && (Flagged(r) ==> 100 * r.borrowedValue > e - 100 * n)
  {
    DepositsClosedForm(o.deposits, book);
    UnhealthyWithinOnePerDeposit(o.deposits, book);
  }

  /** One truncated weight survives exactly if the exact one is a whole unit or more. */
  lemma WeightSurvives(c: ObligationCollateral, book: Book)
    requires PriceDeposit(c, book).Success?
    ensures DepositUnhealthy(book)(c) != 0 <==> ExactUnhealthy(book)(c) >= 100
  {
    PricedWeights(c, book);
    hide PriceDeposit;
  }

  /** A sum of truncated weights is positive exactly if some weight survives its truncation. */
  lemma SomeWeightSurvives(cs: seq<ObligationCollateral>, book: Book)
    requires DepositsPriced(cs, book)
    ensures SumOf(cs, DepositUnhealthy(book)) != 0 <==> exists c :: c in cs && ExactUnhealthy(book)(c) >= 100
  {
    hide PriceDeposit, SumOf, DepositUnhealthy, ExactUnhealthy;
    if SumOf(cs, DepositUnhealthy(book)) != 0 {
      var k := PositiveTerm(cs, DepositUnhealthy(book));
      WeightSurvives(cs[k], book);
    }
    if c :| c in cs && ExactUnhealthy(book)(c) >= 100 {
      var k :| 0 <= k < |cs| && cs[k] == c;
      SumWithout(cs, k, DepositUnhealthy(book));
      WeightSurvives(c, book);
    }
  }

  /** The computed limit is zero exactly if no deposit is worth a whole unit of it. */
  lemma LimitVanishes(o: Obligation, book: Book)
    requires RefreshOf(o, book).Success?
    ensures RefreshOf(o, book).value.obligation.unhealthyBorrowValue == 0 <==>
            forall c :: c in o.deposits ==> ExactUnhealthy(book)(c) < 100
  {
    DepositsClosedForm(o.deposits, book);
    SomeWeightSurvives(o.deposits, book);
  }

  /**
   A debt above the exact limit is flagged if and only if some deposit weighs at least one unit, that is
   market value times threshold is 100 or more.
   */
  lemma FlaggedExactly(o: Obligation, book: Book)
    requires RefreshOf(o, book).Success?
    requires 100 * RefreshOf(o, book).value.obligation.borrowedValue > ExactLimit(o, book)
    ensures Flagged(RefreshOf(o, book).value.obligation) <==>
            exists c :: c in o.deposits && ExactUnhealthy(book)(c) >= 100
  {
    LimitVanishes(o, book);
    DepositsClosedForm(o.deposits, book);
    UnhealthyWithinOnePerDeposit(o.deposits, book);
  }

  /** In particular nothing is flagged without deposits, whatever is owed. */
  lemma NoDepositsNeverFlagged(o: Obligation, book: Book)
    requires RefreshOf(o, book).Success? && o.deposits == []
    ensures RefreshOf(o, book).value.obligation.unhealthyBorrowValue == 0
    ensures !Flagged(RefreshOf(o, book).value.obligation)
  {
    hide RefreshOf;
    LimitVanishes(o, book);
  }

  /** The percentages of the reserves behind a list of deposits are ordered as the program requires. */
  ghost predicate OrderedConfigs(cs: seq<ObligationCollateral>, book: Book) {
    forall c :: c in cs && c.depositReserve in book.reserves ==>
      var config := book.reserves[c.depositReserve].config;
      config.loanToValueRatio <= config.liquidationThreshold <= 100
  }

  lemma PercentMonotone(value: nat, a: nat, b: nat)
    requires a <= b
    ensures value * a / 100 <= value * b / 100
  {
    ProductMonotone(a, b, value);
  }

  lemma {:induction false} LimitsOrdered(cs: seq<ObligationCollateral>, book: Book)
    requires DepositsPriced(cs, book) && OrderedConfigs(cs, book)
    ensures SumOf(cs, DepositAllowed(book)) <= SumOf(cs, DepositUnhealthy(book)) <= SumOf(cs, DepositWorth(book))
  {
    if cs != [] {
      var c := cs[|cs| - 1];
      LimitsOrdered(cs[..|cs| - 1], book);
      PricedWeights(c, book);
      var p, config := PriceDeposit(c, book).value, book.reserves[c.depositReserve].config;
      PercentMonotone(p.marketValue, config.loanToValueRatio, config.liquidationThreshold);
      PercentMonotone(p.marketValue, config.liquidationThreshold, 100);
    }
  }

  /** allowed <= unhealthy <= deposited, for every obligation over well-configured reserves. */
  lemma TotalsOrdered(o: Obligation, book: Book)
    requires RefreshOf(o, book).Success? && OrderedConfigs(o.deposits, book)
    ensures var r := RefreshOf(o, book).value.obligation;
            r.allowedBorrowValue <= r.unhealthyBorrowValue <= r.depositedValue
  {
    DepositsClosedForm(o.deposits, book);
    LimitsOrdered(o.deposits, book);
  }

  /** A quotient of at least w: a * w / b is w or more once a is b or more. */
  lemma QuotientAtLeast(a: nat, b: nat, w: nat)
    requires 0 < b <= a
    ensures w <= a * w / b
  {
    ProductMonotone(b, a, w);
    var q := a * w / b;
    if q + 1 <= w {
      ProductMonotone(q + 1, w, b);
    }
  }

  /** Accruing interest never lowers a debt and leaves the position at the reserve's rate. */
  lemma InterestNeverLowersDebt(b: ObligationLiquidity, rate: Decimal)
    requires AccrueInterest(b, rate).Success?
    ensures var a := AccrueInterest(b, rate).value;
            && a.cumulativeBorrowRateWads == rate
            && a.borrowReserve == b.borrowReserve
            && a.borrowedAmountWads >= b.borrowedAmountWads
  {
    if rate > b.cumulativeBorrowRateWads {
      QuotientAtLeast(rate, b.cumulativeBorrowRateWads, WAD);
      var ratio := TryDiv(rate, b.cumulativeBorrowRateWads).value;
      QuotientAtLeast(ratio, WAD, b.borrowedAmountWads);
      assert ratio * b.borrowedAmountWads == b.borrowedAmountWads * ratio;
    }
  }
}
