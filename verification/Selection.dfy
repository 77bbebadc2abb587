/**
 The liquidator's decision about one obligation: refresh, health test, and the choice of the most
 valuable deposit and borrow through a stable sort by market value.
 */
module Selection {
  import opened Wrappers
  import opened Lending
  import opened Refresh
  import opened RefreshFacts
  import opened Sums

  // ---------------------------------------------------------------- stable sorting

  ghost predicate Ascending<T>(xs: seq<T>, key: T -> nat) {
    forall i, j :: 0 <= i < j < |xs| ==> key(xs[i]) <= key(xs[j])
  }

  /** The elements with a given key, in order. */
  ghost function WithKey<T>(xs: seq<T>, key: T -> nat, k: nat): seq<T> {
    if xs == [] then []
    else WithKey(xs[..|xs| - 1], key, k) + (if key(xs[|xs| - 1]) == k then [xs[|xs| - 1]] else [])
  }

  /** ys is xs in ascending order, elements with equal keys keeping their order. */
  ghost predicate StablySorted<T>(xs: seq<T>, ys: seq<T>, key: T -> nat) {
    Ascending(ys, key) && forall k: nat :: WithKey(xs, key, k) == WithKey(ys, key, k)
  }

  /** Insert after every element with a key that is not larger. */
  function InsertStably<T>(xs: seq<T>, x: T, key: T -> nat): seq<T> {
    if xs != [] && key(x) < key(xs[|xs| - 1]) then InsertStably(xs[..|xs| - 1], x, key) + [xs[|xs| - 1]]
    else xs + [x]
  }

  /** A stable ascending sort, as slice::sort_by. */
  function SortStably<T>(xs: seq<T>, key: T -> nat): seq<T> {
    if xs == [] then [] else InsertStably(SortStably(xs[..|xs| - 1], key), xs[|xs| - 1], key)
  }

  lemma WithKeySnoc<T>(xs: seq<T>, x: T, key: T -> nat, k: nat)
    ensures WithKey(xs + [x], key, k) == WithKey(xs, key, k) + (if key(x) == k then [x] else [])
  {
    assert (xs + [x])[..|xs|] == xs;
  }

  lemma {:induction false} InsertAscends<T>(xs: seq<T>, x: T, key: T -> nat)
    requires Ascending(xs, key)
    ensures Ascending(InsertStably(xs, x, key), key)
    ensures forall y :: y in InsertStably(xs, x, key) ==> y in xs || y == x
  {
    if xs != [] && key(x) < key(xs[|xs| - 1]) {
      var front, last := xs[..|xs| - 1], xs[|xs| - 1];
      InsertAscends(front, x, key);
      forall y | y in InsertStably(front, x, key)
        ensures key(y) <= key(last)
      {
      }
    }
  }

  lemma {:induction false} InsertKeepsOrder<T>(xs: seq<T>, x: T, key: T -> nat, k: nat)
    ensures WithKey(InsertStably(xs, x, key), key, k) == WithKey(xs + [x], key, k)
  {
    if xs != [] && key(x) < key(xs[|xs| - 1]) {
      var front, last := xs[..|xs| - 1], xs[|xs| - 1];
      InsertKeepsOrder(front, x, key, k);
      WithKeySnoc(InsertStably(front, x, key), last, key, k);
      WithKeySnoc(front, x, key, k);
      WithKeySnoc(xs, x, key, k);
    }
  }

  lemma {:induction false} SortStablyCorrect<T>(xs: seq<T>, key: T -> nat)
    ensures StablySorted(xs, SortStably(xs, key), key)
  {
    if xs != [] {
      var front, last := xs[..|xs| - 1], xs[|xs| - 1];
      SortStablyCorrect(front, key);
      InsertAscends(SortStably(front, key), last, key);
      forall k: nat
        ensures WithKey(xs, key, k) == WithKey(SortStably(xs, key), key, k)
      {
        InsertKeepsOrder(SortStably(front, key), last, key, k);
        WithKeySnoc(SortStably(front, key), last, key, k);
      }
    }
  }

  lemma {:induction false} WithKeyMembers<T>(xs: seq<T>, key: T -> nat, k: nat)
    ensures forall x :: x in WithKey(xs, key, k) <==> x in xs && key(x) == k
  {
    if xs != [] {
      var front := xs[..|xs| - 1];
      WithKeyMembers(front, key, k);
      assert xs == front + [xs[|xs| - 1]];
    }
  }

  /** The last position among those with the largest key. */
  ghost predicate LastMaximum<T>(xs: seq<T>, key: T -> nat, i: nat) {
    && i < |xs|
    && (forall j :: 0 <= j < |xs| ==> key(xs[j]) <= key(xs[i]))
    && (forall j :: i < j < |xs| ==> key(xs[j]) < key(xs[i]))
  }

  lemma {:induction false} LastMaximumEndsItsKey<T>(xs: seq<T>, key: T -> nat, i: nat)
    requires LastMaximum(xs, key, i)
    ensures WithKey(xs, key, key(xs[i])) != []
    ensures var same := WithKey(xs, key, key(xs[i])); same[|same| - 1] == xs[i]
  {
    if i < |xs| - 1 {
      LastMaximumEndsItsKey(xs[..|xs| - 1], key, i);
    }
  }

  lemma {:induction false} LastMaximumExists<T>(xs: seq<T>, key: T -> nat) returns (i: nat)
    requires xs != []
    ensures LastMaximum(xs, key, i)
  {
    var n := |xs| - 1;
    if n == 0 {
      i := 0;
    } else {
      i := LastMaximumExists(xs[..n], key);
      assert forall j :: 0 <= j < n ==> xs[..n][j] == xs[j];
      if key(xs[i]) <= key(xs[n]) {
        i := n;
      }
    }
  }

  /** Whatever stable sort is used, its last element is the last maximum of the original list. */
  lemma LastOfStableSort<T>(xs: seq<T>, ys: seq<T>, key: T -> nat) returns (i: nat)
    requires xs != [] && StablySorted(xs, ys, key)
    ensures LastMaximum(xs, key, i) && ys != [] && ys[|ys| - 1] == xs[i]
  {
    i := LastMaximumExists(xs, key);
    var k := key(xs[i]);
    LastMaximumEndsItsKey(xs, key, i);
    WithKeyMembers(xs, key, k);
    WithKeyMembers(ys, key, k);
    assert xs[i] in WithKey(ys, key, k);
    var top := |ys| - 1;
    WithKeyMembers(xs, key, key(ys[top]));
    WithKeyMembers(ys, key, key(ys[top]));
    assert ys[top] in WithKey(xs, key, key(ys[top]));
    assert LastMaximum(ys, key, top);
    LastMaximumEndsItsKey(ys, key, top);
  }

  // ---------------------------------------------------------------- the decision

  datatype Selected = Selected(deposit: Deposit, borrow: Borrow)

  /** The decision about one obligation: nothing to do, or the positions to liquidate. */
  function DecisionOf(o: Obligation, book: Book): Option<Selected> {
    var r := RefreshOf(o, book);
    if r.Failure? || !Flagged(r.value.obligation) then None
    else
      var deposits := SortStably(r.value.deposits, DepositValueOf());
      var borrows := SortStably(r.value.borrows, BorrowValueOf());
      if deposits == [] || borrows == [] then None
      else Some(Selected(deposits[|deposits| - 1], borrows[|borrows| - 1]))
  }

  /** The body of a decision task. */
  method Decide(o: Obligation, book: Book) returns (selected: Option<Selected>)
    ensures selected == DecisionOf(o, book)
  {
    var r := RefreshObligation(o, book);
    if r.Failure? {
      return None;
    }
    var refreshed, deposits, borrows := r.value.obligation, r.value.deposits, r.value.borrows;
    var borrowedValue, unhealthyBorrowValue := refreshed.borrowedValue, refreshed.unhealthyBorrowValue;
    if borrowedValue == 0 || unhealthyBorrowValue == 0 || borrowedValue <= unhealthyBorrowValue {
      return None;
    }
    deposits := SortStably(deposits, DepositValueOf());
    borrows := SortStably(borrows, BorrowValueOf());
    if |deposits| == 0 || |borrows| == 0 {
      return None;
    }
    selected := Some(Selected(deposits[|deposits| - 1], borrows[|borrows| - 1]));
  }

  lemma WeightNeedsWorth(c: ObligationCollateral, book: Book)
    requires DepositUnhealthy(book)(c) > 0
    ensures PriceDeposit(c, book).Success? && PriceDeposit(c, book).value.marketValue > 0
  {
    PricedWeights(c, book);
  }

  lemma MatchedValue(c: ObligationCollateral, position: ObligationCollateral, d: Deposit, book: Book)
    requires DepositMatches(c, position, d, book)
    ensures PriceDeposit(c, book).Success? && d.marketValue == PriceDeposit(c, book).value.marketValue
  {
  }

  /** A positive liquidation limit needs a deposit of positive value. */
  lemma LimitNeedsDeposit(cs: seq<ObligationCollateral>, book: Book) returns (d: nat)
    requires DepositsOf(cs, book).Success? && DepositsOf(cs, book).value.unhealthy > 0
    ensures var deposits := DepositsOf(cs, book).value.deposits;
            d < |deposits| && deposits[d].marketValue > 0
  {
    DepositsClosedForm(cs, book);
    DepositsMatch(cs, book);
    d := PositiveTerm(cs, DepositUnhealthy(book));
    WeightNeedsWorth(cs[d], book);
    var side := DepositsOf(cs, book).value;
    MatchedValue(cs[d], side.positions[d], side.deposits[d], book);
  }

  /** A flagged obligation has a deposit and a borrow of positive value. */
  lemma FlaggedHasValue(o: Obligation, book: Book) returns (d: nat, b: nat)
    requires RefreshOf(o, book).Success? && Flagged(RefreshOf(o, book).value.obligation)
    ensures var r := RefreshOf(o, book).value;
            && d < |r.deposits| && r.deposits[d].marketValue > 0
            && b < |r.borrows| && r.borrows[b].marketValue > 0
  {
    d := LimitNeedsDeposit(o.deposits, book);
    BorrowTotalsAreSums(o.borrows, book);
    b := PositiveTerm(RefreshOf(o, book).value.borrows, BorrowValueOf());
  }

  /**
   Selection after a refresh. A decision to liquidate is made exactly when the refresh succeeds and the
   health test flags the result: the two empty-list exits are never taken. The chosen deposit and borrow
   then have maximal, strictly positive value, and each is the last entry that attains the maximum.
   */
  lemma SelectionIsLastMaximum(o: Obligation, book: Book) returns (d: nat, b: nat)
    ensures var r := RefreshOf(o, book);
            DecisionOf(o, book).Some? <==> r.Success? && Flagged(r.value.obligation)
    ensures DecisionOf(o, book).Some? ==>
              var r, s := RefreshOf(o, book).value, DecisionOf(o, book).value;
              && LastMaximum(r.deposits, DepositValueOf(), d) && s.deposit == r.deposits[d]
              && LastMaximum(r.borrows, BorrowValueOf(), b) && s.borrow == r.borrows[b]
              && s.deposit.marketValue > 0 && s.borrow.marketValue > 0
  {
    d, b := 0, 0;
    var r := RefreshOf(o, book);
    if r.Success? && Flagged(r.value.obligation) {
      var d0, b0 := FlaggedHasValue(o, book);
      SortStablyCorrect(r.value.deposits, DepositValueOf());
      SortStablyCorrect(r.value.borrows, BorrowValueOf());
      d := LastOfStableSort(r.value.deposits, SortStably(r.value.deposits, DepositValueOf()), DepositValueOf());
      b := LastOfStableSort(r.value.borrows, SortStably(r.value.borrows, BorrowValueOf()), BorrowValueOf());
      assert DepositValueOf()(r.value.deposits[d0]) > 0 && BorrowValueOf()(r.value.borrows[b0]) > 0;
    }
  }
}
