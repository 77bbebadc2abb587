/** Sums of natural contributions over a sequence, and what reordering does to them. */
module Sums {

  ghost function SumOf<T>(xs: seq<T>, f: T -> nat): nat {
    if xs == [] then 0 else SumOf(xs[..|xs| - 1], f) + f(xs[|xs| - 1])
  }

  /** A sequence without its k-th element. */
  ghost function Without<T>(xs: seq<T>, k: nat): seq<T>
    requires k < |xs|
  {
    xs[..k] + xs[k + 1..]
  }

  /** The sum with the element at index k taken out. */
  lemma {:induction false} SumWithout<T>(xs: seq<T>, k: nat, f: T -> nat)
    requires k < |xs|
    ensures SumOf(xs, f) == SumOf(Without(xs, k), f) + f(xs[k])
  {
    var front := xs[..|xs| - 1];
    var rest := Without(xs, k);
    if k == |front| {
      assert rest == front;
    } else {
      SumWithout(front, k, f);
      assert rest[..|rest| - 1] == Without(front, k);
      assert rest[|rest| - 1] == xs[|xs| - 1];
    }
  }

  lemma MultisetWithout<T>(xs: seq<T>, k: nat)
    requires k < |xs|
    ensures multiset(xs) == multiset(Without(xs, k)) + multiset{xs[k]}
  {
    assert xs == xs[..k] + [xs[k]] + xs[k + 1..];
  }

  /** A sum does not depend on the order of its terms. */
  lemma {:induction false} SumPermuted<T>(xs: seq<T>, ys: seq<T>, f: T -> nat)
    requires multiset(xs) == multiset(ys)
    ensures SumOf(xs, f) == SumOf(ys, f)
    decreases |xs|
  {
    if xs == [] {
      assert |multiset(ys)| == 0;
    } else {
      var j := |xs| - 1;
      MultisetWithout(xs, j);
      assert xs[j] in multiset(ys);
      var k :| 0 <= k < |ys| && ys[k] == xs[j];
      MultisetWithout(ys, k);
      assert multiset(Without(xs, j)) == multiset(Without(ys, k)) by {
        assert multiset(Without(xs, j)) == multiset(xs) - multiset{xs[j]};
        assert multiset(Without(ys, k)) == multiset(ys) - multiset{xs[j]};
      }
      SumPermuted(Without(xs, j), Without(ys, k), f);
      SumWithout(xs, j, f);
      SumWithout(ys, k, f);
    }
  }

  /** A positive sum has a positive term. */
  lemma {:induction false} PositiveTerm<T>(xs: seq<T>, f: T -> nat) returns (k: nat)
    requires 0 < SumOf(xs, f)
    ensures k < |xs| && 0 < f(xs[k])
  {
    k := |xs| - 1;
    if f(xs[k]) == 0 {
      k := PositiveTerm(xs[..k], f);
    }
  }
}
