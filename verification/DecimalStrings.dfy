/** Conversion between base-unit amounts and decimal strings by moving the point in a digit string. */
module DecimalStrings {
  import opened Arithmetic
  import opened Wrappers

  // ---------------------------------------------------------------- the conversions

  function Zeros(n: nat): (z: string)
    ensures |z| == n
  {
    seq(n, _ => '0')
  }

  /** JavaScript's slice on non-negative bounds: out-of-range bounds are clamped. */
  function Slice(s: string, from: nat, to: nat): string {
    var hi := if to < |s| then to else |s|;
    if from < hi then s[from..hi] else ""
  }

  function CountOf(s: string, c: char): nat {
    if s == "" then 0 else CountOf(s[..|s| - 1], c) + (if s[|s| - 1] == c then 1 else 0)
  }

  /** The first position of c, or the length of s when there is none. */
  function IndexOf(s: string, c: char): (i: nat)
    ensures i <= |s|
  {
    if s == "" then 0 else if s[0] == c then 0 else 1 + IndexOf(s[1..], c)
  }

  datatype ConversionError = InvalidDecimal | TooManyPoints

  /** Decimal string to base units: drop the point, then pad or cut the fraction to the given length. */
  function ToBaseUnitDec(amount: string, decimals: int): Result<string, ConversionError> {
    if decimals < 0 then Failure(InvalidDecimal)
    else if CountOf(amount, '.') > 1 then Failure(TooManyPoints)
    else
      var decimalIndex := IndexOf(amount, '.');
      var precision := if decimalIndex == |amount| then 0 else |amount| - decimalIndex - 1;
      if precision == decimals then
        Success(Slice(amount, 0, decimalIndex) + Slice(amount, decimalIndex + 1, |amount|))
      else if precision < decimals then
        Success(Slice(amount, 0, decimalIndex) + Slice(amount, decimalIndex + 1, |amount|) + Zeros(decimals - precision))
      else
        Success(Slice(amount, 0, decimalIndex) + Slice(amount, decimalIndex + 1, decimalIndex + decimals + 1))
  }

  /** s without its trailing occurrences of c. */
  function Stripped(s: string, c: char): string {
    if s != "" && s[|s| - 1] == c then Stripped(s[..|s| - 1], c) else s
  }

  method StripEnd(s: string, c: char) returns (r: string)
    ensures r == Stripped(s, c)
  {
    var i := |s| - 1;
    assert s[..i + 1] == s;
    while i >= 0
      invariant -1 <= i < |s|
      invariant Stripped(s[..i + 1], c) == Stripped(s, c)
    {
      if s[i] != c {
        break;
      }
      assert s[..i + 1][..i] == s[..i];
      i := i - 1;
    }
    r := s[..i + 1];
  }

  /** The integer digits of an amount with the given number of decimals; a lone 0 when there are none left. */
  function IntegerPart(amount: string, decimals: nat): string {
    if decimals > |amount| then "0" else amount[..|amount| - decimals]
  }

  /** The fraction digits, padded with zeros on the left to full length. */
  function FractionPart(amount: string, decimals: nat): (f: string)
    ensures |f| == decimals
  {
    if decimals > |amount| then Zeros(decimals - |amount|) + amount else amount[|amount| - decimals..]
  }

  function HumanDec(amount: string, decimals: nat): string {
    Stripped(Stripped(IntegerPart(amount, decimals) + "." + FractionPart(amount, decimals), '0'), '.')
  }

  /** Base units to decimal string, built from the right. */
  method ToHumanDec(amount: string, decimals: nat) returns (r: string)
    ensures r == HumanDec(amount, decimals)
  {
    var amountStr := amount[|amount| - (if decimals < |amount| then decimals else |amount|)..];
    if decimals > |amount| {
      for i := 0 to decimals - |amount|
        invariant amountStr == Zeros(i) + amount
      {
        amountStr := "0" + amountStr;
      }
      amountStr := "0." + amountStr;
      assert amountStr == IntegerPart(amount, decimals) + "." + FractionPart(amount, decimals);
    } else {
      amountStr := "." + amountStr;
      var i := |amount| - decimals - 1;
      while i >= 0
        invariant -1 <= i < |amount| - decimals || i == -1
        invariant amountStr == amount[i + 1..|amount| - decimals] + "." + FractionPart(amount, decimals)
      {
        amountStr := [amount[i]] + amountStr;
        i := i - 1;
      }
      assert amountStr == IntegerPart(amount, decimals) + "." + FractionPart(amount, decimals);
    }
    amountStr := StripEnd(amountStr, '0');
    amountStr := StripEnd(amountStr, '.');
    r := amountStr;
  }

  // ---------------------------------------------------------------- round trip

  predicate IsDigit(c: char) {
    '0' <= c <= '9'
  }

  predicate Digits(s: string) {
    forall i :: 0 <= i < |s| ==> IsDigit(s[i])
  }

  /** Stripping stops at the first other character from the right. */
  lemma {:induction false} StrippedSplit(s: string, c: char) returns (n: nat)
    ensures n <= |s| && Stripped(s, c) == s[..n]
    ensures forall i :: n <= i < |s| ==> s[i] == c
    ensures n > 0 ==> s[n - 1] != c
  {
    n := |s|;
    if s != "" && s[|s| - 1] == c {
      n := StrippedSplit(s[..|s| - 1], c);
      assert s[..|s| - 1][..n] == s[..n];
    }
  }

  lemma {:induction false} StrippedIs(s: string, c: char, n: nat)
    requires n <= |s| && (forall i :: n <= i < |s| ==> s[i] == c) && (n > 0 ==> s[n - 1] != c)
    ensures Stripped(s, c) == s[..n]
  {
    if n < |s| {
      StrippedIs(s[..|s| - 1], c, n);
      assert s[..|s| - 1][..n] == s[..n];
    } else {
      assert s[..n] == s;
    }
  }

  lemma {:induction false} NoneCounted(s: string, c: char)
    requires forall i :: 0 <= i < |s| ==> s[i] != c
    ensures CountOf(s, c) == 0
  {
    if s != "" {
      NoneCounted(s[..|s| - 1], c);
    }
  }

  lemma {:induction false} CountSplit(s: string, t: string, c: char)
    ensures CountOf(s + t, c) == CountOf(s, c) + CountOf(t, c)
  {
    if t == "" {
      assert s + t == s;
    } else {
      CountSplit(s, t[..|t| - 1], c);
      assert (s + t)[..|s + t| - 1] == s + t[..|t| - 1];
    }
  }

  lemma {:induction false} IndexPast(s: string, t: string, c: char)
    requires forall i :: 0 <= i < |s| ==> s[i] != c
    ensures IndexOf(s + t, c) == |s| + IndexOf(t, c)
  {
    if s == "" {
      assert s + t == t;
    } else {
      IndexPast(s[1..], t, c);
      assert (s + t)[1..] == s[1..] + t;
    }
  }

  /** A number without a point counts as one with an empty fraction. */
  function WithPoint(whole: string, fraction: string, pointed: bool): string {
    if pointed then whole + "." + fraction else whole
  }

  /** The base units of whole.fraction: the digits, padded or cut to the given number of decimals. */
  function BaseDigits(whole: string, fraction: string, decimals: nat): string {
    if |fraction| <= decimals then whole + fraction + Zeros(decimals - |fraction|) else whole + fraction[..decimals]
  }

  /** Where the point is, and what is on either side of it. */
  lemma PointedShape(whole: string, fraction: string)
    requires Digits(whole) && Digits(fraction)
    ensures var s := WithPoint(whole, fraction, true);
            && CountOf(s, '.') == 1 && IndexOf(s, '.') == |whole| && |s| == |whole| + 1 + |fraction|
            && Slice(s, 0, |whole|) == whole
            && Slice(s, |whole| + 1, |s|) == fraction
            && forall d: nat :: d < |fraction| ==> Slice(s, |whole| + 1, |whole| + d + 1) == fraction[..d]
  {
    var s := WithPoint(whole, fraction, true);
    var tail := "." + fraction;
    assert s == whole + tail;
    hide CountOf, IndexOf;
    NoneCounted(whole, '.');
    NoneCounted(fraction, '.');
    CountSplit(whole, tail, '.');
    CountSplit(".", fraction, '.');
    LonePoint(fraction);
    IndexPast(whole, tail, '.');
  }

  lemma LonePoint(fraction: string)
    ensures CountOf(".", '.') == 1 && IndexOf("." + fraction, '.') == 0
  {
  }

  lemma UnpointedShape(whole: string)
    requires Digits(whole)
    ensures CountOf(whole, '.') == 0 && IndexOf(whole, '.') == |whole|
    ensures Slice(whole, 0, |whole|) == whole && Slice(whole, |whole| + 1, |whole|) == ""
  {
    NoneCounted(whole, '.');
    IndexPast(whole, "", '.');
    assert whole + "" == whole;
  }

  /** The conversion sees a well-formed decimal string as its whole and fraction digits. */
  lemma ToBaseUnitReads(whole: string, fraction: string, pointed: bool, decimals: nat)
    requires Digits(whole) && Digits(fraction) && (!pointed ==> fraction == "")
    ensures ToBaseUnitDec(WithPoint(whole, fraction, pointed), decimals) == Success(BaseDigits(whole, fraction, decimals))
  {
    assert whole + fraction + Zeros(0) == whole + fraction;
    if pointed {
      PointedShape(whole, fraction);
    } else {
      UnpointedShape(whole);
      assert whole + "" == whole;
    }
    hide CountOf, IndexOf, Slice, Digits;
  }

  /** Stripping zeros, then the point, from whole.fraction. */
  lemma StrippedDecimal(whole: string, fraction: string, n: nat)
    requires Digits(whole) && n <= |fraction|
    requires (forall i :: n <= i < |fraction| ==> fraction[i] == '0') && (n > 0 ==> IsDigit(fraction[n - 1]) && fraction[n - 1] != '0')
    ensures Stripped(Stripped(whole + "." + fraction, '0'), '.') == WithPoint(whole, fraction[..n], n > 0)
  {
    var s := whole + "." + fraction;
    var cut := |whole| + 1 + n;
    assert forall i :: cut <= i < |s| ==> s[i] == fraction[i - |whole| - 1];
    assert n > 0 ==> s[cut - 1] == fraction[n - 1];
    StrippedIs(s, '0', cut);
    var t := whole + "." + fraction[..n];
    assert s[..cut] == t;
    hide Stripped;
    if n > 0 {
      assert t[cut - 1] == fraction[n - 1];
      StrippedIs(t, '.', cut);
    } else {
      StrippedIs(t, '.', |whole|);
      assert t[..|whole|] == whole;
    }
  }

  /** What a human string looks like: trailing zeros of the fraction are gone, and the point with the last of them. */
  lemma HumanDecIs(amount: string, decimals: nat) returns (n: nat)
    requires Digits(amount)
    ensures var whole, fraction := IntegerPart(amount, decimals), FractionPart(amount, decimals);
            && Digits(whole) && Digits(fraction)
            && n <= decimals
            && fraction == fraction[..n] + Zeros(decimals - n)
            && HumanDec(amount, decimals) == WithPoint(whole, fraction[..n], n > 0)
            && (n > 0 ==> fraction[n - 1] != '0')
  {
    var whole, fraction := IntegerPart(amount, decimals), FractionPart(amount, decimals);
    assert Digits(whole) && Digits(fraction);
    hide Stripped, WithPoint, IntegerPart, FractionPart;
    n := StrippedSplit(fraction, '0');
    StrippedDecimal(whole, fraction, n);
  }

  /**
   Round trip. Converting any digit string to a human decimal and back gives the digit string, behind a 0
   and the padding zeros when it is shorter than the number of decimals.
   */
  lemma HumanRoundTrip(amount: string, decimals: nat)
    requires Digits(amount)
    ensures ToBaseUnitDec(HumanDec(amount, decimals), decimals) ==
            Success(if |amount| < decimals then "0" + Zeros(decimals - |amount|) + amount else amount)
  {
    var n := HumanDecIs(amount, decimals);
    var whole, fraction := IntegerPart(amount, decimals), FractionPart(amount, decimals);
    ToBaseUnitReads(whole, fraction[..n], n > 0, decimals);
    hide ToBaseUnitDec, HumanDec, Digits, BaseDigits, IntegerPart, FractionPart;
    BaseOfCut(whole, fraction, n, decimals);
    JoinedParts(amount, decimals);
  }

  lemma BaseOfCut(whole: string, fraction: string, n: nat, decimals: nat)
    requires n <= decimals && n <= |fraction| && fraction == fraction[..n] + Zeros(decimals - n)
    ensures BaseDigits(whole, fraction[..n], decimals) == whole + fraction
  {
    assert whole + fraction[..n] + Zeros(decimals - n) == whole + (fraction[..n] + Zeros(decimals - n));
  }

  lemma JoinedParts(amount: string, decimals: nat)
    ensures IntegerPart(amount, decimals) + FractionPart(amount, decimals) ==
            if |amount| < decimals then "0" + Zeros(decimals - |amount|) + amount else amount
  {
  }

  // ---------------------------------------------------------------- meaning

  /** The number a digit string denotes. */
  function NatOf(s: string): nat
    requires Digits(s)
  {
    if s == "" then 0 else 10 * NatOf(s[..|s| - 1]) + (s[|s| - 1] as nat - '0' as nat)
  }

  lemma NatOfZero(s: string)
    requires Digits(s)
    ensures Digits(s + "0") && NatOf(s + "0") == 10 * NatOf(s)
  {
    assert (s + "0")[..|s|] == s;
  }

  lemma {:induction false} NatOfPadded(s: string, n: nat)
    requires Digits(s)
    ensures Digits(s + Zeros(n)) && NatOf(s + Zeros(n)) == NatOf(s) * Pow10(n)
  {
    hide NatOf, Digits;
    if n == 0 {
      assert s + Zeros(0) == s;
    } else {
      NatOfPadded(s, n - 1);
      NatOfZero(s + Zeros(n - 1));
      assert s + Zeros(n) == s + Zeros(n - 1) + "0";
      assert 10 * (NatOf(s) * Pow10(n - 1)) == NatOf(s) * (10 * Pow10(n - 1));
    }
  }

  /** Cutting n digits off the right divides by 10^n, rounding down. */
  lemma {:induction false} NatOfCut(s: string, n: nat)
    requires Digits(s) && n <= |s|
    ensures NatOf(s[..|s| - n]) == NatOf(s) / Pow10(n)
  {
    if n == 0 {
      assert s[..|s|] == s;
    } else {
      NatOfCut(s, n - 1);
      var front := s[..|s| - (n - 1)];
      assert front[..|front| - 1] == s[..|s| - n];
      assert NatOf(s[..|s| - n]) == NatOf(front) / 10;
      DivTwice(NatOf(s), Pow10(n - 1), 10);
      assert Pow10(n - 1) * 10 == Pow10(n);
    }
  }

  /** A scaled quotient by a power of ten: either the scale wins and it is exact, or the divisor does. */
  lemma ScaledQuotient(x: nat, f: nat, d: nat)
    ensures f <= d ==> x * Pow10(d) / Pow10(f) == x * Pow10(d - f)
    ensures f > d ==> x * Pow10(d) / Pow10(f) == x / Pow10(f - d)
  {
    if f <= d {
      PowSum(d - f, f);
      assert x * Pow10(d) == (x * Pow10(d - f)) * Pow10(f) + 0;
      DivisionIs(x * Pow10(d), Pow10(f), x * Pow10(d - f), 0);
    } else {
      PowSum(d, f - d);
      DivTwice(x * Pow10(d), Pow10(d), Pow10(f - d));
      DivisionIs(x * Pow10(d), Pow10(d), x, 0);
    }
  }

  lemma BaseDigitsAreDigits(whole: string, fraction: string, decimals: nat)
    requires Digits(whole) && Digits(fraction)
    ensures Digits(whole + fraction) && Digits(BaseDigits(whole, fraction, decimals))
  {
  }

  lemma BaseDigitsValue(whole: string, fraction: string, decimals: nat)
    requires Digits(whole + fraction) && Digits(BaseDigits(whole, fraction, decimals))
    ensures NatOf(BaseDigits(whole, fraction, decimals)) == NatOf(whole + fraction) * Pow10(decimals) / Pow10(|fraction|)
  {
    hide Digits, NatOf, Pow10;
    var digits := whole + fraction;
    ScaledQuotient(NatOf(digits), |fraction|, decimals);
    if |fraction| <= decimals {
      NatOfPadded(digits, decimals - |fraction|);
    } else {
      NatOfCut(digits, |fraction| - decimals);
      assert digits[..|digits| - (|fraction| - decimals)] == whole + fraction[..decimals];
    }
  }

  /**
   Meaning. For every well-formed unsigned decimal string, the conversion to base units denotes the floor
   of its value times 10^decimals; the value of whole.fraction is its digits over 10^|fraction|.
   */
  lemma ToBaseUnitFloors(whole: string, fraction: string, pointed: bool, decimals: nat)
    requires Digits(whole) && Digits(fraction) && (!pointed ==> fraction == "")
    ensures Digits(whole + fraction)
    ensures var units := ToBaseUnitDec(WithPoint(whole, fraction, pointed), decimals);
            && units.Success? && Digits(units.value)
            && NatOf(units.value) == NatOf(whole + fraction) * Pow10(decimals) / Pow10(|fraction|)
  {
    hide ToBaseUnitDec, BaseDigits, Digits, NatOf, Pow10, WithPoint;
    BaseDigitsAreDigits(whole, fraction, decimals);
    ToBaseUnitReads(whole, fraction, pointed, decimals);
    BaseDigitsValue(whole, fraction, decimals);
  }

  /** The conversion fails exactly for a negative number of decimals or more than one point. */
  lemma ToBaseUnitFails(amount: string, decimals: int)
    ensures ToBaseUnitDec(amount, decimals).Failure? <==>
            decimals < 0 || exists i, j :: 0 <= i < j < |amount| && amount[i] == '.' && amount[j] == '.'
  {
    TwoCounted(amount, '.');
  }

  lemma {:induction false} TwoCounted(s: string, c: char)
    ensures CountOf(s, c) > 0 <==> exists i :: 0 <= i < |s| && s[i] == c
    ensures CountOf(s, c) > 1 <==> exists i, j :: 0 <= i < j < |s| && s[i] == c && s[j] == c
  {
    if s != "" {
      var front, last := s[..|s| - 1], |s| - 1;
      TwoCounted(front, c);
      assert forall i :: 0 <= i < last ==> front[i] == s[i];
      if CountOf(front, c) > 0 {
        var i :| 0 <= i < |front| && front[i] == c;
        assert s[i] == c;
      }
      if CountOf(front, c) > 1 {
        var i, j :| 0 <= i < j < |front| && front[i] == c && front[j] == c;
        assert s[i] == c && s[j] == c;
      }
      if i, j :| 0 <= i < j < |s| && s[i] == c && s[j] == c {
        assert front[i] == c;
        assert j < last ==> front[j] == c;
      }
    }
  }
}
