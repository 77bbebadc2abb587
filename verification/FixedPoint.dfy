/**
 Checked fixed-point arithmetic of the lending program: a Decimal is a 192-bit and a Rate a 128-bit
 unsigned count of 1e-18 units. Every operation truncates towards zero and reports overflow, and a
 division by zero, as MathOverflow.
 */
module FixedPoint {
  import opened Arithmetic
  import opened Wrappers

  const WAD: nat := 1_000_000_000_000_000_000
  const PERCENT_SCALER: nat := 10_000_000_000_000_000
  const U64_LIMIT: nat := 0x1_0000_0000_0000_0000
  const U128_LIMIT: nat := 0x1_0000_0000_0000_0000_0000_0000_0000_0000
  const U192_LIMIT: nat := 0x1_0000_0000_0000_0000_0000_0000_0000_0000_0000_0000_0000_0000

  type u8 = n: nat | n < 256
  type u64 = n: nat | n < U64_LIMIT
  type Decimal = n: nat | n < U192_LIMIT
  type Rate = n: nat | n < U128_LIMIT

  datatype LendingError =
    | InvalidAccountInput
    | MathOverflow
    | NegativeInterestRate
    | InstructionUnpackError

  function FromU64(n: u64): Decimal {
    n * WAD
  }

  function FromPercent(percent: u8): Rate {
    percent * PERCENT_SCALER
  }

  function RateFromDecimal(d: Decimal): Result<Rate, LendingError> {
    if d < U128_LIMIT then Success(d) else Failure(MathOverflow)
  }

  function TryAdd(a: Decimal, b: Decimal): Result<Decimal, LendingError> {
    if a + b < U192_LIMIT then Success(a + b) else Failure(MathOverflow)
  }

  function TrySub(a: Decimal, b: Decimal): Result<Decimal, LendingError> {
    if b <= a then Success(a - b) else Failure(MathOverflow)
  }

  /** A product of two scaled values; the second factor may be a Decimal or a Rate. */
  function TryMul(a: Decimal, b: Decimal): Result<Decimal, LendingError> {
    if a * b < U192_LIMIT then Success(a * b / WAD)
    else Failure(MathOverflow)
  }

  /** A quotient of two scaled values; the divisor may be a Decimal or a Rate. */
  function TryDiv(a: Decimal, b: Decimal): Result<Decimal, LendingError> {
    if a * WAD < U192_LIMIT && b != 0 then Success(a * WAD / b)
    else Failure(MathOverflow)
  }

  function TryDivU64(a: Decimal, b: u64): Result<Decimal, LendingError> {
    if b != 0 then Success(a / b)
    else Failure(MathOverflow)
  }

  /** 10u64.checked_pow(k). */
  function CheckedPow10(k: u8): Result<u64, LendingError> {
    if Pow10(k) < U64_LIMIT then Success(Pow10(k)) else Failure(MathOverflow)
  }

  /** A percentage of a value is taken exactly, then truncated once. */
  lemma PercentOf(value: Decimal, percent: u8)
    ensures TryMul(value, FromPercent(percent)).Success? <==> value * percent * PERCENT_SCALER < U192_LIMIT
    ensures TryMul(value, FromPercent(percent)).Success? ==>
              TryMul(value, FromPercent(percent)).value == value * percent / 100
  {
    var x := value * percent;
    assert value * FromPercent(percent) == x * PERCENT_SCALER;
    assert x * PERCENT_SCALER / WAD == x / 100;
  }
}
