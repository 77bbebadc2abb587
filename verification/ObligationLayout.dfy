/**
 The 1300-byte obligation account. Three programs share it: the lending program packs it, the Rust
 liquidator unpacks it, and the TypeScript client parses it with its own layouts. Encodes is the format
 both readers are compared with; it leaves every padding byte open, as the packer does.
 */
module ObligationLayout {
  import opened Wrappers
  import opened FixedPoint
  import opened Lending
  import opened Bytes
  import opened Arithmetic
  import Layout

  const OBLIGATION_LEN := 1300
  // each position's length, and how much of it precedes the padding
  const COLLATERAL_LEN := 88
  const LIQUIDITY_LEN := 112
  const COLLATERAL_DATA := 56
  const LIQUIDITY_DATA := 80
  const FLAT_LEN := 1096
  const FLAT_OFFSET := 204
  const PROGRAM_VERSION: byte := 1

  /** An account: the fields Lending.Obligation leaves out, and the obligation. */
  datatype Account = Account(version: byte, slot: u64, stale: byte, info: Obligation)

  // ---------------------------------------------------------------- the format

  predicate Holds(b: seq<byte>, offset: nat, bs: seq<byte>) {
    offset + |bs| <= |b| && b[offset..offset + |bs|] == bs
  }

  predicate HoldsDecimal(b: seq<byte>, offset: nat, d: Decimal) {
    d < U128_LIMIT && Holds(b, offset, ToLE(d, 16))
  }

  predicate HoldsCollateral(b: seq<byte>, offset: nat, c: ObligationCollateral) {
    && Holds(b, offset, c.depositReserve.bytes)
    && Holds(b, offset + 32, ToLE(c.depositedAmount, 8))
    && HoldsDecimal(b, offset + 40, c.marketValue)
  }

  predicate HoldsLiquidity(b: seq<byte>, offset: nat, l: ObligationLiquidity) {
    && Holds(b, offset, l.borrowReserve.bytes)
    && HoldsDecimal(b, offset + 32, l.cumulativeBorrowRateWads)
    && HoldsDecimal(b, offset + 48, l.borrowedAmountWads)
    && HoldsDecimal(b, offset + 64, l.marketValue)
  }

  /** The variable part splits where the deposits end. */
  predicate PositionsFit(deposits: nat, borrows: nat) {
    COLLATERAL_LEN * deposits + LIQUIDITY_LEN * borrows <= FLAT_LEN
  }

  predicate HoldsHeader(b: seq<byte>, a: Account) {
    && Holds(b, 0, [a.version])
    && Holds(b, 1, ToLE(a.slot, 8))
    && Holds(b, 9, [a.stale])
    && Holds(b, 10, a.info.lendingMarket.bytes)
    && Holds(b, 42, a.info.owner.bytes)
    && HoldsDecimal(b, 74, a.info.depositedValue)
    && HoldsDecimal(b, 90, a.info.borrowedValue)
    && HoldsDecimal(b, 106, a.info.allowedBorrowValue)
    && HoldsDecimal(b, 122, a.info.unhealthyBorrowValue)
  }

  predicate HoldsCounts(b: seq<byte>, deposits: nat, borrows: nat) {
    deposits < 256 && borrows < 256 && Holds(b, 202, [deposits as byte]) && Holds(b, 203, [borrows as byte])
  }

  predicate HoldsDeposits(b: seq<byte>, deposits: seq<ObligationCollateral>) {
    forall i :: 0 <= i < |deposits| ==> HoldsCollateral(b, FLAT_OFFSET + COLLATERAL_LEN * i, deposits[i])
  }

  predicate HoldsBorrows(b: seq<byte>, start: nat, borrows: seq<ObligationLiquidity>) {
    forall i :: 0 <= i < |borrows| ==> HoldsLiquidity(b, start + LIQUIDITY_LEN * i, borrows[i])
  }

  predicate Encodes(b: seq<byte>, a: Account) {
    && |b| == OBLIGATION_LEN
    && HoldsHeader(b, a)
    && HoldsCounts(b, |a.info.deposits|, |a.info.borrows|)
    && PositionsFit(|a.info.deposits|, |a.info.borrows|)
    && HoldsDeposits(b, a.info.deposits)
    && HoldsBorrows(b, FLAT_OFFSET + COLLATERAL_LEN * |a.info.deposits|, a.info.borrows)
  }

  // ---------------------------------------------------------------- the TypeScript parser

  datatype ParseError = RangeError

  /** Buffer.slice: both ends are cut to the buffer. */
  function Slice(b: seq<byte>, start: nat, end: nat): (s: seq<byte>)
    ensures |s| <= if start <= end then end - start else 0
  {
    var e := if end <= |b| then end else |b|;
    if start <= e then b[start..e] else []
  }

  /** A key made of at most 32 bytes: a shorter one is a smaller number, padded on the left. */
  function Key(bs: seq<byte>): Pubkey
    requires |bs| <= 32
  {
    Pubkey(seq(32 - |bs|, _ => 0 as byte) + bs)
  }

  lemma Pow256Monotone(j: nat, k: nat)
    requires j <= k
    ensures Pow256(j) <= Pow256(k)
    decreases k
  {
    if j < k {
      Pow256Monotone(j, k - 1);
    }
  }

  lemma DecodeBound(bs: seq<byte>, k: nat)
    requires |bs| <= k
    ensures Layout.Decode(bs) < Pow256(k)
  {
    Layout.DecodeIsLE(bs);
    FromLEBound(bs);
    Pow256Monotone(|bs|, k);
  }

  function U64At(b: seq<byte>, offset: nat): u64 {
    var bs := Slice(b, offset, offset + 8);
    assert Layout.Decode(bs) < U64_LIMIT by {
      DecodeBound(bs, 8);
      Pow256Of8();
    }
    Layout.Decode(bs)
  }

  function DecimalAt(b: seq<byte>, offset: nat): (d: Decimal)
    ensures d < U128_LIMIT
  {
    var bs := Slice(b, offset, offset + 16);
    assert Layout.Decode(bs) < U128_LIMIT by {
      DecodeBound(bs, 16);
      Pow256Of16();
    }
    Layout.Decode(bs)
  }

  function KeyAt(b: seq<byte>, offset: nat): Pubkey {
    Key(Slice(b, offset, offset + 32))
  }

  function CollateralAt(b: seq<byte>, offset: nat): ObligationCollateral {
    ObligationCollateral(KeyAt(b, offset), U64At(b, offset + 32), DecimalAt(b, offset + 40))
  }

  function LiquidityAt(b: seq<byte>, offset: nat): ObligationLiquidity {
    ObligationLiquidity(KeyAt(b, offset), DecimalAt(b, offset + 32), DecimalAt(b, offset + 48),
      DecimalAt(b, offset + 64))
  }

  /** The client's parser: an account that was never written has slot zero and is dropped. */
  function Parse(b: seq<byte>): Result<Option<Account>, ParseError> {
    if |b| < FLAT_OFFSET then
      Failure(RangeError)
    else if U64At(b, 1) == 0 then
      Success(None)
    else
      var depositsLen, borrowsLen := b[202] as nat, b[203] as nat;
      var dataFlat := Slice(b, FLAT_OFFSET, FLAT_OFFSET + FLAT_LEN);
      var depositsBuffer := Slice(dataFlat, 0, COLLATERAL_LEN * depositsLen);
      var borrowsBuffer :=
        Slice(dataFlat, |depositsBuffer|, COLLATERAL_LEN * depositsLen + LIQUIDITY_LEN * borrowsLen);
      var deposits := seq(depositsLen, i requires 0 <= i => CollateralAt(depositsBuffer, COLLATERAL_LEN * i));
      var borrows := seq(borrowsLen, i requires 0 <= i => LiquidityAt(borrowsBuffer, LIQUIDITY_LEN * i));
      Success(Some(Account(b[0], U64At(b, 1), b[9],
        Obligation(KeyAt(b, 10), KeyAt(b, 42), deposits, borrows,
          DecimalAt(b, 74), DecimalAt(b, 90), DecimalAt(b, 106), DecimalAt(b, 122)))))
  }

  // ---------------------------------------------------------------- reading a field is holding it

  lemma KeyHeld(b: seq<byte>, offset: nat, k: Pubkey)
    requires offset + 32 <= |b|
    ensures KeyAt(b, offset) == k <==> Holds(b, offset, k.bytes)
  {
    assert KeyAt(b, offset).bytes == b[offset..offset + 32];
  }

  lemma NumberHeld(b: seq<byte>, offset: nat, k: nat, n: nat)
    requires offset + k <= |b| && n < Pow256(k)
    ensures Layout.Decode(Slice(b, offset, offset + k)) == n <==> Holds(b, offset, ToLE(n, k))
  {
    hide Layout.Decode, Pow256, ToLE, FromLE;
    var bs := b[offset..offset + k];
    assert Slice(b, offset, offset + k) == bs;
    Layout.DecodeIsLE(bs);
    LERewrite(bs);
    Layout.DecodeEncoded(n, k);
    DivisionIs(n, Pow256(k), 0, n);
  }

  lemma U64Held(b: seq<byte>, offset: nat, n: u64)
    requires offset + 8 <= |b|
    ensures U64At(b, offset) == n <==> Holds(b, offset, ToLE(n, 8))
  {
    Pow256Of8();
    NumberHeld(b, offset, 8, n);
  }

  lemma DecimalHeld(b: seq<byte>, offset: nat, d: Decimal)
    requires offset + 16 <= |b|
    ensures DecimalAt(b, offset) == d <==> HoldsDecimal(b, offset, d)
  {
    if d < U128_LIMIT {
      Pow256Of16();
      NumberHeld(b, offset, 16, d);
    }
  }

  lemma CollateralHeld(b: seq<byte>, offset: nat, c: ObligationCollateral)
    requires offset + COLLATERAL_DATA <= |b|
    ensures CollateralAt(b, offset) == c <==> HoldsCollateral(b, offset, c)
  {
    hide KeyAt, U64At, DecimalAt, Holds, HoldsDecimal;
    KeyHeld(b, offset, c.depositReserve);
    U64Held(b, offset + 32, c.depositedAmount);
    DecimalHeld(b, offset + 40, c.marketValue);
  }

  lemma LiquidityHeld(b: seq<byte>, offset: nat, l: ObligationLiquidity)
    requires offset + LIQUIDITY_DATA <= |b|
    ensures LiquidityAt(b, offset) == l <==> HoldsLiquidity(b, offset, l)
  {
    hide KeyAt, U64At, DecimalAt, Holds, HoldsDecimal;
    KeyHeld(b, offset, l.borrowReserve);
    DecimalHeld(b, offset + 32, l.cumulativeBorrowRateWads);
    DecimalHeld(b, offset + 48, l.borrowedAmountWads);
    DecimalHeld(b, offset + 64, l.marketValue);
  }

  /** What the fixed fields of a full account read as. */
  function HeaderAt(b: seq<byte>, deposits: seq<ObligationCollateral>, borrows: seq<ObligationLiquidity>): Account
    requires |b| == OBLIGATION_LEN
  {
    Account(b[0], U64At(b, 1), b[9],
      Obligation(KeyAt(b, 10), KeyAt(b, 42), deposits, borrows,
        DecimalAt(b, 74), DecimalAt(b, 90), DecimalAt(b, 106), DecimalAt(b, 122)))
  }

  lemma ByteHeld(b: seq<byte>, offset: nat, x: byte)
    requires offset < |b|
    ensures b[offset] == x <==> Holds(b, offset, [x])
  {
    assert b[offset..offset + 1] == [b[offset]];
  }

  lemma HeaderHeld(b: seq<byte>, a: Account)
    requires |b| == OBLIGATION_LEN
    ensures HeaderAt(b, a.info.deposits, a.info.borrows) == a <==> HoldsHeader(b, a)
  {
    hide KeyAt, U64At, DecimalAt, Holds, HoldsDecimal;
    ByteHeld(b, 0, a.version);
    U64Held(b, 1, a.slot);
    ByteHeld(b, 9, a.stale);
    KeyHeld(b, 10, a.info.lendingMarket);
    KeyHeld(b, 42, a.info.owner);
    DecimalHeld(b, 74, a.info.depositedValue);
    DecimalHeld(b, 90, a.info.borrowedValue);
    DecimalHeld(b, 106, a.info.allowedBorrowValue);
    DecimalHeld(b, 122, a.info.unhealthyBorrowValue);
  }

  // ---------------------------------------------------------------- positions

  /** Positions read from the account itself rather than from slices of slices of it. */
  function DepositsAt(b: seq<byte>, n: nat): (s: seq<ObligationCollateral>)
    ensures |s| == n
  {
    seq(n, i requires 0 <= i => CollateralAt(b, FLAT_OFFSET + COLLATERAL_LEN * i))
  }

  function BorrowsAt(b: seq<byte>, start: nat, n: nat): (s: seq<ObligationLiquidity>)
    ensures |s| == n
  {
    seq(n, i requires 0 <= i => LiquidityAt(b, start + LIQUIDITY_LEN * i))
  }

  lemma SliceOfSlice(b: seq<byte>, base: nat, end: nat, lo: nat, hi: nat)
    requires base <= end <= |b| && lo <= hi && base + hi <= end
    ensures Slice(Slice(b, base, end), lo, hi) == Slice(b, base + lo, base + hi)
  {
    var inner, outer := b[base..end][lo..hi], b[base + lo..base + hi];
    assert |inner| == |outer|;
    forall i | 0 <= i < |inner|
      ensures inner[i] == outer[i]
    {
      assert inner[i] == b[base..end][lo + i] == b[base + (lo + i)];
    }
  }

  lemma FieldsInSlice(b: seq<byte>, base: nat, end: nat, offset: nat)
    requires base <= end <= |b|
    ensures base + offset + 32 <= end ==> KeyAt(Slice(b, base, end), offset) == KeyAt(b, base + offset)
    ensures base + offset + 16 <= end ==> DecimalAt(Slice(b, base, end), offset) == DecimalAt(b, base + offset)
    ensures base + offset + 8 <= end ==> U64At(Slice(b, base, end), offset) == U64At(b, base + offset)
  {
    hide Slice;
    if base + offset + 32 <= end {
      SliceOfSlice(b, base, end, offset, offset + 32);
    }
    if base + offset + 16 <= end {
      SliceOfSlice(b, base, end, offset, offset + 16);
    }
    if base + offset + 8 <= end {
      SliceOfSlice(b, base, end, offset, offset + 8);
    }
  }

  lemma CollateralInSlice(b: seq<byte>, base: nat, end: nat, offset: nat)
    requires base <= end <= |b| && base + offset + COLLATERAL_DATA <= end
    ensures CollateralAt(Slice(b, base, end), offset) == CollateralAt(b, base + offset)
  {
    hide Slice, KeyAt, U64At, DecimalAt;
    FieldsInSlice(b, base, end, offset);
    FieldsInSlice(b, base, end, offset + 32);
    FieldsInSlice(b, base, end, offset + 40);
  }

  lemma LiquidityInSlice(b: seq<byte>, base: nat, end: nat, offset: nat)
    requires base <= end <= |b| && base + offset + LIQUIDITY_DATA <= end
    ensures LiquidityAt(Slice(b, base, end), offset) == LiquidityAt(b, base + offset)
  {
    hide Slice, KeyAt, U64At, DecimalAt;
    FieldsInSlice(b, base, end, offset);
    FieldsInSlice(b, base, end, offset + 32);
    FieldsInSlice(b, base, end, offset + 48);
    FieldsInSlice(b, base, end, offset + 64);
  }

  /** When the counts fit, the parser's clamped slices see every position whole. */
  lemma ParseUnfolded(b: seq<byte>)
    requires |b| == OBLIGATION_LEN && PositionsFit(b[202] as nat, b[203] as nat) && U64At(b, 1) != 0
    ensures var d, n := b[202] as nat, b[203] as nat;
            Parse(b) ==
            Success(Some(HeaderAt(b, DepositsAt(b, d), BorrowsAt(b, FLAT_OFFSET + COLLATERAL_LEN * d, n))))
  {
    hide KeyAt, U64At, DecimalAt, CollateralAt, LiquidityAt, Slice;
    var d, n := b[202] as nat, b[203] as nat;
    var split, end := COLLATERAL_LEN * d, COLLATERAL_LEN * d + LIQUIDITY_LEN * n;
    SliceOfSlice(b, FLAT_OFFSET, OBLIGATION_LEN, 0, split);
    SliceOfSlice(b, FLAT_OFFSET, OBLIGATION_LEN, split, end);
    var dataFlat := Slice(b, FLAT_OFFSET, FLAT_OFFSET + FLAT_LEN);
    var depositsBuffer := Slice(dataFlat, 0, split);
    assert |depositsBuffer| == split by {
      SliceLength(b, FLAT_OFFSET, FLAT_OFFSET + split);
    }
    var borrowsBuffer := Slice(dataFlat, split, end);
    forall i | 0 <= i < d
      ensures CollateralAt(depositsBuffer, COLLATERAL_LEN * i) == DepositsAt(b, d)[i]
    {
      CollateralInSlice(b, FLAT_OFFSET, FLAT_OFFSET + split, COLLATERAL_LEN * i);
    }
    forall i | 0 <= i < n
      ensures LiquidityAt(borrowsBuffer, LIQUIDITY_LEN * i) == BorrowsAt(b, FLAT_OFFSET + split, n)[i]
    {
      LiquidityInSlice(b, FLAT_OFFSET + split, FLAT_OFFSET + end, LIQUIDITY_LEN * i);
    }
    assert seq(d, i requires 0 <= i => CollateralAt(depositsBuffer, COLLATERAL_LEN * i)) == DepositsAt(b, d);
    assert seq(n, i requires 0 <= i => LiquidityAt(borrowsBuffer, LIQUIDITY_LEN * i))
        == BorrowsAt(b, FLAT_OFFSET + split, n);
  }

  lemma SliceLength(b: seq<byte>, start: nat, end: nat)
    requires start <= end <= |b|
    ensures |Slice(b, start, end)| == end - start
  {
  }

  lemma DepositsHeld(b: seq<byte>, deposits: seq<ObligationCollateral>)
    requires FLAT_OFFSET + COLLATERAL_LEN * |deposits| <= |b|
    ensures DepositsAt(b, |deposits|) == deposits <==> HoldsDeposits(b, deposits)
  {
    hide CollateralAt, HoldsCollateral;
    forall i | 0 <= i < |deposits|
      ensures DepositsAt(b, |deposits|)[i] == deposits[i]
          <==> HoldsCollateral(b, FLAT_OFFSET + COLLATERAL_LEN * i, deposits[i])
    {
      CollateralHeld(b, FLAT_OFFSET + COLLATERAL_LEN * i, deposits[i]);
    }
  }

  lemma BorrowsHeld(b: seq<byte>, start: nat, borrows: seq<ObligationLiquidity>)
    requires start + LIQUIDITY_LEN * |borrows| <= |b|
    ensures BorrowsAt(b, start, |borrows|) == borrows <==> HoldsBorrows(b, start, borrows)
  {
    hide LiquidityAt, HoldsLiquidity;
    forall i | 0 <= i < |borrows|
      ensures BorrowsAt(b, start, |borrows|)[i] == borrows[i]
          <==> HoldsLiquidity(b, start + LIQUIDITY_LEN * i, borrows[i])
    {
      LiquidityHeld(b, start + LIQUIDITY_LEN * i, borrows[i]);
    }
  }

  // ---------------------------------------------------------------- the parser's theorems

  /** An account with a non-zero slot whose counts fit parses to exactly the value its bytes encode. */
  lemma ParsesExactly(b: seq<byte>, a: Account)
    requires |b| == OBLIGATION_LEN
    ensures Parse(b) == Success(Some(a)) && PositionsFit(b[202] as nat, b[203] as nat)
       <==> Encodes(b, a) && a.slot != 0
  {
    hide KeyAt, U64At, DecimalAt, Holds, HoldsDecimal, HoldsHeader, HoldsDeposits, HoldsBorrows, Slice, CollateralAt,
      LiquidityAt, DepositsAt, BorrowsAt;
    var d, n := b[202] as nat, b[203] as nat;
    ByteHeld(b, 202, if |a.info.deposits| < 256 then |a.info.deposits| as byte else 0);
    ByteHeld(b, 203, if |a.info.borrows| < 256 then |a.info.borrows| as byte else 0);
    U64Held(b, 1, a.slot);
    HeaderHeld(b, a);
    if PositionsFit(d, n) && U64At(b, 1) != 0 {
      ParseUnfolded(b);
      if |a.info.deposits| == d && |a.info.borrows| == n {
        DepositsHeld(b, a.info.deposits);
        BorrowsHeld(b, FLAT_OFFSET + COLLATERAL_LEN * d, a.info.borrows);
      }
    }
  }

  /** Every account of the full length parses unless its slot is zero, whatever its counts. */
  lemma ParseOutcomes(b: seq<byte>)
    ensures Parse(b).Failure? <==> |b| < FLAT_OFFSET
    ensures Parse(b) == Success(None) <==> |b| >= FLAT_OFFSET && Holds(b, 1, ToLE(0, 8))
  {
    hide KeyAt, U64At, DecimalAt, Holds, Slice, CollateralAt, LiquidityAt;
    if |b| >= FLAT_OFFSET {
      U64Held(b, 1, 0);
    }
  }

  /** The client asks the node for accounts whose bytes from 10 are the market's: those, exactly, are its. */
  lemma MarketFilter(b: seq<byte>, market: Pubkey)
    requires Parse(b).Success? && Parse(b).value.Some?
    ensures Parse(b).value.value.info.lendingMarket == market <==> Holds(b, 10, market.bytes)
  {
    hide U64At, DecimalAt, Slice, CollateralAt, LiquidityAt;
    KeyHeld(b, 10, market);
  }

  /** An account that parses to a value encodes it if and only if its counts fit the flat data. */
  lemma EncodesExactly(b: seq<byte>, a: Account)
    requires |b| == OBLIGATION_LEN && Parse(b) == Success(Some(a))
    ensures Encodes(b, a) <==> PositionsFit(b[202] as nat, b[203] as nat)
  {
    hide Parse, HoldsHeader, HoldsDeposits, HoldsBorrows;
    ParsesExactly(b, a);
    if Encodes(b, a) {
      ByteHeld(b, 202, |a.info.deposits| as byte);
      ByteHeld(b, 203, |a.info.borrows| as byte);
    }
  }

  // ---------------------------------------------------------------- counts that do not fit

  /** The two clamped slices the parser takes out of a full account, as ranges of the account. */
  lemma ClampedBuffers(b: seq<byte>, d: nat, n: nat)
    requires |b| == OBLIGATION_LEN
    ensures var flat := Slice(b, FLAT_OFFSET, FLAT_OFFSET + FLAT_LEN);
            var deposits := Slice(flat, 0, COLLATERAL_LEN * d);
            var start, end := Clamped(COLLATERAL_LEN * d), Clamped(COLLATERAL_LEN * d + LIQUIDITY_LEN * n);
            && deposits == Slice(b, FLAT_OFFSET, FLAT_OFFSET + start)
            && Slice(flat, |deposits|, COLLATERAL_LEN * d + LIQUIDITY_LEN * n) ==
               Slice(b, FLAT_OFFSET + start, FLAT_OFFSET + end)
  {
    var flat := Slice(b, FLAT_OFFSET, FLAT_OFFSET + FLAT_LEN);
    var start, end := Clamped(COLLATERAL_LEN * d), Clamped(COLLATERAL_LEN * d + LIQUIDITY_LEN * n);
    assert Slice(flat, 0, COLLATERAL_LEN * d) == Slice(flat, 0, start);
    assert Slice(flat, start, COLLATERAL_LEN * d + LIQUIDITY_LEN * n) == Slice(flat, start, end);
    SliceOfSlice(b, FLAT_OFFSET, OBLIGATION_LEN, 0, start);
    SliceOfSlice(b, FLAT_OFFSET, OBLIGATION_LEN, start, end);
    SliceLength(b, FLAT_OFFSET, FLAT_OFFSET + start);
  }

  function Clamped(offset: nat): nat {
    if offset <= FLAT_LEN then offset else FLAT_LEN
  }

  /** The positions of any full account that parses, whatever its counts. */
  lemma ParsedPositions(b: seq<byte>, a: Account)
    requires |b| == OBLIGATION_LEN && Parse(b) == Success(Some(a))
    ensures var d, n := b[202] as nat, b[203] as nat;
            var start, end := Clamped(COLLATERAL_LEN * d), Clamped(COLLATERAL_LEN * d + LIQUIDITY_LEN * n);
            var depositsBuffer := Slice(b, FLAT_OFFSET, FLAT_OFFSET + start);
            var borrowsBuffer := Slice(b, FLAT_OFFSET + start, FLAT_OFFSET + end);
            && |a.info.deposits| == d && |a.info.borrows| == n
            && (forall i :: 0 <= i < d ==> a.info.deposits[i] == CollateralAt(depositsBuffer, COLLATERAL_LEN * i))
            && (forall j :: 0 <= j < n ==> a.info.borrows[j] == LiquidityAt(borrowsBuffer, LIQUIDITY_LEN * j))
  {
    hide KeyAt, U64At, DecimalAt, CollateralAt, LiquidityAt, Slice, Clamped;
    ClampedBuffers(b, b[202] as nat, b[203] as nat);
  }

  /**
   Which positions are read from the account. A deposit is what the account holds at its place exactly if
   its fields lie within the flat data, whatever the counts.
   */
  lemma DepositHeldExactly(b: seq<byte>, a: Account, i: nat)
    requires |b| == OBLIGATION_LEN && Parse(b) == Success(Some(a)) && i < b[202] as nat
    ensures i < |a.info.deposits|
    ensures HoldsCollateral(b, FLAT_OFFSET + COLLATERAL_LEN * i, a.info.deposits[i]) <==>
            COLLATERAL_LEN * i + COLLATERAL_DATA <= FLAT_LEN
  {
    hide Parse, CollateralAt, LiquidityAt, Slice, HoldsCollateral;
    ParsedPositions(b, a);
    var end := FLAT_OFFSET + Clamped(COLLATERAL_LEN * b[202] as nat);
    if COLLATERAL_LEN * i + COLLATERAL_DATA <= FLAT_LEN {
      CollateralInSlice(b, FLAT_OFFSET, end, COLLATERAL_LEN * i);
      CollateralHeld(b, FLAT_OFFSET + COLLATERAL_LEN * i, a.info.deposits[i]);
    } else {
      HeldWithin(b, FLAT_OFFSET + COLLATERAL_LEN * i, a.info.deposits[i]);
    }
  }

  /** The same for a borrow, whose place is behind all deposits the account counts. */
  lemma BorrowHeldExactly(b: seq<byte>, a: Account, j: nat)
    requires |b| == OBLIGATION_LEN && Parse(b) == Success(Some(a)) && j < b[203] as nat
    ensures j < |a.info.borrows|
    ensures var offset := COLLATERAL_LEN * b[202] as nat + LIQUIDITY_LEN * j;
            HoldsLiquidity(b, FLAT_OFFSET + offset, a.info.borrows[j]) <==> offset + LIQUIDITY_DATA <= FLAT_LEN
  {
    hide Parse, CollateralAt, LiquidityAt, Slice, HoldsLiquidity;
    ParsedPositions(b, a);
    var start := COLLATERAL_LEN * b[202] as nat;
    var end := FLAT_OFFSET + Clamped(start + LIQUIDITY_LEN * b[203] as nat);
    if start + LIQUIDITY_LEN * j + LIQUIDITY_DATA <= FLAT_LEN {
      LiquidityInSlice(b, FLAT_OFFSET + start, end, LIQUIDITY_LEN * j);
      LiquidityHeld(b, FLAT_OFFSET + start + LIQUIDITY_LEN * j, a.info.borrows[j]);
    } else {
      DebtHeldWithin(b, FLAT_OFFSET + start + LIQUIDITY_LEN * j, a.info.borrows[j]);
    }
  }

  lemma HeldWithin(b: seq<byte>, offset: nat, c: ObligationCollateral)
    ensures HoldsCollateral(b, offset, c) ==> offset + COLLATERAL_DATA <= |b|
  {
  }

  lemma DebtHeldWithin(b: seq<byte>, offset: nat, l: ObligationLiquidity)
    ensures HoldsLiquidity(b, offset, l) ==> offset + LIQUIDITY_DATA <= |b|
  {
  }

  const NO_KEY := Pubkey(seq(32, _ => 0 as byte))

  /** A deposit whose place lies wholly beyond the flat data comes out as a zero key with zero amounts. */
  lemma PhantomDeposits(b: seq<byte>, i: nat)
    requires |b| == OBLIGATION_LEN && Parse(b).Success? && Parse(b).value.Some?
    requires i < b[202] as nat && FLAT_LEN <= COLLATERAL_LEN * i
    ensures var deposits := Parse(b).value.value.info.deposits;
            i < |deposits| && deposits[i] == ObligationCollateral(NO_KEY, 0, 0)
  {
    hide Parse, CollateralAt, LiquidityAt, Slice;
    ParsedPositions(b, Parse(b).value.value);
    var buffer := Slice(b, FLAT_OFFSET, FLAT_OFFSET + Clamped(COLLATERAL_LEN * b[202] as nat));
    NothingBeyond(buffer, COLLATERAL_LEN * i);
  }

  /** So does a borrow behind the flat data, as every borrow is whose account counts thirteen deposits or more. */
  lemma PhantomBorrows(b: seq<byte>, j: nat)
    requires |b| == OBLIGATION_LEN && Parse(b).Success? && Parse(b).value.Some?
    requires j < b[203] as nat && FLAT_LEN <= COLLATERAL_LEN * b[202] as nat + LIQUIDITY_LEN * j
    ensures var borrows := Parse(b).value.value.info.borrows;
            j < |borrows| && borrows[j] == ObligationLiquidity(NO_KEY, 0, 0, 0)
  {
    hide Parse, CollateralAt, LiquidityAt, Slice;
    ParsedPositions(b, Parse(b).value.value);
    var start := Clamped(COLLATERAL_LEN * b[202] as nat);
    var end := Clamped(COLLATERAL_LEN * b[202] as nat + LIQUIDITY_LEN * b[203] as nat);
    NoDebtBeyond(Slice(b, FLAT_OFFSET + start, FLAT_OFFSET + end), LIQUIDITY_LEN * j);
  }

  lemma NothingAt(b: seq<byte>, offset: nat)
    requires |b| <= offset
    ensures KeyAt(b, offset) == NO_KEY && U64At(b, offset) == 0 && DecimalAt(b, offset) == 0
  {
    assert seq(32, _ => 0 as byte) + [] == seq(32, _ => 0 as byte);
    assert Layout.Decode([]) == 0 by {
      Layout.DecodeIsLE([]);
    }
  }

  lemma NothingBeyond(b: seq<byte>, offset: nat)
    requires |b| <= offset
    ensures CollateralAt(b, offset) == ObligationCollateral(NO_KEY, 0, 0)
  {
    hide KeyAt, U64At, DecimalAt;
    NothingAt(b, offset);
    NothingAt(b, offset + 32);
    NothingAt(b, offset + 40);
  }

  lemma NoDebtBeyond(b: seq<byte>, offset: nat)
    requires |b| <= offset
    ensures LiquidityAt(b, offset) == ObligationLiquidity(NO_KEY, 0, 0, 0)
  {
    hide KeyAt, U64At, DecimalAt;
    NothingAt(b, offset);
    NothingAt(b, offset + 32);
    NothingAt(b, offset + 48);
    NothingAt(b, offset + 64);
  }
}
