/**
 The lending program's own packing and unpacking of an obligation account, checked against the format the
 TypeScript parser was checked against.
 */
module ObligationPack {
  import opened Wrappers
  import opened FixedPoint
  import opened Lending
  import opened Bytes
  import opened ObligationLayout

  // ---------------------------------------------------------------- pack

  /** What packing needs of a value: every decimal fits sixteen bytes and the positions fit the flat data. */
  predicate Packable(a: Account) {
    && HeaderPackable(a)
    && PositionsFit(|a.info.deposits|, |a.info.borrows|)
    && (forall i :: 0 <= i < |a.info.deposits| ==> a.info.deposits[i].marketValue < U128_LIMIT)
    && (forall i :: 0 <= i < |a.info.borrows| ==> LiquidityPackable(a.info.borrows[i]))
  }

  predicate HeaderPackable(a: Account) {
    && a.info.depositedValue < U128_LIMIT
    && a.info.borrowedValue < U128_LIMIT
    && a.info.allowedBorrowValue < U128_LIMIT
    && a.info.unhealthyBorrowValue < U128_LIMIT
    && |a.info.deposits| < 256 && |a.info.borrows| < 256
  }

  predicate LiquidityPackable(l: ObligationLiquidity) {
    && l.cumulativeBorrowRateWads < U128_LIMIT
    && l.borrowedAmountWads < U128_LIMIT
    && l.marketValue < U128_LIMIT
  }

  /** Bytes outside a range are as they were. */
  predicate KeptOutside(was: seq<byte>, now: seq<byte>, lo: nat, hi: nat) {
    |was| == |now| && forall i :: 0 <= i < |was| && !(lo <= i < hi) ==> now[i] == was[i]
  }

  /** What is held outside the range is still held. */
  ghost predicate HoldingsKept(was: seq<byte>, now: seq<byte>, lo: nat, hi: nat) {
    forall o: nat, bs: seq<byte> :: (o + |bs| <= lo || hi <= o) && Holds(was, o, bs) ==> Holds(now, o, bs)
  }

  lemma HoldingsKeptOutside(was: seq<byte>, now: seq<byte>, lo: nat, hi: nat)
    requires KeptOutside(was, now, lo, hi)
    ensures HoldingsKept(was, now, lo, hi)
  {
    forall o: nat, bs: seq<byte> | (o + |bs| <= lo || hi <= o) && Holds(was, o, bs)
      ensures Holds(now, o, bs)
    {
      assert now[o..o + |bs|] == was[o..o + |bs|];
    }
  }

  method Write(dst: array<byte>, offset: nat, bs: seq<byte>)
    requires offset + |bs| <= dst.Length
    modifies dst
    ensures Holds(dst[..], offset, bs)
    ensures KeptOutside(old(dst[..]), dst[..], offset, offset + |bs|)
    ensures HoldingsKept(old(dst[..]), dst[..], offset, offset + |bs|)
  {
    for i := 0 to |bs|
      invariant forall j :: 0 <= j < i ==> dst[offset + j] == bs[j]
      invariant KeptOutside(old(dst[..]), dst[..], offset, offset + |bs|)
    {
      dst[offset + i] := bs[i];
    }
    assert dst[..][offset..offset + |bs|] == bs;
    HoldingsKeptOutside(old(dst[..]), dst[..], offset, offset + |bs|);
  }

  /** pack_decimal panics on a value of more than sixteen bytes; ok is false for any panic below. */
  method PackDecimal(dst: array<byte>, offset: nat, d: Decimal) returns (ok: bool)
    requires offset + 16 <= dst.Length
    modifies dst
    ensures ok <==> d < U128_LIMIT
    ensures ok ==> HoldsDecimal(dst[..], offset, d)
    ensures KeptOutside(old(dst[..]), dst[..], offset, offset + 16)
    ensures HoldingsKept(old(dst[..]), dst[..], offset, offset + 16)
  {
    ok := d < U128_LIMIT;
    if ok {
      Write(dst, offset, ToLE(d, 16));
    }
  }

  method PackCollateral(dst: array<byte>, offset: nat, c: ObligationCollateral) returns (ok: bool)
    requires offset + COLLATERAL_LEN <= dst.Length
    modifies dst
    ensures ok <==> c.marketValue < U128_LIMIT
    ensures ok ==> HoldsCollateral(dst[..], offset, c)
    ensures KeptOutside(old(dst[..]), dst[..], offset, offset + COLLATERAL_LEN)
  {
    hide Holds;
    Write(dst, offset, c.depositReserve.bytes);
    Write(dst, offset + 32, ToLE(c.depositedAmount, 8));
    ok := PackDecimal(dst, offset + 40, c.marketValue);
  }

  method PackLiquidity(dst: array<byte>, offset: nat, l: ObligationLiquidity) returns (ok: bool)
    requires offset + LIQUIDITY_LEN <= dst.Length
    modifies dst
    ensures ok <==> LiquidityPackable(l)
    ensures ok ==> HoldsLiquidity(dst[..], offset, l)
    ensures KeptOutside(old(dst[..]), dst[..], offset, offset + LIQUIDITY_LEN)
  {
    hide Holds;
    Write(dst, offset, l.borrowReserve.bytes);
    ok := PackDecimal(dst, offset + 32, l.cumulativeBorrowRateWads);
    if ok {
      ok := PackDecimal(dst, offset + 48, l.borrowedAmountWads);
    }
    if ok {
      ok := PackDecimal(dst, offset + 64, l.marketValue);
    }
  }

  /** The four decimals of the header, the first that does not fit panicking. */
  method PackTotals(dst: array<byte>, o: Obligation) returns (ok: bool)
    requires dst.Length == OBLIGATION_LEN
    modifies dst
    ensures ok <==> o.depositedValue < U128_LIMIT && o.borrowedValue < U128_LIMIT
                    && o.allowedBorrowValue < U128_LIMIT && o.unhealthyBorrowValue < U128_LIMIT
    ensures ok ==>
              && HoldsDecimal(dst[..], 74, o.depositedValue) && HoldsDecimal(dst[..], 90, o.borrowedValue)
              && HoldsDecimal(dst[..], 106, o.allowedBorrowValue) && HoldsDecimal(dst[..], 122, o.unhealthyBorrowValue)
    ensures KeptOutside(old(dst[..]), dst[..], 74, 138)
  {
    hide Holds;
    ok := PackDecimal(dst, 74, o.depositedValue);
    if ok {
      ok := PackDecimal(dst, 90, o.borrowedValue);
    }
    if ok {
      ok := PackDecimal(dst, 106, o.allowedBorrowValue);
    }
    if ok {
      ok := PackDecimal(dst, 122, o.unhealthyBorrowValue);
    }
  }

  method PackHeader(dst: array<byte>, a: Account) returns (ok: bool)
    requires dst.Length == OBLIGATION_LEN
    modifies dst
    ensures ok <==> HeaderPackable(a)
    ensures ok ==> HoldsHeader(dst[..], a) && HoldsCounts(dst[..], |a.info.deposits|, |a.info.borrows|)
    ensures ok ==> dst[138..202] == old(dst[138..202]) && dst[FLAT_OFFSET..] == old(dst[FLAT_OFFSET..])
  {
    hide Holds;
    Write(dst, 0, [a.version]);
    Write(dst, 1, ToLE(a.slot, 8));
    Write(dst, 9, [a.stale]);
    Write(dst, 10, a.info.lendingMarket.bytes);
    Write(dst, 42, a.info.owner.bytes);
    label start:
    ok := PackTotals(dst, a.info);
    if !ok || |a.info.deposits| >= 256 || |a.info.borrows| >= 256 {
      return false;
    }
    HoldingsKeptOutside(old@start(dst[..]), dst[..], 74, 138);
    Write(dst, 202, [|a.info.deposits| as byte]);
    Write(dst, 203, [|a.info.borrows| as byte]);
  }

  lemma HeaderKept(was: seq<byte>, now: seq<byte>, a: Account, deposits: nat, borrows: nat)
    requires KeptOutside(was, now, FLAT_OFFSET, |was|)
    requires HoldsHeader(was, a) && HoldsCounts(was, deposits, borrows)
    ensures HoldsHeader(now, a) && HoldsCounts(now, deposits, borrows)
  {
    hide Holds, KeptOutside;
    HoldingsKeptOutside(was, now, FLAT_OFFSET, |was|);
  }

  lemma DepositsKept(was: seq<byte>, now: seq<byte>, deposits: seq<ObligationCollateral>, lo: nat, hi: nat)
    requires FLAT_OFFSET + COLLATERAL_LEN * |deposits| <= lo
    requires KeptOutside(was, now, lo, hi) && HoldsDeposits(was, deposits)
    ensures HoldsDeposits(now, deposits)
  {
    hide Holds, KeptOutside;
    HoldingsKeptOutside(was, now, lo, hi);
    forall i | 0 <= i < |deposits|
      ensures HoldsCollateral(now, FLAT_OFFSET + COLLATERAL_LEN * i, deposits[i])
    {
      var offset, c := FLAT_OFFSET + COLLATERAL_LEN * i, deposits[i];
      assert HoldsCollateral(was, offset, c);
    }
  }

  lemma BorrowsKept(was: seq<byte>, now: seq<byte>, start: nat, borrows: seq<ObligationLiquidity>, lo: nat, hi: nat)
    requires start + LIQUIDITY_LEN * |borrows| <= lo
    requires KeptOutside(was, now, lo, hi) && HoldsBorrows(was, start, borrows)
    ensures HoldsBorrows(now, start, borrows)
  {
    hide Holds, KeptOutside;
    HoldingsKeptOutside(was, now, lo, hi);
    forall i | 0 <= i < |borrows|
      ensures HoldsLiquidity(now, start + LIQUIDITY_LEN * i, borrows[i])
    {
      var offset, l := start + LIQUIDITY_LEN * i, borrows[i];
      assert HoldsLiquidity(was, offset, l);
    }
  }

  lemma KeptTwice(first: seq<byte>, was: seq<byte>, now: seq<byte>, lo: nat, mid: nat, hi: nat)
    requires lo <= mid <= hi && KeptOutside(first, was, lo, mid) && KeptOutside(was, now, mid, hi)
    ensures KeptOutside(first, now, lo, hi)
  {
  }

  /** Packing one more deposit keeps the earlier ones. */
  lemma DepositsExtended(was: seq<byte>, now: seq<byte>, deposits: seq<ObligationCollateral>, i: nat, offset: nat)
    requires i < |deposits| && offset == FLAT_OFFSET + COLLATERAL_LEN * i
    requires HoldsDeposits(was, deposits[..i]) && KeptOutside(was, now, offset, offset + COLLATERAL_LEN)
    requires HoldsCollateral(now, offset, deposits[i])
    ensures HoldsDeposits(now, deposits[..i + 1])
  {
    hide HoldsCollateral, KeptOutside;
    DepositsKept(was, now, deposits[..i], offset, offset + COLLATERAL_LEN);
    assert forall j :: 0 <= j < i ==> deposits[..i + 1][j] == deposits[..i][j];
  }

  lemma BorrowsExtended(was: seq<byte>, now: seq<byte>, start: nat, borrows: seq<ObligationLiquidity>, i: nat, offset: nat)
    requires i < |borrows| && offset == start + LIQUIDITY_LEN * i
    requires HoldsBorrows(was, start, borrows[..i]) && KeptOutside(was, now, offset, offset + LIQUIDITY_LEN)
    requires HoldsLiquidity(now, offset, borrows[i])
    ensures HoldsBorrows(now, start, borrows[..i + 1])
  {
    hide HoldsLiquidity, KeptOutside;
    BorrowsKept(was, now, start, borrows[..i], offset, offset + LIQUIDITY_LEN);
    assert forall j :: 0 <= j < i ==> borrows[..i + 1][j] == borrows[..i][j];
  }

  /** The deposits at a running offset; one that would leave the flat data panics. */
  method PackDeposits(dst: array<byte>, deposits: seq<ObligationCollateral>) returns (ok: bool, offset: nat)
    requires dst.Length == OBLIGATION_LEN
    modifies dst
    ensures ok <==> COLLATERAL_LEN * |deposits| <= FLAT_LEN
                    && forall i :: 0 <= i < |deposits| ==> deposits[i].marketValue < U128_LIMIT
    ensures ok ==> offset == FLAT_OFFSET + COLLATERAL_LEN * |deposits| && HoldsDeposits(dst[..], deposits)
    ensures ok ==> KeptOutside(old(dst[..]), dst[..], FLAT_OFFSET, offset)
  {
    offset := FLAT_OFFSET;
    for i := 0 to |deposits|
      invariant offset == FLAT_OFFSET + COLLATERAL_LEN * i <= OBLIGATION_LEN
      invariant forall j :: 0 <= j < i ==> deposits[j].marketValue < U128_LIMIT
      invariant HoldsDeposits(dst[..], deposits[..i])
      invariant KeptOutside(old(dst[..]), dst[..], FLAT_OFFSET, offset)
    {
      hide HoldsCollateral, HoldsDeposits, KeptOutside;
      if offset + COLLATERAL_LEN > OBLIGATION_LEN {
        return false, offset;
      }
      label before:
      ok := PackCollateral(dst, offset, deposits[i]);
      if !ok {
        return false, offset;
      }
      DepositsExtended(old@before(dst[..]), dst[..], deposits, i, offset);
      KeptTwice(old(dst[..]), old@before(dst[..]), dst[..], FLAT_OFFSET, offset, offset + COLLATERAL_LEN);
      offset := offset + COLLATERAL_LEN;
    }
    assert deposits[..|deposits|] == deposits;
    ok := true;
  }

  method PackBorrows(dst: array<byte>, start: nat, borrows: seq<ObligationLiquidity>) returns (ok: bool)
    requires dst.Length == OBLIGATION_LEN && start <= OBLIGATION_LEN
    modifies dst
    ensures ok <==> start + LIQUIDITY_LEN * |borrows| <= OBLIGATION_LEN
                    && forall i :: 0 <= i < |borrows| ==> LiquidityPackable(borrows[i])
    ensures ok ==> HoldsBorrows(dst[..], start, borrows)
    ensures ok ==> KeptOutside(old(dst[..]), dst[..], start, start + LIQUIDITY_LEN * |borrows|)
  {
    var offset := start;
    for i := 0 to |borrows|
      invariant offset == start + LIQUIDITY_LEN * i <= OBLIGATION_LEN
      invariant forall j :: 0 <= j < i ==> LiquidityPackable(borrows[j])
      invariant HoldsBorrows(dst[..], start, borrows[..i])
      invariant KeptOutside(old(dst[..]), dst[..], start, offset)
    {
      hide HoldsLiquidity, HoldsBorrows, KeptOutside, LiquidityPackable;
      if offset + LIQUIDITY_LEN > OBLIGATION_LEN {
        return false;
      }
      label before:
      ok := PackLiquidity(dst, offset, borrows[i]);
      if !ok {
        return false;
      }
      BorrowsExtended(old@before(dst[..]), dst[..], start, borrows, i, offset);
      KeptTwice(old(dst[..]), old@before(dst[..]), dst[..], start, offset, offset + LIQUIDITY_LEN);
      offset := offset + LIQUIDITY_LEN;
    }
    assert borrows[..|borrows|] == borrows;
    ok := true;
  }

  /**
   Pack a value into an account that may hold anything. It panics exactly on a value that does not fit;
   otherwise the result encodes the value, so both readers get it back, and the padding and whatever lies
   behind the last position stay as they were.
   */
  method PackIntoSlice(a: Account, dst: array<byte>) returns (ok: bool)
    requires dst.Length == OBLIGATION_LEN
    modifies dst
    ensures ok <==> Packable(a)
    ensures ok ==> Encodes(dst[..], a)
    ensures ok && a.slot != 0 ==> Parse(dst[..]) == Success(Some(a))
    ensures ok ==> dst[138..202] == old(dst[138..202])
    ensures var end := FLAT_OFFSET + COLLATERAL_LEN * |a.info.deposits| + LIQUIDITY_LEN * |a.info.borrows|;
            ok ==> end <= OBLIGATION_LEN && dst[end..] == old(dst[end..])
  {
    hide HoldsHeader, HoldsCounts, HoldsDeposits, HoldsBorrows, Parse, LiquidityPackable;
    ok := PackHeader(dst, a);
    if !ok {
      return;
    }
    label header:
    var start;
    ok, start := PackDeposits(dst, a.info.deposits);
    if !ok {
      return;
    }
    assert HoldsHeader(dst[..], a) && HoldsCounts(dst[..], |a.info.deposits|, |a.info.borrows|) by {
      HeaderKept(old@header(dst[..]), dst[..], a, |a.info.deposits|, |a.info.borrows|);
    }
    label deposits:
    ok := PackBorrows(dst, start, a.info.borrows);
    if !ok {
      return;
    }
    assert HoldsHeader(dst[..], a) && HoldsCounts(dst[..], |a.info.deposits|, |a.info.borrows|) by {
      HeaderKept(old@deposits(dst[..]), dst[..], a, |a.info.deposits|, |a.info.borrows|);
    }
    DepositsKept(old@deposits(dst[..]), dst[..], a.info.deposits, start, start + LIQUIDITY_LEN * |a.info.borrows|);
    ParsesExactly(dst[..], a);
  }

  // ---------------------------------------------------------------- unpack

  datatype UnpackError = InvalidAccountData | OutOfRange

  method UnpackDecimal(src: seq<byte>, offset: nat) returns (d: Decimal)
    requires offset + 16 <= |src|
    ensures HoldsDecimal(src, offset, d)
  {
    var bs := src[offset..offset + 16];
    FromLEBound(bs);
    Pow256Of16();
    LERewrite(bs);
    d := FromLE(bs);
  }

  method UnpackU64(src: seq<byte>, offset: nat) returns (n: u64)
    requires offset + 8 <= |src|
    ensures Holds(src, offset, ToLE(n, 8))
  {
    var bs := src[offset..offset + 8];
    FromLEBound(bs);
    Pow256Of8();
    LERewrite(bs);
    n := FromLE(bs);
  }

  /** Positions are read at a running offset; one that would leave the flat data panics. */
  method UnpackDeposits(src: seq<byte>, n: nat)
    returns (deposits: Option<seq<ObligationCollateral>>)
    requires |src| == OBLIGATION_LEN
    ensures deposits.Some? <==> COLLATERAL_LEN * n <= FLAT_LEN
    ensures deposits.Some? ==> |deposits.value| == n && HoldsDeposits(src, deposits.value)
  {
    hide Holds, HoldsDecimal;
    var offset, found := FLAT_OFFSET, [];
    for i := 0 to n
      invariant |found| == i && offset == FLAT_OFFSET + COLLATERAL_LEN * i <= OBLIGATION_LEN
      invariant HoldsDeposits(src, found)
    {
      if offset + COLLATERAL_LEN > OBLIGATION_LEN {
        return None;
      }
      var key := Pubkey(src[offset..offset + 32]);
      KeyRead(src, offset);
      var amount := UnpackU64(src, offset + 32);
      var value := UnpackDecimal(src, offset + 40);
      found := found + [ObligationCollateral(key, amount, value)];
      offset := offset + COLLATERAL_LEN;
    }
    return Some(found);
  }

  lemma KeyRead(src: seq<byte>, offset: nat)
    requires offset + 32 <= |src|
    ensures Holds(src, offset, src[offset..offset + 32])
  {
  }

  method UnpackBorrows(src: seq<byte>, start: nat, n: nat)
    returns (borrows: Option<seq<ObligationLiquidity>>)
    requires |src| == OBLIGATION_LEN && start <= OBLIGATION_LEN
    ensures borrows.Some? <==> start + LIQUIDITY_LEN * n <= OBLIGATION_LEN
    ensures borrows.Some? ==> |borrows.value| == n && HoldsBorrows(src, start, borrows.value)
  {
    hide Holds, HoldsDecimal;
    var offset, found := start, [];
    for i := 0 to n
      invariant |found| == i && offset == start + LIQUIDITY_LEN * i <= OBLIGATION_LEN
      invariant HoldsBorrows(src, start, found)
    {
      if offset + LIQUIDITY_LEN > OBLIGATION_LEN {
        return None;
      }
      var key := Pubkey(src[offset..offset + 32]);
      KeyRead(src, offset);
      var rate := UnpackDecimal(src, offset + 32);
      var amount := UnpackDecimal(src, offset + 48);
      var value := UnpackDecimal(src, offset + 64);
      found := found + [ObligationLiquidity(key, rate, amount, value)];
      offset := offset + LIQUIDITY_LEN;
    }
    return Some(found);
  }

  /**
   The Rust reader accepts exactly the accounts of a known version whose counts fit and whose stale byte is
   a boolean; what it returns is what the bytes encode, and the TypeScript parser reads the same.
   */
  method UnpackFromSlice(src: seq<byte>) returns (r: Result<Account, UnpackError>)
    requires |src| == OBLIGATION_LEN
    ensures r.Success? <==> src[0] <= 1 && 88 * src[202] as nat + 112 * src[203] as nat <= 1096 && src[9] < 2
    ensures r == Failure(OutOfRange) <==> src[0] <= 1 && 88 * src[202] as nat + 112 * src[203] as nat > 1096
    ensures r.Success? ==> Encodes(src, r.value)
    ensures r.Success? && r.value.slot != 0 ==> Parse(src) == Success(Some(r.value))
  {
    hide Holds, HoldsDecimal, HoldsDeposits, HoldsBorrows, Parse;
    if src[0] > PROGRAM_VERSION {
      return Failure(InvalidAccountData);
    }
    var d, n := src[202] as nat, src[203] as nat;
    var deposits := UnpackDeposits(src, d);
    if deposits.None? {
      return Failure(OutOfRange);
    }
    var borrows := UnpackBorrows(src, FLAT_OFFSET + COLLATERAL_LEN * d, n);
    if borrows.None? {
      return Failure(OutOfRange);
    }
    if src[9] >= 2 {
      return Failure(InvalidAccountData);
    }
    var slot := UnpackU64(src, 1);
    var market, owner := Pubkey(src[10..42]), Pubkey(src[42..74]);
    var deposited := UnpackDecimal(src, 74);
    var borrowed := UnpackDecimal(src, 90);
    var allowed := UnpackDecimal(src, 106);
    var unhealthy := UnpackDecimal(src, 122);
    var a := Account(src[0], slot, src[9],
      Obligation(market, owner, deposits.value, borrows.value, deposited, borrowed, allowed, unhealthy));
    ByteHeld(src, 0, src[0]);
    ByteHeld(src, 9, src[9]);
    ByteHeld(src, 202, src[202]);
    ByteHeld(src, 203, src[203]);
    KeyRead(src, 10);
    KeyRead(src, 42);
    ParsesExactly(src, a);
    return Success(a);
  }
}
