/** Little-endian integers as byte sequences. */
module Bytes {
  import opened Arithmetic
  import opened FixedPoint
  import opened Lending

  function Pow256(k: nat): (p: nat)
    ensures p > 0
  {
    if k == 0 then 1 else 256 * Pow256(k - 1)
  }

  /** The k low-order bytes of n, lowest first. */
  function ToLE(n: nat, k: nat): (bs: seq<byte>)
    ensures |bs| == k
  {
    if k == 0 then [] else [(n % 256) as byte] + ToLE(n / 256, k - 1)
  }

  function FromLE(bs: seq<byte>): nat {
    if bs == [] then 0 else bs[0] as nat + 256 * FromLE(bs[1..])
  }

  lemma {:induction false} FromLEBound(bs: seq<byte>)
    ensures FromLE(bs) < Pow256(|bs|)
  {
    if bs != [] {
      FromLEBound(bs[1..]);
    }
  }

  lemma ModSplit(n: nat, m: nat)
    requires m > 0
    ensures n % (256 * m) == n % 256 + 256 * (n / 256 % m)
  {
    var q, r := n / 256, n % 256;
    var a, b := q / m, q % m;
    assert q == a * m + b;
    assert n == 256 * q + r == a * (256 * m) + (256 * b + r);
    DivisionIs(n, 256 * m, a, 256 * b + r);
  }

  /** Reading back k bytes keeps n modulo 256^k. */
  lemma {:induction false} LEModulo(n: nat, k: nat)
    ensures FromLE(ToLE(n, k)) == n % Pow256(k)
  {
    if k > 0 {
      LEModulo(n / 256, k - 1);
      ModSplit(n, Pow256(k - 1));
      assert ToLE(n, k)[1..] == ToLE(n / 256, k - 1);
    }
  }

  /** Writing what was read gives the same bytes. */
  lemma {:induction false} LERewrite(bs: seq<byte>)
    ensures ToLE(FromLE(bs), |bs|) == bs
  {
    if bs != [] {
      LERewrite(bs[1..]);
      assert FromLE(bs) % 256 == bs[0] as nat && FromLE(bs) / 256 == FromLE(bs[1..]);
    }
  }

  lemma Pow256Of8()
    ensures Pow256(8) == 0x1_0000_0000_0000_0000
  {
  }

  lemma Pow256Of16()
    ensures Pow256(16) == U128_LIMIT
  {
    assert Pow256(12) == 256 * 256 * 256 * 256 * Pow256(8);
    assert Pow256(16) == 256 * 256 * 256 * 256 * Pow256(12);
    Pow256Of8();
  }
}
