/**
 The unsigned integer layouts of the TypeScript client: encoding reverses a big-endian byte array into a
 zero-padded buffer, decoding goes through a hexadecimal string.
 */
module Layout {
  import opened Lending
  import opened Bytes

  // ---------------------------------------------------------------- encode

  /** BN.toArray: big-endian bytes without leading zeros, at least one byte. */
  function BigEndian(n: nat): (bs: seq<byte>)
    ensures bs != []
  {
    if n < 256 then [n as byte] else BigEndian(n / 256) + [(n % 256) as byte]
  }

  function Reversed<T>(s: seq<T>): (r: seq<T>)
    ensures |r| == |s|
  {
    if s == [] then [] else [s[|s| - 1]] + Reversed(s[..|s| - 1])
  }

  /** Reversing the big-endian bytes gives as many little-endian bytes. */
  lemma {:induction false} ReversedIsLE(n: nat)
    ensures Reversed(BigEndian(n)) == ToLE(n, |BigEndian(n)|)
    ensures n < Pow256(|BigEndian(n)|)
  {
    if n >= 256 {
      ReversedIsLE(n / 256);
      var bs := BigEndian(n);
      assert bs[..|bs| - 1] == BigEndian(n / 256);
    } else {
      assert [n as byte][..0] == [];
    }
  }

  lemma {:induction false} LEPrefix(n: nat, k: nat, m: nat)
    requires k <= m
    ensures ToLE(n, m)[..k] == ToLE(n, k)
  {
    if k > 0 {
      LEPrefix(n / 256, k - 1, m - 1);
      assert ToLE(n, m)[1..][..k - 1] == ToLE(n, m)[1..k];
    }
  }

  lemma {:induction false} LEOfZero(k: nat)
    ensures forall i :: 0 <= i < k ==> ToLE(0, k)[i] == 0
  {
    if k > 0 {
      LEOfZero(k - 1);
    }
  }

  /** Beyond the bytes a number needs there are zeros. */
  lemma {:induction false} LEZeros(n: nat, k: nat, m: nat)
    requires k <= m && n < Pow256(k)
    ensures ToLE(n, m)[..k] == ToLE(n, k)
    ensures forall i :: k <= i < m ==> ToLE(n, m)[i] == 0
  {
    LEPrefix(n, k, m);
    if k == 0 {
      LEOfZero(m);
    } else {
      LEZeros(n / 256, k - 1, m - 1);
      forall i | k <= i < m
        ensures ToLE(n, m)[i] == 0
      {
        assert ToLE(n, m)[i] == ToLE(n / 256, m - 1)[i - 1];
      }
    }
  }

  /** Encode a number into size bytes of a buffer: pad or cut a reversed byte array, then copy it in. */
  method Encode(n: nat, size: nat, buffer: array<byte>, offset: nat)
    requires offset + size <= buffer.Length
    modifies buffer
    ensures buffer[offset..offset + size] == ToLE(n, size)
    ensures buffer[..offset] == old(buffer[..offset]) && buffer[offset + size..] == old(buffer[offset + size..])
  {
    var a := Reversed(BigEndian(n));
    ReversedIsLE(n);
    var b := new byte[size](_ => 0);
    for i := 0 to if |a| < size then |a| else size
      modifies b
      invariant forall j :: 0 <= j < size ==> b[j] == if j < i then a[j] else 0
    {
      b[i] := a[i];
    }
    assert b[..] == ToLE(n, size) by {
      if |a| < size {
        LEZeros(n, |a|, size);
        forall j | 0 <= j < |a|
          ensures ToLE(n, size)[j] == a[j]
        {
          assert ToLE(n, size)[..|a|][j] == a[j];
        }
      } else {
        LEPrefix(n, size, |a|);
        assert a[..size] == ToLE(n, size);
      }
    }
    for i := 0 to size
      invariant buffer[..offset] == old(buffer[..offset]) && buffer[offset + size..] == old(buffer[offset + size..])
      invariant forall j :: 0 <= j < i ==> buffer[offset + j] == b[j]
      invariant b[..] == ToLE(n, size)
    {
      buffer[offset + i] := b[i];
    }
    assert buffer[offset..offset + size] == b[..];
  }

  // ---------------------------------------------------------------- decode

  const HEX_DIGITS: string := "0123456789abcdef"

  /** Two hexadecimal digits: the number's own digits behind two zeros, and the last two of that. */
  function Hex2(b: byte): (s: string)
    ensures |s| == 2
  {
    var n := b as nat;
    var own := if n < 16 then [HEX_DIGITS[n]] else [HEX_DIGITS[n / 16], HEX_DIGITS[n % 16]];
    var padded := "00" + own;
    padded[|padded| - 2..]
  }

  function Joined(bs: seq<byte>): string {
    if bs == [] then "" else Joined(bs[..|bs| - 1]) + Hex2(bs[|bs| - 1])
  }

  function DigitValue(c: char): nat {
    if '0' <= c <= '9' then c as nat - '0' as nat else if 'a' <= c <= 'f' then 10 + (c as nat - 'a' as nat) else 0
  }

  /** new BN(s, 16). */
  function ParseHex(s: string): nat {
    if s == "" then 0 else 16 * ParseHex(s[..|s| - 1]) + DigitValue(s[|s| - 1])
  }

  /** Decode the bytes of a blob. */
  function Decode(data: seq<byte>): nat {
    ParseHex(Joined(Reversed(data)))
  }

  lemma HexDigitValue(n: nat)
    requires n < 16
    ensures DigitValue(HEX_DIGITS[n]) == n
  {
  }

  lemma Hex2Value(s: string, b: byte)
    ensures ParseHex(s + Hex2(b)) == 256 * ParseHex(s) + b as nat
  {
    var n := b as nat;
    var t := s + Hex2(b);
    assert Hex2(b) == [HEX_DIGITS[n / 16], HEX_DIGITS[n % 16]];
    HexDigitValue(n / 16);
    HexDigitValue(n % 16);
    assert t[..|t| - 1] == s + [HEX_DIGITS[n / 16]];
    assert t[..|t| - 1][..|s|] == s;
  }

  /** Decoding through hexadecimal is reading little-endian. */
  lemma {:induction false} DecodeIsLE(data: seq<byte>)
    ensures Decode(data) == FromLE(data)
  {
    if data != [] {
      DecodeIsLE(data[1..]);
      ReversedTail(data);
      var r := Reversed(data);
      assert r[..|r| - 1] == Reversed(data[1..]);
      Hex2Value(Joined(Reversed(data[1..])), data[0]);
    }
  }

  lemma {:induction false} ReversedTail<T>(s: seq<T>)
    requires s != []
    ensures Reversed(s) == Reversed(s[1..]) + [s[0]]
  {
    if |s| > 1 {
      ReversedTail(s[..|s| - 1]);
      assert s[..|s| - 1][1..] == s[1..][..|s[1..]| - 1];
    }
  }

  /** Round trip: decoding what a size-byte layout encoded gives the number modulo 256^size. */
  lemma DecodeEncoded(n: nat, size: nat)
    ensures Decode(ToLE(n, size)) == n % Pow256(size)
  {
    DecodeIsLE(ToLE(n, size));
    LEModulo(n, size);
  }
}
