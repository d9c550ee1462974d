/**
 * The number formats the generator writes: `{:X}` (upper-case hexadecimal,
 * no padding), `{:08X}` (the same, zero-padded to at least eight digits)
 * and `{}` (decimal).
 */
module NumberText {

  predicate IsHexDigit(c: char) {
    '0' <= c <= '9' || 'A' <= c <= 'F'
  }

  function HexDigit(d: nat): (c: char)
    requires d < 16
    ensures IsHexDigit(c) && DigitValue(c) == d
  {
    if d < 10 then '0' + d as char else 'A' + (d - 10) as char
  }

  function DigitValue(c: char): nat
    requires IsHexDigit(c)
  {
    if c <= '9' then (c - '0') as nat else (c - 'A') as nat + 10
  }

  /** `{:X}`. */
  function Hex(n: nat): (r: string)
    ensures |r| >= 1
    ensures forall i :: 0 <= i < |r| ==> IsHexDigit(r[i])
  {
    if n < 16 then [HexDigit(n)] else Hex(n / 16) + [HexDigit(n % 16)]
  }

  /** `{:08X}`. */
  function Hex8(n: nat): (r: string)
    ensures |r| >= 8
    ensures forall i :: 0 <= i < |r| ==> IsHexDigit(r[i])
  {
    var digits := Hex(n);
    if |digits| >= 8 then digits else Zeros(8 - |digits|) + digits
  }

  function Zeros(k: nat): (r: string)
    ensures |r| == k && forall i :: 0 <= i < k ==> r[i] == '0'
  {
    if k == 0 then "" else Zeros(k - 1) + "0"
  }

  /** The value a string of hexadecimal digits denotes. */
  function HexValue(s: string): nat
    requires forall i :: 0 <= i < |s| ==> IsHexDigit(s[i])
  {
    if s == [] then 0 else HexValue(s[..|s| - 1]) * 16 + DigitValue(s[|s| - 1])
  }

  /** Hexadecimal text denotes the number it was made from. */
  lemma {:induction false} HexRoundTrip(n: nat)
    ensures HexValue(Hex(n)) == n
  {
    if n >= 16 {
      HexRoundTrip(n / 16);
      var s := Hex(n);
      assert s[..|s| - 1] == Hex(n / 16);
    }
  }

  /** Padding adds only leading zeros, which do not change the value. */
  lemma {:induction false} Hex8RoundTrip(n: nat)
    ensures HexValue(Hex8(n)) == n
  {
    HexRoundTrip(n);
    var d := Hex(n);
    if |d| < 8 {
      LeadingZeros(Zeros(8 - |d|), d);
    }
  }

  lemma {:induction false} LeadingZeros(z: string, d: string)
    requires forall i :: 0 <= i < |z| ==> z[i] == '0'
    requires forall i :: 0 <= i < |d| ==> IsHexDigit(d[i])
    ensures forall i :: 0 <= i < |z + d| ==> IsHexDigit((z + d)[i])
    ensures HexValue(z + d) == HexValue(d)
    decreases |d|
  {
    if d == [] {
      assert z + d == z;
      AllZeros(z);
    } else {
      var last := |d| - 1;
      assert (z + d)[..|z + d| - 1] == z + d[..last];
      LeadingZeros(z, d[..last]);
    }
  }

  lemma {:induction false} AllZeros(z: string)
    requires forall i :: 0 <= i < |z| ==> z[i] == '0'
    ensures forall i :: 0 <= i < |z| ==> IsHexDigit(z[i])
    ensures HexValue(z) == 0
  {
    if z != [] {
      AllZeros(z[..|z| - 1]);
    }
  }

  /** `{}` on an unsigned number. */
  function Decimal(n: nat): (r: string)
    ensures |r| >= 1
    ensures forall i :: 0 <= i < |r| ==> '0' <= r[i] <= '9'
  {
    if n < 10 then ['0' + n as char] else Decimal(n / 10) + ['0' + (n % 10) as char]
  }
}
