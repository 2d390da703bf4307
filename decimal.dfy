/** Decimal digit strings: their value, zero padding (`f"{n:02d}"`) and the
    canonical rendering `str(n)` of a natural number. */
module Decimal {
  import opened Text

  function Pow10(n: nat): (p: nat)
    ensures p >= 1
  {
    if n == 0 then 1 else 10 * Pow10(n - 1)
  }

  function DigitChar(d: nat): (c: char)
    requires d < 10
    ensures IsDigit(c)
  {
    ('0' as int + d) as char
  }

  function DigitValue(c: char): (d: nat)
    requires IsDigit(c)
    ensures d < 10
  {
    c as int - '0' as int
  }

  /** The number a digit string denotes, most significant digit first. */
  function ValueOf(s: string): (v: nat)
    requires AllDigits(s)
    ensures v < Pow10(|s|)
  {
    if s == [] then 0 else ValueOf(s[..|s| - 1]) * 10 + DigitValue(s[|s| - 1])
  }

  /** Appending one digit multiplies by ten and adds it. */
  lemma ValueOfSnoc(a: string, d: nat)
    requires AllDigits(a) && d < 10
    ensures AllDigits(a + [DigitChar(d)])
    ensures ValueOf(a + [DigitChar(d)]) == ValueOf(a) * 10 + d
  {
    assert (a + [DigitChar(d)])[..|a|] == a;
  }

  /** `n` written with exactly `width` digits, padded with leading zeros. */
  function ZeroPad(n: nat, width: nat): (r: string)
    requires n < Pow10(width)
    ensures |r| == width && AllDigits(r)
    ensures ValueOf(r) == n
  {
    if width == 0 then []
    else
      ValueOfSnoc(ZeroPad(n / 10, width - 1), n % 10);
      ZeroPad(n / 10, width - 1) + [DigitChar(n % 10)]
  }

  /** `str(n)`: the shortest decimal rendering, without leading zeros. */
  function NatToString(n: nat): (r: string)
    ensures |r| >= 1 && AllDigits(r)
    ensures ValueOf(r) == n
    ensures |r| > 1 ==> r[0] != '0'
  {
    if n < 10 then
      assert ValueOf([DigitChar(n)]) == ValueOf([]) * 10 + n;
      [DigitChar(n)]
    else
      ValueOfSnoc(NatToString(n / 10), n % 10);
      NatToString(n / 10) + [DigitChar(n % 10)]
  }

  /** Distinct numbers have distinct renderings, and vice versa. */
  lemma NatToStringInjective(m: nat, n: nat)
    ensures NatToString(m) == NatToString(n) <==> m == n
  {
  }

  /** Digit strings of equal width and equal value are equal. */
  lemma {:induction false} ValueOfInjective(a: string, b: string)
    requires AllDigits(a) && AllDigits(b) && |a| == |b|
    requires ValueOf(a) == ValueOf(b)
    ensures a == b
  {
    if a != [] {
      var k := |a| - 1;
      assert ValueOf(a) == ValueOf(a[..k]) * 10 + DigitValue(a[k]);
      assert ValueOf(b) == ValueOf(b[..k]) * 10 + DigitValue(b[k]);
      assert DigitValue(a[k]) == DigitValue(b[k]);
      ValueOfInjective(a[..k], b[..k]);
      assert a == a[..k] + [a[k]];
      assert b == b[..k] + [b[k]];
    }
  }

  lemma ZeroPadTwo(n: nat)
    requires n < 100
    ensures ZeroPad(n, 2) == [DigitChar(n / 10), DigitChar(n % 10)]
  {
    assert ZeroPad(n / 10, 1) == [DigitChar(n / 10)];
  }
}
