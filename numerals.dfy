/**
 * Decimal rendering of non-negative integers, as Python's `format` does it
 * for an `int` with the format specifications `d` and `0<width>` (zero padding
 * up to a minimum width; a wider number is never cut).
 */
module Numerals {

  predicate IsDigit(ch: char) {
    '0' <= ch <= '9'
  }

  predicate AllDigits(s: string) {
    forall i :: 0 <= i < |s| ==> IsDigit(s[i])
  }

  function DigitValue(ch: char): nat
    requires IsDigit(ch)
  {
    ch as int - '0' as int
  }

  function DigitChar(d: nat): (ch: char)
    requires d < 10
    ensures IsDigit(ch) && DigitValue(ch) == d
  {
    ('0' as int + d) as char
  }

  function Pow10(k: nat): (p: nat)
    ensures p >= 1
  {
    if k == 0 then 1 else 10 * Pow10(k - 1)
  }

  /** The shortest decimal rendering of `n`: digits only, no leading zero except for 0 itself. */
  function Decimal(n: nat): (s: string)
    ensures |s| >= 1 && AllDigits(s)
    ensures s[0] == '0' <==> n == 0
    decreases n
  {
    if n < 10 then [DigitChar(n)] else Decimal(n / 10) + [DigitChar(n % 10)]
  }

  /** The value of a string of decimal digits (the empty string is 0). */
  function ParseDecimal(s: string): nat
    requires AllDigits(s)
  {
    if |s| == 0 then 0 else ParseDecimal(s[..|s| - 1]) * 10 + DigitValue(s[|s| - 1])
  }

  /** `k` zero characters. */
  function Zeros(k: nat): (s: string)
    ensures |s| == k && AllDigits(s)
    ensures forall i :: 0 <= i < k ==> s[i] == '0'
  {
    if k == 0 then [] else Zeros(k - 1) + ['0']
  }

  /**
   * `n` rendered with zero padding to at least `width` characters (format spec
   * `0<width>`), and no longer than it needs to be.
   */
  function ZeroPadded(n: nat, width: nat): (s: string)
    ensures AllDigits(s)
    ensures |s| >= width && |s| >= |Decimal(n)|
    ensures |s| == width || s == Decimal(n)
  {
    var digits := Decimal(n);
    if |digits| < width then Zeros(width - |digits|) + digits else digits
  }

  /** Reading back the rendering of `n` gives `n`. */
  lemma {:induction false} ParseDecimalOfDecimal(n: nat)
    ensures ParseDecimal(Decimal(n)) == n
    decreases n
  {
    if n >= 10 {
      var s := Decimal(n);
      assert s[..|s| - 1] == Decimal(n / 10);
      ParseDecimalOfDecimal(n / 10);
    }
  }

  /** A leading zero does not change the value of a digit string. */
  lemma {:induction false} ParseLeadingZero(s: string)
    requires AllDigits(s)
    ensures AllDigits(['0'] + s) && ParseDecimal(['0'] + s) == ParseDecimal(s)
    decreases |s|
  {
    if |s| > 0 {
      assert (['0'] + s)[..|s|] == ['0'] + s[..|s| - 1];
      ParseLeadingZero(s[..|s| - 1]);
    }
  }

  /** Any number of leading zeros does not change the value of a digit string. */
  lemma {:induction false} ParseLeadingZeros(k: nat, s: string)
    requires AllDigits(s)
    ensures AllDigits(Zeros(k) + s) && ParseDecimal(Zeros(k) + s) == ParseDecimal(s)
    decreases k
  {
    if k > 0 {
      var t := ['0'] + s;
      assert Zeros(k) + s == Zeros(k - 1) + t;
      ParseLeadingZero(s);
      ParseLeadingZeros(k - 1, t);
    } else {
      assert Zeros(k) + s == s;
    }
  }

  /** A padded rendering is zeros followed by the plain rendering. */
  lemma ZeroPaddedShape(n: nat, width: nat)
    ensures ZeroPadded(n, width)[|ZeroPadded(n, width)| - |Decimal(n)|..] == Decimal(n)
    ensures forall i :: 0 <= i < |ZeroPadded(n, width)| - |Decimal(n)| ==> ZeroPadded(n, width)[i] == '0'
  {
    var padded := ZeroPadded(n, width);
    var digits := Decimal(n);
    if |digits| < width {
      var zeros := Zeros(width - |digits|);
      assert padded == zeros + digits;
      forall i | 0 <= i < |padded| - |digits| ensures padded[i] == '0' {
        assert padded[i] == zeros[i];
      }
      assert padded[|zeros|..] == digits;
    } else {
      assert padded == digits;
    }
  }

  /** Zero padding loses nothing: reading back a padded rendering gives the number. */
  lemma ZeroPaddedRoundTrip(n: nat, width: nat)
    ensures ParseDecimal(ZeroPadded(n, width)) == n
  {
    var digits := Decimal(n);
    ParseDecimalOfDecimal(n);
    if |digits| < width {
      ParseLeadingZeros(width - |digits|, digits);
    }
  }

  /** The rendering of `n` fits in `k` characters exactly when `n` is below 10^k. */
  lemma {:induction false} DecimalLength(n: nat, k: nat)
    requires k >= 1
    ensures |Decimal(n)| <= k <==> n < Pow10(k)
    decreases n
  {
    if n >= 10 {
      if k == 1 {
        assert Pow10(1) == 10;
      } else {
        DecimalLength(n / 10, k - 1);
      }
    } else {
      assert Pow10(k) == 10 * Pow10(k - 1);
    }
  }

  /**
   * With the format spec `04`, an index has exactly four characters up to 9999,
   * and more (its plain rendering, never cut) from 10000 on.
   */
  lemma PaddedToFour(n: nat)
    ensures |ZeroPadded(n, 4)| >= 4
    ensures |ZeroPadded(n, 4)| == 4 <==> n < 10000
    ensures n >= 10000 ==> ZeroPadded(n, 4) == Decimal(n)
  {
    DecimalLength(n, 4);
    assert Pow10(4) == 10000;
  }
}
