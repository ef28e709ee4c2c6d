/** Decimal text of numbers, as `Number.prototype.toFixed(2)` writes it, for a value
    given in integer hundredths (the binary floating point underneath is not modelled). */
module Numerals {

  predicate IsDigit(c: char) {
    '0' <= c <= '9'
  }

  function DigitChar(d: nat): (c: char)
    requires d < 10
    ensures IsDigit(c)
  {
    ('0' as int + d) as char
  }

  function DigitValue(c: char): (d: nat)
    requires IsDigit(c)
    ensures d < 10
  {
    c as int - '0' as int
  }

  predicate AllDigits(s: string) {
    forall i :: 0 <= i < |s| ==> IsDigit(s[i])
  }

  /** The decimal numeral of `n`, without leading zeros. */
  function DecimalText(n: nat): (s: string)
    ensures |s| >= 1 && AllDigits(s)
    ensures |s| > 1 ==> s[0] != '0'
  {
    if n < 10 then [DigitChar(n)] else DecimalText(n / 10) + [DigitChar(n % 10)]
  }

  /** The value a string of decimal digits denotes. */
  function DecimalValue(s: string): nat
    requires AllDigits(s)
  {
    if s == [] then 0 else DecimalValue(s[..|s| - 1]) * 10 + DigitValue(s[|s| - 1])
  }

  lemma {:induction false} DecimalRoundTrip(n: nat)
    ensures DecimalValue(DecimalText(n)) == n
  {
    var s := DecimalText(n);
    if n >= 10 {
      DecimalRoundTrip(n / 10);
      assert s[..|s| - 1] == DecimalText(n / 10);
    }
  }

  /** The unsigned form `<integer part>.<two digits>` of `n` hundredths. */
  function UnsignedFixed(n: nat): (s: string)
    ensures |s| >= 4 && s[|s| - 3] == '.'
    ensures AllDigits(s[..|s| - 3]) && IsDigit(s[|s| - 2]) && IsDigit(s[|s| - 1])
  {
    var s := DecimalText(n / 100) + "." + [DigitChar(n / 10 % 10), DigitChar(n % 10)];
    assert s[..|s| - 3] == DecimalText(n / 100);
    s
  }

  /** `(h / 100).toFixed(2)`: exactly two digits after the point, a leading `-` for
      a negative value. */
  function FixedTwo(h: int): (s: string)
    ensures forall i :: 0 <= i < |s| ==> IsDigit(s[i]) || s[i] == '.' || s[i] == '-'
  {
    if h < 0 then "-" + UnsignedFixed(-h) else UnsignedFixed(h)
  }

  /** Reads back the value, in hundredths, of a numeral that `FixedTwo` writes. */
  function ParseFixedTwo(s: string): int
    requires |s| >= 4 && s[|s| - 3] == '.'
    requires IsDigit(s[|s| - 2]) && IsDigit(s[|s| - 1])
    requires if s[0] == '-' then |s| >= 5 && AllDigits(s[1..|s| - 3]) else AllDigits(s[..|s| - 3])
  {
    var cents := DigitValue(s[|s| - 2]) * 10 + DigitValue(s[|s| - 1]);
    if s[0] == '-' then -(DecimalValue(s[1..|s| - 3]) * 100 + cents)
    else DecimalValue(s[..|s| - 3]) * 100 + cents
  }

  lemma UnsignedRoundTrip(n: nat)
    ensures DecimalValue(UnsignedFixed(n)[..|UnsignedFixed(n)| - 3]) * 100
      + DigitValue(UnsignedFixed(n)[|UnsignedFixed(n)| - 2]) * 10
      + DigitValue(UnsignedFixed(n)[|UnsignedFixed(n)| - 1]) == n
  {
    var s := UnsignedFixed(n);
    assert s[..|s| - 3] == DecimalText(n / 100);
    DecimalRoundTrip(n / 100);
    assert DigitValue(s[|s| - 2]) == n / 10 % 10;
    assert DigitValue(s[|s| - 1]) == n % 10;
    PlaceValues(n);
  }

  /** A number is its hundreds, its tens digit and its units digit, each at its place. */
  lemma PlaceValues(n: nat)
    ensures n / 100 * 100 + n / 10 % 10 * 10 + n % 10 == n
  {
    var t := n / 10;
    assert n == t * 10 + n % 10;
    assert t == t / 10 * 10 + t % 10;
    assert t / 10 == n / 100;
  }

  /** `FixedTwo` writes a numeral from which the value is recovered exactly. */
  lemma FixedTwoRoundTrip(h: int)
    ensures var s := FixedTwo(h);
      && |s| >= 4 && s[|s| - 3] == '.' && IsDigit(s[|s| - 2]) && IsDigit(s[|s| - 1])
      && (if s[0] == '-' then |s| >= 5 && AllDigits(s[1..|s| - 3]) else AllDigits(s[..|s| - 3]))
      && ParseFixedTwo(s) == h
  {
    var u := UnsignedFixed(if h < 0 then -h else h);
    UnsignedRoundTrip(if h < 0 then -h else h);
    if h < 0 {
      var s := "-" + u;
      assert s[1..|s| - 3] == u[..|u| - 3];
      assert s[|s| - 2] == u[|u| - 2] && s[|s| - 1] == u[|u| - 1];
    } else {
      assert u[0] != '-' by { assert u[0] == DecimalText(h / 100)[0]; }
    }
  }
}
