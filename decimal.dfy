/**
 * Decimal numerals on naturals: `parseInt(digits, 10)` on the digit strings
 * the lexer hands over, and the way a number prints inside a string
 * concatenation.
 */
module Decimal {
  import opened Lexer

  /** The value of a decimal digit; other characters never reach it and count as 0. */
  function DigitValue(c: char): (d: nat)
    ensures d < 10
  {
    if InClass(Digit, c) then c as int - '0' as int else 0
  }

  function DigitChar(d: nat): (c: char)
    requires d < 10
    ensures InClass(Digit, c) && DigitValue(c) == d
  {
    (d + '0' as int) as char
  }

  /** `parseInt(s, 10)` for a string of decimal digits (most significant first). */
  function DecimalValue(s: string): (n: nat)
  {
    if |s| == 0 then 0 else DecimalValue(s[..|s| - 1]) * 10 + DigitValue(s[|s| - 1])
  }

  /** The decimal numeral of `n`, without leading zeros; `DecimalValue` reads it back as `n`. */
  function DecimalString(n: nat): (s: string)
    ensures |s| > 0 && AllIn(Digit, s, 0)
    ensures DecimalValue(s) == n
    ensures |s| > 1 ==> s[0] != '0'
  {
    if n < 10 then [DigitChar(n)]
    else
      var prefix := DecimalString(n / 10);
      var s := prefix + [DigitChar(n % 10)];
      assert s[..|s| - 1] == prefix;
      s
  }

  /** A leading zero before a non-empty digit string is ignored by `parseInt`. */
  lemma {:induction false} DecimalValueLeadingZero(s: string)
    requires |s| > 0
    ensures DecimalValue("0" + s) == DecimalValue(s)
  {
    var z := "0" + s;
    assert z[..|z| - 1] == "0" + s[..|s| - 1];
    if |s| > 1 {
      DecimalValueLeadingZero(s[..|s| - 1]);
    }
  }
}
