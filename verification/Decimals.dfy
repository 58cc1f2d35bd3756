/** Natural numbers as strings of decimal digits. */
module Decimals {
  predicate IsDigit(c: char) { '0' <= c <= '9' }

  predicate AllDigits(s: string) { forall i :: 0 <= i < |s| ==> IsDigit(s[i]) }

  function Digit(d: nat): (c: char)
    requires d < 10
    ensures IsDigit(c) && DigitValue(c) == d
  {
    '0' + d as char
  }

  function DigitValue(c: char): nat
    requires IsDigit(c)
  {
    (c - '0') as nat
  }

  /** `n.toString()` */
  function ToDecimal(n: nat): (s: string)
    ensures s != [] && AllDigits(s)
  {
    if n < 10 then [Digit(n)] else ToDecimal(n / 10) + [Digit(n % 10)]
  }

  /** `BigInt(s)` for a string of digits; the empty string is 0. */
  function FromDecimal(s: string): nat
    requires AllDigits(s)
  {
    if s == [] then 0 else FromDecimal(s[..|s| - 1]) * 10 + DigitValue(s[|s| - 1])
  }

  lemma FromDecimalOfAppended(s: string, c: char)
    requires AllDigits(s) && IsDigit(c)
    ensures AllDigits(s + [c]) && FromDecimal(s + [c]) == FromDecimal(s) * 10 + DigitValue(c)
  {
  }

  lemma {:induction false} ReadPrinted(n: nat)
    ensures FromDecimal(ToDecimal(n)) == n
  {
    if n < 10 {
      FromDecimalOfAppended([], Digit(n));
      assert [] + [Digit(n)] == [Digit(n)];
    } else {
      ReadPrinted(n / 10);
      FromDecimalOfAppended(ToDecimal(n / 10), Digit(n % 10));
    }
  }
}
