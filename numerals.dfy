/** Decimal numerals as the page reads and writes them: the digits of a
    generated user id, and the integer text of the payment-limit input. */
module Numerals {

  predicate IsDigit(c: char) {
    '0' <= c <= '9'
  }

  predicate AllDigits(s: string) {
    forall i | 0 <= i < |s| :: IsDigit(s[i])
  }

  function DigitChar(d: nat): (c: char)
    requires d < 10
    ensures IsDigit(c) && c as int - '0' as int == d
  {
    ('0' as int + d) as char
  }

  /** The value of a string of decimal digits, most significant first. */
  function DigitsValue(s: string): nat
    requires AllDigits(s)
  {
    if s == [] then 0
    else 10 * DigitsValue(s[..|s| - 1]) + (s[|s| - 1] as int - '0' as int)
  }

  /** The shortest decimal form of n, as JavaScript's number-to-string gives
      it for a non-negative integer below 10^21 (from there on it switches to
      exponent form; the ids use only numbers below 10000): digits only, and
      no leading zero unless the number is zero itself. */
  function DecimalString(n: nat): (r: string)
    ensures 1 <= |r| && AllDigits(r)
    ensures |r| > 1 ==> r[0] != '0'
    ensures n < 10 <==> |r| == 1
  {
    if n < 10 then [DigitChar(n)] else DecimalString(n / 10) + [DigitChar(n % 10)]
  }

  /** Reading back the decimal form gives the number. */
  lemma {:induction false} DecimalStringValue(n: nat)
    ensures DigitsValue(DecimalString(n)) == n
  {
    if n >= 10 {
      var s := DecimalString(n);
      assert s[..|s| - 1] == DecimalString(n / 10);
      DecimalStringValue(n / 10);
    }
  }

  /** The decimal form has at most four digits exactly below 10000. */
  lemma {:induction false} DecimalStringLength(n: nat)
    ensures n < 10000 <==> |DecimalString(n)| <= 4
  {
    if n >= 10 {
      DecimalStringLength(n / 10);
    }
  }

  /** A string of digits is worth zero exactly when every digit is '0'. */
  lemma {:induction false} DigitsValueZero(s: string)
    requires AllDigits(s)
    ensures DigitsValue(s) == 0 <==> forall i | 0 <= i < |s| :: s[i] == '0'
  {
    if s != [] {
      var p := s[..|s| - 1];
      DigitsValueZero(p);
      assert forall i | 0 <= i < |p| :: p[i] == s[i];
    }
  }
}
