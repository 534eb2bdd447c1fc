/** Decimal numbers as Go writes and reads them. */
module Decimals {
  /** Decimal digits, as `strconv.Itoa` writes them. */
  function Digits(n: nat): string {
    if n < 10 then [DigitChar(n)] else Digits(n / 10) + [DigitChar(n % 10)]
  }

  function DigitChar(n: nat): char
    requires n < 10
  {
    '0' + n as char
  }

  lemma DigitsShape(n: nat)
    ensures Digits(n) != "" && Digits(n)[|Digits(n)| - 1] == DigitChar(n % 10)
    ensures n < 10 ==> |Digits(n)| == 1
    ensures n >= 10 ==> |Digits(n)| > 1 && Digits(n)[..|Digits(n)| - 1] == Digits(n / 10)
  {
  }

  lemma {:induction false} DigitsDiffer(m: nat, n: nat)
    requires Digits(m) == Digits(n)
    ensures m == n
    decreases m
  {
    DigitsShape(m);
    DigitsShape(n);
    if m >= 10 {
      DigitsDiffer(m / 10, n / 10);
    }
  }

  // ---------------------------------------------------------------- reading

  predicate IsDigit(c: char) { '0' <= c <= '9' }

  predicate AllDigits(s: string) { forall i | 0 <= i < |s| :: IsDigit(s[i]) }

  function DigitValue(c: char): nat
    requires IsDigit(c)
  {
    c as int - '0' as int
  }

  function ValueOf(s: string): nat
    requires AllDigits(s)
  {
    if s == "" then 0 else ValueOf(s[..|s| - 1]) * 10 + DigitValue(s[|s| - 1])
  }

  /** What is written reads back, and has no leading zero unless it is zero. */
  lemma {:induction false} DigitsReadBack(n: nat)
    ensures AllDigits(Digits(n)) && ValueOf(Digits(n)) == n
    ensures n > 0 ==> Digits(n)[0] != '0'
  {
    DigitsShape(n);
    if n >= 10 {
      DigitsReadBack(n / 10);
      DigitsShape(n / 10);
      var front := Digits(n / 10);
      assert Digits(n) == front + [DigitChar(n % 10)];
      assert ValueOf(Digits(n)) == n / 10 * 10 + n % 10;
    }
  }

  /** A number that starts with another digit than zero is positive. */
  lemma {:induction false} LeadingDigitIsPositive(s: string)
    requires s != "" && AllDigits(s) && s[0] != '0'
    ensures ValueOf(s) > 0
  {
    if |s| > 1 {
      LeadingDigitIsPositive(s[..|s| - 1]);
    }
  }
}
