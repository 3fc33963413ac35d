/** Numbers written in decimal digits. */
module Decimals {

  predicate IsDigit(c: char) {
    '0' <= c <= '9'
  }

  predicate DigitAt(s: string, i: int) {
    0 <= i < |s| ==> IsDigit(s[i])
  }

  predicate AllDigits(s: string) {
    forall i | 0 <= i < |s| :: DigitAt(s, i)
  }

  lemma DigitsFront(s: string)
    requires AllDigits(s) && s != ""
    ensures AllDigits(s[..|s| - 1]) && IsDigit(s[|s| - 1])
  {
    assert DigitAt(s, |s| - 1);
    var front := s[..|s| - 1];
    forall i | 0 <= i < |front| ensures DigitAt(front, i) { assert DigitAt(s, i); }
  }

  function ToDigit(d: nat): char
    requires d < 10
  {
    '0' + d as char
  }

  /** The number that a run of digits writes. */
  function Digits(s: string): nat
    requires AllDigits(s)
  {
    if s == "" then 0
    else
      DigitsFront(s);
      10 * Digits(s[..|s| - 1]) + (s[|s| - 1] - '0') as nat
  }

  function Decimal(n: nat): string {
    (if n < 10 then "" else Decimal(n / 10)) + [ToDigit(n % 10)]
  }

  lemma DigitsSnoc(s: string, d: char)
    requires AllDigits(s) && IsDigit(d)
    ensures AllDigits(s + [d]) && Digits(s + [d]) == 10 * Digits(s) + (d - '0') as nat
  {
    forall i | 0 <= i < |s + [d]| ensures DigitAt(s + [d], i) { assert i < |s| ==> DigitAt(s, i); }
    assert (s + [d])[..|s|] == s;
  }

  lemma {:induction false} DecimalReads(n: nat)
    ensures Decimal(n) != "" && AllDigits(Decimal(n)) && Digits(Decimal(n)) == n
  {
    if n >= 10 { DecimalReads(n / 10); }
    DigitsSnoc(if n < 10 then "" else Decimal(n / 10), ToDigit(n % 10));
  }

  function Pow10(k: nat): (r: nat)
    ensures r > 0
  {
    if k == 0 then 1 else 10 * Pow10(k - 1)
  }

  lemma {:induction false} DigitsBound(s: string)
    requires AllDigits(s)
    ensures Digits(s) < Pow10(|s|)
  {
    if s != "" {
      DigitsFront(s);
      DigitsBound(s[..|s| - 1]);
    }
  }
}
