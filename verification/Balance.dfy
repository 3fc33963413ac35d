/** Money as text (app/web/src/balance.rs). Amounts are stored as signed 64-bit integers, 10^10 to the
    display unit. */
module Balance {
  import opened Decimals
  import opened Options
  import opened Strings

  const BALANCE_SCALE: int := 10_000_000_000
  const CENT: int := 100_000_000    // a hundredth of the scale
  const I64_MAX: int := 0x7FFF_FFFF_FFFF_FFFF
  const I64_MIN: int := -0x8000_0000_0000_0000

  predicate Fits(n: int) {
    I64_MIN <= n <= I64_MAX
  }

  /** Division as the program's integers do it, toward zero. */
  function TruncatingDiv(a: int, b: int): int
    requires b > 0
  {
    if a < 0 then -(-a / b) else a / b
  }

  lemma Powers()
    ensures Pow10(8) == CENT && Pow10(10) == BALANCE_SCALE
  {
    assert Pow10(2) == 100;
    assert Pow10(4) == 100 * Pow10(2) && Pow10(6) == 100 * Pow10(4) && Pow10(8) == 100 * Pow10(6);
    assert Pow10(10) == 100 * Pow10(8);
  }

  // ---------- Formatting ----------

  function Pad2(n: nat): string
    requires n < 100
  {
    [ToDigit(n / 10), ToDigit(n % 10)]
  }

  function FormatCents(cents: int): string {
    var abs := if cents < 0 then -cents else cents;
    (if cents < 0 then "-" else "") + Decimal(abs / 100) + "." + Pad2(abs % 100)
  }

  function FormatBalance(stored: int): string {
    FormatCents(TruncatingDiv(stored, CENT))
  }

  // ---------- Parsing ----------

  /** The text before the first point and the text after it. */
  datatype Split = Split(whole: string, fraction: string)

  function SplitOnce(s: string): Split
    decreases |s|
  {
    if s == "" then Split("", "")
    else if s[0] == '.' then Split("", s[1..])
    else
      var rest := SplitOnce(s[1..]);
      Split([s[0]] + rest.whole, rest.fraction)
  }

  function ParseI64(digits: string): Option<int>
    requires AllDigits(digits)
  {
    if Digits(digits) <= I64_MAX then Some(Digits(digits)) else None
  }

  function Checked(n: int): Option<int> {
    if Fits(n) then Some(n) else None
  }

  /** What a text denotes as an amount in stored units: digits with at most one point among them, at least
      one digit, at most ten after the point; and the exact decimal value, scaled, is `v` and fits. */
  ghost predicate Denotes(s: string, v: int) {
    exists whole, fraction :: Writes(s, whole, fraction, v)
  }

  ghost predicate Writes(s: string, whole: string, fraction: string, v: int) {
    && ((s == whole && fraction == "") || s == whole + "." + fraction)
    && AllDigits(whole) && AllDigits(fraction) && 0 < |whole| + |fraction| && |fraction| <= 10
    && v as real == Exact(whole, fraction) * BALANCE_SCALE as real && Fits(v)
  }

  /** The decimal value of a number written with a point. */
  ghost function Exact(whole: string, fraction: string): real
    requires AllDigits(whole) && AllDigits(fraction)
  {
    Digits(whole) as real + Digits(fraction) as real / Pow10(|fraction|) as real
  }

  /** The same, by the split at the first point and in whole numbers. */
  predicate Amount(whole: string, fraction: string) {
    AllDigits(whole) && AllDigits(fraction) && 0 < |whole| + |fraction| && |fraction| <= 10
  }

  function Units(whole: string, fraction: string): int
    requires Amount(whole, fraction)
  {
    Digits(whole) * BALANCE_SCALE + Digits(fraction) * Pow10(10 - |fraction|)
  }

  lemma {:induction false} SplitJoins(s: string)
    ensures var p := SplitOnce(s); (s == p.whole && p.fraction == "") || s == p.whole + "." + p.fraction
  {
    if s != "" && s[0] != '.' {
      SplitJoins(s[1..]);
      var p := SplitOnce(s[1..]);
      assert s == [s[0]] + s[1..];
      assert [s[0]] + (p.whole + "." + p.fraction) == [s[0]] + p.whole + "." + p.fraction;
    } else if s != "" {
      assert s == "" + "." + s[1..];
    }
  }

  lemma {:induction false} SplitAtPoint(whole: string, tail: string)
    requires AllDigits(whole) && (tail == "" || tail[0] == '.')
    ensures SplitOnce(whole + tail) == Split(whole, if tail == "" then "" else tail[1..])
  {
    if whole == "" {
      assert whole + tail == tail;
    } else {
      assert DigitAt(whole, 0) && (whole + tail)[1..] == whole[1..] + tail;
      assert forall i | 0 <= i < |whole| - 1 :: DigitAt(whole, i + 1) ==> DigitAt(whole[1..], i);
      SplitAtPoint(whole[1..], tail);
      assert [whole[0]] + whole[1..] == whole;
    }
  }

  lemma {:induction false} PowSplit(a: nat, b: nat)
    ensures Pow10(a + b) == Pow10(a) * Pow10(b)
  {
    if a > 0 { PowSplit(a - 1, b); }
  }

  lemma ExactScaled(whole: string, fraction: string)
    requires Amount(whole, fraction)
    ensures Exact(whole, fraction) * BALANCE_SCALE as real == Units(whole, fraction) as real
  {
    var k := |fraction|;
    var f, p, q := Digits(fraction) as real, Pow10(k) as real, Pow10(10 - k) as real;
    Powers();
    PowSplit(k, 10 - k);
    assert BALANCE_SCALE as real == p * q;
    assert f / p * (p * q) == f * q;
  }

  lemma DenotesBySplit(s: string, v: int)
    ensures var p := SplitOnce(s);
            Denotes(s, v) <==> Amount(p.whole, p.fraction) && Fits(v) && v == Units(p.whole, p.fraction)
  {
    var p := SplitOnce(s);
    SplitJoins(s);
    if Amount(p.whole, p.fraction) && Fits(v) && v == Units(p.whole, p.fraction) {
      ExactScaled(p.whole, p.fraction);
      assert Writes(s, p.whole, p.fraction, v);
    }
    if Denotes(s, v) {
      var whole, fraction :| Writes(s, whole, fraction, v);
      WritesIsSplit(s, whole, fraction);
      ExactScaled(whole, fraction);
    }
  }

  lemma WritesIsSplit(s: string, whole: string, fraction: string)
    requires (s == whole && fraction == "") || s == whole + "." + fraction
    requires AllDigits(whole)
    ensures SplitOnce(s) == Split(whole, fraction)
  {
    if s == whole && fraction == "" {
      assert whole + "" == whole;
      SplitAtPoint(whole, "");
    } else {
      assert whole + "." + fraction == whole + ("." + fraction) && ("." + fraction)[1..] == fraction;
      SplitAtPoint(whole, "." + fraction);
    }
  }

  /** The amount a text is read as. */
  method ParseDisplayAmount(input: string) returns (r: Option<int>)
    ensures forall v :: r == Some(v) <==> Denotes(Trim(input), v)
  {
    var s := Trim(input);
    var parts := SplitOnce(s);
    var whole, fraction := parts.whole, parts.fraction;
    forall v {
      DenotesBySplit(s, v);
    }
    if s == "" || (whole == "" && fraction == "") || !AllDigits(whole) || !AllDigits(fraction) || |fraction| > 10 {
      return None;
    }
    var wholeValue := if whole == "" then Some(0) else ParseI64(whole);
    if wholeValue.None? {
      return None;
    }
    var padded := PadFraction(fraction);
    var fractionValue := ParseI64(padded);
    if fractionValue.None? {
      return None;
    }
    var scaled := Checked(wholeValue.value * BALANCE_SCALE);
    if scaled.None? {
      return None;
    }
    r := Checked(scaled.value + fractionValue.value);
  }

  method PadFraction(fraction: string) returns (padded: string)
    requires AllDigits(fraction) && |fraction| <= 10
    ensures AllDigits(padded) && Digits(padded) == Digits(fraction) * Pow10(10 - |fraction|) < BALANCE_SCALE
  {
    padded := fraction;
    while |padded| < 10
      invariant |fraction| <= |padded| <= 10 && AllDigits(padded)
      invariant Digits(padded) == Digits(fraction) * Pow10(|padded| - |fraction|)
    {
      PadStep(padded, Digits(fraction), |padded| - |fraction|);
      padded := padded + "0";
    }
    DigitsBound(padded);
    Powers();
  }

  lemma PadStep(padded: string, n: nat, k: nat)
    requires AllDigits(padded) && Digits(padded) == n * Pow10(k)
    ensures AllDigits(padded + "0") && Digits(padded + "0") == n * Pow10(k + 1)
  {
    DigitsSnoc(padded, '0');
    assert 10 * (n * Pow10(k)) == n * (10 * Pow10(k));
  }

  // ---------- There and back ----------

  /** The text of a number of cents denotes that number. */
  lemma CentsRead(cents: nat)
    ensures var whole, fraction := Decimal(cents / 100), Pad2(cents % 100);
            && SplitOnce("" + whole + "." + fraction) == Split(whole, fraction)
            && Amount(whole, fraction) && Units(whole, fraction) == cents * CENT
  {
    var whole, fraction := Decimal(cents / 100), Pad2(cents % 100);
    DecimalReads(cents / 100);
    Pad2Reads(cents % 100);
    assert "" + whole + "." + fraction == whole + "." + fraction;
    WritesIsSplit("" + whole + "." + fraction, whole, fraction);
    Powers();
    assert Units(whole, fraction) == cents / 100 * (100 * CENT) + cents % 100 * CENT;
  }

  /** An amount formatted and read again is cut to cents, if it is not a whole cent below zero. */
  lemma FormatParses(stored: int, v: int)
    requires Fits(stored)
    ensures Denotes(Trim(FormatBalance(stored)), v) <==>
            stored > -CENT && v == if stored < 0 then 0 else stored - stored % CENT
  {
    CutToCents(stored);
    FormattedCents(TruncatingDiv(stored, CENT), v);
  }

  lemma CutToCents(stored: int)
    requires Fits(stored)
    ensures TruncatingDiv(stored, CENT) < 0 <==> stored <= -CENT
    ensures stored < 0 && stored > -CENT ==> TruncatingDiv(stored, CENT) == 0
    ensures stored >= 0 ==> TruncatingDiv(stored, CENT) * CENT == stored - stored % CENT && Fits(stored - stored % CENT)
  {
    if stored >= 0 {
      var q, r := stored / CENT, stored % CENT;
      assert stored == q * CENT + r && 0 <= r < CENT;
    } else {
      var q, r := -stored / CENT, -stored % CENT;
      assert -stored == q * CENT + r && 0 <= r < CENT;
    }
  }

  lemma FormattedCents(cents: int, v: int)
    ensures Denotes(Trim(FormatCents(cents)), v) <==> cents >= 0 && v == cents * CENT && Fits(v)
  {
    DenotesBySplit(FormatCents(cents), v);
    if cents < 0 { NegativeFormat(cents); } else { PositiveFormat(cents); }
  }

  lemma NegativeFormat(cents: int)
    requires cents < 0
    ensures var s := FormatCents(cents); Trim(s) == s && !Amount(SplitOnce(s).whole, SplitOnce(s).fraction)
  {
    DecimalReads(-cents / 100);
    NegativeText(Decimal(-cents / 100), Pad2(-cents % 100));
  }

  lemma NegativeText(whole: string, fraction: string)
    requires whole != "" && AllDigits(whole) && |fraction| == 2 && IsDigit(fraction[1])
    ensures var s := "-" + whole + "." + fraction; Trim(s) == s && !Amount(SplitOnce(s).whole, SplitOnce(s).fraction)
  {
    FormatTrimmed("-", whole, fraction);
    NegativeIsNoAmount(whole + "." + fraction);
    assert "-" + whole + "." + fraction == "-" + (whole + "." + fraction);
  }

  lemma PositiveFormat(cents: nat)
    ensures var s := FormatCents(cents);
            && Trim(s) == s && Amount(SplitOnce(s).whole, SplitOnce(s).fraction)
            && Units(SplitOnce(s).whole, SplitOnce(s).fraction) == cents * CENT
  {
    DecimalReads(cents / 100);
    FormatTrimmed("", Decimal(cents / 100), Pad2(cents % 100));
    CentsRead(cents);
  }

  lemma Pad2Reads(n: nat)
    requires n < 100
    ensures AllDigits(Pad2(n)) && Digits(Pad2(n)) == n
  {
    DigitsSnoc("", ToDigit(n / 10));
    DigitsSnoc([ToDigit(n / 10)], ToDigit(n % 10));
    assert "" + [ToDigit(n / 10)] == [ToDigit(n / 10)] && [ToDigit(n / 10)] + [ToDigit(n % 10)] == Pad2(n);
  }

  lemma FormatTrimmed(sign: string, whole: string, fraction: string)
    requires (sign == "" || sign == "-") && whole != "" && AllDigits(whole) && |fraction| == 2 && IsDigit(fraction[1])
    ensures Trim(sign + whole + "." + fraction) == sign + whole + "." + fraction
  {
    assert DigitAt(whole, 0);
    var s := sign + whole + "." + fraction;
    assert s[0] == (if sign == "" then whole[0] else '-') && s[|s| - 1] == fraction[1];
  }

  /** A sign is not a digit. */
  lemma NegativeIsNoAmount(s: string)
    ensures !Amount(SplitOnce("-" + s).whole, SplitOnce("-" + s).fraction)
  {
    assert ("-" + s)[1..] == s;
    var p := SplitOnce("-" + s);
    assert p.whole[0] == '-' && !IsDigit(p.whole[0]);
    assert AllDigits(p.whole) ==> DigitAt(p.whole, 0);
  }
}
