/** How an amount is shown (app/web/src/balance.rs), below zero as above. */
module Amounts {
  import opened Balance
  import opened Decimals

  /** Whole units without a needless zero in front, a point, and two digits: so many cents. */
  ghost predicate ShowsCents(text: string, cents: nat) {
    exists whole, fraction :: CentsAs(text, whole, fraction, cents)
  }

  ghost predicate CentsAs(text: string, whole: string, fraction: string, cents: nat) {
    && text == whole + "." + fraction && AllDigits(whole) && AllDigits(fraction) && |fraction| == 2
    && whole != "" && (whole == "0" || whole[0] != '0') && Digits(whole) * 100 + Digits(fraction) == cents
  }

  lemma {:induction false} NoZeroInFront(n: nat)
    ensures Decimal(n) == "0" || Decimal(n)[0] != '0'
    ensures n > 0 ==> Decimal(n) != "" && Decimal(n)[0] != '0'
  {
    if n >= 10 {
      NoZeroInFront(n / 10);
      assert Decimal(n)[0] == Decimal(n / 10)[0];
    } else {
      assert Decimal(n) == [ToDigit(n)];
    }
  }

  lemma CentsShow(cents: nat)
    ensures ShowsCents(FormatCents(cents), cents)
  {
    var whole, fraction := Decimal(cents / 100), Pad2(cents % 100);
    DecimalReads(cents / 100);
    NoZeroInFront(cents / 100);
    Pad2Reads(cents % 100);
    assert FormatCents(cents) == "" + whole + "." + fraction == whole + "." + fraction;
    assert CentsAs(FormatCents(cents), whole, fraction, cents);
  }

  /** An amount is shown cut toward zero to cents: below zero, by at least one cent, as a minus sign and the
      cents of its size; else as its cents. */
  lemma BalanceShows(stored: int)
    ensures stored > -CENT ==> ShowsCents(FormatBalance(stored), if stored < 0 then 0 else stored / CENT)
    ensures stored <= -CENT ==> FormatBalance(stored) == "-" + FormatBalance(-stored)
    ensures stored <= -CENT ==> ShowsCents(FormatBalance(-stored), -stored / CENT)
  {
    if stored >= 0 {
      CentsShow(stored / CENT);
    } else {
      var cents := -stored / CENT;
      CentsShow(cents);
      assert TruncatingDiv(stored, CENT) == -cents && TruncatingDiv(-stored, CENT) == cents;
      var s := Decimal(cents / 100) + "." + Pad2(cents % 100);
      assert FormatCents(cents) == "" + Decimal(cents / 100) + "." + Pad2(cents % 100) == s;
      if cents > 0 { assert FormatCents(-cents) == "-" + Decimal(cents / 100) + "." + Pad2(cents % 100) == "-" + s; }
    }
  }

  /** Equal text, equal cents: what is shown tells the amount, cut to cents. */
  lemma CentsAreShownApart(text: string, cents: nat, other: nat)
    requires ShowsCents(text, cents) && ShowsCents(text, other)
    ensures cents == other
  {
    var whole, fraction :| CentsAs(text, whole, fraction, cents);
    var whole', fraction' :| CentsAs(text, whole', fraction', other);
    assert text[..|text| - 3] == whole == whole' && text[|text| - 2..] == fraction == fraction';
  }
}
