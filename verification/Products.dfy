/** Multiplication as repeated addition, for proofs that go one addend at a time. */
module Products {

  function Times(a: nat, width: nat): nat {
    if a == 0 then 0 else Times(a - 1, width) + width
  }

  lemma {:induction false} TimesGrows(a: nat, b: nat, width: nat)
    requires a <= b
    ensures Times(a, width) <= Times(b, width) && (a < b ==> Times(a, width) + width <= Times(b, width))
  {
    if a < b { TimesGrows(a, b - 1, width); }
  }

  lemma {:induction false} TimesMultiplies(a: nat, width: nat)
    ensures Times(a, width) == a * width
  {
    if a > 0 {
      TimesMultiplies(a - 1, width);
      assert a * width == (a - 1) * width + width;
    }
  }

  lemma {:induction false} TimesWider(a: nat, width: nat)
    ensures Times(a, width) + a == Times(a, width + 1)
  {
    if a > 0 { TimesWider(a - 1, width); }
  }
}
