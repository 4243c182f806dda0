/** Decimal text of natural numbers, as `to_string` writes it and `parse` reads it. */
module Decimal {

  function Digit(d: nat): (c: char)
    requires d < 10
    ensures IsDigit(c) && DigitValue(c) == d
  {
    (d + 48) as char
  }

  predicate IsDigit(c: char) {
    '0' <= c <= '9'
  }

  function DigitValue(c: char): (d: nat)
    requires IsDigit(c)
    ensures d < 10
  {
    c as int - 48
  }

  predicate AllDigits(s: string) {
    forall i | 0 <= i < |s| :: IsDigit(s[i])
  }

  function Text(n: nat): string {
    if n < 10 then [Digit(n)] else Text(n / 10) + [Digit(n % 10)]
  }

  function Value(s: string): nat
    requires AllDigits(s)
  {
    if s == [] then 0 else 10 * Value(s[..|s| - 1]) + DigitValue(s[|s| - 1])
  }

  lemma {:induction false} TextRoundTrip(n: nat)
    ensures 0 < |Text(n)| && AllDigits(Text(n)) && Value(Text(n)) == n
  {
    if n < 10 {
      var s := Text(n);
      assert s[..0] == [];
      assert Value(s) == 10 * Value(s[..0]) + DigitValue(s[0]);
    } else {
      TextRoundTrip(n / 10);
      var s := Text(n);
      assert s[..|s| - 1] == Text(n / 10);
    }
  }

  /** No leading zero. */
  lemma {:induction false} TextIsCanonical(n: nat)
    ensures n < 10 ==> |Text(n)| == 1
    ensures 0 < |Text(n)| && (n > 0 ==> Text(n)[0] != '0')
  {
    if n < 10 {
      assert n > 0 ==> DigitValue(Digit(n)) > 0;
    } else {
      TextIsCanonical(n / 10);
    }
  }

  /** `n` without its last `m` decimal digits. */
  function DropDigits(n: nat, m: nat): (r: nat)
    ensures r <= n
  {
    if m == 0 then n else DropDigits(n / 10, m - 1)
  }

  /** A number cut short reads as the number without the missing digits. */
  lemma {:induction false} PrefixDropsDigits(s: string, k: nat)
    requires AllDigits(s) && k <= |s|
    ensures Value(s[..k]) == DropDigits(Value(s), |s| - k)
  {
    if k == |s| {
      assert s[..k] == s;
    } else {
      var shorter := s[..|s| - 1];
      assert Value(s) / 10 == Value(shorter);
      PrefixDropsDigits(shorter, k);
      assert shorter[..k] == s[..k];
    }
  }

  /** Below 1000 there are one to three digits. */
  lemma TextLength(n: nat)
    requires n < 1000
    ensures 1 <= |Text(n)| <= 3
  {
    if n >= 10 {
      assert |Text(n)| == |Text(n / 10)| + 1;
      if n >= 100 {
        assert |Text(n / 10)| == |Text(n / 10 / 10)| + 1;
      }
    }
  }
}
