/**
 * Decimal digit strings: `parseInt(digits, 10)` on the digits the progress
 * regex captures, and the `${n}` rendering of a `Date.now()` timestamp.
 */
module Decimal {

  predicate IsDigit(c: char)
  {
    '0' <= c <= '9'
  }

  predicate AllDigits(s: string)
  {
    forall k | 0 <= k < |s| :: IsDigit(s[k])
  }

  function DigitValue(c: char): (d: nat)
    requires IsDigit(c)
    ensures d < 10
  {
    c as int - '0' as int
  }

  function Digit(d: nat): (c: char)
    requires d < 10
    ensures IsDigit(c) && DigitValue(c) == d
  {
    ('0' as int + d) as char
  }

  /** `parseInt(s, 10)` for a string of decimal digits (leading zeros allowed). */
  function Value(s: string): nat
    requires AllDigits(s)
    decreases |s|
  {
    if s == [] then 0 else Value(s[..|s| - 1]) * 10 + DigitValue(s[|s| - 1])
  }

  /** The decimal text of `n`, without leading zeros. */
  function Render(n: nat): (r: string)
    ensures r != [] && AllDigits(r)
    ensures r[0] == '0' <==> n == 0
    decreases n
  {
    if n < 10 then [Digit(n)] else Render(n / 10) + [Digit(n % 10)]
  }

  /** Reading back a rendered number gives the number. */
  lemma {:induction false} ValueOfRender(n: nat)
    ensures Value(Render(n)) == n
    decreases n
  {
    if n >= 10 {
      ValueOfRender(n / 10);
      var r := Render(n);
      assert r[..|r| - 1] == Render(n / 10);
    }
  }

  /** Distinct numbers render differently. */
  lemma RenderInjective(a: nat, b: nat)
    ensures Render(a) == Render(b) ==> a == b
  {
    ValueOfRender(a);
    ValueOfRender(b);
  }
}
