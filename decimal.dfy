/**
 * Python's `str(n)` for a non-negative `int`: its decimal digits, most
 * significant first, without leading zeros.  The parser `Value` is the
 * inverse used to state what the rendering means.
 */
module Decimal {

  predicate IsDigit(c: char)
  {
    '0' <= c <= '9'
  }

  predicate AllDigits(s: string)
  {
    forall i :: 0 <= i < |s| ==> IsDigit(s[i])
  }

  function DigitChar(d: nat): (c: char)
    requires d < 10
    ensures IsDigit(c)
  {
    (('0' as int) + d) as char
  }

  function DigitValue(c: char): (d: nat)
    requires IsDigit(c)
    ensures d < 10
  {
    (c as int) - ('0' as int)
  }

  /** `str(n)` for `n >= 0`. */
  function Render(n: nat): (s: string)
    ensures |s| >= 1 && AllDigits(s)
    ensures s[0] == '0' ==> n == 0
    decreases n
  {
    if n < 10 then [DigitChar(n)] else Render(n / 10) + [DigitChar(n % 10)]
  }

  /** The number a string of decimal digits denotes (`int(s)`). */
  function Value(s: string): nat
    requires AllDigits(s)
  {
    if s == [] then 0 else 10 * Value(s[..|s| - 1]) + DigitValue(s[|s| - 1])
  }

  /** Reading back a rendered number gives the number. */
  lemma {:induction false} ValueOfRender(n: nat)
    ensures Value(Render(n)) == n
    decreases n
  {
    var s := Render(n);
    if n >= 10 {
      ValueOfRender(n / 10);
      assert s[..|s| - 1] == Render(n / 10);
      assert DigitValue(s[|s| - 1]) == n % 10;
    }
  }

  /** Distinct numbers render to distinct strings. */
  lemma RenderInjective(m: nat, n: nat)
    ensures Render(m) == Render(n) <==> m == n
  {
    if Render(m) == Render(n) {
      ValueOfRender(m);
      ValueOfRender(n);
    }
  }
}
