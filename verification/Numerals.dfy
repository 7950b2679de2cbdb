/** The digits of natural numbers, from which numerals are written in characters or in code units. */
module Numerals {

  /** The decimal digits, the most significant first. */
  function Decimals(n: nat): (r: seq<nat>)
    ensures r != [] && forall i :: 0 <= i < |r| ==> r[i] < 10
  {
    if n < 10 then [n] else Decimals(n / 10) + [n % 10]
  }

  lemma DecimalsLength(n: nat)
    ensures |Decimals(n)| >= 2 <==> n >= 10
  {
  }

  lemma {:induction false} DecimalsInjective(m: nat, n: nat)
    requires Decimals(m) == Decimals(n)
    ensures m == n
  {
    DecimalsLength(m);
    DecimalsLength(n);
    if m >= 10 {
      var p, q := Decimals(m), Decimals(n);
      assert p[..|p| - 1] == Decimals(m / 10) && q[..|q| - 1] == Decimals(n / 10);
      DecimalsInjective(m / 10, n / 10);
      assert p[|p| - 1] == m % 10 && q[|q| - 1] == n % 10;
    }
  }

  /** The four digits in base sixteen of a number below 65536 determine it. */
  lemma InBase16(u: nat)
    ensures u / 0x1000 * 0x1000 + u / 0x100 % 16 * 0x100 + u / 16 % 16 * 16 + u % 16 == u
  {
    assert u / 16 / 16 == u / 0x100 && u / 0x100 / 16 == u / 0x1000;
  }
}
