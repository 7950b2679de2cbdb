/** Tests and renderings of strings: what survives trimming, and natural numbers in decimal. */
module Text {
  import opened Outcomes
  import opened Numerals

  /** White space and line terminators removed by String.prototype.trim. */
  predicate IsTrimmed(c: char) {
    || c in {'\t', '\n', '\r', ' ', '\U{0B}', '\U{0C}', '\U{A0}', '\U{1680}', '\U{2028}', '\U{2029}', '\U{202F}',
       '\U{205F}', '\U{3000}', '\U{FEFF}'}
    || '\U{2000}' <= c <= '\U{200A}'
  }

  predicate NonBlank(s: string) {
    exists i :: 0 <= i < |s| && !IsTrimmed(s[i])
  }

  function NonEmptyString(value: Option<string>): (r: Option<string>)
    ensures r.Some? ==> NonBlank(r.value) && |r.value| > 0 && value == r
  {
    if value.Some? && NonBlank(value.value) then value else None
  }

  /** A natural number in decimal. */
  function Digits(n: nat): (r: string)
    ensures r != []
  {
    var d := Decimals(n);
    seq(|d|, i requires 0 <= i < |d| => ('0' as int + d[i]) as char)
  }

  lemma DigitsInjective(m: nat, n: nat)
    requires Digits(m) == Digits(n)
    ensures m == n
  {
    var p, q := Decimals(m), Decimals(n);
    assert |p| == |Digits(m)| && |q| == |Digits(n)|;
    forall i | 0 <= i < |p|
      ensures p[i] == q[i]
    {
      assert Digits(m)[i] == ('0' as int + p[i]) as char && Digits(n)[i] == ('0' as int + q[i]) as char;
    }
    DecimalsInjective(m, n);
  }
}
