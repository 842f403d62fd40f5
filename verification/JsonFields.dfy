/** What an object says under a name: a text that is not blank, or a number that is not negative. */
module JsonFields {
  import opened Json
  import opened Text

  /** The object has a string under this name that is not blank, and trimmed it is `s`. */
  predicate Gives(v: Json, name: string, s: string) {
    v.Obj? && name in v.fields && v.fields[name].Str? && s == Trim(v.fields[name].s) && s != ""
  }

  /** It has no such string. */
  predicate Silent(v: Json, name: string) {
    v.Obj? && name in v.fields && v.fields[name].Str? ==> Trim(v.fields[name].s) == ""
  }

  /** The number `m * 10^e` with its fraction cut off is `n`. */
  predicate CutsOffTo(m: int, e: int, n: nat) {
    if e >= 0 then m * Pow10(e) == n
    else if m >= 0 then n * Pow10(-e) <= m < (n + 1) * Pow10(-e)
    else n == 0 && 0 - Pow10(-e) < m
  }

  predicate GivesNumber(v: Json, name: string, n: nat) {
    v.Obj? && name in v.fields && v.fields[name].Num? && CutsOffTo(v.fields[name].mantissa, v.fields[name].exponent, n)
  }

  lemma TruncIs(m: int, e: int, n: nat)
    ensures CutsOffTo(m, e, n) <==> Trunc(m, e) == n
  {
    if e < 0 {
      var p := Pow10(-e);
      if m >= 0 {
        QuotientBetween(m, p, n);
      } else {
        QuotientBetween(-m, p, 0);
        assert Trunc(m, e) <= 0;
      }
    }
  }

  lemma QuotientBetween(m: nat, p: nat, n: nat)
    requires p > 0
    ensures n * p <= m < (n + 1) * p <==> m / p == n
  {
    var q, r := m / p, m % p;
    assert m == q * p + r;
    if n < q { assert (n + 1) * p <= q * p; }
    if n > q { assert (q + 1) * p <= n * p; }
  }

  lemma NumberGiven(v: Json, name: string)
    ensures forall n: nat :: GivesNumber(v, name, n) <==>
              v.Obj? && name in v.fields && v.fields[name].Num?
              && Trunc(v.fields[name].mantissa, v.fields[name].exponent) == n
  {
    hide Trunc, CutsOffTo;
    if v.Obj? && name in v.fields && v.fields[name].Num? {
      forall n: nat { TruncIs(v.fields[name].mantissa, v.fields[name].exponent, n); }
    }
  }
}
