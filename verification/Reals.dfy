/** Products of reals as a named function, with the few laws the field proofs need. */
module Reals {

  function Times(a: real, b: real): real { a * b }

  function Abs(v: real): real { if v < 0.0 then -v else v }

  lemma TimesNonNegative(a: real, b: real)
    requires a >= 0.0 && b >= 0.0
    ensures Times(a, b) >= 0.0
  {
  }

  lemma TimesOrdered(a: real, b: real, k: real)
    requires a <= b && k >= 0.0
    ensures Times(a, k) <= Times(b, k)
  {
  }

  lemma TimesStrict(a: real, b: real, k: real)
    requires a < b && k > 0.0
    ensures Times(a, k) < Times(b, k)
  {
  }

  lemma TimesSums(a: real, b: real, k: real)
    ensures Times(a + b, k) == Times(a, k) + Times(b, k) && Times(a - b, k) == Times(a, k) - Times(b, k)
    ensures Times(a, k) == Times(k, a) && Times(1.0, k) == k && Times(0.0, k) == 0.0
  {
  }

  /** A fraction of something lies between 0 and all of it, in the order of the fractions. */
  lemma FractionsOrdered(a: real, b: real, k: real)
    requires 0.0 <= a <= b <= 1.0 && 0.0 <= k
    ensures 0.0 <= Times(a, k) <= Times(b, k) <= k
  {
  }

  lemma QuotientOrdered(x: real, y: real, d: real)
    requires d > 0.0
    ensures x <= y <==> x / d <= y / d
  {
  }

  lemma QuotientWithin(lo: real, hi: real, s: real, d: real)
    requires d > 0.0 && Times(lo, d) <= s <= Times(hi, d)
    ensures lo <= s / d <= hi
  {
  }
}
