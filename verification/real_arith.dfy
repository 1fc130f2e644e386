/** Facts about real arithmetic that the solver does not find on its own. */
module RealArith {

  lemma MulNonneg(a: real, b: real)
    requires a >= 0.0 && b >= 0.0
    ensures a * b >= 0.0
  {
  }

  /** A fraction of a non-negative quantity lies between 0 and the quantity. */
  lemma FractionBound(x: real, frac: real)
    requires x >= 0.0 && 0.0 <= frac <= 1.0
    ensures 0.0 <= frac * x <= x
  {
    MulNonneg(frac, x);
    MulNonneg(1.0 - frac, x);
  }

  /** np.clip(x, lo, hi): raise to lo, then cap at hi, so an empty range
      (hi < lo) gives hi. */
  function NpClip(x: real, lo: real, hi: real): (c: real)
    ensures lo <= hi ==> lo <= c <= hi
    ensures lo <= x <= hi ==> c == x
    ensures hi < lo ==> c == hi
    ensures x < lo <= hi ==> c == lo
    ensures lo <= hi < x ==> c == hi
  {
    var raised := if x < lo then lo else x;
    if raised > hi then hi else raised
  }
}
