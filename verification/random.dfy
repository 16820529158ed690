/** The random source as the sketch uses it. Each call of the host's uniform generator
    becomes a draw `u` with 0 <= u < 1 passed in by the caller; the functions below turn
    such a draw into a value exactly as the host's random(...) overloads do. */
module RandomDraws {

  /** A value the host's uniform generator can return. */
  predicate IsUnit(u: real)
  {
    0.0 <= u < 1.0
  }

  function Min(a: real, b: real): real { if a <= b then a else b }
  function Max(a: real, b: real): real { if a <= b then b else a }

  /** u * w: a unit draw scaled to width w >= 0 lies in [0, w), and is 0 for width 0. */
  function Scale(u: real, w: real): (r: real)
    requires IsUnit(u) && w >= 0.0
    ensures 0.0 <= r
    ensures w > 0.0 ==> r < w
    ensures w == 0.0 ==> r == 0.0
  {
    assert w > 0.0 ==> (1.0 - u) * w > 0.0;
    u * w
  }

  /** random(lo, hi): swaps the bounds when lo > hi, then scales the draw into the range.
      The result lies in the half-open range between the two bounds, whichever order they
      are given in, and is the bound itself when both bounds coincide. */
  function Random(u: real, lo: real, hi: real): (r: real)
    requires IsUnit(u)
    ensures Min(lo, hi) <= r
    ensures lo != hi ==> r < Max(lo, hi)
    ensures lo == hi ==> r == lo
  {
    Scale(u, Max(lo, hi) - Min(lo, hi)) + Min(lo, hi)
  }

  /** random(m) with one numeric argument: the draw scaled by m, so in [0, m) for m > 0. */
  function RandomUpTo(u: real, m: real): (r: real)
    requires IsUnit(u) && m > 0.0
    ensures 0.0 <= r < m
  {
    Scale(u, m)
  }

  /** random(array): the element at index floor(u * length); every index is reachable and
      none outside the array is. */
  function RandomIndex(u: real, n: nat): (i: nat)
    requires IsUnit(u) && n > 0
    ensures i < n
    ensures i as real <= Scale(u, n as real) < i as real + 1.0
  {
    Scale(u, n as real).Floor
  }

  /** Every index of an array of length n is reachable: the draw j / n selects index j. */
  lemma RandomIndexReachable(n: nat, j: nat)
    requires j < n
    ensures IsUnit(j as real / n as real)
    ensures RandomIndex(j as real / n as real, n) == j
  {
    var u := j as real / n as real;
    assert u * n as real == j as real;
  }
}
