/**
 * The arithmetic of x / d, the share of a distance d covered by x, and of
 * (1 - x / d) * t, the share of a time t left after x of distance d: the
 * two non-linear formulas of step progress, kept apart so that the facts
 * about them enter a proof only where a lemma is called.
 */
module Shares {
  lemma ShareOfLength(x: real, d: real)
    requires 0.0 < d
    ensures x / d * d == x
    ensures 0.0 <= x <= d ==> 0.0 <= x / d <= 1.0
  {
  }

  lemma ShareLeftAtEnds(x: real, d: real, t: real)
    requires 0.0 < d
    ensures x == 0.0 ==> (1.0 - x / d) * t == t
    ensures x == d ==> (1.0 - x / d) * t == 0.0
  {
  }

  lemma ShareLeftScaled(x: real, d: real, t: real)
    requires 0.0 < d
    ensures (1.0 - x / d) * t * d == (d - x) * t
  {
    assert (1.0 - x / d) * d == d - x;
  }

  lemma ShareLeftBounded(x: real, d: real, t: real)
    requires 0.0 < d && 0.0 <= x <= d && 0.0 <= t
    ensures 0.0 <= (1.0 - x / d) * t <= t
  {
    assert 0.0 <= x / d <= 1.0;
    ScaleMonotone(0.0, 1.0 - x / d, t);
    ScaleMonotone(1.0 - x / d, 1.0, t);
  }

  lemma ShareLeftShrinks(a: real, b: real, d: real, t: real)
    requires a < b && 0.0 < d && 0.0 < t
    ensures (1.0 - b / d) * t < (1.0 - a / d) * t
  {
    assert a / d < b / d;
    ScaleStrictlyMonotone(1.0 - b / d, 1.0 - a / d, t);
  }

  lemma ScaleMonotone(a: real, b: real, c: real)
    requires a <= b && 0.0 <= c
    ensures a * c <= b * c
  {
  }

  lemma ScaleStrictlyMonotone(a: real, b: real, c: real)
    requires a < b && 0.0 < c
    ensures a * c < b * c
  {
  }
}
