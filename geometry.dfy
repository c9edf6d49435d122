/**
 * The vector helpers of the arcade simulation: the toroidal wrap applied to
 * asteroids and the ship, and distance comparisons. `Math.sqrt` is not
 * modelled: a distance `d` between two points is compared with a bound `b`
 * through squared values, which agrees with the source whenever `b >= 0`
 * (SqrtFreeComparison).
 */
module Geometry {

  /** Squared Euclidean distance between (x1, y1) and (x2, y2). */
  function DistSq(x1: real, y1: real, x2: real, y2: real): (d: real)
    ensures d >= 0.0
  {
    (x2 - x1) * (x2 - x1) + (y2 - y1) * (y2 - y1)
  }

  /** `distBetweenPoints(x1, y1, x2, y2) < bound`, stated without the square root. */
  predicate CloserThan(x1: real, y1: real, x2: real, y2: real, bound: real)
  {
    0.0 <= bound && DistSq(x1, y1, x2, y2) < bound * bound
  }

  /**
   * For any `dist` that is the square root of the squared distance, the
   * source's comparison `dist < bound` and CloserThan agree.
   */
  lemma SqrtFreeComparison(x1: real, y1: real, x2: real, y2: real, dist: real, bound: real)
    requires dist >= 0.0 && dist * dist == DistSq(x1, y1, x2, y2)
    ensures dist < bound <==> CloserThan(x1, y1, x2, y2, bound)
  {
    if dist < bound {
      MulStrict(dist, bound);
    } else if 0.0 <= bound {
      MulMono(bound, dist);
    }
  }

  lemma MulStrict(a: real, b: real)
    requires 0.0 <= a < b
    ensures a * a < b * b
  {
    calc {
      a * a;
    <=  { assert a * (b - a) >= 0.0; }
      a * b;
    <   { assert (b - a) * b > 0.0; }
      b * b;
    }
  }

  lemma MulMono(a: real, b: real)
    requires 0.0 <= a <= b
    ensures a * a <= b * b
  {
    calc {
      a * a;
    <=  { assert a * (b - a) >= 0.0; }
      a * b;
    <=  { assert (b - a) * b >= 0.0; }
      b * b;
    }
  }

  /** The distance comparison does not depend on which point comes first. */
  lemma CloserThanSymmetric(x1: real, y1: real, x2: real, y2: real, bound: real)
    ensures CloserThan(x1, y1, x2, y2, bound) <==> CloserThan(x2, y2, x1, y1, bound)
  {
    assert (x2 - x1) * (x2 - x1) == (x1 - x2) * (x1 - x2);
    assert (y2 - y1) * (y2 - y1) == (y1 - y2) * (y1 - y2);
  }

  /**
   * The edge handling of one coordinate: a value more than `r` below 0 jumps
   * to `size + r`, a value more than `r` above `size` jumps to `-r`.
   */
  function Wrap(v: real, r: real, size: real): (w: real)
    requires 0.0 <= size
    ensures 0.0 <= r ==> -r <= w <= size + r
    ensures v < -r ==> w == size + r
    ensures -r <= v && v > size + r ==> w == -r
    ensures -r <= v <= size + r ==> w == v
  {
    if v < 0.0 - r then size + r
    else if v > size + r then 0.0 - r
    else v
  }

  /** A point lies inside the wrap bounds of an entity of radius r. */
  predicate InWrapBounds(x: real, y: real, r: real, width: real, height: real)
  {
    -r <= x <= width + r && -r <= y <= height + r
  }
}
