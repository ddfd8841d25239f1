/**
  Points in 3D space and the Euclidean distance of main.py `distance`.

  Dafny has no square root, so the distance is handled in two ways:
  comparisons (nearest UAV, coverage, HAP reachability) are made on the
  squared distance `SqDist`, which the lemmas below show to order pairs of
  points exactly as the distance does; where the numeric distance itself is
  needed, the caller supplies a distance function, and `Euclidean(dist)`
  says that it is the true one.
*/
module Geometry {

  datatype Point = Point(x: real, y: real, z: real)

  /** Squared Euclidean distance between two points. */
  function SqDist(p: Point, q: Point): (s: real)
    ensures s >= 0.0
  {
    SquarePositive(p.x - q.x);
    SquarePositive(p.y - q.y);
    SquarePositive(p.z - q.z);
    (p.x - q.x) * (p.x - q.x) + (p.y - q.y) * (p.y - q.y) + (p.z - q.z) * (p.z - q.z)
  }

  /** The squared distance vanishes exactly on identical points. */
  lemma SqDistZero(p: Point, q: Point)
    ensures SqDist(p, q) == 0.0 <==> p == q
  {
    var dx, dy, dz := p.x - q.x, p.y - q.y, p.z - q.z;
    SquarePositive(dx);
    SquarePositive(dy);
    SquarePositive(dz);
    if p == q {
      assert dx == 0.0 && dy == 0.0 && dz == 0.0;
      calc {
        SqDist(p, q);
      == dx * dx + dy * dy + dz * dz;
      == 0.0 * 0.0 + 0.0 * 0.0 + 0.0 * 0.0;
      == 0.0;
      }
    } else {
      assert dx != 0.0 || dy != 0.0 || dz != 0.0;
      calc {
        SqDist(p, q);
      == dx * dx + dy * dy + dz * dz;
      >  0.0;
      }
    }
  }

  /** The square of a real is never negative, and is positive unless the real is 0. */
  lemma SquarePositive(a: real)
    ensures a * a >= 0.0
    ensures a != 0.0 ==> a * a > 0.0
  {
    if a > 0.0 {
      MulStrict(0.0, a, a);
    } else if a < 0.0 {
      MulStrict(0.0, -a, -a);
      assert (-a) * (-a) == a * a;
    }
  }

  /** Multiplying by a positive real keeps a strict order. */
  lemma MulStrict(a: real, b: real, c: real)
    requires a < b && 0.0 < c
    ensures a * c < b * c
  {
    assert b * c - a * c == (b - a) * c;
  }

  /** `d` is the Euclidean distance between `p` and `q`: the non-negative root of `SqDist(p, q)`. */
  ghost predicate IsDistance(p: Point, q: Point, d: real) {
    d >= 0.0 && d * d == SqDist(p, q)
  }

  /** `dist` computes the Euclidean distance of main.py `distance` on every pair of points. */
  ghost predicate Euclidean(dist: (Point, Point) -> real) {
    forall p, q :: IsDistance(p, q, dist(p, q))
  }

  /** `p` lies within `range` of `center`: distance <= range, decided on squared distances. */
  predicate Covers(center: Point, range: real, p: Point) {
    0.0 <= range && SqDist(center, p) <= range * range
  }

  /** Squaring is strictly increasing on the non-negative reals. */
  lemma SquareStrict(a: real, b: real)
    requires 0.0 <= a < b
    ensures a * a < b * b
  {
    MulStrict(a, b, b);
    if a > 0.0 {
      MulStrict(a, b, a);
      calc {
        a * a;
      <  b * a;
      == a * b;
      <  b * b;
      }
    } else {
      calc {
        a * a;
      == 0.0;
      <  b * b;
      }
    }
  }

  /** For non-negative reals, comparing squares compares the numbers. */
  lemma SquareMonotone(a: real, b: real)
    requires 0.0 <= a && 0.0 <= b
    ensures a < b <==> a * a < b * b
    ensures a <= b <==> a * a <= b * b
  {
    if a < b {
      SquareStrict(a, b);
    } else if b < a {
      SquareStrict(b, a);
    }
  }

  lemma DistanceNonNegative(p: Point, q: Point, d: real)
    requires IsDistance(p, q, d)
    ensures 0.0 <= d
  {
  }

  /** The distance is symmetric. */
  lemma DistanceSymmetric(p: Point, q: Point, d: real)
    requires IsDistance(p, q, d)
    ensures IsDistance(q, p, d)
  {
    assert SqDist(p, q) == SqDist(q, p);
  }

  /** A point is at distance 0 from itself and only from itself. */
  lemma DistanceZero(p: Point, q: Point, d: real)
    requires IsDistance(p, q, d)
    ensures d == 0.0 <==> p == q
  {
    SqDistZero(p, q);
    if d != 0.0 {
      SquareMonotone(0.0, d);
    }
  }

  /** There is at most one distance between two points. */
  lemma DistanceUnique(p: Point, q: Point, d1: real, d2: real)
    requires IsDistance(p, q, d1) && IsDistance(p, q, d2)
    ensures d1 == d2
  {
    SquareMonotone(d1, d2);
    SquareMonotone(d2, d1);
  }

  /**
    Comparing distances is comparing squared distances: the strict `<` of
    environment.py's nearest-UAV scans picks the same UAV either way.
  */
  lemma DistanceOrder(p: Point, q: Point, dpq: real, r: Point, s: Point, drs: real)
    requires IsDistance(p, q, dpq) && IsDistance(r, s, drs)
    ensures dpq < drs <==> SqDist(p, q) < SqDist(r, s)
    ensures dpq <= drs <==> SqDist(p, q) <= SqDist(r, s)
  {
    SquareMonotone(dpq, drs);
  }

  /** `distance <= range` holds exactly when `Covers` does. */
  lemma CoversIffWithinRange(center: Point, range: real, p: Point, d: real)
    requires IsDistance(center, p, d)
    ensures Covers(center, range, p) <==> d <= range
  {
    if 0.0 <= range {
      SquareMonotone(d, range);
    }
  }

  /** The properties main.py `distance` promises, for any Euclidean distance function. */
  lemma EuclideanProperties(dist: (Point, Point) -> real, p: Point, q: Point)
    requires Euclidean(dist)
    ensures 0.0 <= dist(p, q)
    ensures dist(p, q) == dist(q, p)
    ensures dist(p, p) == 0.0
  {
    assert IsDistance(p, q, dist(p, q));
    assert IsDistance(q, p, dist(q, p));
    DistanceSymmetric(q, p, dist(q, p));
    DistanceUnique(p, q, dist(p, q), dist(q, p));
    assert IsDistance(p, p, dist(p, p));
    DistanceZero(p, p, dist(p, p));
  }
}
