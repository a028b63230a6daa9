/** Shared geometry of the vision code (cv/gamecode/utils.py): point distance
    and the guarded speed formula.

    `np.linalg.norm` takes a floating-point square root. Dafny has no square
    root, so distances are compared through their exact squares, and where a
    distance value is needed the square root is a parameter `sqrt` that is
    assumed by the caller to be one (`IsSqrt`). */
module Geometry {

  /** An integer point: pixel coordinates, or table-plane coordinates after
      the (integer-truncating) projection. */
  datatype Point = Point(x: int, y: int)

  /** An integer pixel box `(x1, y1, x2, y2)` of a detection. */
  datatype Box = Box(x1: int, y1: int, x2: int, y2: int)

  /** The squared Euclidean distance. */
  function SqDist(p: Point, q: Point): (d: nat)
    ensures d == 0 <==> p == q
  {
    var dx := p.x - q.x;
    var dy := p.y - q.y;
    assert dx * dx >= 0 && dy * dy >= 0;
    assert dx != 0 ==> dx * dx > 0;
    assert dy != 0 ==> dy * dy > 0;
    dx * dx + dy * dy
  }

  lemma SqDistSymmetric(p: Point, q: Point)
    ensures SqDist(p, q) == SqDist(q, p)
  {
    assert (p.x - q.x) * (p.x - q.x) == (q.x - p.x) * (q.x - p.x);
    assert (p.y - q.y) * (p.y - q.y) == (q.y - p.y) * (q.y - p.y);
  }

  /** `sqrt` returns the non-negative square root of every non-negative
      real: it maps 0 to 0, squares back to its argument and is strictly
      increasing. */
  ghost predicate IsSqrt(sqrt: real -> real) {
    && sqrt(0.0) == 0.0
    && (forall r: real :: 0.0 <= r ==> 0.0 <= sqrt(r) && sqrt(r) * sqrt(r) == r)
    && (forall a: real, b: real {:trigger sqrt(a), sqrt(b)} :: 0.0 <= a < b ==> sqrt(a) < sqrt(b))
  }

  /** `calculate_distance(p, q)`. */
  function Distance(p: Point, q: Point, sqrt: real -> real): real {
    sqrt(SqDist(p, q) as real)
  }

  /** Comparing square roots is the same as comparing their arguments, so the
      model may choose nearest points and apply distance thresholds with
      `SqDist`. */
  lemma SqrtMonotone(a: real, b: real, sqrt: real -> real)
    requires IsSqrt(sqrt) && 0.0 <= a && 0.0 <= b
    ensures sqrt(a) < sqrt(b) <==> a < b
    ensures sqrt(a) == sqrt(b) <==> a == b
  {
    if a < b {
      assert sqrt(a) < sqrt(b);
    } else if b < a {
      assert sqrt(b) < sqrt(a);
    }
  }

  lemma DistanceIsMetricLike(p: Point, q: Point, sqrt: real -> real)
    requires IsSqrt(sqrt)
    ensures Distance(p, q, sqrt) >= 0.0
    ensures Distance(p, q, sqrt) == 0.0 <==> p == q
    ensures Distance(p, q, sqrt) == Distance(q, p, sqrt)
    ensures Distance(p, q, sqrt) * Distance(p, q, sqrt) == SqDist(p, q) as real
  {
    SqDistSymmetric(p, q);
    SqrtMonotone(0.0, SqDist(p, q) as real, sqrt);
  }

  /** A square root is below a non-negative bound `t` exactly when its
      argument is below `t * t`. */
  lemma SqrtBelow(x: real, t: real, sqrt: real -> real)
    requires IsSqrt(sqrt) && 0.0 <= x && 0.0 <= t
    ensures sqrt(x) < t <==> x < t * t
  {
    var tt := t * t;
    assert 0.0 <= tt;
    assert 0.0 <= sqrt(tt) && sqrt(tt) * sqrt(tt) == tt;
    SquareRootUnique(sqrt(tt), t);
    SqrtMonotone(x, tt, sqrt);
  }

  /** A distance is below a threshold `t` exactly when the squared distance is
      below `t * t`. */
  lemma DistanceBelow(p: Point, q: Point, t: nat, sqrt: real -> real)
    requires IsSqrt(sqrt)
    ensures Distance(p, q, sqrt) < t as real <==> SqDist(p, q) < t * t
  {
    SqrtBelow(SqDist(p, q) as real, t as real, sqrt);
    assert (t * t) as real == t as real * t as real;
  }

  lemma SquareRootUnique(r: real, s: real)
    requires 0.0 <= r && 0.0 <= s && r * r == s * s
    ensures r == s
  {
    assert (r - s) * (r + s) == r * r - s * s;
    if r + s > 0.0 {
      ProductZero(r - s, r + s);
    }
  }

  lemma ProductZero(a: real, b: real)
    requires b > 0.0 && a * b == 0.0
    ensures a == 0.0
  {
  }

  /** `calculate_speed(pos1, pos2, time1, time2)`: zero unless time moved
      forward, and otherwise the distance covered per unit of time. */
  function CalculateSpeed(pos1: Point, pos2: Point, time1: real, time2: real, sqrt: real -> real): (v: real)
    ensures time2 <= time1 ==> v == 0.0
    ensures time2 > time1 ==> v * (time2 - time1) == Distance(pos1, pos2, sqrt)
    ensures IsSqrt(sqrt) ==> v >= 0.0
  {
    if time2 <= time1 then 0.0
    else Distance(pos1, pos2, sqrt) / (time2 - time1)
  }
}
