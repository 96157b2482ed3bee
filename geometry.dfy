/**
 * Points in the plane and squared distances. The construction compares
 * Euclidean distances with radii; the model compares their squares, which
 * `DistanceAtMost` shows to be the same test.
 */
module Geometry {

  datatype Point = Point(x: real, y: real)

  function SqDist(p: Point, q: Point): real
  {
    (p.x - q.x) * (p.x - q.x) + (p.y - q.y) * (p.y - q.y)
  }

  function Abs(r: real): real
  {
    if r < 0.0 then -r else r
  }

  /**
   * The two-circle intersection formula, `get_intersections(x0, y0, r0, x1, y1, r1)`:
   * it is not modelled, so the construction takes it as a parameter and the
   * model assumes nothing about the points it returns.
   */
  type Crossing = (Point, real, Point, real) -> seq<Point>

  lemma SqDistSymmetric(p: Point, q: Point)
    ensures SqDist(p, q) == SqDist(q, p)
  {
  }

  lemma SquareMonotonic(a: real, b: real)
    requires 0.0 <= a <= b
    ensures a * a <= b * b
  {
    assert a * a <= a * b;
    assert a * b <= b * b;
  }

  lemma SquareStrict(a: real, b: real)
    requires 0.0 <= a < b
    ensures a * a < b * b
  {
    var ab := a * b;
    assert a * a <= ab;
    assert ab < b * b;
  }

  /**
   * For a distance d (the square root of sq), the test `d <= s` holds exactly
   * when s is non-negative and sq is at most s squared.
   */
  lemma DistanceAtMost(d: real, sq: real, s: real)
    requires 0.0 <= d && d * d == sq
    ensures d <= s <==> 0.0 <= s && sq <= s * s
  {
    if d <= s {
      SquareMonotonic(d, s);
    } else if 0.0 <= s {
      SquareStrict(s, d);
    }
  }
}
