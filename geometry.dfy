/** Planar points and the exact polynomial predicates the merge helpers are
    built from: the signed edge sum behind the winding-order tests, the cross
    product of the hull builder and the strict counter-clockwise test of the
    segment-intersection check. Coordinates are exact reals. */
module Geometry {

  /** A point as the hull and disjointness code see it: an `(x, y)` pair. */
  type Point = (real, real)

  /** `(b.x - a.x) * (b.y + a.y)`: one edge's share of the winding sum. */
  function EdgeTerm(a: Point, b: Point): real {
    (b.0 - a.0) * (b.1 + a.1)
  }

  lemma EdgeTermAntisymmetric(a: Point, b: Point)
    ensures EdgeTerm(b, a) == -EdgeTerm(a, b)
  {}

  /** The sum of `EdgeTerm` over the consecutive pairs of `ring`, without the
      closing edge from the last point back to the first. */
  function OpenSum(ring: seq<Point>): real
  {
    if |ring| < 2 then 0.0 else EdgeTerm(ring[0], ring[1]) + OpenSum(ring[1..])
  }

  /** The sum over every index `i` of the edge from `ring[i - 1]` to `ring[i]`,
      where index `-1` is the last point: the open sum plus the closing edge. */
  function CyclicSum(ring: seq<Point>): real
  {
    if |ring| == 0 then 0.0 else EdgeTerm(ring[|ring| - 1], ring[0]) + OpenSum(ring)
  }

  /** `ring[::-1]`. */
  function Reverse<T>(s: seq<T>): (r: seq<T>)
    ensures |r| == |s|
    ensures forall i :: 0 <= i < |s| ==> r[i] == s[|s| - 1 - i]
  {
    if s == [] then [] else Reverse(s[1..]) + [s[0]]
  }

  lemma ReverseReverse<T>(s: seq<T>)
    ensures Reverse(Reverse(s)) == s
  {
    assert forall i :: 0 <= i < |s| ==> Reverse(Reverse(s))[i] == s[i];
  }

  lemma ReverseElements<T>(s: seq<T>)
    ensures forall x :: x in Reverse(s) <==> x in s
  {
    forall x | x in s ensures x in Reverse(s) {
      var i :| 0 <= i < |s| && s[i] == x;
      assert Reverse(s)[|s| - 1 - i] == x;
    }
  }

  /** Appending one point adds exactly the edge into it. */
  lemma {:induction false} OpenSumSnoc(s: seq<Point>, p: Point)
    requires |s| >= 1
    ensures OpenSum(s + [p]) == OpenSum(s) + EdgeTerm(s[|s| - 1], p)
  {
    if |s| == 1 {
      assert s + [p] == [s[0], p];
    } else {
      assert (s + [p])[1..] == s[1..] + [p];
      OpenSumSnoc(s[1..], p);
    }
  }

  /** Walking a ring backwards negates its open sum. */
  lemma {:induction false} OpenSumReverse(ring: seq<Point>)
    ensures OpenSum(Reverse(ring)) == -OpenSum(ring)
  {
    if |ring| >= 2 {
      var tail := ring[1..];
      OpenSumReverse(tail);
      assert Reverse(ring) == Reverse(tail) + [ring[0]];
      assert Reverse(tail)[|tail| - 1] == ring[1];
      OpenSumSnoc(Reverse(tail), ring[0]);
      EdgeTermAntisymmetric(ring[0], ring[1]);
    } else if |ring| == 1 {
      assert Reverse(ring) == ring;
    }
  }

  /** Walking a ring backwards negates its cyclic sum: this is why reversing
      a ring flips the classification made by `is_clockwise`. */
  lemma CyclicSumReverse(ring: seq<Point>)
    ensures CyclicSum(Reverse(ring)) == -CyclicSum(ring)
  {
    OpenSumReverse(ring);
    if |ring| > 0 {
      EdgeTermAntisymmetric(ring[|ring| - 1], ring[0]);
    }
  }

  /** On a closed ring (first point equal to the last) the closing edge
      contributes nothing, so the open and the cyclic sums agree. */
  lemma ClosedRingSums(ring: seq<Point>)
    requires |ring| >= 1 && ring[0] == ring[|ring| - 1]
    ensures CyclicSum(ring) == OpenSum(ring)
  {}

  /** The hull builder's `cross(o, a, b)`: the z component of `(a - o) x (b - o)`. */
  function Cross(o: Point, a: Point, b: Point): real {
    (a.0 - o.0) * (b.1 - o.1) - (a.1 - o.1) * (b.0 - o.0)
  }

  /** The disjointness tester's `ccw(a, b, c)`. */
  predicate Ccw(a: Point, b: Point, c: Point) {
    (c.1 - a.1) * (b.0 - a.0) > (b.1 - a.1) * (c.0 - a.0)
  }

  /** `ccw` is `Cross > 0`, and so invariant under cyclic rotation of its
      arguments. */
  lemma CcwRotate(a: Point, b: Point, c: Point)
    ensures Ccw(a, b, c) <==> Cross(a, b, c) > 0.0
    ensures Ccw(a, b, c) <==> Ccw(b, c, a)
  {
    assert Cross(a, b, c) == Cross(b, c, a) by {
      calc {
        Cross(b, c, a);
        (c.0 - b.0) * (a.1 - b.1) - (c.1 - b.1) * (a.0 - b.0);
        c.0 * a.1 - c.0 * b.1 - b.0 * a.1 - c.1 * a.0 + c.1 * b.0 + b.1 * a.0;
        (b.0 - a.0) * (c.1 - a.1) - (b.1 - a.1) * (c.0 - a.0);
        Cross(a, b, c);
      }
    }
    assert Ccw(b, c, a) <==> Cross(b, c, a) > 0.0;
  }

  /** `line_segments_intersect(p1, p2, q1, q2)`. */
  predicate SegmentsIntersect(p1: Point, p2: Point, q1: Point, q2: Point) {
    Ccw(p1, q1, q2) != Ccw(p2, q1, q2) && Ccw(p1, p2, q1) != Ccw(p1, p2, q2)
  }

  /** The crossing test does not depend on which segment comes first. */
  lemma SegmentsIntersectSymmetric(p1: Point, p2: Point, q1: Point, q2: Point)
    ensures SegmentsIntersect(p1, p2, q1, q2) <==> SegmentsIntersect(q1, q2, p1, p2)
  {
    CcwRotate(p1, q1, q2);
    CcwRotate(p2, q1, q2);
    CcwRotate(q1, p1, p2);
    CcwRotate(q2, p1, p2);
  }

  /** Python's ordering of `(x, y)` tuples. */
  predicate LexLess(a: Point, b: Point) {
    a.0 < b.0 || (a.0 == b.0 && a.1 < b.1)
  }

  predicate LexLessEq(a: Point, b: Point) {
    LexLess(a, b) || a == b
  }
}
