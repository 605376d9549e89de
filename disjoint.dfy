/** `_polygons_disjoint` of geojson_aoi/merge.py:137-169 (the same code is at
    geojson_aoi/parser.py:273-305): a bounding-box reject followed by an
    all-pairs test of the rings' edges, each ring closed by wrapping around
    from its last point to its first. */
module Disjoint {
  import opened Json
  import opened Geometry

  /** `xs, ys = zip(*polygon)` on an empty ring: nothing to unpack. */
  const UnpackMsg: string := "not enough values to unpack (expected 2, got 0)"

  /** `(min(xs), min(ys), max(xs), max(ys))`. */
  datatype Box = Box(minX: real, minY: real, maxX: real, maxY: real)

  predicate Encloses(b: Box, p: Point) {
    b.minX <= p.0 <= b.maxX && b.minY <= p.1 <= b.maxY
  }

  /** `bounding_box(polygon)`: the smallest box holding every point. */
  function BoundingBox(poly: seq<Point>): (b: Box)
    requires |poly| > 0
    ensures forall i :: 0 <= i < |poly| ==> Encloses(b, poly[i])
    ensures exists i :: 0 <= i < |poly| && poly[i].0 == b.minX
    ensures exists i :: 0 <= i < |poly| && poly[i].1 == b.minY
    ensures exists i :: 0 <= i < |poly| && poly[i].0 == b.maxX
    ensures exists i :: 0 <= i < |poly| && poly[i].1 == b.maxY
  {
    if |poly| == 1 then Box(poly[0].0, poly[0].1, poly[0].0, poly[0].1)
    else
      var b := BoundingBox(poly[1..]);
      var p := poly[0];
      var r := Box(if p.0 < b.minX then p.0 else b.minX, if p.1 < b.minY then p.1 else b.minY,
                   if p.0 > b.maxX then p.0 else b.maxX, if p.1 > b.maxY then p.1 else b.maxY);
      assert forall i :: 1 <= i < |poly| ==> poly[i] == poly[1..][i - 1];
      r
  }

  /** `bounding_boxes_overlap(bb1, bb2)`. */
  predicate BoxesOverlap(b1: Box, b2: Box) {
    !(b1.maxX < b2.minX || b2.maxX < b1.minX || b1.maxY < b2.minY || b2.maxY < b1.minY)
  }

  /** Edge `i` of `poly1` and edge `j` of `poly2` cross. */
  predicate CrossAt(poly1: seq<Point>, poly2: seq<Point>, i: int, j: int)
    requires 0 <= i < |poly1| && 0 <= j < |poly2|
  {
    SegmentsIntersect(poly1[i], poly1[(i + 1) % |poly1|], poly2[j], poly2[(j + 1) % |poly2|])
  }

  predicate EdgesCross(poly1: seq<Point>, poly2: seq<Point>) {
    exists i, j :: 0 <= i < |poly1| && 0 <= j < |poly2| && CrossAt(poly1, poly2, i, j)
  }

  /** `_polygons_disjoint(poly1, poly2)` as a value: an empty ring raises,
      separated boxes give True, otherwise the rings are disjoint exactly when
      no pair of edges crosses. */
  function Disjoint(poly1: seq<Point>, poly2: seq<Point>): Result<bool> {
    if |poly1| == 0 || |poly2| == 0 then Err(ValueError(UnpackMsg))
    else if !BoxesOverlap(BoundingBox(poly1), BoundingBox(poly2)) then Ok(true)
    else Ok(!EdgesCross(poly1, poly2))
  }

  /** Two rings whose boxes are separated share no point at all, so the
      early `return True` is sound. */
  lemma BoxRejectSound(poly1: seq<Point>, poly2: seq<Point>)
    requires |poly1| > 0 && |poly2| > 0
    requires !BoxesOverlap(BoundingBox(poly1), BoundingBox(poly2))
    ensures Disjoint(poly1, poly2) == Ok(true)
    ensures forall i, j :: 0 <= i < |poly1| && 0 <= j < |poly2| ==> poly1[i] != poly2[j]
  {
    var b1, b2 := BoundingBox(poly1), BoundingBox(poly2);
    forall i, j | 0 <= i < |poly1| && 0 <= j < |poly2| ensures poly1[i] != poly2[j] {
      assert Encloses(b1, poly1[i]) && Encloses(b2, poly2[j]);
    }
  }

  /** The result does not depend on the order of the two rings. */
  lemma DisjointSymmetric(poly1: seq<Point>, poly2: seq<Point>)
    ensures Disjoint(poly1, poly2) == Disjoint(poly2, poly1)
  {
    if |poly1| > 0 && |poly2| > 0 {
      forall i, j | 0 <= i < |poly1| && 0 <= j < |poly2|
        ensures CrossAt(poly1, poly2, i, j) <==> CrossAt(poly2, poly1, j, i)
      {
        SegmentsIntersectSymmetric(poly1[i], poly1[(i + 1) % |poly1|], poly2[j], poly2[(j + 1) % |poly2|]);
      }
      assert EdgesCross(poly1, poly2) <==> EdgesCross(poly2, poly1) by {
        if EdgesCross(poly1, poly2) {
          var i, j :| 0 <= i < |poly1| && 0 <= j < |poly2| && CrossAt(poly1, poly2, i, j);
          assert CrossAt(poly2, poly1, j, i);
        }
        if EdgesCross(poly2, poly1) {
          var j, i :| 0 <= j < |poly2| && 0 <= i < |poly1| && CrossAt(poly2, poly1, j, i);
          assert CrossAt(poly1, poly2, i, j);
        }
      }
    }
  }

  /** `q` lies strictly to the left of edge `i` of `poly`. */
  predicate LeftOfEdge(poly: seq<Point>, i: int, q: Point)
    requires 0 <= i < |poly|
  {
    Ccw(poly[i], poly[(i + 1) % |poly|], q)
  }

  /** Only crossing edges count: a ring whose points all lie on the right of,
      or on the line of, every edge of another ring is reported disjoint from
      it, whatever its position. */
  lemma RightOfEveryEdgeReportedDisjoint(poly1: seq<Point>, poly2: seq<Point>)
    requires |poly1| > 0 && |poly2| > 0
    requires forall i, k :: 0 <= i < |poly1| && 0 <= k < |poly2| ==> !LeftOfEdge(poly1, i, poly2[k])
    ensures Disjoint(poly1, poly2) == Ok(true)
  {
    forall i, j | 0 <= i < |poly1| && 0 <= j < |poly2| ensures !CrossAt(poly1, poly2, i, j) {
      assert !LeftOfEdge(poly1, i, poly2[j]) && !LeftOfEdge(poly1, i, poly2[(j + 1) % |poly2|]);
    }
  }

  /** A square strictly inside a clockwise square has overlapping boxes but
      no crossing edge, so the two are reported disjoint although one
      contains the other. */
  lemma NestedSquaresReportedDisjoint()
    ensures Disjoint([(0.0, 0.0), (0.0, 4.0), (4.0, 4.0), (4.0, 0.0)],
                     [(1.0, 1.0), (1.0, 2.0), (2.0, 2.0), (2.0, 1.0)]) == Ok(true)
  {
    var outer := [(0.0, 0.0), (0.0, 4.0), (4.0, 4.0), (4.0, 0.0)];
    var inner := [(1.0, 1.0), (1.0, 2.0), (2.0, 2.0), (2.0, 1.0)];
    forall i, k | 0 <= i < 4 && 0 <= k < 4 ensures !LeftOfEdge(outer, i, inner[k]) {
      assert 1.0 <= inner[k].0 <= 2.0 && 1.0 <= inner[k].1 <= 2.0;
      if i == 0 {
        assert (i + 1) % 4 == 1;
      } else if i == 1 {
        assert (i + 1) % 4 == 2;
      } else if i == 2 {
        assert (i + 1) % 4 == 3;
      } else {
        assert (i + 1) % 4 == 0;
      }
    }
    RightOfEveryEdgeReportedDisjoint(outer, inner);
  }

  /** `_polygons_disjoint`: the nested index loops with their early return. */
  method PolygonsDisjoint(poly1: seq<Point>, poly2: seq<Point>) returns (r: Result<bool>)
    ensures r == Disjoint(poly1, poly2)
  {
    if |poly1| == 0 || |poly2| == 0 {
      return Err(ValueError(UnpackMsg));
    }
    var bb1, bb2 := BoundingBox(poly1), BoundingBox(poly2);
    if !BoxesOverlap(bb1, bb2) {
      return Ok(true);
    }
    var i := 0;
    while i < |poly1|
      invariant 0 <= i <= |poly1|
      invariant forall i', j' :: 0 <= i' < i && 0 <= j' < |poly2| ==> !CrossAt(poly1, poly2, i', j')
    {
      var p1, p2 := poly1[i], poly1[(i + 1) % |poly1|];
      var j := 0;
      while j < |poly2|
        invariant 0 <= j <= |poly2|
        invariant forall j' :: 0 <= j' < j ==> !CrossAt(poly1, poly2, i, j')
      {
        var q1, q2 := poly2[j], poly2[(j + 1) % |poly2|];
        if SegmentsIntersect(p1, p2, q1, q2) {
          assert CrossAt(poly1, poly2, i, j);
          return Ok(false);
        }
        j := j + 1;
      }
      i := i + 1;
    }
    return Ok(true);
  }
}
