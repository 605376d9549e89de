/** The ring classes of geojson_aoi/merge.py:172-268 (`LineString`,
    `Polygon`, `MultiPolygon`), `ring_to_shape_path`,
    `multi_polygon_from_shapes` and the ring-concatenating
    `_create_unary_union`. The classes never change after construction, so
    they are values here. A `BooleanOpsCoord` only wraps a position and is
    represented by that position. */
module Rings {
  import opened Json
  import opened Geometry
  import Orientation
  import Normalize

  /** A position `[x, y, ...]` of a ring. */
  type Position = seq<real>

  const UnpackMsg: string := "cannot unpack position into x, y"
  const NotClosedMsg: string := "LineString must be closed."

  datatype Winding = Clockwise | Counterclockwise

  /** A position with exactly the two components `x1, y1 = ...` unpacks. */
  predicate Unpacks(ring: seq<Position>) {
    forall i :: 0 <= i < |ring| ==> |ring[i]| == 2
  }

  /** The `(x, y)` points of a ring whose positions all unpack. */
  function XY(ring: seq<Position>): (r: seq<Point>)
    requires Unpacks(ring)
    ensures |r| == |ring|
    ensures forall i :: 0 <= i < |ring| ==> r[i] == (ring[i][0], ring[i][1])
  {
    seq(|ring|, i requires 0 <= i < |ring| => (ring[i][0], ring[i][1]))
  }

  /** `winding_order()` as a value: the open sum over consecutive positions.
      With fewer than two positions the loop does not run. */
  function WindingOf(ring: seq<Position>): Result<Winding> {
    if |ring| < 2 then Ok(Counterclockwise)
    else if !Unpacks(ring) then Err(ValueError(UnpackMsg))
    else Ok(if OpenSum(XY(ring)) > 0.0 then Clockwise else Counterclockwise)
  }

  datatype LineString = LineString(coordinates: seq<Position>) {

    /** `is_closed()`: `coordinates[0] == coordinates[-1]`; an empty ring
        raises. */
    function IsClosed(): (r: Result<bool>)
      ensures r.Ok? <==> |coordinates| > 0
      ensures r == Ok(true) <==> |coordinates| > 0 && coordinates[0] == coordinates[|coordinates| - 1]
    {
      if |coordinates| == 0 then Err(IndexError)
      else Ok(coordinates[0] == coordinates[|coordinates| - 1])
    }

    /** `winding_order()`: accumulates `area` over the consecutive pairs. */
    method WindingOrder() returns (r: Result<Winding>)
      ensures r == WindingOf(coordinates)
    {
      var area := 0.0;
      if |coordinates| < 2 {
        return Ok(Counterclockwise);
      }
      var i := 0;
      while i < |coordinates| - 1
        invariant 0 <= i <= |coordinates| - 1
        invariant i == 0 ==> area == 0.0
        invariant i > 0 ==> Unpacks(coordinates[..i + 1]) && area == OpenSum(XY(coordinates[..i + 1]))
      {
        if |coordinates[i]| != 2 || |coordinates[i + 1]| != 2 {
          return Err(ValueError(UnpackMsg));
        }
        var x1, y1 := coordinates[i][0], coordinates[i][1];
        var x2, y2 := coordinates[i + 1][0], coordinates[i + 1][1];
        WindingStep(coordinates, i);
        area := area + EdgeTerm((x1, y1), (x2, y2));
        i := i + 1;
      }
      assert coordinates[..i + 1] == coordinates;
      r := Ok(if area > 0.0 then Clockwise else Counterclockwise);
    }
  }

  /** One pass of the `winding_order()` loop adds the edge from position `i`
      to position `i + 1` to the open sum. */
  lemma WindingStep(ring: seq<Position>, i: nat)
    requires i + 1 < |ring| && |ring[i]| == 2 && |ring[i + 1]| == 2
    requires i > 0 ==> Unpacks(ring[..i + 1])
    ensures Unpacks(ring[..i + 2])
    ensures OpenSum(XY(ring[..i + 2]))
            == (if i == 0 then 0.0 else OpenSum(XY(ring[..i + 1])))
               + EdgeTerm((ring[i][0], ring[i][1]), (ring[i + 1][0], ring[i + 1][1]))
  {
    assert Unpacks(ring[..i + 1]);
    var before := XY(ring[..i + 1]);
    var p := (ring[i + 1][0], ring[i + 1][1]);
    assert XY(ring[..i + 2]) == before + [p];
    OpenSumSnoc(before, p);
    if i == 0 {
      assert before == [(ring[0][0], ring[0][1])];
    }
  }

  /** On a closed ring of plain `[x, y]` positions, `winding_order()` and the
      `is_clockwise` test of `_ensure_right_hand_rule` agree: the closing edge
      adds nothing to the cyclic sum. */
  lemma WindingAgreesWithIsClockwise(ring: seq<Position>)
    requires |ring| >= 2 && Unpacks(ring) && ring[0] == ring[|ring| - 1]
    ensures WindingOf(ring) == Ok(Clockwise) <==> Orientation.IsClockwise(XY(ring))
  {
    ClosedRingSums(XY(ring));
  }

  /** On an open ring the two tests can disagree: the triangle below is
      counter-clockwise for `winding_order()` (its open sum is 0) and
      clockwise for `is_clockwise` (the closing edge adds 1). */
  lemma WindingDisagreesOnOpenRing()
    ensures WindingOf([[1.0, 1.0], [1.0, 0.0], [0.0, 0.0]]) == Ok(Counterclockwise)
    ensures Orientation.IsClockwise(XY([[1.0, 1.0], [1.0, 0.0], [0.0, 0.0]]))
  {
    var ring: seq<Position> := [[1.0, 1.0], [1.0, 0.0], [0.0, 0.0]];
    var pts := XY(ring);
    assert pts == [(1.0, 1.0), (1.0, 0.0), (0.0, 0.0)];
    assert pts[1..] == [(1.0, 0.0), (0.0, 0.0)];
    assert OpenSum(pts[1..][1..]) == 0.0;
    assert OpenSum(pts) == 0.0;
  }

  datatype Polygon = Polygon(exterior: LineString, interiors: seq<LineString>) {
    /** `rings()`: the exterior, then the interiors in order. */
    function Rings(): (r: seq<LineString>)
      ensures |r| == 1 + |interiors| && r[0] == exterior && r[1..] == interiors
    {
      [exterior] + interiors
    }
  }

  /** `Polygon(exterior, interiors)`: `interiors or []`. */
  function NewPolygon(exterior: LineString, interiors: Option<seq<LineString>>): (p: Polygon)
    ensures p.exterior == exterior
    ensures p.interiors == if interiors.Some? then interiors.value else []
  {
    Polygon(exterior, if interiors.Some? then interiors.value else [])
  }

  datatype MultiPolygon = MultiPolygon(polygons: seq<Polygon>) {
    /** `rings()`: every ring of every polygon, polygon by polygon. */
    function Rings(): (r: seq<LineString>)
      ensures r == RingsOf(polygons)
    {
      RingsOf(polygons)
    }
  }

  function RingsOf(polygons: seq<Polygon>): seq<LineString> {
    if |polygons| == 0 then [] else RingsOf(polygons[..|polygons| - 1]) + polygons[|polygons| - 1].Rings()
  }

  /** The rings of a MultiPolygon are exactly the rings of its polygons, and
      there are as many as the polygons have together. */
  lemma {:induction false} RingsOfMembers(polygons: seq<Polygon>)
    ensures |RingsOf(polygons)| == RingCount(polygons)
    ensures forall r :: r in RingsOf(polygons) <==> exists k :: 0 <= k < |polygons| && r in polygons[k].Rings()
  {
    if |polygons| > 0 {
      var init := polygons[..|polygons| - 1];
      RingsOfMembers(init);
      forall r ensures r in RingsOf(polygons) <==> exists k :: 0 <= k < |polygons| && r in polygons[k].Rings() {
        if r in RingsOf(init) {
          var k :| 0 <= k < |init| && r in init[k].Rings();
          assert polygons[k] == init[k];
        }
        if exists k :: 0 <= k < |polygons| && r in polygons[k].Rings() {
          var k :| 0 <= k < |polygons| && r in polygons[k].Rings();
          if k < |init| {
            assert init[k] == polygons[k];
          }
        }
      }
    }
  }

  function RingCount(polygons: seq<Polygon>): nat {
    if |polygons| == 0 then 0 else RingCount(polygons[..|polygons| - 1]) + 1 + |polygons[|polygons| - 1].interiors|
  }

  /** What `_create_unary_union` accepts: a Polygon or a MultiPolygon. */
  datatype Boppable = Single(polygon: Polygon) | Multi(multi: MultiPolygon) {
    function Rings(): seq<LineString> {
      match this
      case Single(p) => p.Rings()
      case Multi(m) => m.Rings()
    }
  }

  /** `ring_to_shape_path(line_string)`: a closed ring without its repeated
      closing position; an open ring raises. */
  function RingToShapePath(ls: LineString): (r: Result<seq<Position>>)
    ensures r.Ok? <==> |ls.coordinates| > 0 && ls.coordinates[0] == ls.coordinates[|ls.coordinates| - 1]
    ensures r.Ok? ==> r.value == ls.coordinates[..|ls.coordinates| - 1]
    ensures |ls.coordinates| > 0 && !r.Ok? ==> r == Err(ValueError(NotClosedMsg))
  {
    var closed :- ls.IsClosed();
    if !closed then Err(ValueError(NotClosedMsg))
    else Ok(ls.coordinates[..|ls.coordinates| - 1])
  }

  /** The closing step of `multi_polygon_from_shapes`: append `ring[0]`
      unless the ring already ends there; an empty ring raises. */
  function CloseRing(ring: seq<Position>): (r: Result<seq<Position>>)
    ensures r.Ok? <==> |ring| > 0
    ensures r.Ok? ==> |r.value| > 0 && r.value[0] == r.value[|r.value| - 1]
    ensures r.Ok? ==> r.value == ring || r.value == ring + [ring[0]]
  {
    if |ring| == 0 then Err(IndexError)
    else if ring[0] != ring[|ring| - 1] then Ok(ring + [ring[0]])
    else Ok(ring)
  }

  /** Closing a closed ring changes nothing, so a second pass adds nothing. */
  lemma CloseRingIdempotent(ring: seq<Position>)
    requires |ring| > 0
    ensures CloseRing(CloseRing(ring).value) == CloseRing(ring)
  {}

  /** Round trip one way: closing a path whose ends differ and then dropping
      the closing position gives the path back. */
  lemma ShapePathOfClosedPath(path: seq<Position>)
    requires |path| > 0 && path[0] != path[|path| - 1]
    ensures RingToShapePath(LineString(CloseRing(path).value)) == Ok(path)
  {
    assert (path + [path[0]])[..|path|] == path;
  }

  /** Round trip the other way: dropping the closing position of a closed
      ring and closing it again gives the ring back, unless the ring ended
      with its first position twice. */
  lemma ClosedPathOfShapePath(ls: LineString)
    requires RingToShapePath(ls).Ok?
    requires |ls.coordinates| >= 2 && ls.coordinates[|ls.coordinates| - 2] != ls.coordinates[0]
    ensures CloseRing(RingToShapePath(ls).value) == Ok(ls.coordinates)
  {
    var c := ls.coordinates;
    assert c[..|c| - 1] + [c[0]] == c;
  }

  /** A ring as JSON: a list of positions, each a list of numbers. */
  function PositionJson(p: Position): Json {
    JArr(seq(|p|, i requires 0 <= i < |p| => JNum(p[i])))
  }

  function RingJson(ring: seq<Position>): Json {
    JArr(seq(|ring|, i requires 0 <= i < |ring| => PositionJson(ring[i])))
  }

  function ShapeJson(shape: seq<seq<Position>>): Json {
    JArr(seq(|shape|, i requires 0 <= i < |shape| => RingJson(shape[i])))
  }

  /** One Feature of the collection `multi_polygon_from_shapes` returns. */
  function ShapeFeature(shape: seq<seq<Position>>): Json {
    Normalize.MakeFeature(Normalize.MakeGeometry("Polygon", ShapeJson(shape)), EmptyObj)
  }

  function CloseRings(shape: seq<seq<Position>>): (r: Result<seq<seq<Position>>>)
    ensures r.Ok? ==> |r.value| == |shape|
  {
    if |shape| == 0 then Ok([])
    else
      var init :- CloseRings(shape[..|shape| - 1]);
      var last :- CloseRing(shape[|shape| - 1]);
      Ok(init + [last])
  }

  function CloseShapes(shapes: seq<seq<seq<Position>>>): (r: Result<seq<seq<seq<Position>>>>)
    ensures r.Ok? ==> |r.value| == |shapes|
  {
    if |shapes| == 0 then Ok([])
    else
      var init :- CloseShapes(shapes[..|shapes| - 1]);
      var last :- CloseRings(shapes[|shapes| - 1]);
      Ok(init + [last])
  }

  /** `multi_polygon_from_shapes(shapes)` as a value: every ring closed, one
      Polygon Feature with empty properties per shape. */
  function ShapesToFeatcol(shapes: seq<seq<seq<Position>>>): Result<Json> {
    var closed :- CloseShapes(shapes);
    Ok(Normalize.FeatureCollection(seq(|closed|, k requires 0 <= k < |closed| => ShapeFeature(closed[k]))))
  }

  /** Ring by ring: closing succeeds exactly when no ring is empty, and then
      every ring is closed and is its input, or its input with `ring[0]`
      appended. */
  lemma {:induction false} CloseRingsPointwise(shape: seq<seq<Position>>)
    ensures CloseRings(shape).Ok? <==> forall j :: 0 <= j < |shape| ==> |shape[j]| > 0
    ensures CloseRings(shape).Ok? ==> forall j :: 0 <= j < |shape| ==> Ok(CloseRings(shape).value[j]) == CloseRing(shape[j])
  {
    if |shape| > 0 {
      var init := shape[..|shape| - 1];
      CloseRingsPointwise(init);
      if CloseRings(shape).Ok? {
        var out := CloseRings(shape).value;
        assert out == CloseRings(init).value + [CloseRing(shape[|shape| - 1]).value];
        forall j | 0 <= j < |shape| ensures Ok(out[j]) == CloseRing(shape[j]) {
          if j < |shape| - 1 {
            assert shape[j] == init[j];
          }
        }
      }
      if forall j :: 0 <= j < |shape| ==> |shape[j]| > 0 {
        assert forall j :: 0 <= j < |init| ==> init[j] == shape[j];
      }
    }
  }

  /** Closing every ring twice is closing them once. */
  lemma CloseRingsIdempotent(shape: seq<seq<Position>>)
    requires CloseRings(shape).Ok?
    ensures CloseRings(CloseRings(shape).value) == CloseRings(shape)
  {
    var out := CloseRings(shape).value;
    CloseRingsPointwise(shape);
    CloseRingsPointwise(out);
    forall j | 0 <= j < |out| ensures |out[j]| > 0 && CloseRing(out[j]) == Ok(out[j]) {
      CloseRingIdempotent(shape[j]);
    }
    var again := CloseRings(out).value;
    assert again == out;
  }

  /** `multi_polygon_from_shapes(shapes)`: closes each ring in place, then
      appends one Feature per shape. */
  method MultiPolygonFromShapes(shapes: seq<seq<seq<Position>>>) returns (r: Result<Json>)
    ensures r == ShapesToFeatcol(shapes)
  {
    var features: seq<Json> := [];
    ghost var closed: seq<seq<seq<Position>>> := [];
    var k := 0;
    while k < |shapes|
      invariant 0 <= k <= |shapes|
      invariant CloseShapes(shapes[..k]) == Ok(closed)
      invariant features == seq(|closed|, m requires 0 <= m < |closed| => ShapeFeature(closed[m]))
    {
      assert shapes[..k + 1][..k] == shapes[..k];
      var shape := CloseShapeRings(shapes[k]);
      if shape.Err? {
        CloseShapesPrefixErr(shapes, k + 1);
        return Err(shape.error);
      }
      assert CloseShapes(shapes[..k + 1]) == Ok(closed + [shape.value]);
      closed := closed + [shape.value];
      features := features + [ShapeFeature(shape.value)];
      k := k + 1;
    }
    assert shapes[..k] == shapes;
    r := Ok(Normalize.FeatureCollection(features));
  }

  /** The inner `for ring in shape` loop of `multi_polygon_from_shapes`:
      appends `ring[0]` to each open ring, in place. */
  method CloseShapeRings(shape: seq<seq<Position>>) returns (r: Result<seq<seq<Position>>>)
    ensures r == CloseRings(shape)
  {
    var out := shape;
    var j := 0;
    while j < |out|
      invariant 0 <= j <= |out| == |shape|
      invariant out[j..] == shape[j..]
      invariant CloseRings(shape[..j]) == Ok(out[..j])
    {
      var ring := out[j];
      assert shape[..j + 1][..j] == shape[..j];
      if |ring| == 0 {
        CloseRingsPrefixErr(shape, j + 1);
        return Err(IndexError);
      }
      if ring[0] != ring[|ring| - 1] {
        ring := ring + [ring[0]];
      }
      out := out[j := ring];
      assert out[..j + 1] == out[..j] + [ring];
      j := j + 1;
    }
    assert shape[..j] == shape;
    assert out[..j] == out;
    r := Ok(out);
  }

  lemma {:induction false} CloseRingsPrefixErr(shape: seq<seq<Position>>, n: nat)
    requires n <= |shape| && CloseRings(shape[..n]).Err?
    ensures CloseRings(shape) == CloseRings(shape[..n])
    decreases |shape| - n
  {
    if n < |shape| {
      assert shape[..n + 1][..n] == shape[..n];
      CloseRingsPrefixErr(shape, n + 1);
    } else {
      assert shape[..n] == shape;
    }
  }

  lemma {:induction false} CloseShapesPrefixErr(shapes: seq<seq<seq<Position>>>, n: nat)
    requires n <= |shapes| && CloseShapes(shapes[..n]).Err?
    ensures CloseShapes(shapes) == CloseShapes(shapes[..n])
    decreases |shapes| - n
  {
    if n < |shapes| {
      assert shapes[..n + 1][..n] == shapes[..n];
      CloseShapesPrefixErr(shapes, n + 1);
    } else {
      assert shapes[..n] == shapes;
    }
  }

  // ---------------------------------------------------------------------
  // _create_unary_union (geojson_aoi/merge.py:243-268)
  // ---------------------------------------------------------------------

  function AllRings(boppables: seq<Boppable>): seq<LineString> {
    if |boppables| == 0 then []
    else AllRings(boppables[..|boppables| - 1]) + boppables[|boppables| - 1].Rings()
  }

  /** The `subject` list: one shape path per ring, in order. */
  function ShapePaths(rings: seq<LineString>): (r: Result<seq<seq<Position>>>)
    ensures r.Ok? ==> |r.value| == |rings|
  {
    if |rings| == 0 then Ok([])
    else
      var init :- ShapePaths(rings[..|rings| - 1]);
      var last :- RingToShapePath(rings[|rings| - 1]);
      Ok(init + [last])
  }

  /** `fill_rule`: `all(...)` stops at the first ring that is not
      clockwise, so only the rings up to it are read. The rule itself is
      never used; only whether reading it raises matters. */
  function FillRulePositive(rings: seq<LineString>): Result<bool> {
    if |rings| == 0 then Ok(true)
    else
      var w :- WindingOf(rings[0].coordinates);
      if w != Clockwise then Ok(false) else FillRulePositive(rings[1..])
  }

  /** `_create_unary_union(boppables)`: every ring of every input, in order,
      as one shape, re-closed by `multi_polygon_from_shapes`. */
  function UnaryUnionRings(boppables: seq<Boppable>): Result<Json> {
    var rings := AllRings(boppables);
    var subject :- ShapePaths(rings);
    var _ :- FillRulePositive(rings);
    ShapesToFeatcol([subject])
  }

  lemma {:induction false} ShapePathsPointwise(rings: seq<LineString>)
    requires ShapePaths(rings).Ok?
    ensures forall j :: 0 <= j < |rings| ==> Ok(ShapePaths(rings).value[j]) == RingToShapePath(rings[j])
  {
    if |rings| > 0 {
      var init := rings[..|rings| - 1];
      ShapePathsPointwise(init);
      var out := ShapePaths(rings).value;
      assert out == ShapePaths(init).value + [RingToShapePath(rings[|rings| - 1]).value];
      forall j | 0 <= j < |rings| ensures Ok(out[j]) == RingToShapePath(rings[j]) {
        if j < |rings| - 1 {
          assert rings[j] == init[j];
        }
      }
    }
  }

  /** The union is one FeatureCollection holding one Polygon Feature with
      empty properties; its rings are the rings of all inputs in order, each
      closed, and each the input ring itself or, when that ring repeated its
      closing position, the input ring without its last position. */
  lemma UnaryUnionRingsShape(boppables: seq<Boppable>)
    requires UnaryUnionRings(boppables).Ok?
    ensures exists shape: seq<seq<Position>> ::
              && UnaryUnionRings(boppables) == Ok(Normalize.FeatureCollection([ShapeFeature(shape)]))
              && ClosedRingsOf(AllRings(boppables), shape)
  {
    var rings := AllRings(boppables);
    var subject := ShapePaths(rings).value;
    var shape := UnaryUnionRingsUnfold(boppables, subject);
    ClosedShapeOfRings(rings, subject, shape);
  }

  /** `shape` holds one closed ring per ring of `rings`: that ring itself,
      or that ring without its repeated last position. */
  predicate ClosedRingsOf(rings: seq<LineString>, shape: seq<seq<Position>>) {
    && |shape| == |rings|
    && forall j :: 0 <= j < |rings| ==>
         |shape[j]| > 0 && shape[j][0] == shape[j][|shape[j]| - 1]
         && |rings[j].coordinates| > 0
         && (shape[j] == rings[j].coordinates
             || shape[j] == rings[j].coordinates[..|rings[j].coordinates| - 1])
  }

  /** A successful union is one feature over the closed subject paths. */
  lemma UnaryUnionRingsUnfold(boppables: seq<Boppable>, subject: seq<seq<Position>>) returns (shape: seq<seq<Position>>)
    requires UnaryUnionRings(boppables).Ok?
    requires subject == ShapePaths(AllRings(boppables)).value
    ensures ShapePaths(AllRings(boppables)) == Ok(subject)
    ensures CloseRings(subject) == Ok(shape)
    ensures UnaryUnionRings(boppables) == Ok(Normalize.FeatureCollection([ShapeFeature(shape)]))
  {
    var closed := CloseShapes([subject]).value;
    var one: seq<seq<seq<Position>>> := [subject];
    assert one[..0] == [];
    shape := closed[0];
    assert seq(|closed|, k requires 0 <= k < |closed| => ShapeFeature(closed[k])) == [ShapeFeature(shape)];
  }

  /** Ring by ring: closing the shape paths of closed rings gives back each
      ring, or each ring without its repeated last position. */
  lemma ClosedShapeOfRings(rings: seq<LineString>, subject: seq<seq<Position>>, shape: seq<seq<Position>>)
    requires ShapePaths(rings) == Ok(subject)
    requires CloseRings(subject) == Ok(shape)
    ensures ClosedRingsOf(rings, shape)
  {
    ShapePathsPointwise(rings);
    CloseRingsPointwise(subject);
    forall j | 0 <= j < |rings|
      ensures |shape[j]| > 0 && shape[j][0] == shape[j][|shape[j]| - 1]
      ensures |rings[j].coordinates| > 0
      ensures shape[j] == rings[j].coordinates || shape[j] == rings[j].coordinates[..|rings[j].coordinates| - 1]
    {
      ClosedRingOfPath(rings[j], subject[j], shape[j]);
    }
  }

  /** One ring: its shape path, closed again, is the ring or the ring
      without its repeated last position. */
  lemma ClosedRingOfPath(ring: LineString, path: seq<Position>, closed: seq<Position>)
    requires RingToShapePath(ring) == Ok(path) && CloseRing(path) == Ok(closed)
    ensures |closed| > 0 && closed[0] == closed[|closed| - 1] && |ring.coordinates| > 0
    ensures closed == ring.coordinates || closed == ring.coordinates[..|ring.coordinates| - 1]
  {
    var c := ring.coordinates;
    if closed != path {
      assert c[..|c| - 1] + [c[0]] == c;
    }
  }

  /** A ring of one position is closed but leaves an empty shape path, and
      closing that path reads `ring[0]` of an empty list. */
  lemma UnaryUnionOfOnePointRing(p: Position)
    ensures UnaryUnionRings([Single(Polygon(LineString([p]), []))]) == Err(IndexError)
  {
    var ring := LineString([p]);
    var b := [Single(Polygon(ring, []))];
    assert AllRings(b) == [ring] by {
      assert b[..0] == [];
    }
    var subject := OnePointRingPath(ring);
    assert FillRulePositive([ring]).Ok?;
    EmptyPathDoesNotClose([subject]);
  }

  /** The one-position ring's shape path list is one empty path. */
  lemma OnePointRingPath(ring: LineString) returns (subject: seq<seq<Position>>)
    requires |ring.coordinates| == 1
    ensures ShapePaths([ring]) == Ok(subject) && |subject| == 1 && subject[0] == []
  {
    var rs := [ring];
    assert rs[..0] == [];
    assert RingToShapePath(ring) == Ok([]);
    assert ShapePaths(rs[..0]) == Ok([]);
    var none: seq<seq<Position>> := [];
    var empty: seq<Position> := [];
    subject := none + [empty];
  }

  /** Closing a shape that holds an empty path raises IndexError. */
  lemma EmptyPathDoesNotClose(shapes: seq<seq<seq<Position>>>)
    requires |shapes| == 1 && |shapes[0]| == 1 && shapes[0][0] == []
    ensures CloseShapes(shapes) == Err(IndexError)
  {
    assert shapes[0][..0] == [];
    assert CloseRings(shapes[0]) == Err(IndexError);
    assert shapes[..0] == [];
  }

  /** `_create_unary_union`: builds `subject` ring by ring, reads the fill
      rule, then hands the single shape to `multi_polygon_from_shapes`. */
  method CreateUnaryUnion(boppables: seq<Boppable>) returns (r: Result<Json>)
    ensures r == UnaryUnionRings(boppables)
  {
    var rings := AllRings(boppables);
    var subject: seq<seq<Position>> := [];
    var i := 0;
    while i < |rings|
      invariant 0 <= i <= |rings|
      invariant ShapePaths(rings[..i]) == Ok(subject)
    {
      var path := RingToShapePath(rings[i]);
      assert rings[..i + 1] == rings[..i] + [rings[i]];
      ShapePathsSnoc(rings[..i], rings[i]);
      if path.Err? {
        ShapePathsPrefixErr(rings, i + 1);
        return Err(path.error);
      }
      subject := subject + [path.value];
      i := i + 1;
    }
    assert rings[..i] == rings;
    var fillRule := FillRulePositive(rings);
    if fillRule.Err? {
      return Err(fillRule.error);
    }
    r := MultiPolygonFromShapes([subject]);
  }

  /** One more ring: its shape path follows the paths before it. */
  lemma ShapePathsSnoc(rings: seq<LineString>, ring: LineString)
    ensures ShapePaths(rings + [ring]) ==
              (if ShapePaths(rings).Err? then ShapePaths(rings)
               else if RingToShapePath(ring).Err? then Err(RingToShapePath(ring).error)
               else Ok(ShapePaths(rings).value + [RingToShapePath(ring).value]))
  {
    var all := rings + [ring];
    assert all[..|all| - 1] == rings && all[|all| - 1] == ring;
  }

  lemma {:induction false} ShapePathsPrefixErr(rings: seq<LineString>, n: nat)
    requires n <= |rings| && ShapePaths(rings[..n]).Err?
    ensures ShapePaths(rings) == ShapePaths(rings[..n])
    decreases |rings| - n
  {
    if n < |rings| {
      assert rings[..n + 1][..n] == rings[..n];
      ShapePathsPrefixErr(rings, n + 1);
    } else {
      assert rings[..n] == rings;
    }
  }
}
