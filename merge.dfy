/** `merge_polygons` of geojson_aoi/parser.py:320-370 with the point-set
    `_create_unary_union` of geojson_aoi/parser.py:308-317.

    As written, line 348 (line 36 of geojson_aoi/merge.py) passes the bare
    exterior ring `polygon[0]` to `_ensure_right_hand_rule`, whose
    `coordinates[0]` is then a position rather than a ring, so the
    validation raises for every ordinary ring: `OrientedAsWritten` models
    those lines and `AsWrittenRejectsOrdinaryRing` exhibits the raise.
    `Merged` is the evidently intended composition: each exterior is oriented
    as the one-ring polygon `[exterior]`, and its positions are then read as
    `(x, y)` tuples (a `set` of lists, as line 356 would build, cannot be
    formed in Python). */
module Merge {
  import opened Json
  import opened Geometry
  import Orientation
  import Hull
  import Disjoint
  import Normalize

  const EmptyMsg: string := "FeatureCollection must contain at least one feature"

  // ---------------------------------------------------------------------
  // Collecting the exterior rings (lines 339-346)
  // ---------------------------------------------------------------------

  /** `[_remove_holes(polygon) for polygon in members]`. */
  function RemoveHolesAll(members: seq<Json>): (r: Result<seq<Json>>)
    ensures r.Ok? ==> |r.value| == |members|
  {
    if |members| == 0 then Ok([])
    else
      var head :- Orientation.RemoveHoles(members[0]);
      var rest :- RemoveHolesAll(members[1..]);
      Ok([head] + rest)
  }

  /** The exterior rings one feature contributes: one for a Polygon, one per
      member for a MultiPolygon, none for any other type. */
  function FeatureExteriors(feature: Json): Result<seq<Json>> {
    var geom :- Lookup(feature, "geometry");
    var geomType :- Lookup(geom, "type");
    if geomType == JStr("Polygon") then
      var coordinates :- Lookup(geom, "coordinates");
      var exterior :- Orientation.RemoveHoles(coordinates);
      Ok([exterior])
    else if geomType == JStr("MultiPolygon") then
      var coordinates :- Lookup(geom, "coordinates");
      var members :- Iter(coordinates);
      RemoveHolesAll(members)
    else Ok([])
  }

  /** The `polygons` list after the loop, holding each exterior ring. */
  function CollectExteriors(features: seq<Json>): Result<seq<Json>> {
    if |features| == 0 then Ok([])
    else
      var head :- FeatureExteriors(features[0]);
      var rest :- CollectExteriors(features[1..]);
      Ok(head + rest)
  }

  /** `acc` followed by the outcome of the remaining iterations. */
  function Prepend<T>(acc: seq<T>, rest: Result<seq<T>>): Result<seq<T>> {
    if rest.Ok? then Ok(acc + rest.value) else rest
  }

  // ---------------------------------------------------------------------
  // Orientation (line 348), as written and as intended
  // ---------------------------------------------------------------------

  /** Lines 336-348 as written: each bare exterior ring goes to
      `_ensure_right_hand_rule`. */
  function OrientedAsWritten(featcol: Json): Result<seq<Json>> {
    var features :- Get(featcol, "features", JNull);
    if !Truthy(features) then Err(ValueError(EmptyMsg))
    else
      var items :- Iter(features);
      var exteriors :- CollectExteriors(items);
      OrientBareRings(exteriors)
  }

  function OrientBareRings(rings: seq<Json>): Result<seq<Json>> {
    if |rings| == 0 then Ok([])
    else
      var head :- Orientation.RightHandRule(rings[0]);
      var rest :- OrientBareRings(rings[1..]);
      Ok([head] + rest)
  }

  /** Handed a bare ring whose first position starts with a number, the
      validation of `_ensure_right_hand_rule` sees a position where it
      expects a ring of positions, and raises. */
  lemma AsWrittenRejectsOrdinaryRing(ring: seq<Json>)
    requires |ring| > 0 && ring[0].JArr? && |ring[0].items| > 0 && !ring[0].items[0].JArr?
    ensures Orientation.RightHandRule(JArr(ring)) == Err(ValueError(Orientation.InvalidRingMsg))
    ensures OrientBareRings([JArr(ring)]) == Err(ValueError(Orientation.InvalidRingMsg))
  {
    assert !Orientation.ValidExterior(ring[0]);
  }

  /** A collection of one Polygon Feature without holes. */
  function OnePolygon(ring: seq<Json>): Json {
    Normalize.FeatureCollection([Normalize.MakeFeature(Normalize.MakeGeometry("Polygon", JArr([JArr(ring)])), EmptyObj)])
  }

  /** The unit square of the merge tests, closed, as a one-feature collection. */
  function Square(): Json {
    OnePolygon([JArr([JNum(0.0), JNum(0.0)]), JArr([JNum(1.0), JNum(0.0)]),
                JArr([JNum(1.0), JNum(1.0)]), JArr([JNum(0.0), JNum(1.0)]),
                JArr([JNum(0.0), JNum(0.0)])])
  }

  /** The discrepancy on every one-Polygon collection whose ring is made of
      `[x, y]` number pairs: as written, merging raises ValueError; the
      intended composition succeeds. */
  lemma OnePolygonAsWrittenRaises(ring: seq<Json>)
    requires |ring| > 0 && Orientation.ValidExterior(JArr(ring)) && Orientation.Planar(JArr(ring)).Some?
    ensures OrientedAsWritten(OnePolygon(ring)) == Err(ValueError(Orientation.InvalidRingMsg))
    ensures Merged(OnePolygon(ring)).Ok?
  {
    OnePolygonExterior(ring);
    assert ring[0].JArr? && |ring[0].items| == 2;
    assert Orientation.AsXY(ring[0]).Some?;
    AsWrittenRejectsOrdinaryRing(ring);
    OneRingOrients(ring);
  }

  lemma OnePolygonExterior(ring: seq<Json>)
    ensures var fc := OnePolygon(ring);
            && Get(fc, "features", JNull).Ok? && Truthy(Get(fc, "features", JNull).value)
            && Iter(Get(fc, "features", JNull).value).Ok?
            && CollectExteriors(Iter(Get(fc, "features", JNull).value).value) == Ok([JArr(ring)])
  {
    var feature := Normalize.MakeFeature(Normalize.MakeGeometry("Polygon", JArr([JArr(ring)])), EmptyObj);
    assert FeatureExteriors(feature) == Ok([JArr(ring)]);
    assert [feature][1..] == [];
    assert [JArr(ring)] + [] == [JArr(ring)];
  }

  lemma OneRingOrients(ring: seq<Json>)
    requires Orientation.ValidExterior(JArr(ring)) && Orientation.Planar(JArr(ring)).Some?
    ensures OrientIntended([JArr(ring)]).Ok? && AllDisjoint(OrientIntended([JArr(ring)]).value).Ok?
  {
    var rings := [JArr(ring)];
    assert rings[1..] == [];
    assert Orientation.OrientHoles([]) == Ok([]);
    assert Orientation.RightHandRule(JArr(rings)).Ok?;
    assert OrientedRing(JArr(ring)).Ok?;
    assert OrientIntended(rings[1..]) == Ok([]);
    var oriented := OrientIntended(rings).value;
    assert |oriented| == 1 && oriented[1..] == [];
  }

  /** The unit square: as written merging raises, as intended it succeeds. */
  lemma SquareAsWrittenRaises()
    ensures OrientedAsWritten(Square()) == Err(ValueError(Orientation.InvalidRingMsg))
    ensures Merged(Square()).Ok?
  {
    var ring := [JArr([JNum(0.0), JNum(0.0)]), JArr([JNum(1.0), JNum(0.0)]),
                 JArr([JNum(1.0), JNum(1.0)]), JArr([JNum(0.0), JNum(1.0)]),
                 JArr([JNum(0.0), JNum(0.0)])];
    assert forall i :: 0 <= i < |ring| ==> Orientation.AsXY(ring[i]).Some?;
    OnePolygonAsWrittenRaises(ring);
  }

  /** The intended step: orient the one-ring polygon `[exterior]` and read
      the oriented ring's positions as `(x, y)` pairs. */
  function OrientedRing(exterior: Json): (r: Result<seq<Point>>)
    ensures r.Ok? ==> CyclicSum(r.value) >= 0.0
    ensures r.Ok? ==> Orientation.Planar(exterior).Some?
                      && (r.value == Orientation.Planar(exterior).value
                          || r.value == Reverse(Orientation.Planar(exterior).value))
  {
    var oriented :- Orientation.RightHandRule(JArr([exterior]));
    OrientOneRing(exterior);
    Ok(Orientation.Planar(oriented.items[0]).value)
  }

  lemma OrientOneRing(exterior: Json)
    requires Orientation.RightHandRule(JArr([exterior])).Ok?
    ensures var oriented := Orientation.RightHandRule(JArr([exterior])).value;
            && oriented.JArr? && |oriented.items| == 1
            && Orientation.Planar(exterior).Some? && Orientation.Planar(oriented.items[0]).Some?
            && CyclicSum(Orientation.Planar(oriented.items[0]).value) >= 0.0
            && (Orientation.Planar(oriented.items[0]).value == Orientation.Planar(exterior).value
                || Orientation.Planar(oriented.items[0]).value == Reverse(Orientation.Planar(exterior).value))
  {
    var oriented := Orientation.RightHandRule(JArr([exterior])).value;
    Orientation.RightHandRuleOrients(JArr([exterior]));
    if oriented.items[0] != exterior {
      Orientation.PlanarReverse(exterior);
    }
  }

  /** The corrected comprehension: one oriented ring per exterior, in order;
      it fails exactly when some exterior fails to orient. */
  function OrientIntended(exteriors: seq<Json>): (r: Result<seq<seq<Point>>>)
    ensures r.Ok? ==> |r.value| == |exteriors|
    ensures r.Ok? ==> forall i :: 0 <= i < |exteriors| ==> OrientedRing(exteriors[i]) == Ok(r.value[i])
    ensures r.Ok? <==> forall i :: 0 <= i < |exteriors| ==> OrientedRing(exteriors[i]).Ok?
  {
    if |exteriors| == 0 then Ok([])
    else
      var head :- OrientedRing(exteriors[0]);
      var rest :- OrientIntended(exteriors[1..]);
      Ok([head] + rest)
  }

  // ---------------------------------------------------------------------
  // Choosing hull or union (lines 350-359)
  // ---------------------------------------------------------------------

  /** `all(_polygons_disjoint(p, q) for q in rest)`: stops at the first pair
      found not disjoint; a pair that raises ends the call. */
  function DisjointFromAll(p: seq<Point>, rest: seq<seq<Point>>): Result<bool> {
    if |rest| == 0 then Ok(true)
    else
      var d :- Disjoint.Disjoint(p, rest[0]);
      if !d then Ok(false) else DisjointFromAll(p, rest[1..])
  }

  /** The `all(...)` over every pair `i < j`, in the generator's order. */
  function AllDisjoint(rings: seq<seq<Point>>): Result<bool> {
    if |rings| == 0 then Ok(true)
    else
      var d :- DisjointFromAll(rings[0], rings[1..]);
      if !d then Ok(false) else AllDisjoint(rings[1..])
  }

  /** When the `all(...)` answers, it answers whether every pair of rings
      is disjoint. */
  lemma {:induction false} AllDisjointMeaning(rings: seq<seq<Point>>)
    requires AllDisjoint(rings).Ok?
    ensures AllDisjoint(rings).value <==>
              forall i, j :: 0 <= i < j < |rings| ==> Disjoint.Disjoint(rings[i], rings[j]) == Ok(true)
  {
    if |rings| > 0 {
      AllDisjointStep(rings);
      DisjointFromAllMeaning(rings[0], rings[1..]);
      PairsOfTail(rings);
      if DisjointFromAll(rings[0], rings[1..]).value {
        AllDisjointMeaning(rings[1..]);
      }
    }
  }

  /** Every pair is disjoint exactly when the first ring is disjoint from
      every later one and every pair of later rings is disjoint. */
  lemma PairsOfTail(rings: seq<seq<Point>>)
    requires |rings| > 0
    ensures (forall i, j :: 0 <= i < j < |rings| ==> Disjoint.Disjoint(rings[i], rings[j]) == Ok(true))
            <==> (forall j :: 0 <= j < |rings[1..]| ==> Disjoint.Disjoint(rings[0], rings[1..][j]) == Ok(true))
                 && (forall i, j :: 0 <= i < j < |rings[1..]| ==> Disjoint.Disjoint(rings[1..][i], rings[1..][j]) == Ok(true))
  {
    var tail := rings[1..];
    assert forall k :: 0 <= k < |tail| ==> tail[k] == rings[k + 1];
  }

  lemma {:induction false} DisjointFromAllMeaning(p: seq<Point>, rest: seq<seq<Point>>)
    requires DisjointFromAll(p, rest).Ok?
    ensures DisjointFromAll(p, rest).value <==>
              forall j :: 0 <= j < |rest| ==> Disjoint.Disjoint(p, rest[j]) == Ok(true)
  {
    if |rest| > 0 {
      var tail := rest[1..];
      assert forall k :: 0 <= k < |tail| ==> tail[k] == rest[k + 1];
      if Disjoint.Disjoint(p, rest[0]).value {
        assert DisjointFromAll(p, rest) == DisjointFromAll(p, tail);
        DisjointFromAllMeaning(p, tail);
      }
    }
  }

  /** `chain.from_iterable`: every point of every ring, in order. */
  function Flatten(rings: seq<seq<Point>>): seq<Point> {
    if |rings| == 0 then [] else rings[0] + Flatten(rings[1..])
  }

  lemma {:induction false} FlattenMembers(rings: seq<seq<Point>>)
    ensures forall q :: q in Flatten(rings) <==> exists k :: 0 <= k < |rings| && q in rings[k]
  {
    if |rings| > 0 {
      FlattenMembers(rings[1..]);
      forall q ensures q in Flatten(rings) <==> exists k :: 0 <= k < |rings| && q in rings[k] {
        if exists k :: 0 <= k < |rings| && q in rings[k] {
          var k :| 0 <= k < |rings| && q in rings[k];
          if k > 0 {
            assert q in rings[1..][k - 1];
          }
        }
        if q in Flatten(rings[1..]) {
          var k :| 0 <= k < |rings[1..]| && q in rings[1..][k];
          assert q in rings[k + 1];
        }
      }
    }
  }

  /** `_create_unary_union` of parser.py: one ring of the distinct points of
      every first ring. Python's `set` order is unspecified; the model takes
      sorted order. */
  function UnaryUnionPoints(rings: seq<seq<Point>>): (r: seq<Point>)
    ensures Hull.StrictlySorted(r)
    ensures forall q :: q in r <==> exists k :: 0 <= k < |rings| && q in rings[k]
  {
    FlattenMembers(rings);
    Hull.SortDedup(Flatten(rings))
  }

  /** A point `(x, y)` written out as the JSON list `[x, y]`. */
  function PointsJson(pts: seq<Point>): Json {
    JArr(seq(|pts|, i requires 0 <= i < |pts| => JArr([JNum(pts[i].0), JNum(pts[i].1)])))
  }

  /** The collection `merge_polygons` returns around `merged_coordinates`. */
  function Wrap(merged: Json): Json {
    Normalize.FeatureCollection([Normalize.MakeFeature(Normalize.MakeGeometry("Polygon", JArr([merged])), EmptyObj)])
  }

  /** `merged_coordinates`: the hull of all points when every pair of rings
      is disjoint, otherwise the union, which is a list holding one ring. */
  function MergedCoordinates(rings: seq<seq<Point>>, disjoint: bool): Json {
    if disjoint then PointsJson(Hull.Hull(Flatten(rings)))
    else JArr([PointsJson(UnaryUnionPoints(rings))])
  }

  /** `merge_polygons(featcol)` with the orientation step as intended. */
  function Merged(featcol: Json): Result<Json> {
    var features :- Get(featcol, "features", JNull);
    if !Truthy(features) then Err(ValueError(EmptyMsg))
    else
      var items :- Iter(features);
      var exteriors :- CollectExteriors(items);
      var rings :- OrientIntended(exteriors);
      var disjoint :- AllDisjoint(rings);
      Ok(Wrap(MergedCoordinates(rings, disjoint)))
  }

  // ---------------------------------------------------------------------
  // Properties of the intended composition
  // ---------------------------------------------------------------------

  /** An empty feature list (missing, empty or otherwise falsy) is exactly
      what raises "FeatureCollection must contain at least one feature". */
  lemma MergedRaisesOnEmpty(fields: map<string, Json>)
    ensures Merged(JObj(fields)) == Err(ValueError(EmptyMsg)) <==>
              !("features" in fields && Truthy(fields["features"]))
  {
    var featcol := JObj(fields);
    if "features" in fields && Truthy(fields["features"]) {
      var r := Merged(featcol);
      if r.Err? && r.error.ValueError? {
        NoLaterEmptyMsg(featcol);
      }
    }
  }

  /** No step after the emptiness test raises with its message. */
  lemma NoLaterEmptyMsg(featcol: Json)
    requires featcol.JObj? && "features" in featcol.fields && Truthy(featcol.fields["features"])
    ensures Merged(featcol) != Err(ValueError(EmptyMsg))
  {
    var items := Iter(featcol.fields["features"]);
    if items.Ok? {
      CollectExteriorsErrors(items.value);
      var ex := CollectExteriors(items.value);
      if ex.Ok? {
        OrientIntendedErrors(ex.value);
        var rings := OrientIntended(ex.value);
        if rings.Ok? {
          AllDisjointErrors(rings.value);
        }
      }
    }
  }

  lemma {:induction false} CollectExteriorsErrors(features: seq<Json>)
    ensures CollectExteriors(features).Err? ==> !CollectExteriors(features).error.ValueError?
  {
    if |features| > 0 {
      CollectExteriorsErrors(features[1..]);
      var f := features[0];
      var geom := Lookup(f, "geometry");
      if geom.Ok? && Lookup(geom.value, "type").Ok? && Lookup(geom.value, "coordinates").Ok? {
        var c := Lookup(geom.value, "coordinates").value;
        if Iter(c).Ok? {
          RemoveHolesAllErrors(Iter(c).value);
        }
      }
    }
  }

  lemma {:induction false} RemoveHolesAllErrors(members: seq<Json>)
    ensures RemoveHolesAll(members).Err? ==> !RemoveHolesAll(members).error.ValueError?
  {
    if |members| > 0 {
      RemoveHolesAllErrors(members[1..]);
    }
  }

  lemma {:induction false} OrientIntendedErrors(exteriors: seq<Json>)
    ensures OrientIntended(exteriors).Err? ==> OrientIntended(exteriors).error != ValueError(EmptyMsg)
  {
    if |exteriors| > 0 {
      OrientIntendedErrors(exteriors[1..]);
    }
  }

  lemma {:induction false} AllDisjointErrors(rings: seq<seq<Point>>)
    ensures AllDisjoint(rings).Err? ==> AllDisjoint(rings).error == ValueError(Disjoint.UnpackMsg)
  {
    if |rings| > 0 {
      DisjointFromAllErrors(rings[0], rings[1..]);
      AllDisjointErrors(rings[1..]);
    }
  }

  lemma {:induction false} DisjointFromAllErrors(p: seq<Point>, rest: seq<seq<Point>>)
    ensures DisjointFromAll(p, rest).Err? ==> DisjointFromAll(p, rest).error == ValueError(Disjoint.UnpackMsg)
  {
    if |rest| > 0 {
      DisjointFromAllErrors(p, rest[1..]);
    }
  }

  /** Whenever `merge_polygons` returns, it returns a FeatureCollection of
      exactly one Polygon Feature with empty properties whose coordinates
      hold exactly one entry; the hull branch makes that entry a ring of
      input points starting at the smallest, the union branch a list holding
      one ring of the distinct input points (one level deeper, as the code
      writes it). */
  lemma MergedShape(featcol: Json)
    requires Merged(featcol).Ok?
    ensures var fc := Merged(featcol).value;
            && fc.JObj? && fc.fields.Keys == {"type", "features"}
            && fc.fields["features"].JArr? && |fc.fields["features"].items| == 1
            && var feature := fc.fields["features"].items[0];
               feature.JObj? && feature.fields["properties"] == EmptyObj
               && feature.fields["geometry"].JObj?
               && feature.fields["geometry"].fields["type"] == JStr("Polygon")
               && feature.fields["geometry"].fields["coordinates"].JArr?
               && |feature.fields["geometry"].fields["coordinates"].items| == 1
  {}

  /** In the hull branch every point of the merged ring is a point of one of
      the oriented exterior rings. */
  lemma HullPointsFromRings(rings: seq<seq<Point>>)
    ensures forall q :: q in Hull.Hull(Flatten(rings)) ==> exists k :: 0 <= k < |rings| && q in rings[k]
  {
    Hull.HullProperties(Flatten(rings));
    FlattenMembers(rings);
  }

  /** Moving elements from the rest to the accumulator. */
  lemma PrependMore<T>(acc: seq<T>, xs: seq<T>, rest: Result<seq<T>>)
    ensures Prepend(acc, Prepend(xs, rest)) == Prepend(acc + xs, rest)
  {
    if rest.Ok? {
      assert acc + (xs + rest.value) == (acc + xs) + rest.value;
    }
  }

  lemma PrependNothing<T>(r: Result<seq<T>>)
    ensures Prepend([], r) == r
  {
    if r.Ok? {
      assert [] + r.value == r.value;
    }
  }

  // ---------------------------------------------------------------------
  // The method
  // ---------------------------------------------------------------------

  /** The collecting loop of lines 339-346, with its inner loop over the
      members of a MultiPolygon. */
  method CollectPolygons(features: seq<Json>) returns (r: Result<seq<Json>>)
    ensures r == CollectExteriors(features)
  {
    var polygons: seq<Json> := [];
    var i := 0;
    assert features[i..] == features;
    PrependNothing(CollectExteriors(features));
    while i < |features|
      invariant 0 <= i <= |features|
      invariant CollectExteriors(features) == Prepend(polygons, CollectExteriors(features[i..]))
    {
      assert features[i..][1..] == features[i + 1..];
      var contributed := FeatureExteriors(features[i]);
      if contributed.Err? {
        return contributed.PropagateFailure();
      }
      assert CollectExteriors(features[i..]) == Prepend(contributed.value, CollectExteriors(features[i + 1..]));
      PrependMore(polygons, contributed.value, CollectExteriors(features[i + 1..]));
      polygons := polygons + contributed.value;
      i := i + 1;
    }
    assert features[i..] == [];
    assert polygons + [] == polygons;
    r := Ok(polygons);
  }

  /** The list comprehension of line 348, as intended. */
  method OrientPolygons(exteriors: seq<Json>) returns (r: Result<seq<seq<Point>>>)
    ensures r == OrientIntended(exteriors)
  {
    var rings: seq<seq<Point>> := [];
    var i := 0;
    assert exteriors[i..] == exteriors;
    PrependNothing(OrientIntended(exteriors));
    while i < |exteriors|
      invariant 0 <= i <= |exteriors|
      invariant OrientIntended(exteriors) == Prepend(rings, OrientIntended(exteriors[i..]))
    {
      assert exteriors[i..][1..] == exteriors[i + 1..];
      OrientIntendedStep(exteriors[i..]);
      var oriented := OrientOne(exteriors[i]);
      if oriented.Err? {
        return oriented.PropagateFailure();
      }
      var ring := oriented.value;
      PrependMore(rings, [ring], OrientIntended(exteriors[i + 1..]));
      rings := rings + [ring];
      i := i + 1;
    }
    assert exteriors[i..] == [];
    assert rings + [] == rings;
    r := Ok(rings);
  }

  /** One step of the comprehension: the first exterior's error, or its
      ring in front of the rest. */
  lemma OrientIntendedStep(exteriors: seq<Json>)
    requires |exteriors| > 0
    ensures OrientedRing(exteriors[0]).Err? ==> OrientIntended(exteriors) == Err(OrientedRing(exteriors[0]).error)
    ensures OrientedRing(exteriors[0]).Ok? ==>
              OrientIntended(exteriors) == Prepend([OrientedRing(exteriors[0]).value], OrientIntended(exteriors[1..]))
  {}

  /** One `_ensure_right_hand_rule([exterior])`, read as `(x, y)` pairs. */
  method OrientOne(exterior: Json) returns (r: Result<seq<Point>>)
    ensures r == OrientedRing(exterior)
  {
    var oriented := Orientation.EnsureRightHandRule(JArr([exterior]));
    if oriented.Err? {
      return oriented.PropagateFailure();
    }
    OrientOneRing(exterior);
    r := Ok(Orientation.Planar(oriented.value.items[0]).value);
  }

  /** The `all(...)` of lines 350-354 as nested loops with early exit. */
  method CheckAllDisjoint(rings: seq<seq<Point>>) returns (r: Result<bool>)
    ensures r == AllDisjoint(rings)
  {
    var i := 0;
    while i < |rings|
      invariant 0 <= i <= |rings|
      invariant AllDisjoint(rings) == AllDisjoint(rings[i..])
    {
      assert rings[i..][1..] == rings[i + 1..];
      AllDisjointStep(rings[i..]);
      var d := CheckDisjointFromAll(rings[i], rings[i + 1..]);
      if d.Err? {
        return d.PropagateFailure();
      }
      if !d.value {
        return Ok(false);
      }
      i := i + 1;
    }
    assert rings[i..] == [];
    r := Ok(true);
  }

  /** One pass of the outer loop: the first ring against the rest, then the
      rest among themselves. */
  lemma AllDisjointStep(rings: seq<seq<Point>>)
    requires |rings| > 0
    ensures DisjointFromAll(rings[0], rings[1..]).Err? ==>
              AllDisjoint(rings) == Err(DisjointFromAll(rings[0], rings[1..]).error)
    ensures DisjointFromAll(rings[0], rings[1..]) == Ok(false) ==> AllDisjoint(rings) == Ok(false)
    ensures DisjointFromAll(rings[0], rings[1..]) == Ok(true) ==> AllDisjoint(rings) == AllDisjoint(rings[1..])
  {}

  /** The inner generator of lines 350-354: `p` against every later ring,
      stopping at the first that is not disjoint from it. */
  method CheckDisjointFromAll(p: seq<Point>, rest: seq<seq<Point>>) returns (r: Result<bool>)
    ensures r == DisjointFromAll(p, rest)
  {
    var j := 0;
    while j < |rest|
      invariant 0 <= j <= |rest|
      invariant DisjointFromAll(p, rest) == DisjointFromAll(p, rest[j..])
    {
      assert rest[j..][1..] == rest[j + 1..];
      var d := Disjoint.PolygonsDisjoint(p, rest[j]);
      if d.Err? {
        return d.PropagateFailure();
      }
      if !d.value {
        return Ok(false);
      }
      j := j + 1;
    }
    assert rest[j..] == [];
    r := Ok(true);
  }

  /** `merge_polygons(featcol)`, with line 348 as intended. */
  method MergePolygons(featcol: Json) returns (r: Result<Json>)
    ensures r == Merged(featcol)
  {
    var features := Get(featcol, "features", JNull);
    if features.Err? {
      return features.PropagateFailure();
    }
    if !Truthy(features.value) {
      return Err(ValueError(EmptyMsg));
    }
    var items := Iter(features.value);
    if items.Err? {
      return items.PropagateFailure();
    }
    var exteriors := CollectPolygons(items.value);
    if exteriors.Err? {
      return exteriors.PropagateFailure();
    }
    var rings := OrientPolygons(exteriors.value);
    if rings.Err? {
      return rings.PropagateFailure();
    }
    var disjoint := CheckAllDisjoint(rings.value);
    if disjoint.Err? {
      return disjoint.PropagateFailure();
    }
    var merged;
    if disjoint.value {
      var hull := Hull.CreateConvexHull(Flatten(rings.value));
      merged := PointsJson(hull);
    } else {
      merged := JArr([PointsJson(UnaryUnionPoints(rings.value))]);
    }
    r := Ok(Wrap(merged));
  }
}
