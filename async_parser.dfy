/** The database-free part of geojson_aoi/_async/parser.py: `check_crs`,
    `strip_featcol`, and what `parse_aoi_async` does before and after it
    hands the Polygon geometries to PostGIS (validation, the saving of
    properties, the Polygon filter and the restoring of properties). */
module AsyncParser {
  import opened Json
  import Normalize
  import Parser

  const PolygonType: Json := JStr("Polygon")
  const CollectionType: Json := JStr("GeometryCollection")

  /** `valid_geoms`: the geometry types whose properties are saved. */
  const ValidGeoms: seq<Json> := [JStr("Polygon"), JStr("MultiPolygon"), JStr("GeometryCollection")]

  /** `f` applied to every element of `xs`, the results concatenated in
      order: the reference for the loops below that append as they go. */
  function FlatMap(xs: seq<Json>, f: Json -> seq<Json>): seq<Json> {
    if |xs| == 0 then [] else f(xs[0]) + FlatMap(xs[1..], f)
  }

  lemma {:induction false} FlatMapAppend(a: seq<Json>, b: seq<Json>, f: Json -> seq<Json>)
    ensures FlatMap(a + b, f) == FlatMap(a, f) + FlatMap(b, f)
  {
    if |a| == 0 {
      assert a + b == b;
    } else {
      assert (a + b)[1..] == a[1..] + b;
      FlatMapAppend(a[1..], b, f);
    }
  }

  /** One more element adds its own results at the end. */
  lemma FlatMapSnoc(xs: seq<Json>, x: Json, f: Json -> seq<Json>)
    ensures FlatMap(xs + [x], f) == FlatMap(xs, f) + f(x)
  {
    FlatMapAppend(xs, [x], f);
    assert [x][1..] == [];
  }

  /** A value comes out exactly when some element yields it. */
  lemma {:induction false} FlatMapMembers(xs: seq<Json>, f: Json -> seq<Json>, y: Json)
    ensures y in FlatMap(xs, f) <==> exists i :: 0 <= i < |xs| && y in f(xs[i])
  {
    if |xs| > 0 {
      FlatMapMembers(xs[1..], f, y);
      if y in FlatMap(xs[1..], f) {
        var i :| 0 <= i < |xs[1..]| && y in f(xs[1..][i]);
        assert y in f(xs[i + 1]);
      }
      if exists i :: 0 <= i < |xs| && y in f(xs[i]) {
        var i :| 0 <= i < |xs| && y in f(xs[i]);
        if i > 0 {
          assert xs[i] == xs[1..][i - 1];
        }
      }
    }
  }

  // ---------------------------------------------------------------------
  // check_crs (lines 41-85)
  // ---------------------------------------------------------------------

  /** The CRS half: a name is read through `crs` and `properties`, and only
      a truthy name outside the three aliases warns. */
  function CrsWarning(obj: map<string, Json>): Result<bool> {
    var crs := if "crs" in obj then obj["crs"] else EmptyObj;
    var name :- Parser.CrsName(crs);
    Ok(Truthy(name) && name !in Parser.ValidCrsNames)
  }

  /** The geometry whose coordinates are checked: the object's own
      `geometry` when truthy, else that of the last feature. */
  function CheckedGeometry(obj: map<string, Json>): Result<Json> {
    if "geometry" in obj && Truthy(obj["geometry"]) then Ok(obj["geometry"])
    else
      var features := if "features" in obj then obj["features"] else JArr([EmptyObj]);
      var last :- At(features, -1);
      Get(last, "geometry", EmptyObj)
  }

  /** The drill-down loop: `coordinates[0]` is read before the length test,
      so an empty list (or any value that cannot be indexed) raises; the
      descent stops at the first value whose first element is not a list. */
  function Descend(c: Json): (r: Result<Json>)
    ensures c.JArr? && c.items == [] ==> r == Err(IndexError)
    ensures r.Ok? ==> Parser.Reaches(c, r.value) && At(r.value, 0).Ok? && !At(r.value, 0).value.JArr?
    decreases c
  {
    match c
    case JArr(items) =>
      if |items| == 0 then Err(IndexError)
      else if items[0].JArr? then Descend(items[0])
      else Ok(c)
    case _ =>
      match At(c, 0)
      case Err(e) => Err(e)
      case Ok(_) => Ok(c)
  }

  /** `is_valid_coordinate(coord)`: exactly two components, both in range. */
  function IsValidCoordinate(coord: Json): Result<bool> {
    var n :- Length(coord);
    if n != 2 then Ok(false)
    else
      var x :- At(coord, 0);
      var lonOk :- Parser.InRange(x, -180.0, 180.0);
      if !lonOk then Ok(false)
      else
        var y :- At(coord, 1);
        Parser.InRange(y, -90.0, 90.0)
  }

  /** `check_crs(geojson)`: which warnings fire, or the error raised. */
  function CheckCrsSpec(obj: map<string, Json>): Result<Parser.Warnings> {
    var crsWarning :- CrsWarning(obj);
    var geom :- CheckedGeometry(obj);
    var coordinates :- Get(geom, "coordinates", EmptyArr);
    var leaf :- Descend(coordinates);
    var valid :- IsValidCoordinate(leaf);
    Ok(Parser.Warnings(crsWarning, !valid))
  }

  /** `check_crs` with its drill-down loop. */
  method CheckCrs(obj: map<string, Json>) returns (r: Result<Parser.Warnings>)
    ensures r == CheckCrsSpec(obj)
  {
    var crsWarning :- CrsWarning(obj);
    var geom :- CheckedGeometry(obj);
    var coordinates :- Get(geom, "coordinates", EmptyArr);
    var c := coordinates;
    while true
      invariant Descend(c) == Descend(coordinates)
      decreases c
    {
      var first := At(c, 0);
      if first.Err? {
        return first.PropagateFailure();
      }
      if !first.value.JArr? {
        break;
      }
      c := c.items[0];
    }
    var valid :- IsValidCoordinate(c);
    r := Ok(Parser.Warnings(crsWarning, !valid));
  }

  /** `if geojson_obj.get("crs"): check_crs(geojson_obj)`. */
  function CrsWarnings(obj: map<string, Json>): Result<Parser.Warnings> {
    if "crs" in obj && Truthy(obj["crs"]) then CheckCrsSpec(obj) else Ok(Parser.Warnings(false, false))
  }

  /** A CRS without a name warns in `_check_crs` but not in `check_crs`. */
  lemma NamelessCrsWarnsOnlyInSync(obj: map<string, Json>)
    requires "crs" in obj && obj["crs"].JObj? && "properties" !in obj["crs"].fields
    ensures Parser.CrsWarning(obj) == Ok(true)
    ensures CrsWarning(obj) == Ok(false)
  {}

  /** On a collection both check, the two CRS checks agree exactly when the
      CRS has a name. */
  lemma CrsWarningsAgreeOnNamedCrs(obj: map<string, Json>, name: Json)
    requires "crs" in obj && obj["crs"].JObj? && "properties" in obj["crs"].fields
    requires var props := obj["crs"].fields["properties"]; props.JObj? && "name" in props.fields && props.fields["name"] == name
    requires Truthy(name)
    ensures CrsWarning(obj) == Parser.CrsWarning(obj) == Ok(name !in Parser.ValidCrsNames)
  {}

  /** A three-component first position is fine for `_check_crs`, which reads
      only the first two, but warns in `check_crs`, which demands exactly
      two. */
  lemma ThreeComponentPositionWarnsOnlyInAsync()
    ensures var pos := JArr([JNum(1.0), JNum(2.0), JNum(3.0)]);
            && Parser.IsValidCoordinate(Some(pos)) == Ok(true)
            && IsValidCoordinate(pos) == Ok(false)
  {}

  /** An empty coordinate list is no position at all for `_check_crs`, but
      makes `check_crs` raise. */
  lemma EmptyCoordinatesRaiseOnlyInAsync()
    ensures Parser.FirstCoordinate(EmptyArr) == Ok(None)
    ensures Descend(EmptyArr) == Err(IndexError)
  {}

  /** The async coordinate check on a Polygon: it warns exactly when the
      first position is not a pair in range. */
  lemma CoordinateWarningOnPolygon(obj: map<string, Json>, ring: seq<Json>, holes: seq<Json>, pos: seq<Json>)
    requires CrsWarning(obj).Ok? && "geometry" in obj
    requires obj["geometry"] == Normalize.MakeGeometry("Polygon", JArr([JArr(ring)] + holes))
    requires |ring| > 0 && ring[0] == JArr(pos) && |pos| > 0 && forall i :: 0 <= i < |pos| ==> pos[i].JNum?
    ensures CheckCrsSpec(obj) ==
            Ok(Parser.Warnings(CrsWarning(obj).value, !(|pos| == 2 && -180.0 <= pos[0].n <= 180.0 && -90.0 <= pos[1].n <= 90.0)))
    ensures "crs" in obj && Truthy(obj["crs"]) ==> CrsWarnings(obj) == CheckCrsSpec(obj)
  {
    var geom := obj["geometry"];
    var coordinates := JArr([JArr(ring)] + holes);
    assert "type" in geom.fields;
    assert CheckedGeometry(obj) == Ok(geom);
    assert Get(geom, "coordinates", EmptyArr) == Ok(coordinates);
    assert Descend(JArr(pos)) == Ok(JArr(pos));
    assert Descend(JArr(ring)) == Ok(JArr(pos));
    assert coordinates.items[0] == JArr(ring);
    assert Descend(coordinates) == Ok(JArr(pos));
    assert Length(JArr(pos)) == Ok(|pos|);
    if |pos| == 2 {
      assert At(JArr(pos), 0) == Ok(pos[0]) && At(JArr(pos), 1) == Ok(pos[1]);
    }
  }

  // ---------------------------------------------------------------------
  // strip_featcol (lines 88-135)
  // ---------------------------------------------------------------------

  /** The `[feature["geometry"] for feature in ...]` comprehension. */
  function FeatureGeometries(features: seq<Json>): (r: Result<seq<Json>>)
    ensures r.Ok? ==> |r.value| == |features|
    ensures r.Ok? ==> forall i :: 0 <= i < |features| ==> Lookup(features[i], "geometry") == Ok(r.value[i])
  {
    if |features| == 0 then Ok([])
    else
      var before :- FeatureGeometries(features[..|features| - 1]);
      var geometry :- Lookup(features[|features| - 1], "geometry");
      Ok(before + [geometry])
  }

  /** What the drill-in loop has seen: whether any GeometryCollection came
      by, and the members of all of them, in order. */
  datatype Scan = Scan(seen: bool, members: seq<Json>)

  /** A geometry whose `type` is GeometryCollection. */
  predicate IsCollection(g: Json) {
    g.JObj? && "type" in g.fields && g.fields["type"] == CollectionType
  }

  /** The members a GeometryCollection contributes. */
  function Members(g: Json): Result<seq<Json>> {
    var gs :- Lookup(g, "geometries");
    Iter(gs)
  }

  /** The drill-in loop over `geoms`, stopping at the first raise. */
  function ScanCollections(geoms: seq<Json>): Result<Scan> {
    if |geoms| == 0 then Ok(Scan(false, []))
    else
      var before :- ScanCollections(geoms[..|geoms| - 1]);
      var g := geoms[|geoms| - 1];
      var t :- Lookup(g, "type");
      if t == CollectionType then
        var members :- Members(g);
        Ok(Scan(true, before.members + members))
      else Ok(before)
  }

  /** The members one geometry contributes: a GeometryCollection's, and
      nothing for any other geometry. */
  function Contributed(g: Json): seq<Json> {
    if IsCollection(g) && Members(g).Ok? then Members(g).value else []
  }

  /** The loop sees a collection exactly when one is present; when it does
      not raise, every collection's `geometries` iterates, and the gathered
      members are all the collections' members, concatenated in order. */
  lemma {:induction false} ScanCollectionsMeaning(geoms: seq<Json>)
    requires ScanCollections(geoms).Ok?
    ensures ScanCollections(geoms).value.seen <==> exists i :: 0 <= i < |geoms| && IsCollection(geoms[i])
    ensures forall i :: 0 <= i < |geoms| && IsCollection(geoms[i]) ==> Members(geoms[i]).Ok?
    ensures ScanCollections(geoms).value.members == FlatMap(geoms, Contributed)
  {
    if |geoms| > 0 {
      var prefix := geoms[..|geoms| - 1];
      var g := geoms[|geoms| - 1];
      ScanCollectionsMeaning(prefix);
      assert geoms == prefix + [g];
      ScanCollectionsSnoc(prefix, g);
      FlatMapSnoc(prefix, g, Contributed);
      assert forall i :: 0 <= i < |prefix| ==> prefix[i] == geoms[i];
      var s := ScanCollections(geoms).value;
      if IsCollection(g) {
        assert s.seen;
      } else {
        assert s == ScanCollections(prefix).value;
        assert !IsCollection(geoms[|geoms| - 1]);
      }
    }
  }

  /** One more geometry: an earlier raise, its own raise, or its members
      appended when it is a collection. */
  lemma ScanCollectionsSnoc(geoms: seq<Json>, g: Json)
    requires ScanCollections(geoms + [g]).Ok?
    ensures ScanCollections(geoms).Ok? && Lookup(g, "type").Ok?
    ensures IsCollection(g) ==> Members(g).Ok?
    ensures IsCollection(g) ==>
              ScanCollections(geoms + [g]) == Ok(Scan(true, ScanCollections(geoms).value.members + Members(g).value))
    ensures !IsCollection(g) ==> ScanCollections(geoms + [g]) == ScanCollections(geoms)
  {
    var all := geoms + [g];
    assert all[..|all| - 1] == geoms && all[|all| - 1] == g;
  }

  /** A value is gathered exactly when it is a member of some collection. */
  lemma GatheredMembers(geoms: seq<Json>, x: Json)
    requires ScanCollections(geoms).Ok?
    ensures x in ScanCollections(geoms).value.members <==>
              exists i :: 0 <= i < |geoms| && IsCollection(geoms[i]) && Members(geoms[i]).Ok? && x in Members(geoms[i]).value
  {
    ScanCollectionsMeaning(geoms);
    FlatMapMembers(geoms, Contributed, x);
  }

  /** `strip_featcol` without its CRS check: the list of geometries, or
      (for a GeometryCollection) whatever `geometries` holds. */
  function StripGeoms(obj: map<string, Json>): Result<Json> {
    var geojsonType := if "type" in obj then obj["type"] else JNull;
    if geojsonType == JStr("FeatureCollection") then
      var features := if "features" in obj then obj["features"] else EmptyArr;
      var items :- Iter(features);
      var geoms :- FeatureGeometries(items);
      var scan :- ScanCollections(geoms);
      Ok(JArr(if scan.seen then scan.members else geoms))
    else if geojsonType == JStr("Feature") then
      Ok(JArr([if "geometry" in obj then obj["geometry"] else JNull]))
    else if geojsonType == CollectionType then
      Ok(if "geometries" in obj then obj["geometries"] else JNull)
    else if geojsonType == JStr("MultiPolygon") then
      var coordinates := if "coordinates" in obj then obj["coordinates"] else JNull;
      var members :- Iter(coordinates);
      Ok(JArr(seq(|members|, i requires 0 <= i < |members| => Normalize.MakeGeometry("Polygon", members[i]))))
    else Ok(JArr([JObj(obj)]))
  }

  /** `strip_featcol(geojson_obj)`: the CRS check first, then the stripping. */
  function StripFeatcol(obj: map<string, Json>): Result<Json> {
    var warnings :- CrsWarnings(obj);
    StripGeoms(obj)
  }

  /** The input types other than FeatureCollection: a Feature gives its
      geometry, a MultiPolygon one Polygon per member, any other type
      the object itself. */
  lemma StripGeomsCases(obj: map<string, Json>)
    ensures "type" in obj && obj["type"] == JStr("Feature") && "geometry" in obj ==>
              StripGeoms(obj) == Ok(JArr([obj["geometry"]]))
    ensures "type" in obj && obj["type"] == JStr("MultiPolygon") && "coordinates" in obj && obj["coordinates"].JArr? ==>
              var members := obj["coordinates"].items;
              && StripGeoms(obj).Ok? && StripGeoms(obj).value.JArr?
              && |StripGeoms(obj).value.items| == |members|
              && forall i :: 0 <= i < |members| ==>
                   StripGeoms(obj).value.items[i] == Normalize.MakeGeometry("Polygon", members[i])
    ensures "type" in obj && obj["type"] !in [JStr("FeatureCollection"), JStr("Feature"), CollectionType, JStr("MultiPolygon")] ==>
              StripGeoms(obj) == Ok(JArr([JObj(obj)]))
  {}

  /** A FeatureCollection without GeometryCollections gives its features'
      geometries in order; with one, all the collections' members in order
      and nothing else. */
  lemma StripFeatureCollection(obj: map<string, Json>, features: seq<Json>)
    requires "type" in obj && obj["type"] == JStr("FeatureCollection")
    requires "features" in obj && obj["features"] == JArr(features)
    requires StripGeoms(obj).Ok?
    ensures var geoms := FeatureGeometries(features).value;
            && (!(exists i :: 0 <= i < |geoms| && IsCollection(geoms[i])) ==> StripGeoms(obj) == Ok(JArr(geoms)))
            && ((exists i :: 0 <= i < |geoms| && IsCollection(geoms[i])) ==>
                  StripGeoms(obj) == Ok(JArr(FlatMap(geoms, Contributed))))
  {
    ScanCollectionsMeaning(FeatureGeometries(features).value);
  }

  /** A Polygon beside a GeometryCollection is dropped: only the
      collection's members come out. */
  lemma CollectionDropsSiblings(polygon: Json, member: Json)
    requires polygon.JObj? && "type" in polygon.fields && polygon.fields["type"] == PolygonType
    ensures var gc := JObj(map["type" := CollectionType, "geometries" := JArr([member])]);
            var obj := map["type" := JStr("FeatureCollection"), "features" := JArr([
                          Normalize.MakeFeature(polygon, EmptyObj), Normalize.MakeFeature(gc, EmptyObj)])];
            StripGeoms(obj) == Ok(JArr([member]))
  {
    var gc := JObj(map["type" := CollectionType, "geometries" := JArr([member])]);
    var features := [Normalize.MakeFeature(polygon, EmptyObj), Normalize.MakeFeature(gc, EmptyObj)];
    GeometriesOfTwo(polygon, gc, features);
    ScanPolygonThenCollection(polygon, gc, member);
  }

  lemma GeometriesOfTwo(g1: Json, g2: Json, features: seq<Json>)
    requires features == [Normalize.MakeFeature(g1, EmptyObj), Normalize.MakeFeature(g2, EmptyObj)]
    ensures FeatureGeometries(features) == Ok([g1, g2])
  {
    var one := features[..1];
    assert features[..|features| - 1] == one && |one| == 1 && one[0] == features[0];
    assert one[..|one| - 1] == [];
    assert Lookup(features[0], "geometry") == Ok(g1);
    assert Lookup(features[1], "geometry") == Ok(g2);
    assert [] + [g1] == [g1];
    assert FeatureGeometries(one) == Ok([g1]);
    assert features[|features| - 1] == features[1];
    assert [g1] + [g2] == [g1, g2];
  }

  lemma ScanPolygonThenCollection(polygon: Json, gc: Json, member: Json)
    requires polygon.JObj? && "type" in polygon.fields && polygon.fields["type"] == PolygonType
    requires gc == JObj(map["type" := CollectionType, "geometries" := JArr([member])])
    ensures ScanCollections([polygon, gc]) == Ok(Scan(true, [member]))
  {
    var geoms := [polygon, gc];
    var one := geoms[..1];
    assert geoms[..|geoms| - 1] == one && |one| == 1 && one[0] == polygon;
    assert one[..|one| - 1] == [];
    assert Lookup(polygon, "type") == Ok(PolygonType);
    assert ScanCollections(one) == Ok(Scan(false, []));
    assert Lookup(gc, "type") == Ok(CollectionType);
    assert Members(gc) == Ok([member]);
    assert [] + [member] == [member];
  }

  /** `strip_featcol` for a FeatureCollection: the comprehension, then the
      drill-in loop. */
  method StripFeatureCollectionMethod(items: seq<Json>) returns (r: Result<Json>)
    ensures r == (var geoms :- FeatureGeometries(items);
                  var scan :- ScanCollections(geoms);
                  Ok(JArr(if scan.seen then scan.members else geoms)))
  {
    var geoms :- CollectGeometries(items);
    var result := geoms;
    var tempGeoms: seq<Json> := [];
    var seen := false;
    var i := 0;
    while i < |geoms|
      invariant 0 <= i <= |geoms|
      invariant ScanCollections(geoms[..i]) == Ok(Scan(seen, tempGeoms))
      invariant result == if seen then tempGeoms else geoms
    {
      assert geoms[..i + 1][..i] == geoms[..i];
      var t := Lookup(geoms[i], "type");
      if t.Err? {
        ScanCollectionsPrefixErr(geoms, i + 1);
        return t.PropagateFailure();
      }
      if t.value == CollectionType {
        var members := Members(geoms[i]);
        if members.Err? {
          ScanCollectionsPrefixErr(geoms, i + 1);
          return members.PropagateFailure();
        }
        tempGeoms := tempGeoms + members.value;
        seen := true;
        result := tempGeoms;
      }
      i := i + 1;
    }
    assert geoms[..i] == geoms;
    r := Ok(JArr(result));
  }

  /** The comprehension over the features. */
  method CollectGeometries(items: seq<Json>) returns (r: Result<seq<Json>>)
    ensures r == FeatureGeometries(items)
  {
    var geoms: seq<Json> := [];
    var i := 0;
    while i < |items|
      invariant 0 <= i <= |items|
      invariant FeatureGeometries(items[..i]) == Ok(geoms)
    {
      assert items[..i + 1][..i] == items[..i];
      var g := Lookup(items[i], "geometry");
      if g.Err? {
        FeatureGeometriesPrefixErr(items, i + 1);
        return g.PropagateFailure();
      }
      geoms := geoms + [g.value];
      i := i + 1;
    }
    assert items[..i] == items;
    r := Ok(geoms);
  }

  lemma {:induction false} FeatureGeometriesPrefixErr(items: seq<Json>, n: nat)
    requires n <= |items| && FeatureGeometries(items[..n]).Err?
    ensures FeatureGeometries(items) == FeatureGeometries(items[..n])
    decreases |items| - n
  {
    if n < |items| {
      assert items[..n + 1][..n] == items[..n];
      FeatureGeometriesPrefixErr(items, n + 1);
    } else {
      assert items[..n] == items;
    }
  }

  lemma {:induction false} ScanCollectionsPrefixErr(geoms: seq<Json>, n: nat)
    requires n <= |geoms| && ScanCollections(geoms[..n]).Err?
    ensures ScanCollections(geoms) == ScanCollections(geoms[..n])
    decreases |geoms| - n
  {
    if n < |geoms| {
      assert geoms[..n + 1][..n] == geoms[..n];
      ScanCollectionsPrefixErr(geoms, n + 1);
    } else {
      assert geoms[..n] == geoms;
    }
  }

  // ---------------------------------------------------------------------
  // parse_aoi_async (lines 138-211), without PostGIS
  // ---------------------------------------------------------------------

  /** The saved properties of a FeatureCollection's features, in order, for
      features whose geometry type is in `valid_geoms`. */
  function FeatureProperties(features: seq<Json>): (r: Result<seq<Json>>)
    ensures r.Ok? ==> |r.value| <= |features|
  {
    if |features| == 0 then Ok([])
    else
      var before :- FeatureProperties(features[..|features| - 1]);
      var feature := features[|features| - 1];
      var geometry :- Lookup(feature, "geometry");
      var t :- Lookup(geometry, "type");
      if t in ValidGeoms then
        var properties :- Lookup(feature, "properties");
        Ok(before + [properties])
      else Ok(before)
  }

  /** `feature["geometry"]["type"]`. */
  function GeometryType(feature: Json): Result<Json> {
    var geometry :- Lookup(feature, "geometry");
    Lookup(geometry, "type")
  }

  /** A feature the loop reads without raising: its geometry has a type,
      and it has properties when that type is one of `valid_geoms`. */
  predicate Readable(feature: Json) {
    GeometryType(feature).Ok? && (GeometryType(feature).value in ValidGeoms ==> Lookup(feature, "properties").Ok?)
  }

  /** What one feature adds to the saved list: its properties when its
      geometry type is one of `valid_geoms`, nothing otherwise. */
  function SavedEntry(feature: Json): seq<Json> {
    if GeometryType(feature).Ok? && GeometryType(feature).value in ValidGeoms && Lookup(feature, "properties").Ok?
    then [Lookup(feature, "properties").value]
    else []
  }

  /** The loop raises exactly when some feature cannot be read; otherwise
      it saves the properties of the qualifying features, in feature order
      and skipping the others. */
  lemma {:induction false} FeaturePropertiesMeaning(features: seq<Json>)
    ensures FeatureProperties(features).Ok? <==> forall i :: 0 <= i < |features| ==> Readable(features[i])
    ensures FeatureProperties(features).Ok? ==> FeatureProperties(features).value == FlatMap(features, SavedEntry)
  {
    if |features| > 0 {
      var prefix := features[..|features| - 1];
      var last := features[|features| - 1];
      FeaturePropertiesMeaning(prefix);
      assert features == prefix + [last];
      FlatMapSnoc(prefix, last, SavedEntry);
      assert forall i :: 0 <= i < |prefix| ==> prefix[i] == features[i];
      if !Readable(last) {
        assert !Readable(features[|features| - 1]);
      }
    }
  }

  /** The `properties` list built before stripping. */
  function SavedProperties(obj: map<string, Json>): Result<seq<Json>> {
    var geojsonType := if "type" in obj then obj["type"] else JNull;
    if geojsonType == JStr("Feature") then
      var t :- Lookup(if "geometry" in obj then obj["geometry"] else JNull, "type");
      if t in ValidGeoms then Ok([if "properties" in obj then obj["properties"] else JNull])
      else Ok([])
    else if geojsonType == JStr("FeatureCollection") then
      var items :- Iter(if "features" in obj then obj["features"] else JNull);
      FeatureProperties(items)
    else Ok([])
  }

  /** When every feature has Polygon-family geometry and properties, one
      entry is saved per feature, in order. */
  lemma {:induction false} FeaturePropertiesAll(features: seq<Json>)
    requires forall i :: 0 <= i < |features| ==>
               && features[i].JObj? && "geometry" in features[i].fields && "properties" in features[i].fields
               && var g := features[i].fields["geometry"];
                  g.JObj? && "type" in g.fields && g.fields["type"] in ValidGeoms
    ensures FeatureProperties(features).Ok?
    ensures |FeatureProperties(features).value| == |features|
    ensures forall i :: 0 <= i < |features| ==> FeatureProperties(features).value[i] == features[i].fields["properties"]
  {
    if |features| > 0 {
      var prefix := features[..|features| - 1];
      assert forall i :: 0 <= i < |prefix| ==> prefix[i] == features[i];
      FeaturePropertiesAll(prefix);
    }
  }

  /** The `for feature in ...` loop appending saved properties. */
  method CollectProperties(features: seq<Json>) returns (r: Result<seq<Json>>)
    ensures r == FeatureProperties(features)
  {
    var properties: seq<Json> := [];
    var i := 0;
    while i < |features|
      invariant 0 <= i <= |features|
      invariant FeatureProperties(features[..i]) == Ok(properties)
    {
      assert features[..i + 1][..i] == features[..i];
      var geometry := Lookup(features[i], "geometry");
      if geometry.Err? {
        FeaturePropertiesPrefixErr(features, i + 1);
        return geometry.PropagateFailure();
      }
      var t := Lookup(geometry.value, "type");
      if t.Err? {
        FeaturePropertiesPrefixErr(features, i + 1);
        return t.PropagateFailure();
      }
      if t.value in ValidGeoms {
        var saved := Lookup(features[i], "properties");
        if saved.Err? {
          FeaturePropertiesPrefixErr(features, i + 1);
          return saved.PropagateFailure();
        }
        properties := properties + [saved.value];
      }
      i := i + 1;
    }
    assert features[..i] == features;
    r := Ok(properties);
  }

  lemma {:induction false} FeaturePropertiesPrefixErr(features: seq<Json>, n: nat)
    requires n <= |features| && FeatureProperties(features[..n]).Err?
    ensures FeatureProperties(features) == FeatureProperties(features[..n])
    decreases |features| - n
  {
    if n < |features| {
      assert features[..n + 1][..n] == features[..n];
      FeaturePropertiesPrefixErr(features, n + 1);
    } else {
      assert features[..n] == features;
    }
  }

  /** `geoms = [geom for geom in geoms if geom["type"] == "Polygon"]`. */
  function PolygonsOnly(geoms: seq<Json>): (r: Result<seq<Json>>)
    ensures r.Ok? ==> |r.value| <= |geoms|
    ensures r.Ok? ==> forall g :: g in r.value ==> g in geoms && Lookup(g, "type") == Ok(PolygonType)
    ensures r.Ok? ==> forall i :: 0 <= i < |geoms| && Lookup(geoms[i], "type") == Ok(PolygonType) ==> geoms[i] in r.value
  {
    if |geoms| == 0 then Ok([])
    else
      var before :- PolygonsOnly(geoms[..|geoms| - 1]);
      var g := geoms[|geoms| - 1];
      var t :- Lookup(g, "type");
      assert forall i :: 0 <= i < |geoms| - 1 ==> geoms[i] == geoms[..|geoms| - 1][i];
      if t == PolygonType then Ok(before + [g]) else Ok(before)
  }

  /** What one geometry adds to the filtered list. */
  function PolygonEntry(g: Json): seq<Json> {
    if Lookup(g, "type") == Ok(PolygonType) then [g] else []
  }

  /** The comprehension raises exactly when some geometry has no `type`;
      otherwise it keeps the Polygons, in order and with repeats, and
      drops everything else. */
  lemma {:induction false} PolygonsOnlyMeaning(geoms: seq<Json>)
    ensures PolygonsOnly(geoms).Ok? <==> forall i :: 0 <= i < |geoms| ==> Lookup(geoms[i], "type").Ok?
    ensures PolygonsOnly(geoms).Ok? ==> PolygonsOnly(geoms).value == FlatMap(geoms, PolygonEntry)
  {
    if |geoms| > 0 {
      var prefix := geoms[..|geoms| - 1];
      var last := geoms[|geoms| - 1];
      PolygonsOnlyMeaning(prefix);
      assert geoms == prefix + [last];
      PolygonsOnlySnoc(prefix, last);
      FlatMapSnoc(prefix, last, PolygonEntry);
      assert forall i :: 0 <= i < |prefix| ==> prefix[i] == geoms[i];
      if Lookup(last, "type").Err? {
        assert Lookup(geoms[|geoms| - 1], "type").Err?;
      }
    }
  }

  /** One more geometry: an earlier raise, its own missing `type`, or its
      entry appended. */
  lemma PolygonsOnlySnoc(geoms: seq<Json>, g: Json)
    ensures PolygonsOnly(geoms + [g]) ==
              (if PolygonsOnly(geoms).Err? then PolygonsOnly(geoms)
               else if Lookup(g, "type").Err? then Err(Lookup(g, "type").error)
               else Ok(PolygonsOnly(geoms).value + PolygonEntry(g)))
  {
    var all := geoms + [g];
    assert all[..|all| - 1] == geoms && all[|all| - 1] == g;
    if PolygonsOnly(geoms).Ok? && Lookup(g, "type").Ok? {
      var before := PolygonsOnly(geoms).value;
      if Lookup(g, "type").value == PolygonType {
        assert PolygonsOnly(all) == Ok(before + [g]);
      } else {
        assert PolygonsOnly(all) == Ok(before);
        assert before + PolygonEntry(g) == before;
      }
    }
  }

  /** What `parse_aoi_async` hands to PostGIS, and what it keeps aside. */
  datatype Prepared = Prepared(properties: seq<Json>, polygons: seq<Json>, warnings: Parser.Warnings)

  /** `parse_aoi_async` up to the PostGIS call. */
  function PrepareAsync(raw: Parser.RawInput): Result<Prepared> {
    var parsed :- Parser.Decoded(raw);
    var obj :- Parser.Validated(parsed);
    var properties :- SavedProperties(obj);
    var warnings :- CrsWarnings(obj);
    var geoms :- StripGeoms(obj);
    var items :- Iter(geoms);
    var polygons :- PolygonsOnly(items);
    Ok(Prepared(properties, polygons, warnings))
  }

  /** The two entry points refuse the same inputs with the same errors:
      their dispatch and validation are the same code. */
  lemma ValidationShared(raw: Parser.RawInput, merge: bool)
    ensures var v := (var parsed :- Parser.Decoded(raw); Parser.Validated(parsed));
            v.Err? ==> PrepareAsync(raw) == Err(v.error) && Parser.ParseAoi(raw, merge) == Err(v.error)
  {}

  /** A Feature holding a MultiPolygon saves its properties, but its
      geometry is not a Polygon and nothing reaches PostGIS. */
  lemma FeatureMultiPolygonDropped(coordinates: Json, properties: Json)
    ensures var geometry := Normalize.MakeGeometry("MultiPolygon", coordinates);
            PrepareAsync(Parser.RawDict(Normalize.MakeFeature(geometry, properties).fields))
              == Ok(Prepared([properties], [], Parser.Warnings(false, false)))
  {
    var geometry := Normalize.MakeGeometry("MultiPolygon", coordinates);
    var obj := Normalize.MakeFeature(geometry, properties).fields;
    assert "type" in obj && obj["type"] == Parser.AllowedInputTypes[2];
    assert SavedProperties(obj) == Ok([properties]);
    assert CrsWarnings(obj) == Ok(Parser.Warnings(false, false));
    assert StripGeoms(obj) == Ok(JArr([geometry]));
    assert PolygonsOnly([geometry][..0]) == Ok([]);
    assert PolygonsOnly([geometry]) == Ok([]);
    PrepareAsyncOf(obj, [properties], Parser.Warnings(false, false), [geometry], []);
  }

  /** `parse_aoi_async` up to PostGIS on a dict input, step by step. */
  lemma PrepareAsyncOf(obj: map<string, Json>, properties: seq<Json>, warnings: Parser.Warnings,
                       geoms: seq<Json>, polygons: seq<Json>)
    requires "type" in obj && obj["type"] in Parser.AllowedInputTypes
    requires SavedProperties(obj) == Ok(properties)
    requires CrsWarnings(obj) == Ok(warnings)
    requires StripGeoms(obj) == Ok(JArr(geoms))
    requires PolygonsOnly(geoms) == Ok(polygons)
    ensures PrepareAsync(Parser.RawDict(obj)) == Ok(Prepared(properties, polygons, warnings))
  {
    assert Parser.Validated(JObj(obj)) == Ok(obj);
  }

  /** A bare Polygon is passed on as it is, with no saved properties. */
  lemma PolygonPassedOn(coordinates: Json)
    ensures var polygon := Normalize.MakeGeometry("Polygon", coordinates);
            PrepareAsync(Parser.RawDict(polygon.fields)) == Ok(Prepared([], [polygon], Parser.Warnings(false, false)))
  {
    var polygon := Normalize.MakeGeometry("Polygon", coordinates);
    var obj := polygon.fields;
    assert JObj(obj) == polygon;
    assert "type" in obj && obj["type"] == Parser.AllowedInputTypes[0];
    assert SavedProperties(obj) == Ok([]);
    assert CrsWarnings(obj) == Ok(Parser.Warnings(false, false));
    assert StripGeoms(obj) == Ok(JArr([polygon]));
    OnePolygonKept(polygon);
    PrepareAsyncOf(obj, [], Parser.Warnings(false, false), [polygon], [polygon]);
  }

  lemma OnePolygonKept(polygon: Json)
    requires polygon.JObj? && "type" in polygon.fields && polygon.fields["type"] == PolygonType
    ensures PolygonsOnly([polygon]) == Ok([polygon])
  {
    assert PolygonsOnly([polygon][..0]) == Ok([]);
    assert Lookup(polygon, "type") == Ok(PolygonType);
    assert [polygon][..0] == [] && [polygon][..|[polygon]| - 1] == [];
    assert PolygonsOnly([polygon]).value == [polygon];
  }

  /** The two loops over PostGIS's result features: drop any `properties`,
      then, if properties were saved, assign them by position; more
      features than saved properties raise. */
  function RestoredProperties(features: seq<map<string, Json>>, saved: seq<Json>): Result<seq<map<string, Json>>> {
    var popped := seq(|features|, i requires 0 <= i < |features| => features[i] - {"properties"});
    if |saved| == 0 then Ok(popped)
    else if |features| > |saved| then Err(IndexError)
    else Ok(seq(|popped|, i requires 0 <= i < |popped| => popped[i]["properties" := saved[i]]))
  }

  /** With saved properties, result feature `i` ends up with property set
      `i` and is otherwise unchanged; without, no feature has properties. */
  lemma RestoredPropertiesMeaning(features: seq<map<string, Json>>, saved: seq<Json>)
    ensures |saved| == 0 ==>
              && RestoredProperties(features, saved).Ok?
              && var out := RestoredProperties(features, saved).value;
                 |out| == |features|
                 && forall i :: 0 <= i < |features| ==>
                      "properties" !in out[i] && forall k :: k in features[i] && k != "properties" ==> k in out[i] && out[i][k] == features[i][k]
    ensures 0 < |saved| ==>
              (RestoredProperties(features, saved).Ok? <==> |features| <= |saved|)
    ensures 0 < |saved| && |features| <= |saved| ==>
              var out := RestoredProperties(features, saved).value;
              |out| == |features|
              && forall i :: 0 <= i < |features| ==>
                   out[i] == features[i]["properties" := saved[i]]
  {
    if 0 < |saved| && |features| <= |saved| {
      var out := RestoredProperties(features, saved).value;
      forall i | 0 <= i < |features| ensures out[i] == features[i]["properties" := saved[i]] {
        assert (features[i] - {"properties"})["properties" := saved[i]] == features[i]["properties" := saved[i]];
      }
    }
  }

  /** The restoring loops, rewriting the features one at a time. */
  method RestoreProperties(features: seq<map<string, Json>>, saved: seq<Json>) returns (r: Result<seq<map<string, Json>>>)
    ensures r == RestoredProperties(features, saved)
  {
    var out := features;
    var i := 0;
    while i < |out|
      invariant 0 <= i <= |out| == |features|
      invariant forall j :: 0 <= j < i ==> out[j] == features[j] - {"properties"}
      invariant forall j :: i <= j < |out| ==> out[j] == features[j]
    {
      out := out[i := out[i] - {"properties"}];
      i := i + 1;
    }
    if |saved| == 0 {
      assert out == RestoredProperties(features, saved).value;
    } else {
      var featCount := 0;
      while featCount < |out|
        invariant 0 <= featCount <= |out| == |features|
        invariant featCount <= |saved|
        invariant forall j :: 0 <= j < featCount ==> out[j] == (features[j] - {"properties"})["properties" := saved[j]]
        invariant forall j :: featCount <= j < |out| ==> out[j] == features[j] - {"properties"}
      {
        if featCount >= |saved| {
          return Err(IndexError);
        }
        out := out[featCount := out[featCount]["properties" := saved[featCount]]];
        featCount := featCount + 1;
      }
      assert out == RestoredProperties(features, saved).value;
    }
    r := Ok(out);
  }
}
