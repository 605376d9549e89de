/** The normalisation pass of geojson_aoi/normalize.py (duplicated in
    geojson_aoi/parser.py:31-135): z-stripping of coordinate trees,
    unwrapping of single-member GeometryCollections and splitting of
    Multi* geometries into one Feature per member. */
module Normalize {
  import opened Json

  /** `{"type": "Feature", "geometry": ..., "properties": ...}`. */
  function MakeFeature(geometry: Json, properties: Json): Json {
    JObj(map["type" := JStr("Feature"), "geometry" := geometry, "properties" := properties])
  }

  /** `{"type": ..., "coordinates": ...}`. */
  function MakeGeometry(geomType: string, coordinates: Json): Json {
    JObj(map["type" := JStr(geomType), "coordinates" := coordinates])
  }

  /** `{"type": "FeatureCollection", "features": [...]}`. */
  function FeatureCollection(features: seq<Json>): Json {
    JObj(map["type" := JStr("FeatureCollection"), "features" := JArr(features)])
  }

  // ---------------------------------------------------------------------
  // _remove_z_dimension
  // ---------------------------------------------------------------------

  /** `_remove_z_dimension(coords)`: the first element decides. A list there
      means "recurse into every entry"; anything else means `coords` is a
      position, cut to its first two components. `coords[0]` is read
      unguarded, so an empty list raises. */
  function RemoveZ(coords: Json): (r: Result<Json>)
    ensures r.Ok? ==> (r.value.JArr? <==> coords.JArr?)
    ensures r.Ok? && r.value.JArr? ==> |r.value.items| >= 1
    decreases coords, 1
  {
    match coords
    case JArr(items) =>
      if |items| == 0 then Err(IndexError)
      else if items[0].JArr? then
        var stripped :- RemoveZAll(items);
        Ok(JArr(stripped))
      else
        Ok(JArr(items[..Min(2, |items|)]))
    case JStr(s) =>
      if |s| == 0 then Err(IndexError) else Ok(JStr(s[..Min(2, |s|)]))
    case JObj(_) => Err(KeyError)
    case _ => Err(TypeError)
  }

  /** The list comprehension `[_remove_z_dimension(c) for c in items]`,
      which stops at the first entry that raises. */
  function RemoveZAll(items: seq<Json>): (r: Result<seq<Json>>)
    ensures r.Ok? ==> |r.value| == |items|
    decreases items, 0
  {
    if |items| == 0 then Ok([])
    else
      var head :- RemoveZ(items[0]);
      var tail :- RemoveZAll(items[1..]);
      Ok([head] + tail)
  }

  /** The comprehension succeeds iff every entry does, then holds every
      entry's own result in place; otherwise it raises what the first
      failing entry raises. */
  lemma {:induction false} RemoveZAllPointwise(items: seq<Json>)
    ensures RemoveZAll(items).Ok? <==> forall i :: 0 <= i < |items| ==> RemoveZ(items[i]).Ok?
    ensures RemoveZAll(items).Ok? ==>
              forall i :: 0 <= i < |items| ==> RemoveZAll(items).value[i] == RemoveZ(items[i]).value
    ensures RemoveZAll(items).Err? ==>
              exists k :: 0 <= k < |items| && RemoveZ(items[k]).Err?
                && (forall i :: 0 <= i < k ==> RemoveZ(items[i]).Ok?)
                && RemoveZAll(items).error == RemoveZ(items[k]).error
  {
    if |items| > 0 {
      var tail := items[1..];
      RemoveZAllPointwise(tail);
      assert forall i :: 1 <= i < |items| ==> items[i] == tail[i - 1];
      if RemoveZ(items[0]).Ok? && RemoveZAll(tail).Err? {
        var k :| 0 <= k < |tail| && RemoveZ(tail[k]).Err?
                 && (forall i :: 0 <= i < k ==> RemoveZ(tail[i]).Ok?)
                 && RemoveZAll(tail).error == RemoveZ(tail[k]).error;
        assert RemoveZ(items[k + 1]).Err?;
      }
    }
  }

  /** Nesting is preserved: when the first entry is a list, the result is a
      list of the same length whose entries are the entries' own results. */
  lemma RemoveZNested(items: seq<Json>)
    requires |items| > 0 && items[0].JArr?
    ensures RemoveZ(JArr(items)).Ok? <==> forall i :: 0 <= i < |items| ==> RemoveZ(items[i]).Ok?
    ensures RemoveZ(JArr(items)).Ok? ==>
              RemoveZ(JArr(items)).value.JArr?
              && |RemoveZ(JArr(items)).value.items| == |items|
              && forall i :: 0 <= i < |items| ==>
                   RemoveZ(JArr(items)).value.items[i] == RemoveZ(items[i]).value
  {
    RemoveZAllPointwise(items);
  }

  /** At a position (first entry not a list) the result keeps the first two
      components and drops the rest: `[x, y, z]` becomes `[x, y]`. */
  lemma RemoveZPosition(items: seq<Json>)
    requires |items| > 0 && !items[0].JArr?
    ensures RemoveZ(JArr(items)).Ok?
    ensures var r := RemoveZ(JArr(items)).value;
            r.JArr? && |r.items| == Min(2, |items|) && r.items == items[..|r.items|]
    ensures |items| >= 2 ==> RemoveZ(JArr(items)) == Ok(JArr([items[0], items[1]]))
  {
    if |items| >= 2 {
      assert items[..2] == [items[0], items[1]];
    }
  }

  /** Stripping twice strips nothing more: whenever the first call succeeds,
      the second returns the same tree. */
  lemma {:induction false} RemoveZIdempotent(coords: Json)
    requires RemoveZ(coords).Ok?
    ensures RemoveZ(RemoveZ(coords).value) == RemoveZ(coords)
    decreases coords, 1
  {
    match coords
    case JArr(items) =>
      if items[0].JArr? {
        var stripped := RemoveZAll(items).value;
        RemoveZAllIdempotent(items);
        RemoveZAllPointwise(items);
        assert stripped[0] == RemoveZ(items[0]).value;
      } else {
        var n := Min(2, |items|);
        assert items[..n][..Min(2, n)] == items[..n];
      }
    case JStr(s) =>
      var n := Min(2, |s|);
      assert s[..n][..Min(2, n)] == s[..n];
    case _ =>
  }

  lemma {:induction false} RemoveZAllIdempotent(items: seq<Json>)
    requires RemoveZAll(items).Ok?
    ensures RemoveZAll(RemoveZAll(items).value) == RemoveZAll(items)
    decreases items, 0
  {
    if |items| > 0 {
      RemoveZIdempotent(items[0]);
      RemoveZAllIdempotent(items[1..]);
      var r := RemoveZAll(items).value;
      assert r[0] == RemoveZ(items[0]).value;
      assert r[1..] == RemoveZAll(items[1..]).value;
    }
  }

  // ---------------------------------------------------------------------
  // _multigeom_to_singlegeom / split_multigeom
  // ---------------------------------------------------------------------

  /** `split_multigeom(geom, properties)`: one Feature per entry of the
      coordinates, of the singular type `geom_type[5:]`, each carrying the
      same properties. The source's MultiPolygon branch builds exactly what
      the general branch builds ("MultiPolygon"[5:] is "Polygon"), so the
      two are one expression here. */
  function SplitMultigeom(geom: Json, properties: Json): (r: Result<seq<Json>>)
    requires geom.JObj? && "type" in geom.fields && geom.fields["type"].JStr?
    requires StartsWith(geom.fields["type"].s, "Multi")
  {
    var geomType := geom.fields["type"].s;
    var coordinates :- Lookup(geom, "coordinates");
    var members :- Iter(coordinates);
    Ok(seq(|members|, i requires 0 <= i < |members| =>
      MakeFeature(MakeGeometry(geomType[5..], members[i]), properties)))
  }

  /** What one feature contributes to `final_features`. */
  function SplitOne(feature: Json): Result<seq<Json>> {
    var properties :- Get(feature, "properties", EmptyObj);
    var geom :- Get(feature, "geometry", JNull);
    if !Truthy(geom) then Ok([])
    else
      var hasType :- Contains(geom, "type");
      if !hasType then Ok([])
      else
        var geomType :- Lookup(geom, "type");
        if !geomType.JStr? then Err(AttributeError)  // `.startswith` on a non-str
        else if StartsWith(geomType.s, "Multi") then SplitMultigeom(geom, properties)
        else Ok([feature])
  }

  /** The features produced by the loop over `features`, stopping at the
      first feature that raises. */
  function SplitFeatures(features: seq<Json>): Result<seq<Json>> {
    if |features| == 0 then Ok([])
    else
      var before :- SplitFeatures(features[..|features| - 1]);
      var last :- SplitOne(features[|features| - 1]);
      Ok(before + last)
  }

  /** `_multigeom_to_singlegeom(featcol)`. */
  function SingleGeoms(featcol: Json): Result<Json> {
    var features :- Get(featcol, "features", EmptyArr);
    var items :- Iter(features);
    var out :- SplitFeatures(items);
    Ok(FeatureCollection(out))
  }

  /** Two outcomes in sequence: the first error, or both lists joined. */
  function Then<T>(first: Result<seq<T>>, second: Result<seq<T>>): Result<seq<T>> {
    if first.Err? then first
    else if second.Err? then second
    else Ok(first.value + second.value)
  }

  /** `Then` is associative. */
  lemma ThenAssociative<T>(x: Result<seq<T>>, y: Result<seq<T>>, z: Result<seq<T>>)
    ensures Then(Then(x, y), z) == Then(x, Then(y, z))
  {
    if x.Ok? && y.Ok? && z.Ok? {
      assert (x.value + y.value) + z.value == x.value + (y.value + z.value);
    }
  }

  /** Splitting a concatenation is concatenating the splits; in particular
      input order is preserved and an error in `a` wins over one in `b`. */
  lemma {:induction false} SplitFeaturesAppend(a: seq<Json>, b: seq<Json>)
    ensures SplitFeatures(a + b) == Then(SplitFeatures(a), SplitFeatures(b))
    decreases |b|
  {
    if |b| == 0 {
      assert a + b == a;
      if SplitFeatures(a).Ok? {
        assert SplitFeatures(a).value + [] == SplitFeatures(a).value;
      }
    } else {
      var b' := b[..|b| - 1];
      var x := b[|b| - 1];
      assert b == b' + [x];
      assert a + b == (a + b') + [x];
      SplitFeaturesAppend(a, b');
      SplitFeaturesSnoc(a + b', x);
      SplitFeaturesSnoc(b', x);
      ThenAssociative(SplitFeatures(a), SplitFeatures(b'), SplitOne(x));
    }
  }

  /** One more feature: its split follows the splits before it. */
  lemma SplitFeaturesSnoc(features: seq<Json>, x: Json)
    ensures SplitFeatures(features + [x]) == Then(SplitFeatures(features), SplitOne(x))
  {
    var all := features + [x];
    assert all[..|all| - 1] == features && all[|all| - 1] == x;
  }

  /** A feature with no geometry, a falsy geometry, or a geometry without
      `"type"` is dropped. */
  lemma SplitOneDropsInvalid(feature: Json)
    requires feature.JObj?
    requires var g := if "geometry" in feature.fields then feature.fields["geometry"] else JNull;
             !Truthy(g) || (g.JObj? && "type" !in g.fields)
    ensures SplitOne(feature) == Ok([])
  {}

  /** A feature whose geometry type does not start with "Multi" is kept
      unchanged. */
  lemma SplitOneKeepsSingle(feature: Json)
    requires feature.JObj? && "geometry" in feature.fields
    requires var g := feature.fields["geometry"];
             g.JObj? && "type" in g.fields && g.fields["type"].JStr?
             && !StartsWith(g.fields["type"].s, "Multi")
    ensures SplitOne(feature) == Ok([feature])
  {}

  /** A Multi* geometry with k members becomes k consecutive features; the
      i-th has the singular type and the i-th member as its coordinates
      (a MultiPolygon member keeps its holes), and every one carries the
      parent's properties, `{}` when it has none. */
  lemma SplitOneMulti(feature: Json, members: seq<Json>)
    requires feature.JObj? && "geometry" in feature.fields
    requires var g := feature.fields["geometry"];
             g.JObj? && "type" in g.fields && g.fields["type"].JStr?
             && StartsWith(g.fields["type"].s, "Multi")
             && "coordinates" in g.fields && g.fields["coordinates"] == JArr(members)
    ensures SplitOne(feature).Ok?
    ensures var out := SplitOne(feature).value;
            var props := if "properties" in feature.fields then feature.fields["properties"] else EmptyObj;
            |out| == |members|
            && forall i :: 0 <= i < |members| ==>
                 out[i] == MakeFeature(
                   MakeGeometry(feature.fields["geometry"].fields["type"].s[5..], members[i]), props)
  {}

  /** The MultiPolygon case spelled out: k members give k Polygon features. */
  lemma SplitOneMultiPolygon(feature: Json, members: seq<Json>)
    requires feature.JObj? && "geometry" in feature.fields
    requires feature.fields["geometry"] == MakeGeometry("MultiPolygon", JArr(members))
    ensures SplitOne(feature).Ok?
    ensures var out := SplitOne(feature).value;
            |out| == |members|
            && forall i :: 0 <= i < |members| ==>
                 out[i].fields["geometry"] == MakeGeometry("Polygon", members[i])
  {
    assert "MultiPolygon"[5..] == "Polygon";
    SplitOneMulti(feature, members);
  }

  /** `_multigeom_to_singlegeom`: the loop with `append`/`extend` over
      `final_features`. The result has only the keys "type" and "features",
      so a `crs` of the input is dropped. */
  method MultigeomToSinglegeom(featcol: Json) returns (r: Result<Json>)
    ensures r == SingleGeoms(featcol)
    ensures r.Ok? ==> r.value.JObj? && r.value.fields.Keys == {"type", "features"}
  {
    var features :- Get(featcol, "features", EmptyArr);
    var items :- Iter(features);
    var finalFeatures: seq<Json> := [];
    var i := 0;
    while i < |items|
      invariant 0 <= i <= |items|
      invariant SplitFeatures(items[..i]) == Ok(finalFeatures)
    {
      var produced := SplitOne(items[i]);
      assert items[..i + 1][..i] == items[..i];
      if produced.Err? {
        assert items == items[..i + 1] + items[i + 1..];
        SplitFeaturesAppend(items[..i + 1], items[i + 1..]);
        return Err(produced.error);
      }
      finalFeatures := finalFeatures + produced.value;
      i := i + 1;
    }
    assert items[..i] == items;
    r := Ok(FeatureCollection(finalFeatures));
  }

  // ---------------------------------------------------------------------
  // normalize_featcol
  // ---------------------------------------------------------------------

  /** What the body of `normalize_featcol`'s loop makes of one feature.
      `geom` is read once; a GeometryCollection with exactly one member is
      replaced by that member, and then the z-stripping is written into
      `geom`, the object read before the replacement: an unwrapped member is
      therefore not stripped, although the stripping still runs and may
      raise. */
  function NormalizeOne(feat: Json): Result<Json> {
    var geom :- Get(feat, "geometry", JNull);
    if !Truthy(geom) then Ok(feat)
    else
      var hasType :- Contains(geom, "type");
      if !hasType then Ok(feat)
      else if !geom.JObj? then Err(AttributeError)  // `geom.get` on a list or str
      else
        var fields := geom.fields;
        var unwrapped :-
          if fields["type"] == JStr("GeometryCollection") then
            var members := if "geometries" in fields then fields["geometries"] else EmptyArr;
            var n :- Length(members);
            if n == 1 then
              var only :- At(members, 0);
              Ok(Some(only))
            else Ok(None)
          else Ok(None);
        var coords := if "coordinates" in fields then fields["coordinates"] else JNull;
        var stripped :-
          if Truthy(coords) then
            var z :- RemoveZ(coords);
            Ok(Some(z))
          else Ok(None);
        if unwrapped.Some? then
          Ok(JObj(feat.fields["geometry" := unwrapped.value]))
        else if stripped.Some? then
          Ok(JObj(feat.fields["geometry" := JObj(fields["coordinates" := stripped.value])]))
        else Ok(feat)
  }

  /** The features after the in-place loop, stopping at the first raise. */
  function NormalizeFeatures(features: seq<Json>): (r: Result<seq<Json>>)
    ensures r.Ok? ==> |r.value| == |features|
  {
    if |features| == 0 then Ok([])
    else
      var before :- NormalizeFeatures(features[..|features| - 1]);
      var last :- NormalizeOne(features[|features| - 1]);
      Ok(before + [last])
  }

  /** `normalize_featcol(featcol)`: rewrite the features, then split. */
  function Normalized(featcol: Json): Result<Json> {
    var features :- Get(featcol, "features", EmptyArr);
    var items :- Iter(features);
    var updated :- NormalizeFeatures(items);
    var rewritten :=
      if "features" in featcol.fields && features.JArr?
      then JObj(featcol.fields["features" := JArr(updated)])
      else featcol;
    SingleGeoms(rewritten)
  }

  /** A GeometryCollection with exactly one member is replaced by that
      member, unchanged (its z values included). */
  lemma NormalizeOneUnwraps(feat: Json, geom: Json, member: Json)
    requires feat.JObj? && "geometry" in feat.fields && feat.fields["geometry"] == geom
    requires geom.JObj? && "type" in geom.fields && geom.fields["type"] == JStr("GeometryCollection")
    requires "geometries" in geom.fields && geom.fields["geometries"] == JArr([member])
    requires "coordinates" !in geom.fields
    ensures NormalizeOne(feat) == Ok(JObj(feat.fields["geometry" := member]))
  {}

  /** A GeometryCollection with zero or several members is left untouched. */
  lemma NormalizeOneKeepsCollection(feat: Json, geom: Json, members: seq<Json>)
    requires feat.JObj? && "geometry" in feat.fields && feat.fields["geometry"] == geom
    requires geom.JObj? && "type" in geom.fields && geom.fields["type"] == JStr("GeometryCollection")
    requires "geometries" in geom.fields && geom.fields["geometries"] == JArr(members)
    requires |members| != 1
    requires "coordinates" !in geom.fields
    ensures NormalizeOne(feat) == Ok(feat)
  {}

  /** Any other geometry with truthy coordinates gets them z-stripped and
      keeps its other keys; with falsy or missing coordinates it is left as
      it is. */
  lemma NormalizeOneStrips(feat: Json, geom: Json)
    requires feat.JObj? && "geometry" in feat.fields && feat.fields["geometry"] == geom
    requires geom.JObj? && "type" in geom.fields && geom.fields["type"] != JStr("GeometryCollection")
    ensures var c := if "coordinates" in geom.fields then geom.fields["coordinates"] else JNull;
            && (Truthy(c) && RemoveZ(c).Ok? ==>
                  NormalizeOne(feat) == Ok(JObj(feat.fields["geometry" :=
                    JObj(geom.fields["coordinates" := RemoveZ(c).value])])))
            && (Truthy(c) && RemoveZ(c).Err? ==> NormalizeOne(feat) == Err(RemoveZ(c).error))
            && (!Truthy(c) ==> NormalizeOne(feat) == Ok(feat))
  {}

  /** Rewriting a feature whose geometry is not a GeometryCollection a
      second time changes nothing. */
  lemma NormalizeOneIdempotent(feat: Json)
    requires NormalizeOne(feat).Ok?
    requires feat.JObj? && "geometry" in feat.fields
    requires var g := feat.fields["geometry"];
             g.JObj? && "type" in g.fields && g.fields["type"] != JStr("GeometryCollection")
    ensures NormalizeOne(NormalizeOne(feat).value) == NormalizeOne(feat)
  {
    var g := feat.fields["geometry"];
    var c := if "coordinates" in g.fields then g.fields["coordinates"] else JNull;
    if Truthy(c) {
      RemoveZIdempotent(c);
      var z := RemoveZ(c).value;
      assert z.JArr? ==> z.items != [];
      assert Truthy(z) by {
        match c
        case JArr(_) =>
        case JStr(s) =>
      }
      var g' := JObj(g.fields["coordinates" := z]);
      var f' := JObj(feat.fields["geometry" := g']);
      assert NormalizeOne(feat) == Ok(f');
      assert g'.fields["coordinates" := z] == g'.fields;
      assert f'.fields["geometry" := g'] == f'.fields;
    }
  }

  /** The member of a single-member GeometryCollection keeps its z value:
      normalising twice is not normalising once. */
  lemma NormalizeOneKeepsZOfUnwrapped(x: real, y: real, z: real)
    ensures var pos := JArr([JNum(x), JNum(y), JNum(z)]);
            var point := MakeGeometry("Point", pos);
            var gc := JObj(map["type" := JStr("GeometryCollection"), "geometries" := JArr([point])]);
            var feat := MakeFeature(gc, EmptyObj);
            && NormalizeOne(feat) == Ok(MakeFeature(point, EmptyObj))
            && NormalizeOne(MakeFeature(point, EmptyObj))
               == Ok(MakeFeature(MakeGeometry("Point", JArr([JNum(x), JNum(y)])), EmptyObj))
  {
    var point := MakeGeometry("Point", JArr([JNum(x), JNum(y), JNum(z)]));
    UnwrapsPoint(point);
    StripsPoint(x, y, z);
  }

  /** A single-member GeometryCollection around `point` becomes `point`. */
  lemma UnwrapsPoint(point: Json)
    ensures var gc := JObj(map["type" := JStr("GeometryCollection"), "geometries" := JArr([point])]);
            NormalizeOne(MakeFeature(gc, EmptyObj)) == Ok(MakeFeature(point, EmptyObj))
  {
    var gc := JObj(map["type" := JStr("GeometryCollection"), "geometries" := JArr([point])]);
    var feat := MakeFeature(gc, EmptyObj);
    NormalizeOneUnwraps(feat, gc, point);
    assert feat.fields["geometry" := point] == MakeFeature(point, EmptyObj).fields;
  }

  /** A Point feature at `[x, y, z]` is rewritten to `[x, y]`. */
  lemma StripsPoint(x: real, y: real, z: real)
    ensures NormalizeOne(MakeFeature(MakeGeometry("Point", JArr([JNum(x), JNum(y), JNum(z)])), EmptyObj))
            == Ok(MakeFeature(MakeGeometry("Point", JArr([JNum(x), JNum(y)])), EmptyObj))
  {
    var pos := JArr([JNum(x), JNum(y), JNum(z)]);
    var point := MakeGeometry("Point", pos);
    RemoveZPosition(pos.items);
    var flat := JArr([JNum(x), JNum(y)]);
    assert RemoveZ(pos) == Ok(flat);
    var pf := MakeFeature(point, EmptyObj);
    NormalizeOneStrips(pf, point);
    assert point.fields["coordinates" := flat] == MakeGeometry("Point", flat).fields;
    assert pf.fields["geometry" := MakeGeometry("Point", flat)]
        == MakeFeature(MakeGeometry("Point", flat), EmptyObj).fields;
  }

  /** `normalize_featcol`: the loop rewrites `features` in place, feature by
      feature, and the result is split by `_multigeom_to_singlegeom`. */
  method NormalizeFeatcol(featcol: Json) returns (r: Result<Json>)
    ensures r == Normalized(featcol)
    ensures r.Ok? ==> r.value.JObj? && r.value.fields.Keys == {"type", "features"}
  {
    var features :- Get(featcol, "features", EmptyArr);
    var items :- Iter(features);
    var feats := items;
    var i := 0;
    while i < |feats|
      invariant 0 <= i <= |feats| == |items|
      invariant feats[i..] == items[i..]
      invariant NormalizeFeatures(items[..i]) == Ok(feats[..i])
    {
      assert feats[i] == items[i];
      var updated := NormalizeOne(feats[i]);
      ghost var done := feats[..i];
      NormalizeFeaturesStep(items, i, done);
      if updated.Err? {
        return Err(updated.error);
      }
      feats := feats[i := updated.value];
      assert feats[..i + 1] == done + [updated.value];
      assert feats[i + 1..] == items[i + 1..];
      i := i + 1;
    }
    assert items[..i] == items && feats[..i] == feats;
    var rewritten := featcol;
    if "features" in featcol.fields && features.JArr? {
      rewritten := JObj(featcol.fields["features" := JArr(feats)]);
    }
    r := MultigeomToSinglegeom(rewritten);
  }

  /** One pass of the `normalize_featcol` loop: the feature's error ends the
      rewrite, or its rewritten form extends the prefix. */
  lemma NormalizeFeaturesStep(items: seq<Json>, i: nat, done: seq<Json>)
    requires i < |items| && NormalizeFeatures(items[..i]) == Ok(done)
    ensures NormalizeOne(items[i]).Ok? ==>
              NormalizeFeatures(items[..i + 1]) == Ok(done + [NormalizeOne(items[i]).value])
    ensures NormalizeOne(items[i]).Err? ==> NormalizeFeatures(items) == Err(NormalizeOne(items[i]).error)
  {
    assert items[..i + 1][..i] == items[..i];
    if NormalizeOne(items[i]).Err? {
      NormalizeFeaturesPrefixErr(items, i + 1);
    }
  }

  /** A feature that raises makes the whole rewrite raise the same error. */
  lemma {:induction false} NormalizeFeaturesPrefixErr(items: seq<Json>, n: nat)
    requires n <= |items| && NormalizeFeatures(items[..n]).Err?
    ensures NormalizeFeatures(items) == NormalizeFeatures(items[..n])
    decreases |items| - n
  {
    if n < |items| {
      assert items[..n + 1][..n] == items[..n];
      NormalizeFeaturesPrefixErr(items, n + 1);
    } else {
      assert items[..n] == items;
    }
  }
}
