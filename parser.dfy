/** The entry point of geojson_aoi/parser.py: input dispatch and validation
    of `parse_aoi`, `geojson_to_featcol`, and `_check_crs` as a check that
    returns which of its two warnings fire. */
module Parser {
  import opened Json
  import Normalize
  import Merge

  const InputMsg: string := "GeoJSON input must be a valid dict, str, or bytes"
  const EmptyMsg: string := "Provided GeoJSON is empty"
  const TypeMsg: string := "The GeoJSON type must be one of: ['Polygon', 'MultiPolygon', 'Feature', 'FeatureCollection', 'GeometryCollection']"
  const FailedMsg: string := "Failed parsing geojson"

  /** `AllowedInputTypes`. */
  const AllowedInputTypes: seq<Json> :=
    [JStr("Polygon"), JStr("MultiPolygon"), JStr("Feature"), JStr("FeatureCollection"), JStr("GeometryCollection")]

  /** What `parse_aoi` is given. Reading a file or decoding text happens
      outside the model: a str or bytes argument carries what decoding it
      yields (None when decoding fails), whether the str named a file or
      held the JSON text itself. */
  datatype RawInput =
    | RawStr(decoded: Option<Json>)
    | RawBytes(decoded: Option<Json>)
    | RawDict(fields: map<string, Json>)
    | RawOther

  /** The warnings `_check_crs` emits. */
  datatype Warnings = Warnings(crs: bool, coordinates: bool)

  /** The result of `parse_aoi` and the warnings emitted on the way. */
  datatype Parsed = Parsed(featcol: Json, warnings: Warnings)

  // ---------------------------------------------------------------------
  // Input dispatch and validation (lines 417-438)
  // ---------------------------------------------------------------------

  /** `geojson_parsed` after the two `if` chains. Bytes are decoded by the
      first `if`, but the second chain starts with a fresh `if` and sends
      them to the `else` raise. */
  function Decoded(raw: RawInput): (r: Result<Json>)
    ensures raw.RawOther? ==> r == Err(ValueError(InputMsg))
    ensures raw.RawBytes? ==> r.Err?
  {
    match raw
    case RawBytes(d) => if d.None? then Err(JsonDecodeError) else Err(ValueError(InputMsg))
    case RawStr(d) => if d.None? then Err(JsonDecodeError) else Ok(d.value)
    case RawDict(fields) => Ok(JObj(fields))
    case RawOther => Err(ValueError(InputMsg))
  }

  /** The emptiness and type checks: the decoded value must hold a `"type"`
      whose value is one of `AllowedInputTypes`. */
  function Validated(parsed: Json): (r: Result<map<string, Json>>)
    ensures r.Ok? ==> parsed == JObj(r.value) && "type" in r.value && r.value["type"] in AllowedInputTypes
  {
    if parsed == JNull || parsed == EmptyObj then Err(ValueError(EmptyMsg))
    else
      var hasType :- Contains(parsed, "type");
      if !hasType then Err(ValueError(EmptyMsg))
      else
        var geojsonType :- Lookup(parsed, "type");
        if geojsonType !in AllowedInputTypes then Err(ValueError(TypeMsg))
        else Ok(parsed.fields)
  }

  /** A dict lacking `"type"` (the empty dict included) is empty, and a
      `"type"` outside the five allowed ones is refused; a dict passes
      exactly when neither applies. */
  lemma ValidatedDict(fields: map<string, Json>)
    ensures "type" !in fields ==> Validated(JObj(fields)) == Err(ValueError(EmptyMsg))
    ensures "type" in fields && fields["type"] !in AllowedInputTypes ==>
              Validated(JObj(fields)) == Err(ValueError(TypeMsg))
    ensures Validated(JObj(fields)).Ok? <==> "type" in fields && fields["type"] in AllowedInputTypes
  {}

  // ---------------------------------------------------------------------
  // geojson_to_featcol (lines 373-401)
  // ---------------------------------------------------------------------

  /** `geojson_to_featcol(geojson_obj)`. */
  function GeojsonToFeatcol(obj: map<string, Json>): (r: Json)
    ensures r.JObj?
    ensures r.fields.Keys == {"type", "features"} + (if "crs" in obj && Truthy(obj["crs"]) then {"crs"} else {})
    ensures r.fields["type"] == JStr("FeatureCollection")
    ensures "crs" in r.fields ==> r.fields["crs"] == obj["crs"]
  {
    var geojsonType := if "type" in obj then obj["type"] else JNull;
    var features :=
      if geojsonType == JStr("FeatureCollection") then (if "features" in obj then obj["features"] else EmptyArr)
      else if geojsonType == JStr("Feature") then JArr([JObj(obj)])
      else JArr([Normalize.MakeFeature(JObj(obj), EmptyObj)]);
    var featcol := map["type" := JStr("FeatureCollection"), "features" := features];
    if "crs" in obj && Truthy(obj["crs"]) then JObj(featcol["crs" := obj["crs"]]) else JObj(featcol)
  }

  /** What lands under `"features"`: a FeatureCollection keeps its list
      (an empty one when absent), a Feature becomes the one-element list
      holding it, and any other object is wrapped in one Feature with empty
      properties. */
  lemma GeojsonToFeatcolFeatures(obj: map<string, Json>)
    ensures var features := GeojsonToFeatcol(obj).fields["features"];
            && ("type" in obj && obj["type"] == JStr("FeatureCollection") ==>
                  features == if "features" in obj then obj["features"] else EmptyArr)
            && ("type" in obj && obj["type"] == JStr("Feature") ==> features == JArr([JObj(obj)]))
            && (!("type" in obj && obj["type"] in [JStr("FeatureCollection"), JStr("Feature")]) ==>
                  features == JArr([Normalize.MakeFeature(JObj(obj), EmptyObj)]))
  {}

  /** Wrapping is idempotent: a wrapped collection wraps to itself. */
  lemma GeojsonToFeatcolIdempotent(obj: map<string, Json>)
    ensures GeojsonToFeatcol(GeojsonToFeatcol(obj).fields) == GeojsonToFeatcol(obj)
  {
    var once := GeojsonToFeatcol(obj).fields;
    var twice := GeojsonToFeatcol(once).fields;
    assert twice.Keys == once.Keys;
    assert forall k :: k in once ==> twice[k] == once[k];
  }

  // ---------------------------------------------------------------------
  // _check_crs (lines 141-188)
  // ---------------------------------------------------------------------

  /** `valid_crs_list`. */
  const ValidCrsNames: seq<Json> :=
    [JStr("urn:ogc:def:crs:OGC:1.3:CRS84"), JStr("urn:ogc:def:crs:EPSG::4326"), JStr("WGS 84")]

  /** `crs.get("properties", {}).get("name")`, None (JSON null) when absent. */
  function CrsName(crs: Json): Result<Json> {
    var properties :- Get(crs, "properties", EmptyObj);
    Get(properties, "name", JNull)
  }

  /** The CRS half: only a collection with a `"crs"` key is checked. */
  function CrsWarning(featcol: map<string, Json>): Result<bool> {
    if "crs" !in featcol then Ok(false)
    else
      var name :- CrsName(featcol["crs"]);
      Ok(name !in ValidCrsNames)
  }

  /** The CRS warning fires exactly when a `"crs"` is present whose
      `properties.name` is not one of the three aliases; a missing name or
      missing properties count as invalid. */
  lemma CrsWarningCases(featcol: map<string, Json>)
    ensures "crs" !in featcol ==> CrsWarning(featcol) == Ok(false)
    ensures "crs" in featcol && !featcol["crs"].JObj? ==> CrsWarning(featcol) == Err(AttributeError)
    ensures "crs" in featcol && featcol["crs"].JObj? && "properties" !in featcol["crs"].fields ==>
              CrsWarning(featcol) == Ok(true)
    ensures "crs" in featcol && featcol["crs"].JObj? && "properties" in featcol["crs"].fields
            && featcol["crs"].fields["properties"].JObj? ==>
              var props := featcol["crs"].fields["properties"].fields;
              CrsWarning(featcol) == Ok(!("name" in props && props["name"] in ValidCrsNames))
  {}

  /** `features[-1].get("geometry", {}).get("coordinates", [])`, or `[]`
      when there are no features. */
  function LastCoordinates(featcol: map<string, Json>): Result<Json> {
    var features := if "features" in featcol then featcol["features"] else EmptyArr;
    if !Truthy(features) then Ok(EmptyArr)
    else
      var last :- At(features, -1);
      var geometry :- Get(last, "geometry", EmptyObj);
      Get(geometry, "coordinates", EmptyArr)
  }

  /** `leaf` is found from `c` by following first elements. */
  predicate Reaches(c: Json, leaf: Json)
    decreases c
  {
    c == leaf || (c.JArr? && |c.items| > 0 && Reaches(c.items[0], leaf))
  }

  /** The `while isinstance(coordinates, list)` descent from a list: the
      innermost list reached by following first elements, whose first
      element is no longer a list. An empty list on the way raises. */
  function FirstLeaf(c: Json): (r: Result<Json>)
    requires c.JArr?
    ensures r.Ok? ==> r.value.JArr? && |r.value.items| > 0 && !r.value.items[0].JArr? && Reaches(c, r.value)
    ensures r.Err? ==> r == Err(IndexError)
    ensures (forall d :: Reaches(c, d) && d.JArr? ==> |d.items| > 0) ==> r.Ok?
    decreases c
  {
    if |c.items| == 0 then Err(IndexError)
    else if c.items[0].JArr? then FirstLeaf(c.items[0])
    else Ok(c)
  }

  /** `first_coordinate` after the `if coordinates:` block: None unless
      `coordinates` is a non-empty list. */
  function FirstCoordinate(coordinates: Json): (r: Result<Option<Json>>)
    ensures !coordinates.JArr? || coordinates.items == [] ==> r == Ok(None)
    ensures r.Ok? && r.value.Some? ==>
              var leaf := r.value.value;
              leaf.JArr? && |leaf.items| > 0 && !leaf.items[0].JArr? && Reaches(coordinates, leaf)
  {
    if !Truthy(coordinates) || !coordinates.JArr? then Ok(None)
    else
      var leaf :- FirstLeaf(coordinates);
      Ok(Some(leaf))
  }

  /** A found leaf as the `Option` the descent leaves in `first_coordinate`. */
  function Lifted(r: Result<Json>): Result<Option<Json>> {
    var leaf :- r;
    Ok(Some(leaf))
  }

  /** `lo <= v <= hi` for a JSON number; anything else cannot be compared. */
  function InRange(v: Json, lo: real, hi: real): Result<bool> {
    match AsNumber(v)
    case None => Err(TypeError)
    case Some(n) => Ok(lo <= n <= hi)
  }

  /** `is_valid_coordinate(coord)`: the longitude test short-circuits. */
  function IsValidCoordinate(coord: Option<Json>): Result<bool> {
    if coord.None? then Ok(false)
    else
      var x :- At(coord.value, 0);
      var lonOk :- InRange(x, -180.0, 180.0);
      if !lonOk then Ok(false)
      else
        var y :- At(coord.value, 1);
        InRange(y, -90.0, 90.0)
  }

  /** `_check_crs(featcol)`: which warnings fire, or the error raised. */
  function CrsCheck(featcol: map<string, Json>): Result<Warnings> {
    var crsWarning :- CrsWarning(featcol);
    var coordinates :- LastCoordinates(featcol);
    var first :- FirstCoordinate(coordinates);
    var valid :- IsValidCoordinate(first);
    Ok(Warnings(crsWarning, !valid))
  }

  /** The coordinate warning looks at the first position of the LAST
      feature: on a Polygon whose first position is `[x, y]` it fires
      exactly when `x` is outside [-180, 180] or `y` outside [-90, 90]. */
  lemma CoordinateWarningOnPolygon(featcol: map<string, Json>, x: real, y: real, ring: seq<Json>, holes: seq<Json>, geometry: map<string, Json>, feature: map<string, Json>, features: seq<Json>)
    requires CrsWarning(featcol).Ok?
    requires "features" in featcol && featcol["features"] == JArr(features)
    requires |features| > 0 && features[|features| - 1] == JObj(feature)
    requires "geometry" in feature && feature["geometry"] == JObj(geometry)
    requires "coordinates" in geometry && geometry["coordinates"] == JArr([JArr(ring)] + holes)
    requires |ring| > 0 && ring[0] == JArr([JNum(x), JNum(y)])
    ensures CrsCheck(featcol) ==
            Ok(Warnings(CrsWarning(featcol).value, !(-180.0 <= x <= 180.0 && -90.0 <= y <= 90.0)))
  {
    var pos := JArr([JNum(x), JNum(y)]);
    assert FirstLeaf(pos) == Ok(pos);
    assert FirstLeaf(JArr(ring)) == Ok(pos);
    var coordinates := JArr([JArr(ring)] + holes);
    assert coordinates.items[0] == JArr(ring);
    assert FirstLeaf(coordinates) == Ok(pos);
    assert FirstCoordinate(coordinates) == Ok(Some(pos));
  }

  /** The collection of the CRS tests: one unit-square Polygon Feature whose
      ring starts at `[x, 0]`, under a named CRS. */
  function CrsTestCollection(x: real, crsName: string): map<string, Json> {
    var ring := [JArr([JNum(x), JNum(0.0)]), JArr([JNum(1.0), JNum(0.0)]), JArr([JNum(1.0), JNum(1.0)]),
                 JArr([JNum(0.0), JNum(1.0)]), JArr([JNum(0.0), JNum(0.0)])];
    var geometry := Normalize.MakeGeometry("Polygon", JArr([JArr(ring)]));
    var crs := JObj(map["type" := JStr("name"), "properties" := JObj(map["name" := JStr(crsName)])]);
    map["type" := JStr("FeatureCollection"), "features" := JArr([Normalize.MakeFeature(geometry, EmptyObj)]),
        "crs" := crs]
  }

  /** The three CRS cases of tests/test_parser.py: the CRS84 name with
      in-range coordinates warns about nothing, the name "invalid!!" warns
      about the CRS, and a first longitude of 600 warns about coordinates. */
  lemma CrsTestCases()
    ensures CrsCheck(CrsTestCollection(0.0, "urn:ogc:def:crs:OGC:1.3:CRS84")) == Ok(Warnings(false, false))
    ensures CrsCheck(CrsTestCollection(0.0, "invalid!!")) == Ok(Warnings(true, false))
    ensures CrsCheck(CrsTestCollection(600.0, "urn:ogc:def:crs:EPSG::4326")) == Ok(Warnings(false, true))
  {
    CrsTestCase(0.0, "urn:ogc:def:crs:OGC:1.3:CRS84");
    CrsTestCase(0.0, "invalid!!");
    CrsTestCase(600.0, "urn:ogc:def:crs:EPSG::4326");
  }

  lemma CrsTestCase(x: real, crsName: string)
    ensures CrsCheck(CrsTestCollection(x, crsName)) ==
            Ok(Warnings(JStr(crsName) !in ValidCrsNames, !(-180.0 <= x <= 180.0)))
  {
    var fc := CrsTestCollection(x, crsName);
    var feature := fc["features"].items[0];
    var geometry := feature.fields["geometry"];
    CoordinateWarningOnPolygon(fc, x, 0.0, geometry.fields["coordinates"].items[0].items, [],
                               geometry.fields, feature.fields, fc["features"].items);
  }

  /** A last feature without geometry, or whose geometry has no
      coordinates, makes the coordinate warning fire. */
  lemma CoordinateWarningWhenMissing(featcol: map<string, Json>, feature: map<string, Json>, features: seq<Json>)
    requires "crs" !in featcol && "features" in featcol && featcol["features"] == JArr(features)
    requires |features| > 0 && features[|features| - 1] == JObj(feature)
    requires "geometry" !in feature || (feature["geometry"].JObj? && "coordinates" !in feature["geometry"].fields)
    ensures CrsCheck(featcol) == Ok(Warnings(false, true))
  {}

  /** `_check_crs` with its descent loop. */
  method CheckCrs(featcol: map<string, Json>) returns (r: Result<Warnings>)
    ensures r == CrsCheck(featcol)
  {
    var crsWarning := CrsWarning(featcol);
    if crsWarning.Err? {
      return crsWarning.PropagateFailure();
    }
    var coordinates := LastCoordinates(featcol);
    if coordinates.Err? {
      return coordinates.PropagateFailure();
    }
    var c := coordinates.value;
    var first: Option<Json> := None;
    if Truthy(c) {
      while c.JArr?
        invariant first.None? ==> c == coordinates.value
        invariant first.Some? ==> && first.value.JArr? && |first.value.items| > 0
                                  && first.value.items[0] == c
                                  && FirstCoordinate(coordinates.value) == Lifted(FirstLeaf(first.value))
        decreases c
      {
        if |c.items| == 0 {
          return Err(IndexError);
        }
        first := Some(c);
        c := c.items[0];
      }
    }
    var valid := IsValidCoordinate(first);
    if valid.Err? {
      return valid.PropagateFailure();
    }
    r := Ok(Warnings(crsWarning.value, !valid.value));
  }

  // ---------------------------------------------------------------------
  // parse_aoi (lines 404-450)
  // ---------------------------------------------------------------------

  /** `parse_aoi(geojson_raw, merge)` on an already decoded input. */
  function ParseAoi(raw: RawInput, merge: bool): Result<Parsed> {
    var parsed :- Decoded(raw);
    var obj :- Validated(parsed);
    var featcol := GeojsonToFeatcol(obj);
    if !Truthy(featcol.fields["features"]) then Err(ValueError(FailedMsg))
    else
      var warnings :- CrsCheck(featcol.fields);
      var normalized :- Normalize.Normalized(featcol);
      if !merge then Ok(Parsed(normalized, warnings))
      else
        var merged :- Merge.Merged(normalized);
        Ok(Parsed(merged, warnings))
  }

  /** Inputs that are neither str nor dict are refused, bytes included. */
  lemma ParseAoiRefusesOtherInput(raw: RawInput, merge: bool)
    requires raw.RawOther? || (raw.RawBytes? && raw.decoded.Some?)
    ensures ParseAoi(raw, merge) == Err(ValueError(InputMsg))
  {}

  /** The emptiness and type checks come before any geometry work. */
  lemma ParseAoiValidatesFirst(fields: map<string, Json>, merge: bool)
    ensures "type" !in fields ==> ParseAoi(RawDict(fields), merge) == Err(ValueError(EmptyMsg))
    ensures "type" in fields && fields["type"] !in AllowedInputTypes ==>
              ParseAoi(RawDict(fields), merge) == Err(ValueError(TypeMsg))
    ensures ParseAoi(RawStr(Some(JNull)), merge) == Err(ValueError(EmptyMsg))
  {}

  /** A FeatureCollection without features fails after wrapping. */
  lemma ParseAoiNoFeatures(fields: map<string, Json>, merge: bool)
    requires "type" in fields && fields["type"] == JStr("FeatureCollection")
    requires "features" !in fields || !Truthy(fields["features"])
    ensures ParseAoi(RawDict(fields), merge) == Err(ValueError(FailedMsg))
  {}

  /** Whatever it parses, `parse_aoi` returns a collection holding only
      `type` and `features`; with `merge` it holds exactly one Feature. */
  lemma ParseAoiResultShape(raw: RawInput, merge: bool)
    requires ParseAoi(raw, merge).Ok?
    ensures var fc := ParseAoi(raw, merge).value.featcol;
            fc.JObj? && fc.fields.Keys == {"type", "features"}
            && fc.fields["type"] == JStr("FeatureCollection") && fc.fields["features"].JArr?
            && (merge ==> |fc.fields["features"].items| == 1)
  {
    var featcol := GeojsonToFeatcol(Validated(Decoded(raw).value).value);
    var normalized := ParseAoiOutput(raw, merge);
    ResultShape(featcol, normalized, merge, ParseAoi(raw, merge).value.featcol);
  }

  /** The collection `parse_aoi` returns, from the normalised one. */
  lemma ResultShape(featcol: Json, normalized: Json, merge: bool, fc: Json)
    requires Normalize.Normalized(featcol) == Ok(normalized)
    requires !merge ==> fc == normalized
    requires merge ==> Merge.Merged(normalized).Ok? && fc == Merge.Merged(normalized).value
    ensures fc.JObj? && fc.fields.Keys == {"type", "features"}
    ensures fc.fields["type"] == JStr("FeatureCollection") && fc.fields["features"].JArr?
    ensures merge ==> |fc.fields["features"].items| == 1
  {
    if merge {
      Merge.MergedShape(normalized);
      assert fc == Normalize.FeatureCollection(fc.fields["features"].items);
    } else {
      NormalizedShape(featcol);
    }
  }

  /** What a successful parse returns: the normalised collection, merged
      when asked. */
  lemma ParseAoiOutput(raw: RawInput, merge: bool) returns (normalized: Json)
    requires ParseAoi(raw, merge).Ok?
    ensures Normalize.Normalized(GeojsonToFeatcol(Validated(Decoded(raw).value).value)) == Ok(normalized)
    ensures !merge ==> ParseAoi(raw, merge).value.featcol == normalized
    ensures merge ==> Merge.Merged(normalized).Ok? && ParseAoi(raw, merge).value.featcol == Merge.Merged(normalized).value
  {
    var featcol := GeojsonToFeatcol(Validated(Decoded(raw).value).value);
    normalized := Normalize.Normalized(featcol).value;
  }

  /** `normalize_featcol` always returns a fresh FeatureCollection. */
  lemma NormalizedShape(featcol: Json)
    requires Normalize.Normalized(featcol).Ok?
    ensures var fc := Normalize.Normalized(featcol).value;
            && fc.JObj? && fc.fields.Keys == {"type", "features"}
            && fc.fields["type"] == JStr("FeatureCollection") && fc.fields["features"].JArr?
  {}
}
