# geojson-aoi-parser in Dafny

This project models the pure-Python core of geojson-aoi-parser. The library
reads an area of interest (AOI) given as GeoJSON and turns it into a
normalised FeatureCollection. Optionally it merges all polygons into one.

Parsed JSON is one datatype, `Json.Json`. Python's dict access, indexing,
`in`, iteration and truthiness are functions over it that return a `Result`.
The `Result` carries the exception kind Python would raise.

The modules follow the source files:

- `Normalize` (geojson_aoi/normalize.py, copied at geojson_aoi/parser.py:31-135):
  - z-stripping of coordinate trees;
  - unwrapping of single-member GeometryCollections;
  - splitting of `Multi*` geometries into one Feature per member.
- `Orientation`, `Hull`, `Disjoint` (geojson_aoi/merge.py:59-169, copied at
  geojson_aoi/parser.py:194-305):
  - the right-hand rule on a polygon's rings;
  - hole removal;
  - the monotone-chain convex hull;
  - the bounding-box and edge-crossing disjointness test.
- `Rings` (geojson_aoi/merge.py:172-268): the `LineString`, `Polygon` and
  `MultiPolygon` value classes, and the ring-concatenating `_create_unary_union`.
- `Merge` (geojson_aoi/parser.py:308-370): `merge_polygons` with the point-set
  `_create_unary_union`.
- `Parser` (geojson_aoi/parser.py:141-188, 373-450):
  - input dispatch and validation of `parse_aoi`, whose `merge=True` path
    runs the corrected `Merge.Merged` (see "## Findings");
  - `geojson_to_featcol`;
  - `_check_crs`, as a function returning which of its two warnings fire.
- `AsyncParser` (geojson_aoi/_async/parser.py):
  - `check_crs` and `strip_featcol`;
  - the steps of `parse_aoi_async` around its PostGIS call: saving
    properties, keeping only Polygons, restoring properties by position.

Code that loops and updates state is written as methods with loop invariants.
Each method has `ensures r == Spec(...)` against a specification function.
The properties the source promises are lemmas about those functions.

## Model

| member | source | states |
|---|---|---|
| Json.Get | geojson_aoi/normalize.py:32 | `.get(key, default)` succeeds exactly on a dict and yields the stored value or the default |
| Json.Lookup | geojson_aoi/normalize.py:75-76 | `o[key]` succeeds exactly when `o` is a dict holding `key`, and yields its value |
| Json.At | geojson_aoi/merge.py:106 | `o[i]` on a list yields the element at `i` (negative counts from the end); out of range is IndexError; only lists and strings index |
| Json.Contains | geojson_aoi/normalize.py:33 | `key in o` is key membership on a dict, element membership on a list, and fails on values with no `in` |
| Json.Iter | geojson_aoi/normalize.py:31 | iterating a list yields its items; a string yields its characters in order, each as a one-character string; `{}` yields nothing; only lists, strings and dicts iterate |
| Geometry.Reverse | geojson_aoi/merge.py:84 | `ring[::-1]`: the same length, element `i` is element `n-1-i` |
| Geometry.CyclicSumReverse | geojson_aoi/merge.py:64-71 | reversing a ring negates its `is_clockwise` sum, so a reversed counter-clockwise ring is clockwise |
| Geometry.ClosedRingSums | geojson_aoi/merge.py:179-186 | on a closed ring the wrap-around sum of `is_clockwise` equals the open sum of `winding_order` |
| Geometry.OpenSumReverse | geojson_aoi/merge.py:182-185 | reversing a ring negates the `winding_order` area |
| Geometry.CcwRotate | geojson_aoi/merge.py:157-158 | `ccw(a, b, c)` is the sign of the hull's `cross`, and is invariant under rotating its arguments |
| Geometry.SegmentsIntersectSymmetric | geojson_aoi/merge.py:156-160 | `line_segments_intersect` does not depend on which segment comes first |
| Normalize.RemoveZ | geojson_aoi/normalize.py:52-59 | the result is a list exactly when the input is, and never an empty list |
| Normalize.RemoveZPosition | geojson_aoi/normalize.py:57-59 | a position (first element not a list) is cut to its first `min(2, n)` components |
| Normalize.RemoveZNested | geojson_aoi/normalize.py:54-56 | a list of lists is stripped entry by entry, and fails exactly when some entry fails |
| Normalize.RemoveZAllPointwise | geojson_aoi/normalize.py:56 | the list comprehension succeeds exactly when every entry does, and otherwise raises the first entry's error |
| Normalize.RemoveZIdempotent | geojson_aoi/normalize.py:52-59 | stripping twice is stripping once |
| Normalize.RemoveZAllIdempotent | geojson_aoi/normalize.py:56 | stripping a list of coordinate trees twice is stripping it once |
| Normalize.SplitOneDropsInvalid | geojson_aoi/normalize.py:103-105 | a feature with no geometry, or one without `type`, contributes nothing |
| Normalize.SplitOneKeepsSingle | geojson_aoi/normalize.py:110-112 | a feature with a non-Multi geometry is kept unchanged |
| Normalize.SplitOneMulti | geojson_aoi/normalize.py:73-112 | a `MultiX` geometry with k members gives k Features, the i-th of type `X` holding member i, each with the parent's properties (`{}` when absent) |
| Normalize.SplitOneMultiPolygon | geojson_aoi/normalize.py:79-87 | a MultiPolygon with k members gives k Polygons, member i as the i-th one's coordinates |
| Normalize.SplitFeaturesAppend | geojson_aoi/normalize.py:101-112 | splitting a concatenation concatenates the splits: feature order is kept, and an earlier error wins |
| Normalize.MultigeomToSinglegeom | geojson_aoi/normalize.py:62-114 | the loop computes `_multigeom_to_singlegeom`, whose result holds exactly the keys `type` and `features` |
| Normalize.NormalizeOne | geojson_aoi/normalize.py:32-46 | one pass of the feature loop: a feature without a truthy geometry or without `type` is skipped; a dict geometry with `type` has its truthy coordinates z-stripped, and a strip error is raised; a one-member GeometryCollection is instead replaced by its member, which is not stripped |
| Normalize.NormalizeFeatures | geojson_aoi/normalize.py:31-46 | the feature loop: every feature rewritten in order, one result per feature, stopping at the first raise |
| Normalize.Normalized | geojson_aoi/normalize.py:12-49 | `normalize_featcol`: the features of `featcol.get("features", [])` rewritten, then `_multigeom_to_singlegeom` of the result |
| Normalize.NormalizeOneUnwraps | geojson_aoi/normalize.py:37-41 | a GeometryCollection with one member is replaced by that member |
| Normalize.NormalizeOneKeepsCollection | geojson_aoi/normalize.py:37-41 | a GeometryCollection with zero or several members is left alone |
| Normalize.NormalizeOneStrips | geojson_aoi/normalize.py:43-46 | any other geometry with truthy coordinates gets them z-stripped and keeps its other keys; falsy coordinates leave the feature unchanged |
| Normalize.NormalizeOneIdempotent | geojson_aoi/normalize.py:31-46 | for a feature whose geometry is not a GeometryCollection, rewriting it a second time changes nothing (a collection is excluded because of the next row) |
| Normalize.NormalizeOneKeepsZOfUnwrapped | geojson_aoi/normalize.py:41-46 | the stripping is written into the collection that was read, so an unwrapped `[x, y, z]` Point keeps its z until a second pass |
| Normalize.NormalizeFeatcol | geojson_aoi/normalize.py:12-49 | the in-place loop over features, then the split, computes `normalize_featcol`; the result holds exactly `type` and `features` |
| Orientation.RemoveHoles | geojson_aoi/merge.py:94-106 | a falsy polygon gives `[]`; a non-empty list gives its first ring |
| Orientation.Planar | geojson_aoi/merge.py:64-71 | a ring reads as points exactly when every position has two numeric leading components |
| Orientation.ReverseFlips | geojson_aoi/merge.py:83-84 | reversing a ring negates its orientation sum |
| Orientation.RightHandRule | geojson_aoi/merge.py:59-91 | `_ensure_right_hand_rule`: raises the "list of [x, y] points" ValueError unless `coordinates[0]` is a list of two-element lists; the exterior is reversed unless its `is_clockwise` sum is positive; every later ring is reversed when its sum is positive |
| Orientation.OrientHolesInPlace | geojson_aoi/merge.py:86-89 | the loop over holes, in place, leaves the exterior and orients each hole as `OrientHoles` does, stopping at the first error |
| Orientation.OrientHolesProperties | geojson_aoi/merge.py:86-89 | every hole comes back as itself or reversed, and ends with a non-positive (counter-clockwise) sum |
| Orientation.RightHandRuleOrients | geojson_aoi/merge.py:59-91 | the ring count is kept; each ring is its input or its reversal; the exterior ends clockwise (strictly, unless degenerate) and is untouched when it already was; holes end counter-clockwise |
| Orientation.RightHandRuleValidates | geojson_aoi/merge.py:73-80 | the ValueError is raised exactly when `coordinates[0]` is not a list of two-element lists |
| Orientation.EnsureRightHandRule | geojson_aoi/merge.py:59-91 | the in-place rewrite of `coordinates[0]` and the loop over holes compute `_ensure_right_hand_rule` |
| Hull.Hull | geojson_aoi/merge.py:109-134 | `_create_convex_hull`: the sorted distinct points when there are at most one, otherwise the lower chain then the upper chain, each without its last point |
| Hull.SortDedup | geojson_aoi/merge.py:120 | `sorted(set(points))` is strictly sorted and has exactly the input's points |
| Hull.SortedUnique | geojson_aoi/merge.py:120 | two strictly sorted sequences with the same members are equal, so the sorted set is unique |
| Hull.ChainProperties | geojson_aoi/merge.py:124-132 | a monotone chain holds only input points, starts and ends at the input's ends, and turns strictly left at every inner point |
| Hull.HullProperties | geojson_aoi/merge.py:109-134 | the hull holds only input points; with at most one distinct point it is the sorted points; otherwise it starts at the least point, holds the greatest, and both chains turn strictly left |
| Hull.HullOfCollinear | geojson_aoi/merge.py:124-132 | the `<= 0` test drops collinear points: for any three distinct points `a < b < c` (tuple order) with zero cross product, the hull is `[a, c]` |
| Hull.BuildChain | geojson_aoi/merge.py:125-128 | the pop-while-not-left-turn loop computes the chain |
| Hull.CreateConvexHull | geojson_aoi/merge.py:109-134 | the method computes `_create_convex_hull` |
| Disjoint.Disjoint | geojson_aoi/merge.py:137-169 | `_polygons_disjoint`: an empty ring raises; separated bounding boxes give True; otherwise True exactly when no edge of one ring crosses an edge of the other by the `ccw` test |
| Disjoint.BoundingBox | geojson_aoi/merge.py:143-145 | the box encloses every point, and each bound is attained |
| Disjoint.BoxRejectSound | geojson_aoi/merge.py:152-154 | rings with separated boxes share no point, so the early `True` is sound |
| Disjoint.DisjointSymmetric | geojson_aoi/merge.py:137-169 | the test does not depend on the order of the two rings |
| Disjoint.RightOfEveryEdgeReportedDisjoint | geojson_aoi/merge.py:162-169 | only crossing edges count: a ring on the right of every edge of another is reported disjoint |
| Disjoint.NestedSquaresReportedDisjoint | geojson_aoi/merge.py:137-169 | one instance: the square (1,1)-(2,2) strictly inside the square (0,0)-(4,4) is reported disjoint although one contains the other |
| Disjoint.PolygonsDisjoint | geojson_aoi/merge.py:137-169 | the nested loops with early return compute `_polygons_disjoint`; an empty ring raises |
| Rings.XY | geojson_aoi/merge.py:183-184 | `x, y = position` yields each position's two components, in order |
| Rings.WindingOf | geojson_aoi/merge.py:179-186 | `winding_order`: the sum of `(x2 - x1) * (y2 + y1)` over consecutive positions is clockwise when positive, counterclockwise otherwise; a position that does not unpack into two values raises |
| Rings.LineString.IsClosed | geojson_aoi/merge.py:176-177 | raises on an empty ring, and is true exactly when the first and last positions are equal |
| Rings.LineString.WindingOrder | geojson_aoi/merge.py:179-186 | the loop computes the open signed-area sum; a ring of fewer than two positions is counterclockwise |
| Rings.WindingAgreesWithIsClockwise | geojson_aoi/merge.py:179-186 | on a closed ring `winding_order` says clockwise exactly when `is_clockwise` holds |
| Rings.WindingDisagreesOnOpenRing | geojson_aoi/merge.py:179-186 | on an open ring the two tests can disagree |
| Rings.Polygon.Rings | geojson_aoi/merge.py:194-196 | the exterior first, then the interiors |
| Rings.NewPolygon | geojson_aoi/merge.py:190-192 | missing interiors become `[]` |
| Rings.RingsOfMembers | geojson_aoi/merge.py:203-205 | a ring is yielded exactly when some member polygon yields it, and the count adds up |
| Rings.RingToShapePath | geojson_aoi/merge.py:213-220 | a closed ring loses its repeated last position; an open one raises "LineString must be closed." |
| Rings.CloseRing | geojson_aoi/merge.py:228-230 | a non-empty ring comes back closed, either unchanged or with its first position appended; an empty one raises |
| Rings.CloseRingIdempotent | geojson_aoi/merge.py:228-230 | closing a closed ring changes nothing |
| Rings.ShapePathOfClosedPath | geojson_aoi/merge.py:213-230 | closing an open path and then taking its shape path gives the path back |
| Rings.ClosedPathOfShapePath | geojson_aoi/merge.py:213-230 | taking a closed ring's shape path and closing it gives the ring back |
| Rings.CloseRings | geojson_aoi/merge.py:228-230 | every ring of a shape closed in turn, one result per ring, stopping at the first empty ring |
| Rings.CloseRingsPointwise | geojson_aoi/merge.py:228-230 | a shape closes exactly when no ring is empty, ring by ring |
| Rings.CloseRingsIdempotent | geojson_aoi/merge.py:226-230 | closing a shape twice is closing it once |
| Rings.MultiPolygonFromShapes | geojson_aoi/merge.py:223-240 | the loops compute `multi_polygon_from_shapes` |
| Rings.CloseShapeRings | geojson_aoi/merge.py:228-230 | the inner loop closes the shape's rings one by one, as `CloseRings` does, and raises on the first empty ring |
| Rings.ShapePaths | geojson_aoi/merge.py:251-253 | the `subject` list: one shape path per ring, in order, stopping at the first open ring |
| Rings.UnaryUnionRings | geojson_aoi/merge.py:243-268 | merge.py's `_create_unary_union`: the shape paths of every ring of every input, its unused `fill_rule` with the errors it can raise, and the one-shape collection `multi_polygon_from_shapes` builds from them |
| Rings.ShapePathsPointwise | geojson_aoi/merge.py:251-253 | each subject path is that ring's shape path |
| Rings.UnaryUnionRingsShape | geojson_aoi/merge.py:243-268 | the result is one Feature whose rings are all input rings, in order, each closed and equal to its input or its input minus the last position |
| Rings.UnaryUnionOfOnePointRing | geojson_aoi/merge.py:213-268 | a one-position ring counts as closed and leaves an empty shape path; closing that path again reads `ring[0]` of an empty list and raises IndexError |
| Rings.CreateUnaryUnion | geojson_aoi/merge.py:243-268 | the loops compute `_create_unary_union` |
| Merge.OrientedAsWritten | geojson_aoi/parser.py:336-348 | lines 336-348 as written: the exteriors collected from the features, each passed bare to `_ensure_right_hand_rule` |
| Merge.CollectPolygons | geojson_aoi/parser.py:339-346 | the collecting loop: the exterior of every Polygon and of every member of every MultiPolygon, in order, other types skipped |
| Merge.AsWrittenRejectsOrdinaryRing | geojson_aoi/parser.py:348 | as written, a bare ring whose first position does not start with a list makes `_ensure_right_hand_rule` raise its ValueError |
| Merge.OnePolygonAsWrittenRaises | geojson_aoi/parser.py:336-348 | as written, merging any one-Polygon collection whose exterior is a valid ring of `[x, y]` points raises; the corrected composition succeeds |
| Merge.SquareAsWrittenRaises | geojson_aoi/parser.py:336-348 | as written, merging the tests' closed unit square `[[0,0],[1,0],[1,1],[0,1],[0,0]]` raises; the corrected composition succeeds |
| Merge.OrientedRing | geojson_aoi/parser.py:348 | the corrected step: the exterior, oriented as a one-ring polygon, ends with a non-negative `is_clockwise` sum (clockwise unless degenerate) and is its input or its reversal |
| Merge.OrientIntended | geojson_aoi/parser.py:348 | entry i is exterior i oriented as a one-ring polygon (so with a non-negative `is_clockwise` sum, clockwise unless degenerate, and the input or its reversal); it fails exactly when some exterior fails to orient |
| Merge.OrientPolygons | geojson_aoi/parser.py:348 | the comprehension of line 348, as intended: every exterior oriented, in order |
| Merge.OrientOne | geojson_aoi/parser.py:348 | one corrected step: `_ensure_right_hand_rule([exterior])`, read as `(x, y)` points |
| Merge.AllDisjointMeaning | geojson_aoi/parser.py:350-354 | the `all(...)` holds exactly when every pair `i < j` of rings is disjoint |
| Merge.CheckAllDisjoint | geojson_aoi/parser.py:350-354 | the nested generator over pairs computes the `all(...)` test, stopping at the first non-disjoint pair or error |
| Merge.CheckDisjointFromAll | geojson_aoi/parser.py:352-353 | one ring against every later ring, stopping at the first non-disjoint one or error |
| Merge.FlattenMembers | geojson_aoi/parser.py:356 | the flattened points are exactly the points of some ring |
| Merge.UnaryUnionPoints | geojson_aoi/parser.py:308-317 | the union is the de-duplicated points of all rings, in sorted order; the points are `(x, y)` tuples, as the corrected composition reads them, since `set()` of list positions raises TypeError |
| Merge.HullPointsFromRings | geojson_aoi/parser.py:355-357 | the disjoint branch's hull holds only points of the oriented rings |
| Merge.MergedRaisesOnEmpty | geojson_aoi/parser.py:336-337 | "FeatureCollection must contain at least one feature" is raised exactly when `features` is missing or falsy |
| Merge.NoLaterEmptyMsg | geojson_aoi/parser.py:339-359 | no later step raises that message |
| Merge.AllDisjointErrors | geojson_aoi/parser.py:350-354 | the only error of the disjointness pass is the unpack error of an empty ring |
| Merge.MergedShape | geojson_aoi/parser.py:361-370 | the result is a collection of exactly one Polygon Feature with `{}` properties and one coordinates entry |
| Merge.Merged | geojson_aoi/parser.py:320-370 | the corrected `merge_polygons`: a falsy `features` raises "FeatureCollection must contain at least one feature"; otherwise the exteriors are collected and oriented, and the result is one Polygon Feature holding the convex hull of all points when every pair of rings is disjoint, else the union ring |
| Merge.MergePolygons | geojson_aoi/parser.py:320-370 | the loops compute the corrected `merge_polygons` |
| Parser.Decoded | geojson_aoi/parser.py:417-430 | other inputs raise "GeoJSON input must be a valid dict, str, or bytes", and so do bytes: the second `if` chain sends them to the `else` |
| Parser.Validated | geojson_aoi/parser.py:432-438 | passes only a dict whose `type` is one of `AllowedInputTypes` |
| Parser.ValidatedDict | geojson_aoi/parser.py:432-438 | a dict without `type` is "empty"; a `type` outside the five is refused with the type message; otherwise it passes |
| Parser.GeojsonToFeatcol | geojson_aoi/parser.py:373-401 | the result is a FeatureCollection with keys `type` and `features`, plus `crs`, copied, exactly when the input's `crs` is truthy |
| Parser.GeojsonToFeatcolFeatures | geojson_aoi/parser.py:386-395 | a FeatureCollection keeps its features (`[]` when absent); a Feature becomes `[feature]`; anything else is wrapped in one Feature with `{}` properties |
| Parser.GeojsonToFeatcolIdempotent | geojson_aoi/parser.py:373-401 | wrapping a wrapped collection gives it back |
| Parser.CrsCheck | geojson_aoi/parser.py:141-188 | `_check_crs`: the CRS warning from the name check, and the coordinate warning unless the last feature's first coordinate is a valid `[x, y]` |
| Parser.CrsWarningCases | geojson_aoi/parser.py:148-170 | without `crs` no warning; a non-dict `crs` raises; a missing properties object or name warns; otherwise it warns exactly when the name is not one of the three aliases |
| Parser.FirstLeaf | geojson_aoi/parser.py:176-179 | the descent ends at a list reached through first elements whose first element is not a list; only an empty list raises |
| Parser.FirstCoordinate | geojson_aoi/parser.py:175-179 | a non-list or empty value gives no coordinate |
| Parser.CoordinateWarningOnPolygon | geojson_aoi/parser.py:156-187 | for a last feature that is a Polygon, holes allowed, whose exterior starts at `[x, y]`, under any CRS that does not raise, the coordinate warning fires exactly when `x` is outside [-180, 180] or `y` outside [-90, 90] |
| Parser.CoordinateWarningWhenMissing | geojson_aoi/parser.py:171-187 | a last feature without geometry or coordinates makes the coordinate warning fire |
| Parser.CrsTestCase | geojson_aoi/parser.py:141-188 | on the tests' one-square collection the CRS warning fires exactly for a name outside the aliases, and the coordinate warning exactly for a longitude out of range |
| Parser.CrsTestCases | tests/test_parser.py:272-340 | CRS84 with valid coordinates gives no warning; "invalid!!" gives the CRS warning; a longitude of 600 gives the coordinate warning |
| Parser.CheckCrs | geojson_aoi/parser.py:141-188 | the descent loop computes `_check_crs`'s warnings |
| Parser.ParseAoi | geojson_aoi/parser.py:404-450 | `parse_aoi` on the decoded input: dispatch, validation, `geojson_to_featcol`, the "Failed parsing geojson" check, `_check_crs`, then the normalized collection, merged by the corrected `Merge.Merged` when `merge` is set |
| Parser.ParseAoiRefusesOtherInput | geojson_aoi/parser.py:418-430 | decodable bytes and non-str, non-dict inputs raise the input ValueError |
| Parser.ParseAoiValidatesFirst | geojson_aoi/parser.py:432-438 | emptiness and type are checked before any geometry work; a null document is empty |
| Parser.ParseAoiNoFeatures | geojson_aoi/parser.py:441-443 | a FeatureCollection without features raises "Failed parsing geojson" |
| Parser.ParseAoiResultShape | geojson_aoi/parser.py:448-450 | the result holds exactly `type` and `features`; with `merge` it holds one Feature, built by the corrected `Merge.Merged` |
| AsyncParser.CheckCrsSpec | geojson_aoi/_async/parser.py:41-85 | `check_crs`: the name check, then the coordinate check on the object's geometry, or the last feature's, drilled down through first elements |
| AsyncParser.Descend | geojson_aoi/_async/parser.py:78-80 | `coordinates[0]` is read before the length test, so an empty list raises; the descent ends at a value whose first element is not a list |
| AsyncParser.CheckCrs | geojson_aoi/_async/parser.py:41-85 | the drill-down loop computes `check_crs`'s warnings |
| AsyncParser.NamelessCrsWarnsOnlyInSync | geojson_aoi/_async/parser.py:65-66 | a CRS without properties warns in the sync check but not here |
| AsyncParser.CrsWarningsAgreeOnNamedCrs | geojson_aoi/_async/parser.py:54-66 | with a truthy name both checks warn exactly when the name is not one of the aliases |
| AsyncParser.ThreeComponentPositionWarnsOnlyInAsync | geojson_aoi/_async/parser.py:62-63 | a position with three components is valid for the sync check, invalid here |
| AsyncParser.EmptyCoordinatesRaiseOnlyInAsync | geojson_aoi/_async/parser.py:76-79 | empty coordinates mean "no coordinate" in the sync check and raise here |
| AsyncParser.CoordinateWarningOnPolygon | geojson_aoi/_async/parser.py:41-99 | under any CRS that does not raise, the CRS half is the name check and, for a Polygon geometry (holes allowed), the coordinate warning fires unless the exterior's first position is a pair in range; with a truthy `crs` this is what `strip_featcol` reports |
| AsyncParser.StripGeoms | geojson_aoi/_async/parser.py:101-135 | the branches of `strip_featcol` after its CRS check: a FeatureCollection's geometries, replaced by the members of its GeometryCollections when it has any, a Feature's geometry, a GeometryCollection's `geometries`, a MultiPolygon split into Polygons, otherwise the object itself |
| AsyncParser.StripFeatcol | geojson_aoi/_async/parser.py:88-135 | `strip_featcol`: the CRS check when `crs` is truthy, then the stripped geometries |
| AsyncParser.FeatureGeometries | geojson_aoi/_async/parser.py:104 | one geometry per feature, each that feature's `geometry` |
| AsyncParser.ScanCollectionsMeaning | geojson_aoi/_async/parser.py:108-114 | the loop sees a collection exactly when one is present; every collection's `geometries` iterates, and the gathered list is all the collections' members concatenated in order |
| AsyncParser.GatheredMembers | geojson_aoi/_async/parser.py:108-114 | a value is gathered exactly when it is a member of some GeometryCollection |
| AsyncParser.StripGeomsCases | geojson_aoi/_async/parser.py:116-133 | a Feature gives `[geometry]`; a MultiPolygon with k members gives k Polygons; other types give `[obj]` |
| AsyncParser.StripFeatureCollection | geojson_aoi/_async/parser.py:103-114 | without GeometryCollections the geometries come in feature order; with one, exactly the collections' members come out, concatenated in order |
| AsyncParser.CollectionDropsSiblings | geojson_aoi/_async/parser.py:108-114 | a Polygon beside a GeometryCollection is dropped |
| AsyncParser.StripFeatureCollectionMethod | geojson_aoi/_async/parser.py:103-114 | the comprehension and the drill-in loop compute the FeatureCollection branch |
| AsyncParser.CollectGeometries | geojson_aoi/_async/parser.py:104 | the comprehension over features |
| AsyncParser.SavedProperties | geojson_aoi/_async/parser.py:180-191 | the `properties` list: a Feature of a `valid_geoms` type saves its properties; a FeatureCollection saves those of each such feature; other types save nothing |
| AsyncParser.FeatureProperties | geojson_aoi/_async/parser.py:188-191 | at most one saved entry per feature |
| AsyncParser.FeaturePropertiesMeaning | geojson_aoi/_async/parser.py:188-191 | the loop raises exactly when some feature lacks a geometry type, or lacks properties while its type is in `valid_geoms`; otherwise it saves the qualifying features' properties in feature order, skipping the rest |
| AsyncParser.FeaturePropertiesAll | geojson_aoi/_async/parser.py:188-191 | when every feature is of a `valid_geoms` type, entry i is feature i's properties |
| AsyncParser.CollectProperties | geojson_aoi/_async/parser.py:188-191 | the loop computes the saved properties |
| AsyncParser.PolygonsOnly | geojson_aoi/_async/parser.py:197 | only input geometries of type Polygon are kept, and every one of them is |
| AsyncParser.PolygonsOnlyMeaning | geojson_aoi/_async/parser.py:197 | the comprehension raises exactly when some geometry has no `type`; otherwise it keeps the Polygons in order, repeats included, and drops the rest |
| AsyncParser.PrepareAsync | geojson_aoi/_async/parser.py:138-197 | `parse_aoi_async` up to the PostGIS call: dispatch and validation, the saved properties, the CRS warnings, and the Polygon geometries handed on |
| AsyncParser.ValidationShared | geojson_aoi/_async/parser.py:156-178 | both entry points refuse the same inputs with the same error |
| AsyncParser.FeatureMultiPolygonDropped | geojson_aoi/_async/parser.py:181-197 | a Feature holding a MultiPolygon saves its properties, but nothing reaches PostGIS |
| AsyncParser.PolygonPassedOn | geojson_aoi/_async/parser.py:193-197 | a bare Polygon is passed on unchanged, with no saved properties |
| AsyncParser.RestoredProperties | geojson_aoi/_async/parser.py:199-209 | every result feature loses `properties`; if properties were saved, feature i gets entry i, and more features than entries raise IndexError |
| AsyncParser.RestoredPropertiesMeaning | geojson_aoi/_async/parser.py:200-209 | without saved properties every feature loses `properties`; with them, feature i gets entry i and nothing else changes; more features than entries raise |
| AsyncParser.RestoreProperties | geojson_aoi/_async/parser.py:200-209 | the pop loop and the assign loop compute the restored features |

## Left out

- File reading and JSON decoding in both `parse_aoi` variants are I/O. The input is the decoded value, with a tag saying whether it came as str, bytes, dict or something else. Undecodable text is `JsonDecodeError`.
- `warnings.warn` and `log.*` are global side effects. The two CRS checks return which warnings fire instead.
- geojson_aoi/postgis.py and the `PostGis` call in `parse_aoi_async` are left out: they generate SQL whose meaning lives in the database. PostGIS's result features are a parameter of `AsyncParser.RestoreProperties`.
- Coordinates are `real`. Floating-point rounding in the sums, crosses and comparisons is not modelled.
- `set()` in `_create_convex_hull` and in parser.py's `_create_unary_union` raises TypeError on list positions, which is what line 348 as written would hand them. The model follows the corrected composition, where positions are `(x, y)` tuples and `set()` is de-duplication. The union's points come out in sorted order where Python's order depends on hashing.
- Iterating a non-empty dict yields its keys in insertion order, which a map does not keep. The model raises TypeError there instead.
- Json.At: indexing a dict by an int gives KeyError. A dict that happens to have int keys cannot occur in decoded JSON.
- Orientation.RightHandRule: exception kinds on malformed holes are all TypeError. The exact Python kind varies with the value.
- Error messages: `_ensure_right_hand_rule`'s message is modelled without its `Got: ...` suffix. The unpack errors of `_polygons_disjoint` and `winding_order` are fixed strings.
- `Rings.Position`, a `seq<real>`, stands for `BooleanOpsCoord(coord)`. Wrapping a position in an object changes nothing that is observed.
- `fill_rule` in merge.py's `_create_unary_union` is computed, including the errors it may raise, but never used. `FillRulePositive` models it.
- merge.py's own `merge_polygons` (geojson_aoi/merge.py:8-56) is not modelled separately. It has the same defect as parser.py's on line 36. After that line it differs: it passes whole rings to `_polygons_disjoint`, flattens once, and hands plain lists to the ring-based `_create_unary_union`. Only the parser.py version, which `parse_aoi` calls, is modelled.
- In-place updates are modelled as values: `coordinates[i] = ...`, `ring.append(...)` and `feature.pop(...)`. Aliasing is not captured, for example a caller that still holds the mutated list.
- Hull.HullProperties: does not state that the hull encloses every input point, only that it is built from input points, starts at the least and holds the greatest.
- Merge.UnaryUnionPoints: the placeholder union is a de-duplicated point list. It is not a geometric union, and it is not claimed to be one.

## Findings

| source | as written | input that shows it | evidently intended | confidence | as-written member | corrected member |
|---|---|---|---|---|---|---|
| geojson_aoi/parser.py:348 (and geojson_aoi/merge.py:36) | `_ensure_right_hand_rule(polygon[0])` passes a bare exterior ring, so `coordinates[0]` is a position and the "list of [x, y] points" check raises ValueError | `parse_aoi` of the unit square `[[[0,0],[1,0],[1,1],[0,1],[0,0]]]` with `merge=True` | orient `[exterior]` as a one-ring polygon, then read its positions as `(x, y)` tuples, because list positions would make `sorted(set(points))` at geojson_aoi/parser.py:256 and `set(all_points)` at geojson_aoi/parser.py:317 raise TypeError (unhashable list); tests/test_parser.py:36-42 and 146-172 expect one merged Feature | not executed | Merge.SquareAsWrittenRaises, Merge.OnePolygonAsWrittenRaises, Merge.AsWrittenRejectsOrdinaryRing | Merge.OrientedRing, Merge.MergePolygons |
