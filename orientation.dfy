/** Ring orientation and hole removal from geojson_aoi/merge.py
    (`_ensure_right_hand_rule`, `_remove_holes`; the same code is at
    geojson_aoi/parser.py:194-243). The convention is the source's own: a
    ring is "clockwise" when its cyclic edge sum is positive, the exterior
    ring is made clockwise and the holes are made not clockwise. */
module Orientation {
  import opened Json
  import opened Geometry

  const InvalidRingMsg: string := "Invalid input: coordinates[0] must be a list of [x, y] points."

  /** `_remove_holes(polygon)`: only the exterior ring is kept; an empty (or
      otherwise falsy) polygon gives an empty list. */
  function RemoveHoles(polygon: Json): (r: Result<Json>)
    ensures !Truthy(polygon) ==> r == Ok(EmptyArr)
    ensures polygon.JArr? && |polygon.items| > 0 ==> r == Ok(polygon.items[0])
  {
    if !Truthy(polygon) then Ok(EmptyArr) else At(polygon, 0)
  }

  /** How `is_clockwise` reads one entry `pt` of a ring: `pt[0]` and `pt[1]`
      must be numbers; further components are ignored. */
  function AsXY(pt: Json): Option<Point> {
    if pt.JArr? && |pt.items| >= 2
       && AsNumber(pt.items[0]).Some? && AsNumber(pt.items[1]).Some?
    then Some((AsNumber(pt.items[0]).value, AsNumber(pt.items[1]).value))
    else None
  }

  /** The points `is_clockwise` sees in `ring`, or None when it would raise.
      An empty str or dict has length 0, so the sum over it is empty. */
  function Planar(ring: Json): (r: Option<seq<Point>>)
    ensures ring.JArr? ==> (r.Some? <==> forall i :: 0 <= i < |ring.items| ==> AsXY(ring.items[i]).Some?)
    ensures ring.JArr? && r.Some? ==>
              |r.value| == |ring.items|
              && forall i :: 0 <= i < |ring.items| ==> AsXY(ring.items[i]) == Some(r.value[i])
  {
    match ring
    case JArr(items) =>
      if forall i :: 0 <= i < |items| ==> AsXY(items[i]).Some?
      then Some(seq(|items|, i requires 0 <= i < |items| => AsXY(items[i]).value))
      else None
    case JStr(s) => if s == "" then Some([]) else None
    case JObj(fields) => if fields == map[] then Some([]) else None
    case _ => None
  }

  /** `is_clockwise(ring)`: the cyclic sum over the ring is positive. */
  predicate IsClockwise(ring: seq<Point>) {
    CyclicSum(ring) > 0.0
  }

  /** `ring[::-1]` for the rings that can be clockwise (lists). */
  function ReverseRing(ring: Json): Json {
    match ring
    case JArr(items) => JArr(Reverse(items))
    case _ => ring
  }

  /** Reversing a ring reverses the points `is_clockwise` sees. */
  lemma PlanarReverse(ring: Json)
    requires Planar(ring).Some?
    ensures Planar(ReverseRing(ring)) == Some(Reverse(Planar(ring).value))
  {
    if ring.JArr? {
      var items := ring.items;
      var rev := Reverse(items);
      forall i | 0 <= i < |rev| ensures AsXY(rev[i]).Some? {
        assert rev[i] == items[|items| - 1 - i];
      }
      assert ReverseRing(ring) == JArr(rev);
      var p := Planar(ring).value;
      var q := Planar(ReverseRing(ring)).value;
      assert forall i :: 0 <= i < |q| ==> q[i] == Reverse(p)[i];
      assert q == Reverse(p);
    }
  }

  /** A ring that `is_clockwise` classifies as clockwise has a non-zero sum,
      and reversing it makes the sum non-positive; one with a negative sum
      becomes positive. */
  lemma ReverseFlips(ring: Json)
    requires Planar(ring).Some?
    ensures Planar(ReverseRing(ring)).Some?
    ensures CyclicSum(Planar(ReverseRing(ring)).value) == -CyclicSum(Planar(ring).value)
  {
    PlanarReverse(ring);
    CyclicSumReverse(Planar(ring).value);
  }

  /** The validation at the head of `_ensure_right_hand_rule`: `first` is a
      list whose entries are all lists of length 2. */
  predicate ValidExterior(first: Json) {
    first.JArr? && forall i :: 0 <= i < |first.items| ==>
      first.items[i].JArr? && |first.items[i].items| == 2
  }

  /** One hole as the loop leaves it: reversed when it is clockwise. A hole
      `is_clockwise` cannot read raises. */
  function OrientHole(hole: Json): Result<Json> {
    var pts := Planar(hole);
    if pts.None? then Err(TypeError)
    else if IsClockwise(pts.value) then Ok(ReverseRing(hole))
    else Ok(hole)
  }

  function OrientHoles(holes: seq<Json>): (r: Result<seq<Json>>)
    ensures r.Ok? ==> |r.value| == |holes|
    ensures r.Err? ==> r.error == TypeError
  {
    if |holes| == 0 then Ok([])
    else
      var before :- OrientHoles(holes[..|holes| - 1]);
      var last :- OrientHole(holes[|holes| - 1]);
      Ok(before + [last])
  }

  /** `_ensure_right_hand_rule(coordinates)` as a value: the exterior ring is
      validated, reversed unless clockwise, and every later ring is reversed
      when clockwise. The later rings are not validated. */
  function RightHandRule(coordinates: Json): Result<Json> {
    match coordinates
    case JArr(rings) =>
      if |rings| == 0 then Err(IndexError)
      else if !ValidExterior(rings[0]) then Err(ValueError(InvalidRingMsg))
      else
        var exterior := Planar(rings[0]);
        if exterior.None? then Err(TypeError)  // a component that is not a number
        else
          var ring0 := if IsClockwise(exterior.value) then rings[0] else ReverseRing(rings[0]);
          var holes :- OrientHoles(rings[1..]);
          Ok(JArr([ring0] + holes))
    case JStr(s) =>
      // `coordinates[0]` is then a one-character str, which is not a list
      if s == "" then Err(IndexError) else Err(ValueError(InvalidRingMsg))
    case JObj(_) => Err(KeyError)
    case _ => Err(TypeError)
  }

  /** Each hole is its input or its reversal, and is not clockwise after. */
  lemma {:induction false} OrientHolesProperties(holes: seq<Json>)
    requires OrientHoles(holes).Ok?
    ensures var out := OrientHoles(holes).value;
            forall i :: 0 <= i < |holes| ==>
              (out[i] == holes[i] || out[i] == ReverseRing(holes[i]))
              && Planar(out[i]).Some? && CyclicSum(Planar(out[i]).value) <= 0.0
  {
    if |holes| > 0 {
      var init := holes[..|holes| - 1];
      OrientHolesProperties(init);
      var h := holes[|holes| - 1];
      if IsClockwise(Planar(h).value) {
        ReverseFlips(h);
      }
      var out := OrientHoles(holes).value;
      assert out == OrientHoles(init).value + [OrientHole(h).value];
      forall i | 0 <= i < |holes|
        ensures (out[i] == holes[i] || out[i] == ReverseRing(holes[i]))
                && Planar(out[i]).Some? && CyclicSum(Planar(out[i]).value) <= 0.0
      {
        if i < |holes| - 1 {
          assert out[i] == OrientHoles(init).value[i] && holes[i] == init[i];
        }
      }
    }
  }

  /** Orientation: after a successful call the ring count is unchanged,
      every ring is its input or its reversal, the exterior ring has a
      non-negative sum (positive whenever its input sum was non-zero, and
      left untouched when it was already clockwise), and no hole has a
      positive sum. */
  lemma RightHandRuleOrients(coordinates: Json)
    requires RightHandRule(coordinates).Ok?
    ensures coordinates.JArr?
    ensures var rings := coordinates.items;
            var out := RightHandRule(coordinates).value;
            && out.JArr? && |out.items| == |rings| >= 1
            && (forall i :: 0 <= i < |rings| ==> out.items[i] == rings[i] || out.items[i] == ReverseRing(rings[i]))
            && Planar(rings[0]).Some? && Planar(out.items[0]).Some?
            && CyclicSum(Planar(out.items[0]).value) >= 0.0
            && (CyclicSum(Planar(rings[0]).value) != 0.0 ==> CyclicSum(Planar(out.items[0]).value) > 0.0)
            && (IsClockwise(Planar(rings[0]).value) ==> out.items[0] == rings[0])
            && (forall i :: 1 <= i < |rings| ==>
                  Planar(out.items[i]).Some? && CyclicSum(Planar(out.items[i]).value) <= 0.0)
  {
    RightHandRuleUnfold(coordinates);
    var out := RightHandRule(coordinates).value.items;
    assert out[1..] == OrientHoles(coordinates.items[1..]).value;
    OrientedRings(coordinates.items, out);
  }

  /** The orientation facts about the oriented exterior followed by the
      oriented holes, stated apart from the validation. */
  lemma OrientedRings(rings: seq<Json>, out: seq<Json>)
    requires |rings| >= 1 && Planar(rings[0]).Some? && OrientHoles(rings[1..]).Ok?
    requires |out| == |rings|
    requires out[0] == if IsClockwise(Planar(rings[0]).value) then rings[0] else ReverseRing(rings[0])
    requires out[1..] == OrientHoles(rings[1..]).value
    ensures |out| == |rings|
    ensures forall i :: 0 <= i < |rings| ==> out[i] == rings[i] || out[i] == ReverseRing(rings[i])
    ensures Planar(out[0]).Some? && CyclicSum(Planar(out[0]).value) >= 0.0
    ensures CyclicSum(Planar(rings[0]).value) != 0.0 ==> CyclicSum(Planar(out[0]).value) > 0.0
    ensures IsClockwise(Planar(rings[0]).value) ==> out[0] == rings[0]
    ensures forall i :: 1 <= i < |rings| ==> Planar(out[i]).Some? && CyclicSum(Planar(out[i]).value) <= 0.0
  {
    ExteriorOriented(rings[0]);
    OrientHolesProperties(rings[1..]);
    forall i | 1 <= i < |rings|
      ensures out[i] == rings[i] || out[i] == ReverseRing(rings[i])
      ensures Planar(out[i]).Some? && CyclicSum(Planar(out[i]).value) <= 0.0
    {
      assert out[i] == out[1..][i - 1] && rings[i] == rings[1..][i - 1];
    }
  }

  /** The exterior ring as `_ensure_right_hand_rule` leaves it: its sum is
      non-negative after, and positive unless it was zero before. */
  lemma ExteriorOriented(ring: Json)
    requires Planar(ring).Some?
    ensures var out := if IsClockwise(Planar(ring).value) then ring else ReverseRing(ring);
            && Planar(out).Some? && CyclicSum(Planar(out).value) >= 0.0
            && (CyclicSum(Planar(ring).value) != 0.0 ==> CyclicSum(Planar(out).value) > 0.0)
  {
    if !IsClockwise(Planar(ring).value) {
      ReverseFlips(ring);
    }
  }

  /** A successful call is the oriented exterior followed by the oriented
      holes. */
  lemma RightHandRuleUnfold(coordinates: Json)
    requires RightHandRule(coordinates).Ok?
    ensures coordinates.JArr? && |coordinates.items| >= 1
    ensures Planar(coordinates.items[0]).Some? && OrientHoles(coordinates.items[1..]).Ok?
    ensures var ring := coordinates.items[0];
            RightHandRule(coordinates).value
              == JArr([if IsClockwise(Planar(ring).value) then ring else ReverseRing(ring)]
                      + OrientHoles(coordinates.items[1..]).value)
  {}

  /** The validation: on a non-empty list of rings the call raises
      ValueError exactly when the first ring is not a list of 2-element
      lists. */
  lemma RightHandRuleValidates(rings: seq<Json>)
    requires |rings| > 0
    ensures RightHandRule(JArr(rings)) == Err(ValueError(InvalidRingMsg)) <==> !ValidExterior(rings[0])
  {}

  /** `_ensure_right_hand_rule`: validates, then overwrites `coordinates[0]`
      and, in a loop, each `coordinates[i]` in place. */
  method EnsureRightHandRule(coordinates: Json) returns (r: Result<Json>)
    ensures r == RightHandRule(coordinates)
  {
    if !coordinates.JArr? {
      return RightHandRule(coordinates);
    }
    var rings := coordinates.items;
    if |rings| == 0 {
      return Err(IndexError);
    }
    if !ValidExterior(rings[0]) {
      return Err(ValueError(InvalidRingMsg));
    }
    var exterior := Planar(rings[0]);
    if exterior.None? {
      return Err(TypeError);
    }
    if !IsClockwise(exterior.value) {
      rings := rings[0 := ReverseRing(rings[0])];
    }
    assert rings[1..] == coordinates.items[1..];
    r := OrientHolesInPlace(rings);
  }

  /** The loop over `range(1, len(coordinates))` of `_ensure_right_hand_rule`:
      each clockwise hole is replaced by its reversal, in place. */
  method OrientHolesInPlace(rings: seq<Json>) returns (r: Result<Json>)
    requires |rings| >= 1
    ensures r == (var holes :- OrientHoles(rings[1..]); Ok(JArr([rings[0]] + holes)))
  {
    var out := rings;
    var i := 1;
    while i < |out|
      invariant 1 <= i <= |out| == |rings|
      invariant out[0] == rings[0]
      invariant forall k :: i <= k < |out| ==> out[k] == rings[k]
      invariant OrientHoles(rings[1..i]) == Ok(out[1..i])
    {
      var oriented := OrientHole(out[i]);
      OrientHolesStep(rings, i);
      if oriented.Err? {
        return Err(oriented.error);
      }
      out := out[i := oriented.value];
      assert out[1..i + 1] == out[1..i] + [oriented.value];
      i := i + 1;
    }
    assert rings[1..i] == rings[1..];
    assert out == [rings[0]] + out[1..i];
    r := Ok(JArr(out));
  }

  /** One pass of the hole loop: the hole's error ends the whole loop, or
      its oriented form extends the prefix. */
  lemma OrientHolesStep(rings: seq<Json>, i: nat)
    requires 1 <= i < |rings| && OrientHoles(rings[1..i]).Ok?
    ensures OrientHole(rings[i]).Ok? ==>
              OrientHoles(rings[1..i + 1]) == Ok(OrientHoles(rings[1..i]).value + [OrientHole(rings[i]).value])
    ensures OrientHole(rings[i]).Err? ==> OrientHoles(rings[1..]) == Err(OrientHole(rings[i]).error)
  {
    assert rings[1..i + 1][..i - 1] == rings[1..i];
    if OrientHole(rings[i]).Err? {
      assert rings[1..][..i] == rings[1..i + 1];
      OrientHolesPrefixErr(rings[1..], i);
    }
  }

  /** A hole that raises makes the whole loop raise the same error. */
  lemma {:induction false} OrientHolesPrefixErr(holes: seq<Json>, n: nat)
    requires n <= |holes| && OrientHoles(holes[..n]).Err?
    ensures OrientHoles(holes) == OrientHoles(holes[..n])
    decreases |holes| - n
  {
    if n < |holes| {
      assert holes[..n + 1][..n] == holes[..n];
      OrientHolesPrefixErr(holes, n + 1);
    } else {
      assert holes[..n] == holes;
    }
  }
}
