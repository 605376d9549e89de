/** `_create_convex_hull` of geojson_aoi/merge.py:109-134 (the same code is at
    geojson_aoi/parser.py:246-270): Andrew's monotone chain over the sorted,
    de-duplicated points. */
module Hull {
  import opened Geometry

  /** Strictly increasing in Python's tuple order: sorted and without repeats. */
  predicate StrictlySorted(s: seq<Point>) {
    forall i, j :: 0 <= i < j < |s| ==> LexLess(s[i], s[j])
  }

  /** Insertion of one point into a strictly sorted sequence. */
  function Insert(s: seq<Point>, p: Point): (r: seq<Point>)
    requires StrictlySorted(s)
    ensures StrictlySorted(r)
    ensures forall q :: q in r <==> q in s || q == p
  {
    if |s| == 0 then [p]
    else if p == s[0] then s
    else if LexLess(p, s[0]) then [p] + s
    else
      var rest := Insert(s[1..], p);
      assert forall q :: q in rest ==> LexLess(s[0], q);
      [s[0]] + rest
  }

  /** `sorted(set(points))`. */
  function SortDedup(points: seq<Point>): (r: seq<Point>)
    ensures StrictlySorted(r)
    ensures forall q :: q in r <==> q in points
  {
    if |points| == 0 then []
    else Insert(SortDedup(points[..|points| - 1]), points[|points| - 1])
  }

  /** `sorted(set(points))` does not depend on how it is computed: two strictly
      sorted sequences with the same points are equal. */
  lemma {:induction false} SortedUnique(a: seq<Point>, b: seq<Point>)
    requires StrictlySorted(a) && StrictlySorted(b)
    requires forall q :: q in a <==> q in b
    ensures a == b
  {
    if |a| > 0 && |b| > 0 {
      assert a[0] == b[0] by {
        SortedHeadLeast(b, a[0]);
        SortedHeadLeast(a, b[0]);
      }
      forall q ensures q in a[1..] <==> q in b[1..] {
        if q in a[1..] {
          var i :| 1 <= i < |a| && a[i] == q;
          assert LexLess(a[0], q);
          assert q in b && q != b[0];
        }
        if q in b[1..] {
          var i :| 1 <= i < |b| && b[i] == q;
          assert LexLess(b[0], q);
          assert q in a && q != a[0];
        }
      }
      SortedUnique(a[1..], b[1..]);
      assert a == [a[0]] + a[1..] && b == [b[0]] + b[1..];
    } else {
      HasMember(a);
      HasMember(b);
    }
  }

  lemma HasMember(s: seq<Point>)
    ensures |s| > 0 ==> s[0] in s
  {}

  /** The head of a strictly sorted sequence is below every other member. */
  lemma SortedHeadLeast(s: seq<Point>, q: Point)
    requires StrictlySorted(s) && q in s
    ensures LexLessEq(s[0], q)
  {
    var i :| 0 <= i < |s| && s[i] == q;
    if i > 0 {
      assert LexLess(s[0], s[i]);
    }
  }

  /** One `for p` step: pop while the last two points and `p` do not make a
      strict left turn, then push `p`. */
  function Push(stack: seq<Point>, p: Point): seq<Point>
    decreases |stack|
  {
    if |stack| >= 2 && Cross(stack[|stack| - 2], stack[|stack| - 1], p) <= 0.0
    then Push(stack[..|stack| - 1], p)
    else stack + [p]
  }

  /** The stack after the loop over `pts`. */
  function Chain(pts: seq<Point>): seq<Point> {
    if |pts| == 0 then [] else Push(Chain(pts[..|pts| - 1]), pts[|pts| - 1])
  }

  /** Every consecutive triple of `s` turns strictly left. */
  predicate LeftTurns(s: seq<Point>) {
    forall i :: 0 <= i < |s| - 2 ==> Cross(s[i], s[i + 1], s[i + 2]) > 0.0
  }

  /** A push keeps a prefix of the stack (at least its first point), ends at
      `p` and adds only `p`. */
  lemma {:induction false} PushShape(stack: seq<Point>, p: Point)
    ensures var r := Push(stack, p);
            && 1 <= |r| <= |stack| + 1
            && r[|r| - 1] == p
            && r[..|r| - 1] == stack[..|r| - 1]
            && (|stack| >= 1 ==> |r| >= 2)
    decreases |stack|
  {
    if |stack| >= 2 && Cross(stack[|stack| - 2], stack[|stack| - 1], p) <= 0.0 {
      var init := stack[..|stack| - 1];
      PushShape(init, p);
      var r := Push(stack, p);
      assert r[..|r| - 1] == init[..|r| - 1] == stack[..|r| - 1];
    }
  }

  lemma PushMembers(stack: seq<Point>, p: Point)
    ensures var r := Push(stack, p);
            && (forall q :: q in r ==> q in stack || q == p)
            && (|stack| >= 1 ==> |r| >= 2 && r[0] == stack[0])
  {
    PushShape(stack, p);
    PrefixMembers(Push(stack, p), stack, p);
  }

  lemma PrefixMembers(r: seq<Point>, stack: seq<Point>, p: Point)
    requires 1 <= |r| <= |stack| + 1 && r[|r| - 1] == p
    requires r[..|r| - 1] == stack[..|r| - 1]
    ensures forall q :: q in r ==> q in stack || q == p
    ensures |r| >= 2 ==> r[0] == stack[0]
  {
    forall q | q in r ensures q in stack || q == p {
      var k :| 0 <= k < |r| && r[k] == q;
      if k < |r| - 1 {
        assert q == r[..|r| - 1][k] == stack[k];
      }
    }
    if |r| >= 2 {
      assert r[0] == r[..|r| - 1][0];
    }
  }

  /** A stack that turns left at every vertex still does after a push. */
  lemma {:induction false} PushLeftTurns(stack: seq<Point>, p: Point)
    requires LeftTurns(stack)
    ensures LeftTurns(Push(stack, p))
    decreases |stack|
  {
    if |stack| >= 2 && Cross(stack[|stack| - 2], stack[|stack| - 1], p) <= 0.0 {
      var init := stack[..|stack| - 1];
      assert LeftTurns(init) by {
        forall i | 0 <= i < |init| - 2 ensures Cross(init[i], init[i + 1], init[i + 2]) > 0.0 {
          assert init[i] == stack[i] && init[i + 1] == stack[i + 1] && init[i + 2] == stack[i + 2];
        }
      }
      PushLeftTurns(init, p);
    } else {
      var r := stack + [p];
      forall i | 0 <= i < |r| - 2 ensures Cross(r[i], r[i + 1], r[i + 2]) > 0.0 {
        if i < |stack| - 2 {
          assert r[i] == stack[i] && r[i + 1] == stack[i + 1] && r[i + 2] == stack[i + 2];
        }
      }
    }
  }

  /** The chain over `pts` starts at `pts[0]`, ends at the last point, holds
      only points of `pts`, and turns strictly left at every vertex. */
  lemma {:induction false} ChainProperties(pts: seq<Point>)
    ensures var c := Chain(pts);
            && (forall q :: q in c ==> q in pts)
            && LeftTurns(c)
            && (|pts| >= 1 ==> |c| >= 1 && c[0] == pts[0] && c[|c| - 1] == pts[|pts| - 1])
            && (|pts| >= 2 ==> |c| >= 2)
  {
    if |pts| > 0 {
      var init := pts[..|pts| - 1];
      var p := pts[|pts| - 1];
      ChainProperties(init);
      var c0 := Chain(init);
      PushShape(c0, p);
      PushMembers(c0, p);
      PushLeftTurns(c0, p);
      assert forall q :: q in init ==> q in pts;
    }
  }

  /** `_create_convex_hull(points)` as a value. */
  function Hull(points: seq<Point>): seq<Point> {
    var s := SortDedup(points);
    if |s| <= 1 then s
    else
      var lower := Chain(s);
      var upper := Chain(Reverse(s));
      ChainProperties(s);
      ChainProperties(Reverse(s));
      lower[..|lower| - 1] + upper[..|upper| - 1]
  }

  /** The hull: with fewer than two distinct points it is those points;
      otherwise it starts at the lexicographically smallest input point,
      passes through the largest, uses only input points, and both of its
      chains turn strictly left. */
  lemma HullProperties(points: seq<Point>)
    ensures var h := Hull(points);
            && (forall q :: q in h ==> q in points)
            && (|SortDedup(points)| <= 1 ==> h == SortDedup(points))
            && (|SortDedup(points)| >= 2 ==>
                  |h| >= 2
                  && (forall q :: q in points ==> LexLessEq(h[0], q))
                  && (exists k :: 0 <= k < |h| && forall q :: q in points ==> LexLessEq(q, h[k])))
            && LeftTurns(Chain(SortDedup(points)))
            && LeftTurns(Chain(Reverse(SortDedup(points))))
  {
    var s := SortDedup(points);
    ChainProperties(s);
    ChainProperties(Reverse(s));
    if |s| >= 2 {
      var lower := Chain(s);
      var upper := Chain(Reverse(s));
      var h := Hull(points);
      assert h == lower[..|lower| - 1] + upper[..|upper| - 1];
      ReverseElements(s);
      JoinedChainsMembers(points, lower, upper, h);
      SortedEnds(points, s);
      assert h[0] == s[0];
      assert h[|lower| - 1] == upper[0] == Reverse(s)[0] == s[|s| - 1];
    }
  }

  /** The two chains joined without their last points hold only input
      points. */
  lemma JoinedChainsMembers(points: seq<Point>, lower: seq<Point>, upper: seq<Point>, h: seq<Point>)
    requires |lower| >= 2 && |upper| >= 2
    requires forall q :: q in lower ==> q in points
    requires forall q :: q in upper ==> q in points
    requires h == lower[..|lower| - 1] + upper[..|upper| - 1]
    ensures |h| >= 2 && forall q :: q in h ==> q in points
  {
    forall q | q in h ensures q in points {
      var k :| 0 <= k < |h| && h[k] == q;
      if k < |lower| - 1 {
        assert q == lower[k] && q in lower;
      } else {
        assert q == upper[k - (|lower| - 1)] && q in upper;
      }
    }
  }

  /** A strictly sorted sequence starts at its least member and ends at its
      greatest. */
  lemma SortedEnds(points: seq<Point>, s: seq<Point>)
    requires StrictlySorted(s) && |s| >= 1
    requires forall q :: q in points <==> q in s
    ensures forall q :: q in points ==> LexLessEq(s[0], q) && LexLessEq(q, s[|s| - 1])
  {
    forall q | q in points ensures LexLessEq(s[0], q) && LexLessEq(q, s[|s| - 1]) {
      var i :| 0 <= i < |s| && s[i] == q;
      if i > 0 {
        assert LexLess(s[0], s[i]);
      }
      if i < |s| - 1 {
        assert LexLess(s[i], s[|s| - 1]);
      }
    }
  }

  /** Three distinct points on a line: the `<= 0` test pops the middle one
      from both chains, so the hull is the two end points only. */
  lemma HullOfCollinear(a: Point, b: Point, c: Point)
    requires LexLess(a, b) && LexLess(b, c) && Cross(a, b, c) == 0.0
    ensures Hull([a, b, c]) == [a, c]
  {
    var pts := [a, b, c];
    assert StrictlySorted(pts);
    SortedUnique(SortDedup(pts), pts);
    assert Reverse(pts) == [c, b, a];
    CollinearChains(a, b, c);
    assert Hull(pts) == Chain(pts)[..1] + Chain(Reverse(pts))[..1];
  }

  /** Reversing the three points negates the cross product. */
  lemma CrossReverse(a: Point, b: Point, c: Point)
    ensures Cross(c, b, a) == -Cross(a, b, c)
  {
    calc {
      Cross(c, b, a);
      (b.0 - c.0) * (a.1 - c.1) - (b.1 - c.1) * (a.0 - c.0);
      b.0 * a.1 - b.0 * c.1 - c.0 * a.1 - b.1 * a.0 + b.1 * c.0 + c.1 * a.0;
      -((b.0 - a.0) * (c.1 - a.1) - (b.1 - a.1) * (c.0 - a.0));
      -Cross(a, b, c);
    }
  }

  /** Both chains over three collinear points drop the middle one. */
  lemma CollinearChains(a: Point, b: Point, c: Point)
    requires Cross(a, b, c) == 0.0
    ensures Chain([a, b, c]) == [a, c] && Chain([c, b, a]) == [c, a]
  {
    CrossReverse(a, b, c);
    assert [a, b, c][..2] == [a, b] && [a, b][..1] == [a];
    assert Chain([a]) == Push(Chain([]), a) == [a];
    assert Chain([a, b]) == Push([a], b) == [a, b];
    assert Push([a, b], c) == Push([a], c) == [a, c];
    assert [c, b, a][..2] == [c, b] && [c, b][..1] == [c];
    assert Chain([c]) == Push(Chain([]), c) == [c];
    assert Chain([c, b]) == Push([c], b) == [c, b];
    assert Push([c, b], a) == Push([c], a) == [c, a];
  }

  /** One of the two `for p in ...` loops of `_create_convex_hull`, with its
      inner `while ...: stack.pop()` loop. */
  method BuildChain(pts: seq<Point>) returns (stack: seq<Point>)
    ensures stack == Chain(pts)
  {
    stack := [];
    var i := 0;
    while i < |pts|
      invariant 0 <= i <= |pts|
      invariant stack == Chain(pts[..i])
    {
      var p := pts[i];
      ghost var before := stack;
      while |stack| >= 2 && Cross(stack[|stack| - 2], stack[|stack| - 1], p) <= 0.0
        invariant Push(stack, p) == Push(before, p)
      {
        stack := stack[..|stack| - 1];
      }
      stack := stack + [p];
      assert pts[..i + 1][..i] == pts[..i];
      i := i + 1;
    }
    assert pts[..i] == pts;
  }

  /** `_create_convex_hull(points)`. */
  method CreateConvexHull(points: seq<Point>) returns (r: seq<Point>)
    ensures r == Hull(points)
  {
    var s := SortDedup(points);
    if |s| <= 1 {
      return s;
    }
    var lower := BuildChain(s);
    var upper := BuildChain(Reverse(s));
    ChainProperties(s);
    ChainProperties(Reverse(s));
    r := lower[..|lower| - 1] + upper[..|upper| - 1];
  }
}
