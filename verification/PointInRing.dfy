/** The even-odd test of a point against a ring of vertices, over `real`. */
module PointInRing {

  datatype Point = Point(x: real, y: real)

  const EPSILON: real := 0.000000000001

  /** One of the two vertices is above the point's height, the other is not. */
  predicate Straddles(p: Point, a: Point, b: Point) {
    (a.y > p.y) != (b.y > p.y)
  }

  /** Left of where the edge from `a` to `b` meets the point's height.  A zero denominator
      gives an infinite quotient, or none at all when the numerator is zero too. */
  predicate LeftOf(p: Point, a: Point, b: Point) {
    var num := (b.x - a.x) * (p.y - a.y);
    var den := b.y - a.y + EPSILON;
    if den == 0.0 then num > 0.0 else p.x < num / den + a.x
  }

  predicate Crosses(p: Point, a: Point, b: Point) {
    Straddles(p, a, b) && LeftOf(p, a, b)
  }

  // ---------- the reference: parity of a chain of edges ----------

  /** Whether a walk that starts at `from` and visits `path` crosses the ray an odd number of times. */
  function OddCrossings(p: Point, from: Point, path: seq<Point>): bool
    decreases |path|
  {
    if path == [] then false
    else Crosses(p, path[0], from) != OddCrossings(p, path[0], path[1..])
  }

  /** The closed walk around a ring, from its last vertex. */
  function Inside(p: Point, ring: seq<Point>): bool {
    |ring| >= 3 && OddCrossings(p, ring[|ring| - 1], ring)
  }

  method PointInRing(p: Point, ring: seq<Point>) returns (inside: bool)
    ensures inside == Inside(p, ring)
  {
    if |ring| < 3 {
      return false;
    }
    inside := false;
    var j := |ring| - 1;
    for i := 0 to |ring|
      invariant j == if i == 0 then |ring| - 1 else i - 1
      invariant Inside(p, ring) == (inside != OddCrossings(p, ring[j], ring[i..]))
    {
      assert ring[i..][1..] == ring[i + 1..];
      if Crosses(p, ring[i], ring[j]) {
        inside := !inside;
      }
      j := i;
    }
  }

  // ---------- the curve, not its listing ----------

  lemma {:induction false} OddSplits(p: Point, from: Point, s: seq<Point>, t: seq<Point>)
    ensures OddCrossings(p, from, s + t) ==
            (OddCrossings(p, from, s) != OddCrossings(p, if s == [] then from else s[|s| - 1], t))
    decreases |s|
  {
    if s == [] {
      assert s + t == t;
    } else {
      assert (s + t)[1..] == s[1..] + t;
      OddSplits(p, s[0], s[1..], t);
    }
  }

  /** MAIN RESULT.  Starting the listing at another vertex never changes the answer. */
  lemma RotationInvariant(p: Point, ring: seq<Point>, k: nat)
    requires k <= |ring|
    ensures Inside(p, ring[k..] + ring[..k]) == Inside(p, ring)
  {
    if |ring| >= 3 && 0 < k < |ring| {
      var s, t := ring[..k], ring[k..];
      assert ring == s + t;
      OddSplits(p, t[|t| - 1], s, t);
      OddSplits(p, s[|s| - 1], t, s);
    } else {
      assert k == 0 ==> ring[k..] + ring[..k] == ring;
      assert k == |ring| ==> ring[k..] + ring[..k] == ring;
    }
  }

  /** MAIN RESULT.  Listing the first vertex again at the end changes the answer for no point
      if the ring has three vertices or more (or just one).  For two vertices it changes it
      exactly if the two directions of the one edge disagree about the point. */
  lemma ClosingVertex(p: Point, ring: seq<Point>)
    requires ring != []
    ensures (Inside(p, ring + [ring[0]]) == Inside(p, ring)) <==>
            (|ring| == 2 ==> Crosses(p, ring[0], ring[1]) == Crosses(p, ring[1], ring[0]))
  {
    var closed := ring + [ring[0]];
    if |ring| >= 2 {
      var last := ring[|ring| - 1];
      assert !Crosses(p, ring[0], ring[0]);
      OddSplits(p, ring[0], ring, [ring[0]]);
      assert OddCrossings(p, ring[0], ring) == OddCrossings(p, ring[0], ring[1..]);
      assert OddCrossings(p, last, [ring[0]]) == Crosses(p, ring[0], last);
      assert OddCrossings(p, last, ring) == (Crosses(p, ring[0], last) != OddCrossings(p, ring[0], ring[1..]));
      if |ring| == 2 {
        assert ring[1..] == [ring[1]];
      }
    }
  }

  /** Two vertices and a point for which closing the listing does change the answer: the two
      directions of an edge are not symmetric. */
  lemma ClosingTwoVerticesMatters()
    ensures var ring := [Point(0.0, 0.0), Point(1.0, EPSILON)];
            var p := Point(0.5, 0.0);
            Inside(p, ring + [ring[0]]) && !Inside(p, ring)
  {
    var a, b, p := Point(0.0, 0.0), Point(1.0, EPSILON), Point(0.5, 0.0);
    assert !Crosses(p, a, b) && Crosses(p, b, a) by {
      assert (a.x - b.x) * (p.y - b.y) == EPSILON;
    }
    ClosingVertex(p, [a, b]);
  }

  // ---------- how often the curve passes the point's height ----------

  function Straddling(p: Point, from: Point, path: seq<Point>): nat
    decreases |path|
  {
    if path == [] then 0
    else (if Straddles(p, path[0], from) then 1 else 0) + Straddling(p, path[0], path[1..])
  }

  lemma {:induction false} StraddlingParity(p: Point, from: Point, path: seq<Point>)
    ensures var end := if path == [] then from else path[|path| - 1];
            (Straddling(p, from, path) % 2 == 1) <==> Straddles(p, end, from)
    decreases |path|
  {
    if path != [] {
      StraddlingParity(p, path[0], path[1..]);
    }
  }

  /** A closed curve passes any height an even number of times. */
  lemma ClosedCurveIsEven(p: Point, ring: seq<Point>)
    requires ring != []
    ensures Straddling(p, ring[|ring| - 1], ring) % 2 == 0
  {
    StraddlingParity(p, ring[|ring| - 1], ring);
  }

  /** Counting crossings on the left and on the right of the point gives the same parity, so
      the test does not depend on the side to which the ray is cast. */
  function OddPassings(p: Point, from: Point, path: seq<Point>): bool
    decreases |path|
  {
    if path == [] then false
    else (Straddles(p, path[0], from) && !LeftOf(p, path[0], from)) != OddPassings(p, path[0], path[1..])
  }

  lemma {:induction false} BothSidesAddUp(p: Point, from: Point, path: seq<Point>)
    ensures (OddCrossings(p, from, path) != OddPassings(p, from, path)) <==> Straddling(p, from, path) % 2 == 1
    decreases |path|
  {
    if path != [] {
      BothSidesAddUp(p, path[0], path[1..]);
    }
  }

  lemma EitherRayWillDo(p: Point, ring: seq<Point>)
    requires |ring| >= 3
    ensures Inside(p, ring) == OddPassings(p, ring[|ring| - 1], ring)
  {
    BothSidesAddUp(p, ring[|ring| - 1], ring);
    ClosedCurveIsEven(p, ring);
  }

  /** A point below every vertex, or level with or above every vertex, is outside. */
  lemma OutOfHeightIsOutside(p: Point, ring: seq<Point>)
    requires (forall v :: v in ring ==> p.y < v.y) || (forall v :: v in ring ==> v.y <= p.y)
    ensures !Inside(p, ring)
  {
    if |ring| >= 3 {
      NothingStraddles(p, ring[|ring| - 1], ring);
    }
  }

  lemma {:induction false} NothingStraddles(p: Point, from: Point, path: seq<Point>)
    requires (p.y < from.y && forall v :: v in path ==> p.y < v.y)
             || (from.y <= p.y && forall v :: v in path ==> v.y <= p.y)
    ensures !OddCrossings(p, from, path)
    decreases |path|
  {
    if path != [] {
      NothingStraddles(p, path[0], path[1..]);
    }
  }

  /** A point left of all its crossings is outside, however the curve winds. */
  lemma FarLeftIsOutside(p: Point, ring: seq<Point>)
    requires forall a, b :: a in ring && b in ring && Straddles(p, a, b) ==> LeftOf(p, a, b)
    ensures !Inside(p, ring)
  {
    if |ring| >= 3 {
      NoPassings(p, ring[|ring| - 1], ring, ring);
      EitherRayWillDo(p, ring);
    }
  }

  lemma {:induction false} NoPassings(p: Point, from: Point, path: seq<Point>, ring: seq<Point>)
    requires forall a, b :: a in ring && b in ring && Straddles(p, a, b) ==> LeftOf(p, a, b)
    requires from in ring && forall v :: v in path ==> v in ring
    ensures !OddPassings(p, from, path)
    decreases |path|
  {
    if path != [] {
      NoPassings(p, path[0], path[1..], ring);
    }
  }

  // ---------- what a crossing is, without the division ----------

  lemma Divide(x: real, num: real, den: real)
    requires den != 0.0
    ensures den > 0.0 ==> (x < num / den <==> x * den < num)
    ensures den < 0.0 ==> (x < num / den <==> x * den > num)
  {
    var q := num / den;
    assert q * den == num;
    if x < q {
      Scale(q - x, den);
      assert (q - x) * den == num - x * den;
    } else if q < x {
      Scale(x - q, den);
      assert (x - q) * den == x * den - num;
    } else {
      assert x * den == num;
    }
  }

  lemma Scale(gap: real, den: real)
    requires gap > 0.0
    ensures den > 0.0 ==> gap * den > 0.0
    ensures den < 0.0 ==> gap * den < 0.0
  {
  }

  /** An edge crosses the ray to the right of a point exactly if one end is above the point and the other is
      not, and the point is left of the edge; the edge's rise is taken 1e-12 too large. */
  lemma CrossesIff(p: Point, a: Point, b: Point)
    ensures var rise := b.y - a.y + 0.000000000001;
            var run := (b.x - a.x) * (p.y - a.y);
            Crosses(p, a, b) <==>
              && ((a.y > p.y && b.y <= p.y) || (a.y <= p.y && b.y > p.y))
              && (rise > 0.0 ==> (p.x - a.x) * rise < run)
              && (rise < 0.0 ==> (p.x - a.x) * rise > run)
              && (rise == 0.0 ==> run > 0.0)
  {
    var num, den := (b.x - a.x) * (p.y - a.y), b.y - a.y + EPSILON;
    assert den == b.y - a.y + 0.000000000001;
    if den != 0.0 {
      Divide(p.x - a.x, num, den);
      var q := num / den;
      assert p.x < q + a.x <==> p.x - a.x < q;
    }
  }

  /** MAIN RESULT.  The inside of an upright rectangle is what it should be, its left and lower sides
      included, unless it is exactly as high as the correction of the denominator. */
  lemma RectangleIsInside(p: Point, x0: real, y0: real, x1: real, y1: real)
    requires x0 < x1 && y0 < y1 && y1 - y0 != 0.000000000001
    ensures Inside(p, [Point(x0, y0), Point(x1, y0), Point(x1, y1), Point(x0, y1)]) <==>
            x0 <= p.x < x1 && y0 <= p.y < y1
  {
    var a, b, c, d := Point(x0, y0), Point(x1, y0), Point(x1, y1), Point(x0, y1);
    var ring := [a, b, c, d];
    UprightEdge(p, x1, y1, y0);
    UprightEdge(p, x0, y0, y1);
    assert !Crosses(p, b, a) && !Crosses(p, d, c);
    assert ring[1..] == [b, c, d] && [b, c, d][1..] == [c, d] && [c, d][1..] == [d] && [d][1..] == [];
    hide Crosses;
    assert OddCrossings(p, c, [d]) == Crosses(p, d, c);
    assert OddCrossings(p, b, [c, d]) == (Crosses(p, c, b) != OddCrossings(p, c, [d]));
    assert OddCrossings(p, a, [b, c, d]) == (Crosses(p, b, a) != OddCrossings(p, b, [c, d]));
    assert OddCrossings(p, d, ring) == (Crosses(p, a, d) != OddCrossings(p, a, [b, c, d]));
  }

  lemma UprightEdge(p: Point, x: real, y: real, y': real)
    requires y != y' && y' - y + 0.000000000001 != 0.0
    ensures Crosses(p, Point(x, y), Point(x, y')) <==> ((y > p.y) != (y' > p.y)) && p.x < x
  {
    var den := y' - y + EPSILON;
    assert (x - x) * (p.y - y) == 0.0;
    assert 0.0 / den == 0.0;
  }
}
