/**
 Distances between world boxes: `aabb_union`, `aabb_overlap`, `support_half`, `surface_gap`.
 */
module Gaps {
  import opened Vectors
  import opened Boxes

  function Center(b: Box): Vec3 { Mul(Add(b.min, b.max), 0.5) }

  function Size(b: Box): Vec3 { Sub(b.max, b.min) }

  /** The smallest box holding all of `boxes`, folded box by box. */
  function UnionOf(boxes: seq<Box>): Box
    requires |boxes| > 0
  {
    var last := boxes[|boxes| - 1];
    if |boxes| == 1 then last
    else var b := UnionOf(boxes[..|boxes| - 1]); Extend(Extend(b, last.min), last.max)
  }

  predicate Within(a: Box, b: Box) { Inside(a.min, b) && Inside(a.max, b) }

  /** `aabb_union`, on at least one box (the callers never pass none). */
  method AabbUnion(boxes: seq<Box>) returns (b: Box)
    requires |boxes| > 0
    requires forall i | 0 <= i < |boxes| :: Proper(boxes[i])
    ensures b == UnionOf(boxes)
    ensures forall i | 0 <= i < |boxes| :: Within(boxes[i], b)
    ensures forall c: Box | forall i | 0 <= i < |boxes| :: Within(boxes[i], c) :: Within(b, c)
  {
    b := boxes[0];
    for i := 1 to |boxes|
      invariant b == UnionOf(boxes[..i])
    {
      assert boxes[..i + 1][..i] == boxes[..i];
      b := Extend(Extend(b, boxes[i].min), boxes[i].max);
    }
    assert boxes[..|boxes|] == boxes;
    UnionLeast(boxes);
  }

  /** The union contains every box, and every box that contains them all contains the union. */
  lemma {:induction false} UnionLeast(boxes: seq<Box>)
    requires |boxes| > 0
    requires forall i | 0 <= i < |boxes| :: Proper(boxes[i])
    ensures Proper(UnionOf(boxes))
    ensures forall i | 0 <= i < |boxes| :: Within(boxes[i], UnionOf(boxes))
    ensures forall c: Box | forall i | 0 <= i < |boxes| :: Within(boxes[i], c) :: Within(UnionOf(boxes), c)
  {
    var n := |boxes| - 1;
    if n > 0 {
      var front := boxes[..n];
      UnionLeast(front);
      forall c: Box | forall i | 0 <= i < |boxes| :: Within(boxes[i], c)
        ensures Within(UnionOf(boxes), c)
      {
        assert forall i | 0 <= i < n :: front[i] == boxes[i];
        assert Within(UnionOf(front), c) && Within(boxes[n], c);
      }
      forall i | 0 <= i < |boxes| ensures Within(boxes[i], UnionOf(boxes)) {
        assert i < n ==> Within(front[i], UnionOf(front));
        assert Proper(boxes[n]);
      }
    }
  }

  function AxisOverlap(a0: real, a1: real, b0: real, b1: real): real { Min(a1, b1) - Max(a0, b0) }

  /** `aabb_overlap`: the overlap length per axis. */
  function Overlap(a: Box, b: Box): Vec3 {
    Vec3(AxisOverlap(a.min.x, a.max.x, b.min.x, b.max.x),
         AxisOverlap(a.min.y, a.max.y, b.min.y, b.max.y),
         AxisOverlap(a.min.z, a.max.z, b.min.z, b.max.z))
  }

  predicate AllPositive(o: Vec3) { o.x > 0.0 && o.y > 0.0 && o.z > 0.0 }

  function Least(o: Vec3): real { Min(o.x, Min(o.y, o.z)) }

  /** The square of a gap, which counts only on axes that do not overlap. */
  function GapSquare(o: real): (r: real)
    ensures r >= 0.0
  {
    if o <= 0.0 then SquareNonNegative(o); o * o else 0.0
  }

  function GapSquares(o: Vec3): (r: real)
    ensures r >= 0.0
  {
    GapSquare(o.x) + GapSquare(o.y) + GapSquare(o.z)
  }

  /** `surface_gap`. */
  function SurfaceGap(sqrt: real -> real, a: Box, b: Box): real {
    var o := Overlap(a, b);
    if AllPositive(o) then -Least(o) else sqrt(GapSquares(o))
  }

  predicate StrictlyInside(p: Vec3, b: Box) {
    b.min.x < p.x < b.max.x && b.min.y < p.y < b.max.y && b.min.z < p.z < b.max.z
  }

  /** The gap is negative exactly when the two boxes share an interior point. */
  lemma GapNegativeIffShared(sqrt: real -> real, a: Box, b: Box)
    requires SqrtLaw(sqrt)
    ensures SurfaceGap(sqrt, a, b) < 0.0 <==> exists p: Vec3 :: StrictlyInside(p, a) && StrictlyInside(p, b)
  {
    var o := Overlap(a, b);
    if AllPositive(o) {
      var p := Vec3((Min(a.max.x, b.max.x) + Max(a.min.x, b.min.x)) / 2.0,
                    (Min(a.max.y, b.max.y) + Max(a.min.y, b.min.y)) / 2.0,
                    (Min(a.max.z, b.max.z) + Max(a.min.z, b.min.z)) / 2.0);
      assert StrictlyInside(p, a) && StrictlyInside(p, b);
    } else {
      assert sqrt(GapSquares(o)) >= 0.0;
    }
  }

  /** Two points of two intervals, `d` apart, are at least as far apart as the intervals. */
  lemma AxisLowerBound(a0: real, a1: real, b0: real, b1: real, p: real, q: real, d: real)
    requires a0 <= p <= a1 && b0 <= q <= b1 && d == p - q
    ensures AxisBelow(AxisOverlap(a0, a1, b0, b1), d)
  {
    var o := AxisOverlap(a0, a1, b0, b1);
    SquareNonNegative(d);
    if o <= 0.0 {
      assert d >= -o || d <= o;
      if d >= -o {
        MulNonNegative(d + o, d - o);
      } else {
        MulNonNegative(-d + o, -d - o);
      }
    }
  }

  /** The closest pair of points of two intervals. */
  function AxisNearest(a0: real, a1: real, b0: real, b1: real): (pq: (real, real))
    requires a0 <= a1 && b0 <= b1
    ensures a0 <= pq.0 <= a1 && b0 <= pq.1 <= b1
    ensures var o := AxisOverlap(a0, a1, b0, b1);
            if o <= 0.0 then pq.0 - pq.1 == o || pq.0 - pq.1 == -o else pq.0 == pq.1
  {
    if a1 < b0 then (a1, b0) else if b1 < a0 then (a0, b1) else (Max(a0, b0), Max(a0, b0))
  }

  lemma AxisNearestSquare(a0: real, a1: real, b0: real, b1: real, d: real)
    requires a0 <= a1 && b0 <= b1
    requires var pq := AxisNearest(a0, a1, b0, b1); d == pq.0 - pq.1
    ensures AxisEqual(AxisOverlap(a0, a1, b0, b1), d)
  {
  }

  predicate AxisBelow(o: real, d: real) { GapSquare(o) <= d * d }

  predicate AxisEqual(o: real, d: real) { GapSquare(o) == d * d }

  lemma SumSquares(o: Vec3, d: Vec3)
    ensures AxisBelow(o.x, d.x) && AxisBelow(o.y, d.y) && AxisBelow(o.z, d.z) ==> GapSquares(o) <= Dot(d, d)
    ensures AxisEqual(o.x, d.x) && AxisEqual(o.y, d.y) && AxisEqual(o.z, d.z) ==> GapSquares(o) == Dot(d, d)
  {
  }

  lemma GapSquaresBelow(a: Box, b: Box, p: Vec3, q: Vec3, d: Vec3)
    requires Inside(p, a) && Inside(q, b) && d == Sub(p, q)
    ensures GapSquares(Overlap(a, b)) <= Dot(d, d)
  {
    AxisLowerBound(a.min.x, a.max.x, b.min.x, b.max.x, p.x, q.x, d.x);
    AxisLowerBound(a.min.y, a.max.y, b.min.y, b.max.y, p.y, q.y, d.y);
    AxisLowerBound(a.min.z, a.max.z, b.min.z, b.max.z, p.z, q.z, d.z);
    SumSquares(Overlap(a, b), d);
  }

  lemma NearestPair(a: Box, b: Box) returns (p: Vec3, q: Vec3)
    requires Proper(a) && Proper(b)
    ensures Inside(p, a) && Inside(q, b) && Dot(Sub(p, q), Sub(p, q)) == GapSquares(Overlap(a, b))
  {
    var x := AxisNearest(a.min.x, a.max.x, b.min.x, b.max.x);
    var y := AxisNearest(a.min.y, a.max.y, b.min.y, b.max.y);
    var z := AxisNearest(a.min.z, a.max.z, b.min.z, b.max.z);
    p, q := Vec3(x.0, y.0, z.0), Vec3(x.1, y.1, z.1);
    var d := Sub(p, q);
    AxisNearestSquare(a.min.x, a.max.x, b.min.x, b.max.x, d.x);
    AxisNearestSquare(a.min.y, a.max.y, b.min.y, b.max.y, d.y);
    AxisNearestSquare(a.min.z, a.max.z, b.min.z, b.max.z, d.z);
    SumSquares(Overlap(a, b), d);
  }

  /** Apart, the gap is the Euclidean distance of the boxes: no pair of points is closer, and
      some pair is exactly that far apart. */
  lemma GapIsDistance(sqrt: real -> real, a: Box, b: Box) returns (p: Vec3, q: Vec3)
    requires SqrtLaw(sqrt) && Proper(a) && Proper(b) && !AllPositive(Overlap(a, b))
    ensures Inside(p, a) && Inside(q, b) && SurfaceGap(sqrt, a, b) == Length(sqrt, Sub(p, q))
    ensures forall u, v | Inside(u, a) && Inside(v, b) :: SurfaceGap(sqrt, a, b) <= Length(sqrt, Sub(u, v))
  {
    p, q := NearestPair(a, b);
    forall u, v | Inside(u, a) && Inside(v, b)
      ensures SurfaceGap(sqrt, a, b) <= Length(sqrt, Sub(u, v))
    {
      GapSquaresBelow(a, b, u, v, Sub(u, v));
      SqrtMonotone(sqrt, GapSquares(Overlap(a, b)), Dot(Sub(u, v), Sub(u, v)));
    }
  }

  /** `support_half`: the half extent of a box along a direction. */
  function SupportHalf(b: Box, d: Vec3): real {
    var h := Mul(Size(b), 0.5);
    Abs(d.x) * h.x + Abs(d.y) * h.y + Abs(d.z) * h.z
  }

  /** The support is exact: some corner reaches that far from the centre along `d`, none farther. */
  lemma SupportExact(b: Box, d: Vec3) returns (far: Vec3)
    requires Proper(b)
    ensures Inside(far, b) && Dot(Sub(far, Center(b)), d) == SupportHalf(b, d)
    ensures forall p | Inside(p, b) :: Dot(Sub(p, Center(b)), d) <= SupportHalf(b, d)
  {
    far := Vec3(if d.x >= 0.0 then b.max.x else b.min.x,
                if d.y >= 0.0 then b.max.y else b.min.y,
                if d.z >= 0.0 then b.max.z else b.min.z);
    forall p | Inside(p, b) ensures Dot(Sub(p, Center(b)), d) <= SupportHalf(b, d) {
      SupportBounds(b, d, p);
    }
  }

  lemma SupportBounds(b: Box, d: Vec3, p: Vec3)
    requires Inside(p, b)
    ensures Dot(Sub(p, Center(b)), d) <= SupportHalf(b, d)
  {
    var h := Mul(Size(b), 0.5);
    var r := Sub(p, Center(b));
    AbsProduct(r.x, d.x, h.x);
    AbsProduct(r.y, d.y, h.y);
    AbsProduct(r.z, d.z, h.z);
  }

  lemma AbsProduct(r: real, d: real, h: real)
    requires -h <= r <= h
    ensures r * d <= Abs(d) * h
  {
    if d >= 0.0 {
      MulNonNegative(d, h - r);
    } else {
      MulNonNegative(-d, h + r);
    }
  }
}
