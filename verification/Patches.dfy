/**
 Flat pieces of surface: triangles, parallelograms made of two triangles, and the six sides of a box.
 */
module Patches {
  import opened Vectors
  import opened Boxes
  import opened Clipping

  /** `p` lies in the triangle with corners `a`, `b`, `c`. */
  ghost predicate InSpan(p: Vec3, a: Vec3, b: Vec3, c: Vec3) {
    exists x, y, z :: Bary(x, y, z) && p == Mix(a, b, c, x, y, z)
  }

  // ---- parallelograms

  predicate Parallelogram(p0: Vec3, p1: Vec3, p2: Vec3, p3: Vec3) { Sub(p2, p1) == Sub(p3, p0) }

  /** The point of the parallelogram that is `s` along its first and `t` along its last edge. */
  function QuadPoint(p0: Vec3, p1: Vec3, p3: Vec3, s: real, t: real): Vec3 {
    Vec3(Quad1(p0.x, p1.x, p3.x, s, t), Quad1(p0.y, p1.y, p3.y, s, t), Quad1(p0.z, p1.z, p3.z, s, t))
  }

  function Quad1(a: real, b: real, d: real, s: real, t: real): real { a + s * (b - a) + t * (d - a) }

  lemma QuadFirst1(a: real, b: real, c: real, d: real, s: real, t: real)
    requires c - b == d - a
    ensures Quad1(a, b, d, s, t) == Mix1(a, b, c, 1.0 - s, s - t, t)
    ensures Quad1(a, b, d, s, t) == Mix1(a, c, d, 1.0 - t, s, t - s)
  {
    assert c == b + (d - a);
  }

  /** The two triangles (p0, p1, p2) and (p0, p2, p3) cover the parallelogram. */
  lemma QuadCovered(p0: Vec3, p1: Vec3, p2: Vec3, p3: Vec3, s: real, t: real)
    requires Parallelogram(p0, p1, p2, p3) && 0.0 <= s <= 1.0 && 0.0 <= t <= 1.0
    ensures InSpan(QuadPoint(p0, p1, p3, s, t), p0, p1, p2) || InSpan(QuadPoint(p0, p1, p3, s, t), p0, p2, p3)
  {
    QuadFirst1(p0.x, p1.x, p2.x, p3.x, s, t);
    QuadFirst1(p0.y, p1.y, p2.y, p3.y, s, t);
    QuadFirst1(p0.z, p1.z, p2.z, p3.z, s, t);
    if s >= t {
      assert Bary(1.0 - s, s - t, t);
    } else {
      assert Bary(1.0 - t, s, t - s);
    }
  }

  /** An upright rectangle, point by point. */
  lemma UprightPoint(a: Vec3, b: Vec3, d: Vec3, s: real, t: real)
    requires a.y == b.y && d.x == a.x && d.z == a.z
    ensures QuadPoint(a, b, d, s, t) == Vec3(a.x + s * (b.x - a.x), a.y + t * (d.y - a.y), a.z + s * (b.z - a.z))
  {
  }

  // ---- the sides of a box

  predicate OnBoundary(p: Vec3, b: Box) { Inside(p, b) && exists k | 0 <= k < 6 :: OnPlane(p, b, k) }

  /** The planes of the six sides, in the order in which `mesh_box` builds them. */
  predicate OnPlane(p: Vec3, b: Box, k: int) {
    || (k == 0 && p.z == b.max.z) || (k == 1 && p.z == b.min.z) || (k == 2 && p.x == b.max.x)
    || (k == 3 && p.x == b.min.x) || (k == 4 && p.y == b.max.y) || (k == 5 && p.y == b.min.y)
  }

  /** Where between two ends. */
  predicate Part(lo: real, hi: real, v: real, s: real) { 0.0 <= s <= 1.0 && v == lo + s * (hi - lo) }

  lemma Between(lo: real, hi: real, v: real) returns (s: real)
    requires lo <= v <= hi
    ensures Part(lo, hi, v, s) && Part(hi, lo, v, 1.0 - s)
  {
    if lo == hi {
      s := 0.0;
    } else {
      s := Fraction(v - lo, hi - lo);
    }
  }

  lemma Fraction(n: real, d: real) returns (s: real)
    requires 0.0 <= n <= d && d > 0.0
    ensures 0.0 <= s <= 1.0 && s * d == n
  {
    s := Quotient(n, d);
    if s > 1.0 { MulPositive(s - 1.0, d); }
  }

  type Quad = (int, int, int, int)

  /** The corners of the sides, as `mesh_box` names them. */
  const SIDES: seq<Quad> :=
    [(4, 5, 7, 6), (1, 0, 2, 3), (5, 1, 3, 7), (0, 4, 6, 2), (6, 7, 3, 2), (0, 1, 5, 4)]

  /** A coordinate that the first edge changes, one that the last edge changes, and one that neither does. */
  lemma QuadAxes(a: real, b: real, v: real, s: real, t: real)
    ensures Part(a, b, v, s) ==> v == Quad1(a, b, a, s, t)
    ensures Part(a, b, v, t) ==> v == Quad1(a, a, b, s, t)
    ensures Quad1(a, a, a, s, t) == a
  {
  }

  /** Every point of a side is a point of the parallelogram of its corners. */
  lemma SideIsQuad(b: Box, k: int, p: Vec3) returns (s: real, t: real)
    requires 0 <= k < 6 && Inside(p, b) && OnPlane(p, b, k)
    ensures 0.0 <= s <= 1.0 && 0.0 <= t <= 1.0
    ensures var q := SIDES[k]; p == QuadPoint(Corner(b, q.0), Corner(b, q.1), Corner(b, q.3), s, t)
  {
    var x := Between(b.min.x, b.max.x, p.x);
    var y := Between(b.min.y, b.max.y, p.y);
    var z := Between(b.min.z, b.max.z, p.z);
    s := if k == 0 || k >= 4 then x else if k == 1 then 1.0 - x else if k == 2 then 1.0 - z else z;
    t := if k < 4 then y else if k == 4 then 1.0 - z else z;
    var q := SIDES[k];
    var p0, p1, p3 := Corner(b, q.0), Corner(b, q.1), Corner(b, q.3);
    QuadAxes(p0.x, p1.x, p.x, s, t);
    QuadAxes(p0.y, p3.y, p.y, s, t);
    QuadAxes(p0.z, if k < 4 then p1.z else p3.z, p.z, s, t);
  }

  lemma SideIsParallelogram(b: Box, k: int)
    requires 0 <= k < 6
    ensures var q := SIDES[k]; Parallelogram(Corner(b, q.0), Corner(b, q.1), Corner(b, q.2), Corner(b, q.3))
    ensures var q := SIDES[k]; OnPlane(Corner(b, q.0), b, k) && OnPlane(Corner(b, q.1), b, k)
    ensures var q := SIDES[k]; OnPlane(Corner(b, q.2), b, k) && OnPlane(Corner(b, q.3), b, k)
  {
  }

  /** A triangle between points of one side stays on that side. */
  lemma SideIsFlat(b: Box, k: int, u: Vec3, v: Vec3, w: Vec3, p: Vec3)
    requires 0 <= k < 6 && Inside(u, b) && Inside(v, b) && Inside(w, b)
    requires OnPlane(u, b, k) && OnPlane(v, b, k) && OnPlane(w, b, k) && InSpan(p, u, v, w)
    ensures OnBoundary(p, b)
  {
    var x, y, z :| Bary(x, y, z) && p == Mix(u, v, w, x, y, z);
    MixBetween(u.x, v.x, w.x, x, y, z, b.min.x, b.max.x);
    MixBetween(u.y, v.y, w.y, x, y, z, b.min.y, b.max.y);
    MixBetween(u.z, v.z, w.z, x, y, z, b.min.z, b.max.z);
    MixBetween(u.x, v.x, w.x, x, y, z, Min(u.x, Min(v.x, w.x)), Max(u.x, Max(v.x, w.x)));
    MixBetween(u.y, v.y, w.y, x, y, z, Min(u.y, Min(v.y, w.y)), Max(u.y, Max(v.y, w.y)));
    MixBetween(u.z, v.z, w.z, x, y, z, Min(u.z, Min(v.z, w.z)), Max(u.z, Max(v.z, w.z)));
    assert OnPlane(p, b, k);
  }
}
