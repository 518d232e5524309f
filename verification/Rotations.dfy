/**
 What `euler_matrix` (`scene_ops.py` and `render.py`) does to a vector: three turns about the axes,
 and what follows for the boxes of turned objects.
 */
module Rotations {
  import opened Vectors
  import opened Boxes
  import opened Gaps

  // ---- turns about one axis

  /** The right-handed turn about x: from y towards z. */
  function RotX(a: Angle, v: Vec3): Vec3 { Vec3(v.x, a.c * v.y - a.s * v.z, a.s * v.y + a.c * v.z) }

  /** ... about y: from z towards x. */
  function RotY(a: Angle, v: Vec3): Vec3 { Vec3(a.c * v.x + a.s * v.z, v.y, -a.s * v.x + a.c * v.z) }

  /** ... about z: from x towards y. */
  function RotZ(a: Angle, v: Vec3): Vec3 { Vec3(a.c * v.x - a.s * v.y, a.s * v.x + a.c * v.y, v.z) }

  /** The matrix turns about z, then about y, then about x. */
  lemma EulerTurns(rx: Angle, ry: Angle, rz: Angle, v: Vec3)
    ensures Apply(EulerMatrix(rx, ry, rz), v) == RotX(rx, RotY(ry, RotZ(rz, v)))
  {
    var z := RotZ(rz, v);
    var y := RotY(ry, z);
    FirstRow(ry.c, ry.s, rz.c, rz.s, v, z.x);
    SecondRow(rx.c, rx.s, ry.c, ry.s, rz.c, rz.s, v, z.x, z.y, y.z);
    ThirdRow(rx.c, rx.s, ry.c, ry.s, rz.c, rz.s, v, z.x, z.y, y.z);
  }

  lemma FirstRow(c: real, d: real, e: real, f: real, v: Vec3, zx: real)
    requires zx == e * v.x - f * v.y
    ensures Dot(Vec3(c * e, -c * f, d), v) == c * zx + d * v.z
  {
    assert c * zx == c * e * v.x - c * f * v.y;
  }

  lemma SecondRow(a: real, b: real, c: real, d: real, e: real, f: real, v: Vec3, zx: real, zy: real, yz: real)
    requires zx == e * v.x - f * v.y && zy == f * v.x + e * v.y && yz == -d * zx + c * v.z
    ensures Dot(Vec3(a * f + b * e * d, a * e - b * f * d, -b * c), v) == a * zy - b * yz
  {
    assert a * zy == a * f * v.x + a * e * v.y;
    Depth(b, c, d, e, f, v, zx, yz);
  }

  lemma ThirdRow(a: real, b: real, c: real, d: real, e: real, f: real, v: Vec3, zx: real, zy: real, yz: real)
    requires zx == e * v.x - f * v.y && zy == f * v.x + e * v.y && yz == -d * zx + c * v.z
    ensures Dot(Vec3(b * f - a * e * d, b * e + a * f * d, a * c), v) == b * zy + a * yz
  {
    assert b * zy == b * f * v.x + b * e * v.y;
    Depth(a, c, d, e, f, v, zx, yz);
  }

  lemma Depth(q: real, c: real, d: real, e: real, f: real, v: Vec3, zx: real, yz: real)
    requires zx == e * v.x - f * v.y && yz == -d * zx + c * v.z
    ensures q * yz == q * c * v.z - q * e * d * v.x + q * f * d * v.y
  {
    assert d * zx == d * e * v.x - d * f * v.y;
    assert q * yz == q * (c * v.z) - q * (d * zx);
  }

  // ---- turns keep dot products

  lemma TurnKeeps(a: Angle, p: real, q: real, u: real, v: real)
    requires OnCircle(a)
    ensures (a.c * p - a.s * q) * (a.c * u - a.s * v) + (a.s * p + a.c * q) * (a.s * u + a.c * v) == p * u + q * v
  {
    var cc, ss := a.c * a.c, a.s * a.s;
    assert (a.c * p - a.s * q) * (a.c * u - a.s * v) + (a.s * p + a.c * q) * (a.s * u + a.c * v)
        == (cc + ss) * (p * u) + (cc + ss) * (q * v);
  }

  lemma RotXKeepsDot(a: Angle, u: Vec3, v: Vec3)
    requires OnCircle(a)
    ensures Dot(RotX(a, u), RotX(a, v)) == Dot(u, v)
  {
    TurnKeeps(a, u.y, u.z, v.y, v.z);
  }

  lemma RotYKeepsDot(a: Angle, u: Vec3, v: Vec3)
    requires OnCircle(a)
    ensures Dot(RotY(a, u), RotY(a, v)) == Dot(u, v)
  {
    TurnKeeps(a, u.z, u.x, v.z, v.x);
  }

  lemma RotZKeepsDot(a: Angle, u: Vec3, v: Vec3)
    requires OnCircle(a)
    ensures Dot(RotZ(a, u), RotZ(a, v)) == Dot(u, v)
  {
    TurnKeeps(a, u.x, u.y, v.x, v.y);
  }

  /** On the circle the matrix is a rotation: dot products, so lengths and angles, are kept. */
  lemma EulerKeepsDot(rx: Angle, ry: Angle, rz: Angle, u: Vec3, v: Vec3)
    requires OnCircle(rx) && OnCircle(ry) && OnCircle(rz)
    ensures var m := EulerMatrix(rx, ry, rz); Dot(Apply(m, u), Apply(m, v)) == Dot(u, v)
  {
    calc {
      Dot(Apply(EulerMatrix(rx, ry, rz), u), Apply(EulerMatrix(rx, ry, rz), v));
      { EulerTurns(rx, ry, rz, u); EulerTurns(rx, ry, rz, v); }
      Dot(RotX(rx, RotY(ry, RotZ(rz, u))), RotX(rx, RotY(ry, RotZ(rz, v))));
      { RotXKeepsDot(rx, RotY(ry, RotZ(rz, u)), RotY(ry, RotZ(rz, v))); }
      Dot(RotY(ry, RotZ(rz, u)), RotY(ry, RotZ(rz, v)));
      { RotYKeepsDot(ry, RotZ(rz, u), RotZ(rz, v)); }
      Dot(RotZ(rz, u), RotZ(rz, v));
      { RotZKeepsDot(rz, u, v); }
      Dot(u, v);
    }
  }

  lemma EulerKeepsLength(sqrt: real -> real, rx: Angle, ry: Angle, rz: Angle, v: Vec3)
    requires OnCircle(rx) && OnCircle(ry) && OnCircle(rz)
    ensures Length(sqrt, Apply(EulerMatrix(rx, ry, rz), v)) == Length(sqrt, v)
  {
    EulerKeepsDot(rx, ry, rz, v, v);
  }

  /** Objects are scaled along their own axes, turned and then moved. */
  lemma ScaledTurnedMoved(o: Body, v: Vec3)
    ensures var s := Vec3(v.x * o.scale.x, v.y * o.scale.y, v.z * o.scale.z);
            Sub(ToWorld(o, v), o.position) == RotX(o.rx, RotY(o.ry, RotZ(o.rz, s)))
  {
    EulerTurns(o.rx, o.ry, o.rz, Scale(v, o.scale));
  }

  // ---- the box of a turned object, in closed form

  /** How far the directions `r` reach from the middle of a box of half extents `h`. */
  function Reach(r: Vec3, h: Vec3): real { Dot(Sizes(r), h) }

  function Sizes(v: Vec3): Vec3 { Vec3(Abs(v.x), Abs(v.y), Abs(v.z)) }

  /** Scaled half extents of the unit body. */
  function HalfExtents(o: Body): Vec3 { Scale(Sizes(o.scale), Mul(Size(UnitBounds(o.shape)), 0.5)) }

  lemma AbsProduct(a: real, b: real)
    ensures Abs(a * b) == Abs(a) * Abs(b)
  {
  }

  /** Three axes at once: `c` is within the reach of `mid` when it is so on every axis. */
  lemma SumReach(n: Vec3, mid: Vec3, h: Vec3, c: Vec3)
    requires AxisWithin(n.x, mid.x, h.x, c.x) && AxisWithin(n.y, mid.y, h.y, c.y) && AxisWithin(n.z, mid.z, h.z, c.z)
    ensures Dot(n, mid) - Reach(n, h) <= Dot(n, c) <= Dot(n, mid) + Reach(n, h)
  {
  }

  predicate AxisWithin(n: real, mid: real, h: real, c: real) {
    n * mid - Abs(n) * h <= n * c <= n * mid + Abs(n) * h
  }

  lemma AxisReach(n: real, lo: real, hi: real, c: real, mid: real, h: real)
    requires lo <= hi && (c == lo || c == hi) && mid == (lo + hi) * 0.5 && h == (hi - lo) * 0.5
    ensures AxisWithin(n, mid, h, c)
  {
    if c == hi {
      assert c == mid + h;
    } else {
      assert c == mid - h;
    }
  }

  /** Over the corners of a box a linear functional stays within its reach, either way of the centre. */
  lemma CornersReach(n: Vec3, b: Box, i: nat)
    requires Proper(b) && i < 8
    ensures var h := Mul(Size(b), 0.5);
            Dot(n, Center(b)) - Reach(n, h) <= Dot(n, Corner(b, i)) <= Dot(n, Center(b)) + Reach(n, h)
  {
    var c, mid, h := Corner(b, i), Center(b), Mul(Size(b), 0.5);
    AxisReach(n.x, b.min.x, b.max.x, c.x, mid.x, h.x);
    AxisReach(n.y, b.min.y, b.max.y, c.y, mid.y, h.y);
    AxisReach(n.z, b.min.z, b.max.z, c.z, mid.z, h.z);
    SumReach(n, mid, h, c);
  }

  predicate AxisAtEnd(n: real, mid: real, h: real, c: real) { n * c == n * mid + Abs(n) * h }

  lemma AxisMet(n: real, lo: real, hi: real, c: real, mid: real, h: real)
    requires c == (if n >= 0.0 then hi else lo) && mid == (lo + hi) * 0.5 && h == (hi - lo) * 0.5
    ensures AxisAtEnd(n, mid, h, c)
  {
    assert c == if n >= 0.0 then mid + h else mid - h;
  }

  lemma SumMet(n: Vec3, mid: Vec3, h: Vec3, c: Vec3)
    requires AxisAtEnd(n.x, mid.x, h.x, c.x) && AxisAtEnd(n.y, mid.y, h.y, c.y) && AxisAtEnd(n.z, mid.z, h.z, c.z)
    ensures Dot(n, c) == Dot(n, mid) + Reach(n, h)
  {
  }

  /** ... and meets the end. */
  lemma ReachMet(n: Vec3, b: Box) returns (i: nat)
    ensures i < 8 && Dot(n, Corner(b, i)) == Dot(n, Center(b)) + Reach(n, Mul(Size(b), 0.5))
  {
    var ix := if n.x >= 0.0 then 1 else 0;
    var iy := if n.y >= 0.0 then 2 else 0;
    var iz := if n.z >= 0.0 then 4 else 0;
    i := ix + iy + iz;
    var c, mid, h := Corner(b, i), Center(b), Mul(Size(b), 0.5);
    AxisMet(n.x, b.min.x, b.max.x, c.x, mid.x, h.x);
    AxisMet(n.y, b.min.y, b.max.y, c.y, mid.y, h.y);
    AxisMet(n.z, b.min.z, b.max.z, c.z, mid.z, h.z);
    SumMet(n, mid, h, c);
  }

  lemma AxisScaled(r: real, s: real, h: real, ar: real, t: real, a: real)
    requires ar == Abs(r) && t == Abs(s) && a == Abs(r * s)
    ensures a * h == ar * (t * h)
  {
    AbsProduct(r, s);
  }

  lemma SumScaled(a: Vec3, ar: Vec3, s: Vec3, h: Vec3)
    requires a.x * h.x == ar.x * (s.x * h.x) && a.y * h.y == ar.y * (s.y * h.y) && a.z * h.z == ar.z * (s.z * h.z)
    ensures Dot(a, h) == Dot(ar, Scale(s, h))
  {
  }

  lemma ReachScaled(r: Vec3, s: Vec3, h: Vec3)
    ensures Reach(Scale(r, s), h) == Reach(r, Scale(Sizes(s), h))
  {
    var a, ar, t := Sizes(Scale(r, s)), Sizes(r), Sizes(s);
    AxisScaled(r.x, s.x, h.x, ar.x, t.x, a.x);
    AxisScaled(r.y, s.y, h.y, ar.y, t.y, a.y);
    AxisScaled(r.z, s.z, h.z, ar.z, t.z, a.z);
    SumScaled(a, ar, t, h);
  }

  lemma ReachNegate(n: Vec3, h: Vec3)
    ensures Reach(Mul(n, -1.0), h) == Reach(n, h)
  {
    assert Abs(n.x * -1.0) == Abs(n.x) && Abs(n.y * -1.0) == Abs(n.y) && Abs(n.z * -1.0) == Abs(n.z);
  }

  /** A row of the matrix, over the corners of the unit body: between the two ends, and meeting both. */
  lemma RowReach(o: Body, r: Vec3, i: nat)
    requires i < 8
    ensures var b := UnitBounds(o.shape);
            var mid := Dot(r, Scale(Center(b), o.scale));
            var w := Dot(r, Scale(Corner(b, i), o.scale));
            mid - Reach(r, HalfExtents(o)) <= w <= mid + Reach(r, HalfExtents(o))
  {
    var b := UnitBounds(o.shape);
    DotScale(r, o.scale, Center(b));
    DotScale(r, o.scale, Corner(b, i));
    CornersReach(Scale(r, o.scale), b, i);
    ReachScaled(r, o.scale, Mul(Size(b), 0.5));
  }

  lemma RowMet(o: Body, r: Vec3) returns (i: nat, j: nat)
    ensures i < 8 && j < 8
    ensures var b := UnitBounds(o.shape);
            var mid := Dot(r, Scale(Center(b), o.scale));
            && Dot(r, Scale(Corner(b, i), o.scale)) == mid - Reach(r, HalfExtents(o))
            && Dot(r, Scale(Corner(b, j), o.scale)) == mid + Reach(r, HalfExtents(o))
  {
    var b := UnitBounds(o.shape);
    var n := Scale(r, o.scale);
    j := ReachMet(n, b);
    i := ReachMet(Mul(n, -1.0), b);
    ReachNegate(n, Mul(Size(b), 0.5));
    DotNegate(n, Center(b));
    DotNegate(n, Corner(b, i));
    DotScale(r, o.scale, Center(b));
    DotScale(r, o.scale, Corner(b, i));
    DotScale(r, o.scale, Corner(b, j));
    ReachScaled(r, o.scale, Mul(Size(b), 0.5));
  }

  function AabbReach(o: Body): Vec3 {
    var m, h := EulerMatrix(o.rx, o.ry, o.rz), HalfExtents(o);
    Vec3(Reach(m.r0, h), Reach(m.r1, h), Reach(m.r2, h))
  }

  /** `object_aabb` in closed form: around the image of the unit body's centre, as far each way as
      the absolute matrix sends the scaled half extents. */
  lemma AabbClosedForm(o: Body)
    ensures var c := ToWorld(o, Center(UnitBounds(o.shape)));
            Aabb(o) == Box(Sub(c, AabbReach(o)), Add(c, AabbReach(o)))
  {
    var m := EulerMatrix(o.rx, o.ry, o.rz);
    var c := ToWorld(o, Center(UnitBounds(o.shape)));
    var b := Box(Sub(c, AabbReach(o)), Add(c, AabbReach(o)));
    var ps := WorldCorners(o);
    forall i | 0 <= i < 8 ensures Inside(ps[i], b) {
      RowReach(o, m.r0, i);
      RowReach(o, m.r1, i);
      RowReach(o, m.r2, i);
    }
    var x0, x1 := RowMet(o, m.r0);
    var y0, y1 := RowMet(o, m.r1);
    var z0, z1 := RowMet(o, m.r2);
    assert ps[x0].x == b.min.x && ps[x1].x == b.max.x;
    assert ps[y0].y == b.min.y && ps[y1].y == b.max.y;
    assert ps[z0].z == b.min.z && ps[z1].z == b.max.z;
    HullTight(ps);
    TightUnique(Aabb(o), b, ps);
  }

  const STRAIGHT := Angle(1.0, 0.0)
  const QUARTER := Angle(0.0, 1.0)

  /** A quarter turn about y exchanges the x and z extents, and no others. */
  lemma QuarterTurnY(o: Body)
    requires o.rx == STRAIGHT && o.rz == STRAIGHT && o.ry == STRAIGHT
    ensures var s, t := Size(Aabb(o)), Size(Aabb(o.(ry := QUARTER)));
            t == Vec3(s.z, s.y, s.x)
    ensures Size(Aabb(o)) == Mul(HalfExtents(o), 2.0)
  {
    AabbClosedForm(o);
    AabbClosedForm(o.(ry := QUARTER));
    StraightReach(o);
  }

  lemma StraightReach(o: Body)
    requires o.rx == STRAIGHT && o.rz == STRAIGHT && o.ry == STRAIGHT
    ensures var h := HalfExtents(o);
            AabbReach(o) == h && AabbReach(o.(ry := QUARTER)) == Vec3(h.z, h.y, h.x)
  {
    var h := HalfExtents(o);
    assert EulerMatrix(o.rx, o.ry, o.rz)
        == Matrix(Vec3(1.0, 0.0, 0.0), Vec3(0.0, 1.0, 0.0), Vec3(0.0, 0.0, 1.0));
    assert EulerMatrix(o.rx, QUARTER, o.rz)
        == Matrix(Vec3(0.0, 0.0, 1.0), Vec3(0.0, 1.0, 0.0), Vec3(-1.0, 0.0, 0.0));
    AxisReaches(h);
  }

  lemma AxisReaches(h: Vec3)
    ensures Reach(Vec3(1.0, 0.0, 0.0), h) == h.x == Reach(Vec3(-1.0, 0.0, 0.0), h)
    ensures Reach(Vec3(0.0, 1.0, 0.0), h) == h.y && Reach(Vec3(0.0, 0.0, 1.0), h) == h.z
  {
  }
}
