/**
 Unit bodies, oriented objects and their world axis-aligned boxes
 (`scene_ops.py`, the bounding-box section).
 */
module Boxes {
  import opened Vectors

  /** A closed box; the empty box does not occur, the source always folds at least one point. */
  datatype Box = Box(min: Vec3, max: Vec3)

  datatype Shape = BoxShape | Sphere | Cylinder | Cone | Capsule | Plane | Stairs

  /** An angle, given by its cosine and sine. */
  datatype Angle = Angle(c: real, s: real)

  predicate OnCircle(a: Angle) { a.c * a.c + a.s * a.s == 1.0 }

  datatype Matrix = Matrix(r0: Vec3, r1: Vec3, r2: Vec3)

  /** A scene object as far as geometry is concerned. */
  datatype Body = Body(shape: Shape, position: Vec3, rx: Angle, ry: Angle, rz: Angle, scale: Vec3)

  function UnitBounds(shape: Shape): Box {
    match shape
    case Capsule => Box(Vec3(-0.25, 0.0, -0.25), Vec3(0.25, 1.0, 0.25))
    case Plane => Box(Vec3(-0.5, 0.0, -0.5), Vec3(0.5, 0.02, 0.5))
    case _ => Box(Vec3(-0.5, 0.0, -0.5), Vec3(0.5, 1.0, 0.5))
  }

  /** three.js order XYZ: R = Rx . Ry . Rz. */
  function EulerMatrix(rx: Angle, ry: Angle, rz: Angle): Matrix {
    var (a, b) := (rx.c, rx.s);
    var (c, d) := (ry.c, ry.s);
    var (e, f) := (rz.c, rz.s);
    Matrix(Vec3(c * e, -c * f, d),
           Vec3(a * f + b * e * d, a * e - b * f * d, -b * c),
           Vec3(b * f - a * e * d, b * e + a * f * d, a * c))
  }

  function Apply(m: Matrix, v: Vec3): Vec3 { Vec3(Dot(m.r0, v), Dot(m.r1, v), Dot(m.r2, v)) }

  predicate Inside(p: Vec3, b: Box) {
    b.min.x <= p.x <= b.max.x && b.min.y <= p.y <= b.max.y && b.min.z <= p.z <= b.max.z
  }

  predicate Proper(b: Box) { b.min.x <= b.max.x && b.min.y <= b.max.y && b.min.z <= b.max.z }

  /** Corner `i` of a box: bit 0, 1, 2 of `i` picks max over min on x, y, z. */
  function Corner(b: Box, i: nat): Vec3 {
    Vec3(if i % 2 == 1 then b.max.x else b.min.x,
         if i / 2 % 2 == 1 then b.max.y else b.min.y,
         if i / 4 % 2 == 1 then b.max.z else b.min.z)
  }

  /** Where a point of the unit body ends up in the world: scale, rotate, translate. */
  function ToWorld(o: Body, v: Vec3): Vec3 {
    Add(Apply(EulerMatrix(o.rx, o.ry, o.rz), Scale(v, o.scale)), o.position)
  }

  function Extend(b: Box, p: Vec3): Box {
    Box(Vec3(Min(b.min.x, p.x), Min(b.min.y, p.y), Min(b.min.z, p.z)),
        Vec3(Max(b.max.x, p.x), Max(b.max.y, p.y), Max(b.max.z, p.z)))
  }

  /** The least box around some points, one point at a time. */
  function Hull(ps: seq<Vec3>): Box
    requires |ps| > 0
  {
    var last := ps[|ps| - 1];
    if |ps| == 1 then Box(last, last) else Extend(Hull(ps[..|ps| - 1]), last)
  }

  /** `b` is the tightest box around `ps`: it holds every point and every face touches one. */
  ghost predicate TightAround(b: Box, ps: seq<Vec3>) {
    && (forall i | 0 <= i < |ps| :: Inside(ps[i], b))
    && (exists i | 0 <= i < |ps| :: ps[i].x == b.min.x)
    && (exists i | 0 <= i < |ps| :: ps[i].x == b.max.x)
    && (exists i | 0 <= i < |ps| :: ps[i].y == b.min.y)
    && (exists i | 0 <= i < |ps| :: ps[i].y == b.max.y)
    && (exists i | 0 <= i < |ps| :: ps[i].z == b.min.z)
    && (exists i | 0 <= i < |ps| :: ps[i].z == b.max.z)
  }

  /** The eight corners of the unit body, in the world. */
  function WorldCorners(o: Body): (ps: seq<Vec3>)
    ensures |ps| == 8
  {
    seq(8, i requires 0 <= i < 8 => ToWorld(o, Corner(UnitBounds(o.shape), i)))
  }

  function Aabb(o: Body): Box { Hull(WorldCorners(o)) }

  /** `object_aabb`: fold the eight transformed corners of the unit body. */
  method ObjectAabb(o: Body) returns (b: Box)
    ensures b == Aabb(o)
    ensures TightAround(b, WorldCorners(o))
  {
    ghost var ps := WorldCorners(o);
    var w := ToWorld(o, Corner(UnitBounds(o.shape), 0));
    b := Box(w, w);
    assert ps[..1][0] == w;
    for i := 1 to 8
      invariant b == Hull(ps[..i])
    {
      w := ToWorld(o, Corner(UnitBounds(o.shape), i));
      assert ps[..i + 1][..i] == ps[..i] && ps[..i + 1][i] == w;
      b := Extend(b, w);
    }
    assert ps[..8] == ps;
    HullTight(ps);
  }

  lemma {:induction false} HullTight(ps: seq<Vec3>)
    requires |ps| > 0
    ensures TightAround(Hull(ps), ps)
  {
    var n := |ps| - 1;
    if n == 0 {
      assert ps[0].x == Hull(ps).min.x;
    } else {
      HullTight(ps[..n]);
      TightExtend(Hull(ps[..n]), ps[..n], ps[n]);
      assert ps[..n] + [ps[n]] == ps;
    }
  }

  lemma TightExtend(b: Box, ps: seq<Vec3>, w: Vec3)
    requires TightAround(b, ps)
    ensures TightAround(Extend(b, w), ps + [w])
  {
    var qs := ps + [w];
    var e := Extend(b, w);
    assert qs[|ps|] == w;
    assert forall i | 0 <= i < |ps| :: qs[i] == ps[i];
    forall i | 0 <= i < |qs| ensures Inside(qs[i], e) {}
  }

  /** The tightest box around a set of points is unique. */
  lemma TightUnique(a: Box, b: Box, ps: seq<Vec3>)
    requires TightAround(a, ps) && TightAround(b, ps)
    ensures a == b
  {
  }

  /** A linear functional is at most as large anywhere in a box as at one of its corners. */
  lemma UpperCorner(n: Vec3, b: Box, v: Vec3) returns (i: nat)
    requires Inside(v, b)
    ensures i < 8 && Dot(n, v) <= Dot(n, Corner(b, i))
  {
    var ix := if n.x >= 0.0 then 1 else 0;
    var iy := if n.y >= 0.0 then 2 else 0;
    var iz := if n.z >= 0.0 then 4 else 0;
    i := ix + iy + iz;
    var c := Corner(b, i);
    assert c.x == if n.x >= 0.0 then b.max.x else b.min.x;
    assert c.y == if n.y >= 0.0 then b.max.y else b.min.y;
    assert c.z == if n.z >= 0.0 then b.max.z else b.min.z;
    SignedBounds(n, v, c);
  }

  lemma SignedBounds(n: Vec3, v: Vec3, c: Vec3)
    requires if n.x >= 0.0 then v.x <= c.x else c.x <= v.x
    requires if n.y >= 0.0 then v.y <= c.y else c.y <= v.y
    requires if n.z >= 0.0 then v.z <= c.z else c.z <= v.z
    ensures Dot(n, v) <= Dot(n, c)
  {
    SignedBound(n.x, v.x, c.x);
    SignedBound(n.y, v.y, c.y);
    SignedBound(n.z, v.z, c.z);
  }

  lemma SignedBound(n: real, v: real, c: real)
    requires n >= 0.0 ==> v <= c
    requires n < 0.0 ==> c <= v
    ensures n * v <= n * c
  {
  }

  /** An affine function that is non-positive at the corners of a box is so on the whole box. */
  lemma AffineOnBox(n: Vec3, k: real, b: Box, v: Vec3)
    requires Inside(v, b)
    requires forall i | 0 <= i < 8 :: Dot(n, Corner(b, i)) <= k
    ensures Dot(n, v) <= k
  {
    var i := UpperCorner(n, b, v);
  }

  /** Every point of the unit body, wherever scaling and rotation send it, stays in `object_aabb`. */
  lemma WorldInsideAabb(o: Body, v: Vec3)
    requires Inside(v, UnitBounds(o.shape))
    ensures Inside(ToWorld(o, v), Aabb(o))
  {
    var m := EulerMatrix(o.rx, o.ry, o.rz);
    var x0, x1 := RowInside(o, m.r0, v);
    var y0, y1 := RowInside(o, m.r1, v);
    var z0, z1 := RowInside(o, m.r2, v);
    HullTight(WorldCorners(o));
    assert Inside(WorldCorners(o)[x0], Aabb(o)) && Inside(WorldCorners(o)[x1], Aabb(o));
    assert Inside(WorldCorners(o)[y0], Aabb(o)) && Inside(WorldCorners(o)[y1], Aabb(o));
    assert Inside(WorldCorners(o)[z0], Aabb(o)) && Inside(WorldCorners(o)[z1], Aabb(o));
  }

  /** Along one matrix row, the image of `v` lies between the images of two corners. */
  lemma RowInside(o: Body, r: Vec3, v: Vec3) returns (i: nat, j: nat)
    requires Inside(v, UnitBounds(o.shape))
    ensures i < 8 && j < 8
    ensures Dot(r, Scale(Corner(UnitBounds(o.shape), i), o.scale)) <= Dot(r, Scale(v, o.scale))
    ensures Dot(r, Scale(v, o.scale)) <= Dot(r, Scale(Corner(UnitBounds(o.shape), j), o.scale))
  {
    var b := UnitBounds(o.shape);
    var n := Scale(r, o.scale);
    j := UpperCorner(n, b, v);
    i := UpperCorner(Mul(n, -1.0), b, v);
    DotScale(r, o.scale, v);
    DotScale(r, o.scale, Corner(b, i));
    DotScale(r, o.scale, Corner(b, j));
    DotNegate(n, v);
    DotNegate(n, Corner(b, i));
  }

  lemma DotScale(r: Vec3, s: Vec3, v: Vec3)
    ensures Dot(r, Scale(v, s)) == Dot(Scale(r, s), v)
  {
  }

  lemma DotNegate(n: Vec3, v: Vec3)
    ensures Dot(Mul(n, -1.0), v) == -Dot(n, v)
  {
  }
}
