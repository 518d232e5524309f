/**
 `unit_mesh` and the part of `collect_triangles` that puts an object's mesh into the world: the mesh of
 every shape fills exactly the unit body that `scene_ops.py` measures.
 */
module UnitMeshes {
  import opened Vectors
  import opened Boxes
  import opened Patches
  import opened Meshes
  import opened Extrusions
  import Clipping

  lemma TouchedByCorners(vs: seq<Vec3>, b: Box)
    requires AllInside(vs, b) && b.min in vs && b.max in vs
    ensures TightAround(b, vs)
  {
    var lo :| 0 <= lo < |vs| && vs[lo] == b.min;
    var hi :| 0 <= hi < |vs| && vs[hi] == b.max;
    assert vs[lo].x == b.min.x && vs[hi].x == b.max.x;
  }

  lemma BoxTight(m: Mesh, b: Box)
    requires IsBox(m, b)
    ensures TightAround(b, m.verts)
  {
    assert Corner(b, 0) == b.min && Corner(b, 7) == b.max;
    TouchedByCorners(m.verts, b);
  }

  /** Six vertices that touch the six faces make a box tight. */
  lemma TouchedBySix(vs: seq<Vec3>, b: Box, l: Vec3, r: Vec3, d: Vec3, u: Vec3, n: Vec3, f: Vec3)
    requires AllInside(vs, b)
    requires l in vs && r in vs && d in vs && u in vs && n in vs && f in vs
    requires l.x == b.min.x && r.x == b.max.x && d.y == b.min.y && u.y == b.max.y && n.z == b.min.z && f.z == b.max.z
    ensures TightAround(b, vs)
  {
    assert forall v | v in vs :: exists i :: 0 <= i < |vs| && vs[i] == v;
  }

  lemma QuarterTurns(turn: Turn, n: int)
    requires TurnLaw(turn) && n > 0 && n % 4 == 0
    ensures turn(0, n) == EAST && turn(n / 4, n) == SOUTH && turn(n / 2, n) == WEST && turn(n / 4 * 3, n) == NORTH
  {
  }

  const EAST := Angle(1.0, 0.0)
  const SOUTH := Angle(0.0, 1.0)
  const WEST := Angle(-1.0, 0.0)
  const NORTH := Angle(0.0, -1.0)

  ghost predicate HasSphere(turn: Turn, vs: seq<Vec3>) {
    forall i, j | 0 <= i <= 14 && 0 <= j <= 28 :: SpherePoint(turn, 0.5, 0.5, 28, 14, i, j) in vs
  }

  lemma SphereGrid(turn: Turn, m: Mesh)
    requires IsGrid(m, SphereLattice(turn, 0.5, 0.5, 28, 14), 14, 28)
    ensures HasSphere(turn, m.verts)
  {
    var point := SphereLattice(turn, 0.5, 0.5, 28, 14);
    forall i, j | 0 <= i <= 14 && 0 <= j <= 28 ensures SpherePoint(turn, 0.5, 0.5, 28, 14, i, j) in m.verts {
      assert point(i, j) in m.verts;
    }
  }

  /** A vertex whose two angles are quarter turns has exact coordinates. */
  lemma SphereAt(turn: Turn, vs: seq<Vec3>, i: nat, j: nat, h: real, r: real, c: real, s: real, p: Vec3)
    requires HasSphere(turn, vs) && i <= 14 && j <= 28
    requires turn(i, 28) == Angle(h, r) && turn(j, 28) == Angle(c, s)
    requires p == Vec3(0.5 * (r * c), 0.5 + 0.5 * h, 0.5 * (r * s))
    ensures p in vs
  {
    var q := SpherePoint(turn, 0.5, 0.5, 28, 14, i, j);
    assert q.x == p.x && q.y == p.y && q.z == p.z;
  }

  lemma SphereTight(turn: Turn, vs: seq<Vec3>)
    requires TurnLaw(turn) && AllInside(vs, UnitBounds(Sphere)) && HasSphere(turn, vs)
    ensures TightAround(UnitBounds(Sphere), vs)
  {
    QuarterTurns(turn, 28);
    SphereAt(turn, vs, 7, 14, 0.0, 1.0, -1.0, 0.0, Vec3(-0.5, 0.5, 0.0));
    SphereAt(turn, vs, 7, 0, 0.0, 1.0, 1.0, 0.0, Vec3(0.5, 0.5, 0.0));
    SphereAt(turn, vs, 14, 0, -1.0, 0.0, 1.0, 0.0, Vec3(0.0, 0.0, 0.0));
    SphereAt(turn, vs, 0, 0, 1.0, 0.0, 1.0, 0.0, Vec3(0.0, 1.0, 0.0));
    SphereAt(turn, vs, 7, 21, 0.0, 1.0, 0.0, -1.0, Vec3(0.0, 0.5, -0.5));
    SphereAt(turn, vs, 7, 7, 0.0, 1.0, 0.0, 1.0, Vec3(0.0, 0.5, 0.5));
    TouchedBySix(vs, UnitBounds(Sphere), Vec3(-0.5, 0.5, 0.0), Vec3(0.5, 0.5, 0.0),
                 Vec3(0.0, 0.0, 0.0), Vec3(0.0, 1.0, 0.0), Vec3(0.0, 0.5, -0.5), Vec3(0.0, 0.5, 0.5));
  }

  ghost predicate HasCapsule(turn: Turn, vs: seq<Vec3>) {
    forall i, j | 0 <= i < 18 && 0 <= j <= 24 :: CapsulePoint(turn, 0.25, 0.5, 24, 8, i, j) in vs
  }

  lemma CapsuleGrid(turn: Turn, m: Mesh)
    requires IsGrid(m, CapsuleLattice(turn, 0.25, 0.5, 24, 8), 17, 24)
    ensures HasCapsule(turn, m.verts)
  {
    var point := CapsuleLattice(turn, 0.25, 0.5, 24, 8);
    forall i, j | 0 <= i < 18 && 0 <= j <= 24 ensures CapsulePoint(turn, 0.25, 0.5, 24, 8, i, j) in m.verts {
      assert point(i, j) in m.verts;
    }
  }

  lemma CapsuleAt(turn: Turn, vs: seq<Vec3>, i: nat, j: nat, h: real, r: real, cy: real, c: real, s: real, p: Vec3)
    requires HasCapsule(turn, vs) && i < 18 && j <= 24
    requires CapsuleRow(turn, 0.25, 0.5, 8, i) == (Angle(h, r), cy) && turn(j, 24) == Angle(c, s)
    requires p == Vec3(0.25 * (r * c), cy + 0.25 * h, 0.25 * (r * s))
    ensures p in vs
  {
    var q := CapsulePoint(turn, 0.25, 0.5, 24, 8, i, j);
    assert q.x == p.x && q.y == p.y && q.z == p.z;
  }

  lemma CapsuleTight(turn: Turn, vs: seq<Vec3>)
    requires TurnLaw(turn) && AllInside(vs, UnitBounds(Capsule)) && HasCapsule(turn, vs)
    ensures TightAround(UnitBounds(Capsule), vs)
  {
    QuarterTurns(turn, 24);
    QuarterTurns(turn, 32);
    CapsuleAt(turn, vs, 8, 12, 0.0, 1.0, 0.75, -1.0, 0.0, Vec3(-0.25, 0.75, 0.0));
    CapsuleAt(turn, vs, 8, 0, 0.0, 1.0, 0.75, 1.0, 0.0, Vec3(0.25, 0.75, 0.0));
    CapsuleAt(turn, vs, 17, 0, -1.0, 0.0, 0.25, 1.0, 0.0, Vec3(0.0, 0.0, 0.0));
    CapsuleAt(turn, vs, 0, 0, 1.0, 0.0, 0.75, 1.0, 0.0, Vec3(0.0, 1.0, 0.0));
    CapsuleAt(turn, vs, 8, 18, 0.0, 1.0, 0.75, 0.0, -1.0, Vec3(0.0, 0.75, -0.25));
    CapsuleAt(turn, vs, 8, 6, 0.0, 1.0, 0.75, 0.0, 1.0, Vec3(0.0, 0.75, 0.25));
    TouchedBySix(vs, UnitBounds(Capsule), Vec3(-0.25, 0.75, 0.0), Vec3(0.25, 0.75, 0.0),
                 Vec3(0.0, 0.0, 0.0), Vec3(0.0, 1.0, 0.0), Vec3(0.0, 0.75, -0.25), Vec3(0.0, 0.75, 0.25));
  }

  ghost predicate HasRing(turn: Turn, vs: seq<Vec3>) {
    forall j | 0 <= j <= 28 :: Rim(turn, 0.5, 0.0, 28, j) in vs
  }

  lemma RingAt(turn: Turn, vs: seq<Vec3>, j: nat, t: Angle, p: Vec3)
    requires HasRing(turn, vs) && j <= 28 && turn(j, 28) == t && p == RingPoint(0.5, 0.0, t)
    ensures p in vs
  {
    assert Rim(turn, 0.5, 0.0, 28, j) in vs;
  }

  /** Cylinders and cones: a ring at the bottom and something at the top. */
  lemma RingTight(turn: Turn, vs: seq<Vec3>, top: Vec3)
    requires TurnLaw(turn) && AllInside(vs, UnitBounds(Cylinder)) && HasRing(turn, vs)
    requires top in vs && top.y == 1.0
    ensures TightAround(UnitBounds(Cylinder), vs)
  {
    QuarterTurns(turn, 28);
    RingAt(turn, vs, 14, WEST, Vec3(-0.5, 0.0, 0.0));
    RingAt(turn, vs, 0, EAST, Vec3(0.5, 0.0, 0.0));
    RingAt(turn, vs, 21, NORTH, Vec3(0.0, 0.0, -0.5));
    RingAt(turn, vs, 7, SOUTH, Vec3(0.0, 0.0, 0.5));
    TouchedBySix(vs, UnitBounds(Cylinder), Vec3(-0.5, 0.0, 0.0), Vec3(0.5, 0.0, 0.0),
                 Vec3(0.5, 0.0, 0.0), top, Vec3(0.0, 0.0, -0.5), Vec3(0.0, 0.0, 0.5));
  }

  /** The surface that the mesh of a shape has. */
  ghost predicate Drawn(turn: Turn, m: Mesh, shape: Shape) {
    match shape
    case Sphere =>
      && IsGrid(m, SphereLattice(turn, 0.5, 0.5, 28, 14), 14, 28)
      && forall v | v in m.verts :: OnSphere(v, Vec3(0.0, 0.5, 0.0), 0.5)
    case Capsule =>
      && IsGrid(m, CapsuleLattice(turn, 0.25, 0.5, 24, 8), 17, 24)
      && forall v | v in m.verts :: OnCapsule(v, 0.25, 0.5)
    case Cylinder => IsCylinder(m, turn, 0.5, 0.0, 1.0, 28)
    case Cone => IsCone(m, turn, 0.5, 0.0, 1.0, 28)
    case Stairs => IsStairs(m, 5)
    case Plane => IsBox(m, UnitBounds(Plane))
    case BoxShape => IsBox(m, UnitBounds(BoxShape))
  }

  ghost predicate Matches(turn: Turn, m: Mesh, shape: Shape) {
    Fits(m, UnitBounds(shape)) && |m.faces| > 0 && (TurnLaw(turn) ==> TightAround(UnitBounds(shape), m.verts))
  }

  method UnitSphere(turn: Turn) returns (m: Mesh)
    requires CircleLaw(turn)
    ensures Matches(turn, m, Sphere) && Drawn(turn, m, Sphere)
  {
    m := MeshSphere(turn, 0.5, 0.5, 28, 14);
    SphereGrid(turn, m);
    if TurnLaw(turn) { SphereTight(turn, m.verts); }
  }

  method UnitCapsule(turn: Turn) returns (m: Mesh)
    requires CircleLaw(turn)
    ensures Matches(turn, m, Capsule) && Drawn(turn, m, Capsule)
  {
    m := MeshCapsule(turn, 0.25, 0.5, 24, 8);
    CapsuleGrid(turn, m);
    if TurnLaw(turn) { CapsuleTight(turn, m.verts); }
  }

  method UnitCylinder(turn: Turn) returns (m: Mesh)
    requires CircleLaw(turn)
    ensures Matches(turn, m, Cylinder) && Drawn(turn, m, Cylinder)
  {
    m := MeshCylinder(turn, 0.5, 1.0, 0.0, 28);
    assert HasRing(turn, m.verts);
    if TurnLaw(turn) { RingTight(turn, m.verts, Vec3(0.0, 1.0, 0.0)); }
  }

  method UnitCone(turn: Turn) returns (m: Mesh)
    requires CircleLaw(turn)
    ensures Matches(turn, m, Cone) && Drawn(turn, m, Cone)
  {
    m := MeshCone(turn, 0.5, 1.0, 0.0, 28);
    assert HasRing(turn, m.verts);
    if TurnLaw(turn) { RingTight(turn, m.verts, Vec3(0.0, 1.0, 0.0)); }
  }

  method UnitBox(h: real, shape: Shape) returns (m: Mesh)
    requires h >= 0.0 && UnitBounds(shape) == Box(Vec3(-0.5, 0.0, -0.5), Vec3(0.5, h, 0.5))
    ensures IsBox(m, UnitBounds(shape)) && TightAround(UnitBounds(shape), m.verts) && |m.faces| > 0
  {
    m := MeshBox(1.0, h, 1.0, 0.0);
    BoxTight(m, UnitBounds(shape));
  }

  /** `unit_mesh`: whatever the shape, the mesh that the renderer draws has that shape's surface, and its
      bounding box is exactly the unit body that `object_aabb` measures. */
  method UnitMesh(turn: Turn, shape: Shape) returns (m: Mesh)
    requires CircleLaw(turn)
    ensures Matches(turn, m, shape) && Drawn(turn, m, shape)
  {
    match shape {
      case Sphere => m := UnitSphere(turn);
      case Cylinder => m := UnitCylinder(turn);
      case Cone => m := UnitCone(turn);
      case Capsule => m := UnitCapsule(turn);
      case Plane => m := UnitBox(0.02, Plane);
      case Stairs => m := MeshStairs(5); TouchedByCorners(m.verts, UnitBounds(Stairs));
      case BoxShape => m := UnitBox(1.0, BoxShape);
    }
  }

  type Corners = (Vec3, Vec3, Vec3)

  /** Face `f` of the mesh, in the world. */
  function WorldFace(o: Body, m: Mesh, f: Face): Corners
    requires f.0 < |m.verts| && f.1 < |m.verts| && f.2 < |m.verts|
  {
    (ToWorld(o, m.verts[f.0]), ToWorld(o, m.verts[f.1]), ToWorld(o, m.verts[f.2]))
  }

  predicate InBox(t: Corners, b: Box) { Inside(t.0, b) && Inside(t.1, b) && Inside(t.2, b) }

  /** Triangle by triangle, the first faces of the mesh in the world. */
  ghost predicate AreWorldFaces(o: Body, m: Mesh, tris: seq<Corners>, n: nat) {
    && |tris| == n <= |m.faces| && FacesIn(m.faces, |m.verts|)
    && forall i | 0 <= i < n :: m.faces[i] in m.faces && tris[i] == WorldFace(o, m, m.faces[i])
  }

  /** The part of `collect_triangles` for one object: the triangles are the faces of its unit mesh
      put into the world, one for one, and every corner of every triangle handed to the rasteriser
      lies in that object's `object_aabb`. */
  method WorldTriangles(turn: Turn, o: Body) returns (tris: seq<Corners>, ghost m: Mesh)
    requires CircleLaw(turn)
    ensures Matches(turn, m, o.shape) && Drawn(turn, m, o.shape) && AreWorldFaces(o, m, tris, |m.faces|)
    ensures forall t | t in tris :: InBox(t, Aabb(o))
  {
    var mesh := UnitMesh(turn, o.shape);
    m := mesh;
    var world: seq<Vec3> := [];
    for i := 0 to |mesh.verts|
      invariant |world| == i
      invariant forall k | 0 <= k < i :: world[k] == ToWorld(o, mesh.verts[k]) && Inside(world[k], Aabb(o))
    {
      assert mesh.verts[i] in mesh.verts;
      WorldInsideAabb(o, mesh.verts[i]);
      world := world + [ToWorld(o, mesh.verts[i])];
    }
    tris := [];
    for i := 0 to |mesh.faces|
      invariant AreWorldFaces(o, mesh, tris, i) && forall t | t in tris :: InBox(t, Aabb(o))
    {
      var f := mesh.faces[i];
      assert f in mesh.faces;
      assert InBox((world[f.0], world[f.1], world[f.2]), Aabb(o));
      tris := tris + [(world[f.0], world[f.1], world[f.2])];
    }
  }

  // ---- the surface in the world

  ghost predicate OnTriangles(p: Vec3, tris: seq<Corners>) {
    exists k | 0 <= k < |tris| :: InSpan(p, tris[k].0, tris[k].1, tris[k].2)
  }

  lemma WorldMix(o: Body, a: Vec3, b: Vec3, c: Vec3, x: real, y: real, z: real)
    requires x + y + z == 1.0
    ensures ToWorld(o, Clipping.Mix(a, b, c, x, y, z))
         == Clipping.Mix(ToWorld(o, a), ToWorld(o, b), ToWorld(o, c), x, y, z)
  {
    var m := EulerMatrix(o.rx, o.ry, o.rz);
    RowMix(m.r0, o.scale, o.position.x, a, b, c, x, y, z);
    RowMix(m.r1, o.scale, o.position.y, a, b, c, x, y, z);
    RowMix(m.r2, o.scale, o.position.z, a, b, c, x, y, z);
  }

  lemma RowMix(r: Vec3, s: Vec3, t: real, a: Vec3, b: Vec3, c: Vec3, x: real, y: real, z: real)
    requires x + y + z == 1.0
    ensures Dot(r, Scale(Clipping.Mix(a, b, c, x, y, z), s)) + t
         == Clipping.Mix1(Dot(r, Scale(a, s)) + t, Dot(r, Scale(b, s)) + t, Dot(r, Scale(c, s)) + t, x, y, z)
  {
    var n := Scale(r, s);
    DotScale(r, s, Clipping.Mix(a, b, c, x, y, z));
    DotScale(r, s, a);
    DotScale(r, s, b);
    DotScale(r, s, c);
    DotMix(n, a, b, c, x, y, z);
    assert t * x + t * y + t * z == t * (x + y + z);
  }

  lemma DotMix(n: Vec3, a: Vec3, b: Vec3, c: Vec3, x: real, y: real, z: real)
    ensures Dot(n, Clipping.Mix(a, b, c, x, y, z)) == Clipping.Mix1(Dot(n, a), Dot(n, b), Dot(n, c), x, y, z)
  {
  }

  /** What is handed to the rasteriser is the whole surface of the unit mesh, put into the world. */
  lemma WorldSurface(o: Body, m: Mesh, tris: seq<Corners>, p: Vec3)
    requires AreWorldFaces(o, m, tris, |m.faces|) && OnMesh(p, m)
    ensures OnTriangles(ToWorld(o, p), tris)
  {
    var k :| 0 <= k < |m.faces| && OnFace(p, m, m.faces[k]);
    var f := m.faces[k];
    var (a, b, c) := (m.verts[f.0], m.verts[f.1], m.verts[f.2]);
    var x, y, z :| Clipping.Bary(x, y, z) && p == Clipping.Mix(a, b, c, x, y, z);
    WorldMix(o, a, b, c, x, y, z);
    assert tris[k] == (ToWorld(o, a), ToWorld(o, b), ToWorld(o, c));
    assert InSpan(ToWorld(o, p), tris[k].0, tris[k].1, tris[k].2);
  }
}
