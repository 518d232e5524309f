/**
 The unit meshes of `render.py`. `turn(j, n)` is the angle of j/n of a full turn. Every builder
 promises that its vertices fill no more than the unit body that `scene_ops.py` assumes, and
 that its faces only name vertices it made.
 */
module Meshes {
  import opened Vectors
  import opened Boxes
  import opened Patches

  type Face = (nat, nat, nat)

  datatype Mesh = Mesh(verts: seq<Vec3>, faces: seq<Face>)

  type Turn = (int, int) -> Angle

  predicate AllInside(vs: seq<Vec3>, b: Box) { forall v | v in vs :: Inside(v, b) }

  predicate FacesIn(fs: seq<Face>, n: nat) { forall f | f in fs :: f.0 < n && f.1 < n && f.2 < n }

  predicate Fits(m: Mesh, b: Box) { AllInside(m.verts, b) && FacesIn(m.faces, |m.verts|) }

  // ---- the surface of a mesh

  predicate IsFace(m: Mesh, f: Face, a: Vec3, b: Vec3, c: Vec3) {
    && f.0 < |m.verts| && f.1 < |m.verts| && f.2 < |m.verts|
    && m.verts[f.0] == a && m.verts[f.1] == b && m.verts[f.2] == c
  }

  /** Some face has these corners, in this order. */
  ghost predicate HasFace(m: Mesh, a: Vec3, b: Vec3, c: Vec3) {
    exists k | 0 <= k < |m.faces| :: IsFace(m, m.faces[k], a, b, c)
  }

  ghost predicate OnFace(p: Vec3, m: Mesh, f: Face) {
    f.0 < |m.verts| && f.1 < |m.verts| && f.2 < |m.verts| && InSpan(p, m.verts[f.0], m.verts[f.1], m.verts[f.2])
  }

  /** `p` lies on some face. */
  ghost predicate OnMesh(p: Vec3, m: Mesh) { exists k | 0 <= k < |m.faces| :: OnFace(p, m, m.faces[k]) }

  /** A quad is there as its two triangles. */
  ghost predicate HasQuad(m: Mesh, p0: Vec3, p1: Vec3, p2: Vec3, p3: Vec3) {
    HasFace(m, p0, p1, p2) && HasFace(m, p0, p2, p3)
  }

  lemma FaceCovers(m: Mesh, a: Vec3, b: Vec3, c: Vec3, p: Vec3)
    requires HasFace(m, a, b, c) && InSpan(p, a, b, c)
    ensures OnMesh(p, m)
  {
    var k :| 0 <= k < |m.faces| && IsFace(m, m.faces[k], a, b, c);
    assert OnFace(p, m, m.faces[k]);
  }

  /** The two triangles of a parallelogram cover it. */
  lemma QuadOnMesh(m: Mesh, p0: Vec3, p1: Vec3, p2: Vec3, p3: Vec3, s: real, t: real)
    requires HasQuad(m, p0, p1, p2, p3) && Parallelogram(p0, p1, p2, p3) && 0.0 <= s <= 1.0 && 0.0 <= t <= 1.0
    ensures OnMesh(QuadPoint(p0, p1, p3, s, t), m)
  {
    QuadCovered(p0, p1, p2, p3, s, t);
    if InSpan(QuadPoint(p0, p1, p3, s, t), p0, p1, p2) {
      FaceCovers(m, p0, p1, p2, QuadPoint(p0, p1, p3, s, t));
    } else {
      FaceCovers(m, p0, p2, p3, QuadPoint(p0, p1, p3, s, t));
    }
  }

  /** Meshes only grow: what has been added stays. */
  predicate Grows(m: Mesh, r: Mesh) { m.verts <= r.verts && m.faces <= r.faces }

  lemma FaceStays(m: Mesh, r: Mesh, a: Vec3, b: Vec3, c: Vec3)
    requires Grows(m, r) && HasFace(m, a, b, c)
    ensures HasFace(r, a, b, c)
  {
    var k :| 0 <= k < |m.faces| && IsFace(m, m.faces[k], a, b, c);
    assert IsFace(r, r.faces[k], a, b, c);
  }

  // ---- angles

  /** Every angle it returns is on the unit circle. */
  ghost predicate CircleLaw(turn: Turn) { forall j, n :: OnCircle(turn(j, n)) }

  /** The quarter turns have their exact coordinates. */
  ghost predicate TurnLaw(turn: Turn) {
    forall n: int | n > 0 && n % 4 == 0 ::
      && turn(0, n) == Angle(1.0, 0.0)
      && turn(n / 4, n) == Angle(0.0, 1.0)
      && turn(n / 2, n) == Angle(-1.0, 0.0)
      && turn(n / 4 * 3, n) == Angle(0.0, -1.0)
  }

  predicate Symmetric(r: real, p: real) { -r <= p <= r }

  lemma CircleBounds(a: Angle)
    requires OnCircle(a)
    ensures Symmetric(1.0, a.c) && Symmetric(1.0, a.s)
  {
    SquareNonNegative(a.c);
    SquareNonNegative(a.s);
    assert a.c * a.c <= 1.0 * 1.0 && a.s * a.s <= 1.0 * 1.0;
    RootMonotone(a.c, 1.0);
    RootMonotone(-a.c, 1.0);
    RootMonotone(a.s, 1.0);
    RootMonotone(-a.s, 1.0);
  }

  lemma ScaledBounds(r: real, t: real)
    requires r >= 0.0 && Symmetric(1.0, t)
    ensures Symmetric(r, r * t)
  {
    MulNonNegative(r, 1.0 - t);
    MulNonNegative(r, 1.0 + t);
  }

  lemma ProductBounds(p: real, q: real)
    requires Symmetric(1.0, p) && Symmetric(1.0, q)
    ensures Symmetric(1.0, p * q)
  {
    if p >= 0.0 {
      ScaledBounds(p, q);
    } else {
      ScaledBounds(-p, q);
    }
  }

  function AddQuad(m: Mesh, p0: Vec3, p1: Vec3, p2: Vec3, p3: Vec3): Mesh {
    var base := |m.verts|;
    Mesh(m.verts + [p0, p1, p2, p3],
         m.faces + [(base, base + 1, base + 2), (base, base + 2, base + 3)])
  }

  lemma AddQuadFits(m: Mesh, p0: Vec3, p1: Vec3, p2: Vec3, p3: Vec3, b: Box)
    requires Fits(m, b) && Inside(p0, b) && Inside(p1, b) && Inside(p2, b) && Inside(p3, b)
    ensures Fits(AddQuad(m, p0, p1, p2, p3), b)
  {
  }

  /** The six sides as quads of corners. */
  ghost predicate HasSides(m: Mesh, b: Box, n: int) {
    forall k | 0 <= k < n <= 6 ::
      var q := SIDES[k]; HasQuad(m, Corner(b, q.0), Corner(b, q.1), Corner(b, q.2), Corner(b, q.3))
  }

  /** Every face lies on one of the sides of the box. */
  ghost predicate Flat(m: Mesh, b: Box) {
    forall f | f in m.faces :: OnSomeSide(m, b, f)
  }

  ghost predicate OnSomeSide(m: Mesh, b: Box, f: Face) {
    && f.0 < |m.verts| && f.1 < |m.verts| && f.2 < |m.verts|
    && exists k | 0 <= k < 6 ::
         OnPlane(m.verts[f.0], b, k) && OnPlane(m.verts[f.1], b, k) && OnPlane(m.verts[f.2], b, k)
  }

  /** A quad more: its corners and its two triangles are added, and nothing else. */
  method WithQuad(m: Mesh, p0: Vec3, p1: Vec3, p2: Vec3, p3: Vec3, ghost b: Box) returns (r: Mesh)
    requires Fits(m, b) && Inside(p0, b) && Inside(p1, b) && Inside(p2, b) && Inside(p3, b)
    ensures Fits(r, b) && |r.verts| == |m.verts| + 4 && |r.faces| == |m.faces| + 2 && Grows(m, r)
    ensures HasQuad(r, p0, p1, p2, p3)
    ensures IsFace(r, r.faces[|m.faces|], p0, p1, p2) && IsFace(r, r.faces[|m.faces| + 1], p0, p2, p3)
    ensures r.verts[|m.verts|..] == [p0, p1, p2, p3]
  {
    AddQuadFits(m, p0, p1, p2, p3, b);
    r := AddQuad(m, p0, p1, p2, p3);
    assert r.verts[|m.verts|] == p0 && r.verts[|m.verts| + 1] == p1;
    assert r.verts[|m.verts| + 2] == p2 && r.verts[|m.verts| + 3] == p3;
    assert IsFace(r, r.faces[|m.faces|], p0, p1, p2) && IsFace(r, r.faces[|m.faces| + 1], p0, p2, p3);
  }

  method WithSide(m: Mesh, b: Box, k: int) returns (r: Mesh)
    requires Proper(b) && 0 <= k < 6 && Fits(m, b) && HasSides(m, b, k) && Flat(m, b)
    ensures Fits(r, b) && HasSides(r, b, k + 1) && Flat(r, b) && Grows(m, r)
    ensures |r.verts| == |m.verts| + 4 && |r.faces| == |m.faces| + 2
    ensures var q := SIDES[k]; r.verts[|m.verts|..] == [Corner(b, q.0), Corner(b, q.1), Corner(b, q.2), Corner(b, q.3)]
  {
    var q := SIDES[k];
    var p0, p1, p2, p3 := Corner(b, q.0), Corner(b, q.1), Corner(b, q.2), Corner(b, q.3);
    r := WithQuad(m, p0, p1, p2, p3, b);
    SidesStay(m, r, b, k);
    SideIsParallelogram(b, k);
    forall f | f in r.faces ensures OnSomeSide(r, b, f) {
      if f in m.faces {
        assert OnSomeSide(m, b, f);
      } else {
        assert f == r.faces[|m.faces|] || f == r.faces[|m.faces| + 1];
      }
    }
  }

  lemma SidesStay(m: Mesh, r: Mesh, b: Box, k: int)
    requires Grows(m, r) && HasSides(m, b, k) && k < 6
    ensures HasSides(r, b, k)
  {
    forall l | 0 <= l < k
      ensures var q := SIDES[l]; HasQuad(r, Corner(b, q.0), Corner(b, q.1), Corner(b, q.2), Corner(b, q.3))
    {
      var q := SIDES[l];
      FaceStays(m, r, Corner(b, q.0), Corner(b, q.1), Corner(b, q.2));
      FaceStays(m, r, Corner(b, q.0), Corner(b, q.2), Corner(b, q.3));
    }
  }

  /** The surface of the mesh is the boundary of the box, no less and no more. */
  lemma BoxSurface(m: Mesh, b: Box, p: Vec3)
    requires Fits(m, b) && HasSides(m, b, 6) && Flat(m, b)
    ensures OnMesh(p, m) <==> OnBoundary(p, b)
  {
    if OnBoundary(p, b) {
      var k :| 0 <= k < 6 && OnPlane(p, b, k);
      var s, t := SideIsQuad(b, k, p);
      var q := SIDES[k];
      SideIsParallelogram(b, k);
      QuadOnMesh(m, Corner(b, q.0), Corner(b, q.1), Corner(b, q.2), Corner(b, q.3), s, t);
    } else if OnMesh(p, m) {
      var l :| 0 <= l < |m.faces| && OnFace(p, m, m.faces[l]);
      var f := m.faces[l];
      assert OnSomeSide(m, b, f);
      var k :| 0 <= k < 6 && OnPlane(m.verts[f.0], b, k) && OnPlane(m.verts[f.1], b, k) && OnPlane(m.verts[f.2], b, k);
      SideIsFlat(b, k, m.verts[f.0], m.verts[f.1], m.verts[f.2], p);
    }
  }

  /** The mesh is the boundary of the box, and its vertices are the corners. */
  ghost predicate IsBox(m: Mesh, b: Box) {
    && Fits(m, b) && (forall p :: OnMesh(p, m) <==> OnBoundary(p, b))
    && forall i | 0 <= i < 8 :: Corner(b, i) in m.verts
  }

  /** `mesh_box`. */
  method MeshBox(w: real, h: real, d: real, y0: real) returns (m: Mesh)
    requires w >= 0.0 && h >= 0.0 && d >= 0.0
    ensures |m.verts| == 24 && |m.faces| == 12
    ensures IsBox(m, Box(Vec3(-w / 2.0, y0, -d / 2.0), Vec3(w / 2.0, y0 + h, d / 2.0)))
  {
    var hx, hz, y1 := w / 2.0, d / 2.0, y0 + h;
    var b := Box(Vec3(-hx, y0, -hz), Vec3(hx, y1, hz));
    m := Mesh([], []);
    for k := 0 to 6
      invariant |m.verts| == 4 * k && |m.faces| == 2 * k
      invariant Fits(m, b) && HasSides(m, b, k) && Flat(m, b)
    {
      m := WithSide(m, b, k);
    }
    forall p ensures OnMesh(p, m) <==> OnBoundary(p, b) {
      BoxSurface(m, b, p);
    }
    SidesHaveCorners(m, b);
  }

  lemma SidesHaveCorners(m: Mesh, b: Box)
    requires HasSides(m, b, 6)
    ensures forall i | 0 <= i < 8 :: Corner(b, i) in m.verts
  {
    assert SIDES[0] == (4, 5, 7, 6) && SIDES[1] == (1, 0, 2, 3);
    assert HasQuad(m, Corner(b, 4), Corner(b, 5), Corner(b, 7), Corner(b, 6));
    assert HasQuad(m, Corner(b, 1), Corner(b, 0), Corner(b, 2), Corner(b, 3));
  }

  // ---- grids

  /** Where vertex `j` of row `i` is kept. */
  function GridAt(i: nat, j: nat, row: nat): nat { i * row + j }

  /** The two faces of cell (i, j). */
  function FirstFace(i: nat, j: nat, row: nat): Face {
    (GridAt(i, j, row), GridAt(i, j, row) + row, GridAt(i, j, row) + row + 1)
  }

  function SecondFace(i: nat, j: nat, row: nat): Face {
    (GridAt(i, j, row), GridAt(i, j, row) + row + 1, GridAt(i, j, row) + 1)
  }

  ghost predicate HasCells(fs: seq<Face>, row: nat, i: nat, j: nat) {
    forall k: nat, l: nat | (k < i && l + 1 < row) || (k == i && l < j) ::
      FirstFace(k, l, row) in fs && SecondFace(k, l, row) in fs
  }

  /** The faces that join consecutive rows of a grid of vertices: two for every cell. */
  method GridFaces(rows: nat, seg: nat) returns (fs: seq<Face>)
    ensures |fs| == 2 * (rows * seg)
    ensures FacesIn(fs, (rows + 1) * (seg + 1)) && HasCells(fs, seg + 1, rows, 0)
  {
    var row := seg + 1;
    fs := [];
    for i := 0 to rows
      invariant |fs| == 2 * (i * seg)
      invariant FacesIn(fs, (rows + 1) * row) && HasCells(fs, row, i, 0)
    {
      for j := 0 to seg
        invariant |fs| == 2 * (i * seg + j)
        invariant FacesIn(fs, (rows + 1) * row) && HasCells(fs, row, i, j)
      {
        CellInGrid(rows, row, i, j);
        fs := WithCell(fs, row, i, j, i * row + j);
      }
    }
  }

  lemma CellInGrid(rows: nat, row: nat, i: nat, j: nat)
    requires i < rows && j + 1 < row
    ensures GridAt(i, j, row) + row + 1 < (rows + 1) * row
  {
    assert (i + 2) * row <= (rows + 1) * row;
  }

  method WithCell(fs: seq<Face>, row: nat, ghost i: nat, ghost j: nat, a: nat) returns (r: seq<Face>)
    requires a == GridAt(i, j, row) && HasCells(fs, row, i, j)
    ensures r == fs + [(a, a + row, a + row + 1), (a, a + row + 1, a + 1)] && HasCells(r, row, i, j + 1)
  {
    r := fs + [(a, a + row, a + row + 1), (a, a + row + 1, a + 1)];
  }

  /** A point for every vertex of a grid. */
  type Lattice = (nat, nat) -> Vec3

  /** The first `i` rows and `j` vertices more are where they belong. */
  ghost predicate GridVerts(vs: seq<Vec3>, point: Lattice, row: nat, i: nat, j: nat) {
    forall k: nat, l: nat | (k < i && l < row) || (k == i && l < j) ::
      GridAt(k, l, row) < |vs| && vs[GridAt(k, l, row)] == point(k, l)
  }

  lemma GridAppend(vs: seq<Vec3>, point: Lattice, row: nat, i: nat, j: nat, v: Vec3)
    requires |vs| == GridAt(i, j, row) && GridVerts(vs, point, row, i, j) && v == point(i, j)
    ensures GridVerts(vs + [v], point, row, i, j + 1)
  {
  }

  /** Rows of vertices joined by two triangles for every cell, and nothing else. */
  ghost predicate IsGrid(m: Mesh, point: Lattice, rows: nat, seg: nat) {
    && |m.verts| == (rows + 1) * (seg + 1) && |m.faces| == 2 * (rows * seg)
    && (forall i: nat, j: nat | i <= rows && j <= seg :: point(i, j) in m.verts)
    && (forall i: nat, j: nat | i < rows && j < seg ::
          HasQuad(m, point(i, j), point(i + 1, j), point(i + 1, j + 1), point(i, j + 1)))
  }

  lemma CellIsQuad(m: Mesh, point: Lattice, rows: nat, seg: nat, i: nat, j: nat)
    requires GridVerts(m.verts, point, seg + 1, rows + 1, 0) && HasCells(m.faces, seg + 1, rows, 0)
    requires i < rows && j < seg
    ensures HasQuad(m, point(i, j), point(i + 1, j), point(i + 1, j + 1), point(i, j + 1))
  {
    var row := seg + 1;
    var f, g := FirstFace(i, j, row), SecondFace(i, j, row);
    assert f in m.faces && g in m.faces;
    assert GridAt(i + 1, j, row) == GridAt(i, j, row) + row;
    assert m.verts[GridAt(i, j, row)] == point(i, j) && m.verts[GridAt(i, j + 1, row)] == point(i, j + 1);
    assert m.verts[GridAt(i + 1, j, row)] == point(i + 1, j);
    assert m.verts[GridAt(i + 1, j + 1, row)] == point(i + 1, j + 1);
    assert IsFace(m, f, point(i, j), point(i + 1, j), point(i + 1, j + 1));
    assert IsFace(m, g, point(i, j), point(i + 1, j + 1), point(i, j + 1));
  }

  lemma GridIsGrid(m: Mesh, point: Lattice, rows: nat, seg: nat)
    requires |m.verts| == (rows + 1) * (seg + 1) && |m.faces| == 2 * (rows * seg)
    requires GridVerts(m.verts, point, seg + 1, rows + 1, 0) && HasCells(m.faces, seg + 1, rows, 0)
    ensures IsGrid(m, point, rows, seg)
  {
    forall i: nat, j: nat | i <= rows && j <= seg ensures point(i, j) in m.verts {
      assert m.verts[GridAt(i, j, seg + 1)] == point(i, j);
    }
    forall i: nat, j: nat | i < rows && j < seg
      ensures HasQuad(m, point(i, j), point(i + 1, j), point(i + 1, j + 1), point(i, j + 1))
    {
      CellIsQuad(m, point, rows, seg, i, j);
    }
  }

  // ---- round shapes

  /** The direction with horizontal part `sr` towards `t` and vertical part `sy`. */
  function Direction(sr: real, sy: real, t: Angle): Vec3 { Vec3(sr * t.c, sy, sr * t.s) }

  function BallPoint(radius: real, cy: real, d: Vec3): Vec3 {
    Vec3(radius * d.x, cy + radius * d.y, radius * d.z)
  }

  predicate InUnitCube(d: Vec3) { Inside(d, Box(Vec3(-1.0, -1.0, -1.0), Vec3(1.0, 1.0, 1.0))) }

  lemma DirectionInCube(a: Angle, t: Angle)
    requires OnCircle(a) && OnCircle(t)
    ensures InUnitCube(Direction(a.s, a.c, t))
  {
    CircleBounds(a);
    CircleBounds(t);
    ProductBounds(a.s, t.c);
    ProductBounds(a.s, t.s);
  }

  lemma OnBall(radius: real, cy: real, d: Vec3)
    requires radius >= 0.0 && InUnitCube(d)
    ensures Inside(BallPoint(radius, cy, d),
                   Box(Vec3(-radius, cy - radius, -radius), Vec3(radius, cy + radius, radius)))
  {
    ScaledBounds(radius, d.x);
    ScaledBounds(radius, d.y);
    ScaledBounds(radius, d.z);
    CubeInside(radius, cy, BallPoint(radius, cy, d));
  }

  lemma CubeInside(r: real, cy: real, p: Vec3)
    requires Symmetric(r, p.x) && Symmetric(r, p.y - cy) && Symmetric(r, p.z)
    ensures Inside(p, Box(Vec3(-r, cy - r, -r), Vec3(r, cy + r, r)))
  {
  }

  predicate OnSphere(p: Vec3, center: Vec3, radius: real) {
    Dot(Sub(p, center), Sub(p, center)) == radius * radius
  }

  /** A direction on the unit sphere leads to a point of the ball's surface. */
  lemma BallPointOnSphere(radius: real, cy: real, a: Angle, t: Angle)
    requires OnCircle(a) && OnCircle(t)
    ensures OnSphere(BallPoint(radius, cy, Direction(a.s, a.c, t)), Vec3(0.0, cy, 0.0), radius)
  {
    var d := Direction(a.s, a.c, t);
    assert d.x * d.x + d.z * d.z == a.s * a.s * (t.c * t.c + t.s * t.s);
    assert Dot(d, d) == 1.0;
    ScaledDot(radius, d);
    assert Sub(BallPoint(radius, cy, d), Vec3(0.0, cy, 0.0)) == Vec3(radius * d.x, radius * d.y, radius * d.z);
  }

  lemma ScaledDot(r: real, d: Vec3)
    ensures var p := Vec3(r * d.x, r * d.y, r * d.z); Dot(p, p) == r * r * Dot(d, d)
  {
  }

  function SpherePoint(turn: Turn, radius: real, cy: real, seg: nat, rings: nat, i: nat, j: nat): Vec3 {
    BallPoint(radius, cy, Direction(turn(i, 2 * rings).s, turn(i, 2 * rings).c, turn(j, seg)))
  }

  /** One row of vertices: the points of a ball around (0, cy, 0) at inclination `a`. */
  method AddBallRow(turn: Turn, radius: real, cy: real, a: Angle, seg: nat, vs: seq<Vec3>, ghost point: Lattice,
                    ghost i: nat)
    returns (r: seq<Vec3>)
    requires |vs| == GridAt(i, 0, seg + 1) && GridVerts(vs, point, seg + 1, i, 0)
    requires forall j: nat | j <= seg :: point(i, j) == BallPoint(radius, cy, Direction(a.s, a.c, turn(j, seg)))
    ensures |r| == GridAt(i + 1, 0, seg + 1) && GridVerts(r, point, seg + 1, i + 1, 0)
    ensures forall v | v in r :: v in vs || exists j: nat :: j <= seg && v == point(i, j)
  {
    r := vs;
    for j := 0 to seg + 1
      invariant |r| == GridAt(i, j, seg + 1) && GridVerts(r, point, seg + 1, i, j)
      invariant forall v | v in r :: v in vs || exists l: nat :: l < j && v == point(i, l)
    {
      var p := BallPoint(radius, cy, Direction(a.s, a.c, turn(j, seg)));
      assert p == point(i, j);
      GridAppend(r, point, seg + 1, i, j, p);
      r := r + [p];
    }
  }

  function SphereLattice(turn: Turn, radius: real, cy: real, seg: nat, rings: nat): Lattice {
    (i: nat, j: nat) => SpherePoint(turn, radius, cy, seg, rings, i, j)
  }

  lemma SphereVertex(turn: Turn, radius: real, cy: real, seg: nat, rings: nat, i: nat, j: nat)
    requires CircleLaw(turn) && radius >= 0.0
    ensures var p := SpherePoint(turn, radius, cy, seg, rings, i, j);
            && Inside(p, Box(Vec3(-radius, cy - radius, -radius), Vec3(radius, cy + radius, radius)))
            && OnSphere(p, Vec3(0.0, cy, 0.0), radius)
  {
    var phi := turn(i, 2 * rings);
    DirectionInCube(phi, turn(j, seg));
    OnBall(radius, cy, Direction(phi.s, phi.c, turn(j, seg)));
    BallPointOnSphere(radius, cy, phi, turn(j, seg));
  }

  /** `mesh_sphere`: every vertex is on the sphere, and the cells between neighbouring vertices are all
      covered. */
  method MeshSphere(turn: Turn, radius: real, cy: real, seg: nat, rings: nat) returns (m: Mesh)
    requires CircleLaw(turn)
    requires radius >= 0.0
    ensures Fits(m, Box(Vec3(-radius, cy - radius, -radius), Vec3(radius, cy + radius, radius)))
    ensures IsGrid(m, SphereLattice(turn, radius, cy, seg, rings), rings, seg)
    ensures forall v | v in m.verts :: OnSphere(v, Vec3(0.0, cy, 0.0), radius)
  {
    ghost var b := Box(Vec3(-radius, cy - radius, -radius), Vec3(radius, cy + radius, radius));
    ghost var point := SphereLattice(turn, radius, cy, seg, rings);
    var vs: seq<Vec3> := [];
    for i := 0 to rings + 1
      invariant |vs| == GridAt(i, 0, seg + 1) && GridVerts(vs, point, seg + 1, i, 0)
      invariant forall v | v in vs :: Inside(v, b) && OnSphere(v, Vec3(0.0, cy, 0.0), radius)
    {
      forall j: nat ensures Inside(point(i, j), b) && OnSphere(point(i, j), Vec3(0.0, cy, 0.0), radius) {
        SphereVertex(turn, radius, cy, seg, rings, i, j);
      }
      vs := AddBallRow(turn, radius, cy, turn(i, 2 * rings), seg, vs, point, i);
    }
    var fs := GridFaces(rings, seg);
    m := Mesh(vs, fs);
    GridIsGrid(m, point, rings, seg);
  }

  /** A point of a horizontal ring of the given radius. */
  function RingPoint(radius: real, y: real, t: Angle): Vec3 { Vec3(radius * t.c, y, radius * t.s) }

  lemma OnRing(radius: real, y: real, t: Angle, y0: real, y1: real)
    requires radius >= 0.0 && y0 <= y <= y1 && OnCircle(t)
    ensures Inside(RingPoint(radius, y, t), Box(Vec3(-radius, y0, -radius), Vec3(radius, y1, radius)))
  {
    CircleBounds(t);
    RingInside(radius, y, t, y0, y1);
  }

  lemma RingInside(radius: real, y: real, t: Angle, y0: real, y1: real)
    requires radius >= 0.0 && y0 <= y <= y1 && Symmetric(1.0, t.c) && Symmetric(1.0, t.s)
    ensures Inside(RingPoint(radius, y, t), Box(Vec3(-radius, y0, -radius), Vec3(radius, y1, radius)))
  {
    ScaledBounds(radius, t.c);
    ScaledBounds(radius, t.s);
  }

  /** Point `j` of a ring of `seg` points. */
  function Rim(turn: Turn, radius: real, y: real, seg: nat, j: nat): Vec3 { RingPoint(radius, y, turn(j, seg)) }

  /** Ring points are at the ring's radius from the axis. */
  lemma RimRadius(turn: Turn, radius: real, y: real, seg: nat, j: nat)
    requires CircleLaw(turn)
    ensures OnSphere(Rim(turn, radius, y, seg, j), Vec3(0.0, y, 0.0), radius)
  {
    var p, t := Rim(turn, radius, y, seg, j), turn(j, seg);
    ScaledDot(radius, Vec3(t.c, 0.0, t.s));
    assert Sub(p, Vec3(0.0, y, 0.0)) == Vec3(radius * t.c, radius * 0.0, radius * t.s);
  }

  /** A disc: a triangle for every sector, facing up or, flipped, down. */
  ghost predicate HasDisc(m: Mesh, turn: Turn, radius: real, y: real, seg: nat, flip: bool) {
    forall j: nat | j < seg ::
      var (hub, a, b) := (Vec3(0.0, y, 0.0), Rim(turn, radius, y, seg, j), Rim(turn, radius, y, seg, j + 1));
      if flip then HasFace(m, hub, b, a) else HasFace(m, hub, a, b)
  }

  /** A fan of faces around a fresh hub vertex: the caps of cylinders and the base of cones. */
  method AddCap(turn: Turn, m: Mesh, radius: real, y: real, seg: nat, flip: bool, ghost b: Box) returns (r: Mesh)
    requires CircleLaw(turn)
    requires radius >= 0.0 && Fits(m, b)
    requires b.min.y <= y <= b.max.y
    requires b.min.x == b.min.z == -radius && b.max.x == b.max.z == radius
    ensures |r.verts| == |m.verts| + seg + 2 && |r.faces| == |m.faces| + seg
    ensures Fits(r, b) && Grows(m, r) && HasDisc(r, turn, radius, y, seg, flip) && Vec3(0.0, y, 0.0) in r.verts
  {
    var c := |m.verts|;
    var vs: seq<Vec3>, fs: seq<Face> := m.verts + [Vec3(0.0, y, 0.0)], m.faces;
    var ring := |vs|;
    for j := 0 to seg + 1
      invariant |vs| == ring + j && AllInside(vs, b) && m.verts <= vs && vs[c] == Vec3(0.0, y, 0.0)
      invariant forall l | 0 <= l < j :: vs[ring + l] == Rim(turn, radius, y, seg, l)
    {
      OnRing(radius, y, turn(j, seg), b.min.y, b.max.y);
      vs := vs + [RingPoint(radius, y, turn(j, seg))];
    }
    for j := 0 to seg
      invariant FacesIn(fs, |vs|) && |fs| == |m.faces| + j && m.faces <= fs
      invariant forall l | 0 <= l < j :: FanFace(c, ring, l, flip) in fs
    {
      fs := fs + [if flip then (c, ring + j + 1, ring + j) else (c, ring + j, ring + j + 1)];
    }
    r := Mesh(vs, fs);
    DiscIsThere(r, turn, radius, y, seg, flip, c, ring);
  }

  function FanFace(c: nat, ring: nat, j: nat, flip: bool): Face {
    if flip then (c, ring + j + 1, ring + j) else (c, ring + j, ring + j + 1)
  }

  lemma DiscIsThere(r: Mesh, turn: Turn, radius: real, y: real, seg: nat, flip: bool, c: nat, ring: nat)
    requires |r.verts| == ring + seg + 1 && c < ring && r.verts[c] == Vec3(0.0, y, 0.0)
    requires forall l | 0 <= l <= seg :: r.verts[ring + l] == Rim(turn, radius, y, seg, l)
    requires forall l | 0 <= l < seg :: FanFace(c, ring, l, flip) in r.faces
    ensures HasDisc(r, turn, radius, y, seg, flip)
  {
    forall j: nat | j < seg
      ensures var (hub, a, b) := (Vec3(0.0, y, 0.0), Rim(turn, radius, y, seg, j), Rim(turn, radius, y, seg, j + 1));
              if flip then HasFace(r, hub, b, a) else HasFace(r, hub, a, b)
    {
      var (hub, a, b) := (Vec3(0.0, y, 0.0), Rim(turn, radius, y, seg, j), Rim(turn, radius, y, seg, j + 1));
      assert r.verts[ring + j] == a && r.verts[ring + (j + 1)] == b;
      var f := FanFace(c, ring, j, flip);
      assert f in r.faces && if flip then IsFace(r, f, hub, b, a) else IsFace(r, f, hub, a, b);
    }
  }

  lemma DiscStays(m: Mesh, r: Mesh, turn: Turn, radius: real, y: real, seg: nat, flip: bool)
    requires Grows(m, r) && HasDisc(m, turn, radius, y, seg, flip)
    ensures HasDisc(r, turn, radius, y, seg, flip)
  {
    forall j: nat | j < seg
      ensures var (hub, a, b) := (Vec3(0.0, y, 0.0), Rim(turn, radius, y, seg, j), Rim(turn, radius, y, seg, j + 1));
              if flip then HasFace(r, hub, b, a) else HasFace(r, hub, a, b)
    {
      var (hub, a, b) := (Vec3(0.0, y, 0.0), Rim(turn, radius, y, seg, j), Rim(turn, radius, y, seg, j + 1));
      if flip { FaceStays(m, r, hub, b, a); } else { FaceStays(m, r, hub, a, b); }
    }
  }

  /** The side of a cylinder: a rectangle for every sector. */
  ghost predicate HasWall(m: Mesh, turn: Turn, radius: real, y0: real, y1: real, seg: nat) {
    forall j: nat | j < seg ::
      HasQuad(m, Rim(turn, radius, y0, seg, j), Rim(turn, radius, y0, seg, j + 1), Rim(turn, radius, y1, seg, j + 1),
              Rim(turn, radius, y1, seg, j))
  }

  /** Two rings, the wall between them and a disc at either end. */
  ghost predicate IsCylinder(m: Mesh, turn: Turn, radius: real, y0: real, y1: real, seg: nat) {
    && |m.faces| == 4 * seg && HasWall(m, turn, radius, y0, y1, seg)
    && HasDisc(m, turn, radius, y1, seg, false) && HasDisc(m, turn, radius, y0, seg, true)
    && Vec3(0.0, y0, 0.0) in m.verts && Vec3(0.0, y1, 0.0) in m.verts
    && forall j | 0 <= j <= seg :: Rim(turn, radius, y0, seg, j) in m.verts && Rim(turn, radius, y1, seg, j) in m.verts
  }

  /** The wall between two rings covers every rectangle between neighbouring points. */
  lemma WallIsCovered(m: Mesh, turn: Turn, radius: real, y0: real, y1: real, seg: nat, j: nat, s: real, t: real)
    requires HasWall(m, turn, radius, y0, y1, seg) && j < seg && 0.0 <= s <= 1.0 && 0.0 <= t <= 1.0
    ensures var a, b := Rim(turn, radius, y0, seg, j), Rim(turn, radius, y0, seg, j + 1);
            OnMesh(Vec3(a.x + s * (b.x - a.x), y0 + t * (y1 - y0), a.z + s * (b.z - a.z)), m)
  {
    var a, b := Rim(turn, radius, y0, seg, j), Rim(turn, radius, y0, seg, j + 1);
    var c, d := Rim(turn, radius, y1, seg, j + 1), Rim(turn, radius, y1, seg, j);
    UprightQuad(m, a, b, c, d, y0, y1, s, t);
  }

  lemma UprightQuad(m: Mesh, a: Vec3, b: Vec3, c: Vec3, d: Vec3, y0: real, y1: real, s: real, t: real)
    requires HasQuad(m, a, b, c, d) && 0.0 <= s <= 1.0 && 0.0 <= t <= 1.0
    requires a.y == b.y == y0 && c == Vec3(b.x, y1, b.z) && d == Vec3(a.x, y1, a.z)
    ensures OnMesh(Vec3(a.x + s * (b.x - a.x), y0 + t * (y1 - y0), a.z + s * (b.z - a.z)), m)
  {
    QuadOnMesh(m, a, b, c, d, s, t);
    UprightPoint(a, b, d, s, t);
  }

  /** The two rings of a cylinder, point by point. */
  ghost predicate RingPairs(vs: seq<Vec3>, turn: Turn, radius: real, y0: real, y1: real, seg: nat, n: int) {
    |vs| == 2 * n && forall l | 0 <= l < n ::
      vs[2 * l] == Rim(turn, radius, y0, seg, l) && vs[2 * l + 1] == Rim(turn, radius, y1, seg, l)
  }

  lemma WallIsThere(m: Mesh, turn: Turn, radius: real, y0: real, y1: real, seg: nat)
    requires RingPairs(m.verts, turn, radius, y0, y1, seg, seg + 1) && |m.faces| == 2 * seg
    requires forall l: nat | l < seg ::
               m.faces[2 * l] == (2 * l, 2 * l + 2, 2 * l + 3) && m.faces[2 * l + 1] == (2 * l, 2 * l + 3, 2 * l + 1)
    ensures HasWall(m, turn, radius, y0, y1, seg)
  {
    forall j: nat | j < seg
      ensures HasQuad(m, Rim(turn, radius, y0, seg, j), Rim(turn, radius, y0, seg, j + 1),
                      Rim(turn, radius, y1, seg, j + 1), Rim(turn, radius, y1, seg, j))
    {
      var (a, b) := (Rim(turn, radius, y0, seg, j), Rim(turn, radius, y0, seg, j + 1));
      var (c, d) := (Rim(turn, radius, y1, seg, j + 1), Rim(turn, radius, y1, seg, j));
      assert m.verts[2 * (j + 1)] == b && m.verts[2 * (j + 1) + 1] == c;
      assert IsFace(m, m.faces[2 * j], a, b, c) && IsFace(m, m.faces[2 * j + 1], a, c, d);
    }
  }

  lemma WallStays(m: Mesh, r: Mesh, turn: Turn, radius: real, y0: real, y1: real, seg: nat)
    requires Grows(m, r) && HasWall(m, turn, radius, y0, y1, seg)
    ensures HasWall(r, turn, radius, y0, y1, seg)
  {
    forall j: nat | j < seg
      ensures HasQuad(r, Rim(turn, radius, y0, seg, j), Rim(turn, radius, y0, seg, j + 1),
                      Rim(turn, radius, y1, seg, j + 1), Rim(turn, radius, y1, seg, j))
    {
      var (a, b) := (Rim(turn, radius, y0, seg, j), Rim(turn, radius, y0, seg, j + 1));
      var (c, d) := (Rim(turn, radius, y1, seg, j + 1), Rim(turn, radius, y1, seg, j));
      FaceStays(m, r, a, b, c);
      FaceStays(m, r, a, c, d);
    }
  }

  method CylinderWall(turn: Turn, radius: real, y0: real, y1: real, seg: nat) returns (m: Mesh)
    requires CircleLaw(turn) && radius >= 0.0 && y0 <= y1
    ensures Fits(m, Box(Vec3(-radius, y0, -radius), Vec3(radius, y1, radius))) && |m.faces| == 2 * seg
    ensures RingPairs(m.verts, turn, radius, y0, y1, seg, seg + 1) && HasWall(m, turn, radius, y0, y1, seg)
  {
    ghost var b := Box(Vec3(-radius, y0, -radius), Vec3(radius, y1, radius));
    var vs: seq<Vec3>, fs: seq<Face> := [], [];
    for j := 0 to seg + 1
      invariant AllInside(vs, b) && RingPairs(vs, turn, radius, y0, y1, seg, j)
    {
      OnRing(radius, y0, turn(j, seg), y0, y1);
      OnRing(radius, y1, turn(j, seg), y0, y1);
      vs := vs + [RingPoint(radius, y0, turn(j, seg)), RingPoint(radius, y1, turn(j, seg))];
    }
    for j := 0 to seg
      invariant FacesIn(fs, |vs|) && |fs| == 2 * j
      invariant forall l: nat | l < j ::
                  fs[2 * l] == (2 * l, 2 * l + 2, 2 * l + 3) && fs[2 * l + 1] == (2 * l, 2 * l + 3, 2 * l + 1)
    {
      var a := j * 2;
      fs := fs + [(a, a + 2, a + 3), (a, a + 3, a + 1)];
    }
    m := Mesh(vs, fs);
    WallIsThere(m, turn, radius, y0, y1, seg);
  }

  /** `mesh_cylinder`. */
  method MeshCylinder(turn: Turn, radius: real, height: real, y0: real, seg: nat) returns (m: Mesh)
    requires CircleLaw(turn)
    requires radius >= 0.0 && height >= 0.0
    ensures Fits(m, Box(Vec3(-radius, y0, -radius), Vec3(radius, y0 + height, radius)))
    ensures IsCylinder(m, turn, radius, y0, y0 + height, seg)
  {
    m := CappedWall(turn, radius, y0, y0 + height, seg);
  }

  method CappedWall(turn: Turn, radius: real, y0: real, y1: real, seg: nat) returns (m: Mesh)
    requires CircleLaw(turn) && radius >= 0.0 && y0 <= y1
    ensures Fits(m, Box(Vec3(-radius, y0, -radius), Vec3(radius, y1, radius)))
    ensures IsCylinder(m, turn, radius, y0, y1, seg)
  {
    ghost var b := Box(Vec3(-radius, y0, -radius), Vec3(radius, y1, radius));
    var wall := CylinderWall(turn, radius, y0, y1, seg);
    var upper := AddCap(turn, wall, radius, y1, seg, false, b);
    m := AddCap(turn, upper, radius, y0, seg, true, b);
    AllStays(wall, upper, m, turn, radius, y0, y1, seg);
  }

  lemma AllStays(wall: Mesh, upper: Mesh, m: Mesh, turn: Turn, radius: real, y0: real, y1: real, seg: nat)
    requires RingPairs(wall.verts, turn, radius, y0, y1, seg, seg + 1) && HasWall(wall, turn, radius, y0, y1, seg)
    requires Grows(wall, upper) && Grows(upper, m) && HasDisc(upper, turn, radius, y1, seg, false)
    requires HasDisc(m, turn, radius, y0, seg, true) && |m.faces| == 4 * seg
    requires Vec3(0.0, y1, 0.0) in upper.verts && Vec3(0.0, y0, 0.0) in m.verts
    ensures IsCylinder(m, turn, radius, y0, y1, seg)
  {
    WallStays(wall, m, turn, radius, y0, y1, seg);
    DiscStays(upper, m, turn, radius, y1, seg, false);
    RingsStay(wall, m, turn, radius, y0, y1, seg);
  }

  lemma RingsStay(wall: Mesh, m: Mesh, turn: Turn, radius: real, y0: real, y1: real, seg: nat)
    requires RingPairs(wall.verts, turn, radius, y0, y1, seg, seg + 1) && wall.verts <= m.verts
    ensures forall j | 0 <= j <= seg ::
              Rim(turn, radius, y0, seg, j) in m.verts && Rim(turn, radius, y1, seg, j) in m.verts
  {
    forall j | 0 <= j <= seg
      ensures Rim(turn, radius, y0, seg, j) in m.verts && Rim(turn, radius, y1, seg, j) in m.verts
    {
      assert wall.verts[2 * j] == m.verts[2 * j] && wall.verts[2 * j + 1] == m.verts[2 * j + 1];
    }
  }

  /** The side of a cone: a triangle for every sector. */
  ghost predicate HasSlope(m: Mesh, turn: Turn, radius: real, y0: real, apex: real, seg: nat) {
    forall j: nat | j < seg ::
      HasFace(m, Rim(turn, radius, y0, seg, j), Rim(turn, radius, y0, seg, j + 1), Vec3(0.0, apex, 0.0))
  }

  ghost predicate IsCone(m: Mesh, turn: Turn, radius: real, y0: real, apex: real, seg: nat) {
    && |m.faces| == 2 * seg && HasSlope(m, turn, radius, y0, apex, seg) && HasDisc(m, turn, radius, y0, seg, true)
    && Vec3(0.0, y0, 0.0) in m.verts && Vec3(0.0, apex, 0.0) in m.verts
    && forall j | 0 <= j <= seg :: Rim(turn, radius, y0, seg, j) in m.verts
  }

  /** A ring and, for every point of it, the apex once more. */
  ghost predicate RingAndApex(vs: seq<Vec3>, turn: Turn, radius: real, y0: real, apex: real, seg: nat, n: int) {
    |vs| == 2 * n && forall l | 0 <= l < n ::
      vs[2 * l] == Rim(turn, radius, y0, seg, l) && vs[2 * l + 1] == Vec3(0.0, apex, 0.0)
  }

  lemma SlopeIsThere(m: Mesh, r: Mesh, turn: Turn, radius: real, y0: real, apex: real, seg: nat)
    requires RingAndApex(m.verts, turn, radius, y0, apex, seg, seg + 1) && |m.faces| == seg && Grows(m, r)
    requires forall l: nat | l < seg :: m.faces[l] == (2 * l, 2 * l + 2, 2 * l + 1)
    ensures HasSlope(r, turn, radius, y0, apex, seg)
  {
    forall j: nat | j < seg
      ensures HasFace(r, Rim(turn, radius, y0, seg, j), Rim(turn, radius, y0, seg, j + 1), Vec3(0.0, apex, 0.0))
    {
      assert m.verts[2 * (j + 1)] == Rim(turn, radius, y0, seg, j + 1);
      assert IsFace(r, r.faces[j], Rim(turn, radius, y0, seg, j), Rim(turn, radius, y0, seg, j + 1),
                    Vec3(0.0, apex, 0.0));
    }
  }

  /** `mesh_cone`. */
  method MeshCone(turn: Turn, radius: real, height: real, y0: real, seg: nat) returns (m: Mesh)
    requires CircleLaw(turn)
    requires radius >= 0.0 && height >= 0.0
    ensures Fits(m, Box(Vec3(-radius, y0, -radius), Vec3(radius, y0 + height, radius)))
    ensures IsCone(m, turn, radius, y0, y0 + height, seg)
  {
    var apex := y0 + height;
    ghost var b := Box(Vec3(-radius, y0, -radius), Vec3(radius, apex, radius));
    var vs: seq<Vec3>, fs: seq<Face> := [], [];
    for j := 0 to seg + 1
      invariant AllInside(vs, b) && RingAndApex(vs, turn, radius, y0, apex, seg, j)
    {
      OnRing(radius, y0, turn(j, seg), y0, apex);
      vs := vs + [RingPoint(radius, y0, turn(j, seg)), Vec3(0.0, apex, 0.0)];
    }
    for j := 0 to seg
      invariant FacesIn(fs, |vs|) && |fs| == j
      invariant forall l: nat | l < j :: fs[l] == (2 * l, 2 * l + 2, 2 * l + 1)
    {
      var a := j * 2;
      fs := fs + [(a, a + 2, a + 1)];
    }
    m := AddCap(turn, Mesh(vs, fs), radius, y0, seg, true, b);
    SlopeIsThere(Mesh(vs, fs), m, turn, radius, y0, apex, seg);
    forall j | 0 <= j <= seg ensures Rim(turn, radius, y0, seg, j) in m.verts {
      assert vs[2 * j] == m.verts[2 * j];
    }
    assert vs[1] == m.verts[1];
  }

  /** The row table of `mesh_capsule`: the inclination of row `i` and the centre it turns about. */
  function CapsuleRow(turn: Turn, radius: real, length: real, rings: nat, i: nat): (Angle, real) {
    if i <= rings then (turn(i, 4 * rings), radius + length)
    else var phi := turn(i - rings - 1, 4 * rings); (Angle(-phi.s, phi.c), radius)
  }

  function CapsulePoint(turn: Turn, radius: real, length: real, seg: nat, rings: nat, i: nat, j: nat): Vec3 {
    var row := CapsuleRow(turn, radius, length, rings, i);
    BallPoint(radius, row.1, Direction(row.0.s, row.0.c, turn(j, seg)))
  }

  function CapsuleLattice(turn: Turn, radius: real, length: real, seg: nat, rings: nat): Lattice {
    (i: nat, j: nat) => CapsulePoint(turn, radius, length, seg, rings, i, j)
  }

  /** On one of the two balls at the ends. */
  predicate OnCapsule(v: Vec3, radius: real, length: real) {
    OnSphere(v, Vec3(0.0, radius, 0.0), radius) || OnSphere(v, Vec3(0.0, radius + length, 0.0), radius)
  }

  lemma CapsuleVertex(turn: Turn, radius: real, length: real, seg: nat, rings: nat, i: nat, j: nat)
    requires CircleLaw(turn) && radius >= 0.0 && length >= 0.0
    ensures var p := CapsulePoint(turn, radius, length, seg, rings, i, j);
            && Inside(p, Box(Vec3(-radius, 0.0, -radius), Vec3(radius, length + 2.0 * radius, radius)))
            && OnCapsule(p, radius, length)
  {
    var row := CapsuleRow(turn, radius, length, rings, i);
    DirectionInCube(row.0, turn(j, seg));
    OnBall(radius, row.1, Direction(row.0.s, row.0.c, turn(j, seg)));
    BallPointOnSphere(radius, row.1, row.0, turn(j, seg));
  }

  /** `mesh_capsule`: two half spheres around a cylinder, total height `length + 2 * radius`. */
  method MeshCapsule(turn: Turn, radius: real, length: real, seg: nat, rings: nat) returns (m: Mesh)
    requires CircleLaw(turn)
    requires radius >= 0.0 && length >= 0.0
    ensures Fits(m, Box(Vec3(-radius, 0.0, -radius), Vec3(radius, length + 2.0 * radius, radius)))
    ensures IsGrid(m, CapsuleLattice(turn, radius, length, seg, rings), 2 * rings + 1, seg)
    ensures forall v | v in m.verts :: OnCapsule(v, radius, length)
  {
    ghost var b := Box(Vec3(-radius, 0.0, -radius), Vec3(radius, length + 2.0 * radius, radius));
    ghost var point := CapsuleLattice(turn, radius, length, seg, rings);
    var n := 2 * rings + 2;
    var vs: seq<Vec3> := [];
    for i := 0 to n
      invariant |vs| == GridAt(i, 0, seg + 1) && GridVerts(vs, point, seg + 1, i, 0)
      invariant forall v | v in vs :: Inside(v, b) && OnCapsule(v, radius, length)
    {
      var row := CapsuleRow(turn, radius, length, rings, i);
      forall j: nat ensures Inside(point(i, j), b) && OnCapsule(point(i, j), radius, length) {
        CapsuleVertex(turn, radius, length, seg, rings, i, j);
      }
      vs := AddBallRow(turn, radius, row.1, row.0, seg, vs, point, i);
    }
    var fs := GridFaces(n - 1, seg);
    m := Mesh(vs, fs);
    GridIsGrid(m, point, n - 1, seg);
  }
}
