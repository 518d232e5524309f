/**
 `mesh_extrude` and `mesh_stairs` of `render.py`: a profile drawn out along z, with a fanned cap at
 either end and a wall over every edge.
 */
module Extrusions {
  import opened Vectors
  import opened Boxes
  import opened Patches
  import opened Meshes
  import opened Staircases
  import Clipping

  type Profile = seq<Spot>

  /** Edge `i` leads to the next corner, the last one back to the first. */
  function Next(profile: Profile, i: nat): nat
    requires i < |profile|
  {
    (i + 1) % |profile|
  }

  /** Edges shorter than 1e-12 get no wall. */
  predicate Skipped(profile: Profile, i: nat)
    requires i < |profile|
  {
    var p, q := profile[i], profile[Next(profile, i)];
    Short(q.0 - p.0, q.1 - p.1)
  }

  predicate Short(ex: real, ey: real) { ex * ex + ey * ey < 0.000000000000000000000001 }

  /** How many of the first `n` edges get a wall. */
  function Walls(profile: Profile, n: nat): nat
    requires n <= |profile|
  {
    if n == 0 then 0 else Walls(profile, n - 1) + if Skipped(profile, n - 1) then 0 else 1
  }

  function Fans(profile: Profile): nat { if |profile| < 2 then 0 else |profile| - 2 }

  /** The cap at depth `z`, fanned from the last corner. */
  ghost predicate HasFan(m: Mesh, profile: Profile, z: real, flip: bool) {
    forall i: nat | i < Fans(profile) ::
      var (hub, a, b) := (Lifted(profile[|profile| - 1], z), Lifted(profile[i], z), Lifted(profile[i + 1], z));
      if flip then HasFace(m, hub, b, a) else HasFace(m, hub, a, b)
  }

  ghost predicate HasEdgeWall(m: Mesh, profile: Profile, depth: real, i: nat)
    requires i < |profile|
  {
    var (p, q) := (profile[i], profile[Next(profile, i)]);
    HasQuad(m, Lifted(p, 0.0), Lifted(q, 0.0), Lifted(q, depth), Lifted(p, depth))
  }

  ghost predicate HasEdgeWalls(m: Mesh, profile: Profile, depth: real, n: nat)
    requires n <= |profile|
  {
    forall i: nat | i < n && !Skipped(profile, i) :: HasEdgeWall(m, profile, depth, i)
  }

  /** Both caps, a wall over every edge that is not too short, and nothing else. */
  ghost predicate IsExtrusion(m: Mesh, profile: Profile, depth: real) {
    && HasFan(m, profile, depth, false) && HasFan(m, profile, 0.0, true)
    && HasEdgeWalls(m, profile, depth, |profile|)
    && |m.faces| == 2 * Fans(profile) + 2 * Walls(profile, |profile|)
    && forall p | p in profile :: Lifted(p, 0.0) in m.verts && Lifted(p, depth) in m.verts
  }

  /** The profile, at both ends of the extrusion, is in the box. */
  predicate Spans(profile: Profile, depth: real, b: Box) {
    forall p | p in profile :: Inside(Lifted(p, 0.0), b) && Inside(Lifted(p, depth), b)
  }

  lemma FanStays(m: Mesh, r: Mesh, profile: Profile, z: real, flip: bool)
    requires Grows(m, r) && HasFan(m, profile, z, flip)
    ensures HasFan(r, profile, z, flip)
  {
    forall i: nat | i < Fans(profile)
      ensures var (hub, a, b) := (Lifted(profile[|profile| - 1], z), Lifted(profile[i], z), Lifted(profile[i + 1], z));
              if flip then HasFace(r, hub, b, a) else HasFace(r, hub, a, b)
    {
      var (hub, a, b) := (Lifted(profile[|profile| - 1], z), Lifted(profile[i], z), Lifted(profile[i + 1], z));
      if flip { FaceStays(m, r, hub, b, a); } else { FaceStays(m, r, hub, a, b); }
    }
  }

  lemma EdgeWallsStay(m: Mesh, r: Mesh, profile: Profile, depth: real, n: nat)
    requires n <= |profile| && Grows(m, r) && HasEdgeWalls(m, profile, depth, n)
    ensures HasEdgeWalls(r, profile, depth, n)
  {
    forall i: nat | i < n && !Skipped(profile, i) ensures HasEdgeWall(r, profile, depth, i) {
      var (p, q) := (profile[i], profile[Next(profile, i)]);
      FaceStays(m, r, Lifted(p, 0.0), Lifted(q, 0.0), Lifted(q, depth));
      FaceStays(m, r, Lifted(p, 0.0), Lifted(q, depth), Lifted(p, depth));
    }
  }

  /** One face of a fanned cap. */
  function CapFace(base: nat, k: nat, i: nat, flip: bool): Face
    requires k > 0
  {
    if flip then (base + k - 1, base + i + 1, base + i) else (base + k - 1, base + i, base + i + 1)
  }

  lemma FanIsThere(r: Mesh, profile: Profile, z: real, flip: bool, base: nat)
    requires |r.verts| == base + |profile| && forall i: nat | i < |profile| ::
             r.verts[base + i] == Lifted(profile[i], z)
    requires forall i: nat | i < Fans(profile) :: CapFace(base, |profile|, i, flip) in r.faces
    ensures HasFan(r, profile, z, flip)
  {
    forall i: nat | i < Fans(profile)
      ensures var (hub, a, b) := (Lifted(profile[|profile| - 1], z), Lifted(profile[i], z), Lifted(profile[i + 1], z));
              if flip then HasFace(r, hub, b, a) else HasFace(r, hub, a, b)
    {
      var (hub, a, b) := (Lifted(profile[|profile| - 1], z), Lifted(profile[i], z), Lifted(profile[i + 1], z));
      var f := CapFace(base, |profile|, i, flip);
      assert r.verts[base + (|profile| - 1)] == hub && r.verts[base + i] == a && r.verts[base + (i + 1)] == b;
      assert f in r.faces && if flip then IsFace(r, f, hub, b, a) else IsFace(r, f, hub, a, b);
    }
  }

  /** One cap of `mesh_extrude`. */
  method AddFan(m: Mesh, profile: Profile, z: real, flip: bool, ghost b: Box) returns (r: Mesh)
    requires Fits(m, b) && forall p | p in profile :: Inside(Lifted(p, z), b)
    ensures Fits(r, b) && Grows(m, r) && HasFan(r, profile, z, flip) && |r.faces| == |m.faces| + Fans(profile)
    ensures forall p | p in profile :: Lifted(p, z) in r.verts
  {
    var k, base := |profile|, |m.verts|;
    var vs: seq<Vec3>, fs: seq<Face> := m.verts, m.faces;
    for i := 0 to k
      invariant |vs| == base + i && AllInside(vs, b) && m.verts <= vs
      invariant forall l: nat | l < i :: vs[base + l] == Lifted(profile[l], z)
    {
      assert profile[i] in profile;
      vs := vs + [Vec3(profile[i].0, profile[i].1, z)];
    }
    for i := 0 to if k < 2 then 0 else k - 2
      invariant FacesIn(fs, |vs|) && |fs| == |m.faces| + i && m.faces <= fs
      invariant forall l: nat | l < i :: CapFace(base, k, l, flip) in fs
    {
      var anchor := base + k - 1;
      fs := fs + [if flip then (anchor, base + i + 1, base + i) else (anchor, base + i, base + i + 1)];
    }
    r := Mesh(vs, fs);
    FanIsThere(r, profile, z, flip, base);
    forall p | p in profile ensures Lifted(p, z) in r.verts {
      var l :| 0 <= l < k && profile[l] == p;
      assert vs[base + l] == Lifted(p, z);
    }
  }

  /** The wall over one edge, unless it is too short. */
  method AddWall(m: Mesh, profile: Profile, depth: real, i: nat, ghost b: Box) returns (r: Mesh)
    requires Spans(profile, depth, b) && Fits(m, b) && i < |profile| && HasEdgeWalls(m, profile, depth, i)
    ensures Fits(r, b) && Grows(m, r) && HasEdgeWalls(r, profile, depth, i + 1)
    ensures |r.faces| == |m.faces| + 2 * (Walls(profile, i + 1) - Walls(profile, i))
  {
    r := m;
    var p, q := profile[i], profile[(i + 1) % |profile|];
    var skip := Short(q.0 - p.0, q.1 - p.1);
    assert skip == Skipped(profile, i);
    if !skip {
      assert p in profile && q in profile;
      r := WithQuad(m, Vec3(p.0, p.1, 0.0), Vec3(q.0, q.1, 0.0), Vec3(q.0, q.1, depth), Vec3(p.0, p.1, depth), b);
      EdgeWallsStay(m, r, profile, depth, i);
      assert HasEdgeWall(r, profile, depth, i);
    }
    EdgeWallsNext(r, profile, depth, i, skip);
    assert Walls(profile, i + 1) == Walls(profile, i) + if skip then 0 else 1;
  }

  lemma EdgeWallsNext(r: Mesh, profile: Profile, depth: real, i: nat, skip: bool)
    requires i < |profile| && HasEdgeWalls(r, profile, depth, i) && skip == Skipped(profile, i)
    requires skip || HasEdgeWall(r, profile, depth, i)
    ensures HasEdgeWalls(r, profile, depth, i + 1)
  {
  }

  /** `mesh_extrude`: caps fanned from the last profile point, and one quad per profile edge. */
  method MeshExtrude(profile: Profile, depth: real, ghost b: Box) returns (m: Mesh)
    requires Spans(profile, depth, b)
    ensures Fits(m, b) && IsExtrusion(m, profile, depth)
  {
    var front := AddFan(Mesh([], []), profile, depth, false, b);
    var caps := AddFan(front, profile, 0.0, true, b);
    m := caps;
    for i := 0 to |profile|
      invariant Fits(m, b) && Grows(caps, m) && HasEdgeWalls(m, profile, depth, i)
      invariant |m.faces| == 2 * Fans(profile) + 2 * Walls(profile, i)
    {
      m := AddWall(m, profile, depth, i, b);
    }
    FanStays(front, m, profile, depth, false);
    FanStays(caps, m, profile, 0.0, true);
  }

  /** Every point over an edge that has a wall lies on the mesh. */
  lemma EdgeIsCovered(m: Mesh, profile: Profile, depth: real, i: nat, s: real, t: real)
    requires i < |profile| && HasEdgeWall(m, profile, depth, i) && 0.0 <= s <= 1.0 && 0.0 <= t <= 1.0
    ensures OnMesh(AlongEdge(profile[i], profile[Next(profile, i)], s, t * depth), m)
  {
    var p, q := profile[i], profile[Next(profile, i)];
    QuadOnMesh(m, Lifted(p, 0.0), Lifted(q, 0.0), Lifted(q, depth), Lifted(p, depth), s, t);
    DeepPoint(p, q, depth, s, t);
  }

  /** The point `s` along the edge from `p` to `q`, at depth `z`. */
  function AlongEdge(p: Spot, q: Spot, s: real, z: real): Vec3 {
    Vec3(p.0 + s * (q.0 - p.0), p.1 + s * (q.1 - p.1), z)
  }

  lemma DeepPoint(p: Spot, q: Spot, depth: real, s: real, t: real)
    ensures QuadPoint(Lifted(p, 0.0), Lifted(q, 0.0), Lifted(p, depth), s, t) == AlongEdge(p, q, s, t * depth)
  {
  }

  // ---- stairs

  /** Every edge of the stairs is as long as a step or the whole, so that none is skipped while there
      are at most 1e12 steps. */
  lemma StairEdges(n: nat, profile: Profile, i: nat)
    requires 0 < n <= 1_000_000_000_000 && i < |profile| == 2 * n + 2
    requires forall k: nat | k < |profile| :: profile[k] == StairCorner(n, EvenLevels(n), k)
    ensures !Skipped(profile, i)
  {
    var p, q := profile[i], profile[Next(profile, i)];
    EvenLevelLaw(n);
    NextLevel(n, i / 2);
    NextIs(i, |profile|);
    StairEdge(n, EvenLevels(n), 1.0 / n as real, i, p, q);
    LongEnough(n as real, q.0 - p.0, q.1 - p.1);
  }

  lemma NextIs(i: nat, k: nat)
    requires i < k
    ensures (i + 1) % k == if i + 1 == k then 0 else i + 1
  {
  }

  lemma StairEdge(n: nat, level: Levels, step: real, i: nat, p: Spot, q: Spot)
    requires LevelLaw(n, level) && level(i / 2 + 1) - level(i / 2) == step && i < 2 * n + 2
    requires p == StairCorner(n, level, i) && q == StairCorner(n, level, if i == 2 * n + 1 then 0 else i + 1)
    ensures OneOf(q.0 - p.0, step) || OneOf(q.1 - p.1, step)
  {
  }

  predicate OneOf(d: real, step: real) { d == step || d == 1.0 || d == -1.0 }

  lemma LongEnough(n: real, dx: real, dy: real)
    requires 0.0 < n <= 1000000000000.0 && (OneOf(dx, 1.0 / n) || OneOf(dy, 1.0 / n))
    ensures !Short(dx, dy)
  {
    StepSquared(n, 1.0 / n);
    SquareNonNegative(dx);
    SquareNonNegative(dy);
  }

  lemma NextLevel(n: nat, m: int)
    requires n > 0
    ensures EvenLevels(n)(m + 1) - EvenLevels(n)(m) == 1.0 / n as real
  {
  }

  lemma StepSquared(n: real, step: real)
    requires 0.0 < n <= 1000000000000.0 && step == 1.0 / n
    ensures step * step >= 0.000000000000000000000001
  {
    var least := 0.000000000001;
    assert step * n == 1.0;
    assert least * n <= 1.0;
    if step < least { MulPositive(least - step, n); }
    SquaresOrdered1(least, step);
  }

  lemma SquaresOrdered1(a: real, b: real)
    requires 0.0 <= a <= b
    ensures a * a <= b * b
  {
    if a < b { SquaresOrdered(a, b); }
  }

  lemma {:induction false} NoneSkipped(profile: Profile, n: nat)
    requires n <= |profile| && forall i: nat | i < n :: !Skipped(profile, i)
    ensures Walls(profile, n) == n
  {
    if n > 0 {
      NoneSkipped(profile, n - 1);
    }
  }

  /** The same mesh, moved. */
  ghost predicate Moved(e: Mesh, m: Mesh, d: Vec3) {
    && m.faces == e.faces && |m.verts| == |e.verts|
    && forall i | 0 <= i < |m.verts| :: m.verts[i] == Sub(e.verts[i], d)
  }

  lemma MovedSpan(p: Vec3, a: Vec3, b: Vec3, c: Vec3, d: Vec3)
    requires InSpan(p, a, b, c)
    ensures InSpan(Sub(p, d), Sub(a, d), Sub(b, d), Sub(c, d))
  {
    var x, y, z :| Clipping.Bary(x, y, z) && p == Clipping.Mix(a, b, c, x, y, z);
    MovedMix(a, b, c, d, x, y, z);
  }

  lemma MovedMix(a: Vec3, b: Vec3, c: Vec3, d: Vec3, x: real, y: real, z: real)
    requires x + y + z == 1.0
    ensures Sub(Clipping.Mix(a, b, c, x, y, z), d) == Clipping.Mix(Sub(a, d), Sub(b, d), Sub(c, d), x, y, z)
  {
    MovedMix1(a.x, b.x, c.x, d.x, x, y, z);
    MovedMix1(a.y, b.y, c.y, d.y, x, y, z);
    MovedMix1(a.z, b.z, c.z, d.z, x, y, z);
  }

  lemma MovedMix1(a: real, b: real, c: real, d: real, x: real, y: real, z: real)
    requires x + y + z == 1.0
    ensures Clipping.Mix1(a, b, c, x, y, z) - d == Clipping.Mix1(a - d, b - d, c - d, x, y, z)
  {
    assert d * x + d * y + d * z == d * (x + y + z);
  }

  lemma MovedOnMesh(e: Mesh, m: Mesh, d: Vec3, p: Vec3)
    requires Moved(e, m, d) && OnMesh(p, e)
    ensures OnMesh(Sub(p, d), m)
  {
    var k :| 0 <= k < |e.faces| && OnFace(p, e, e.faces[k]);
    var f := e.faces[k];
    MovedSpan(p, e.verts[f.0], e.verts[f.1], e.verts[f.2], d);
    assert OnFace(Sub(p, d), m, m.faces[k]);
  }

  const HALVES := Vec3(0.5, 0.0, 0.5)

  /** Both ends of the stairs: the solid below the steps. */
  ghost predicate EndsCovered(m: Mesh, steps: nat)
    requires steps > 0
  {
    forall x, y | UnderStairs(steps, EvenLevels(steps), x, y) ::
      OnMesh(Sub(Vec3(x, y, 0.0), HALVES), m) && OnMesh(Sub(Vec3(x, y, 1.0), HALVES), m)
  }

  /** A point over edge `i` of the profile. */
  function OverEdge(steps: nat, i: nat, s: real, t: real): Vec3
    requires steps > 0
  {
    var level := EvenLevels(steps);
    AlongEdge(StairCorner(steps, level, i), StairCorner(steps, level, if i == 2 * steps + 1 then 0 else i + 1), s, t)
  }

  /** Treads, risers, the back and the floor. */
  ghost predicate EdgesCovered(m: Mesh, steps: nat)
    requires steps > 0
  {
    forall i: nat, s: real, t: real {:trigger OverEdge(steps, i, s, t)}
      | i < 2 * steps + 2 && 0.0 <= s <= 1.0 && 0.0 <= t <= 1.0 :: OnMesh(Sub(OverEdge(steps, i, s, t), HALVES), m)
  }

  lemma EndOnMesh(e: Mesh, n: nat, profile: Profile, z: real, flip: bool, x: real, y: real)
    requires n > 0 && |profile| == 2 * n + 2 && UnderStairs(n, EvenLevels(n), x, y) && HasFan(e, profile, z, flip)
    requires forall k: nat | k < |profile| :: profile[k] == StairCorner(n, EvenLevels(n), k)
    ensures OnMesh(Vec3(x, y, z), e)
  {
    EvenLevelLaw(n);
    var i := StairsAreFanned(n, EvenLevels(n), x, y, z);
    var (hub, a, b) := (Lifted(profile[2 * n + 1], z), Lifted(profile[i], z), Lifted(profile[i + 1], z));
    var p := Vec3(x, y, z);
    assert InSpan(p, hub, a, b);
    if flip {
      SpanFlips(p, hub, a, b);
      FaceCovers(e, hub, b, a, p);
    } else {
      FaceCovers(e, hub, a, b, p);
    }
  }

  lemma SpanFlips(p: Vec3, a: Vec3, b: Vec3, c: Vec3)
    requires InSpan(p, a, b, c)
    ensures InSpan(p, a, c, b)
  {
    var x, y, z :| Clipping.Bary(x, y, z) && p == Clipping.Mix(a, b, c, x, y, z);
    assert Clipping.Bary(x, z, y) && p == Clipping.Mix(a, c, b, x, z, y);
  }

  lemma EdgeOnMesh(e: Mesh, n: nat, profile: Profile, i: nat, s: real, t: real)
    requires 0 < n <= 1_000_000_000_000 && i < |profile| == 2 * n + 2 && IsExtrusion(e, profile, 1.0)
    requires forall k: nat | k < |profile| :: profile[k] == StairCorner(n, EvenLevels(n), k)
    requires 0.0 <= s <= 1.0 && 0.0 <= t <= 1.0
    ensures OnMesh(OverEdge(n, i, s, t), e)
  {
    StairEdges(n, profile, i);
    NextIs(i, |profile|);
    EdgePointOn(e, profile, i, s, t, profile[i], profile[Next(profile, i)]);
  }

  lemma EdgePointOn(e: Mesh, profile: Profile, i: nat, s: real, t: real, p: Spot, q: Spot)
    requires i < |profile| && IsExtrusion(e, profile, 1.0) && !Skipped(profile, i)
    requires p == profile[i] && q == profile[Next(profile, i)] && 0.0 <= s <= 1.0 && 0.0 <= t <= 1.0
    ensures OnMesh(AlongEdge(p, q, s, t), e)
  {
    assert HasEdgeWall(e, profile, 1.0, i);
    EdgeIsCovered(e, profile, 1.0, i, s, t);
    assert t * 1.0 == t;
  }

  /** The profile of `n` even steps, drawn out to depth 1. */
  ghost predicate StairExtrusion(e: Mesh, n: nat)
    requires n > 0
  {
    exists profile :: StairProfileOf(profile, n) && IsExtrusion(e, profile, 1.0)
  }

  ghost predicate StairProfileOf(profile: Profile, n: nat)
    requires n > 0
  {
    |profile| == 2 * n + 2 && forall k: nat | k < |profile| :: profile[k] == StairCorner(n, EvenLevels(n), k)
  }

  lemma StairEnds(e: Mesh, m: Mesh, n: nat)
    requires n > 0 && StairExtrusion(e, n) && Moved(e, m, HALVES)
    ensures EndsCovered(m, n)
  {
    var profile :| StairProfileOf(profile, n) && IsExtrusion(e, profile, 1.0);
    forall x, y | UnderStairs(n, EvenLevels(n), x, y)
      ensures OnMesh(Sub(Vec3(x, y, 0.0), HALVES), m) && OnMesh(Sub(Vec3(x, y, 1.0), HALVES), m)
    {
      EndOnMesh(e, n, profile, 0.0, true, x, y);
      EndOnMesh(e, n, profile, 1.0, false, x, y);
      MovedOnMesh(e, m, HALVES, Vec3(x, y, 0.0));
      MovedOnMesh(e, m, HALVES, Vec3(x, y, 1.0));
    }
  }

  lemma StairSides(e: Mesh, m: Mesh, n: nat)
    requires 0 < n <= 1_000_000_000_000 && StairExtrusion(e, n) && Moved(e, m, HALVES)
    ensures EdgesCovered(m, n)
  {
    var profile :| StairProfileOf(profile, n) && IsExtrusion(e, profile, 1.0);
    forall i: nat, s: real, t: real | i < 2 * n + 2 && 0.0 <= s <= 1.0 && 0.0 <= t <= 1.0
      ensures OnMesh(Sub(OverEdge(n, i, s, t), HALVES), m)
    {
      EdgeOnMesh(e, n, profile, i, s, t);
      MovedOnMesh(e, m, HALVES, OverEdge(n, i, s, t));
    }
  }

  method ShiftMesh(e: Mesh, d: Vec3) returns (m: Mesh)
    ensures Moved(e, m, d)
  {
    var vs: seq<Vec3> := [];
    for i := 0 to |e.verts|
      invariant |vs| == i && forall k | 0 <= k < i :: vs[k] == Sub(e.verts[k], d)
    {
      vs := vs + [Sub(e.verts[i], d)];
    }
    m := Mesh(vs, e.faces);
  }

  lemma StairsSpan(n: nat, profile: Profile, b: Box)
    requires n > 0 && |profile| == 2 * n + 2 && b == Box(Vec3(0.0, 0.0, 0.0), Vec3(1.0, 1.0, 1.0))
    requires forall k: nat | k < |profile| :: profile[k] == StairCorner(n, EvenLevels(n), k)
    ensures Spans(profile, 1.0, b)
  {
    EvenLevelLaw(n);
    forall p | p in profile ensures Inside(Lifted(p, 0.0), b) && Inside(Lifted(p, 1.0), b) {
      var k :| 0 <= k < |profile| && profile[k] == p;
      CornerInside(n, EvenLevels(n), k);
    }
  }

  lemma CornerInside(n: nat, level: Levels, k: nat)
    requires LevelLaw(n, level) && k < 2 * n + 2
    ensures var p := StairCorner(n, level, k); 0.0 <= p.0 <= 1.0 && 0.0 <= p.1 <= 1.0
  {
    if k <= 2 * n {
      LevelEnds(n, level, k / 2);
      LevelEnds(n, level, if k % 2 == 0 then k / 2 else k / 2 + 1);
    }
  }

  /** The corners at the bottom of the front and at the top of the back. */
  lemma StairFaces(e: Mesh, n: nat)
    requires n > 0 && StairExtrusion(e, n)
    ensures Vec3(0.0, 0.0, 0.0) in e.verts && Vec3(1.0, 1.0, 1.0) in e.verts && |e.faces| > 0
    ensures n <= 1_000_000_000_000 ==> |e.faces| == 8 * n + 4
  {
    var profile :| StairProfileOf(profile, n) && IsExtrusion(e, profile, 1.0);
    EvenLevelLaw(n);
    assert profile[0] == (0.0, 0.0) && profile[2 * n] == (1.0, 1.0);
    assert profile[0] in profile && profile[2 * n] in profile;
    if n <= 1_000_000_000_000 {
      forall i: nat | i < |profile| ensures !Skipped(profile, i) {
        StairEdges(n, profile, i);
      }
      NoneSkipped(profile, |profile|);
    }
  }

  lemma MovedFits(e: Mesh, m: Mesh, b: Box)
    requires Moved(e, m, HALVES) && Fits(e, b) && b == Box(Vec3(0.0, 0.0, 0.0), Vec3(1.0, 1.0, 1.0))
    requires b.min in e.verts && b.max in e.verts
    ensures Fits(m, UnitBounds(Stairs)) && UnitBounds(Stairs).min in m.verts && UnitBounds(Stairs).max in m.verts
  {
    forall v | v in m.verts ensures Inside(v, UnitBounds(Stairs)) {
      var i :| 0 <= i < |m.verts| && m.verts[i] == v;
      assert e.verts[i] in e.verts;
    }
    var lo :| 0 <= lo < |e.verts| && e.verts[lo] == b.min;
    var hi :| 0 <= hi < |e.verts| && e.verts[hi] == b.max;
    assert m.verts[lo] == UnitBounds(Stairs).min && m.verts[hi] == UnitBounds(Stairs).max;
  }

  /** Stairs of `n` steps, in their unit body: both ends show the solid below the steps, and every
      tread and riser, the back and the floor are there, if there are at most 1e12 steps. */
  ghost predicate IsStairs(m: Mesh, n: nat)
    requires n > 0
  {
    InStairBody(m) && EndsCovered(m, n) && (n <= 1_000_000_000_000 ==> EdgesCovered(m, n) && |m.faces| == 8 * n + 4)
  }

  predicate InStairBody(m: Mesh) {
    && Fits(m, UnitBounds(Stairs)) && |m.faces| > 0
    && UnitBounds(Stairs).min in m.verts && UnitBounds(Stairs).max in m.verts
  }

  lemma StairMesh(e: Mesh, m: Mesh, n: nat, b: Box)
    requires n > 0 && StairExtrusion(e, n) && Moved(e, m, HALVES)
    requires Fits(e, b) && b == Box(Vec3(0.0, 0.0, 0.0), Vec3(1.0, 1.0, 1.0))
    ensures InStairBody(m) && EndsCovered(m, n)
    ensures n <= 1_000_000_000_000 ==> EdgesCovered(m, n) && |m.faces| == 8 * n + 4
  {
    StairFaces(e, n);
    MovedFits(e, m, b);
    StairEnds(e, m, n);
    if n <= 1_000_000_000_000 {
      StairSides(e, m, n);
    }
  }

  /** `mesh_stairs`. */
  method MeshStairs(steps: nat) returns (m: Mesh)
    requires steps > 0
    ensures IsStairs(m, steps)
  {
    var pts := StairProfile(steps);
    ghost var b := Box(Vec3(0.0, 0.0, 0.0), Vec3(1.0, 1.0, 1.0));
    StairsSpan(steps, pts, b);
    var e := MeshExtrude(pts, 1.0, b);
    assert StairProfileOf(pts, steps);
    m := ShiftMesh(e, HALVES);
    StairMesh(e, m, steps, b);
  }
}
