/**
 Measuring back what `place` did: `describe_direction`, the intersection part of `find_issues`
 (`scene_ops.py`) and the millimetre rounding `r3` (`recipe.py`).
 */
module Measuring {
  import opened Vectors
  import opened Options
  import opened Boxes
  import opened Gaps
  import opened Cameras
  import opened Placement

  // ---- rounding

  /** `r3`: three decimals. */
  function R3(x: real): real { RoundHalfEven(x * 1000.0) as real / 1000.0 }

  function R3Vec(v: Vec3): Vec3 { Vec3(R3(v.x), R3(v.y), R3(v.z)) }

  lemma R3Near(x: real)
    ensures Near(R3(x), x, 0.0005)
  {
    var y := x * 1000.0;
    var n := RoundHalfEven(y);
    assert -0.5 <= n as real - y <= 0.5;
  }

  /** Whatever two objects and whatever camera, an object that `place` put sideways at a distance
      of at least zero is never reported as intersecting its reference, and from one millimetre
      on the measured gap is at least the requested one less a millimetre. */
  lemma PlacedIsNotReported(sqrt: real -> real, ref: Body, proto: Body, dir: Direction, cam: Camera,
                            distance: real, align: Align)
    requires SqrtLaw(sqrt) && Horizontal(dir) && distance >= 0.0 && proto.position == ORIGIN
    ensures var axes := AxesOf(sqrt, CameraBasis(sqrt, cam));
            var p := R3Vec(PlacePosition(ref, proto, dir, axes, distance, align));
            var r, m := Aabb(ref), Aabb(proto.(position := p));
            && !Reported(r, m, INTERSECT_TOLERANCE)
            && (distance >= 0.001 ==> SurfaceGap(sqrt, r, m) >= distance - 0.001)
  {
    var axes := AxesOf(sqrt, CameraBasis(sqrt, cam));
    AxesValid(sqrt, CameraBasis(sqrt, cam));
    RoundedIsNotReported(sqrt, ref, proto, dir, axes, distance, align);
  }

  lemma RoundedIsNotReported(sqrt: real -> real, ref: Body, proto: Body, dir: Direction, axes: GroundAxes,
                             distance: real, align: Align)
    requires SqrtLaw(sqrt) && Horizontal(dir) && distance >= 0.0 && proto.position == ORIGIN && ValidAxes(axes)
    ensures var p := R3Vec(PlacePosition(ref, proto, dir, axes, distance, align));
            var r, m := Aabb(ref), Aabb(proto.(position := p));
            && !Reported(r, m, INTERSECT_TOLERANCE)
            && (distance >= 0.001 ==> SurfaceGap(sqrt, r, m) >= distance - 0.001)
  {
    var p := PlacePosition(ref, proto, dir, axes, distance, align);
    R3Near(p.x);
    R3Near(p.y);
    R3Near(p.z);
    PlacedBesideIsApart(sqrt, ref, proto, dir, axes, distance, align, R3Vec(p), 0.0005);
  }

  // ---- find_issues: intersections

  const INTERSECT_TOLERANCE := 0.05

  /** What `find_issues` needs of an object: is it ground or water, and its box. */
  datatype Item = Item(surface: bool, box: Box)

  datatype Intersection = Intersection(a: nat, b: nat, depth: real)

  predicate Reported(a: Box, b: Box, tolerance: real) { Least(Overlap(a, b)) > tolerance }

  predicate Clash(items: seq<Item>, i: nat, j: nat, tolerance: real)
    requires i < |items| && j < |items|
  {
    !items[i].surface && !items[j].surface && Reported(items[i].box, items[j].box, tolerance)
  }

  predicate Before(p: Intersection, i: nat, j: nat) { p.a < i || (p.a == i && p.b < j) }

  /** `out` lists exactly the clashing pairs that come before (i, j), each once, in order. */
  ghost predicate ListsClashes(items: seq<Item>, out: seq<Intersection>, i: nat, j: nat, tolerance: real) {
    && (forall k | 0 <= k < |out| ::
          var p := out[k];
          && p.a < p.b < |items| && Before(p, i, j)
          && Clash(items, p.a, p.b, tolerance) && p.depth == Least(Overlap(items[p.a].box, items[p.b].box)))
    && (forall k, l | 0 <= k < l < |out| :: Before(out[k], out[l].a, out[l].b))
    && (forall a: nat, b: nat | a < b < |items| && (a < i || (a == i && b < j)) && Clash(items, a, b, tolerance) ::
          exists k :: 0 <= k < |out| && out[k].a == a && out[k].b == b)
  }

  /** The intersection loops of `find_issues`. */
  method FindIntersections(items: seq<Item>, tolerance: real) returns (out: seq<Intersection>)
    ensures ListsClashes(items, out, |items|, 0, tolerance)
  {
    out := [];
    for i := 0 to |items|
      invariant ListsClashes(items, out, i, i + 1, tolerance)
    {
      for j := i + 1 to |items|
        invariant ListsClashes(items, out, i, j, tolerance)
      {
        if !items[i].surface && !items[j].surface {
          var depth := Least(Overlap(items[i].box, items[j].box));
          if depth > tolerance {
            ghost var before := out;
            out := out + [Intersection(i, j, depth)];
            ListExtended(items, before, i, j, tolerance);
          }
        }
      }
    }
  }

  lemma ListExtended(items: seq<Item>, out: seq<Intersection>, i: nat, j: nat, tolerance: real)
    requires i < j < |items| && ListsClashes(items, out, i, j, tolerance) && Clash(items, i, j, tolerance)
    ensures ListsClashes(items, out + [Intersection(i, j, Least(Overlap(items[i].box, items[j].box)))], i, j + 1,
                         tolerance)
  {
    var e := Intersection(i, j, Least(Overlap(items[i].box, items[j].box)));
    var more := out + [e];
    forall a: nat, b: nat | a < b < |items| && (a < i || (a == i && b < j + 1)) && Clash(items, a, b, tolerance)
      ensures exists k :: 0 <= k < |more| && more[k].a == a && more[k].b == b
    {
      if a == i && b == j {
        assert more[|out|] == e;
      } else {
        var k :| 0 <= k < |out| && out[k].a == a && out[k].b == b;
        assert more[k] == out[k];
      }
    }
  }

  // ---- describe_direction

  /** The words of `describe_direction`; None is "aligned". */
  datatype Heading = Heading(leftRight: Option<Direction>, frontBack: Option<Direction>, upDown: Option<Direction>)

  const DIRECTION_TOLERANCE := 0.25

  function Word(x: real, pos: Direction, neg: Direction): Option<Direction> {
    if Abs(x) > DIRECTION_TOLERANCE then Some(if x > 0.0 then pos else neg) else None
  }

  /** `describe_direction`: where `a` is, seen from `b`. */
  function Describe(a: Box, b: Box, axes: GroundAxes): Heading {
    var delta := Sub(Center(a), Center(b));
    Heading(Word(Dot(delta, axes.side), Right, Left), Word(Dot(delta, axes.fwd), Back, Front),
            Word(delta.y, Above, Below))
  }

  /** On the ground, an offset of `span` along `d`, up to `e` per axis, has its component along
      `f` up to `2 * e`. */
  lemma ComponentNear(delta: Vec3, d: Vec3, f: Vec3, span: real, e: real)
    requires GroundUnit(d) && GroundUnit(f) && e >= 0.0
    requires Near(delta.x, d.x * span, e) && Near(delta.z, d.z * span, e)
    ensures Near(Dot(delta, f), span * Dot(d, f), 2.0 * e)
  {
    var ex, ez := delta.x - d.x * span, delta.z - d.z * span;
    FlatErrors(f, ex, ez, e);
    ComponentIdentity(delta, d, f, span, ex, ez);
    SumNear(Dot(delta, f), span * Dot(d, f), ex * f.x, ez * f.z, e);
  }

  lemma FlatErrors(f: Vec3, ex: real, ez: real, e: real)
    requires GroundUnit(f) && -e <= ex <= e && -e <= ez <= e
    ensures Near(ex * f.x, 0.0, e) && Near(ez * f.z, 0.0, e)
  {
    assert f.x * f.x + f.z * f.z == 1.0;
    FlatError(f.x, f.z, ex, e);
    FlatError(f.z, f.x, ez, e);
  }

  lemma FlatError(u: real, v: real, x: real, e: real)
    requires u * u + v * v == 1.0 && -e <= x <= e
    ensures Near(x * u, 0.0, e)
  {
    AtMostOne(u, v);
    ErrorBound(x, u, e);
  }

  lemma SumNear(x: real, y: real, p: real, q: real, e: real)
    requires x == y + p + q && Near(p, 0.0, e) && Near(q, 0.0, e)
    ensures Near(x, y, 2.0 * e)
  {
  }

  lemma ErrorBound(x: real, f: real, e: real)
    requires -e <= x <= e && Abs(f) <= 1.0
    ensures Near(x * f, 0.0, e)
  {
    AbsProduct(x, f, e);
    AbsProduct(-x, f, e);
    MulNonNegative(1.0 - Abs(f), e);
  }

  lemma ComponentIdentity(delta: Vec3, d: Vec3, f: Vec3, span: real, ex: real, ez: real)
    requires d.y == 0.0 && f.y == 0.0 && delta.x == d.x * span + ex && delta.z == d.z * span + ez
    ensures Dot(delta, f) == span * Dot(d, f) + ex * f.x + ez * f.z
  {
  }

  predicate SaysOnly(h: Heading, dir: Direction) {
    match dir
    case Right => h.leftRight == Some(Right) && h.frontBack == None
    case Left => h.leftRight == Some(Left) && h.frontBack == None
    case Back => h.frontBack == Some(Back) && h.leftRight == None
    case Front => h.frontBack == Some(Front) && h.leftRight == None
    case _ => false
  }

  lemma DotSymmetric(a: Vec3, b: Vec3)
    ensures Dot(a, b) == Dot(b, a) && Dot(Mul(a, -1.0), b) == -Dot(a, b)
  {
  }

  /** The components of a direction word along the two ground axes. */
  lemma WordComponents(dir: Direction, axes: GroundAxes)
    requires Horizontal(dir) && ValidAxes(axes) && Dot(axes.side, axes.fwd) == 0.0
    ensures var d := GroundDirection(dir, axes);
            && Dot(d, axes.side) == (if dir.Right? then 1.0 else if dir.Left? then -1.0 else 0.0)
            && Dot(d, axes.fwd) == (if dir.Back? then 1.0 else if dir.Front? then -1.0 else 0.0)
  {
    DotSymmetric(axes.side, axes.fwd);
    DotSymmetric(axes.side, axes.side);
    DotSymmetric(axes.fwd, axes.fwd);
    DotSymmetric(axes.fwd, axes.side);
  }

  /** When left-right and front-back are perpendicular, `describe_direction` names exactly the
      side that `place` was asked for, provided the centres are farther apart than the tolerance. */
  lemma PlacedSideIsNamed(r: Box, n: Box, m: Box, dir: Direction, axes: GroundAxes, span: real, e: real)
    requires ValidAxes(axes) && Dot(axes.side, axes.fwd) == 0.0 && Horizontal(dir)
    requires 0.0 <= 2.0 * e <= DIRECTION_TOLERANCE && span > DIRECTION_TOLERANCE + 2.0 * e
    requires PlacedAt(r, n, m, GroundDirection(dir, axes), span, e)
    ensures SaysOnly(Describe(m, r, axes), dir)
  {
    var delta := Sub(Center(m), Center(r));
    ComponentsNear(delta, dir, axes, span, e);
    NamedFrom(delta, dir, axes, span, e);
  }

  lemma ComponentsNear(delta: Vec3, dir: Direction, axes: GroundAxes, span: real, e: real)
    requires ValidAxes(axes) && Dot(axes.side, axes.fwd) == 0.0 && Horizontal(dir) && e >= 0.0
    requires var d := GroundDirection(dir, axes); Near(delta.x, d.x * span, e) && Near(delta.z, d.z * span, e)
    ensures Near(Dot(delta, axes.side), span * (if dir.Right? then 1.0 else if dir.Left? then -1.0 else 0.0), 2.0 * e)
    ensures Near(Dot(delta, axes.fwd), span * (if dir.Back? then 1.0 else if dir.Front? then -1.0 else 0.0), 2.0 * e)
  {
    var d := GroundDirection(dir, axes);
    DirectionIsUnit(dir, axes);
    WordComponents(dir, axes);
    ComponentNear(delta, d, axes.side, span, e);
    ComponentNear(delta, d, axes.fwd, span, e);
  }

  lemma NamedFrom(delta: Vec3, dir: Direction, axes: GroundAxes, span: real, e: real)
    requires Horizontal(dir) && 0.0 <= 2.0 * e <= DIRECTION_TOLERANCE && span > DIRECTION_TOLERANCE + 2.0 * e
    requires Near(Dot(delta, axes.side), span * (if dir.Right? then 1.0 else if dir.Left? then -1.0 else 0.0), 2.0 * e)
    requires Near(Dot(delta, axes.fwd), span * (if dir.Back? then 1.0 else if dir.Front? then -1.0 else 0.0), 2.0 * e)
    ensures SaysOnly(Heading(Word(Dot(delta, axes.side), Right, Left), Word(Dot(delta, axes.fwd), Back, Front),
                             Word(delta.y, Above, Below)), dir)
  {
  }

  /** Place, round to millimetres, describe: the word comes back. */
  lemma PlaceThenDescribe(ref: Body, proto: Body, dir: Direction, axes: GroundAxes, distance: real, align: Align)
    requires ValidAxes(axes) && Dot(axes.side, axes.fwd) == 0.0 && Horizontal(dir) && proto.position == ORIGIN
    requires Span(Aabb(ref), Aabb(proto), GroundDirection(dir, axes), distance) > DIRECTION_TOLERANCE + 0.001
    ensures var p := R3Vec(PlacePosition(ref, proto, dir, axes, distance, align));
            SaysOnly(Describe(Aabb(proto.(position := p)), Aabb(ref), axes), dir)
  {
    var p := PlacePosition(ref, proto, dir, axes, distance, align);
    R3Near(p.x);
    R3Near(p.y);
    R3Near(p.z);
    var r, n, d := Aabb(ref), Aabb(proto), GroundDirection(dir, axes);
    var span := Span(r, n, d, distance);
    MovedBox(proto, R3Vec(p));
    ShiftedPlacedAt(r, n, R3Vec(p), d, span, align, 0.0005);
    PlacedSideIsNamed(r, n, Shift(n, R3Vec(p)), dir, axes, span, 0.0005);
  }

  // ---- when are left-right and front-back perpendicular?

  /** Looking so nearly straight up or down that the side axis is taken from -Z, yet not straight
      enough for the forward direction to be dropped: the two ground axes are then derived from
      different references. */
  predicate Skewed(sqrt: real -> real, fwd: Vec3) {
    0.000000001 < Length(sqrt, Cross(fwd, UP)) < 0.000001 && fwd.x != 0.0
  }

  /** The ground part of the view direction is as long as its cross product with the vertical. */
  lemma GroundLength(sqrt: real -> real, fwd: Vec3)
    ensures Length(sqrt, Vec3(fwd.x, 0.0, fwd.z)) == Length(sqrt, Cross(fwd, UP))
    ensures Cross(fwd, UP) == Vec3(-fwd.z, 0.0, fwd.x)
  {
    var g, c := Vec3(fwd.x, 0.0, fwd.z), Cross(fwd, UP);
    assert c == Vec3(-fwd.z, 0.0, fwd.x);
    assert Dot(g, g) == Dot(c, c);
  }

  lemma UnitFlatIsItself(sqrt: real -> real, v: Vec3, fallback: Vec3)
    requires SqrtLaw(sqrt) && GroundUnit(v)
    ensures Flat(sqrt, v, fallback) == v
  {
    NormalizeMultiple(sqrt, v, 1.0, fallback);
    assert Mul(v, 1.0) == v == Vec3(v.x, 0.0, v.z);
  }

  lemma CrossIsPerpendicular(x: real, z: real, k: real)
    ensures Dot(Mul(Vec3(-z, 0.0, x), k), Mul(Vec3(x, 0.0, z), k)) == 0.0
  {
  }

  lemma LevelSide(sqrt: real -> real, fwd: Vec3, k: real)
    requires SqrtLaw(sqrt) && Unit(fwd) && Length(sqrt, Cross(fwd, UP)) >= 0.000001
    requires k == 1.0 / Length(sqrt, Cross(fwd, UP))
    ensures Flat(sqrt, SideOf(sqrt, fwd), Vec3(1.0, 0.0, 0.0)) == Mul(Vec3(-fwd.z, 0.0, fwd.x), k)
  {
    GroundLength(sqrt, fwd);
    var side := SideOf(sqrt, fwd);
    SideUnit(sqrt, fwd);
    assert side == Mul(Vec3(-fwd.z, 0.0, fwd.x), k);
    assert side.y == 0.0 * k == 0.0;
    UnitFlatIsItself(sqrt, side, Vec3(1.0, 0.0, 0.0));
  }

  lemma LevelForward(sqrt: real -> real, fwd: Vec3, k: real)
    requires Length(sqrt, Cross(fwd, UP)) >= 0.000001 && k == 1.0 / Length(sqrt, Cross(fwd, UP))
    ensures Flat(sqrt, fwd, BACK) == Mul(Vec3(fwd.x, 0.0, fwd.z), k)
  {
    GroundLength(sqrt, fwd);
  }

  lemma LevelPerpendicular(sqrt: real -> real, fwd: Vec3)
    requires SqrtLaw(sqrt) && Unit(fwd) && Length(sqrt, Cross(fwd, UP)) >= 0.000001
    ensures Dot(Flat(sqrt, SideOf(sqrt, fwd), Vec3(1.0, 0.0, 0.0)), Flat(sqrt, fwd, BACK)) == 0.0
  {
    var k := 1.0 / Length(sqrt, Cross(fwd, UP));
    LevelSide(sqrt, fwd, k);
    LevelForward(sqrt, fwd, k);
    CrossIsPerpendicular(fwd.x, fwd.z, k);
  }

  /** Looking straight up or down, the side axis on the ground is the world's x axis. */
  lemma SteepSide(sqrt: real -> real, fwd: Vec3)
    requires SqrtLaw(sqrt) && Unit(fwd) && Length(sqrt, Cross(fwd, UP)) < 0.000001
    ensures var s := Flat(sqrt, SideOf(sqrt, fwd), Vec3(1.0, 0.0, 0.0));
            s.y == 0.0 && s.z == 0.0 && (s.x == 1.0 || s.x == -1.0)
  {
    var side := SideOf(sqrt, fwd);
    var raw := Cross(fwd, BACK);
    RawSideLong(sqrt, fwd);
    assert raw == Vec3(-fwd.y, fwd.x, 0.0);
    assert side == Mul(raw, 1.0 / Length(sqrt, raw));
    assert side.z == 0.0 * (1.0 / Length(sqrt, raw)) == 0.0;
    var s := Flat(sqrt, side, Vec3(1.0, 0.0, 0.0));
    FlatIsUnit(sqrt, side, Vec3(1.0, 0.0, 0.0));
    FlatKeepsZero(sqrt, side);
    UnitOnAxis(s);
  }

  lemma FlatKeepsZero(sqrt: real -> real, v: Vec3)
    requires v.z == 0.0
    ensures Flat(sqrt, v, Vec3(1.0, 0.0, 0.0)).z == 0.0
  {
  }

  lemma UnitOnAxis(s: Vec3)
    requires GroundUnit(s) && s.z == 0.0
    ensures s.x == 1.0 || s.x == -1.0
  {
    if s.x >= 0.0 {
      RootUnique(s.x, 1.0);
    } else {
      RootUnique(-s.x, 1.0);
    }
  }

  lemma SteepForward(sqrt: real -> real, fwd: Vec3)
    requires SqrtLaw(sqrt)
    ensures Flat(sqrt, fwd, BACK).x == 0.0 <==> Length(sqrt, Cross(fwd, UP)) <= 0.000000001 || fwd.x == 0.0
  {
    GroundLength(sqrt, fwd);
    var n := Length(sqrt, Cross(fwd, UP));
    if n > 0.000000001 {
      ScaledZero(fwd.x, 1.0 / n);
    }
  }

  lemma ScaledZero(x: real, k: real)
    requires k > 0.0
    ensures x * k == 0.0 <==> x == 0.0
  {
    if x > 0.0 { MulPositive(x, k); } else if x < 0.0 { MulPositive(-x, k); }
  }

  lemma AxisDot(s: Vec3, f: Vec3)
    requires s.y == 0.0 && s.z == 0.0 && (s.x == 1.0 || s.x == -1.0)
    ensures Dot(s, f) == 0.0 <==> f.x == 0.0
  {
  }

  /** The words left-right and front-back are perpendicular exactly for cameras that are not
      skewed. */
  lemma PerpendicularIff(sqrt: real -> real, cam: Camera)
    requires SqrtLaw(sqrt)
    ensures var b := CameraBasis(sqrt, cam); var axes := AxesOf(sqrt, b);
            Dot(axes.side, axes.fwd) == 0.0 <==> !Skewed(sqrt, b.fwd)
  {
    var fwd := Forward(sqrt, cam.position, cam.target);
    ForwardUnit(sqrt, cam.position, cam.target);
    PerpendicularForward(sqrt, fwd);
  }

  lemma PerpendicularForward(sqrt: real -> real, fwd: Vec3)
    requires SqrtLaw(sqrt) && Unit(fwd)
    ensures Dot(Flat(sqrt, SideOf(sqrt, fwd), Vec3(1.0, 0.0, 0.0)), Flat(sqrt, fwd, BACK)) == 0.0 <==>
            !Skewed(sqrt, fwd)
  {
    if Length(sqrt, Cross(fwd, UP)) >= 0.000001 {
      LevelPerpendicular(sqrt, fwd);
    } else {
      SteepSide(sqrt, fwd);
      SteepForward(sqrt, fwd);
      AxisDot(Flat(sqrt, SideOf(sqrt, fwd), Vec3(1.0, 0.0, 0.0)), Flat(sqrt, fwd, BACK));
    }
  }

  /** For every camera that is not skewed, placing and describing agree on the side. */
  lemma PlacedIsNamed(sqrt: real -> real, ref: Body, proto: Body, dir: Direction, cam: Camera,
                      distance: real, align: Align)
    requires SqrtLaw(sqrt) && Horizontal(dir) && proto.position == ORIGIN
    requires !Skewed(sqrt, CameraBasis(sqrt, cam).fwd)
    requires Span(Aabb(ref), Aabb(proto), GroundDirection(dir, AxesOf(sqrt, CameraBasis(sqrt, cam))), distance)
             > DIRECTION_TOLERANCE + 0.001
    ensures var axes := AxesOf(sqrt, CameraBasis(sqrt, cam));
            var p := R3Vec(PlacePosition(ref, proto, dir, axes, distance, align));
            SaysOnly(Describe(Aabb(proto.(position := p)), Aabb(ref), axes), dir)
  {
    PerpendicularIff(sqrt, cam);
    AxesValid(sqrt, CameraBasis(sqrt, cam));
    PlaceThenDescribe(ref, proto, dir, AxesOf(sqrt, CameraBasis(sqrt, cam)), distance, align);
  }

  // ---- skewed cameras

  /** Looking up or down, leaning by less than a millionth along x. */
  predicate LeansAlongX(fwd: Vec3) { Unit(fwd) && fwd.z == 0.0 && 0.000000001 < fwd.x < 0.000001 }

  lemma LeaningLength(sqrt: real -> real, fwd: Vec3)
    requires SqrtLaw(sqrt) && LeansAlongX(fwd)
    ensures Length(sqrt, Cross(fwd, UP)) == fwd.x
  {
    var c := Cross(fwd, UP);
    assert c == Vec3(0.0, 0.0, fwd.x);
    LengthSquared(sqrt, c);
    RootUnique(Length(sqrt, c), fwd.x);
  }

  lemma LeaningForward(sqrt: real -> real, fwd: Vec3)
    requires SqrtLaw(sqrt) && LeansAlongX(fwd)
    ensures Flat(sqrt, fwd, BACK) == Vec3(1.0, 0.0, 0.0)
  {
    GroundLength(sqrt, fwd);
    LeaningLength(sqrt, fwd);
    assert fwd.x * (1.0 / fwd.x) == 1.0;
  }

  predicate OnOneLine(axes: GroundAxes) { axes.side == axes.fwd || axes.side == Mul(axes.fwd, -1.0) }

  /** A camera that leans so is skewed: "right" and "back" lie on one line. */
  lemma LeaningIsSkewed(sqrt: real -> real, b: Basis)
    requires SqrtLaw(sqrt) && LeansAlongX(b.fwd) && b.side == SideOf(sqrt, b.fwd)
    ensures Skewed(sqrt, b.fwd) && OnOneLine(AxesOf(sqrt, b))
  {
    LeaningLength(sqrt, b.fwd);
    SteepSide(sqrt, b.fwd);
    LeaningForward(sqrt, b.fwd);
  }

  predicate SaysTwo(h: Heading) { h.leftRight == Some(Right) && h.frontBack.Some? }

  /** Seen by it, an object placed to the right is described as right and as in front or behind
      too. */
  lemma SkewedNamesTwo(sqrt: real -> real, ref: Body, proto: Body, cam: Camera, distance: real, align: Align)
    requires SqrtLaw(sqrt) && proto.position == ORIGIN && LeansAlongX(CameraBasis(sqrt, cam).fwd)
    requires Span(Aabb(ref), Aabb(proto), GroundDirection(Right, AxesOf(sqrt, CameraBasis(sqrt, cam))), distance)
             > DIRECTION_TOLERANCE + 0.001
    ensures var axes := AxesOf(sqrt, CameraBasis(sqrt, cam));
            var p := R3Vec(PlacePosition(ref, proto, Right, axes, distance, align));
            SaysTwo(Describe(Aabb(proto.(position := p)), Aabb(ref), axes))
  {
    LeaningIsSkewed(sqrt, CameraBasis(sqrt, cam));
    AxesValid(sqrt, CameraBasis(sqrt, cam));
    OneLineNamesTwo(ref, proto, AxesOf(sqrt, CameraBasis(sqrt, cam)), distance, align);
  }

  lemma OneLineNamesTwo(ref: Body, proto: Body, axes: GroundAxes, distance: real, align: Align)
    requires proto.position == ORIGIN && ValidAxes(axes) && OnOneLine(axes)
    requires Span(Aabb(ref), Aabb(proto), GroundDirection(Right, axes), distance) > DIRECTION_TOLERANCE + 0.001
    ensures var p := R3Vec(PlacePosition(ref, proto, Right, axes, distance, align));
            SaysTwo(Describe(Aabb(proto.(position := p)), Aabb(ref), axes))
  {
    var p := PlacePosition(ref, proto, Right, axes, distance, align);
    R3Near(p.x);
    R3Near(p.y);
    R3Near(p.z);
    var r, n, d := Aabb(ref), Aabb(proto), axes.side;
    var span := Span(r, n, d, distance);
    MovedBox(proto, R3Vec(p));
    ShiftedPlacedAt(r, n, R3Vec(p), d, span, align, 0.0005);
    OneLineDescribed(r, n, Shift(n, R3Vec(p)), axes, span, 0.0005);
  }

  lemma OneLineDescribed(r: Box, n: Box, m: Box, axes: GroundAxes, span: real, e: real)
    requires ValidAxes(axes) && OnOneLine(axes) && e >= 0.0 && span > DIRECTION_TOLERANCE + 2.0 * e
    requires PlacedAt(r, n, m, axes.side, span, e)
    ensures SaysTwo(Describe(m, r, axes))
  {
    OneLineWords(Sub(Center(m), Center(r)), axes, span, e);
  }

  lemma OneLineWords(delta: Vec3, axes: GroundAxes, span: real, e: real)
    requires ValidAxes(axes) && OnOneLine(axes) && e >= 0.0 && span > DIRECTION_TOLERANCE + 2.0 * e
    requires Near(delta.x, axes.side.x * span, e) && Near(delta.z, axes.side.z * span, e)
    ensures Word(Dot(delta, axes.side), Right, Left) == Some(Right) && Word(Dot(delta, axes.fwd), Back, Front).Some?
  {
    ComponentNear(delta, axes.side, axes.side, span, e);
    DotSymmetric(axes.fwd, delta);
    DotSymmetric(axes.side, delta);
  }

  lemma ScaledUnit(a: real, b: real, s: real)
    requires s > 0.0 && a * a + b * b == s * s
    ensures Unit(Vec3(a / s, b / s, 0.0)) && Mul(Vec3(a / s, b / s, 0.0), s) == Vec3(a, b, 0.0)
  {
    var k := 1.0 / s;
    assert k * s == 1.0 && a / s == a * k && b / s == b * k;
    assert (a * k) * (a * k) + (b * k) * (b * k) == (a * a + b * b) * (k * k) == (s * k) * (s * k);
  }

  lemma ForwardIs(sqrt: real -> real, cam: Camera, a: real, b: real, s: real)
    requires SqrtLaw(sqrt) && s > 0.000000001 && a * a + b * b == s * s
    requires cam.position == ORIGIN && cam.target == Vec3(a, b, 0.0)
    ensures CameraBasis(sqrt, cam).fwd == Vec3(a / s, b / s, 0.0) && Unit(Vec3(a / s, b / s, 0.0))
  {
    ScaledUnit(a, b, s);
    assert Sub(cam.target, cam.position) == cam.target;
    NormalizeMultiple(sqrt, Vec3(a / s, b / s, 0.0), s, BACK);
  }

  /** A view direction (a, b, 0) of length s that leans so. */
  predicate Leaning(a: real, b: real, s: real) {
    s > 0.000000001 && a * a + b * b == s * s && 0.000000001 * s < a < 0.000001 * s
  }

  lemma LeaningExists()
    ensures Leaning(0.0000004, 0.99999999999996, 1.00000000000004)
  {
  }

  lemma LeaningCamera(sqrt: real -> real, cam: Camera, a: real, b: real, s: real)
    requires SqrtLaw(sqrt) && Leaning(a, b, s)
    requires cam.position == ORIGIN && cam.target == Vec3(a, b, 0.0)
    ensures LeansAlongX(CameraBasis(sqrt, cam).fwd)
  {
    ForwardIs(sqrt, cam, a, b, s);
    Quotient(a, s, 0.000000001, 0.000001);
  }

  lemma Quotient(a: real, s: real, low: real, high: real)
    requires s > 0.0 && low * s < a < high * s
    ensures low < a / s < high
  {
    var q := a / s;
    assert q * s == a;
    if q <= low {
      MulNonNegative(low - q, s);
    }
    if q >= high {
      MulNonNegative(q - high, s);
    }
  }

  /** There is a skewed camera, and one that shows an object placed to the right as in front or
      behind too. */
  lemma SkewedExists(sqrt: real -> real)
    requires SqrtLaw(sqrt)
    ensures exists cam: Camera :: var fwd := CameraBasis(sqrt, cam).fwd; Skewed(sqrt, fwd) && LeansAlongX(fwd)
  {
    LeaningExists();
    var a, b, s :| Leaning(a, b, s);
    var cam := Camera(ORIGIN, Vec3(a, b, 0.0), 1.0);
    LeaningCamera(sqrt, cam, a, b, s);
    LeaningIsSkewed(sqrt, CameraBasis(sqrt, cam));
  }
}
