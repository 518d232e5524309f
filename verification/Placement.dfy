/**
 Placing by words and measuring back: `ground_direction`, `solve_placement`,
 `describe_direction` and the intersection part of `find_issues` (`scene_ops.py`), with the
 millimetre rounding that `do_place` applies (`recipe.py`).
 */
module Placement {
  import opened Vectors
  import opened Boxes
  import opened Gaps
  import opened Cameras

  datatype Direction = Right | Left | Back | Front | Above | Below

  datatype Align = Grounded | Centered

  /** Ground-plane part of a vector, normalised. */
  function Flat(sqrt: real -> real, v: Vec3, fallback: Vec3): Vec3 {
    Normalize(sqrt, Vec3(v.x, 0.0, v.z), fallback)
  }

  /** What the camera calls right and back, on the ground. */
  datatype GroundAxes = GroundAxes(side: Vec3, fwd: Vec3)

  function AxesOf(sqrt: real -> real, b: Basis): GroundAxes {
    GroundAxes(Flat(sqrt, b.side, Vec3(1.0, 0.0, 0.0)), Flat(sqrt, b.fwd, BACK))
  }

  /** `ground_direction`: words mean what the camera sees, not world axes. */
  function GroundDirection(d: Direction, axes: GroundAxes): Vec3 {
    match d
    case Right => axes.side
    case Left => Mul(axes.side, -1.0)
    case Back => axes.fwd
    case Front => Mul(axes.fwd, -1.0)
    case Above => Vec3(0.0, 1.0, 0.0)
    case Below => Vec3(0.0, -1.0, 0.0)
  }

  predicate Horizontal(d: Direction) { !d.Above? && !d.Below? }

  predicate GroundUnit(d: Vec3) { Unit(d) && d.y == 0.0 }

  lemma FlatIsUnit(sqrt: real -> real, v: Vec3, fallback: Vec3)
    requires SqrtLaw(sqrt) && GroundUnit(fallback)
    ensures GroundUnit(Flat(sqrt, v, fallback))
  {
    var g := Vec3(v.x, 0.0, v.z);
    if Length(sqrt, g) > 0.000000001 {
      NormalizeUnit(sqrt, g, fallback);
    }
  }

  predicate ValidAxes(axes: GroundAxes) { GroundUnit(axes.side) && GroundUnit(axes.fwd) }

  /** For every camera, both ground axes are unit vectors in the ground plane. */
  lemma AxesValid(sqrt: real -> real, b: Basis)
    requires SqrtLaw(sqrt)
    ensures ValidAxes(AxesOf(sqrt, b))
  {
    FlatIsUnit(sqrt, b.side, Vec3(1.0, 0.0, 0.0));
    FlatIsUnit(sqrt, b.fwd, BACK);
  }

  lemma DirectionIsUnit(d: Direction, axes: GroundAxes)
    requires ValidAxes(axes) && Horizontal(d)
    ensures GroundUnit(GroundDirection(d, axes))
  {
  }

  // ---- boxes move with their objects

  function Shift(b: Box, d: Vec3): Box { Box(Add(b.min, d), Add(b.max, d)) }

  lemma {:induction false} HullShift(ps: seq<Vec3>, qs: seq<Vec3>, d: Vec3)
    requires |ps| == |qs| > 0 && forall i | 0 <= i < |ps| :: qs[i] == Add(ps[i], d)
    ensures Hull(qs) == Shift(Hull(ps), d)
  {
    var n := |ps| - 1;
    if n > 0 {
      HullShift(ps[..n], qs[..n], d);
    }
  }

  lemma AabbShift(o: Body, d: Vec3)
    ensures Aabb(o.(position := Add(o.position, d))) == Shift(Aabb(o), d)
  {
    var m := o.(position := Add(o.position, d));
    var ps, qs := WorldCorners(o), WorldCorners(m);
    forall i | 0 <= i < 8 ensures qs[i] == Add(ps[i], d) {
      var v := Corner(UnitBounds(o.shape), i);
      assert ps[i] == ToWorld(o, v) && qs[i] == ToWorld(m, v);
      WorldShift(o, d, v);
    }
    HullShift(ps, qs, d);
  }

  lemma WorldShift(o: Body, d: Vec3, v: Vec3)
    ensures ToWorld(o.(position := Add(o.position, d)), v) == Add(ToWorld(o, v), d)
  {
  }

  // ---- solve_placement

  /** `solve_placement` on the boxes of the reference and of the prototype at the origin; `d` is
      the ground direction. */
  function SolvePlacement(r: Box, n: Box, dir: Direction, d: Vec3, distance: real, align: Align): Vec3 {
    var rc, nc := Center(r), Center(n);
    if dir.Above? then
      Vec3(rc.x - nc.x, r.max.y + distance - n.min.y, rc.z - nc.z)
    else if dir.Below? then
      var bottom := r.min.y - distance - Size(n).y;
      Vec3(rc.x - nc.x, (if bottom < 0.0 && align != Centered then 0.0 else bottom) - n.min.y, rc.z - nc.z)
    else
      BesidePosition(r, n, d, Span(r, n, d, distance), align)
  }

  /** The centre distance: both half extents along `d`, and the free ground between. */
  function Span(r: Box, n: Box, d: Vec3, distance: real): real { SupportHalf(r, d) + distance + SupportHalf(n, d) }

  function BesidePosition(r: Box, n: Box, d: Vec3, span: real, align: Align): Vec3 {
    var rc, nc := Center(r), Center(n);
    Vec3(rc.x + d.x * span - nc.x, if align == Centered then rc.y - nc.y else -n.min.y, rc.z + d.z * span - nc.z)
  }

  /** Half extents of two boxes along one axis, added. */
  function Reach(a0: real, a1: real, b0: real, b1: real): real { (a1 - a0) / 2.0 + (b1 - b0) / 2.0 }

  lemma AxisOverlapBound(a0: real, a1: real, b0: real, b1: real)
    ensures var delta := (b0 + b1) * 0.5 - (a0 + a1) * 0.5;
            AxisOverlap(a0, a1, b0, b1) <= Reach(a0, a1, b0, b1) - Abs(delta)
  {
  }

  /** |u| * gx + |v| * gz == distance, where g are the signed gaps that placing leaves. */
  lemma GapIdentity(u: real, v: real, hx: real, hz: real, distance: real)
    requires u * u + v * v == 1.0
    ensures var span := Abs(u) * hx + Abs(v) * hz + distance;
            Abs(u) * (Abs(u) * span - hx) + Abs(v) * (Abs(v) * span - hz) == distance
  {
    var a, b := Abs(u), Abs(v);
    assert a * a == u * u && b * b == v * v;
    var span := a * hx + b * hz + distance;
    assert a * (a * span) + b * (b * span) == (a * a + b * b) * span;
  }

  /** Cauchy-Schwarz in the plane. */
  lemma CauchySchwarz(a: real, b: real, x: real, z: real)
    requires a * a + b * b == 1.0
    ensures (a * x + b * z) * (a * x + b * z) <= x * x + z * z
  {
    SquareNonNegative(a * z - b * x);
    assert (a * x + b * z) * (a * x + b * z) + (a * z - b * x) * (a * z - b * x) == (a * a + b * b) * (x * x + z * z);
  }

  /** The signed gap left along one axis, allowing for a rounding error of `e`. */
  predicate LeavesGap(a0: real, a1: real, b0: real, b1: real, g: real, e: real) {
    AxisOverlap(a0, a1, b0, b1) <= e - g
  }

  lemma AxisGap(a0: real, a1: real, b0: real, b1: real, du: real, span: real, e: real)
    requires span >= 0.0
    requires var delta := (b0 + b1) * 0.5 - (a0 + a1) * 0.5; -e <= delta - du * span <= e
    ensures LeavesGap(a0, a1, b0, b1, Abs(du) * span - Reach(a0, a1, b0, b1), e)
  {
    AxisOverlapBound(a0, a1, b0, b1);
    if du >= 0.0 { MulNonNegative(du, span); } else { MulNonNegative(-du, span); }
  }

  predicate WeighsAtLeast(u: real, v: real, gx: real, gz: real, w: real) { Abs(u) * gx + Abs(v) * gz >= w }

  /** With `u` and `v` on the unit circle, gaps that weigh up to a non-negative distance cannot
      both be negative. */
  lemma SomeGapNonNegative(u: real, v: real, gx: real, gz: real)
    requires u * u + v * v == 1.0 && WeighsAtLeast(u, v, gx, gz, 0.0)
    ensures gx >= 0.0 || gz >= 0.0
  {
    var a, b := Abs(u), Abs(v);
    if gx < 0.0 && gz < 0.0 {
      MulNonNegative(a, -gx);
      MulNonNegative(b, -gz);
      if a > 0.0 {
        MulPositive(a, -gx);
      } else if b > 0.0 {
        MulPositive(b, -gz);
      }
    }
  }

  function Plus(x: real): real { Max(x, 0.0) }

  lemma GapSquareAtLeast(o: real, g: real)
    requires o <= -g
    ensures GapSquare(o) >= Plus(g) * Plus(g)
  {
    if g > 0.0 {
      MulNonNegative(-o - g, -o + g);
      assert (-o - g) * (-o + g) == o * o - g * g;
    }
  }

  lemma PlusWeighs(a: real, g: real)
    requires a >= 0.0
    ensures a * Plus(g) >= a * g
  {
    if g < 0.0 { MulNonNegative(a, -g); }
  }

  lemma WeightedBound(a: real, b: real, x: real, z: real, d: real)
    requires a * a + b * b == 1.0 && a * x + b * z >= d >= 0.0
    ensures x * x + z * z >= d * d
  {
    CauchySchwarz(a, b, x, z);
    var w := a * x + b * z;
    if d < w {
      SquaresOrdered(d, w);
    }
  }

  lemma AbsSquares(u: real, v: real)
    requires u * u + v * v == 1.0
    ensures Abs(u) * Abs(u) + Abs(v) * Abs(v) == 1.0
  {
  }

  /** Weighted gaps bound the diagonal distance. */
  lemma DiagonalAtLeast(u: real, v: real, gx: real, gz: real, ox: real, oz: real, d: real)
    requires u * u + v * v == 1.0 && WeighsAtLeast(u, v, gx, gz, d) && d >= 0.0
    requires ox <= -gx && oz <= -gz
    ensures GapSquare(ox) + GapSquare(oz) >= d * d
  {
    AbsSquares(u, v);
    PlusWeighs(Abs(u), gx);
    PlusWeighs(Abs(v), gz);
    WeightedBound(Abs(u), Abs(v), Plus(gx), Plus(gz), d);
    GapSquareAtLeast(ox, gx);
    GapSquareAtLeast(oz, gz);
  }

  /** Taking `e` off both gaps costs at most `2 * e` of the weighted sum. */
  lemma LessRounding(u: real, v: real, gx: real, gz: real, w: real, e: real)
    requires u * u + v * v == 1.0 && e >= 0.0 && WeighsAtLeast(u, v, gx, gz, w)
    ensures WeighsAtLeast(u, v, gx - e, gz - e, w - 2.0 * e)
  {
    AtMostOne(u, v);
    AtMostOne(v, u);
    MulNonNegative(1.0 - Abs(u), e);
    MulNonNegative(1.0 - Abs(v), e);
  }

  lemma AtMostOne(u: real, v: real)
    requires u * u + v * v == 1.0
    ensures Abs(u) <= 1.0
  {
    SquareNonNegative(v);
    AbsSquares(u, v);
    if Abs(u) > 1.0 { SquaresOrdered(1.0, Abs(u)); }
  }

  function ReachX(r: Box, n: Box): real { Reach(r.min.x, r.max.x, n.min.x, n.max.x) }

  function ReachZ(r: Box, n: Box): real { Reach(r.min.z, r.max.z, n.min.z, n.max.z) }

  lemma SpanIs(r: Box, n: Box, d: Vec3, distance: real)
    requires d.y == 0.0
    ensures Span(r, n, d, distance) == Abs(d.x) * ReachX(r, n) + Abs(d.z) * ReachZ(r, n) + distance
  {
  }

  lemma SpanNonNegative(r: Box, n: Box, d: Vec3, distance: real)
    requires Proper(r) && Proper(n) && d.y == 0.0 && distance >= 0.0
    ensures Span(r, n, d, distance) >= distance
  {
    SpanIs(r, n, d, distance);
    MulNonNegative(Abs(d.x), ReachX(r, n));
    MulNonNegative(Abs(d.z), ReachZ(r, n));
  }

  predicate Near(x: real, y: real, e: real) { -e <= x - y <= e }

  /** `m` is a box like `n`, `span` away from `r` along `d` on the ground, up to `e` per axis. */
  predicate PlacedAt(r: Box, n: Box, m: Box, d: Vec3, span: real, e: real) {
    && m.max.x - m.min.x == n.max.x - n.min.x && m.max.z - m.min.z == n.max.z - n.min.z
    && Near(Center(m).x - Center(r).x, d.x * span, e)
    && Near(Center(m).z - Center(r).z, d.z * span, e)
  }

  lemma PlacedAxis(a0: real, a1: real, n0: real, n1: real, m0: real, m1: real, du: real, span: real, e: real)
    requires span >= 0.0 && m1 - m0 == n1 - n0
    requires Near((m0 + m1) * 0.5 - (a0 + a1) * 0.5, du * span, e)
    ensures LeavesGap(a0, a1, m0, m1, Abs(du) * span - Reach(a0, a1, n0, n1), e)
  {
    AxisGap(a0, a1, m0, m1, du, span, e);
  }

  lemma PlacedAxes(r: Box, n: Box, m: Box, d: Vec3, span: real, e: real)
    requires span >= 0.0 && PlacedAt(r, n, m, d, span, e)
    ensures LeavesGap(r.min.x, r.max.x, m.min.x, m.max.x, Abs(d.x) * span - ReachX(r, n), e)
    ensures LeavesGap(r.min.z, r.max.z, m.min.z, m.max.z, Abs(d.z) * span - ReachZ(r, n), e)
  {
    PlacedAxisX(r, n, m, d, span, e);
    PlacedAxisZ(r, n, m, d, span, e);
  }

  lemma PlacedAxisX(r: Box, n: Box, m: Box, d: Vec3, span: real, e: real)
    requires span >= 0.0 && PlacedAt(r, n, m, d, span, e)
    ensures LeavesGap(r.min.x, r.max.x, m.min.x, m.max.x, Abs(d.x) * span - ReachX(r, n), e)
  {
    PlacedAxis(r.min.x, r.max.x, n.min.x, n.max.x, m.min.x, m.max.x, d.x, span, e);
  }

  lemma PlacedAxisZ(r: Box, n: Box, m: Box, d: Vec3, span: real, e: real)
    requires span >= 0.0 && PlacedAt(r, n, m, d, span, e)
    ensures LeavesGap(r.min.z, r.max.z, m.min.z, m.max.z, Abs(d.z) * span - ReachZ(r, n), e)
  {
    PlacedAxis(r.min.z, r.max.z, n.min.z, n.max.z, m.min.z, m.max.z, d.z, span, e);
  }

  lemma GapsWeigh(r: Box, n: Box, d: Vec3, distance: real, span: real)
    requires GroundUnit(d) && span == Span(r, n, d, distance)
    ensures WeighsAtLeast(d.x, d.z, Abs(d.x) * span - ReachX(r, n), Abs(d.z) * span - ReachZ(r, n), distance)
  {
    SpanIs(r, n, d, distance);
    GapIdentity(d.x, d.z, ReachX(r, n), ReachZ(r, n), distance);
  }

  lemma WeighedGaps(u: real, v: real, gx: real, gz: real, ox: real, oz: real, distance: real, e: real)
    requires u * u + v * v == 1.0 && distance >= 0.0 && e >= 0.0 && WeighsAtLeast(u, v, gx, gz, distance)
    requires ox <= e - gx && oz <= e - gz
    ensures ox <= e || oz <= e
    ensures distance >= 2.0 * e ==> ox <= 0.0 || oz <= 0.0
    ensures distance >= 2.0 * e ==> SquaresReach(ox, oz, distance - 2.0 * e)
  {
    assert WeighsAtLeast(u, v, gx, gz, 0.0);
    SomeGapNonNegative(u, v, gx, gz);
    if distance >= 2.0 * e {
      LessRounding(u, v, gx, gz, distance, e);
      RoundedGaps(u, v, gx - e, gz - e, ox, oz, distance - 2.0 * e);
    }
  }

  lemma RoundedGaps(u: real, v: real, gx: real, gz: real, ox: real, oz: real, w: real)
    requires u * u + v * v == 1.0 && w >= 0.0 && WeighsAtLeast(u, v, gx, gz, w) && ox <= -gx && oz <= -gz
    ensures (ox <= 0.0 || oz <= 0.0) && SquaresReach(ox, oz, w)
  {
    assert WeighsAtLeast(u, v, gx, gz, 0.0);
    SomeGapNonNegative(u, v, gx, gz);
    DiagonalAtLeast(u, v, gx, gz, ox, oz, w);
  }

  predicate SquaresReach(ox: real, oz: real, w: real) { GapSquare(ox) + GapSquare(oz) >= w * w }

  predicate GapReaches(o: Vec3, w: real) { !AllPositive(o) && GapSquares(o) >= w * w }

  lemma BesideSquares(o: Vec3, w: real)
    requires SquaresReach(o.x, o.z, w) && (o.x <= 0.0 || o.z <= 0.0)
    ensures GapReaches(o, w)
  {
  }

  /** The box facts behind placing sideways. */
  lemma Beside(r: Box, n: Box, m: Box, d: Vec3, distance: real, span: real, e: real)
    requires Proper(r) && Proper(n) && GroundUnit(d) && distance >= 0.0 && e >= 0.0
    requires span == Span(r, n, d, distance) && PlacedAt(r, n, m, d, span, e)
    ensures Least(Overlap(r, m)) <= e
    ensures distance >= 2.0 * e ==> GapReaches(Overlap(r, m), distance - 2.0 * e)
  {
    SpanNonNegative(r, n, d, distance);
    GapsWeigh(r, n, d, distance, span);
    PlacedAxes(r, n, m, d, span, e);
    BesideWith(r, m, d, Abs(d.x) * span - ReachX(r, n), Abs(d.z) * span - ReachZ(r, n), distance, e);
  }

  lemma BesideWith(r: Box, m: Box, d: Vec3, gx: real, gz: real, distance: real, e: real)
    requires GroundUnit(d) && distance >= 0.0 && e >= 0.0 && WeighsAtLeast(d.x, d.z, gx, gz, distance)
    requires LeavesGap(r.min.x, r.max.x, m.min.x, m.max.x, gx, e)
    requires LeavesGap(r.min.z, r.max.z, m.min.z, m.max.z, gz, e)
    ensures Least(Overlap(r, m)) <= e
    ensures distance >= 2.0 * e ==> GapReaches(Overlap(r, m), distance - 2.0 * e)
  {
    var o := Overlap(r, m);
    WeighedGaps(d.x, d.z, gx, gz, o.x, o.z, distance, e);
    if distance >= 2.0 * e {
      BesideSquares(o, distance - 2.0 * e);
    }
  }

  // ---- the promise of `place`

  /** Where `place` puts `proto`, a prototype whose own position is the origin. */
  function PlacePosition(ref: Body, proto: Body, dir: Direction, axes: GroundAxes, distance: real, align: Align): Vec3 {
    SolvePlacement(Aabb(ref), Aabb(proto), dir, GroundDirection(dir, axes), distance, align)
  }

  predicate NearVec(p: Vec3, q: Vec3, e: real) { Near(p.x, q.x, e) && Near(p.y, q.y, e) && Near(p.z, q.z, e) }

  const ORIGIN := Vec3(0.0, 0.0, 0.0)

  lemma HullProper(ps: seq<Vec3>)
    requires |ps| > 0
    ensures Proper(Hull(ps))
  {
    HullTight(ps);
    assert Inside(ps[0], Hull(ps));
  }

  lemma MovedBox(proto: Body, p: Vec3)
    requires proto.position == ORIGIN
    ensures Aabb(proto.(position := p)) == Shift(Aabb(proto), p)
  {
    AabbShift(proto, p);
    assert Add(proto.position, p) == p;
  }

  lemma ShiftedPlacedAt(r: Box, n: Box, p: Vec3, d: Vec3, span: real, align: Align, e: real)
    requires NearVec(p, BesidePosition(r, n, d, span, align), e)
    ensures PlacedAt(r, n, Shift(n, p), d, span, e)
  {
    assert Center(Shift(n, p)).x == Center(n).x + p.x && Center(Shift(n, p)).z == Center(n).z + p.z;
  }

  /** Placing sideways at a distance of at least zero, for every camera and every two objects:
      the boxes overlap by no more than the rounding error on their shallowest axis, and if the
      distance exceeds twice the error they are apart by at least the distance less that. */
  lemma PlacedBesideIsApart(sqrt: real -> real, ref: Body, proto: Body, dir: Direction, axes: GroundAxes,
                            distance: real, align: Align, p: Vec3, e: real)
    requires SqrtLaw(sqrt) && ValidAxes(axes) && Horizontal(dir) && distance >= 0.0 && e >= 0.0
    requires proto.position == ORIGIN && NearVec(p, PlacePosition(ref, proto, dir, axes, distance, align), e)
    ensures var r := Aabb(ref); var m := Aabb(proto.(position := p));
            && Least(Overlap(r, m)) <= e
            && (distance >= 2.0 * e ==> SurfaceGap(sqrt, r, m) >= distance - 2.0 * e)
  {
    var r, n, d := Aabb(ref), Aabb(proto), GroundDirection(dir, axes);
    var span := Span(r, n, d, distance);
    DirectionIsUnit(dir, axes);
    HullProper(WorldCorners(ref));
    HullProper(WorldCorners(proto));
    MovedBox(proto, p);
    ShiftedPlacedAt(r, n, p, d, span, align, e);
    BesideGap(sqrt, r, n, Shift(n, p), d, distance, span, e);
  }

  lemma BesideGap(sqrt: real -> real, r: Box, n: Box, m: Box, d: Vec3, distance: real, span: real, e: real)
    requires SqrtLaw(sqrt) && Proper(r) && Proper(n) && GroundUnit(d) && distance >= 0.0 && e >= 0.0
    requires span == Span(r, n, d, distance) && PlacedAt(r, n, m, d, span, e)
    ensures Least(Overlap(r, m)) <= e
    ensures distance >= 2.0 * e ==> SurfaceGap(sqrt, r, m) >= distance - 2.0 * e
  {
    Beside(r, n, m, d, distance, span, e);
    if distance >= 2.0 * e {
      GapAtLeast(sqrt, r, m, distance - 2.0 * e);
    }
  }

  const CUBE := Box(Vec3(0.0, 0.0, 0.0), Vec3(2.0, 2.0, 2.0))

  lemma GapAtLeast(sqrt: real -> real, r: Box, m: Box, w: real)
    requires SqrtLaw(sqrt) && w >= 0.0 && GapReaches(Overlap(r, m), w)
    ensures SurfaceGap(sqrt, r, m) >= w
  {
    RootAtLeast(sqrt, GapSquares(Overlap(r, m)), w);
  }

  lemma RootAtLeast(sqrt: real -> real, x: real, w: real)
    requires SqrtLaw(sqrt) && w >= 0.0 && x >= w * w
    ensures sqrt(x) >= w
  {
    SquareNonNegative(w);
    RootMonotone(w, sqrt(x));
  }

  // ---- above and below

  /** `below` would go under the ground, and is put on it instead. */
  predicate Lifted(r: Box, n: Box, dir: Direction, distance: real, align: Align) {
    dir.Below? && align != Centered && r.min.y - distance - Size(n).y < 0.0
  }

  predicate HasVolume(b: Box) { AllPositive(Size(b)) }

  /** A reference that reaches into the layer a lifted box stands in. */
  predicate InTheWay(r: Box, n: Box) { HasVolume(r) && HasVolume(n) && r.max.y > 0.0 && r.min.y < Size(n).y }

  /** The room between the reference and that layer. */
  function Room(r: Box, n: Box): real { Max(0.0, Max(-r.max.y, r.min.y - Size(n).y)) }

  /** The overlap a vertical word leaves on each axis. */
  lemma VerticalOverlap(r: Box, n: Box, dir: Direction, d: Vec3, distance: real, align: Align)
    requires Proper(r) && Proper(n) && distance >= 0.0 && !Horizontal(dir)
    ensures var o := Overlap(r, Shift(n, SolvePlacement(r, n, dir, d, distance, align)));
            && o.x == Min(Size(r).x, Size(n).x) && o.z == Min(Size(r).z, Size(n).z)
            && (!Lifted(r, n, dir, distance, align) ==> o.y == -distance)
            && (Lifted(r, n, dir, distance, align) ==> o.y == Min(r.max.y, Size(n).y) - Max(r.min.y, 0.0))
  {
  }

  /** A lifted box and the reference: what the overlap on the vertical axis says. */
  lemma LiftedOverlap(r: Box, n: Box, o: Vec3)
    requires Proper(r) && Proper(n)
    requires o.x == Min(Size(r).x, Size(n).x) && o.z == Min(Size(r).z, Size(n).z)
    requires o.y == Min(r.max.y, Size(n).y) - Max(r.min.y, 0.0)
    ensures AllPositive(o) <==> InTheWay(r, n)
    ensures o.y <= 0.0 ==> -o.y == Room(r, n)
    ensures o.y > 0.0 ==> Room(r, n) == 0.0
  {
  }

  lemma ZeroGapSquare(o: real)
    requires o >= 0.0
    ensures GapSquare(o) == 0.0
  {
  }

  /** The vertical words keep the distance exactly unless lifted. A lifted box overlaps its
      reference if and only if that is in the way; else it stands as far off as there is room, and
      keeps the distance exactly when the reference lies that deep below the ground, or no distance
      was asked for. */
  lemma PlacedVerticallyKeepsDistance(sqrt: real -> real, ref: Body, proto: Body, dir: Direction, axes: GroundAxes,
                                      distance: real, align: Align)
    requires SqrtLaw(sqrt) && distance >= 0.0 && !Horizontal(dir) && proto.position == ORIGIN
    ensures var r, n := Aabb(ref), Aabb(proto);
            var placed := proto.(position := PlacePosition(ref, proto, dir, axes, distance, align));
            var gap := SurfaceGap(sqrt, r, Aabb(placed));
            && (!Lifted(r, n, dir, distance, align) ==> gap == distance)
            && (Lifted(r, n, dir, distance, align) ==>
                  && (gap < 0.0 <==> InTheWay(r, n))
                  && (!InTheWay(r, n) ==> gap == Room(r, n))
                  && (gap >= distance <==> !InTheWay(r, n) && (distance == 0.0 || r.max.y + distance <= 0.0)))
  {
    var r, n := Aabb(ref), Aabb(proto);
    HullProper(WorldCorners(ref));
    HullProper(WorldCorners(proto));
    MovedBox(proto, PlacePosition(ref, proto, dir, axes, distance, align));
    BoxPlacedVertically(sqrt, r, n, dir, GroundDirection(dir, axes), distance, align);
  }

  lemma BoxPlacedVertically(sqrt: real -> real, r: Box, n: Box, dir: Direction, d: Vec3, distance: real, align: Align)
    requires SqrtLaw(sqrt) && Proper(r) && Proper(n) && distance >= 0.0 && !Horizontal(dir)
    ensures var gap := SurfaceGap(sqrt, r, Shift(n, SolvePlacement(r, n, dir, d, distance, align)));
            && (!Lifted(r, n, dir, distance, align) ==> gap == distance)
            && (Lifted(r, n, dir, distance, align) ==>
                  && (gap < 0.0 <==> InTheWay(r, n))
                  && (!InTheWay(r, n) ==> gap == Room(r, n))
                  && (gap >= distance <==> !InTheWay(r, n) && (distance == 0.0 || r.max.y + distance <= 0.0)))
  {
    var m := Shift(n, SolvePlacement(r, n, dir, d, distance, align));
    var o := Overlap(r, m);
    VerticalOverlap(r, n, dir, d, distance, align);
    VerticalGap(sqrt, r, m, o);
    if Lifted(r, n, dir, distance, align) {
      LiftedOverlap(r, n, o);
      RoomAtLeast(r, n, distance);
    }
  }

  lemma RoomAtLeast(r: Box, n: Box, distance: real)
    requires Proper(r) && distance >= 0.0 && r.min.y - distance - Size(n).y < 0.0
    ensures Room(r, n) >= distance <==> distance == 0.0 || r.max.y + distance <= 0.0
  {
  }

  /** A cube put a metre below a cube that stands on the ground is put into it, two metres deep. */
  lemma BelowGoesInto(sqrt: real -> real, d: Vec3)
    ensures Lifted(CUBE, CUBE, Below, 1.0, Grounded)
    ensures SurfaceGap(sqrt, CUBE, Shift(CUBE, SolvePlacement(CUBE, CUBE, Below, d, 1.0, Grounded))) == -2.0
  {
    CubeBelow(d);
    CubeGap(sqrt);
  }

  lemma CubeGap(sqrt: real -> real)
    ensures SurfaceGap(sqrt, CUBE, CUBE) == -2.0
  {
    SelfGap(sqrt, CUBE);
    assert Least(Vec3(2.0, 2.0, 2.0)) == 2.0;
  }

  lemma CubeBelow(d: Vec3)
    ensures Lifted(CUBE, CUBE, Below, 1.0, Grounded) && Size(CUBE) == Vec3(2.0, 2.0, 2.0)
    ensures Shift(CUBE, SolvePlacement(CUBE, CUBE, Below, d, 1.0, Grounded)) == CUBE
  {
    assert Size(CUBE).y == 2.0;
    assert SolvePlacement(CUBE, CUBE, Below, d, 1.0, Grounded) == ORIGIN;
  }

  /** A box overlaps itself by its smallest side. */
  lemma SelfGap(sqrt: real -> real, b: Box)
    requires HasVolume(b)
    ensures SurfaceGap(sqrt, b, b) == -Least(Size(b))
  {
    assert Overlap(b, b) == Size(b);
  }

  /** With the ground footprints overlapping, only the vertical axis counts. */
  lemma VerticalGap(sqrt: real -> real, r: Box, m: Box, o: Vec3)
    requires SqrtLaw(sqrt) && o == Overlap(r, m) && o.x >= 0.0 && o.z >= 0.0
    ensures o.y <= 0.0 ==> SurfaceGap(sqrt, r, m) == -o.y
    ensures AllPositive(o) <==> SurfaceGap(sqrt, r, m) < 0.0
    ensures o.y > 0.0 && !AllPositive(o) ==> SurfaceGap(sqrt, r, m) == 0.0
  {
    ZeroGapSquare(o.x);
    ZeroGapSquare(o.z);
    if o.y <= 0.0 {
      RootUnique(sqrt(GapSquares(o)), -o.y);
    } else if !AllPositive(o) {
      ZeroGapSquare(o.y);
      RootUnique(sqrt(0.0), 0.0);
    }
  }
}
