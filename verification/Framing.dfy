/**
 `solve_frame`: back off along the current line of sight until a box fits the picture, without
 touching the field of view, and stay above the ground.
 */
module Framing {
  import opened Vectors
  import opened Boxes
  import opened Gaps
  import opened Cameras

  const MIN_CAMERA_Y := 0.3

  /** A lens: tangents of the half view angles, horizontal (tv * aspect) and vertical. */
  datatype Lens = Lens(tv: real, aspect: real) {
    predicate Valid() { tv > 0.0 && aspect > 0.0 }
    function Th(): real { tv * aspect }
  }

  lemma ThPositive(l: Lens)
    requires l.Valid()
    ensures l.Th() > 0.0
  {
    MulPositive(l.tv, l.aspect);
  }

  /** How far along one picture axis a point needs the camera: its offset over the view angle. */
  function AxisWant(rel: Vec3, axis: Vec3, t: real, margin: real): real
    requires t > 0.0
  {
    Abs(Dot(rel, axis)) * (1.0 + margin) / t
  }

  /** How far the camera must back off for one point; points nearer to the camera need more. */
  function PointNeed(rel: Vec3, fwd: Vec3, s: Vec3, u: Vec3, l: Lens, margin: real): real
    requires l.Valid()
  {
    ThPositive(l);
    Max(AxisWant(rel, s, l.Th(), margin), AxisWant(rel, u, l.tv, margin)) - Dot(rel, fwd)
  }

  function CornerNeed(b: Box, fwd: Vec3, s: Vec3, u: Vec3, l: Lens, margin: real, i: nat): real
    requires l.Valid()
  {
    PointNeed(Sub(Corner(b, i), Center(b)), fwd, s, u, l, margin)
  }

  ghost predicate Enough(b: Box, fwd: Vec3, s: Vec3, u: Vec3, l: Lens, margin: real, d: real)
    requires l.Valid()
  {
    d >= 1.0 && forall i | 0 <= i < 8 :: CornerNeed(b, fwd, s, u, l, margin, i) <= d
  }

  /** The largest of one metre and the first `n` values. */
  function Largest(f: nat -> real, n: nat): real {
    if n == 0 then 1.0 else Max(Largest(f, n - 1), f(n - 1))
  }

  ghost predicate Bounds(f: nat -> real, n: nat, d: real) { d >= 1.0 && forall i: nat | i < n :: f(i) <= d }

  lemma {:induction false} LargestIsLeastBound(f: nat -> real, n: nat)
    ensures Bounds(f, n, Largest(f, n))
    ensures forall d | Bounds(f, n, d) :: Largest(f, n) <= d
  {
    if n > 0 {
      LargestIsLeastBound(f, n - 1);
      forall d | Bounds(f, n, d) ensures Largest(f, n) <= d {
        assert Bounds(f, n - 1, d);
      }
    }
  }

  function Needs(b: Box, fwd: Vec3, s: Vec3, u: Vec3, l: Lens, margin: real): nat -> real
    requires l.Valid()
  {
    (i: nat) => CornerNeed(b, fwd, s, u, l, margin, i)
  }

  /** `distance_for`, at the direction `away` from the centre of the box to the camera. */
  function DistanceFor(sqrt: real -> real, b: Box, l: Lens, margin: real, away: Vec3): real
    requires l.Valid()
  {
    var fwd := Mul(away, -1.0);
    var s := SideOf(sqrt, fwd);
    Largest(Needs(b, fwd, s, Cross(s, fwd), l, margin), 8)
  }

  /** It is the least distance of at least one metre that is enough for all eight corners. */
  lemma DistanceLeast(sqrt: real -> real, b: Box, l: Lens, margin: real, away: Vec3)
    requires l.Valid()
    ensures var fwd := Mul(away, -1.0); var s := SideOf(sqrt, fwd); var u := Cross(s, fwd);
            var need := DistanceFor(sqrt, b, l, margin, away);
            && Enough(b, fwd, s, u, l, margin, need)
            && forall d | Enough(b, fwd, s, u, l, margin, d) :: need <= d
  {
    var fwd := Mul(away, -1.0);
    var s := SideOf(sqrt, fwd);
    LeastEnough(b, fwd, s, Cross(s, fwd), l, margin);
  }

  lemma LeastEnough(b: Box, fwd: Vec3, s: Vec3, u: Vec3, l: Lens, margin: real)
    requires l.Valid()
    ensures var need := Largest(Needs(b, fwd, s, u, l, margin), 8);
            && Enough(b, fwd, s, u, l, margin, need)
            && forall d | Enough(b, fwd, s, u, l, margin, d) :: need <= d
  {
    var f := Needs(b, fwd, s, u, l, margin);
    LargestIsLeastBound(f, 8);
    assert forall i: nat :: f(i) == CornerNeed(b, fwd, s, u, l, margin, i);
    assert forall d :: Enough(b, fwd, s, u, l, margin, d) ==> Bounds(f, 8, d);
  }

  /** The loop of `distance_for`. */
  method LargestNeed(f: nat -> real) returns (need: real)
    ensures need == Largest(f, 8)
    ensures need == 1.0 || exists i: nat :: i < 8 && f(i) == need
  {
    need := 1.0;
    for i := 0 to 8
      invariant need == Largest(f, i)
      invariant need == 1.0 || exists k: nat :: k < i && f(k) == need
    {
      need := Max(need, f(i));
    }
  }

  predicate Fits(q: Ndc, margin: real) { Abs(q.x) * (1.0 + margin) <= 1.0 && Abs(q.y) * (1.0 + margin) <= 1.0 }

  /** Every point of the box that projects at all does so within 1 / (1 + margin) of the centre. */
  ghost predicate Framed(c: Basis, b: Box, l: Lens, margin: real)
    requires l.Valid()
  {
    forall p | Inside(p, b) ::
      var q := ProjectIn(c, 1.0 / l.tv / l.aspect, 1.0 / l.tv, p); q.Some? ==> Fits(q.value, margin)
  }

  // ---- why the distance is enough

  /** Seen from `center + away * dist`, offsets across the view are unchanged and depths grow
      by `dist`. */
  lemma SeenFrom(p: Vec3, center: Vec3, away: Vec3, dist: real, a: Vec3)
    ensures Dot(Sub(p, Add(center, Mul(away, dist))), a) == Dot(Sub(p, center), a) - dist * Dot(away, a)
  {
  }

  lemma PoseBasis(sqrt: real -> real, center: Vec3, away: Vec3, dist: real)
    requires SqrtLaw(sqrt) && Unit(away) && dist >= 1.0
    ensures Forward(sqrt, Add(center, Mul(away, dist)), center) == Mul(away, -1.0)
  {
    var fwd := Mul(away, -1.0);
    assert Unit(fwd);
    assert Sub(center, Add(center, Mul(away, dist))) == Mul(fwd, dist);
    NormalizeMultiple(sqrt, fwd, dist, BACK);
  }

  predicate AxisOk(rel: Vec3, axis: Vec3, t: real, margin: real, depth: real) {
    Abs(Dot(rel, axis)) * (1.0 + margin) <= t * depth
  }

  lemma NeedIsAxisOk(rel: Vec3, fwd: Vec3, s: Vec3, u: Vec3, l: Lens, margin: real, d: real)
    requires l.Valid() && PointNeed(rel, fwd, s, u, l, margin) <= d
    ensures AxisOk(rel, s, l.Th(), margin, Dot(rel, fwd) + d)
    ensures AxisOk(rel, u, l.tv, margin, Dot(rel, fwd) + d)
  {
    ThPositive(l);
    WantIsOk(rel, s, l.Th(), margin, Dot(rel, fwd) + d);
    WantIsOk(rel, u, l.tv, margin, Dot(rel, fwd) + d);
  }

  lemma WantIsOk(rel: Vec3, axis: Vec3, t: real, margin: real, depth: real)
    requires t > 0.0
    ensures AxisWant(rel, axis, t, margin) <= depth <==> AxisOk(rel, axis, t, margin, depth)
  {
    QuotientBound(Abs(Dot(rel, axis)) * (1.0 + margin), t, depth);
  }

  /** The two one-sided linear bounds behind `AxisOk`. */
  lemma AxisOkSides(rel: Vec3, axis: Vec3, k: real, t: real, fwd: Vec3, d: real)
    requires k >= 0.0
    ensures Abs(Dot(rel, axis)) * k <= t * (Dot(rel, fwd) + d) <==>
            Dot(rel, axis) * k <= t * (Dot(rel, fwd) + d) && -Dot(rel, axis) * k <= t * (Dot(rel, fwd) + d)
  {
    AbsTimes(Dot(rel, axis), k);
  }

  lemma AbsTimes(x: real, k: real)
    requires k >= 0.0
    ensures Abs(x) * k >= x * k && Abs(x) * k >= -x * k && (Abs(x) * k == x * k || Abs(x) * k == -x * k)
  {
    if x < 0.0 { MulNonNegative(-x, k); } else { MulNonNegative(x, k); }
  }

  /** What holds at the corners holds at every point of the box. */
  lemma AxisOkOnBox(b: Box, center: Vec3, axis: Vec3, t: real, margin: real, fwd: Vec3, d: real, p: Vec3)
    requires Inside(p, b) && 1.0 + margin >= 0.0
    requires forall i | 0 <= i < 8 ::
               AxisOk(Sub(Corner(b, i), center), axis, t, margin, Dot(Sub(Corner(b, i), center), fwd) + d)
    ensures AxisOk(Sub(p, center), axis, t, margin, Dot(Sub(p, center), fwd) + d)
  {
    var k := 1.0 + margin;
    forall i | 0 <= i < 8
      ensures Side(Sub(Corner(b, i), center), axis, k, t, fwd, d)
              && Side(Sub(Corner(b, i), center), axis, -k, t, fwd, d)
    {
      AxisOkIsSides(Sub(Corner(b, i), center), axis, t, margin, fwd, d);
    }
    SideOnBox(b, center, axis, k, t, fwd, d, p);
    SideOnBox(b, center, axis, -k, t, fwd, d, p);
    AxisOkIsSides(Sub(p, center), axis, t, margin, fwd, d);
  }

  lemma AxisOkIsSides(rel: Vec3, axis: Vec3, t: real, margin: real, fwd: Vec3, d: real)
    requires 1.0 + margin >= 0.0
    ensures AxisOk(rel, axis, t, margin, Dot(rel, fwd) + d) <==>
            Side(rel, axis, 1.0 + margin, t, fwd, d) && Side(rel, axis, -(1.0 + margin), t, fwd, d)
  {
    var k := 1.0 + margin;
    AxisOkSides(rel, axis, k, t, fwd, d);
    assert Dot(rel, axis) * -k == -Dot(rel, axis) * k;
  }

  predicate Side(rel: Vec3, axis: Vec3, k: real, t: real, fwd: Vec3, d: real) {
    Dot(rel, axis) * k <= t * (Dot(rel, fwd) + d)
  }

  lemma SideIsAffine(q: Vec3, center: Vec3, axis: Vec3, k: real, t: real, fwd: Vec3, d: real)
    ensures var n := Sub(Mul(axis, k), Mul(fwd, t));
            Side(Sub(q, center), axis, k, t, fwd, d) <==> Dot(n, q) <= Dot(n, center) + t * d
  {
    var n := Sub(Mul(axis, k), Mul(fwd, t));
    var rel := Sub(q, center);
    DotSub(n, q, center);
    DotSub(rel, Mul(axis, k), Mul(fwd, t));
    DotMul(rel, axis, k);
    DotMul(rel, fwd, t);
    Distribute(t, Dot(rel, fwd), d);
  }

  lemma Distribute(t: real, x: real, y: real)
    ensures t * (x + y) == t * x + t * y
  {
  }

  lemma SideOnBox(b: Box, center: Vec3, axis: Vec3, k: real, t: real, fwd: Vec3, d: real, p: Vec3)
    requires Inside(p, b) && forall i | 0 <= i < 8 :: Side(Sub(Corner(b, i), center), axis, k, t, fwd, d)
    ensures Side(Sub(p, center), axis, k, t, fwd, d)
  {
    var n := Sub(Mul(axis, k), Mul(fwd, t));
    forall i | 0 <= i < 8 ensures Dot(n, Corner(b, i)) <= Dot(n, center) + t * d {
      SideIsAffine(Corner(b, i), center, axis, k, t, fwd, d);
    }
    AffineOnBox(n, Dot(n, center) + t * d, b, p);
    SideIsAffine(p, center, axis, k, t, fwd, d);
  }

  /** A screen coordinate is within the margin when its offset is. */
  lemma RatioFits(x: real, t: real, k: real, m: real, depth: real)
    requires t > 0.0 && depth > 0.0 && k * t == 1.0
    requires Abs(x) * m <= t * depth
    ensures Abs(k * x / depth) * m <= 1.0
  {
    var q := k * x / depth;
    assert q * depth == k * x;
    assert q * (depth * t) == x by { assert q * depth * t == k * x * t == x * (k * t); }
    MulPositive(depth, t);
    ScaledAbs(q, depth * t, m);
    if Abs(q) * m > 1.0 {
      MulPositive(Abs(q) * m - 1.0, depth * t);
    }
  }

  lemma ScaledAbs(q: real, d: real, m: real)
    requires d > 0.0
    ensures Abs(q * d) * m == Abs(q) * m * d
  {
    if q >= 0.0 {
      MulNonNegative(q, d);
    } else {
      MulPositive(-q, d);
      assert Abs(q * d) == -(q * d);
    }
  }

  lemma AxisFits(rel: Vec3, eyeRel: Vec3, axis: Vec3, fwd: Vec3, k: real, t: real, margin: real, d: real)
    requires t > 0.0 && k * t == 1.0
    requires Dot(eyeRel, axis) == Dot(rel, axis) && Dot(eyeRel, fwd) == Dot(rel, fwd) + d
    requires Dot(eyeRel, fwd) >= NEAR && AxisOk(rel, axis, t, margin, Dot(rel, fwd) + d)
    ensures Abs(Ratio(k, axis, fwd, eyeRel)) * (1.0 + margin) <= 1.0
  {
    RatioFits(Dot(eyeRel, axis), t, k, 1.0 + margin, Dot(eyeRel, fwd));
  }

  lemma NegativeFits(q: Ndc, margin: real)
    requires 1.0 + margin < 0.0
    ensures Fits(q, margin)
  {
    MulNonNegative(Abs(q.x), -(1.0 + margin));
    MulNonNegative(Abs(q.y), -(1.0 + margin));
  }

  lemma BoxOk(b: Box, c: Basis, l: Lens, margin: real, dist: real, p: Vec3)
    requires l.Valid() && Inside(p, b) && 1.0 + margin >= 0.0
    requires Enough(b, c.fwd, c.side, c.up, l, margin, dist)
    ensures var rel := Sub(p, Center(b));
            && AxisOk(rel, c.side, l.Th(), margin, Dot(rel, c.fwd) + dist)
            && AxisOk(rel, c.up, l.tv, margin, Dot(rel, c.fwd) + dist)
  {
    var center := Center(b);
    forall i | 0 <= i < 8
      ensures var rel := Sub(Corner(b, i), center);
              && AxisOk(rel, c.side, l.Th(), margin, Dot(rel, c.fwd) + dist)
              && AxisOk(rel, c.up, l.tv, margin, Dot(rel, c.fwd) + dist)
    {
      assert CornerNeed(b, c.fwd, c.side, c.up, l, margin, i) <= dist;
      NeedIsAxisOk(Sub(Corner(b, i), center), c.fwd, c.side, c.up, l, margin, dist);
    }
    AxisOkOnBox(b, center, c.side, l.Th(), margin, c.fwd, dist, p);
    AxisOkOnBox(b, center, c.up, l.tv, margin, c.fwd, dist, p);
  }

  lemma EyeOffsets(c: Basis, center: Vec3, away: Vec3, dist: real, p: Vec3)
    requires c.eye == Add(center, Mul(away, dist))
    requires Dot(away, c.side) == 0.0 && Dot(away, c.up) == 0.0 && Dot(away, c.fwd) == -1.0
    ensures Dot(Sub(p, c.eye), c.side) == Dot(Sub(p, center), c.side)
    ensures Dot(Sub(p, c.eye), c.up) == Dot(Sub(p, center), c.up)
    ensures Dot(Sub(p, c.eye), c.fwd) == Dot(Sub(p, center), c.fwd) + dist
  {
    SeenFrom(p, center, away, dist, c.side);
    SeenFrom(p, center, away, dist, c.up);
    SeenFrom(p, center, away, dist, c.fwd);
  }

  /** Along one picture axis, the point is within the margin if it is visible at all. */
  predicate AxisFine(k: real, axis: Vec3, fwd: Vec3, eyeRel: Vec3, margin: real) {
    Dot(eyeRel, fwd) >= NEAR ==> Abs(Ratio(k, axis, fwd, eyeRel)) * (1.0 + margin) <= 1.0
  }

  lemma AxisFineFrom(rel: Vec3, eyeRel: Vec3, axis: Vec3, fwd: Vec3, k: real, t: real, margin: real, d: real)
    requires t > 0.0 && k * t == 1.0
    requires Dot(eyeRel, axis) == Dot(rel, axis) && Dot(eyeRel, fwd) == Dot(rel, fwd) + d
    requires AxisOk(rel, axis, t, margin, Dot(rel, fwd) + d)
    ensures AxisFine(k, axis, fwd, eyeRel, margin)
  {
    if Dot(eyeRel, fwd) >= NEAR {
      AxisFits(rel, eyeRel, axis, fwd, k, t, margin, d);
    }
  }

  lemma FineFits(c: Basis, kx: real, ky: real, margin: real, p: Vec3)
    requires AxisFine(kx, c.side, c.fwd, Sub(p, c.eye), margin) && AxisFine(ky, c.up, c.fwd, Sub(p, c.eye), margin)
    ensures var q := ProjectIn(c, kx, ky, p); q.Some? ==> Fits(q.value, margin)
  {
  }

  lemma FitsIn(b: Box, c: Basis, away: Vec3, dist: real, l: Lens, kx: real, ky: real, margin: real, p: Vec3)
    requires l.Valid() && kx * l.Th() == 1.0 && ky * l.tv == 1.0 && Inside(p, b)
    requires c.eye == Add(Center(b), Mul(away, dist))
    requires Dot(away, c.side) == 0.0 && Dot(away, c.up) == 0.0 && Dot(away, c.fwd) == -1.0
    requires Enough(b, c.fwd, c.side, c.up, l, margin, dist)
    ensures var q := ProjectIn(c, kx, ky, p); q.Some? ==> Fits(q.value, margin)
  {
    if 1.0 + margin < 0.0 {
      if ProjectIn(c, kx, ky, p).Some? { NegativeFits(ProjectIn(c, kx, ky, p).value, margin); }
    } else {
      BoxOk(b, c, l, margin, dist, p);
      EyeOffsets(c, Center(b), away, dist, p);
      ThPositive(l);
      AxisFineFrom(Sub(p, Center(b)), Sub(p, c.eye), c.side, c.fwd, kx, l.Th(), margin, dist);
      AxisFineFrom(Sub(p, Center(b)), Sub(p, c.eye), c.up, c.fwd, ky, l.tv, margin, dist);
      FineFits(c, kx, ky, margin, p);
    }
  }

  lemma LensFactors(l: Lens)
    requires l.Valid()
    ensures 1.0 / l.tv / l.aspect * l.Th() == 1.0 && 1.0 / l.tv * l.tv == 1.0
  {
    var ky := 1.0 / l.tv;
    var kx := ky / l.aspect;
    assert kx * l.aspect == ky && ky * l.tv == 1.0;
    assert kx * (l.tv * l.aspect) == kx * l.aspect * l.tv;
  }

  /** The axes of a camera at `center + away * dist` that looks at `center`. */
  function PoseAxes(center: Vec3, away: Vec3, dist: real, s: Vec3): Basis {
    var fwd := Mul(away, -1.0);
    Basis(Add(center, Mul(away, dist)), fwd, s, Cross(s, fwd))
  }

  lemma AxesOrthogonal(away: Vec3, s: Vec3)
    requires Unit(away) && Dot(Mul(away, -1.0), s) == 0.0
    ensures var fwd := Mul(away, -1.0);
            Dot(away, s) == 0.0 && Dot(away, Cross(s, fwd)) == 0.0 && Dot(away, fwd) == -1.0
  {
    var fwd := Mul(away, -1.0);
    CrossOrthogonal(s, fwd);
    DotNegate(away, s);
    DotNegate(away, Cross(s, fwd));
  }

  lemma PoseFramesIn(b: Box, away: Vec3, dist: real, s: Vec3, l: Lens, margin: real)
    requires l.Valid() && Unit(away) && Dot(Mul(away, -1.0), s) == 0.0
    requires Enough(b, Mul(away, -1.0), s, Cross(s, Mul(away, -1.0)), l, margin, dist)
    ensures Framed(PoseAxes(Center(b), away, dist, s), b, l, margin)
  {
    var c := PoseAxes(Center(b), away, dist, s);
    LensFactors(l);
    AxesOrthogonal(away, s);
    forall p | Inside(p, b)
      ensures var q := ProjectIn(c, 1.0 / l.tv / l.aspect, 1.0 / l.tv, p); q.Some? ==> Fits(q.value, margin)
    {
      FitsIn(b, c, away, dist, l, 1.0 / l.tv / l.aspect, 1.0 / l.tv, margin, p);
    }
  }

  lemma NegatedUnit(away: Vec3)
    requires Unit(away)
    ensures Unit(Mul(away, -1.0))
  {
  }

  lemma PoseCamera(sqrt: real -> real, center: Vec3, away: Vec3, dist: real, tv: real)
    requires SqrtLaw(sqrt) && Unit(away) && dist >= 1.0
    ensures CameraBasis(sqrt, Camera(Add(center, Mul(away, dist)), center, tv)) ==
            PoseAxes(center, away, dist, SideOf(sqrt, Mul(away, -1.0)))
  {
    PoseBasis(sqrt, center, away, dist);
  }

  lemma SideAcross(sqrt: real -> real, away: Vec3)
    requires SqrtLaw(sqrt) && Unit(away)
    ensures Dot(Mul(away, -1.0), SideOf(sqrt, Mul(away, -1.0))) == 0.0
  {
    NegatedUnit(away);
    SideUnit(sqrt, Mul(away, -1.0));
  }

  /** The distance is enough for every point of the box, at every unit direction. */
  lemma PoseFrames(sqrt: real -> real, b: Box, away: Vec3, dist: real, l: Lens, margin: real)
    requires SqrtLaw(sqrt) && l.Valid() && Unit(away)
    requires var fwd := Mul(away, -1.0); var s := SideOf(sqrt, fwd);
             Enough(b, fwd, s, Cross(s, fwd), l, margin, dist)
    ensures Framed(CameraBasis(sqrt, Camera(Add(Center(b), Mul(away, dist)), Center(b), l.tv)), b, l, margin)
  {
    PoseCamera(sqrt, Center(b), away, dist, l.tv);
    SideAcross(sqrt, away);
    PoseFramesIn(b, away, dist, SideOf(sqrt, Mul(away, -1.0)), l, margin);
  }

  // ---- the solver

  lemma AbsBelow(y: real)
    requires -0.95 <= y <= 0.95
    ensures y * y < 1.0
  {
    SquaresOrdered(Abs(y), 1.0);
    assert Abs(y) * Abs(y) == y * y;
  }

  lemma TiltSquare(flat: Vec3, h: real, y: real)
    requires Unit(flat) && flat.y == 0.0 && h * h == 1.0 - y * y
    ensures Unit(Vec3(flat.x * h, y, flat.z * h))
  {
    assert (flat.x * h) * (flat.x * h) + (flat.z * h) * (flat.z * h) == h * h * (flat.x * flat.x + flat.z * flat.z);
  }

  /** `r` points the same way over the ground as `a`, `t` times as far. */
  predicate Along(a: Vec3, r: Vec3, t: real) { t >= 0.0 && r.x == a.x * t && r.z == a.z * t }

  lemma AlongTransitive(a: Vec3, r: Vec3, q: Vec3, t: real, u: real)
    requires Along(a, r, t) && Along(r, q, u)
    ensures Along(a, q, t * u)
  {
    MulNonNegative(t, u);
  }

  function Ground(a: Vec3): Vec3 { Vec3(a.x, 0.0, a.z) }

  method FlatHeading(sqrt: real -> real, away: Vec3) returns (flat: Vec3, ghost t: real)
    requires SqrtLaw(sqrt)
    ensures Unit(flat) && flat.y == 0.0
    ensures Length(sqrt, Ground(away)) > 0.000000001 ==> Along(away, flat, t)
  {
    var raw := Ground(away);
    if Length(sqrt, raw) > 0.000000001 {
      NormalizeUnit(sqrt, raw, Vec3(0.0, 0.0, 1.0));
    }
    flat := Normalize(sqrt, raw, Vec3(0.0, 0.0, 1.0));
    t := if Length(sqrt, raw) > 0.000000001 then 1.0 / Length(sqrt, raw) else 1.0;
  }

  /** The direction correction: keep the heading, tilt to the given height. */
  method Tilt(sqrt: real -> real, away: Vec3, needY: real) returns (r: Vec3, ghost t: real)
    requires SqrtLaw(sqrt) && -0.95 <= needY <= 0.95
    ensures Unit(r) && r.y == needY
    ensures Length(sqrt, Ground(away)) > 0.000000001 ==> Along(away, r, t)
  {
    var flat, u := FlatHeading(sqrt, away);
    var y2 := needY * needY;
    AbsBelow(needY);
    var horiz := sqrt(Max(0.0, 1.0 - y2));
    TiltSquare(flat, horiz, needY);
    r := UnitNormalize(sqrt, Vec3(flat.x * horiz, needY, flat.z * horiz));
    t := u * horiz;
    if Length(sqrt, Ground(away)) > 0.000000001 {
      AlongTransitive(away, flat, r, u, horiz);
    }
  }

  /** Normalising a unit vector changes nothing. */
  method UnitNormalize(sqrt: real -> real, v: Vec3) returns (r: Vec3)
    requires SqrtLaw(sqrt) && Unit(v)
    ensures r == v
  {
    r := Normalize(sqrt, v, Vec3(0.0, 0.0, 1.0));
    NormalizeMultiple(sqrt, v, 1.0, Vec3(0.0, 0.0, 1.0));
    assert Mul(v, 1.0) == v;
  }

  /** The direction from the box to the camera, or a default when the camera sits in its centre. */
  method StartDirection(sqrt: real -> real, center: Vec3, position: Vec3) returns (away: Vec3, ghost t: real)
    requires SqrtLaw(sqrt)
    ensures Unit(away)
    ensures position.y >= center.y ==> away.y >= 0.0
    ensures Length(sqrt, Sub(position, center)) >= 0.000001 ==> t > 0.0 && away == Mul(Sub(position, center), t)
  {
    var a := Sub(position, center);
    if Length(sqrt, a) < 0.000001 {
      a := Vec3(0.0, 0.4, 1.0);
      LengthSquared(sqrt, a);
      assert Dot(a, a) == 1.16;
      RootMonotone(1.0, Length(sqrt, a));
    }
    NormalizeUnit(sqrt, a, Vec3(0.0, 0.0, 1.0));
    away := Normalize(sqrt, a, Vec3(0.0, 0.0, 1.0));
    t := 1.0 / Length(sqrt, a);
    assert away == Mul(a, t) && t > 0.0;
    if a.y >= 0.0 { MulNonNegative(a.y, t); }
  }

  predicate NotSteep(sqrt: real -> real, a: Vec3) { Length(sqrt, Ground(a)) > 0.000000001 }

  lemma TiltedNotSteep(sqrt: real -> real, a: Vec3)
    requires SqrtLaw(sqrt) && Unit(a) && -0.95 <= a.y <= 0.95
    ensures NotSteep(sqrt, a)
  {
    var g := Ground(a);
    LengthSquared(sqrt, g);
    SquaresOrdered(Abs(a.y), 0.96);
    assert Abs(a.y) * Abs(a.y) == a.y * a.y;
    assert Dot(g, g) == 1.0 - a.y * a.y;
    if Length(sqrt, g) < 0.1 {
      SquaresOrdered(Length(sqrt, g), 0.1);
    }
  }

  /** The solution lies over the ray from the centre towards the old camera position; only a
      camera almost straight above or below may turn. */
  ghost predicate KeepsHeading(sqrt: real -> real, center: Vec3, position: Vec3, raw: Vec3, start: Vec3,
                               heading: real) {
    && (Length(sqrt, Sub(position, center)) >= 0.000001 ==>
        exists t | t > 0.0 :: start == Mul(Sub(position, center), t))
    && (NotSteep(sqrt, start) ==> Along(start, Sub(raw, center), heading))
  }

  /** The solving loop, for any distance function. `good` is what the distance is good for. */
  method BackOff(sqrt: real -> real, center: Vec3, position: Vec3, distanceFor: Vec3 -> real, ghost good: Vec3 -> bool)
    returns (solved: Vec3, ghost raw: Vec3, ghost tilts: nat, ghost start: Vec3, ghost heading: real)
    requires SqrtLaw(sqrt)
    requires forall a | Unit(a) :: distanceFor(a) >= 1.0 && good(Add(center, Mul(a, distanceFor(a))))
    ensures solved.y >= MIN_CAMERA_Y && (solved.y > MIN_CAMERA_Y ==> good(solved))
    ensures solved == Vec3(raw.x, Max(raw.y, MIN_CAMERA_Y), raw.z) && good(raw)
    ensures tilts <= 2 && (tilts < 2 ==> raw.y >= MIN_CAMERA_Y)
    ensures center.y >= MIN_CAMERA_Y && position.y >= center.y ==> tilts == 0
    ensures KeepsHeading(sqrt, center, position, raw, start, heading)
  {
    var away, t := StartDirection(sqrt, center, position);
    var dist := distanceFor(away);
    tilts, start, heading := 0, away, 1.0;
    for k := 0 to 2
      invariant Unit(away) && dist == distanceFor(away)
      invariant tilts == k
      invariant NotSteep(sqrt, start) ==> NotSteep(sqrt, away) && Along(start, away, heading)
      invariant k == 0 && position.y >= center.y ==> away.y >= 0.0
      invariant k > 0 ==> center.y < MIN_CAMERA_Y || position.y < center.y
    {
      if center.y + away.y * dist >= MIN_CAMERA_Y {
        break;
      }
      if away.y >= 0.0 { MulNonNegative(away.y, dist); }
      var needY := Max(-0.95, Min(0.95, (MIN_CAMERA_Y - center.y) / dist));
      ghost var before := away;
      away, t := Tilt(sqrt, away, needY);
      TiltedNotSteep(sqrt, away);
      if NotSteep(sqrt, start) {
        AlongTransitive(start, before, away, heading, t);
      }
      dist := distanceFor(away);
      tilts, heading := tilts + 1, heading * t;
    }
    solved := Add(center, Mul(away, dist));
    raw := solved;
    if NotSteep(sqrt, start) {
      AlongTransitive(start, away, Sub(raw, center), heading, dist);
    }
    heading := heading * dist;
    solved := Vec3(solved.x, Max(solved.y, MIN_CAMERA_Y), solved.z);
  }

  /** A camera at `position` that looks at the centre of the box frames it. */
  ghost predicate FramesFrom(sqrt: real -> real, position: Vec3, b: Box, l: Lens, margin: real)
    requires l.Valid()
  {
    Framed(CameraBasis(sqrt, Camera(position, Center(b), l.tv)), b, l, margin)
  }

  lemma DistanceFrames(sqrt: real -> real, b: Box, l: Lens, margin: real, away: Vec3)
    requires SqrtLaw(sqrt) && l.Valid() && Unit(away)
    ensures var d := DistanceFor(sqrt, b, l, margin, away);
            d >= 1.0 && FramesFrom(sqrt, Add(Center(b), Mul(away, d)), b, l, margin)
  {
    DistanceLeast(sqrt, b, l, margin, away);
    PoseFrames(sqrt, b, away, DistanceFor(sqrt, b, l, margin, away), l, margin);
  }

  /** `solve_frame`. The camera never ends below `MIN_CAMERA_Y`; when the final clamp has
      nothing to do, the box is framed with the requested margin. `raw` is the position before
      the clamp, `tilts` the number of direction corrections. */
  method SolveFrame(sqrt: real -> real, b: Box, cam: Camera, l: Lens, margin: real)
    returns (pose: Camera, ghost raw: Vec3, ghost tilts: nat, ghost start: Vec3, ghost heading: real)
    requires SqrtLaw(sqrt) && l.Valid() && cam.tv == l.tv
    ensures pose.target == Center(b) && pose.tv == cam.tv && pose.position.y >= MIN_CAMERA_Y
    ensures pose.position.y > MIN_CAMERA_Y ==> FramesFrom(sqrt, pose.position, b, l, margin)
    ensures pose == Camera(Vec3(raw.x, Max(raw.y, MIN_CAMERA_Y), raw.z), Center(b), cam.tv)
    ensures raw.y >= MIN_CAMERA_Y ==> FramesFrom(sqrt, pose.position, b, l, margin)
    ensures tilts <= 2 && (tilts < 2 ==> raw.y >= MIN_CAMERA_Y)
    ensures Center(b).y >= MIN_CAMERA_Y && cam.position.y >= Center(b).y ==> tilts == 0
    ensures KeepsHeading(sqrt, Center(b), cam.position, raw, start, heading)
  {
    var distanceFor := away => DistanceFor(sqrt, b, l, margin, away);
    ghost var good := position => FramesFrom(sqrt, position, b, l, margin);
    forall a | Unit(a) ensures distanceFor(a) >= 1.0 && good(Add(Center(b), Mul(a, distanceFor(a)))) {
      DistanceFrames(sqrt, b, l, margin, a);
    }
    var position;
    position, raw, tilts, start, heading := BackOff(sqrt, Center(b), cam.position, distanceFor, good);
    assert raw.y >= MIN_CAMERA_Y ==> position == raw;
    pose := Camera(position, Center(b), cam.tv);
  }

  /** End to end: from a pose that frames the union of some objects, the renderer draws every
      vertex of each of them within the margin. */
  lemma FramedVertexFits(sqrt: real -> real, o: Body, b: Box, position: Vec3, l: Lens, margin: real, v: Vec3)
    requires SqrtLaw(sqrt) && l.Valid() && FramesFrom(sqrt, position, b, l, margin)
    requires Within(Aabb(o), b) && Inside(v, UnitBounds(o.shape))
    ensures var w := ToView(LookAt(sqrt, position, Center(b)), ToWorld(o, v));
            w.z <= -NEAR ==> Fits(RasterNdc(w, 1.0 / l.tv / l.aspect, 1.0 / l.tv), margin)
  {
    WorldInsideAabb(o, v);
    ProjectionsAgree(sqrt, Camera(position, Center(b), l.tv), l.aspect, ToWorld(o, v));
    assert Inside(ToWorld(o, v), b);
  }
}
