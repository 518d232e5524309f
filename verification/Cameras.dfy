/**
 The camera: `camera_basis`, `project_point` and `aabb_screen_rect` of `scene_ops.py`, and
 `look_at` / `to_view` / the projection inside `raster` of `render.py`. The vertical field of
 view enters as `tv`, the tangent of its half.
 */
module Cameras {
  import opened Vectors
  import opened Options
  import opened Boxes

  datatype Camera = Camera(position: Vec3, target: Vec3, tv: real)

  datatype Basis = Basis(eye: Vec3, fwd: Vec3, side: Vec3, up: Vec3)

  datatype Ndc = Ndc(x: real, y: real)

  datatype Rect = Rect(x0: real, y0: real, x1: real, y1: real)

  const NEAR := 0.05
  const UP := Vec3(0.0, 1.0, 0.0)
  const BACK := Vec3(0.0, 0.0, -1.0)

  /** The cross product that gives the side axis; `-Z` replaces `+Y` when looking straight
      up or down. */
  function RawSide(sqrt: real -> real, fwd: Vec3): Vec3 {
    if Length(sqrt, Cross(fwd, UP)) < 0.000001 then Cross(fwd, BACK) else Cross(fwd, UP)
  }

  function SideOf(sqrt: real -> real, fwd: Vec3): Vec3 {
    Normalize(sqrt, RawSide(sqrt, fwd), Vec3(1.0, 0.0, 0.0))
  }

  function Forward(sqrt: real -> real, eye: Vec3, target: Vec3): Vec3 {
    Normalize(sqrt, Sub(target, eye), BACK)
  }

  /** `camera_basis`. */
  function CameraBasis(sqrt: real -> real, cam: Camera): Basis {
    var fwd := Forward(sqrt, cam.position, cam.target);
    var side := SideOf(sqrt, fwd);
    Basis(cam.position, fwd, side, Cross(side, fwd))
  }

  ghost predicate Orthonormal(b: Basis) {
    && Unit(b.fwd) && Unit(b.side) && Unit(b.up)
    && Dot(b.fwd, b.side) == 0.0 && Dot(b.fwd, b.up) == 0.0 && Dot(b.side, b.up) == 0.0
  }

  lemma CrossOrthogonal(a: Vec3, b: Vec3)
    ensures Dot(a, Cross(a, b)) == 0.0 && Dot(b, Cross(a, b)) == 0.0
  {
  }

  /** Lagrange: |a x b|^2 + (a . b)^2 == |a|^2 |b|^2. */
  lemma CrossLength(a: Vec3, b: Vec3)
    ensures Dot(Cross(a, b), Cross(a, b)) + Dot(a, b) * Dot(a, b) == Dot(a, a) * Dot(b, b)
  {
  }

  lemma DotMul(a: Vec3, b: Vec3, s: real)
    ensures Dot(a, Mul(b, s)) == Dot(a, b) * s && Dot(Mul(b, s), a) == Dot(a, b) * s
  {
    var c := Mul(b, s);
    Reassociate(a.x, b.x, s, c.x);
    Reassociate(a.y, b.y, s, c.y);
    Reassociate(a.z, b.z, s, c.z);
    SumOfMultiples(a.x * b.x, a.y * b.y, a.z * b.z, s, a.x * c.x, a.y * c.y, a.z * c.z);
    DotCommutes(a, c);
  }

  lemma DotCommutes(a: Vec3, b: Vec3)
    ensures Dot(a, b) == Dot(b, a)
  {
  }

  lemma Reassociate(x: real, y: real, s: real, ys: real)
    requires ys == y * s
    ensures x * ys == x * y * s
  {
  }

  lemma SumOfMultiples(p: real, q: real, r: real, s: real, ps: real, qs: real, rs: real)
    requires ps == p * s && qs == q * s && rs == r * s
    ensures ps + qs + rs == (p + q + r) * s
  {
  }

  lemma ForwardUnit(sqrt: real -> real, eye: Vec3, target: Vec3)
    requires SqrtLaw(sqrt)
    ensures Unit(Forward(sqrt, eye, target))
  {
    var a := Sub(target, eye);
    if Length(sqrt, a) > 0.000000001 {
      NormalizeUnit(sqrt, a, BACK);
    }
  }

  /** Whatever a unit vector looks at, the side axis is far from degenerate. */
  lemma RawSideLong(sqrt: real -> real, fwd: Vec3)
    requires SqrtLaw(sqrt) && Unit(fwd)
    ensures Length(sqrt, RawSide(sqrt, fwd)) >= 0.000001
    ensures Dot(fwd, RawSide(sqrt, fwd)) == 0.0
  {
    var s := Cross(fwd, UP);
    var t := Cross(fwd, BACK);
    CrossOrthogonal(fwd, UP);
    CrossOrthogonal(fwd, BACK);
    var n := Length(sqrt, s);
    LengthSquared(sqrt, s);
    LengthSquared(sqrt, t);
    if n < 0.000001 {
      assert s == Vec3(-fwd.z, 0.0, fwd.x) && t == Vec3(-fwd.y, fwd.x, 0.0);
      SmallSquare(n);
      SquareNonNegative(fwd.x);
      LargeRoot(Length(sqrt, t), fwd, n);
    }
  }

  lemma SmallSquare(n: real)
    requires 0.0 <= n < 0.000001
    ensures n * n < 0.000001
  {
    SquaresOrdered(n, 0.000001);
  }

  lemma LargeRoot(m: real, fwd: Vec3, n: real)
    requires Unit(fwd) && m >= 0.0
    requires fwd.z * fwd.z + fwd.x * fwd.x == n * n && n * n < 0.000001
    requires m * m == fwd.y * fwd.y + fwd.x * fwd.x
    ensures m >= 0.000001
  {
    SquareNonNegative(fwd.x);
    assert m * m + fwd.z * fwd.z == 1.0;
    if m < 0.000001 {
      SmallSquare(m);
    }
  }

  lemma SideUnit(sqrt: real -> real, fwd: Vec3)
    requires SqrtLaw(sqrt) && Unit(fwd)
    ensures Unit(SideOf(sqrt, fwd)) && Dot(fwd, SideOf(sqrt, fwd)) == 0.0
  {
    var raw := RawSide(sqrt, fwd);
    RawSideLong(sqrt, fwd);
    NormalizeUnit(sqrt, raw, Vec3(1.0, 0.0, 0.0));
    DotMul(fwd, raw, 1.0 / Length(sqrt, raw));
  }

  lemma UpUnit(side: Vec3, fwd: Vec3)
    requires Unit(fwd) && Unit(side) && Dot(fwd, side) == 0.0
    ensures Unit(Cross(side, fwd)) && Dot(fwd, Cross(side, fwd)) == 0.0 && Dot(side, Cross(side, fwd)) == 0.0
  {
    CrossOrthogonal(side, fwd);
    CrossLength(side, fwd);
    assert Dot(side, fwd) == Dot(fwd, side);
  }

  /** For every camera, degenerate ones included, the three axes are orthonormal. */
  lemma BasisOrthonormal(sqrt: real -> real, cam: Camera)
    requires SqrtLaw(sqrt)
    ensures Orthonormal(CameraBasis(sqrt, cam))
  {
    var b := CameraBasis(sqrt, cam);
    ForwardUnit(sqrt, cam.position, cam.target);
    SideUnit(sqrt, b.fwd);
    UpUnit(b.side, b.fwd);
  }

  // ---- render.py's own derivation of the view transform

  /** The rows and the translation of the 4x4 matrix built by `look_at`. */
  datatype ViewMatrix = ViewMatrix(side: Vec3, up: Vec3, back: Vec3, tx: real, ty: real, tz: real)

  function Div(a: Vec3, s: real): Vec3
    requires s != 0.0
  {
    Vec3(a.x / s, a.y / s, a.z / s)
  }

  /** `look_at`. It divides by the norm without a threshold, so it must never be zero. */
  function LookAt(sqrt: real -> real, eye: Vec3, target: Vec3): ViewMatrix
    requires SqrtLaw(sqrt)
  {
    var d := Sub(target, eye);
    var ln := Length(sqrt, d);
    var fwd := if ln > 0.000000001 then Div(d, ln) else BACK;
    var raw := RawSide(sqrt, fwd);
    assert Length(sqrt, raw) != 0.0 by {
      LookAtForward(sqrt, eye, target);
      ForwardUnit(sqrt, eye, target);
      RawSideLong(sqrt, fwd);
    }
    var side := Div(raw, Length(sqrt, raw));
    var up := Cross(side, fwd);
    ViewMatrix(side, up, Mul(fwd, -1.0), -Dot(side, eye), -Dot(up, eye), Dot(fwd, eye))
  }

  lemma DivIsMul(a: Vec3, s: real)
    requires s != 0.0
    ensures Div(a, s) == Mul(a, 1.0 / s)
  {
  }

  lemma LookAtForward(sqrt: real -> real, eye: Vec3, target: Vec3)
    requires SqrtLaw(sqrt)
    ensures var d := Sub(target, eye); var ln := Length(sqrt, d);
            (if ln > 0.000000001 then Div(d, ln) else BACK) == Forward(sqrt, eye, target)
  {
    var d := Sub(target, eye);
    var ln := Length(sqrt, d);
    if ln > 0.000000001 {
      DivIsMul(d, ln);
    }
  }

  /** `to_view` for one point. */
  function ToView(m: ViewMatrix, p: Vec3): Vec3 {
    Vec3(Dot(m.side, p) + m.tx, Dot(m.up, p) + m.ty, Dot(m.back, p) + m.tz)
  }

  /** The axes the renderer uses are the axes the measuring code uses, for every camera. */
  lemma LookAtAgrees(sqrt: real -> real, cam: Camera)
    requires SqrtLaw(sqrt)
    ensures var m := LookAt(sqrt, cam.position, cam.target); var b := CameraBasis(sqrt, cam);
            m.side == b.side && m.up == b.up && m.back == Mul(b.fwd, -1.0)
  {
    LookAtForward(sqrt, cam.position, cam.target);
    var fwd := Forward(sqrt, cam.position, cam.target);
    ForwardUnit(sqrt, cam.position, cam.target);
    RawSideLong(sqrt, fwd);
    DivIsMul(RawSide(sqrt, fwd), Length(sqrt, RawSide(sqrt, fwd)));
  }

  lemma DotSub(a: Vec3, p: Vec3, e: Vec3)
    ensures Dot(a, Sub(p, e)) == Dot(a, p) - Dot(a, e) && Dot(Sub(p, e), a) == Dot(a, p) - Dot(a, e)
  {
  }

  /** A view matrix and a basis stand for the same camera. */
  ghost predicate Agree(m: ViewMatrix, b: Basis) {
    && m.side == b.side && m.up == b.up && m.back == Mul(b.fwd, -1.0)
    && m.tx == -Dot(b.side, b.eye) && m.ty == -Dot(b.up, b.eye) && m.tz == Dot(b.fwd, b.eye)
  }

  lemma LookAtMatches(sqrt: real -> real, cam: Camera)
    requires SqrtLaw(sqrt)
    ensures Agree(LookAt(sqrt, cam.position, cam.target), CameraBasis(sqrt, cam))
  {
    LookAtAgrees(sqrt, cam);
    LookAtForward(sqrt, cam.position, cam.target);
  }

  /** The view of a point is its place relative to the eye, along the axes. */
  lemma ViewIsRelative(m: ViewMatrix, b: Basis, p: Vec3)
    requires Agree(m, b)
    ensures ToView(m, p) == Vec3(Dot(Sub(p, b.eye), b.side), Dot(Sub(p, b.eye), b.up), -Dot(Sub(p, b.eye), b.fwd))
  {
    DotSub(b.side, p, b.eye);
    DotSub(b.up, p, b.eye);
    DotSub(b.fwd, p, b.eye);
    DotNegate(b.fwd, p);
  }

  // ---- projection

  /** `project_point`: nothing for points nearer than the near plane. */
  function ProjectPoint(sqrt: real -> real, p: Vec3, cam: Camera, aspect: real): Option<Ndc>
    requires cam.tv > 0.0 && aspect > 0.0
  {
    var b := CameraBasis(sqrt, cam);
    var fscale := 1.0 / cam.tv;
    ProjectIn(b, fscale / aspect, fscale, p)
  }

  /** The same in a given basis, with the two axis factors spelled out. */
  function ProjectIn(b: Basis, kx: real, ky: real, p: Vec3): Option<Ndc> {
    var rel := Sub(p, b.eye);
    if Dot(rel, b.fwd) < NEAR then None
    else Some(Ndc(Ratio(kx, b.side, b.fwd, rel), Ratio(ky, b.up, b.fwd, rel)))
  }

  function Ratio(k: real, a: Vec3, f: Vec3, rel: Vec3): real
    requires Dot(rel, f) >= NEAR
  {
    k * Dot(rel, a) / Dot(rel, f)
  }

  /** The projection inside `raster`, of a view-space point beyond the near plane. */
  function RasterNdc(v: Vec3, kx: real, ky: real): Ndc
    requires v.z <= -NEAR
  {
    var invz := 1.0 / -v.z;
    Ndc(kx * v.x * invz, ky * v.y * invz)
  }

  lemma RatioIsProduct(k: real, a: Vec3, f: Vec3, rel: Vec3, x: real, z: real)
    requires Dot(rel, f) >= NEAR && x == Dot(rel, a) && z == Dot(rel, f)
    ensures Ratio(k, a, f, rel) == k * x * (1.0 / z)
  {
    assert Ratio(k, a, f, rel) == k * x / z;
  }

  lemma ProjectInIsRaster(b: Basis, kx: real, ky: real, p: Vec3, v: Vec3)
    requires v == Vec3(Dot(Sub(p, b.eye), b.side), Dot(Sub(p, b.eye), b.up), -Dot(Sub(p, b.eye), b.fwd))
    ensures ProjectIn(b, kx, ky, p) == if v.z <= -NEAR then Some(RasterNdc(v, kx, ky)) else None
  {
    if v.z <= -NEAR {
      var rel, q := Sub(p, b.eye), RasterNdc(v, kx, ky);
      assert Ratio(kx, b.side, b.fwd, rel) == q.x by { RatioIsProduct(kx, b.side, b.fwd, rel, v.x, -v.z); }
      assert Ratio(ky, b.up, b.fwd, rel) == q.y by { RatioIsProduct(ky, b.up, b.fwd, rel, v.y, -v.z); }
    }
  }

  /** The renderer draws a point where the measuring code says it is. */
  ghost predicate DrawnAlike(m: ViewMatrix, b: Basis, kx: real, ky: real, p: Vec3) {
    ProjectIn(b, kx, ky, p) == if ToView(m, p).z <= -NEAR then Some(RasterNdc(ToView(m, p), kx, ky)) else None
  }

  lemma AgreeDrawnAlike(m: ViewMatrix, b: Basis, kx: real, ky: real, p: Vec3)
    requires Agree(m, b)
    ensures DrawnAlike(m, b, kx, ky, p)
  {
    ViewIsRelative(m, b, p);
    ProjectInIsRaster(b, kx, ky, p, ToView(m, p));
  }

  /** For every camera and point, the renderer's projection is the measuring code's. */
  lemma ProjectionsAgree(sqrt: real -> real, cam: Camera, aspect: real, p: Vec3)
    requires SqrtLaw(sqrt) && cam.tv > 0.0 && aspect > 0.0
    ensures DrawnAlike(LookAt(sqrt, cam.position, cam.target), CameraBasis(sqrt, cam), 1.0 / cam.tv / aspect,
                       1.0 / cam.tv, p)
  {
    LookAtMatches(sqrt, cam);
    AgreeDrawnAlike(LookAt(sqrt, cam.position, cam.target), CameraBasis(sqrt, cam), 1.0 / cam.tv / aspect, 1.0 / cam.tv,
                    p);
  }

  // ---- screen rectangles

  type Projection = Vec3 -> Option<Ndc>

  function View(sqrt: real -> real, cam: Camera, aspect: real): Projection
    requires cam.tv > 0.0 && aspect > 0.0
  {
    p => ProjectPoint(sqrt, p, cam, aspect)
  }

  /** The projections of the first `n` corners of a box that project at all. */
  function Projected(project: Projection, b: Box, n: nat): (ps: seq<Ndc>)
    ensures |ps| <= n
  {
    if n == 0 then []
    else
      var front := Projected(project, b, n - 1);
      match project(Corner(b, n - 1))
      case None => front
      case Some(p) => front + [p]
  }

  predicate InRect(p: Ndc, r: Rect) { r.x0 <= p.x <= r.x1 && r.y0 <= p.y <= r.y1 }

  ghost predicate TightRect(r: Rect, ps: seq<Ndc>) {
    && (forall i | 0 <= i < |ps| :: InRect(ps[i], r))
    && (exists i | 0 <= i < |ps| :: ps[i].x == r.x0)
    && (exists i | 0 <= i < |ps| :: ps[i].x == r.x1)
    && (exists i | 0 <= i < |ps| :: ps[i].y == r.y0)
    && (exists i | 0 <= i < |ps| :: ps[i].y == r.y1)
  }

  function Widen(r: Rect, p: Ndc): Rect {
    Rect(Min(r.x0, p.x), Min(r.y0, p.y), Max(r.x1, p.x), Max(r.y1, p.y))
  }

  lemma TightWiden(r: Rect, ps: seq<Ndc>, p: Ndc)
    requires TightRect(r, ps)
    ensures TightRect(Widen(r, p), ps + [p])
  {
    var qs := ps + [p];
    assert qs[|ps|] == p;
    assert forall i | 0 <= i < |ps| :: qs[i] == ps[i];
    forall i | 0 <= i < |qs| ensures InRect(qs[i], Widen(r, p)) {}
  }

  /** `aabb_screen_rect`: the tightest rectangle around the corners that project, and how many
      of the eight did; no rectangle when none did. */
  method AabbScreenRect(project: Projection, b: Box) returns (rect: Option<Rect>, seen: nat)
    ensures seen == |Projected(project, b, 8)|
    ensures rect.None? <==> seen == 0
    ensures rect.Some? ==> TightRect(rect.value, Projected(project, b, 8))
  {
    rect, seen := None, 0;
    for i := 0 to 8
      invariant seen == |Projected(project, b, i)|
      invariant rect.None? <==> seen == 0
      invariant rect.Some? ==> TightRect(rect.value, Projected(project, b, i))
    {
      ghost var ps := Projected(project, b, i);
      match project(Corner(b, i)) {
        case None =>
        case Some(p) =>
          if rect.Some? {
            TightWiden(rect.value, ps, p);
            rect := Some(Widen(rect.value, p));
          } else {
            assert ps + [p] == [p] && [p][0].x == p.x;
            rect := Some(Rect(p.x, p.y, p.x, p.y));
          }
          seen := seen + 1;
      }
    }
  }

  /** Eight projections mean that every corner projects, in corner order. */
  lemma {:induction false} AllProject(project: Projection, b: Box, n: nat)
    requires |Projected(project, b, n)| == n
    ensures forall i | 0 <= i < n :: project(Corner(b, i)) == Some(Projected(project, b, n)[i])
  {
    if n > 0 {
      AllProject(project, b, n - 1);
    }
  }

  /** k * (q - e).a <= m * (q - e).f is affine in q. */
  predicate Under(k: real, a: Vec3, m: real, f: Vec3, rel: Vec3) { k * Dot(rel, a) <= m * Dot(rel, f) }

  lemma UnderIsAffine(k: real, a: Vec3, m: real, f: Vec3, e: Vec3, q: Vec3)
    ensures var n := Sub(Mul(a, k), Mul(f, m)); Under(k, a, m, f, Sub(q, e)) <==> Dot(n, q) <= Dot(n, e)
  {
    var n := Sub(Mul(a, k), Mul(f, m));
    var rel := Sub(q, e);
    DotSub(n, q, e);
    DotSub(rel, Mul(a, k), Mul(f, m));
    DotMul(rel, a, k);
    DotMul(rel, f, m);
  }

  lemma UnderOnBox(k: real, a: Vec3, m: real, f: Vec3, e: Vec3, b: Box, p: Vec3)
    requires Inside(p, b) && forall i | 0 <= i < 8 :: Under(k, a, m, f, Sub(Corner(b, i), e))
    ensures Under(k, a, m, f, Sub(p, e))
  {
    var n := Sub(Mul(a, k), Mul(f, m));
    forall i | 0 <= i < 8 ensures Dot(n, Corner(b, i)) <= Dot(n, e) {
      UnderIsAffine(k, a, m, f, e, Corner(b, i));
    }
    AffineOnBox(n, Dot(n, e), b, p);
    UnderIsAffine(k, a, m, f, e, p);
  }

  lemma QuotientBound(x: real, d: real, m: real)
    requires d > 0.0
    ensures x / d <= m <==> x <= m * d
    ensures m <= x / d <==> m * d <= x
  {
    ProductOrder(x / d, m, d);
  }

  lemma ProductOrder(q: real, m: real, d: real)
    requires d > 0.0
    ensures q <= m <==> q * d <= m * d
    ensures m <= q <==> m * d <= q * d
  {
    if q < m {
      MulPositive(m - q, d);
    } else if m < q {
      MulPositive(q - m, d);
    }
  }

  lemma DepthOnBox(f: Vec3, e: Vec3, b: Box, p: Vec3)
    requires Inside(p, b) && forall i | 0 <= i < 8 :: Dot(Sub(Corner(b, i), e), f) >= NEAR
    ensures Dot(Sub(p, e), f) >= NEAR
  {
    var n := Mul(f, -1.0);
    forall i | 0 <= i < 8 ensures Dot(n, Corner(b, i)) <= Dot(n, e) - NEAR {
      DotSub(f, Corner(b, i), e);
      DotNegate(f, Corner(b, i));
      DotNegate(f, e);
    }
    AffineOnBox(n, Dot(n, e) - NEAR, b, p);
    DotSub(f, p, e);
    DotNegate(f, p);
    DotNegate(f, e);
  }

  predicate Between(lo: real, x: real, hi: real) { lo <= x <= hi }

  /** One screen coordinate of a point of the box stays between those of the corners. */
  lemma CoordinateOnBox(k: real, a: Vec3, f: Vec3, e: Vec3, b: Box, p: Vec3, lo: real, hi: real)
    requires Inside(p, b) && Dot(Sub(p, e), f) >= NEAR
    requires forall i | 0 <= i < 8 :: Dot(Sub(Corner(b, i), e), f) >= NEAR
    requires forall i | 0 <= i < 8 ::
               Between(lo, Ratio(k, a, f, Sub(Corner(b, i), e)), hi)
    ensures Between(lo, Ratio(k, a, f, Sub(p, e)), hi)
  {
    forall i | 0 <= i < 8
      ensures Under(k, a, hi, f, Sub(Corner(b, i), e)) && Under(-k, a, -lo, f, Sub(Corner(b, i), e))
    {
      var rel := Sub(Corner(b, i), e);
      BetweenIsUnder(k, a, f, rel, lo, hi);
    }
    UnderOnBox(k, a, hi, f, e, b, p);
    UnderOnBox(-k, a, -lo, f, e, b, p);
    BetweenIsUnder(k, a, f, Sub(p, e), lo, hi);
  }

  lemma BetweenIsUnder(k: real, a: Vec3, f: Vec3, rel: Vec3, lo: real, hi: real)
    requires Dot(rel, f) >= NEAR
    ensures Between(lo, Ratio(k, a, f, rel), hi) <==> Under(k, a, hi, f, rel) && Under(-k, a, -lo, f, rel)
  {
    var d := Dot(rel, f);
    var x := k * Dot(rel, a);
    QuotientBound(x, d, hi);
    QuotientBound(x, d, lo);
    assert -k * Dot(rel, a) == -x && -lo * d == -(lo * d);
  }

  lemma PointInRectIn(c: Basis, kx: real, ky: real, b: Box, p: Vec3, r: Rect)
    requires Inside(p, b)
    requires forall i | 0 <= i < 8 ::
               ProjectIn(c, kx, ky, Corner(b, i)).Some? && InRect(ProjectIn(c, kx, ky, Corner(b, i)).value, r)
    ensures ProjectIn(c, kx, ky, p).Some? && InRect(ProjectIn(c, kx, ky, p).value, r)
  {
    forall i | 0 <= i < 8
      ensures Dot(Sub(Corner(b, i), c.eye), c.fwd) >= NEAR
      ensures var rel := Sub(Corner(b, i), c.eye);
              Between(r.x0, Ratio(kx, c.side, c.fwd, rel), r.x1) && Between(r.y0, Ratio(ky, c.up, c.fwd, rel), r.y1)
    {
      assert ProjectIn(c, kx, ky, Corner(b, i)).Some?;
    }
    DepthOnBox(c.fwd, c.eye, b, p);
    CoordinateOnBox(kx, c.side, c.fwd, c.eye, b, p, r.x0, r.x1);
    CoordinateOnBox(ky, c.up, c.fwd, c.eye, b, p, r.y0, r.y1);
  }

  /** When all eight corners project, every point of the box projects, inside the rectangle. */
  lemma PointInScreenRect(sqrt: real -> real, b: Box, cam: Camera, aspect: real, p: Vec3, r: Rect)
    requires SqrtLaw(sqrt) && cam.tv > 0.0 && aspect > 0.0 && Inside(p, b)
    requires |Projected(View(sqrt, cam, aspect), b, 8)| == 8 && TightRect(r, Projected(View(sqrt, cam, aspect), b, 8))
    ensures ProjectPoint(sqrt, p, cam, aspect).Some? && InRect(ProjectPoint(sqrt, p, cam, aspect).value, r)
  {
    var project := View(sqrt, cam, aspect);
    AllProject(project, b, 8);
    var c, kx, ky := CameraBasis(sqrt, cam), 1.0 / cam.tv / aspect, 1.0 / cam.tv;
    forall i | 0 <= i < 8
      ensures ProjectIn(c, kx, ky, Corner(b, i)).Some? && InRect(ProjectIn(c, kx, ky, Corner(b, i)).value, r)
    {
      assert ProjectIn(c, kx, ky, Corner(b, i)) == project(Corner(b, i));
    }
    PointInRectIn(c, kx, ky, b, p, r);
  }

  /** End to end: if `aabb_screen_rect` saw all eight corners of an object's box, the renderer
      draws every vertex of that object inside the rectangle; a rectangle within the frame means
      that no vertex is drawn off-frame. */
  lemma DrawnVertexInScreenRect(sqrt: real -> real, o: Body, cam: Camera, aspect: real, v: Vec3, r: Rect)
    requires SqrtLaw(sqrt) && cam.tv > 0.0 && aspect > 0.0 && Inside(v, UnitBounds(o.shape))
    requires |Projected(View(sqrt, cam, aspect), Aabb(o), 8)| == 8
    requires TightRect(r, Projected(View(sqrt, cam, aspect), Aabb(o), 8))
    ensures var w := ToView(LookAt(sqrt, cam.position, cam.target), ToWorld(o, v));
            w.z <= -NEAR && InRect(RasterNdc(w, 1.0 / cam.tv / aspect, 1.0 / cam.tv), r)
  {
    WorldInsideAabb(o, v);
    PointInScreenRect(sqrt, Aabb(o), cam, aspect, ToWorld(o, v), r);
    ProjectionsAgree(sqrt, cam, aspect, ToWorld(o, v));
  }
}
