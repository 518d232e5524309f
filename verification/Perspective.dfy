/**
 What the depth buffer of `render.py` holds: the reciprocal depth of a point in space that projects
 to the pixel centre, so that a pixel shows the nearest surface on its ray.
 */
module Perspective {
  import opened Vectors
  import opened Options
  import opened Clipping
  import opened Rasterizer
  import opened Drawing
  import opened Picture

  /** The perspective projection of the view-space point `p` is (px, py), in pixels: x to the right,
      y downwards, the optical axis in the middle of the picture. */
  predicate SeenAt(vp: Viewport, p: Vec3, px: real, py: real) {
    && p.z < 0.0
    && px == (vp.kx * (p.x / -p.z) * 0.5 + 0.5) * vp.w as real
    && py == (0.5 - vp.ky * (p.y / -p.z) * 0.5) * vp.h as real
  }

  // ---- screen weights and space weights

  /** The two kinds of weights of one point: `l` on the screen, `m` in space. A corner nearer to the
      eye (larger `i`) weighs less on the screen than it does in space. */
  predicate Same(l: real, i: real, m: real, d: real) { l * i == m * d }

  /** Space weights mix a coordinate; screen weights mix the coordinate divided by the depth. */
  lemma Reweigh(x0: real, x1: real, x2: real, i0: real, i1: real, i2: real, l0: real, l1: real, l2: real,
                m0: real, m1: real, m2: real, d: real)
    requires Same(l0, i0, m0, d) && Same(l1, i1, m1, d) && Same(l2, i2, m2, d)
    ensures Mix1(x0, x1, x2, m0, m1, m2) * d == Mix1(x0 * i0, x1 * i1, x2 * i2, l0, l1, l2)
  {
    Regroup(x0, i0, l0, m0, d);
    Regroup(x1, i1, l1, m1, d);
    Regroup(x2, i2, l2, m2, d);
  }

  lemma Regroup(x: real, i: real, l: real, m: real, d: real)
    requires Same(l, i, m, d)
    ensures x * m * d == x * i * l
  {
    assert x * (l * i) == x * (m * d);
  }

  lemma Constant(c: real, l0: real, l1: real, l2: real)
    requires l0 + l1 + l2 == 1.0
    ensures Mix1(c, c, c, l0, l1, l2) == c
  {
    assert Mix1(c, c, c, l0, l1, l2) == c * (l0 + l1 + l2);
  }

  /** One pixel coordinate: an affine image of the divided coordinate. */
  lemma AffineMix(k: real, e: real, w: real, q0: real, q1: real, q2: real, l0: real, l1: real, l2: real)
    requires l0 + l1 + l2 == 1.0
    ensures Mix1((k * q0 + e) * w, (k * q1 + e) * w, (k * q2 + e) * w, l0, l1, l2)
            == (k * Mix1(q0, q1, q2, l0, l1, l2) + e) * w
  {
    var q, c := Mix1(q0, q1, q2, l0, l1, l2), e * w;
    Constant(c, l0, l1, l2);
    assert Mix1((k * q0 + e) * w, (k * q1 + e) * w, (k * q2 + e) * w, l0, l1, l2)
        == k * w * q + Mix1(c, c, c, l0, l1, l2);
  }

  // ---- a triangle and its screen image

  /** Weights `l` over the screen corners and `m` over the corners in space belong to one point. */
  predicate Related(s: Screen, l0: real, l1: real, l2: real, m0: real, m1: real, m2: real, d: real) {
    && l0 + l1 + l2 == 1.0
    && Same(l0, s.iz0, m0, d) && Same(l1, s.iz1, m1, d) && Same(l2, s.iz2, m2, d)
  }

  /** The screen image of a triangle: divided by the depth, scaled to the picture. */
  predicate Depicts(s: Screen, vp: Viewport, o: Triangle) {
    DepictsX(s, vp.kx * 0.5, vp.w as real, o) && DepictsY(s, vp.ky * -0.5, vp.h as real, o) && DepictsZ(s, o)
  }

  predicate DepictsX(s: Screen, k: real, w: real, o: Triangle) {
    && s.x0 == (k * (o.a.pos.x * s.iz0) + 0.5) * w
    && s.x1 == (k * (o.b.pos.x * s.iz1) + 0.5) * w
    && s.x2 == (k * (o.c.pos.x * s.iz2) + 0.5) * w
  }

  predicate DepictsY(s: Screen, k: real, h: real, o: Triangle) {
    && s.y0 == (k * (o.a.pos.y * s.iz0) + 0.5) * h
    && s.y1 == (k * (o.b.pos.y * s.iz1) + 0.5) * h
    && s.y2 == (k * (o.c.pos.y * s.iz2) + 0.5) * h
  }

  predicate DepictsZ(s: Screen, o: Triangle) {
    && s.iz0 > 0.0 && s.iz1 > 0.0 && s.iz2 > 0.0
    && o.a.pos.z * s.iz0 == -1.0 && o.b.pos.z * s.iz1 == -1.0 && o.c.pos.z * s.iz2 == -1.0
  }

  lemma ScreenDepicts(vp: Viewport, o: Triangle)
    requires Visible(o)
    ensures Depicts(ScreenOf(vp, o), vp, o)
  {
    ScreenX(vp, o);
    ScreenY(vp, o);
    ScreenZ(vp, o);
  }

  lemma ScreenX(vp: Viewport, o: Triangle)
    requires Visible(o)
    ensures DepictsX(ScreenOf(vp, o), vp.kx * 0.5, vp.w as real, o)
  {
  }

  lemma ScreenY(vp: Viewport, o: Triangle)
    requires Visible(o)
    ensures DepictsY(ScreenOf(vp, o), vp.ky * -0.5, vp.h as real, o)
  {
  }

  lemma ScreenZ(vp: Viewport, o: Triangle)
    requires Visible(o)
    ensures DepictsZ(ScreenOf(vp, o), o)
  {
    Reciprocal(o.a.pos.z);
    Reciprocal(o.b.pos.z);
    Reciprocal(o.c.pos.z);
  }

  lemma Reciprocal(z: real)
    requires z < 0.0
    ensures z * (1.0 / -z) == -1.0
  {
    QuotientTimes(1.0, -z);
  }

  /** Related weights place their point: where the screen weights say, and as deep as `d` says. */
  lemma RelatedPoint(s: Screen, vp: Viewport, o: Triangle, l0: real, l1: real, l2: real, m0: real, m1: real, m2: real,
                     d: real)
    requires Depicts(s, vp, o) && Related(s, l0, l1, l2, m0, m1, m2, d)
    ensures Point(o, m0, m1, m2).z * d == -1.0
    ensures Shown(vp, Point(o, m0, m1, m2), d, Mix1(s.x0, s.x1, s.x2, l0, l1, l2),
                  Mix1(s.y0, s.y1, s.y2, l0, l1, l2))
  {
    RelatedX(s, vp.kx * 0.5, vp.w as real, o, l0, l1, l2, m0, m1, m2, d);
    RelatedY(s, vp.ky * -0.5, vp.h as real, o, l0, l1, l2, m0, m1, m2, d);
    RelatedZ(s, o, l0, l1, l2, m0, m1, m2, d);
  }

  lemma RelatedX(s: Screen, k: real, w: real, o: Triangle, l0: real, l1: real, l2: real, m0: real, m1: real, m2: real,
                 d: real)
    requires DepictsX(s, k, w, o) && Related(s, l0, l1, l2, m0, m1, m2, d)
    ensures ShownOn(k, w, Point(o, m0, m1, m2).x, d, Mix1(s.x0, s.x1, s.x2, l0, l1, l2))
  {
    var (x0, x1, x2) := (o.a.pos.x, o.b.pos.x, o.c.pos.x);
    Reweigh(x0, x1, x2, s.iz0, s.iz1, s.iz2, l0, l1, l2, m0, m1, m2, d);
    AffineMix(k, 0.5, w, x0 * s.iz0, x1 * s.iz1, x2 * s.iz2, l0, l1, l2);
  }

  lemma RelatedY(s: Screen, k: real, h: real, o: Triangle, l0: real, l1: real, l2: real, m0: real, m1: real, m2: real,
                 d: real)
    requires DepictsY(s, k, h, o) && Related(s, l0, l1, l2, m0, m1, m2, d)
    ensures ShownOn(k, h, Point(o, m0, m1, m2).y, d, Mix1(s.y0, s.y1, s.y2, l0, l1, l2))
  {
    var (y0, y1, y2) := (o.a.pos.y, o.b.pos.y, o.c.pos.y);
    Reweigh(y0, y1, y2, s.iz0, s.iz1, s.iz2, l0, l1, l2, m0, m1, m2, d);
    AffineMix(k, 0.5, h, y0 * s.iz0, y1 * s.iz1, y2 * s.iz2, l0, l1, l2);
  }

  lemma RelatedZ(s: Screen, o: Triangle, l0: real, l1: real, l2: real, m0: real, m1: real, m2: real, d: real)
    requires DepictsZ(s, o) && Related(s, l0, l1, l2, m0, m1, m2, d)
    ensures Point(o, m0, m1, m2).z * d == -1.0
  {
    Reweigh(o.a.pos.z, o.b.pos.z, o.c.pos.z, s.iz0, s.iz1, s.iz2, l0, l1, l2, m0, m1, m2, d);
    Constant(-1.0, l0, l1, l2);
  }

  /** With `d` the reciprocal depth of `p`, its pixel position without a division. */
  predicate Shown(vp: Viewport, p: Vec3, d: real, px: real, py: real) {
    ShownOn(vp.kx * 0.5, vp.w as real, p.x, d, px) && ShownOn(vp.ky * -0.5, vp.h as real, p.y, d, py)
  }

  predicate ShownOn(k: real, w: real, x: real, d: real, px: real) { px == (k * (x * d) + 0.5) * w }

  lemma SeenIsShown(vp: Viewport, p: Vec3, d: real, px: real, py: real)
    requires p.z * d == -1.0 && p.z < 0.0
    ensures SeenAt(vp, p, px, py) <==> Shown(vp, p, d, px, py)
  {
    DividedBy(p.x, p.z, d);
    DividedBy(p.y, p.z, d);
    Halved(vp.kx, p.x * d);
    Halved(vp.ky, p.y * d);
  }

  lemma Halved(k: real, q: real)
    ensures k * 0.5 * q == k * q * 0.5 && k * -0.5 * q == -(k * q * 0.5)
  {
  }

  lemma DividedBy(x: real, z: real, d: real)
    requires z * d == -1.0 && z < 0.0
    ensures x / -z == x * d
  {
    QuotientTimes(x, -z);
    assert x * d * -z == x;
    Cancel(x / -z, x * d, -z);
  }

  // ---- a covered pixel centre sees a point of the triangle

  /** The weights in space of the point seen through a covered pixel centre. */
  lemma SpaceWeights(i0: real, i1: real, i2: real, l0: real, l1: real, l2: real, d: real)
    returns (m0: real, m1: real, m2: real)
    requires i0 > 0.0 && i1 > 0.0 && i2 > 0.0 && Bary(l0, l1, l2) && d > 0.0
    requires d == Sum3(l0, l1, l2, i0, i1, i2)
    ensures Bary(m0, m1, m2) && Same(l0, i0, m0, d) && Same(l1, i1, m1, d) && Same(l2, i2, m2, d)
  {
    MulNonNegative(l0, i0);
    MulNonNegative(l1, i1);
    MulNonNegative(l2, i2);
    m0 := Quotient(l0 * i0, d);
    m1 := Quotient(l1 * i1, d);
    m2 := Quotient(l2 * i2, d);
    SumIsOne(m0, m1, m2, d, l0 * i0, l1 * i1, l2 * i2);
  }

  lemma SumIsOne(m0: real, m1: real, m2: real, d: real, a: real, b: real, c: real)
    requires m0 * d == a && m1 * d == b && m2 * d == c && a + b + c == d > 0.0
    ensures m0 + m1 + m2 == 1.0
  {
    SumTimes(m0, m1, m2, d);
    Cancel(m0 + m1 + m2, 1.0, d);
  }

  lemma SumTimes(a: real, b: real, c: real, d: real)
    ensures (a + b + c) * d == a * d + b * d + c * d
  {
  }

  lemma BehindEye(z: real, d: real)
    requires z * d == -1.0 && d > 0.0
    ensures z < 0.0
  {
    if z >= 0.0 { MulNonNegative(z, d); }
  }

  /** Every covered pixel centre is the projection of a point of the triangle, and the depth that is
      offered there is that point's. */
  lemma CoveredIsSeen(vp: Viewport, o: Triangle, px: real, py: real) returns (m0: real, m1: real, m2: real)
    requires Visible(o) && Covers(ScreenOf(vp, o), px, py)
    ensures Bary(m0, m1, m2) && SeenAt(vp, Point(o, m0, m1, m2), px, py)
    ensures InvzAt(ScreenOf(vp, o), px, py) * -Point(o, m0, m1, m2).z == 1.0
    ensures var s := ScreenOf(vp, o);
            RelatedAt(s, W0(s, px, py), W1(s, px, py), m0, m1, m2, InvzAt(s, px, py))
  {
    ScreenDepicts(vp, o);
    m0, m1, m2 := DepictedIsSeen(ScreenOf(vp, o), vp, o, px, py);
  }

  predicate RelatedAt(s: Screen, w0: real, w1: real, m0: real, m1: real, m2: real, d: real) {
    Related(s, 1.0 - w0 - w1, w1, w0, m0, m1, m2, d)
  }

  lemma DepictedIsSeen(s: Screen, vp: Viewport, o: Triangle, px: real, py: real)
    returns (m0: real, m1: real, m2: real)
    requires Depicts(s, vp, o) && Covers(s, px, py)
    ensures Bary(m0, m1, m2) && SeenAt(vp, Point(o, m0, m1, m2), px, py)
    ensures InvzAt(s, px, py) * -Point(o, m0, m1, m2).z == 1.0
    ensures RelatedAt(s, W0(s, px, py), W1(s, px, py), m0, m1, m2, InvzAt(s, px, py))
  {
    CoveredInvzPositive(s, px, py);
    WeightsPlace(s, px, py);
    m0, m1, m2 := PlacedIsSeen(s, vp, o, px, py, W0(s, px, py), W1(s, px, py), InvzAt(s, px, py));
  }

  lemma PlacedIsSeen(s: Screen, vp: Viewport, o: Triangle, px: real, py: real, w0: real, w1: real, d: real)
    returns (m0: real, m1: real, m2: real)
    requires Depicts(s, vp, o) && Places(s, px, py, w0, w1) && Bary(1.0 - w0 - w1, w1, w0)
    requires d == MixedInvz(s, w0, w1) && d > 0.0
    ensures Bary(m0, m1, m2) && RelatedAt(s, w0, w1, m0, m1, m2, d)
    ensures SeenAt(vp, Point(o, m0, m1, m2), px, py) && d * -Point(o, m0, m1, m2).z == 1.0
  {
    m0, m1, m2 := SpaceWeights(s.iz0, s.iz1, s.iz2, 1.0 - w0 - w1, w1, w0, d);
    RelatedPoint(s, vp, o, 1.0 - w0 - w1, w1, w0, m0, m1, m2, d);
    var p := Point(o, m0, m1, m2);
    BehindEye(p.z, d);
    SeenIsShown(vp, p, d, px, py);
  }

  // ---- ... and the other way round

  lemma PlacedAxis(a: real, b: real, c: real, p: real, w0: real, w1: real)
    requires Mix1(a, b, c, 1.0 - w0 - w1, w1, w0) == p
    ensures w1 * (b - a) + w0 * (c - a) == p - a
  {
  }

  lemma CramerBack(ax: real, ay: real, bx: real, by_: real, qx: real, qy: real, area: real, w0: real, w1: real)
    requires area == ax * by_ - bx * ay
    requires w1 * ax + w0 * bx == qx && w1 * ay + w0 * by_ == qy
    ensures w0 * area == ax * qy - qx * ay && w1 * area == qx * by_ - bx * qy
  {
    assert ax * qy == w1 * ax * ay + w0 * ax * by_ && qx * ay == w1 * ax * ay + w0 * bx * ay;
    assert qx * by_ == w1 * ax * by_ + w0 * bx * by_ && bx * qy == w1 * bx * ay + w0 * bx * by_;
  }

  /** Only the barycentric weights place a point. */
  lemma PlacesUnique(s: Screen, px: real, py: real, w0: real, w1: real)
    requires !Degenerate(s) && Places(s, px, py, w0, w1)
    ensures w0 == W0(s, px, py) && w1 == W1(s, px, py)
  {
    PlacedAxis(s.x0, s.x1, s.x2, px, w0, w1);
    PlacedAxis(s.y0, s.y1, s.y2, py, w0, w1);
    CramerBack(s.x1 - s.x0, s.y1 - s.y0, s.x2 - s.x0, s.y2 - s.y0, px - s.x0, py - s.y0, Area(s), w0, w1);
    WeighUnique(s, px, py, w0, w1);
  }

  lemma WeighUnique(s: Screen, px: real, py: real, w0: real, w1: real)
    requires !Degenerate(s) && Weigh(s, px, py, w0, w1)
    ensures w0 == W0(s, px, py) && w1 == W1(s, px, py)
  {
    WeightsWeigh(s, px, py);
    Cancel(w0, W0(s, px, py), Area(s));
    Cancel(w1, W1(s, px, py), Area(s));
  }

  /** The weights on the screen of a point given by its weights in space. */
  lemma ScreenWeight(i: real, z: real, m: real, d: real) returns (l: real)
    requires i > 0.0 && z * i == -1.0 && m >= 0.0 && d > 0.0
    ensures l >= 0.0 && Same(l, i, m, d) && l == -(z * m) * d
  {
    l := -(z * m) * d;
    assert l * i == -(z * i) * (m * d);
    MulNonNegative(m, d);
    if l < 0.0 { MulPositive(-l, i); }
  }

  lemma ScreenWeights(z0: real, z1: real, z2: real, i0: real, i1: real, i2: real, m0: real, m1: real, m2: real,
                      z: real)
    returns (l0: real, l1: real, l2: real, d: real)
    requires i0 > 0.0 && i1 > 0.0 && i2 > 0.0 && z0 * i0 == -1.0 && z1 * i1 == -1.0 && z2 * i2 == -1.0
    requires Bary(m0, m1, m2) && z == Mix1(z0, z1, z2, m0, m1, m2) && z < 0.0
    ensures Bary(l0, l1, l2) && Same(l0, i0, m0, d) && Same(l1, i1, m1, d) && Same(l2, i2, m2, d)
  {
    d := PositiveReciprocal(z);
    l0 := ScreenWeight(i0, z0, m0, d);
    l1 := ScreenWeight(i1, z1, m1, d);
    l2 := ScreenWeight(i2, z2, m2, d);
    SumTimes(z0 * m0, z1 * m1, z2 * m2, d);
  }

  lemma MixedInvzIs(s: Screen, l0: real, l1: real, l2: real, m0: real, m1: real, m2: real, d: real)
    requires Related(s, l0, l1, l2, m0, m1, m2, d) && m0 + m1 + m2 == 1.0
    ensures Sum3(l0, l1, l2, s.iz0, s.iz1, s.iz2) == d
  {
    Constant(d, m0, m1, m2);
  }

  lemma PlacedIsCovered(s: Screen, px: real, py: real, l0: real, l1: real, l2: real, d: real)
    requires !Degenerate(s) && Bary(l0, l1, l2) && Places(s, px, py, l2, l1)
    requires Sum3(l0, l1, l2, s.iz0, s.iz1, s.iz2) == d
    ensures Covers(s, px, py) && InvzAt(s, px, py) == d
  {
    PlacesUnique(s, px, py, l2, l1);
    assert l0 == 1.0 - l2 - l1;
  }

  lemma SeenIsPlaced(s: Screen, vp: Viewport, o: Triangle, m0: real, m1: real, m2: real, px: real, py: real)
    returns (l0: real, l1: real, l2: real, d: real)
    requires Depicts(s, vp, o) && Bary(m0, m1, m2) && SeenAt(vp, Point(o, m0, m1, m2), px, py)
    ensures Bary(l0, l1, l2) && Related(s, l0, l1, l2, m0, m1, m2, d)
    ensures Places(s, px, py, l2, l1) && Point(o, m0, m1, m2).z * d == -1.0
  {
    l0, l1, l2, d := SeenIsRelated(s, o, m0, m1, m2);
    RelatedPoint(s, vp, o, l0, l1, l2, m0, m1, m2, d);
    SeenIsShown(vp, Point(o, m0, m1, m2), d, px, py);
    ShownOnce(vp, Point(o, m0, m1, m2), d, px, py, Mix1(s.x0, s.x1, s.x2, l0, l1, l2),
              Mix1(s.y0, s.y1, s.y2, l0, l1, l2));
    assert l0 == 1.0 - l2 - l1;
  }

  lemma SeenIsRelated(s: Screen, o: Triangle, m0: real, m1: real, m2: real)
    returns (l0: real, l1: real, l2: real, d: real)
    requires DepictsZ(s, o) && Bary(m0, m1, m2) && Point(o, m0, m1, m2).z < 0.0
    ensures Bary(l0, l1, l2) && Related(s, l0, l1, l2, m0, m1, m2, d)
  {
    l0, l1, l2, d := ScreenWeights(o.a.pos.z, o.b.pos.z, o.c.pos.z, s.iz0, s.iz1, s.iz2, m0, m1, m2,
                                   Point(o, m0, m1, m2).z);
  }

  lemma PositiveReciprocal(z: real) returns (d: real)
    requires z < 0.0
    ensures d > 0.0 && z * d == -1.0
  {
    d := 1.0 / -z;
    Reciprocal(z);
    ReciprocalPositive(z, d);
  }

  lemma ShownOnce(vp: Viewport, p: Vec3, d: real, px: real, py: real, qx: real, qy: real)
    requires Shown(vp, p, d, px, py) && Shown(vp, p, d, qx, qy)
    ensures px == qx && py == qy
  {
  }

  /** Every point of a triangle that is not a sliver on the screen covers the pixel centre it projects
      to, and the depth offered there is its own. */
  lemma SeenIsCovered(vp: Viewport, o: Triangle, p: Vec3, px: real, py: real)
    requires Visible(o) && !Degenerate(ScreenOf(vp, o)) && InTriangle(p, o) && SeenAt(vp, p, px, py)
    ensures Covers(ScreenOf(vp, o), px, py) && InvzAt(ScreenOf(vp, o), px, py) * -p.z == 1.0
  {
    ScreenDepicts(vp, o);
    SeenIsDepicted(ScreenOf(vp, o), vp, o, p, px, py);
  }

  lemma SeenIsDepicted(s: Screen, vp: Viewport, o: Triangle, p: Vec3, px: real, py: real)
    requires Depicts(s, vp, o) && !Degenerate(s) && InTriangle(p, o) && SeenAt(vp, p, px, py)
    ensures Covers(s, px, py) && InvzAt(s, px, py) * -p.z == 1.0
  {
    var m0, m1, m2 :| Bary(m0, m1, m2) && p == Point(o, m0, m1, m2);
    var l0, l1, l2, d := SeenIsPlaced(s, vp, o, m0, m1, m2, px, py);
    MixedInvzIs(s, l0, l1, l2, m0, m1, m2, d);
    PlacedIsCovered(s, px, py, l0, l1, l2, d);
  }

  lemma ReciprocalPositive(z: real, d: real)
    requires z * d == -1.0 && z < 0.0
    ensures d > 0.0
  {
    if d <= 0.0 { MulNonNegative(-z, -d); }
  }

  /** A pixel is covered exactly when a point of the triangle projects to its centre, but for slivers,
      which are skipped. */
  lemma CoversIffSeen(vp: Viewport, o: Triangle, px: real, py: real)
    requires Visible(o)
    ensures Covers(ScreenOf(vp, o), px, py) <==>
            Abs(Area(ScreenOf(vp, o))) >= 0.000000000001 && exists p :: InTriangle(p, o) && SeenAt(vp, p, px, py)
  {
    if Covers(ScreenOf(vp, o), px, py) {
      var m0, m1, m2 := CoveredIsSeen(vp, o, px, py);
      assert InTriangle(Point(o, m0, m1, m2), o);
    } else if !Degenerate(ScreenOf(vp, o)) {
      forall p | InTriangle(p, o) && SeenAt(vp, p, px, py) ensures false {
        SeenIsCovered(vp, o, p, px, py);
      }
    }
  }

  // ---- normals

  function Shortened(sqrt: real -> real, n: Vec3): Vec3 {
    var ln := Length(sqrt, n);
    if ln < 0.000000000001 then n else Mul(n, 1.0 / ln)
  }

  /** The normal that shades a pixel is mixed with the weights in space of the point seen there. */
  lemma ShadedNormal(sqrt: real -> real, s: Screen, o: Triangle, px: real, py: real, m0: real, m1: real, m2: real)
    requires !Degenerate(s) && InvzAt(s, px, py) > 0.0
    requires RelatedAt(s, W0(s, px, py), W1(s, px, py), m0, m1, m2, InvzAt(s, px, py))
    ensures NormalAt(sqrt, o, s, px, py) == Shortened(sqrt, NormalMix(o, m0, m1, m2))
  {
    NormalReweighed(s, o, W0(s, px, py), W1(s, px, py), m0, m1, m2, InvzAt(s, px, py));
  }

  lemma NormalReweighed(s: Screen, o: Triangle, w0: real, w1: real, m0: real, m1: real, m2: real, d: real)
    requires d > 0.0 && RelatedAt(s, w0, w1, m0, m1, m2, d)
    ensures Mul(Mix(Mul(o.a.nrm, s.iz0), Mul(o.b.nrm, s.iz1), Mul(o.c.nrm, s.iz2), 1.0 - w0 - w1, w1, w0), 1.0 / d)
            == NormalMix(o, m0, m1, m2)
  {
    var (a, b, c) := (o.a.nrm, o.b.nrm, o.c.nrm);
    var n := NormalMix(o, m0, m1, m2);
    Reweigh(a.x, b.x, c.x, s.iz0, s.iz1, s.iz2, 1.0 - w0 - w1, w1, w0, m0, m1, m2, d);
    Reweigh(a.y, b.y, c.y, s.iz0, s.iz1, s.iz2, 1.0 - w0 - w1, w1, w0, m0, m1, m2, d);
    Reweigh(a.z, b.z, c.z, s.iz0, s.iz1, s.iz2, 1.0 - w0 - w1, w1, w0, m0, m1, m2, d);
    Undone(n.x, d);
    Undone(n.y, d);
    Undone(n.z, d);
  }

  lemma Undone(x: real, d: real)
    requires d != 0.0
    ensures x * d * (1.0 / d) == x
  {
    QuotientTimes(1.0, d);
  }

  // ---- what a pixel shows

  /** `p` is a point of the triangle, with normal `n`, not in front of the near plane, and projects to
      the centre of pixel (i, j). */
  ghost predicate Surface(vp: Viewport, t: Triangle, p: Vec3, n: Vec3, i: int, j: int) {
    OnSurface(p, n, t) && p.z <= -NEAR && SeenAt(vp, p, i as real + 0.5, j as real + 0.5)
  }

  ghost predicate Faces(vp: Viewport, t: Triangle, p: Vec3, i: int, j: int) { exists n :: Surface(vp, t, p, n, i, j) }

  /** `d` is the depth of `p` and the colour that `shade` gives to the normal `n`. */
  predicate Shades(sqrt: real -> real, shade: Shader, p: Vec3, n: Vec3, d: Pixel) {
    d.invz * -p.z == 1.0 && d.color == shade(Shortened(sqrt, n))
  }

  /** No piece of the clipped triangle is so thin on the screen that it is skipped. */
  ghost predicate NoSlivers(vp: Viewport, t: Triangle) {
    ClipVisible(t);
    forall k | 0 <= k < |Clip(t)| :: !Degenerate(ScreenOf(vp, Clip(t)[k]))
  }

  lemma PointBeyond(o: Triangle, x: real, y: real, z: real)
    requires Visible(o) && Bary(x, y, z)
    ensures Point(o, x, y, z).z <= -NEAR
  {
    MixHeight(o, x, y, z);
    Weighted(Height(o.a), Height(o.b), Height(o.c), x, y, z);
  }

  /** Whatever a piece offers to a pixel is the depth and the shade of a point of that piece. */
  lemma OfferIsSurface(vp: Viewport, sqrt: real -> real, shade: Shader, o: Triangle, i: int, j: int)
    returns (p: Vec3, n: Vec3, d: Pixel)
    requires Visible(o) && OfferOf(vp, sqrt, shade, o)(i, j).Some?
    ensures OfferOf(vp, sqrt, shade, o)(i, j) == Some(d)
    ensures Surface(vp, o, p, n, i, j) && Shades(sqrt, shade, p, n, d)
  {
    var px, py := i as real + 0.5, j as real + 0.5;
    d := OfferIs(vp, sqrt, shade, o, i, j, px, py);
    p, n := CoveredIsShaded(vp, sqrt, shade, o, px, py, d);
  }

  lemma OfferIs(vp: Viewport, sqrt: real -> real, shade: Shader, o: Triangle, i: int, j: int, px: real, py: real)
    returns (d: Pixel)
    requires Visible(o) && OfferOf(vp, sqrt, shade, o)(i, j).Some? && px == i as real + 0.5 && py == j as real + 0.5
    ensures OfferOf(vp, sqrt, shade, o)(i, j) == Some(d)
    ensures Covers(ScreenOf(vp, o), px, py) && InvzAt(ScreenOf(vp, o), px, py) == d.invz > 0.0
    ensures d.color == shade(NormalAt(sqrt, o, ScreenOf(vp, o), px, py))
  {
    CoveredInvzPositive(ScreenOf(vp, o), px, py);
    d := OfferOf(vp, sqrt, shade, o)(i, j).value;
  }

  lemma CoveredIsShaded(vp: Viewport, sqrt: real -> real, shade: Shader, o: Triangle, px: real, py: real, d: Pixel)
    returns (p: Vec3, n: Vec3)
    requires Visible(o) && Covers(ScreenOf(vp, o), px, py) && InvzAt(ScreenOf(vp, o), px, py) == d.invz > 0.0
    requires d.color == shade(NormalAt(sqrt, o, ScreenOf(vp, o), px, py))
    ensures OnSurface(p, n, o) && p.z <= -NEAR && SeenAt(vp, p, px, py) && Shades(sqrt, shade, p, n, d)
  {
    var m0, m1, m2 := CoveredIsSeen(vp, o, px, py);
    ShadedNormal(sqrt, ScreenOf(vp, o), o, px, py, m0, m1, m2);
    PointBeyond(o, m0, m1, m2);
    p, n := Point(o, m0, m1, m2), NormalMix(o, m0, m1, m2);
  }

  lemma BruteIsSurface(vp: Viewport, sqrt: real -> real, shade: Shader, t: Triangle, q: nat, i: int, j: int)
    requires q < |BruteForce(vp, sqrt)(t, shade)| && BruteForce(vp, sqrt)(t, shade)[q](i, j).Some?
    ensures exists p, n :: Surface(vp, t, p, n, i, j)
                           && Shades(sqrt, shade, p, n, BruteForce(vp, sqrt)(t, shade)[q](i, j).value)
  {
    ClipVisible(t);
    var o := Clip(t)[q];
    assert o in Clip(t);
    var p, n, d := OfferIsSurface(vp, sqrt, shade, o, i, j);
    ClipSound(t, q);
    assert Surface(vp, t, p, n, i, j);
  }

  lemma SeenIsOffered(vp: Viewport, sqrt: real -> real, shade: Shader, o: Triangle, p: Vec3, i: int, j: int)
    returns (d: Pixel)
    requires Visible(o) && !Degenerate(ScreenOf(vp, o)) && Faces(vp, o, p, i, j)
    ensures OfferOf(vp, sqrt, shade, o)(i, j) == Some(d) && p.z < 0.0 && d.invz == 1.0 / -p.z
  {
    SeenIsCovered(vp, o, p, i as real + 0.5, j as real + 0.5);
    d := OfferOf(vp, sqrt, shade, o)(i, j).value;
    ReciprocalIs(d.invz, p.z);
  }

  ghost predicate ShowsTriangle(vp: Viewport, sqrt: real -> real, tris: seq<Triangle>, shades: seq<Shader>, k: int,
                                d: Pixel, i: int, j: int)
    requires |tris| == |shades|
  {
    0 <= k < |tris| && exists p, n :: Surface(vp, tris[k], p, n, i, j) && Shades(sqrt, shades[k], p, n, d)
  }

  lemma OffersAreSurfaces(vp: Viewport, sqrt: real -> real, tris: seq<Triangle>, shades: seq<Shader>, k: int,
                          d: Pixel, i: int, j: int)
    requires |tris| == |shades| && OffersTo(BruteForce(vp, sqrt), tris, shades, k, Some(d), i, j)
    ensures ShowsTriangle(vp, sqrt, tris, shades, k, d, i, j)
  {
    var of := BruteForce(vp, sqrt);
    var q :| 0 <= q < |of(tris[k], shades[k])| && of(tris[k], shades[k])[q](i, j) == Some(d);
    BruteIsSurface(vp, sqrt, shades[k], tris[k], q, i, j);
  }

  /** Every point of the triangle that projects to a pixel centre is offered there. */
  lemma PieceOffered(vp: Viewport, sqrt: real -> real, shade: Shader, t: Triangle, p: Vec3, i: int, j: int)
    returns (q: nat, d: Pixel)
    requires NoSlivers(vp, t) && Faces(vp, t, p, i, j)
    ensures q < |BruteForce(vp, sqrt)(t, shade)| && BruteForce(vp, sqrt)(t, shade)[q](i, j) == Some(d)
    ensures p.z < 0.0 && d.invz == 1.0 / -p.z
  {
    q := PieceFaces(vp, t, p, i, j);
    d := SeenIsOffered(vp, sqrt, shade, Clip(t)[q], p, i, j);
    BrutePiece(vp, sqrt, shade, t, q);
  }

  lemma PieceFaces(vp: Viewport, t: Triangle, p: Vec3, i: int, j: int) returns (q: nat)
    requires NoSlivers(vp, t) && Faces(vp, t, p, i, j)
    ensures q < |Clip(t)| && Visible(Clip(t)[q]) && !Degenerate(ScreenOf(vp, Clip(t)[q]))
    ensures Faces(vp, Clip(t)[q], p, i, j)
  {
    ClipVisible(t);
    q := ClipComplete(t, p);
    var o := Clip(t)[q];
    assert o in Clip(t);
    var x, y, z :| Bary(x, y, z) && p == Point(o, x, y, z);
    assert Surface(vp, o, p, NormalMix(o, x, y, z), i, j);
  }

  lemma BrutePiece(vp: Viewport, sqrt: real -> real, shade: Shader, t: Triangle, q: nat)
    requires q < |Clip(t)| && Visible(Clip(t)[q])
    ensures q < |BruteForce(vp, sqrt)(t, shade)|
    ensures BruteForce(vp, sqrt)(t, shade)[q] == OfferOf(vp, sqrt, shade, Clip(t)[q])
  {
    ClipVisible(t);
  }

  /** The picture, in space: a pixel is as it was, or shows a point of a triangle that projects to its
      centre, with the reciprocal of its depth and its shade. */
  lemma PixelShowsSurface(vp: Viewport, sqrt: real -> real, tris: seq<Triangle>, shades: seq<Shader>, was: Pixel,
                          i: int, j: int)
    requires |tris| == |shades|
    ensures var d := Paint(was, At(Offers(BruteForce(vp, sqrt), tris, shades), i, j));
            d == was || exists k :: ShowsTriangle(vp, sqrt, tris, shades, k, d, i, j)
  {
    var of := BruteForce(vp, sqrt);
    var d := Paint(was, At(Offers(of, tris, shades), i, j));
    var k := FirstShown(of, tris, shades, was, i, j);
    if d != was {
      OffersAreSurfaces(vp, sqrt, tris, shades, k, d, i, j);
    }
  }

  lemma FirstShown(of: OffersOf, tris: seq<Triangle>, shades: seq<Shader>, was: Pixel, i: int, j: int) returns (k: int)
    requires |tris| == |shades|
    ensures var d := Paint(was, At(Offers(of, tris, shades), i, j));
            d == was || OffersTo(of, tris, shades, k, Some(d), i, j)
  {
    var d := Paint(was, At(Offers(of, tris, shades), i, j));
    PaintedPixel(of, tris, shades, was, i, j);
    k := 0;
    if d != was {
      k :| ShownFirst(of, tris, shades, k, d, i, j);
    }
  }

  /** ... and no triangle, but for slivers, has a point nearer to the eye that projects there. */
  lemma NothingNearer(vp: Viewport, sqrt: real -> real, tris: seq<Triangle>, shades: seq<Shader>, k: int, p: Vec3,
                      was: Pixel, i: int, j: int)
    requires |tris| == |shades| && 0 <= k < |tris| && NoSlivers(vp, tris[k]) && Faces(vp, tris[k], p, i, j)
    ensures p.z < 0.0 && Paint(was, At(Offers(BruteForce(vp, sqrt), tris, shades), i, j)).invz >= 1.0 / -p.z
  {
    var d := TriangleOffers(vp, sqrt, tris, shades, k, p, i, j);
    DepthAtLeast(BruteForce(vp, sqrt), tris, shades, k, d, was, i, j);
  }

  lemma TriangleOffers(vp: Viewport, sqrt: real -> real, tris: seq<Triangle>, shades: seq<Shader>, k: int, p: Vec3,
                       i: int, j: int)
    returns (d: Pixel)
    requires |tris| == |shades| && 0 <= k < |tris| && NoSlivers(vp, tris[k]) && Faces(vp, tris[k], p, i, j)
    ensures OffersTo(BruteForce(vp, sqrt), tris, shades, k, Some(d), i, j)
    ensures p.z < 0.0 && d.invz == 1.0 / -p.z
  {
    var q;
    q, d := PieceOffered(vp, sqrt, shades[k], tris[k], p, i, j);
  }

  lemma DepthAtLeast(of: OffersOf, tris: seq<Triangle>, shades: seq<Shader>, k: int, d: Pixel, was: Pixel, i: int,
                     j: int)
    requires |tris| == |shades| && OffersTo(of, tris, shades, k, Some(d), i, j)
    ensures d.invz <= Paint(was, At(Offers(of, tris, shades), i, j)).invz
  {
    PaintedPixel(of, tris, shades, was, i, j);
  }

  lemma ReciprocalIs(e: real, z: real)
    requires z < 0.0 && e * -z == 1.0
    ensures e == 1.0 / -z
  {
    QuotientTimes(1.0, -z);
    Cancel(e, 1.0 / -z, -z);
  }
}
