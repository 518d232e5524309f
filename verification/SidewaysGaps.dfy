/**
 How far apart `solve_placement` (`scene_ops.py`) puts two objects sideways: exactly when the gap
 between their boxes is the distance asked for.
 */
module SidewaysGaps {
  import opened Vectors
  import opened Boxes
  import opened Gaps
  import opened Placement

  // ---- one axis

  /** The square of a gap along one axis; an overlap counts as none. */
  function PlusSquare(g: real): (r: real)
    ensures r >= 0.0
  {
    SquareNonNegative(g);
    if g > 0.0 then g * g else 0.0
  }

  lemma OverlapIs(a0: real, a1: real, b0: real, b1: real)
    requires a0 <= a1 && b0 <= b1
    ensures var delta, reach := (b0 + b1) * 0.5 - (a0 + a1) * 0.5, Reach(a0, a1, b0, b1);
            && (Abs(delta) >= reach ==> AxisOverlap(a0, a1, b0, b1) == reach - Abs(delta))
            && (Abs(delta) < reach ==> AxisOverlap(a0, a1, b0, b1) >= 0.0)
  {
  }

  lemma GapSquareIs(o: real, g: real)
    requires (g >= 0.0 && o == -g) || (g < 0.0 && o >= 0.0)
    ensures GapSquare(o) == PlusSquare(g)
  {
    NegatedSquare(g, -g);
  }

  /** The gap along an axis counts as `g` of it. */
  predicate Counts(o: real, g: real) { GapSquare(o) == PlusSquare(g) && (g >= 0.0 ==> o <= 0.0) }

  /** One axis of a box put `span` away along `du`. */
  lemma AxisSquare(a0: real, a1: real, n0: real, n1: real, du: real, span: real, p: real)
    requires a0 <= a1 && n0 <= n1 && span >= 0.0 && p == (a0 + a1) * 0.5 + du * span - (n0 + n1) * 0.5
    ensures Counts(AxisOverlap(a0, a1, n0 + p, n1 + p), Abs(du) * span - Reach(a0, a1, n0, n1))
  {
    AbsTimes(du, span);
    ApartBy(a0, a1, n0, n1, du * span, p, Abs(du) * span - Reach(a0, a1, n0, n1));
  }

  lemma ApartBy(a0: real, a1: real, n0: real, n1: real, delta: real, p: real, g: real)
    requires a0 <= a1 && n0 <= n1 && p == (a0 + a1) * 0.5 + delta - (n0 + n1) * 0.5
    requires g == Abs(delta) - Reach(a0, a1, n0, n1)
    ensures Counts(AxisOverlap(a0, a1, n0 + p, n1 + p), g)
  {
    OverlapIs(a0, a1, n0 + p, n1 + p);
    GapSquareIs(AxisOverlap(a0, a1, n0 + p, n1 + p), g);
  }

  lemma AbsTimes(u: real, k: real)
    requires k >= 0.0
    ensures Abs(u * k) == Abs(u) * k
  {
    if u >= 0.0 { MulNonNegative(u, k); } else { MulNonNegative(-u, k); }
  }

  // ---- both ground axes

  /** The gaps along both axes, turned by the direction: `q` is how far the reaches are from being in
      proportion to it. */
  lemma GapsTurned(u: real, v: real, hx: real, hz: real, distance: real, span: real, q: real)
    requires u * u + v * v == 1.0 && span == u * hx + v * hz + distance && q == u * hz - v * hx
    ensures u * span - hx == u * distance + v * q && v * span - hz == v * distance - u * q
  {
    var half := u * hx + v * hz;
    Turn(u, v, hx, hz, half, q);
    Turn(v, u, hz, hx, half, -q);
    assert u * span == u * half + u * distance && v * span == v * half + v * distance;
    assert u * -q == -(u * q);
  }

  lemma Turn(u: real, v: real, hx: real, hz: real, half: real, q: real)
    requires u * u + v * v == 1.0 && half == u * hx + v * hz && q == u * hz - v * hx
    ensures u * half - hx == v * q
  {
    assert u * half == (u * u) * hx + u * v * hz;
    assert v * q == u * v * hz - (v * v) * hx;
    assert (u * u) * hx + (v * v) * hx == hx;
  }

  lemma SquaresTurned(u: real, v: real, distance: real, q: real, gx: real, gz: real)
    requires u * u + v * v == 1.0 && gx == u * distance + v * q && gz == v * distance - u * q
    ensures gx * gx + gz * gz == distance * distance + q * q && u * gx + v * gz == distance
  {
    var d2, q2, dq := distance * distance, q * q, distance * q;
    assert gx * gx == (u * u) * d2 + 2.0 * (u * v * dq) + (v * v) * q2;
    assert gz * gz == (v * v) * d2 - 2.0 * (u * v * dq) + (u * u) * q2;
    assert (u * u) * d2 + (v * v) * d2 == d2 && (u * u) * q2 + (v * v) * q2 == q2;
    assert u * gx == (u * u) * distance + u * v * q && v * gz == (v * v) * distance - u * v * q;
    assert (u * u) * distance + (v * v) * distance == distance;
  }

  /** When the boxes overlap along one axis, the gap along the other is more, unless the direction is
      that other axis. */
  lemma OtherIsMore(u: real, v: real, gx: real, gz: real, distance: real)
    requires u >= 0.0 && v >= 0.0 && u * u + v * v == 1.0 && distance >= 0.0
    requires u * gx + v * gz == distance && gx < 0.0
    ensures gz >= distance && (gz == distance <==> u == 0.0)
  {
    MulNonNegative(u, -gx);
    if u > 0.0 {
      MulPositive(u, -gx);
      AtMostOne(v, u);
      assert v * gz > distance;
      if gz <= distance {
        MulNonNegative(v, distance - gz);
        MulNonNegative(1.0 - v, distance);
      }
    } else {
      RootUnique(v, 1.0);
    }
  }

  /** The sum of the squares is at least the square of the distance; exactly when they are equal. */
  lemma SquaresMeetIff(u: real, v: real, distance: real, q: real, gx: real, gz: real)
    requires u >= 0.0 && v >= 0.0 && u * u + v * v == 1.0 && distance >= 0.0
    requires gx == u * distance + v * q && gz == v * distance - u * q
    ensures PlusSquare(gx) + PlusSquare(gz) >= distance * distance && (gx >= 0.0 || gz >= 0.0)
    ensures gx < 0.0 ==> (PlusSquare(gx) + PlusSquare(gz) == distance * distance <==> u == 0.0)
    ensures gz < 0.0 ==> (PlusSquare(gx) + PlusSquare(gz) == distance * distance <==> v == 0.0)
    ensures gx >= 0.0 && gz >= 0.0 ==> (PlusSquare(gx) + PlusSquare(gz) == distance * distance <==> q == 0.0)
  {
    SquaresTurned(u, v, distance, q, gx, gz);
    SomeGapAtLeastZero(u, v, gx, gz, distance);
    if gx < 0.0 {
      OtherIsMore(u, v, gx, gz, distance);
      SquareMeets(distance, gz);
    } else if gz < 0.0 {
      OtherIsMore(v, u, gz, gx, distance);
      SquareMeets(distance, gx);
    } else {
      SquareNonNegative(q);
      SquareZero(q, q * q);
    }
  }

  lemma SomeGapAtLeastZero(u: real, v: real, gx: real, gz: real, distance: real)
    requires u >= 0.0 && v >= 0.0 && u * u + v * v == 1.0 && u * gx + v * gz == distance && distance >= 0.0
    ensures gx >= 0.0 || gz >= 0.0
  {
    SomeGapNonNegative(u, v, gx, gz);
  }

  lemma NegatedSquare(q: real, p: real)
    requires p == -q
    ensures p * p == q * q
  {
  }

  lemma SquareZero(q: real, square: real)
    requires square == q * q
    ensures square == 0.0 <==> q == 0.0
  {
    var p := -q;
    NegatedSquare(q, p);
    if q > 0.0 {
      SquaresOrdered(0.0, q);
    } else if p > 0.0 {
      SquaresOrdered(0.0, p);
    }
  }

  lemma SquareMeets(d: real, g: real)
    requires 0.0 <= d <= g
    ensures PlusSquare(g) >= d * d && (PlusSquare(g) == d * d <==> g == d)
  {
    if d < g { SquaresOrdered(d, g); }
  }

  /** Reaches in proportion to the direction, or a direction along an axis: the squares meet. */
  lemma MeetIff(u: real, v: real, hx: real, hz: real, distance: real, q: real, gx: real, gz: real)
    requires u >= 0.0 && v >= 0.0 && u * u + v * v == 1.0 && distance >= 0.0 && hx >= 0.0 && hz >= 0.0
    requires q == u * hz - v * hx && gx == u * distance + v * q && gz == v * distance - u * q
    ensures PlusSquare(gx) + PlusSquare(gz) >= distance * distance && (gx >= 0.0 || gz >= 0.0)
    ensures PlusSquare(gx) + PlusSquare(gz) == distance * distance <==> u == 0.0 || v == 0.0 || q == 0.0
  {
    SquaresMeetIff(u, v, distance, q, gx, gz);
    if u == 0.0 {
      RootUnique(v, 1.0);
    } else if v == 0.0 {
      RootUnique(u, 1.0);
    } else {
      NegativeGapTurns(u, v, distance, q, gx, gz);
    }
  }

  lemma NegativeGapTurns(u: real, v: real, distance: real, q: real, gx: real, gz: real)
    requires u > 0.0 && v > 0.0 && distance >= 0.0 && gx == u * distance + v * q && gz == v * distance - u * q
    ensures gx < 0.0 || gz < 0.0 ==> q != 0.0
  {
    MulNonNegative(u, distance);
    MulNonNegative(v, distance);
  }

  // ---- the boxes

  /** The heights of the reference and of what is put beside it overlap or touch. */
  predicate Level(r: Box, n: Box, align: Align) { align == Centered || (r.min.y <= Size(n).y && r.max.y >= 0.0) }

  /** The direction is along a world axis, or the reaches of the boxes are in proportion to it. */
  predicate InProportion(dx: real, dz: real, hx: real, hz: real) {
    dx == 0.0 || dz == 0.0 || Abs(dx) * hz == Abs(dz) * hx
  }

  lemma LevelIff(r: Box, n: Box, d: Vec3, span: real, align: Align)
    requires Proper(r) && Proper(n)
    ensures GapSquare(Overlap(r, Shift(n, BesidePosition(r, n, d, span, align))).y) == 0.0 <==> Level(r, n, align)
  {
    var o := Overlap(r, Shift(n, BesidePosition(r, n, d, span, align))).y;
    assert o >= 0.0 <==> Level(r, n, align);
    SquareZero(o, o * o);
  }

  lemma SquareX(r: Box, n: Box, d: Vec3, span: real, p: Vec3)
    requires Proper(r) && Proper(n) && span >= 0.0
    requires p.x == (r.min.x + r.max.x) * 0.5 + d.x * span - (n.min.x + n.max.x) * 0.5
    ensures Counts(Overlap(r, Shift(n, p)).x, Abs(d.x) * span - ReachX(r, n))
  {
    AxisSquare(r.min.x, r.max.x, n.min.x, n.max.x, d.x, span, p.x);
  }

  lemma SquareZ(r: Box, n: Box, d: Vec3, span: real, p: Vec3)
    requires Proper(r) && Proper(n) && span >= 0.0
    requires p.z == (r.min.z + r.max.z) * 0.5 + d.z * span - (n.min.z + n.max.z) * 0.5
    ensures Counts(Overlap(r, Shift(n, p)).z, Abs(d.z) * span - ReachZ(r, n))
  {
    AxisSquare(r.min.z, r.max.z, n.min.z, n.max.z, d.z, span, p.z);
  }

  lemma RootMeetsIff(sqrt: real -> real, x: real, w: real)
    requires SqrtLaw(sqrt) && w >= 0.0 && x >= 0.0
    ensures sqrt(x) == w <==> x == w * w
  {
    if x == w * w {
      RootUnique(sqrt(x), w);
    }
  }

  /** Exactly when a sideways placement leaves the distance asked for. */
  lemma GapIsDistanceIff(sqrt: real -> real, r: Box, n: Box, dir: Direction, d: Vec3, distance: real, align: Align)
    requires SqrtLaw(sqrt) && Proper(r) && Proper(n) && Horizontal(dir) && GroundUnit(d) && distance >= 0.0
    ensures SurfaceGap(sqrt, r, Shift(n, SolvePlacement(r, n, dir, d, distance, align))) == distance <==>
            Level(r, n, align) && InProportion(d.x, d.z, ReachX(r, n), ReachZ(r, n))
  {
    SpanNonNegative(r, n, d, distance);
    SpanIs(r, n, d, distance);
    BesideMeetsIff(sqrt, r, n, d, distance, Span(r, n, d, distance), align);
  }

  lemma BesideMeetsIff(sqrt: real -> real, r: Box, n: Box, d: Vec3, distance: real, span: real, align: Align)
    requires SqrtLaw(sqrt) && Proper(r) && Proper(n) && GroundUnit(d) && distance >= 0.0 && span >= 0.0
    requires span == Abs(d.x) * ReachX(r, n) + Abs(d.z) * ReachZ(r, n) + distance
    ensures SurfaceGap(sqrt, r, Shift(n, BesidePosition(r, n, d, span, align))) == distance <==>
            Level(r, n, align) && InProportion(d.x, d.z, ReachX(r, n), ReachZ(r, n))
  {
    BesideIsDirected(r, n, d, distance, span, align);
    DirectedBoxesMeetIff(sqrt, r, Shift(n, BesidePosition(r, n, d, span, align)), d, ReachX(r, n), ReachZ(r, n),
                         distance, span);
    LevelIff(r, n, d, span, align);
  }

  /** The boxes are `span` apart along `d`, which with their reaches leaves the distance. */
  predicate Directed(r: Box, m: Box, d: Vec3, hx: real, hz: real, distance: real, span: real) {
    && d.x * d.x + d.z * d.z == 1.0 && distance >= 0.0 && hx >= 0.0 && hz >= 0.0
    && span == Abs(d.x) * hx + Abs(d.z) * hz + distance
    && Counts(Overlap(r, m).x, Abs(d.x) * span - hx) && Counts(Overlap(r, m).z, Abs(d.z) * span - hz)
  }

  lemma BesideIsDirected(r: Box, n: Box, d: Vec3, distance: real, span: real, align: Align)
    requires Proper(r) && Proper(n) && GroundUnit(d) && distance >= 0.0 && span >= 0.0
    requires span == Abs(d.x) * ReachX(r, n) + Abs(d.z) * ReachZ(r, n) + distance
    ensures Directed(r, Shift(n, BesidePosition(r, n, d, span, align)), d, ReachX(r, n), ReachZ(r, n), distance, span)
  {
    SquareX(r, n, d, span, BesidePosition(r, n, d, span, align));
    SquareZ(r, n, d, span, BesidePosition(r, n, d, span, align));
    ReachesNonNegative(r, n);
    GroundUnitSquares(d);
  }

  lemma DirectedBoxesMeetIff(sqrt: real -> real, r: Box, m: Box, d: Vec3, hx: real, hz: real, distance: real,
                             span: real)
    requires SqrtLaw(sqrt) && Directed(r, m, d, hx, hz, distance, span)
    ensures SurfaceGap(sqrt, r, m) == distance <==> GapSquare(Overlap(r, m).y) == 0.0 && InProportion(d.x, d.z, hx, hz)
  {
    DirectedGapsMeetIff(d, hx, hz, distance, span);
    BoxesMeetIff(sqrt, r, m, distance, Abs(d.x) * span - hx, Abs(d.z) * span - hz, InProportion(d.x, d.z, hx, hz));
  }

  lemma BoxesMeetIff(sqrt: real -> real, r: Box, m: Box, distance: real, gx: real, gz: real, exact: bool)
    requires SqrtLaw(sqrt) && distance >= 0.0 && Meets(gx, gz, distance, exact)
    requires var o := Overlap(r, m);
             Counts(o.x, gx) && Counts(o.z, gz)
    ensures SurfaceGap(sqrt, r, m) == distance <==> GapSquare(Overlap(r, m).y) == 0.0 && exact
  {
    GapMeetsIff(sqrt, r, m, distance);
  }

  lemma ReachesNonNegative(r: Box, n: Box)
    requires Proper(r) && Proper(n)
    ensures ReachX(r, n) >= 0.0 && ReachZ(r, n) >= 0.0
  {
  }

  lemma GroundUnitSquares(d: Vec3)
    requires GroundUnit(d)
    ensures d.x * d.x + d.z * d.z == 1.0
  {
  }

  /** Two gaps along the axes are together at least the distance, and that much exactly if `exact`. */
  predicate Meets(gx: real, gz: real, distance: real, exact: bool) {
    && PlusSquare(gx) + PlusSquare(gz) >= distance * distance && (gx >= 0.0 || gz >= 0.0)
    && (PlusSquare(gx) + PlusSquare(gz) == distance * distance <==> exact)
  }

  lemma SameProportion(dx: real, dz: real, hx: real, hz: real)
    ensures InProportion(Abs(dx), Abs(dz), hx, hz) == InProportion(dx, dz, hx, hz)
  {
    assert Abs(Abs(dx)) == Abs(dx) && Abs(Abs(dz)) == Abs(dz);
  }

  lemma DirectedGapsMeetIff(d: Vec3, hx: real, hz: real, distance: real, span: real)
    requires d.x * d.x + d.z * d.z == 1.0 && distance >= 0.0 && hx >= 0.0 && hz >= 0.0
    requires span == Abs(d.x) * hx + Abs(d.z) * hz + distance
    ensures Meets(Abs(d.x) * span - hx, Abs(d.z) * span - hz, distance, InProportion(d.x, d.z, hx, hz))
  {
    AbsSquares(d.x, d.z);
    SameProportion(d.x, d.z, hx, hz);
    SpanGapsMeetIff(Abs(d.x), Abs(d.z), hx, hz, distance, span, Abs(d.x) * span - hx, Abs(d.z) * span - hz);
  }

  lemma SpanGapsMeetIff(u: real, v: real, hx: real, hz: real, distance: real, span: real, gx: real, gz: real)
    requires u >= 0.0 && v >= 0.0 && u * u + v * v == 1.0 && distance >= 0.0 && hx >= 0.0 && hz >= 0.0
    requires span == u * hx + v * hz + distance && gx == u * span - hx && gz == v * span - hz
    ensures Meets(gx, gz, distance, InProportion(u, v, hx, hz))
  {
    var q := u * hz - v * hx;
    GapsTurned(u, v, hx, hz, distance, span, q);
    MeetIff(u, v, hx, hz, distance, q, gx, gz);
  }

  lemma GapMeetsIff(sqrt: real -> real, r: Box, m: Box, distance: real)
    requires SqrtLaw(sqrt) && distance >= 0.0 && !AllPositive(Overlap(r, m))
    requires var o := Overlap(r, m); GapSquare(o.x) + GapSquare(o.z) >= distance * distance
    ensures var o := Overlap(r, m);
            SurfaceGap(sqrt, r, m) == distance <==>
            GapSquare(o.y) == 0.0 && GapSquare(o.x) + GapSquare(o.z) == distance * distance
  {
    RootMeetsIff(sqrt, GapSquares(Overlap(r, m)), distance);
  }

  /** ... for any two objects and any camera. */
  lemma PlacedBesideKeepsIff(sqrt: real -> real, ref: Body, proto: Body, dir: Direction, axes: GroundAxes,
                             distance: real, align: Align)
    requires SqrtLaw(sqrt) && ValidAxes(axes) && Horizontal(dir) && distance >= 0.0 && proto.position == ORIGIN
    ensures var r, n, d := Aabb(ref), Aabb(proto), GroundDirection(dir, axes);
            var placed := proto.(position := PlacePosition(ref, proto, dir, axes, distance, align));
            SurfaceGap(sqrt, r, Aabb(placed)) == distance <==>
            Level(r, n, align) && InProportion(d.x, d.z, ReachX(r, n), ReachZ(r, n))
  {
    HullProper(WorldCorners(ref));
    HullProper(WorldCorners(proto));
    DirectionIsUnit(dir, axes);
    MovedBox(proto, PlacePosition(ref, proto, dir, axes, distance, align));
    GapIsDistanceIff(sqrt, Aabb(ref), Aabb(proto), dir, GroundDirection(dir, axes), distance, align);
  }

  /** So along a world axis, with the heights overlapping, it does. */
  lemma AlongAxisGap(sqrt: real -> real, r: Box, n: Box, dir: Direction, d: Vec3, distance: real, align: Align)
    requires SqrtLaw(sqrt) && Proper(r) && Proper(n) && Horizontal(dir) && distance >= 0.0
    requires d.y == 0.0 && ((d.z == 0.0 && Abs(d.x) == 1.0) || (d.x == 0.0 && Abs(d.z) == 1.0))
    requires align == Centered || (r.min.y <= Size(n).y && r.max.y >= 0.0)
    ensures SurfaceGap(sqrt, r, Shift(n, SolvePlacement(r, n, dir, d, distance, align))) == distance
  {
    AbsSquares(Abs(d.x), Abs(d.z));
    GapIsDistanceIff(sqrt, r, n, dir, d, distance, align);
  }

  /** Two cubes put a metre apart along (0.6, 0, 0.8) are farther apart than that. */
  lemma AcrossAxesGapIsMore(sqrt: real -> real, d: Vec3)
    requires SqrtLaw(sqrt) && d == Vec3(0.6, 0.0, 0.8)
    ensures SurfaceGap(sqrt, CUBE, Shift(CUBE, SolvePlacement(CUBE, CUBE, Right, d, 1.0, Grounded))) >= 1.05
  {
    AcrossPosition(d);
    AcrossOverlap(Box(Vec3(2.28, 0.0, 3.04), Vec3(4.28, 2.0, 5.04)));
    GapAtLeast(sqrt, CUBE, Box(Vec3(2.28, 0.0, 3.04), Vec3(4.28, 2.0, 5.04)), 1.05);
  }

  lemma AcrossPosition(d: Vec3)
    requires d == Vec3(0.6, 0.0, 0.8)
    ensures Shift(CUBE, SolvePlacement(CUBE, CUBE, Right, d, 1.0, Grounded))
         == Box(Vec3(2.28, 0.0, 3.04), Vec3(4.28, 2.0, 5.04))
  {
    AcrossSpan(d);
    CubeBeside(d, 3.8);
  }

  lemma AcrossSpan(d: Vec3)
    requires d == Vec3(0.6, 0.0, 0.8)
    ensures Span(CUBE, CUBE, d, 1.0) == 3.8
  {
    SpanIs(CUBE, CUBE, d, 1.0);
    CubeReach();
  }

  lemma CubeReach()
    ensures ReachX(CUBE, CUBE) == 2.0 && ReachZ(CUBE, CUBE) == 2.0
  {
  }

  lemma CubeBeside(d: Vec3, span: real)
    ensures BesidePosition(CUBE, CUBE, d, span, Grounded) == Vec3(d.x * span, 0.0, d.z * span)
  {
    assert Center(CUBE) == Vec3(1.0, 1.0, 1.0);
  }

  lemma AcrossOverlap(m: Box)
    requires m == Box(Vec3(2.28, 0.0, 3.04), Vec3(4.28, 2.0, 5.04))
    ensures GapReaches(Overlap(CUBE, m), 1.05)
  {
    assert Overlap(CUBE, m) == Vec3(-0.28, 2.0, -1.04);
    assert GapSquares(Vec3(-0.28, 2.0, -1.04)) == 1.16;
  }
}
