/**
 What the words of `place` and `describe_direction` (`scene_ops.py`) mean: right is right in the
 picture, back is away from the camera, above is higher; and how high a placed object stands.
 */
module Headings {
  import opened Vectors
  import opened Options
  import opened Boxes
  import opened Gaps
  import opened Cameras
  import opened Placement
  import opened Measuring

  // ---- the camera's axes have the usual orientation

  lemma TripleProduct(a: Vec3, b: Vec3, c: Vec3)
    ensures Dot(Cross(a, b), c) == Dot(a, Cross(b, c))
  {
  }

  /** a x (a x b) == a (a . b) - b (a . a). */
  lemma DoubleCross(a: Vec3, b: Vec3)
    ensures Cross(a, Cross(a, b)) == Sub(Mul(a, Dot(a, b)), Mul(b, Dot(a, a)))
  {
    var c, p, q := Cross(a, b), Dot(a, b), Dot(a, a);
    DoubleCross1(a.x, a.y, a.z, b.x, b.y, b.z, c.y, c.z, p, q);
    DoubleCross1(a.y, a.z, a.x, b.y, b.z, b.x, c.z, c.x, p, q);
    DoubleCross1(a.z, a.x, a.y, b.z, b.x, b.y, c.x, c.y, p, q);
  }

  lemma DoubleCross1(x: real, y: real, z: real, u: real, v: real, w: real, cy: real, cz: real, p: real, q: real)
    requires cz == x * v - y * u && cy == z * u - x * w
    requires p == x * u + y * v + z * w && q == x * x + y * y + z * z
    ensures y * cz - z * cy == x * p - u * q
  {
    assert y * cz == x * y * v - y * y * u && z * cy == z * z * u - x * z * w;
    assert x * p == x * x * u + x * y * v + x * z * w;
    assert u * q == x * x * u + y * y * u + z * z * u;
  }

  lemma RightHanded(side: Vec3, fwd: Vec3)
    requires Unit(side) && Dot(side, fwd) == 0.0
    ensures Cross(side, Cross(side, fwd)) == Mul(fwd, -1.0)
  {
    DoubleCross(side, fwd);
  }

  /** The reference direction that the picture shows as up: the world's, unless looking along it. */
  function Upright(sqrt: real -> real, fwd: Vec3): Vec3 {
    if Length(sqrt, Cross(fwd, UP)) < 0.000001 then BACK else UP
  }

  lemma SidePointsUp(sqrt: real -> real, fwd: Vec3)
    requires SqrtLaw(sqrt) && Unit(fwd)
    ensures Dot(Cross(SideOf(sqrt, fwd), fwd), Upright(sqrt, fwd)) > 0.0
  {
    var raw := Cross(fwd, Upright(sqrt, fwd));
    RawSideLong(sqrt, fwd);
    TripleProduct(SideOf(sqrt, fwd), fwd, Upright(sqrt, fwd));
    ScaledSelf(sqrt, raw, Vec3(1.0, 0.0, 0.0));
  }

  lemma ScaledSelf(sqrt: real -> real, a: Vec3, fallback: Vec3)
    requires SqrtLaw(sqrt) && Length(sqrt, a) > 0.000000001
    ensures Dot(Normalize(sqrt, a, fallback), a) == Length(sqrt, a) > 0.0
  {
    var n := Length(sqrt, a);
    NormalizeUnit(sqrt, a, fallback);
    var u := Normalize(sqrt, a, fallback);
    DotMul(u, u, n);
  }

  /** For every camera the axes are right-handed, and up in the picture is up in the world, or away
      from the viewer's feet when looking straight up or down. */
  lemma BasisIsUpright(sqrt: real -> real, cam: Camera)
    requires SqrtLaw(sqrt)
    ensures var b := CameraBasis(sqrt, cam);
            Cross(b.side, b.up) == Mul(b.fwd, -1.0) && Dot(b.up, Upright(sqrt, b.fwd)) > 0.0
  {
    var b := CameraBasis(sqrt, cam);
    ForwardUnit(sqrt, cam.position, cam.target);
    SideUnit(sqrt, b.fwd);
    DotCommutes(b.side, b.fwd);
    RightHanded(b.side, b.fwd);
    SidePointsUp(sqrt, b.fwd);
  }

  // ---- words and the picture

  lemma DotGround(a: Vec3, v: Vec3)
    requires a.y == 0.0
    ensures Dot(a, v) == Dot(a, Vec3(v.x, 0.0, v.z))
  {
  }

  /** The ground part of a vector, normalised, points along the vector. */
  lemma FlatPointsAlong(sqrt: real -> real, v: Vec3, fallback: Vec3)
    requires SqrtLaw(sqrt) && GroundUnit(fallback) && Length(sqrt, Vec3(v.x, 0.0, v.z)) > 0.000000001
    ensures Dot(Flat(sqrt, v, fallback), v) > 0.0
  {
    FlatIsUnit(sqrt, v, fallback);
    DotGround(Flat(sqrt, v, fallback), v);
    ScaledSelf(sqrt, Vec3(v.x, 0.0, v.z), fallback);
  }

  /** A unit vector that does not stand upright has a ground part to speak of. */
  lemma FlatUnit(sqrt: real -> real, s: Vec3)
    requires SqrtLaw(sqrt) && Unit(s) && s.y * s.y <= 0.5
    ensures Length(sqrt, Vec3(s.x, 0.0, s.z)) > 0.000000001
  {
    var g := Vec3(s.x, 0.0, s.z);
    LengthSquared(sqrt, g);
    assert Dot(g, g) == 1.0 - s.y * s.y;
    LongEnough(Length(sqrt, g), s.y * s.y);
  }

  lemma LongEnough(n: real, h: real)
    requires n >= 0.0 && n * n == 1.0 - h && h <= 0.5
    ensures n > 0.000000001
  {
    if n <= 0.000000001 { SquaresOrdered1(n, 0.000000001); }
  }

  lemma SquaresOrdered1(a: real, b: real)
    requires 0.0 <= a <= b
    ensures a * a <= b * b
  {
    if a < b { SquaresOrdered(a, b); }
  }

  /** The side axis of a camera never stands upright. */
  lemma SideIsFlat(sqrt: real -> real, fwd: Vec3)
    requires SqrtLaw(sqrt) && Unit(fwd)
    ensures var s := SideOf(sqrt, fwd); Length(sqrt, Vec3(s.x, 0.0, s.z)) > 0.000000001
  {
    SideUnit(sqrt, fwd);
    RawSideLong(sqrt, fwd);
    CrossSquares(fwd);
    if Length(sqrt, Cross(fwd, UP)) < 0.000001 {
      LengthSquared(sqrt, Cross(fwd, UP));
      LengthSquared(sqrt, Cross(fwd, BACK));
      SteepFlat(sqrt, SideOf(sqrt, fwd), fwd, Length(sqrt, Cross(fwd, BACK)), Length(sqrt, Cross(fwd, UP)));
    } else {
      assert SideOf(sqrt, fwd).y == 0.0 * (1.0 / Length(sqrt, RawSide(sqrt, fwd)));
      LevelFlat(sqrt, SideOf(sqrt, fwd));
    }
  }

  lemma CrossSquares(fwd: Vec3)
    ensures Dot(Cross(fwd, UP), Cross(fwd, UP)) == fwd.x * fwd.x + fwd.z * fwd.z
    ensures Cross(fwd, BACK) == Vec3(-fwd.y, fwd.x, 0.0)
    ensures Dot(Cross(fwd, BACK), Cross(fwd, BACK)) == fwd.x * fwd.x + fwd.y * fwd.y
  {
    assert Cross(fwd, UP) == Vec3(-fwd.z, 0.0, fwd.x) && Cross(fwd, BACK) == Vec3(-fwd.y, fwd.x, 0.0);
  }

  lemma LevelFlat(sqrt: real -> real, s: Vec3)
    requires SqrtLaw(sqrt) && Unit(s) && s.y == 0.0
    ensures Length(sqrt, Vec3(s.x, 0.0, s.z)) > 0.000000001
  {
    FlatUnit(sqrt, s);
  }

  lemma SteepFlat(sqrt: real -> real, s: Vec3, fwd: Vec3, n: real, c: real)
    requires SqrtLaw(sqrt) && Unit(s) && Unit(fwd) && 0.0 <= c < 0.000001 && n > 0.0
    requires c * c == fwd.x * fwd.x + fwd.z * fwd.z && n * n == fwd.x * fwd.x + fwd.y * fwd.y
    requires s.y == fwd.x * (1.0 / n)
    ensures Length(sqrt, Vec3(s.x, 0.0, s.z)) > 0.000000001
  {
    SmallSquare(c);
    SteepHeight(fwd, n, s.y);
    FlatUnit(sqrt, s);
  }

  lemma SteepHeight(fwd: Vec3, n: real, y: real)
    requires Unit(fwd) && fwd.x * fwd.x + fwd.z * fwd.z <= 0.000001 && n > 0.0
    requires n * n == fwd.x * fwd.x + fwd.y * fwd.y && y == fwd.x * (1.0 / n)
    ensures y * y <= 0.5
  {
    assert y * n == fwd.x;
    SquareNonNegative(fwd.x);
    SquareNonNegative(fwd.z);
    assert y * y * (n * n) == fwd.x * fwd.x;
    SmallQuotient(y * y, n * n, fwd.x * fwd.x);
  }

  lemma SmallQuotient(q: real, m: real, f: real)
    requires q * m == f && f <= 0.1 && m >= 0.5
    ensures q <= 0.5
  {
    if q > 0.5 { MulPositive(q - 0.5, m); }
  }

  /** A step along `d` changes a view coordinate by the component of `d` along its axis. */
  lemma MovedView(m: ViewMatrix, p: Vec3, d: Vec3, s: real)
    ensures var q := ToView(m, Add(p, Mul(d, s)));
            q.x == ToView(m, p).x + Dot(m.side, d) * s && q.z == ToView(m, p).z + Dot(m.back, d) * s
  {
    DotStep(m.side, p, d, s);
    DotStep(m.back, p, d, s);
  }

  lemma DotStep(a: Vec3, p: Vec3, d: Vec3, s: real)
    ensures Dot(a, Add(p, Mul(d, s))) == Dot(a, p) + Dot(a, d) * s
  {
    DotMul(a, d, s);
    var e := Mul(d, s);
    assert Dot(a, Add(p, e)) == Dot(a, p) + Dot(a, e);
  }

  lemma Sideways(a: Vec3, d: Vec3, s: real)
    requires s > 0.0 && Dot(d, a) > 0.0
    ensures Dot(a, d) * s > 0.0 && Dot(a, Mul(d, -1.0)) * s < 0.0
    ensures Dot(Mul(a, -1.0), d) * s < 0.0 && Dot(Mul(a, -1.0), Mul(d, -1.0)) * s > 0.0
  {
    DotCommutes(a, d);
    DotNegate(d, a);
    DotNegate(a, d);
    DotNegate(a, Mul(d, -1.0));
    DotCommutes(a, Mul(d, -1.0));
    MulPositive(Dot(a, d), s);
  }

  lemma RightInView(sqrt: real -> real, m: ViewMatrix, b: Basis, p: Vec3, s: real)
    requires SqrtLaw(sqrt) && s > 0.0 && m.side == b.side
    requires Length(sqrt, Vec3(b.side.x, 0.0, b.side.z)) > 0.000000001
    ensures var axes := AxesOf(sqrt, b);
            && ToView(m, Add(p, Mul(GroundDirection(Right, axes), s))).x > ToView(m, p).x
            && ToView(m, Add(p, Mul(GroundDirection(Left, axes), s))).x < ToView(m, p).x
  {
    var d := AxesOf(sqrt, b).side;
    FlatPointsAlong(sqrt, b.side, Vec3(1.0, 0.0, 0.0));
    Sideways(m.side, d, s);
    MovedView(m, p, d, s);
    MovedView(m, p, Mul(d, -1.0), s);
  }

  lemma BackInView(sqrt: real -> real, m: ViewMatrix, b: Basis, p: Vec3, s: real)
    requires SqrtLaw(sqrt) && s > 0.0 && m.back == Mul(b.fwd, -1.0)
    requires Length(sqrt, Vec3(b.fwd.x, 0.0, b.fwd.z)) > 0.000000001
    ensures var axes := AxesOf(sqrt, b);
            && ToView(m, Add(p, Mul(GroundDirection(Back, axes), s))).z < ToView(m, p).z
            && ToView(m, Add(p, Mul(GroundDirection(Front, axes), s))).z > ToView(m, p).z
  {
    var d := AxesOf(sqrt, b).fwd;
    FlatPointsAlong(sqrt, b.fwd, BACK);
    Sideways(b.fwd, d, s);
    MovedView(m, p, d, s);
    MovedView(m, p, Mul(d, -1.0), s);
  }

  /** Whatever the camera, moving to the right moves to the right in the picture, and moving to the
      left to the left. */
  lemma RightIsRight(sqrt: real -> real, cam: Camera, p: Vec3, s: real)
    requires SqrtLaw(sqrt) && s > 0.0
    ensures var m, axes := LookAt(sqrt, cam.position, cam.target), AxesOf(sqrt, CameraBasis(sqrt, cam));
            && ToView(m, Add(p, Mul(GroundDirection(Right, axes), s))).x > ToView(m, p).x
            && ToView(m, Add(p, Mul(GroundDirection(Left, axes), s))).x < ToView(m, p).x
  {
    LookAtAgrees(sqrt, cam);
    ForwardUnit(sqrt, cam.position, cam.target);
    SideIsFlat(sqrt, Forward(sqrt, cam.position, cam.target));
    RightInView(sqrt, LookAt(sqrt, cam.position, cam.target), CameraBasis(sqrt, cam), p, s);
  }

  /** ... and, unless it looks straight up or down, moving back moves away from it. */
  lemma BackIsAway(sqrt: real -> real, cam: Camera, p: Vec3, s: real)
    requires SqrtLaw(sqrt) && s > 0.0
    requires Length(sqrt, Cross(CameraBasis(sqrt, cam).fwd, UP)) > 0.000000001
    ensures var m, axes := LookAt(sqrt, cam.position, cam.target), AxesOf(sqrt, CameraBasis(sqrt, cam));
            && ToView(m, Add(p, Mul(GroundDirection(Back, axes), s))).z < ToView(m, p).z
            && ToView(m, Add(p, Mul(GroundDirection(Front, axes), s))).z > ToView(m, p).z
  {
    LookAtAgrees(sqrt, cam);
    GroundLength(sqrt, CameraBasis(sqrt, cam).fwd);
    BackInView(sqrt, LookAt(sqrt, cam.position, cam.target), CameraBasis(sqrt, cam), p, s);
  }

  // ---- heights

  /** Beside a reference an object stands on the ground or, centred, has its middle at the same height. */
  lemma BesideHeight(r: Box, n: Box, d: Vec3, span: real, align: Align)
    ensures var m := Shift(n, BesidePosition(r, n, d, span, align));
            if align == Centered then Center(m).y == Center(r).y else m.min.y == 0.0
  {
  }

  lemma ShiftCenter(n: Box, p: Vec3)
    ensures Center(Shift(n, p)) == Add(Center(n), p)
  {
  }

  /** Placed beside its reference and centred, an object is neither above nor below it; standing on
      the ground it is so exactly by how far its middle is from the reference's. */
  lemma BesideIsLevel(ref: Body, proto: Body, dir: Direction, axes: GroundAxes, distance: real, align: Align)
    requires Horizontal(dir) && proto.position == ORIGIN
    ensures var p := R3Vec(PlacePosition(ref, proto, dir, axes, distance, align));
            var said := Describe(Aabb(proto.(position := p)), Aabb(ref), axes).upDown;
            var rise := Size(Aabb(proto)).y / 2.0 - Center(Aabb(ref)).y;
            && (align == Centered ==> said == None)
            && (align == Grounded && rise > DIRECTION_TOLERANCE + 0.0005 ==> said == Some(Above))
            && (align == Grounded && rise < -DIRECTION_TOLERANCE - 0.0005 ==> said == Some(Below))
            && (align == Grounded && Abs(rise) <= DIRECTION_TOLERANCE - 0.0005 ==> said == None)
  {
    var p := PlacePosition(ref, proto, dir, axes, distance, align);
    R3Near(p.y);
    MovedBox(proto, R3Vec(p));
    ShiftCenter(Aabb(proto), R3Vec(p));
    var r, n, d := Aabb(ref), Aabb(proto), GroundDirection(dir, axes);
    BesideY(r, n, d, Span(r, n, d, distance), align);
  }

  lemma BesideY(r: Box, n: Box, d: Vec3, span: real, align: Align)
    ensures var y := BesidePosition(r, n, d, span, align).y;
            y + Center(n).y - Center(r).y == if align == Centered then 0.0 else Size(n).y / 2.0 - Center(r).y
  {
  }

  /** How far apart the middles are when one box is put `distance` above or below the other. */
  function Rise(r: Box, n: Box, distance: real): real { Size(r).y / 2.0 + distance + Size(n).y / 2.0 }

  lemma VerticalOffset(r: Box, n: Box, dir: Direction, d: Vec3, distance: real, align: Align)
    requires !Horizontal(dir) && !Lifted(r, n, dir, distance, align)
    ensures var delta := Sub(Center(Shift(n, SolvePlacement(r, n, dir, d, distance, align))), Center(r));
            && delta.x == 0.0 && delta.z == 0.0
            && delta.y == if dir.Above? then Rise(r, n, distance) else -Rise(r, n, distance)
  {
  }

  /** A horizontal offset of at most half a millimetre per axis is no word. */
  lemma NoWord(delta: Vec3, f: Vec3, pos: Direction, neg: Direction)
    requires GroundUnit(f) && Near(delta.x, 0.0, 0.0005) && Near(delta.z, 0.0, 0.0005)
    ensures Word(Dot(delta, f), pos, neg) == None
  {
    FlatErrors(f, delta.x, delta.z, 0.0005);
    assert Dot(delta, f) == delta.x * f.x + delta.z * f.z;
  }

  /** Placed above or below, rounded and described: exactly that word comes back, if the middles are
      farther apart than the tolerance and the object was not lifted to the ground. */
  lemma PlacedVerticallyIsNamed(ref: Body, proto: Body, dir: Direction, axes: GroundAxes, distance: real,
                                align: Align)
    requires ValidAxes(axes) && !Horizontal(dir) && proto.position == ORIGIN
    requires !Lifted(Aabb(ref), Aabb(proto), dir, distance, align)
    requires Rise(Aabb(ref), Aabb(proto), distance) > DIRECTION_TOLERANCE + 0.0005
    ensures var p := R3Vec(PlacePosition(ref, proto, dir, axes, distance, align));
            Describe(Aabb(proto.(position := p)), Aabb(ref), axes) == Heading(None, None, Some(dir))
  {
    var p := PlacePosition(ref, proto, dir, axes, distance, align);
    var r, n, d := Aabb(ref), Aabb(proto), GroundDirection(dir, axes);
    R3Near(p.x);
    R3Near(p.y);
    R3Near(p.z);
    MovedBox(proto, R3Vec(p));
    ShiftCenter(n, p);
    ShiftCenter(n, R3Vec(p));
    VerticalOffset(r, n, dir, d, distance, align);
    var delta := Sub(Center(Shift(n, R3Vec(p))), Center(r));
    NoWord(delta, axes.side, Right, Left);
    NoWord(delta, axes.fwd, Back, Front);
  }

  // ---- seen from the other side

  function Opposite(d: Direction): Direction {
    match d
    case Right => Left
    case Left => Right
    case Back => Front
    case Front => Back
    case Above => Below
    case Below => Above
  }

  function Reversed(w: Option<Direction>): Option<Direction> { if w.None? then None else Some(Opposite(w.value)) }

  lemma WordReversed(x: real, pos: Direction, neg: Direction)
    requires neg == Opposite(pos)
    ensures Word(-x, pos, neg) == Reversed(Word(x, pos, neg))
    ensures Word(x, pos, neg) == Some(pos) <==> x > DIRECTION_TOLERANCE
    ensures Word(x, pos, neg) == Some(neg) <==> x < -DIRECTION_TOLERANCE
  {
  }

  /** Where `b` is, seen from `a`, is the opposite of where `a` is, seen from `b`, word for word. */
  lemma DescribeReversed(a: Box, b: Box, axes: GroundAxes)
    ensures var h, back := Describe(a, b, axes), Describe(b, a, axes);
            && back.leftRight == Reversed(h.leftRight) && back.frontBack == Reversed(h.frontBack)
            && back.upDown == Reversed(h.upDown)
  {
    var delta := Sub(Center(a), Center(b));
    assert Sub(Center(b), Center(a)) == Mul(delta, -1.0);
    DotNegate(delta, axes.side);
    DotNegate(delta, axes.fwd);
    WordReversed(Dot(delta, axes.side), Right, Left);
    WordReversed(Dot(delta, axes.fwd), Back, Front);
    WordReversed(delta.y, Above, Below);
  }
}
