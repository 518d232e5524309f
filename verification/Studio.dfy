/**
 The editing actions of `recipe.py` on real geometry: the solvers of `Tools` become `solve_placement`
 and the move of `do_move`, and what was proved of positions becomes what is proved of stored scenes.
 */
module Studio {
  import opened Options
  import opened Vectors
  import opened Documents
  import opened Scenes
  import opened References
  import opened Edits
  import opened EditEffects
  import opened StoredValues
  import RaisingSteps
  import Foresight
  import opened Boxes
  import Gaps
  import Cameras
  import Placement
  import Measuring
  import Headings

  /** Square roots, the cosine and sine of an angle in degrees, and the tangent of half a field of view. */
  datatype Geometry = Geometry(sqrt: real -> real, angle: real -> Angle, halfTan: real -> real)

  function ShapeOf(shape: string): Shape {
    match shape
    case "sphere" => Sphere
    case "cylinder" => Cylinder
    case "cone" => Cone
    case "capsule" => Capsule
    case "plane" => Plane
    case "stairs" => Stairs
    case _ => BoxShape
  }

  /** A stored object as far as geometry is concerned. */
  function BodyOf(g: Geometry, o: Object): Body {
    Body(ShapeOf(o.shape), o.position, g.angle(o.rotation.x), g.angle(o.rotation.y), g.angle(o.rotation.z), o.scale)
  }

  /** What right and back are, seen from the scene's camera. */
  function AxesIn(g: Geometry, v: View): Placement.GroundAxes {
    Placement.AxesOf(g.sqrt, BasisIn(g, v))
  }

  function BasisIn(g: Geometry, v: View): Cameras.Basis {
    Cameras.CameraBasis(g.sqrt, Cameras.Camera(v.position, v.target, g.halfTan(v.fov)))
  }

  function DirectionOf(j: Json): Placement.Direction {
    match j
    case Str("front") => Placement.Front
    case Str("back") => Placement.Back
    case Str("left") => Placement.Left
    case Str("above") => Placement.Above
    case Str("below") => Placement.Below
    case _ => Placement.Right
  }

  function AlignOf(args: Args): Placement.Align {
    if Get(args, "align") == Str("center") then Placement.Centered else Placement.Grounded
  }

  function DistanceIn(t: Tools, args: Args, default: real): real {
    var d := t.float(DistanceOf(args, default));
    if d.None? then default else d.value
  }

  /** Where `do_place` puts `proto` next to `ref`: the solved position, in millimetres. */
  function PlacedPosition(g: Geometry, t: Tools, s: Scene, ref: Object, proto: Object, args: Args): Vec3 {
    Measuring.R3Vec(Placement.PlacePosition(BodyOf(g, ref), BodyOf(g, proto), DirectionOf(Get(args, "direction")),
                                            AxesIn(g, s.camera), DistanceIn(t, args, 1.0), AlignOf(args)))
  }

  /** The placer of the tools is `solve_placement`. */
  ghost predicate Places(g: Geometry, t: Tools) {
    forall s: Scene, k: nat, f: Args, proto: Object, args: Args
      {:trigger t.place(s, s.objects[k].id, f, args), Faithful(t.show, Dict(f), proto)}
      | k < |s.objects| && Faithful(t.show, Dict(f), proto) && proto.position == ORIGIN ::
      t.place(s, s.objects[k].id, f, args) == PlacedPosition(g, t, s, s.objects[k], proto, args)
  }

  /** A place action that succeeds stores one object more, `added`, next to object `k`. */
  ghost predicate PlacedNextTo(g: Geometry, t: Tools, args: Args, s: Scene, k: nat, added: Object) {
    && k < |s.objects| && Resolve(t.show, s.objects, Get(args, "relative_to")) == Some(s.objects[k].id)
    && Settle(t.show, PlaceNext(t, args, s), s) == Changed(Holding(s, s.objects + [added]))
    && added.position == PlacedPosition(g, t, s, s.objects[k], added.(position := ORIGIN), args)
  }

  lemma PlaceSolves(g: Geometry, t: Tools, args: Args, s: Scene) returns (k: nat, added: Object)
    requires ShowLaw(t.show) && WellFormed(s) && Places(g, t) && Settle(t.show, PlaceNext(t, args, s), s).Changed?
    ensures PlacedNextTo(g, t, args, s, k, added) && DistanceIn(t, args, 1.0) >= 0.0
  {
    var proto;
    added, proto := PlaceStores(t, args, s);
    var id := Resolve(t.show, s.objects, Get(args, "relative_to")).value;
    RaisingSteps.ResolvedIndex(t.show, s.objects, Get(args, "relative_to"));
    k := IndexOf(s.objects, id);
    var at := added.(position := ORIGIN);
    assert t.place(s, s.objects[k].id, proto, args) == PlacedPosition(g, t, s, s.objects[k], at, args);
  }

  /** However an object was put sideways of another by the place action, the health check never reports
      the two as intersecting, and from a millimetre on they are apart by the distance asked for less a
      millimetre. */
  lemma PlacedIsClear(g: Geometry, t: Tools, args: Args, s: Scene) returns (k: nat, added: Object)
    requires SqrtLaw(g.sqrt) && ShowLaw(t.show) && WellFormed(s) && Places(g, t)
    requires Settle(t.show, PlaceNext(t, args, s), s).Changed?
    requires Placement.Horizontal(DirectionOf(Get(args, "direction")))
    ensures PlacedNextTo(g, t, args, s, k, added)
    ensures var r, m, distance := Aabb(BodyOf(g, s.objects[k])), Aabb(BodyOf(g, added)), DistanceIn(t, args, 1.0);
            && !Measuring.Reported(r, m, Measuring.INTERSECT_TOLERANCE)
            && (distance >= 0.001 ==> Gaps.SurfaceGap(g.sqrt, r, m) >= distance - 0.001)
  {
    k, added := PlaceSolves(g, t, args, s);
    var ref, proto := BodyOf(g, s.objects[k]), BodyOf(g, added.(position := ORIGIN));
    assert BodyOf(g, added) == proto.(position := added.position);
    Placement.AxesValid(g.sqrt, BasisIn(g, s.camera));
    Measuring.RoundedIsNotReported(g.sqrt, ref, proto, DirectionOf(Get(args, "direction")), AxesIn(g, s.camera),
                                   DistanceIn(t, args, 1.0), AlignOf(args));
  }

  // ---- do_move

  /** `do_move`: along the direction, in millimetres; what stands on the ground stays there unless it is
      moved up or down. */
  function MovedPosition(before: Vec3, dir: Placement.Direction, axes: Placement.GroundAxes, distance: real): Vec3 {
    Stepped(before, Mul(Placement.GroundDirection(dir, axes), distance), Placement.Horizontal(dir))
  }

  function Stepped(before: Vec3, step: Vec3, level: bool): Vec3 {
    var p := Measuring.R3Vec(Add(before, step));
    if level && Abs(before.y) < 0.000001 then Vec3(p.x, 0.0, p.z) else p
  }

  lemma OppositeStep(dir: Placement.Direction, axes: Placement.GroundAxes, distance: real)
    ensures Mul(Placement.GroundDirection(Headings.Opposite(dir), axes), distance)
         == Mul(Mul(Placement.GroundDirection(dir, axes), distance), -1.0)
    ensures Placement.Horizontal(Headings.Opposite(dir)) == Placement.Horizontal(dir)
  {
    NegatedStep(axes.side, distance);
    NegatedStep(axes.fwd, distance);
  }

  lemma NegatedStep(d: Vec3, s: real)
    ensures Mul(Mul(d, -1.0), s) == Mul(Mul(d, s), -1.0) && Mul(d, s) == Mul(Mul(Mul(d, -1.0), s), -1.0)
  {
    NegatedProduct(d.x, s);
    NegatedProduct(d.y, s);
    NegatedProduct(d.z, s);
  }

  lemma NegatedProduct(x: real, s: real)
    ensures x * -1.0 * s == x * s * -1.0 && x * s == x * -1.0 * s * -1.0
  {
  }

  /** A number of whole millimetres. */
  predicate Whole(x: real) { Measuring.R3(x) == x }

  /** `x` lies exactly between two whole millimetres. */
  predicate Halfway(x: real) { x * 1000.0 - (x * 1000.0).Floor as real == 0.5 }

  lemma RoundTrip(x: real, v: real)
    ensures Placement.Near(Measuring.R3(Measuring.R3(x + v) - v), x, 0.001)
    ensures Whole(x) && !Halfway(x + v) ==> Measuring.R3(Measuring.R3(x + v) - v) == x
  {
    Measuring.R3Near(x + v);
    Measuring.R3Near(Measuring.R3(x + v) - v);
    if Whole(x) && !Halfway(x + v) {
      StrictlyNear(x + v);
      RoundsBack(x, Measuring.R3(x + v) - v);
    }
  }

  lemma StrictlyNear(y: real)
    requires !Halfway(y)
    ensures -0.0005 < Measuring.R3(y) - y < 0.0005
  {
    var n := RoundHalfEven(y * 1000.0);
    assert -0.5 < n as real - y * 1000.0 < 0.5;
  }

  lemma RoundsBack(x: real, y: real)
    requires Whole(x) && -0.0005 < y - x < 0.0005
    ensures Measuring.R3(y) == x
  {
    var n := RoundHalfEven(x * 1000.0);
    assert x * 1000.0 == n as real;
    assert -0.5 < y * 1000.0 - n as real < 0.5;
    assert RoundHalfEven(y * 1000.0) == n;
  }

  lemma WholeAndSmall(x: real)
    requires Whole(x) && Abs(x) < 0.000001
    ensures x == 0.0
  {
    assert RoundHalfEven(x * 1000.0) == 0;
  }

  /** The height after a step and its reverse. */
  lemma HeightBack(y: real, dy: real, level: bool)
    requires level ==> dy == 0.0
    ensures var up := if level && Abs(y) < 0.000001 then 0.0 else Measuring.R3(y + dy);
            var back := if level && Abs(up) < 0.000001 then 0.0 else Measuring.R3(up - dy);
            Placement.Near(back, y, 0.001) && (Whole(y) && !Halfway(y + dy) ==> back == y)
  {
    RoundTrip(y, dy);
    Measuring.R3Near(y + dy);
    if level && Whole(y) && Abs(y) < 0.000001 { WholeAndSmall(y); }
    if level && Abs(y) < 0.000001 {
    } else if level && Abs(Measuring.R3(y)) < 0.000001 {
      assert Placement.Near(0.0, y, 0.001);
    }
  }

  lemma StepAndBack(before: Vec3, step: Vec3, level: bool)
    requires level ==> step.y == 0.0
    ensures var there, back := Add(before, step), Stepped(Stepped(before, step, level), Mul(step, -1.0), level);
            && Placement.NearVec(back, before, 0.001)
            && (Settled(before) && !Halfway(there.x) && !Halfway(there.y) && !Halfway(there.z) ==> back == before)
  {
    RoundTrip(before.x, step.x);
    RoundTrip(before.z, step.z);
    HeightBack(before.y, step.y, level);
  }

  /** A position in whole millimetres. */
  predicate Settled(p: Vec3) { Whole(p.x) && Whole(p.y) && Whole(p.z) }

  /** Moving away and back by the same distance returns to within a millimetre; from a position in whole
      millimetres it returns exactly, unless the way out ends halfway between two. */
  lemma MoveAndBack(before: Vec3, dir: Placement.Direction, axes: Placement.GroundAxes, distance: real)
    requires Placement.ValidAxes(axes)
    ensures var there := Add(before, Mul(Placement.GroundDirection(dir, axes), distance));
            var back := MovedPosition(MovedPosition(before, dir, axes, distance), Headings.Opposite(dir), axes,
                                      distance);
            && Placement.NearVec(back, before, 0.001)
            && (Settled(before) && !Halfway(there.x) && !Halfway(there.y) && !Halfway(there.z) ==> back == before)
  {
    OppositeStep(dir, axes, distance);
    if Placement.Horizontal(dir) {
      LevelStep(dir, axes, distance);
    }
    StepAndBack(before, Mul(Placement.GroundDirection(dir, axes), distance), Placement.Horizontal(dir));
  }

  lemma LevelStep(dir: Placement.Direction, axes: Placement.GroundAxes, distance: real)
    requires Placement.ValidAxes(axes) && Placement.Horizontal(dir)
    ensures Mul(Placement.GroundDirection(dir, axes), distance).y == 0.0
  {
  }

  /** The mover of the tools is `do_move`'s own. */
  ghost predicate MovesBy(g: Geometry, t: Tools) {
    forall s: Scene, k: nat, args: Args {:trigger t.move(s, s.objects[k].id, args)} | k < |s.objects| ::
      t.move(s, s.objects[k].id, args) == MovedIn(g, t, s.camera, s.objects[k].position, args)
  }

  function MovedIn(g: Geometry, t: Tools, v: View, before: Vec3, args: Args): Vec3 {
    MovedPosition(before, DirectionOf(Get(args, "direction")), AxesIn(g, v), DistanceIn(t, args, 0.5))
  }

  /** A move that succeeds moves object `k`, and nothing else. */
  ghost predicate MovesObject(g: Geometry, t: Tools, args: Args, s: Scene, k: nat, after: Scene) {
    && k < |s.objects| && Resolve(t.show, s.objects, Get(args, "id")) == Some(s.objects[k].id)
    && after == MovedScene(s, k, MovedIn(g, t, s.camera, s.objects[k].position, args))
  }

  function MovedScene(s: Scene, k: nat, p: Vec3): Scene
    requires k < |s.objects|
  {
    Holding(s, s.objects[k := s.objects[k].(position := p)])
  }

  lemma MoveSolves(g: Geometry, t: Tools, args: Args, s: Scene) returns (k: nat)
    requires ShowLaw(t.show) && WellFormed(s) && MovesBy(g, t) && Settle(t.show, MoveBy(t, args, s), s).Changed?
    ensures MovesObject(g, t, args, s, k, Settle(t.show, MoveBy(t, args, s), s).scene)
  {
    MoveMoves(t, args, s);
    k :| MovesTo(t, args, s, k, Settle(t.show, MoveBy(t, args, s), s).scene);
  }

  /** Moving does not change what references mean. */
  lemma MovedResolves(show: Json -> string, s: Scene, k: nat, p: Vec3, j: Json)
    requires k < |s.objects|
    ensures Resolve(show, MovedScene(s, k, p).objects, j) == Resolve(show, s.objects, j)
  {
    var a, b := s.objects, MovedScene(s, k, p).objects;
    assert Foresight.NamesOf(a) == Foresight.NamesOf(b);
    Foresight.ResolveSame(show, a, b, j);
  }

  /** `back` undoes `args`: the same object, the other way, as far. */
  ghost predicate Reverses(t: Tools, args: Args, back: Args) {
    && Get(back, "id") == Get(args, "id") && DistanceIn(t, back, 0.5) == DistanceIn(t, args, 0.5)
    && DirectionOf(Get(back, "direction")) == Headings.Opposite(DirectionOf(Get(args, "direction")))
  }

  /** Two moves of one object there and back leave every object where it was, that one to within a
      millimetre. */
  lemma MovesReturn(g: Geometry, t: Tools, args: Args, back: Args, s: Scene, mid: Scene, end: Scene) returns (k: nat)
    requires SqrtLaw(g.sqrt) && ShowLaw(t.show) && WellFormed(s) && WellFormed(mid) && MovesBy(g, t)
    requires Reverses(t, args, back)
    requires Settle(t.show, MoveBy(t, args, s), s) == Changed(mid)
    requires Settle(t.show, MoveBy(t, back, mid), mid) == Changed(end)
    ensures k < |s.objects| == |end.objects| && end.camera == s.camera && end.canvas == s.canvas
    ensures end.objects == s.objects[k := s.objects[k].(position := end.objects[k].position)]
    ensures Placement.NearVec(end.objects[k].position, s.objects[k].position, 0.001)
  {
    k := MoveSolves(g, t, args, s);
    var l := MoveSolves(g, t, back, mid);
    SameMoved(g, t, args, back, s, mid, end, k, l);
    Returned(g, t, args, back, s, mid, end, k);
  }

  lemma SameMoved(g: Geometry, t: Tools, args: Args, back: Args, s: Scene, mid: Scene, end: Scene, k: nat, l: nat)
    requires WellFormed(mid) && Get(back, "id") == Get(args, "id")
    requires MovesObject(g, t, args, s, k, mid) && MovesObject(g, t, back, mid, l, end)
    ensures l == k
  {
    MovedResolves(t.show, s, k, MovedIn(g, t, s.camera, s.objects[k].position, args), Get(args, "id"));
    assert mid.objects[l].id == mid.objects[k].id;
  }

  lemma Returned(g: Geometry, t: Tools, args: Args, back: Args, s: Scene, mid: Scene, end: Scene, k: nat)
    requires SqrtLaw(g.sqrt) && Reverses(t, args, back)
    requires MovesObject(g, t, args, s, k, mid) && MovesObject(g, t, back, mid, k, end)
    ensures |s.objects| == |end.objects| && end.camera == s.camera && end.canvas == s.canvas
    ensures end.objects == s.objects[k := s.objects[k].(position := end.objects[k].position)]
    ensures Placement.NearVec(end.objects[k].position, s.objects[k].position, 0.001)
  {
    var p := MovedIn(g, t, s.camera, s.objects[k].position, args);
    ReturnedScene(s, mid, end, k, p, MovedIn(g, t, s.camera, p, back));
    Placement.AxesValid(g.sqrt, BasisIn(g, s.camera));
    MoveAndBack(s.objects[k].position, DirectionOf(Get(args, "direction")), AxesIn(g, s.camera),
                DistanceIn(t, args, 0.5));
  }

  lemma ReturnedScene(s: Scene, mid: Scene, end: Scene, k: nat, p: Vec3, q: Vec3)
    requires k < |s.objects| && mid == MovedScene(s, k, p) && end == MovedScene(mid, k, q)
    ensures |end.objects| == |s.objects| && end.camera == s.camera && end.canvas == s.canvas
    ensures end.objects == s.objects[k := s.objects[k].(position := q)] && end.objects[k].position == q
  {
  }
}
