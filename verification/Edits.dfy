/**
 The edit actions of `recipe.py`: what `do_object_add`, `do_object_update`, `do_object_delete`,
 `do_scene_clear`, `do_place`, `do_move`, `do_camera_set` and `do_camera_frame` submit, and the
 two actions that only look. Geometry and number parsing come in as functions (`Tools`); the
 statements hold for any.
 */
module Edits {
  import opened Options
  import opened Vectors
  import opened Documents
  import opened Scenes
  import opened References

  datatype Pose = Pose(position: Vec3, target: Vec3)

  /** `str`, the keys of an object, `float` (nothing when it raises), sizes in metres to scale
      factors, default scale factors, and the solvers for placing, moving, camera presets and
      framing. The solvers always find an answer once what they are given can be measured. */
  datatype Tools = Tools(
    show: Json -> string,
    keys: Args -> seq<string>,
    float: Json -> Option<real>,
    scaleOf: (string, seq<real>) -> Vec3,
    defaultScale: (string, string) -> Vec3,
    place: (Scene, string, Args, Args) -> Vec3,
    move: (Scene, string, Args) -> Vec3,
    preset: (Scene, Args) -> Pose,
    frame: (Scene, Args) -> Pose)

  datatype Action =
    | ObjectAdd | ObjectUpdate | ObjectDelete | SceneClear | Place | Move | CameraSet | CameraFrame | Measure | Validate

  datatype Step = Step(action: Action, args: Args)

  const DIRECTIONS: seq<string> := ["front", "back", "left", "right", "above", "below"]

  const CAMERA_PRESETS: seq<string> := ["eye_level", "low", "high", "top_down"]

  // ---- building an object

  datatype Built = BuildRaises | BuildFails | Built(fields: Args)

  function DefaultShape(semantic: string): string {
    match semantic
    case "ground" => "plane"
    case "person" => "capsule"
    case "vegetation" => "cone"
    case "water" => "plane"
    case "light" => "sphere"
    case _ => "box"
  }

  function Round4(x: real): real { RoundHalfEven(x * 10000.0) as real / 10000.0 }

  /** All of them as numbers, or nothing when one cannot be read as one. */
  function Floats(t: Tools, items: seq<Json>): Option<seq<real>> {
    if |items| == 0 then Some([])
    else
      var front, last := Floats(t, items[..|items| - 1]), t.float(items[|items| - 1]);
      if front.None? || last.None? then None else Some(front.value + [last.value])
  }

  function Three(v: Vec3): seq<real> { [v.x, v.y, v.z] }

  function Numbers(xs: seq<real>): Json { List(seq(|xs|, (i: nat) requires i < |xs| => Num(Round4(xs[i])))) }

  predicate ThreeItems(j: Json) { j.List? && |j.items| == 3 }

  function ListOr(t: Tools, j: Json, default: Vec3): Option<seq<Json>> {
    if Truthy(j) then Listed(t.keys, j) else Listed(t.keys, VecJson(default))
  }

  /** The scale `build_object` computes: from sizes, from given factors, or the default. */
  function ScaleFor(t: Tools, args: Args, shape: string, semantic: string): Option<seq<real>> {
    var dims, scale := Get(args, "dims"), Get(args, "scale");
    if Truthy(dims) then
      var xs := if dims.List? then Floats(t, dims.items) else None;
      if xs.None? then None else Some(Three(t.scaleOf(shape, xs.value)))
    else if Truthy(scale) then (if Listed(t.keys, scale).None? then None else Floats(t, Listed(t.keys, scale).value))
    else Some(Three(t.defaultScale(shape, semantic)))
  }

  /** `build_object`. */
  function BuildObject(t: Tools, args: Args, os: seq<Object>, position: Json): Built {
    var semantic := Get(args, "semantic");
    if !InKeys(semantic, SEMANTICS) then BuildFails
    else
      var shape := if Truthy(Get(args, "shape")) then Get(args, "shape") else Str(DefaultShape(semantic.s));
      if !InKeys(shape, SHAPES) then BuildFails
      else if Truthy(Get(args, "dims")) && !ThreeItems(Get(args, "dims")) then BuildFails
      else
        var scale := ScaleFor(t, args, shape.s, semantic.s);
        var at, turned := ListOr(t, position, ORIGIN), ListOr(t, Get(args, "rotation"), ORIGIN);
        if scale.None? || at.None? || turned.None? then BuildRaises
        else
          var id := if Truthy(Get(args, "id")) then Get(args, "id") else Str(NextId(os));
          var f := map["id" := id, "shape" := shape, "semantic" := semantic, "position" := List(at.value),
                       "rotation" := List(turned.value), "scale" := Numbers(scale.value)];
          Built(if Truthy(Get(args, "label")) then f["label" := Str(Text(t.show, Get(args, "label")))] else f)
  }

  // ---- the actions

  /** What an action comes to before anything is written. */
  datatype Submission = Raises | Fails | Looks | Puts(raw: Json)

  function WithOneMore(s: Scene, fields: Args): Json { WithObjects(s, ObjectsJson(s.objects) + [Dict(fields)]) }

  function AddObject(t: Tools, args: Args, s: Scene): Submission {
    match BuildObject(t, args, s.objects, Get(args, "position"))
    case BuildRaises => Raises
    case BuildFails => Fails
    case Built(f) => Puts(WithOneMore(s, f))
  }

  /** Index of the object with that id, or the length. */
  function IndexOf(os: seq<Object>, id: string): nat
    ensures IndexOf(os, id) <= |os|
    ensures IndexOf(os, id) < |os| ==> os[IndexOf(os, id)].id == id
    decreases |os|
  {
    if |os| == 0 then 0 else if os[0].id == id then 0 else 1 + IndexOf(os[1..], id)
  }

  /** Set `key` to the list of an argument, where it is given. */
  function SetList(t: Tools, f: Option<Args>, args: Args, key: string): Option<Args> {
    if f.None? || Get(args, key).Null? then f
    else if Listed(t.keys, Get(args, key)).None? then None
    else Some(f.value[key := List(Listed(t.keys, Get(args, key)).value)])
  }

  function SetRaw(f: Option<Args>, args: Args, key: string): Option<Args> {
    if f.None? || Get(args, key).Null? then f else Some(f.value[key := Get(args, key)])
  }

  predicate Given(args: Args, key: string) { !Get(args, key).Null? }

  /** The fields of an object with the scale that sizes give, if there are any. */
  function Resized(t: Tools, args: Args, o: Object): Option<Args> {
    var dims := Get(args, "dims");
    if !Truthy(dims) then Some(ObjectFields(o))
    else
      var xs := if dims.List? then Floats(t, dims.items) else None;
      if xs.None? then None else Some(ObjectFields(o)["scale" := Numbers(Three(t.scaleOf(o.shape, xs.value)))])
  }

  /** ... and with the vectors given; sizes go before a scale. */
  function Revectored(t: Tools, args: Args, o: Object): Option<Args> {
    var f := SetList(t, SetList(t, Resized(t, args, o), args, "position"), args, "rotation");
    if Truthy(Get(args, "dims")) then f else SetList(t, f, args, "scale")
  }

  /** The fields of the updated object: nothing when setting one raises. */
  function UpdatedFields(t: Tools, args: Args, o: Object): Option<Args> {
    SetRaw(SetRaw(SetRaw(Revectored(t, args, o), args, "shape"), args, "semantic"), args, "label")
  }

  predicate ChangesSomething(args: Args) {
    || Truthy(Get(args, "dims")) || Given(args, "position") || Given(args, "rotation") || Given(args, "scale")
    || Given(args, "shape") || Given(args, "semantic") || Given(args, "label")
  }

  function PutAt(s: Scene, k: nat, fields: Args): Json
    requires k < |s.objects|
  {
    WithObjects(s, ObjectsJson(s.objects)[k := Dict(fields)])
  }

  function Update(t: Tools, args: Args, s: Scene): Submission {
    var id := Resolve(t.show, s.objects, Get(args, "id"));
    if id.None? then Fails
    else if Truthy(Get(args, "dims")) && !ThreeItems(Get(args, "dims")) then Fails
    else
      var k := IndexOf(s.objects, id.value);
      if k == |s.objects| then Raises
      else
        var f := UpdatedFields(t, args, s.objects[k]);
        if f.None? then Raises else if !ChangesSomething(args) then Fails else Puts(PutAt(s, k, f.value))
  }

  function Others(os: seq<Object>, id: string): seq<Object> {
    if |os| == 0 then [] else Others(os[..|os| - 1], id) + if os[|os| - 1].id == id then [] else [os[|os| - 1]]
  }

  function Delete(t: Tools, args: Args, s: Scene): Submission {
    var id := Resolve(t.show, s.objects, Get(args, "id"));
    if id.None? then Fails else Puts(WithObjects(s, ObjectsJson(Others(s.objects, id.value))))
  }

  function DistanceOf(args: Args, default: real): Json { if "distance" in args then args["distance"] else Num(default) }

  /** What `object_aabb` does with a rotation: none at all is no rotation, and otherwise it must be
      three things that can be multiplied. */
  predicate Turns(items: seq<Json>) {
    items == [] || (|items| == 3 && forall i | 0 <= i < 3 :: items[i].Num? || items[i].Bool?)
  }

  function ItemsAt(f: Args, key: string): seq<Json> { if Get(f, key).List? then Get(f, key).items else [] }

  /** `object_aabb` of a built object returns: of the scale it reads three entries, if there are any. */
  predicate Measurable(f: Args) {
    Turns(ItemsAt(f, "rotation")) && (ItemsAt(f, "scale") == [] || |ItemsAt(f, "scale")| >= 3)
  }

  function PlaceNext(t: Tools, args: Args, s: Scene): Submission {
    var ref := Resolve(t.show, s.objects, Get(args, "relative_to"));
    var direction := if Truthy(Get(args, "direction")) then Get(args, "direction") else Str("right");
    var distance := t.float(DistanceOf(args, 1.0));
    if ref.None? || !InKeys(direction, DIRECTIONS) || distance.None? || distance.value < 0.0 then Fails
    else
      match BuildObject(t, args, s.objects, VecJson(ORIGIN))
      case BuildRaises => Raises
      case BuildFails => Fails
      case Built(f) =>
        if !Measurable(f) then Raises
        else Puts(WithOneMore(s, f["position" := VecJson(t.place(s, ref.value, f, args))]))
  }

  /** Looking up a list or an object as a key raises. */
  predicate Hashable(j: Json) { !j.List? && !j.Dict? }

  function MoveBy(t: Tools, args: Args, s: Scene): Submission {
    var id := Resolve(t.show, s.objects, Get(args, "id"));
    if id.None? then Fails
    else if !Hashable(Get(args, "direction")) then Raises
    else if !InKeys(Get(args, "direction"), DIRECTIONS) || t.float(DistanceOf(args, 0.5)).None? then Fails
    else
      var k := IndexOf(s.objects, id.value);
      if k == |s.objects| then Raises
      else Puts(PutAt(s, k, ObjectFields(s.objects[k])["position" := VecJson(t.move(s, id.value, args))]))
  }

  function Posed(v: View, pose: Pose): Args {
    CameraFields(v)["position" := VecJson(pose.position)]["target" := VecJson(pose.target)]
  }

  function SetCamera(t: Tools, args: Args, s: Scene): Submission {
    var preset := Get(args, "preset");
    if Truthy(preset) then
      if !InKeys(preset, CAMERA_PRESETS) then Fails
      else if Truthy(Get(args, "target_id")) && Resolve(t.show, s.objects, Get(args, "target_id")).None? then Fails
      else Puts(WithCamera(s, WithFov(Posed(s.camera, t.preset(s, args)), args)))
    else if !Given(args, "position") && !Given(args, "target") && !Given(args, "fov") then Fails
    else
      var f := SetList(t, SetList(t, Some(CameraFields(s.camera)), args, "position"), args, "target");
      if f.None? then Raises else Puts(WithCamera(s, WithFov(f.value, args)))
  }

  function WithFov(f: Args, args: Args): Args { if Given(args, "fov") then f["fov" := Get(args, "fov")] else f }

  /** The objects to frame: a single text counts as one target. */
  function TargetsOf(t: Tools, args: Args): Option<seq<Json>> {
    var j := Get(args, "targets");
    if !Truthy(j) then Some([]) else if j.Str? then Some([j]) else Listed(t.keys, j)
  }

  function FrameCamera(t: Tools, args: Args, s: Scene): Submission {
    if s.objects == [] then Fails
    else if TargetsOf(t, args).None? then Raises
    else if exists k | 0 <= k < |TargetsOf(t, args).value| ::
              Resolve(t.show, s.objects, TargetsOf(t, args).value[k]).None? then Fails
    else if t.float(if "margin" in args then args["margin"] else Num(0.12)).None? then Fails
    else Puts(WithCamera(s, Posed(s.camera, t.frame(s, args))))
  }

  function MeasureTwo(t: Tools, args: Args, s: Scene): Submission {
    if Resolve(t.show, s.objects, Get(args, "a")).None? then Fails
    else if Resolve(t.show, s.objects, Get(args, "b")).None? then Fails
    else Looks
  }

  /** `run_plan_step`, up to the write. */
  function Submit(t: Tools, step: Step, s: Scene): Submission {
    match step.action
    case ObjectAdd => AddObject(t, step.args, s)
    case ObjectUpdate => Update(t, step.args, s)
    case ObjectDelete => Delete(t, step.args, s)
    case SceneClear => Puts(WithObjects(s, []))
    case Place => PlaceNext(t, step.args, s)
    case Move => MoveBy(t, step.args, s)
    case CameraSet => SetCamera(t, step.args, s)
    case CameraFrame => FrameCamera(t, step.args, s)
    case Measure => MeasureTwo(t, step.args, s)
    case Validate => Looks
  }

  /** An action on a scene: it raises, fails without a write, looks, or writes a new scene. */
  datatype Outcome = Broke | Failed | Looked | Changed(scene: Scene)

  /** The write, through the one door: `persist` on the scene just read. */
  function Settle(show: Json -> string, sub: Submission, s: Scene): Outcome {
    match sub
    case Raises => Broke
    case Fails => Failed
    case Looks => Looked
    case Puts(raw) =>
      match CleanScene(show, raw, s)
      case Raised => Broke
      case Cleaned(cleaned, errors) => if errors == [] then Changed(cleaned) else Failed
  }

  function Perform(t: Tools, step: Step, s: Scene): Outcome { Settle(t.show, Submit(t, step, s), s) }

  predicate Mutates(a: Action) { !a.Measure? && !a.Validate? }

  lemma SettleGood(show: Json -> string, sub: Submission, s: Scene)
    requires ShowLaw(show) && WellFormed(s)
    ensures var o := Settle(show, sub, s);
            && (o.Changed? ==>
                  && sub.Puts? && WellFormed(o.scene) && o.scene.version == s.version + 1
                  && Submitted(show, sub.raw, o.scene))
            && (o.Looked? <==> sub.Looks?)
  {
    if sub.Puts? {
      CleanSceneGood(show, sub.raw, s);
    }
  }

  lemma LooksOnly(t: Tools, step: Step, s: Scene)
    ensures Submit(t, step, s).Looks? ==> !Mutates(step.action)
    ensures Submit(t, step, s).Puts? ==> Mutates(step.action)
  {
  }

  /** A step that writes leaves a well-formed scene one version on; only the eight editing actions
      write, and they do so whenever they succeed. */
  lemma PerformGood(t: Tools, step: Step, s: Scene)
    requires ShowLaw(t.show) && WellFormed(s)
    ensures var o := Perform(t, step, s);
            && (o.Changed? ==> WellFormed(o.scene) && o.scene.version == s.version + 1 && Mutates(step.action))
            && (o.Looked? ==> !Mutates(step.action))
  {
    SettleGood(t.show, Submit(t, step, s), s);
    LooksOnly(t, step, s);
  }
}
