/**
 The scene document (`scene.json`) of `recipe.py` and the one door every write goes through:
 `clean_object`, `clean_scene`, `persist` and `do_scene_put`. The time stamp is left out.
 */
module Scenes {
  import opened Options
  import opened Vectors
  import opened Documents

  datatype Object = Object(id: string, shape: string, semantic: string,
                           position: Vec3, rotation: Vec3, scale: Vec3, name: Option<string>)

  datatype Canvas = Canvas(aspect: string, width: int, height: int)

  datatype View = View(position: Vec3, target: Vec3, fov: real)

  datatype Scene = Scene(version: int, canvas: Canvas, camera: View, objects: seq<Object>)

  const SHAPES: seq<string> := ["box", "sphere", "cylinder", "cone", "capsule", "plane", "stairs"]

  const SEMANTICS: seq<string> :=
    ["ground", "building", "wall", "person", "vehicle", "vegetation", "furniture", "prop", "water", "light"]

  const ASPECTS: seq<Canvas> :=
    [Canvas("16:9", 1280, 720), Canvas("1:1", 1024, 1024), Canvas("9:16", 720, 1280), Canvas("4:3", 1152, 864)]

  // ---- well-formed scenes

  predicate LegalObject(o: Object) {
    o.id != "" && Stripped(o.id) && o.shape in SHAPES && o.semantic in SEMANTICS && o.name != Some("")
  }

  predicate DistinctIds(os: seq<Object>) { forall i, j | 0 <= i < j < |os| :: os[i].id != os[j].id }

  /** What every stored scene is: unique non-empty ids, legal shapes and semantics, a field of view
      between 5 and 120 degrees, and a canvas equal to its preset. */
  predicate WellFormed(s: Scene) {
    && (forall i | 0 <= i < |s.objects| :: LegalObject(s.objects[i])) && DistinctIds(s.objects)
    && 5.0 <= s.camera.fov <= 120.0 && s.canvas in ASPECTS
  }

  /** The scene of a new project. */
  const EMPTY := Scene(0, Canvas("16:9", 1280, 720), View(Vec3(6.0, 4.0, 8.0), Vec3(0.0, 0.8, 0.0), 40.0), [])

  lemma EmptyIsWellFormed()
    ensures WellFormed(EMPTY)
  {
    assert EMPTY.canvas == ASPECTS[0];
  }

  // ---- cleaning

  datatype Error =
    | NotAnObject(index: nat) | MissingId(index: nat) | RepeatedId(id: string)
    | BadShape(id: string) | BadSemantic(id: string)
    | NotThreeNumbers(field: string) | NotANumber(field: string, index: nat)
    | NotAScene | BadAspect | BadFov

  function NumberAt(j: Json, field: string, index: nat): (real, seq<Error>) {
    if j.Num? then (j.x, []) else (0.0, [NotANumber(field, index)])
  }

  /** `as_vec3`. */
  function AsVec3(j: Json, field: string, default: Vec3): (Vec3, seq<Error>) {
    if j.Null? then (default, [])
    else if !j.List? || |j.items| != 3 then (default, [NotThreeNumbers(field)])
    else
      var (x, e0) := NumberAt(j.items[0], field, 0);
      var (y, e1) := NumberAt(j.items[1], field, 1);
      var (z, e2) := NumberAt(j.items[2], field, 2);
      (Vec3(x, y, z), e0 + e1 + e2)
  }

  const ORIGIN := Vec3(0.0, 0.0, 0.0)

  const ONES := Vec3(1.0, 1.0, 1.0)

  datatype CleanedObject = CleanedObject(found: Option<Object>, errors: seq<Error>, seen: set<string>)

  /** `clean_object`. */
  function CleanObject(show: Json -> string, raw: Json, index: nat, seen: set<string>): CleanedObject {
    if !raw.Dict? then CleanedObject(None, [NotAnObject(index)], seen)
    else
      var f := raw.fields;
      var id := Strip(TextOr(show, Get(f, "id")));
      if id == "" then CleanedObject(None, [MissingId(index)], seen)
      else if id in seen then CleanedObject(None, [RepeatedId(id)], seen)
      else if !InKeys(Get(f, "shape"), SHAPES) then CleanedObject(None, [BadShape(id)], seen + {id})
      else if !InKeys(Get(f, "semantic"), SEMANTICS) then CleanedObject(None, [BadSemantic(id)], seen + {id})
      else
        var (position, e0) := AsVec3(Get(f, "position"), id + ".position", ORIGIN);
        var (rotation, e1) := AsVec3(Get(f, "rotation"), id + ".rotation", ORIGIN);
        var (scale, e2) := AsVec3(Get(f, "scale"), id + ".scale", ONES);
        var name := Get(f, "label");
        CleanedObject(Some(Object(id, Get(f, "shape").s, Get(f, "semantic").s, position, rotation, scale,
                                  if Truthy(name) then Some(Text(show, name)) else None)),
                      e0 + e1 + e2, seen + {id})
  }

  predicate InKeys(j: Json, keys: seq<string>) { j.Str? && j.s in keys }

  datatype CleanedObjects = CleanedObjects(objects: seq<Object>, errors: seq<Error>, seen: set<string>)

  /** The loop over the submitted objects. */
  function CleanObjects(show: Json -> string, raws: seq<Json>): CleanedObjects {
    if |raws| == 0 then CleanedObjects([], [], {})
    else
      var front := CleanObjects(show, raws[..|raws| - 1]);
      var last := CleanObject(show, raws[|raws| - 1], |raws| - 1, front.seen);
      Append(front, last)
  }

  function Append(c: CleanedObjects, d: CleanedObject): CleanedObjects {
    CleanedObjects(c.objects + (if d.found.Some? then [d.found.value] else []), c.errors + d.errors, d.seen)
  }

  /** `value or {}` used as an object: nothing when it is something else, on which `.get` raises. */
  function FieldsOr(j: Json): Option<Args> {
    if !Truthy(j) then Some(map[]) else if j.Dict? then Some(j.fields) else None
  }

  /** As many texts as an object has keys: as objects of a scene they are refused, whatever they say. */
  function BlankKeys(fields: Args): seq<string> { seq(|fields|, (i: nat) => "") }

  /** `value or []`, iterated over: nothing when that raises. */
  function ItemsOr(j: Json): Option<seq<Json>> { if !Truthy(j) then Some([]) else Listed(BlankKeys, j) }

  predicate IsAspect(j: Json) { exists k | 0 <= k < |ASPECTS| :: j == Str(ASPECTS[k].aspect) }

  function PresetFrom(key: string, k: nat): Canvas
    requires k <= |ASPECTS|
    decreases |ASPECTS| - k
  {
    if k == |ASPECTS| then ASPECTS[0] else if ASPECTS[k].aspect == key then ASPECTS[k] else PresetFrom(key, k + 1)
  }

  /** The preset of that name; the caller has a legal one. */
  function Preset(key: string): Canvas { PresetFrom(key, 0) }

  predicate IsFov(j: Json) { j.Num? && 5.0 <= j.x <= 120.0 }

  datatype CleanedScene = Raised | Cleaned(scene: Scene, errors: seq<Error>)

  /** `clean_scene`: the version is counted on from the previous scene, whatever was submitted. */
  function CleanScene(show: Json -> string, raw: Json, previous: Scene): CleanedScene {
    if !raw.Dict? then Cleaned(previous, [NotAScene])
    else
      var canvas, camera := FieldsOr(Get(raw.fields, "canvas")), FieldsOr(Get(raw.fields, "camera"));
      var objects := ItemsOr(Get(raw.fields, "objects"));
      if canvas.None? || camera.None? || objects.None? then Raised
      else CleanParts(show, Get(canvas.value, "aspect"), camera.value, objects.value, previous)
  }

  function CleanParts(show: Json -> string, aspect: Json, camera: Args, raws: seq<Json>,
                      previous: Scene): CleanedScene {
    var canvas, c, os := CanvasFor(aspect, previous), CleanCamera(camera), CleanObjects(show, raws);
    Cleaned(Scene(previous.version + 1, canvas.0, c.0, os.objects), canvas.1 + c.1 + os.errors + c.2)
  }

  /** The preset of the aspect asked for, or else the previous one's, with a complaint. */
  function CanvasFor(aspect: Json, previous: Scene): (Canvas, seq<Error>) {
    if IsAspect(aspect) then (Preset(aspect.s), []) else (Preset(previous.canvas.aspect), [BadAspect])
  }

  /** The camera, and what is wrong with its field of view and with its vectors. */
  function CleanCamera(camera: Args): (View, seq<Error>, seq<Error>) {
    var fov := if "fov" in camera then camera["fov"] else Num(40.0);
    var (position, e0) := AsVec3(Get(camera, "position"), "camera.position", Vec3(6.0, 4.0, 8.0));
    var (target, e1) := AsVec3(Get(camera, "target"), "camera.target", Vec3(0.0, 0.8, 0.0));
    (View(position, target, if IsFov(fov) then fov.x else 40.0), if IsFov(fov) then [] else [BadFov], e0 + e1)
  }

  // ---- the document of a scene

  function VecJson(v: Vec3): Json { List([Num(v.x), Num(v.y), Num(v.z)]) }

  function ObjectFields(o: Object): Args {
    var f := map["id" := Str(o.id), "shape" := Str(o.shape), "semantic" := Str(o.semantic),
                 "position" := VecJson(o.position), "rotation" := VecJson(o.rotation), "scale" := VecJson(o.scale)];
    if o.name.Some? then f["label" := Str(o.name.value)] else f
  }

  function ObjectJson(o: Object): Json { Dict(ObjectFields(o)) }

  function ObjectsJson(os: seq<Object>): seq<Json> { seq(|os|, (i: nat) requires i < |os| => ObjectJson(os[i])) }

  function CameraFields(v: View): Args {
    map["position" := VecJson(v.position), "target" := VecJson(v.target), "fov" := Num(v.fov)]
  }

  function SceneFields(s: Scene): Args {
    map["version" := Num(s.version as real),
        "canvas" := Dict(CanvasFields(s.canvas)),
        "camera" := Dict(CameraFields(s.camera)),
        "objects" := List(ObjectsJson(s.objects))]
  }

  function SceneJson(s: Scene): Json { Dict(SceneFields(s)) }

  // ---- what cleaning guarantees

  /** An object is what was submitted, field by field. */
  ghost predicate Faithful(show: Json -> string, raw: Json, o: Object) {
    && raw.Dict? && o.id == Strip(TextOr(show, Get(raw.fields, "id")))
    && Get(raw.fields, "shape") == Str(o.shape) && Get(raw.fields, "semantic") == Str(o.semantic)
    && Holds(Get(raw.fields, "position"), o.position, ORIGIN) && Holds(Get(raw.fields, "rotation"), o.rotation, ORIGIN)
    && Holds(Get(raw.fields, "scale"), o.scale, ONES)
    && o.name == if Truthy(Get(raw.fields, "label")) then Some(Text(show, Get(raw.fields, "label"))) else None
  }

  predicate Holds(j: Json, v: Vec3, default: Vec3) { j == VecJson(v) || (j.Null? && v == default) }

  lemma AsVec3Holds(j: Json, field: string, default: Vec3)
    requires AsVec3(j, field, default).1 == []
    ensures Holds(j, AsVec3(j, field, default).0, default)
  {
    if j.List? {
      assert j.items == [j.items[0], j.items[1], j.items[2]];
    }
  }

  ghost predicate GoodObject(show: Json -> string, raw: Json, seen: set<string>, c: CleanedObject) {
    && (c.found.Some? ==>
          LegalObject(c.found.value) && c.found.value.id !in seen && c.seen == seen + {c.found.value.id})
    && (c.errors == [] ==> c.found.Some? && Faithful(show, raw, c.found.value))
    && seen <= c.seen
  }

  lemma CleanObjectGood(show: Json -> string, raw: Json, index: nat, seen: set<string>)
    requires ShowLaw(show)
    ensures GoodObject(show, raw, seen, CleanObject(show, raw, index, seen))
  {
    if raw.Dict? {
      StripEnds(TextOr(show, Get(raw.fields, "id")));
      var id := Strip(TextOr(show, Get(raw.fields, "id")));
      if CleanObject(show, raw, index, seen).errors == [] {
        AsVec3Holds(Get(raw.fields, "position"), id + ".position", ORIGIN);
        AsVec3Holds(Get(raw.fields, "rotation"), id + ".rotation", ORIGIN);
        AsVec3Holds(Get(raw.fields, "scale"), id + ".scale", ONES);
      }
    }
  }

  /** Whatever was submitted, the objects kept are legal with distinct ids; and if nothing was
      complained about, they are all the submitted ones, in order. */
  ghost predicate GoodObjects(show: Json -> string, raws: seq<Json>, c: CleanedObjects) {
    && DistinctIds(c.objects)
    && (forall i | 0 <= i < |c.objects| :: LegalObject(c.objects[i]) && c.objects[i].id in c.seen)
    && (c.errors == [] ==> |c.objects| == |raws| && forall i | 0 <= i < |raws| :: Faithful(show, raws[i], c.objects[i]))
  }

  lemma GoodAppend(show: Json -> string, raws: seq<Json>, c: CleanedObjects, raw: Json, d: CleanedObject)
    requires GoodObjects(show, raws, c) && GoodObject(show, raw, c.seen, d)
    ensures GoodObjects(show, raws + [raw], Append(c, d))
  {
  }

  lemma {:induction false} CleanObjectsGood(show: Json -> string, raws: seq<Json>)
    requires ShowLaw(show)
    ensures GoodObjects(show, raws, CleanObjects(show, raws))
  {
    if |raws| > 0 {
      var front, last := raws[..|raws| - 1], raws[|raws| - 1];
      CleanObjectsGood(show, front);
      assert raws == front + [last];
      GoodOneMore(show, front, last, CleanObjects(show, front));
    }
  }

  lemma GoodOneMore(show: Json -> string, raws: seq<Json>, raw: Json, c: CleanedObjects)
    requires ShowLaw(show) && c == CleanObjects(show, raws) && GoodObjects(show, raws, c)
    ensures GoodObjects(show, raws + [raw], CleanObjects(show, raws + [raw]))
  {
    CleanObjectGood(show, raw, |raws|, c.seen);
    GoodAppend(show, raws, c, raw, CleanObject(show, raw, |raws|, c.seen));
    CleanSnoc(show, raws, raw);
  }

  lemma {:induction false} PresetIs(key: string, k: nat)
    requires k <= |ASPECTS|
    ensures PresetFrom(key, k) in ASPECTS
    ensures forall i | k <= i < |ASPECTS| :: ASPECTS[i].aspect == key ==> PresetFrom(key, k) == ASPECTS[i]
    decreases |ASPECTS| - k
  {
    if k < |ASPECTS| {
      PresetIs(key, k + 1);
      assert forall i, j | 0 <= i < j < |ASPECTS| :: ASPECTS[i].aspect != ASPECTS[j].aspect;
    }
  }

  ghost predicate Submitted(show: Json -> string, raw: Json, s: Scene) {
    && raw.Dict? && ItemsOr(Get(raw.fields, "objects")).Some?
    && var raws := ItemsOr(Get(raw.fields, "objects")).value;
       |s.objects| == |raws| && forall i | 0 <= i < |raws| :: Faithful(show, raws[i], s.objects[i])
  }

  /** What passes the door is well formed, holds every submitted object in order, and is one
      version on. */
  lemma CleanSceneGood(show: Json -> string, raw: Json, previous: Scene)
    requires ShowLaw(show)
    ensures var c := CleanScene(show, raw, previous);
            c.Cleaned? && c.errors == [] ==>
              WellFormed(c.scene) && Submitted(show, raw, c.scene) && c.scene.version == previous.version + 1
  {
    var c := CleanScene(show, raw, previous);
    if c.Cleaned? && c.errors == [] {
      CleanObjectsGood(show, ItemsOr(Get(raw.fields, "objects")).value);
      PresetIs(c.scene.canvas.aspect, 0);
      PresetIs(Get(FieldsOr(Get(raw.fields, "canvas")).value, "aspect").s, 0);
    }
  }

  // ---- cleaning what is clean

  /** The fields say what the object is. */
  ghost predicate FieldsOf(f: Args, o: Object) {
    && Get(f, "id") == Str(o.id) && Get(f, "shape") == Str(o.shape) && Get(f, "semantic") == Str(o.semantic)
    && Get(f, "position") == VecJson(o.position) && Get(f, "rotation") == VecJson(o.rotation)
    && Get(f, "scale") == VecJson(o.scale)
    && Get(f, "label") == if o.name.Some? then Str(o.name.value) else Null
  }

  lemma ObjectFieldsAre(o: Object)
    ensures FieldsOf(ObjectFields(o), o)
  {
  }

  lemma AsVec3Again(v: Vec3, field: string, default: Vec3)
    ensures AsVec3(VecJson(v), field, default) == (v, [])
  {
    var none: seq<Error> := [];
    assert none + none + none == none;
    assert VecJson(v).items[0] == Num(v.x) && VecJson(v).items[1] == Num(v.y) && VecJson(v).items[2] == Num(v.z);
  }

  lemma CleanFieldsAgain(show: Json -> string, f: Args, o: Object, index: nat, seen: set<string>)
    requires FieldsOf(f, o) && LegalObject(o) && o.id !in seen
    ensures CleanObject(show, Dict(f), index, seen) == CleanedObject(Some(o), [], seen + {o.id})
  {
    StripEnds(o.id);
    AsVec3Again(o.position, o.id + ".position", ORIGIN);
    AsVec3Again(o.rotation, o.id + ".rotation", ORIGIN);
    AsVec3Again(o.scale, o.id + ".scale", ONES);
  }

  lemma CleanObjectAgain(show: Json -> string, o: Object, index: nat, seen: set<string>)
    requires LegalObject(o) && o.id !in seen
    ensures CleanObject(show, ObjectJson(o), index, seen) == CleanedObject(Some(o), [], seen + {o.id})
  {
    ObjectFieldsAre(o);
    CleanFieldsAgain(show, ObjectFields(o), o, index, seen);
  }

  function IdSet(os: seq<Object>): set<string> { set i | 0 <= i < |os| :: os[i].id }

  lemma {:induction false} CleanObjectsAgain(show: Json -> string, os: seq<Object>)
    requires (forall i | 0 <= i < |os| :: LegalObject(os[i])) && DistinctIds(os)
    ensures CleanObjects(show, ObjectsJson(os)) == CleanedObjects(os, [], IdSet(os))
  {
    if |os| > 0 {
      var n := |os| - 1;
      var front, last := os[..n], os[n];
      IdSetSnoc(os, n);
      CleanObjectsAgain(show, front);
      ObjectsJsonSnoc(front, last);
      CleanOneMore(show, front, ObjectsJson(front), last, IdSet(front));
    }
  }

  lemma ObjectsJsonSnoc(os: seq<Object>, o: Object)
    ensures ObjectsJson(os + [o]) == ObjectsJson(os) + [ObjectJson(o)]
  {
  }

  lemma CleanOneMore(show: Json -> string, os: seq<Object>, raws: seq<Json>, o: Object, seen: set<string>)
    requires |raws| == |os| && CleanObjects(show, raws) == CleanedObjects(os, [], seen) && LegalObject(o)
    requires o.id !in seen
    ensures CleanObjects(show, raws + [ObjectJson(o)]) == CleanedObjects(os + [o], [], seen + {o.id})
  {
    CleanSnoc(show, raws, ObjectJson(o));
    CleanObjectAgain(show, o, |raws|, seen);
  }

  lemma CleanSnoc(show: Json -> string, raws: seq<Json>, raw: Json)
    ensures CleanObjects(show, raws + [raw])
            == Append(CleanObjects(show, raws), CleanObject(show, raw, |raws|, CleanObjects(show, raws).seen))
  {
    assert (raws + [raw])[..|raws|] == raws;
  }

  lemma IdSetSnoc(os: seq<Object>, n: nat)
    requires |os| == n + 1 && DistinctIds(os)
    ensures IdSet(os) == IdSet(os[..n]) + {os[n].id} && os[n].id !in IdSet(os[..n]) && os == os[..n] + [os[n]]
  {
  }

  lemma CleanCameraAgain(v: View)
    requires 5.0 <= v.fov <= 120.0
    ensures CleanCamera(CameraFields(v)) == (v, [], [])
  {
    var f := CameraFields(v);
    assert Get(f, "position") == VecJson(v.position) && Get(f, "target") == VecJson(v.target) && f["fov"] == Num(v.fov);
  }

  lemma CanvasAgain(s: Scene)
    requires s.canvas in ASPECTS
    ensures CanvasFor(Str(s.canvas.aspect), s) == (s.canvas, [])
  {
    PresetIs(s.canvas.aspect, 0);
    var k :| 0 <= k < |ASPECTS| && s.canvas == ASPECTS[k];
    assert Str(s.canvas.aspect) == Str(ASPECTS[k].aspect);
  }

  /** The document of a scene with other objects, or with another camera, in it. */
  function WithObjects(s: Scene, raws: seq<Json>): Json { Dict(SceneFields(s)["objects" := List(raws)]) }

  function WithCamera(s: Scene, camera: Args): Json { Dict(SceneFields(s)["camera" := Dict(camera)]) }

  function CanvasFields(c: Canvas): Args {
    map["aspect" := Str(c.aspect), "width" := Num(c.width as real), "height" := Num(c.height as real)]
  }

  /** Cleaning a document looks at three of its fields. */
  lemma CleanByParts(show: Json -> string, fields: Args, canvas: Args, camera: Args, raws: seq<Json>, previous: Scene)
    requires Get(fields, "canvas") == Dict(canvas) && Get(fields, "camera") == Dict(camera)
    requires Get(fields, "objects") == List(raws)
    ensures CleanScene(show, Dict(fields), previous) == CleanParts(show, Get(canvas, "aspect"), camera, raws, previous)
  {
  }

  lemma FieldsWith(s: Scene, raws: seq<Json>, camera: Args)
    ensures var f := WithObjects(s, raws).fields;
            Get(f, "canvas") == Dict(CanvasFields(s.canvas)) && Get(f, "camera") == Dict(CameraFields(s.camera))
            && Get(f, "objects") == List(raws)
    ensures var f := WithCamera(s, camera).fields;
            Get(f, "canvas") == Dict(CanvasFields(s.canvas)) && Get(f, "camera") == Dict(camera)
            && Get(f, "objects") == List(ObjectsJson(s.objects))
  {
  }

  /** A scene with its parts replaced. */
  function Rebuilt(s: Scene, camera: View, objects: seq<Object>): Scene {
    Scene(s.version + 1, s.canvas, camera, objects)
  }

  lemma CleanPartsAgain(show: Json -> string, s: Scene, camera: Args, raws: seq<Json>)
    requires s.canvas in ASPECTS
    ensures var c, os := CleanCamera(camera), CleanObjects(show, raws);
            CleanParts(show, Str(s.canvas.aspect), camera, raws, s)
            == Cleaned(Rebuilt(s, c.0, os.objects), [] + c.1 + os.errors + c.2)
  {
    CanvasAgain(s);
  }

  /** Replacing the objects of a well-formed scene: only the objects and the version change. */
  lemma CleanWithObjects(show: Json -> string, s: Scene, raws: seq<Json>)
    requires WellFormed(s)
    ensures var c := CleanObjects(show, raws);
            CleanScene(show, WithObjects(s, raws), s) == Cleaned(Rebuilt(s, s.camera, c.objects), c.errors)
  {
    FieldsWith(s, raws, map[]);
    CleanByParts(show, WithObjects(s, raws).fields, CanvasFields(s.canvas), CameraFields(s.camera), raws, s);
    assert Get(CanvasFields(s.canvas), "aspect") == Str(s.canvas.aspect);
    CleanPartsAgain(show, s, CameraFields(s.camera), raws);
    CleanCameraAgain(s.camera);
    assert [] + [] + CleanObjects(show, raws).errors + [] == CleanObjects(show, raws).errors;
  }

  /** Replacing the camera: only the camera and the version change. */
  lemma CleanWithCamera(show: Json -> string, s: Scene, camera: Args)
    requires WellFormed(s)
    ensures var c := CleanCamera(camera);
            CleanScene(show, WithCamera(s, camera), s) == Cleaned(Rebuilt(s, c.0, s.objects), [] + c.1 + [] + c.2)
  {
    FieldsWith(s, [], camera);
    CleanByParts(show, WithCamera(s, camera).fields, CanvasFields(s.canvas), camera, ObjectsJson(s.objects), s);
    assert Get(CanvasFields(s.canvas), "aspect") == Str(s.canvas.aspect);
    CleanPartsAgain(show, s, camera, ObjectsJson(s.objects));
    CleanObjectsAgain(show, s.objects);
  }

  /** Cleaning the document of a well-formed scene changes nothing but the version. */
  lemma CleanSceneAgain(show: Json -> string, s: Scene)
    requires WellFormed(s)
    ensures CleanScene(show, SceneJson(s), s) == Cleaned(s.(version := s.version + 1), [])
  {
    assert SceneFields(s)["objects" := List(ObjectsJson(s.objects))] == SceneFields(s);
    CleanWithObjects(show, s, ObjectsJson(s.objects));
    CleanObjectsAgain(show, s.objects);
  }

  // ---- the file

  datatype Stored = Crashed | Refused(errors: seq<Error>) | Kept

  class SceneFile {
    const show: Json -> string
    var scene: Scene

    ghost predicate Valid()
      reads this
    {
      ShowLaw(show) && WellFormed(scene)
    }

    constructor (show: Json -> string, scene: Scene)
      ensures this.show == show && this.scene == scene
    {
      this.show := show;
      this.scene := scene;
    }

    /** The loop of `clean_scene` over the submitted objects, growing `errors` and `seen`. */
    method CleanAll(raws: seq<Json>) returns (objects: seq<Object>, errors: seq<Error>)
      ensures objects == CleanObjects(show, raws).objects && errors == CleanObjects(show, raws).errors
    {
      objects, errors := [], [];
      var seen := {};
      for i := 0 to |raws|
        invariant CleanedObjects(objects, errors, seen) == CleanObjects(show, raws[..i])
      {
        assert raws[..i + 1][..i] == raws[..i];
        var c := CleanObject(show, raws[i], i, seen);
        if c.found.Some? {
          objects := objects + [c.found.value];
        }
        errors, seen := errors + c.errors, c.seen;
      }
      assert raws[..|raws|] == raws;
    }

    /** `clean_scene`. */
    method Clean(raw: Json, previous: Scene) returns (c: CleanedScene)
      ensures c == CleanScene(show, raw, previous)
    {
      if !raw.Dict? {
        return Cleaned(previous, [NotAScene]);
      }
      var canvas, camera := FieldsOr(Get(raw.fields, "canvas")), FieldsOr(Get(raw.fields, "camera"));
      var raws := ItemsOr(Get(raw.fields, "objects"));
      if canvas.None? || camera.None? || raws.None? {
        return Raised;
      }
      var shape, view := CanvasFor(Get(canvas.value, "aspect"), previous), CleanCamera(camera.value);
      var objects, errors := CleanAll(raws.value);
      return Cleaned(Scene(previous.version + 1, shape.0, view.0, objects), shape.1 + view.1 + errors + view.2);
    }

    /** `persist` and `do_scene_put`: either every submitted object is stored, in order and one
        version on from the scene the caller had read, or nothing changes. */
    method Persist(raw: Json, previous: Scene) returns (r: Stored)
      requires Valid() && WellFormed(previous)
      modifies this
      ensures Valid()
      ensures r.Kept? ==> Submitted(show, raw, scene) && scene.version == previous.version + 1
      ensures !r.Kept? ==> scene == old(scene)
      ensures match CleanScene(show, raw, previous) {
                case Raised => r == Crashed
                case Cleaned(s, errors) => if errors == [] then r == Kept && scene == s else r == Refused(errors)
              }
    {
      CleanSceneGood(show, raw, previous);
      var cleaned := Clean(raw, previous);
      if cleaned.Raised? {
        return Crashed;
      }
      if cleaned.errors != [] {
        return Refused(cleaned.errors);
      }
      scene := cleaned.scene;
      return Kept;
    }
  }
}
