/**
 The values that the edit actions of `recipe.py` store: field by field, from the arguments, the object
 or camera there was, and the solvers.
 */
module StoredValues {
  import opened Options
  import opened Vectors
  import opened Documents
  import opened Scenes
  import opened References
  import opened Edits
  import opened EditEffects
  import opened Foresight

  // ---- vectors

  lemma HeldIs(p: Vec3, v: Vec3, default: Vec3)
    requires Holds(VecJson(p), v, default)
    ensures v == p
  {
    VecJsonInjective(p, v);
  }

  /** A list of an argument that is a vector: the argument is that vector. */
  lemma ListedIs(t: Tools, j: Json, v: Vec3)
    requires Listed(t.keys, j).Some? && List(Listed(t.keys, j).value) == VecJson(v)
    ensures j == VecJson(v)
  {
    var items := Listed(t.keys, j).value;
    assert items == VecJson(v).items && items[0] == Num(v.x);
  }

  /** An optional vector argument: as given, or the default. */
  ghost predicate Gives(j: Json, v: Vec3, default: Vec3) { if Truthy(j) then j == VecJson(v) else v == default }

  lemma ListOrGives(t: Tools, j: Json, v: Vec3, default: Vec3, other: Vec3)
    requires ListOr(t, j, default).Some? && Holds(List(ListOr(t, j, default).value), v, other)
    ensures Gives(j, v, default)
  {
    if Truthy(j) {
      ListedIs(t, j, v);
    } else {
      assert List(ListOr(t, j, default).value) == VecJson(default);
      VecJsonInjective(default, v);
    }
  }

  /** A vector argument of an update: as given, or as it was. */
  ghost predicate Sets(args: Args, key: string, v: Vec3, was: Vec3) {
    if Given(args, key) then Get(args, key) == VecJson(v) else v == was
  }

  lemma FieldSets(t: Tools, args: Args, key: string, v: Vec3, was: Vec3, default: Vec3)
    requires Given(args, key) ==> Listed(t.keys, Get(args, key)).Some?
    requires Holds(FieldAfter(t, args, key, VecJson(was)), v, default)
    ensures Sets(args, key, v, was)
  {
    if Given(args, key) {
      ListedIs(t, Get(args, key), v);
    } else {
      HeldIs(was, v, default);
    }
  }

  /** Factors are kept to four decimals. */
  function Rounded(v: Vec3): Vec3 { Vec3(Round4(v.x), Round4(v.y), Round4(v.z)) }

  lemma Round4Near(x: real)
    ensures -0.00005 <= Round4(x) - x <= 0.00005
  {
    var n := RoundHalfEven(x * 10000.0);
    assert -0.5 <= n as real - x * 10000.0 <= 0.5;
  }

  lemma NumbersAre(xs: seq<real>, v: Vec3)
    requires Numbers(xs) == VecJson(v)
    ensures |xs| == 3 && v == Rounded(Vec3(xs[0], xs[1], xs[2]))
  {
    var items := Numbers(xs).items;
    assert |items| == |xs| && items == VecJson(v).items;
    assert items[0] == Num(Round4(xs[0])) && items[1] == Num(Round4(xs[1])) && items[2] == Num(Round4(xs[2]));
    assert items[0] == Num(v.x) && items[1] == Num(v.y) && items[2] == Num(v.z);
  }

  // ---- cameras

  /** A stored camera is the one put, field by field. */
  lemma CameraStored(show: Json -> string, s: Scene, camera: Args)
    requires WellFormed(s) && "fov" in camera
    ensures var o := Settle(show, Puts(WithCamera(s, camera)), s);
            o.Changed? ==>
              && o.scene == Seeing(s, o.scene.camera)
              && Holds(Get(camera, "position"), o.scene.camera.position, Vec3(6.0, 4.0, 8.0))
              && Holds(Get(camera, "target"), o.scene.camera.target, Vec3(0.0, 0.8, 0.0))
              && IsFov(camera["fov"]) && camera["fov"] == Num(o.scene.camera.fov)
  {
    var c := CleanCamera(camera);
    CleanWithCamera(show, s, camera);
    SettledScene(show, WithCamera(s, camera), s, Rebuilt(s, c.0, s.objects), [] + c.1 + [] + c.2);
    var e0 := AsVec3(Get(camera, "position"), "camera.position", Vec3(6.0, 4.0, 8.0)).1;
    var e1 := AsVec3(Get(camera, "target"), "camera.target", Vec3(0.0, 0.8, 0.0)).1;
    if [] + c.1 + [] + c.2 == [] {
      assert c.2 == e0 + e1 && e0 == [] && e1 == [] && c.1 == [];
      AsVec3Holds(Get(camera, "position"), "camera.position", Vec3(6.0, 4.0, 8.0));
      AsVec3Holds(Get(camera, "target"), "camera.target", Vec3(0.0, 0.8, 0.0));
    }
  }

  /** The field of view after an action: as given, which is then a legal one, or as it was. */
  predicate Zooms(args: Args, fov: real, was: real) {
    if Given(args, "fov") then Get(args, "fov") == Num(fov) && 5.0 <= fov <= 120.0 else fov == was
  }

  lemma PosedStored(show: Json -> string, args: Args, s: Scene, pose: Pose, f: Args)
    requires WellFormed(s) && f == WithFov(Posed(s.camera, pose), args)
    ensures var o := Settle(show, Puts(WithCamera(s, f)), s);
            o.Changed? ==>
              && o.scene == Seeing(s, View(pose.position, pose.target, o.scene.camera.fov))
              && Zooms(args, o.scene.camera.fov, s.camera.fov)
  {
    assert Get(f, "position") == VecJson(pose.position) && Get(f, "target") == VecJson(pose.target);
    assert f["fov"] == if Given(args, "fov") then Get(args, "fov") else Num(s.camera.fov);
    CameraStored(show, s, f);
    var o := Settle(show, Puts(WithCamera(s, f)), s);
    if o.Changed? {
      HeldIs(pose.position, o.scene.camera.position, Vec3(6.0, 4.0, 8.0));
      HeldIs(pose.target, o.scene.camera.target, Vec3(0.0, 0.8, 0.0));
    }
  }

  /** Framing stores the pose that the solver finds and keeps the field of view. */
  lemma FrameStores(t: Tools, args: Args, s: Scene)
    requires WellFormed(s)
    ensures var o := Settle(t.show, FrameCamera(t, args, s), s);
            var pose := t.frame(s, args);
            o.Changed? ==> o.scene == Seeing(s, View(pose.position, pose.target, s.camera.fov))
  {
    if FrameCamera(t, args, s).Puts? {
      assert Posed(s.camera, t.frame(s, args)) == WithFov(Posed(s.camera, t.frame(s, args)), map[]);
      PosedStored(t.show, map[], s, t.frame(s, args), Posed(s.camera, t.frame(s, args)));
    }
  }

  /** A preset stores the pose of the preset, and the field of view that is given. */
  lemma PresetStores(t: Tools, args: Args, s: Scene)
    requires WellFormed(s) && Truthy(Get(args, "preset"))
    ensures var o := Settle(t.show, SetCamera(t, args, s), s);
            var pose := t.preset(s, args);
            o.Changed? ==>
              && o.scene == Seeing(s, View(pose.position, pose.target, o.scene.camera.fov))
              && Zooms(args, o.scene.camera.fov, s.camera.fov)
  {
    if SetCamera(t, args, s).Puts? {
      PosedStored(t.show, args, s, t.preset(s, args), WithFov(Posed(s.camera, t.preset(s, args)), args));
    }
  }

  /** Setting the camera stores exactly what is given and keeps the rest. */
  lemma SetStores(t: Tools, args: Args, s: Scene)
    requires WellFormed(s) && !Truthy(Get(args, "preset"))
    ensures var o := Settle(t.show, SetCamera(t, args, s), s);
            o.Changed? ==>
              && o.scene == Seeing(s, o.scene.camera)
              && Sets(args, "position", o.scene.camera.position, s.camera.position)
              && Sets(args, "target", o.scene.camera.target, s.camera.target)
              && Zooms(args, o.scene.camera.fov, s.camera.fov)
  {
    if SetCamera(t, args, s).Puts? {
      var f0 := Some(CameraFields(s.camera));
      var f1 := SetList(t, f0, args, "position");
      var f2 := SetList(t, f1, args, "target");
      SetFields(t, args, s.camera);
      CameraStored(t.show, s, WithFov(f2.value, args));
      var o := Settle(t.show, SetCamera(t, args, s), s);
      if o.Changed? {
        FieldSets(t, args, "position", o.scene.camera.position, s.camera.position, Vec3(6.0, 4.0, 8.0));
        FieldSets(t, args, "target", o.scene.camera.target, s.camera.target, Vec3(0.0, 0.8, 0.0));
      }
    }
  }

  lemma SetFields(t: Tools, args: Args, v: View)
    requires SetList(t, SetList(t, Some(CameraFields(v)), args, "position"), args, "target").Some?
    ensures var g := SetList(t, SetList(t, Some(CameraFields(v)), args, "position"), args, "target").value;
            var f := WithFov(g, args);
            && Get(f, "position") == FieldAfter(t, args, "position", VecJson(v.position))
            && Get(f, "target") == FieldAfter(t, args, "target", VecJson(v.target))
            && "fov" in f && f["fov"] == if Given(args, "fov") then Get(args, "fov") else Num(v.fov)
    ensures Given(args, "position") ==> Listed(t.keys, Get(args, "position")).Some?
    ensures Given(args, "target") ==> Listed(t.keys, Get(args, "target")).Some?
  {
    var f0 := Some(CameraFields(v));
    var f1 := SetList(t, f0, args, "position");
    SetListGets(t, f0, args, "position", "position");
    SetListGets(t, f0, args, "position", "target");
    SetListGets(t, f1, args, "target", "position");
    SetListGets(t, f1, args, "target", "target");
    assert "fov" in f1.value && f1.value["fov"] == Num(v.fov);
  }

  // ---- objects added and placed

  /** The factors an object gets: from sizes, from factors given, or by default. */
  ghost predicate Scaled(t: Tools, args: Args, shape: string, semantic: string, v: Vec3) {
    var dims, scale := Get(args, "dims"), Get(args, "scale");
    if Truthy(dims) then
      Sized(t, dims, shape, v)
    else if Truthy(scale) then
      Listed(t.keys, scale).Some? && exists xs :: Floats(t, Listed(t.keys, scale).value) == Some(xs) && Factors(xs, v)
    else v == Rounded(t.defaultScale(shape, semantic))
  }

  /** Three sizes in metres, made into factors for the shape. */
  ghost predicate Sized(t: Tools, dims: Json, shape: string, v: Vec3) {
    && dims.List? && |dims.items| == 3
    && exists xs :: Floats(t, dims.items) == Some(xs) && v == Rounded(t.scaleOf(shape, xs))
  }

  predicate Factors(xs: seq<real>, v: Vec3) { |xs| == 3 && v == Rounded(Vec3(xs[0], xs[1], xs[2])) }

  /** What an added object is, but for its position: id, kind, name, rotation and scale as the arguments
      say. */
  ghost predicate Made(t: Tools, args: Args, os: seq<Object>, o: Object) {
    && o.id == (if Truthy(Get(args, "id")) then Strip(TextOr(t.show, Get(args, "id"))) else NextId(os))
    && o.name == NameFrom(t.show, Get(args, "label")) && Get(args, "semantic") == Str(o.semantic)
    && Str(o.shape) == (if Truthy(Get(args, "shape")) then Get(args, "shape") else Str(DefaultShape(o.semantic)))
    && Gives(Get(args, "rotation"), o.rotation, ORIGIN) && Scaled(t, args, o.shape, o.semantic, o.scale)
  }

  /** What `build_object` makes of its arguments, field by field. */
  lemma BuiltGets(t: Tools, args: Args, os: seq<Object>, position: Json, f: Args)
    requires BuildObject(t, args, os, position) == Built(f)
    ensures Get(args, "semantic").Str? && Get(f, "semantic") == Get(args, "semantic") && Get(f, "shape").Str?
    ensures Get(f, "shape") == if Truthy(Get(args, "shape")) then Get(args, "shape")
                               else Str(DefaultShape(Get(args, "semantic").s))
    ensures ListOr(t, position, ORIGIN).Some? && Get(f, "position") == List(ListOr(t, position, ORIGIN).value)
    ensures ListOr(t, Get(args, "rotation"), ORIGIN).Some?
    ensures Get(f, "rotation") == List(ListOr(t, Get(args, "rotation"), ORIGIN).value)
    ensures Truthy(Get(args, "dims")) ==> Get(args, "dims").List? && |Get(args, "dims").items| == 3
    ensures var scale := ScaleFor(t, args, Get(f, "shape").s, Get(args, "semantic").s);
            scale.Some? && Get(f, "scale") == Numbers(scale.value)
  {
  }

  lemma ScaleScales(t: Tools, args: Args, shape: string, semantic: string, xs: seq<real>, v: Vec3, default: Vec3)
    requires ScaleFor(t, args, shape, semantic) == Some(xs) && Holds(Numbers(xs), v, default)
    requires Truthy(Get(args, "dims")) ==> Get(args, "dims").List? && |Get(args, "dims").items| == 3
    ensures Scaled(t, args, shape, semantic, v)
  {
    NumbersAre(xs, v);
  }

  lemma BuiltIsMade(t: Tools, args: Args, os: seq<Object>, position: Json, f: Args, g: Args, o: Object)
    requires ShowLaw(t.show) && BuildObject(t, args, os, position) == Built(f) && Faithful(t.show, Dict(g), o)
    requires SameKey(g, f) && Get(g, "shape") == Get(f, "shape") && Get(g, "rotation") == Get(f, "rotation")
    requires Get(g, "scale") == Get(f, "scale")
    ensures Made(t, args, os, o)
  {
    BuiltGets(t, args, os, position, f);
    BuiltFields(t, args, os, position);
    AddedIs(t, args, os, position, g, o);
    ListOrGives(t, Get(args, "rotation"), o.rotation, ORIGIN, ORIGIN);
    ScaleScales(t, args, o.shape, o.semantic, ScaleFor(t, args, o.shape, o.semantic).value, o.scale, ONES);
  }

  /** One object more is stored as it was put. */
  lemma OneMoreStored(show: Json -> string, s: Scene, f: Args) returns (added: Object)
    requires ShowLaw(show) && WellFormed(s) && Settle(show, Puts(WithOneMore(s, f)), s).Changed?
    ensures Settle(show, Puts(WithOneMore(s, f)), s) == Changed(Holding(s, s.objects + [added]))
    ensures Faithful(show, Dict(f), added)
  {
    var raws := ObjectsJson(s.objects) + [Dict(f)];
    PutObjects(show, s, raws);
    CleanFaithful(show, raws);
    OneMore(show, s.objects, f, CleanObjects(show, raws).objects);
    added := CleanObjects(show, raws).objects[|s.objects|];
  }

  /** Adding stores one object more, as the arguments say, at the position given or else the origin. */
  lemma AddStores(t: Tools, args: Args, s: Scene) returns (added: Object)
    requires ShowLaw(t.show) && WellFormed(s) && Settle(t.show, AddObject(t, args, s), s).Changed?
    ensures Settle(t.show, AddObject(t, args, s), s) == Changed(Holding(s, s.objects + [added]))
    ensures Made(t, args, s.objects, added) && Gives(Get(args, "position"), added.position, ORIGIN)
  {
    var f := BuildObject(t, args, s.objects, Get(args, "position")).fields;
    added := OneMoreStored(t.show, s, f);
    BuiltIsMade(t, args, s.objects, Get(args, "position"), f, f, added);
    BuiltGets(t, args, s.objects, Get(args, "position"), f);
    ListOrGives(t, Get(args, "position"), added.position, ORIGIN, ORIGIN);
  }

  /** Placing stores one object more, as the arguments say, where the placer puts it next to the object
      referred to; the placer is shown the new object at the origin. */
  lemma PlaceStores(t: Tools, args: Args, s: Scene) returns (added: Object, proto: Args)
    requires ShowLaw(t.show) && WellFormed(s) && Settle(t.show, PlaceNext(t, args, s), s).Changed?
    ensures Settle(t.show, PlaceNext(t, args, s), s) == Changed(Holding(s, s.objects + [added]))
    ensures Made(t, args, s.objects, added) && Faithful(t.show, Dict(proto), added.(position := ORIGIN))
    ensures var ref := Resolve(t.show, s.objects, Get(args, "relative_to"));
            ref.Some? && added.position == t.place(s, ref.value, proto, args)
  {
    proto := BuildObject(t, args, s.objects, VecJson(ORIGIN)).fields;
    var p := t.place(s, Resolve(t.show, s.objects, Get(args, "relative_to")).value, proto, args);
    var g := proto["position" := VecJson(p)];
    added := OneMoreStored(t.show, s, g);
    KeepsOthers(proto, p, g);
    BuiltIsMade(t, args, s.objects, VecJson(ORIGIN), proto, g, added);
    HeldIs(p, added.position, ORIGIN);
    BuiltGets(t, args, s.objects, VecJson(ORIGIN), proto);
    AtOrigin(t);
  }

  lemma AtOrigin(t: Tools)
    ensures ListOr(t, VecJson(ORIGIN), ORIGIN) == Some(VecJson(ORIGIN).items)
  {
  }

  lemma KeepsOthers(f: Args, p: Vec3, g: Args)
    requires g == f["position" := VecJson(p)]
    ensures SameKey(g, f) && Get(g, "shape") == Get(f, "shape") && Get(g, "rotation") == Get(f, "rotation")
    ensures Get(g, "scale") == Get(f, "scale") && Get(g, "position") == VecJson(p)
  {
  }

  // ---- objects updated

  /** What an update makes of an object: the fields given, and the others as they were. */
  ghost predicate Altered(t: Tools, args: Args, was: Object, o: Object) {
    && o.id == was.id
    && o.name == (if Given(args, "label") then NameFrom(t.show, Get(args, "label")) else was.name)
    && Str(o.shape) == RawAfter(args, "shape", Str(was.shape))
    && Str(o.semantic) == RawAfter(args, "semantic", Str(was.semantic))
    && Sets(args, "position", o.position, was.position) && Sets(args, "rotation", o.rotation, was.rotation)
    && if Truthy(Get(args, "dims")) then Sized(t, Get(args, "dims"), was.shape, o.scale)
       else Sets(args, "scale", o.scale, was.scale)
  }

  lemma AlteredVector(t: Tools, args: Args, was: Object, f: Args, key: string, v: Vec3, before: Vec3, default: Vec3)
    requires UpdatedFields(t, args, was) == Some(f) && Holds(Get(f, key), v, default)
    requires (key == "position" && before == was.position) || (key == "rotation" && before == was.rotation)
             || (key == "scale" && before == was.scale && !Truthy(Get(args, "dims")))
    ensures Sets(args, key, v, before)
  {
    var g := Revectored(t, args, was).value;
    UpdatedGets(t, args, was, f, key);
    RevectoredGets(t, args, was, g, key);
    ResizedVectors(t, args, was, key, before);
    RevectoredLists(t, args, was, key);
    FieldSets(t, args, key, v, before, default);
  }

  lemma ResizedVectors(t: Tools, args: Args, was: Object, key: string, v: Vec3)
    requires Resized(t, args, was).Some?
    requires (key == "position" && v == was.position) || (key == "rotation" && v == was.rotation)
             || (key == "scale" && v == was.scale && !Truthy(Get(args, "dims")))
    ensures Get(Resized(t, args, was).value, key) == VecJson(v)
  {
    ObjectFieldsAre(was);
  }

  /** What was set could be listed. */
  lemma RevectoredLists(t: Tools, args: Args, was: Object, key: string)
    requires Revectored(t, args, was).Some?
    requires key == "position" || key == "rotation" || (key == "scale" && !Truthy(Get(args, "dims")))
    ensures Given(args, key) ==> Listed(t.keys, Get(args, key)).Some?
  {
  }

  lemma AlteredSize(t: Tools, args: Args, was: Object, f: Args, v: Vec3, default: Vec3)
    requires UpdatedFields(t, args, was) == Some(f) && Holds(Get(f, "scale"), v, default) && Truthy(Get(args, "dims"))
    requires ThreeItems(Get(args, "dims"))
    ensures Sized(t, Get(args, "dims"), was.shape, v)
  {
    var g := Revectored(t, args, was).value;
    UpdatedGets(t, args, was, f, "scale");
    RevectoredGets(t, args, was, g, "scale");
    var xs := Floats(t, Get(args, "dims").items).value;
    NumbersAre(Three(t.scaleOf(was.shape, xs)), v);
  }

  lemma AlteredName(t: Tools, args: Args, was: Object, f: Args, o: Object)
    requires LegalObject(was) && UpdatedFields(t, args, was) == Some(f) && Faithful(t.show, Dict(f), o)
    ensures o.id == was.id && o.name == if Given(args, "label") then NameFrom(t.show, Get(args, "label")) else was.name
  {
    UpdatedIs(t, args, was, o);
    UpdatedGets(t, args, was, f, "label");
  }

  lemma AlteredKind(t: Tools, args: Args, was: Object, f: Args)
    requires UpdatedFields(t, args, was) == Some(f)
    ensures Get(f, "shape") == RawAfter(args, "shape", Str(was.shape))
    ensures Get(f, "semantic") == RawAfter(args, "semantic", Str(was.semantic))
  {
    var g := Revectored(t, args, was).value;
    UpdatedGets(t, args, was, f, "shape");
    UpdatedGets(t, args, was, f, "semantic");
    RevectoredGets(t, args, was, g, "shape");
    RevectoredGets(t, args, was, g, "semantic");
    ResizedGets(t, args, was);
  }

  lemma UpdatedIsAltered(t: Tools, args: Args, was: Object, f: Args, o: Object)
    requires Truthy(Get(args, "dims")) ==> ThreeItems(Get(args, "dims"))
    requires LegalObject(was) && UpdatedFields(t, args, was) == Some(f) && Faithful(t.show, Dict(f), o)
    ensures Altered(t, args, was, o)
  {
    AlteredName(t, args, was, f, o);
    AlteredKind(t, args, was, f);
    AlteredVector(t, args, was, f, "position", o.position, was.position, ORIGIN);
    AlteredVector(t, args, was, f, "rotation", o.rotation, was.rotation, ORIGIN);
    if Truthy(Get(args, "dims")) {
      AlteredSize(t, args, was, f, o.scale, ONES);
    } else {
      AlteredVector(t, args, was, f, "scale", o.scale, was.scale, ONES);
    }
  }

  /** Updating stores the object referred to with the fields given and the others as they were, and
      every other object as it was. */
  lemma UpdateStores(t: Tools, args: Args, s: Scene) returns (k: nat, o: Object)
    requires ShowLaw(t.show) && WellFormed(s) && Settle(t.show, Update(t, args, s), s).Changed?
    ensures k < |s.objects| && Resolve(t.show, s.objects, Get(args, "id")) == Some(s.objects[k].id)
    ensures Settle(t.show, Update(t, args, s), s) == Changed(Holding(s, s.objects[k := o]))
    ensures Altered(t, args, s.objects[k], o)
  {
    k := IndexOf(s.objects, Resolve(t.show, s.objects, Get(args, "id")).value);
    var f := UpdatedFields(t, args, s.objects[k]).value;
    o := OneChangedStored(t.show, s, k, f);
    UpdatedIsAltered(t, args, s.objects[k], f, o);
  }

  lemma OneChangedStored(show: Json -> string, s: Scene, k: nat, f: Args) returns (o: Object)
    requires ShowLaw(show) && WellFormed(s) && k < |s.objects| && Settle(show, Puts(PutAt(s, k, f)), s).Changed?
    ensures Settle(show, Puts(PutAt(s, k, f)), s) == Changed(Holding(s, s.objects[k := o]))
    ensures Faithful(show, Dict(f), o)
  {
    var raws := ObjectsJson(s.objects)[k := Dict(f)];
    PutObjects(show, s, raws);
    CleanFaithful(show, raws);
    OneChanged(show, s.objects, k, f, CleanObjects(show, raws).objects);
    o := CleanObjects(show, raws).objects[k];
  }
}
