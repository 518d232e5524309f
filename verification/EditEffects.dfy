/** What each edit action does to the stored scene, when it succeeds. */
module EditEffects {
  import opened Options
  import opened Vectors
  import opened Documents
  import opened Scenes
  import opened References
  import opened Edits

  lemma FaithfulSame(show: Json -> string, o: Object, kept: Object)
    requires LegalObject(o) && Faithful(show, ObjectJson(o), kept)
    ensures kept == o
  {
    StripEnds(o.id);
    ObjectFieldsAre(o);
    VecJsonInjective(o.position, kept.position);
    VecJsonInjective(o.rotation, kept.rotation);
    VecJsonInjective(o.scale, kept.scale);
  }

  lemma VecJsonInjective(a: Vec3, b: Vec3)
    ensures VecJson(a) == VecJson(b) ==> a == b
  {
    var x, y := VecJson(a).items, VecJson(b).items;
    assert x[0] == Num(a.x) && x[1] == Num(a.y) && x[2] == Num(a.z);
    assert y[0] == Num(b.x) && y[1] == Num(b.y) && y[2] == Num(b.z);
  }

  /** Putting other objects: canvas and camera stay. */
  lemma PutObjects(show: Json -> string, s: Scene, raws: seq<Json>)
    requires WellFormed(s)
    ensures var c := CleanObjects(show, raws);
            Settle(show, Puts(WithObjects(s, raws)), s)
            == if c.errors == [] then Changed(Holding(s, c.objects)) else Failed
  {
    CleanWithObjects(show, s, raws);
  }

  function Holding(s: Scene, os: seq<Object>): Scene { s.(version := s.version + 1, objects := os) }

  /** Putting another camera: canvas and objects stay. */
  lemma PutCamera(show: Json -> string, s: Scene, camera: Args)
    requires WellFormed(s)
    ensures var o := Settle(show, Puts(WithCamera(s, camera)), s);
            o.Changed? ==> o.scene == Seeing(s, o.scene.camera)
  {
    var c := CleanCamera(camera);
    CleanWithCamera(show, s, camera);
    SettledScene(show, WithCamera(s, camera), s, Rebuilt(s, c.0, s.objects), [] + c.1 + [] + c.2);
  }

  lemma SettledScene(show: Json -> string, raw: Json, s: Scene, scene: Scene, errors: seq<Error>)
    requires CleanScene(show, raw, s) == Cleaned(scene, errors)
    ensures Settle(show, Puts(raw), s) == if errors == [] then Changed(scene) else Failed
  {
  }

  function Seeing(s: Scene, camera: View): Scene { s.(version := s.version + 1, camera := camera) }

  ghost predicate Legal(os: seq<Object>) { forall i | 0 <= i < |os| :: LegalObject(os[i]) }

  /** All kept objects are what was put. */
  ghost predicate AllFaithful(show: Json -> string, raws: seq<Json>, kept: seq<Object>) {
    |kept| == |raws| && forall i | 0 <= i < |raws| :: Faithful(show, raws[i], kept[i])
  }

  lemma CleanFaithful(show: Json -> string, raws: seq<Json>)
    requires ShowLaw(show) && CleanObjects(show, raws).errors == []
    ensures AllFaithful(show, raws, CleanObjects(show, raws).objects)
  {
    CleanObjectsGood(show, raws);
  }

  /** Objects that were put back as they were are kept as they were. */
  lemma KeptObject(show: Json -> string, raws: seq<Json>, kept: seq<Object>, i: nat, o: Object)
    requires AllFaithful(show, raws, kept) && i < |raws| && raws[i] == ObjectJson(o) && LegalObject(o)
    ensures kept[i] == o
  {
    assert Faithful(show, raws[i], kept[i]);
    FaithfulSame(show, o, kept[i]);
  }

  /** One more object at the end, everything else as it was. */
  lemma OneMore(show: Json -> string, os: seq<Object>, fields: Args, kept: seq<Object>)
    requires Legal(os) && AllFaithful(show, ObjectsJson(os) + [Dict(fields)], kept)
    ensures kept == os + [kept[|os|]] && Faithful(show, Dict(fields), kept[|os|])
  {
    var raws := ObjectsJson(os) + [Dict(fields)];
    forall i | 0 <= i < |os|
      ensures kept[i] == os[i]
    {
      KeptObject(show, raws, kept, i, os[i]);
    }
    assert Faithful(show, raws[|os|], kept[|os|]);
  }

  /** One object replaced, the others as they were. */
  lemma OneChanged(show: Json -> string, os: seq<Object>, k: nat, fields: Args, kept: seq<Object>)
    requires Legal(os) && k < |os| && AllFaithful(show, ObjectsJson(os)[k := Dict(fields)], kept)
    ensures kept == os[k := kept[k]] && Faithful(show, Dict(fields), kept[k])
  {
    var raws := ObjectsJson(os)[k := Dict(fields)];
    forall i | 0 <= i < |os| && i != k
      ensures kept[i] == os[i]
    {
      KeptObject(show, raws, kept, i, os[i]);
    }
    assert Faithful(show, raws[k], kept[k]);
  }

  // ---- what the arguments make of an object

  function NameFrom(show: Json -> string, j: Json): Option<string> { if Truthy(j) then Some(Text(show, j)) else None }

  lemma BuiltFields(t: Tools, args: Args, os: seq<Object>, position: Json)
    requires BuildObject(t, args, os, position).Built?
    ensures var f := BuildObject(t, args, os, position).fields;
            && Get(f, "id") == (if Truthy(Get(args, "id")) then Get(args, "id") else Str(NextId(os)))
            && Get(f, "label") == (if Truthy(Get(args, "label")) then Str(Text(t.show, Get(args, "label"))) else Null)
            && Get(f, "semantic") == Get(args, "semantic")
  {
  }

  /** An object added or placed without an explicit id gets the next one, and the name it was
      given; nothing else changes. */
  ghost predicate Adds(show: Json -> string, args: Args, s: Scene, after: Scene) {
    exists added: Object ::
      && after == Holding(s, s.objects + [added])
      && (!Truthy(Get(args, "id")) ==> added.id == NextId(s.objects))
      && added.name == NameFrom(show, Get(args, "label")) && Get(args, "semantic") == Str(added.semantic)
  }

  ghost predicate SameKey(a: Args, b: Args) {
    Get(a, "id") == Get(b, "id") && Get(a, "label") == Get(b, "label") && Get(a, "semantic") == Get(b, "semantic")
  }

  lemma AddedIs(t: Tools, args: Args, os: seq<Object>, position: Json, fields: Args, added: Object)
    requires ShowLaw(t.show) && BuildObject(t, args, os, position).Built?
    requires SameKey(fields, BuildObject(t, args, os, position).fields)
    requires Faithful(t.show, Dict(fields), added)
    ensures (!Truthy(Get(args, "id")) ==> added.id == NextId(os)) && Get(args, "semantic") == Str(added.semantic)
    ensures added.name == NameFrom(t.show, Get(args, "label"))
  {
    BuiltFields(t, args, os, position);
    IdRoundTrip(Largest(Ids(os)) + 1);
    StripEnds(NextId(os));
  }

  lemma BuiltAdds(t: Tools, args: Args, s: Scene, position: Json, fields: Args)
    requires ShowLaw(t.show) && WellFormed(s) && BuildObject(t, args, s.objects, position).Built?
    requires SameKey(fields, BuildObject(t, args, s.objects, position).fields)
    ensures var o := Settle(t.show, Puts(WithOneMore(s, fields)), s); o.Changed? ==> Adds(t.show, args, s, o.scene)
  {
    var raws := ObjectsJson(s.objects) + [Dict(fields)];
    PutObjects(t.show, s, raws);
    if CleanObjects(t.show, raws).errors == [] {
      var kept := CleanObjects(t.show, raws).objects;
      CleanFaithful(t.show, raws);
      OneMore(t.show, s.objects, fields, kept);
      AddedIs(t, args, s.objects, position, fields, kept[|s.objects|]);
    }
  }

  lemma AddAdds(t: Tools, args: Args, s: Scene)
    requires ShowLaw(t.show) && WellFormed(s)
    ensures var o := Settle(t.show, AddObject(t, args, s), s); o.Changed? ==> Adds(t.show, args, s, o.scene)
  {
    var b := BuildObject(t, args, s.objects, Get(args, "position"));
    if b.Built? {
      BuiltAdds(t, args, s, Get(args, "position"), b.fields);
    }
  }

  lemma PlaceAdds(t: Tools, args: Args, s: Scene)
    requires ShowLaw(t.show) && WellFormed(s)
    ensures var o := Settle(t.show, PlaceNext(t, args, s), s); o.Changed? ==> Adds(t.show, args, s, o.scene)
  {
    var sub := PlaceNext(t, args, s);
    if sub.Puts? {
      var f := BuildObject(t, args, s.objects, VecJson(ORIGIN)).fields;
      var ref := Resolve(t.show, s.objects, Get(args, "relative_to")).value;
      var fields := f["position" := VecJson(t.place(s, ref, f, args))];
      assert SameKey(fields, f);
      BuiltAdds(t, args, s, VecJson(ORIGIN), fields);
    }
  }

  /** An update changes one object, the one referred to, and not its id; its name only if one is
      given. */
  ghost predicate Updates(show: Json -> string, args: Args, s: Scene, after: Scene) {
    exists k: nat, o: Object ::
      && k < |s.objects| && Resolve(show, s.objects, Get(args, "id")) == Some(s.objects[k].id)
      && after == Holding(s, s.objects[k := o])
      && o.id == s.objects[k].id && (!Given(args, "label") ==> o.name == s.objects[k].name)
  }

  /** The fields name the object as before. */
  ghost predicate Names(f: Option<Args>, o: Object) {
    f.Some? ==>
      && Get(f.value, "id") == Str(o.id)
      && Get(f.value, "label") == if o.name.Some? then Str(o.name.value) else Null
  }

  lemma SettingKeepsNames(t: Tools, f: Option<Args>, args: Args, key: string, o: Object)
    requires Names(f, o) && key != "id"
    ensures key != "label" || !Given(args, key) ==> Names(SetList(t, f, args, key), o) && Names(SetRaw(f, args, key), o)
    ensures SetRaw(f, args, key).Some? && f.Some? ==> Get(SetRaw(f, args, key).value, "id") == Str(o.id)
  {
  }

  lemma UpdatedKeeps(t: Tools, args: Args, o: Object)
    ensures UpdatedFields(t, args, o).Some? ==> Get(UpdatedFields(t, args, o).value, "id") == Str(o.id)
    ensures !Given(args, "label") ==> Names(UpdatedFields(t, args, o), o)
  {
    var f := Resized(t, args, o);
    assert Names(f, o);
    SettingKeepsNames(t, f, args, "position", o);
    SettingKeepsNames(t, SetList(t, f, args, "position"), args, "rotation", o);
    SettingKeepsNames(t, SetList(t, SetList(t, f, args, "position"), args, "rotation"), args, "scale", o);
    LastFields(t, Revectored(t, args, o), args, o);
  }

  lemma LastFields(t: Tools, f: Option<Args>, args: Args, o: Object)
    requires Names(f, o)
    ensures var g := SetRaw(SetRaw(SetRaw(f, args, "shape"), args, "semantic"), args, "label");
            (g.Some? ==> Get(g.value, "id") == Str(o.id)) && (!Given(args, "label") ==> Names(g, o))
  {
    SettingKeepsNames(t, f, args, "shape", o);
    SettingKeepsNames(t, SetRaw(f, args, "shape"), args, "semantic", o);
    SettingKeepsNames(t, SetRaw(SetRaw(f, args, "shape"), args, "semantic"), args, "label", o);
  }

  lemma UpdatedIs(t: Tools, args: Args, o: Object, changed: Object)
    requires LegalObject(o) && UpdatedFields(t, args, o).Some?
    requires Faithful(t.show, Dict(UpdatedFields(t, args, o).value), changed)
    ensures changed.id == o.id && (!Given(args, "label") ==> changed.name == o.name)
  {
    UpdatedKeeps(t, args, o);
    StripEnds(o.id);
  }

  lemma UpdateUpdates(t: Tools, args: Args, s: Scene)
    requires ShowLaw(t.show) && WellFormed(s)
    ensures var o := Settle(t.show, Update(t, args, s), s); o.Changed? ==> Updates(t.show, args, s, o.scene)
  {
    if Update(t, args, s).Puts? {
      var k := IndexOf(s.objects, Resolve(t.show, s.objects, Get(args, "id")).value);
      var f := UpdatedFields(t, args, s.objects[k]).value;
      var raws := ObjectsJson(s.objects)[k := Dict(f)];
      PutObjects(t.show, s, raws);
      if CleanObjects(t.show, raws).errors == [] {
        var kept := CleanObjects(t.show, raws).objects;
        CleanFaithful(t.show, raws);
        OneChanged(t.show, s.objects, k, f, kept);
        UpdatedIs(t, args, s.objects[k], kept[k]);
      }
    }
  }

  /** A move changes the position of one object, the one referred to, to where the mover says, and
      nothing else. */
  ghost predicate Moves(t: Tools, args: Args, s: Scene, after: Scene) {
    exists k: nat :: MovesTo(t, args, s, k, after)
  }

  ghost predicate MovesTo(t: Tools, args: Args, s: Scene, k: nat, after: Scene) {
    && k < |s.objects| && Resolve(t.show, s.objects, Get(args, "id")) == Some(s.objects[k].id)
    && after == Holding(s, s.objects[k := s.objects[k].(position := t.move(s, s.objects[k].id, args))])
  }

  lemma MovedFields(o: Object, p: Vec3)
    ensures ObjectFields(o)["position" := VecJson(p)] == ObjectFields(o.(position := p))
  {
  }

  lemma MovedIs(show: Json -> string, os: seq<Object>, k: nat, p: Vec3)
    requires ShowLaw(show) && Legal(os) && k < |os|
    ensures var c := CleanObjects(show, ObjectsJson(os)[k := Dict(ObjectFields(os[k])["position" := VecJson(p)])]);
            c.errors == [] ==> c.objects == os[k := os[k].(position := p)]
  {
    var moved := os[k].(position := p);
    MovedFields(os[k], p);
    var raws := ObjectsJson(os)[k := ObjectJson(moved)];
    if CleanObjects(show, raws).errors == [] {
      var kept := CleanObjects(show, raws).objects;
      CleanFaithful(show, raws);
      OneChanged(show, os, k, ObjectFields(moved), kept);
      KeptObject(show, raws, kept, k, moved);
    }
  }

  lemma MoveMoves(t: Tools, args: Args, s: Scene)
    requires ShowLaw(t.show) && WellFormed(s)
    ensures var o := Settle(t.show, MoveBy(t, args, s), s); o.Changed? ==> Moves(t, args, s, o.scene)
  {
    if MoveBy(t, args, s).Puts? {
      var id := Resolve(t.show, s.objects, Get(args, "id")).value;
      var k := IndexOf(s.objects, id);
      var p := t.move(s, id, args);
      PutObjects(t.show, s, ObjectsJson(s.objects)[k := Dict(ObjectFields(s.objects[k])["position" := VecJson(p)])]);
      MovedIs(t.show, s.objects, k, p);
      if Settle(t.show, MoveBy(t, args, s), s).Changed? {
        assert MovesTo(t, args, s, k, Settle(t.show, MoveBy(t, args, s), s).scene);
      }
    }
  }

  lemma {:induction false} OthersLegal(os: seq<Object>, id: string)
    requires Legal(os) && DistinctIds(os)
    ensures Legal(Others(os, id)) && DistinctIds(Others(os, id))
    ensures forall o :: o in Others(os, id) <==> o in os && o.id != id
  {
    if |os| > 0 {
      var front, last := os[..|os| - 1], os[|os| - 1];
      assert os == front + [last];
      OthersLegal(front, id);
    }
  }

  /** Deleting and clearing always succeed once the reference resolves, and leave exactly the other
      objects, in order. */
  lemma DeleteDeletes(t: Tools, args: Args, s: Scene, id: string)
    requires WellFormed(s) && Resolve(t.show, s.objects, Get(args, "id")) == Some(id)
    ensures Settle(t.show, Delete(t, args, s), s) == Changed(Holding(s, Others(s.objects, id)))
  {
    OthersLegal(s.objects, id);
    CleanObjectsAgain(t.show, Others(s.objects, id));
    PutObjects(t.show, s, ObjectsJson(Others(s.objects, id)));
  }

  lemma ClearClears(t: Tools, s: Scene)
    requires WellFormed(s)
    ensures Settle(t.show, Puts(WithObjects(s, [])), s) == Changed(Holding(s, []))
  {
    PutObjects(t.show, s, []);
  }

  lemma CameraKeepsObjects(t: Tools, args: Args, s: Scene)
    requires WellFormed(s)
    ensures var o := Settle(t.show, SetCamera(t, args, s), s); o.Changed? ==> o.scene == Seeing(s, o.scene.camera)
    ensures var o := Settle(t.show, FrameCamera(t, args, s), s); o.Changed? ==> o.scene == Seeing(s, o.scene.camera)
  {
    forall camera: Args
      ensures var o := Settle(t.show, Puts(WithCamera(s, camera)), s);
              o.Changed? ==> o.scene == Seeing(s, o.scene.camera)
    {
      PutCamera(t.show, s, camera);
    }
  }
}
