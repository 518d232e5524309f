/**
 Which actions raise instead of reporting an error (`recipe.py`), told from their arguments.
 */
module RaisingSteps {
  import opened Documents
  import opened Scenes
  import opened References
  import opened Edits

  // ---- arguments that cannot be read

  /** One of these is not readable as a number. */
  predicate BadNumber(t: Tools, items: seq<Json>) { exists i | 0 <= i < |items| :: t.float(items[i]).None? }

  /** Where a list belongs stands a number or a truth value. */
  predicate Unlistable(j: Json) { j.Null? || j.Bool? || j.Num? }

  predicate BadList(args: Args, key: string) { Given(args, key) && Unlistable(Get(args, key)) }

  predicate BadListOr(j: Json) { Truthy(j) && Unlistable(j) }

  predicate SizesWellShaped(args: Args) { Truthy(Get(args, "dims")) ==> ThreeItems(Get(args, "dims")) }

  /** Sizes or scale factors that are not numbers, or a scale that is no list. */
  predicate BadScale(t: Tools, args: Args) {
    var dims, scale := Get(args, "dims"), Get(args, "scale");
    if Truthy(dims) then dims.List? && BadNumber(t, dims.items)
    else Truthy(scale) && (Unlistable(scale) || BadNumber(t, Listed(t.keys, scale).value))
  }

  /** What `build_object` checks before it reads any of these. */
  predicate Buildable(args: Args) {
    var semantic := Get(args, "semantic");
    && InKeys(semantic, SEMANTICS) && SizesWellShaped(args)
    && InKeys(if Truthy(Get(args, "shape")) then Get(args, "shape") else Str(DefaultShape(semantic.s)), SHAPES)
  }

  predicate BadBuild(t: Tools, args: Args) {
    Buildable(args) && (BadScale(t, args) || BadListOr(Get(args, "rotation")))
  }

  predicate BadUpdate(t: Tools, args: Args) {
    && SizesWellShaped(args)
    && (|| (Truthy(Get(args, "dims")) && BadScale(t, args)) || BadList(args, "position") || BadList(args, "rotation")
        || (!Truthy(Get(args, "dims")) && BadList(args, "scale")))
  }

  /** A rotation or scale that is read, but that the new object cannot be measured with. */
  predicate BadBody(t: Tools, args: Args) {
    var rotation, scale := Get(args, "rotation"), Get(args, "scale");
    && Buildable(args)
    && (|| (Truthy(rotation) && !Unlistable(rotation) && !Turns(Listed(t.keys, rotation).value))
        || (!Truthy(Get(args, "dims")) && Truthy(scale) && !Unlistable(scale) && 0 < |Listed(t.keys, scale).value| < 3))
  }

  predicate PlaceArgsOk(t: Tools, args: Args) {
    && InKeys(if Truthy(Get(args, "direction")) then Get(args, "direction") else Str("right"), DIRECTIONS)
    && t.float(DistanceOf(args, 1.0)).Some? && t.float(DistanceOf(args, 1.0)).value >= 0.0
  }

  /** The arguments of the step cannot be read: told without any scene. */
  predicate Unreadable(t: Tools, step: Step) {
    var args := step.args;
    match step.action
    case ObjectAdd => BadBuild(t, args) || (Buildable(args) && BadListOr(Get(args, "position")))
    case Place => PlaceArgsOk(t, args) && (BadBuild(t, args) || BadBody(t, args))
    case Move => !Hashable(Get(args, "direction"))
    case ObjectUpdate => BadUpdate(t, args)
    case CameraSet => !Truthy(Get(args, "preset")) && (BadList(args, "position") || BadList(args, "target"))
    case CameraFrame => BadListOr(Get(args, "targets"))
    case _ => false
  }

  /** The step gets as far as reading them, with these objects in the scene. */
  predicate Ready(t: Tools, step: Step, os: seq<Object>) {
    match step.action
    case Place => Resolve(t.show, os, Get(step.args, "relative_to")).Some?
    case ObjectUpdate => Resolve(t.show, os, Get(step.args, "id")).Some?
    case Move => Resolve(t.show, os, Get(step.args, "id")).Some?
    case CameraFrame => os != []
    case _ => true
  }

  predicate Stumbles(t: Tools, step: Step, os: seq<Object>) { Unreadable(t, step) && Ready(t, step, os) }

  // ---- they are what raises

  lemma {:induction false} FloatsNone(t: Tools, items: seq<Json>)
    ensures Floats(t, items).None? <==> BadNumber(t, items)
  {
    if |items| > 0 {
      var front := items[..|items| - 1];
      FloatsNone(t, front);
      assert forall i | 0 <= i < |front| :: front[i] == items[i];
    }
  }

  lemma ScaleNone(t: Tools, args: Args, shape: string, semantic: string)
    requires SizesWellShaped(args)
    ensures ScaleFor(t, args, shape, semantic).None? <==> BadScale(t, args)
  {
    var dims, scale := Get(args, "dims"), Get(args, "scale");
    if Truthy(dims) {
      FloatsNone(t, dims.items);
    } else if Truthy(scale) && !Unlistable(scale) {
      FloatsNone(t, Listed(t.keys, scale).value);
    }
  }

  lemma BuildRaisesIff(t: Tools, args: Args, os: seq<Object>, position: Json)
    ensures BuildObject(t, args, os, position).BuildRaises? <==>
            BadBuild(t, args) || (Buildable(args) && BadListOr(position))
  {
    if Buildable(args) {
      var semantic := Get(args, "semantic");
      var shape := if Truthy(Get(args, "shape")) then Get(args, "shape") else Str(DefaultShape(semantic.s));
      ScaleNone(t, args, shape.s, semantic.s);
    }
  }

  lemma UpdatedNone(t: Tools, args: Args, o: Object)
    requires SizesWellShaped(args)
    ensures UpdatedFields(t, args, o).None? <==> BadUpdate(t, args)
  {
    if Truthy(Get(args, "dims")) {
      FloatsNone(t, Get(args, "dims").items);
    }
  }

  lemma ResolvedIndex(show: Json -> string, os: seq<Object>, j: Json)
    requires Resolve(show, os, j).Some?
    ensures IndexOf(os, Resolve(show, os, j).value) < |os|
  {
    ResolvedExists(show, os, j);
    var i :| 0 <= i < |os| && os[i].id == Resolve(show, os, j).value;
    FoundIndex(os, i);
  }

  lemma {:induction false} FoundIndex(os: seq<Object>, i: nat)
    requires i < |os|
    ensures IndexOf(os, os[i].id) < |os|
  {
    if i > 0 && os[0].id != os[i].id {
      FoundIndex(os[1..], i - 1);
    }
  }

  lemma UpdateRaisesIff(t: Tools, args: Args, s: Scene)
    ensures Update(t, args, s).Raises? <==> BadUpdate(t, args) && Resolve(t.show, s.objects, Get(args, "id")).Some?
  {
    var id := Resolve(t.show, s.objects, Get(args, "id"));
    if id.Some? && SizesWellShaped(args) {
      ResolvedIndex(t.show, s.objects, Get(args, "id"));
      UpdatedNone(t, args, s.objects[IndexOf(s.objects, id.value)]);
    }
  }

  lemma PlaceRaisesIff(t: Tools, step: Step, s: Scene)
    requires step.action.Place?
    ensures PlaceNext(t, step.args, s).Raises? <==> Stumbles(t, step, s.objects)
  {
    BuildRaisesIff(t, step.args, s.objects, VecJson(ORIGIN));
    if BuildObject(t, step.args, s.objects, VecJson(ORIGIN)).Built? {
      MeasurableIff(t, step.args, s.objects, VecJson(ORIGIN));
    }
  }

  /** A built object can be measured exactly when the arguments are not those. */
  lemma MeasurableIff(t: Tools, args: Args, os: seq<Object>, position: Json)
    requires BuildObject(t, args, os, position).Built?
    ensures Measurable(BuildObject(t, args, os, position).fields) <==> !BadBody(t, args)
  {
    var f := BuildObject(t, args, os, position).fields;
    var semantic := Get(args, "semantic");
    var shape := if Truthy(Get(args, "shape")) then Get(args, "shape") else Str(DefaultShape(semantic.s));
    assert Get(f, "rotation") == List(ListOr(t, Get(args, "rotation"), ORIGIN).value);
    assert Get(f, "scale") == Numbers(ScaleFor(t, args, shape.s, semantic.s).value);
    if !Truthy(Get(args, "dims")) && Truthy(Get(args, "scale")) {
      FloatsLength(t, Listed(t.keys, Get(args, "scale")).value);
    }
  }

  lemma {:induction false} FloatsLength(t: Tools, items: seq<Json>)
    requires Floats(t, items).Some?
    ensures |Floats(t, items).value| == |items|
  {
    if |items| > 0 {
      FloatsLength(t, items[..|items| - 1]);
    }
  }

  lemma MoveRaisesIff(t: Tools, step: Step, s: Scene)
    requires step.action.Move?
    ensures MoveBy(t, step.args, s).Raises? <==> Stumbles(t, step, s.objects)
    ensures MoveBy(t, step.args, s).Raises? <==>
            Resolve(t.show, s.objects, Get(step.args, "id")).Some?
            && (Get(step.args, "direction").List? || Get(step.args, "direction").Dict?)
  {
    if Resolve(t.show, s.objects, Get(step.args, "id")).Some? {
      ResolvedIndex(t.show, s.objects, Get(step.args, "id"));
    }
  }

  lemma CameraRaisesIff(t: Tools, args: Args, s: Scene)
    ensures SetCamera(t, args, s).Raises? <==>
            !Truthy(Get(args, "preset")) && (BadList(args, "position") || BadList(args, "target"))
    ensures FrameCamera(t, args, s).Raises? <==> BadListOr(Get(args, "targets")) && s.objects != []
  {
  }

  lemma SubmitRaisesIff(t: Tools, step: Step, s: Scene)
    ensures Submit(t, step, s).Raises? <==> Stumbles(t, step, s.objects)
  {
    match step.action
    case ObjectAdd => BuildRaisesIff(t, step.args, s.objects, Get(step.args, "position"));
    case ObjectUpdate => UpdateRaisesIff(t, step.args, s);
    case Place => PlaceRaisesIff(t, step, s);
    case Move => MoveRaisesIff(t, step, s);
    case CameraSet => CameraRaisesIff(t, step.args, s);
    case CameraFrame => CameraRaisesIff(t, step.args, s);
    case _ =>
  }

  // ---- and the write never does

  /** An action puts other objects or another camera into the scene it read. */
  ghost predicate Replaces(s: Scene, raw: Json) {
    (exists raws :: raw == WithObjects(s, raws)) || (exists camera :: raw == WithCamera(s, camera))
  }

  lemma ObjectsReplace(s: Scene, raws: seq<Json>)
    ensures Replaces(s, WithObjects(s, raws))
  {
  }

  lemma CameraReplaces(s: Scene, camera: Args)
    ensures Replaces(s, WithCamera(s, camera))
  {
  }

  ghost predicate PutsReplacing(s: Scene, sub: Submission) { sub.Puts? ==> Replaces(s, sub.raw) }

  lemma AddReplaces(t: Tools, args: Args, s: Scene)
    ensures PutsReplacing(s, AddObject(t, args, s))
  {
    var b := BuildObject(t, args, s.objects, Get(args, "position"));
    if b.Built? {
      ObjectsReplace(s, ObjectsJson(s.objects) + [Dict(b.fields)]);
    }
  }

  lemma PlaceReplaces(t: Tools, args: Args, s: Scene)
    ensures PutsReplacing(s, PlaceNext(t, args, s))
  {
    if PlaceNext(t, args, s).Puts? {
      var f := BuildObject(t, args, s.objects, VecJson(ORIGIN)).fields;
      var ref := Resolve(t.show, s.objects, Get(args, "relative_to")).value;
      ObjectsReplace(s, ObjectsJson(s.objects) + [Dict(f["position" := VecJson(t.place(s, ref, f, args))])]);
    }
  }

  lemma PutAtReplaces(s: Scene, k: nat, f: Args)
    requires k < |s.objects|
    ensures Replaces(s, PutAt(s, k, f))
  {
    ObjectsReplace(s, ObjectsJson(s.objects)[k := Dict(f)]);
  }

  lemma UpdateReplaces(t: Tools, args: Args, s: Scene)
    ensures PutsReplacing(s, Update(t, args, s))
  {
    if Update(t, args, s).Puts? {
      var k := IndexOf(s.objects, Resolve(t.show, s.objects, Get(args, "id")).value);
      PutAtReplaces(s, k, UpdatedFields(t, args, s.objects[k]).value);
    }
  }

  lemma MoveReplaces(t: Tools, args: Args, s: Scene)
    ensures PutsReplacing(s, MoveBy(t, args, s))
  {
    if MoveBy(t, args, s).Puts? {
      var id := Resolve(t.show, s.objects, Get(args, "id")).value;
      var k := IndexOf(s.objects, id);
      PutAtReplaces(s, k, ObjectFields(s.objects[k])["position" := VecJson(t.move(s, id, args))]);
    }
  }

  lemma DeleteReplaces(t: Tools, args: Args, s: Scene)
    ensures PutsReplacing(s, Delete(t, args, s))
  {
    if Delete(t, args, s).Puts? {
      ObjectsReplace(s, ObjectsJson(Others(s.objects, Resolve(t.show, s.objects, Get(args, "id")).value)));
    }
  }

  lemma SettingReplaces(t: Tools, args: Args, s: Scene)
    ensures PutsReplacing(s, SetCamera(t, args, s)) && PutsReplacing(s, FrameCamera(t, args, s))
  {
    forall camera: Args ensures Replaces(s, WithCamera(s, camera)) { CameraReplaces(s, camera); }
  }

  lemma SubmitReplaces(t: Tools, step: Step, s: Scene)
    ensures PutsReplacing(s, Submit(t, step, s))
  {
    match step.action
    case ObjectAdd => AddReplaces(t, step.args, s);
    case Place => PlaceReplaces(t, step.args, s);
    case SceneClear => ObjectsReplace(s, []);
    case CameraSet => SettingReplaces(t, step.args, s);
    case CameraFrame => SettingReplaces(t, step.args, s);
    case Measure =>
    case Validate =>
    case ObjectUpdate => UpdateReplaces(t, step.args, s);
    case Move => MoveReplaces(t, step.args, s);
    case ObjectDelete => DeleteReplaces(t, step.args, s);
  }

  lemma ReplacingReturns(show: Json -> string, s: Scene, raw: Json)
    requires WellFormed(s) && Replaces(s, raw)
    ensures CleanScene(show, raw, s).Cleaned?
  {
    if raws :| raw == WithObjects(s, raws) {
      CleanWithObjects(show, s, raws);
    } else {
      var camera :| raw == WithCamera(s, camera);
      CleanWithCamera(show, s, camera);
    }
  }

  /** Exactly when a step raises: its arguments cannot be read, or measured with, and it gets as far
      as trying. */
  lemma BrokeIff(t: Tools, step: Step, s: Scene)
    requires WellFormed(s)
    ensures Perform(t, step, s).Broke? <==> Stumbles(t, step, s.objects)
  {
    SubmitRaisesIff(t, step, s);
    SubmitReplaces(t, step, s);
    SettledBroke(t.show, Submit(t, step, s), s);
  }

  lemma SettledBroke(show: Json -> string, sub: Submission, s: Scene)
    requires WellFormed(s) && PutsReplacing(s, sub)
    ensures Settle(show, sub, s).Broke? <==> sub.Raises?
  {
    if sub.Puts? {
      ReplacingReturns(show, s, sub.raw);
    }
  }
}
