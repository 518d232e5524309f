/**
 How a plan goes, told before it runs (`recipe.py`): from the ids and names in the scene and the
 arguments of the steps alone, which steps succeed and which objects are there for each.
 */
module Foresight {
  import opened Options
  import opened Vectors
  import opened Documents
  import opened Scenes
  import opened References
  import opened Edits
  import opened EditEffects
  import opened RaisingSteps

  // ---- ids and names

  /** What references see of an object. */
  datatype Entry = Entry(id: string, name: Option<string>)

  type Names = seq<Entry>

  function EntryOf(o: Object): Entry { Entry(o.id, o.name) }

  function NamesOf(os: seq<Object>): Names { seq(|os|, (i: nat) requires i < |os| => EntryOf(os[i])) }

  /** An object of which only id and name matter. */
  function Stub(e: Entry): Object { Object(e.id, "", "", ORIGIN, ORIGIN, ORIGIN, e.name) }

  function Stubs(names: Names): seq<Object> { seq(|names|, (i: nat) requires i < |names| => Stub(names[i])) }

  lemma StubsNamed(names: Names)
    ensures NamesOf(Stubs(names)) == names
  {
  }

  lemma SameAt(a: seq<Object>, b: seq<Object>, i: nat)
    requires NamesOf(a) == NamesOf(b) && i < |a|
    ensures |a| == |b| && a[i].id == b[i].id && a[i].name == b[i].name
  {
    assert |NamesOf(a)| == |a| && |NamesOf(b)| == |b|;
    assert NamesOf(a)[i] == EntryOf(a[i]) && NamesOf(b)[i] == EntryOf(b[i]);
  }

  lemma SameIds(a: seq<Object>, b: seq<Object>)
    requires NamesOf(a) == NamesOf(b)
    ensures |a| == |b| && Ids(a) == Ids(b)
  {
    assert |NamesOf(a)| == |a| && |NamesOf(b)| == |b|;
    forall i | 0 <= i < |a| ensures a[i].id == b[i].id { SameAt(a, b, i); }
  }

  lemma {:induction false} SameIdsWhere(a: seq<Object>, b: seq<Object>, p: Object -> bool)
    requires |a| == |b| && forall i | 0 <= i < |a| :: a[i].id == b[i].id && p(a[i]) == p(b[i])
    ensures IdsWhere(a, p) == IdsWhere(b, p)
  {
    if |a| > 0 {
      SameIdsWhere(a[..|a| - 1], b[..|b| - 1], p);
    }
  }

  /** References resolve alike among objects of the same ids and names. */
  lemma ResolveSame(show: Json -> string, a: seq<Object>, b: seq<Object>, j: Json)
    requires NamesOf(a) == NamesOf(b)
    ensures Resolve(show, a, j) == Resolve(show, b, j)
  {
    SameIds(a, b);
    var ref := Text(show, j);
    forall i | 0 <= i < |a|
      ensures a[i].id == b[i].id && Named(ref)(a[i]) == Named(ref)(b[i]) && Mentions(ref)(a[i]) == Mentions(ref)(b[i])
    {
      SameAt(a, b, i);
    }
    SameIdsWhere(a, b, Named(ref));
    SameIdsWhere(a, b, Mentions(ref));
  }

  function ResolveIn(show: Json -> string, names: Names, j: Json): Option<string> { Resolve(show, Stubs(names), j) }

  lemma ResolvesIn(show: Json -> string, os: seq<Object>, j: Json)
    ensures ResolveIn(show, NamesOf(os), j) == Resolve(show, os, j)
  {
    StubsNamed(NamesOf(os));
    ResolveSame(show, Stubs(NamesOf(os)), os, j);
  }

  /** So a step stumbles alike. */
  lemma StumblesIn(t: Tools, step: Step, os: seq<Object>)
    ensures Stumbles(t, step, Stubs(NamesOf(os))) <==> Stumbles(t, step, os)
  {
    ResolvesIn(t.show, os, Get(step.args, "relative_to"));
    ResolvesIn(t.show, os, Get(step.args, "id"));
  }

  // ---- the names a step leaves

  /** The id an added object gets: the one given, stripped, or the next number. */
  function IdFor(show: Json -> string, names: Names, args: Args): string {
    Strip(TextOr(show, if Truthy(Get(args, "id")) then Get(args, "id") else Str(NextId(Stubs(names)))))
  }

  function AddedTo(t: Tools, names: Names, args: Args): Names {
    names + [Entry(IdFor(t.show, names, args), NameFrom(t.show, Get(args, "label")))]
  }

  function Without(names: Names, id: string): Names {
    if |names| == 0 then []
    else Without(names[..|names| - 1], id) + if names[|names| - 1].id == id then [] else [names[|names| - 1]]
  }

  function Relabelled(names: Names, id: string, name: Option<string>): Names {
    seq(|names|, (i: nat) requires i < |names| => if names[i].id == id then Entry(id, name) else names[i])
  }

  /** The ids and names after a step that succeeds. */
  function NamesAfter(t: Tools, names: Names, step: Step): Names {
    var args := step.args;
    var id := ResolveIn(t.show, names, Get(args, "id"));
    match step.action
    case ObjectAdd => AddedTo(t, names, args)
    case Place => AddedTo(t, names, args)
    case ObjectDelete => if id.None? then names else Without(names, id.value)
    case ObjectUpdate =>
      if id.None? || !Given(args, "label") then names
      else Relabelled(names, id.value, NameFrom(t.show, Get(args, "label")))
    case SceneClear => []
    case _ => names
  }

  // ---- which steps succeed

  predicate ThreeNumbers(j: Json) { j.List? && |j.items| == 3 && forall i | 0 <= i < 3 :: j.items[i].Num? }

  /** Sizes or scale factors from which a scale of three numbers comes. */
  predicate GoodScale(t: Tools, args: Args) {
    var dims, scale := Get(args, "dims"), Get(args, "scale");
    && !BadScale(t, args)
    && (!Truthy(dims) && Truthy(scale) ==> |Listed(t.keys, scale).value| == 3)
  }

  predicate FreshId(show: Json -> string, names: Names, args: Args) {
    IdFor(show, names, args) != "" && IdFor(show, names, args) !in Ids(Stubs(names))
  }

  predicate GoodIfTrue(j: Json) { Truthy(j) ==> ThreeNumbers(j) }

  predicate GoodIfGiven(args: Args, key: string) { Given(args, key) ==> ThreeNumbers(Get(args, key)) }

  predicate GoodBuild(t: Tools, names: Names, args: Args) {
    Buildable(args) && GoodScale(t, args) && GoodIfTrue(Get(args, "rotation")) && FreshId(t.show, names, args)
  }

  predicate GoodPlace(t: Tools, names: Names, args: Args) {
    ResolveIn(t.show, names, Get(args, "relative_to")).Some? && PlaceArgsOk(t, args) && GoodBuild(t, names, args)
  }

  predicate GoodUpdate(t: Tools, args: Args) {
    && SizesWellShaped(args) && ChangesSomething(args)
    && (if Truthy(Get(args, "dims")) then !BadScale(t, args) else GoodIfGiven(args, "scale"))
    && GoodIfGiven(args, "position") && GoodIfGiven(args, "rotation")
    && (Given(args, "shape") ==> InKeys(Get(args, "shape"), SHAPES))
    && (Given(args, "semantic") ==> InKeys(Get(args, "semantic"), SEMANTICS))
  }

  predicate GoodFov(args: Args) { Given(args, "fov") ==> IsFov(Get(args, "fov")) }

  predicate GoodView(t: Tools, names: Names, args: Args) {
    && GoodFov(args)
    && if Truthy(Get(args, "preset")) then
         && InKeys(Get(args, "preset"), CAMERA_PRESETS)
         && (Truthy(Get(args, "target_id")) ==> ResolveIn(t.show, names, Get(args, "target_id")).Some?)
       else
         && (Given(args, "position") || Given(args, "target") || Given(args, "fov"))
         && GoodIfGiven(args, "position") && GoodIfGiven(args, "target")
  }

  predicate GoodTargets(t: Tools, names: Names, args: Args) {
    && names != [] && TargetsOf(t, args).Some?
    && (forall k | 0 <= k < |TargetsOf(t, args).value| :: ResolveIn(t.show, names, TargetsOf(t, args).value[k]).Some?)
    && t.float(if "margin" in args then args["margin"] else Num(0.12)).Some?
  }

  predicate GoodPair(t: Tools, names: Names, args: Args) {
    ResolveIn(t.show, names, Get(args, "a")).Some? && ResolveIn(t.show, names, Get(args, "b")).Some?
  }

  /** The step succeeds in every scene with these ids and names. */
  predicate Passes(t: Tools, names: Names, step: Step) {
    var args := step.args;
    match step.action
    case ObjectAdd => GoodBuild(t, names, args) && GoodIfTrue(Get(args, "position"))
    case Place => GoodPlace(t, names, args)
    case ObjectUpdate => ResolveIn(t.show, names, Get(args, "id")).Some? && GoodUpdate(t, args)
    case ObjectDelete => ResolveIn(t.show, names, Get(args, "id")).Some?
    case SceneClear => true
    case Move =>
      && ResolveIn(t.show, names, Get(args, "id")).Some?
      && InKeys(Get(args, "direction"), DIRECTIONS) && t.float(DistanceOf(args, 0.5)).Some?
    case CameraSet => GoodView(t, names, args)
    case CameraFrame => GoodTargets(t, names, args)
    case Measure => GoodPair(t, names, args)
    case Validate => true
  }

  // ---- what cleaning refuses

  predicate GoodVec(j: Json) { j.Null? || ThreeNumbers(j) }

  lemma AsVec3Iff(j: Json, field: string, default: Vec3)
    ensures AsVec3(j, field, default).1 == [] <==> GoodVec(j)
  {
    if j.List? && |j.items| == 3 {
      var e0, e1 := NumberAt(j.items[0], field, 0).1, NumberAt(j.items[1], field, 1).1;
      var e2 := NumberAt(j.items[2], field, 2).1;
      assert e0 + e1 + e2 == [] <==> e0 == [] && e1 == [] && e2 == [];
    }
  }

  predicate GoodFields(show: Json -> string, f: Args, seen: set<string>) {
    var id := Strip(TextOr(show, Get(f, "id")));
    && id != "" && id !in seen && InKeys(Get(f, "shape"), SHAPES) && InKeys(Get(f, "semantic"), SEMANTICS)
    && GoodVec(Get(f, "position")) && GoodVec(Get(f, "rotation")) && GoodVec(Get(f, "scale"))
  }

  function EntryFrom(show: Json -> string, f: Args): Entry {
    Entry(Strip(TextOr(show, Get(f, "id"))), NameFrom(show, Get(f, "label")))
  }

  /** A submitted object is kept exactly when its fields are good. */
  lemma CleanIff(show: Json -> string, f: Args, index: nat, seen: set<string>)
    ensures var d := CleanObject(show, Dict(f), index, seen);
            && (d.errors == [] <==> GoodFields(show, f, seen))
            && (d.errors == [] ==> d.found.Some? && EntryOf(d.found.value) == EntryFrom(show, f))
  {
    var id := Strip(TextOr(show, Get(f, "id")));
    AsVec3Iff(Get(f, "position"), id + ".position", ORIGIN);
    AsVec3Iff(Get(f, "rotation"), id + ".rotation", ORIGIN);
    AsVec3Iff(Get(f, "scale"), id + ".scale", ONES);
    var e0 := AsVec3(Get(f, "position"), id + ".position", ORIGIN).1;
    var e1 := AsVec3(Get(f, "rotation"), id + ".rotation", ORIGIN).1;
    var e2 := AsVec3(Get(f, "scale"), id + ".scale", ONES).1;
    assert e0 + e1 + e2 == [] <==> e0 == [] && e1 == [] && e2 == [];
  }

  // ---- adding and placing

  lemma IdSetIs(os: seq<Object>, id: string)
    ensures id in IdSet(os) <==> id in Ids(os)
  {
    if id in IdSet(os) {
      var i :| 0 <= i < |os| && os[i].id == id;
      assert Ids(os)[i] == id;
    }
  }

  lemma NamesAppend(os: seq<Object>, o: Object)
    ensures NamesOf(os + [o]) == NamesOf(os) + [EntryOf(o)]
  {
  }

  /** One more object is kept exactly when its fields are good. */
  lemma OneMoreSettles(show: Json -> string, s: Scene, f: Args)
    requires WellFormed(s)
    ensures var o := Settle(show, Puts(WithOneMore(s, f)), s);
            && (o.Changed? <==> GoodFields(show, f, IdSet(s.objects)))
            && (o.Changed? ==> NamesOf(o.scene.objects) == NamesOf(s.objects) + [EntryFrom(show, f)])
  {
    var raws := ObjectsJson(s.objects);
    PutObjects(show, s, raws + [Dict(f)]);
    CleanObjectsAgain(show, s.objects);
    CleanSnoc(show, raws, Dict(f));
    CleanIff(show, f, |raws|, IdSet(s.objects));
    var d := CleanObject(show, Dict(f), |raws|, IdSet(s.objects));
    assert [] + d.errors == d.errors;
    if d.errors == [] {
      NamesAppend(s.objects, d.found.value);
    }
  }

  lemma ListedNumbers(t: Tools, j: Json)
    requires Listed(t.keys, j).Some?
    ensures ThreeNumbers(List(Listed(t.keys, j).value)) <==> ThreeNumbers(j)
  {
    var items := Listed(t.keys, j).value;
    if !j.List? && |items| == 3 {
      assert items[0].Str?;
    }
  }

  lemma ListOrNumbers(t: Tools, j: Json)
    requires ListOr(t, j, ORIGIN).Some?
    ensures ThreeNumbers(List(ListOr(t, j, ORIGIN).value)) <==> GoodIfTrue(j)
  {
    if Truthy(j) {
      ListedNumbers(t, j);
    } else {
      assert Listed(t.keys, VecJson(ORIGIN)).value == VecJson(ORIGIN).items;
    }
  }

  lemma ScaleNumbers(t: Tools, args: Args, shape: string, semantic: string)
    requires SizesWellShaped(args) && ScaleFor(t, args, shape, semantic).Some?
    ensures ThreeNumbers(Numbers(ScaleFor(t, args, shape, semantic).value)) <==> GoodScale(t, args)
  {
    ScaleNone(t, args, shape, semantic);
    var xs := ScaleFor(t, args, shape, semantic).value;
    assert |Numbers(xs).items| == |xs| && forall i | 0 <= i < |xs| :: Numbers(xs).items[i].Num?;
    if !Truthy(Get(args, "dims")) && Truthy(Get(args, "scale")) {
      FloatsLength(t, Listed(t.keys, Get(args, "scale")).value);
    }
  }

  /** The fields of a built object are good exactly when the arguments are. */
  lemma BuiltGoodIff(t: Tools, args: Args, os: seq<Object>, position: Json, f: Args)
    requires ShowLaw(t.show) && BuildObject(t, args, os, position) == Built(f)
    ensures GoodFields(t.show, f, IdSet(os)) <==> GoodBuild(t, NamesOf(os), args) && GoodIfTrue(position)
    ensures EntryFrom(t.show, f) == Entry(IdFor(t.show, NamesOf(os), args), NameFrom(t.show, Get(args, "label")))
  {
    BuiltVectors(t, args, os, position, f);
    BuiltScale(t, args, os, position, f);
    BuiltEntry(t, args, os, position, f);
    IdSetIs(os, IdFor(t.show, NamesOf(os), args));
  }

  lemma BuiltVectors(t: Tools, args: Args, os: seq<Object>, position: Json, f: Args)
    requires BuildObject(t, args, os, position) == Built(f)
    ensures GoodVec(Get(f, "rotation")) <==> GoodIfTrue(Get(args, "rotation"))
    ensures GoodVec(Get(f, "position")) <==> GoodIfTrue(position)
  {
    assert Get(f, "rotation") == List(ListOr(t, Get(args, "rotation"), ORIGIN).value);
    assert Get(f, "position") == List(ListOr(t, position, ORIGIN).value);
    ListOrNumbers(t, Get(args, "rotation"));
    ListOrNumbers(t, position);
  }

  lemma BuiltScale(t: Tools, args: Args, os: seq<Object>, position: Json, f: Args)
    requires BuildObject(t, args, os, position) == Built(f)
    ensures Buildable(args) && InKeys(Get(f, "shape"), SHAPES) && InKeys(Get(f, "semantic"), SEMANTICS)
    ensures GoodVec(Get(f, "scale")) <==> GoodScale(t, args)
  {
    var semantic := Get(args, "semantic");
    var shape := if Truthy(Get(args, "shape")) then Get(args, "shape") else Str(DefaultShape(semantic.s));
    assert Get(f, "shape") == shape && Get(f, "scale") == Numbers(ScaleFor(t, args, shape.s, semantic.s).value);
    ScaleNumbers(t, args, shape.s, semantic.s);
  }

  lemma BuiltEntry(t: Tools, args: Args, os: seq<Object>, position: Json, f: Args)
    requires ShowLaw(t.show) && BuildObject(t, args, os, position) == Built(f)
    ensures EntryFrom(t.show, f) == Entry(IdFor(t.show, NamesOf(os), args), NameFrom(t.show, Get(args, "label")))
    ensures Ids(Stubs(NamesOf(os))) == Ids(os)
  {
    BuiltFields(t, args, os, position);
    StubsNamed(NamesOf(os));
    SameIds(Stubs(NamesOf(os)), os);
  }

  /** Good arguments build. */
  lemma GoodBuilds(t: Tools, names: Names, args: Args, os: seq<Object>, position: Json)
    requires GoodBuild(t, names, args) && GoodIfTrue(position)
    ensures BuildObject(t, args, os, position).Built? && !BadBody(t, args)
  {
    BuildRaisesIff(t, args, os, position);
  }

  lemma AddPasses(t: Tools, step: Step, s: Scene)
    requires ShowLaw(t.show) && WellFormed(s) && step.action.ObjectAdd?
    ensures SettlesAs(t, step, s)
  {
    AddForetold(t, step.args, s, AddObject(t, step.args, s));
    AddTold(t, NamesOf(s.objects), step, s);
  }

  lemma AddTold(t: Tools, names: Names, step: Step, s: Scene)
    requires step.action.ObjectAdd?
    ensures Submit(t, step, s) == AddObject(t, step.args, s)
            && NamesAfter(t, names, step) == AddedTo(t, names, step.args)
    ensures Passes(t, names, step) == (GoodBuild(t, names, step.args) && GoodIfTrue(Get(step.args, "position")))
  {
  }

  lemma AddForetold(t: Tools, args: Args, s: Scene, sub: Submission)
    requires ShowLaw(t.show) && WellFormed(s) && sub == AddObject(t, args, s)
    ensures var names := NamesOf(s.objects);
            Foretold(Settle(t.show, sub, s), s,
                     GoodBuild(t, names, args) && GoodIfTrue(Get(args, "position")), AddedTo(t, names, args))
  {
    var names, position := NamesOf(s.objects), Get(args, "position");
    if GoodBuild(t, names, args) && GoodIfTrue(position) {
      GoodBuilds(t, names, args, s.objects, position);
    }
    var b := BuildObject(t, args, s.objects, position);
    if b.Built? {
      BuiltGoodIff(t, args, s.objects, position, b.fields);
      OneMoreSettles(t.show, s, b.fields);
    } else {
      UnputFails(t.show, sub, s);
    }
  }

  /** An outcome that succeeds exactly if it was to, and then leaves the ids and names it was to. */
  ghost predicate Foretold(o: Outcome, s: Scene, passes: bool, after: Names) {
    && (o.Changed? || o.Looked? <==> passes)
    && (passes ==> NamesOf(if o.Changed? then o.scene.objects else s.objects) == after)
  }

  ghost predicate SettlesAs(t: Tools, step: Step, s: Scene) {
    var names := NamesOf(s.objects);
    Foretold(Perform(t, step, s), s, Passes(t, names, step), NamesAfter(t, names, step))
  }

  lemma Settled(t: Tools, step: Step, s: Scene, sub: Submission, passes: bool, after: Names)
    requires Submit(t, step, s) == sub && Foretold(Settle(t.show, sub, s), s, passes, after)
    requires Passes(t, NamesOf(s.objects), step) == passes && NamesAfter(t, NamesOf(s.objects), step) == after
    ensures SettlesAs(t, step, s)
  {
  }

  lemma PlacedFields(show: Json -> string, f: Args, p: Vec3, seen: set<string>)
    requires GoodVec(Get(f, "position"))
    ensures var g := f["position" := VecJson(p)];
            (GoodFields(show, g, seen) <==> GoodFields(show, f, seen)) && EntryFrom(show, g) == EntryFrom(show, f)
  {
    var g := f["position" := VecJson(p)];
    assert ThreeNumbers(VecJson(p));
    assert Get(g, "id") == Get(f, "id") && Get(g, "shape") == Get(f, "shape")
           && Get(g, "semantic") == Get(f, "semantic");
    assert Get(g, "rotation") == Get(f, "rotation") && Get(g, "scale") == Get(f, "scale")
           && Get(g, "label") == Get(f, "label");
  }

  /** When placing gets as far as a write, and what it writes. */
  lemma PlacePutsIff(t: Tools, args: Args, s: Scene)
    ensures var ref := Resolve(t.show, s.objects, Get(args, "relative_to"));
            var b := BuildObject(t, args, s.objects, VecJson(ORIGIN));
            && (PlaceNext(t, args, s).Puts? <==> ref.Some? && PlaceArgsOk(t, args) && b.Built? && !BadBody(t, args))
            && !PlaceNext(t, args, s).Looks?
            && (PlaceNext(t, args, s).Puts? ==>
                  PlaceNext(t, args, s)
                  == Puts(WithOneMore(s, b.fields["position" := VecJson(t.place(s, ref.value, b.fields, args))])))
  {
    if BuildObject(t, args, s.objects, VecJson(ORIGIN)).Built? {
      MeasurableIff(t, args, s.objects, VecJson(ORIGIN));
    }
  }

  lemma PlacePasses(t: Tools, step: Step, s: Scene)
    requires ShowLaw(t.show) && WellFormed(s) && step.action.Place?
    ensures SettlesAs(t, step, s)
  {
    var names, args, sub := NamesOf(s.objects), step.args, PlaceNext(t, step.args, s);
    PlaceForetold(t, args, s, sub);
    PlaceTold(t, names, step, s);
    Settled(t, step, s, sub, GoodPlace(t, names, args), AddedTo(t, names, args));
  }

  lemma PlaceTold(t: Tools, names: Names, step: Step, s: Scene)
    requires step.action.Place?
    ensures Submit(t, step, s) == PlaceNext(t, step.args, s)
    ensures NamesAfter(t, names, step) == AddedTo(t, names, step.args)
    ensures Passes(t, names, step) == GoodPlace(t, names, step.args)
  {
    PlaceSubmits(t, step, s);
    PlaceNames(t, names, step);
    PlaceGood(t, names, step);
  }

  lemma PlaceSubmits(t: Tools, step: Step, s: Scene)
    requires step.action.Place?
    ensures Submit(t, step, s) == PlaceNext(t, step.args, s)
  {
  }

  lemma PlaceNames(t: Tools, names: Names, step: Step)
    requires step.action.Place?
    ensures NamesAfter(t, names, step) == AddedTo(t, names, step.args)
  {
  }

  lemma PlaceGood(t: Tools, names: Names, step: Step)
    requires step.action.Place?
    ensures Passes(t, names, step) == GoodPlace(t, names, step.args)
  {
  }

  lemma PlaceForetold(t: Tools, args: Args, s: Scene, sub: Submission)
    requires ShowLaw(t.show) && WellFormed(s) && sub == PlaceNext(t, args, s)
    ensures var names := NamesOf(s.objects);
            Foretold(Settle(t.show, sub, s), s, GoodPlace(t, names, args), AddedTo(t, names, args))
  {
    ResolvesIn(t.show, s.objects, Get(args, "relative_to"));
    PlacePutsIff(t, args, s);
    assert ThreeNumbers(VecJson(ORIGIN));
    if GoodBuild(t, NamesOf(s.objects), args) {
      GoodBuilds(t, NamesOf(s.objects), args, s.objects, VecJson(ORIGIN));
    }
    if sub.Puts? {
      PutPlaced(t, args, s, sub);
    } else {
      UnputFails(t.show, sub, s);
    }
  }

  lemma PutPlaced(t: Tools, args: Args, s: Scene, sub: Submission)
    requires ShowLaw(t.show) && WellFormed(s) && sub == PlaceNext(t, args, s) && sub.Puts?
    ensures var o := Settle(t.show, sub, s);
            && (o.Changed? <==> GoodBuild(t, NamesOf(s.objects), args))
            && (o.Changed? ==> NamesOf(o.scene.objects) == AddedTo(t, NamesOf(s.objects), args))
  {
    PlacePutsIff(t, args, s);
    var b := BuildObject(t, args, s.objects, VecJson(ORIGIN));
    var p := t.place(s, Resolve(t.show, s.objects, Get(args, "relative_to")).value, b.fields, args);
    assert ThreeNumbers(VecJson(ORIGIN));
    BuiltGoodIff(t, args, s.objects, VecJson(ORIGIN), b.fields);
    PlacedSettles(t, args, s, b.fields, p);
  }

  lemma PlacedSettles(t: Tools, args: Args, s: Scene, f: Args, p: Vec3)
    requires WellFormed(s) && BuildObject(t, args, s.objects, VecJson(ORIGIN)) == Built(f)
    ensures var o := Settle(t.show, Puts(WithOneMore(s, f["position" := VecJson(p)])), s);
            && (o.Changed? <==> GoodFields(t.show, f, IdSet(s.objects)))
            && (o.Changed? ==> NamesOf(o.scene.objects) == NamesOf(s.objects) + [EntryFrom(t.show, f)])
  {
    assert ThreeNumbers(VecJson(ORIGIN));
    BuiltVectors(t, args, s.objects, VecJson(ORIGIN), f);
    PlacedFields(t.show, f, p, IdSet(s.objects));
    OneMoreSettles(t.show, s, f["position" := VecJson(p)]);
  }

  // ---- updating

  /** Cleaning objects of which one was replaced, under its own id. */
  lemma CleanReplaced(show: Json -> string, os: seq<Object>, k: nat, f: Args)
    requires Legal(os) && DistinctIds(os) && k < |os| && Get(f, "id") == Str(os[k].id)
    ensures var c := CleanObjects(show, ObjectsJson(os)[k := Dict(f)]);
            var d := CleanObject(show, Dict(f), k, IdSet(os[..k]));
            c.errors == d.errors && (d.errors == [] ==> d.found.Some? && c.objects == os[k := d.found.value])
  {
    var front, last, rest := os[..k], os[k], os[k + 1..];
    var raws := ObjectsJson(front) + [Dict(f)];
    ReplacedFits(os, k);
    CleanObjectsAgain(show, front);
    ReplacedLast(show, front, last, f);
    CleaningKeeps(show);
    RestKept(CleaningBy(show), raws, CleanObjects(show, raws), rest);
    RawsReplaced(os, k, f);
    var d := CleanObject(show, Dict(f), k, IdSet(front));
    if d.errors == [] {
      OneReplaced(os, k, d.found.value);
    }
  }

  lemma RawsReplaced(os: seq<Object>, k: nat, f: Args)
    requires k < |os|
    ensures ObjectsJson(os)[k := Dict(f)] == ObjectsJson(os[..k]) + [Dict(f)] + ObjectsJson(os[k + 1..])
  {
  }

  lemma OneReplaced(os: seq<Object>, k: nat, o: Object)
    requires k < |os|
    ensures os[k := o] == os[..k] + [o] + os[k + 1..]
  {
  }

  /** The id replaced is not before it, and the ids after it are not among those up to it. */
  lemma ReplacedFits(os: seq<Object>, k: nat)
    requires Legal(os) && DistinctIds(os) && k < |os|
    ensures Legal(os[..k]) && DistinctIds(os[..k]) && LegalObject(os[k]) && os[k].id !in IdSet(os[..k])
    ensures Legal(os[k + 1..]) && DistinctIds(os[k + 1..]) && IdSet(os[k + 1..]) !! IdSet(os[..k]) + {os[k].id}
  {
  }

  type Cleaning = seq<Json> -> CleanedObjects

  function CleaningBy(show: Json -> string): Cleaning { (raws: seq<Json>) => CleanObjects(show, raws) }

  function WithOne(c: CleanedObjects, o: Object): CleanedObjects {
    CleanedObjects(c.objects + [o], c.errors, c.seen + {o.id})
  }

  /** Legal objects under new ids are kept as they are. */
  ghost predicate KeepsLegal(clean: Cleaning) {
    forall raws: seq<Json>, o: Object {:trigger clean(raws + [ObjectJson(o)])}
      | LegalObject(o) && o.id !in clean(raws).seen :: clean(raws + [ObjectJson(o)]) == WithOne(clean(raws), o)
  }

  lemma CleaningKeeps(show: Json -> string)
    ensures KeepsLegal(CleaningBy(show))
  {
    forall raws: seq<Json>, o: Object | LegalObject(o) && o.id !in CleaningBy(show)(raws).seen
      ensures CleaningBy(show)(raws + [ObjectJson(o)]) == WithOne(CleaningBy(show)(raws), o)
    {
      KeptLast(show, raws, CleanObjects(show, raws), o);
    }
  }

  lemma {:induction false} RestKept(clean: Cleaning, raws: seq<Json>, c: CleanedObjects, rest: seq<Object>)
    requires KeepsLegal(clean) && c == clean(raws) && Legal(rest) && DistinctIds(rest) && IdSet(rest) !! c.seen
    ensures clean(raws + ObjectsJson(rest)) == CleanedObjects(c.objects + rest, c.errors, c.seen + IdSet(rest))
  {
    if |rest| == 0 {
      assert raws + ObjectsJson(rest) == raws && c.objects + rest == c.objects && c.seen + IdSet(rest) == c.seen;
    } else {
      var n := |rest| - 1;
      var front, last := rest[..n], rest[n];
      IdSetSnoc(rest, n);
      RestKept(clean, raws, c, front);
      ObjectsJsonSnoc(front, last);
      assert raws + ObjectsJson(rest) == raws + ObjectsJson(front) + [ObjectJson(last)];
      assert c.objects + front + [last] == c.objects + rest;
    }
  }

  lemma ReplacedLast(show: Json -> string, front: seq<Object>, last: Object, f: Args)
    requires CleanObjects(show, ObjectsJson(front)) == CleanedObjects(front, [], IdSet(front))
    requires LegalObject(last) && last.id !in IdSet(front) && Get(f, "id") == Str(last.id)
    ensures var c := CleanObjects(show, ObjectsJson(front) + [Dict(f)]);
            var d := CleanObject(show, Dict(f), |front|, IdSet(front));
            && c.seen == IdSet(front) + {last.id} && c.errors == d.errors
            && (d.errors == [] ==> d.found.Some? && c.objects == front + [d.found.value])
  {
    CleanSnoc(show, ObjectsJson(front), Dict(f));
    CleanIff(show, f, |front|, IdSet(front));
    StripEnds(last.id);
    var d := CleanObject(show, Dict(f), |front|, IdSet(front));
    assert [] + d.errors == d.errors;
  }

  lemma KeptLast(show: Json -> string, raws: seq<Json>, c: CleanedObjects, last: Object)
    requires c == CleanObjects(show, raws) && LegalObject(last) && last.id !in c.seen
    ensures CleanObjects(show, raws + [ObjectJson(last)])
            == CleanedObjects(c.objects + [last], c.errors, c.seen + {last.id})
  {
    CleanSnoc(show, raws, ObjectJson(last));
    CleanObjectAgain(show, last, |raws|, c.seen);
    assert c.errors + [] == c.errors;
  }

  /** The value a field has after an update. */
  function FieldAfter(t: Tools, args: Args, key: string, before: Json): Json {
    var items := Listed(t.keys, Get(args, key));
    if Given(args, key) && items.Some? then List(items.value) else before
  }

  lemma SetListGets(t: Tools, f: Option<Args>, args: Args, key: string, other: string)
    requires SetList(t, f, args, key).Some?
    ensures f.Some?
    ensures var g := SetList(t, f, args, key).value;
            Get(g, other) == if other == key then FieldAfter(t, args, key, Get(f.value, key)) else Get(f.value, other)
  {
  }

  function RawAfter(args: Args, key: string, before: Json): Json { if Given(args, key) then Get(args, key) else before }

  lemma SetRawGets(f: Option<Args>, args: Args, key: string, other: string)
    requires SetRaw(f, args, key).Some?
    ensures f.Some?
    ensures Get(SetRaw(f, args, key).value, other)
         == if other == key then RawAfter(args, key, Get(f.value, key)) else Get(f.value, other)
  {
  }

  lemma GivenNumbers(t: Tools, args: Args, key: string, before: Json)
    requires ThreeNumbers(before) && !BadList(args, key)
    ensures GoodVec(FieldAfter(t, args, key, before)) <==> GoodIfGiven(args, key)
  {
    if Given(args, key) {
      ListedNumbers(t, Get(args, key));
    }
  }

  lemma ResizedGets(t: Tools, args: Args, o: Object)
    requires Resized(t, args, o).Some?
    ensures var f := Resized(t, args, o).value;
            && Get(f, "position") == VecJson(o.position) && Get(f, "rotation") == VecJson(o.rotation)
            && Get(f, "shape") == Str(o.shape) && Get(f, "semantic") == Str(o.semantic) && ThreeNumbers(Get(f, "scale"))
  {
    ObjectFieldsAre(o);
  }

  /** The vectors after an update are good exactly when those given are. */
  lemma VectorsGoodIff(t: Tools, args: Args, o: Object, f: Args)
    requires Revectored(t, args, o) == Some(f) && SizesWellShaped(args) && !BadUpdate(t, args)
    ensures GoodVec(Get(f, "position")) <==> GoodIfGiven(args, "position")
    ensures GoodVec(Get(f, "rotation")) <==> GoodIfGiven(args, "rotation")
    ensures GoodVec(Get(f, "scale")) <==> Truthy(Get(args, "dims")) || GoodIfGiven(args, "scale")
    ensures Get(f, "shape") == Str(o.shape) && Get(f, "semantic") == Str(o.semantic)
  {
    var f1 := Resized(t, args, o);
    RevectoredGets(t, args, o, f, "position");
    RevectoredGets(t, args, o, f, "rotation");
    RevectoredGets(t, args, o, f, "scale");
    RevectoredGets(t, args, o, f, "shape");
    RevectoredGets(t, args, o, f, "semantic");
    ResizedGets(t, args, o);
    GivenNumbers(t, args, "position", VecJson(o.position));
    GivenNumbers(t, args, "rotation", VecJson(o.rotation));
    if !Truthy(Get(args, "dims")) {
      GivenNumbers(t, args, "scale", Get(f1.value, "scale"));
    }
  }

  lemma RevectoredGets(t: Tools, args: Args, o: Object, f: Args, key: string)
    requires Revectored(t, args, o) == Some(f)
    ensures Resized(t, args, o).Some?
    ensures var before := Get(Resized(t, args, o).value, key);
            Get(f, key) == if key == "position" || key == "rotation" || (key == "scale" && !Truthy(Get(args, "dims")))
                           then FieldAfter(t, args, key, before) else before
  {
    var f1 := Resized(t, args, o);
    var f2 := SetList(t, f1, args, "position");
    var f3 := SetList(t, f2, args, "rotation");
    if !Truthy(Get(args, "dims")) {
      SetListGets(t, f3, args, "scale", key);
    }
    SetListGets(t, f2, args, "rotation", key);
    SetListGets(t, f1, args, "position", key);
  }

  lemma UpdatedGets(t: Tools, args: Args, o: Object, f: Args, key: string)
    requires UpdatedFields(t, args, o) == Some(f)
    ensures Revectored(t, args, o).Some?
    ensures var before := Get(Revectored(t, args, o).value, key);
            Get(f, key) == if key in ["shape", "semantic", "label"] then RawAfter(args, key, before) else before
  {
    var f1 := Revectored(t, args, o);
    var f2 := SetRaw(f1, args, "shape");
    SetRawGets(SetRaw(f2, args, "semantic"), args, "label", key);
    SetRawGets(f2, args, "semantic", key);
    SetRawGets(f1, args, "shape", key);
  }

  lemma UpdatedVectors(t: Tools, args: Args, o: Object, f: Args, g: Args)
    requires UpdatedFields(t, args, o) == Some(f) && Revectored(t, args, o) == Some(g)
    ensures Get(f, "position") == Get(g, "position") && Get(f, "rotation") == Get(g, "rotation")
            && Get(f, "scale") == Get(g, "scale")
    ensures Get(f, "shape") == RawAfter(args, "shape", Get(g, "shape"))
    ensures Get(f, "semantic") == RawAfter(args, "semantic", Get(g, "semantic"))
  {
    UpdatedGets(t, args, o, f, "position");
    UpdatedGets(t, args, o, f, "rotation");
    UpdatedGets(t, args, o, f, "scale");
    UpdatedGets(t, args, o, f, "shape");
    UpdatedGets(t, args, o, f, "semantic");
  }

  /** The fields of an updated object are good exactly when the arguments are. */
  lemma UpdatedGoodIff(t: Tools, args: Args, o: Object, f: Args, seen: set<string>)
    requires LegalObject(o) && o.id !in seen && UpdatedFields(t, args, o) == Some(f)
    requires SizesWellShaped(args) && ChangesSomething(args)
    ensures GoodFields(t.show, f, seen) <==> GoodUpdate(t, args)
  {
    UpdatedNone(t, args, o);
    UpdatedKeeps(t, args, o);
    StripEnds(o.id);
    UpdatedGets(t, args, o, f, "shape");
    var g := Revectored(t, args, o).value;
    UpdatedVectors(t, args, o, f, g);
    VectorsGoodIff(t, args, o, g);
  }

  lemma UpdatedEntry(t: Tools, args: Args, o: Object, f: Args)
    requires LegalObject(o) && UpdatedFields(t, args, o) == Some(f)
    ensures EntryFrom(t.show, f)
         == Entry(o.id, if Given(args, "label") then NameFrom(t.show, Get(args, "label")) else o.name)
  {
    UpdatedKeeps(t, args, o);
    StripEnds(o.id);
    UpdatedGets(t, args, o, f, "label");
  }

  lemma NamesReplaced(os: seq<Object>, k: nat, o: Object)
    requires DistinctIds(os) && k < |os| && o.id == os[k].id
    ensures NamesOf(os[k := o]) == Relabelled(NamesOf(os), os[k].id, o.name)
    ensures o.name == os[k].name ==> NamesOf(os[k := o]) == NamesOf(os)
  {
  }

  lemma UpdatePasses(t: Tools, step: Step, s: Scene)
    requires WellFormed(s) && step.action.ObjectUpdate?
    ensures SettlesAs(t, step, s)
  {
    var args := step.args;
    ResolvesIn(t.show, s.objects, Get(args, "id"));
    var id := Resolve(t.show, s.objects, Get(args, "id"));
    if id.Some? {
      ResolvedIndex(t.show, s.objects, Get(args, "id"));
      UpdateSettles(t, args, s, id.value, IndexOf(s.objects, id.value));
    }
    assert Perform(t, step, s) == Settle(t.show, Update(t, args, s), s);
  }

  lemma UpdateSettles(t: Tools, args: Args, s: Scene, id: string, k: nat)
    requires WellFormed(s) && Resolve(t.show, s.objects, Get(args, "id")) == Some(id)
    requires k == IndexOf(s.objects, id) < |s.objects|
    ensures var o, names := Settle(t.show, Update(t, args, s), s), NamesOf(s.objects);
            && !o.Looked? && (o.Changed? <==> GoodUpdate(t, args))
            && (o.Changed? ==> NamesOf(o.scene.objects)
                               == if !Given(args, "label") then names
                                  else Relabelled(names, id, NameFrom(t.show, Get(args, "label"))))
  {
    if SizesWellShaped(args) {
      UpdatedNone(t, args, s.objects[k]);
    }
    if Update(t, args, s).Puts? {
      var f := UpdatedFields(t, args, s.objects[k]).value;
      PutUpdated(t, args, s, k, f);
    }
  }

  lemma PutUpdated(t: Tools, args: Args, s: Scene, k: nat, f: Args)
    requires WellFormed(s) && k < |s.objects| && UpdatedFields(t, args, s.objects[k]) == Some(f)
    requires SizesWellShaped(args) && ChangesSomething(args)
    ensures var o, names := Settle(t.show, Puts(PutAt(s, k, f)), s), NamesOf(s.objects);
            && !o.Looked? && (o.Changed? <==> GoodUpdate(t, args))
            && (o.Changed? ==> NamesOf(o.scene.objects)
                               == if !Given(args, "label") then names
                                  else Relabelled(names, s.objects[k].id, NameFrom(t.show, Get(args, "label"))))
  {
    var os, seen := s.objects, IdSet(s.objects[..k]);
    assert os[k].id !in seen by { assert forall i | 0 <= i < k :: os[..k][i] == os[i]; }
    UpdatedKeeps(t, args, os[k]);
    UpdatedGoodIff(t, args, os[k], f, seen);
    UpdatedEntry(t, args, os[k], f);
    PutObjects(t.show, s, ObjectsJson(os)[k := Dict(f)]);
    CleanReplaced(t.show, os, k, f);
    CleanIff(t.show, f, k, seen);
    var d := CleanObject(t.show, Dict(f), k, seen);
    if d.errors == [] {
      NamesReplaced(os, k, d.found.value);
    }
  }

  // ---- moving, deleting, clearing

  lemma MovePasses(t: Tools, step: Step, s: Scene)
    requires WellFormed(s) && step.action.Move?
    ensures SettlesAs(t, step, s)
  {
    ResolvesIn(t.show, s.objects, Get(step.args, "id"));
    MoveForetold(t, step.args, s, MoveBy(t, step.args, s));
  }

  lemma MoveForetold(t: Tools, args: Args, s: Scene, sub: Submission)
    requires WellFormed(s) && sub == MoveBy(t, args, s)
    ensures Foretold(Settle(t.show, sub, s), s,
                     && Resolve(t.show, s.objects, Get(args, "id")).Some?
                     && InKeys(Get(args, "direction"), DIRECTIONS) && t.float(DistanceOf(args, 0.5)).Some?,
                     NamesOf(s.objects))
  {
    var id := Resolve(t.show, s.objects, Get(args, "id"));
    if id.Some? {
      ResolvedIndex(t.show, s.objects, Get(args, "id"));
      if sub.Puts? {
        PutMoved(t, s, IndexOf(s.objects, id.value), t.move(s, id.value, args));
      }
    }
    if !sub.Puts? {
      UnputFails(t.show, sub, s);
    }
  }

  lemma UnputFails(show: Json -> string, sub: Submission, s: Scene)
    requires sub.Raises? || sub.Fails?
    ensures !Settle(show, sub, s).Changed? && !Settle(show, sub, s).Looked?
  {
  }

  lemma PutMoved(t: Tools, s: Scene, k: nat, p: Vec3)
    requires WellFormed(s) && k < |s.objects|
    ensures var o := Settle(t.show, Puts(PutAt(s, k, ObjectFields(s.objects[k])["position" := VecJson(p)])), s);
            o.Changed? && NamesOf(o.scene.objects) == NamesOf(s.objects)
  {
    var os, moved := s.objects, s.objects[k].(position := p);
    MovedFields(os[k], p);
    assert ObjectsJson(os)[k := ObjectJson(moved)] == ObjectsJson(os[k := moved]);
    CleanObjectsAgain(t.show, os[k := moved]);
    PutObjects(t.show, s, ObjectsJson(os[k := moved]));
    NamesReplaced(os, k, moved);
  }

  lemma {:induction false} NamesWithout(os: seq<Object>, id: string)
    ensures NamesOf(Others(os, id)) == Without(NamesOf(os), id)
  {
    if |os| > 0 {
      var front, last := os[..|os| - 1], os[|os| - 1];
      NamesWithout(front, id);
      assert NamesOf(os)[..|os| - 1] == NamesOf(front) && NamesOf(os)[|os| - 1] == EntryOf(last);
      if last.id != id {
        NamesAppend(Others(front, id), last);
      }
    }
  }

  lemma DeletePasses(t: Tools, step: Step, s: Scene)
    requires WellFormed(s) && step.action.ObjectDelete?
    ensures SettlesAs(t, step, s)
  {
    ResolvesIn(t.show, s.objects, Get(step.args, "id"));
    var id := Resolve(t.show, s.objects, Get(step.args, "id"));
    if id.Some? {
      DeleteDeletes(t, step.args, s, id.value);
      NamesWithout(s.objects, id.value);
    }
  }

  lemma ClearPasses(t: Tools, step: Step, s: Scene)
    requires WellFormed(s) && step.action.SceneClear?
    ensures SettlesAs(t, step, s)
  {
    ClearClears(t, s);
  }

  // ---- the camera

  predicate GoodCamera(camera: Args) {
    && IsFov(if "fov" in camera then camera["fov"] else Num(40.0))
    && GoodVec(Get(camera, "position")) && GoodVec(Get(camera, "target"))
  }

  lemma CameraSettles(show: Json -> string, s: Scene, camera: Args)
    requires WellFormed(s)
    ensures var o := Settle(show, Puts(WithCamera(s, camera)), s);
            !o.Looked? && (o.Changed? <==> GoodCamera(camera))
            && (o.Changed? ==> NamesOf(o.scene.objects) == NamesOf(s.objects))
  {
    var c := CleanCamera(camera);
    AsVec3Iff(Get(camera, "position"), "camera.position", Vec3(6.0, 4.0, 8.0));
    AsVec3Iff(Get(camera, "target"), "camera.target", Vec3(0.0, 0.8, 0.0));
    var e0 := AsVec3(Get(camera, "position"), "camera.position", Vec3(6.0, 4.0, 8.0)).1;
    var e1 := AsVec3(Get(camera, "target"), "camera.target", Vec3(0.0, 0.8, 0.0)).1;
    assert [] + c.1 + [] + (e0 + e1) == [] <==> c.1 == [] && e0 == [] && e1 == [];
    CleanWithCamera(show, s, camera);
    SettledScene(show, WithCamera(s, camera), s, Rebuilt(s, c.0, s.objects), [] + c.1 + [] + c.2);
  }

  lemma FovAfter(f: Args, args: Args)
    requires "fov" in f && IsFov(f["fov"])
    ensures var g := WithFov(f, args);
            && "fov" in g && (IsFov(g["fov"]) <==> GoodFov(args))
            && Get(g, "position") == Get(f, "position") && Get(g, "target") == Get(f, "target")
  {
  }

  lemma PosedIsGood(v: View, pose: Pose, args: Args)
    requires 5.0 <= v.fov <= 120.0
    ensures GoodCamera(WithFov(Posed(v, pose), args)) <==> GoodFov(args)
    ensures GoodCamera(Posed(v, pose))
  {
    var f := Posed(v, pose);
    assert f["fov"] == Num(v.fov) && Get(f, "position") == VecJson(pose.position)
           && Get(f, "target") == VecJson(pose.target);
    assert ThreeNumbers(VecJson(pose.position)) && ThreeNumbers(VecJson(pose.target));
    FovAfter(f, args);
  }

  lemma SetIsGood(t: Tools, v: View, args: Args)
    requires 5.0 <= v.fov <= 120.0 && !BadList(args, "position") && !BadList(args, "target")
    ensures var f := SetList(t, SetList(t, Some(CameraFields(v)), args, "position"), args, "target");
            && f.Some?
            && (GoodCamera(WithFov(f.value, args)) <==>
                  GoodFov(args) && GoodIfGiven(args, "position") && GoodIfGiven(args, "target"))
  {
    var f0 := Some(CameraFields(v));
    var f1 := SetList(t, f0, args, "position");
    var f2 := SetList(t, f1, args, "target");
    assert ThreeNumbers(VecJson(v.position)) && ThreeNumbers(VecJson(v.target));
    SetListGets(t, f0, args, "position", "position");
    SetListGets(t, f0, args, "position", "target");
    SetListGets(t, f0, args, "position", "fov");
    SetListGets(t, f1, args, "target", "position");
    SetListGets(t, f1, args, "target", "target");
    SetListGets(t, f1, args, "target", "fov");
    GivenNumbers(t, args, "position", VecJson(v.position));
    GivenNumbers(t, args, "target", VecJson(v.target));
    FovAfter(f2.value, args);
  }

  lemma CameraSetPasses(t: Tools, step: Step, s: Scene)
    requires WellFormed(s) && step.action.CameraSet?
    ensures SettlesAs(t, step, s)
  {
    var args, sub := step.args, SetCamera(t, step.args, s);
    if Truthy(Get(args, "preset")) {
      PresetForetold(t, args, s, sub);
    } else {
      ViewForetold(t, args, s, sub);
    }
    CameraTold(t, NamesOf(s.objects), step, s);
    Settled(t, step, s, sub, GoodView(t, NamesOf(s.objects), args), NamesOf(s.objects));
  }

  lemma CameraTold(t: Tools, names: Names, step: Step, s: Scene)
    requires step.action.CameraSet? || step.action.CameraFrame?
    ensures Submit(t, step, s)
         == if step.action.CameraSet? then SetCamera(t, step.args, s) else FrameCamera(t, step.args, s)
    ensures NamesAfter(t, names, step) == names
    ensures Passes(t, names, step)
         == if step.action.CameraSet? then GoodView(t, names, step.args) else GoodTargets(t, names, step.args)
  {
  }

  lemma PresetForetold(t: Tools, args: Args, s: Scene, sub: Submission)
    requires WellFormed(s) && sub == SetCamera(t, args, s) && Truthy(Get(args, "preset"))
    ensures Foretold(Settle(t.show, sub, s), s, GoodView(t, NamesOf(s.objects), args), NamesOf(s.objects))
  {
    ResolvesIn(t.show, s.objects, Get(args, "target_id"));
    if sub.Puts? {
      PosedIsGood(s.camera, t.preset(s, args), args);
      CameraSettles(t.show, s, WithFov(Posed(s.camera, t.preset(s, args)), args));
    } else {
      UnputFails(t.show, sub, s);
    }
  }

  lemma ViewForetold(t: Tools, args: Args, s: Scene, sub: Submission)
    requires WellFormed(s) && sub == SetCamera(t, args, s) && !Truthy(Get(args, "preset"))
    ensures Foretold(Settle(t.show, sub, s), s, GoodView(t, NamesOf(s.objects), args), NamesOf(s.objects))
  {
    CameraRaisesIff(t, args, s);
    if sub.Puts? {
      SetIsGood(t, s.camera, args);
      var f := SetList(t, SetList(t, Some(CameraFields(s.camera)), args, "position"), args, "target");
      CameraSettles(t.show, s, WithFov(f.value, args));
    } else {
      UnputFails(t.show, sub, s);
    }
  }

  lemma CameraFramePasses(t: Tools, step: Step, s: Scene)
    requires WellFormed(s) && step.action.CameraFrame?
    ensures SettlesAs(t, step, s)
  {
    var args, sub := step.args, FrameCamera(t, step.args, s);
    FrameForetold(t, args, s, sub);
    CameraTold(t, NamesOf(s.objects), step, s);
    Settled(t, step, s, sub, GoodTargets(t, NamesOf(s.objects), args), NamesOf(s.objects));
  }

  lemma FrameForetold(t: Tools, args: Args, s: Scene, sub: Submission)
    requires WellFormed(s) && sub == FrameCamera(t, args, s)
    ensures Foretold(Settle(t.show, sub, s), s, GoodTargets(t, NamesOf(s.objects), args), NamesOf(s.objects))
  {
    FramesIff(t, args, s);
    if sub.Puts? {
      PosedIsGood(s.camera, t.frame(s, args), args);
      CameraSettles(t.show, s, Posed(s.camera, t.frame(s, args)));
    } else {
      UnputFails(t.show, sub, s);
    }
  }

  lemma FramesIff(t: Tools, args: Args, s: Scene)
    ensures FrameCamera(t, args, s).Puts? <==> GoodTargets(t, NamesOf(s.objects), args)
    ensures !FrameCamera(t, args, s).Looks?
  {
    assert |NamesOf(s.objects)| == |s.objects|;
    if TargetsOf(t, args).Some? {
      forall k | 0 <= k < |TargetsOf(t, args).value|
        ensures ResolveIn(t.show, NamesOf(s.objects), TargetsOf(t, args).value[k])
             == Resolve(t.show, s.objects, TargetsOf(t, args).value[k])
      {
        ResolvesIn(t.show, s.objects, TargetsOf(t, args).value[k]);
      }
    }
  }

  lemma LookPasses(t: Tools, step: Step, s: Scene)
    requires step.action.Measure? || step.action.Validate?
    ensures SettlesAs(t, step, s)
  {
    var names := NamesOf(s.objects);
    LookTold(t, names, step, s);
    var sub := if step.action.Measure? then MeasureTwo(t, step.args, s) else Looks;
    MeasureIff(t, step.args, s);
    LookForetold(t.show, sub, s);
    Settled(t, step, s, sub, sub.Looks?, names);
  }

  lemma LookTold(t: Tools, names: Names, step: Step, s: Scene)
    requires step.action.Measure? || step.action.Validate?
    ensures Submit(t, step, s) == if step.action.Measure? then MeasureTwo(t, step.args, s) else Looks
    ensures NamesAfter(t, names, step) == names
    ensures Passes(t, names, step) == (step.action.Measure? ==> GoodPair(t, names, step.args))
  {
  }

  lemma MeasureIff(t: Tools, args: Args, s: Scene)
    ensures MeasureTwo(t, args, s) == if GoodPair(t, NamesOf(s.objects), args) then Looks else Fails
  {
    ResolvesIn(t.show, s.objects, Get(args, "a"));
    ResolvesIn(t.show, s.objects, Get(args, "b"));
  }

  lemma LookForetold(show: Json -> string, sub: Submission, s: Scene)
    requires sub.Fails? || sub.Looks?
    ensures Foretold(Settle(show, sub, s), s, sub.Looks?, NamesOf(s.objects))
  {
  }

  /** Every step: whether it succeeds, and which ids and names it leaves, follows from its arguments
      and the ids and names in the scene; no geometry decides. */
  lemma StepForeseen(t: Tools, step: Step, s: Scene)
    requires ShowLaw(t.show) && WellFormed(s)
    ensures SettlesAs(t, step, s)
  {
    match step.action
    case ObjectAdd => AddPasses(t, step, s);
    case Place => PlacePasses(t, step, s);
    case ObjectUpdate => UpdatePasses(t, step, s);
    case ObjectDelete => DeletePasses(t, step, s);
    case SceneClear => ClearPasses(t, step, s);
    case Move => MovePasses(t, step, s);
    case CameraSet => CameraSetPasses(t, step, s);
    case CameraFrame => CameraFramePasses(t, step, s);
    case Measure => LookPasses(t, step, s);
    case Validate => LookPasses(t, step, s);
  }
}
