/**
 Where the promises of `do_instruct` and `validate_plan` (`recipe.py`) end: exactly when a run is
 not all-or-nothing, and what becomes of accepted references that do not resolve.
 */
module PlanFailures {
  import opened Options
  import opened Documents
  import opened Scenes
  import opened References
  import opened Edits
  import opened EditEffects
  import opened RaisingSteps
  import opened Foresight
  import opened Plans
  import opened PlanRuns
  import opened Instructions
  import opened PlanForesight

  // ---- all or nothing

  ghost predicate AllOrNothing(do: Doing, steps: seq<Step>, s: Scene) {
    Execute(do, steps, s).Going? || Left(do, steps, s) == s
  }

  predicate WritesBefore(steps: seq<Step>, n: nat) { exists j | 0 <= j < n && j < |steps| :: Mutates(steps[j].action) }

  lemma {:induction false} MutatingPositive(steps: seq<Step>, n: nat)
    requires n <= |steps|
    ensures Mutating(steps[..n]) > 0 <==> WritesBefore(steps, n)
  {
    if n > 0 {
      MutatingPositive(steps, n - 1);
      assert steps[..n][..n - 1] == steps[..n - 1];
    }
  }

  /** The steps before `k` succeed, one of them writes, and step `k` raises. */
  ghost predicate BreaksAt(do: Doing, steps: seq<Step>, s: Scene, k: nat) {
    && k < |steps| && WritesBefore(steps, k)
    && Execute(do, steps[..k], s).Going? && do(steps[k], Execute(do, steps[..k], s).scene).Broke?
  }

  lemma BreakingIff(do: Doing, steps: seq<Step>, s: Scene)
    requires Counts(do) && WellFormed(s)
    ensures AllOrNothing(do, steps, s) <==> forall k :: !BreaksAt(do, steps, s, k)
  {
    ExecuteCounts(do, steps, s);
    var p := Execute(do, steps, s);
    if p.Halted? {
      HaltedAt(do, steps, s);
      MutatingPositive(steps, p.at);
      assert p.raised && WritesBefore(steps, p.at) ==> BreaksAt(do, steps, s, p.at);
    }
    forall k: nat | BreaksAt(do, steps, s, k)
      ensures p.Halted? && p.raised && p.at == k
    {
      HaltsThere(do, steps, s, k, Execute(do, steps[..k], s).scene);
    }
  }

  /** Told from the ids and names before the run and from the plan: the steps before `k` pass, one of
      them writes, and step `k` stumbles. */
  predicate EscapesAt(t: Tools, names: Names, steps: seq<Step>, k: nat) {
    && k < |steps| && WritesBefore(steps, k) && AllPass(PassesBy(t), AfterBy(t), names, steps[..k])
    && Stumbles(t, steps[k], Stubs(NamesAt(AfterBy(t), names, steps[..k])))
  }

  lemma BreaksIffEscapes(t: Tools, steps: seq<Step>, s: Scene, k: nat)
    requires ShowLaw(t.show) && WellFormed(s)
    ensures BreaksAt(DoneBy(t), steps, s, k) <==> EscapesAt(t, NamesOf(s.objects), steps, k)
  {
    if k < |steps| {
      PrefixForeseen(t, steps, s, k);
      var p := Execute(DoneBy(t), steps[..k], s);
      if p.Going? {
        BrokeIff(t, steps[k], p.scene);
        StumblesIn(t, steps[k], p.scene.objects);
      }
    }
  }

  /** A run is all-or-nothing unless some step stumbles after an earlier one has written; and which
      one that is, is known before the run. */
  lemma AllOrNothingIff(t: Tools, steps: seq<Step>, s: Scene)
    requires ShowLaw(t.show) && WellFormed(s)
    ensures AllOrNothing(DoneBy(t), steps, s) <==> forall k :: !EscapesAt(t, NamesOf(s.objects), steps, k)
  {
    ToolsCount(t);
    BreakingIff(DoneBy(t), steps, s);
    forall k: nat ensures BreaksAt(DoneBy(t), steps, s, k) <==> EscapesAt(t, NamesOf(s.objects), steps, k) {
      BreaksIffEscapes(t, steps, s, k);
    }
  }

  /** A plan whose arguments can be read and measured with is all-or-nothing on every scene. */
  lemma ReadablePlanIsAllOrNothing(t: Tools, steps: seq<Step>, s: Scene)
    requires ShowLaw(t.show) && WellFormed(s)
    requires forall k | 0 <= k < |steps| :: !Unreadable(t, steps[k])
    ensures AllOrNothing(DoneBy(t), steps, s)
  {
    AllOrNothingIff(t, steps, s);
  }

  /** A step with unreadable arguments that is reached after a write, ready to read them, leaves the
      plan half applied. */
  lemma UnreadableStepEscapes(t: Tools, steps: seq<Step>, s: Scene, k: nat, x: Scene)
    requires ShowLaw(t.show) && WellFormed(s) && k < |steps| && WritesBefore(steps, k)
    requires Execute(DoneBy(t), steps[..k], s) == Going(x) && Unreadable(t, steps[k]) && Ready(t, steps[k], x.objects)
    ensures !AllOrNothing(DoneBy(t), steps, s) && Left(DoneBy(t), steps, s) == x
  {
    ToolsCount(t);
    BreakingIff(DoneBy(t), steps, s);
    ExecuteCounts(DoneBy(t), steps[..k], s);
    BrokeIff(t, steps[k], x);
    assert BreaksAt(DoneBy(t), steps, s, k);
    HaltsThere(DoneBy(t), steps, s, k, x);
  }

  /** In an accepted plan without deletes, clears, explicit ids or label updates, and with distinct
      names in play, every step is ready: there unreadable arguments after a write always do so. */
  lemma AcceptedUnreadableEscapes(t: Tools, steps: seq<Step>, scenes: seq<Scene>, k: nat)
    requires k < |steps| && ShowLaw(t.show) && IsExecution(DoneBy(t), steps[..k], scenes) && WellFormed(scenes[0])
    requires AllCalm(steps) && Acceptable(t, scenes[0], steps)
    requires NoRepeat(Labels(scenes[0].objects) + NewLabels(t.show, steps))
    requires WritesBefore(steps, k) && Unreadable(t, steps[k])
    ensures !AllOrNothing(DoneBy(t), steps, scenes[0]) && Left(DoneBy(t), steps, scenes[0]) == scenes[k]
  {
    ExecutesTo(DoneBy(t), steps[..k], scenes);
    AcceptedIsReady(t, steps, scenes, k);
    UnreadableStepEscapes(t, steps, scenes[0], k, scenes[k]);
  }

  lemma AcceptedIsReady(t: Tools, steps: seq<Step>, scenes: seq<Scene>, k: nat)
    requires k < |steps| && ShowLaw(t.show) && IsExecution(DoneBy(t), steps[..k], scenes) && WellFormed(scenes[0])
    requires AllCalm(steps) && Acceptable(t, scenes[0], steps)
    requires NoRepeat(Labels(scenes[0].objects) + NewLabels(t.show, steps))
    requires Unreadable(t, steps[k])
    ensures Ready(t, steps[k], scenes[k].objects)
  {
    var args := steps[k].args;
    AcceptedCheckable(t, scenes[0], steps, k);
    match steps[k].action
    case Place => AcceptedResolves(t, steps, scenes, k, Get(args, "relative_to"));
    case ObjectUpdate => AcceptedResolves(t, steps, scenes, k, Get(args, "id"));
    case _ =>
  }

  lemma AcceptedCheckable(t: Tools, s: Scene, steps: seq<Step>, k: nat)
    requires k < |steps| && Acceptable(t, s, steps)
    ensures RefsOf(t, steps[k]).Some? && (steps[k].action.CameraFrame? ==> !Unreadable(t, steps[k]))
  {
    assert StepOk(t, ScopeAt(t.show, s, steps[..k]), steps[k]);
  }

  const WIPE := Step(SceneClear, map[])

  /** A prop with a scale that is not a number. */
  const BADSCALE := Step(ObjectAdd, map["semantic" := Str("prop"), "scale" := List([Str("x")])])

  lemma BadScaleRaises(t: Tools, s: Scene)
    requires t.float(Str("x")) == None
    ensures Perform(t, BADSCALE, s) == Broke
  {
    var args := BADSCALE.args;
    assert SEMANTICS[7] == "prop" && SHAPES[0] == "box";
    assert Get(args, "semantic") == Str("prop") && "prop" in SEMANTICS && "box" in SHAPES;
    assert Get(args, "scale") == List([Str("x")]) && Get(args, "shape") == Null && Get(args, "dims") == Null;
    assert [Str("x")][..0] == [];
    assert ScaleFor(t, args, "box", "prop") == None;
  }

  /** Any scene is lost to this accepted plan: it clears the scene, then a step raises, and the
      roll-back is never reached. */
  lemma RaisingStepEscapes(t: Tools, s: Scene)
    requires ShowLaw(t.show) && WellFormed(s) && t.float(Str("x")) == None
    ensures Acceptable(t, s, [WIPE, BADSCALE])
    ensures Execute(DoneBy(t), [WIPE, BADSCALE], s) == Halted(Holding(s, []), 1, true)
    ensures Left(DoneBy(t), [WIPE, BADSCALE], s) == Holding(s, []) && !AllOrNothing(DoneBy(t), [WIPE, BADSCALE], s)
  {
    EscapeAccepted(t, s);
    ClearClears(t, s);
    BadScaleRaises(t, Holding(s, []));
    assert DoneBy(t)(WIPE, s) == Changed(Holding(s, [])) && DoneBy(t)(BADSCALE, Holding(s, [])) == Broke;
    WipeThenRaise(DoneBy(t), s, Holding(s, []));
  }

  lemma EscapeAccepted(t: Tools, s: Scene)
    ensures Acceptable(t, s, [WIPE, BADSCALE])
  {
    var steps := [WIPE, BADSCALE];
    assert SEMANTICS[7] == "prop";
    assert Get(BADSCALE.args, "semantic") == Str("prop") && Get(BADSCALE.args, "shape") == Null;
    assert forall sc :: StepOk(t, sc, WIPE) && StepOk(t, sc, BADSCALE);
  }

  lemma WipeThenRaise(do: Doing, s: Scene, wiped: Scene)
    requires do(WIPE, s) == Changed(wiped) && do(BADSCALE, wiped) == Broke
    ensures Execute(do, [WIPE, BADSCALE], s) == Halted(wiped, 1, true)
  {
    var steps := [WIPE, BADSCALE];
    assert steps[..1] == [WIPE] && [WIPE][..0] == [];
    assert Execute(do, [], s) == Going(s);
    assert Execute(do, [WIPE], s) == Going(wiped);
  }

  const ZOOM := Step(CameraSet, map["fov" := Num(50.0)])

  /** A prop placed with a rotation of one number. */
  function Turned(ref: string): Step {
    Step(Place, map["semantic" := Str("prop"), "relative_to" := Str(ref), "direction" := Str("right"),
                    "rotation" := List([Num(90.0)])])
  }

  /** Nor is it reached here: the camera is set, and then the object to be placed cannot be measured,
      which no check looks at. */
  lemma TurnedPlaceEscapes(t: Tools, s: Scene, id: string)
    requires ShowLaw(t.show) && WellFormed(s) && id in Ids(s.objects) && t.float(Num(1.0)) == Some(1.0)
    ensures Acceptable(t, s, [ZOOM, Turned(id)]) && !AllOrNothing(DoneBy(t), [ZOOM, Turned(id)], s)
  {
    var steps, names := [ZOOM, Turned(id)], NamesOf(s.objects);
    TurnedAccepted(t, s, id, steps);
    ZoomPasses(t, names, steps);
    StubsNamed(names);
    SameIds(Stubs(names), s.objects);
    IdNotEmpty(s, id);
    TurnedStumbles(t, names, id);
    assert EscapesAt(t, names, steps, 1);
    AllOrNothingIff(t, steps, s);
  }

  lemma TurnedAccepted(t: Tools, s: Scene, id: string, steps: seq<Step>)
    requires id in Ids(s.objects) && t.float(Num(1.0)) == Some(1.0) && steps == [ZOOM, Turned(id)]
    ensures Acceptable(t, s, steps)
  {
    var i :| 0 <= i < |Ids(s.objects)| && Ids(s.objects)[i] == id;
    assert s.objects[i].id == id && id in Refs(s.objects);
    ZoomOk(t, Opening(s));
    TurnedOk(t, Opening(s), id);
    assert steps[..0] == [] && steps[..1] == [ZOOM] && [ZOOM][..0] == [];
    assert ScopeAt(t.show, s, []) == Opening(s) && ScopeAt(t.show, s, [ZOOM]) == Opening(s);
  }

  lemma ZoomOk(t: Tools, sc: Scope)
    ensures StepOk(t, sc, ZOOM) && Advance(t.show, sc, ZOOM) == sc
  {
  }

  lemma TurnedOk(t: Tools, sc: Scope, id: string)
    requires id in sc.live && t.float(Num(1.0)) == Some(1.0)
    ensures StepOk(t, sc, Turned(id))
  {
    var args := Turned(id).args;
    assert Get(args, "semantic") == Str("prop") && Get(args, "relative_to") == Str(id);
    assert Get(args, "direction") == Str("right") && DistanceOf(args, 1.0) == Num(1.0);
    assert SEMANTICS[7] == "prop" && DIRECTIONS[3] == "right";
  }

  lemma ZoomPasses(t: Tools, names: Names, steps: seq<Step>)
    requires |steps| == 2 && steps[0] == ZOOM
    ensures AllPass(PassesBy(t), AfterBy(t), names, steps[..1]) && NamesAt(AfterBy(t), names, steps[..1]) == names
    ensures WritesBefore(steps, 1)
  {
    assert steps[..1] == [ZOOM] && [ZOOM][..0] == [];
    assert Passes(t, names, ZOOM) && NamesAfter(t, names, ZOOM) == names;
    assert NamesAt(AfterBy(t), names, []) == names;
  }

  lemma TurnedStumbles(t: Tools, names: Names, id: string)
    requires id in Ids(Stubs(names)) && id != "" && t.float(Num(1.0)) == Some(1.0)
    ensures Stumbles(t, Turned(id), Stubs(names))
  {
    var args := Turned(id).args;
    assert Get(args, "rotation") == List([Num(90.0)]) && Get(args, "semantic") == Str("prop");
    assert Get(args, "shape") == Null && Get(args, "dims") == Null && Get(args, "direction") == Str("right");
    assert SEMANTICS[7] == "prop" && DIRECTIONS[3] == "right" && SHAPES[0] == "box"
           && DistanceOf(args, 1.0) == Num(1.0);
    assert Get(args, "relative_to") == Str(id);
  }

  // ---- references that do not resolve

  /** The references a step itself resolves. */
  function RefsUsed(t: Tools, step: Step): seq<Json> {
    var args := step.args;
    match step.action
    case Place => [Get(args, "relative_to")]
    case ObjectUpdate => [Get(args, "id")]
    case ObjectDelete => [Get(args, "id")]
    case Move => [Get(args, "id")]
    case CameraSet =>
      if Truthy(Get(args, "preset")) && Truthy(Get(args, "target_id")) then [Get(args, "target_id")] else []
    case CameraFrame => if TargetsOf(t, args).Some? then TargetsOf(t, args).value else []
    case Measure => [Get(args, "a"), Get(args, "b")]
    case _ => []
  }

  lemma UnresolvedFails(t: Tools, step: Step, s: Scene, ref: Json)
    requires ref in RefsUsed(t, step) && Resolve(t.show, s.objects, ref).None?
    ensures Submit(t, step, s).Fails?
  {
    if step.action.CameraFrame? {
      var k :| 0 <= k < |RefsUsed(t, step)| && RefsUsed(t, step)[k] == ref;
    }
  }

  /** No text that can be referred to is empty. */
  lemma {:induction false} LiveTexts(show: Json -> string, s: Scene, steps: seq<Step>)
    requires ShowLaw(show) && WellFormed(s)
    ensures "" !in ScopeAt(show, s, steps).live
  {
    if |steps| == 0 {
      RefsTexts(s);
    } else {
      LiveTexts(show, s, steps[..|steps| - 1]);
      AdvanceTexts(show, ScopeAt(show, s, steps[..|steps| - 1]), steps[|steps| - 1]);
    }
  }

  lemma RefsTexts(s: Scene)
    requires WellFormed(s)
    ensures "" !in Refs(s.objects)
  {
    assert forall i | 0 <= i < |s.objects| :: LegalObject(s.objects[i]);
  }

  lemma AdvanceTexts(show: Json -> string, sc: Scope, step: Step)
    requires ShowLaw(show) && "" !in sc.live
    ensures "" !in Advance(show, sc, step).live
  {
    IdRoundTrip(sc.counter + 1);
  }

  /** Exactly when a reference accepted for a step resolves in the scene that step runs on, after
      any deletes, clears, explicit ids and label updates before it: when, among the ids and names
      that the plan makes of those at the start, it is an id, or the name of exactly one object, or
      no object's name and within exactly one. */
  lemma AcceptedResolvesIff(t: Tools, steps: seq<Step>, scenes: seq<Scene>, k: nat, ref: Json)
    requires k < |steps| && IsExecution(DoneBy(t), steps[..k], scenes)
    requires ShowLaw(t.show) && WellFormed(scenes[0]) && Acceptable(t, scenes[0], steps)
    requires RefsOf(t, steps[k]).Some? && ref in RefsOf(t, steps[k]).value
    ensures ref.Str?
    ensures Resolve(t.show, scenes[k].objects, ref).Some? <==>
            Resolvable(Stubs(NamesAt(AfterBy(t), NamesOf(scenes[0].objects), steps[..k])), ref.s)
  {
    AcceptedRef(t, scenes[0], steps, k, ref);
    LiveTexts(t.show, scenes[0], steps[..k]);
    ExecutionForeseen(t, steps[..k], scenes);
    var names := NamesAt(AfterBy(t), NamesOf(scenes[0].objects), steps[..k]);
    ResolvesIn(t.show, scenes[k].objects, ref);
    ResolvesIff(t.show, Stubs(names), ref);
  }

  /** A plan whose steps pass up to one that uses a reference unresolvable there is rolled back. */
  lemma UnresolvableRollsBack(t: Tools, steps: seq<Step>, s: Scene, k: nat, ref: Json)
    requires ShowLaw(t.show) && WellFormed(s) && k < |steps| && ref in RefsUsed(t, steps[k]) && ref.Str?
    requires AllPass(PassesBy(t), AfterBy(t), NamesOf(s.objects), steps[..k])
    requires !Resolvable(Stubs(NamesAt(AfterBy(t), NamesOf(s.objects), steps[..k])), ref.s)
    ensures var p := Execute(DoneBy(t), steps, s); p == Halted(p.scene, k, false) && Left(DoneBy(t), steps, s) == s
  {
    PrefixForeseen(t, steps, s, k);
    var now := Execute(DoneBy(t), steps[..k], s).scene;
    ResolvesIn(t.show, now.objects, ref);
    ResolvesIff(t.show, Stubs(NamesOf(now.objects)), ref);
    UnresolvedHalts(t, steps, s, k, now, ref);
  }

  lemma UnresolvedHalts(t: Tools, steps: seq<Step>, s: Scene, k: nat, now: Scene, ref: Json)
    requires k < |steps| && Execute(DoneBy(t), steps[..k], s) == Going(now)
    requires ref in RefsUsed(t, steps[k]) && Resolve(t.show, now.objects, ref).None?
    ensures Execute(DoneBy(t), steps, s) == Halted(now, k, false) && Left(DoneBy(t), steps, s) == s
  {
    UnresolvedFails(t, steps[k], now, ref);
    assert DoneBy(t)(steps[k], now).Failed?;
    HaltsThere(DoneBy(t), steps, s, k, now);
  }

  /** A name two objects share is accepted as a reference but does not resolve. */
  lemma SharedNameAccepted(t: Tools, s: Scene, i: nat, j: nat, name: string)
    requires i < j < |s.objects| && s.objects[i].name == s.objects[j].name == Some(name) && name !in Ids(s.objects)
    ensures StepOk(t, Opening(s), DeleteOf(name))
    ensures Resolve(t.show, s.objects, Str(name)) == None && Perform(t, DeleteOf(name), s) == Failed
  {
    IdsWhereTwo(s.objects, Named(name), i, j);
  }

  /** After a delete by id, the name of the deleted object is still accepted as a reference. Unless
      it occurs in another name, it does not resolve any more: the run halts at the second step and
      is rolled back. */
  lemma DeletedNameAccepted(t: Tools, s: Scene, i: nat, name: string)
    requires ShowLaw(t.show) && WellFormed(s) && i < |s.objects| && s.objects[i].name == Some(name)
    requires name !in Ids(s.objects)
    requires forall j | 0 <= j < |s.objects| && j != i :: !Within(name, NameOf(s.objects[j]))
    ensures var steps := [DeleteOf(s.objects[i].id), DeleteOf(name)];
            && Acceptable(t, s, steps)
            && Execute(DoneBy(t), steps, s) == Halted(Holding(s, Others(s.objects, s.objects[i].id)), 1, false)
            && Left(DoneBy(t), steps, s) == s
  {
    var id, steps := s.objects[i].id, [DeleteOf(s.objects[i].id), DeleteOf(name)];
    assert Ids(s.objects)[i] == id;
    DeleteTwiceAccepted(t, s, i, name);
    FirstDeleteDone(t, s, id, steps);
    NameGone(s, i, name);
    var now := Holding(s, Others(s.objects, id));
    ResolvesIff(t.show, now.objects, Str(name));
    UnresolvedHalts(t, steps, s, 1, now, Str(name));
  }

  function DeleteOf(ref: string): Step { Step(ObjectDelete, map["id" := Str(ref)]) }

  lemma FirstDeleteDone(t: Tools, s: Scene, id: string, steps: seq<Step>)
    requires ShowLaw(t.show) && WellFormed(s) && id in Ids(s.objects) && |steps| > 1 && steps[0] == DeleteOf(id)
    ensures Execute(DoneBy(t), steps[..1], s) == Going(Holding(s, Others(s.objects, id)))
  {
    IdNotEmpty(s, id);
    assert Resolve(t.show, s.objects, Str(id)) == Some(id);
    DeleteDeletes(t, DeleteOf(id).args, s, id);
    assert DoneBy(t)(steps[0], s) == Changed(Holding(s, Others(s.objects, id)));
    assert steps[..1][..0] == [];
    assert Execute(DoneBy(t), steps[..1][..0], s) == Going(s);
  }

  lemma IdNotEmpty(s: Scene, id: string)
    requires WellFormed(s) && id in Ids(s.objects)
    ensures id != ""
  {
    var i :| 0 <= i < |Ids(s.objects)| && Ids(s.objects)[i] == id;
    assert LegalObject(s.objects[i]);
  }

  lemma NameGone(s: Scene, i: nat, name: string)
    requires WellFormed(s) && i < |s.objects| && s.objects[i].name == Some(name) && name !in Ids(s.objects)
    requires forall j | 0 <= j < |s.objects| && j != i :: !Within(name, NameOf(s.objects[j]))
    ensures !Resolvable(Others(s.objects, s.objects[i].id), name)
  {
    var rest := Others(s.objects, s.objects[i].id);
    OthersLegal(s.objects, s.objects[i].id);
    WithinItself(name);
    forall k | 0 <= k < |rest|
      ensures rest[k].id != name && !Within(name, NameOf(rest[k])) && NameOf(rest[k]) != name
    {
      assert rest[k] in s.objects;
      var j :| 0 <= j < |s.objects| && s.objects[j] == rest[k];
      assert Ids(s.objects)[j] == rest[k].id;
    }
    assert name !in Ids(rest);
  }

  lemma DeleteTwiceAccepted(t: Tools, s: Scene, i: nat, name: string)
    requires i < |s.objects| && s.objects[i].name == Some(name) && name != s.objects[i].id
    ensures Acceptable(t, s, [DeleteOf(s.objects[i].id), DeleteOf(name)])
  {
    var first, second := DeleteOf(s.objects[i].id), DeleteOf(name);
    var steps := [first, second];
    assert steps[..0] == [] && steps[..1] == [first] && [first][..0] == [];
    assert ScopeAt(t.show, s, []) == Opening(s);
    assert StepOk(t, Opening(s), first);
    assert ScopeAt(t.show, s, [first]).live == Refs(s.objects) - {s.objects[i].id};
    assert StepOk(t, ScopeAt(t.show, s, [first]), second);
  }
}
