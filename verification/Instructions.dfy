/**
 The execute-or-roll-back part of `do_instruct` (`recipe.py`): what a run leaves in the file.
 */
module Instructions {
  import opened Options
  import opened Vectors
  import opened Documents
  import opened Scenes
  import opened Edits
  import opened Plans
  import opened PlanRuns

  // ---- grounding

  /** `ground_correct_plan` for one step: a height of half the object's own height was meant as its
      centre, so the object is put on the ground. `height` is the planned height, if known. */
  function Grounded(t: Tools, step: Step, height: Option<real>): Step {
    var pos := Get(step.args, "position");
    if (step.action.ObjectAdd? || step.action.ObjectUpdate?) && ThreeItems(pos) && t.float(pos.items[1]).Some?
       && height.Some?
       && HalfHeight(t.float(pos.items[1]).value, height.value)
    then step.(args := step.args["position" := List([pos.items[0], Num(0.0), pos.items[2]])])
    else step
  }

  predicate HalfHeight(y: real, height: real) {
    Abs(y) >= 0.000000001 && height > 0.0 && Abs(Abs(y) - height / 2.0) <= Max(0.0001, height * 0.01)
  }

  /** Grounding changes the height of a given position to zero, if that is half the object's height up to a
      hundredth of it or a tenth of a millimetre, and nothing else; a second time it changes nothing. */
  lemma GroundedIs(t: Tools, step: Step, height: Option<real>)
    requires t.float(Num(0.0)) == Some(0.0)
    ensures var g, pos := Grounded(t, step, height), Get(step.args, "position");
            && g.action == step.action && (forall key | key != "position" :: Get(g.args, key) == Get(step.args, key))
            && (Get(g.args, "position") != pos <==>
                  && (step.action.ObjectAdd? || step.action.ObjectUpdate?)
                  && pos.List? && |pos.items| == 3 && pos.items[1] != Num(0.0)
                  && t.float(pos.items[1]).Some? && height.Some?
                  && var y, half := Abs(t.float(pos.items[1]).value), height.value / 2.0;
                     && y >= 0.000000001 && half > 0.0
                     && (-0.0001 <= y - half <= 0.0001 || half * 0.98 <= y <= half * 1.02))
            && (Get(g.args, "position") != pos ==> Get(g.args, "position") == List(pos.items[1 := Num(0.0)]))
            && Grounded(t, g, height) == g
  {
  }

  /** Grounding touches nothing that was checked. */
  lemma GroundedStillOk(t: Tools, step: Step, height: Option<real>, sc: Scope)
    ensures var g := Grounded(t, step, height);
            && (StepOk(t, sc, g) <==> StepOk(t, sc, step)) && Advance(t.show, sc, g) == Advance(t.show, sc, step)
            && g.action == step.action && (Calm(g) <==> Calm(step))
  {
    var g := Grounded(t, step, height);
    assert forall key | key != "position" :: Get(g.args, key) == Get(step.args, key);
    assert Given(g.args, "position") == Given(step.args, "position");
    assert "distance" in g.args <==> "distance" in step.args;
    assert RefsOf(t, g) == RefsOf(t, step);
  }

  // ---- execution

  /** Still going, or halted by a step that failed or raised. */
  datatype Progress = Going(scene: Scene) | Halted(scene: Scene, at: nat, raised: bool)

  /** Running the steps one after the other until one does not succeed. */
  function Execute(do: Doing, steps: seq<Step>, s: Scene): Progress {
    if |steps| == 0 then Going(s)
    else
      var front := Execute(do, steps[..|steps| - 1], s);
      if front.Halted? then front else After(front.scene, do(steps[|steps| - 1], front.scene), |steps| - 1)
  }

  /** Where step `k`, on this scene and with this outcome, leaves the run. */
  function After(s: Scene, o: Outcome, k: nat): Progress {
    match o
    case Broke => Halted(s, k, true)
    case Failed => Halted(s, k, false)
    case Looked => Going(s)
    case Changed(next) => Going(next)
  }

  lemma ExecuteNext(do: Doing, steps: seq<Step>, s: Scene, k: nat, x: Scene)
    requires k < |steps| && Execute(do, steps[..k], s) == Going(x)
    ensures Execute(do, steps[..k + 1], s) == After(x, do(steps[k], x), k)
  {
    assert steps[..k + 1][..k] == steps[..k];
  }

  function Mutating(steps: seq<Step>): nat {
    if |steps| == 0 then 0 else Mutating(steps[..|steps| - 1]) + if Mutates(steps[|steps| - 1].action) then 1 else 0
  }

  /** Steps write well-formed scenes, one version on, and do so exactly if their action mutates. */
  ghost predicate Counts(do: Doing) {
    forall step, s {:trigger do(step, s)} | WellFormed(s) ::
      && (do(step, s).Changed? ==>
            && WellFormed(do(step, s).scene) && do(step, s).scene.version == s.version + 1
            && Mutates(step.action))
      && (do(step, s).Looked? ==> !Mutates(step.action))
  }

  lemma ToolsCount(t: Tools)
    requires ShowLaw(t.show)
    ensures Counts(DoneBy(t))
  {
    forall step: Step, s: Scene | WellFormed(s)
      ensures var o := DoneBy(t)(step, s);
              && (o.Changed? ==> WellFormed(o.scene) && o.scene.version == s.version + 1 && Mutates(step.action))
              && (o.Looked? ==> !Mutates(step.action))
    {
      PerformGood(t, step, s);
    }
  }

  lemma OneStepCounts(do: Doing, step: Step, s: Scene, k: nat)
    requires Counts(do) && WellFormed(s)
    ensures var p := After(s, do(step, s), k);
            && WellFormed(p.scene) && (p.Halted? ==> p.scene == s && p.at == k)
            && (p.Going? ==> p.scene.version == s.version + (if Mutates(step.action) then 1 else 0))
            && (p.Going? && !Mutates(step.action) ==> p.scene == s)
  {
  }

  /** However far a run gets, the version counts the mutating steps done. */
  lemma {:induction false} ExecuteCounts(do: Doing, steps: seq<Step>, s: Scene)
    requires Counts(do) && WellFormed(s)
    ensures var p := Execute(do, steps, s);
            && WellFormed(p.scene)
            && (p.Going? ==> p.scene.version == s.version + Mutating(steps))
            && (p.Halted? ==> p.at < |steps| && p.scene.version == s.version + Mutating(steps[..p.at]))
            && (p.Going? && Mutating(steps) == 0 ==> p.scene == s)
            && (p.Halted? && Mutating(steps[..p.at]) == 0 ==> p.scene == s)
  {
    if |steps| > 0 {
      var n := |steps| - 1;
      ExecuteCounts(do, steps[..n], s);
      var p := Execute(do, steps[..n], s);
      if p.Going? {
        OneStepCounts(do, steps[n], p.scene, n);
      } else {
        assert steps[..n][..p.at] == steps[..p.at];
      }
    }
  }

  /** What an instruct run leaves in the file: everything applied; or, when a step failed, what was
      there before; or, when a step raised, whatever had been reached. */
  function Left(do: Doing, steps: seq<Step>, s: Scene): Scene {
    var p := Execute(do, steps, s);
    if p.Halted? && !p.raised then s else p.scene
  }

  lemma LeftCounts(do: Doing, steps: seq<Step>, s: Scene)
    requires Counts(do) && WellFormed(s)
    ensures WellFormed(Left(do, steps, s))
    ensures Execute(do, steps, s).Going? ==> Left(do, steps, s).version == s.version + Mutating(steps)
  {
    ExecuteCounts(do, steps, s);
  }

  // ---- the run on the file

  datatype InstructEnd = Applied | RolledBack(at: nat) | Escaped(at: nat)

  /** `run_plan_step`: one step on the scene in the file. */
  method RunStep(file: SceneFile, t: Tools, step: Step, ghost do: Doing) returns (o: Outcome)
    requires file.Valid() && file.show == t.show && do == DoneBy(t)
    modifies file
    ensures file.Valid() && o == do(step, old(file.scene))
    ensures file.scene == if o.Changed? then o.scene else old(file.scene)
  {
    var scene := file.scene;
    var sub := Submit(t, step, scene);
    match sub
    case Raises => o := Broke;
    case Fails => o := Failed;
    case Looks => o := Looked;
    case Puts(raw) =>
      var r := file.Persist(raw, scene);
      o := match r { case Crashed => Broke case Refused(_) => Failed case Kept => Changed(file.scene) };
  }

  /** The loop over the steps: it stops at the first one that does not succeed. */
  method RunSteps(file: SceneFile, t: Tools, steps: seq<Step>, ghost do: Doing) returns (r: InstructEnd)
    requires file.Valid() && file.show == t.show && do == DoneBy(t)
    modifies file
    ensures file.Valid()
    ensures match Execute(do, steps, old(file.scene)) {
              case Going(s) => r == Applied && file.scene == s
              case Halted(s, at, raised) => r == (if raised then Escaped(at) else RolledBack(at)) && file.scene == s
            }
  {
    ghost var start := file.scene;
    for k := 0 to |steps|
      invariant file.Valid() && Execute(do, steps[..k], start) == Going(file.scene)
    {
      ExecuteNext(do, steps, start, k, file.scene);
      var o := RunStep(file, t, steps[k], do);
      if o.Broke? || o.Failed? {
        StaysHalted(do, steps, start, k + 1);
        return if o.Broke? then Escaped(k) else RolledBack(k);
      }
    }
    assert steps[..|steps|] == steps;
    return Applied;
  }

  /** The execute-or-roll-back part of `do_instruct`. */
  method Instruct(file: SceneFile, t: Tools, steps: seq<Step>) returns (r: InstructEnd)
    requires file.Valid() && file.show == t.show
    modifies file
    ensures file.Valid() && file.scene == Left(DoneBy(t), steps, old(file.scene))
    ensures r == match Execute(DoneBy(t), steps, old(file.scene)) {
                   case Going(_) => Applied
                   case Halted(_, at, raised) => if raised then Escaped(at) else RolledBack(at)
                 }
    ensures r.Applied? ==> file.scene.version == old(file.scene).version + Mutating(steps)
    ensures r.RolledBack? ==> file.scene == old(file.scene)
  {
    var rollback := file.scene;
    ghost var do := DoneBy(t);
    ToolsCount(t);
    LeftCounts(do, steps, rollback);
    r := RunSteps(file, t, steps, do);
    if r.RolledBack? {
      file.scene := rollback;
    }
  }

  lemma {:induction false} StaysHalted(do: Doing, steps: seq<Step>, s: Scene, k: nat)
    requires k <= |steps| && Execute(do, steps[..k], s).Halted?
    ensures Execute(do, steps, s) == Execute(do, steps[..k], s)
  {
    if k == |steps| {
      assert steps[..k] == steps;
    } else {
      assert steps[..|steps| - 1][..k] == steps[..k];
      StaysHalted(do, steps[..|steps| - 1], s, k);
    }
  }

  // ---- every reachable scene

  /** What can be asked of a scene: a page write, one action, or a whole plan. */
  datatype Request = PutScene(raw: Json) | Act(step: Step) | RunPlan(steps: seq<Step>)

  function Served(t: Tools, r: Request, s: Scene): Scene {
    match r
    case PutScene(raw) =>
      var c := CleanScene(t.show, raw, s);
      if c.Cleaned? && c.errors == [] then c.scene else s
    case Act(step) => var o := DoneBy(t)(step, s); if o.Changed? then o.scene else s
    case RunPlan(steps) => Left(DoneBy(t), steps, s)
  }

  function ServedAll(t: Tools, rs: seq<Request>, s: Scene): Scene {
    if |rs| == 0 then s else Served(t, rs[|rs| - 1], ServedAll(t, rs[..|rs| - 1], s))
  }

  lemma ServedWellFormed(t: Tools, r: Request, s: Scene)
    requires ShowLaw(t.show) && WellFormed(s)
    ensures WellFormed(Served(t, r, s))
  {
    ToolsCount(t);
    match r
    case PutScene(raw) => CleanSceneGood(t.show, raw, s);
    case Act(_) =>
    case RunPlan(steps) => ExecuteCounts(DoneBy(t), steps, s);
  }

  /** Whatever is asked, in whatever order, and whatever of it fails or raises, every scene reached
      from a new project's is well formed. */
  lemma {:induction false} EveryReachableSceneWellFormed(t: Tools, rs: seq<Request>)
    requires ShowLaw(t.show)
    ensures WellFormed(ServedAll(t, rs, EMPTY))
  {
    if |rs| == 0 {
      EmptyIsWellFormed();
    } else {
      EveryReachableSceneWellFormed(t, rs[..|rs| - 1]);
      ServedWellFormed(t, rs[|rs| - 1], ServedAll(t, rs[..|rs| - 1], EMPTY));
    }
  }
}
