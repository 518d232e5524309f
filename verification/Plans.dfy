/**
 `validate_plan` (`recipe.py`): checking a whole plan before any of it runs, by following which
 texts can refer to an object and which number the next object gets.
 */
module Plans {
  import opened Options
  import opened Documents
  import opened Scenes
  import opened References
  import opened Edits

  const MAX_STEPS: nat := 12

  function ActionOf(j: Json): Option<Action> {
    if !j.Str? then None
    else
      match j.s
      case "object_add" => Some(ObjectAdd)
      case "object_update" => Some(ObjectUpdate)
      case "object_delete" => Some(ObjectDelete)
      case "scene_clear" => Some(SceneClear)
      case "place" => Some(Place)
      case "move" => Some(Move)
      case "camera_set" => Some(CameraSet)
      case "camera_frame" => Some(CameraFrame)
      case "measure" => Some(Measure)
      case "validate" => Some(Validate)
      case _ => None
  }

  /** A step of the plan the model gave, with its arguments apart from the action. */
  function Parse(j: Json): Option<Step> {
    if !j.Dict? || ActionOf(Get(j.fields, "action")).None? then None
    else Some(Step(ActionOf(Get(j.fields, "action")).value, j.fields - {"action"}))
  }

  // ---- the scope of a step

  /** The texts that can refer to an object, and the largest object number so far. */
  datatype Scope = Scope(live: set<string>, counter: nat)

  function Refs(os: seq<Object>): set<string> {
    (set i | 0 <= i < |os| :: os[i].id) + (set i | 0 <= i < |os| && os[i].name.Some? :: os[i].name.value)
  }

  function Opening(s: Scene): Scope { Scope(Refs(s.objects), Largest(Ids(s.objects))) }

  predicate Creates(a: Action) { a.ObjectAdd? || a.Place? }

  function LabelSet(show: Json -> string, args: Args): set<string> {
    if Truthy(Get(args, "label")) then {Text(show, Get(args, "label"))} else {}
  }

  /** The effect of a step on what later steps can refer to. */
  function Advance(show: Json -> string, sc: Scope, step: Step): Scope {
    match step.action
    case ObjectAdd => Scope(sc.live + {IdOf(sc.counter + 1)} + LabelSet(show, step.args), sc.counter + 1)
    case Place => Scope(sc.live + {IdOf(sc.counter + 1)} + LabelSet(show, step.args), sc.counter + 1)
    case ObjectDelete => sc.(live := sc.live - (if Get(step.args, "id").Str? then {Get(step.args, "id").s} else {}))
    case ObjectUpdate => sc.(live := sc.live + LabelSet(show, step.args))
    case SceneClear => sc.(live := {})
    case _ => sc
  }

  function ScopeAt(show: Json -> string, s: Scene, steps: seq<Step>): Scope {
    if |steps| == 0 then Opening(s) else Advance(show, ScopeAt(show, s, steps[..|steps| - 1]), steps[|steps| - 1])
  }

  // ---- checking a step

  /** The references a step is checked for: nothing when going through them raises. */
  function RefsOf(t: Tools, step: Step): Option<seq<Json>> {
    match step.action
    case Place => Some([Get(step.args, "relative_to")])
    case ObjectUpdate => Some([Get(step.args, "id")])
    case ObjectDelete => Some([Get(step.args, "id")])
    case Move => Some([Get(step.args, "id")])
    case CameraSet => Some(if Truthy(Get(step.args, "target_id")) then [Get(step.args, "target_id")] else [])
    case CameraFrame =>
      if Truthy(Get(step.args, "targets")) then Listed(t.keys, Get(step.args, "targets")) else Some([])
    case Measure => Some([Get(step.args, "a"), Get(step.args, "b")])
    case _ => Some([])
  }

  predicate Refers(j: Json, live: set<string>) { j.Str? && j.s in live }

  /** Semantic, shape, direction, distance and camera arguments are acceptable. */
  predicate SoundArgs(t: Tools, step: Step) {
    var args := step.args;
    && (Creates(step.action) ==>
          InKeys(Get(args, "semantic"), SEMANTICS) && (Get(args, "shape").Null? || InKeys(Get(args, "shape"), SHAPES)))
    && (step.action.Place? || step.action.Move? ==>
          && InKeys(Get(args, "direction"), DIRECTIONS)
          && t.float(DistanceOf(args, 1.0)).Some? && t.float(DistanceOf(args, 1.0)).value >= 0.0)
    && (step.action.CameraSet? ==>
          if Truthy(Get(args, "preset")) then InKeys(Get(args, "preset"), CAMERA_PRESETS)
          else Given(args, "position") || Given(args, "target") || Given(args, "fov"))
  }

  predicate Checkable(t: Tools, step: Step) {
    RefsOf(t, step).Some? && forall i | 0 <= i < |RefsOf(t, step).value| :: Hashable(RefsOf(t, step).value[i])
  }

  predicate StepOk(t: Tools, sc: Scope, step: Step) {
    && SoundArgs(t, step) && Checkable(t, step)
    && forall i | 0 <= i < |RefsOf(t, step).value| :: Refers(RefsOf(t, step).value[i], sc.live)
  }

  /** What `validate_plan` accepts: a plan of one to twelve steps, each fine in its own scope. */
  ghost predicate Acceptable(t: Tools, s: Scene, steps: seq<Step>) {
    1 <= |steps| <= MAX_STEPS && forall k | 0 <= k < |steps| :: StepOk(t, ScopeAt(t.show, s, steps[..k]), steps[k])
  }

  datatype Verdict = Raising | Rejected(complaints: nat) | Accepted(steps: seq<Step>)

  /** Not a step, an unknown action, bad arguments or a dangling reference. */
  function ComplaintsAbout(t: Tools, sc: Scope, step: Step): nat
    requires Checkable(t, step)
  {
    (if SoundArgs(t, step) then 0 else 1) + Dangling(RefsOf(t, step).value, sc.live)
  }

  function Dangling(refs: seq<Json>, live: set<string>): nat {
    if |refs| == 0 then 0 else Dangling(refs[..|refs| - 1], live) + if Refers(refs[|refs| - 1], live) then 0 else 1
  }

  lemma {:induction false} NoneDangling(refs: seq<Json>, live: set<string>)
    ensures Dangling(refs, live) == 0 <==> forall i | 0 <= i < |refs| :: Refers(refs[i], live)
  {
    if |refs| > 0 {
      NoneDangling(refs[..|refs| - 1], live);
      assert forall i | 0 <= i < |refs| - 1 :: refs[..|refs| - 1][i] == refs[i];
    }
  }

  /** An item that parses as a step whose references cannot even be looked up. */
  predicate Unchecked(t: Tools, item: Json) { Parse(item).Some? && !Checkable(t, Parse(item).value) }

  /** The plan has a proper size and holds such an item: checking it raises. */
  ghost predicate Raiseworthy(t: Tools, plan: Json) {
    plan.List? && 1 <= |plan.items| <= MAX_STEPS && exists k | 0 <= k < |plan.items| :: Unchecked(t, plan.items[k])
  }

  /** The items stand for a plan all of whose steps are fine in their scopes. */
  ghost predicate Sound(t: Tools, s: Scene, plan: Json) {
    exists steps :: IsParse(plan, steps) && Acceptable(t, s, steps)
  }

  /** `validate_plan`: the loop that mutates `live` and `counter`. It accepts exactly the plans all
      of whose steps are fine, and hands them on in order; it raises exactly when some step's
      references cannot be looked up, whatever else is wrong; and it rejects all others. */
  method ValidatePlan(t: Tools, plan: Json, s: Scene) returns (v: Verdict)
    ensures v.Accepted? <==> Sound(t, s, plan)
    ensures v.Accepted? ==> IsParse(plan, v.steps) && Acceptable(t, s, v.steps)
    ensures v.Raising? <==> Raiseworthy(t, plan)
  {
    if !plan.List? || |plan.items| == 0 || |plan.items| > MAX_STEPS {
      return Rejected(1);
    }
    var steps, complaints := [], 0;
    var scope := Opening(s);
    var i := 0;
    while i < |plan.items|
      invariant 0 <= i <= |plan.items| && SoFar(t, s, plan, steps, scope, complaints, i)
    {
      var step := Parse(plan.items[i]);
      if step.None? {
        BadStep(t, s, plan, i, steps, scope, complaints);
        complaints := complaints + 1;
      } else {
        if !Checkable(t, step.value) {
          UncheckedHopeless(t, s, plan, i);
          return Raising;
        }
        var more := ComplaintsAbout(t, scope, step.value);
        NextStep(t, s, plan, i, steps, scope, complaints, step.value, more);
        complaints := complaints + more;
        steps := steps + [step.value];
        scope := Advance(t.show, scope, step.value);
      }
      i := i + 1;
    }
    Decided(t, s, plan, steps, scope, complaints);
    if complaints > 0 {
      return Rejected(complaints);
    }
    return Accepted(steps);
  }

  /** The loop after `i` items: all is fine while there is no complaint, and no plan can be made of
      the items once there is one; none of them raised. */
  ghost predicate SoFar(t: Tools, s: Scene, plan: Json, steps: seq<Step>, scope: Scope, complaints: nat, i: nat) {
    && plan.List? && i <= |plan.items| && (forall k | 0 <= k < i :: !Unchecked(t, plan.items[k]))
    && (complaints == 0 ==> FineSoFar(t, s, plan, steps, i) && scope == ScopeAt(t.show, s, steps))
    && (complaints > 0 ==> Hopeless(t, s, plan))
  }

  lemma NextStep(t: Tools, s: Scene, plan: Json, i: nat, steps: seq<Step>, scope: Scope, complaints: nat, step: Step,
                 more: nat)
    requires SoFar(t, s, plan, steps, scope, complaints, i) && i < |plan.items|
    requires Parse(plan.items[i]) == Some(step) && Checkable(t, step) && more == ComplaintsAbout(t, scope, step)
    ensures SoFar(t, s, plan, steps + [step], Advance(t.show, scope, step), complaints + more, i + 1)
  {
    NoneDangling(RefsOf(t, step).value, scope.live);
    if complaints == 0 {
      if more > 0 {
        BadScope(t, s, plan, i, steps, step);
      } else {
        FineStep(t, s, plan, steps, i, step);
      }
    }
  }

  lemma Decided(t: Tools, s: Scene, plan: Json, steps: seq<Step>, scope: Scope, complaints: nat)
    requires plan.List? && 1 <= |plan.items| <= MAX_STEPS && SoFar(t, s, plan, steps, scope, complaints, |plan.items|)
    ensures !Raiseworthy(t, plan) && (complaints == 0 <==> Sound(t, s, plan))
    ensures complaints == 0 ==> IsParse(plan, steps) && Acceptable(t, s, steps)
  {
    if complaints == 0 {
      FineIsAcceptable(t, s, plan, steps);
    }
  }

  /** The first `i` items are steps that are fine in their scopes. */
  ghost predicate FineSoFar(t: Tools, s: Scene, plan: Json, steps: seq<Step>, i: nat) {
    && plan.List? && i <= |plan.items| && |steps| == i
    && forall k | 0 <= k < i ::
         Parse(plan.items[k]) == Some(steps[k]) && StepOk(t, ScopeAt(t.show, s, steps[..k]), steps[k])
  }

  /** Whatever these items stand for, it is not an acceptable plan. */
  ghost predicate Hopeless(t: Tools, s: Scene, plan: Json) {
    forall good | IsParse(plan, good) :: !Acceptable(t, s, good)
  }

  lemma FineStep(t: Tools, s: Scene, plan: Json, steps: seq<Step>, i: nat, step: Step)
    requires FineSoFar(t, s, plan, steps, i) && i < |plan.items| && Parse(plan.items[i]) == Some(step)
    requires StepOk(t, ScopeAt(t.show, s, steps), step)
    ensures FineSoFar(t, s, plan, steps + [step], i + 1)
    ensures ScopeAt(t.show, s, steps + [step]) == Advance(t.show, ScopeAt(t.show, s, steps), step)
  {
    var more := steps + [step];
    assert more[..i] == steps;
    assert forall k | 0 <= k < i :: more[..k] == steps[..k] && more[k] == steps[k];
  }

  lemma FineIsAcceptable(t: Tools, s: Scene, plan: Json, steps: seq<Step>)
    requires plan.List? && 1 <= |plan.items| <= MAX_STEPS && FineSoFar(t, s, plan, steps, |plan.items|)
    ensures Acceptable(t, s, steps) && IsParse(plan, steps)
  {
  }

  lemma UncheckedHopeless(t: Tools, s: Scene, plan: Json, i: nat)
    requires plan.List? && i < |plan.items| <= MAX_STEPS && Unchecked(t, plan.items[i])
    ensures Raiseworthy(t, plan) && !Sound(t, s, plan)
  {
    forall good | IsParse(plan, good)
      ensures !Acceptable(t, s, good)
    {
      assert !StepOk(t, ScopeAt(t.show, s, good[..i]), good[i]);
    }
  }

  ghost predicate IsParse(plan: Json, steps: seq<Step>) {
    plan.List? && |steps| == |plan.items| && forall k | 0 <= k < |steps| :: Parse(plan.items[k]) == Some(steps[k])
  }

  lemma BadStep(t: Tools, s: Scene, plan: Json, i: nat, steps: seq<Step>, scope: Scope, complaints: nat)
    requires SoFar(t, s, plan, steps, scope, complaints, i) && i < |plan.items| && Parse(plan.items[i]).None?
    ensures SoFar(t, s, plan, steps, scope, complaints + 1, i + 1)
  {
  }

  lemma BadScope(t: Tools, s: Scene, plan: Json, i: nat, steps: seq<Step>, step: Step)
    requires FineSoFar(t, s, plan, steps, i) && i < |plan.items| && Parse(plan.items[i]) == Some(step)
    requires !StepOk(t, ScopeAt(t.show, s, steps), step)
    ensures Hopeless(t, s, plan)
  {
    forall good | IsParse(plan, good)
      ensures !Acceptable(t, s, good)
    {
      assert good[..i] == steps;
      assert good[i] == step;
    }
  }
}
