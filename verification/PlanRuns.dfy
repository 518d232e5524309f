/**
 Running an accepted plan (`recipe.py`): the ids and references `validate_plan` foresees are the
 ones execution meets.
 */
module PlanRuns {
  import opened Options
  import opened Documents
  import opened Scenes
  import opened References
  import opened Edits
  import opened EditEffects
  import opened Plans

  /** What a step does to a scene. */
  type Doing = (Step, Scene) -> Outcome

  function DoneBy(t: Tools): Doing { (step: Step, s: Scene) => Perform(t, step, s) }

  /** One successful step from a scene to the next. */
  ghost predicate Leads(do: Doing, step: Step, s: Scene, next: Scene) {
    (do(step, s).Looked? && next == s) || do(step, s) == Changed(next)
  }

  /** The scenes a plan goes through when every step succeeds. */
  ghost predicate IsExecution(do: Doing, steps: seq<Step>, scenes: seq<Scene>) {
    |scenes| == |steps| + 1 && forall k | 0 <= k < |steps| :: Leads(do, steps[k], scenes[k], scenes[k + 1])
  }

  /** No deletes or clears, no explicit ids, no new names for old objects. */
  predicate Calm(step: Step) {
    && !step.action.ObjectDelete? && !step.action.SceneClear?
    && (Creates(step.action) ==> !Truthy(Get(step.args, "id")))
    && (step.action.ObjectUpdate? ==> !Given(step.args, "label"))
  }

  /** The names in use, in the order of the objects. */
  function Labels(os: seq<Object>): seq<string> {
    if |os| == 0 then [] else Labels(os[..|os| - 1]) + if os[|os| - 1].name.Some? then [os[|os| - 1].name.value] else []
  }

  function LabelOf(show: Json -> string, step: Step): seq<string> {
    if Creates(step.action) && Truthy(Get(step.args, "label")) then [Text(show, Get(step.args, "label"))] else []
  }

  /** What naming sees of a scene: ids and names. */
  datatype Naming = Naming(ids: seq<string>, labels: seq<string>, refs: set<string>)

  function NamingOf(s: Scene): Naming { Naming(Ids(s.objects), Labels(s.objects), Refs(s.objects)) }

  lemma NamingAppend(os: seq<Object>, o: Object)
    ensures Ids(os + [o]) == Ids(os) + [o.id]
    ensures Labels(os + [o]) == Labels(os) + if o.name.Some? then [o.name.value] else []
    ensures Refs(os + [o]) == Refs(os) + {o.id} + if o.name.Some? then {o.name.value} else {}
  {
    var more := os + [o];
    assert more[..|os|] == os;
    assert forall i | 0 <= i < |os| :: more[i] == os[i];
    assert more[|os|] == o;
  }

  lemma {:induction false} LabelsSame(a: seq<Object>, b: seq<Object>)
    requires |a| == |b| && forall i | 0 <= i < |a| :: a[i].name == b[i].name
    ensures Labels(a) == Labels(b)
  {
    if |a| > 0 {
      LabelsSame(a[..|a| - 1], b[..|b| - 1]);
    }
  }

  lemma NamingReplaced(os: seq<Object>, k: nat, o: Object)
    requires k < |os| && o.id == os[k].id && o.name == os[k].name
    ensures Ids(os[k := o]) == Ids(os) && Labels(os[k := o]) == Labels(os) && Refs(os[k := o]) == Refs(os)
  {
    var more := os[k := o];
    assert forall i | 0 <= i < |os| :: more[i].id == os[i].id && more[i].name == os[i].name;
    LabelsSame(more, os);
  }

  /** A calm step either adds one object, with the next id and the label given, or leaves ids and
      names alone. */
  ghost predicate NamingStep(show: Json -> string, step: Step, s: Scene, next: Scene) {
    if Creates(step.action) then
      && NamingOf(next).ids == NamingOf(s).ids + [NextId(s.objects)]
      && NamingOf(next).labels == NamingOf(s).labels + LabelOf(show, step)
      && NamingOf(next).refs == NamingOf(s).refs + {NextId(s.objects)} + LabelSet(show, step.args)
    else NamingOf(next) == NamingOf(s)
  }

  lemma AddsNames(show: Json -> string, step: Step, s: Scene, next: Scene)
    requires Creates(step.action) && !Truthy(Get(step.args, "id")) && Adds(show, step.args, s, next)
    ensures NamingStep(show, step, s, next)
  {
    var added: Object :|
      && next == Holding(s, s.objects + [added])
      && (!Truthy(Get(step.args, "id")) ==> added.id == NextId(s.objects))
      && added.name == NameFrom(show, Get(step.args, "label")) && Get(step.args, "semantic") == Str(added.semantic);
    NamingAppend(s.objects, added);
  }

  lemma UpdatesNames(show: Json -> string, args: Args, s: Scene, next: Scene)
    requires !Given(args, "label") && Updates(show, args, s, next)
    ensures NamingOf(next) == NamingOf(s)
  {
    var k: nat, o: Object :|
      && k < |s.objects| && Resolve(show, s.objects, Get(args, "id")) == Some(s.objects[k].id)
      && next == Holding(s, s.objects[k := o])
      && o.id == s.objects[k].id && (!Given(args, "label") ==> o.name == s.objects[k].name);
    NamingReplaced(s.objects, k, o);
  }

  lemma MovesNames(t: Tools, args: Args, s: Scene, next: Scene)
    requires Moves(t, args, s, next)
    ensures NamingOf(next) == NamingOf(s)
  {
    var k: nat :| MovesTo(t, args, s, k, next);
    NamingReplaced(s.objects, k, s.objects[k].(position := t.move(s, s.objects[k].id, args)));
  }

  lemma CalmChangeNames(t: Tools, step: Step, s: Scene)
    requires ShowLaw(t.show) && WellFormed(s) && Calm(step) && Perform(t, step, s).Changed?
    ensures NamingStep(t.show, step, s, Perform(t, step, s).scene)
  {
    var next := Perform(t, step, s).scene;
    match step.action
    case ObjectAdd =>
      AddAdds(t, step.args, s);
      AddsNames(t.show, step, s, next);
    case Place =>
      PlaceAdds(t, step.args, s);
      AddsNames(t.show, step, s, next);
    case ObjectUpdate =>
      UpdateUpdates(t, step.args, s);
      UpdatesNames(t.show, step.args, s, next);
    case Move =>
      MoveMoves(t, step.args, s);
      MovesNames(t, step.args, s, next);
    case _ => CameraKeepsObjects(t, step.args, s);
  }

  /** The two laws of steps that the predictions rest on, with `good` for well-formed scenes. */
  ghost predicate Lawful(show: Json -> string, do: Doing, good: Scene -> bool) {
    forall step, s, next {:trigger Leads(do, step, s, next)} | good(s) && Leads(do, step, s, next) ::
      good(next) && (Calm(step) ==> NamingStep(show, step, s, next))
  }

  function Good(): Scene -> bool { (s: Scene) => WellFormed(s) }

  lemma StepLawful(t: Tools, step: Step, s: Scene, next: Scene)
    requires ShowLaw(t.show) && WellFormed(s) && Leads(DoneBy(t), step, s, next)
    ensures WellFormed(next) && (Calm(step) ==> NamingStep(t.show, step, s, next))
  {
    PerformGood(t, step, s);
    if Calm(step) && Perform(t, step, s).Changed? {
      CalmChangeNames(t, step, s);
    }
  }

  lemma ToolsLawful(t: Tools)
    requires ShowLaw(t.show)
    ensures Lawful(t.show, DoneBy(t), Good())
  {
    forall step, s, next | Good()(s) && Leads(DoneBy(t), step, s, next)
      ensures Good()(next) && (Calm(step) ==> NamingStep(t.show, step, s, next))
    {
      StepLawful(t, step, s, next);
    }
  }

  // ---- the prediction

  /** The scope of a step describes the scene it runs on. */
  ghost predicate Describes(sc: Scope, s: Scene) { sc.live == Refs(s.objects) && sc.counter == Largest(Ids(s.objects)) }

  lemma AdvanceDescribes(show: Json -> string, sc: Scope, step: Step, s: Scene, next: Scene)
    requires Describes(sc, s) && Calm(step) && NamingStep(show, step, s, next)
    ensures Describes(Advance(show, sc, step), next)
  {
    if Creates(step.action) {
      LargestAppend(Ids(s.objects), sc.counter + 1);
    }
  }

  ghost predicate AllCalm(steps: seq<Step>) { forall i | 0 <= i < |steps| :: Calm(steps[i]) }

  /** After these steps the scene is the one their scope describes, and the names in it are those
      of the first scene and those given since. */
  ghost predicate RunState(show: Json -> string, first: Scene, done: seq<Step>, s: Scene) {
    Describes(ScopeAt(show, first, done), s) && Labels(s.objects) == Labels(first.objects) + NewLabels(show, done)
  }

  type State = (seq<Step>, Scene) -> bool

  /** A relation between the steps done and the scene reached that every calm step carries on. */
  ghost predicate Carries(show: Json -> string, state: State) {
    forall done, step, s, next {:trigger state(done, s), NamingStep(show, step, s, next)}
      | state(done, s) && Calm(step) && NamingStep(show, step, s, next) :: state(done + [step], next)
  }

  lemma {:induction false} RunCarries(show: Json -> string, do: Doing, good: Scene -> bool, state: State,
                                      steps: seq<Step>, scenes: seq<Scene>, k: nat)
    requires Lawful(show, do, good) && Carries(show, state) && IsExecution(do, steps, scenes) && AllCalm(steps)
    requires good(scenes[0]) && state([], scenes[0]) && k < |scenes|
    ensures good(scenes[k]) && state(steps[..k], scenes[k])
  {
    if k == 0 {
      assert steps[..0] == [];
    } else {
      var n := k - 1;
      RunCarries(show, do, good, state, steps, scenes, n);
      LedTo(show, do, good, steps[n], scenes[n], scenes[n + 1]);
      assert state(steps[..n] + [steps[n]], scenes[k]);
      assert steps[..k] == steps[..n] + [steps[n]];
    }
  }

  /** In a calm plan whose steps succeed, every step runs on the scene its scope describes. */
  lemma RunDescribed(show: Json -> string, do: Doing, good: Scene -> bool, steps: seq<Step>, scenes: seq<Scene>, k: nat)
    requires Lawful(show, do, good) && IsExecution(do, steps, scenes) && good(scenes[0]) && AllCalm(steps)
    requires k < |scenes|
    ensures good(scenes[k]) && RunState(show, scenes[0], steps[..k], scenes[k])
  {
    var first := scenes[0];
    var state := (done: seq<Step>, s: Scene) => RunState(show, first, done, s);
    StartDescribed(show, first);
    StateCarries(show, first, state);
    RunCarries(show, do, good, state, steps, scenes, k);
    assert state(steps[..k], scenes[k]);
  }

  lemma StateCarries(show: Json -> string, first: Scene, state: State)
    requires forall done, s :: state(done, s) == RunState(show, first, done, s)
    ensures Carries(show, state)
  {
    forall done, step, s, next | state(done, s) && Calm(step) && NamingStep(show, step, s, next)
      ensures state(done + [step], next)
    {
      StepDescribed(show, first, done, step, s, next);
    }
  }

  lemma LedTo(show: Json -> string, do: Doing, good: Scene -> bool, step: Step, s: Scene, next: Scene)
    requires Lawful(show, do, good) && good(s) && Leads(do, step, s, next)
    ensures good(next) && (Calm(step) ==> NamingStep(show, step, s, next))
  {
  }

  lemma StartDescribed(show: Json -> string, s: Scene)
    ensures RunState(show, s, [], s)
  {
    assert Labels(s.objects) + [] == Labels(s.objects);
  }

  lemma StepDescribed(show: Json -> string, first: Scene, done: seq<Step>, step: Step, s: Scene, next: Scene)
    requires RunState(show, first, done, s) && Calm(step) && NamingStep(show, step, s, next)
    ensures RunState(show, first, done + [step], next)
  {
    assert (done + [step])[..|done|] == done;
    AdvanceDescribes(show, ScopeAt(show, first, done), step, s, next);
    LabelsStep(show, first, done, step, s, next);
  }

  lemma LabelsStep(show: Json -> string, first: Scene, done: seq<Step>, step: Step, s: Scene, next: Scene)
    requires Labels(s.objects) == Labels(first.objects) + NewLabels(show, done) && NamingStep(show, step, s, next)
    ensures Labels(next.objects) == Labels(first.objects) + NewLabels(show, done + [step])
  {
    assert (done + [step])[..|done|] == done;
  }

  /** One object more, with the number after the scope's counter. */
  ghost predicate GetsForeseenId(sc: Scope, s: Scene, next: Scene) {
    |next.objects| == |s.objects| + 1 && next.objects[|s.objects|].id == IdOf(sc.counter + 1)
  }

  /** The id `validate_plan` foresees for an object added or placed is the one it gets. */
  lemma ForeseenIds(t: Tools, steps: seq<Step>, scenes: seq<Scene>, k: nat)
    requires ShowLaw(t.show) && IsExecution(DoneBy(t), steps, scenes) && WellFormed(scenes[0]) && AllCalm(steps)
    requires k < |steps| && Creates(steps[k].action)
    ensures GetsForeseenId(ScopeAt(t.show, scenes[0], steps[..k]), scenes[k], scenes[k + 1])
  {
    ToolsLawful(t);
    GenericForeseenIds(t.show, DoneBy(t), Good(), steps, scenes, k);
  }

  lemma GenericForeseenIds(show: Json -> string, do: Doing, good: Scene -> bool, steps: seq<Step>, scenes: seq<Scene>,
                           k: nat)
    requires Lawful(show, do, good) && IsExecution(do, steps, scenes) && good(scenes[0]) && AllCalm(steps)
    requires k < |steps| && Creates(steps[k].action)
    ensures GetsForeseenId(ScopeAt(show, scenes[0], steps[..k]), scenes[k], scenes[k + 1])
  {
    RunDescribed(show, do, good, steps, scenes, k);
    LedTo(show, do, good, steps[k], scenes[k], scenes[k + 1]);
    LastId(scenes[k].objects, scenes[k + 1].objects, NextId(scenes[k].objects));
  }

  lemma LastId(before: seq<Object>, after: seq<Object>, id: string)
    requires Ids(after) == Ids(before) + [id]
    ensures |after| == |before| + 1 && after[|after| - 1].id == id
  {
    assert |Ids(after)| == |after| && |Ids(before)| == |before|;
    assert Ids(after)[|after| - 1] == after[|after| - 1].id;
  }

  // ---- references

  predicate NoRepeat(xs: seq<string>) { forall i, j | 0 <= i < j < |xs| :: xs[i] != xs[j] }

  /** All names in play: those of the scene and those the plan gives. */
  function NewLabels(show: Json -> string, steps: seq<Step>): seq<string> {
    if |steps| == 0 then [] else NewLabels(show, steps[..|steps| - 1]) + LabelOf(show, steps[|steps| - 1])
  }

  lemma {:induction false} NewLabelsPrefix(show: Json -> string, steps: seq<Step>, k: nat)
    requires k <= |steps|
    ensures NewLabels(show, steps[..k]) <= NewLabels(show, steps)
  {
    if k < |steps| {
      NewLabelsPrefix(show, steps[..|steps| - 1], k);
      assert steps[..|steps| - 1][..k] == steps[..k];
    } else {
      assert steps[..k] == steps;
    }
  }

  lemma {:induction false} LabelAt(os: seq<Object>, i: nat)
    requires i < |os| && os[i].name.Some?
    ensures os[i].name.value in Labels(os)
  {
    if i < |os| - 1 {
      LabelAt(os[..|os| - 1], i);
    }
  }

  lemma {:induction false} DistinctLabels(os: seq<Object>)
    requires NoRepeat(Labels(os))
    ensures DistinctNames(os)
  {
    if |os| > 0 {
      var n := |os| - 1;
      var front := os[..n];
      assert Labels(front) <= Labels(os);
      DistinctLabels(front);
      forall i | 0 <= i < n && os[i].name.Some? && os[n].name.Some?
        ensures os[i].name != os[n].name
      {
        LabelAt(front, i);
        var all := Labels(os);
        assert all[|all| - 1] == os[n].name.value && all[..|all| - 1] == Labels(front);
      }
      forall i, j | 0 <= i < j < |os| && os[i].name.Some? && os[j].name.Some?
        ensures os[i].name != os[j].name
      {
        if j < n {
          assert front[i].name != front[j].name;
        }
      }
    }
  }

  /** The one object with this id. */
  ghost predicate IsTheOne(os: seq<Object>, id: string, i: nat) {
    i < |os| && os[i].id == id && forall j | 0 <= j < |os| && os[j].id == id :: j == i
  }

  /** If all names in play are distinct, every reference accepted for a step resolves, in the scene
      that step runs on once the steps before it succeeded, to exactly one object: the one of that
      id or that name. */
  lemma AcceptedResolves(t: Tools, steps: seq<Step>, scenes: seq<Scene>, k: nat, ref: Json)
    requires k < |steps| && ShowLaw(t.show) && IsExecution(DoneBy(t), steps[..k], scenes) && WellFormed(scenes[0])
    requires AllCalm(steps) && Acceptable(t, scenes[0], steps)
    requires NoRepeat(Labels(scenes[0].objects) + NewLabels(t.show, steps))
    requires RefsOf(t, steps[k]).Some? && ref in RefsOf(t, steps[k]).value
    ensures ref.Str? && ResolvesUniquely(t.show, scenes[k].objects, ref)
  {
    ToolsLawful(t);
    RunDescribed(t.show, DoneBy(t), Good(), steps[..k], scenes, k);
    assert Good()(scenes[k]) && steps[..k][..k] == steps[..k];
    AcceptedRef(t, scenes[0], steps, k, ref);
    LiveResolves(t.show, scenes[0], steps, k, scenes[k], ref);
  }

  lemma AcceptedRef(t: Tools, s: Scene, steps: seq<Step>, k: nat, ref: Json)
    requires Acceptable(t, s, steps) && k < |steps| && RefsOf(t, steps[k]).Some? && ref in RefsOf(t, steps[k]).value
    ensures Refers(ref, ScopeAt(t.show, s, steps[..k]).live)
  {
    assert StepOk(t, ScopeAt(t.show, s, steps[..k]), steps[k]);
  }

  ghost predicate ResolvesUniquely(show: Json -> string, os: seq<Object>, ref: Json) {
    && Resolve(show, os, ref).Some?
    && exists i: nat :: IsTheOne(os, Resolve(show, os, ref).value, i) && Denotes(os[i], Text(show, ref))
  }

  lemma LiveResolves(show: Json -> string, first: Scene, steps: seq<Step>, k: nat, s: Scene, ref: Json)
    requires k <= |steps| && RunState(show, first, steps[..k], s) && WellFormed(s)
    requires NoRepeat(Labels(first.objects) + NewLabels(show, steps))
    requires Refers(ref, ScopeAt(show, first, steps[..k]).live)
    ensures ResolvesUniquely(show, s.objects, ref)
  {
    NewLabelsPrefix(show, steps, k);
    PrefixNoRepeat(Labels(s.objects), Labels(first.objects) + NewLabels(show, steps));
    RefResolves(show, s, ref);
  }

  lemma RefResolves(show: Json -> string, s: Scene, ref: Json)
    requires WellFormed(s) && NoRepeat(Labels(s.objects)) && Refers(ref, Refs(s.objects))
    ensures ResolvesUniquely(show, s.objects, ref)
  {
    var os := s.objects;
    DistinctLabels(os);
    RefDenotes(os, ref.s);
    ResolvesToOne(show, os, ref.s);
    var i :| 0 <= i < |os| && os[i].id == Resolve(show, os, Str(ref.s)).value && Denotes(os[i], ref.s)
             && (forall j | 0 <= j < |os| && os[j].id == os[i].id :: j == i);
    assert IsTheOne(os, Resolve(show, os, ref).value, i);
  }

  lemma PrefixNoRepeat(a: seq<string>, b: seq<string>)
    requires a <= b && NoRepeat(b)
    ensures NoRepeat(a)
  {
  }

  lemma RefDenotes(os: seq<Object>, ref: string)
    requires ref in Refs(os) && forall i | 0 <= i < |os| :: LegalObject(os[i])
    ensures ref != "" && exists i | 0 <= i < |os| :: Denotes(os[i], ref)
  {
    if i :| 0 <= i < |os| && os[i].id == ref {
      assert Denotes(os[i], ref);
    } else {
      var i :| 0 <= i < |os| && os[i].name == Some(ref);
      assert Denotes(os[i], ref);
    }
  }
}
