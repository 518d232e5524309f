/**
 A whole plan foretold (`recipe.py`): how far `do_instruct` gets with it, whether it then fails or
 raises, and the ids and names on the way.
 */
module PlanForesight {
  import opened Documents
  import opened Scenes
  import opened Edits
  import opened RaisingSteps
  import opened Foresight
  import opened PlanRuns
  import opened Instructions

  // ---- how far a run gets

  lemma {:induction false} HaltedAt(do: Doing, steps: seq<Step>, s: Scene)
    requires Execute(do, steps, s).Halted?
    ensures var p := Execute(do, steps, s);
            && p.at < |steps| && Execute(do, steps[..p.at], s) == Going(p.scene)
            && do(steps[p.at], p.scene) == if p.raised then Broke else Failed
  {
    var n := |steps| - 1;
    var p := Execute(do, steps, s);
    if Execute(do, steps[..n], s).Halted? {
      HaltedAt(do, steps[..n], s);
      assert steps[..n][..p.at] == steps[..p.at];
    }
  }

  lemma HaltsThere(do: Doing, steps: seq<Step>, s: Scene, k: nat, x: Scene)
    requires k < |steps| && Execute(do, steps[..k], s) == Going(x)
    requires do(steps[k], x).Broke? || do(steps[k], x).Failed?
    ensures Execute(do, steps, s) == Halted(x, k, do(steps[k], x).Broke?)
  {
    assert steps[..k + 1][..k] == steps[..k];
    StaysHalted(do, steps, s, k + 1);
  }

  lemma {:induction false} ExecutesTo(do: Doing, steps: seq<Step>, scenes: seq<Scene>)
    requires IsExecution(do, steps, scenes)
    ensures Execute(do, steps, scenes[0]) == Going(scenes[|steps|])
  {
    if |steps| > 0 {
      var n := |steps| - 1;
      ExecutesTo(do, steps[..n], scenes[..n + 1]);
      assert Leads(do, steps[n], scenes[n], scenes[n + 1]);
    }
  }

  // ---- foretelling it

  type Passing = (Names, Step) -> bool

  type Aftermath = (Names, Step) -> Names

  function PassesBy(t: Tools): Passing { (names: Names, step: Step) => Passes(t, names, step) }

  function AfterBy(t: Tools): Aftermath { (names: Names, step: Step) => NamesAfter(t, names, step) }

  /** The ids and names after these steps, if they all succeed. */
  function NamesAt(after: Aftermath, names: Names, steps: seq<Step>): Names {
    if |steps| == 0 then names else after(NamesAt(after, names, steps[..|steps| - 1]), steps[|steps| - 1])
  }

  /** Every step passes, with the ids and names that the steps before it leave. */
  predicate AllPass(passes: Passing, after: Aftermath, names: Names, steps: seq<Step>) {
    |steps| == 0
    || (&& AllPass(passes, after, names, steps[..|steps| - 1])
        && passes(NamesAt(after, names, steps[..|steps| - 1]), steps[|steps| - 1]))
  }

  /** Steps lead from good scenes to good scenes, and go as foretold. */
  ghost predicate Foreseen(do: Doing, good: Scene -> bool, passes: Passing, after: Aftermath) {
    forall step, s {:trigger do(step, s)} | good(s) ::
      && Foretold(do(step, s), s, passes(NamesOf(s.objects), step), after(NamesOf(s.objects), step))
      && (do(step, s).Changed? ==> good(do(step, s).scene))
  }

  lemma ToolsForeseen(t: Tools)
    requires ShowLaw(t.show)
    ensures Foreseen(DoneBy(t), Good(), PassesBy(t), AfterBy(t))
  {
    forall step: Step, s: Scene | Good()(s)
      ensures Foretold(DoneBy(t)(step, s), s, PassesBy(t)(NamesOf(s.objects), step),
                       AfterBy(t)(NamesOf(s.objects), step))
      ensures DoneBy(t)(step, s).Changed? ==> Good()(DoneBy(t)(step, s).scene)
    {
      StepForeseen(t, step, s);
      PerformGood(t, step, s);
    }
  }

  lemma {:induction false} RunForeseen(do: Doing, good: Scene -> bool, passes: Passing, after: Aftermath,
                                       steps: seq<Step>, s: Scene)
    requires Foreseen(do, good, passes, after) && good(s)
    ensures var p, names := Execute(do, steps, s), NamesOf(s.objects);
            && good(p.scene) && (p.Going? <==> AllPass(passes, after, names, steps))
            && (p.Going? ==> NamesOf(p.scene.objects) == NamesAt(after, names, steps))
  {
    if |steps| > 0 {
      var n := |steps| - 1;
      RunForeseen(do, good, passes, after, steps[..n], s);
      var p := Execute(do, steps[..n], s);
      if p.Going? {
        assert Foretold(do(steps[n], p.scene), p.scene, passes(NamesOf(p.scene.objects), steps[n]),
                        after(NamesOf(p.scene.objects), steps[n]));
      }
    }
  }

  lemma PrefixForeseen(t: Tools, steps: seq<Step>, s: Scene, k: nat)
    requires ShowLaw(t.show) && WellFormed(s) && k <= |steps|
    ensures var p, names := Execute(DoneBy(t), steps[..k], s), NamesOf(s.objects);
            && WellFormed(p.scene) && (p.Going? <==> AllPass(PassesBy(t), AfterBy(t), names, steps[..k]))
            && (p.Going? ==> NamesOf(p.scene.objects) == NamesAt(AfterBy(t), names, steps[..k]))
  {
    ToolsForeseen(t);
    RunForeseen(DoneBy(t), Good(), PassesBy(t), AfterBy(t), steps[..k], s);
    assert Good()(Execute(DoneBy(t), steps[..k], s).scene);
  }

  /** How a plan goes, from the ids and names in the scene and the plan alone, for every plan: it
      goes through exactly if every step passes; else it halts at the first step that does not, and
      raises there exactly if that step stumbles. */
  lemma PlanForeseen(t: Tools, steps: seq<Step>, s: Scene)
    requires ShowLaw(t.show) && WellFormed(s)
    ensures var p, names := Execute(DoneBy(t), steps, s), NamesOf(s.objects);
            var at := if p.Going? then |steps| else p.at;
            && (p.Going? <==> AllPass(PassesBy(t), AfterBy(t), names, steps))
            && at <= |steps| && NamesOf(p.scene.objects) == NamesAt(AfterBy(t), names, steps[..at])
            && (p.Halted? ==>
                  && at < |steps| && AllPass(PassesBy(t), AfterBy(t), names, steps[..at])
                  && !Passes(t, NamesAt(AfterBy(t), names, steps[..at]), steps[at])
                  && (p.raised <==> Stumbles(t, steps[at], Stubs(NamesAt(AfterBy(t), names, steps[..at])))))
  {
    var p := Execute(DoneBy(t), steps, s);
    assert steps[..|steps|] == steps;
    PrefixForeseen(t, steps, s, |steps|);
    if p.Halted? {
      HaltedAt(DoneBy(t), steps, s);
      PrefixForeseen(t, steps, s, p.at);
      StepForeseen(t, steps[p.at], p.scene);
      BrokeIff(t, steps[p.at], p.scene);
      StumblesIn(t, steps[p.at], p.scene.objects);
    }
  }

  /** Along a run whose steps succeed, the ids and names are those foretold. */
  lemma ExecutionForeseen(t: Tools, steps: seq<Step>, scenes: seq<Scene>)
    requires ShowLaw(t.show) && IsExecution(DoneBy(t), steps, scenes) && WellFormed(scenes[0])
    ensures NamesOf(scenes[|steps|].objects) == NamesAt(AfterBy(t), NamesOf(scenes[0].objects), steps)
    ensures AllPass(PassesBy(t), AfterBy(t), NamesOf(scenes[0].objects), steps)
  {
    ToolsForeseen(t);
    AlongForeseen(DoneBy(t), Good(), PassesBy(t), AfterBy(t), steps, scenes);
  }

  lemma AlongForeseen(do: Doing, good: Scene -> bool, passes: Passing, after: Aftermath, steps: seq<Step>,
                      scenes: seq<Scene>)
    requires Foreseen(do, good, passes, after) && IsExecution(do, steps, scenes) && good(scenes[0])
    ensures NamesOf(scenes[|steps|].objects) == NamesAt(after, NamesOf(scenes[0].objects), steps)
    ensures AllPass(passes, after, NamesOf(scenes[0].objects), steps)
  {
    ExecutesTo(do, steps, scenes);
    RunForeseen(do, good, passes, after, steps, scenes[0]);
  }
}
