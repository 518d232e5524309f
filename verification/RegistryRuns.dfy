/**
 Runs of overlapping processes on the registry: any number of processes load their copies, edit
 and save them, and sync in two writes, a touch of the registry and a word to the page, in any
 interleaving.
 */
module RegistryRuns {
  import opened Options
  import opened Registries

  /** The files, and the copy each running process holds. */
  datatype World = World(disk: Registry, state: PageState, held: map<nat, Registry>)

  datatype Edit =
    | Create(slug: string, name: string)
    | Switch(slug: string)
    | Rename(slug: string, name: string)
    | Delete(slug: string)

  datatype Step =
    | Load(pid: nat)
    | Save(pid: nat, edit: Edit)
    | Touch(slug: string, count: int)
    | Tell(slug: string, panelRev: int, version: int)

  /** What an edit makes of the copy it is given; nothing when it is refused or has no effect.
      The slug of a new project is one that `slugify` found free. */
  function Edited(reg: Registry, e: Edit): Option<Registry> {
    match e
    case Create(slug, name) => if name == "" || Known(reg.projects, slug) then None else Some(Created(reg, slug, name))
    case Switch(slug) =>
      if !Known(reg.projects, slug) || reg.active == Some(slug) then None else Some(Switched(reg, slug))
    case Rename(slug, name) => if name == "" || !Known(reg.projects, slug) then None else Some(Renamed(reg, slug, name))
    case Delete(slug) => if !Known(reg.projects, slug) || |reg.projects| <= 1 then None else Some(Deleted(reg, slug))
  }

  function Next(w: World, s: Step): World {
    match s
    case Load(pid) => var reg := Ensured(w.disk); w.(disk := reg, held := w.held[pid := reg])
    case Save(pid, e) =>
      if pid !in w.held || Edited(w.held[pid], e).None? then w
      else var reg := Edited(w.held[pid], e).value; w.(disk := reg, held := w.held[pid := reg])
    case Touch(slug, count) => w.(disk := Touched(w.disk, slug, count))
    case Tell(slug, panelRev, version) => w.(state := StateFor(w.state, w.disk, slug, panelRev, version))
  }

  function Run(w: World, steps: seq<Step>): World {
    if |steps| == 0 then w else Next(Run(w, steps[..|steps| - 1]), steps[|steps| - 1])
  }

  // ---- the invariant

  ghost predicate AllSound(w: World) { Sound(w.disk) && forall pid | pid in w.held :: Sound(w.held[pid]) }

  lemma EditedSound(reg: Registry, e: Edit)
    requires Sound(reg) && Edited(reg, e).Some?
    ensures Sound(Edited(reg, e).value)
  {
    match e
    case Create(slug, name) => CreatedSound(reg, slug, name);
    case Switch(_) =>
    case Rename(slug, name) => RenamedSound(reg, slug, name);
    case Delete(slug) => DeletedSound(reg, slug);
  }

  lemma NextSound(w: World, s: Step)
    requires AllSound(w)
    ensures AllSound(Next(w, s))
  {
    match s
    case Load(_) => EnsuredSoundIff(Some(w.disk), false);
    case Save(pid, e) =>
      if pid in w.held && Edited(w.held[pid], e).Some? {
        EditedSound(w.held[pid], e);
      }
    case Touch(slug, count) => TouchedSound(w.disk, slug, count);
    case Tell(_, _, _) =>
  }

  /** In every interleaving the registry names some project, no slug twice, and its active project
      exists; stale copies included. */
  lemma {:induction false} RunSound(w: World, steps: seq<Step>)
    requires AllSound(w)
    ensures AllSound(Run(w, steps))
  {
    if |steps| > 0 {
      RunSound(w, steps[..|steps| - 1]);
      NextSound(Run(w, steps[..|steps| - 1]), steps[|steps| - 1]);
    }
  }

  // ---- syncs touch no project

  datatype Entry = Entry(slug: string, name: string)

  function Entries(ps: seq<Project>): seq<Entry> {
    seq(|ps|, (i: nat) requires i < |ps| => Entry(ps[i].slug, ps[i].name))
  }

  /** Everything about the registry but the object counts. */
  datatype Skeleton = Skeleton(rev: int, active: Option<string>, entries: seq<Entry>)

  function SkeletonOf(reg: Registry): Skeleton { Skeleton(reg.rev, reg.active, Entries(reg.projects)) }

  lemma TouchedSkeleton(reg: Registry, slug: string, count: int)
    ensures SkeletonOf(Touched(reg, slug, count)) == SkeletonOf(reg)
  {
  }

  lemma SameKnown(a: Registry, b: Registry, slug: string)
    requires SkeletonOf(a) == SkeletonOf(b)
    ensures Known(a.projects, slug) <==> Known(b.projects, slug)
    ensures ActiveKnown(a) <==> ActiveKnown(b)
    ensures |a.projects| == |b.projects|
    ensures forall i | 0 <= i < |a.projects| ::
              a.projects[i].slug == b.projects[i].slug && a.projects[i].name == b.projects[i].name
  {
    var x, y := Entries(a.projects), Entries(b.projects);
    assert |x| == |a.projects| && |y| == |b.projects|;
    assert forall i | 0 <= i < |x| :: x[i] == Entry(a.projects[i].slug, a.projects[i].name);
    assert forall i | 0 <= i < |y| :: y[i] == Entry(b.projects[i].slug, b.projects[i].name);
  }

  lemma {:induction false} DroppedSkeleton(a: seq<Project>, b: seq<Project>, slug: string)
    requires Entries(a) == Entries(b)
    ensures Entries(Dropped(a, slug)) == Entries(Dropped(b, slug))
  {
    assert |Entries(a)| == |a| && |Entries(b)| == |b|;
    if |a| > 0 {
      var n := |a| - 1;
      assert Entries(a)[n] == Entries(b)[n];
      assert Entries(a[..n]) == Entries(a)[..n] && Entries(b[..n]) == Entries(b)[..n];
      DroppedSkeleton(a[..n], b[..n], slug);
      EntriesAppend(Dropped(a[..n], slug), if a[n].slug == slug then [] else [a[n]]);
      EntriesAppend(Dropped(b[..n], slug), if b[n].slug == slug then [] else [b[n]]);
    }
  }

  lemma EntriesAppend(a: seq<Project>, b: seq<Project>)
    ensures Entries(a + b) == Entries(a) + Entries(b)
  {
  }

  /** An edit does the same to copies that differ in object counts only. */
  lemma EditedSkeleton(a: Registry, b: Registry, e: Edit)
    requires SkeletonOf(a) == SkeletonOf(b)
    ensures Edited(a, e).Some? <==> Edited(b, e).Some?
    ensures Edited(a, e).Some? ==> SkeletonOf(Edited(a, e).value) == SkeletonOf(Edited(b, e).value)
  {
    SameKnown(a, b, e.slug);
    match e
    case Create(slug, name) =>
      EntriesAppend(a.projects, [Project(slug, name, 0)]);
      EntriesAppend(b.projects, [Project(slug, name, 0)]);
    case Switch(_) =>
    case Rename(slug, name) =>
      assert Entries(RenamedIn(a.projects, slug, name)) == Entries(RenamedIn(b.projects, slug, name));
    case Delete(slug) =>
      DroppedSkeleton(a.projects, b.projects, slug);
      SameFirst(Dropped(a.projects, slug), Dropped(b.projects, slug));
  }

  lemma SameFirst(x: seq<Project>, y: seq<Project>)
    requires Entries(x) == Entries(y)
    ensures |x| == |y| && (x != [] ==> x[0].slug == y[0].slug && x[0].name == y[0].name)
  {
    assert |Entries(x)| == |x| && |Entries(y)| == |y|;
    if x != [] {
      assert Entries(x)[0] == Entries(y)[0];
    }
  }

  /** The worlds agree on everything but object counts and the page's anchor. */
  ghost predicate Alike(a: World, b: World) {
    && SkeletonOf(a.disk) == SkeletonOf(b.disk) && a.held.Keys == b.held.Keys
    && forall pid | pid in a.held :: SkeletonOf(a.held[pid]) == SkeletonOf(b.held[pid])
  }

  predicate Syncs(s: Step) { s.Touch? || s.Tell? }

  lemma SyncAlike(a: World, b: World, s: Step)
    requires Alike(a, b) && Syncs(s)
    ensures Alike(Next(a, s), b)
  {
    if s.Touch? {
      TouchedSkeleton(a.disk, s.slug, s.count);
    }
  }

  lemma NextAlike(a: World, b: World, s: Step)
    requires Alike(a, b) && AllSound(a) && AllSound(b) && !Syncs(s)
    ensures Alike(Next(a, s), Next(b, s))
  {
    match s
    case Load(_) =>
      EnsuredSoundIff(Some(a.disk), false);
      EnsuredSoundIff(Some(b.disk), false);
    case Save(pid, e) =>
      if pid in a.held {
        EditedSkeleton(a.held[pid], b.held[pid], e);
      }
  }

  function WithoutSyncs(steps: seq<Step>): seq<Step> {
    if |steps| == 0 then []
    else WithoutSyncs(steps[..|steps| - 1]) + if Syncs(steps[|steps| - 1]) then [] else [steps[|steps| - 1]]
  }

  /** However long the scene actions ran and whatever happened meanwhile, their syncs are
      invisible to the projects: dropping every sync from a run leaves the same projects with the
      same names, the same active one and the same revision. */
  lemma {:induction false} SyncsInvisible(w: World, steps: seq<Step>)
    requires AllSound(w)
    ensures Alike(Run(w, steps), Run(w, WithoutSyncs(steps)))
  {
    if |steps| > 0 {
      var front, s := steps[..|steps| - 1], steps[|steps| - 1];
      SyncsInvisible(w, front);
      RunSound(w, front);
      RunSound(w, WithoutSyncs(front));
      if Syncs(s) {
        assert WithoutSyncs(steps) == WithoutSyncs(front);
        SyncAlike(Run(w, front), Run(w, WithoutSyncs(front)), s);
      } else {
        var kept := WithoutSyncs(steps);
        assert kept[..|kept| - 1] == WithoutSyncs(front) && kept[|kept| - 1] == s;
        NextAlike(Run(w, front), Run(w, WithoutSyncs(front)), s);
      }
    }
  }

  /** What a process tells the page: the registry's own active project and revision as they are at
      that moment; and the page's view of a scene only if that scene is the active one's. */
  lemma TellTellsPage(w: World, s: Step)
    requires s.Tell?
    ensures var after := Next(w, s);
            && after.disk == w.disk && after.state.active == w.disk.active && InStep(after)
            && (w.disk.active != Some(s.slug) ==>
                  after.state.panelRev == w.state.panelRev && after.state.sceneVersion == w.state.sceneVersion)
            && (w.disk.active == Some(s.slug) ==>
                  after.state.panelRev == s.panelRev && after.state.sceneVersion == s.version)
  {
  }

  /** The page's view of a scene after a run was set by a word about the project active at that
      moment, or is the one from the start. */
  lemma {:induction false} PanelFromActive(w: World, steps: seq<Step>)
    ensures var end := Run(w, steps).state;
            || (end.panelRev == w.state.panelRev && end.sceneVersion == w.state.sceneVersion)
            || exists k | 0 <= k < |steps| :: SetsPanel(w, steps, k, end)
  {
    if |steps| > 0 {
      var n := |steps| - 1;
      PanelFromActive(w, steps[..n]);
      var end := Run(w, steps).state;
      if steps[n].Tell? && Run(w, steps[..n]).disk.active == Some(steps[n].slug) {
        assert SetsPanel(w, steps, n, end);
      } else {
        var before := Run(w, steps[..n]).state;
        if k :| 0 <= k < n && SetsPanel(w, steps[..n], k, before) {
          assert steps[..n][..k] == steps[..k];
          assert SetsPanel(w, steps, k, end);
        }
      }
    }
  }

  ghost predicate SetsPanel(w: World, steps: seq<Step>, k: int, end: PageState)
    requires 0 <= k < |steps|
  {
    steps[k].Tell? && Run(w, steps[..k]).disk.active == Some(steps[k].slug)
    && end.panelRev == steps[k].panelRev && end.sceneVersion == steps[k].version
  }

  // ---- effective saves

  /** The step saves an edit that was not refused. */
  predicate Effective(w: World, s: Step) { s.Save? && s.pid in w.held && Edited(w.held[s.pid], s.edit).Some? }

  /** ... and its process held a copy of the registry's present revision. */
  predicate UpToDate(w: World, s: Step) { s.Save? && s.pid in w.held ==> w.held[s.pid].rev == w.disk.rev }

  function Saves(w: World, steps: seq<Step>): nat {
    if |steps| == 0 then 0
    else
      var n := |steps| - 1;
      Saves(w, steps[..n]) + if Effective(Run(w, steps[..n]), steps[n]) then 1 else 0
  }

  /** Every effective save of the run was made from an up-to-date copy. */
  predicate AllUpToDate(w: World, steps: seq<Step>) {
    |steps| == 0
    || (AllUpToDate(w, steps[..|steps| - 1])
        && (Effective(Run(w, steps[..|steps| - 1]), steps[|steps| - 1]) ==>
              UpToDate(Run(w, steps[..|steps| - 1]), steps[|steps| - 1])))
  }

  lemma EditedRev(reg: Registry, e: Edit)
    ensures Edited(reg, e).Some? ==> Edited(reg, e).value.rev == reg.rev + 1
  {
  }

  lemma OtherStepsKeep(w: World, s: Step)
    requires AllSound(w) && !Effective(w, s)
    ensures SkeletonOf(Next(w, s).disk) == SkeletonOf(w.disk)
  {
    match s
    case Load(_) => EnsuredSoundIff(Some(w.disk), false);
    case Save(_, _) =>
    case Touch(slug, count) => TouchedSkeleton(w.disk, slug, count);
    case Tell(_, _, _) =>
  }

  /** Only effective saves change the projects. */
  lemma {:induction false} WithoutSavesKept(w: World, steps: seq<Step>)
    requires AllSound(w) && Saves(w, steps) == 0
    ensures SkeletonOf(Run(w, steps).disk) == SkeletonOf(w.disk)
  {
    if |steps| > 0 {
      var n := |steps| - 1;
      WithoutSavesKept(w, steps[..n]);
      RunSound(w, steps[..n]);
      OtherStepsKeep(Run(w, steps[..n]), steps[n]);
    }
  }

  /** With up-to-date copies the revision counts them. */
  lemma {:induction false} RevCountsSaves(w: World, steps: seq<Step>)
    requires AllSound(w) && AllUpToDate(w, steps)
    ensures Run(w, steps).disk.rev == w.disk.rev + Saves(w, steps)
  {
    if |steps| > 0 {
      var n := |steps| - 1;
      var before := Run(w, steps[..n]);
      RevCountsSaves(w, steps[..n]);
      RunSound(w, steps[..n]);
      if Effective(before, steps[n]) {
        EditedRev(before.held[steps[n].pid], steps[n].edit);
      } else {
        OtherStepsKeep(before, steps[n]);
      }
    }
  }

  // ---- a touch that comes late

  /** A touch whose read and write are not adjacent: it writes the registry it read, with one count
      changed. */
  function LateTouch(w: World, read: Registry, slug: string, count: int): World {
    w.(disk := Touched(read, slug, count))
  }

  /** It keeps the projects if no edit was saved between its read and its write, and, when processes
      save from up-to-date copies, only then. */
  lemma LateTouchKeepsIff(w: World, steps: seq<Step>, slug: string, count: int)
    requires AllSound(w)
    ensures var later := Run(w, steps);
            && (Saves(w, steps) == 0 ==>
                  SkeletonOf(LateTouch(later, w.disk, slug, count).disk) == SkeletonOf(later.disk))
            && (AllUpToDate(w, steps) ==>
                  (SkeletonOf(LateTouch(later, w.disk, slug, count).disk) == SkeletonOf(later.disk) <==>
                   Saves(w, steps) == 0))
  {
    TouchedSkeleton(w.disk, slug, count);
    if Saves(w, steps) == 0 {
      WithoutSavesKept(w, steps);
    }
    if AllUpToDate(w, steps) {
      RevCountsSaves(w, steps);
    }
  }

  /** A project created between the read and the write is lost. */
  lemma LateTouchLosesProject(reg: Registry, state: PageState, slug: string, name: string, count: int)
    requires Sound(reg) && !Known(reg.projects, slug) && name != ""
    ensures var w := Run(World(reg, state, map[]), [Load(0), Save(0, Create(slug, name))]);
            Known(w.disk.projects, slug) && !Known(LateTouch(w, reg, reg.active.value, count).disk.projects, slug)
  {
    var start := World(reg, state, map[]);
    var steps := [Load(0), Save(0, Create(slug, name))];
    assert steps[..1] == [Load(0)] && steps[..1][..0] == [];
    EnsuredSoundIff(Some(reg), false);
    assert Run(start, []) == start;
    assert Run(start, [Load(0)]) == World(reg, state, map[0 := reg]);
    var w := Run(start, steps);
    assert w.disk == Created(reg, slug, name);
    assert w.disk.projects[|reg.projects|].slug == slug;
    TouchedSkeleton(reg, reg.active.value, count);
    SameKnown(reg, Touched(reg, reg.active.value, count), slug);
  }

  // ---- a page that falls behind

  /** The page knows the registry's revision. */
  predicate InStep(w: World) { w.state.projectsRev == w.disk.rev }

  /** A page in step falls behind exactly at an effective save. */
  lemma FallsBehindIff(w: World, s: Step)
    requires AllSound(w) && InStep(w) && UpToDate(w, s)
    ensures InStep(Next(w, s)) <==> !Effective(w, s)
  {
    if Effective(w, s) {
      EditedRev(w.held[s.pid], s.edit);
    } else {
      OtherStepsKeep(w, s);
    }
  }

  /** Since the last effective save of the run something was told to the page. */
  predicate ToldSince(w: World, steps: seq<Step>) {
    if |steps| == 0 then true
    else
      var n := |steps| - 1;
      steps[n].Tell? || (!Effective(Run(w, steps[..n]), steps[n]) && ToldSince(w, steps[..n]))
  }

  /** Over a whole run the page is in step exactly when something was told to it since the last
      effective save; it is never ahead. */
  lemma {:induction false} InStepIff(w: World, steps: seq<Step>)
    requires AllSound(w) && InStep(w) && AllUpToDate(w, steps)
    ensures InStep(Run(w, steps)) <==> ToldSince(w, steps)
    ensures Run(w, steps).state.projectsRev <= Run(w, steps).disk.rev
  {
    if |steps| > 0 {
      var n := |steps| - 1;
      var before := Run(w, steps[..n]);
      InStepIff(w, steps[..n]);
      RunSound(w, steps[..n]);
      if Effective(before, steps[n]) {
        EditedRev(before.held[steps[n].pid], steps[n].edit);
      } else if !steps[n].Tell? {
        OtherStepsKeep(before, steps[n]);
      }
    }
  }

  /** The writes of a project action: the save, and for all but a rename the two writes of a sync. */
  function ActionSteps(w: World, pid: nat, e: Edit, count: int, panelRev: int, version: int): seq<Step> {
    if !Effective(w, Save(pid, e)) || e.Rename? then [Save(pid, e)]
    else
      var active := Edited(w.held[pid], e).value.active;
      var slug := if active.Some? then active.value else "";
      [Save(pid, e), Touch(slug, count), Tell(slug, panelRev, version)]
  }

  /** A finished project action leaves the page in step if and only if it was not a rename that was
      written. */
  lemma FinishedInStepIff(w: World, pid: nat, e: Edit, count: int, panelRev: int, version: int)
    requires AllSound(w) && InStep(w) && UpToDate(w, Save(pid, e))
    ensures InStep(Run(w, ActionSteps(w, pid, e, count, panelRev, version))) <==>
            !(e.Rename? && Effective(w, Save(pid, e)))
  {
    var steps, first := ActionSteps(w, pid, e, count, panelRev, version), Save(pid, e);
    assert [first][..0] == [] && Run(w, []) == w;
    FallsBehindIff(w, first);
    assert Run(w, [first]) == Next(w, first);
    if |steps| > 1 {
      assert steps[..2] + [steps[2]] == steps && steps[2].Tell?;
      TellTellsPage(Run(w, steps[..2]), steps[2]);
    }
  }

  /** So it is with every rename by a process that has just loaded the registry: the page keeps its
      revision, and the registry is one on. */
  lemma RenameLeavesPageBehind(reg: Registry, state: PageState, slug: string, name: string)
    requires Sound(reg) && Known(reg.projects, slug) && name != "" && state.projectsRev == reg.rev
    ensures var w := Run(World(reg, state, map[]), [Load(0), Save(0, Rename(slug, name))]);
            w.state == state && w.disk == Renamed(reg, slug, name) && w.disk.rev == reg.rev + 1 && !InStep(w)
  {
    var start := World(reg, state, map[]);
    var steps := [Load(0), Save(0, Rename(slug, name))];
    assert steps[..1] == [Load(0)] && steps[..1][..0] == [];
    EnsuredSoundIff(Some(reg), false);
    assert Run(start, []) == start;
    assert Run(start, [Load(0)]) == World(reg, state, map[0 := reg]);
  }

  // ---- a word that comes late

  /** A word to the page whose reads and write are not adjacent: it is made from the registry and the
      page's anchor as they were when read. */
  function LateTell(w: World, read: World, slug: string, panelRev: int, version: int): World {
    w.(state := StateFor(read.state, read.disk, slug, panelRev, version))
  }

  predicate SamePanel(a: PageState, b: PageState) { a.panelRev == b.panelRev && a.sceneVersion == b.sceneVersion }

  /** What it leaves on the page: the active project and the revision of the registry it read. So the
      page is in step if no edit was saved in between, and, with up-to-date copies, only then. And
      without such an edit it leaves what a timely word would if and only if it is about the active
      project, or nothing was told about a scene meanwhile; else that is lost. */
  lemma LateTellIff(w: World, steps: seq<Step>, slug: string, panelRev: int, version: int)
    requires AllSound(w)
    ensures var later := Run(w, steps); var late := LateTell(later, w, slug, panelRev, version);
            && late.disk == later.disk && late.state.active == w.disk.active && late.state.projectsRev == w.disk.rev
            && (Saves(w, steps) == 0 ==> InStep(late))
            && (AllUpToDate(w, steps) ==> (InStep(late) <==> Saves(w, steps) == 0))
            && (Saves(w, steps) == 0 ==>
                  (late == Next(later, Tell(slug, panelRev, version)) <==>
                   w.disk.active == Some(slug) || SamePanel(later.state, w.state)))
  {
    if Saves(w, steps) == 0 {
      WithoutSavesKept(w, steps);
    }
    if AllUpToDate(w, steps) {
      RevCountsSaves(w, steps);
    }
  }
}
