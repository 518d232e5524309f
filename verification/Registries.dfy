/**
 The project registry (`projects.json`) and the page's anchor (`state.json`) of `recipe.py`,
 shared by overlapping processes. Every process works on the copy it loaded when it started;
 each file write is one step. Timestamps are left out.
 */
module Registries {
  import opened Options
  import opened Slugs

  datatype Project = Project(slug: string, name: string, count: int)

  datatype Registry = Registry(rev: int, active: Option<string>, projects: seq<Project>)

  /** What the page polls. */
  datatype PageState = PageState(active: Option<string>, projectsRev: int, panelRev: int, sceneVersion: int)

  predicate DistinctSlugs(ps: seq<Project>) { forall i, j | 0 <= i < j < |ps| :: ps[i].slug != ps[j].slug }

  predicate Known(ps: seq<Project>, slug: string) { exists i | 0 <= i < |ps| :: ps[i].slug == slug }

  predicate ActiveKnown(reg: Registry) { reg.active.Some? && Known(reg.projects, reg.active.value) }

  /** The registry invariant: some project, no slug twice, and the active one among them. */
  ghost predicate Sound(reg: Registry) { reg.projects != [] && DistinctSlugs(reg.projects) && ActiveKnown(reg) }

  const DEFAULT: Project := Project("street-corner", "街角", 0)

  /** `migrate_to_projects`: what is read, or written anew when there is no registry file yet. */
  function Loaded(file: Option<Registry>, hasScene: bool): Registry {
    if file.Some? then file.value
    else
      var first := if hasScene then DEFAULT else Project("untitled", "未命名", 0);
      Registry(1, Some(first.slug), [first])
  }

  /** `ensure_projects` on a registry that was loaded. */
  function Ensured(reg: Registry): Registry {
    var r := if reg.projects == [] then Registry(reg.rev + 1, Some(DEFAULT.slug), [DEFAULT]) else reg;
    if ActiveKnown(r) then r else r.(rev := r.rev + 1, active := Some(r.projects[0].slug))
  }

  /** It repairs everything but repeated slugs, and leaves a sound registry alone. */
  lemma EnsuredSoundIff(file: Option<Registry>, hasScene: bool)
    ensures Sound(Ensured(Loaded(file, hasScene))) <==> file.None? || DistinctSlugs(file.value.projects)
    ensures file.Some? && Sound(file.value) ==> Ensured(Loaded(file, hasScene)) == file.value
    ensures var r := Ensured(Loaded(file, hasScene));
            r.rev == if file.None? then 1
                     else file.value.rev + if file.value.projects != [] && ActiveKnown(file.value) then 0 else 1
    ensures file.None? ==> forall p | p in Ensured(Loaded(file, hasScene)).projects :: p.count == 0
  {
    var r := Ensured(Loaded(file, hasScene));
    assert r.projects[0].slug == r.projects[0].slug && Known(r.projects, r.projects[0].slug);
  }

  // ---- edits of a registry

  function SlugSet(ps: seq<Project>): set<string> { set i | 0 <= i < |ps| :: ps[i].slug }

  function Saved(reg: Registry): Registry { reg.(rev := reg.rev + 1) }

  function Created(reg: Registry, slug: string, name: string): Registry {
    Saved(reg.(active := Some(slug), projects := reg.projects + [Project(slug, name, 0)]))
  }

  function Switched(reg: Registry, slug: string): Registry { Saved(reg.(active := Some(slug))) }

  function RenamedIn(ps: seq<Project>, slug: string, name: string): seq<Project> {
    seq(|ps|, (i: nat) requires i < |ps| => if ps[i].slug == slug then ps[i].(name := name) else ps[i])
  }

  function Renamed(reg: Registry, slug: string, name: string): Registry {
    Saved(reg.(projects := RenamedIn(reg.projects, slug, name)))
  }

  function Dropped(ps: seq<Project>, slug: string): seq<Project> {
    if |ps| == 0 then []
    else Dropped(ps[..|ps| - 1], slug) + if ps[|ps| - 1].slug == slug then [] else [ps[|ps| - 1]]
  }

  function Deleted(reg: Registry, slug: string): Registry {
    var rest := Dropped(reg.projects, slug);
    var active := if reg.active == Some(slug) && rest != [] then Some(rest[0].slug) else reg.active;
    Saved(reg.(projects := rest, active := active))
  }

  /** `touch_registry`: only the object count of one project. */
  function Touched(reg: Registry, slug: string, count: int): Registry {
    reg.(projects := seq(|reg.projects|, (i: nat) requires i < |reg.projects| =>
                           if reg.projects[i].slug == slug then reg.projects[i].(count := count) else reg.projects[i]))
  }

  lemma {:induction false} DroppedFacts(ps: seq<Project>, slug: string)
    requires DistinctSlugs(ps)
    ensures DistinctSlugs(Dropped(ps, slug))
    ensures forall x :: x in Dropped(ps, slug) <==> x in ps && x.slug != slug
    ensures |Dropped(ps, slug)| >= |ps| - 1
    ensures !Known(ps, slug) ==> Dropped(ps, slug) == ps
  {
    if |ps| > 0 {
      var front, last := ps[..|ps| - 1], ps[|ps| - 1];
      assert ps == front + [last];
      DroppedFacts(front, slug);
      DroppedLast(front, last, slug, Dropped(front, slug));
    }
  }

  lemma DroppedLast(front: seq<Project>, last: Project, slug: string, rest: seq<Project>)
    requires DistinctSlugs(front + [last]) && DistinctSlugs(rest) && |rest| >= |front| - 1
    requires forall x :: x in rest <==> x in front && x.slug != slug
    requires !Known(front, slug) ==> rest == front
    ensures var more := rest + if last.slug == slug then [] else [last];
            && DistinctSlugs(more) && |more| >= |front|
            && (forall x :: x in more <==> x in front + [last] && x.slug != slug)
            && (!Known(front + [last], slug) ==> more == front + [last])
  {
    var ps := front + [last];
    assert forall i | 0 <= i < |front| :: ps[i] == front[i] && ps[i].slug != ps[|front|].slug;
    assert forall i | 0 <= i < |rest| :: rest[i] in rest && rest[i] in front;
    if last.slug == slug {
      assert !Known(front, slug);
    }
    if Known(front, slug) {
      var i :| 0 <= i < |front| && front[i].slug == slug;
      assert ps[i].slug == slug;
    }
  }

  lemma DroppedKnown(ps: seq<Project>, slug: string, s: string)
    requires DistinctSlugs(ps)
    ensures Known(Dropped(ps, slug), s) <==> Known(ps, s) && s != slug
  {
    DroppedFacts(ps, slug);
    var rest := Dropped(ps, slug);
    if Known(rest, s) {
      var i :| 0 <= i < |rest| && rest[i].slug == s;
      assert rest[i] in ps;
    }
    if Known(ps, s) && s != slug {
      var i :| 0 <= i < |ps| && ps[i].slug == s;
      assert ps[i] in rest;
    }
  }

  // ---- the files

  datatype Outcome = Refused | Unchanged | Written

  /** Both files. */
  datatype Disk = Disk(registry: Registry, state: PageState)

  class Files {
    var registry: Registry
    var state: PageState

    constructor (registry: Registry, state: PageState)
      ensures this.registry == registry && this.state == state
    {
      this.registry := registry;
      this.state := state;
    }

    /** `touch_registry`, from a fresh read: the first entry of that slug gets the count. */
    method TouchRegistry(slug: string, count: int)
      requires DistinctSlugs(registry.projects)
      modifies this`registry
      ensures registry == Touched(old(registry), slug, count)
    {
      var ps := registry.projects;
      var i := 0;
      while i < |ps| && ps[i].slug != slug
        invariant i <= |ps| && forall k | 0 <= k < i :: ps[k].slug != slug
      {
        i := i + 1;
      }
      if i < |ps| {
        if ps[i].count != count {
          registry := registry.(projects := ps[i := ps[i].(count := count)]);
        }
      }
      assert registry.projects == Touched(old(registry), slug, count).projects;
    }

    /** `write_state`: the active project comes from the registry alone, and what the page sees of
        a scene is left alone unless the scene is the active one's. */
    method WriteState(reg: Registry, slug: string, panelRev: int, version: int)
      modifies this`state
      ensures state == StateFor(old(state), reg, slug, panelRev, version)
    {
      var onActive := reg.active == Some(slug);
      state := PageState(reg.active, reg.rev,
                         if onActive then panelRev else state.panelRev,
                         if onActive then version else state.sceneVersion);
    }

    /** The page knows the registry's revision. */
    predicate InStep()
      reads this
    {
      state.projectsRev == registry.rev
    }

    /** `sync_project`: a touch, and then the page's anchor from the registry as it is read once more;
        `meanwhile` is what other processes do to the files between the two writes. */
    method SyncProject(slug: string, count: int, panelRev: int, version: int, meanwhile: Disk -> Disk)
      requires DistinctSlugs(registry.projects)
      modifies this
      ensures var found := meanwhile(Disk(Touched(old(registry), slug, count), old(state)));
              registry == found.registry && state == StateFor(found.state, found.registry, slug, panelRev, version)
      ensures InStep()
    {
      TouchRegistry(slug, count);
      var found := meanwhile(Disk(registry, state));
      registry, state := found.registry, found.state;
      WriteState(registry, slug, panelRev, version);
    }

    /** `do_project_create`, on the copy `reg` its process loaded. */
    method ProjectCreate(reg: Registry, lowered: string, name: string, panelRev: int)
      returns (r: Outcome, copy: Registry)
      requires Sound(reg)
      modifies this
      ensures Sound(copy) && (name == "" <==> r == Refused)
      ensures r == Refused ==> copy == reg && registry == old(registry) && state == old(state)
      ensures r != Refused ==>
                exists slug :: !Known(reg.projects, slug) && LegalSlug(slug) && copy == Created(reg, slug, name)
                  && registry == Touched(copy, slug, 0) && state == StateFor(old(state), copy, slug, panelRev, 0)
      ensures r != Refused ==> InStep()
      ensures r != Refused ==>
                && |copy.projects| == |reg.projects| + 1 && reg.projects <= copy.projects && copy.rev == reg.rev + 1
                && var added := copy.projects[|reg.projects|];
                   added.name == name && added.count == 0 && copy.active == Some(added.slug)
    {
      if name == "" {
        return Refused, reg;
      }
      var slug := Slugify(lowered, SlugSet(reg.projects));
      CreatedSound(reg, slug, name);
      copy := Created(reg, slug, name);
      registry := copy;
      SyncProject(slug, 0, panelRev, 0, d => d);
      r := Written;
    }

    /** `do_project_switch`. */
    method ProjectSwitch(reg: Registry, slug: string, count: int, panelRev: int, version: int)
      returns (r: Outcome, copy: Registry)
      requires Sound(reg)
      modifies this
      ensures Sound(copy)
      ensures r == if !Known(reg.projects, slug) then Refused
                   else if reg.active == Some(slug) then Unchanged else Written
      ensures r != Written ==> copy == reg && registry == old(registry) && state == old(state)
      ensures r == Written ==> copy == Switched(reg, slug) && registry == Touched(copy, slug, count)
      ensures r == Written ==> state == StateFor(old(state), copy, slug, panelRev, version) && InStep()
    {
      copy := reg;
      if !Known(reg.projects, slug) {
        return Refused, reg;
      }
      if reg.active == Some(slug) {
        return Unchanged, reg;
      }
      copy := Switched(reg, slug);
      registry := copy;
      SyncProject(slug, count, panelRev, version, d => d);
      r := Written;
    }

    /** `do_project_rename`: the anchor is not rewritten, so on a current copy a page that was in step
        falls behind exactly when the rename is written. */
    method ProjectRename(reg: Registry, slug: string, name: string) returns (r: Outcome, copy: Registry)
      requires Sound(reg)
      modifies this`registry
      ensures Sound(copy) && r == (if name == "" || !Known(reg.projects, slug) then Refused else Written)
      ensures r == Refused ==> copy == reg && registry == old(registry)
      ensures r == Written ==> copy == registry == Renamed(reg, slug, name)
      ensures old(InStep()) && reg.rev == old(registry.rev) ==> (InStep() <==> r == Refused)
    {
      if name == "" || !Known(reg.projects, slug) {
        return Refused, reg;
      }
      RenamedSound(reg, slug, name);
      copy := Renamed(reg, slug, name);
      registry := copy;
      r := Written;
    }

    /** `do_project_delete`: the last project stays. */
    method ProjectDelete(reg: Registry, slug: string, count: int, panelRev: int, version: int)
      returns (r: Outcome, copy: Registry)
      requires Sound(reg)
      modifies this
      ensures Sound(copy)
      ensures r == if Known(reg.projects, slug) && |reg.projects| > 1 then Written else Refused
      ensures r == Refused ==> copy == reg && registry == old(registry) && state == old(state)
      ensures r == Written ==> copy == Deleted(reg, slug) && !Known(copy.projects, slug)
      ensures r == Written ==> registry == Touched(copy, copy.active.value, count)
      ensures r == Written ==> state == StateFor(old(state), copy, copy.active.value, panelRev, version) && InStep()
    {
      copy := reg;
      if !Known(reg.projects, slug) || |reg.projects| <= 1 {
        return Refused, reg;
      }
      DeletedSound(reg, slug);
      DroppedKnown(reg.projects, slug, slug);
      copy := Deleted(reg, slug);
      registry := copy;
      SyncProject(copy.active.value, count, panelRev, version, d => d);
      r := Written;
    }
  }

  function StateFor(before: PageState, reg: Registry, slug: string, panelRev: int, version: int): PageState {
    if reg.active == Some(slug) then PageState(reg.active, reg.rev, panelRev, version)
    else before.(active := reg.active, projectsRev := reg.rev)
  }

  lemma CreatedSound(reg: Registry, slug: string, name: string)
    requires Sound(reg) && slug !in SlugSet(reg.projects)
    ensures Sound(Created(reg, slug, name)) && !Known(reg.projects, slug)
  {
    var ps := Created(reg, slug, name).projects;
    assert ps[|ps| - 1].slug == slug;
  }

  lemma RenamedSound(reg: Registry, slug: string, name: string)
    requires Sound(reg)
    ensures Sound(Renamed(reg, slug, name))
  {
    var ps := Renamed(reg, slug, name).projects;
    assert forall i | 0 <= i < |ps| :: ps[i].slug == reg.projects[i].slug;
    var i :| 0 <= i < |reg.projects| && reg.projects[i].slug == reg.active.value;
    assert ps[i].slug == reg.active.value;
  }

  lemma DeletedSound(reg: Registry, slug: string)
    requires Sound(reg) && |reg.projects| > 1
    ensures Sound(Deleted(reg, slug))
  {
    DroppedFacts(reg.projects, slug);
    DroppedKnown(reg.projects, slug, reg.active.value);
    var rest := Dropped(reg.projects, slug);
    assert Known(rest, rest[0].slug);
  }

  lemma TouchedSound(reg: Registry, slug: string, count: int)
    requires Sound(reg)
    ensures Sound(Touched(reg, slug, count))
  {
    var ps := Touched(reg, slug, count).projects;
    assert forall i | 0 <= i < |ps| :: ps[i].slug == reg.projects[i].slug;
    var i :| 0 <= i < |reg.projects| && reg.projects[i].slug == reg.active.value;
    assert ps[i].slug == reg.active.value;
  }

  // ---- what each edit leaves, by position

  lemma {:induction false} NoneDropped(ps: seq<Project>, slug: string)
    requires forall k | 0 <= k < |ps| :: ps[k].slug != slug
    ensures Dropped(ps, slug) == ps
  {
    if |ps| > 0 {
      NoneDropped(ps[..|ps| - 1], slug);
    }
  }

  lemma {:induction false} DroppedIs(ps: seq<Project>, i: nat)
    requires DistinctSlugs(ps) && i < |ps|
    ensures Dropped(ps, ps[i].slug) == ps[..i] + ps[i + 1..]
  {
    var n := |ps| - 1;
    if i == n {
      NoneDropped(ps[..n], ps[n].slug);
    } else {
      DroppedIs(ps[..n], i);
    }
  }

  /** A deletion takes out one entry; if it was the active one, the first of the others becomes active. */
  lemma DeletedIs(reg: Registry, i: nat)
    requires Sound(reg) && |reg.projects| > 1 && i < |reg.projects|
    ensures var slug := reg.projects[i].slug;
            var first := reg.projects[if i == 0 then 1 else 0].slug;
            Deleted(reg, slug) == Registry(reg.rev + 1, if reg.active == Some(slug) then Some(first) else reg.active,
                                           reg.projects[..i] + reg.projects[i + 1..])
  {
    DroppedIs(reg.projects, i);
  }

  /** A rename changes one name and the revision, a touch one count and not even that. */
  lemma EntryChangedIs(reg: Registry, i: nat, name: string, count: int)
    requires DistinctSlugs(reg.projects) && i < |reg.projects|
    ensures var p := reg.projects[i];
            && Renamed(reg, p.slug, name) == Registry(reg.rev + 1, reg.active, reg.projects[i := p.(name := name)])
            && Touched(reg, p.slug, count) == Registry(reg.rev, reg.active, reg.projects[i := p.(count := count)])
  {
    var p := reg.projects[i];
    assert Renamed(reg, p.slug, name).projects == reg.projects[i := p.(name := name)];
    assert Touched(reg, p.slug, count).projects == reg.projects[i := p.(count := count)];
  }
}
