/**
 Whole runs of `WarmSessionPool`: any sequence of acquisitions, evictions and shutdowns, with
 sessions dying in between.
 */
module PoolRuns {
  import opened SessionPool

  datatype Op =
    | Acquire(id: string, opens: bool, hookRaises: bool)
    | EvictIdle(idle: set<string>)
    | Shutdown
    | Dies(name: string)

  function Step(s: Setting, p: Pool, op: Op): Pool {
    match op
    case Acquire(id, opens, hookRaises) => Acquired(s, p, id, opens, hookRaises).0
    case EvictIdle(idle) => Removed(s, p, idle)
    case Shutdown => Removed(s, p, Elems(p.ids))
    case Dies(name) => p.(live := p.live - {name})
  }

  function Steps(s: Setting, p: Pool, ops: seq<Op>): Pool {
    if |ops| == 0 then p else Step(s, Steps(s, p, ops[..|ops| - 1]), ops[|ops| - 1])
  }

  /** Every acquisition of the run returned its session. */
  predicate Returns(s: Setting, p: Pool, ops: seq<Op>) {
    |ops| == 0
    || (Returns(s, p, ops[..|ops| - 1])
        && var op := ops[|ops| - 1];
        op.Acquire? ==> Acquired(s, Steps(s, p, ops[..|ops| - 1]), op.id, op.opens, op.hookRaises).1)
  }

  // ---- size and distinctness

  lemma {:induction false} KeepDistinct(ids: seq<string>, gone: set<string>)
    requires Distinct(ids)
    ensures Distinct(Keep(ids, gone)) && |Keep(ids, gone)| <= |ids|
  {
    if |ids| > 0 {
      var front, last := ids[..|ids| - 1], ids[|ids| - 1];
      assert last !in front;
      KeepDistinct(front, gone);
      KeepIn(front, gone, last);
    }
  }

  ghost predicate Sound(s: Setting, p: Pool) { s.max >= 1 && |p.ids| <= s.max && Distinct(p.ids) }

  lemma StepSound(s: Setting, p: Pool, op: Op)
    requires Sound(s, p)
    ensures Sound(s, Step(s, p, op))
  {
    match op
    case Acquire(id, _, _) => PutLast(s.max, p.ids, id);
    case EvictIdle(idle) => KeepDistinct(p.ids, idle);
    case Shutdown => KeepDistinct(p.ids, Elems(p.ids));
    case Dies(_) =>
  }

  /** No run, whatever fails or dies in it, exceeds the size or holds an id twice. */
  lemma {:induction false} StaysSound(s: Setting, p: Pool, ops: seq<Op>)
    requires Sound(s, p)
    ensures Sound(s, Steps(s, p, ops))
  {
    if |ops| > 0 {
      StaysSound(s, p, ops[..|ops| - 1]);
      StepSound(s, Steps(s, p, ops[..|ops| - 1]), ops[|ops| - 1]);
    }
  }

  /** An acquisition that returns puts its id last and drops from the head only what is too much. */
  lemma ReturnedPutsLast(s: Setting, p: Pool, id: string, opens: bool, hookRaises: bool)
    requires Sound(s, p) && Acquired(s, p, id, opens, hookRaises).1
    ensures Acquired(s, p, id, opens, hookRaises).0.ids == LastN(s.max, Without(p.ids, id) + [id])
  {
    PutLast(s.max, p.ids, id);
  }

  // ---- recency

  /** The distinct elements, each at its last occurrence. */
  function ByLastUse<T(==)>(used: seq<T>): seq<T> {
    if |used| == 0 then [] else (if used[0] in used[1..] then [] else [used[0]]) + ByLastUse(used[1..])
  }

  lemma {:induction false} ByLastUseIn<T>(used: seq<T>, x: T)
    ensures x in ByLastUse(used) <==> x in used
  {
    if |used| > 0 {
      assert used == [used[0]] + used[1..];
      ByLastUseIn(used[1..], x);
    }
  }

  lemma {:induction false} ByLastUseDistinct<T>(used: seq<T>)
    ensures Distinct(ByLastUse(used))
  {
    if |used| > 0 {
      ByLastUseDistinct(used[1..]);
      ByLastUseIn(used[1..], used[0]);
    }
  }

  /** Using an id once more moves it to the end. */
  lemma {:induction false} UsedOnceMore<T>(used: seq<T>, id: T)
    ensures ByLastUse(used + [id]) == Without(ByLastUse(used), id) + [id]
  {
    if |used| == 0 {
      assert used + [id] == [id];
      assert [id][1..] == [];
    } else {
      var first, rest := used[0], used[1..];
      assert (used + [id])[1..] == rest + [id] && (used + [id])[0] == first;
      assert first in rest + [id] <==> first in rest || first == id;
      UsedOnceMore(rest, id);
      WithoutHead(if first in rest then [] else [first], ByLastUse(rest), id);
    }
  }

  lemma WithoutHead<T>(head: seq<T>, rest: seq<T>, id: T)
    requires |head| <= 1
    ensures Without(head + rest, id) == (if head == [id] then [] else head) + Without(rest, id)
  {
    KeepAppend(head, rest, {id});
    KeepOne(head, id);
    KeepOne(rest, id);
    KeepOne(head + rest, id);
  }

  lemma LastOfSuffix(m: nat, n: nat, a: seq<string>, b: seq<string>)
    requires Suffix(a, b) && m <= n
    ensures Suffix(LastN(m, a), LastN(n, b))
    ensures |a| >= m || a == b ==> LastN(m, a) == LastN(m, b)
  {
  }

  lemma WithoutLength(ids: seq<string>, id: string)
    requires Distinct(ids)
    ensures |ids| - 1 <= |Without(ids, id)| <= |ids|
  {
    WithoutFacts(ids, id);
  }

  /** Cutting to size before or after putting an id last makes no difference. */
  lemma CutCommutes(m: nat, all: seq<string>, id: string)
    requires m >= 1 && Distinct(all)
    ensures LastN(m, Without(LastN(m, all), id) + [id]) == LastN(m, Without(all, id) + [id])
  {
    var cut := LastN(m, all);
    assert Suffix(cut, all) && Distinct(cut);
    SuffixKeep(cut, all, {id});
    KeepOne(cut, id);
    KeepOne(all, id);
    WithoutLength(cut, id);
    SuffixSnoc(Without(cut, id), Without(all, id), id);
    LastOfSuffix(m, m, Without(cut, id) + [id], Without(all, id) + [id]);
  }

  lemma SuffixSnoc(a: seq<string>, b: seq<string>, x: string)
    requires Suffix(a, b)
    ensures Suffix(a + [x], b + [x])
  {
    assert b == b[..|b| - |a|] + a;
    assert b + [x] == b[..|b| - |a|] + (a + [x]);
  }

  /** The ids acquired in a run, in order. */
  function Used(ops: seq<Op>): seq<string> {
    if |ops| == 0 then []
    else Used(ops[..|ops| - 1]) + if ops[|ops| - 1].Acquire? then [ops[|ops| - 1].id] else []
  }

  /** A run of acquisitions that all return, from an empty pool and with any deaths in between,
      leaves exactly the `max` most recently acquired distinct ids, in order of last use. */
  lemma {:induction false} HoldsMostRecent(s: Setting, p: Pool, ops: seq<Op>)
    requires s.max >= 1 && p.ids == [] && Returns(s, p, ops)
    requires forall op | op in ops :: op.Acquire? || op.Dies?
    ensures Steps(s, p, ops).ids == LastN(s.max, ByLastUse(Used(ops)))
  {
    if |ops| > 0 {
      var front, op := ops[..|ops| - 1], ops[|ops| - 1];
      var q := Steps(s, p, front);
      HoldsMostRecent(s, p, front);
      assert op in ops;
      if op.Acquire? {
        StaysSound(s, p, front);
        ReturnedPutsLast(s, q, op.id, op.opens, op.hookRaises);
        ByLastUseDistinct(Used(front));
        CutCommutes(s.max, ByLastUse(Used(front)), op.id);
        UsedOnceMore(Used(front), op.id);
      } else {
        assert Used(ops) == Used(front);
      }
    }
  }

  /** A smaller pool is always a suffix of a larger one that serves the same requests, whatever
      happens to the sessions of either, as long as every acquisition returns. */
  lemma {:induction false} SmallerIsSuffix(s: Setting, t: Setting, p: Pool, q: Pool, ops: seq<Op>)
    requires Sound(s, p) && Sound(t, q) && s.max <= t.max && Suffix(p.ids, q.ids)
    requires Returns(s, p, ops) && Returns(t, q, ops)
    ensures Suffix(Steps(s, p, ops).ids, Steps(t, q, ops).ids)
  {
    if |ops| > 0 {
      var front, op := ops[..|ops| - 1], ops[|ops| - 1];
      var p', q' := Steps(s, p, front), Steps(t, q, front);
      SmallerIsSuffix(s, t, p, q, front);
      StaysSound(s, p, front);
      StaysSound(t, q, front);
      StepKeepsSuffix(s, t, p', q', op);
    }
  }

  lemma StepKeepsSuffix(s: Setting, t: Setting, p: Pool, q: Pool, op: Op)
    requires Sound(s, p) && Sound(t, q) && s.max <= t.max && Suffix(p.ids, q.ids)
    requires op.Acquire? ==>
               Acquired(s, p, op.id, op.opens, op.hookRaises).1 && Acquired(t, q, op.id, op.opens, op.hookRaises).1
    ensures Suffix(Step(s, p, op).ids, Step(t, q, op).ids)
  {
    match op
    case Acquire(id, opens, hookRaises) =>
      ReturnedPutsLast(s, p, id, opens, hookRaises);
      ReturnedPutsLast(t, q, id, opens, hookRaises);
      SuffixKeep(p.ids, q.ids, {id});
      KeepOne(p.ids, id);
      KeepOne(q.ids, id);
      SuffixSnoc(Without(p.ids, id), Without(q.ids, id), id);
      LastOfSuffix(s.max, t.max, Without(p.ids, id) + [id], Without(q.ids, id) + [id]);
    case EvictIdle(idle) => SuffixKeep(p.ids, q.ids, idle);
    case Shutdown => KeepNone(p.ids);
    case Dies(_) =>
  }

  // ---- live sessions

  ghost predicate NamesApart(s: Setting, ids: set<string>) {
    forall a, b | a in ids && b in ids && s.name(a) == s.name(b) :: a == b
  }

  function Image(s: Setting, ids: set<string>): set<string> { set id | id in ids :: s.name(id) }

  /** Of the sessions the pool ever opened, none is alive outside its entries. */
  ghost predicate NoStrays(s: Setting, p: Pool) { p.live * p.made <= Image(s, Elems(p.ids)) }

  /** ... and every entry is one of them. */
  ghost predicate AllAlive(s: Setting, p: Pool) { Image(s, Elems(p.ids)) <= p.live * p.made }

  /** Both, on sets, as far as they hold. */
  ghost predicate Consistent(s: Setting, live: set<string>, made: set<string>, ids: set<string>, exact: bool) {
    live * made <= Image(s, ids) && (exact ==> Image(s, ids) <= live * made)
  }

  lemma DropConsistent(s: Setting, live: set<string>, made: set<string>, ids: set<string>, gone: set<string>,
                       exact: bool)
    requires Consistent(s, live, made, ids, exact) && NamesApart(s, ids + gone)
    ensures Consistent(s, live - Image(s, gone), made, ids - gone, exact)
  {
    var rest := live - Image(s, gone);
    forall x | x in rest * made
      ensures x in Image(s, ids - gone)
    {
      assert x in Image(s, ids);
      var a :| a in ids && s.name(a) == x;
      assert a !in gone;
    }
    if exact {
      forall x | x in Image(s, ids - gone)
        ensures x in rest * made
      {
        var a :| a in ids - gone && s.name(a) == x;
        assert a in ids + gone && x in Image(s, ids);
        assert forall g | g in gone :: g in ids + gone;
      }
    }
  }

  lemma AddConsistent(s: Setting, live: set<string>, made: set<string>, ids: set<string>, id: string, exact: bool)
    requires Consistent(s, live, made, ids, exact)
    ensures Consistent(s, live + {s.name(id)}, made + {s.name(id)}, ids + {id}, exact)
  {
    assert Image(s, ids + {id}) == Image(s, ids) + {s.name(id)};
  }

  lemma MadeMore(s: Setting, live: set<string>, made: set<string>, ids: set<string>, n: string, exact: bool)
    requires Consistent(s, live, made, ids, exact) && n !in live
    ensures Consistent(s, live, made + {n}, ids, exact)
  {
    assert live * (made + {n}) == live * made;
  }

  lemma ElemsWithout(ids: seq<string>, id: string)
    ensures Elems(Without(ids, id)) == Elems(ids) - {id}
    ensures Elems(Without(ids, id) + [id]) == Elems(ids) - {id} + {id}
  {
    forall a ensures a in Without(ids, id) <==> a in ids && a != id { WithoutIn(ids, id, a); }
  }

  lemma ElemsKeep(ids: seq<string>, gone: set<string>)
    ensures Elems(Keep(ids, gone)) == Elems(ids) - gone
  {
    forall a ensures a in Keep(ids, gone) <==> a in ids && a !in gone { KeepIn(ids, gone, a); }
  }

  /** Cutting a sequence without repetitions to size splits its elements in two. */
  lemma ElemsCut(max: nat, all: seq<string>)
    requires Distinct(all)
    ensures Elems(LastN(max, all)) == Elems(all) - Elems(Dropped(max, all))
    ensures Elems(Dropped(max, all)) <= Elems(all)
  {
    assert all == Dropped(max, all) + LastN(max, all);
    forall a, b | a in Dropped(max, all) && b in LastN(max, all)
      ensures a != b
    {
      var i :| 0 <= i < |Dropped(max, all)| && Dropped(max, all)[i] == a;
      var j :| 0 <= j < |LastN(max, all)| && LastN(max, all)[j] == b;
      assert all[i] == a && all[|Dropped(max, all)| + j] == b;
    }
  }

  ghost predicate ConsistentPool(s: Setting, p: Pool, exact: bool) {
    Consistent(s, p.live, p.made, Elems(p.ids), exact)
  }

  /** Closing a session of that name, opening one anew, and dropping what is too much. */
  lemma ReopenConsistent(s: Setting, live: set<string>, made: set<string>, ids: set<string>, id: string, exact: bool)
    requires Consistent(s, live, made, ids, exact) && NamesApart(s, ids + {id})
    ensures var n := s.name(id);
            && Consistent(s, live - {n}, made + {n}, ids - {id}, exact)
            && Consistent(s, live - {n} + {n}, made + {n}, ids - {id} + {id}, exact)
  {
    var n := s.name(id);
    assert Image(s, {id}) == {n};
    DropConsistent(s, live, made, ids, {id}, exact);
    MadeMore(s, live - {n}, made, ids - {id}, n, exact);
    AddConsistent(s, live - {n}, made, ids - {id}, id, exact);
  }

  lemma CutConsistent(s: Setting, live: set<string>, made: set<string>, all: seq<string>, exact: bool)
    requires Consistent(s, live, made, Elems(all), exact) && NamesApart(s, Elems(all)) && Distinct(all)
    ensures Consistent(s, live - Names(s, Dropped(s.max, all)), made, Elems(LastN(s.max, all)), exact)
    ensures Elems(LastN(s.max, all)) <= Elems(all)
  {
    var gone := Elems(Dropped(s.max, all));
    ElemsCut(s.max, all);
    assert Elems(all) + gone == Elems(all);
    DropConsistent(s, live, made, Elems(all), gone, exact);
    assert Names(s, Dropped(s.max, all)) == Image(s, gone);
  }

  lemma OpenedConsistent(s: Setting, p: Pool, id: string, all: seq<string>, exact: bool)
    requires Sound(s, p) && NamesApart(s, Elems(all)) && all == Without(p.ids, id) + [id]
    requires var n := s.name(id); Consistent(s, p.live - {n} + {n}, p.made + {n}, Elems(all), exact)
    ensures var n := s.name(id);
            Consistent(s, p.live - {n} + {n} - Names(s, Dropped(s.max, all)), p.made + {n}, Elems(LastN(s.max, all)),
                       exact)
    ensures Elems(LastN(s.max, all)) <= Elems(all)
  {
    PutLast(s.max, p.ids, id);
    CutConsistent(s, p.live - {s.name(id)} + {s.name(id)}, p.made + {s.name(id)}, all, exact);
  }

  lemma AcquireConsistent(s: Setting, p: Pool, id: string, opens: bool, exact: bool)
    requires Sound(s, p) && s.stuck == {} && NamesApart(s, Elems(p.ids) + {id}) && ConsistentPool(s, p, exact)
    ensures ConsistentPool(s, Acquired(s, p, id, opens, false).0, exact)
    ensures Elems(Acquired(s, p, id, opens, false).0.ids) <= Elems(p.ids) + {id}
  {
    var n, E, all := s.name(id), Elems(p.ids), Without(p.ids, id) + [id];
    ElemsWithout(p.ids, id);
    ReopenConsistent(s, p.live, p.made, E, id, exact);
    assert E - {id} + {id} == E + {id};
    if id in p.ids && n in p.live {
      assert E + {id} == E;
    } else if opens {
      OpenedConsistent(s, p, id, all, exact);
    } else {
      assert p.live - {n} + {n} - {n} == p.live - {n};
    }
  }

  lemma RemovedConsistent(s: Setting, p: Pool, gone: set<string>, exact: bool)
    requires s.stuck == {} && NamesApart(s, Elems(p.ids)) && ConsistentPool(s, p, exact)
    ensures ConsistentPool(s, Removed(s, p, gone), exact) && Elems(Removed(s, p, gone).ids) <= Elems(p.ids)
  {
    var E := Elems(p.ids);
    ElemsKeep(p.ids, gone);
    DropConsistent(s, p.live, p.made, E, E * gone, exact);
    assert E - gone == E - E * gone;
    assert NamesIn(s, p.ids, gone) == Image(s, E * gone);
  }

  /** The ids a run names are kept apart by their tmux names, no hook raises, and sessions die
      only where the run says so. */
  ghost predicate Calm(ids: set<string>, op: Op) { op.Acquire? ==> op.id in ids && !op.hookRaises }

  lemma StepConsistent(s: Setting, p: Pool, op: Op, ids: set<string>, exact: bool)
    requires Sound(s, p) && s.stuck == {} && NamesApart(s, ids) && Elems(p.ids) <= ids && Calm(ids, op)
    requires ConsistentPool(s, p, exact)
    ensures Elems(Step(s, p, op).ids) <= ids && ConsistentPool(s, Step(s, p, op), exact && !op.Dies?)
  {
    match op
    case Acquire(id, opens, _) => AcquireConsistent(s, p, id, opens, exact);
    case EvictIdle(idle) => RemovedConsistent(s, p, idle, exact);
    case Shutdown => RemovedConsistent(s, p, Elems(p.ids), exact);
    case Dies(_) =>
  }

  ghost predicate NoDeaths(ops: seq<Op>) { forall op | op in ops :: !op.Dies? }

  lemma {:induction false} RunConsistent(s: Setting, p: Pool, ops: seq<Op>, ids: set<string>)
    requires s.max >= 1 && s.stuck == {} && NamesApart(s, ids) && p.ids == [] && p.made == {}
    requires forall op | op in ops :: Calm(ids, op)
    ensures ConsistentPool(s, Steps(s, p, ops), NoDeaths(ops)) && Elems(Steps(s, p, ops).ids) <= ids
  {
    if |ops| > 0 {
      var front, op := ops[..|ops| - 1], ops[|ops| - 1];
      RunConsistent(s, p, front, ids);
      StaysSound(s, p, front);
      assert ops == front + [op] && op in ops;
      StepConsistent(s, Steps(s, p, front), op, ids, NoDeaths(front));
    }
  }

  /** With names kept apart, kills that work and hooks that do not raise, the sessions the pool
      opened that are still alive are all entries of it, whatever fails to open or dies; and in
      runs without deaths they are exactly its entries. */
  lemma LiveAreEntries(s: Setting, p: Pool, ops: seq<Op>, ids: set<string>)
    requires s.max >= 1 && s.stuck == {} && NamesApart(s, ids) && p.ids == [] && p.made == {}
    requires forall op | op in ops :: Calm(ids, op)
    ensures NoStrays(s, Steps(s, p, ops)) && (NoDeaths(ops) ==> AllAlive(s, Steps(s, p, ops)))
  {
    RunConsistent(s, p, ops, ids);
  }

  /** A session just returned is alive unless an entry that had to go shares its name and could be
      killed. */
  lemma ReturnedIsAliveIff(s: Setting, p: Pool, id: string)
    requires Sound(s, p) && !Reused(s, p, id) && Acquired(s, p, id, true, false).1
    ensures s.name(id) in Acquired(s, p, id, true, false).0.live <==>
            s.name(id) in s.stuck || s.name(id) !in Names(s, Dropped(s.max, Without(p.ids, id) + [id]))
  {
  }

  /** The first acquisition of an empty pool. */
  lemma FirstAcquired(s: Setting, id: string)
    requires s.max >= 1
    ensures Acquired(s, Pool([], {}, {}), id, true, false) == (Pool([id], {s.name(id)}, {s.name(id)}), true)
  {
    var n := s.name(id);
    assert Without([], id) + [id] == [id] && Kill(s, {}, {n}) + {n} == {n} == {} + {n};
    assert Names(s, Dropped(s.max, [id])) == {} && Kill(s, {n}, {}) == {n};
  }

  /** What a pool of one does with a second id. */
  lemma SecondAcquired(s: Setting, a: string, b: string, p: Pool)
    requires s.max == 1 && a != b && p.ids == [a]
    ensures Without(p.ids, b) == [a] && Dropped(1, [a] + [b]) == [a] && LastN(1, [a] + [b]) == [b]
    ensures Names(s, [a]) == {s.name(a)}
  {
    assert [a][..0] == [];
  }

  /** A full pool of one: acquiring an id after another that has its name evicts the latter by that
      name and so kills the session it has just returned. */
  lemma SharedNameKills(s: Setting, a: string, b: string)
    requires s.max == 1 && s.stuck == {} && a != b && s.name(a) == s.name(b)
    ensures var p := Acquired(s, Pool([], {}, {}), a, true, false).0;
            var (q, returned) := Acquired(s, p, b, true, false);
            returned && q.ids == [b] && s.name(b) !in q.live
  {
    FirstAcquired(s, a);
    SecondAcquired(s, a, b, Pool([a], {s.name(a)}, {s.name(a)}));
  }

  /** ... as with "a:b" and "a.b". */
  lemma ColonAndDotShare(alnum: char -> bool)
    requires !alnum(':') && !alnum('.')
    ensures TmuxName(alnum, "a:b") == TmuxName(alnum, "a.b")
  {
    NamesCollideIff(alnum, "a:b", "a.b");
  }

  // ---- strays

  /** The entry is there and its session alive: the acquisition hands it out again. */
  predicate Reused(s: Setting, p: Pool, id: string) { id in p.ids && s.name(id) in p.live }

  /** Some entry that has to go is alive, of the pool's own making, and cannot be killed. */
  predicate DropsStuck(s: Setting, p: Pool, id: string) {
    Names(s, Dropped(s.max, Without(p.ids, id) + [id])) * s.stuck * p.live * p.made != {}
  }

  /** What makes an acquisition leave a session behind that no entry stands for. */
  predicate Strays(s: Setting, p: Pool, id: string, opens: bool, hookRaises: bool) {
    var n := s.name(id);
    if Reused(s, p, id) then false
    else if n in p.live && n in s.stuck then n in p.made
    else if !opens then n in s.stuck
    else hookRaises || DropsStuck(s, p, id)
  }

  /** Going from some ids to fewer strays exactly the live ones that are left out. */
  lemma StrayIff(s: Setting, own: set<string>, all: set<string>, kept: set<string>)
    requires own <= Image(s, all) && kept <= all && NamesApart(s, all)
    ensures own <= Image(s, kept) <==> Image(s, all - kept) * own == {}
  {
    if own <= Image(s, kept) {
      forall x | x in Image(s, all - kept)
        ensures x !in own
      {
        var a :| a in all - kept && s.name(a) == x;
        assert x in Image(s, kept) ==> exists b :: b in kept && s.name(b) == x;
      }
    }
    if Image(s, all - kept) * own == {} {
      forall x | x in own
        ensures x in Image(s, kept)
      {
        var a :| a in all && s.name(a) == x;
        assert a in all - kept ==> x in Image(s, all - kept) * own;
      }
    }
  }

  /** Leaving one id out strays its session, if that is alive. */
  lemma OneStrays(s: Setting, live: set<string>, made: set<string>, ids: set<string>, id: string)
    requires live * made <= Image(s, ids + {id}) && NamesApart(s, ids + {id})
    ensures live * made <= Image(s, ids - {id}) <==> s.name(id) !in live * made
  {
    StrayIff(s, live * made, ids + {id}, ids - {id});
    assert ids + {id} - (ids - {id}) == {id};
    assert Image(s, {id}) == {s.name(id)};
  }

  lemma KilledName(s: Setting, live: set<string>, n: string)
    ensures n in Kill(s, live, {n}) <==> n in live && n in s.stuck
    ensures n !in Kill(s, live, {n}) ==> Kill(s, live, {n}) == live - {n}
  {
  }

  lemma MoreOwn(s: Setting, live: set<string>, made: set<string>, ids: set<string>, id: string)
    requires live * made <= Image(s, ids)
    ensures live * made <= Image(s, ids + {id})
    ensures (live - {s.name(id)} + {s.name(id)}) * (made + {s.name(id)}) <= Image(s, ids + {id})
    ensures (live - {s.name(id)}) * (made + {s.name(id)}) <= Image(s, ids + {id})
  {
    assert Image(s, ids + {id}) == Image(s, ids) + {s.name(id)};
  }

  /** Exactly when an acquisition strays a session, whatever resists killing, does not open or
      raises: what the caller can see before it. */
  lemma StraysIff(s: Setting, p: Pool, id: string, opens: bool, hookRaises: bool)
    requires Sound(s, p) && NamesApart(s, Elems(p.ids) + {id}) && NoStrays(s, p)
    ensures NoStrays(s, Acquired(s, p, id, opens, hookRaises).0) <==> !Strays(s, p, id, opens, hookRaises)
  {
    var n, E := s.name(id), Elems(p.ids);
    ElemsWithout(p.ids, id);
    MoreOwn(s, p.live, p.made, E, id);
    KilledName(s, p.live, n);
    if Reused(s, p, id) {
      assert E - {id} + {id} == E;
    } else if n in p.live && n in s.stuck {
      OneStrays(s, p.live, p.made, E, id);
    } else if !opens {
      KilledName(s, p.live - {n} + {n}, n);
      OneStrays(s, Kill(s, p.live - {n} + {n}, {n}), p.made + {n}, E, id);
    } else if hookRaises {
      OneStrays(s, p.live - {n} + {n}, p.made + {n}, E, id);
    } else {
      ReturnedStraysIff(s, p, id);
    }
  }

  lemma ReturnedStraysIff(s: Setting, p: Pool, id: string)
    requires Sound(s, p) && NamesApart(s, Elems(p.ids) + {id}) && NoStrays(s, p)
    requires !Reused(s, p, id) && !(s.name(id) in p.live && s.name(id) in s.stuck)
    ensures NoStrays(s, Acquired(s, p, id, true, false).0) <==> !DropsStuck(s, p, id)
  {
    var n, all := s.name(id), Without(p.ids, id) + [id];
    var gone := Names(s, Dropped(s.max, all));
    KilledName(s, p.live, n);
    MoreOwn(s, p.live, p.made, Elems(p.ids), id);
    PutLast(s.max, p.ids, id);
    ElemsWithout(p.ids, id);
    assert Elems(all) == Elems(p.ids) + {id};
    var live := Kill(s, p.live - {n} + {n}, gone);
    CutStraysIff(s, live * (p.made + {n}), all);
    assert n !in gone by { NotDropped(s, p, id); }
    StuckOfGone(gone, s.stuck, p.live, p.made, n);
  }

  lemma StuckOfGone(gone: set<string>, stuck: set<string>, live: set<string>, made: set<string>, n: string)
    requires n !in gone
    ensures gone * ((live - {n} + {n} - (gone - stuck)) * (made + {n})) == gone * stuck * live * made
  {
  }

  lemma NotDropped(s: Setting, p: Pool, id: string)
    requires Sound(s, p) && NamesApart(s, Elems(p.ids) + {id})
    ensures s.name(id) !in Names(s, Dropped(s.max, Without(p.ids, id) + [id]))
  {
    var rest := Without(p.ids, id);
    var gone := Dropped(s.max, rest + [id]);
    forall x | x in gone
      ensures x in Elems(p.ids) && x != id
    {
      assert x in rest;
      WithoutIn(p.ids, id, x);
    }
  }

  lemma CutStraysIff(s: Setting, own: set<string>, all: seq<string>)
    requires own <= Image(s, Elems(all)) && NamesApart(s, Elems(all)) && Distinct(all)
    ensures own <= Image(s, Elems(LastN(s.max, all))) <==> Names(s, Dropped(s.max, all)) * own == {}
  {
    ElemsCut(s.max, all);
    StrayIff(s, own, Elems(all), Elems(LastN(s.max, all)));
    assert Elems(all) - Elems(LastN(s.max, all)) == Elems(Dropped(s.max, all));
    assert Image(s, Elems(Dropped(s.max, all))) == Names(s, Dropped(s.max, all));
  }

  /** A hook that raises strays the session, and nothing else does when kills work. */
  lemma RaisingHookStraysIff(s: Setting, p: Pool, id: string, hookRaises: bool)
    requires Sound(s, p) && s.stuck == {} && NamesApart(s, Elems(p.ids) + {id}) && NoStrays(s, p) && !Reused(s, p, id)
    ensures NoStrays(s, Acquired(s, p, id, true, hookRaises).0) <==> !hookRaises
  {
    StraysIff(s, p, id, true, hookRaises);
  }

  /** A raising hook leaves a session alive that no entry stands for. */
  lemma RaisingHookStrays(s: Setting, id: string)
    requires s.max >= 1 && s.stuck == {}
    ensures var (q, returned) := Acquired(s, Pool([], {}, {}), id, true, true);
            !returned && q.ids == [] && s.name(id) in q.live && !NoStrays(s, q)
  {
    var q := Acquired(s, Pool([], {}, {}), id, true, true).0;
    assert s.name(id) in q.live * q.made;
  }

  /** So does evicting an entry that cannot be killed. */
  lemma StuckKillStrays(s: Setting, a: string, b: string)
    requires s.max == 1 && s.name(a) != s.name(b) && s.stuck == {s.name(a)}
    ensures var p := Acquired(s, Pool([], {}, {}), a, true, false).0;
            var (q, returned) := Acquired(s, p, b, true, false);
            returned && q.ids == [b] && s.name(a) in q.live && !NoStrays(s, q)
  {
    FirstAcquired(s, a);
    var p := Pool([a], {s.name(a)}, {s.name(a)});
    SecondAcquired(s, a, b, p);
    var q := Acquired(s, p, b, true, false).0;
    assert s.name(a) in q.live * q.made;
  }

  /** Removing entries strays exactly those that are alive and cannot be killed. */
  lemma RemovedStraysIff(s: Setting, p: Pool, gone: set<string>)
    requires NamesApart(s, Elems(p.ids)) && NoStrays(s, p)
    ensures NoStrays(s, Removed(s, p, gone)) <==> NamesIn(s, p.ids, gone) * s.stuck * p.live * p.made == {}
  {
    var E, names := Elems(p.ids), NamesIn(s, p.ids, gone);
    var own := Kill(s, p.live, names) * p.made;
    ElemsKeep(p.ids, gone);
    StrayIff(s, own, E, E - gone);
    assert E - (E - gone) == E * gone;
    assert Image(s, E * gone) == names;
    assert names * own == names * s.stuck * p.live * p.made;
  }

  /** The operation strays nothing, seen before it. */
  predicate Tidy(s: Setting, p: Pool, op: Op) {
    match op
    case Acquire(id, opens, hookRaises) => !Strays(s, p, id, opens, hookRaises)
    case EvictIdle(idle) => NamesIn(s, p.ids, idle) * s.stuck * p.live * p.made == {}
    case Shutdown => NamesIn(s, p.ids, Elems(p.ids)) * s.stuck * p.live * p.made == {}
    case Dies(_) => true
  }

  /** From a pool without strays, an operation leads to one without strays exactly if it is
      tidy. */
  lemma TidyIff(s: Setting, p: Pool, op: Op)
    requires Sound(s, p) && NoStrays(s, p) && NamesApart(s, Elems(p.ids) + if op.Acquire? then {op.id} else {})
    ensures NoStrays(s, Step(s, p, op)) <==> Tidy(s, p, op)
  {
    match op
    case Acquire(id, opens, hookRaises) => StraysIff(s, p, id, opens, hookRaises);
    case EvictIdle(idle) => RemovedStraysIff(s, p, idle);
    case Shutdown => RemovedStraysIff(s, p, Elems(p.ids));
    case Dies(_) =>
  }

  lemma StepWithin(s: Setting, p: Pool, op: Op, ids: set<string>)
    requires Sound(s, p) && Elems(p.ids) <= ids && (op.Acquire? ==> op.id in ids)
    ensures Elems(Step(s, p, op).ids) <= ids
  {
    match op
    case Acquire(id, _, _) =>
      ElemsWithout(p.ids, id);
      PutLast(s.max, p.ids, id);
      ElemsCut(s.max, Without(p.ids, id) + [id]);
    case EvictIdle(idle) => ElemsKeep(p.ids, idle);
    case Shutdown => ElemsKeep(p.ids, Elems(p.ids));
    case Dies(_) =>
  }

  predicate AllTidy(s: Setting, p: Pool, ops: seq<Op>) {
    |ops| == 0
    || (AllTidy(s, p, ops[..|ops| - 1]) && Tidy(s, Steps(s, p, ops[..|ops| - 1]), ops[|ops| - 1]))
  }

  /** The ids of a run stay within those it names. */
  lemma {:induction false} RunWithin(s: Setting, p: Pool, ops: seq<Op>, ids: set<string>)
    requires Sound(s, p) && Elems(p.ids) <= ids && forall op | op in ops :: op.Acquire? ==> op.id in ids
    ensures Elems(Steps(s, p, ops).ids) <= ids && Sound(s, Steps(s, p, ops))
  {
    if |ops| > 0 {
      var front, op := ops[..|ops| - 1], ops[|ops| - 1];
      assert ops == front + [op] && op in ops;
      RunWithin(s, p, front, ids);
      StepSound(s, Steps(s, p, front), op);
      StepWithin(s, Steps(s, p, front), op, ids);
    }
  }

  /** Whatever resists killing, a run of tidy operations strays nothing. */
  lemma {:induction false} TidyRun(s: Setting, p: Pool, ops: seq<Op>, ids: set<string>)
    requires Sound(s, p) && NoStrays(s, p) && NamesApart(s, ids) && Elems(p.ids) <= ids
    requires forall op | op in ops :: op.Acquire? ==> op.id in ids
    requires AllTidy(s, p, ops)
    ensures NoStrays(s, Steps(s, p, ops))
  {
    if |ops| > 0 {
      var front, op := ops[..|ops| - 1], ops[|ops| - 1];
      assert ops == front + [op] && op in ops;
      TidyRun(s, p, front, ids);
      RunWithin(s, p, front, ids);
      TidyIff(s, Steps(s, p, front), op);
    }
  }
}
