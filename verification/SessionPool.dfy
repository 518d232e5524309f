/**
 `WarmSessionPool` (`pool.py`): a least-recently-used pool of tmux sessions. The tmux server is
 a set of live session names; some names may be stuck, so that killing them fails. The pool
 holds its session ids in order of use, the latest last.
 */
module SessionPool {

  // ---- names

  /** `tmux_name_for`, with `alnum` for Python's `str.isalnum` on one character. */
  function TmuxName(alnum: char -> bool, id: string): string {
    "frago-agent-" + seq(|id|, (i: nat) requires i < |id| => Safe(alnum, id[i]))
  }

  function Safe(alnum: char -> bool, c: char): char { if alnum(c) || c == '_' || c == '-' then c else '_' }

  /** Two ids share a name exactly when they differ only in places where both have an underscore
      or a character that is replaced by one. */
  lemma NamesCollideIff(alnum: char -> bool, a: string, b: string)
    ensures TmuxName(alnum, a) == TmuxName(alnum, b) <==>
            |a| == |b| && forall i | 0 <= i < |a| :: a[i] == b[i] || (Safe(alnum, a[i]) == '_' == Safe(alnum, b[i]))
  {
    var p := "frago-agent-";
    var x, y := TmuxName(alnum, a), TmuxName(alnum, b);
    assert forall i | 0 <= i < |a| :: x[|p| + i] == Safe(alnum, a[i]);
    assert forall i | 0 <= i < |b| :: y[|p| + i] == Safe(alnum, b[i]);
    if |a| == |b| && forall i | 0 <= i < |a| :: Safe(alnum, a[i]) == Safe(alnum, b[i]) {
      assert x == y;
    }
  }

  // ---- sequences of ids

  function Without<T(==)>(ids: seq<T>, id: T): seq<T> {
    if |ids| == 0 then []
    else Without(ids[..|ids| - 1], id) + if ids[|ids| - 1] == id then [] else [ids[|ids| - 1]]
  }

  function Keep<T(==)>(ids: seq<T>, gone: set<T>): seq<T> {
    if |ids| == 0 then []
    else Keep(ids[..|ids| - 1], gone) + if ids[|ids| - 1] in gone then [] else [ids[|ids| - 1]]
  }

  function Only<T(==)>(ids: seq<T>, chosen: set<T>): seq<T> {
    if |ids| == 0 then []
    else Only(ids[..|ids| - 1], chosen) + if ids[|ids| - 1] in chosen then [ids[|ids| - 1]] else []
  }

  function Elems<T(==)>(ids: seq<T>): set<T> { set x | x in ids }

  predicate Distinct<T(==)>(ids: seq<T>) { forall i, j | 0 <= i < j < |ids| :: ids[i] != ids[j] }

  function LastN<T(==)>(n: nat, ids: seq<T>): seq<T> { if |ids| <= n then ids else ids[|ids| - n..] }

  predicate Suffix<T(==)>(a: seq<T>, b: seq<T>) { |a| <= |b| && b[|b| - |a|..] == a }

  lemma {:induction false} WithoutIn<T>(ids: seq<T>, id: T, x: T)
    ensures x in Without(ids, id) <==> x in ids && x != id
  {
    if |ids| > 0 {
      var front, last := ids[..|ids| - 1], ids[|ids| - 1];
      assert ids == front + [last];
      WithoutIn(front, id, x);
    }
  }

  lemma {:induction false} WithoutFacts<T>(ids: seq<T>, id: T)
    requires Distinct(ids)
    ensures Distinct(Without(ids, id))
    ensures id !in ids ==> Without(ids, id) == ids
    ensures id in ids ==> |Without(ids, id)| == |ids| - 1
  {
    if |ids| > 0 {
      var front, last := ids[..|ids| - 1], ids[|ids| - 1];
      assert ids == front + [last];
      assert last !in front;
      WithoutIn(front, id, last);
      WithoutFacts(front, id);
    }
  }

  /** Putting an id last keeps the ids distinct, also after the head was dropped. */
  lemma PutLast<T>(max: nat, ids: seq<T>, id: T)
    requires max >= 1 && |ids| <= max && Distinct(ids)
    ensures var rest := Without(ids, id);
            && |rest| <= max && Distinct(rest) && (id !in ids ==> rest == ids) && (id in ids ==> |rest + [id]| <= max)
            && Distinct(rest + [id]) && Distinct(LastN(max, rest + [id])) && |LastN(max, rest + [id])| <= max
            && LastN(max, rest + [id]) != [] && LastN(max, rest + [id])[|LastN(max, rest + [id])| - 1] == id
  {
    WithoutFacts(ids, id);
    WithoutIn(ids, id, id);
    LastDistinct(max, Without(ids, id), id);
  }

  lemma LastDistinct<T>(max: nat, rest: seq<T>, id: T)
    requires max >= 1 && Distinct(rest) && id !in rest
    ensures Distinct(rest + [id]) && Distinct(LastN(max, rest + [id])) && |LastN(max, rest + [id])| <= max
    ensures LastN(max, rest + [id]) != [] && LastN(max, rest + [id])[|LastN(max, rest + [id])| - 1] == id
  {
  }

  lemma {:induction false} KeepIn<T>(ids: seq<T>, gone: set<T>, x: T)
    ensures x in Keep(ids, gone) <==> x in ids && x !in gone
  {
    if |ids| > 0 {
      var front, last := ids[..|ids| - 1], ids[|ids| - 1];
      assert ids == front + [last];
      KeepIn(front, gone, x);
    }
  }

  lemma {:induction false} OnlyIn<T>(ids: seq<T>, chosen: set<T>, x: T)
    ensures x in Only(ids, chosen) <==> x in ids && x in chosen
  {
    if |ids| > 0 {
      var front, last := ids[..|ids| - 1], ids[|ids| - 1];
      assert ids == front + [last];
      OnlyIn(front, chosen, x);
    }
  }

  lemma {:induction false} KeepOne<T>(ids: seq<T>, id: T)
    ensures Keep(ids, {id}) == Without(ids, id)
  {
    if |ids| > 0 {
      KeepOne(ids[..|ids| - 1], id);
    }
  }

  lemma {:induction false} KeepAppend<T>(a: seq<T>, b: seq<T>, gone: set<T>)
    ensures Keep(a + b, gone) == Keep(a, gone) + Keep(b, gone)
  {
    if |b| == 0 {
      assert a + b == a;
    } else {
      assert (a + b)[..|a + b| - 1] == a + b[..|b| - 1];
      KeepAppend(a, b[..|b| - 1], gone);
    }
  }

  lemma {:induction false} KeepTwice<T>(ids: seq<T>, a: set<T>, b: set<T>)
    ensures Keep(Keep(ids, a), b) == Keep(ids, a + b)
  {
    if |ids| > 0 {
      var front, last := ids[..|ids| - 1], ids[|ids| - 1];
      KeepTwice(front, a, b);
      KeepAppend(Keep(front, a), if last in a then [] else [last], b);
    }
  }

  lemma {:induction false} KeepAll<T>(ids: seq<T>, gone: set<T>)
    requires forall x | x in ids :: x !in gone
    ensures Keep(ids, gone) == ids
  {
    if |ids| > 0 {
      KeepAll(ids[..|ids| - 1], gone);
    }
  }

  lemma {:induction false} KeepNoneOf<T>(ids: seq<T>, gone: set<T>)
    requires forall x | x in ids :: x in gone
    ensures Keep(ids, gone) == []
  {
    if |ids| > 0 {
      KeepNoneOf(ids[..|ids| - 1], gone);
    }
  }

  lemma KeepNone<T>(ids: seq<T>)
    ensures Keep(ids, Elems(ids)) == []
  {
    KeepNoneOf(ids, Elems(ids));
  }

  lemma SuffixKeep<T>(a: seq<T>, b: seq<T>, gone: set<T>)
    requires Suffix(a, b)
    ensures Suffix(Keep(a, gone), Keep(b, gone))
  {
    var rest := b[..|b| - |a|];
    assert b == rest + a;
    KeepAppend(rest, a, gone);
  }

  // ---- what the operations do, on values

  datatype Pool = Pool(ids: seq<string>, live: set<string>, made: set<string>)

  /** The outside of the pool: how tmux names are made and which of them resist being killed. */
  datatype Setting = Setting(max: nat, name: string -> string, stuck: set<string>)

  function Names(s: Setting, ids: seq<string>): set<string> { set id | id in ids :: s.name(id) }

  function NamesIn(s: Setting, ids: seq<string>, chosen: set<string>): set<string> {
    set id | id in ids && id in chosen :: s.name(id)
  }

  function Kill(s: Setting, live: set<string>, names: set<string>): set<string> { live - (names - s.stuck) }

  /** The pool after putting an id last, and the ids that had to go. */
  function Dropped(max: nat, ids: seq<string>): seq<string> { if |ids| <= max then [] else ids[..|ids| - max] }

  /** `acquire`: `opens` says whether the new session reaches its ready signal, `hookRaises`
      whether the resume hook raises. The second result says whether the call returned. */
  function Acquired(s: Setting, p: Pool, id: string, opens: bool, hookRaises: bool): (Pool, bool) {
    var n, rest := s.name(id), Without(p.ids, id);
    if id in p.ids && n in p.live then (p.(ids := rest + [id]), true)
    else
      var live := Kill(s, p.live, {n});
      if n in live then (p.(ids := rest, live := live), false)
      else if !opens then (Pool(rest, Kill(s, live + {n}, {n}), p.made + {n}), false)
      else if hookRaises then (Pool(rest, live + {n}, p.made + {n}), false)
      else
        var ids := rest + [id];
        (Pool(LastN(s.max, ids), Kill(s, live + {n}, Names(s, Dropped(s.max, ids))), p.made + {n}), true)
  }

  function Removed(s: Setting, p: Pool, gone: set<string>): Pool {
    p.(ids := Keep(p.ids, gone), live := Kill(s, p.live, NamesIn(s, p.ids, gone)))
  }

  lemma NothingRemoved(s: Setting, p: Pool)
    ensures Removed(s, p, {}) == p
  {
    KeepAll(p.ids, {});
  }

  /** Removing the chosen ids one by one is removing them together. */
  lemma EvictedStep(s: Setting, p: Pool, k: nat, idle: set<string>)
    requires Distinct(p.ids) && k < |p.ids|
    ensures var id, done := p.ids[k], Only(p.ids[..k], idle);
            if id in idle then
              && Only(p.ids[..k + 1], idle) == done + [id] && id in Removed(s, p, Elems(done)).ids
              && Removed(s, Removed(s, p, Elems(done)), {id}) == Removed(s, p, Elems(done + [id]))
            else Only(p.ids[..k + 1], idle) == done
  {
    assert p.ids[..k + 1][..k] == p.ids[..k];
    var id, done := p.ids[k], Only(p.ids[..k], idle);
    OnlyIn(p.ids[..k], idle, id);
    RemovedTwice(s, p, Elems(done), id);
    assert Elems(done + [id]) == Elems(done) + {id};
  }

  lemma RemovedTwice(s: Setting, p: Pool, gone: set<string>, id: string)
    requires id in p.ids && id !in gone
    ensures id in Removed(s, p, gone).ids
    ensures Removed(s, Removed(s, p, gone), {id}) == Removed(s, p, gone + {id})
  {
    KeepIn(p.ids, gone, id);
    KeepTwice(p.ids, gone, {id});
    var q := Removed(s, p, gone);
    assert NamesIn(s, q.ids, {id}) == {s.name(id)};
    assert NamesIn(s, p.ids, gone + {id}) == NamesIn(s, p.ids, gone) + {s.name(id)};
  }

  lemma AllEvicted(s: Setting, p: Pool, idle: set<string>)
    ensures Removed(s, p, Elems(Only(p.ids, idle))) == Removed(s, p, idle)
  {
    var done := Elems(Only(p.ids, idle));
    forall x | x in p.ids ensures x in done <==> x in idle { OnlyIn(p.ids, idle, x); }
    SameKept(p.ids, done, idle);
    assert NamesIn(s, p.ids, done) == NamesIn(s, p.ids, idle);
  }

  class Tmux {
    var live: set<string>
    const stuck: set<string>

    constructor (live: set<string>, stuck: set<string>)
      ensures this.live == live && this.stuck == stuck
    {
      this.live := live;
      this.stuck := stuck;
    }

    /** `_safe_close`: a failing kill is swallowed. */
    method SafeClose(name: string)
      modifies this
      ensures live == old(live) - ({name} - stuck)
    {
      if name !in stuck {
        live := live - {name};
      }
    }
  }

  class WarmSessionPool {
    const max: nat
    const name: string -> string
    const tmux: Tmux
    var sessions: seq<string>
    ghost var made: set<string>

    ghost function Context(): Setting { Setting(max, name, tmux.stuck) }

    ghost function View(): Pool
      reads this, tmux
    {
      Pool(sessions, tmux.live, made)
    }

    ghost predicate Valid()
      reads this
    {
      max >= 1 && |sessions| <= max && Distinct(sessions)
    }

    constructor (max: nat, name: string -> string, tmux: Tmux)
      requires max >= 1
      ensures Valid() && this.max == max && this.name == name && this.tmux == tmux
      ensures View() == Pool([], tmux.live, {})
    {
      this.max := max;
      this.name := name;
      this.tmux := tmux;
      sessions := [];
      made := {};
    }

    method Acquire(id: string, opens: bool, hookRaises: bool) returns (returned: bool)
      requires Valid()
      modifies this, tmux
      ensures Valid()
      ensures (View(), returned) == Acquired(Context(), old(View()), id, opens, hookRaises)
      ensures returned ==> |sessions| > 0 && sessions[|sessions| - 1] == id
    {
      PutLast(max, sessions, id);
      var rest := Without(sessions, id);
      if id in sessions {
        if name(id) in tmux.live {
          sessions := rest + [id];
          return true;
        }
        sessions := rest;
      }
      if name(id) in tmux.live {
        tmux.SafeClose(name(id));
      }
      assert tmux.live == Kill(Context(), old(tmux.live), {name(id)});
      if name(id) in tmux.live {
        return false;
      }
      tmux.live := tmux.live + {name(id)};
      made := made + {name(id)};
      if !opens {
        tmux.SafeClose(name(id));
        return false;
      }
      if hookRaises {
        return false;
      }
      sessions := sessions + [id];
      EvictIfNeeded();
      return true;
    }

    /** `_evict_if_needed`: sessions leave from the head, where the least recently used one is. */
    method EvictIfNeeded()
      modifies this`sessions, tmux
      ensures sessions == LastN(max, old(sessions))
      ensures tmux.live == Kill(Context(), old(tmux.live), Names(Context(), Dropped(max, old(sessions))))
    {
      ghost var k := 0;
      ghost var all := sessions;
      while |sessions| > max
        invariant 0 <= k <= |all| && sessions == all[k..] && (k > 0 ==> |sessions| >= max)
        invariant tmux.live == Kill(Context(), old(tmux.live), Names(Context(), all[..k]))
      {
        var oldest := sessions[0];
        sessions := sessions[1..];
        tmux.SafeClose(name(oldest));
        assert all[..k + 1] == all[..k] + [oldest];
        k := k + 1;
      }
    }

    method Evict(id: string) returns (hit: bool)
      requires Valid()
      modifies this`sessions, tmux
      ensures Valid() && hit == (id in old(sessions))
      ensures View() == Removed(Context(), old(View()), {id})
    {
      KeepOne(sessions, id);
      PutLast(max, sessions, id);
      hit := id in sessions;
      assert NamesIn(Context(), sessions, {id}) == if hit then {name(id)} else {};
      if hit {
        sessions := Without(sessions, id);
        tmux.SafeClose(name(id));
      }
    }

    /** `evict_idle`: `idle` holds the ids whose age is known and above the timeout. */
    method EvictIdle(idle: set<string>) returns (evicted: seq<string>)
      requires Valid()
      modifies this`sessions, tmux
      ensures Valid()
      ensures View() == Removed(Context(), old(View()), idle)
      ensures evicted == Only(old(sessions), idle)
    {
      evicted := [];
      var snapshot := sessions;
      ghost var before := View();
      NothingRemoved(Context(), before);
      assert Elems(evicted) == {};
      for k := 0 to |snapshot|
        invariant Valid() && evicted == Only(snapshot[..k], idle)
        invariant View() == Removed(Context(), before, Elems(evicted))
      {
        EvictedStep(Context(), before, k, idle);
        if snapshot[k] in idle {
          var hit := Evict(snapshot[k]);
          if hit {
            evicted := evicted + [snapshot[k]];
          }
        }
      }
      assert snapshot[..|snapshot|] == snapshot;
      AllEvicted(Context(), before, idle);
    }

    method Shutdown()
      requires Valid()
      modifies this`sessions, tmux
      ensures Valid() && sessions == []
      ensures View() == Removed(Context(), old(View()), Elems(old(sessions)))
    {
      KeepNone(sessions);
      for k := 0 to |sessions|
        invariant sessions == old(sessions)
        invariant tmux.live == Kill(Context(), old(tmux.live), Names(Context(), sessions[..k]))
      {
        assert sessions[..k + 1] == sessions[..k] + [sessions[k]];
        tmux.SafeClose(name(sessions[k]));
      }
      assert sessions[..|sessions|] == sessions;
      assert Names(Context(), sessions) == NamesIn(Context(), sessions, Elems(sessions));
      sessions := [];
    }
  }

  lemma {:induction false} SameKept<T>(ids: seq<T>, a: set<T>, b: set<T>)
    requires forall x | x in ids :: x in a <==> x in b
    ensures Keep(ids, a) == Keep(ids, b)
  {
    if |ids| > 0 {
      SameKept(ids[..|ids| - 1], a, b);
    }
  }
}
