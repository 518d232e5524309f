/** Naming objects (`recipe.py`): `resolve_ref` and `next_object_id`. */
module References {
  import opened Options
  import opened Documents
  import opened Decimals
  import opened Scenes

  // ---- fresh ids

  const PREFIX := "obj_"

  /** The number of an id of the form obj_N. */
  function NumberOf(id: string): Option<nat> {
    if PREFIX <= id && |id| > |PREFIX| && AllDigits(id[|PREFIX|..]) then Some(Value(id[|PREFIX|..])) else None
  }

  function Largest(ids: seq<string>): nat {
    if |ids| == 0 then 0
    else
      var rest, n := Largest(ids[..|ids| - 1]), NumberOf(ids[|ids| - 1]);
      if n.Some? && n.value > rest then n.value else rest
  }

  function IdOf(n: nat): string { PREFIX + Decimal(n) }

  function Ids(os: seq<Object>): seq<string> { seq(|os|, (i: nat) requires i < |os| => os[i].id) }

  function NextId(os: seq<Object>): string { IdOf(Largest(Ids(os)) + 1) }

  lemma IdRoundTrip(n: nat)
    ensures NumberOf(IdOf(n)) == Some(n) && Stripped(IdOf(n)) && IdOf(n) != ""
  {
    ReadBack(n);
    var id := IdOf(n);
    assert id[|PREFIX|..] == Decimal(n);
    assert id[0] == 'o' && id[|id| - 1] == Decimal(n)[|Decimal(n)| - 1];
  }

  lemma {:induction false} LargestBounds(ids: seq<string>, i: nat)
    requires i < |ids| && NumberOf(ids[i]).Some?
    ensures NumberOf(ids[i]).value <= Largest(ids)
  {
    if i < |ids| - 1 {
      LargestBounds(ids[..|ids| - 1], i);
    }
  }

  /** Any number above the largest is free. */
  lemma AboveIsFree(ids: seq<string>, n: nat)
    requires n > Largest(ids)
    ensures IdOf(n) !in ids
  {
    IdRoundTrip(n);
    if IdOf(n) in ids {
      var i :| 0 <= i < |ids| && ids[i] == IdOf(n);
      LargestBounds(ids, i);
    }
  }

  lemma LargestAppend(ids: seq<string>, n: nat)
    requires n >= Largest(ids)
    ensures Largest(ids + [IdOf(n)]) == n
  {
    IdRoundTrip(n);
    assert (ids + [IdOf(n)])[..|ids|] == ids;
  }

  /** `next_object_id`: the candidate after the largest number is always free, so the search never
      goes on to a second one. */
  method NextObjectId(os: seq<Object>) returns (id: string, ghost tries: nat)
    ensures id == NextId(os) && id !in Ids(os) && tries == 1
  {
    var ids := Ids(os);
    var biggest := 0;
    for i := 0 to |ids|
      invariant biggest == Largest(ids[..i])
    {
      assert ids[..i + 1][..i] == ids[..i];
      var n := NumberOf(ids[i]);
      if n.Some? && n.value > biggest {
        biggest := n.value;
      }
    }
    assert ids[..|ids|] == ids;
    var start := biggest + 1;
    id, tries := FirstFree(ids, start);
    assert tries > 1 ==> IdOf(start) in ids;
    AboveIsFree(ids, start);
  }

  /** The search for a free number. */
  method FirstFree(ids: seq<string>, start: nat) returns (id: string, ghost tries: nat)
    ensures tries >= 1 && id == IdOf(start + tries - 1) && id !in ids
    ensures forall n | start <= n < start + tries - 1 :: IdOf(n) in ids
  {
    var n := start;
    id, tries := IdOf(n), 1;
    while id in ids
      invariant id == IdOf(n) && n == start + tries - 1
      invariant forall m | start <= m < n :: IdOf(m) in ids
      decreases Largest(ids) + 1 - n
    {
      UsedIsBelow(ids, n);
      n := n + 1;
      id, tries := IdOf(n), tries + 1;
    }
  }

  lemma UsedIsBelow(ids: seq<string>, n: nat)
    requires IdOf(n) in ids
    ensures n <= Largest(ids)
  {
    IdRoundTrip(n);
    var i :| 0 <= i < |ids| && ids[i] == IdOf(n);
    LargestBounds(ids, i);
  }

  // ---- references

  function NameOf(o: Object): string { if o.name.Some? then o.name.value else "" }

  predicate Within(part: string, whole: string) { exists k | 0 <= k <= |whole| :: part <= whole[k..] }

  function IdsWhere(os: seq<Object>, p: Object -> bool): seq<string> {
    if |os| == 0 then [] else IdsWhere(os[..|os| - 1], p) + if p(os[|os| - 1]) then [os[|os| - 1].id] else []
  }

  function Named(ref: string): Object -> bool { (o: Object) => NameOf(o) == ref }

  function Mentions(ref: string): Object -> bool { (o: Object) => Within(ref, NameOf(o)) }

  function Only(ids: seq<string>): Option<string> { if |ids| == 1 then Some(ids[0]) else None }

  /** `resolve_ref`: an id, else the one object of exactly that name, else the one whose name
      contains it. Ambiguity is refused. */
  function Resolve(show: Json -> string, os: seq<Object>, j: Json): Option<string> {
    if j.Null? || j == Str("") then None
    else
      var ref := Text(show, j);
      if ref in Ids(os) then Some(ref)
      else
        var exact := IdsWhere(os, Named(ref));
        if exact != [] then Only(exact) else Only(IdsWhere(os, Mentions(ref)))
  }

  lemma {:induction false} IdsWhereIn(os: seq<Object>, p: Object -> bool, id: string)
    ensures id in IdsWhere(os, p) <==> exists i | 0 <= i < |os| :: p(os[i]) && os[i].id == id
  {
    if |os| > 0 {
      var front := os[..|os| - 1];
      IdsWhereIn(front, p, id);
      if i :| 0 <= i < |front| && p(front[i]) && front[i].id == id {
        assert os[i] == front[i];
      }
      if i :| 0 <= i < |os| && p(os[i]) && os[i].id == id && i < |front| {
        assert os[i] == front[i];
      }
    }
  }

  /** When exactly one object satisfies it. */
  lemma {:induction false} IdsWhereOne(os: seq<Object>, p: Object -> bool, i: nat)
    requires i < |os| && p(os[i]) && forall j | 0 <= j < |os| && p(os[j]) :: j == i
    ensures IdsWhere(os, p) == [os[i].id]
  {
    var front := os[..|os| - 1];
    assert forall j | 0 <= j < |front| :: front[j] == os[j];
    if i < |os| - 1 {
      IdsWhereOne(front, p, i);
    } else {
      IdsWhereNone(front, p);
    }
  }

  lemma {:induction false} IdsWhereNone(os: seq<Object>, p: Object -> bool)
    requires forall j | 0 <= j < |os| :: !p(os[j])
    ensures IdsWhere(os, p) == []
  {
    if |os| > 0 {
      IdsWhereNone(os[..|os| - 1], p);
    }
  }

  lemma {:induction false} IdsWhereTwo(os: seq<Object>, p: Object -> bool, i: nat, j: nat)
    requires i < j < |os| && p(os[i]) && p(os[j])
    ensures |IdsWhere(os, p)| >= 2
  {
    var front := os[..|os| - 1];
    if j < |os| - 1 {
      IdsWhereTwo(front, p, i, j);
    } else {
      IdsWhereIn(front, p, os[i].id);
      assert front[i] == os[i];
    }
  }

  /** The object with that id, or with exactly that name. */
  predicate Denotes(o: Object, ref: string) { o.id == ref || o.name == Some(ref) }

  /** A resolved reference is the id of an object that has the text as its id, or in its name. */
  lemma ResolvedExists(show: Json -> string, os: seq<Object>, j: Json)
    requires Resolve(show, os, j).Some?
    ensures exists i | 0 <= i < |os| :: os[i].id == Resolve(show, os, j).value
              && (os[i].id == Text(show, j) || Within(Text(show, j), NameOf(os[i])))
  {
    var ref, id := Text(show, j), Resolve(show, os, j).value;
    if ref in Ids(os) {
      var i :| 0 <= i < |Ids(os)| && Ids(os)[i] == ref;
    } else {
      IdsWhereIn(os, Named(ref), id);
      IdsWhereIn(os, Mentions(ref), id);
      WithinItself(ref);
    }
  }

  lemma WithinItself(s: string)
    ensures Within(s, s)
  {
    assert s <= s[0..];
  }

  predicate DistinctNames(os: seq<Object>) {
    forall i, j | 0 <= i < j < |os| && os[i].name.Some? && os[j].name.Some? :: os[i].name != os[j].name
  }

  /** With distinct ids and distinct names, a text that is the id or the name of some object
      resolves: to the object of that id if there is one, else to the one of that name. */
  lemma ResolvesToOne(show: Json -> string, os: seq<Object>, ref: string)
    requires DistinctIds(os) && DistinctNames(os) && ref != ""
    requires exists i | 0 <= i < |os| :: Denotes(os[i], ref)
    ensures Resolve(show, os, Str(ref)).Some?
    ensures exists i | 0 <= i < |os| ::
              && os[i].id == Resolve(show, os, Str(ref)).value && Denotes(os[i], ref)
              && (forall j | 0 <= j < |os| && os[j].id == os[i].id :: j == i)
  {
    if ref in Ids(os) {
      var i :| 0 <= i < |os| && Ids(os)[i] == ref;
      assert Denotes(os[i], ref);
    } else {
      var i :| 0 <= i < |os| && Denotes(os[i], ref);
      assert os[i].id in Ids(os) by { assert Ids(os)[i] == os[i].id; }
      IdsWhereOne(os, Named(ref), i);
    }
  }

  /** Exactly one of the objects satisfies it. */
  ghost predicate One(os: seq<Object>, p: Object -> bool) {
    exists i | 0 <= i < |os| :: IsOnly(os, p, i)
  }

  ghost predicate IsOnly(os: seq<Object>, p: Object -> bool, i: int)
    requires 0 <= i < |os|
  {
    p(os[i]) && forall j | 0 <= j < |os| && p(os[j]) :: j == i
  }

  ghost predicate Nobody(os: seq<Object>, p: Object -> bool) { forall i | 0 <= i < |os| :: !p(os[i]) }

  /** How many ids are found tells how many objects satisfy it. */
  lemma IdsWhereCounts(os: seq<Object>, p: Object -> bool)
    ensures IdsWhere(os, p) == [] <==> Nobody(os, p)
    ensures |IdsWhere(os, p)| == 1 <==> One(os, p)
  {
    if Nobody(os, p) {
      IdsWhereNone(os, p);
    } else {
      var i :| 0 <= i < |os| && p(os[i]);
      IdsWhereIn(os, p, os[i].id);
      if IsOnly(os, p, i) {
        IdsWhereOne(os, p, i);
      } else {
        var j :| 0 <= j < |os| && p(os[j]) && j != i;
        NotOne(os, p, i, j);
        if i < j { IdsWhereTwo(os, p, i, j); } else { IdsWhereTwo(os, p, j, i); }
      }
    }
  }

  lemma NotOne(os: seq<Object>, p: Object -> bool, i: int, j: int)
    requires 0 <= i < |os| && 0 <= j < |os| && i != j && p(os[i]) && p(os[j])
    ensures !One(os, p)
  {
    forall k | 0 <= k < |os|
      ensures !IsOnly(os, p, k)
    {
      assert k != i || k != j;
    }
  }

  /** It is an id; or exactly one object has it as its name; or none has, and exactly one has it
      within its name. */
  ghost predicate Resolvable(os: seq<Object>, ref: string) {
    || ref in Ids(os) || One(os, Named(ref))
    || (Nobody(os, Named(ref)) && One(os, Mentions(ref)))
  }

  /** Exactly when a reference resolves, whatever it is and whatever the scene. */
  lemma ResolvesIff(show: Json -> string, os: seq<Object>, j: Json)
    ensures Resolve(show, os, j).Some? <==> !j.Null? && j != Str("") && Resolvable(os, Text(show, j))
  {
    var ref := Text(show, j);
    IdsWhereCounts(os, Named(ref));
    IdsWhereCounts(os, Mentions(ref));
  }
}
