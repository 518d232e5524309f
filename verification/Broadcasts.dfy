/**
 `action_sync` (`feishu_broadcast_message/recipe.py`): the stable numbering of the chats a bot is
 in, and the numbers it may broadcast to.
 */
module Broadcasts {
  import opened Sorting

  datatype Fetched = Fetched(id: string, name: string)

  datatype Chat = Chat(index: int, id: string, name: string)

  datatype Config = Config(chats: seq<Chat>, allowed: seq<int>)

  // ---- looking at a configuration

  /** `old_index_map`: the last entry wins when an id occurs twice. */
  function IndexMap(chats: seq<Chat>): map<string, int> {
    if |chats| == 0 then map[]
    else IndexMap(chats[..|chats| - 1])[chats[|chats| - 1].id := chats[|chats| - 1].index]
  }

  predicate DistinctIds(chats: seq<Chat>) { forall i, j | 0 <= i < j < |chats| :: chats[i].id != chats[j].id }

  predicate DistinctIndexes(chats: seq<Chat>) { forall i, j | 0 <= i < j < |chats| :: chats[i].index != chats[j].index }

  predicate IsIndex(chats: seq<Chat>, x: int) { exists i | 0 <= i < |chats| :: chats[i].index == x }

  ghost predicate Valid(c: Config) {
    DistinctIds(c.chats) && DistinctIndexes(c.chats) && forall x | x in c.allowed :: IsIndex(c.chats, x)
  }

  lemma {:induction false} IndexMapKeys(chats: seq<Chat>, id: string)
    ensures id in IndexMap(chats) <==> exists i | 0 <= i < |chats| :: chats[i].id == id
  {
    if |chats| > 0 {
      var front := chats[..|chats| - 1];
      IndexMapKeys(front, id);
      if i :| 0 <= i < |front| && front[i].id == id {
        assert chats[i] == front[i];
      }
    }
  }

  lemma {:induction false} IndexMapAt(chats: seq<Chat>, i: nat)
    requires DistinctIds(chats) && i < |chats|
    ensures chats[i].id in IndexMap(chats) && IndexMap(chats)[chats[i].id] == chats[i].index
  {
    if i < |chats| - 1 {
      IndexMapAt(chats[..|chats| - 1], i);
    }
  }

  lemma IndexMapIs(chats: seq<Chat>)
    requires DistinctIds(chats)
    ensures forall i | 0 <= i < |chats| ::
            chats[i].id in IndexMap(chats) && IndexMap(chats)[chats[i].id] == chats[i].index
    ensures forall id | id in IndexMap(chats) :: exists i | 0 <= i < |chats| ::
            chats[i].id == id && IndexMap(chats)[id] == chats[i].index
  {
    forall i | 0 <= i < |chats|
      ensures chats[i].id in IndexMap(chats) && IndexMap(chats)[chats[i].id] == chats[i].index
    {
      IndexMapAt(chats, i);
    }
    forall id | id in IndexMap(chats)
      ensures exists i | 0 <= i < |chats| :: chats[i].id == id && IndexMap(chats)[id] == chats[i].index
    {
      IndexMapKeys(chats, id);
    }
  }

  /** One more than the largest of these, or 1 when there are none. */
  ghost predicate IsNext(used: set<int>, next: int) {
    if used == {} then next == 1 else next - 1 in used && forall v | v in used :: v < next
  }

  /** `max(used_indexes, default=0) + 1`. */
  method NextIndex(chats: seq<Chat>) returns (next: int)
    ensures IsNext(IndexMap(chats).Values, next)
  {
    var known := IndexMap(chats);
    forall id { IndexMapKeys(chats, id); }
    next := 1;
    for i := 0 to |chats|
      invariant i == 0 ==> next == 1
      invariant i > 0 ==> exists k | 0 <= k < i :: next - 1 == known[chats[k].id]
      invariant forall k | 0 <= k < i :: known[chats[k].id] < next
    {
      var index := known[chats[i].id];
      if i == 0 || index >= next {
        next := index + 1;
      }
    }
    if |chats| > 0 {
      assert known[chats[0].id] in known.Values;
    }
  }

  // ---- handing out indexes

  /** How many of these chats are not known yet. */
  function NewCount(known: map<string, int>, fetched: seq<Fetched>): nat {
    if |fetched| == 0 then 0
    else NewCount(known, fetched[..|fetched| - 1]) + if fetched[|fetched| - 1].id in known then 0 else 1
  }

  function IndexFor(known: map<string, int>, next: int, fetched: seq<Fetched>, i: nat): int
    requires i < |fetched|
  {
    if fetched[i].id in known then known[fetched[i].id] else next + NewCount(known, fetched[..i])
  }

  function Assigned(known: map<string, int>, next: int, fetched: seq<Fetched>): seq<Chat> {
    seq(|fetched|,
        (i: nat) requires i < |fetched| => Chat(IndexFor(known, next, fetched, i), fetched[i].id, fetched[i].name))
  }

  function Kept(chats: seq<Chat>, allowed: seq<int>): seq<int> {
    if |chats| == 0 then []
    else
      var last := chats[|chats| - 1].index;
      Kept(chats[..|chats| - 1], allowed) + if last in allowed then [last] else []
  }

  function ByIndex(c: Chat): int { c.index }

  function Itself(x: int): int { x }

  // ---- the sync

  /** The configuration after a sync. */
  function Synced(before: Config, next: int, fetched: seq<Fetched>): Config {
    var chats := Assigned(IndexMap(before.chats), next, fetched);
    Config(Sort(ByIndex, chats), Sort(Itself, Kept(chats, before.allowed)))
  }

  method Sync(before: Config, fetched: seq<Fetched>) returns (after: Config, ghost next: int)
    ensures IsNext(IndexMap(before.chats).Values, next) && after == Synced(before, next, fetched)
  {
    var known := IndexMap(before.chats);
    var free := NextIndex(before.chats);
    next := free;
    var chats, allowed := [], [];
    for i := 0 to |fetched|
      invariant free == next + NewCount(known, fetched[..i])
      invariant chats == Assigned(known, next, fetched)[..i]
      invariant allowed == Kept(chats, before.allowed)
    {
      var chat := fetched[i];
      assert fetched[..i + 1][..i] == fetched[..i];
      var index := free;
      if chat.id in known {
        index := known[chat.id];
      } else {
        free := free + 1;
      }
      assert Assigned(known, next, fetched)[i] == Chat(index, chat.id, chat.name);
      assert (chats + [Chat(index, chat.id, chat.name)])[..i] == chats;
      chats := chats + [Chat(index, chat.id, chat.name)];
      if index in before.allowed {
        allowed := allowed + [index];
      }
    }
    assert Assigned(known, next, fetched)[..|fetched|] == Assigned(known, next, fetched);
    after := Config(Sort(ByIndex, chats), Sort(Itself, allowed));
  }

  // ---- what every sync keeps

  predicate DistinctFetched(fetched: seq<Fetched>) {
    forall i, j | 0 <= i < j < |fetched| :: fetched[i].id != fetched[j].id
  }

  lemma {:induction false} NewCountGrows(known: map<string, int>, fetched: seq<Fetched>, i: nat, j: nat)
    requires i <= j <= |fetched|
    ensures NewCount(known, fetched[..i]) <= NewCount(known, fetched[..j])
    ensures i < j && fetched[i].id !in known ==> NewCount(known, fetched[..i]) < NewCount(known, fetched[..j])
  {
    if i < j {
      assert fetched[..j][..j - 1] == fetched[..j - 1];
      NewCountGrows(known, fetched, i, j - 1);
    }
  }

  /** Known chats have the indexes they had and new ones lie above all of them, so no index is
      handed out twice. */
  lemma AssignedApart(chats: seq<Chat>, next: int, fetched: seq<Fetched>)
    requires DistinctIds(chats) && DistinctIndexes(chats) && DistinctFetched(fetched)
    requires IsNext(IndexMap(chats).Values, next)
    ensures DistinctIds(Assigned(IndexMap(chats), next, fetched))
            && DistinctIndexes(Assigned(IndexMap(chats), next, fetched))
  {
    var known := IndexMap(chats);
    IndexMapIs(chats);
    forall i, j | 0 <= i < j < |fetched|
      ensures IndexFor(known, next, fetched, i) != IndexFor(known, next, fetched, j)
    {
      NewCountGrows(known, fetched, i, j);
      KnownBelow(known, next, fetched, i);
      KnownBelow(known, next, fetched, j);
    }
  }

  lemma KnownBelow(known: map<string, int>, next: int, fetched: seq<Fetched>, i: nat)
    requires IsNext(known.Values, next) && i < |fetched|
    ensures IndexFor(known, next, fetched, i) < next <==> fetched[i].id in known
  {
    if fetched[i].id in known {
      assert known[fetched[i].id] in known.Values;
    }
  }

  function Id(c: Chat): string { c.id }

  lemma SortedApart(chats: seq<Chat>)
    requires DistinctIds(chats) && DistinctIndexes(chats)
    ensures DistinctIds(Sort(ByIndex, chats)) && DistinctIndexes(Sort(ByIndex, chats))
    ensures forall c :: c in Sort(ByIndex, chats) <==> c in chats
  {
    var t := Sort(ByIndex, chats);
    SortPermutes(ByIndex, chats);
    PermutedDistinct(Id, chats, t);
    PermutedDistinct(ByIndex, chats, t);
    assert forall i, j | 0 <= i < j < |t| :: Id(t[i]) != Id(t[j]) && ByIndex(t[i]) != ByIndex(t[j]);
    forall c ensures c in t <==> c in chats { SameElements(chats, t, c); }
  }

  lemma {:induction false} KeptIn(chats: seq<Chat>, allowed: seq<int>, x: int)
    ensures x in Kept(chats, allowed) <==> x in allowed && IsIndex(chats, x)
  {
    if |chats| > 0 {
      var front, last := chats[..|chats| - 1], chats[|chats| - 1];
      KeptIn(front, allowed, x);
      assert chats == front + [last];
      if IsIndex(front, x) {
        var i :| 0 <= i < |front| && front[i].index == x;
        assert chats[i].index == x;
      }
      if IsIndex(chats, x) && last.index != x {
        var i :| 0 <= i < |chats| && chats[i].index == x;
        assert front[i].index == x;
      }
    }
  }

  lemma SyncedAllowed(before: Config, next: int, fetched: seq<Fetched>, x: int)
    ensures x in Synced(before, next, fetched).allowed <==>
            x in before.allowed && IsIndex(Assigned(IndexMap(before.chats), next, fetched), x)
  {
    var chats := Assigned(IndexMap(before.chats), next, fetched);
    SortPermutes(Itself, Kept(chats, before.allowed));
    SameElements(Kept(chats, before.allowed), Sort(Itself, Kept(chats, before.allowed)), x);
    KeptIn(chats, before.allowed, x);
  }

  // ---- the laws of one sync and of any number of them

  /** The chats are exactly those fetched; a chat that was there before keeps its index and its
      permission; a chat that joined has an index no old chat had, and no permission. */
  ghost predicate FollowsFrom(before: Config, fetched: seq<Fetched>, after: Config) {
    var was, known := IndexMap(before.chats), IndexMap(after.chats);
    && (forall id :: id in known <==> exists i | 0 <= i < |fetched| :: fetched[i].id == id)
    && (forall id | id in known && id in was ::
        known[id] == was[id] && (known[id] in after.allowed <==> known[id] in before.allowed))
    && (forall id | id in known && id !in was :: known[id] !in was.Values && known[id] !in after.allowed)
  }

  lemma SyncedValid(before: Config, next: int, fetched: seq<Fetched>)
    requires Valid(before) && DistinctFetched(fetched) && IsNext(IndexMap(before.chats).Values, next)
    ensures Valid(Synced(before, next, fetched))
  {
    var chats := Assigned(IndexMap(before.chats), next, fetched);
    var after := Synced(before, next, fetched);
    AssignedApart(before.chats, next, fetched);
    SortedApart(chats);
    forall x | x in after.allowed
      ensures IsIndex(after.chats, x)
    {
      SyncedAllowed(before, next, fetched, x);
      var i :| 0 <= i < |chats| && chats[i].index == x;
      assert chats[i] in after.chats;
    }
  }

  /** Where a fetched chat ends up. */
  lemma SyncedIndex(before: Config, next: int, fetched: seq<Fetched>, i: nat)
    requires Valid(before) && DistinctFetched(fetched) && IsNext(IndexMap(before.chats).Values, next) && i < |fetched|
    ensures var known := IndexMap(Synced(before, next, fetched).chats);
            fetched[i].id in known && known[fetched[i].id] == IndexFor(IndexMap(before.chats), next, fetched, i)
  {
    var chats := Assigned(IndexMap(before.chats), next, fetched);
    var after := Synced(before, next, fetched).chats;
    AssignedApart(before.chats, next, fetched);
    SortedApart(chats);
    IndexMapIs(after);
    assert chats[i] in chats;
    var k :| 0 <= k < |after| && after[k] == chats[i];
  }

  lemma SyncedFrom(before: Config, next: int, fetched: seq<Fetched>, id: string)
    requires Valid(before) && DistinctFetched(fetched) && IsNext(IndexMap(before.chats).Values, next)
    requires id in IndexMap(Synced(before, next, fetched).chats)
    ensures exists i | 0 <= i < |fetched| :: fetched[i].id == id
  {
    var chats := Assigned(IndexMap(before.chats), next, fetched);
    var after := Synced(before, next, fetched).chats;
    AssignedApart(before.chats, next, fetched);
    SortedApart(chats);
    IndexMapKeys(after, id);
    var k :| 0 <= k < |after| && after[k].id == id;
    assert after[k] in chats;
    var i :| 0 <= i < |chats| && chats[i] == after[k];
    assert fetched[i].id == id;
  }

  lemma SyncFollows(before: Config, next: int, fetched: seq<Fetched>)
    requires Valid(before) && DistinctFetched(fetched) && IsNext(IndexMap(before.chats).Values, next)
    ensures FollowsFrom(before, fetched, Synced(before, next, fetched))
  {
    var was, after := IndexMap(before.chats), Synced(before, next, fetched);
    var known := IndexMap(after.chats);
    forall i | 0 <= i < |fetched| ensures fetched[i].id in known { SyncedIndex(before, next, fetched, i); }
    forall id | id in known
      ensures exists i | 0 <= i < |fetched| :: fetched[i].id == id
      ensures id in was ==> known[id] == was[id] && (known[id] in after.allowed <==> known[id] in before.allowed)
      ensures id !in was ==> known[id] !in was.Values && known[id] !in after.allowed
    {
      SyncedFrom(before, next, fetched, id);
      var i :| 0 <= i < |fetched| && fetched[i].id == id;
      SyncedIndex(before, next, fetched, i);
      KnownBelow(was, next, fetched, i);
      SyncedAllowed(before, next, fetched, known[id]);
      assert Assigned(was, next, fetched)[i].index == known[id];
      AllowedBelow(before, next, known[id]);
    }
  }

  lemma AllowedBelow(before: Config, next: int, x: int)
    requires Valid(before) && IsNext(IndexMap(before.chats).Values, next)
    ensures x >= next ==> x !in before.allowed && x !in IndexMap(before.chats).Values
  {
    IndexMapIs(before.chats);
    if x in before.allowed {
      var i :| 0 <= i < |before.chats| && before.chats[i].index == x;
      assert IndexMap(before.chats)[before.chats[i].id] in IndexMap(before.chats).Values;
    }
  }

  ghost predicate IsSync(before: Config, fetched: seq<Fetched>, after: Config) {
    exists next :: IsNext(IndexMap(before.chats).Values, next) && after == Synced(before, next, fetched)
  }

  /** Over any sequence of syncs the numbering stays sound and each configuration follows from
      the one before. */
  lemma {:induction false} RunKeeps(configs: seq<Config>, fetches: seq<seq<Fetched>>, k: nat)
    requires |configs| == |fetches| + 1 && Valid(configs[0])
    requires forall i | 0 <= i < |fetches| ::
             DistinctFetched(fetches[i]) && IsSync(configs[i], fetches[i], configs[i + 1])
    requires k < |configs|
    ensures Valid(configs[k]) && (k > 0 ==> FollowsFrom(configs[k - 1], fetches[k - 1], configs[k]))
  {
    if k > 0 {
      RunKeeps(configs, fetches, k - 1);
      assert IsSync(configs[k - 1], fetches[k - 1], configs[k - 1 + 1]);
      var next :|
        IsNext(IndexMap(configs[k - 1].chats).Values, next)
        && configs[k] == Synced(configs[k - 1], next, fetches[k - 1]);
      SyncedValid(configs[k - 1], next, fetches[k - 1]);
      SyncFollows(configs[k - 1], next, fetches[k - 1]);
    }
  }

  // ---- edited permissions

  /** A chat that joins with this fetch is allowed at once. */
  ghost predicate JoinsAllowed(before: Config, next: int, fetched: seq<Fetched>, i: nat)
    requires i < |fetched|
  {
    fetched[i].id !in IndexMap(before.chats)
    && IndexFor(IndexMap(before.chats), next, fetched, i) in Synced(before, next, fetched).allowed
  }

  function Letters(n: nat): (r: string)
    ensures |r| == n
  {
    seq(n, (i: nat) => 'a')
  }

  function LongestId(chats: seq<Chat>): nat {
    if |chats| == 0 then 0
    else
      var n, last := LongestId(chats[..|chats| - 1]), chats[|chats| - 1];
      if |last.id| > n then |last.id| else n
  }

  lemma {:induction false} LongestIdIs(chats: seq<Chat>, i: nat)
    requires i < |chats|
    ensures |chats[i].id| <= LongestId(chats)
  {
    if i < |chats| - 1 {
      LongestIdIs(chats[..|chats| - 1], i);
    }
  }

  /** Chats with ever longer ids. */
  function Strangers(size: nat, count: nat): (r: seq<Fetched>)
    ensures |r| == count && forall i | 0 <= i < count :: |r[i].id| == size + i
  {
    if count == 0 then [] else Strangers(size, count - 1) + [Fetched(Letters(size + count - 1), "")]
  }

  lemma LongIdsUnknown(chats: seq<Chat>, id: string)
    requires |id| > LongestId(chats)
    ensures id !in IndexMap(chats)
  {
    IndexMapKeys(chats, id);
    if id in IndexMap(chats) {
      var i :| 0 <= i < |chats| && chats[i].id == id;
      LongestIdIs(chats, i);
    }
  }

  lemma {:induction false} AllNew(known: map<string, int>, fetched: seq<Fetched>)
    requires forall i | 0 <= i < |fetched| :: fetched[i].id !in known
    ensures NewCount(known, fetched) == |fetched|
  {
    if |fetched| > 0 {
      AllNew(known, fetched[..|fetched| - 1]);
    }
  }

  /** When the list of permissions was edited by hand: no chat can ever join with a permission
      exactly when every permitted number is below the next one to be handed out. */
  lemma JoinSafeIff(before: Config, next: int)
    requires IsNext(IndexMap(before.chats).Values, next)
    ensures (forall x | x in before.allowed :: x < next) <==>
            (forall fetched: seq<Fetched>, i: nat | DistinctFetched(fetched) && i < |fetched| ::
             !JoinsAllowed(before, next, fetched, i))
  {
    if forall x | x in before.allowed :: x < next {
      forall fetched: seq<Fetched>, i: nat | DistinctFetched(fetched) && i < |fetched|
        ensures !JoinsAllowed(before, next, fetched, i)
      {
        SyncedAllowed(before, next, fetched, IndexFor(IndexMap(before.chats), next, fetched, i));
      }
    } else {
      var x :| x in before.allowed && x >= next;
      StrangerAllowed(before, next, x);
    }
  }

  lemma StrangerAllowed(before: Config, next: int, x: int)
    requires IsNext(IndexMap(before.chats).Values, next) && x in before.allowed && x >= next
    ensures exists fetched: seq<Fetched>, i: nat | DistinctFetched(fetched) && i < |fetched| ::
            JoinsAllowed(before, next, fetched, i)
  {
    var i := x - next;
    var fetched := Strangers(LongestId(before.chats) + 1, i + 1);
    assert DistinctFetched(fetched);
    forall j | 0 <= j < |fetched|
      ensures fetched[j].id !in IndexMap(before.chats)
    {
      LongIdsUnknown(before.chats, fetched[j].id);
    }
    AllNew(IndexMap(before.chats), fetched[..i]);
    assert Assigned(IndexMap(before.chats), next, fetched)[i].index == x;
    SyncedAllowed(before, next, fetched, x);
    assert JoinsAllowed(before, next, fetched, i);
  }
}
