/**
 `fetch_messages` (`feishu_check_messages/recipe.py`): polling chats for commands behind a
 persistent cursor and merging them into tasks. Times are integers (milliseconds); a message is
 what is left after the skipped ones, with its update time defaulted to its creation time.
 */
module ChatPolling {
  import opened Options
  import opened Sorting

  const MERGE_WINDOW_MS: int := 60_000

  datatype Message = Message(id: string, created: int, updated: int, sender: string, command: bool)

  type Cursor = Option<int>

  // ---- new messages

  predicate After(t: int, c: Cursor) { c.None? || t > c.value }

  /** Created, or else edited, after the last poll. */
  predicate IsNew(c: Cursor, m: Message) {
    After(m.created, c) || (After(m.updated, c) && m.updated != m.created)
  }

  function Latest(m: Message): int { if m.updated > m.created then m.updated else m.created }

  /** A message is new exactly when the later of its two times is past the cursor, so that a cursor no lower
      than that silences it. */
  lemma NewIff(c: Cursor, m: Message)
    ensures IsNew(c, m) <==> c.None? || m.created > c.value || m.updated > c.value
    ensures IsNew(c, m) <==> After(Latest(m), c)
  {
  }

  function Raise(c: Cursor, t: int): Cursor { if After(t, c) then Some(t) else c }

  function Highest(c: Cursor, start: Cursor, parsed: seq<Message>): Cursor {
    if |parsed| == 0 then c
    else
      var rest, m := Highest(c, start, parsed[..|parsed| - 1]), parsed[|parsed| - 1];
      if IsNew(start, m) then Raise(rest, Latest(m)) else rest
  }

  predicate NotBelow(a: Cursor, b: Cursor) { b.None? || (a.Some? && a.value >= b.value) }

  lemma {:induction false} HighestCovers(c: Cursor, start: Cursor, parsed: seq<Message>)
    ensures NotBelow(Highest(c, start, parsed), c)
    ensures forall k | 0 <= k < |parsed| && IsNew(start, parsed[k]) ::
              !After(parsed[k].created, Highest(c, start, parsed))
              && !After(parsed[k].updated, Highest(c, start, parsed))
    ensures Highest(c, start, parsed) == c
            || exists k | 0 <= k < |parsed| ::
               IsNew(start, parsed[k]) && Highest(c, start, parsed) == Some(Latest(parsed[k]))
  {
    if |parsed| > 0 {
      var front := parsed[..|parsed| - 1];
      HighestCovers(c, start, front);
      assert forall k | 0 <= k < |front| :: front[k] == parsed[k];
    }
  }

  // ---- merging commands

  /** A message and its place in the chat. */
  datatype Item = Item(place: nat, m: Message)

  type Group = seq<Item>

  function NewCommands(c: Cursor, parsed: seq<Message>): seq<Item> {
    if |parsed| == 0 then []
    else
      var m := parsed[|parsed| - 1];
      NewCommands(c, parsed[..|parsed| - 1]) + if IsNew(c, m) && m.command then [Item(|parsed| - 1, m)] else []
  }

  /** The commands of one task: same sender, close in time. */
  predicate Joined(a: Message, b: Message) { a.sender == b.sender && b.created - a.created <= MERGE_WINDOW_MS }

  function Last<T>(s: seq<T>): T
    requires s != []
  {
    s[|s| - 1]
  }

  function Flat<T>(groups: seq<seq<T>>): seq<T> {
    if |groups| == 0 then [] else Flat(groups[..|groups| - 1]) + groups[|groups| - 1]
  }

  predicate Run(g: Group) { g != [] && forall i | 0 < i < |g| :: Joined(g[i - 1].m, g[i].m) }

  /** A task has one sender, and spans at most a minute for every command after the first. */
  lemma {:induction false} RunSpan(g: Group, i: nat)
    requires Run(g) && i < |g|
    ensures g[i].m.sender == g[0].m.sender && g[i].m.created <= g[0].m.created + 60_000 * i
  {
    if i > 0 {
      RunSpan(g, i - 1);
      assert Joined(g[i - 1].m, g[i].m);
    }
  }

  /** An order-preserving partition into maximal runs. */
  ghost predicate IsGrouping(items: seq<Item>, groups: seq<Group>) {
    && Flat(groups) == items
    && (forall k | 0 <= k < |groups| :: Run(groups[k]))
    && (forall k | 0 < k < |groups| :: Apart(groups, k))
  }

  /** The run before this one could not have gone on. */
  predicate Apart(groups: seq<Group>, k: int)
    requires 0 < k < |groups|
  {
    groups[k - 1] != [] && groups[k] != [] && !Joined(Last(groups[k - 1]).m, groups[k][0].m)
  }

  method MergeCommands(items: seq<Item>) returns (groups: seq<Group>)
    ensures IsGrouping(items, groups)
  {
    groups := [];
    for i := 0 to |items|
      invariant IsGrouping(items[..i], groups)
    {
      var item := items[i];
      assert items[..i + 1] == items[..i] + [item];
      if |groups| > 0 && Joined(Last(Last(groups)).m, item.m) {
        GroupsExtend(items[..i], groups, item);
        groups := groups[..|groups| - 1] + [Last(groups) + [item]];
      } else {
        GroupsOpen(items[..i], groups, item);
        groups := groups + [[item]];
      }
    }
    assert items[..|items|] == items;
  }

  lemma GroupsExtend(items: seq<Item>, groups: seq<Group>, item: Item)
    requires IsGrouping(items, groups) && |groups| > 0 && Run(Last(groups)) && Joined(Last(Last(groups)).m, item.m)
    ensures IsGrouping(items + [item], groups[..|groups| - 1] + [Last(groups) + [item]])
  {
    var front, last := groups[..|groups| - 1], Last(groups);
    var more := front + [last + [item]];
    assert more[..|more| - 1] == front;
    assert Flat(more) == items + [item];
    assert forall k | 0 < k < |groups| :: Apart(groups, k) ==> Apart(more, k);
  }

  lemma GroupsOpen(items: seq<Item>, groups: seq<Group>, item: Item)
    requires IsGrouping(items, groups) && (|groups| > 0 ==> Run(Last(groups)) && !Joined(Last(Last(groups)).m, item.m))
    ensures IsGrouping(items + [item], groups + [[item]])
  {
    var more := groups + [[item]];
    assert more[..|groups|] == groups;
    assert forall k | 0 < k < |groups| :: Apart(groups, k) ==> Apart(more, k);
  }

  lemma LastGroup(items: seq<Item>, groups: seq<Group>)
    requires IsGrouping(items, groups) && items != []
    ensures |groups| > 0 && Run(Last(groups)) && IsGrouping(Flat(groups[..|groups| - 1]), groups[..|groups| - 1])
    ensures var n := |items| - |Last(groups)|;
            && n >= 0 && items[..n] == Flat(groups[..|groups| - 1]) && items[n..] == Last(groups)
            && (n > 0 ==> !JoinedAt(items, n))
  {
    var front, last := groups[..|groups| - 1], Last(groups);
    assert items == Flat(front) + last;
    assert forall k | 0 < k < |front| :: Apart(groups, k) ==> Apart(front, k);
    if |front| == 0 {
      assert Flat(front) == [];
    } else {
      assert Apart(groups, |front|);
      assert Flat(front) == Flat(front[..|front| - 1]) + Last(front);
    }
  }

  /** There is only one such partition. */
  lemma {:induction false} GroupingUnique(items: seq<Item>, a: seq<Group>, b: seq<Group>)
    requires IsGrouping(items, a) && IsGrouping(items, b)
    ensures a == b
    decreases |items|
  {
    if items == [] {
      FlatLength(a);
      FlatLength(b);
    } else {
      LastGroup(items, a);
      LastGroup(items, b);
      var n, m := |items| - |Last(a)|, |items| - |Last(b)|;
      JoinedInside(items, n);
      JoinedInside(items, m);
      GroupingUnique(items[..n], a[..|a| - 1], b[..|b| - 1]);
      assert a == a[..|a| - 1] + [Last(a)] && b == b[..|b| - 1] + [Last(b)];
    }
  }

  lemma {:induction false} FlatLength(groups: seq<Group>)
    requires forall k | 0 <= k < |groups| :: Run(groups[k])
    ensures |Flat(groups)| >= |groups|
  {
    if |groups| > 0 {
      FlatLength(groups[..|groups| - 1]);
      assert Run(groups[|groups| - 1]);
    }
  }

  predicate JoinedAt(items: seq<Item>, k: int) { 0 < k < |items| && Joined(items[k - 1].m, items[k].m) }

  /** A run holds together everywhere inside. */
  lemma JoinedInside(items: seq<Item>, m: nat)
    requires m <= |items| && Run(items[m..])
    ensures forall k | m < k < |items| :: JoinedAt(items, k)
  {
    var run := items[m..];
    forall k | m < k < |items|
      ensures JoinedAt(items, k)
    {
      assert Joined(run[k - m - 1].m, run[k - m].m);
    }
  }

  // ---- tasks

  /** A task: the commands merged into it and the messages before them given as context. */
  datatype Task = Task(commands: seq<Message>, context: seq<Message>)

  function Messages(g: Group): seq<Message> { seq(|g|, (i: nat) requires i < |g| => g[i].m) }

  /** The messages before place `first`, at most `limit` of them. */
  function Context(parsed: seq<Message>, first: nat, limit: int): seq<Message>
    requires first <= |parsed|
  {
    var start := if first - limit > 0 then first - limit else 0;
    if start <= first then parsed[start..first] else []
  }

  /** The context is the latest messages before the command, as many as the limit allows. */
  lemma ContextIsLatest(parsed: seq<Message>, first: nat, limit: int) returns (older: seq<Message>)
    requires first <= |parsed|
    ensures parsed[..first] == older + Context(parsed, first, limit)
    ensures |Context(parsed, first, limit)| == if limit < 0 then 0 else if limit < first then limit else first
  {
    older := parsed[..first - |Context(parsed, first, limit)|];
  }

  /** A new command of the chat, with its own place. */
  ghost predicate IsCommand(c: Cursor, parsed: seq<Message>, item: Item) {
    item.place < |parsed| && parsed[item.place] == item.m && item.m.command && IsNew(c, item.m)
  }

  lemma {:induction false} CommandsIn(c: Cursor, parsed: seq<Message>, item: Item)
    ensures item in NewCommands(c, parsed) <==> IsCommand(c, parsed, item)
  {
    if |parsed| > 0 {
      CommandsIn(c, parsed[..|parsed| - 1], item);
    }
  }

  /** The commands stand in the order of their places, so none occurs twice. */
  lemma {:induction false} CommandsOrdered(c: Cursor, parsed: seq<Message>)
    ensures forall i, j | 0 <= i < j < |NewCommands(c, parsed)| ::
            NewCommands(c, parsed)[i].place < NewCommands(c, parsed)[j].place
    ensures forall i | 0 <= i < |NewCommands(c, parsed)| :: NewCommands(c, parsed)[i].place < |parsed|
  {
    if |parsed| > 0 {
      CommandsOrdered(c, parsed[..|parsed| - 1]);
    }
  }

  function TaskOf(parsed: seq<Message>, g: Group, limit: int): Task {
    Task(Messages(g), if g == [] || g[0].place > |parsed| then [] else Context(parsed, g[0].place, limit))
  }

  function TasksOf(parsed: seq<Message>, groups: seq<Group>, limit: int): seq<Task> {
    if |groups| == 0 then []
    else TasksOf(parsed, groups[..|groups| - 1], limit) + [TaskOf(parsed, groups[|groups| - 1], limit)]
  }

  // ---- the cursor

  /** The largest of the old value and the times of the new messages. */
  ghost predicate IsHighest(v: Cursor, c: Cursor, start: Cursor, parsed: seq<Message>) {
    && NotBelow(v, c) && (v == c || FromNew(v, start, parsed))
    && forall k | 0 <= k < |parsed| && IsNew(start, parsed[k]) :: !After(Latest(parsed[k]), v)
  }

  ghost predicate FromNew(v: Cursor, start: Cursor, parsed: seq<Message>) {
    exists k | 0 <= k < |parsed| :: IsNew(start, parsed[k]) && v == Some(Latest(parsed[k]))
  }

  lemma HighestUnique(v: Cursor, c: Cursor, start: Cursor, parsed: seq<Message>)
    requires IsHighest(v, c, start, parsed)
    ensures v == Highest(c, start, parsed)
  {
    HighestCovers(c, start, parsed);
    var h := Highest(c, start, parsed);
    if v != c {
      var k :| 0 <= k < |parsed| && IsNew(start, parsed[k]) && v == Some(Latest(parsed[k]));
      assert !After(parsed[k].created, h) && !After(parsed[k].updated, h);
    }
    if h != c {
      var k :| 0 <= k < |parsed| && IsNew(start, parsed[k]) && h == Some(Latest(parsed[k]));
      assert !After(Latest(parsed[k]), v);
    }
  }

  /** The cursor after the chats of one poll. */
  function Advance(c: Cursor, start: Cursor, chats: seq<seq<Message>>): Cursor {
    if |chats| == 0 then c else Highest(Advance(c, start, chats[..|chats| - 1]), start, chats[|chats| - 1])
  }

  lemma {:induction false} AdvanceCovers(c: Cursor, start: Cursor, chats: seq<seq<Message>>)
    ensures NotBelow(Advance(c, start, chats), c)
    ensures forall a, k | 0 <= a < |chats| && 0 <= k < |chats[a]| && IsNew(start, chats[a][k]) ::
              NotBelow(Advance(c, start, chats), Some(Latest(chats[a][k])))
  {
    if |chats| > 0 {
      var front, last := chats[..|chats| - 1], chats[|chats| - 1];
      AdvanceCovers(c, start, front);
      HighestCovers(Advance(c, start, front), start, last);
      assert chats == front + [last];
    }
  }

  // ---- one poll

  /** Python's `tasks[-n:]`. */
  function Tail<T>(s: seq<T>, n: int): seq<T> {
    if n > 0 then (if n >= |s| then s else s[|s| - n..])
    else if -n <= |s| then s[-n..] else []
  }

  /** How many of `k` tasks `tasks[-n:]` keeps. */
  function KeptCount(k: nat, n: int): nat {
    if n > 0 then (if n < k then n else k) else if -n <= k then k + n else 0
  }

  /** `kept` are the tasks of highest rank, in order of rank; every task left out ranks no higher. */
  ghost predicate AreHighest(rank: Task -> int, all: seq<Task>, kept: seq<Task>, n: int) {
    |kept| == KeptCount(|all|, n) && TopOf(rank, all, kept)
  }

  lemma TailIsHighest(rank: Task -> int, all: seq<Task>, n: int)
    ensures AreHighest(rank, all, Tail(Sort(rank, all), n), n)
  {
    var sorted := Sort(rank, all);
    SortSorts(rank, all);
    SortPermutes(rank, all);
    var from := |sorted| - KeptCount(|sorted|, n);
    assert Tail(sorted, n) == sorted[from..];
    SuffixIsHighest(rank, all, sorted, from);
  }

  /** All tasks of a poll: chat by chat, the maximal runs of new commands with their context. */
  ghost predicate AreTasks(c: Cursor, chats: seq<seq<Message>>, limit: int, parts: seq<seq<Group>>, tasks: seq<Task>) {
    AreParts(c, chats, parts) && tasks == AllTasks(chats, parts, limit)
  }

  ghost predicate AreParts(c: Cursor, chats: seq<seq<Message>>, parts: seq<seq<Group>>) {
    |parts| == |chats| && forall k | 0 <= k < |chats| :: IsGrouping(NewCommands(c, chats[k]), parts[k])
  }

  function AllTasks(chats: seq<seq<Message>>, parts: seq<seq<Group>>, limit: int): seq<Task> {
    if |chats| == 0 || |parts| == 0 then []
    else AllTasks(chats[..|chats| - 1], parts[..|parts| - 1], limit)
         + TasksOf(chats[|chats| - 1], parts[|parts| - 1], limit)
  }

  class Poller {
    var cursor: Cursor

    constructor (cursor: Cursor)
      ensures this.cursor == cursor
    {
      this.cursor := cursor;
    }

    /** One chat of a poll: its tasks, and the highest time seen so far. */
    method PollChat(start: Cursor, parsed: seq<Message>, limit: int, highest: Cursor)
      returns (tasks: seq<Task>, raised: Cursor, ghost groups: seq<Group>)
      ensures IsGrouping(NewCommands(start, parsed), groups) && tasks == TasksOf(parsed, groups, limit)
      ensures raised == Highest(highest, start, parsed)
    {
      var items := CollectCommands(start, parsed);
      var merged := MergeCommands(items);
      groups := merged;
      tasks, raised := TasksFrom(start, parsed, merged, limit, highest);
      raised := RaiseAll(start, parsed, highest, raised);
      HighestUnique(raised, highest, start, parsed);
    }

    /** The loop over the groups: a task for each, and the time of its last command. */
    method TasksFrom(start: Cursor, parsed: seq<Message>, groups: seq<Group>, limit: int, highest: Cursor)
      returns (tasks: seq<Task>, raised: Cursor)
      requires IsGrouping(NewCommands(start, parsed), groups)
      ensures tasks == TasksOf(parsed, groups, limit)
      ensures NotBelow(raised, highest) && (raised == highest || FromNew(raised, start, parsed))
    {
      tasks, raised := [], highest;
      for g := 0 to |groups|
        invariant tasks == TasksOf(parsed, groups[..g], limit)
        invariant NotBelow(raised, highest) && (raised == highest || FromNew(raised, start, parsed))
      {
        assert groups[..g + 1][..g] == groups[..g] && Run(groups[g]);
        tasks := tasks + [TaskOf(parsed, groups[g], limit)];
        LastIsNew(start, parsed, groups, g);
        raised := Raise(raised, Latest(Last(groups[g]).m));
      }
      assert groups[..|groups|] == groups;
    }

    /** The loop over all messages, commands or not. */
    method RaiseAll(start: Cursor, parsed: seq<Message>, highest: Cursor, before: Cursor) returns (raised: Cursor)
      requires NotBelow(before, highest) && (before == highest || FromNew(before, start, parsed))
      ensures IsHighest(raised, highest, start, parsed)
    {
      raised := before;
      for k := 0 to |parsed|
        invariant NotBelow(raised, highest) && (raised == highest || FromNew(raised, start, parsed))
        invariant forall i | 0 <= i < k && IsNew(start, parsed[i]) :: !After(Latest(parsed[i]), raised)
      {
        if IsNew(start, parsed[k]) {
          raised := Raise(raised, Latest(parsed[k]));
        }
      }
    }

    method CollectCommands(start: Cursor, parsed: seq<Message>) returns (items: seq<Item>)
      ensures items == NewCommands(start, parsed)
    {
      items := [];
      for k := 0 to |parsed|
        invariant items == NewCommands(start, parsed[..k])
      {
        assert parsed[..k + 1][..k] == parsed[..k];
        if IsNew(start, parsed[k]) && parsed[k].command {
          items := items + [Item(k, parsed[k])];
        }
      }
      assert parsed[..|parsed|] == parsed;
    }

    /** One poll: the new commands become tasks, at most the last `maxResults` of them in the order
        of their ids are handed out, and the cursor moves past everything new. */
    method Poll(chats: seq<seq<Message>>, limit: int, maxResults: int, rank: Task -> int)
      returns (tasks: seq<Task>, ghost all: seq<Task>, ghost parts: seq<seq<Group>>)
      modifies this
      ensures AreTasks(old(cursor), chats, limit, parts, all) && tasks == Tail(Sort(rank, all), maxResults)
      ensures AreHighest(rank, all, tasks, maxResults)
      ensures cursor == Advance(old(cursor), old(cursor), chats)
    {
      var start, highest, found := cursor, cursor, [];
      parts := [];
      for k := 0 to |chats|
        invariant cursor == start && AreTasks(start, chats[..k], limit, parts, found)
        invariant highest == Advance(start, start, chats[..k])
      {
        var more, raised, groups := PollChat(start, chats[k], limit, highest);
        OneChatMore(start, chats, k, limit, parts, found, groups);
        found, highest, parts := found + more, raised, parts + [groups];
      }
      assert chats[..|chats|] == chats;
      all := found;
      tasks := Tail(Sort(rank, found), maxResults);
      TailIsHighest(rank, found, maxResults);
      if highest != start {
        cursor := highest;
      }
    }
  }

  /** One chat more of a poll. */
  lemma OneChatMore(c: Cursor, chats: seq<seq<Message>>, k: nat, limit: int, parts: seq<seq<Group>>, found: seq<Task>,
                    groups: seq<Group>)
    requires k < |chats| && AreTasks(c, chats[..k], limit, parts, found) && IsGrouping(NewCommands(c, chats[k]), groups)
    ensures AreTasks(c, chats[..k + 1], limit, parts + [groups], found + TasksOf(chats[k], groups, limit))
    ensures Advance(c, c, chats[..k + 1]) == Highest(Advance(c, c, chats[..k]), c, chats[k])
  {
    assert chats[..k + 1] == chats[..k] + [chats[k]] && chats[..k + 1][..k] == chats[..k];
    MoreParts(c, chats[..k], parts, chats[k], groups);
    MoreTasks(chats[..k], parts, limit, chats[k], groups);
  }

  lemma MoreParts(c: Cursor, chats: seq<seq<Message>>, parts: seq<seq<Group>>, chat: seq<Message>, groups: seq<Group>)
    requires AreParts(c, chats, parts) && IsGrouping(NewCommands(c, chat), groups)
    ensures AreParts(c, chats + [chat], parts + [groups])
  {
    var more, ps := chats + [chat], parts + [groups];
    forall k | 0 <= k < |more|
      ensures IsGrouping(NewCommands(c, more[k]), ps[k])
    {
      assert k < |chats| ==> more[k] == chats[k] && ps[k] == parts[k];
    }
  }

  lemma MoreTasks(chats: seq<seq<Message>>, parts: seq<seq<Group>>, limit: int, chat: seq<Message>, groups: seq<Group>)
    requires |chats| == |parts|
    ensures AllTasks(chats + [chat], parts + [groups], limit)
            == AllTasks(chats, parts, limit) + TasksOf(chat, groups, limit)
  {
    assert (chats + [chat])[..|chats|] == chats && (parts + [groups])[..|parts|] == parts;
  }

  lemma {:induction false} InFlat<T>(groups: seq<seq<T>>, g: nat, x: T)
    requires g < |groups| && x in groups[g]
    ensures x in Flat(groups)
  {
    if g < |groups| - 1 {
      InFlat(groups[..|groups| - 1], g, x);
    }
  }

  lemma LastIsNew(c: Cursor, parsed: seq<Message>, groups: seq<Group>, g: nat)
    requires IsGrouping(NewCommands(c, parsed), groups) && g < |groups| && Run(groups[g])
    ensures FromNew(Some(Latest(Last(groups[g]).m)), c, parsed)
  {
    var item := Last(groups[g]);
    InFlat(groups, g, item);
    CommandsIn(c, parsed, item);
  }

  function Commands(tasks: seq<Task>): seq<Message> {
    if |tasks| == 0 then [] else Commands(tasks[..|tasks| - 1]) + tasks[|tasks| - 1].commands
  }

  /** A chat's tasks carry, in order, exactly the messages that were merged. */
  lemma {:induction false} TasksCarry(parsed: seq<Message>, groups: seq<Group>, limit: int)
    ensures Commands(TasksOf(parsed, groups, limit)) == Messages(Flat(groups))
  {
    if |groups| > 0 {
      var front, last := groups[..|groups| - 1], groups[|groups| - 1];
      TasksCarry(parsed, front, limit);
      assert TasksOf(parsed, groups, limit)[..|TasksOf(parsed, groups, limit)| - 1] == TasksOf(parsed, front, limit);
    }
  }

  // ---- what the tasks of one poll carry

  ghost predicate Ordered(items: seq<Item>) { forall i, j | 0 <= i < j < |items| :: items[i].place < items[j].place }

  lemma {:induction false} FlatOrdered(groups: seq<Group>, g: nat, i: nat, h: nat, j: nat)
    requires Ordered(Flat(groups)) && g < |groups| && i < |groups[g]| && h < |groups| && j < |groups[h]|
    requires g < h || (g == h && i < j)
    ensures groups[g][i].place < groups[h][j].place
  {
    var front, last := groups[..|groups| - 1], groups[|groups| - 1];
    var before := Flat(front);
    assert Flat(groups) == before + last;
    if h < |front| {
      assert forall k, l | 0 <= k < l < |before| :: before[k] == Flat(groups)[k] && before[l] == Flat(groups)[l];
      FlatOrdered(front, g, i, h, j);
    } else {
      assert Flat(groups)[|before| + j] == last[j];
      if g < h {
        InFlat(front, g, groups[g][i]);
        var k :| 0 <= k < |before| && before[k] == groups[g][i];
        assert Flat(groups)[k] == before[k];
      } else {
        assert Flat(groups)[|before| + i] == last[i];
      }
    }
  }

  /** The place is one of those merged into group `g`, and so into task `g`. */
  ghost predicate InGroup(groups: seq<Group>, g: nat, place: nat) {
    g < |groups| && exists i | 0 <= i < |groups[g]| :: groups[g][i].place == place
  }

  lemma {:induction false} FromFlat<T>(groups: seq<seq<T>>, x: T)
    requires x in Flat(groups)
    ensures exists g | 0 <= g < |groups| :: x in groups[g]
  {
    var front := groups[..|groups| - 1];
    if x in Flat(front) {
      FromFlat(front, x);
      var g :| 0 <= g < |front| && x in front[g];
      assert x in groups[g];
    }
  }

  /** In one poll of a chat the place of every new command is in exactly one task, and no other
      place is in any. */
  lemma PlaceInOneTask(c: Cursor, parsed: seq<Message>, groups: seq<Group>, place: nat)
    requires IsGrouping(NewCommands(c, parsed), groups)
    ensures (exists g: nat :: InGroup(groups, g, place)) <==>
            place < |parsed| && parsed[place].command && IsNew(c, parsed[place])
    ensures forall g: nat, h: nat | InGroup(groups, g, place) && InGroup(groups, h, place) :: g == h
  {
    CommandsOrdered(c, parsed);
    forall g: nat, h: nat | InGroup(groups, g, place) && InGroup(groups, h, place)
      ensures g == h
    {
      var i :| 0 <= i < |groups[g]| && groups[g][i].place == place;
      var j :| 0 <= j < |groups[h]| && groups[h][j].place == place;
      if g < h { FlatOrdered(groups, g, i, h, j); } else if h < g { FlatOrdered(groups, h, j, g, i); }
    }
    if g: nat :| InGroup(groups, g, place) {
      var i :| 0 <= i < |groups[g]| && groups[g][i].place == place;
      InFlat(groups, g, groups[g][i]);
      CommandsIn(c, parsed, groups[g][i]);
    }
    if place < |parsed| && parsed[place].command && IsNew(c, parsed[place]) {
      GroupOf(c, parsed, groups, place);
    }
  }

  lemma GroupOf(c: Cursor, parsed: seq<Message>, groups: seq<Group>, place: nat)
    requires IsGrouping(NewCommands(c, parsed), groups)
    requires place < |parsed| && parsed[place].command && IsNew(c, parsed[place])
    ensures exists g: nat :: InGroup(groups, g, place)
  {
    var item := Item(place, parsed[place]);
    CommandsIn(c, parsed, item);
    FromFlat(groups, item);
    var g :| 0 <= g < |groups| && item in groups[g];
    assert InGroup(groups, g, place);
  }

  /** Some chat of the poll shows this message as a new command. */
  ghost predicate Shown(c: Cursor, chats: seq<seq<Message>>, m: Message) {
    exists a | 0 <= a < |chats| :: m in chats[a] && m.command && IsNew(c, m)
  }

  lemma {:induction false} CommandsAppend(a: seq<Task>, b: seq<Task>)
    ensures Commands(a + b) == Commands(a) + Commands(b)
  {
    if |b| == 0 {
      assert a + b == a;
    } else {
      var front, last := b[..|b| - 1], b[|b| - 1];
      assert (a + b)[..|a + b| - 1] == a + front && (a + b)[|a + b| - 1] == last;
      CommandsAppend(a, front);
      assert Commands(a) + (Commands(front) + last.commands) == Commands(a) + Commands(front) + last.commands;
    }
  }

  /** A chat's tasks carry exactly its new commands. */
  lemma ChatCarriesIff(c: Cursor, parsed: seq<Message>, groups: seq<Group>, limit: int, m: Message)
    requires IsGrouping(NewCommands(c, parsed), groups)
    ensures m in Commands(TasksOf(parsed, groups, limit)) <==> m in parsed && m.command && IsNew(c, m)
  {
    TasksCarry(parsed, groups, limit);
    var items := NewCommands(c, parsed);
    if m in Messages(items) {
      var i :| 0 <= i < |items| && items[i].m == m;
      CommandsIn(c, parsed, items[i]);
    }
    if m in parsed && m.command && IsNew(c, m) {
      var k :| 0 <= k < |parsed| && parsed[k] == m;
      CommandsIn(c, parsed, Item(k, m));
      var i :| 0 <= i < |items| && items[i] == Item(k, m);
      assert Messages(items)[i] == m;
    }
  }

  /** The tasks of a poll carry exactly the new commands of its chats. */
  lemma {:induction false} PollCarriesIff(c: Cursor, chats: seq<seq<Message>>, limit: int, parts: seq<seq<Group>>,
                                          m: Message)
    requires AreParts(c, chats, parts)
    ensures m in Commands(AllTasks(chats, parts, limit)) <==> Shown(c, chats, m)
  {
    if |chats| > 0 {
      var n := |chats| - 1;
      PollCarriesIff(c, chats[..n], limit, parts[..n], m);
      ChatCarriesIff(c, chats[n], parts[n], limit, m);
      CommandsAppend(AllTasks(chats[..n], parts[..n], limit), TasksOf(chats[n], parts[n], limit));
      ShownMore(c, chats, m);
    }
  }

  lemma ShownMore(c: Cursor, chats: seq<seq<Message>>, m: Message)
    requires |chats| > 0
    ensures Shown(c, chats, m) <==>
            Shown(c, chats[..|chats| - 1], m) || (m in chats[|chats| - 1] && m.command && IsNew(c, m))
  {
    var front := chats[..|chats| - 1];
    if Shown(c, front, m) {
      var a :| 0 <= a < |front| && m in front[a];
      assert m in chats[a];
    }
    if Shown(c, chats, m) {
      var a :| 0 <= a < |chats| && m in chats[a];
      assert a < |front| ==> m in front[a];
    }
  }

  // ---- any sequence of polls

  ghost predicate IsRun(polls: seq<seq<seq<Message>>>, cursors: seq<Cursor>) {
    && |cursors| == |polls| + 1
    && forall i | 0 <= i < |polls| :: cursors[i + 1] == Advance(cursors[i], cursors[i], polls[i])
  }

  lemma {:induction false} CursorNeverDecreases(polls: seq<seq<seq<Message>>>, cursors: seq<Cursor>, i: nat, j: nat)
    requires IsRun(polls, cursors) && i <= j < |cursors|
    ensures NotBelow(cursors[j], cursors[i])
  {
    if i < j {
      CursorNeverDecreases(polls, cursors, i, j - 1);
      AdvanceCovers(cursors[j - 1], cursors[j - 1], polls[j - 1]);
      assert cursors[j - 1 + 1] == Advance(cursors[j - 1], cursors[j - 1], polls[j - 1]);
    }
  }

  /** A message that was new in one poll is not new, at the same update time, in any later one. */
  lemma NewOnlyOnce(polls: seq<seq<seq<Message>>>, cursors: seq<Cursor>, i: nat, j: nat, a: nat, k: nat)
    requires IsRun(polls, cursors) && i < j < |cursors|
    requires a < |polls[i]| && k < |polls[i][a]| && IsNew(cursors[i], polls[i][a][k])
    ensures !IsNew(cursors[j], polls[i][a][k])
  {
    AdvanceCovers(cursors[i], cursors[i], polls[i]);
    CursorNeverDecreases(polls, cursors, i + 1, j);
  }

  /** `all` lists, poll by poll, all tasks found. */
  ghost predicate IsTaskRun(polls: seq<seq<seq<Message>>>, cursors: seq<Cursor>, limit: int,
                            parts: seq<seq<seq<Group>>>,
                            all: seq<seq<Task>>) {
    && IsRun(polls, cursors) && |parts| == |all| == |polls|
    && forall i | 0 <= i < |polls| :: AreTasks(cursors[i], polls[i], limit, parts[i], all[i])
  }

  /** A message, at one update time, is in the tasks of at most one poll: what a task of one poll
      carried, handed out or cut off, no task of a later poll carries. */
  lemma CarriedAtMostOnce(polls: seq<seq<seq<Message>>>, cursors: seq<Cursor>, limit: int, parts: seq<seq<seq<Group>>>,
                          all: seq<seq<Task>>, i: nat, j: nat, m: Message)
    requires IsTaskRun(polls, cursors, limit, parts, all) && i < j < |polls| && m in Commands(all[i])
    ensures m !in Commands(all[j])
  {
    assert AreTasks(cursors[i], polls[i], limit, parts[i], all[i]);
    assert AreTasks(cursors[j], polls[j], limit, parts[j], all[j]);
    PollCarriesIff(cursors[i], polls[i], limit, parts[i], m);
    PollCarriesIff(cursors[j], polls[j], limit, parts[j], m);
    var a :| 0 <= a < |polls[i]| && m in polls[i][a];
    var k :| 0 <= k < |polls[i][a]| && polls[i][a][k] == m;
    NewOnlyOnce(polls, cursors, i, j, a, k);
  }

  /** Everything found is handed out exactly when nothing was found, no limit is set, or the limit
      is not exceeded; beyond it those with the lowest ids are dropped. */
  lemma AllHandedOutIff(all: seq<Task>, rank: Task -> int, maxResults: int)
    ensures multiset(Tail(Sort(rank, all), maxResults)) == multiset(all) <==>
            all == [] || maxResults == 0 || |all| <= maxResults
  {
    SortPermutes(rank, all);
    var sorted := Sort(rank, all);
    var tail := Tail(sorted, maxResults);
    if multiset(tail) == multiset(all) {
      assert |multiset(tail)| == |tail| && |multiset(all)| == |all|;
    } else {
      assert tail != sorted;
    }
  }
}
