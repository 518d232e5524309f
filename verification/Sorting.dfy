/** `list.sort` and `sorted` with a key: stable sorting, and what survives it. */
module Sorting {

  function Insert<T>(key: T -> int, x: T, sorted: seq<T>): seq<T> {
    if |sorted| == 0 then [x]
    else if key(sorted[|sorted| - 1]) <= key(x) then sorted + [x]
    else Insert(key, x, sorted[..|sorted| - 1]) + [sorted[|sorted| - 1]]
  }

  function Sort<T>(key: T -> int, s: seq<T>): seq<T> {
    if |s| == 0 then [] else Insert(key, s[|s| - 1], Sort(key, s[..|s| - 1]))
  }

  ghost predicate SortedBy<T>(key: T -> int, s: seq<T>) { forall i, j | 0 <= i < j < |s| :: key(s[i]) <= key(s[j]) }

  lemma {:induction false} InsertAdds<T>(key: T -> int, x: T, s: seq<T>)
    ensures multiset(Insert(key, x, s)) == multiset(s) + multiset{x} && |Insert(key, x, s)| == |s| + 1
  {
    if |s| > 0 && key(s[|s| - 1]) > key(x) {
      var front, last := s[..|s| - 1], s[|s| - 1];
      SnocCounts(s, front, last);
      InsertAdds(key, x, front);
      SnocCounts(Insert(key, x, s), Insert(key, x, front), last);
    }
  }

  ghost predicate Below<T>(key: T -> int, s: seq<T>, bound: int) { forall i | 0 <= i < |s| :: key(s[i]) <= bound }

  lemma {:induction false} InsertBelow<T>(key: T -> int, x: T, s: seq<T>, bound: int)
    requires Below(key, s, bound) && key(x) <= bound
    ensures Below(key, Insert(key, x, s), bound)
  {
    if |s| > 0 && key(s[|s| - 1]) > key(x) {
      InsertBelow(key, x, s[..|s| - 1], bound);
    }
  }

  lemma {:induction false} InsertSorts<T>(key: T -> int, x: T, s: seq<T>)
    requires SortedBy(key, s)
    ensures SortedBy(key, Insert(key, x, s))
  {
    if |s| > 0 && key(s[|s| - 1]) > key(x) {
      var front, last := s[..|s| - 1], s[|s| - 1];
      InsertSorts(key, x, front);
      InsertBelow(key, x, front, key(last));
    }
  }

  lemma {:induction false} SortSorts<T>(key: T -> int, s: seq<T>)
    ensures SortedBy(key, Sort(key, s))
  {
    if |s| > 0 {
      SortSorts(key, s[..|s| - 1]);
      InsertSorts(key, s[|s| - 1], Sort(key, s[..|s| - 1]));
    }
  }

  lemma {:induction false} SortPermutes<T>(key: T -> int, s: seq<T>)
    ensures multiset(Sort(key, s)) == multiset(s) && |Sort(key, s)| == |s|
  {
    if |s| > 0 {
      var front, last := s[..|s| - 1], s[|s| - 1];
      assert s == front + [last];
      SortPermutes(key, front);
      InsertPermutes(key, s, front, last, Sort(key, front));
    }
  }

  /** The elements with key `k`, in order. */
  function WithKey<T>(key: T -> int, s: seq<T>, k: int): seq<T> {
    if |s| == 0 then []
    else WithKey(key, s[..|s| - 1], k) + if key(s[|s| - 1]) == k then [s[|s| - 1]] else []
  }

  lemma WithKeySnoc<T>(key: T -> int, s: seq<T>, x: T, k: int)
    ensures WithKey(key, s + [x], k) == WithKey(key, s, k) + if key(x) == k then [x] else []
  {
    assert (s + [x])[..|s|] == s;
  }

  /** Inserting puts an element behind all those with its own key. */
  lemma {:induction false} InsertStable<T>(key: T -> int, x: T, s: seq<T>, k: int)
    ensures WithKey(key, Insert(key, x, s), k) == WithKey(key, s + [x], k)
  {
    WithKeySnoc(key, s, x, k);
    if |s| > 0 && key(s[|s| - 1]) > key(x) {
      var front, last := s[..|s| - 1], s[|s| - 1];
      assert s == front + [last];
      InsertStable(key, x, front, k);
      WithKeySnoc(key, front, x, k);
      WithKeySnoc(key, front, last, k);
      WithKeySnoc(key, Insert(key, x, front), last, k);
    }
  }

  /** Sorting is stable: elements with equal keys keep their order. */
  lemma {:induction false} SortStable<T>(key: T -> int, s: seq<T>, k: int)
    ensures WithKey(key, Sort(key, s), k) == WithKey(key, s, k)
  {
    if |s| > 0 {
      var front, last := s[..|s| - 1], s[|s| - 1];
      SortStable(key, front, k);
      InsertStable(key, last, Sort(key, front), k);
      WithKeySnoc(key, Sort(key, front), last, k);
    }
  }

  /** `kept` are some of `all`, sorted, and nothing left out has a larger key than anything kept. */
  ghost predicate TopOf<T(!new)>(key: T -> int, all: seq<T>, kept: seq<T>) {
    && SortedBy(key, kept) && multiset(kept) <= multiset(all)
    && forall x, y | x in multiset(all) - multiset(kept) && y in kept :: key(x) <= key(y)
  }

  lemma SuffixIsHighest<T(!new)>(key: T -> int, all: seq<T>, sorted: seq<T>, from: nat)
    requires SortedBy(key, sorted) && multiset(sorted) == multiset(all) && from <= |sorted|
    ensures TopOf(key, all, sorted[from..])
  {
    var dropped, kept := sorted[..from], sorted[from..];
    assert sorted == dropped + kept;
    forall x, y | x in multiset(all) - multiset(kept) && y in kept ensures key(x) <= key(y) {
      InDropped(all, dropped, kept, x);
      var i :| 0 <= i < |dropped| && dropped[i] == x;
      var j :| 0 <= j < |kept| && kept[j] == y;
      assert sorted[i] == x && sorted[from + j] == y;
    }
  }

  lemma InDropped<T>(all: seq<T>, dropped: seq<T>, kept: seq<T>, x: T)
    requires multiset(all) == multiset(dropped + kept) && x in multiset(all) - multiset(kept)
    ensures x in dropped
  {
    assert multiset(dropped + kept) == multiset(dropped) + multiset(kept);
    assert x in multiset(dropped);
  }

  lemma InsertPermutes<T>(key: T -> int, s: seq<T>, front: seq<T>, last: T, before: seq<T>)
    requires s == front + [last] && multiset(before) == multiset(front) && |before| == |front|
    ensures multiset(Insert(key, last, before)) == multiset(s) && |Insert(key, last, before)| == |s|
  {
    InsertAdds(key, last, before);
    SnocCounts(s, front, last);
  }

  lemma SnocCounts<T>(s: seq<T>, front: seq<T>, last: T)
    requires s == front + [last]
    ensures multiset(s) == multiset(front) + multiset{last}
  {
  }

  ghost predicate DistinctBy<T, K>(key: T -> K, s: seq<T>) { forall i, j | 0 <= i < j < |s| :: key(s[i]) != key(s[j]) }

  lemma Twice<T>(s: seq<T>, i: nat, j: nat)
    requires i < j < |s| && s[i] == s[j]
    ensures multiset(s)[s[i]] >= 2
  {
    assert s == s[..j] + [s[j]] + s[j + 1..];
    assert s[..j][i] == s[i];
    assert s[i] in s[..j];
  }

  lemma {:induction false} AtMostOnce<T, K>(key: T -> K, s: seq<T>, x: T)
    requires DistinctBy(key, s)
    ensures multiset(s)[x] <= 1
  {
    if |s| > 0 {
      var front, last := s[..|s| - 1], s[|s| - 1];
      assert s == front + [last];
      AtMostOnce(key, front, x);
      if x == last {
        assert x !in front;
      }
    }
  }

  lemma PermutedDistinct<T, K>(key: T -> K, s: seq<T>, t: seq<T>)
    requires DistinctBy(key, s) && multiset(s) == multiset(t)
    ensures DistinctBy(key, t)
  {
    forall i, j | 0 <= i < j < |t|
      ensures key(t[i]) != key(t[j])
    {
      SameElements(s, t, t[i]);
      SameElements(s, t, t[j]);
      AtMostOnce(key, s, t[i]);
      if t[i] == t[j] {
        Twice(t, i, j);
      }
    }
  }

  lemma SameElements<T>(s: seq<T>, t: seq<T>, x: T)
    requires multiset(s) == multiset(t)
    ensures x in s <==> x in t
  {
    assert x in s <==> x in multiset(s);
    assert x in t <==> x in multiset(t);
  }
}
