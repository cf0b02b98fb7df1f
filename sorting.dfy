/**
 * The three query shapes the data-access code relies on (`WHERE`, `ORDER BY`, `LIMIT`) as
 * functions on sequences of rows. `ORDER BY` is a stable sort on an integer key: rows with
 * equal keys keep their table order.
 */
module Sorting {

  /** The rows of `s` that satisfy `p`, in their original order. */
  function Filter<T>(s: seq<T>, p: T -> bool): (r: seq<T>)
    ensures |r| <= |s|
    ensures forall i :: 0 <= i < |r| ==> p(r[i])
    ensures forall i :: 0 <= i < |r| ==> r[i] in s
    ensures forall i :: 0 <= i < |s| && p(s[i]) ==> s[i] in r
  {
    if s == [] then [] else (if p(s[0]) then [s[0]] else []) + Filter(s[1..], p)
  }

  lemma {:induction false} FilterAppend<T>(a: seq<T>, b: seq<T>, p: T -> bool)
    ensures Filter(a + b, p) == Filter(a, p) + Filter(b, p)
  {
    if a == [] {
      assert a + b == b;
    } else {
      var head := if p(a[0]) then [a[0]] else [];
      assert (a + b)[0] == a[0];
      assert (a + b)[1..] == a[1..] + b;
      FilterAppend(a[1..], b, p);
      calc {
        Filter(a + b, p);
        head + Filter(a[1..] + b, p);
        head + (Filter(a[1..], p) + Filter(b, p));
        (head + Filter(a[1..], p)) + Filter(b, p);
      }
    }
  }

  /** Filtering twice with the same predicate is filtering once. */
  lemma {:induction false} FilterIdempotent<T>(s: seq<T>, p: T -> bool)
    ensures Filter(Filter(s, p), p) == Filter(s, p)
  {
    if s != [] {
      var head := if p(s[0]) then [s[0]] else [];
      FilterIdempotent(s[1..], p);
      FilterAppend(head, Filter(s[1..], p), p);
      assert Filter(head, p) == head by {
        if p(s[0]) { assert head[1..] == []; }
      }
    }
  }

  /** When every row satisfies `p`, filtering keeps the sequence as it is. */
  lemma {:induction false} FilterAll<T>(s: seq<T>, p: T -> bool)
    requires forall i :: 0 <= i < |s| ==> p(s[i])
    ensures Filter(s, p) == s
  {
    if s != [] { FilterAll(s[1..], p); }
  }

  /** Rows satisfying `p` and rows satisfying its negation make up the whole sequence. */
  lemma {:induction false} FilterSplit<T>(s: seq<T>, p: T -> bool, q: T -> bool)
    requires forall x :: q(x) == !p(x)
    ensures |Filter(s, p)| + |Filter(s, q)| == |s|
  {
    if s != [] { FilterSplit(s[1..], p, q); }
  }

  /** Filtering keeps a sub-multiset of the rows. */
  lemma {:induction false} FilterSubMultiset<T>(s: seq<T>, p: T -> bool)
    ensures multiset(Filter(s, p)) <= multiset(s)
  {
    if s != [] {
      FilterSubMultiset(s[1..], p);
      assert s == [s[0]] + s[1..];
      assert multiset(s) == multiset{s[0]} + multiset(s[1..]);
      if p(s[0]) {
        assert Filter(s, p) == [s[0]] + Filter(s[1..], p);
      } else {
        assert Filter(s, p) == Filter(s[1..], p);
      }
    }
  }

  /** Every row `Filter` keeps is a row of `s` that satisfies `p`. */
  lemma FilterMembers<T>(s: seq<T>, p: T -> bool)
    ensures forall x :: x in Filter(s, p) ==> x in s && p(x)
  {
    var r := Filter(s, p);
    forall x | x in r
      ensures x in s && p(x)
    {
      var i :| 0 <= i < |r| && r[i] == x;
    }
  }

  /** The rows of a sub-multiset are rows of the whole. */
  lemma SubMultisetMembers<T>(r: seq<T>, s: seq<T>)
    requires multiset(r) <= multiset(s)
    ensures forall x :: x in r ==> x in s
  {
    forall x | x in r
      ensures x in s
    {
      assert x in multiset(r);
    }
  }

  /** `LIMIT n`: the first `n` rows, or all of them when there are fewer. */
  function Take<T>(s: seq<T>, n: nat): (r: seq<T>)
    ensures |r| == if n < |s| then n else |s|
    ensures r == s[..|r|]
  {
    if n < |s| then s[..n] else s
  }

  /** A prefix of an ordered sequence is ordered and holds some of its rows. */
  lemma TakeAscending<T>(s: seq<T>, n: nat, key: T -> int)
    requires Ascending(s, key)
    ensures Ascending(Take(s, n), key)
    ensures multiset(Take(s, n)) <= multiset(s)
  {
    var r := Take(s, n);
    assert s == r + s[|r|..];
    assert multiset(s) == multiset(r) + multiset(s[|r|..]);
  }

  predicate Ascending<T>(s: seq<T>, key: T -> int)
  {
    forall i, j :: 0 <= i < j < |s| ==> key(s[i]) <= key(s[j])
  }

  /** Filtering an ordered sequence leaves it ordered. */
  lemma {:induction false} FilterAscending<T>(s: seq<T>, p: T -> bool, key: T -> int)
    requires Ascending(s, key)
    ensures Ascending(Filter(s, p), key)
  {
    if s != [] {
      var rest := Filter(s[1..], p);
      FilterAscending(s[1..], p, key);
      if p(s[0]) {
        HeadBelowRest(s, p, key);
        ConsAscending(s[0], rest, key);
        assert Filter(s, p) == [s[0]] + rest;
      } else {
        assert Filter(s, p) == rest;
      }
    }
  }

  /** The first row of an ordered sequence has a key no larger than any row filtered from the rest. */
  lemma HeadBelowRest<T>(s: seq<T>, p: T -> bool, key: T -> int)
    requires Ascending(s, key) && s != []
    ensures forall i :: 0 <= i < |Filter(s[1..], p)| ==> key(s[0]) <= key(Filter(s[1..], p)[i])
  {
    var rest := Filter(s[1..], p);
    forall i | 0 <= i < |rest|
      ensures key(s[0]) <= key(rest[i])
    {
      var x := rest[i];
      assert x in s[1..];
      var j :| 0 <= j < |s[1..]| && s[1..][j] == x;
      assert s[j + 1] == x;
    }
  }

  /** A row no larger than every row of an ordered sequence can be put in front of it. */
  lemma ConsAscending<T>(x: T, rest: seq<T>, key: T -> int)
    requires Ascending(rest, key)
    requires forall i :: 0 <= i < |rest| ==> key(x) <= key(rest[i])
    ensures Ascending([x] + rest, key)
  {
    var r := [x] + rest;
    forall i, j | 0 <= i < j < |r|
      ensures key(r[i]) <= key(r[j])
    {
      assert r[j] == rest[j - 1];
      if i > 0 {
        assert r[i] == rest[i - 1];
      }
    }
  }

  /** Places `x` after every row whose key is at most its own. */
  function Insert<T>(s: seq<T>, x: T, key: T -> int): (r: seq<T>)
    requires Ascending(s, key)
    ensures |r| == |s| + 1
    ensures multiset(r) == multiset(s) + multiset{x}
    ensures Ascending(r, key)
    decreases |s|
  {
    if s == [] || key(s[|s| - 1]) <= key(x) then s + [x]
    else
      var init, last := s[..|s| - 1], s[|s| - 1];
      assert s == init + [last];
      var front := Insert(init, x, key);
      BelowLast(s, x, front, key);
      front + [last]
  }

  /** The step of `Insert` that puts the old last row back at the end. */
  lemma BelowLast<T>(s: seq<T>, x: T, front: seq<T>, key: T -> int)
    requires Ascending(s, key) && s != [] && key(x) < key(s[|s| - 1])
    requires Ascending(front, key)
    requires multiset(front) == multiset(s[..|s| - 1]) + multiset{x}
    ensures Ascending(front + [s[|s| - 1]], key)
    ensures multiset(front + [s[|s| - 1]]) == multiset(s) + multiset{x}
  {
    var init, last := s[..|s| - 1], s[|s| - 1];
    assert s == init + [last];
    forall i | 0 <= i < |front|
      ensures key(front[i]) <= key(last)
    {
      assert front[i] in multiset(front);
      if front[i] != x {
        assert front[i] in multiset(init);
        var k :| 0 <= k < |init| && init[k] == front[i];
        assert s[k] == front[i];
      }
    }
  }

  /** `ORDER BY key`, stable. */
  function SortBy<T>(s: seq<T>, key: T -> int): (r: seq<T>)
    ensures Ascending(r, key)
    ensures multiset(r) == multiset(s)
    ensures |r| == |s|
  {
    if s == [] then []
    else
      var init, last := s[..|s| - 1], s[|s| - 1];
      assert s == init + [last];
      Insert(SortBy(init, key), last, key)
  }

  /** A row whose key is at least every other key ends up last, after the others in sorted order. */
  lemma SortByAppendMax<T>(s: seq<T>, x: T, key: T -> int)
    requires forall i :: 0 <= i < |s| ==> key(s[i]) <= key(x)
    ensures SortBy(s + [x], key) == SortBy(s, key) + [x]
  {
    var t := s + [x];
    assert t[..|t| - 1] == s && t[|t| - 1] == x;
    var sorted := SortBy(s, key);
    assert SortBy(t, key) == Insert(sorted, x, key);
    if sorted != [] {
      var last := sorted[|sorted| - 1];
      assert last in multiset(s);
      var k :| 0 <= k < |s| && s[k] == last;
      assert key(last) <= key(x);
    }
  }

  /**
   * A sorted sequence cut after `n` rows: every row left out has a key at least as large as
   * every row kept, so `LIMIT n` after `ORDER BY key` keeps the `n` smallest keys.
   */
  lemma TakeSortedKeepsSmallest<T>(s: seq<T>, key: T -> int, n: nat)
    ensures var r := Take(SortBy(s, key), n);
      && multiset(r) <= multiset(s)
      && forall x, y :: x in multiset(s) - multiset(r) && y in r ==> key(y) <= key(x)
  {
    var t := SortBy(s, key);
    var r := Take(t, n);
    var rest := t[|r|..];
    assert t == r + rest;
    assert multiset(t) == multiset(r) + multiset(rest);
    forall x, y | x in multiset(s) - multiset(r) && y in r
      ensures key(y) <= key(x)
    {
      assert x in multiset(rest);
      var j :| 0 <= j < |rest| && rest[j] == x;
      var i :| 0 <= i < |r| && r[i] == y;
      assert t[i] == y && t[|r| + j] == x;
    }
  }
}
