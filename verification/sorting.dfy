/**
 * `Array.prototype.sort` with a comparator, as the stable sort the
 * language has required since ES2019: an insertion sort that places each
 * element after every earlier element it does not compare below.
 *
 * Whatever the comparator, the result is a permutation of the input. When
 * the comparator is a total preorder on the input, the result is sorted.
 */
module Sorting {
  /** Insert `x` before the first element it compares strictly below. */
  function Insert<T>(cmp: (T, T) -> int, x: T, ys: seq<T>): seq<T>
  {
    if |ys| == 0 then [x]
    else if cmp(x, ys[0]) < 0 then [x] + ys
    else [ys[0]] + Insert(cmp, x, ys[1..])
  }

  /** `[...xs].sort(cmp)`. */
  function Sort<T>(cmp: (T, T) -> int, xs: seq<T>): seq<T>
  {
    if |xs| == 0 then [] else Insert(cmp, xs[|xs| - 1], Sort(cmp, xs[..|xs| - 1]))
  }

  predicate Sorted<T>(cmp: (T, T) -> int, ys: seq<T>)
  {
    forall i, j :: 0 <= i < j < |ys| ==> cmp(ys[i], ys[j]) <= 0
  }

  /** On the elements of `xs`, `cmp` orders every pair one way or the other
      consistently, and "not after" is transitive. */
  predicate TotalPreorderOn<T(!new)>(cmp: (T, T) -> int, s: set<T>)
  {
    && (forall a, b :: a in s && b in s && cmp(a, b) >= 0 ==> cmp(b, a) <= 0)
    && (forall a, b, c :: a in s && b in s && c in s && cmp(a, b) <= 0 && cmp(b, c) <= 0 ==> cmp(a, c) <= 0)
  }

  lemma {:induction false} InsertPermutes<T>(cmp: (T, T) -> int, x: T, ys: seq<T>)
    ensures multiset(Insert(cmp, x, ys)) == multiset(ys) + multiset{x}
  {
    if |ys| > 0 && cmp(x, ys[0]) >= 0 {
      InsertPermutes(cmp, x, ys[1..]);
      assert ys == [ys[0]] + ys[1..];
    }
  }

  /** Sorting only reorders: every element is kept as often as it occurs. */
  lemma {:induction false} SortPermutes<T>(cmp: (T, T) -> int, xs: seq<T>)
    ensures multiset(Sort(cmp, xs)) == multiset(xs)
  {
    if |xs| > 0 {
      var p := xs[..|xs| - 1];
      SortPermutes(cmp, p);
      InsertPermutes(cmp, xs[|xs| - 1], Sort(cmp, p));
      assert xs == p + [xs[|xs| - 1]];
    }
  }

  /** Every element of `s` comes after `x`, so `x` can go in front. */
  lemma PrependSorted<T>(cmp: (T, T) -> int, x: T, ys: seq<T>)
    requires Sorted(cmp, ys)
    requires forall j :: 0 <= j < |ys| ==> cmp(x, ys[j]) <= 0
    ensures Sorted(cmp, [x] + ys)
  {
    var r := [x] + ys;
    forall i, j | 0 <= i < j < |r|
      ensures cmp(r[i], r[j]) <= 0
    {
      if i > 0 {
        assert r[i] == ys[i - 1] && r[j] == ys[j - 1];
      } else {
        assert r[j] == ys[j - 1];
      }
    }
  }

  lemma {:induction false} InsertSorted<T(!new)>(cmp: (T, T) -> int, s: set<T>, x: T, ys: seq<T>)
    requires TotalPreorderOn(cmp, s) && x in s && (forall i :: 0 <= i < |ys| ==> ys[i] in s)
    requires Sorted(cmp, ys)
    ensures Sorted(cmp, Insert(cmp, x, ys))
    decreases |ys|, 1
  {
    if |ys| > 0 {
      if cmp(x, ys[0]) < 0 {
        forall j | 0 <= j < |ys|
          ensures cmp(x, ys[j]) <= 0
        {
          if j > 0 {
            assert cmp(ys[0], ys[j]) <= 0;
          }
        }
        PrependSorted(cmp, x, ys);
      } else {
        InsertAfterHead(cmp, s, x, ys);
      }
    }
  }

  /** `x` goes after the head: the head still comes first. */
  lemma {:induction false} InsertAfterHead<T(!new)>(cmp: (T, T) -> int, s: set<T>, x: T, ys: seq<T>)
    requires TotalPreorderOn(cmp, s) && x in s && (forall i :: 0 <= i < |ys| ==> ys[i] in s)
    requires Sorted(cmp, ys) && |ys| > 0 && cmp(x, ys[0]) >= 0
    ensures Sorted(cmp, Insert(cmp, x, ys))
    decreases |ys|, 0
  {
    var rest := Insert(cmp, x, ys[1..]);
    assert Sorted(cmp, ys[1..]) by {
      forall i, j | 0 <= i < j < |ys[1..]|
        ensures cmp(ys[1..][i], ys[1..][j]) <= 0
      {
        assert ys[1..][i] == ys[i + 1] && ys[1..][j] == ys[j + 1];
      }
    }
    InsertSorted(cmp, s, x, ys[1..]);
    InsertPermutes(cmp, x, ys[1..]);
    forall j | 0 <= j < |rest|
      ensures cmp(ys[0], rest[j]) <= 0
    {
      assert rest[j] in multiset(rest);
      assert rest[j] == x || rest[j] in ys[1..];
    }
    PrependSorted(cmp, ys[0], rest);
  }

  /** Under a total preorder the sorted list is in order. */
  lemma {:induction false} SortSorts<T(!new)>(cmp: (T, T) -> int, xs: seq<T>)
    requires TotalPreorderOn(cmp, set i | 0 <= i < |xs| :: xs[i])
    ensures Sorted(cmp, Sort(cmp, xs))
  {
    if |xs| > 0 {
      var s := set i | 0 <= i < |xs| :: xs[i];
      var p := xs[..|xs| - 1];
      var sp := set i | 0 <= i < |p| :: p[i];
      assert sp <= s;
      SortSorts(cmp, p);
      SortPermutes(cmp, p);
      forall i | 0 <= i < |Sort(cmp, p)|
        ensures Sort(cmp, p)[i] in s
      {
        assert Sort(cmp, p)[i] in multiset(p);
        var k :| 0 <= k < |p| && p[k] == Sort(cmp, p)[i];
        assert xs[k] == p[k];
      }
      InsertSorted(cmp, s, xs[|xs| - 1], Sort(cmp, p));
    }
  }
}
