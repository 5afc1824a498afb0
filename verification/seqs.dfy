/**
 * `Array.prototype.map` on sequences, and the facts the model needs about
 * it: it distributes over concatenation, works element by element, and
 * reorders its results as its input is reordered.
 */
module Seqs {
  function Map<T, U>(f: T -> U, xs: seq<T>): seq<U>
  {
    if |xs| == 0 then [] else [f(xs[0])] + Map(f, xs[1..])
  }

  lemma {:induction false} MapAt<T, U>(f: T -> U, xs: seq<T>)
    ensures |Map(f, xs)| == |xs|
    ensures forall i :: 0 <= i < |xs| ==> Map(f, xs)[i] == f(xs[i])
  {
    if |xs| > 0 {
      MapAt(f, xs[1..]);
      assert forall i :: 1 <= i < |xs| ==> xs[i] == xs[1..][i - 1];
    }
  }

  lemma {:induction false} MapAppend<T, U>(f: T -> U, a: seq<T>, b: seq<T>)
    ensures Map(f, a + b) == Map(f, a) + Map(f, b)
  {
    if |a| > 0 {
      MapAppend(f, a[1..], b);
      assert (a + b)[1..] == a[1..] + b;
    } else {
      assert a + b == b;
    }
  }

  /** Two maps agree when their functions agree element by element. */
  lemma {:induction false} MapPointwise<T, S, U>(f: T -> U, xs: seq<T>, g: S -> U, ys: seq<S>)
    requires |xs| == |ys|
    requires forall i :: 0 <= i < |xs| ==> f(xs[i]) == g(ys[i])
    ensures Map(f, xs) == Map(g, ys)
  {
    if |xs| > 0 {
      MapPointwise(f, xs[1..], g, ys[1..]);
      assert forall i :: 1 <= i < |xs| ==> xs[i] == xs[1..][i - 1] && ys[i] == ys[1..][i - 1];
    }
  }

  lemma MapRemove<T, U>(f: T -> U, b: seq<T>, j: nat)
    requires j < |b|
    ensures multiset(Map(f, b)) == multiset(Map(f, b[..j] + b[j + 1..])) + multiset{f(b[j])}
  {
    var p, q := b[..j], b[j + 1..];
    assert b == p + ([b[j]] + q);
    MapAppend(f, p, [b[j]] + q);
    MapCons(f, b[j], q);
    MapAppend(f, p, q);
    MultisetMiddle(Map(f, p), f(b[j]), Map(f, q));
  }

  lemma MapCons<T, U>(f: T -> U, x: T, q: seq<T>)
    ensures Map(f, [x] + q) == [f(x)] + Map(f, q)
  {
    assert ([x] + q)[1..] == q;
  }

  lemma MultisetMiddle<U>(p: seq<U>, x: U, q: seq<U>)
    ensures multiset(p + ([x] + q)) == multiset(p + q) + multiset{x}
  {
  }

  /** Mapping a permutation gives a permutation of the mapped values. */
  lemma {:induction false} MapPermutation<T, U>(f: T -> U, a: seq<T>, b: seq<T>)
    requires multiset(a) == multiset(b)
    ensures multiset(Map(f, a)) == multiset(Map(f, b))
    decreases |a|
  {
    if |a| == 0 {
      assert |b| == |multiset(b)| == 0;
    } else {
      var j := PermutedHead(a, b);
      MapPermutation(f, a[1..], b[..j] + b[j + 1..]);
      MapFirst(f, a);
      MapRemove(f, b, j);
    }
  }

  /** Where the head of a sequence went in a permutation of it, and what
      is left on both sides once it is taken away. */
  lemma PermutedHead<T>(a: seq<T>, b: seq<T>) returns (j: nat)
    requires |a| > 0 && multiset(a) == multiset(b)
    ensures j < |b| && b[j] == a[0]
    ensures multiset(a[1..]) == multiset(b[..j] + b[j + 1..])
  {
    assert a[0] in multiset(b);
    j :| 0 <= j < |b| && b[j] == a[0];
    RemoveAt(b, j);
    assert a == [a[0]] + a[1..];
  }

  lemma RemoveAt<T>(b: seq<T>, j: nat)
    requires j < |b|
    ensures multiset(b[..j] + b[j + 1..]) == multiset(b) - multiset{b[j]}
  {
    assert b == b[..j] + [b[j]] + b[j + 1..];
  }

  lemma MapFirst<T, U>(f: T -> U, a: seq<T>)
    requires |a| > 0
    ensures multiset(Map(f, a)) == multiset(Map(f, a[1..])) + multiset{f(a[0])}
  {
  }
}
