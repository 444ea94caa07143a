/** Sequences that hold the same elements in another order. */
module Permutations {
  function Map<T, U>(f: T -> U, xs: seq<T>): (ys: seq<U>)
    ensures |ys| == |xs| && forall i :: 0 <= i < |xs| ==> ys[i] == f(xs[i])
  {
    seq(|xs|, i requires 0 <= i < |xs| => f(xs[i]))
  }

  ghost predicate Distinct<T(!new)>(xs: seq<T>) {
    forall i, j :: 0 <= i < j < |xs| ==> xs[i] != xs[j]
  }

  /** Where the last element of xs occurs in a permutation of xs. */
  lemma TakeOutLast<T>(xs: seq<T>, ys: seq<T>) returns (i: nat)
    requires xs != [] && multiset(xs) == multiset(ys)
    ensures |xs| == |ys| && i < |ys| && ys[i] == xs[|xs| - 1]
    ensures multiset(xs[..|xs| - 1]) == multiset(ys[..i] + ys[i + 1..])
  {
    assert |multiset(xs)| == |xs| && |multiset(ys)| == |ys|;
    var x, front := xs[|xs| - 1], xs[..|xs| - 1];
    assert xs == front + [x];
    assert x in multiset(ys);
    i :| 0 <= i < |ys| && ys[i] == x;
    assert ys == ys[..i] + [x] + ys[i + 1..];
    assert multiset(front) == multiset(xs) - multiset{x};
    assert multiset(ys[..i] + ys[i + 1..]) == multiset(ys) - multiset{x};
  }

  lemma {:induction false} MapPermuted<T, U(!new)>(f: T -> U, xs: seq<T>, ys: seq<T>)
    requires multiset(xs) == multiset(ys)
    ensures multiset(Map(f, xs)) == multiset(Map(f, ys))
    decreases |xs|
  {
    assert |multiset(xs)| == |xs| && |multiset(ys)| == |ys|;
    if xs != [] {
      var i := TakeOutLast(xs, ys);
      var front := xs[..|xs| - 1];
      MapPermuted(f, front, ys[..i] + ys[i + 1..]);
      assert Map(f, xs) == Map(f, front) + [f(ys[i])];
      assert Map(f, ys) == Map(f, ys)[..i] + [f(ys[i])] + Map(f, ys)[i + 1..];
      assert Map(f, ys[..i] + ys[i + 1..]) == Map(f, ys)[..i] + Map(f, ys)[i + 1..];
    }
  }

  lemma {:induction false} DistinctCounts<T(!new)>(xs: seq<T>)
    ensures Distinct(xs) <==> forall x :: multiset(xs)[x] <= 1
    decreases |xs|
  {
    if xs != [] {
      var last, front := xs[|xs| - 1], xs[..|xs| - 1];
      assert xs == front + [last];
      DistinctCounts(front);
      if Distinct(xs) {
        assert Distinct(front);
        assert last !in front;
      } else if Distinct(front) {
        var i, j :| 0 <= i < j < |xs| && xs[i] == xs[j];
        assert front[i] == last;
        assert last in multiset(front);
        assert multiset(xs)[last] == multiset(front)[last] + 1;
      } else {
        var x :| multiset(front)[x] > 1;
        assert multiset(xs)[x] > 1;
      }
    }
  }

  lemma DistinctPermuted<T(!new)>(xs: seq<T>, ys: seq<T>)
    requires multiset(xs) == multiset(ys)
    ensures Distinct(xs) <==> Distinct(ys)
  {
    DistinctCounts(xs);
    DistinctCounts(ys);
  }

  lemma DropSameLast<T>(xs: seq<T>, ys: seq<T>)
    requires multiset(xs) == multiset(ys) && xs != [] && ys != [] && xs[|xs| - 1] == ys[|ys| - 1]
    ensures multiset(xs[..|xs| - 1]) == multiset(ys[..|ys| - 1])
  {
    var x, m, n := xs[|xs| - 1], |xs| - 1, |ys| - 1;
    assert xs == xs[..m] + [x] && ys == ys[..n] + [x];
    assert multiset(xs[..m]) == multiset(xs) - multiset{x};
    assert multiset(ys[..n]) == multiset(ys) - multiset{x};
  }

  /** A list without repetitions, contained in one of the same length, is a permutation of it. */
  lemma {:induction false} DistinctContained<T(!new)>(xs: seq<T>, ys: seq<T>)
    requires Distinct(xs) && |xs| == |ys| && forall i :: 0 <= i < |xs| ==> xs[i] in ys
    ensures multiset(xs) == multiset(ys)
    decreases |xs|
  {
    if xs == [] {
    } else {
      var last := |xs| - 1;
      var j :| 0 <= j < |ys| && ys[j] == xs[last];
      var rest := ys[..j] + ys[j + 1..];
      forall i | 0 <= i < last
        ensures xs[..last][i] in rest
      {
        var k :| 0 <= k < |ys| && ys[k] == xs[i];
        assert k != j;
        assert rest[if k < j then k else k - 1] == xs[i];
      }
      DistinctContained(xs[..last], rest);
      JoinBack(xs, ys, j);
    }
  }

  lemma JoinBack<T>(xs: seq<T>, ys: seq<T>, j: nat)
    requires xs != [] && j < |ys| && ys[j] == xs[|xs| - 1]
    requires multiset(xs[..|xs| - 1]) == multiset(ys[..j] + ys[j + 1..])
    ensures multiset(xs) == multiset(ys)
  {
    var last := |xs| - 1;
    assert xs == xs[..last] + [xs[last]] && ys == ys[..j] + [ys[j]] + ys[j + 1..];
  }
}
