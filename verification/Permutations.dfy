/** Facts about rearranged lists. */
module Permutations {

  ghost predicate Permutation<T>(a: seq<T>, b: seq<T>) { multiset(a) == multiset(b) }

  ghost predicate Distinct<T>(s: seq<T>) { forall i, j | 0 <= i < j < |s| :: s[i] != s[j] }

  lemma SameElements<T>(a: seq<T>, b: seq<T>)
    requires Permutation(a, b)
    ensures |a| == |b|
    ensures forall x :: x in a <==> x in b
  {
    assert |multiset(a)| == |a| && |multiset(b)| == |b|;
    forall x
      ensures x in a <==> x in b
    {
      assert x in a <==> x in multiset(a);
      assert x in b <==> x in multiset(b);
    }
  }

  lemma {:induction false} DistinctOnce<T>(s: seq<T>, x: T)
    requires Distinct(s)
    ensures multiset(s)[x] <= 1
  {
    if s != [] {
      var init, last := s[..|s| - 1], s[|s| - 1];
      assert s == init + [last];
      DistinctOnce(init, x);
      if x == last { assert x !in init; }
    }
  }

  lemma Twice<T>(s: seq<T>, i: nat, j: nat)
    requires i < j < |s| && s[i] == s[j]
    ensures multiset(s)[s[i]] >= 2
  {
    assert s == (s[..i] + [s[i]]) + (s[i + 1..j] + [s[j]] + s[j + 1..]);
  }

  lemma DistinctPermutation<T>(a: seq<T>, b: seq<T>)
    requires Permutation(a, b) && Distinct(a)
    ensures Distinct(b)
  {
    forall i, j | 0 <= i < j < |b|
      ensures b[i] != b[j]
    {
      DistinctOnce(a, b[i]);
      if b[i] == b[j] { Twice(b, i, j); }
    }
  }

  /** Two enumerations of the same elements. */
  lemma SameSet<T>(a: seq<T>, b: seq<T>)
    requires Distinct(a) && Distinct(b)
    requires forall x :: x in a <==> x in b
    ensures Permutation(a, b)
  {
    forall x
      ensures multiset(a)[x] == multiset(b)[x]
    {
      DistinctOnce(a, x);
      DistinctOnce(b, x);
      assert x in multiset(a) <==> x in a;
      assert x in multiset(b) <==> x in b;
    }
  }

  function Without<T>(s: seq<T>, j: nat): seq<T>
    requires j < |s|
  {
    s[..j] + s[j + 1..]
  }

  lemma {:induction false} DistinctSize<T>(s: seq<T>)
    requires Distinct(s)
    ensures |set x | x in s| == |s|
  {
    if s != [] {
      var n := |s| - 1;
      DistinctSize(s[..n]);
      assert s == s[..n] + [s[n]];
      assert (set x | x in s) == (set x | x in s[..n]) + {s[n]};
    }
  }

  /** A part of the elements is all of them when it has as many. */
  lemma SameSizeSameSet<T>(part: seq<T>, all: seq<T>)
    requires Distinct(part) && Distinct(all) && forall x | x in part :: x in all
    ensures |part| == |all| <==> forall x | x in all :: x in part
  {
    hide Distinct;
    var p, a := set x | x in part, set x | x in all;
    DistinctSize(part);
    DistinctSize(all);
    assert p <= a;
    if |p| == |a| {
      SubsetOfSameSize(p, a);
      forall x | x in all ensures x in part { assert x in a; }
    }
    if forall x | x in all :: x in part {
      assert p == a;
    }
  }

  lemma SubsetOfSameSize<T>(p: set<T>, a: set<T>)
    requires p <= a && |p| == |a|
    ensures p == a
  {
    assert |a - p| == |a| - |p|;
  }

  lemma TakenOut<T>(s: seq<T>, j: nat)
    requires j < |s|
    ensures multiset(s) == multiset(Without(s, j)) + multiset{s[j]}
  {
    assert s == s[..j] + [s[j]] + s[j + 1..];
  }

  lemma RemoveBoth<T>(a: seq<T>, b: seq<T>, i: nat, j: nat)
    requires i < |a| && j < |b| && a[i] == b[j]
    ensures Permutation(a, b) <==> Permutation(Without(a, i), Without(b, j))
  {
    TakenOut(a, i);
    TakenOut(b, j);
    if Permutation(a, b) {
      assert multiset(Without(a, i)) == multiset(a) - multiset{a[i]};
      assert multiset(Without(b, j)) == multiset(b) - multiset{b[j]};
    }
  }

  lemma AppendBoth<T>(a: seq<T>, b: seq<T>, x: T)
    requires Permutation(a, b)
    ensures Permutation(a + [x], b + [x])
  {
  }

  lemma Reflexive<T>(a: seq<T>)
    ensures Permutation(a, a)
  {
  }

  lemma Symmetric<T>(a: seq<T>, b: seq<T>)
    ensures Permutation(a, b) <==> Permutation(b, a)
  {
  }

  lemma Chain<T>(a: seq<T>, b: seq<T>, c: seq<T>)
    requires Permutation(a, b) && Permutation(b, c)
    ensures Permutation(a, c)
  {
  }

  lemma SwapLast<T>(s: seq<T>, x: T, y: T)
    ensures Permutation(s + [x] + [y], s + [y] + [x])
  {
  }

  /** Mapping keeps permutations. */
  lemma {:induction false} MapPermutation<S, T>(a: seq<S>, b: seq<S>, fa: seq<T>, fb: seq<T>)
    requires Permutation(a, b) && |fa| == |a| && |fb| == |b|
    requires forall i, j | 0 <= i < |a| && 0 <= j < |b| && a[i] == b[j] :: fa[i] == fb[j]
    ensures Permutation(fa, fb)
    decreases |a|
  {
    SameElements(a, b);
    if a != [] {
      assert a[0] in b;
      var j :| 0 <= j < |b| && b[j] == a[0];
      RemoveBoth(a, b, 0, j);
      MapPermutation(Without(a, 0), Without(b, j), Without(fa, 0), Without(fb, j));
      RemoveBoth(fa, fb, 0, j);
    } else {
      assert fa == [] && fb == [];
    }
  }

  ghost predicate Ordered<T>(s: seq<T>, leq: (T, T) -> bool) {
    forall i, j | 0 <= i < j < |s| :: leq(s[i], s[j])
  }

  lemma SameLeast<T>(a: seq<T>, b: seq<T>, leq: (T, T) -> bool)
    requires a != [] && b != [] && Ordered(a, leq) && Ordered(b, leq) && a[0] in b && b[0] in a
    requires forall x, y | x in a && y in a && leq(x, y) && leq(y, x) :: x == y
    ensures a[0] == b[0]
  {
    var i :| 0 <= i < |a| && a[i] == b[0];
    var j :| 0 <= j < |b| && b[j] == a[0];
    if i != 0 && j != 0 {
      assert leq(a[0], a[i]) && leq(b[0], b[j]);
    }
  }

  lemma OrderedTail<T>(s: seq<T>, leq: (T, T) -> bool)
    requires s != [] && Ordered(s, leq)
    ensures Ordered(s[1..], leq) && Without(s, 0) == s[1..]
  {
  }

  /** A list has only one sorted rearrangement when the order tells its elements apart. */
  lemma {:induction false} SortedUnique<T>(a: seq<T>, b: seq<T>, leq: (T, T) -> bool)
    requires Permutation(a, b) && Ordered(a, leq) && Ordered(b, leq)
    requires forall x, y | x in a && y in a && leq(x, y) && leq(y, x) :: x == y
    ensures a == b
    decreases |a|
  {
    hide Permutation, Ordered, Without;
    SameElements(a, b);
    if a != [] {
      assert a[0] in b && b[0] in a;
      SameLeast(a, b, leq);
      RemoveBoth(a, b, 0, 0);
      OrderedTail(a, leq);
      OrderedTail(b, leq);
      SortedUnique(a[1..], b[1..], leq);
      assert a == [a[0]] + a[1..] && b == [b[0]] + b[1..];
    }
  }
}
