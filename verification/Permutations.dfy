/**
 What does not depend on order: sums, filters and maps of two sequences with the same elements.
 */
module Permutations {
  import opened Sums

  predicate Distinct<T(==)>(items: seq<T>) {
    forall i, j | 0 <= i < j < |items| :: items[i] != items[j]
  }

  lemma SameElements<T>(a: seq<T>, b: seq<T>)
    requires multiset(a) == multiset(b)
    ensures forall x :: x in a <==> x in b
  {
    assert forall x :: x in a <==> x in multiset(a);
    assert forall x :: x in b <==> x in multiset(b);
  }

  function Map<T, U>(items: seq<T>, f: T -> U): (r: seq<U>)
    ensures |r| == |items|
    ensures forall i | 0 <= i < |items| :: r[i] == f(items[i])
  {
    seq(|items|, i requires 0 <= i < |items| => f(items[i]))
  }

  lemma MapAppend<T, U>(items: seq<T>, x: T, f: T -> U)
    ensures Map(items + [x], f) == Map(items, f) + [f(x)]
  {
  }

  /** The sequence without its element at position i. */
  function Without<T>(items: seq<T>, i: nat): seq<T>
    requires i < |items|
  {
    items[..i] + items[i + 1..]
  }

  lemma WithoutMultiset<T>(items: seq<T>, i: nat)
    requires i < |items|
    ensures multiset(items) == multiset(Without(items, i)) + multiset{items[i]}
  {
    assert items == items[..i] + [items[i]] + items[i + 1..];
  }

  /** Where b holds the last element of a. */
  lemma LastOccursIn<T>(a: seq<T>, b: seq<T>) returns (i: nat)
    requires a != [] && multiset(a) == multiset(b)
    ensures i < |b| && b[i] == a[|a| - 1]
    ensures multiset(a[..|a| - 1]) == multiset(Without(b, i))
  {
    assert a == a[..|a| - 1] + [a[|a| - 1]];
    assert a[|a| - 1] in multiset(b);
    i :| 0 <= i < |b| && b[i] == a[|a| - 1];
    WithoutMultiset(b, i);
    assert multiset(a[..|a| - 1]) == multiset(a) - multiset{b[i]};
  }

  lemma {:induction false} SumByPermutation<T>(a: seq<T>, b: seq<T>, value: T -> real)
    requires multiset(a) == multiset(b)
    ensures SumBy(a, value) == SumBy(b, value)
  {
    if a == [] {
      assert |multiset(b)| == 0;
    } else {
      var i := LastOccursIn(a, b);
      SumByPermutation(a[..|a| - 1], Without(b, i), value);
      SumByConcat(b[..i], [b[i]] + b[i + 1..], value);
      SumByConcat([b[i]], b[i + 1..], value);
      SumByConcat(b[..i], b[i + 1..], value);
      assert b == b[..i] + ([b[i]] + b[i + 1..]);
      assert [b[i]][..0] == [];
    }
  }

  lemma {:induction false} FilterMultiset<T>(items: seq<T>, keep: T -> bool, x: T)
    ensures multiset(Filter(items, keep))[x] == if keep(x) then multiset(items)[x] else 0
  {
    if items == [] {
    } else {
      var front, last := items[..|items| - 1], items[|items| - 1];
      assert items == front + [last];
      FilterMultiset(front, keep, x);
    }
  }

  lemma SameCounts<T>(a: seq<T>, b: seq<T>)
    requires forall x: T :: multiset(a)[x] == multiset(b)[x]
    ensures multiset(a) == multiset(b)
  {
  }

  lemma FilterPermutation<T>(a: seq<T>, b: seq<T>, keep: T -> bool)
    requires multiset(a) == multiset(b)
    ensures multiset(Filter(a, keep)) == multiset(Filter(b, keep))
  {
    forall x: T
      ensures multiset(Filter(a, keep))[x] == multiset(Filter(b, keep))[x]
    {
      FilterMultiset(a, keep, x);
      FilterMultiset(b, keep, x);
    }
    SameCounts(Filter(a, keep), Filter(b, keep));
  }

  lemma {:induction false} MapPermutation<T, U>(a: seq<T>, b: seq<T>, f: T -> U)
    requires multiset(a) == multiset(b)
    ensures multiset(Map(a, f)) == multiset(Map(b, f))
  {
    if a == [] {
      assert |multiset(b)| == 0;
    } else {
      var i := LastOccursIn(a, b);
      var front := a[..|a| - 1];
      MapPermutation(front, Without(b, i), f);
      assert Map(a, f) == Map(front, f) + [f(b[i])];
      assert Without(Map(b, f), i) == Map(Without(b, i), f);
      WithoutMultiset(Map(b, f), i);
    }
  }

  lemma {:induction false} DistinctCount<T>(items: seq<T>, x: T)
    requires Distinct(items)
    ensures multiset(items)[x] == if x in items then 1 else 0
  {
    if items == [] {
    } else {
      var front, last := items[..|items| - 1], items[|items| - 1];
      assert items == front + [last];
      DistinctCount(front, x);
    }
  }

  /** Two sequences without repetition over the same elements are permutations of each other. */
  lemma DistinctPermutation<T>(a: seq<T>, b: seq<T>)
    requires Distinct(a) && Distinct(b)
    requires forall x :: x in a <==> x in b
    ensures multiset(a) == multiset(b)
  {
    forall x: T
      ensures multiset(a)[x] == multiset(b)[x]
    {
      DistinctCount(a, x);
      DistinctCount(b, x);
    }
  }

  lemma DistinctConcat<T>(a: seq<T>, b: seq<T>)
    requires Distinct(a) && Distinct(b) && forall x | x in a :: x !in b
    ensures Distinct(a + b)
  {
    forall i, j | 0 <= i < j < |a + b|
      ensures (a + b)[i] != (a + b)[j]
    {
      if i < |a| <= j {
        assert a[i] in a && b[j - |a|] in b;
      }
    }
  }

  /** Any two items stand in the relation, the earlier one first. */
  predicate Pairwise<T>(items: seq<T>, rel: (T, T) -> bool) {
    forall i, j | 0 <= i < j < |items| :: rel(items[i], items[j])
  }

  lemma {:induction false} FilterPairwise<T>(items: seq<T>, keep: T -> bool, rel: (T, T) -> bool)
    requires Pairwise(items, rel)
    ensures Pairwise(Filter(items, keep), rel)
  {
    if items == [] {
    } else {
      var front, last := items[..|items| - 1], items[|items| - 1];
      assert items == front + [last];
      FilterPairwise(front, keep, rel);
      FilterMeaning(front, keep);
      forall x | x in Filter(front, keep)
        ensures rel(x, last)
      {
        assert x in front;
        var j :| 0 <= j < |front| && front[j] == x;
        assert items[j] == x && items[|front|] == last;
      }
    }
  }

  lemma FilterDistinct<T>(items: seq<T>, keep: T -> bool)
    requires Distinct(items)
    ensures Distinct(Filter(items, keep))
  {
    FilterPairwise(items, keep, (x: T, y: T) => x != y);
  }

  /** The ranks of the items rise strictly from left to right. */
  predicate Ascending<T>(items: seq<T>, rank: T -> int) {
    forall i, j | 0 <= i < j < |items| :: rank(items[i]) < rank(items[j])
  }

  lemma FilterAscending<T>(items: seq<T>, keep: T -> bool, rank: T -> int)
    requires Ascending(items, rank)
    ensures Ascending(Filter(items, keep), rank)
  {
    FilterPairwise(items, keep, (x: T, y: T) => rank(x) < rank(y));
  }
}
