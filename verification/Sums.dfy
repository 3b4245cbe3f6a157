/**
 Sums over sequences and over maps. A map is summed in whatever order its keys are picked; the lemmas say
 that the order does not matter.
 */
module Sums {

  // ---- Sequences ----

  function SumBy<T>(items: seq<T>, value: T -> real): real {
    if items == [] then 0.0 else SumBy(items[..|items| - 1], value) + value(items[|items| - 1])
  }

  lemma SumByStep<T>(items: seq<T>, item: T, value: T -> real)
    ensures SumBy(items + [item], value) == SumBy(items, value) + value(item)
  {
  }

  lemma {:induction false} SumByConcat<T>(a: seq<T>, b: seq<T>, value: T -> real)
    ensures SumBy(a + b, value) == SumBy(a, value) + SumBy(b, value)
  {
    if b == [] {
      assert a + b == a;
    } else {
      SumByConcat(a, b[..|b| - 1], value);
      assert (a + b)[..|a + b| - 1] == a + b[..|b| - 1];
    }
  }

  /** Two walks of the same length with the same values have the same sum. */
  lemma {:induction false} SumByPointwise<T, U>(a: seq<T>, f: T -> real, b: seq<U>, g: U -> real)
    requires |a| == |b|
    requires forall i | 0 <= i < |a| :: f(a[i]) == g(b[i])
    ensures SumBy(a, f) == SumBy(b, g)
  {
    if a == [] {
    } else {
      SumByPointwise(a[..|a| - 1], f, b[..|b| - 1], g);
    }
  }

  lemma {:induction false} SumByScaled<T>(items: seq<T>, value: T -> real, scaled: T -> real, factor: real)
    requires forall i | 0 <= i < |items| :: scaled(items[i]) == factor * value(items[i])
    ensures SumBy(items, scaled) == factor * SumBy(items, value)
  {
    if items == [] {
    } else {
      SumByScaled(items[..|items| - 1], value, scaled, factor);
    }
  }

  lemma {:induction false} SumByMonotone<T>(items: seq<T>, low: T -> real, high: T -> real)
    requires forall i | 0 <= i < |items| :: low(items[i]) <= high(items[i])
    ensures SumBy(items, low) <= SumBy(items, high)
  {
    if items == [] {
    } else {
      SumByMonotone(items[..|items| - 1], low, high);
    }
  }

  lemma {:induction false} SumByNonNegative<T>(items: seq<T>, value: T -> real)
    requires forall i | 0 <= i < |items| :: value(items[i]) >= 0.0
    ensures SumBy(items, value) >= 0.0
  {
    if items == [] {
    } else {
      SumByNonNegative(items[..|items| - 1], value);
    }
  }

  /** The elements for which the predicate holds, in order. */
  function Filter<T>(items: seq<T>, keep: T -> bool): seq<T> {
    if items == [] then []
    else Filter(items[..|items| - 1], keep) + if keep(items[|items| - 1]) then [items[|items| - 1]] else []
  }

  lemma {:induction false} FilterMeaning<T>(items: seq<T>, keep: T -> bool)
    ensures forall x | x in Filter(items, keep) :: x in items && keep(x)
    ensures forall x | x in items && keep(x) :: x in Filter(items, keep)
  {
    if items == [] {
    } else {
      var front, last := items[..|items| - 1], items[|items| - 1];
      assert items == front + [last];
      FilterMeaning(front, keep);
    }
  }

  lemma FilterAppend<T>(items: seq<T>, x: T, keep: T -> bool)
    ensures Filter(items + [x], keep) == if keep(x) then Filter(items, keep) + [x] else Filter(items, keep)
  {
    assert (items + [x])[..|items|] == items;
  }

  lemma {:induction false} FilterConcat<T>(a: seq<T>, b: seq<T>, keep: T -> bool)
    ensures Filter(a + b, keep) == Filter(a, keep) + Filter(b, keep)
  {
    if b == [] {
      assert a + b == a;
    } else {
      hide Filter;
      var front, last := b[..|b| - 1], b[|b| - 1];
      FilterConcat(a, front, keep);
      assert b == front + [last] && a + b == (a + front) + [last];
      FilterAppend(front, last, keep);
      FilterAppend(a + front, last, keep);
    }
  }

  /** Everything is kept exactly when nothing is lost. */
  lemma {:induction false} FilterLength<T>(items: seq<T>, keep: T -> bool)
    ensures |Filter(items, keep)| <= |items|
    ensures |Filter(items, keep)| == |items| <==> forall x | x in items :: keep(x)
  {
    if items == [] {
    } else {
      var front, last := items[..|items| - 1], items[|items| - 1];
      assert items == front + [last];
      FilterLength(front, keep);
    }
  }

  /** Summing a share of the kept items only, and counting them. */
  lemma {:induction false} SumOverKept<T>(items: seq<T>, keep: T -> bool, share: T -> real, one: T -> real)
    requires forall x :: !keep(x) ==> share(x) == 0.0
    requires forall x :: one(x) == if keep(x) then 1.0 else 0.0
    ensures SumBy(items, share) == SumBy(Filter(items, keep), share)
    ensures SumBy(items, one) == |Filter(items, keep)| as real
  {
    if items == [] {
    } else {
      var front, last := items[..|items| - 1], items[|items| - 1];
      assert items == front + [last];
      SumOverKept(front, keep, share, one);
      FilterAppend(front, last, keep);
      SumByStep(front, last, share);
      SumByStep(front, last, one);
      SumByStep(Filter(front, keep), last, share);
      hide SumBy, Filter;
    }
  }

  // ---- Maps ----

  ghost function SumMap<K>(m: map<K, real>): real
    decreases |m|
  {
    if m == map[] then 0.0 else
    var k :| k in m;
    m[k] + SumMap(m - {k})
  }

  /** Any key may be taken out first. */
  lemma {:induction false} SumMapTake<K>(m: map<K, real>, k: K)
    requires k in m
    ensures SumMap(m) == m[k] + SumMap(m - {k})
    decreases |m|
  {
    var j :| j in m && SumMap(m) == m[j] + SumMap(m - {j});
    if j != k {
      SumMapTake(m - {j}, k);
      SumMapTake(m - {k}, j);
      assert m - {j} - {k} == m - {k} - {j};
    }
  }

  lemma SumMapPut<K>(m: map<K, real>, k: K, v: real)
    ensures SumMap(m[k := v]) == SumMap(m) + v - if k in m then m[k] else 0.0
  {
    SumMapTake(m[k := v], k);
    if k in m {
      SumMapTake(m, k);
      assert m[k := v] - {k} == m - {k};
    } else {
      assert m[k := v] - {k} == m;
    }
  }

  /** The value at a key, zero when it is absent: how Go reads a map of numbers. */
  function At<K>(m: map<K, real>, k: K): real {
    if k in m then m[k] else 0.0
  }

  /** sumMap of internal/collector/nodes.go, and the inner loop of sumNVal: the values in any order. */
  method SumValues<K(==)>(m: map<K, real>) returns (total: real)
    ensures total == SumMap(m)
  {
    total := 0.0;
    var keys := m.Keys;
    assert m - keys == map[];
    while keys != {}
      invariant keys <= m.Keys
      invariant total == SumMap(m - keys)
      decreases |keys|
    {
      var key :| key in keys;
      SumMapPut(m - keys, key, m[key]);
      assert (m - keys)[key := m[key]] == m - (keys - {key});
      keys := keys - {key};
      total := total + m[key];
    }
    assert m - {} == m;
  }

  // ---- Nested maps ----

  ghost function RowSums<A, B>(m: map<A, map<B, real>>): map<A, real> {
    map a | a in m :: SumMap(m[a])
  }

  /** The sum of all cells. */
  ghost function NestedSum<A, B>(m: map<A, map<B, real>>): real {
    SumMap(RowSums(m))
  }

  lemma NothingNested<A, B>()
    ensures NestedSum<A, B>(map[]) == 0.0
  {
    assert RowSums<A, B>(map[]) == map[];
  }

  lemma NestedSumAdd<A, B>(m: map<A, map<B, real>>, a: A, row: map<B, real>)
    requires a !in m
    ensures NestedSum(m[a := row]) == NestedSum(m) + SumMap(row)
  {
    assert RowSums(m[a := row]) == RowSums(m)[a := SumMap(row)];
    SumMapPut(RowSums(m), a, SumMap(row));
  }

  /** The cells under pairs of keys. */
  function Flat<A, B>(m: map<A, map<B, real>>): map<(A, B), real> {
    map a, b | a in m && b in m[a] :: (a, b) := m[a][b]
  }

  lemma FlatMeaning<A(!new), B(!new)>(m: map<A, map<B, real>>)
    ensures forall k: (A, B) :: k in Flat(m) <==> k.0 in m && k.1 in m[k.0]
    ensures forall k: (A, B) | k in Flat(m) :: Flat(m)[k] == m[k.0][k.1]
  {
  }

  /** One row of the flattened cells. */
  ghost function RowOf<A, B>(a: A, row: map<B, real>): map<(A, B), real> {
    map b | b in row :: (a, b) := row[b]
  }

  lemma FlatAdd<A(!new), B(!new)>(m: map<A, map<B, real>>, a: A)
    requires a in m
    ensures Flat(m) == Flat(m - {a}) + RowOf(a, m[a])
    ensures forall k | k in Flat(m - {a}) :: k.0 != a
  {
    hide Flat;
    FlatMeaning(m);
    FlatMeaning(m - {a});
  }

  lemma AddToRow<A, B>(flat: map<(A, B), real>, a: A, row: map<B, real>, b: B)
    requires b in row && forall k | k in flat :: k.0 != a
    ensures flat + RowOf(a, row) == (flat + RowOf(a, row - {b}))[(a, b) := row[b]]
    ensures (a, b) !in flat + RowOf(a, row - {b})
  {
  }

  lemma {:induction false} AddRowSum<A, B>(flat: map<(A, B), real>, a: A, row: map<B, real>)
    requires forall k | k in flat :: k.0 != a
    ensures SumMap(flat + RowOf(a, row)) == SumMap(flat) + SumMap(row)
    decreases |row|
  {
    if row == map[] {
      assert RowOf(a, row) == map[];
      assert flat + map[] == flat;
    } else {
      hide SumMap, RowOf;
      var b :| b in row;
      AddRowSum(flat, a, row - {b});
      SumMapTake(row, b);
      AddToRow(flat, a, row, b);
      SumMapPut(flat + RowOf(a, row - {b}), (a, b), row[b]);
    }
  }

  lemma {:induction false} FlatSum<A(!new), B(!new)>(m: map<A, map<B, real>>)
    ensures SumMap(Flat(m)) == NestedSum(m)
    decreases |m|
  {
    if m == map[] {
      assert Flat(m) == map[];
      assert RowSums(m) == map[];
    } else {
      hide SumMap, NestedSum, Flat, RowOf;
      var a :| a in m;
      var rest := m - {a};
      FlatSum(rest);
      assert rest[a := m[a]] == m;
      NestedSumAdd(rest, a, m[a]);
      FlatAdd(m, a);
      AddRowSum(Flat(rest), a, m[a]);
    }
  }
}
