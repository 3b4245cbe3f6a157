/**
 Grouping by a key loses nothing: the group sums add up to the sum over all items.
 */
module Grouping {
  import opened Sums

  function Grouped<T>(items: seq<T>, key: T -> string, k: string): seq<T> {
    Filter(items, (x: T) => key(x) == k)
  }

  function GroupKeys<T>(items: seq<T>, key: T -> string): set<string> {
    set i | 0 <= i < |items| :: key(items[i])
  }

  /** For each key, the sum over its group. */
  function GroupSums<T>(items: seq<T>, key: T -> string, value: T -> real): map<string, real> {
    map k | k in GroupKeys(items, key) :: SumBy(Grouped(items, key, k), value)
  }

  lemma GroupedStep<T>(items: seq<T>, x: T, key: T -> string, k: string)
    ensures Grouped(items + [x], key, k) == if key(x) == k then Grouped(items, key, k) + [x] else Grouped(items, key, k)
  {
  }

  lemma GroupKeysStep<T>(items: seq<T>, x: T, key: T -> string)
    ensures GroupKeys(items + [x], key) == GroupKeys(items, key) + {key(x)}
  {
    var more := items + [x];
    forall i | 0 <= i < |items|
      ensures key(items[i]) in GroupKeys(more, key)
    {
      assert more[i] == items[i];
    }
    assert more[|items|] == x;
  }

  lemma {:induction false} NoGroup<T>(items: seq<T>, key: T -> string, k: string)
    requires k !in GroupKeys(items, key)
    ensures Grouped(items, key, k) == []
  {
    if items == [] {
    } else {
      var front, last := items[..|items| - 1], items[|items| - 1];
      assert items == front + [last];
      GroupKeysStep(front, last, key);
      NoGroup(front, key, k);
    }
  }

  lemma NoItems<T>(value: T -> real)
    ensures SumBy([], value) == 0.0
  {
  }

  lemma GroupSumsStep<T>(items: seq<T>, x: T, key: T -> string, value: T -> real)
    ensures GroupSums(items + [x], key, value) ==
            GroupSums(items, key, value)[key(x) := At(GroupSums(items, key, value), key(x)) + value(x)]
  {
    hide SumBy, Grouped, GroupKeys;
    GroupKeysStep(items, x, key);
    forall k | k in GroupKeys(items + [x], key)
      ensures SumBy(Grouped(items + [x], key, k), value) ==
              SumBy(Grouped(items, key, k), value) + if key(x) == k then value(x) else 0.0
    {
      GroupedStep(items, x, key, k);
      SumByStep(Grouped(items, key, k), x, value);
    }
    if key(x) !in GroupKeys(items, key) {
      NoGroup(items, key, key(x));
      NoItems(value);
    }
  }

  lemma ItemAdds<T>(items: seq<T>, x: T, key: T -> string, value: T -> real)
    ensures SumMap(GroupSums(items + [x], key, value)) == SumMap(GroupSums(items, key, value)) + value(x)
  {
    hide GroupSums, SumMap;
    var sums := GroupSums(items, key, value);
    GroupSumsStep(items, x, key, value);
    SumMapPut(sums, key(x), At(sums, key(x)) + value(x));
  }

  lemma {:induction false} GroupSumsAddUp<T>(items: seq<T>, key: T -> string, value: T -> real)
    ensures SumMap(GroupSums(items, key, value)) == SumBy(items, value)
  {
    if items == [] {
      assert GroupSums(items, key, value) == map[];
    } else {
      hide GroupSums, SumMap, SumBy;
      var front, last := items[..|items| - 1], items[|items| - 1];
      assert items == front + [last];
      GroupSumsAddUp(front, key, value);
      ItemAdds(front, last, key, value);
      SumByStep(front, last, value);
    }
  }
}
