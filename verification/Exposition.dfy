/**
 What a collector sends to its channel: series of a metric name, label values and a value.
 */
module Exposition {
  import opened Sums
  import opened Permutations

  datatype Series = Series(name: string, labels: seq<string>, value: real)

  /** keys lists the keys of m, each once, in some order. */
  ghost predicate Lists<K(!new), V>(keys: seq<K>, m: map<K, V>) {
    Distinct(keys) && forall k :: k in keys <==> k in m
  }

  function Pick<K>(keys: seq<K>, series: map<K, Series>): seq<Series>
    requires forall k | k in keys :: k in series
  {
    if keys == [] then [] else Pick(keys[..|keys| - 1], series) + [series[keys[|keys| - 1]]]
  }

  /** Exactly one series for each key was sent, in some order. */
  ghost predicate SentFor<K(!new)>(keys: seq<K>, out: seq<Series>, series: map<K, Series>) {
    Lists(keys, series) && out == Pick(keys, series)
  }

  ghost predicate Sent<K(!new)>(out: seq<Series>, series: map<K, Series>) {
    exists keys: seq<K> :: SentFor(keys, out, series)
  }

  lemma PickStep<K>(keys: seq<K>, key: K, series: map<K, Series>)
    requires (forall k | k in keys :: k in series) && key in series
    ensures Pick(keys + [key], series) == Pick(keys, series) + [series[key]]
  {
  }

  lemma {:induction false} PickConcat<K>(a: seq<K>, b: seq<K>, series: map<K, Series>)
    requires forall k | k in a + b :: k in series
    ensures Pick(a + b, series) == Pick(a, series) + Pick(b, series)
  {
    if b == [] {
      assert a + b == a;
    } else {
      var front, last := b[..|b| - 1], b[|b| - 1];
      assert b == front + [last];
      assert a + b == a + front + [last];
      PickConcat(a, front, series);
      PickStep(a + front, last, series);
      PickStep(front, last, series);
    }
  }

  function Values<K>(series: map<K, Series>, value: Series -> real): map<K, real> {
    map k | k in series :: value(series[k])
  }

  function ValueOf(): Series -> real {
    (s: Series) => s.value
  }

  lemma ValuesTake<K>(series: map<K, Series>, value: Series -> real, k: K)
    requires k in series
    ensures SumMap(Values(series, value)) == value(series[k]) + SumMap(Values(series - {k}, value))
  {
    assert Values(series - {k}, value) == Values(series, value) - {k};
    SumMapTake(Values(series, value), k);
  }

  lemma {:induction false} PickFewer<K>(keys: seq<K>, fewer: map<K, Series>, series: map<K, Series>)
    requires forall k | k in keys :: k in fewer && k in series && fewer[k] == series[k]
    ensures Pick(keys, fewer) == Pick(keys, series)
  {
    if keys == [] {
    } else {
      PickFewer(keys[..|keys| - 1], fewer, series);
    }
  }

  lemma {:induction false} PickSum<K(!new)>(keys: seq<K>, series: map<K, Series>, value: Series -> real)
    requires Lists(keys, series)
    ensures SumBy(Pick(keys, series), value) == SumMap(Values(series, value))
  {
    if keys == [] {
      assert Values(series, value) == map[];
    } else {
      var front, last := keys[..|keys| - 1], keys[|keys| - 1];
      assert keys == front + [last];
      var fewer := series - {last};
      assert Lists(front, fewer);
      PickSum(front, fewer, value);
      PickFewer(front, fewer, series);
      PickStep(front, last, series);
      SumByStep(Pick(front, series), series[last], value);
      ValuesTake(series, value, last);
    }
  }

  /** A sum over what was sent is the sum over the keys. */
  lemma SentSum<K(!new)>(out: seq<Series>, series: map<K, Series>, value: Series -> real)
    requires Sent(out, series)
    ensures SumBy(out, value) == SumMap(Values(series, value))
  {
    var keys: seq<K> :| SentFor(keys, out, series);
    PickSum(keys, series, value);
  }
}
