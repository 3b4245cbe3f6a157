/**
 Node counts of internal/collector/nodes.go: thirteen state buckets by partition and feature set, the
 zero-fill before emission, and why nothing is lost between lines and series.
 */
module Nodes {
  import opened Text
  import opened Numbers
  import opened Parsing
  import opened Sums
  import opened Grouping
  import opened Permutations
  import opened Exposition
  import opened SortedText

  // ---- Feature sets ----

  /** normalizeFeatureSet. */
  function NormalizeFeatureSet(raw: string): string {
    var featureSet := Join(Sort(Split(raw, ',')), ",");
    if featureSet == "(null)" then "null" else featureSet
  }

  lemma SortedSplitJoins(raw: string)
    ensures Split(Join(Sort(Split(raw, ',')), ","), ',') == Sort(Split(raw, ','))
  {
    var parts := Split(raw, ',');
    SortSorts(parts);
    SplitLacks(raw, ',');
    forall i | 0 <= i < |Sort(parts)|
      ensures ',' !in Sort(parts)[i]
    {
      assert Sort(parts)[i] in multiset(Sort(parts));
      assert Sort(parts)[i] in parts;
    }
    assert |multiset(Sort(parts))| == |multiset(parts)|;
    SplitJoin(Sort(parts), ',');
  }

  /** Normalising twice is normalising once. */
  lemma NormalizeIdempotent(raw: string)
    ensures NormalizeFeatureSet(NormalizeFeatureSet(raw)) == NormalizeFeatureSet(raw)
  {
    var parts := Sort(Split(raw, ','));
    var featureSet := Join(parts, ",");
    SortedSplitJoins(raw);
    SortSorts(Split(raw, ','));
    SortKeepsSorted(parts);
    if featureSet == "(null)" {
      SplitWhole("null", ',');
      assert Sort(["null"]) == ["null"] by {
        assert ["null"][1..] == [];
      }
    }
  }

  /** Two lists of the same features in any order have one name. */
  lemma NormalizeBlindToOrder(a: string, b: string)
    requires multiset(Split(a, ',')) == multiset(Split(b, ','))
    ensures NormalizeFeatureSet(a) == NormalizeFeatureSet(b)
  {
    SortDependsOnMultiset(Split(a, ','), Split(b, ','));
  }

  // ---- Buckets ----

  datatype Bucket = Alloc | Comp | Down | Drain | Fail | Err | Idle | Inval | Maint | Mix | Resv | Planned | Other

  /** The thirteen buckets, in the order of the collector's list of maps. */
  const BUCKETS: seq<Bucket> := [Alloc, Comp, Down, Drain, Err, Fail, Idle, Inval, Maint, Mix, Resv, Other, Planned]

  /** The anchored expressions of the state switch, in order. */
  function Classify(state: string): Bucket {
    if "alloc" <= state then Alloc
    else if "comp" <= state then Comp
    else if "down" <= state then Down
    else if "drain" <= state then Drain
    else if "fail" <= state then Fail
    else if "err" <= state then Err
    else if "idle" <= state then Idle
    else if "inval" <= state then Inval
    else if "maint" <= state then Maint
    else if "mix" <= state then Mix
    else if "res" <= state then Resv
    else if "planned" <= state then Planned
    else Other
  }

  /** The start of a state name that each bucket but the last stands for. */
  function Stem(b: Bucket): string
    requires b != Other
  {
    match b
    case Alloc => "alloc"
    case Comp => "comp"
    case Down => "down"
    case Drain => "drain"
    case Fail => "fail"
    case Err => "err"
    case Idle => "idle"
    case Inval => "inval"
    case Maint => "maint"
    case Mix => "mix"
    case Resv => "res"
    case Planned => "planned"
  }

  /** No state matches two stems: they differ within their first three letters. */
  lemma StemsExclude(state: string, b: Bucket, c: Bucket)
    requires b != Other && c != Other && Stem(b) <= state && Stem(c) <= state
    ensures b == c
  {
    assert state[0] == Stem(b)[0] == Stem(c)[0];
    assert state[1] == Stem(b)[1] == Stem(c)[1];
  }

  lemma ClassifiedByStem(state: string, b: Bucket)
    requires b != Other
    ensures Classify(state) != Other ==> Stem(Classify(state)) <= state
    ensures Classify(state) == Other ==> !(Stem(b) <= state)
  {
  }

  /** So the order of the switch does not matter: a state is in a bucket exactly when it starts like it. */
  lemma BucketIffStem(state: string, b: Bucket)
    requires b != Other
    ensures Classify(state) == b <==> Stem(b) <= state
    ensures Classify(state) == Other ==> !(Stem(b) <= state)
  {
    hide Classify, Stem;
    ClassifiedByStem(state, b);
    if Stem(b) <= state {
      StemsExclude(state, b, Classify(state));
    }
  }

  // ---- Entries ----

  datatype Entry = Entry(part: string, count: real, state: string, featureSet: string)

  /** One line of "%R|%D|%T|%b". */
  function ParseEntry(read: FloatReader, line: string): Option<Entry> {
    var f := Split(line, '|');
    if |f| < 4 then None
    else Some(Entry(TrimRight(TrimSpace(f[0]), "*"), FloatOrZero(read, TrimSpace(f[1])), f[2],
                    NormalizeFeatureSet(f[3])))
  }

  /** A printed line is read back, with or without the default-partition marker; further fields are ignored. */
  lemma LineReadsBack(read: FloatReader, part: string, marked: bool, count: string, state: string, features: string,
                      rest: seq<string>)
    requires part != "" && Trimmed(part) && part[|part| - 1] != '*'
    requires '|' !in part && '|' !in count && '|' !in state && '|' !in features && Lacks(rest, '|')
    ensures ParseEntry(read, Join([part + if marked then "*" else "", count, state, features] + rest, "|"))
         == Some(Entry(part, FloatOrZero(read, TrimSpace(count)), state, NormalizeFeatureSet(features)))
  {
    hide Split, Join, TrimSpace, NormalizeFeatureSet;
    var shown := part + if marked then "*" else "";
    SplitJoin([shown, count, state, features] + rest, '|');
    TrimSpaceKeepsTrimmed(shown);
    assert TrimRight(part, "*") == part;
    assert marked ==> shown[..|shown| - 1] == part;
    assert !marked ==> shown == part;
  }

  function EntryParser(read: FloatReader): string -> Option<Entry> {
    line => ParseEntry(read, line)
  }

  /** The entries of the distinct well-formed lines of an input. */
  function Entries(read: FloatReader, input: string): seq<Entry> {
    Parsed(EntryParser(read), Uniq(Split(input, '\n')))
  }

  /** Any permutation or repetition of the lines gives the same entries, hence the same maps. */
  lemma EntriesDependOnLineSet(read: FloatReader, a: string, b: string)
    requires forall line :: line in Split(a, '\n') <==> line in Split(b, '\n')
    ensures Entries(read, a) == Entries(read, b)
  {
    UniqDependsOnSet(Split(a, '\n'), Split(b, '\n'));
  }

  function PartOf(): Entry -> string {
    (e: Entry) => e.part
  }

  function FeatureSetOf(): Entry -> string {
    (e: Entry) => e.featureSet
  }

  function CountOf(): Entry -> real {
    (e: Entry) => e.count
  }

  /** The entries of one partition that fall in one bucket. */
  function InBucket(entries: seq<Entry>, part: string, b: Bucket): seq<Entry> {
    Filter(entries, (e: Entry) => e.part == part && Classify(e.state) == b)
  }

  /** The map of one bucket: by feature set, the sum of the counts. */
  function BucketMap(entries: seq<Entry>, part: string, b: Bucket): map<string, real> {
    GroupSums(InBucket(entries, part, b), FeatureSetOf(), CountOf())
  }

  lemma BucketMapStep(entries: seq<Entry>, e: Entry, part: string, b: Bucket)
    ensures BucketMap(entries + [e], part, b) ==
            if e.part == part && Classify(e.state) == b
            then BucketMap(entries, part, b)[e.featureSet := At(BucketMap(entries, part, b), e.featureSet) + e.count]
            else BucketMap(entries, part, b)
  {
    hide Classify, GroupSums;
    assert (entries + [e])[..|entries|] == entries;
    if e.part == part && Classify(e.state) == b {
      assert InBucket(entries + [e], part, b) == InBucket(entries, part, b) + [e];
      GroupSumsStep(InBucket(entries, part, b), e, FeatureSetOf(), CountOf());
    } else {
      assert InBucket(entries + [e], part, b) == InBucket(entries, part, b);
    }
  }

  // ---- The metrics of one partition ----

  /** m[k] += x. */
  function Bumped(m: map<string, real>, k: string, x: real): map<string, real> {
    m[k := At(m, k) + x]
  }

  function PositionOf(b: Bucket): (i: nat)
    ensures i < |BUCKETS| && BUCKETS[i] == b
  {
    match b
    case Alloc => 0
    case Comp => 1
    case Down => 2
    case Drain => 3
    case Err => 4
    case Fail => 5
    case Idle => 6
    case Inval => 7
    case Maint => 8
    case Mix => 9
    case Resv => 10
    case Other => 11
    case Planned => 12
  }

  lemma AllBuckets()
    ensures forall i, j | 0 <= i < j < |BUCKETS| :: BUCKETS[i] != BUCKETS[j]
  {
  }

  /** m over the keys of all, with zeros where it had none. */
  function Filled(m: map<string, real>, all: set<string>): map<string, real> {
    map k | k in m.Keys + all :: At(m, k)
  }

  method FillMap(m: map<string, real>, all: set<string>) returns (r: map<string, real>)
    ensures r == Filled(m, all)
  {
    r := m;
    var todo := all;
    while todo != {}
      invariant todo <= all
      invariant r == Filled(m, all - todo)
      decreases |todo|
    {
      var fs :| fs in todo;
      todo := todo - {fs};
      if fs !in r {
        r := r[fs := 0.0];
      }
    }
    assert all - {} == all;
  }

  class NodesMetrics {
    var alloc: map<string, real>
    var comp: map<string, real>
    var down: map<string, real>
    var drain: map<string, real>
    var err: map<string, real>
    var fail: map<string, real>
    var idle: map<string, real>
    var inval: map<string, real>
    var maint: map<string, real>
    var mix: map<string, real>
    var resv: map<string, real>
    var other: map<string, real>
    var planned: map<string, real>

    /** newNodesMetrics. */
    constructor ()
      ensures forall b :: Get(b) == map[]
    {
      alloc, comp, down, drain, err, fail, idle := map[], map[], map[], map[], map[], map[], map[];
      inval, maint, mix, resv, other, planned := map[], map[], map[], map[], map[], map[];
    }

    function Get(b: Bucket): map<string, real>
      reads this
    {
      match b
      case Alloc => alloc
      case Comp => comp
      case Down => down
      case Drain => drain
      case Fail => fail
      case Err => err
      case Idle => idle
      case Inval => inval
      case Maint => maint
      case Mix => mix
      case Resv => resv
      case Planned => planned
      case Other => other
    }

    method Put(b: Bucket, m: map<string, real>)
      modifies this
      ensures forall c :: Get(c) == if c == b then m else old(Get(c))
    {
      match b
      case Alloc => alloc := m;
      case Comp => comp := m;
      case Down => down := m;
      case Drain => drain := m;
      case Fail => fail := m;
      case Err => err := m;
      case Idle => idle := m;
      case Inval => inval := m;
      case Maint => maint := m;
      case Mix => mix := m;
      case Resv => resv := m;
      case Planned => planned := m;
      case Other => other := m;
    }

    /** addNodeStateCount. */
    method AddNodeStateCount(state: string, featureSet: string, count: real)
      modifies this
      ensures forall b :: Get(b) ==
                if b == Classify(state) then Bumped(old(Get(b)), featureSet, count) else old(Get(b))
    {
      hide Classify, Bumped;
      match Classify(state)
      case Alloc => alloc := Bumped(alloc, featureSet, count);
      case Comp => comp := Bumped(comp, featureSet, count);
      case Down => down := Bumped(down, featureSet, count);
      case Drain => drain := Bumped(drain, featureSet, count);
      case Fail => fail := Bumped(fail, featureSet, count);
      case Err => err := Bumped(err, featureSet, count);
      case Idle => idle := Bumped(idle, featureSet, count);
      case Inval => inval := Bumped(inval, featureSet, count);
      case Maint => maint := Bumped(maint, featureSet, count);
      case Mix => mix := Bumped(mix, featureSet, count);
      case Resv => resv := Bumped(resv, featureSet, count);
      case Planned => planned := Bumped(planned, featureSet, count);
      case Other => other := Bumped(other, featureSet, count);
    }

    /** The feature sets of the first n buckets. */
    function FeatureSetsOf(n: nat): set<string>
      requires n <= |BUCKETS|
      reads this
    {
      if n == 0 then {} else FeatureSetsOf(n - 1) + Get(BUCKETS[n - 1]).Keys
    }

    /** All feature sets of any bucket. */
    function FeatureSets(): set<string>
      reads this
    {
      FeatureSetsOf(|BUCKETS|)
    }

    lemma {:induction false} FeatureSetsMeaning(n: nat, fs: string)
      requires n <= |BUCKETS|
      ensures fs in FeatureSetsOf(n) <==> exists j | 0 <= j < n :: fs in Get(BUCKETS[j])
    {
      if n == 0 {
      } else {
        FeatureSetsMeaning(n - 1, fs);
      }
    }

    lemma KeysAreFeatureSets(b: Bucket)
      ensures Get(b).Keys <= FeatureSets()
    {
      hide Get, FeatureSetsOf;
      forall fs | fs in Get(b)
        ensures fs in FeatureSets()
      {
        assert BUCKETS[PositionOf(b)] == b;
        FeatureSetsMeaning(|BUCKETS|, fs);
      }
    }

    /** The zero-fill of tryCollect: afterwards all thirteen maps have one key set, and no value has changed. */
    method ZeroFill()
      modifies this
      ensures forall b :: Get(b) == Filled(old(Get(b)), old(FeatureSets())) && Get(b).Keys == old(FeatureSets())
    {
      hide Get;
      forall b: Bucket
        ensures Get(b).Keys <= FeatureSets()
      {
        KeysAreFeatureSets(b);
      }
      var all: set<string> := {};
      for i := 0 to |BUCKETS|
        invariant forall b :: Get(b) == old(Get(b))
        invariant all == old(FeatureSetsOf(i))
      {
        all := all + Get(BUCKETS[i]).Keys;
      }
      AllBuckets();
      for i := 0 to |BUCKETS|
        invariant forall j | 0 <= j < i :: Get(BUCKETS[j]) == Filled(old(Get(BUCKETS[j])), all)
        invariant forall j | i <= j < |BUCKETS| :: Get(BUCKETS[j]) == old(Get(BUCKETS[j]))
      {
        var m := FillMap(Get(BUCKETS[i]), all);
        Put(BUCKETS[i], m);
      }
      forall b
        ensures Get(b) == Filled(old(Get(b)), all)
      {
        assert BUCKETS[PositionOf(b)] == b;
      }
    }
  }

  // ---- The parser ----

  /** One object per partition, no object for two, its thirteen maps those of the entries. */
  ghost predicate Holds(table: map<string, NodesMetrics>, entries: seq<Entry>)
    reads table.Values
  {
    && (forall p, q | p in table && q in table && p != q :: table[p] != table[q])
    && (forall p :: p in table <==> p in GroupKeys(entries, PartOf()))
    && (forall p, b | p in table :: table[p].Get(b) == BucketMap(entries, p, b))
  }

  lemma {:induction false} NothingInBucket(entries: seq<Entry>, part: string, b: Bucket)
    requires part !in GroupKeys(entries, PartOf())
    ensures InBucket(entries, part, b) == []
  {
    if entries == [] {
    } else {
      hide Classify;
      var front, last := entries[..|entries| - 1], entries[|entries| - 1];
      assert entries == front + [last];
      GroupKeysStep(front, last, PartOf());
      NothingInBucket(front, part, b);
    }
  }

  lemma NoBucketMap(entries: seq<Entry>, part: string, b: Bucket)
    requires part !in GroupKeys(entries, PartOf())
    ensures BucketMap(entries, part, b) == map[]
  {
    NothingInBucket(entries, part, b);
  }

  /** The body of the loop for a well-formed line. */
  method AddEntry(table: map<string, NodesMetrics>, e: Entry, ghost entries: seq<Entry>)
    returns (after: map<string, NodesMetrics>)
    requires Holds(table, entries)
    modifies table.Values
    ensures Holds(after, entries + [e])
    ensures forall o | o in after.Values :: o in table.Values || fresh(o)
  {
    hide BucketMap, GroupKeys, Classify, NodesMetrics.Get;
    after := table;
    GroupKeysStep(entries, e, PartOf());
    forall p: string, b: Bucket
      ensures BucketMap(entries + [e], p, b) ==
              if e.part == p && Classify(e.state) == b
              then BucketMap(entries, p, b)[e.featureSet := At(BucketMap(entries, p, b), e.featureSet) + e.count]
              else BucketMap(entries, p, b)
    {
      BucketMapStep(entries, e, p, b);
    }
    if e.part !in after {
      forall b: Bucket
        ensures BucketMap(entries, e.part, b) == map[]
      {
        NoBucketMap(entries, e.part, b);
      }
      var nm := new NodesMetrics();
      after := after[e.part := nm];
    }
    after[e.part].AddNodeStateCount(e.state, e.featureSet, e.count);
  }

  lemma NothingParsed(read: FloatReader, lines: seq<string>)
    ensures Holds(map[], Parsed(EntryParser(read), lines[..0]))
  {
  }

  lemma NoPipeNoEntry(read: FloatReader, line: string)
    requires '|' !in line
    ensures ParseEntry(read, line) == None
  {
  }

  /** ParseNodesMetricsGlobal. */
  method ParseNodesMetricsGlobal(read: FloatReader, input: string) returns (table: map<string, NodesMetrics>)
    ensures Holds(table, Entries(read, input))
    ensures forall o | o in table.Values :: fresh(o)
  {
    hide Holds, ParseEntry, Parsed;
    table := map[];
    var lines := Uniq(Split(input, '\n'));
    NothingParsed(read, lines);
    for i := 0 to |lines|
      invariant Holds(table, Parsed(EntryParser(read), lines[..i]))
      invariant forall o | o in table.Values :: fresh(o)
    {
      ParsedStep(EntryParser(read), lines, i);
      if '|' !in lines[i] {
        NoPipeNoEntry(read, lines[i]);
        continue;
      }
      var parsed := ParseEntry(read, lines[i]);
      if parsed.None? {
        continue;
      }
      table := AddEntry(table, parsed.value, Parsed(EntryParser(read), lines[..i]));
    }
    assert lines[..|lines|] == lines;
  }

  // ---- Conservation ----

  /** The sum over the thirteen buckets. */
  function OverBuckets(amount: Bucket -> real, n: nat): real
    requires n <= |BUCKETS|
  {
    if n == 0 then 0.0 else OverBuckets(amount, n - 1) + amount(BUCKETS[n - 1])
  }

  /** The total of one bucket of one partition. */
  ghost function BucketTotal(entries: seq<Entry>, part: string): Bucket -> real {
    (b: Bucket) => SumMap(BucketMap(entries, part, b))
  }

  /** The entries of one partition. */
  function OfPart(entries: seq<Entry>, part: string): seq<Entry> {
    Grouped(entries, PartOf(), part)
  }

  function BucketSum(entries: seq<Entry>, part: string): Bucket -> real {
    (b: Bucket) => SumBy(InBucket(entries, part, b), CountOf())
  }

  lemma {:induction false} OverBucketsPointwise(f: Bucket -> real, g: Bucket -> real, n: nat)
    requires n <= |BUCKETS| && forall b :: f(b) == g(b)
    ensures OverBuckets(f, n) == OverBuckets(g, n)
  {
    if n == 0 {
    } else {
      OverBucketsPointwise(f, g, n - 1);
    }
  }

  /** Adding an amount at one bucket adds it to the sum over the buckets once that bucket is included. */
  lemma {:induction false} OverBucketsStep(f: Bucket -> real, g: Bucket -> real, at: Bucket, x: real, n: nat)
    requires n <= |BUCKETS| && forall b :: g(b) == f(b) + if b == at then x else 0.0
    ensures OverBuckets(g, n) == OverBuckets(f, n) + if PositionOf(at) < n then x else 0.0
  {
    if n == 0 {
    } else {
      OverBucketsStep(f, g, at, x, n - 1);
      AllBuckets();
    }
  }

  lemma InBucketStep(entries: seq<Entry>, e: Entry, part: string, b: Bucket)
    ensures InBucket(entries + [e], part, b) ==
            if e.part == part && Classify(e.state) == b then InBucket(entries, part, b) + [e]
            else InBucket(entries, part, b)
  {
  }

  lemma BucketSumStep(entries: seq<Entry>, e: Entry, part: string)
    ensures forall b :: BucketSum(entries + [e], part)(b) ==
                        BucketSum(entries, part)(b) + if e.part == part && Classify(e.state) == b then e.count else 0.0
  {
    hide Classify, InBucket, SumBy;
    forall b: Bucket
      ensures BucketSum(entries + [e], part)(b) ==
              BucketSum(entries, part)(b) + if e.part == part && Classify(e.state) == b then e.count else 0.0
    {
      InBucketStep(entries, e, part, b);
      SumByStep(InBucket(entries, part, b), e, CountOf());
    }
  }

  lemma EntryAdds(entries: seq<Entry>, e: Entry, part: string)
    ensures OverBuckets(BucketSum(entries + [e], part), |BUCKETS|) ==
            OverBuckets(BucketSum(entries, part), |BUCKETS|) + if e.part == part then e.count else 0.0
  {
    hide Classify, OverBuckets, BucketSum;
    BucketSumStep(entries, e, part);
    if e.part == part {
      OverBucketsStep(BucketSum(entries, part), BucketSum(entries + [e], part), Classify(e.state), e.count, |BUCKETS|);
    } else {
      OverBucketsPointwise(BucketSum(entries, part), BucketSum(entries + [e], part), |BUCKETS|);
    }
  }

  lemma {:induction false} ZeroBuckets(f: Bucket -> real, n: nat)
    requires n <= |BUCKETS| && forall b :: f(b) == 0.0
    ensures OverBuckets(f, n) == 0.0
  {
    if n == 0 {
    } else {
      ZeroBuckets(f, n - 1);
    }
  }

  /** Every entry of a partition falls in exactly one bucket. */
  lemma {:induction false} BucketsPartition(entries: seq<Entry>, part: string)
    ensures OverBuckets(BucketSum(entries, part), |BUCKETS|) == SumBy(OfPart(entries, part), CountOf())
  {
    if entries == [] {
      ZeroBuckets(BucketSum(entries, part), |BUCKETS|);
    } else {
      hide OverBuckets, BucketSum, Grouped, SumBy;
      var front, last := entries[..|entries| - 1], entries[|entries| - 1];
      assert entries == front + [last];
      BucketsPartition(front, part);
      GroupedStep(front, last, PartOf(), part);
      SumByStep(OfPart(front, part), last, CountOf());
      EntryAdds(front, last, part);
    }
  }

  /** Per partition, the thirteen buckets over all feature sets sum to the counts of its distinct lines. */
  lemma NodeConservation(entries: seq<Entry>, part: string)
    ensures OverBuckets(BucketTotal(entries, part), |BUCKETS|) == SumBy(OfPart(entries, part), CountOf())
  {
    hide OverBuckets, InBucket, SumBy, SumMap;
    forall b: Bucket
      ensures BucketTotal(entries, part)(b) == BucketSum(entries, part)(b)
    {
      GroupSumsAddUp(InBucket(entries, part, b), FeatureSetOf(), CountOf());
    }
    OverBucketsPointwise(BucketTotal(entries, part), BucketSum(entries, part), |BUCKETS|);
    BucketsPartition(entries, part);
  }

  lemma FilledStep(m: map<string, real>, all: set<string>, k: string)
    requires k in all
    ensures Filled(m, all) == Filled(m, all - {k})[k := At(m, k)]
    ensures At(Filled(m, all - {k}), k) == At(m, k)
  {
  }

  /** The zero-fill changes no sum. */
  lemma {:induction false} FilledKeepsSum(m: map<string, real>, all: set<string>)
    ensures SumMap(Filled(m, all)) == SumMap(m)
    decreases |all|
  {
    if all == {} {
      assert Filled(m, all) == m;
    } else {
      hide SumMap;
      hide Filled;
      var k :| k in all;
      FilledKeepsSum(m, all - {k});
      FilledStep(m, all, k);
      SumMapPut(Filled(m, all - {k}), k, At(m, k));
    }
  }

  // ---- Emission ----

  function FeatureSetSeries(name: string, m: map<string, real>, part: string): map<string, Series> {
    map fs | fs in m :: Series(name, [part, fs], m[fs])
  }

  /** SendFeatureSetMetric: one series per feature set, in any order. */
  method SendFeatureSetMetric(name: string, m: map<string, real>, part: string) returns (out: seq<Series>)
    ensures Sent(out, FeatureSetSeries(name, m, part))
  {
    out := [];
    ghost var series := FeatureSetSeries(name, m, part);
    ghost var keys: seq<string> := [];
    var todo := m.Keys;
    while todo != {}
      invariant todo <= m.Keys && Distinct(keys)
      invariant forall k :: k in keys <==> k in m && k !in todo
      invariant (forall k | k in keys :: k in series) && out == Pick(keys, series)
      decreases |todo|
    {
      var fs :| fs in todo;
      todo := todo - {fs};
      PickStep(keys, fs, series);
      out := out + [Series(name, [part, fs], m[fs])];
      keys := keys + [fs];
    }
    assert SentFor(keys, out, series);
  }

  /** The per-feature-set series of a zero-filled map add up to the one series sent without that label. */
  lemma FeatureSetsAddUp(name: string, m: map<string, real>, all: set<string>, part: string, out: seq<Series>)
    requires Sent(out, FeatureSetSeries(name, Filled(m, all), part))
    ensures SumBy(out, ValueOf()) == SumMap(Filled(m, all)) == SumMap(m)
  {
    hide SumMap, SumBy, Sent;
    SentSum(out, FeatureSetSeries(name, Filled(m, all), part), ValueOf());
    assert Values(FeatureSetSeries(name, Filled(m, all), part), ValueOf()) == Filled(m, all);
    FilledKeepsSum(m, all);
  }

  // ---- One printed line ----

  /** The sentinel of a node without features loses its parentheses; any other single feature stays as it is. */
  lemma SingleFeature(feature: string)
    requires ',' !in feature
    ensures NormalizeFeatureSet(feature) == if feature == "(null)" then "null" else feature
  {
    SplitWhole(feature, ',');
    SortOfOne(feature);
  }

  lemma GroupKeysOfNone()
    ensures GroupKeys<Entry>([], PartOf()) == {}
  {
  }

  lemma OneBucketMap(e: Entry, b: Bucket)
    ensures BucketMap([e], e.part, b) == if Classify(e.state) == b then map[e.featureSet := e.count] else map[]
  {
    hide Classify;
    assert [] + [e] == [e];
    BucketMapStep([], e, e.part, b);
    GroupKeysOfNone();
    NoBucketMap([], e.part, b);
  }

  function CountIf(counted: bool, e: Entry): map<string, real> {
    if counted then map[e.featureSet := e.count] else map[]
  }

  lemma OneField(table: map<string, NodesMetrics>, e: Entry, b: Bucket)
    requires Holds(table, [e]) && e.part in table
    ensures table[e.part].Get(b) == CountIf(Classify(e.state) == b, e)
    ensures b != Other ==> table[e.part].Get(b) == CountIf(Stem(b) <= e.state, e)
  {
    hide BucketMap, Classify, Stem, GroupKeys;
    OneBucketMap(e, b);
    if b != Other {
      BucketIffStem(e.state, b);
    }
  }

  /** The twelve starts of a state name that have a bucket of their own. */
  predicate StartsKnown(state: string) {
    || "alloc" <= state || "comp" <= state || "down" <= state || "drain" <= state || "err" <= state || "fail" <= state
    || "idle" <= state || "inval" <= state || "maint" <= state || "mix" <= state || "res" <= state
    || "planned" <= state
  }

  lemma OtherIff(state: string)
    ensures Classify(state) == Other <==> !StartsKnown(state)
  {
  }

  lemma OneKey(table: map<string, NodesMetrics>, e: Entry)
    requires Holds(table, [e])
    ensures table.Keys == {e.part}
  {
    hide BucketMap, GroupKeys;
    assert [] + [e] == [e];
    GroupKeysStep([], e, PartOf());
    GroupKeysOfNone();
  }

  /** One entry counts in the field whose name its state starts with, and in no other. */
  lemma OneEntryCounts(table: map<string, NodesMetrics>, e: Entry)
    requires Holds(table, [e])
    ensures table.Keys == {e.part}
    ensures var nm, state := table[e.part], e.state;
            && nm.alloc == CountIf("alloc" <= state, e) && nm.comp == CountIf("comp" <= state, e)
            && nm.down == CountIf("down" <= state, e) && nm.drain == CountIf("drain" <= state, e)
            && nm.err == CountIf("err" <= state, e) && nm.fail == CountIf("fail" <= state, e)
            && nm.idle == CountIf("idle" <= state, e) && nm.inval == CountIf("inval" <= state, e)
            && nm.maint == CountIf("maint" <= state, e) && nm.mix == CountIf("mix" <= state, e)
            && nm.resv == CountIf("res" <= state, e) && nm.planned == CountIf("planned" <= state, e)
            && nm.other == CountIf(!StartsKnown(state), e)
  {
    hide Holds, Classify, CountIf, StartsKnown;
    OneKey(table, e);
    OneField(table, e, Alloc);
    OneField(table, e, Comp);
    OneField(table, e, Down);
    OneField(table, e, Drain);
    OneField(table, e, Err);
    OneField(table, e, Fail);
    OneField(table, e, Idle);
    OneField(table, e, Inval);
    OneField(table, e, Maint);
    OneField(table, e, Mix);
    OneField(table, e, Resv);
    OneField(table, e, Planned);
    OneField(table, e, Other);
    OtherIff(e.state);
  }

  /** And so does one printed line, with its feature set and its count. */
  lemma PrintedLineIsOneEntry(read: FloatReader, part: string, marked: bool, count: nat, state: string,
                              features: string)
    requires ReadsNumerals(read) && part != "" && Trimmed(part) && part[|part| - 1] != '*'
    requires '|' !in part && '|' !in state && '|' !in features
    requires '\n' !in part && '\n' !in state && '\n' !in features
    ensures Entries(read, Join([part + if marked then "*" else "", Decimal(count), state, features], "|"))
         == [Entry(part, count as real, state, NormalizeFeatureSet(features))]
  {
    hide Join, Split, ParseEntry, Decimal, NormalizeFeatureSet, ReadsNumerals, Uniq, TrimSpace;
    var shown := part + if marked then "*" else "";
    var f := [shown, Decimal(count), state, features];
    var line := Join(f, "|");
    DecimalReadsBack(count);
    TrimSpaceKeepsTrimmed(Decimal(count));
    NumeralReadsBack(read, count);
    LineReadsBack(read, part, marked, Decimal(count), state, features, []);
    assert f + [] == f;
    JoinChars(f, "|", '\n');
    SplitWhole(line, '\n');
    UniqOfOne(line);
    ParsedAppend(EntryParser(read), [], line);
    assert [] + [line] == [line];
  }
}
