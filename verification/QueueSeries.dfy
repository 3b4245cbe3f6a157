/**
 What the queue collector sends (internal/collector/queue.go): the labelled series, the series aggregated
 over the user label, and why dropping that label loses nothing.
 */
module QueueSeries {
  import opened Text
  import opened Numbers
  import opened Sums
  import opened Permutations
  import opened Exposition
  import opened Queue
  import PartitionNames

  type Key = (string, string)

  // ---- Labelled series ----

  /** The series of PushMetric: the reason is a third label only when it is not empty. */
  function Labelled(name: string, cells: Cells, reason: string): map<Key, Series> {
    map k | k in Flat(cells) ::
      Series(name, if reason != "" then [k.0, k.1, reason] else [k.0, k.1], Flat(cells)[k])
  }

  /** The inner loop of PushMetric: the partitions of one user, in any order. */
  method PushUser(name: string, cells: Cells, user: string, reason: string)
    returns (out: seq<Series>, ghost keys: seq<Key>)
    requires user in cells
    ensures Distinct(keys) && forall k :: k in keys <==> k.0 == user && HasCell(cells, k.0, k.1)
    ensures (forall k | k in keys :: k in Labelled(name, cells, reason))
            && out == Pick(keys, Labelled(name, cells, reason))
  {
    out, keys := [], [];
    ghost var series := Labelled(name, cells, reason);
    var parts := cells[user].Keys;
    while parts != {}
      invariant parts <= cells[user].Keys && Distinct(keys)
      invariant forall k :: k in keys <==> k.0 == user && HasCell(cells, k.0, k.1) && k.1 !in parts
      invariant (forall k | k in keys :: k in series) && out == Pick(keys, series)
      decreases |parts|
    {
      var part :| part in parts;
      parts := parts - {part};
      assert (user, part) in Flat(cells);
      PickStep(keys, (user, part), series);
      if reason != "" {
        out := out + [Series(name, [user, part, reason], cells[user][part])];
      } else {
        out := out + [Series(name, [user, part], cells[user][part])];
      }
      keys := keys + [(user, part)];
    }
  }

  /** PushMetric. */
  method PushMetric(name: string, cells: Cells, reason: string) returns (out: seq<Series>)
    ensures Sent(out, Labelled(name, cells, reason))
  {
    out := [];
    ghost var series := Labelled(name, cells, reason);
    ghost var keys: seq<Key> := [];
    var users := cells.Keys;
    while users != {}
      invariant users <= cells.Keys && Distinct(keys)
      invariant forall k :: k in keys <==> HasCell(cells, k.0, k.1) && k.0 !in users
      invariant (forall k | k in keys :: k in series) && out == Pick(keys, series)
      decreases |users|
    {
      var user :| user in users;
      users := users - {user};
      var some, more := PushUser(name, cells, user, reason);
      PickConcat(keys, more, series);
      DistinctConcat(keys, more);
      out := out + some;
      keys := keys + more;
    }
    assert SentFor(keys, out, series);
  }

  /** The labelled pending series of all reasons. */
  function LabelledByReason(name: string, cells: ReasonCells): map<(string, Key), Series> {
    map reason, k | reason in cells && k in Labelled(name, cells[reason], reason) ::
      (reason, k) := Labelled(name, cells[reason], reason)[k]
  }

  lemma LabelledByReasonMeaning(name: string, cells: ReasonCells)
    ensures forall k: (string, Key) :: k in LabelledByReason(name, cells) <==> k.0 in cells && k.1 in Flat(cells[k.0])
    ensures forall k: (string, Key) | k in LabelledByReason(name, cells) ::
              LabelledByReason(name, cells)[k].value == Flat(cells[k.0])[k.1]
  {
    hide Flat;
  }

  function WithFirst(reason: string): Key -> (string, Key) {
    (k: Key) => (reason, k)
  }

  /** What one call of PushMetric sent, seen among the series of all reasons. */
  lemma {:induction false} PickOfReason(name: string, cells: ReasonCells, reason: string, keys: seq<Key>)
    requires reason in cells && forall k | k in keys :: k in Labelled(name, cells[reason], reason)
    ensures forall k | k in Map(keys, WithFirst(reason)) :: k in LabelledByReason(name, cells)
    ensures Pick(Map(keys, WithFirst(reason)), LabelledByReason(name, cells)) ==
            Pick(keys, Labelled(name, cells[reason], reason))
  {
    hide Labelled;
    if keys == [] {
    } else {
      var front, last := keys[..|keys| - 1], keys[|keys| - 1];
      assert keys == front + [last];
      PickOfReason(name, cells, reason, front);
      MapAppend(front, last, WithFirst(reason));
      PickStep(front, last, Labelled(name, cells[reason], reason));
      PickStep(Map(front, WithFirst(reason)), (reason, last), LabelledByReason(name, cells));
    }
  }

  lemma KeysOfReason(name: string, cells: ReasonCells, reason: string, some: seq<Series>)
    returns (keys: seq<(string, Key)>)
    requires reason in cells && Sent(some, Labelled(name, cells[reason], reason))
    ensures Distinct(keys)
    ensures forall k :: k in keys <==> k.0 == reason && k in LabelledByReason(name, cells)
    ensures some == Pick(keys, LabelledByReason(name, cells))
  {
    hide Labelled;
    var series := Labelled(name, cells[reason], reason);
    var own: seq<Key> :| SentFor(own, some, series);
    PickOfReason(name, cells, reason, own);
    keys := Map(own, WithFirst(reason));
    forall k: (string, Key) | k.0 == reason && k in LabelledByReason(name, cells)
      ensures k in keys
    {
      assert k.1 in own;
      var i :| 0 <= i < |own| && own[i] == k.1;
      assert keys[i] == k;
    }
  }

  /** The loops of tryCollect over the reasons of qm.pending and of qm.cPending. */
  method PushPending(name: string, cells: ReasonCells) returns (out: seq<Series>)
    ensures Sent(out, LabelledByReason(name, cells))
  {
    hide LabelledByReason, Flat;
    LabelledByReasonMeaning(name, cells);
    out := [];
    ghost var series := LabelledByReason(name, cells);
    ghost var keys: seq<(string, Key)> := [];
    var reasons := cells.Keys;
    while reasons != {}
      invariant reasons <= cells.Keys && Distinct(keys)
      invariant forall k :: k in keys <==> k in series && k.0 !in reasons
      invariant out == Pick(keys, series)
      decreases |reasons|
    {
      var reason :| reason in reasons;
      reasons := reasons - {reason};
      var some := PushMetric(name, cells[reason], reason);
      ghost var more := KeysOfReason(name, cells, reason, some);
      PickConcat(keys, more, series);
      DistinctConcat(keys, more);
      out := out + some;
      keys := keys + more;
    }
    assert SentFor(keys, out, series);
  }

  /** A pending series has the three labels its descriptor declares exactly when the reason is not empty. */
  lemma ReasonLabelIffNotEmpty(name: string, cells: Cells, reason: string, k: Key)
    requires k in Labelled(name, cells, reason)
    ensures |Labelled(name, cells, reason)[k].labels| == 3 <==> reason != ""
    ensures reason != "" ==> Labelled(name, cells, reason)[k].labels == [k.0, k.1, reason]
  {
  }

  /** Every labelled pending series carries the user, the partition and the reason. */
  predicate AllHaveReasons(name: string, cells: ReasonCells) {
    forall reason, k | reason in cells && k in Labelled(name, cells[reason], reason) ::
      |Labelled(name, cells[reason], reason)[k].labels| == 3
  }

  /** A row with an empty reason has a series, one that lacks the third label. */
  lemma EmptyReasonHasSeries(name: string, rows: seq<Row>, measure: Measure, r: Row) returns (k: Key)
    requires r in rows && r.reason == "" && forall q | q in rows :: q.parts != []
    ensures "" in ReasonCellsOf(rows, measure) && k in Labelled(name, ReasonCellsOf(rows, measure)[""], "")
  {
    hide ReasonCellsOf, CellsOf, Flat;
    k := (r.user, r.parts[0]);
    var some := WithReason(rows, "");
    FilterMeaning(rows, (q: Row) => q.reason == "");
    assert r in some;
    ReasonCellsMeaning(rows, measure, "");
    CellsMeaning(some, measure, k.0, k.1);
    FlatMeaning(CellsOf(some, measure));
  }

  /** Rows that list partitions give series with three labels throughout exactly when no reason is empty. */
  lemma AllHaveReasonsIff(name: string, rows: seq<Row>, measure: Measure)
    requires forall r | r in rows :: r.parts != []
    ensures AllHaveReasons(name, ReasonCellsOf(rows, measure)) <==> forall r | r in rows :: r.reason != ""
  {
    hide Labelled, ReasonCellsOf, CellsOf;
    var cells := ReasonCellsOf(rows, measure);
    forall reason, k | reason in cells && k in Labelled(name, cells[reason], reason)
      ensures exists r | r in rows :: r.reason == reason
      ensures |Labelled(name, cells[reason], reason)[k].labels| == 3 <==> reason != ""
    {
      ReasonCellsMeaning(rows, measure, reason);
      FilterMeaning(rows, (r: Row) => r.reason == reason);
      var some := WithReason(rows, reason);
      assert some[0] in some;
      ReasonLabelIffNotEmpty(name, cells[reason], reason, k);
    }
    forall r | r in rows && r.reason == ""
      ensures !AllHaveReasons(name, cells)
    {
      var k := EmptyReasonHasSeries(name, rows, measure, r);
      ReasonLabelIffNotEmpty(name, cells[""], "", k);
    }
  }

  /** So for a queue text: every pending series has its reason exactly when every pending row has one. */
  lemma PendingLabelsIff(name: string, input: string, measure: Measure)
    ensures AllHaveReasons(name, ReasonCellsOf(Select(Rows(input), PENDING), measure)) <==>
              forall r | r in Rows(input) && r.state == PENDING :: r.reason != ""
  {
    hide AllHaveReasons, ReasonCellsOf, Rows;
    var rows, pending := Rows(input), Select(Rows(input), PENDING);
    RowsListPartitions(input);
    FilterMeaning(rows, (r: Row) => r.state == PENDING);
    AllHaveReasonsIff(name, pending, measure);
  }

  /** And the code can be given such a row: a pending line with nothing between the third and fourth pipe. */
  lemma EmptyReasonIsRead(part: string, cores: string, user: string)
    requires '|' !in part && '|' !in cores && '\n' !in part && '\n' !in cores && '\n' !in user
    ensures Rows(Join([part, PENDING, cores, "", user], "|"))
         == [Row(PartitionNames.Names(part), PENDING, Atoi(cores), "", TrimSpace(user))]
  {
    hide ParseRow, Join;
    var fields := [part, PENDING, cores, "", user];
    PipesBelongToUser(part, PENDING, cores, "", user);
    JoinChars(fields, "|", '\n');
    OneRow(Join(fields, "|"), ParseRow(Join(fields, "|")).value);
  }

  // ---- Aggregated series ----

  /** The counts of one partition, by user. */
  function Column(cells: Cells, part: string): map<string, real> {
    map user | user in cells && part in cells[user] :: cells[user][part]
  }

  function Parts(cells: Cells): set<string> {
    set user, part | user in cells && part in cells[user] :: part
  }

  /** For each partition, the sum over users. */
  ghost function PartSums(cells: Cells): map<string, real> {
    map part | part in Parts(cells) :: SumMap(Column(cells, part))
  }

  /** Adds the counts of m to those of agg. */
  function Merge(agg: map<string, real>, m: map<string, real>): map<string, real> {
    map k | k in agg.Keys + m.Keys :: At(agg, k) + At(m, k)
  }

  lemma MergeNothing(agg: map<string, real>, m: map<string, real>)
    ensures Merge(agg, m - m.Keys) == agg
  {
  }

  lemma MergeOne(agg: map<string, real>, m: map<string, real>, parts: set<string>, part: string)
    requires part in parts && parts <= m.Keys
    ensures var before := Merge(agg, m - parts);
            Merge(agg, m - (parts - {part})) == before[part := At(before, part) + m[part]]
  {
  }

  /** The inner loop of the aggregation: one user's partitions, in any order. */
  method AddUser(agg: map<string, real>, m: map<string, real>) returns (r: map<string, real>)
    ensures r == Merge(agg, m)
  {
    hide Merge, At;
    r := agg;
    var parts := m.Keys;
    MergeNothing(agg, m);
    while parts != {}
      invariant parts <= m.Keys
      invariant r == Merge(agg, m - parts)
      decreases |parts|
    {
      var part :| part in parts;
      MergeOne(agg, m, parts, part);
      parts := parts - {part};
      r := r[part := At(r, part) + m[part]];
    }
    assert m - {} == m;
  }

  lemma NoPartSums()
    ensures PartSums(map[]) == map[]
  {
  }

  lemma PartAdded(cells: Cells, user: string, m: map<string, real>, part: string)
    requires user !in cells
    ensures part in Parts(cells[user := m]) <==> part in Parts(cells) || part in m
  {
    var after := cells[user := m];
    if part in Parts(cells) {
      var u :| u in cells && part in cells[u];
      assert u in after && part in after[u];
    }
    if part in m {
      assert user in after && part in after[user];
    }
  }

  lemma ColumnAdded(cells: Cells, user: string, m: map<string, real>, part: string)
    requires user !in cells
    ensures SumMap(Column(cells[user := m], part)) == SumMap(Column(cells, part)) + At(m, part)
  {
    if part in m {
      assert Column(cells[user := m], part) == Column(cells, part)[user := m[part]];
      SumMapPut(Column(cells, part), user, m[part]);
    } else {
      assert Column(cells[user := m], part) == Column(cells, part);
    }
  }

  lemma NoColumn(cells: Cells, part: string)
    requires part !in Parts(cells)
    ensures SumMap(Column(cells, part)) == 0.0
  {
  }

  lemma PartSumsAdd(cells: Cells, user: string, m: map<string, real>)
    requires user !in cells
    ensures PartSums(cells[user := m]) == Merge(PartSums(cells), m)
  {
    hide Parts, Column, SumMap;
    var after := cells[user := m];
    forall part: string
      ensures part in Parts(after) <==> part in Parts(cells) || part in m
      ensures SumMap(Column(after, part)) == SumMap(Column(cells, part)) + At(m, part)
    {
      PartAdded(cells, user, m, part);
      ColumnAdded(cells, user, m, part);
    }
    forall part: string | part !in Parts(cells)
      ensures SumMap(Column(cells, part)) == 0.0
    {
      NoColumn(cells, part);
    }
  }

  /** The first loop of pushAggregatedNVal, over the users in any order. */
  method Aggregate(cells: Cells) returns (agg: map<string, real>)
    ensures agg == PartSums(cells)
  {
    hide PartSums, Merge;
    agg := map[];
    NoPartSums();
    var users := cells.Keys;
    assert cells - users == map[];
    while users != {}
      invariant users <= cells.Keys
      invariant agg == PartSums(cells - users)
      decreases |users|
    {
      var user :| user in users;
      PartSumsAdd(cells - users, user, cells[user]);
      assert (cells - users)[user := cells[user]] == cells - (users - {user});
      users := users - {user};
      agg := AddUser(agg, cells[user]);
    }
    assert cells - {} == cells;
  }

  /** The aggregated series, with the extra label unless it is empty. */
  ghost function Aggregated(name: string, cells: Cells, extra: string): map<string, Series> {
    map part | part in PartSums(cells) ::
      Series(name, if extra != "" then [part, extra] else [part], PartSums(cells)[part])
  }

  lemma AggregatedLabels(name: string, cells: Cells, extra: string, part: string)
    requires part in Aggregated(name, cells, extra)
    ensures Aggregated(name, cells, extra)[part].labels == if extra == "" then [part] else [part, extra]
  {
  }

  /** pushAggregatedNVal. */
  method PushAggregatedNVal(name: string, cells: Cells, extra: string) returns (out: seq<Series>)
    ensures Sent(out, Aggregated(name, cells, extra))
  {
    hide PartSums;
    var agg := Aggregate(cells);
    ghost var series := Aggregated(name, cells, extra);
    ghost var keys: seq<string> := [];
    out := [];
    var parts := agg.Keys;
    while parts != {}
      invariant parts <= agg.Keys && Distinct(keys)
      invariant forall k :: k in keys <==> k in agg && k !in parts
      invariant (forall k | k in keys :: k in series) && out == Pick(keys, series)
      decreases |parts|
    {
      var part :| part in parts;
      parts := parts - {part};
      PickStep(keys, part, series);
      if extra != "" {
        out := out + [Series(name, [part, extra], agg[part])];
      } else {
        out := out + [Series(name, [part], agg[part])];
      }
      keys := keys + [part];
    }
    assert SentFor(keys, out, series);
  }

  /** The aggregated pending series: one per reason and partition, the reason label always present. */
  ghost function AggregatedByReason(name: string, cells: ReasonCells): map<Key, Series> {
    map reason, part | reason in cells && part in PartSums(cells[reason]) ::
      (reason, part) := Series(name, [part, reason], PartSums(cells[reason])[part])
  }

  lemma AggregatedAt(name: string, cells: ReasonCells, reason: string, part: string)
    requires reason in cells && part in PartSums(cells[reason])
    ensures (reason, part) in AggregatedByReason(name, cells)
    ensures AggregatedByReason(name, cells)[(reason, part)] ==
              Series(name, [part, reason], PartSums(cells[reason])[part])
  {
  }

  /** One reason of the emission loop of pushAggregatedNNVal. */
  method PushReason(name: string, ghost cells: ReasonCells, reason: string, agg: map<string, real>)
    returns (out: seq<Series>, ghost keys: seq<Key>)
    requires reason in cells && agg == PartSums(cells[reason])
    ensures Distinct(keys) && forall k :: k in keys <==> k.0 == reason && k.1 in agg
    ensures (forall k | k in keys :: k in AggregatedByReason(name, cells))
            && out == Pick(keys, AggregatedByReason(name, cells))
  {
    hide PartSums, AggregatedByReason;
    out, keys := [], [];
    ghost var series := AggregatedByReason(name, cells);
    var parts := agg.Keys;
    while parts != {}
      invariant parts <= agg.Keys && Distinct(keys)
      invariant forall k :: k in keys <==> k.0 == reason && k.1 in agg && k.1 !in parts
      invariant (forall k | k in keys :: k in series) && out == Pick(keys, series)
      decreases |parts|
    {
      var part :| part in parts;
      parts := parts - {part};
      AggregatedAt(name, cells, reason, part);
      PickStep(keys, (reason, part), series);
      out := out + [Series(name, [part, reason], agg[part])];
      keys := keys + [(reason, part)];
    }
  }

  /** The first loop of pushAggregatedNNVal. */
  method AggregateReasons(cells: ReasonCells) returns (agg: map<string, map<string, real>>)
    ensures agg.Keys == cells.Keys
    ensures forall reason | reason in agg :: agg[reason] == PartSums(cells[reason])
  {
    hide PartSums;
    agg := map[];
    var reasons := cells.Keys;
    while reasons != {}
      invariant reasons <= cells.Keys && agg.Keys == cells.Keys - reasons
      invariant forall reason | reason in agg :: agg[reason] == PartSums(cells[reason])
      decreases |reasons|
    {
      var reason :| reason in reasons;
      reasons := reasons - {reason};
      var sums := Aggregate(cells[reason]);
      agg := agg[reason := sums];
    }
  }

  /** pushAggregatedNNVal: aggregate every reason first, then emit. */
  method PushAggregatedNNVal(name: string, cells: ReasonCells) returns (out: seq<Series>)
    ensures Sent(out, AggregatedByReason(name, cells))
  {
    hide PartSums;
    var agg := AggregateReasons(cells);
    ghost var series := AggregatedByReason(name, cells);
    ghost var keys: seq<Key> := [];
    out := [];
    var reasons := agg.Keys;
    while reasons != {}
      invariant reasons <= agg.Keys && Distinct(keys)
      invariant forall k :: k in keys <==> k in series && k.0 !in reasons
      invariant out == Pick(keys, series)
      decreases |reasons|
    {
      var reason :| reason in reasons;
      reasons := reasons - {reason};
      var some, more := PushReason(name, cells, reason, agg[reason]);
      PickConcat(keys, more, series);
      DistinctConcat(keys, more);
      out := out + some;
      keys := keys + more;
    }
    assert SentFor(keys, out, series);
  }

  // ---- Dropping the label loses nothing ----

  /** sumNVal: users and partitions in any order. */
  method SumNVal(cells: Cells) returns (total: real)
    ensures total == NestedSum(cells)
  {
    total := 0.0;
    var users := cells.Keys;
    assert cells - users == map[];
    NothingNested<string, string>();
    while users != {}
      invariant users <= cells.Keys
      invariant total == NestedSum(cells - users)
      decreases |users|
    {
      var user :| user in users;
      NestedSumAdd(cells - users, user, cells[user]);
      assert (cells - users)[user := cells[user]] == cells - (users - {user});
      users := users - {user};
      var sum := SumValues(cells[user]);
      total := total + sum;
    }
    assert cells - {} == cells;
  }

  ghost function ReasonSums(cells: ReasonCells): map<string, real> {
    map reason | reason in cells :: NestedSum(cells[reason])
  }

  /** sumNNVal's value. */
  ghost function ReasonSum(cells: ReasonCells): real {
    SumMap(ReasonSums(cells))
  }

  /** sumNNVal. */
  method SumNNVal(cells: ReasonCells) returns (total: real)
    ensures total == ReasonSum(cells)
  {
    total := 0.0;
    var reasons := cells.Keys;
    assert cells - reasons == map[];
    assert ReasonSums(map[]) == map[];
    while reasons != {}
      invariant reasons <= cells.Keys
      invariant total == ReasonSum(cells - reasons)
      decreases |reasons|
    {
      var reason :| reason in reasons;
      assert ReasonSums(cells - (reasons - {reason})) ==
          ReasonSums(cells - reasons)[reason := NestedSum(cells[reason])];
      SumMapPut(ReasonSums(cells - reasons), reason, NestedSum(cells[reason]));
      reasons := reasons - {reason};
      var sum := SumNVal(cells[reason]);
      total := total + sum;
    }
    assert cells - {} == cells;
  }

  lemma MergeStep(agg: map<string, real>, m: map<string, real>, k: string)
    requires k in m
    ensures Merge(agg, m) == Merge(agg, m - {k})[k := At(agg, k) + m[k]]
    ensures At(Merge(agg, m - {k}), k) == At(agg, k)
  {
  }

  lemma {:induction false} MergeSum(agg: map<string, real>, m: map<string, real>)
    ensures SumMap(Merge(agg, m)) == SumMap(agg) + SumMap(m)
    decreases |m|
  {
    if m == map[] {
      assert Merge(agg, m) == agg;
    } else {
      hide SumMap, Merge;
      var k :| k in m;
      MergeSum(agg, m - {k});
      SumMapTake(m, k);
      MergeStep(agg, m, k);
      SumMapPut(Merge(agg, m - {k}), k, At(agg, k) + m[k]);
    }
  }

  /** Summed over the partitions, the aggregated counts give the sum of all cells. */
  lemma {:induction false} PartSumsAddUp(cells: Cells)
    ensures SumMap(PartSums(cells)) == NestedSum(cells)
    decreases |cells|
  {
    if cells == map[] {
      NoPartSums();
      assert RowSums(cells) == map[];
    } else {
      hide PartSums, Merge;
      var user :| user in cells;
      var rest := cells - {user};
      PartSumsAddUp(rest);
      assert rest[user := cells[user]] == cells;
      PartSumsAdd(rest, user, cells[user]);
      NestedSumAdd(rest, user, cells[user]);
      MergeSum(PartSums(rest), cells[user]);
    }
  }

  /** The grand total survives the aggregation: what it sends sums to sumNVal's value. */
  lemma AggregatedTotal(name: string, cells: Cells, extra: string, out: seq<Series>)
    requires Sent(out, Aggregated(name, cells, extra))
    ensures SumBy(out, ValueOf()) == NestedSum(cells)
  {
    hide SumMap, SumBy, Sent, NestedSum, PartSums;
    SentSum(out, Aggregated(name, cells, extra), ValueOf());
    assert Values(Aggregated(name, cells, extra), ValueOf()) == PartSums(cells);
    PartSumsAddUp(cells);
  }

  /** So does the labelled total. */
  lemma LabelledTotal(name: string, cells: Cells, reason: string, out: seq<Series>)
    requires Sent(out, Labelled(name, cells, reason))
    ensures SumBy(out, ValueOf()) == NestedSum(cells)
  {
    hide SumMap, SumBy, Sent, NestedSum, Flat;
    SentSum(out, Labelled(name, cells, reason), ValueOf());
    assert Values(Labelled(name, cells, reason), ValueOf()) == Flat(cells);
    FlatSum(cells);
  }

  /** The value of the labelled series of one partition, zero for the others. */
  function OfPartition(part: string): Series -> real {
    (s: Series) => if |s.labels| > 1 && s.labels[1] == part then s.value else 0.0
  }

  /** The cells with every count but those of one partition set to zero. */
  function Masked(cells: Cells, part: string): Cells {
    map user | user in cells :: map p | p in cells[user] :: if p == part then cells[user][p] else 0.0
  }

  lemma LabelledParts(name: string, cells: Cells, reason: string, part: string)
    ensures part in Parts(cells) <==> exists user :: (user, part) in Labelled(name, cells, reason)
  {
    if part in Parts(cells) {
      var user :| user in cells && part in cells[user];
      assert (user, part) in Labelled(name, cells, reason);
    }
  }

  lemma MaskedKeys(cells: Cells, part: string)
    ensures Flat(Masked(cells, part)).Keys == Flat(cells).Keys
    ensures forall k | k in Flat(cells) :: Flat(Masked(cells, part))[k] == if k.1 == part then Flat(cells)[k] else 0.0
  {
  }

  lemma MaskedValues(name: string, cells: Cells, reason: string, part: string)
    ensures Values(Labelled(name, cells, reason), OfPartition(part)) == Flat(Masked(cells, part))
  {
    hide Flat, Masked;
    MaskedKeys(cells, part);
  }

  lemma {:induction false} OneCounts(m: map<string, real>, part: string)
    ensures SumMap(map p | p in m :: if p == part then m[p] else 0.0) == At(m, part)
    decreases |m|
  {
    var masked := map p | p in m :: if p == part then m[p] else 0.0;
    if m == map[] {
      assert masked == map[];
    } else {
      var k :| k in m;
      OneCounts(m - {k}, part);
      assert (map p | p in m - {k} :: if p == part then (m - {k})[p] else 0.0) == masked - {k};
      SumMapTake(masked, k);
    }
  }

  lemma {:induction false} MaskedSum(cells: Cells, part: string)
    ensures NestedSum(Masked(cells, part)) == SumMap(Column(cells, part))
    decreases |cells|
  {
    if cells == map[] {
      assert RowSums(Masked(cells, part)) == map[];
      assert Column(cells, part) == map[];
    } else {
      var user :| user in cells;
      var rest := cells - {user};
      MaskedSum(rest, part);
      assert rest[user := cells[user]] == cells;
      ColumnAdded(rest, user, cells[user], part);
      var m := map p | p in cells[user] :: if p == part then cells[user][p] else 0.0;
      assert Masked(cells, part) == Masked(rest, part)[user := m];
      NestedSumAdd(Masked(rest, part), user, m);
      OneCounts(cells[user], part);
    }
  }

  /**
   Dropping the user label loses nothing: the aggregated loop sends exactly one series for each partition
   that has a labelled series, and its value is the sum of those labelled series over the users.
   */
  lemma DroppingUserLosesNothing(name: string, cells: Cells, reason: string, labelled: seq<Series>, part: string)
    requires Sent(labelled, Labelled(name, cells, reason))
    ensures part in Aggregated(name, cells, "") <==> exists user :: (user, part) in Labelled(name, cells, reason)
    ensures part in Aggregated(name, cells, "") ==>
              Aggregated(name, cells, "")[part] == Series(name, [part], SumBy(labelled, OfPartition(part)))
  {
    hide SumMap, SumBy, Sent, NestedSum, Flat, Masked, Labelled, Column;
    SentSum(labelled, Labelled(name, cells, reason), OfPartition(part));
    MaskedValues(name, cells, reason, part);
    FlatSum(Masked(cells, part));
    MaskedSum(cells, part);
    LabelledParts(name, cells, reason, part);
  }

  // ---- Pending series ----

  /** For each reason, the sums over users by partition. */
  ghost function ReasonPartSums(cells: ReasonCells): Cells {
    map reason | reason in cells :: PartSums(cells[reason])
  }

  /** With an empty reason too, the aggregated pending series carry the sum over users of the labelled ones. */
  lemma DroppingUserKeepsReasons(name: string, cells: ReasonCells, reason: string, labelled: seq<Series>, part: string)
    requires reason in cells && Sent(labelled, Labelled(name, cells[reason], reason))
    ensures (reason, part) in AggregatedByReason(name, cells) <==>
              exists user :: (user, part) in Labelled(name, cells[reason], reason)
    ensures (reason, part) in AggregatedByReason(name, cells) ==>
              AggregatedByReason(name, cells)[(reason, part)] ==
                Series(name, [part, reason], SumBy(labelled, OfPartition(part)))
  {
    hide PartSums, Labelled, Sent, SumBy;
    DroppingUserLosesNothing(name, cells[reason], reason, labelled, part);
  }

  lemma PendingRowAdds(rows: seq<Row>, r: Row, measure: Measure)
    requires r.parts != []
    ensures ReasonSum(ReasonCellsOf(rows + [r], measure)) ==
              ReasonSum(ReasonCellsOf(rows, measure)) + FannedOut(measure)(r)
  {
    hide IncrParts, ReasonCellsOf, SumMap, NestedSum, Times, Weight;
    ReasonCellsStep(rows, r, measure);
    var before := ReasonCellsOf(rows, measure);
    var was := if r.reason in before then before[r.reason] else map[];
    var after := IncrParts(was, r.user, r.parts, Weight(measure, r));
    NestedSumParts(was, r.user, r.parts, Weight(measure, r));
    NothingNested<string, string>();
    assert ReasonSums(before[r.reason := after]) == ReasonSums(before)[r.reason := NestedSum(after)];
    SumMapPut(ReasonSums(before), r.reason, NestedSum(after));
  }

  /** Summing all pending cells, too, counts every row once per partition it lists. */
  lemma {:induction false} ReasonSumOfRows(rows: seq<Row>, measure: Measure)
    requires forall r | r in rows :: r.parts != []
    ensures ReasonSum(ReasonCellsOf(rows, measure)) == SumBy(rows, FannedOut(measure))
  {
    if rows == [] {
      assert ReasonSums(map[]) == map[];
    } else {
      hide ReasonSum, ReasonCellsOf, SumBy, FannedOut;
      var front, last := rows[..|rows| - 1], rows[|rows| - 1];
      assert rows == front + [last] && last in rows;
      ReasonSumOfRows(front, measure);
      SumByStep(front, last, FannedOut(measure));
      PendingRowAdds(front, last, measure);
    }
  }

  /** The pending sum over partitions is at least the job total, and equal exactly when no job lists several. */
  lemma PendingSumAgainstTotal(rows: seq<Row>)
    requires forall r | r in rows :: r.parts != []
    ensures ReasonSum(ReasonCellsOf(rows, Jobs)) >= |rows| as real
    ensures ReasonSum(ReasonCellsOf(rows, Jobs)) == |rows| as real <==> forall r | r in rows :: |r.parts| == 1
  {
    ReasonSumOfRows(rows, Jobs);
    FannedOutAgainstTotal(rows);
  }

  /** The cells of each reason, under pairs of user and partition. */
  function FlatByReason(cells: ReasonCells): map<string, map<Key, real>> {
    map reason | reason in cells :: Flat(cells[reason])
  }

  lemma LabelledByReasonValues(name: string, cells: ReasonCells)
    ensures Values(LabelledByReason(name, cells), ValueOf()) == Flat(FlatByReason(cells))
  {
    hide Flat, LabelledByReason;
    FlatMeaning(FlatByReason(cells));
    LabelledByReasonMeaning(name, cells);
  }

  lemma FlatByReasonSums(cells: ReasonCells)
    ensures RowSums(FlatByReason(cells)) == ReasonSums(cells)
  {
    hide SumMap, Flat, NestedSum;
    forall reason | reason in cells
      ensures SumMap(Flat(cells[reason])) == NestedSum(cells[reason])
    {
      FlatSum(cells[reason]);
    }
  }

  /** The labelled pending series of all reasons sum to sumNNVal's value. */
  lemma LabelledByReasonTotal(name: string, cells: ReasonCells, out: seq<Series>)
    requires Sent(out, LabelledByReason(name, cells))
    ensures SumBy(out, ValueOf()) == ReasonSum(cells)
  {
    hide SumMap, SumBy, Sent, Flat, FlatByReason, LabelledByReason;
    SentSum(out, LabelledByReason(name, cells), ValueOf());
    LabelledByReasonValues(name, cells);
    FlatSum(FlatByReason(cells));
    FlatByReasonSums(cells);
  }

  lemma AggregatedMeaning(name: string, cells: ReasonCells)
    ensures forall k: Key :: k in AggregatedByReason(name, cells) <==> k.0 in cells && k.1 in PartSums(cells[k.0])
    ensures forall k: Key | k in AggregatedByReason(name, cells) ::
              AggregatedByReason(name, cells)[k].value == PartSums(cells[k.0])[k.1]
  {
  }

  lemma ByReasonValues(name: string, cells: ReasonCells)
    ensures Values(AggregatedByReason(name, cells), ValueOf()) == Flat(ReasonPartSums(cells))
  {
    hide Flat, PartSums, AggregatedByReason;
    FlatMeaning(ReasonPartSums(cells));
    AggregatedMeaning(name, cells);
  }

  lemma ByReasonSums(cells: ReasonCells)
    ensures RowSums(ReasonPartSums(cells)) == ReasonSums(cells)
  {
    hide SumMap, PartSums, NestedSum;
    forall reason | reason in cells
      ensures SumMap(PartSums(cells[reason])) == NestedSum(cells[reason])
    {
      PartSumsAddUp(cells[reason]);
    }
  }

  /** The pending grand total survives the aggregation: it is sumNNVal's value. */
  lemma AggregatedByReasonTotal(name: string, cells: ReasonCells, out: seq<Series>)
    requires Sent(out, AggregatedByReason(name, cells))
    ensures SumBy(out, ValueOf()) == ReasonSum(cells)
  {
    hide SumMap, SumBy, Sent, Flat, PartSums, AggregatedByReason, ReasonPartSums;
    SentSum(out, AggregatedByReason(name, cells), ValueOf());
    ByReasonValues(name, cells);
    FlatSum(ReasonPartSums(cells));
    ByReasonSums(cells);
  }
}
