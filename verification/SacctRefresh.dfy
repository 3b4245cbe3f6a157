/**
 The middle of refresh() in internal/collector/sacct_efficiency.go: from the command output to the metrics
 that it publishes. When it publishes them, and who sees them, is the subject of RefreshProtocol.
 */
module SacctRefresh {
  import opened Text
  import opened Numbers
  import opened Permutations
  import opened Sums
  import opened Exposition
  import opened SacctRecords
  import opened SacctAverages

  // ---- What a refresh publishes ----

  type Key = (string, string)

  /** The averages of a record list, by account and user. */
  function AveragesOf(records: seq<Record>): map<Key, Totals> {
    map r | r in records ::
      (r.job.account, r.job.user) := Divided(SumsOf(Group(records, r.job.account, r.job.user)))
  }

  /** The series of one account and user; the memory series only when some job had a MaxRSS. */
  function SeriesOf(key: Key, t: Totals): seq<Series> {
    var labels := [key.0, key.1];
    [Series("slurm_job_cpu_efficiency_avg", labels, t.cpu),
     Series("slurm_job_count_completed", labels, t.jobs),
     Series("slurm_job_cpu_hours_allocated", labels, t.hours)] +
    if t.memJobs > 0.0 then [Series("slurm_job_mem_efficiency_avg", labels, t.mem)] else []
  }

  function SeriesFor(keys: seq<Key>, averages: map<Key, Totals>): seq<Series>
    requires forall k | k in keys :: k in averages
  {
    if keys == [] then [] else
    SeriesFor(keys[..|keys| - 1], averages) + SeriesOf(keys[|keys| - 1], averages[keys[|keys| - 1]])
  }

  /** The metrics are the series of the averages, key by key in some order. */
  ghost predicate Renders(metrics: seq<Series>, averages: map<Key, Totals>) {
    exists keys: seq<Key> :: Lists(keys, averages) && metrics == SeriesFor(keys, averages)
  }

  lemma SeriesForStep(keys: seq<Key>, key: Key, averages: map<Key, Totals>)
    requires (forall k | k in keys :: k in averages) && key in averages
    ensures SeriesFor(keys + [key], averages) == SeriesFor(keys, averages) + SeriesOf(key, averages[key])
  {
  }

  /** A rendering holds, for every key, the series that key calls for, and nothing else. */
  lemma {:induction false} SeriesForMeaning(keys: seq<Key>, averages: map<Key, Totals>)
    requires forall k | k in keys :: k in averages
    ensures forall m :: m in SeriesFor(keys, averages) <==> exists k | k in keys :: m in SeriesOf(k, averages[k])
  {
    if keys == [] {
    } else {
      var front, last := keys[..|keys| - 1], keys[|keys| - 1];
      assert keys == front + [last];
      SeriesForMeaning(front, averages);
    }
  }

  lemma RendersMeaning(metrics: seq<Series>, averages: map<Key, Totals>)
    requires Renders(metrics, averages)
    ensures forall m :: m in metrics <==> exists k | k in averages :: m in SeriesOf(k, averages[k])
  {
    var keys :| Lists(keys, averages) && metrics == SeriesFor(keys, averages);
    SeriesForMeaning(keys, averages);
  }

  lemma {:induction false} SeriesForConcat(a: seq<Key>, b: seq<Key>, averages: map<Key, Totals>)
    requires forall k | k in a + b :: k in averages
    ensures SeriesFor(a + b, averages) == SeriesFor(a, averages) + SeriesFor(b, averages)
  {
    if b == [] {
      assert a + b == a;
    } else {
      hide SeriesFor, SeriesOf;
      var front, last := b[..|b| - 1], b[|b| - 1];
      assert b == front + [last];
      ConcatAssociative(a, front, [last]);
      SeriesForConcat(a, front, averages);
      SeriesForStep(a + front, last, averages);
      SeriesForStep(front, last, averages);
      ConcatAssociative(SeriesFor(a, averages), SeriesFor(front, averages), SeriesOf(last, averages[last]));
    }
  }

  /** Every aggregate of the table shows these averages. */
  ghost predicate Shows(aggregates: Table, averages: map<Key, Totals>)
    reads Objects(aggregates)
  {
    forall a, u | Has(aggregates, a, u) :: (a, u) in averages && aggregates[a][u].View() == averages[(a, u)]
  }

  function Render(account: string, user: string, agg: Aggregates): (series: seq<Series>)
    reads agg
    ensures series == SeriesOf((account, user), agg.View())
  {
    [Series("slurm_job_cpu_efficiency_avg", [account, user], agg.cpuEfficiencyPct),
     Series("slurm_job_count_completed", [account, user], agg.jobCount),
     Series("slurm_job_cpu_hours_allocated", [account, user], agg.cpuHoursAllocated)] +
    if agg.memJobCount > 0.0 then [Series("slurm_job_mem_efficiency_avg", [account, user], agg.memEfficiencyPct)]
    else []
  }

  /** The inner loop of refresh(): the users of one account, in any order. */
  method RenderAccount(aggregates: Table, account: string, ghost averages: map<Key, Totals>)
    returns (metrics: seq<Series>, ghost keys: seq<Key>)
    requires account in aggregates && Shows(aggregates, averages)
    ensures Distinct(keys)
    ensures forall k :: k in keys <==> k.0 == account && Has(aggregates, k.0, k.1)
    ensures (forall k | k in keys :: k in averages) && metrics == SeriesFor(keys, averages)
  {
    hide SeriesOf;
    metrics, keys := [], [];
    var users := aggregates[account].Keys;
    while users != {}
      invariant users <= aggregates[account].Keys && Distinct(keys)
      invariant forall k :: k in keys <==> k.0 == account && Has(aggregates, k.0, k.1) && k.1 !in users
      invariant metrics == SeriesFor(keys, averages)
      decreases |users|
    {
      var user :| user in users;
      users := users - {user};
      SeriesForStep(keys, (account, user), averages);
      metrics := metrics + Render(account, user, aggregates[account][user]);
      keys := keys + [(account, user)];
    }
  }

  lemma {:induction false} InOwnGroup(records: seq<Record>, r: Record)
    requires r in records
    ensures Group(records, r.job.account, r.job.user) != []
  {
    var front, last := records[..|records| - 1], records[|records| - 1];
    if r != last {
      InOwnGroup(front, r);
    }
  }

  lemma AveragesMatch(records: seq<Record>)
    ensures forall a, u :: (a, u) in AveragesOf(records) <==> Group(records, a, u) != []
    ensures forall a, u | (a, u) in AveragesOf(records) ::
              AveragesOf(records)[(a, u)] == Divided(SumsOf(Group(records, a, u)))
  {
    forall a, u
      ensures (a, u) in AveragesOf(records) <==> Group(records, a, u) != []
    {
      GroupOfKnown(records, a, u);
      if (a, u) in AveragesOf(records) {
        var r :| r in records && r.job.account == a && r.job.user == u;
        InOwnGroup(records, r);
      }
    }
  }

  /** The middle of refresh(): parse, aggregate, and one pass over the nested maps. */
  method ComputeMetrics(read: FloatReader, data: string) returns (metrics: seq<Series>)
    ensures Renders(metrics, AveragesOf(Records(Lines(read, data))))
  {
    hide SeriesOf, SumsOf, Group, Divided, Records, Lines, JobCountsOf, JobCounts, IsAverageOf;
    var records := ParseSacctEfficiency(read, data);
    var aggregates := AggregateSacctEfficiency(records);
    ghost var averages := AveragesOf(records);
    AveragesMatch(records);
    assert Shows(aggregates, averages);
    metrics := [];
    ghost var keys: seq<Key> := [];
    var accounts := aggregates.Keys;
    while accounts != {}
      invariant accounts <= aggregates.Keys && Distinct(keys) && Shows(aggregates, averages)
      invariant forall k :: k in keys <==> Has(aggregates, k.0, k.1) && k.0 !in accounts
      invariant metrics == SeriesFor(keys, averages)
      decreases |accounts|
    {
      var account :| account in accounts;
      accounts := accounts - {account};
      var some, more := RenderAccount(aggregates, account, averages);
      SeriesForConcat(keys, more, averages);
      DistinctConcat(keys, more);
      metrics := metrics + some;
      keys := keys + more;
    }
    assert Lists(keys, averages);
  }

  // ---- What the series say ----

  /** The value that a series of this name has for a group of records. */
  predicate Tells(name: string, value: real, group: seq<Record>) {
    && (name == "slurm_job_cpu_efficiency_avg" ==>
          && value * |WithCpuTime(group)| as real == 100.0 * SumBy(group, CpuRatio())
          && (WithCpuTime(group) == [] ==> value == 0.0))
    && (name == "slurm_job_mem_efficiency_avg" ==>
          && value * |WithMemory(group)| as real == 100.0 * SumBy(group, MemRatio())
          && WithMemory(group) != [])
    && (name == "slurm_job_count_completed" ==> value == |group| as real)
    && (name == "slurm_job_cpu_hours_allocated" ==> value * 3600.0 == SumBy(group, CpuTime()))
  }

  const ALWAYS := {"slurm_job_cpu_efficiency_avg", "slurm_job_count_completed", "slurm_job_cpu_hours_allocated"}
  const WITH_MEMORY := "slurm_job_mem_efficiency_avg"

  lemma SeriesOfMeaning(key: Key, t: Totals, group: seq<Record>, m: Series)
    requires Averages(t, group) && m in SeriesOf(key, t)
    ensures m.labels == [key.0, key.1] && Tells(m.name, m.value, group)
    ensures m.name in ALWAYS || (m.name == WITH_MEMORY && WithMemory(group) != [])
  {
    hide SumBy, WithMemory, WithCpuTime;
  }

  lemma SeriesOfNames(key: Key, t: Totals, group: seq<Record>, name: string)
    requires Averages(t, group)
    ensures name in ALWAYS || (name == WITH_MEMORY && WithMemory(group) != []) <==>
              exists m | m in SeriesOf(key, t) :: m.name == name
  {
    hide SumBy, WithMemory, WithCpuTime;
    var labels := [key.0, key.1];
    var all := SeriesOf(key, t);
    assert all[0].name == "slurm_job_cpu_efficiency_avg" && all[0] in all;
    assert all[1].name == "slurm_job_count_completed" && all[1] in all;
    assert all[2].name == "slurm_job_cpu_hours_allocated" && all[2] in all;
    if WithMemory(group) != [] {
      assert all[3].name == WITH_MEMORY && all[3] in all;
    }
  }

  /** Each published series tells its own quantity of the records of its account and user. */
  lemma MetricsTell(metrics: seq<Series>, records: seq<Record>, m: Series)
    requires Renders(metrics, AveragesOf(records)) && m in metrics
    ensures |m.labels| == 2
    ensures Group(records, m.labels[0], m.labels[1]) != []
    ensures m.name in ALWAYS || m.name == WITH_MEMORY
    ensures Tells(m.name, m.value, Group(records, m.labels[0], m.labels[1]))
  {
    hide SeriesOf, Group, Averages, AveragesOf, Divided, SumsOf, Tells, Renders;
    RendersMeaning(metrics, AveragesOf(records));
    AveragesMatch(records);
    var k :| k in AveragesOf(records) && m in SeriesOf(k, AveragesOf(records)[k]);
    assert (k.0, k.1) == k;
    var group := Group(records, k.0, k.1);
    DividedAverages(group);
    SeriesOfMeaning(k, AveragesOf(records)[k], group, m);
  }

  /** Each account and user with records has the three series, and the memory series when a job has a MaxRSS. */
  lemma MetricsCover(metrics: seq<Series>, records: seq<Record>, account: string, user: string, name: string)
    requires Renders(metrics, AveragesOf(records)) && Group(records, account, user) != []
    ensures name in ALWAYS || (name == WITH_MEMORY && WithMemory(Group(records, account, user)) != []) <==>
              exists m | m in metrics :: m.labels == [account, user] && m.name == name
  {
    hide SeriesOf, Group, Averages, AveragesOf, Divided, SumsOf, Tells, Renders, WithMemory;
    RendersMeaning(metrics, AveragesOf(records));
    AveragesMatch(records);
    var group, averages := Group(records, account, user), AveragesOf(records);
    var t := averages[(account, user)];
    DividedAverages(group);
    SeriesOfNames((account, user), t, group, name);
    if m :| m in SeriesOf((account, user), t) && m.name == name {
      SeriesOfMeaning((account, user), t, group, m);
      assert m in metrics;
    }
    if m :| m in metrics && m.labels == [account, user] && m.name == name {
      var k :| k in averages && m in SeriesOf(k, averages[k]);
      assert (k.0, k.1) == k;
      DividedAverages(Group(records, k.0, k.1));
      SeriesOfMeaning(k, averages[k], Group(records, k.0, k.1), m);
      assert m.labels[0] == k.0 && m.labels[1] == k.1;
      assert k == (account, user);
    }
  }
}
