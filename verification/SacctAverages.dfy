/**
 AggregateSacctEfficiency of internal/collector/sacct_efficiency.go: sums kept in heap objects shared
 through nested maps, then divided in place.
 */
module SacctAverages {
  import opened Numbers
  import opened Sums
  import opened Permutations
  import opened SacctRecords

  // ---- Meaning ----

  predicate InGroup(r: Record, account: string, user: string) {
    r.job.account == account && r.job.user == user
  }

  function Group(records: seq<Record>, account: string, user: string): seq<Record> {
    Filter(records, (r: Record) => InGroup(r, account, user))
  }

  predicate CountsForCpu(r: Record) {
    r.job.cpuTime > 0.0
  }

  /** A job without a recorded MaxRSS is "no data", not "0% efficient". */
  predicate CountsForMemory(r: Record) {
    r.job.reqMem > 0.0 && r.maxRssPresent
  }

  function CpuPercent(r: Record): real
    requires CountsForCpu(r)
  {
    r.job.totalCpu / r.job.cpuTime * 100.0
  }

  function MemPercent(r: Record): real
    requires CountsForMemory(r)
  {
    r.maxRss / r.job.reqMem * 100.0
  }

  function CpuHours(): Record -> real {
    (r: Record) => r.job.cpuTime / 3600.0
  }

  function CpuShare(): Record -> real {
    (r: Record) => if CountsForCpu(r) then CpuPercent(r) else 0.0
  }

  function MemShare(): Record -> real {
    (r: Record) => if CountsForMemory(r) then MemPercent(r) else 0.0
  }

  function CpuOne(): Record -> real {
    (r: Record) => if CountsForCpu(r) then 1.0 else 0.0
  }

  function MemOne(): Record -> real {
    (r: Record) => if CountsForMemory(r) then 1.0 else 0.0
  }

  /** The values of one aggregate. */
  datatype Totals = Totals(jobs: real, cpuJobs: real, memJobs: real, cpu: real, mem: real, hours: real)

  /** The sums of a group, before the division. */
  function SumsOf(group: seq<Record>): Totals {
    Totals(|group| as real, SumBy(group, CpuOne()), SumBy(group, MemOne()),
           SumBy(group, CpuShare()), SumBy(group, MemShare()), SumBy(group, CpuHours()))
  }

  /** The second phase on one aggregate. */
  function Divided(t: Totals): Totals {
    t.(cpu := if t.cpuJobs > 0.0 then t.cpu / t.cpuJobs else t.cpu,
       mem := if t.memJobs > 0.0 then t.mem / t.memJobs else t.mem)
  }

  // ---- The aggregates ----

  lemma SumsStep(group: seq<Record>, r: Record)
    ensures var before, after := SumsOf(group), SumsOf(group + [r]);
            && after.jobs == before.jobs + 1.0
            && after.hours == before.hours + r.job.cpuTime / 3600.0
            && after.cpu == before.cpu + (if CountsForCpu(r) then CpuPercent(r) else 0.0)
            && after.cpuJobs == before.cpuJobs + (if CountsForCpu(r) then 1.0 else 0.0)
            && after.mem == before.mem + (if CountsForMemory(r) then MemPercent(r) else 0.0)
            && after.memJobs == before.memJobs + (if CountsForMemory(r) then 1.0 else 0.0)
  {
  }

  /** SacctEfficiencyAggregates. */
  class Aggregates {
    var jobCount: real
    var cpuJobCount: real
    var memJobCount: real
    var cpuEfficiencyPct: real
    var memEfficiencyPct: real
    var cpuHoursAllocated: real

    constructor ()
      ensures View() == Totals(0.0, 0.0, 0.0, 0.0, 0.0, 0.0)
    {
      jobCount, cpuJobCount, memJobCount := 0.0, 0.0, 0.0;
      cpuEfficiencyPct, memEfficiencyPct, cpuHoursAllocated := 0.0, 0.0, 0.0;
    }

    function View(): Totals
      reads this
    {
      Totals(jobCount, cpuJobCount, memJobCount, cpuEfficiencyPct, memEfficiencyPct, cpuHoursAllocated)
    }

    /** The body of the first loop. */
    method Add(r: Record, ghost group: seq<Record>)
      requires View() == SumsOf(group)
      modifies this
      ensures View() == SumsOf(group + [r])
    {
      SumsStep(group, r);
      jobCount := jobCount + 1.0;
      cpuHoursAllocated := cpuHoursAllocated + r.job.cpuTime / 3600.0;
      if r.job.cpuTime > 0.0 {
        cpuEfficiencyPct := cpuEfficiencyPct + r.job.totalCpu / r.job.cpuTime * 100.0;
        cpuJobCount := cpuJobCount + 1.0;
      }
      if r.job.reqMem > 0.0 && r.maxRssPresent {
        memEfficiencyPct := memEfficiencyPct + r.maxRss / r.job.reqMem * 100.0;
        memJobCount := memJobCount + 1.0;
      }
    }

    /** The body of the second loop. */
    method Divide()
      modifies this
      ensures View() == Divided(old(View()))
    {
      if cpuJobCount > 0.0 {
        cpuEfficiencyPct := cpuEfficiencyPct / cpuJobCount;
      }
      if memJobCount > 0.0 {
        memEfficiencyPct := memEfficiencyPct / memJobCount;
      }
    }
  }

  type Table = map<string, map<string, Aggregates>>

  predicate Has(table: Table, account: string, user: string) {
    account in table && user in table[account]
  }

  function Objects(table: Table): set<Aggregates> {
    set account, user | account in table && user in table[account] :: table[account][user]
  }

  /** Different groups have different objects. */
  ghost predicate Separate(table: Table) {
    forall a, u, b, v | Has(table, a, u) && Has(table, b, v) && table[a][u] == table[b][v] :: a == b && u == v
  }

  /** The table holds the sums of the records so far, divided for the groups in done. */
  ghost predicate Holds(table: Table, records: seq<Record>, done: set<(string, string)>)
    reads Objects(table)
  {
    && Separate(table)
    && (forall a, u :: Has(table, a, u) <==> Group(records, a, u) != [])
    && (forall a, u | Has(table, a, u) ::
          var sums := SumsOf(Group(records, a, u));
          table[a][u].View() == if (a, u) in done then Divided(sums) else sums)
  }

  lemma GroupStep(records: seq<Record>, r: Record)
    ensures forall a, u :: Group(records + [r], a, u) ==
                           if InGroup(r, a, u) then Group(records, a, u) + [r] else Group(records, a, u)
  {
  }

  /** What the loop does for one record before it adds it: its group gets an object if it has none. */
  method Ensure(table: Table, account: string, user: string, ghost records: seq<Record>) returns (after: Table)
    requires Holds(table, records, {})
    ensures Has(after, account, user) && Separate(after)
    ensures forall a, u :: Has(after, a, u) <==> Has(table, a, u) || (a == account && u == user)
    ensures forall a, u | Has(table, a, u) :: after[a][u] == table[a][u]
    ensures !Has(table, account, user) ==> fresh(after[account][user])
    ensures after[account][user].View() == SumsOf(Group(records, account, user))
  {
    after := table;
    if account !in after {
      after := after[account := map[]];
    }
    if user !in after[account] {
      var agg := new Aggregates();
      after := after[account := after[account][user := agg]];
      assert SumsOf([]) == Totals(0.0, 0.0, 0.0, 0.0, 0.0, 0.0);
    }
  }

  /** The body of the first loop: find or make the aggregate of the record's group, and add to it. */
  method AddRecord(table: Table, r: Record, ghost records: seq<Record>) returns (after: Table)
    requires Holds(table, records, {})
    modifies Objects(table)
    ensures Holds(after, records + [r], {})
    ensures forall o | o in Objects(after) :: o in Objects(table) || fresh(o)
  {
    hide SumsOf, Group;
    var account, user := r.job.account, r.job.user;
    after := Ensure(table, account, user, records);
    var agg := after[account][user];
    forall a, u | Has(after, a, u)
      ensures after[a][u] in Objects(table) || after[a][u] == agg
    {
      if Has(table, a, u) {
        assert table[a][u] in Objects(table);
      }
    }
    GroupStep(records, r);
    agg.Add(r, Group(records, account, user));
  }

  lemma NothingSummed(records: seq<Record>)
    ensures Holds(map[], records[..0], {})
  {
  }

  /** The first phase: sums by account and user. */
  method SumUp(records: seq<Record>) returns (result: Table)
    ensures Holds(result, records, {})
    ensures forall o | o in Objects(result) :: fresh(o)
  {
    hide Holds;
    result := map[];
    NothingSummed(records);
    for i := 0 to |records|
      invariant Holds(result, records[..i], {})
      invariant forall o | o in Objects(result) :: fresh(o)
    {
      assert records[..i + 1] == records[..i] + [records[i]];
      result := AddRecord(result, records[i], records[..i]);
    }
    assert records[..|records|] == records;
  }

  function Pairs(table: Table, account: string): set<(string, string)>
    requires account in table
  {
    set user | user in table[account] :: (account, user)
  }

  /** One aggregate is divided; the others, being other objects, are not. */
  method DivideOne(table: Table, account: string, user: string, ghost records: seq<Record>,
                   ghost done: set<(string, string)>)
    requires Has(table, account, user) && Holds(table, records, done) && (account, user) !in done
    modifies table[account][user]
    ensures Holds(table, records, done + {(account, user)})
  {
    hide SumsOf, Group, Divided;
    table[account][user].Divide();
  }

  /** The inner loop of the second phase: each aggregate of one account is divided once. */
  method DivideAccount(table: Table, account: string, ghost records: seq<Record>, ghost done: set<(string, string)>)
    requires account in table && Holds(table, records, done) && Pairs(table, account) !! done
    modifies Objects(table)
    ensures Holds(table, records, done + Pairs(table, account))
  {
    hide Holds;
    ghost var divided := done;
    var users := table[account].Keys;
    while users != {}
      invariant users <= table[account].Keys
      invariant Holds(table, records, divided)
      invariant forall u | u in users :: (account, u) !in divided
      invariant divided == done + (set u | u in table[account].Keys - users :: (account, u))
      decreases |users|
    {
      var user :| user in users;
      users := users - {user};
      assert table[account][user] in Objects(table);
      DivideOne(table, account, user, records, divided);
      divided := divided + {(account, user)};
    }
    assert table[account].Keys - {} == table[account].Keys;
  }

  /** The jobCount fields of a table. */
  function JobCountsOf(table: Table): map<(string, string), real>
    reads Objects(table)
  {
    map account, user | account in table && user in table[account] :: (account, user) := table[account][user].jobCount
  }

  /** The job counts of the groups. */
  function JobCounts(records: seq<Record>): map<(string, string), real> {
    map r | r in records :: (r.job.account, r.job.user) := |Group(records, r.job.account, r.job.user)| as real
  }

  lemma GroupOfKnown(records: seq<Record>, account: string, user: string)
    ensures (account, user) in JobCounts(records) <==> Group(records, account, user) != []
    ensures (account, user) in JobCounts(records) ==>
              JobCounts(records)[(account, user)] == |Group(records, account, user)| as real
  {
    FilterMeaning(records, (r: Record) => InGroup(r, account, user));
    if Group(records, account, user) != [] {
      var r := Group(records, account, user)[0];
      assert r in Group(records, account, user);
      assert (r.job.account, r.job.user) in JobCounts(records);
    }
  }

  lemma FieldsAreJobCounts(table: Table, records: seq<Record>)
    requires forall a, u :: Has(table, a, u) <==> Group(records, a, u) != []
    requires forall a, u | Has(table, a, u) :: table[a][u].View() == Divided(SumsOf(Group(records, a, u)))
    ensures JobCountsOf(table) == JobCounts(records)
  {
    hide Group, JobCounts;
    forall k: (string, string)
      ensures k in JobCountsOf(table) <==> k in JobCounts(records)
      ensures k in JobCounts(records) ==> JobCountsOf(table)[k] == JobCounts(records)[k]
    {
      GroupOfKnown(records, k.0, k.1);
      assert Has(table, k.0, k.1) <==> k in JobCountsOf(table);
    }
  }

  lemma JobCountsStep(front: seq<Record>, last: Record)
    ensures var key := (last.job.account, last.job.user);
            JobCounts(front + [last]) ==
            JobCounts(front)[key := (if key in JobCounts(front) then JobCounts(front)[key] else 0.0) + 1.0]
  {
    hide Group, JobCounts;
    var key := (last.job.account, last.job.user);
    var before, after := JobCounts(front), JobCounts(front + [last]);
    GroupStep(front, last);
    forall k: (string, string)
      ensures k in after <==> k == key || k in before
      ensures k in after ==> after[k] == if k != key then before[k] else (if k in before then before[k] else 0.0) + 1.0
    {
      GroupOfKnown(front, k.0, k.1);
      GroupOfKnown(front + [last], k.0, k.1);
      assert InGroup(last, k.0, k.1) <==> k == key;
    }
  }

  /** The job counts of all groups add up to the number of records. */
  lemma {:induction false} JobCountsAddUp(records: seq<Record>)
    ensures SumMap(JobCounts(records)) == |records| as real
  {
    if records == [] {
      assert JobCounts(records) == map[];
    } else {
      hide JobCounts;
      var front, last := records[..|records| - 1], records[|records| - 1];
      var key, counts := (last.job.account, last.job.user), JobCounts(front);
      JobCountsAddUp(front);
      assert records == front + [last];
      JobCountsStep(front, last);
      SumMapPut(counts, key, (if key in counts then counts[key] else 0.0) + 1.0);
    }
  }

  // ---- The averages in the records' own fields ----

  /** Used over available CPU time; jobs without CPU time have none. */
  function CpuRatio(): Record -> real {
    (r: Record) => if r.job.cpuTime > 0.0 then r.job.totalCpu / r.job.cpuTime else 0.0
  }

  /** Peak over requested memory; jobs without a request or without a MaxRSS have none. */
  function MemRatio(): Record -> real {
    (r: Record) => if r.job.reqMem > 0.0 && r.maxRssPresent then r.maxRss / r.job.reqMem else 0.0
  }

  function CpuTime(): Record -> real {
    (r: Record) => r.job.cpuTime
  }

  function WithCpuTime(group: seq<Record>): seq<Record> {
    Filter(group, (r: Record) => r.job.cpuTime > 0.0)
  }

  function WithMemory(group: seq<Record>): seq<Record> {
    Filter(group, (r: Record) => r.job.reqMem > 0.0 && r.maxRssPresent)
  }

  /** Percentages averaged over the jobs that have the ratio, and CPU time in hours. */
  predicate Averages(t: Totals, group: seq<Record>) {
    && t.jobs == |group| as real
    && t.cpuJobs == |WithCpuTime(group)| as real
    && t.memJobs == |WithMemory(group)| as real
    && t.cpu * t.cpuJobs == 100.0 * SumBy(group, CpuRatio())
    && (WithCpuTime(group) == [] ==> t.cpu == 0.0)
    && t.mem * t.memJobs == 100.0 * SumBy(group, MemRatio())
    && (WithMemory(group) == [] ==> t.mem == 0.0)
    && t.hours * 3600.0 == SumBy(group, CpuTime())
  }

  lemma AverageTimesCount(sum: real, count: nat)
    requires count == 0 ==> sum == 0.0
    ensures var average := if count as real > 0.0 then sum / count as real else sum; average * count as real == sum
  {
  }

  lemma NoneSumsToZero(sum: real, none: seq<Record>, value: Record -> real)
    requires sum == SumBy(none, value)
    ensures |none| == 0 ==> sum == 0.0
  {
  }

  lemma DividedAverages(group: seq<Record>)
    ensures Averages(Divided(SumsOf(group)), group)
  {
    hide SumBy, Filter;
    SumByScaled(group, CpuRatio(), CpuShare(), 100.0);
    SumByScaled(group, MemRatio(), MemShare(), 100.0);
    SumByScaled(group, CpuHours(), CpuTime(), 3600.0);
    SumOverKept(group, (r: Record) => r.job.cpuTime > 0.0, CpuShare(), CpuOne());
    SumOverKept(group, (r: Record) => r.job.reqMem > 0.0 && r.maxRssPresent, MemShare(), MemOne());
    var cpu, mem := SumBy(group, CpuShare()), SumBy(group, MemShare());
    NoneSumsToZero(cpu, WithCpuTime(group), CpuShare());
    NoneSumsToZero(mem, WithMemory(group), MemShare());
    AverageTimesCount(cpu, |WithCpuTime(group)|);
    AverageTimesCount(mem, |WithMemory(group)|);
  }

  /** The fields of an aggregate are the averages of a group. */
  predicate IsAverageOf(agg: Aggregates, group: seq<Record>)
    reads agg
  {
    && agg.jobCount == |group| as real
    && agg.cpuJobCount == |WithCpuTime(group)| as real
    && agg.memJobCount == |WithMemory(group)| as real
    && agg.cpuEfficiencyPct * agg.cpuJobCount == 100.0 * SumBy(group, CpuRatio())
    && (WithCpuTime(group) == [] ==> agg.cpuEfficiencyPct == 0.0)
    && agg.memEfficiencyPct * agg.memJobCount == 100.0 * SumBy(group, MemRatio())
    && (WithMemory(group) == [] ==> agg.memEfficiencyPct == 0.0)
    && agg.cpuHoursAllocated * 3600.0 == SumBy(group, CpuTime())
  }

  lemma FieldsAreAverages(agg: Aggregates, group: seq<Record>)
    requires agg.View() == Divided(SumsOf(group))
    ensures IsAverageOf(agg, group)
  {
    hide SumsOf, Divided, SumBy, Filter;
    DividedAverages(group);
  }

  /** AggregateSacctEfficiency: every aggregate is divided exactly once, in whatever order the maps are walked. */
  method AggregateSacctEfficiency(records: seq<Record>) returns (result: Table)
    ensures Separate(result)
    ensures forall a, u :: Has(result, a, u) <==> Group(records, a, u) != []
    ensures forall a, u | Has(result, a, u) ::
              result[a][u].View() == Divided(SumsOf(Group(records, a, u))) && fresh(result[a][u])
    ensures forall a, u | Has(result, a, u) :: IsAverageOf(result[a][u], Group(records, a, u))
    ensures JobCountsOf(result) == JobCounts(records)
    ensures SumMap(JobCountsOf(result)) == |records| as real
  {
    hide SumsOf, Group, Divided, JobCountsOf, JobCounts, IsAverageOf;
    result := SumUp(records);
    ghost var done: set<(string, string)> := {};
    var accounts := result.Keys;
    while accounts != {}
      invariant accounts <= result.Keys
      invariant forall o | o in Objects(result) :: fresh(o)
      invariant Holds(result, records, done)
      invariant forall a, u | Has(result, a, u) :: (a, u) in done <==> a !in accounts
      decreases |accounts|
    {
      var account :| account in accounts;
      accounts := accounts - {account};
      DivideAccount(result, account, records, done);
      done := done + Pairs(result, account);
    }
    forall a, u | Has(result, a, u)
      ensures fresh(result[a][u]) && IsAverageOf(result[a][u], Group(records, a, u))
    {
      assert result[a][u] in Objects(result);
      FieldsAreAverages(result[a][u], Group(records, a, u));
    }
    FieldsAreJobCounts(result, records);
    JobCountsAddUp(records);
  }

  // ---- What the averages mean ----

  /** The records of a group whose CPU, or memory, ratio is averaged. */
  function CpuGroup(group: seq<Record>): seq<Record> {
    Filter(group, CountsForCpu)
  }

  function MemGroup(group: seq<Record>): seq<Record> {
    Filter(group, CountsForMemory)
  }

  /** A sum of values between low and high lies between their multiples. */
  lemma {:induction false} SumBetween<T>(items: seq<T>, value: T -> real, low: real, high: real)
    requires forall i | 0 <= i < |items| :: low <= value(items[i]) <= high
    ensures low * |items| as real <= SumBy(items, value) <= high * |items| as real
  {
    if items == [] {
    } else {
      var n := |items| - 1;
      SumBetween(items[..n], value, low, high);
      assert low * (n + 1) as real == low * n as real + low;
      assert high * (n + 1) as real == high * n as real + high;
    }
  }

  lemma AverageBetween(sum: real, count: real, low: real, high: real)
    requires count > 0.0 && low * count <= sum <= high * count
    ensures low <= sum / count <= high
    ensures sum / count * count == sum
  {
  }

  lemma AverageOf<T>(items: seq<T>, value: T -> real, low: real, high: real)
    ensures items == [] ==> SumBy(items, value) == 0.0
    ensures items != [] ==> SumBy(items, value) / |items| as real * |items| as real == SumBy(items, value)
    ensures items != [] && (forall x | x in items :: low <= value(x) <= high) ==>
              low <= SumBy(items, value) / |items| as real <= high
  {
    if items != [] {
      var sum, count := SumBy(items, value), |items| as real;
      assert sum / count * count == sum;
      if forall x | x in items :: low <= value(x) <= high {
        SumBetween(items, value, low, high);
        AverageBetween(sum, count, low, high);
      }
    }
  }

  /**
   The CPU average times its own job count is the sum of the ratios it averages, and lies between any
   bounds of those ratios; an average over no job stays 0.
   */
  lemma CpuAverageIsAverage(group: seq<Record>, low: real, high: real)
    ensures var t := Divided(SumsOf(group));
            && t.cpuJobs == |CpuGroup(group)| as real
            && t.cpu * t.cpuJobs == SumBy(CpuGroup(group), CpuShare())
            && (CpuGroup(group) == [] ==> t.cpu == 0.0)
    ensures CpuGroup(group) != [] &&
            (forall r | r in CpuGroup(group) :: CountsForCpu(r) && low <= CpuPercent(r) <= high) ==>
              low <= Divided(SumsOf(group)).cpu <= high
  {
    hide SumBy, Filter, CpuPercent;
    SumOverKept(group, CountsForCpu, CpuShare(), CpuOne());
    AverageOf(CpuGroup(group), CpuShare(), low, high);
  }

  /** The same for the memory average, over the jobs that have a MaxRSS. */
  lemma MemAverageIsAverage(group: seq<Record>, low: real, high: real)
    ensures var t := Divided(SumsOf(group));
            && t.memJobs == |MemGroup(group)| as real
            && t.mem * t.memJobs == SumBy(MemGroup(group), MemShare())
            && (MemGroup(group) == [] ==> t.mem == 0.0)
    ensures MemGroup(group) != [] &&
            (forall r | r in MemGroup(group) :: CountsForMemory(r) && low <= MemPercent(r) <= high) ==>
              low <= Divided(SumsOf(group)).mem <= high
  {
    hide SumBy, Filter, MemPercent;
    SumOverKept(group, CountsForMemory, MemShare(), MemOne());
    AverageOf(MemGroup(group), MemShare(), low, high);
  }

  /** A job with no MaxRSS never moves the memory average. */
  lemma NoMaxRssNoEffect(group: seq<Record>, r: Record)
    requires !r.maxRssPresent
    ensures Divided(SumsOf(group + [r])).mem == Divided(SumsOf(group)).mem
    ensures Divided(SumsOf(group + [r])).memJobs == Divided(SumsOf(group)).memJobs
  {
  }

  /** The aggregates do not depend on the order of the records. */
  lemma AggregatesIgnoreOrder(a: seq<Record>, b: seq<Record>, account: string, user: string)
    requires multiset(a) == multiset(b)
    ensures Divided(SumsOf(Group(a, account, user))) == Divided(SumsOf(Group(b, account, user)))
    ensures Group(a, account, user) == [] <==> Group(b, account, user) == []
  {
    var p, q := Group(a, account, user), Group(b, account, user);
    FilterPermutation(a, b, (r: Record) => InGroup(r, account, user));
    assert multiset(p) == multiset(q);
    assert |p| == |multiset(p)| == |multiset(q)| == |q|;
    SumByPermutation(p, q, CpuOne());
    SumByPermutation(p, q, MemOne());
    SumByPermutation(p, q, CpuShare());
    SumByPermutation(p, q, MemShare());
    SumByPermutation(p, q, CpuHours());
  }
}
