/**
 ParseAccountsMetrics and ParseUsersMetrics (internal/collector/accounts.go, internal/collector/users.go).
 The two are the same loop over the same six columns, which differ only in what the second column names, so
 there is one model of both. Their inputs are projections of the shared squeue snapshot.
 */
module JobViews {
  import opened Text
  import opened Numbers
  import opened Parsing
  import opened Permutations
  import opened Sums
  import opened Grouping
  import opened SqueueJobs

  /** tresGPURe and the number it captures, whatever they are: both views apply the same function. */
  type GpuReader = string -> real

  /** What one row contributes to the group it names. */
  datatype Entry = Entry(name: string, state: string, cpus: real, gpus: real)

  function ParseEntry(read: FloatReader, gpus: GpuReader, line: string): Option<Entry> {
    var f := SplitN(line, '|', 6);
    if |f| < 6 then None
    else Some(Entry(TrimSpace(f[1]), ToLower(TrimSpace(f[2])), FloatOrZero(read, TrimSpace(f[4])), gpus(f[5])))
  }

  function EntryParser(read: FloatReader, gpus: GpuReader): string -> Option<Entry> {
    line => ParseEntry(read, gpus, line)
  }

  // ---- Counters ----

  datatype Counts = Counts(pending: real, running: real, cpus: real, gpus: real, suspended: real)

  function Name(): Entry -> string {
    (e: Entry) => e.name
  }

  function PendingOf(): Entry -> real {
    (e: Entry) => if "pending" <= e.state then 1.0 else 0.0
  }

  function RunningOf(): Entry -> real {
    (e: Entry) => if "running" <= e.state then 1.0 else 0.0
  }

  function CpusOf(): Entry -> real {
    (e: Entry) => if "running" <= e.state then e.cpus else 0.0
  }

  function GpusOf(): Entry -> real {
    (e: Entry) => if "running" <= e.state then e.gpus else 0.0
  }

  function SuspendedOf(): Entry -> real {
    (e: Entry) => if "suspended" <= e.state then 1.0 else 0.0
  }

  /** The counters of one group: each the sum over its rows. */
  function CountsOf(entries: seq<Entry>, name: string): Counts {
    var group := Grouped(entries, Name(), name);
    Counts(SumBy(group, PendingOf()), SumBy(group, RunningOf()), SumBy(group, CpusOf()), SumBy(group, GpusOf()),
           SumBy(group, SuspendedOf()))
  }

  function Added(c: Counts, e: Entry): Counts {
    Counts(c.pending + PendingOf()(e), c.running + RunningOf()(e), c.cpus + CpusOf()(e), c.gpus + GpusOf()(e),
           c.suspended + SuspendedOf()(e))
  }

  lemma CountsStep(entries: seq<Entry>, e: Entry, name: string)
    ensures CountsOf(entries + [e], name) ==
            if e.name == name then Added(CountsOf(entries, name), e) else CountsOf(entries, name)
  {
    hide SumBy, Grouped;
    GroupedStep(entries, e, Name(), name);
    var group := Grouped(entries, Name(), name);
    SumByStep(group, e, PendingOf());
    SumByStep(group, e, RunningOf());
    SumByStep(group, e, CpusOf());
    SumByStep(group, e, GpusOf());
    SumByStep(group, e, SuspendedOf());
  }

  lemma NoCounts(entries: seq<Entry>, name: string)
    requires name !in GroupKeys(entries, Name())
    ensures CountsOf(entries, name) == Counts(0.0, 0.0, 0.0, 0.0, 0.0)
  {
    NoGroup(entries, Name(), name);
  }

  lemma PrefixesExclude(state: string)
    ensures "pending" <= state ==> !("running" <= state) && !("suspended" <= state)
    ensures "running" <= state ==> !("suspended" <= state)
  {
    if state != "" {
      assert "pending"[0] != "running"[0] && "running"[0] != "suspended"[0] && "pending"[0] != "suspended"[0];
    }
  }

  /** JobMetrics and UserJobMetrics. */
  class JobMetrics {
    var pending: real
    var running: real
    var runningCpus: real
    var runningGpus: real
    var suspended: real

    constructor ()
      ensures View() == Counts(0.0, 0.0, 0.0, 0.0, 0.0)
    {
      pending, running, runningCpus, runningGpus, suspended := 0.0, 0.0, 0.0, 0.0, 0.0;
    }

    function View(): Counts
      reads this
    {
      Counts(pending, running, runningCpus, runningGpus, suspended)
    }

    /** The switch over the state. */
    method Add(e: Entry)
      modifies this
      ensures View() == Added(old(View()), e)
    {
      PrefixesExclude(e.state);
      if "pending" <= e.state {
        pending := pending + 1.0;
      } else if "running" <= e.state {
        running := running + 1.0;
        runningCpus := runningCpus + e.cpus;
        runningGpus := runningGpus + e.gpus;
      } else if "suspended" <= e.state {
        suspended := suspended + 1.0;
      }
    }
  }

  // ---- The parser ----

  /** One object per group, no object for two, each holding the counters of its group. */
  ghost predicate Holds(table: map<string, JobMetrics>, entries: seq<Entry>)
    reads table.Values
  {
    && (forall a, b | a in table && b in table && a != b :: table[a] != table[b])
    && (forall name :: name in table <==> name in GroupKeys(entries, Name()))
    && (forall name | name in table :: table[name].View() == CountsOf(entries, name))
  }

  /** The body of the loop for a row with all its columns. */
  method AddEntry(table: map<string, JobMetrics>, e: Entry, ghost entries: seq<Entry>)
    returns (after: map<string, JobMetrics>)
    requires Holds(table, entries)
    modifies table.Values
    ensures Holds(after, entries + [e])
    ensures forall o | o in after.Values :: o in table.Values || fresh(o)
  {
    hide CountsOf, Added, GroupKeys;
    after := table;
    GroupKeysStep(entries, e, Name());
    forall name: string
      ensures CountsOf(entries + [e], name) ==
              if e.name == name then Added(CountsOf(entries, name), e) else CountsOf(entries, name)
    {
      CountsStep(entries, e, name);
    }
    if e.name !in after {
      NoCounts(entries, e.name);
      var m := new JobMetrics();
      after := after[e.name := m];
    }
    after[e.name].Add(e);
  }

  lemma NothingParsed(read: FloatReader, gpus: GpuReader, lines: seq<string>)
    ensures Holds(map[], Parsed(EntryParser(read, gpus), lines[..0]))
  {
  }

  lemma NoPipeNoEntry(read: FloatReader, gpus: GpuReader, line: string)
    requires '|' !in line
    ensures ParseEntry(read, gpus, line) == None
  {
  }

  /** ParseAccountsMetrics and ParseUsersMetrics. */
  method ParseJobView(read: FloatReader, gpus: GpuReader, input: string) returns (table: map<string, JobMetrics>)
    ensures Holds(table, Parsed(EntryParser(read, gpus), Split(input, '\n')))
    ensures forall o | o in table.Values :: fresh(o)
  {
    hide ParseEntry, Parsed, Holds;
    table := map[];
    var lines := Split(input, '\n');
    NothingParsed(read, gpus, lines);
    for i := 0 to |lines|
      invariant Holds(table, Parsed(EntryParser(read, gpus), lines[..i]))
      invariant forall o | o in table.Values :: fresh(o)
    {
      ParsedStep(EntryParser(read, gpus), lines, i);
      if '|' !in lines[i] {
        NoPipeNoEntry(read, gpus, lines[i]);
        continue;
      }
      var parsed := ParseEntry(read, gpus, lines[i]);
      if parsed.None? {
        continue;
      }
      table := AddEntry(table, parsed.value, Parsed(EntryParser(read, gpus), lines[..i]));
    }
    assert lines[..|lines|] == lines;
  }

  // ---- The projection changes nothing ----

  /** What an eight-column row says, without the detour through text. */
  function Direct(read: FloatReader, gpus: GpuReader, j: Job, column: Column): Entry {
    Entry(NameOf(j, column), ToLower(j.state), FloatOrZero(read, j.cpus), gpus(j.tres))
  }

  function DirectReader(read: FloatReader, gpus: GpuReader, column: Column): Job -> Entry {
    j => Direct(read, gpus, j, column)
  }

  function DirectEntries(read: FloatReader, gpus: GpuReader, jobs: seq<Job>, column: Column): seq<Entry> {
    Map(jobs, DirectReader(read, gpus, column))
  }

  lemma ProjectedEntry(read: FloatReader, gpus: GpuReader, j: Job, column: Column)
    requires Clean(j)
    ensures ParseEntry(read, gpus, Join(Projected(j, column), "|")) == Some(Direct(read, gpus, j, column))
  {
    hide SplitN, Join;
    ProjectedLineReadsBack(j, column);
    TrimSpaceKeepsTrimmed(NameOf(j, column));
    TrimSpaceKeepsTrimmed(j.state);
    TrimSpaceKeepsTrimmed(j.cpus);
  }

  lemma {:induction false} ProjectedEntries(read: FloatReader, gpus: GpuReader, jobs: seq<Job>, column: Column)
    requires forall j | j in jobs :: Clean(j)
    ensures Parsed(EntryParser(read, gpus), NamedLines(jobs, column)) == DirectEntries(read, gpus, jobs, column)
  {
    if jobs == [] {
    } else {
      hide Clean, ParseEntry, Parsed, Join, Projected, Direct;
      var front, last := jobs[..|jobs| - 1], jobs[|jobs| - 1];
      assert jobs == front + [last] && last in jobs;
      MapAppend(front, last, ProjectedLine(column));
      MapAppend(front, last, DirectReader(read, gpus, column));
      ProjectedEntries(read, gpus, front, column);
      ProjectedEntry(read, gpus, last, column);
      ParsedAppend(EntryParser(read, gpus), NamedLines(front, column), Join(Projected(last, column), "|"));
    }
  }

  lemma NamedLinesLack(jobs: seq<Job>, column: Column)
    requires forall j | j in jobs :: Clean(j)
    ensures Lacks(NamedLines(jobs, column), '\n')
  {
    hide Clean, Join, Projected;
    forall i | 0 <= i < |jobs|
      ensures '\n' !in NamedLines(jobs, column)[i]
    {
      assert jobs[i] in jobs;
      ProjectedLineReadsBack(jobs[i], column);
    }
  }

  lemma TrailingEmptyLine(read: FloatReader, gpus: GpuReader, lines: seq<string>)
    ensures Parsed(EntryParser(read, gpus), lines + [""]) == Parsed(EntryParser(read, gpus), lines)
  {
  }

  /** Parsing the projected text is grouping the eight-column rows: none lost, merged or altered. */
  lemma ProjectionRefines(read: FloatReader, gpus: GpuReader, data: string, column: Column)
    ensures Parsed(EntryParser(read, gpus), Split(Unlines(NamedLines(Jobs(data), column)), '\n'))
         == DirectEntries(read, gpus, Jobs(data), column)
  {
    hide Clean, ParseEntry, Parsed, NamedLines, Split, Unlines;
    SnapshotIsClean(data);
    ProjectedEntries(read, gpus, Jobs(data), column);
    NamedLinesLack(Jobs(data), column);
    var lines := NamedLines(Jobs(data), column);
    SplitUnlines(lines);
    TrailingEmptyLine(read, gpus, lines);
  }

  /** AccountsData then ParseAccountsMetrics, or UsersData then ParseUsersMetrics, on one snapshot. */
  method JobMetricsOf(read: FloatReader, gpus: GpuReader, data: string, column: Column)
    returns (table: map<string, JobMetrics>)
    ensures Holds(table, DirectEntries(read, gpus, Jobs(data), column))
    ensures forall o | o in table.Values :: fresh(o)
  {
    hide Holds, Parsed, DirectEntries;
    var text := ProjectNamedJobView(data, column);
    table := ParseJobView(read, gpus, text);
    ProjectionRefines(read, gpus, data, column);
  }

  // ---- Accounts and users agree ----

  /** The five counters summed over all objects of a table. */
  ghost function FieldTotals(table: map<string, JobMetrics>): Counts
    reads table.Values
  {
    Counts(SumMap(map name | name in table :: table[name].pending),
           SumMap(map name | name in table :: table[name].running),
           SumMap(map name | name in table :: table[name].runningCpus),
           SumMap(map name | name in table :: table[name].runningGpus),
           SumMap(map name | name in table :: table[name].suspended))
  }

  /** The five counters over all rows, whatever the grouping. */
  function RowTotals(entries: seq<Entry>): Counts {
    Counts(SumBy(entries, PendingOf()), SumBy(entries, RunningOf()), SumBy(entries, CpusOf()), SumBy(entries, GpusOf()),
           SumBy(entries, SuspendedOf()))
  }

  /** Grouping loses nothing and counts nothing twice. */
  lemma FieldsAddUp(table: map<string, JobMetrics>, entries: seq<Entry>)
    requires Holds(table, entries)
    ensures FieldTotals(table) == RowTotals(entries)
  {
    hide SumMap, SumBy, Grouped, GroupKeys;
    assert forall name | name in table :: name in GroupKeys(entries, Name());
    assert (map name | name in table :: table[name].pending) == GroupSums(entries, Name(), PendingOf());
    assert (map name | name in table :: table[name].running) == GroupSums(entries, Name(), RunningOf());
    assert (map name | name in table :: table[name].runningCpus) == GroupSums(entries, Name(), CpusOf());
    assert (map name | name in table :: table[name].runningGpus) == GroupSums(entries, Name(), GpusOf());
    assert (map name | name in table :: table[name].suspended) == GroupSums(entries, Name(), SuspendedOf());
    GroupSumsAddUp(entries, Name(), PendingOf());
    GroupSumsAddUp(entries, Name(), RunningOf());
    GroupSumsAddUp(entries, Name(), CpusOf());
    GroupSumsAddUp(entries, Name(), GpusOf());
    GroupSumsAddUp(entries, Name(), SuspendedOf());
  }

  lemma SameTotals(read: FloatReader, gpus: GpuReader, jobs: seq<Job>, value: Entry -> real)
    requires forall a: Entry, b: Entry | a.state == b.state && a.cpus == b.cpus && a.gpus == b.gpus ::
              value(a) == value(b)
    ensures SumBy(DirectEntries(read, gpus, jobs, ByAccount), value) ==
              SumBy(DirectEntries(read, gpus, jobs, ByUser), value)
  {
    SumByPointwise(DirectEntries(read, gpus, jobs, ByAccount), value, DirectEntries(read, gpus, jobs, ByUser), value);
  }

  /**
   The tables that JobMetricsOf returns for one snapshot: each counter, summed over the accounts, is the same
   counter summed over the users.
   */
  lemma AccountsAndUsersAgree(read: FloatReader, gpus: GpuReader, data: string,
                              accounts: map<string, JobMetrics>, users: map<string, JobMetrics>)
    requires Holds(accounts, DirectEntries(read, gpus, Jobs(data), ByAccount))
    requires Holds(users, DirectEntries(read, gpus, Jobs(data), ByUser))
    ensures FieldTotals(accounts) == FieldTotals(users)
  {
    hide Holds, FieldTotals, SumBy, DirectEntries, Jobs;
    FieldsAddUp(accounts, DirectEntries(read, gpus, Jobs(data), ByAccount));
    FieldsAddUp(users, DirectEntries(read, gpus, Jobs(data), ByUser));
    SameTotals(read, gpus, Jobs(data), PendingOf());
    SameTotals(read, gpus, Jobs(data), RunningOf());
    SameTotals(read, gpus, Jobs(data), CpusOf());
    SameTotals(read, gpus, Jobs(data), GpusOf());
    SameTotals(read, gpus, Jobs(data), SuspendedOf());
  }

  /** The counters of a group are its shares of the five totals. */
  lemma CountsAreGroupSums(entries: seq<Entry>, name: string)
    requires name in GroupKeys(entries, Name())
    ensures CountsOf(entries, name) ==
            Counts(GroupSums(entries, Name(), PendingOf())[name], GroupSums(entries, Name(), RunningOf())[name],
                   GroupSums(entries, Name(), CpusOf())[name], GroupSums(entries, Name(), GpusOf())[name],
                   GroupSums(entries, Name(), SuspendedOf())[name])
  {
  }

  // ---- One printed job ----

  lemma OneCount(e: Entry)
    ensures GroupKeys([e], Name()) == {e.name}
    ensures CountsOf([e], e.name) == Counts(PendingOf()(e), RunningOf()(e), CpusOf()(e), GpusOf()(e), SuspendedOf()(e))
  {
    hide PendingOf, RunningOf, CpusOf, GpusOf, SuspendedOf;
    assert [] + [e] == [e];
    GroupKeysStep([], e, Name());
    NoCounts([], e.name);
    CountsStep([], e, e.name);
  }

  /**
   One job printed in eight columns counts in the one object of its account, or of its user: by state, and with
   its CPUs and GPUs only while it runs.
   */
  lemma PrintedJobCounts(read: FloatReader, gpus: GpuReader, j: Job, cpus: nat, column: Column,
                         table: map<string, JobMetrics>)
    requires ReadsNumerals(read) && Clean(j) && j.cpus == Decimal(cpus)
    requires var line := Join([j.id, j.account, j.user, j.partition, j.state, j.nodes, j.cpus, j.tres], "|");
             Holds(table, DirectEntries(read, gpus, Jobs(line), column))
    ensures var name, state := if column == ByAccount then j.account else j.user, ToLower(j.state);
            && table.Keys == {name}
            && var m := table[name];
            && m.pending == (if "pending" <= state then 1.0 else 0.0)
            && m.running == (if "running" <= state then 1.0 else 0.0)
            && m.runningCpus == (if "running" <= state then cpus as real else 0.0)
            && m.runningGpus == (if "running" <= state then gpus(j.tres) else 0.0)
            && m.suspended == (if "suspended" <= state then 1.0 else 0.0)
  {
    hide Clean, Join, ReadsNumerals, Decimal, Jobs, GroupKeys, CountsOf, ToLower;
    JobLineReadsBack(j);
    var e := Direct(read, gpus, j, column);
    assert DirectEntries(read, gpus, [j], column) == [e];
    NumeralReadsBack(read, cpus);
    OneCount(e);
    assert e.name in table;
  }
}
