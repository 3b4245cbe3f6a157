/**
 The job counts of the partition table of internal/collector/partitions.go, summed over its partitions, against
 the number of jobs.
 */
module PartitionTotals {
  import opened Text
  import opened Numbers
  import opened Parsing
  import opened Sums
  import opened Permutations
  import opened PartitionNames
  import opened SqueueJobs
  import opened Partitions
  import Gres
  import GpuSnapshot

  function StateOf(queue: Queue): string {
    match queue
    case Pending => "PENDING"
    case Running => "RUNNING"
  }

  function JobCount(c: Counters, queue: Queue): real {
    match queue
    case Pending => c.jobPending
    case Running => c.jobRunning
  }

  function JobCounts(view: map<string, Counters>, queue: Queue): map<string, real> {
    map p | p in view :: JobCount(view[p], queue)
  }

  /** How many jobs are in this state. */
  function JobsIn(jobs: seq<Job>, state: string): nat {
    |Filter(jobs, StateIs(state))|
  }

  function Known(known: set<string>): string -> bool {
    (name: string) => name in known
  }

  /** How many known names the jobs in this state list, all together. */
  function KnownListings(jobs: seq<Job>, state: string, known: set<string>): nat {
    |Filter(Listed(jobs, state), Known(known))|
  }

  /** What the last newline of a projection adds. */
  function FinalEmpty(known: set<string>): nat {
    if "" in known then 1 else 0
  }

  // ---- The sum is the number of listings ----

  function WithListings(base: map<string, real>, names: seq<string>): map<string, real> {
    map p | p in base :: base[p] + Multiplicity(names, p) as real
  }

  lemma NothingListed(base: map<string, real>)
    ensures WithListings(base, []) == base
  {
  }

  lemma WithListingsKeys(base: map<string, real>, names: seq<string>)
    ensures WithListings(base, names).Keys == base.Keys
  {
  }

  lemma ListingsStep(base: map<string, real>, names: seq<string>, name: string)
    ensures var before := WithListings(base, names);
            WithListings(base, names + [name]) == if name in base then before[name := before[name] + 1.0] else before
  {
  }

  lemma {:induction false} ListingsAdd(base: map<string, real>, names: seq<string>)
    ensures SumMap(WithListings(base, names)) == SumMap(base) + |Filter(names, Known(base.Keys))| as real
  {
    hide SumMap, Multiplicity;
    if names == [] {
      NothingListed(base);
    } else {
      hide Filter, WithListings;
      var front, last := names[..|names| - 1], names[|names| - 1];
      assert names == front + [last];
      ListingsAdd(base, front);
      ListingsStep(base, front, last);
      FilterAppend(front, last, Known(base.Keys));
      var before := WithListings(base, front);
      if last in base {
        WithListingsKeys(base, front);
        SumMapPut(before, last, before[last] + 1.0);
      }
    }
  }

  lemma ListedAndEmptyKnown(jobs: seq<Job>, state: string, known: set<string>)
    ensures |Filter(ListedAndEmpty(jobs, state), Known(known))| == KnownListings(jobs, state, known) + FinalEmpty(known)
  {
    hide Listed, Filter;
    FilterAppend(Listed(jobs, state), "", Known(known));
  }

  /** What parsePartitionJobs adds to the counts of all partitions together is the number of known listings. */
  lemma CountsAreListings(before: map<string, Counters>, after: map<string, Counters>, jobs: seq<Job>, queue: Queue)
    requires JobsCounted(before, after, jobs)
    ensures SumMap(JobCounts(after, queue)) == SumMap(JobCounts(before, queue)) +
              (KnownListings(jobs, StateOf(queue), after.Keys) + FinalEmpty(after.Keys)) as real
  {
    hide SumMap, Filter, ListedAndEmpty, Multiplicity, KnownListings;
    var names := ListedAndEmpty(jobs, StateOf(queue));
    assert JobCounts(after, queue) == WithListings(JobCounts(before, queue), names);
    ListingsAdd(JobCounts(before, queue), names);
    assert JobCounts(before, queue).Keys == after.Keys;
    ListedAndEmptyKnown(jobs, StateOf(queue), after.Keys);
  }

  lemma {:induction false} AllZero(m: map<string, real>)
    requires forall k | k in m :: m[k] == 0.0
    ensures SumMap(m) == 0.0
    decreases |m|
  {
    if m == map[] {
    } else {
      var k :| k in m;
      SumMapTake(m, k);
      AllZero(m - {k});
    }
  }

  // ---- The table of a scrape ----

  /** The partitions of the table that ParsePartitionsMetrics returns. */
  function CreatedBy(cpus: seq<string>, gpus: seq<string>): set<string> {
    CpuNames(cpus) + GpuNames(gpus)
  }

  /** The sum of its job counts. */
  ghost function JobSum(read: FloatReader, cpus: seq<string>, gpus: seq<string>, jobs: seq<Job>, queue: Queue): real {
    SumMap(JobCounts(TableOf(read, cpus, gpus, jobs), queue))
  }

  lemma TableSum(read: FloatReader, cpus: seq<string>, gpus: seq<string>, jobs: seq<Job>, queue: Queue)
    ensures var known := CreatedBy(cpus, gpus);
            JobSum(read, cpus, gpus, jobs, queue) ==
            (KnownListings(jobs, StateOf(queue), known) + FinalEmpty(known)) as real
  {
    hide SumMap, Filter, ListedAndEmpty, Multiplicity, KnownListings, CpuNames, GpuNames;
    var known, names := CreatedBy(cpus, gpus), ListedAndEmpty(jobs, StateOf(queue));
    var zeros := map p | p in known :: 0.0;
    assert JobCounts(TableOf(read, cpus, gpus, jobs), queue) == WithListings(zeros, names);
    AllZero(zeros);
    ListingsAdd(zeros, names);
    assert zeros.Keys == known;
    ListedAndEmptyKnown(jobs, StateOf(queue), known);
  }

  /**
   So the counts exceed the number of jobs in the state exactly when those jobs list more known names than there
   are jobs, the empty name counting as one more listing when it is known.
   */
  lemma CountsExceedIff(read: FloatReader, cpus: seq<string>, gpus: seq<string>, jobs: seq<Job>, queue: Queue)
    ensures var known := CreatedBy(cpus, gpus);
            JobSum(read, cpus, gpus, jobs, queue) > JobsIn(jobs, StateOf(queue)) as real <==>
            KnownListings(jobs, StateOf(queue), known) + FinalEmpty(known) > JobsIn(jobs, StateOf(queue))
  {
    hide JobSum, KnownListings, JobsIn;
    TableSum(read, cpus, gpus, jobs, queue);
  }

  // ---- Jobs that list one partition ----

  /** Each job in this state, as a running one, lists one partition. */
  predicate SinglyListed(jobs: seq<Job>, state: string) {
    forall j | j in jobs && j.state == state :: |Names(j.partition)| == 1
  }

  lemma {:induction false} SingleNames(lines: seq<string>)
    requires forall i | 0 <= i < |lines| :: |Names(lines[i])| == 1
    ensures |NamesOn(lines)| == |lines|
    ensures forall i | 0 <= i < |lines| :: NamesOn(lines)[i] == Names(lines[i])[0]
  {
    hide Names;
    if lines == [] {
    } else {
      SingleNames(lines[..|lines| - 1]);
    }
  }

  lemma SingleListings(jobs: seq<Job>, state: string, known: set<string>)
    requires SinglyListed(jobs, state)
    ensures KnownListings(jobs, state, known) <= JobsIn(jobs, state)
    ensures KnownListings(jobs, state, known) == JobsIn(jobs, state) <==>
            forall j | j in jobs && j.state == state :: Names(j.partition)[0] in known
  {
    hide Names, Filter, NamesOn;
    var some, lines, names := Filter(jobs, StateIs(state)), PartitionLines(jobs, state), Listed(jobs, state);
    FilterMeaning(jobs, StateIs(state));
    assert forall i | 0 <= i < |some| :: some[i] in some && lines[i] == some[i].partition;
    SingleNames(lines);
    FilterLength(names, Known(known));
    assert forall i | 0 <= i < |some| :: names[i] in names && names[i] == Names(some[i].partition)[0];
  }

  /**
   Jobs that list one partition each make the counts exceed their number exactly when the table has the empty
   name and knows the partition of every one of them, and then by one.
   */
  lemma SinglyListedExceedIff(read: FloatReader, cpus: seq<string>, gpus: seq<string>, jobs: seq<Job>, queue: Queue)
    requires SinglyListed(jobs, StateOf(queue))
    ensures JobSum(read, cpus, gpus, jobs, queue) <=
              (JobsIn(jobs, StateOf(queue)) + FinalEmpty(CreatedBy(cpus, gpus))) as real
    ensures JobSum(read, cpus, gpus, jobs, queue) > JobsIn(jobs, StateOf(queue)) as real <==>
              && "" in CreatedBy(cpus, gpus)
              && forall j | j in jobs && j.state == StateOf(queue) :: Names(j.partition)[0] in CreatedBy(cpus, gpus)
  {
    hide JobSum, KnownListings, JobsIn, CreatedBy, Names, StateOf;
    TableSum(read, cpus, gpus, jobs, queue);
    SingleListings(jobs, StateOf(queue), CreatedBy(cpus, gpus));
  }

  predicate OnlyMarkers(name: string) {
    forall i | 0 <= i < |name| :: name[i] == '*'
  }

  lemma {:induction false} OnlyMarkersTrim(name: string)
    ensures TrimRight(name, "*") == "" <==> OnlyMarkers(name)
  {
    if name != "" && name[|name| - 1] == '*' {
      var front := name[..|name| - 1];
      OnlyMarkersTrim(front);
      assert OnlyMarkers(front) ==> OnlyMarkers(name);
    }
  }

  predicate UnnamedCpus(line: string) {
    CpuLine(line) && OnlyMarkers(Split(line, ',')[0])
  }

  predicate UnnamedGpus(line: string) {
    Contains(line, "gpu:") && |Fields(line)| >= 4 && OnlyMarkers(Fields(line)[1])
  }

  lemma {:induction false} UnnamedCpusCreate(lines: seq<string>)
    ensures "" in CpuNames(lines) <==> exists i | 0 <= i < |lines| :: UnnamedCpus(lines[i])
  {
    if lines == [] {
    } else {
      hide OnlyMarkers, Split, TrimRight;
      var front, last := lines[..|lines| - 1], lines[|lines| - 1];
      UnnamedCpusCreate(front);
      if CpuLine(last) {
        OnlyMarkersTrim(Split(last, ',')[0]);
      }
      assert UnnamedCpus(last) <==> CpuLine(last) && CpuPartition(last) == "";
      hide UnnamedCpus, CpuLine, CpuPartition;
      assert forall i | 0 <= i < |front| :: front[i] == lines[i];
    }
  }

  lemma {:induction false} UnnamedGpusCreate(lines: seq<string>)
    ensures "" in GpuNames(lines) <==> exists i | 0 <= i < |lines| :: UnnamedGpus(lines[i])
  {
    if lines == [] {
    } else {
      hide OnlyMarkers, Fields, TrimRight, Contains;
      var front, last := lines[..|lines| - 1], lines[|lines| - 1];
      UnnamedGpusCreate(front);
      if |Fields(last)| >= 4 {
        OnlyMarkersTrim(Fields(last)[1]);
      }
      hide UnnamedGpus;
      assert forall i | 0 <= i < |front| :: front[i] == lines[i];
    }
  }

  /** The table has the empty name exactly when a line of sinfo gives nothing, or only markers, as the name. */
  lemma EmptyNameIff(cpus: seq<string>, gpus: seq<string>)
    ensures "" in CreatedBy(cpus, gpus) <==>
              || (exists i | 0 <= i < |cpus| :: UnnamedCpus(cpus[i]))
              || (exists i | 0 <= i < |gpus| :: UnnamedGpus(gpus[i]))
  {
    UnnamedCpusCreate(cpus);
    UnnamedGpusCreate(gpus);
  }

  // ---- Jobs that list some known partition ----

  predicate ListsKnown(line: string, known: set<string>) {
    exists p | p in known :: p in Names(line)
  }

  lemma {:induction false} SomeKnownOnEach(lines: seq<string>, known: set<string>)
    requires forall i | 0 <= i < |lines| :: ListsKnown(lines[i], known)
    ensures |Filter(NamesOn(lines), Known(known))| >= |lines|
  {
    hide Names;
    if lines == [] {
    } else {
      hide Filter;
      var front, last := lines[..|lines| - 1], lines[|lines| - 1];
      SomeKnownOnEach(front, known);
      FilterConcat(NamesOn(front), Names(last), Known(known));
      FilterMeaning(Names(last), Known(known));
      var p :| p in known && p in Names(last);
      assert p in Filter(Names(last), Known(known));
    }
  }

  /** Jobs that each list some known partition are all counted. */
  lemma CountsCoverJobs(read: FloatReader, cpus: seq<string>, gpus: seq<string>, jobs: seq<Job>, queue: Queue)
    requires forall j | j in jobs && j.state == StateOf(queue) :: ListsKnown(j.partition, CreatedBy(cpus, gpus))
    ensures JobSum(read, cpus, gpus, jobs, queue) >= JobsIn(jobs, StateOf(queue)) as real
  {
    hide JobSum, CreatedBy, ListsKnown, StateOf, Filter, NamesOn;
    var known, some, lines :=
        CreatedBy(cpus, gpus), Filter(jobs, StateIs(StateOf(queue))), PartitionLines(jobs, StateOf(queue));
    FilterMeaning(jobs, StateIs(StateOf(queue)));
    forall i | 0 <= i < |lines|
      ensures ListsKnown(lines[i], known)
    {
      assert some[i] in some && lines[i] == some[i].partition;
    }
    SomeKnownOnEach(lines, known);
    TableSum(read, cpus, gpus, jobs, queue);
  }

  // ---- Two inputs at which the counts exceed the jobs ----

  lemma OneJobListed(j: Job)
    ensures Listed([j], j.state) == Names(j.partition)
  {
    hide Names;
    FilterAppend([], j, StateIs(j.state));
    assert PartitionLines([j], j.state) == [j.partition];
    NamesOnAppend([], j.partition);
  }

  /** One running job that lists its partition twice counts as two. */
  lemma ListedTwiceExceeds(read: FloatReader, cpus: seq<string>, gpus: seq<string>, j: Job, p: string)
    requires PlainName(p) && CreatedBy(cpus, gpus) == {p}
    requires j.state == "RUNNING" && j.partition == Join([p, p], ",")
    ensures JobSum(read, cpus, gpus, [j], Running) == 2.0 && JobsIn([j], "RUNNING") == 1
  {
    hide JobSum, Names, CreatedBy;
    TwiceReadsBack(p);
    FilterAppend([], j, StateIs("RUNNING"));
    OneJobListed(j);
    FilterLength([p, p], Known({p}));
    TableSum(read, cpus, gpus, [j], Running);
  }

  lemma NoJobs()
    ensures Jobs("") == []
  {
    SplitWhole("", '\n');
    NoPipeNoJob("");
    ParsedAppend(JobOf, [], "");
  }

  /** A partition without a name has one running job before there is any job. */
  lemma EmptyNameExceeds(read: FloatReader, states: string)
    requires '\n' !in states
    ensures JobSum(read, Split("," + states, '\n'), Split("", '\n'), Jobs(""), Running) == 1.0
    ensures JobsIn(Jobs(""), "RUNNING") == 0
  {
    hide JobSum, Split, CreatedBy, Jobs;
    NoJobs();
    var cpus := Split("," + states, '\n');
    SplitWhole("," + states, '\n');
    SplitCons("", ',', states);
    assert "" + [','] + states == "," + states;
    assert UnnamedCpus(cpus[0]);
    EmptyNameIff(cpus, Split("", '\n'));
    TableSum(read, cpus, Split("", '\n'), [], Running);
  }

  // ---- One printed partition ----

  /** A CPU line as sinfo prints it. */
  function CpuLineText(part: string, marked: bool, cpus: (nat, nat, nat, nat)): string {
    Marked(part, marked) + "," +
    Join([Decimal(cpus.0), Decimal(cpus.1), Decimal(cpus.2), Decimal(cpus.3)], "/")
  }

  /** A GPU line as sinfo prints it. */
  function GpuLineText(nodes: nat, part: string, marked: bool, gres: string, used: string): string {
    Join([Decimal(nodes), Marked(part, marked), gres, used], " ")
  }

  lemma FourNumbers(a: nat, b: nat, c: nat, d: nat)
    ensures var text := Join([Decimal(a), Decimal(b), Decimal(c), Decimal(d)], "/");
            Split(text, '/') == [Decimal(a), Decimal(b), Decimal(c), Decimal(d)] && ',' !in text
  {
    hide Decimal, Split, Join;
    DecimalReadsBack(a);
    DecimalReadsBack(b);
    DecimalReadsBack(c);
    DecimalReadsBack(d);
    SplitJoin([Decimal(a), Decimal(b), Decimal(c), Decimal(d)], '/');
    JoinChars([Decimal(a), Decimal(b), Decimal(c), Decimal(d)], "/", ',');
  }

  /** The numbers are allocated, idle, other and total CPUs, in this order. */
  lemma CpuLineReadsBack(read: FloatReader, part: string, marked: bool, cpus: (nat, nat, nat, nat), c: Counters)
    requires ReadsNumerals(read) && PlainName(part)
    ensures var line := CpuLineText(part, marked, cpus);
            && CpuNames([line]) == {part}
            && CpusRead(read, [line], part, c) ==
               c.(cpuAllocated := cpus.0 as real, cpuIdle := cpus.1 as real, cpuOther := cpus.2 as real,
                  cpuTotal := cpus.3 as real)
  {
    hide Decimal, Split, Join, TrimRight, Marked, FloatOrZero, ReadsNumerals, PlainName;
    var states := Join([Decimal(cpus.0), Decimal(cpus.1), Decimal(cpus.2), Decimal(cpus.3)], "/");
    var line := CpuLineText(part, marked, cpus);
    MarkerIsCut(part, marked);
    FourNumbers(cpus.0, cpus.1, cpus.2, cpus.3);
    SplitCons(Marked(part, marked), ',', states);
    SplitWhole(states, ',');
    assert Marked(part, marked) + [','] + states == line;
    assert ',' == line[|Marked(part, marked)|];
    NumeralReadsBack(read, cpus.0);
    NumeralReadsBack(read, cpus.1);
    NumeralReadsBack(read, cpus.2);
    NumeralReadsBack(read, cpus.3);
    assert [line][..0] == [];
  }

  /** The columns are nodes, partition, configured and used GPUs. */
  lemma GpuLineReadsBack(read: FloatReader, nodes: nat, part: string, marked: bool, gres: string, used: string)
    requires ReadsNumerals(read) && PlainName(part) && IsWord(gres) && IsWord(used)
    ensures var line := GpuLineText(nodes, part, marked, gres, used);
            && GpuNames([line]) <= {part}
            && ConfiguredGpus(read, [line], part) == nodes as real * Gres.GpuCount(gres) as real
            && UsedGpus(read, [line], part) == nodes as real * Gres.GpuCount(used) as real
  {
    hide Decimal, Join, Fields, TrimRight, Marked, PlainName, Contains, Gres.GpuCount, GpuSnapshot.NodeGpus, IsWord,
         ReadsNumerals;
    var line := GpuLineText(nodes, part, marked, gres, used);
    MarkerIsCut(part, marked);
    GpuSnapshot.NumberIsWord(nodes);
    FieldsOfJoin([Decimal(nodes), Marked(part, marked), gres, used]);
    GpuSnapshot.PrintedNodeGpus(read, nodes, gres);
    GpuSnapshot.PrintedNodeGpus(read, nodes, used);
    assert [line][..0] == [];
  }

  lemma PlainIsNotEmpty(part: string)
    requires PlainName(part)
    ensures part != ""
  {
  }

  lemma OneJobCounts(j: Job, part: string, state: string)
    requires PlainName(part) && j.partition == part
    ensures Multiplicity(ListedAndEmpty([j], state), part) == if j.state == state then 1 else 0
  {
    hide Names, PlainName;
    OneReadsBack(part);
    assert part != "" by {
      PlainIsNotEmpty(part);
    }
    if j.state == state {
      OneJobListed(j);
    } else {
      FilterAppend([], j, StateIs(state));
      assert [] + [j] == [j];
    }
  }

  /** One partition with one job: the eight counters of its object, from three printed lines. */
  lemma PrintedPartition(read: FloatReader, table: Partitions, part: string, marked: bool, cpus: (nat, nat, nat, nat),
                         nodes: nat, gres: string, used: string, j: Job)
    requires ReadsNumerals(read) && PlainName(part) && IsWord(gres) && IsWord(used) && j.partition == part
    requires table.View() == TableOf(read, [CpuLineText(part, marked, cpus)],
                                     [GpuLineText(nodes, part, marked, gres, used)], [j])
    ensures table.byName.Keys == {part}
    ensures var pm, n := table.byName[part], nodes as real;
            && pm.cpuAllocated == cpus.0 as real && pm.cpuIdle == cpus.1 as real
            && pm.cpuOther == cpus.2 as real && pm.cpuTotal == cpus.3 as real
            && pm.gpuAllocated == n * Gres.GpuCount(used) as real
            && pm.gpuIdle == n * Gres.GpuCount(gres) as real - n * Gres.GpuCount(used) as real
            && pm.jobPending == (if j.state == "PENDING" then 1.0 else 0.0)
            && pm.jobRunning == (if j.state == "RUNNING" then 1.0 else 0.0)
  {
    hide CpuLineText, GpuLineText, CpusRead, ConfiguredGpus, UsedGpus, CpuNames, GpuNames, ListedAndEmpty, Multiplicity,
         ReadsNumerals, PlainName, IsWord, Gres.GpuCount;
    CpuLineReadsBack(read, part, marked, cpus, ZERO);
    GpuLineReadsBack(read, nodes, part, marked, gres, used);
    OneJobCounts(j, part, "PENDING");
    OneJobCounts(j, part, "RUNNING");
    assert table.byName.Keys == table.View().Keys;
    assert part in table.byName && table.View()[part] == table.byName[part].View();
  }
}
