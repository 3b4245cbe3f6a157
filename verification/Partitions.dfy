/**
 Per-partition metrics of internal/collector/partitions.go: one shared table of metric objects that the GPU
 loop and the two job loops update in place.
 */
module Partitions {
  import opened Text
  import opened Numbers
  import opened Sums
  import opened PartitionNames
  import opened SqueueJobs
  import Gres
  import GpuSnapshot

  // ---- The table ----

  datatype Counters = Counters(
    cpuAllocated: real,
    cpuIdle: real,
    cpuOther: real,
    cpuTotal: real,
    jobPending: real,
    jobRunning: real,
    gpuIdle: real,
    gpuAllocated: real
  )

  const ZERO := Counters(0.0, 0.0, 0.0, 0.0, 0.0, 0.0, 0.0, 0.0)

  datatype Queue = Pending | Running

  function WithJobs(c: Counters, queue: Queue, n: nat): Counters {
    match queue
    case Pending => c.(jobPending := c.jobPending + n as real)
    case Running => c.(jobRunning := c.jobRunning + n as real)
  }

  function WithCpus(read: FloatReader, c: Counters, states: seq<string>): Counters
    requires |states| >= 4
  {
    c.(cpuAllocated := FloatOrZero(read, states[0]), cpuIdle := FloatOrZero(read, states[1]),
       cpuOther := FloatOrZero(read, states[2]), cpuTotal := FloatOrZero(read, states[3]))
  }

  class PartitionMetrics {
    var cpuAllocated: real
    var cpuIdle: real
    var cpuOther: real
    var cpuTotal: real
    var jobPending: real
    var jobRunning: real
    var gpuIdle: real
    var gpuAllocated: real

    constructor ()
      ensures View() == ZERO
    {
      cpuAllocated, cpuIdle, cpuOther, cpuTotal := 0.0, 0.0, 0.0, 0.0;
      jobPending, jobRunning, gpuIdle, gpuAllocated := 0.0, 0.0, 0.0, 0.0;
    }

    function View(): Counters
      reads this
    {
      Counters(cpuAllocated, cpuIdle, cpuOther, cpuTotal, jobPending, jobRunning, gpuIdle, gpuAllocated)
    }

    method AddGpus(idle: real, used: real)
      modifies this
      ensures View() == old(View()).(gpuIdle := old(gpuIdle) + idle, gpuAllocated := old(gpuAllocated) + used)
    {
      gpuIdle := gpuIdle + idle;
      gpuAllocated := gpuAllocated + used;
    }

    method SetCpus(read: FloatReader, states: seq<string>)
      requires |states| >= 4
      modifies this
      ensures View() == WithCpus(read, old(View()), states)
    {
      cpuAllocated := FloatOrZero(read, states[0]);
      cpuIdle := FloatOrZero(read, states[1]);
      cpuOther := FloatOrZero(read, states[2]);
      cpuTotal := FloatOrZero(read, states[3]);
    }

    /** pm.jobPending++ or pm.jobRunning++. */
    method CountJob(queue: Queue)
      modifies this
      ensures View() == WithJobs(old(View()), queue, 1)
    {
      match queue {
        case Pending => jobPending := jobPending + 1.0;
        case Running => jobRunning := jobRunning + 1.0;
      }
    }
  }

  /** The counters before a partition was seen are zero. */
  function Base(view: map<string, Counters>, p: string): Counters {
    if p in view then view[p] else ZERO
  }

  // ---- What the CPU loop sets ----

  /** The loop reads this line: a comma in it, so a name and something behind it. */
  predicate CpuLine(line: string) {
    ',' in line && |Split(line, ',')| >= 2
  }

  /** The partition of a CPU line, without the default marker. */
  function CpuPartition(line: string): string
    requires CpuLine(line)
  {
    TrimRight(Split(line, ',')[0], "*")
  }

  /** "allocated/idle/other/total", cut up. */
  function CpuStates(line: string): seq<string>
    requires CpuLine(line)
  {
    Split(Split(line, ',')[1], '/')
  }

  /** A line that names a partition may still be too short to set its CPUs. */
  predicate SetsCpus(line: string, p: string) {
    CpuLine(line) && CpuPartition(line) == p && |CpuStates(line)| >= 4
  }

  /** The counters of one partition after these lines. */
  function CpusRead(read: FloatReader, lines: seq<string>, p: string, c: Counters): Counters {
    if lines == [] then c else
    var last, before := lines[|lines| - 1], CpusRead(read, lines[..|lines| - 1], p, c);
    if SetsCpus(last, p) then WithCpus(read, before, CpuStates(last)) else before
  }

  /** The partitions that the loop may create. */
  function CpuNames(lines: seq<string>): set<string> {
    if lines == [] then {} else
    var last := lines[|lines| - 1];
    CpuNames(lines[..|lines| - 1]) + if CpuLine(last) then {CpuPartition(last)} else {}
  }

  lemma {:induction false} OnlyCpusAreSet(read: FloatReader, lines: seq<string>, p: string, c: Counters)
    ensures var r := CpusRead(read, lines, p, c);
            r == c.(cpuAllocated := r.cpuAllocated, cpuIdle := r.cpuIdle, cpuOther := r.cpuOther,
                    cpuTotal := r.cpuTotal)
  {
    hide SetsCpus;
    if lines == [] {
    } else {
      OnlyCpusAreSet(read, lines[..|lines| - 1], p, c);
    }
  }

  /** The last line that sets the CPUs of a partition decides them all, and nothing else changes. */
  lemma {:induction false} LastLineSetsCpus(read: FloatReader, lines: seq<string>, p: string, c: Counters, i: nat)
    requires i < |lines| && SetsCpus(lines[i], p)
    requires forall k | i < k < |lines| :: !SetsCpus(lines[k], p)
    ensures CpusRead(read, lines, p, c) == WithCpus(read, c, CpuStates(lines[i]))
    decreases |lines|
  {
    hide SetsCpus;
    var front := lines[..|lines| - 1];
    if i < |front| {
      LastLineSetsCpus(read, front, p, c, i);
    } else {
      OnlyCpusAreSet(read, front, p, c);
    }
  }

  /** after is before with the CPUs of these lines set; a partition new to the table starts from zero. */
  ghost predicate CpusSet(read: FloatReader, before: map<string, Counters>, after: map<string, Counters>,
                          lines: seq<string>)
  {
    && after.Keys == before.Keys + CpuNames(lines)
    && forall p :: Base(after, p) == CpusRead(read, lines, p, Base(before, p))
  }

  lemma NothingSet(read: FloatReader, view: map<string, Counters>)
    ensures CpusSet(read, view, view, [])
  {
  }

  /** What one line does to the table. */
  function CpuLineOn(read: FloatReader, view: map<string, Counters>, line: string): map<string, Counters> {
    if !CpuLine(line) then view else
    var p := CpuPartition(line);
    view[p := if |CpuStates(line)| >= 4 then WithCpus(read, Base(view, p), CpuStates(line)) else Base(view, p)]
  }

  lemma CpusSetStep(read: FloatReader, before: map<string, Counters>, mid: map<string, Counters>,
                    lines: seq<string>, line: string)
    requires CpusSet(read, before, mid, lines)
    ensures CpusSet(read, before, CpuLineOn(read, mid, line), lines + [line])
  {
    hide CpuPartition, CpuStates, CpuLine, WithCpus;
    assert (lines + [line])[..|lines|] == lines;
    var after := CpuLineOn(read, mid, line);
    forall p: string
      ensures Base(after, p) == CpusRead(read, lines + [line], p, Base(before, p))
    {
      assert Base(mid, p) == CpusRead(read, lines, p, Base(before, p));
    }
  }

  // ---- What the GPU loop adds ----

  /** The partition a GPU line is about, without the default marker. */
  function GpuPartition(f: seq<string>): string
    requires |f| >= 4
  {
    TrimRight(f[1], "*")
  }

  predicate About(line: string, p: string) {
    |Fields(line)| >= 4 && GpuPartition(Fields(line)) == p
  }

  /** The configured GPUs of one partition: nodes times GPUs over every well-formed line about it. */
  function ConfiguredGpus(read: FloatReader, lines: seq<string>, p: string): real {
    if lines == [] then 0.0 else
    var last := lines[|lines| - 1];
    ConfiguredGpus(read, lines[..|lines| - 1], p) +
    if About(last, p) then GpuSnapshot.NodeGpus(read, Fields(last)[0], Fields(last)[2]) else 0.0
  }

  /** The same over the column of used GPUs. */
  function UsedGpus(read: FloatReader, lines: seq<string>, p: string): real {
    if lines == [] then 0.0 else
    var last := lines[|lines| - 1];
    UsedGpus(read, lines[..|lines| - 1], p) +
    if About(last, p) then GpuSnapshot.NodeGpus(read, Fields(last)[0], Fields(last)[3]) else 0.0
  }

  /** The partitions that the loop may create: those on a well-formed line with a GPU in it. */
  function GpuNames(lines: seq<string>): set<string> {
    if lines == [] then {} else
    var last := lines[|lines| - 1];
    GpuNames(lines[..|lines| - 1]) +
    if Contains(last, "gpu:") && |Fields(last)| >= 4 then {GpuPartition(Fields(last))} else {}
  }

  function WithGpus(c: Counters, configured: real, used: real): Counters {
    c.(gpuIdle := c.gpuIdle + configured - used, gpuAllocated := c.gpuAllocated + used)
  }

  lemma FieldHasNoGpu(line: string, i: nat)
    requires !Contains(line, "gpu:") && i < |Fields(line)|
    ensures !Contains(Fields(line)[i], "gpu:")
  {
    hide Fields, Contains;
    if Contains(Fields(line)[i], "gpu:") {
      var pre, post := FieldWithin(line, Fields(line), i);
      ContainsWithin(pre, Fields(line)[i], post, "gpu:");
    }
  }

  /** A line that the text filter drops would have contributed nothing. */
  lemma DroppedLineIsZero(read: FloatReader, line: string, p: string)
    requires !Contains(line, "gpu:") && About(line, p)
    ensures GpuSnapshot.NodeGpus(read, Fields(line)[0], Fields(line)[2]) == 0.0
    ensures GpuSnapshot.NodeGpus(read, Fields(line)[0], Fields(line)[3]) == 0.0
  {
    hide Fields, Contains, GpuSnapshot.NodeGpus;
    FieldHasNoGpu(line, 2);
    FieldHasNoGpu(line, 3);
    GpuSnapshot.NodeGpusNeedText(read, Fields(line)[0], Fields(line)[2]);
    GpuSnapshot.NodeGpusNeedText(read, Fields(line)[0], Fields(line)[3]);
  }

  lemma GpuStep(read: FloatReader, lines: seq<string>, i: nat, p: string)
    requires i < |lines|
    ensures ConfiguredGpus(read, lines[..i + 1], p) == ConfiguredGpus(read, lines[..i], p) +
              if About(lines[i], p) then GpuSnapshot.NodeGpus(read, Fields(lines[i])[0], Fields(lines[i])[2]) else 0.0
    ensures UsedGpus(read, lines[..i + 1], p) == UsedGpus(read, lines[..i], p) +
              if About(lines[i], p) then GpuSnapshot.NodeGpus(read, Fields(lines[i])[0], Fields(lines[i])[3]) else 0.0
    ensures GpuNames(lines[..i + 1]) == GpuNames(lines[..i]) +
              if Contains(lines[i], "gpu:") && |Fields(lines[i])| >= 4 then {GpuPartition(Fields(lines[i]))} else {}
  {
    assert lines[..i + 1][..i] == lines[..i];
  }

  /** after is before with the GPUs of these lines counted; a partition new to the table starts from zero. */
  ghost predicate GpusCounted(read: FloatReader, before: map<string, Counters>, after: map<string, Counters>,
                              lines: seq<string>)
  {
    && after.Keys == before.Keys + GpuNames(lines)
    && forall p :: Base(after, p) == WithGpus(Base(before, p), ConfiguredGpus(read, lines, p), UsedGpus(read, lines, p))
  }

  /** So each partition's idle and allocated GPUs grow, together, by its configured GPUs. */
  lemma PartitionGpuConservation(read: FloatReader, before: map<string, Counters>, after: map<string, Counters>,
                                 lines: seq<string>, p: string)
    requires GpusCounted(read, before, after, lines) && p in after
    ensures after[p].gpuIdle + after[p].gpuAllocated ==
            Base(before, p).gpuIdle + Base(before, p).gpuAllocated + ConfiguredGpus(read, lines, p)
    ensures after[p].gpuAllocated == Base(before, p).gpuAllocated + UsedGpus(read, lines, p)
  {
  }

  lemma NothingRead(read: FloatReader, view: map<string, Counters>, lines: seq<string>)
    ensures GpusCounted(read, view, view, lines[..0])
  {
  }

  /** The loop drops this line: no GPU in its text, or too few fields. */
  predicate Dropped(line: string) {
    !Contains(line, "gpu:") || |Fields(line)| < 4
  }

  /** What one line adds to the sums: nothing when it is dropped, else its GPUs to its own partition. */
  lemma LineAdds(read: FloatReader, lines: seq<string>, i: nat)
    requires i < |lines|
    ensures lines[i] == "" ==> Dropped(lines[i])
    ensures Dropped(lines[i]) ==>
              && GpuNames(lines[..i + 1]) == GpuNames(lines[..i])
              && forall p ::
                   && ConfiguredGpus(read, lines[..i + 1], p) == ConfiguredGpus(read, lines[..i], p)
                   && UsedGpus(read, lines[..i + 1], p) == UsedGpus(read, lines[..i], p)
    ensures !Dropped(lines[i]) ==>
              var f := Fields(lines[i]);
              && GpuNames(lines[..i + 1]) == GpuNames(lines[..i]) + {GpuPartition(f)}
              && forall p ::
                   && ConfiguredGpus(read, lines[..i + 1], p) ==
                        ConfiguredGpus(read, lines[..i], p)
                        + (if p == GpuPartition(f) then GpuSnapshot.NodeGpus(read, f[0], f[2]) else 0.0)
                   && UsedGpus(read, lines[..i + 1], p) ==
                        UsedGpus(read, lines[..i], p)
                        + (if p == GpuPartition(f) then GpuSnapshot.NodeGpus(read, f[0], f[3]) else 0.0)
  {
    hide GpuNames, ConfiguredGpus, UsedGpus, GpuPartition, GpuSnapshot.NodeGpus, Fields;
    GpuStep(read, lines, i, "");
    forall p: string
      ensures ConfiguredGpus(read, lines[..i + 1], p) == ConfiguredGpus(read, lines[..i], p) +
                if About(lines[i], p) then GpuSnapshot.NodeGpus(read, Fields(lines[i])[0], Fields(lines[i])[2]) else 0.0
      ensures UsedGpus(read, lines[..i + 1], p) == UsedGpus(read, lines[..i], p) +
                if About(lines[i], p) then GpuSnapshot.NodeGpus(read, Fields(lines[i])[0], Fields(lines[i])[3]) else 0.0
      ensures Dropped(lines[i]) && About(lines[i], p) ==>
                && GpuSnapshot.NodeGpus(read, Fields(lines[i])[0], Fields(lines[i])[2]) == 0.0
                && GpuSnapshot.NodeGpus(read, Fields(lines[i])[0], Fields(lines[i])[3]) == 0.0
    {
      GpuStep(read, lines, i, p);
      if Dropped(lines[i]) && About(lines[i], p) {
        DroppedLineIsZero(read, lines[i], p);
      }
    }
  }

  lemma GpusCountedStep(read: FloatReader, before: map<string, Counters>, mid: map<string, Counters>,
                        lines: seq<string>, i: nat)
    requires i < |lines| && GpusCounted(read, before, mid, lines[..i])
    ensures lines[i] == "" ==> Dropped(lines[i])
    ensures if Dropped(lines[i]) then GpusCounted(read, before, mid, lines[..i + 1])
            else
              var f := Fields(lines[i]);
              GpusCounted(read, before,
                          mid[GpuPartition(f) :=
                              WithGpus(Base(mid, GpuPartition(f)), GpuSnapshot.NodeGpus(read, f[0], f[2]),
                                                          GpuSnapshot.NodeGpus(read, f[0], f[3]))],
                          lines[..i + 1])
  {
    hide GpuNames, ConfiguredGpus, UsedGpus, GpuPartition, GpuSnapshot.NodeGpus, Fields, Contains;
    LineAdds(read, lines, i);
  }

  // ---- What the job loops add ----

  /** The names on these lines, in order. */
  function NamesOn(lines: seq<string>): seq<string> {
    if lines == [] then [] else NamesOn(lines[..|lines| - 1]) + Names(lines[|lines| - 1])
  }

  lemma NamesOnAppend(lines: seq<string>, line: string)
    ensures NamesOn(lines + [line]) == NamesOn(lines) + Names(line)
  {
    assert (lines + [line])[..|lines|] == lines;
  }

  /** after is before with the listed names counted, once per listing, at the known partitions only. */
  predicate Counted(before: map<string, Counters>, after: map<string, Counters>, queue: Queue, names: seq<string>) {
    && after.Keys == before.Keys
    && forall p | p in after :: after[p] == WithJobs(before[p], queue, Multiplicity(names, p))
  }

  lemma NothingCounted(view: map<string, Counters>, queue: Queue)
    ensures Counted(view, view, queue, [])
  {
  }

  lemma CountedConcat(before: map<string, Counters>, mid: map<string, Counters>, after: map<string, Counters>,
                      queue: Queue, a: seq<string>, b: seq<string>)
    requires Counted(before, mid, queue, a) && Counted(mid, after, queue, b)
    ensures Counted(before, after, queue, a + b)
  {
  }

  /** The names that the jobs in exactly this state list, in order. */
  function Listed(jobs: seq<Job>, state: string): seq<string> {
    NamesOn(PartitionLines(jobs, state))
  }

  /** A text that ends in a newline has one empty line more, and an empty line lists the empty name. */
  function ListedAndEmpty(jobs: seq<Job>, state: string): seq<string> {
    Listed(jobs, state) + [""]
  }

  lemma EmptyLineNames()
    ensures Names("") == [""]
  {
  }

  /** The detour through text is exact but for the empty name, which the last newline adds. */
  lemma ProjectedNames(snapshot: string, state: string)
    ensures NamesOn(Split(Unlines(PartitionLines(Jobs(snapshot), state)), '\n')) ==
              ListedAndEmpty(Jobs(snapshot), state)
  {
    hide Names, Split, Unlines, PartitionLines, Clean, Jobs;
    SnapshotIsClean(snapshot);
    var lines := PartitionLines(Jobs(snapshot), state);
    PartitionLinesLack(Jobs(snapshot), state);
    SplitUnlines(lines);
    NamesOnAppend(lines, "");
    EmptyLineNames();
  }

  /** after is before with the pending and the running jobs of these rows counted. */
  predicate JobsCounted(before: map<string, Counters>, after: map<string, Counters>, jobs: seq<Job>) {
    && after.Keys == before.Keys
    && forall p | p in after ::
         after[p] == before[p].(
           jobPending := before[p].jobPending + Multiplicity(ListedAndEmpty(jobs, "PENDING"), p) as real,
           jobRunning := before[p].jobRunning + Multiplicity(ListedAndEmpty(jobs, "RUNNING"), p) as real)
  }

  lemma BothQueues(before: map<string, Counters>, mid: map<string, Counters>, after: map<string, Counters>,
                   jobs: seq<Job>)
    requires Counted(before, mid, Pending, ListedAndEmpty(jobs, "PENDING"))
    requires Counted(mid, after, Running, ListedAndEmpty(jobs, "RUNNING"))
    ensures JobsCounted(before, after, jobs)
  {
    hide ListedAndEmpty, Multiplicity;
  }

  lemma Distributes(n: real, total: real, used: real)
    ensures n * (total - used) == n * total - n * used
  {
  }

  lemma UnusedGpus(read: FloatReader, f: seq<string>, total: nat, used: nat)
    requires |f| >= 4 && total == Gres.GpuCount(f[2]) && used == Gres.GpuCount(f[3])
    ensures FloatOrZero(read, f[0]) * (total as real - used as real)
         == GpuSnapshot.NodeGpus(read, f[0], f[2]) - GpuSnapshot.NodeGpus(read, f[0], f[3])
    ensures FloatOrZero(read, f[0]) * used as real == GpuSnapshot.NodeGpus(read, f[0], f[3])
  {
    hide Gres.GpuCount, FloatOrZero;
    Distributes(FloatOrZero(read, f[0]), total as real, used as real);
  }

  class Partitions {
    var byName: map<string, PartitionMetrics>

    /** Two partitions never share an object. */
    ghost predicate Valid()
      reads this
    {
      forall p, q | p in byName && q in byName && p != q :: byName[p] != byName[q]
    }

    function View(): map<string, Counters>
      reads this, byName.Values
    {
      map p | p in byName :: byName[p].View()
    }

    constructor ()
      ensures Valid() && byName == map[] && View() == map[]
    {
      byName := map[];
    }

    /** A partition that is not in the table yet starts from zero. */
    method Ensure(partition: string) returns (pm: PartitionMetrics)
      requires Valid()
      modifies this
      ensures Valid() && partition in byName && byName[partition] == pm
      ensures forall o | o in byName.Values :: o in old(byName.Values) || fresh(o)
      ensures View() == old(View())[partition := Base(old(View()), partition)]
    {
      if partition !in byName {
        var zero := new PartitionMetrics();
        byName := byName[partition := zero];
      }
      pm := byName[partition];
    }

    /** The body of parsePartitionCPUs: a line with too few states still creates its partition. */
    method SetCpuLine(read: FloatReader, line: string)
      requires Valid()
      modifies this, byName.Values
      ensures Valid()
      ensures forall o | o in byName.Values :: o in old(byName.Values) || fresh(o)
      ensures View() == CpuLineOn(read, old(View()), line)
    {
      hide Split, TrimRight, WithCpus;
      if ',' !in line {
        return;
      }
      var parts := Split(line, ',');
      if |parts| < 2 {
        return;
      }
      var pm := Ensure(TrimRight(parts[0], "*"));
      var states := Split(parts[1], '/');
      if |states| < 4 {
        return;
      }
      assert View()[TrimRight(parts[0], "*")] == pm.View();
      pm.SetCpus(read, states);
    }

    /** parsePartitionCPUs: each partition has the CPUs of the last line that gives all four. */
    method ParsePartitionCpus(read: FloatReader, data: string)
      requires Valid()
      modifies this, byName.Values
      ensures Valid()
      ensures forall o | o in byName.Values :: o in old(byName.Values) || fresh(o)
      ensures CpusSet(read, old(View()), View(), Split(data, '\n'))
    {
      hide CpusSet, CpuLineOn;
      var lines := Split(data, '\n');
      ghost var start := View();
      NothingSet(read, start);
      for i := 0 to |lines|
        invariant Valid()
        invariant forall o | o in byName.Values :: o in old(byName.Values) || fresh(o)
        invariant CpusSet(read, start, View(), lines[..i])
      {
        CpusSetStep(read, start, View(), lines[..i], lines[i]);
        SetCpuLine(read, lines[i]);
        assert lines[..i + 1] == lines[..i] + [lines[i]];
      }
      assert lines[..|lines|] == lines;
    }

    method AddTo(partition: string, idle: real, inUse: real)
      requires Valid()
      modifies this, byName.Values
      ensures Valid()
      ensures forall o | o in byName.Values :: o in old(byName.Values) || fresh(o)
      ensures var base := Base(old(View()), partition);
              View() == old(View())[partition :=
                base.(gpuIdle := base.gpuIdle + idle, gpuAllocated := base.gpuAllocated + inUse)]
    {
      var pm := Ensure(partition);
      assert View()[partition] == pm.View();
      pm.AddGpus(idle, inUse);
    }

    /** The body of parsePartitionGPUs for a line that passes the filters. */
    method AddGpuLine(read: FloatReader, f: seq<string>)
      requires Valid() && |f| >= 4
      modifies this, byName.Values
      ensures Valid()
      ensures forall o | o in byName.Values :: o in old(byName.Values) || fresh(o)
      ensures View() == old(View())[GpuPartition(f) :=
                WithGpus(Base(old(View()), GpuPartition(f)),
                         GpuSnapshot.NodeGpus(read, f[0], f[2]), GpuSnapshot.NodeGpus(read, f[0], f[3]))]
    {
      hide Gres.GpuCount, TrimRight, FloatOrZero;
      var numNodes := FloatOrZero(read, f[0]);
      var partition := TrimRight(f[1], "*");
      var nodeGpus := Gres.ParseGpuCount(f[2]);
      var allocatedGpus := Gres.ParseGpuCount(f[3]);
      UnusedGpus(read, f, nodeGpus, allocatedGpus);
      var idle, inUse := numNodes * (nodeGpus as real - allocatedGpus as real), numNodes * allocatedGpus as real;
      ghost var configured, used := GpuSnapshot.NodeGpus(read, f[0], f[2]), GpuSnapshot.NodeGpus(read, f[0], f[3]);
      assert idle == configured - used;
      assert inUse == used;
      ghost var base := Base(View(), partition);
      assert base.(gpuIdle := base.gpuIdle + idle, gpuAllocated := base.gpuAllocated + inUse) ==
          WithGpus(base, configured, used);
      hide GpuSnapshot.NodeGpus;
      AddTo(partition, idle, inUse);
    }

    /** parsePartitionGPUs: each partition's GPUs, idle and allocated, make up its configured ones. */
    method ParsePartitionGpus(read: FloatReader, data: string)
      requires Valid()
      modifies this, byName.Values
      ensures Valid()
      ensures forall o | o in byName.Values :: o in old(byName.Values) || fresh(o)
      ensures GpusCounted(read, old(View()), View(), Split(data, '\n'))
    {
      hide GpusCounted, Fields, Contains, WithGpus;
      var lines := Split(data, '\n');
      ghost var start := View();
      NothingRead(read, start, lines);
      for i := 0 to |lines|
        invariant Valid()
        invariant forall o | o in byName.Values :: o in old(byName.Values) || fresh(o)
        invariant GpusCounted(read, start, View(), lines[..i])
      {
        GpusCountedStep(read, start, View(), lines, i);
        if lines[i] == "" || !Contains(lines[i], "gpu:") {
          continue;
        }
        var fields := Fields(lines[i]);
        if |fields| < 4 {
          continue;
        }
        AddGpuLine(read, fields);
      }
      assert lines[..|lines|] == lines;
    }

    /** The lookup of the job loops: only a known partition counts, and no other changes. */
    method CountKnown(queue: Queue, name: string)
      requires Valid()
      modifies byName.Values
      ensures Counted(old(View()), View(), queue, [name])
    {
      if name in byName {
        byName[name].CountJob(queue);
      }
    }

    /** One line of the job loops: every known partition it lists counts once per listing. */
    method CountJobLine(queue: Queue, line: string)
      requires Valid()
      modifies byName.Values
      ensures Counted(old(View()), View(), queue, Names(line))
    {
      hide Names, Counted;
      ghost var before := View();
      var names := SqueuePartitions(line);
      NothingCounted(before, queue);
      for i := 0 to |names|
        invariant Counted(before, View(), queue, names[..i])
      {
        ghost var mid := View();
        CountKnown(queue, names[i]);
        CountedConcat(before, mid, View(), queue, names[..i], [names[i]]);
        assert names[..i + 1] == names[..i] + [names[i]];
      }
      assert names[..|names|] == names;
    }

    /** One of the two loops of parsePartitionJobs. */
    method CountJobs(queue: Queue, data: string)
      requires Valid()
      modifies byName.Values
      ensures Counted(old(View()), View(), queue, NamesOn(Split(data, '\n')))
    {
      hide Names, Counted, Split;
      ghost var before := View();
      var lines := Split(data, '\n');
      NothingCounted(before, queue);
      for i := 0 to |lines|
        invariant Counted(before, View(), queue, NamesOn(lines[..i]))
      {
        ghost var mid := View();
        CountJobLine(queue, lines[i]);
        CountedConcat(before, mid, View(), queue, NamesOn(lines[..i]), Names(lines[i]));
        NamesOnAppend(lines[..i], lines[i]);
        assert lines[..i + 1] == lines[..i] + [lines[i]];
      }
      assert lines[..|lines|] == lines;
    }

    /** parsePartitionJobs on the two projections of one snapshot: no partition is created. */
    method ParsePartitionJobs(snapshot: string)
      requires Valid()
      modifies byName.Values
      ensures JobsCounted(old(View()), View(), Jobs(snapshot))
    {
      hide Counted, JobsCounted, ListedAndEmpty, Listed, NamesOn, Jobs;
      ghost var before := View();
      var pending := ProjectPartitionView(snapshot, "PENDING");
      var running := ProjectPartitionView(snapshot, "RUNNING");
      ProjectedNames(snapshot, "PENDING");
      ProjectedNames(snapshot, "RUNNING");
      CountJobs(Pending, pending);
      ghost var mid := View();
      CountJobs(Running, running);
      BothQueues(before, mid, View(), Jobs(snapshot));
    }
  }

  // ---- The whole table ----

  /** What the three texts say about one partition. */
  function MetricsOf(read: FloatReader, cpus: seq<string>, gpus: seq<string>, jobs: seq<Job>, p: string): Counters {
    WithGpus(CpusRead(read, cpus, p, ZERO), ConfiguredGpus(read, gpus, p), UsedGpus(read, gpus, p)).(
      jobPending := Multiplicity(ListedAndEmpty(jobs, "PENDING"), p) as real,
      jobRunning := Multiplicity(ListedAndEmpty(jobs, "RUNNING"), p) as real)
  }

  /** sinfo alone decides which partitions there are. */
  function TableOf(read: FloatReader, cpus: seq<string>, gpus: seq<string>, jobs: seq<Job>): map<string, Counters> {
    map p | p in CpuNames(cpus) + GpuNames(gpus) :: MetricsOf(read, cpus, gpus, jobs, p)
  }

  lemma ThreeLoops(read: FloatReader, cpus: seq<string>, gpus: seq<string>, jobs: seq<Job>,
                   a: map<string, Counters>, b: map<string, Counters>, c: map<string, Counters>)
    requires CpusSet(read, map[], a, cpus) && GpusCounted(read, a, b, gpus) && JobsCounted(b, c, jobs)
    ensures c == TableOf(read, cpus, gpus, jobs)
  {
    hide CpusRead, ConfiguredGpus, UsedGpus, CpuNames, GpuNames, ListedAndEmpty, Multiplicity;
    forall p | p in c
      ensures c[p] == MetricsOf(read, cpus, gpus, jobs, p)
    {
      OnlyCpusAreSet(read, cpus, p, ZERO);
      assert b[p] == Base(b, p) && Base(a, p) == CpusRead(read, cpus, p, Base(map[], p));
    }
  }

  /** ParsePartitionsMetrics: None stands for a command that failed. */
  method ParsePartitionsMetrics(read: FloatReader, cpu: Option<string>, gpu: Option<string>, squeue: Option<string>)
    returns (table: Option<Partitions>)
    ensures table.Some? <==> cpu.Some? && gpu.Some? && squeue.Some?
    ensures table.Some? ==>
              && fresh(table.value) && table.value.Valid()
              && table.value.View() == TableOf(read, Split(cpu.value, '\n'), Split(gpu.value, '\n'), Jobs(squeue.value))
  {
    hide CpusSet, GpusCounted, JobsCounted, TableOf, Jobs;
    var partitions := new Partitions();
    if cpu.None? {
      return None;
    }
    partitions.ParsePartitionCpus(read, cpu.value);
    ghost var a := partitions.View();
    if gpu.None? {
      return None;
    }
    partitions.ParsePartitionGpus(read, gpu.value);
    ghost var b := partitions.View();
    if squeue.None? {
      return None;
    }
    partitions.ParsePartitionJobs(squeue.value);
    ThreeLoops(read, Split(cpu.value, '\n'), Split(gpu.value, '\n'), Jobs(squeue.value), a, b, partitions.View());
    return Some(partitions);
  }
}
