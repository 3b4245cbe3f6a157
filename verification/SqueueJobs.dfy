/**
 The shared squeue snapshot of internal/collector/squeue_jobs.go: eight columns, re-emitted as text for
 parsers that read six of them, or one.
 */
module SqueueJobs {
  import opened Text
  import opened Numbers
  import opened Parsing
  import opened Permutations
  import opened Sums

  /** The trimmed fields of one data row. */
  datatype Job = Job(
    id: string,
    account: string,
    user: string,
    partition: string,
    state: string,
    nodes: string,
    cpus: string,
    tres: string
  )

  function JobOf(line: string): Option<Job> {
    var f := SplitN(line, '|', 8);
    if |f| < 8 then None
    else Some(Job(TrimSpace(f[0]), TrimSpace(f[1]), TrimSpace(f[2]), TrimSpace(f[3]), TrimSpace(f[4]),
                  TrimSpace(f[5]), TrimSpace(f[6]), TrimSpace(f[7])))
  }

  /** The rows of a snapshot. */
  function Jobs(data: string): seq<Job> {
    Parsed(JobOf, Split(data, '\n'))
  }

  function Fields8(j: Job): seq<string> {
    [j.id, j.account, j.user, j.partition, j.state, j.nodes, j.cpus, j.tres]
  }

  lemma NoPipeNoJob(line: string)
    requires '|' !in line
    ensures JobOf(line) == None
  {
  }

  /** squeueJobsFields: the slice is trimmed in place; None stands for nil. */
  method SqueueJobsFields(line: string) returns (fields: Option<seq<string>>)
    ensures match JobOf(line) case None => fields == None case Some(j) => fields == Some(Fields8(j))
  {
    hide SplitN, TrimSpace;
    if '|' !in line {
      NoPipeNoJob(line);
      return None;
    }
    var f := SplitN(line, '|', 8);
    ghost var raw := f;
    if |f| < 8 {
      return None;
    }
    for i := 0 to |f|
      invariant |f| == |raw|
      invariant forall k | 0 <= k < i :: f[k] == TrimSpace(raw[k])
      invariant forall k | i <= k < |f| :: f[k] == raw[k]
    {
      f := f[i := TrimSpace(f[i])];
    }
    assert f == Fields8(JobOf(line).value);
    return Some(f);
  }

  // ---- Rows are clean ----

  predicate OneLine(s: string) {
    Trimmed(s) && '\n' !in s
  }

  predicate Plain(s: string) {
    OneLine(s) && '|' !in s
  }

  /** Every field is trimmed and on one line, and only the last one can hold a pipe. */
  predicate Clean(j: Job) {
    && Plain(j.id) && Plain(j.account) && Plain(j.user) && Plain(j.partition) && Plain(j.state)
    && Plain(j.nodes) && Plain(j.cpus) && OneLine(j.tres)
  }

  lemma {:induction false} SplitNKeepsOut(s: string, c: char, n: nat, x: char)
    requires n >= 1 && x !in s
    ensures Lacks(SplitN(s, c, n), x)
    decreases n
  {
    var i := IndexOf(s, c);
    if n == 1 || i == |s| {
    } else {
      SplitNKeepsOut(s[i + 1..], c, n - 1, x);
    }
  }

  lemma TrimmedFieldIsClean(line: string, i: nat)
    requires '\n' !in line && |SplitN(line, '|', 8)| == 8 && i < 8
    ensures OneLine(TrimSpace(SplitN(line, '|', 8)[i]))
    ensures i < 7 ==> Plain(TrimSpace(SplitN(line, '|', 8)[i]))
  {
    hide SplitN, TrimSpace;
    var f := SplitN(line, '|', 8);
    SplitNLacks(line, '|', 8);
    SplitNKeepsOut(line, '|', 8, '\n');
    var _, _ := TrimSpaceCuts(f[i]);
    TrimSpaceLacks(f[i], '\n');
    if i < 7 {
      assert f[..7][i] == f[i];
      TrimSpaceLacks(f[i], '|');
    }
  }

  lemma JobIsClean(line: string)
    requires JobOf(line).Some? && '\n' !in line
    ensures Clean(JobOf(line).value)
  {
    hide SplitN, TrimSpace, OneLine, Plain;
    TrimmedFieldIsClean(line, 0);
    TrimmedFieldIsClean(line, 1);
    TrimmedFieldIsClean(line, 2);
    TrimmedFieldIsClean(line, 3);
    TrimmedFieldIsClean(line, 4);
    TrimmedFieldIsClean(line, 5);
    TrimmedFieldIsClean(line, 6);
    TrimmedFieldIsClean(line, 7);
  }

  lemma SnapshotIsClean(data: string)
    ensures forall j | j in Jobs(data) :: Clean(j)
  {
    hide Clean, JobOf;
    SplitLacks(data, '\n');
    forall j | j in Jobs(data)
      ensures Clean(j)
    {
      ParsedFrom(JobOf, Split(data, '\n'), j);
      var line :| line in Split(data, '\n') && JobOf(line) == Some(j);
      JobIsClean(line);
    }
  }

  // ---- Projections ----

  /** Which column groups the jobs. */
  datatype Column = ByAccount | ByUser

  function NameOf(j: Job, column: Column): string {
    match column
    case ByAccount => j.account
    case ByUser => j.user
  }

  function NameIndex(column: Column): nat {
    match column
    case ByAccount => 1
    case ByUser => 2
  }

  /** "JobID|<name>|State|NumNodes|NumCPUs|tres-alloc". */
  function Projected(j: Job, column: Column): seq<string> {
    [j.id, NameOf(j, column), j.state, j.nodes, j.cpus, j.tres]
  }

  function ProjectedLine(column: Column): Job -> string {
    (j: Job) => Join(Projected(j, column), "|")
  }

  function NamedLines(jobs: seq<Job>, column: Column): seq<string> {
    Map(jobs, ProjectedLine(column))
  }

  function StateIs(state: string): Job -> bool {
    (j: Job) => j.state == state
  }

  function PartitionColumn(): Job -> string {
    (j: Job) => j.partition
  }

  function PartitionLines(jobs: seq<Job>, state: string): seq<string> {
    Map(Filter(jobs, StateIs(state)), PartitionColumn())
  }

  lemma NamedLinesStep(jobs: seq<Job>, j: Job, column: Column)
    ensures Unlines(NamedLines(jobs + [j], column)) ==
              Unlines(NamedLines(jobs, column)) + (Join(Projected(j, column), "|") + "\n")
  {
    MapAppend(jobs, j, ProjectedLine(column));
    UnlinesAppend(NamedLines(jobs, column), Join(Projected(j, column), "|"));
  }

  lemma PartitionLinesStep(jobs: seq<Job>, j: Job, state: string)
    ensures Unlines(PartitionLines(jobs + [j], state)) ==
            if j.state == state then Unlines(PartitionLines(jobs, state)) + (j.partition + "\n")
            else Unlines(PartitionLines(jobs, state))
  {
    FilterAppend(jobs, j, StateIs(state));
    MapAppend(Filter(jobs, StateIs(state)), j, PartitionColumn());
    UnlinesAppend(PartitionLines(jobs, state), j.partition);
  }

  lemma NoJobsYet(lines: seq<string>, column: Column, state: string)
    ensures Unlines(NamedLines(Parsed(JobOf, lines[..0]), column)) == ""
    ensures Unlines(PartitionLines(Parsed(JobOf, lines[..0]), state)) == ""
  {
  }

  /** projectNamedJobView, behind projectAccountsView and projectUsersView. */
  method ProjectNamedJobView(data: string, column: Column) returns (text: string)
    ensures text == Unlines(NamedLines(Jobs(data), column))
  {
    hide JobOf, Parsed, NamedLines, Join;
    text := "";
    var lines := Split(data, '\n');
    NoJobsYet(lines, column, "");
    for i := 0 to |lines|
      invariant text == Unlines(NamedLines(Parsed(JobOf, lines[..i]), column))
    {
      ParsedStep(JobOf, lines, i);
      var fields := SqueueJobsFields(lines[i]);
      if fields.None? {
        continue;
      }
      var f := fields.value;
      NamedLinesStep(Parsed(JobOf, lines[..i]), JobOf(lines[i]).value, column);
      assert [f[0], f[NameIndex(column)], f[4], f[5], f[6], f[7]] == Projected(JobOf(lines[i]).value, column);
      text := text + (Join([f[0], f[NameIndex(column)], f[4], f[5], f[6], f[7]], "|") + "\n");
    }
    assert lines[..|lines|] == lines;
  }

  /** projectPartitionView. */
  method ProjectPartitionView(data: string, state: string) returns (text: string)
    ensures text == Unlines(PartitionLines(Jobs(data), state))
  {
    hide JobOf, Parsed, PartitionLines;
    text := "";
    var lines := Split(data, '\n');
    NoJobsYet(lines, ByAccount, state);
    for i := 0 to |lines|
      invariant text == Unlines(PartitionLines(Parsed(JobOf, lines[..i]), state))
    {
      ParsedStep(JobOf, lines, i);
      var fields := SqueueJobsFields(lines[i]);
      if fields.None? {
        continue;
      }
      var f := fields.value;
      PartitionLinesStep(Parsed(JobOf, lines[..i]), JobOf(lines[i]).value, state);
      if f[4] != state {
        continue;
      }
      text := text + (f[3] + "\n");
    }
    assert lines[..|lines|] == lines;
  }

  // ---- Reading a projection back ----

  /** A projected row is cut back into its six fields, even when the last one holds pipes. */
  lemma ProjectedLineReadsBack(j: Job, column: Column)
    requires Clean(j)
    ensures SplitN(Join(Projected(j, column), "|"), '|', 6) == Projected(j, column)
    ensures '\n' !in Join(Projected(j, column), "|")
  {
    hide SplitN, Join, Trimmed;
    var g := Projected(j, column);
    assert g[..5] == [j.id, NameOf(j, column), j.state, j.nodes, j.cpus];
    SplitNJoin(g, '|');
    JoinChars(g, "|", '\n');
  }

  lemma PartitionLinesLack(jobs: seq<Job>, state: string)
    requires forall j | j in jobs :: Clean(j)
    ensures Lacks(PartitionLines(jobs, state), '\n')
  {
    var some := Filter(jobs, StateIs(state));
    FilterMeaning(jobs, StateIs(state));
    forall i | 0 <= i < |some|
      ensures '\n' !in some[i].partition
    {
      assert some[i] in some;
    }
  }

  lemma FieldIsKept(s: string)
    requires OneLine(s)
    ensures TrimSpace(s) == s && '\n' !in s
  {
    TrimSpaceKeepsTrimmed(s);
  }

  /** The eight columns, as squeue prints them, are read back one by one. */
  lemma JobLineReadsBack(j: Job)
    requires Clean(j)
    ensures var line := Join([j.id, j.account, j.user, j.partition, j.state, j.nodes, j.cpus, j.tres], "|");
            JobOf(line) == Some(j) && '\n' !in line && Jobs(line) == [j]
  {
    hide SplitN, Join, Trimmed, TrimSpace, Split;
    var f := [j.id, j.account, j.user, j.partition, j.state, j.nodes, j.cpus, j.tres];
    assert f[..7] == [j.id, j.account, j.user, j.partition, j.state, j.nodes, j.cpus];
    SplitNJoin(f, '|');
    FieldIsKept(j.id);
    FieldIsKept(j.account);
    FieldIsKept(j.user);
    FieldIsKept(j.partition);
    FieldIsKept(j.state);
    FieldIsKept(j.nodes);
    FieldIsKept(j.cpus);
    FieldIsKept(j.tres);
    JoinChars(f, "|", '\n');
    var line := Join(f, "|");
    SplitWhole(line, '\n');
    ParsedAppend(JobOf, [], line);
    assert [] + [line] == [line];
  }
}
