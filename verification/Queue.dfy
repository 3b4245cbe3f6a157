/**
 ParseQueueMetrics of internal/collector/queue.go: eleven job states counted into nested maps, once per
 partition a job is queued in, beside cluster-wide totals counted once per job.
 */
module Queue {
  import opened Text
  import opened Numbers
  import opened Parsing
  import opened Sums
  import PartitionNames

  type Cells = map<string, map<string, real>>
  type ReasonCells = map<string, Cells>

  // ---- Rows ----

  datatype Row = Row(parts: seq<string>, state: string, cores: int, reason: string, user: string)

  /** One line of "%P|%T|%C|%r|%u"; the last field, the user, takes any further pipes. */
  function ParseRow(line: string): Option<Row> {
    var f := SplitN(line, '|', 5);
    if |f| < 5 then None
    else Some(Row(PartitionNames.Names(f[0]), f[1], Atoi(f[2]), f[3], TrimSpace(f[4])))
  }

  function Rows(input: string): seq<Row> {
    Parsed(ParseRow, Split(input, '\n'))
  }

  /** With no pipe before the user, the five fields are read as they stand, whatever pipes the user holds. */
  lemma PipesBelongToUser(part: string, state: string, cores: string, reason: string, user: string)
    requires '|' !in part && '|' !in state && '|' !in cores && '|' !in reason
    ensures ParseRow(Join([part, state, cores, reason, user], "|"))
         == Some(Row(PartitionNames.Names(part), state, Atoi(cores), reason, TrimSpace(user)))
  {
    hide SplitN, Join, TrimSpace;
    var f := [part, state, cores, reason, user];
    assert f[..|f| - 1] == [part, state, cores, reason];
    SplitNJoin(f, '|');
  }

  /** What is read for a reason and a user: the reason up to its first pipe, and the rest as the user. */
  function ReasonRead(reason: string): string {
    reason[..IndexOf(reason, '|')]
  }

  function UserRead(reason: string, user: string): string {
    var i := IndexOf(reason, '|');
    if i == |reason| then user else reason[i + 1..] + "|" + user
  }

  lemma JoinPair(a: string, b: string)
    ensures Join([a, b], "|") == a + "|" + b
  {
    assert [a, b][1..] == [b];
  }

  lemma SameText(front: seq<string>, reason: string, user: string)
    requires front != []
    ensures Join(front + [reason, user], "|") == Join(front + [ReasonRead(reason), UserRead(reason, user)], "|")
  {
    hide Join;
    JoinConcat(front, [reason, user], "|");
    JoinConcat(front, [ReasonRead(reason), UserRead(reason, user)], "|");
    JoinPair(reason, user);
    JoinPair(ReasonRead(reason), UserRead(reason, user));
    var i := IndexOf(reason, '|');
    if i < |reason| {
      assert reason == reason[..i] + "|" + reason[i + 1..];
      assert reason + "|" + user == ReasonRead(reason) + "|" + UserRead(reason, user);
    }
  }

  /** A printed row is read with its reason exactly when the reason holds no pipe: a pipe ends it there. */
  lemma ReasonKeptIffNoPipe(part: string, state: string, cores: string, reason: string, user: string)
    requires '|' !in part && '|' !in state && '|' !in cores
    ensures ParseRow(Join([part, state, cores, reason, user], "|"))
         == Some(Row(PartitionNames.Names(part), state, Atoi(cores), ReasonRead(reason),
                     TrimSpace(UserRead(reason, user))))
    ensures ParseRow(Join([part, state, cores, reason, user], "|")).value.reason == reason <==> '|' !in reason
  {
    hide ParseRow, Join;
    PipesBelongToUser(part, state, cores, ReasonRead(reason), UserRead(reason, user));
    var front := [part, state, cores];
    SameText(front, reason, user);
    assert front + [reason, user] == [part, state, cores, reason, user];
    assert front + [ReasonRead(reason), UserRead(reason, user)]
        == [part, state, cores, ReasonRead(reason), UserRead(reason, user)];
  }

  /** A text of one line is one row. */
  lemma OneRow(line: string, r: Row)
    requires '\n' !in line && ParseRow(line) == Some(r)
    ensures Rows(line) == [r]
  {
    SplitWhole(line, '\n');
    ParsedAppend(ParseRow, [], line);
    assert [] + [line] == [line];
  }

  const PENDING := "PENDING"
  const RUNNING := "RUNNING"
  const SUSPENDED := "SUSPENDED"
  const CANCELLED := "CANCELLED"
  const COMPLETING := "COMPLETING"
  const COMPLETED := "COMPLETED"
  const CONFIGURING := "CONFIGURING"
  const FAILED := "FAILED"
  const TIMEOUT := "TIMEOUT"
  const PREEMPTED := "PREEMPTED"
  const NODE_FAIL := "NODE_FAIL"

  predicate KnownState(state: string) {
    state in {PENDING, RUNNING, SUSPENDED, CANCELLED, COMPLETING, COMPLETED, CONFIGURING, FAILED, TIMEOUT,
              PREEMPTED, NODE_FAIL}
  }

  /** The eleven words that are counted, as squeue spells them. */
  lemma KnownStateIff(state: string)
    ensures KnownState(state) <==>
              state in {"PENDING", "RUNNING", "SUSPENDED", "CANCELLED", "COMPLETING", "COMPLETED", "CONFIGURING",
                        "FAILED", "TIMEOUT", "PREEMPTED", "NODE_FAIL"}
  {
  }

  /** The rows of one state. */
  function Select(rows: seq<Row>, state: string): seq<Row> {
    Filter(rows, (r: Row) => r.state == state)
  }

  /** The rows with one reason. */
  function WithReason(rows: seq<Row>, reason: string): seq<Row> {
    Filter(rows, (r: Row) => r.reason == reason)
  }

  // ---- Counting into nested maps ----

  /** What a map counts: jobs, or the cores they ask for. */
  datatype Measure = Jobs | Cores

  function Weight(measure: Measure, r: Row): real {
    match measure
    case Jobs => 1.0
    case Cores => r.cores as real
  }

  /** One count at (user, part). */
  function IncrCell(cells: Cells, user: string, part: string, count: real): Cells {
    var child := if user in cells then cells[user] else map[];
    cells[user := child[part := (if part in child then child[part] else 0.0) + count]]
  }

  function IncrParts(cells: Cells, user: string, parts: seq<string>, count: real): Cells {
    if parts == [] then cells
    else IncrCell(IncrParts(cells, user, parts[..|parts| - 1], count), user, parts[|parts| - 1], count)
  }

  /** The map that counting these rows one by one gives. */
  function CellsOf(rows: seq<Row>, measure: Measure): Cells {
    if rows == [] then map[] else
    var last := rows[|rows| - 1];
    IncrParts(CellsOf(rows[..|rows| - 1], measure), last.user, last.parts, Weight(measure, last))
  }

  function IncrReason(cells: ReasonCells, reason: string, user: string, part: string, count: real): ReasonCells {
    cells[reason := IncrCell(if reason in cells then cells[reason] else map[], user, part, count)]
  }

  function IncrReasonParts(cells: ReasonCells, reason: string, user: string, parts: seq<string>,
                           count: real): ReasonCells {
    if parts == [] then cells
    else IncrReason(IncrReasonParts(cells, reason, user, parts[..|parts| - 1], count),
                    reason, user, parts[|parts| - 1], count)
  }

  function ReasonCellsOf(rows: seq<Row>, measure: Measure): ReasonCells {
    if rows == [] then map[] else
    var last := rows[|rows| - 1];
    IncrReasonParts(ReasonCellsOf(rows[..|rows| - 1], measure), last.reason, last.user, last.parts,
                    Weight(measure, last))
  }

  /** NVal: user, then partition, to a count. Each field of QueueMetrics has an object, and a tag, of its own. */
  class NVal {
    ghost const tag: int
    var cells: Cells

    constructor (ghost tag: int)
      ensures this.tag == tag && cells == map[]
    {
      this.tag := tag;
      cells := map[];
    }

    method Incr(user: string, part: string, count: real)
      modifies this
      ensures cells == IncrCell(old(cells), user, part, count)
    {
      var child: map<string, real>;
      if user in cells {
        child := cells[user];
      } else {
        child := map[part := 0.0];
      }
      cells := cells[user := child[part := At(child, part) + count]];
      assert map[part := 0.0][part := 0.0 + count] == map[part := 0.0 + count];
    }
  }

  /** NNVal: reason, then user, then partition, to a count. */
  class NNVal {
    ghost const tag: int
    var cells: ReasonCells

    constructor (ghost tag: int)
      ensures this.tag == tag && cells == map[]
    {
      this.tag := tag;
      cells := map[];
    }

    method Incr2(reason: string, user: string, part: string, count: real)
      modifies this
      ensures cells == IncrReason(old(cells), reason, user, part, count)
    {
      if reason !in cells {
        cells := cells[reason := map[]];
      }
      if user !in cells[reason] {
        cells := cells[reason := cells[reason][user := map[]]];
      }
      var child := cells[reason][user];
      cells := cells[reason := cells[reason][user := child[part := At(child, part) + count]]];
      assert cells[reason] == IncrReason(old(cells), reason, user, part, count)[reason];
    }
  }

  // ---- What the cells hold ----

  function Times(n: nat, x: real): real {
    n as real * x
  }

  lemma TimesStep(n: nat, x: real)
    ensures Times(n + 1, x) == Times(n, x) + x && Times(0, x) == 0.0
  {
  }

  /** The sum over the rows of one user of the partition's multiplicity times the row's weight. */
  function CellSum(rows: seq<Row>, measure: Measure, user: string, part: string): real {
    if rows == [] then 0.0 else
    var last := rows[|rows| - 1];
    CellSum(rows[..|rows| - 1], measure, user, part) +
    if last.user == user then Times(PartitionNames.Multiplicity(last.parts, part), Weight(measure, last)) else 0.0
  }

  predicate HasCell(cells: Cells, user: string, part: string) {
    user in cells && part in cells[user]
  }

  function CellAt(cells: Cells, user: string, part: string): real {
    if HasCell(cells, user, part) then cells[user][part] else 0.0
  }

  predicate Listed(rows: seq<Row>, user: string, part: string) {
    exists r | r in rows :: r.user == user && part in r.parts
  }

  lemma IncrCellMeaning(cells: Cells, user: string, part: string, count: real, u: string, p: string)
    ensures var after := IncrCell(cells, user, part, count);
            && (HasCell(after, u, p) <==> HasCell(cells, u, p) || (u == user && p == part))
            && CellAt(after, u, p) == CellAt(cells, u, p) + if u == user && p == part then count else 0.0
  {
  }

  lemma {:induction false} IncrPartsMeaning(cells: Cells, user: string, parts: seq<string>, count: real, u: string,
                                            p: string)
    ensures var after := IncrParts(cells, user, parts, count);
            && (HasCell(after, u, p) <==> HasCell(cells, u, p) || (u == user && p in parts))
            && CellAt(after, u, p) == CellAt(cells, u, p) +
                 if u == user then Times(PartitionNames.Multiplicity(parts, p), count) else 0.0
  {
    hide Times, HasCell, CellAt;
    if parts == [] {
      TimesStep(0, count);
    } else {
      var front, last := parts[..|parts| - 1], parts[|parts| - 1];
      assert parts == front + [last];
      IncrPartsMeaning(cells, user, front, count, u, p);
      IncrCellMeaning(IncrParts(cells, user, front, count), user, last, count, u, p);
      TimesStep(PartitionNames.Multiplicity(front, p), count);
    }
  }

  lemma CellsStep(rows: seq<Row>, r: Row, measure: Measure)
    ensures CellsOf(rows + [r], measure) == IncrParts(CellsOf(rows, measure), r.user, r.parts, Weight(measure, r))
  {
  }

  /** At every (user, partition) the map holds the sum over the rows, and it has no other cells. */
  lemma {:induction false} CellsMeaning(rows: seq<Row>, measure: Measure, u: string, p: string)
    ensures HasCell(CellsOf(rows, measure), u, p) <==> Listed(rows, u, p)
    ensures CellAt(CellsOf(rows, measure), u, p) == CellSum(rows, measure, u, p)
  {
    if rows == [] {
    } else {
      hide Times, PartitionNames.Multiplicity, HasCell, CellAt;
      var front, last := rows[..|rows| - 1], rows[|rows| - 1];
      assert rows == front + [last];
      CellsMeaning(front, measure, u, p);
      CellsStep(front, last, measure);
      IncrPartsMeaning(CellsOf(front, measure), last.user, last.parts, Weight(measure, last), u, p);
      assert Listed(rows, u, p) <==> Listed(front, u, p) || (last.user == u && p in last.parts);
    }
  }

  lemma {:induction false} IncrReasonPartsMeaning(cells: ReasonCells, reason: string, user: string, parts: seq<string>,
                                                  count: real)
    requires parts != []
    ensures IncrReasonParts(cells, reason, user, parts, count)
         == cells[reason := IncrParts(if reason in cells then cells[reason] else map[], user, parts, count)]
  {
    if |parts| == 1 {
      assert parts[..0] == [];
      assert IncrReasonParts(cells, reason, user, parts[..0], count) == cells;
    } else {
      IncrReasonPartsMeaning(cells, reason, user, parts[..|parts| - 1], count);
    }
  }

  lemma WithReasonStep(rows: seq<Row>, r: Row, reason: string)
    ensures WithReason(rows + [r], reason) ==
            if r.reason == reason then WithReason(rows, reason) + [r] else WithReason(rows, reason)
  {
  }

  lemma ReasonCellsStep(rows: seq<Row>, r: Row, measure: Measure)
    requires r.parts != []
    ensures var before := ReasonCellsOf(rows, measure);
            ReasonCellsOf(rows + [r], measure) ==
            before[r.reason := IncrParts(if r.reason in before then before[r.reason] else map[],
                                         r.user, r.parts, Weight(measure, r))]
  {
    hide IncrReasonParts, IncrParts;
    assert (rows + [r])[..|rows|] == rows;
    IncrReasonPartsMeaning(ReasonCellsOf(rows, measure), r.reason, r.user, r.parts, Weight(measure, r));
  }

  lemma NoRowsNoCells(measure: Measure)
    ensures CellsOf([], measure) == map[]
  {
  }

  /** The pending map at one reason is the map of the rows with that reason. */
  lemma {:induction false} ReasonCellsMeaning(rows: seq<Row>, measure: Measure, reason: string)
    requires forall r | r in rows :: r.parts != []
    ensures reason in ReasonCellsOf(rows, measure) <==> WithReason(rows, reason) != []
    ensures reason in ReasonCellsOf(rows, measure) ==>
              ReasonCellsOf(rows, measure)[reason] == CellsOf(WithReason(rows, reason), measure)
  {
    if rows == [] {
    } else {
      hide IncrReasonParts, IncrParts, WithReason, ReasonCellsOf, CellsOf;
      var front, last := rows[..|rows| - 1], rows[|rows| - 1];
      assert rows == front + [last] && last in rows;
      ReasonCellsMeaning(front, measure, reason);
      WithReasonStep(front, last, reason);
      ReasonCellsStep(front, last, measure);
      CellsStep(WithReason(front, reason), last, measure);
      NoRowsNoCells(measure);
    }
  }

  // ---- Nested sums against totals ----

  lemma NestedSumIncr(cells: Cells, user: string, part: string, count: real)
    ensures NestedSum(IncrCell(cells, user, part, count)) == NestedSum(cells) + count
  {
    var child := if user in cells then cells[user] else map[];
    var child' := child[part := (if part in child then child[part] else 0.0) + count];
    SumMapPut(child, part, (if part in child then child[part] else 0.0) + count);
    assert RowSums(IncrCell(cells, user, part, count)) == RowSums(cells)[user := SumMap(child')];
    SumMapPut(RowSums(cells), user, SumMap(child'));
  }

  lemma {:induction false} NestedSumParts(cells: Cells, user: string, parts: seq<string>, count: real)
    ensures NestedSum(IncrParts(cells, user, parts, count)) == NestedSum(cells) + Times(|parts|, count)
  {
    hide Times, NestedSum;
    if parts == [] {
      TimesStep(0, count);
    } else {
      var n := |parts| - 1;
      NestedSumParts(cells, user, parts[..n], count);
      NestedSumIncr(IncrParts(cells, user, parts[..n], count), user, parts[n], count);
      TimesStep(n, count);
    }
  }

  /** Partitions of a row times its weight. */
  function FannedOut(measure: Measure): Row -> real {
    (r: Row) => Times(|r.parts|, Weight(measure, r))
  }

  /** Summing all cells of a state counts every row once per partition it lists. */
  lemma {:induction false} NestedSumOfRows(rows: seq<Row>, measure: Measure)
    ensures NestedSum(CellsOf(rows, measure)) == SumBy(rows, FannedOut(measure))
  {
    if rows == [] {
      NothingNested<string, string>();
    } else {
      var front, last := rows[..|rows| - 1], rows[|rows| - 1];
      NestedSumOfRows(front, measure);
      NestedSumParts(CellsOf(front, measure), last.user, last.parts, Weight(measure, last));
    }
  }

  lemma {:induction false} FannedOutAgainstTotal(rows: seq<Row>)
    requires forall r | r in rows :: r.parts != []
    ensures SumBy(rows, FannedOut(Jobs)) >= |rows| as real
    ensures SumBy(rows, FannedOut(Jobs)) == |rows| as real <==> forall r | r in rows :: |r.parts| == 1
  {
    if rows == [] {
    } else {
      var front, last := rows[..|rows| - 1], rows[|rows| - 1];
      assert rows == front + [last];
      assert last in rows;
      FannedOutAgainstTotal(front);
    }
  }

  /** The sum over partitions is at least the job total, and equal exactly when no job lists several. */
  lemma NestedSumAgainstTotal(rows: seq<Row>)
    requires forall r | r in rows :: r.parts != []
    ensures NestedSum(CellsOf(rows, Jobs)) >= |rows| as real
    ensures NestedSum(CellsOf(rows, Jobs)) == |rows| as real <==> forall r | r in rows :: |r.parts| == 1
  {
    NestedSumOfRows(rows, Jobs);
    FannedOutAgainstTotal(rows);
  }

  /** Every row lists at least one partition. */
  lemma RowsListPartitions(input: string)
    ensures forall r | r in Rows(input) :: r.parts != []
  {
    hide SplitN;
    forall r | r in Rows(input)
      ensures r.parts != []
    {
      ParsedFrom(ParseRow, Split(input, '\n'), r);
    }
  }
}
