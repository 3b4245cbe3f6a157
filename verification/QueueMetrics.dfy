/**
 QueueMetrics and the loop of ParseQueueMetrics (internal/collector/queue.go): twenty-two nested maps, of
 which a row touches the two of its own state, and two maps of cluster-wide totals.
 */
module QueueMetrics {
  import opened Text
  import opened Numbers
  import opened Parsing
  import opened Sums
  import opened Queue
  import PartitionNames

  function CoreWeight(): Row -> real {
    (r: Row) => r.cores as real
  }

  lemma SelectStep(rows: seq<Row>, r: Row, state: string)
    ensures Select(rows + [r], state) == if r.state == state then Select(rows, state) + [r] else Select(rows, state)
  {
  }

  /** The two maps of one state hold the rows of that state. */
  predicate StateHolds(jobs: NVal, jobCores: NVal, rows: seq<Row>, state: string)
    reads jobs, jobCores
  {
    jobs.cells == CellsOf(Select(rows, state), Jobs) && jobCores.cells == CellsOf(Select(rows, state), Cores)
  }

  /** The pending maps hold the pending rows, by reason. */
  predicate PendingHolds(jobs: NNVal, jobCores: NNVal, rows: seq<Row>)
    reads jobs, jobCores
  {
    && jobs.cells == ReasonCellsOf(Select(rows, PENDING), Jobs)
    && jobCores.cells == ReasonCellsOf(Select(rows, PENDING), Cores)
  }

  /** The totals count each row of a known state once. */
  ghost predicate TotalsHold(jobTotals: map<string, real>, coreTotals: map<string, real>, rows: seq<Row>) {
    forall state ::
      && At(jobTotals, state) == (if KnownState(state) then |Select(rows, state)| as real else 0.0)
      && At(coreTotals, state) == (if KnownState(state) then SumBy(Select(rows, state), CoreWeight()) else 0.0)
  }

  lemma IncrNoParts(cells: Cells, user: string, parts: seq<string>, count: real)
    ensures IncrParts(cells, user, parts[..0], count) == cells
  {
  }

  lemma IncrReasonNoParts(cells: ReasonCells, reason: string, user: string, parts: seq<string>, count: real)
    ensures IncrReasonParts(cells, reason, user, parts[..0], count) == cells
  {
  }

  lemma IncrPartsStep(cells: Cells, user: string, parts: seq<string>, i: nat, count: real)
    requires i < |parts|
    ensures IncrParts(cells, user, parts[..i + 1], count)
         == IncrCell(IncrParts(cells, user, parts[..i], count), user, parts[i], count)
  {
    assert parts[..i + 1][..i] == parts[..i];
  }

  lemma IncrReasonPartsStep(cells: ReasonCells, reason: string, user: string, parts: seq<string>, i: nat, count: real)
    requires i < |parts|
    ensures IncrReasonParts(cells, reason, user, parts[..i + 1], count)
         == IncrReason(IncrReasonParts(cells, reason, user, parts[..i], count), reason, user, parts[i], count)
  {
    assert parts[..i + 1][..i] == parts[..i];
  }

  /** The states counted by user and partition alone. */
  const STATES: seq<string> := [RUNNING, SUSPENDED, CANCELLED, COMPLETING, COMPLETED, CONFIGURING, FAILED, TIMEOUT,
                                PREEMPTED, NODE_FAIL]

  lemma StatesDistinct()
    ensures forall i | 0 <= i < |STATES| :: KnownState(STATES[i]) && STATES[i] != PENDING
    ensures forall i, j | 0 <= i < j < |STATES| :: STATES[i] != STATES[j]
  {
  }

  /** What one more row does to the maps of its state, and to those of every other state. */
  lemma RowStep(rows: seq<Row>, r: Row)
    ensures forall state | state != r.state :: Select(rows + [r], state) == Select(rows, state)
    ensures CellsOf(Select(rows + [r], r.state), Jobs) ==
              IncrParts(CellsOf(Select(rows, r.state), Jobs), r.user, r.parts, 1.0)
    ensures CellsOf(Select(rows + [r], r.state), Cores) ==
              IncrParts(CellsOf(Select(rows, r.state), Cores), r.user, r.parts, r.cores as real)
    ensures ReasonCellsOf(Select(rows + [r], r.state), Jobs)
         == IncrReasonParts(ReasonCellsOf(Select(rows, r.state), Jobs), r.reason, r.user, r.parts, 1.0)
    ensures ReasonCellsOf(Select(rows + [r], r.state), Cores)
         == IncrReasonParts(ReasonCellsOf(Select(rows, r.state), Cores), r.reason, r.user, r.parts, r.cores as real)
  {
    forall state: string
      ensures Select(rows + [r], state) == if r.state == state then Select(rows, state) + [r] else Select(rows, state)
    {
      SelectStep(rows, r, state);
    }
    var some := Select(rows, r.state);
    assert (some + [r])[..|some|] == some;
  }

  /** What it does to the totals. */
  lemma TotalsStep(rows: seq<Row>, r: Row, jobTotals: map<string, real>, coreTotals: map<string, real>)
    requires TotalsHold(jobTotals, coreTotals, rows)
    ensures if KnownState(r.state)
            then TotalsHold(jobTotals[r.state := At(jobTotals, r.state) + 1.0],
                            coreTotals[r.state := At(coreTotals, r.state) + r.cores as real], rows + [r])
            else TotalsHold(jobTotals, coreTotals, rows + [r])
  {
    hide Select, KnownState, SumBy;
    forall state: string
      ensures |Select(rows + [r], state)| == |Select(rows, state)| + if r.state == state then 1 else 0
      ensures SumBy(Select(rows + [r], state), CoreWeight()) ==
              SumBy(Select(rows, state), CoreWeight()) + if r.state == state then r.cores as real else 0.0
    {
      SelectStep(rows, r, state);
      SumByStep(Select(rows, state), r, CoreWeight());
    }
  }

  /**
   QueueMetrics: the two pending maps, the two maps of each other state (running and cRunning first, in the
   order of STATES), and the totals.
   */
  class QueueMetrics {
    const pending: NNVal
    const cPending: NNVal
    const table: seq<(NVal, NVal)>

    var jobTotals: map<string, real>
    var coreTotals: map<string, real>

    /** No two maps are the same object. */
    ghost predicate Valid() {
      && |table| == |STATES|
      && (forall i | 0 <= i < |table| :: table[i].0.tag == i + 1 && table[i].1.tag == -i - 1)
      && pending.tag == 1 && cPending.tag == -1
    }

    function Maps(): set<object> {
      {pending, cPending} + (set i | 0 <= i < |table| :: table[i].0) + (set i | 0 <= i < |table| :: table[i].1)
    }

    /** Each pair of maps holds the rows of its state, and of no other; the totals hold them all. */
    ghost predicate Holds(rows: seq<Row>)
      reads this, Maps()
    {
      && Valid()
      && PendingHolds(pending, cPending, rows)
      && (forall i | 0 <= i < |table| :: StateHolds(table[i].0, table[i].1, rows, STATES[i]))
      && TotalsHold(jobTotals, coreTotals, rows)
    }

    constructor ()
      ensures Holds([])
      ensures fresh(Maps())
    {
      var pairs: seq<(NVal, NVal)> := [];
      for i := 0 to |STATES|
        invariant |pairs| == i
        invariant forall k | 0 <= k < i :: fresh(pairs[k].0) && fresh(pairs[k].1)
        invariant forall k | 0 <= k < i :: pairs[k].0.tag == k + 1 && pairs[k].1.tag == -k - 1
        invariant forall k | 0 <= k < i :: pairs[k].0.cells == map[] && pairs[k].1.cells == map[]
      {
        var jobs := new NVal(i + 1);
        var jobCores := new NVal(-i - 1);
        pairs := pairs + [(jobs, jobCores)];
      }
      table := pairs;
      pending := new NNVal(1);
      cPending := new NNVal(-1);
      jobTotals, coreTotals := map[], map[];
    }

    /** The closure addN: the row counted in each of its partitions, and once in the totals. */
    method AddN(jobs: NVal, jobCores: NVal, r: Row)
      requires jobs.tag != jobCores.tag
      modifies jobs, jobCores, this`jobTotals, this`coreTotals
      ensures jobs.cells == IncrParts(old(jobs.cells), r.user, r.parts, 1.0)
      ensures jobCores.cells == IncrParts(old(jobCores.cells), r.user, r.parts, r.cores as real)
      ensures jobTotals == old(jobTotals)[r.state := At(old(jobTotals), r.state) + 1.0]
      ensures coreTotals == old(coreTotals)[r.state := At(old(coreTotals), r.state) + r.cores as real]
    {
      hide IncrParts, IncrCell;
      IncrNoParts(jobs.cells, r.user, r.parts, 1.0);
      IncrNoParts(jobCores.cells, r.user, r.parts, r.cores as real);
      for i := 0 to |r.parts|
        invariant jobs.cells == IncrParts(old(jobs.cells), r.user, r.parts[..i], 1.0)
        invariant jobCores.cells == IncrParts(old(jobCores.cells), r.user, r.parts[..i], r.cores as real)
        invariant jobTotals == old(jobTotals) && coreTotals == old(coreTotals)
      {
        IncrPartsStep(old(jobs.cells), r.user, r.parts, i, 1.0);
        IncrPartsStep(old(jobCores.cells), r.user, r.parts, i, r.cores as real);
        jobs.Incr(r.user, r.parts[i], 1.0);
        jobCores.Incr(r.user, r.parts[i], r.cores as real);
      }
      assert r.parts[..|r.parts|] == r.parts;
      jobTotals := jobTotals[r.state := At(jobTotals, r.state) + 1.0];
      coreTotals := coreTotals[r.state := At(coreTotals, r.state) + r.cores as real];
    }

    /** The closure addNN: the same by reason. */
    method AddNN(jobs: NNVal, jobCores: NNVal, r: Row)
      requires jobs.tag != jobCores.tag
      modifies jobs, jobCores, this`jobTotals, this`coreTotals
      ensures jobs.cells == IncrReasonParts(old(jobs.cells), r.reason, r.user, r.parts, 1.0)
      ensures jobCores.cells == IncrReasonParts(old(jobCores.cells), r.reason, r.user, r.parts, r.cores as real)
      ensures jobTotals == old(jobTotals)[r.state := At(old(jobTotals), r.state) + 1.0]
      ensures coreTotals == old(coreTotals)[r.state := At(old(coreTotals), r.state) + r.cores as real]
    {
      hide IncrReasonParts, IncrReason;
      IncrReasonNoParts(jobs.cells, r.reason, r.user, r.parts, 1.0);
      IncrReasonNoParts(jobCores.cells, r.reason, r.user, r.parts, r.cores as real);
      for i := 0 to |r.parts|
        invariant jobs.cells == IncrReasonParts(old(jobs.cells), r.reason, r.user, r.parts[..i], 1.0)
        invariant jobCores.cells ==
                    IncrReasonParts(old(jobCores.cells), r.reason, r.user, r.parts[..i], r.cores as real)
        invariant jobTotals == old(jobTotals) && coreTotals == old(coreTotals)
      {
        IncrReasonPartsStep(old(jobs.cells), r.reason, r.user, r.parts, i, 1.0);
        IncrReasonPartsStep(old(jobCores.cells), r.reason, r.user, r.parts, i, r.cores as real);
        jobs.Incr2(r.reason, r.user, r.parts[i], 1.0);
        jobCores.Incr2(r.reason, r.user, r.parts[i], r.cores as real);
      }
      assert r.parts[..|r.parts|] == r.parts;
      jobTotals := jobTotals[r.state := At(jobTotals, r.state) + 1.0];
      coreTotals := coreTotals[r.state := At(coreTotals, r.state) + r.cores as real];
    }

    /** One branch of the switch: the maps of one state change, and those of the other states do not. */
    method AddToState(k: nat, r: Row, ghost rows: seq<Row>)
      requires k < |table| == |STATES| && r.state == STATES[k] && Holds(rows)
      modifies this`jobTotals, this`coreTotals, table[k].0, table[k].1
      ensures Holds(rows + [r])
    {
      hide Select, CellsOf, ReasonCellsOf, IncrParts, TotalsHold;
      RowStep(rows, r);
      TotalsStep(rows, r, jobTotals, coreTotals);
      StatesDistinct();
      hide STATES, KnownState, PendingHolds;
      AddN(table[k].0, table[k].1, r);
      forall i | 0 <= i < |table|
        ensures StateHolds(table[i].0, table[i].1, rows + [r], STATES[i])
      {
        assert i != k ==> STATES[i] != STATES[k];
      }
    }

    method AddPending(r: Row, ghost rows: seq<Row>)
      requires r.state == PENDING && Holds(rows)
      modifies this`jobTotals, this`coreTotals, pending, cPending
      ensures Holds(rows + [r])
    {
      hide Select, CellsOf, ReasonCellsOf, IncrReasonParts, TotalsHold;
      RowStep(rows, r);
      TotalsStep(rows, r, jobTotals, coreTotals);
      StatesDistinct();
      AddNN(pending, cPending, r);
    }

    lemma UnknownKept(r: Row, rows: seq<Row>)
      requires Holds(rows) && !KnownState(r.state)
      ensures Holds(rows + [r])
    {
      hide Select, CellsOf, ReasonCellsOf, TotalsHold;
      RowStep(rows, r);
      TotalsStep(rows, r, jobTotals, coreTotals);
      StatesDistinct();
    }

    /** The switch over the states: a row of an unknown state changes nothing. */
    method AddRow(r: Row, ghost rows: seq<Row>)
      requires Holds(rows)
      modifies this, Maps()
      ensures Holds(rows + [r])
    {
      assert |table| == |STATES|;
      hide Holds;
      if r.state == PENDING {
        AddPending(r, rows);
      } else if r.state == RUNNING {
        AddToState(0, r, rows);
      } else if r.state == SUSPENDED {
        AddToState(1, r, rows);
      } else if r.state == CANCELLED {
        AddToState(2, r, rows);
      } else if r.state == COMPLETING {
        AddToState(3, r, rows);
      } else if r.state == COMPLETED {
        AddToState(4, r, rows);
      } else if r.state == CONFIGURING {
        AddToState(5, r, rows);
      } else if r.state == FAILED {
        AddToState(6, r, rows);
      } else if r.state == TIMEOUT {
        AddToState(7, r, rows);
      } else if r.state == PREEMPTED {
        AddToState(8, r, rows);
      } else if r.state == NODE_FAIL {
        AddToState(9, r, rows);
      } else {
        UnknownKept(r, rows);
      }
    }
  }

  lemma NoPipeNoRow(line: string)
    requires '|' !in line
    ensures ParseRow(line) == None
  {
  }

  /** ParseQueueMetrics. */
  method ParseQueueMetrics(input: string) returns (qm: QueueMetrics)
    ensures fresh(qm) && fresh(qm.Maps()) && qm.Holds(Rows(input))
  {
    hide QueueMetrics.Holds, ParseRow, Parsed;
    qm := new QueueMetrics();
    var lines := Split(input, '\n');
    ParsedNothing(ParseRow, lines);
    for i := 0 to |lines|
      invariant fresh(qm) && fresh(qm.Maps()) && qm.Holds(Parsed(ParseRow, lines[..i]))
    {
      ParsedStep(ParseRow, lines, i);
      if '|' in lines[i] {
        var parsed := ParseRow(lines[i]);
        if parsed.None? {
          continue;
        }
        qm.AddRow(parsed.value, Parsed(ParseRow, lines[..i]));
      } else {
        NoPipeNoRow(lines[i]);
      }
    }
    assert lines[..|lines|] == lines;
  }

  // ---- One printed row ----

  /** Which word each pair of maps stands for, in the order of the table. */
  lemma StatesAreSpelled()
    ensures STATES == ["RUNNING", "SUSPENDED", "CANCELLED", "COMPLETING", "COMPLETED", "CONFIGURING", "FAILED",
                       "TIMEOUT", "PREEMPTED", "NODE_FAIL"]
    ensures PENDING == "PENDING"
  {
  }

  /** A row of one partition as squeue prints it. */
  function PrintRow(part: string, state: string, cores: nat, reason: string, user: string): string {
    Join([part, state, Decimal(cores), reason, user], "|")
  }

  predicate PrintableRow(part: string, state: string, cores: nat, reason: string, user: string) {
    && PartitionNames.PlainName(part) && '|' !in part && '|' !in state && '|' !in reason
    && '\n' !in part && '\n' !in state && '\n' !in reason && '\n' !in user
    && Trimmed(user) && cores <= 9223372036854775807
  }

  lemma PrintedRowReadsBack(part: string, state: string, cores: nat, reason: string, user: string)
    requires PrintableRow(part, state, cores, reason, user)
    ensures Rows(PrintRow(part, state, cores, reason, user)) == [Row([part], state, cores, reason, user)]
  {
    hide ParseRow, Join, Atoi, PartitionNames.Names, Decimal, Trimmed;
    DecimalReadsBack(cores);
    AtoiReadsBack(cores);
    PipesBelongToUser(part, state, Decimal(cores), reason, user);
    TrimSpaceKeepsTrimmed(user);
    PartitionNames.OneReadsBack(part);
    var fields := [part, state, Decimal(cores), reason, user];
    JoinChars(fields, "|", '\n');
    OneRow(Join(fields, "|"), Row([part], state, cores, reason, user));
  }

  function OneCell(user: string, part: string, count: real): Cells {
    map[user := map[part := count]]
  }

  lemma OnePart(user: string, part: string, reason: string, count: real)
    ensures IncrParts(map[], user, [part], count) == OneCell(user, part, count)
    ensures IncrReasonParts(map[], reason, user, [part], count) == map[reason := OneCell(user, part, count)]
  {
    assert [part][..0] == [];
    assert IncrParts(map[], user, [], count) == map[];
    assert IncrReasonParts(map[], reason, user, [], count) == map[];
    assert IncrCell(map[], user, part, count) == map[user := map[part := 0.0 + count]];
  }

  lemma OneRowCells(r: Row, part: string, state: string)
    requires r.parts == [part]
    ensures Select([r], state) == if r.state == state then [r] else []
    ensures CellsOf([], Jobs) == map[] && CellsOf([], Cores) == map[]
    ensures ReasonCellsOf([], Jobs) == map[] && ReasonCellsOf([], Cores) == map[]
    ensures CellsOf([r], Jobs) == OneCell(r.user, part, 1.0)
    ensures CellsOf([r], Cores) == OneCell(r.user, part, r.cores as real)
    ensures ReasonCellsOf([r], Jobs) == map[r.reason := OneCell(r.user, part, 1.0)]
    ensures ReasonCellsOf([r], Cores) == map[r.reason := OneCell(r.user, part, r.cores as real)]
  {
    SelectStep([], r, state);
    assert [] + [r] == [r] && [r][..0] == [];
    hide IncrParts, IncrReasonParts, OneCell;
    OnePart(r.user, part, r.reason, 1.0);
    OnePart(r.user, part, r.reason, r.cores as real);
  }

  /** One row of a known state counts once in the maps of that state and nowhere else; any other counts nowhere. */
  lemma PrintedRowCounts(qm: QueueMetrics, part: string, state: string, cores: nat, reason: string, user: string)
    requires PrintableRow(part, state, cores, reason, user)
    requires qm.Holds(Rows(PrintRow(part, state, cores, reason, user)))
    ensures qm.pending.cells == if state == "PENDING" then map[reason := OneCell(user, part, 1.0)] else map[]
    ensures qm.cPending.cells == if state == "PENDING" then map[reason := OneCell(user, part, cores as real)] else map[]
    ensures forall i | 0 <= i < |qm.table| ::
              qm.table[i].0.cells == (if state == STATES[i] then OneCell(user, part, 1.0) else map[])
    ensures forall i | 0 <= i < |qm.table| ::
              qm.table[i].1.cells == (if state == STATES[i] then OneCell(user, part, cores as real) else map[])
  {
    hide Rows, PrintRow, PrintableRow, CellsOf, ReasonCellsOf, Select, TotalsHold, OneCell, STATES;
    PrintedRowReadsBack(part, state, cores, reason, user);
    var r := Row([part], state, cores, reason, user);
    OneRowCells(r, part, PENDING);
    forall i | 0 <= i < |qm.table|
      ensures qm.table[i].0.cells == (if state == STATES[i] then OneCell(user, part, 1.0) else map[])
      ensures qm.table[i].1.cells == (if state == STATES[i] then OneCell(user, part, cores as real) else map[])
    {
      assert StateHolds(qm.table[i].0, qm.table[i].1, [r], STATES[i]);
      OneRowCells(r, part, STATES[i]);
    }
  }

  /** And once in the totals, with its cores. */
  lemma PrintedRowTotals(qm: QueueMetrics, part: string, state: string, cores: nat, reason: string, user: string,
                         word: string)
    requires PrintableRow(part, state, cores, reason, user)
    requires qm.Holds(Rows(PrintRow(part, state, cores, reason, user)))
    ensures var counted := word == state && word in {
                             "PENDING", "RUNNING", "SUSPENDED", "CANCELLED", "COMPLETING", "COMPLETED", "CONFIGURING",
                             "FAILED", "TIMEOUT", "PREEMPTED", "NODE_FAIL"};
            && At(qm.jobTotals, word) == (if counted then 1.0 else 0.0)
            && At(qm.coreTotals, word) == (if counted then cores as real else 0.0)
  {
    hide Rows, PrintRow, PrintableRow, CellsOf, ReasonCellsOf, Select, KnownState, At;
    PrintedRowReadsBack(part, state, cores, reason, user);
    var r := Row([part], state, cores, reason, user);
    OneRowCells(r, part, word);
    KnownStateIff(word);
    SumByStep([], r, CoreWeight());
    assert [] + [r] == [r];
  }
}
