/**
 GPU accounting of internal/collector/gpus.go: one sinfo snapshot is re-emitted as three texts, each text
 is parsed on its own, and the results are combined.
 */
module GpuSnapshot {
  import opened Text
  import opened Numbers
  import opened Parsing
  import opened Permutations
  import opened Sums
  import Gres

  /** One well-formed line of "<nodes> <StateLong> <Gres> <GresUsed>". */
  datatype Row = Row(nodes: string, state: string, gres: string, used: string)

  function RowOf(line: string): Option<Row> {
    var f := Fields(line);
    if |f| < 4 then None else Some(Row(f[0], f[1], f[2], f[3]))
  }

  /** The rows of a snapshot. */
  function Rows(data: string): seq<Row> {
    Parsed(RowOf, Split(data, '\n'))
  }

  predicate WellFormed(r: Row) {
    IsWord(r.nodes) && IsWord(r.state) && IsWord(r.gres) && IsWord(r.used)
  }

  lemma RowsAreWellFormed(data: string)
    ensures forall i | 0 <= i < |Rows(data)| :: WellFormed(Rows(data)[i])
  {
    forall i | 0 <= i < |Rows(data)|
      ensures WellFormed(Rows(data)[i])
    {
      ParsedFrom(RowOf, Split(data, '\n'), Rows(data)[i]);
      var line :| line in Split(data, '\n') && RowOf(line) == Some(Rows(data)[i]);
      FieldsAreWords(line);
    }
  }

  // ---- States ----

  predicate IsLowerLetter(c: char) {
    'a' <= c <= 'z'
  }

  function LettersLength(s: string): (n: nat)
    ensures n <= |s|
  {
    if s == "" || !IsLowerLetter(s[0]) then 0 else 1 + LettersLength(s[1..])
  }

  function BaseState(state: string): string {
    ToLower(state)[..LettersLength(ToLower(state))]
  }

  lemma {:induction false} LettersLengthIs(s: string, n: nat)
    requires n <= |s| && forall j | 0 <= j < n :: IsLowerLetter(s[j])
    requires n < |s| ==> !IsLowerLetter(s[n])
    ensures LettersLength(s) == n
  {
    if n == 0 {
    } else {
      LettersLengthIs(s[1..], n - 1);
    }
  }

  /** baseGPUState: the leading letters, in lower case. */
  method BaseGpuState(state: string) returns (base: string)
    ensures base <= ToLower(state)
    ensures forall i | 0 <= i < |base| :: IsLowerLetter(base[i])
    ensures |base| < |state| ==> !IsLowerLetter(ToLower(state)[|base|])
    ensures base == BaseState(state)
  {
    var lower := ToLower(state);
    for i := 0 to |lower|
      invariant forall j | 0 <= j < i :: IsLowerLetter(lower[j])
    {
      if lower[i] < 'a' || lower[i] > 'z' {
        LettersLengthIs(lower, i);
        return lower[..i];
      }
    }
    LettersLengthIs(lower, |lower|);
    return lower;
  }

  predicate IsAvailable(state: string) {
    BaseState(state) in {"idle", "allocated", "mixed"}
  }

  /** isAvailableGPUState. */
  method IsAvailableGpuState(state: string) returns (available: bool)
    ensures available == IsAvailable(state)
  {
    var base := BaseGpuState(state);
    available := base in {"idle", "allocated", "mixed"};
  }

  lemma {:induction false} LettersLengthSplits(s: string)
    ensures var n := LettersLength(s);
            (forall j | 0 <= j < n :: IsLowerLetter(s[j])) && (n < |s| ==> !IsLowerLetter(s[n]))
  {
    if s == "" || !IsLowerLetter(s[0]) {
    } else {
      LettersLengthSplits(s[1..]);
    }
  }

  /** Whatever flag suffix sinfo appends, a state is judged by its leading word. */
  lemma FlagsDoNotMatter(state: string, flags: string)
    requires flags != "" ==> !IsLowerLetter(LowerChar(flags[0]))
    ensures BaseState(state + flags) == BaseState(state)
    ensures IsAvailable(state + flags) <==> IsAvailable(state)
  {
    var n := LettersLength(ToLower(state));
    LettersLengthSplits(ToLower(state));
    var lower := ToLower(state + flags);
    assert forall i :: 0 <= i < |state| ==> lower[i] == ToLower(state)[i];
    LettersLengthIs(lower, n);
    assert lower[..n] == ToLower(state)[..n];
  }

  /** A lower-case text starts with this word, and the word ends there. */
  predicate LeadsWith(lower: string, word: string) {
    word <= lower && (lower == word || !('a' <= lower[|word|] <= 'z'))
  }

  lemma LeadingWordIs(lower: string, word: string)
    requires forall i | 0 <= i < |word| :: 'a' <= word[i] <= 'z'
    ensures LeadsWith(lower, word) <==> lower[..LettersLength(lower)] == word
  {
    LettersLengthSplits(lower);
    if LeadsWith(lower, word) {
      assert forall j :: 0 <= j < |word| ==> lower[j] == word[j];
      LettersLengthIs(lower, |word|);
    }
  }

  /** A state is available exactly when it leads with one of three words, whatever its case. */
  lemma AvailableIff(state: string)
    ensures var lower := ToLower(state);
            IsAvailable(state) <==>
            LeadsWith(lower, "idle") || LeadsWith(lower, "allocated") || LeadsWith(lower, "mixed")
  {
    var lower := ToLower(state);
    LeadingWordIs(lower, "idle");
    LeadingWordIs(lower, "allocated");
    LeadingWordIs(lower, "mixed");
  }

  // ---- The three views ----

  function TotalLine(r: Row): string {
    r.nodes + " " + r.gres
  }

  function AllocLine(r: Row): string {
    r.nodes + " " + r.used
  }

  function IdleLine(r: Row): string {
    r.nodes + " " + r.gres + " " + r.used
  }

  function Available(rows: seq<Row>): seq<Row> {
    Filter(rows, (r: Row) => IsAvailable(r.state))
  }

  function Unavailable(rows: seq<Row>): seq<Row> {
    Filter(rows, (r: Row) => !IsAvailable(r.state))
  }

  lemma EmitStep(rows: seq<Row>, r: Row, line: Row -> string)
    ensures Unlines(Map(rows + [r], line)) == Unlines(Map(rows, line)) + (line(r) + "\n")
  {
    MapAppend(rows, r, line);
    UnlinesAppend(Map(rows, line), line(r));
  }

  lemma AvailableStep(rows: seq<Row>, r: Row)
    ensures Available(rows + [r]) == Available(rows) + if IsAvailable(r.state) then [r] else []
  {
  }

  /** The texts the views hold after these rows. */
  predicate HoldsViews(rows: seq<Row>, total: string, alloc: string, idle: string) {
    && total == Unlines(Map(rows, TotalLine))
    && alloc == Unlines(Map(Available(rows), AllocLine))
    && idle == Unlines(Map(Available(rows), IdleLine))
  }

  lemma HoldsViewsStep(rows: seq<Row>, r: Row, total: string, alloc: string, idle: string)
    requires HoldsViews(rows, total, alloc, idle)
    ensures if IsAvailable(r.state)
            then HoldsViews(rows + [r], total + (TotalLine(r) + "\n"), alloc + (AllocLine(r) + "\n"),
                            idle + (IdleLine(r) + "\n"))
            else HoldsViews(rows + [r], total + (TotalLine(r) + "\n"), alloc, idle)
  {
    EmitStep(rows, r, TotalLine);
    AvailableStep(rows, r);
    if !IsAvailable(r.state) {
      assert Available(rows) + [] == Available(rows);
    }
    EmitStep(Available(rows), r, AllocLine);
    EmitStep(Available(rows), r, IdleLine);
  }

  lemma NoRowsNoViews(lines: seq<string>)
    ensures HoldsViews(Parsed(RowOf, lines[..0]), "", "", "")
  {
  }

  /** splitGPUViews. */
  method SplitGpuViews(data: string) returns (total: string, alloc: string, idle: string)
    ensures HoldsViews(Rows(data), total, alloc, idle)
  {
    hide HoldsViews, Parsed, IsAvailable;
    total, alloc, idle := "", "", "";
    var lines := Split(data, '\n');
    NoRowsNoViews(lines);
    for i := 0 to |lines|
      invariant HoldsViews(Parsed(RowOf, lines[..i]), total, alloc, idle)
    {
      ParsedStep(RowOf, lines, i);
      var fields := Fields(lines[i]);
      if |fields| < 4 {
        continue;
      }
      var nodes, state, gres, used := fields[0], fields[1], fields[2], fields[3];
      HoldsViewsStep(Parsed(RowOf, lines[..i]), Row(nodes, state, gres, used), total, alloc, idle);
      total := total + (nodes + " " + gres + "\n");
      var available := IsAvailableGpuState(state);
      if available {
        alloc := alloc + (nodes + " " + used + "\n");
        idle := idle + (nodes + " " + gres + " " + used + "\n");
      }
    }
    assert lines[..|lines|] == lines;
  }

  // ---- The three parsers ----

  /** Nodes times GPUs per node. */
  function NodeGpus(read: FloatReader, nodes: string, gres: string): real {
    FloatOrZero(read, nodes) * Gres.GpuCount(gres) as real
  }

  /** What one line of a two-column text contributes. */
  function TwoColumnGpus(read: FloatReader, line: string): real {
    var f := Fields(line);
    if !Contains(line, "gpu:") || |f| < 2 then 0.0
    else NodeGpus(read, f[0], f[1])
  }

  /** What one line of the idle text contributes; the allocated column may be missing. */
  function IdleGpus(read: FloatReader, line: string): real {
    var f := Fields(line);
    if !Contains(line, "gpu:") || |f| < 2 then 0.0
    else if |f| == 2 then NodeGpus(read, f[0], f[1])
    else NodeGpus(read, f[0], f[1]) - NodeGpus(read, f[0], f[2])
  }

  function TwoColumns(read: FloatReader): string -> real {
    line => TwoColumnGpus(read, line)
  }

  function IdleColumns(read: FloatReader): string -> real {
    line => IdleGpus(read, line)
  }

  /** The loop body of ParseTotalGPUs and ParseAllocatedGPUs. */
  method ParseTwoColumnLine(read: FloatReader, line: string) returns (gpus: real)
    ensures gpus == TwoColumnGpus(read, line)
  {
    hide Gres.GpuCount;
    gpus := 0.0;
    if line != "" && Contains(line, "gpu:") {
      var fields := Fields(line);
      if |fields| < 2 {
        return;
      }
      var count := Gres.ParseGpuCount(fields[1]);
      gpus := FloatOrZero(read, fields[0]) * count as real;
    }
  }

  /** ParseTotalGPUs and ParseAllocatedGPUs: the same loop, over the configured or the used column. */
  method ParseTwoColumns(read: FloatReader, data: string) returns (gpus: real)
    ensures gpus == SumBy(Split(data, '\n'), TwoColumns(read))
  {
    hide TwoColumnGpus;
    gpus := 0.0;
    var lines := Split(data, '\n');
    for i := 0 to |lines|
      invariant gpus == SumBy(lines[..i], TwoColumns(read))
    {
      PrefixStep(lines, i);
      SumByStep(lines[..i], lines[i], TwoColumns(read));
      var more := ParseTwoColumnLine(read, lines[i]);
      gpus := gpus + more;
    }
    assert lines[..|lines|] == lines;
  }

  /** The loop body of ParseIdleGPUs. */
  method ParseIdleLine(read: FloatReader, line: string) returns (gpus: real)
    ensures gpus == IdleGpus(read, line)
  {
    hide Gres.GpuCount;
    gpus := 0.0;
    if line != "" && Contains(line, "gpu:") {
      var fields := Fields(line);
      if |fields| < 1 {
        return;
      }
      var nodes := FloatOrZero(read, fields[0]);
      if |fields| == 1 {
        gpus := 0.0;
      } else if |fields| == 2 {
        var total := Gres.ParseGpuCount(fields[1]);
        gpus := nodes * total as real;
      } else {
        var total := Gres.ParseGpuCount(fields[1]);
        var taken := Gres.ParseGpuCount(fields[2]);
        var idle := total as real - taken as real;
        gpus := nodes * idle;
        assert nodes * (total as real - taken as real) == nodes * total as real - nodes * taken as real;
      }
    }
  }

  /** ParseIdleGPUs. */
  method ParseIdleGpus(read: FloatReader, data: string) returns (gpus: real)
    ensures gpus == SumBy(Split(data, '\n'), IdleColumns(read))
  {
    hide IdleGpus;
    gpus := 0.0;
    var lines := Split(data, '\n');
    for i := 0 to |lines|
      invariant gpus == SumBy(lines[..i], IdleColumns(read))
    {
      PrefixStep(lines, i);
      SumByStep(lines[..i], lines[i], IdleColumns(read));
      var more := ParseIdleLine(read, lines[i]);
      gpus := gpus + more;
    }
    assert lines[..|lines|] == lines;
  }

  // ---- What the views mean ----

  function Configured(read: FloatReader): Row -> real {
    (r: Row) => NodeGpus(read, r.nodes, r.gres)
  }

  function Used(read: FloatReader): Row -> real {
    (r: Row) => NodeGpus(read, r.nodes, r.used)
  }

  function Unused(read: FloatReader): Row -> real {
    (r: Row) => NodeGpus(read, r.nodes, r.gres) - NodeGpus(read, r.nodes, r.used)
  }

  lemma TwoWords(nodes: string, gres: string)
    requires IsWord(nodes) && IsWord(gres)
    ensures Fields(nodes + " " + gres) == [nodes, gres]
    ensures '\n' !in nodes + " " + gres
  {
    assert Join([nodes, gres], " ") == nodes + " " + gres;
    FieldsOfJoin([nodes, gres]);
  }

  lemma ThreeWords(nodes: string, gres: string, used: string)
    requires IsWord(nodes) && IsWord(gres) && IsWord(used)
    ensures Fields(nodes + " " + gres + " " + used) == [nodes, gres, used]
    ensures '\n' !in nodes + " " + gres + " " + used
  {
    var words := [nodes, gres, used];
    assert words[1..] == [gres, used];
    assert Join(words[1..], " ") == gres + " " + used;
    assert Join(words, " ") == nodes + " " + gres + " " + used by {
      assert nodes + " " + (gres + " " + used) == nodes + " " + gres + " " + used;
    }
    FieldsOfJoin(words);
  }

  lemma NodeGpusNeedText(read: FloatReader, nodes: string, gres: string)
    ensures !Contains(gres, "gpu:") ==> NodeGpus(read, nodes, gres) == 0.0
  {
    Gres.GpuNeedsText(gres);
  }

  lemma TwoColumnMeaning(read: FloatReader, nodes: string, gres: string)
    requires IsWord(nodes) && IsWord(gres)
    ensures TwoColumnGpus(read, nodes + " " + gres) == NodeGpus(read, nodes, gres)
  {
    hide NodeGpus, Fields;
    TwoWords(nodes, gres);
    NodeGpusNeedText(read, nodes, gres);
    if Contains(gres, "gpu:") {
      ContainsWithin(nodes + " ", gres, "", "gpu:");
      assert nodes + " " + gres + "" == nodes + " " + gres;
    }
  }

  lemma IdleMeaning(read: FloatReader, r: Row)
    requires WellFormed(r)
    ensures IdleGpus(read, IdleLine(r)) == Unused(read)(r)
  {
    hide NodeGpus, Fields;
    ThreeWords(r.nodes, r.gres, r.used);
    NodeGpusNeedText(read, r.nodes, r.gres);
    NodeGpusNeedText(read, r.nodes, r.used);
    if Contains(r.gres, "gpu:") {
      ContainsWithin(r.nodes + " ", r.gres, " " + r.used, "gpu:");
      assert r.nodes + " " + r.gres + (" " + r.used) == IdleLine(r);
    }
    if Contains(r.used, "gpu:") {
      ContainsWithin(r.nodes + " " + r.gres + " ", r.used, "", "gpu:");
      assert r.nodes + " " + r.gres + " " + r.used + "" == IdleLine(r);
    }
  }

  /** Without a used column all configured GPUs are idle. */
  lemma IdleWithoutUsed(read: FloatReader, nodes: string, gres: string)
    requires IsWord(nodes) && IsWord(gres)
    ensures IdleGpus(read, nodes + " " + gres) == NodeGpus(read, nodes, gres)
  {
    hide NodeGpus, Fields;
    TwoWords(nodes, gres);
    TwoColumnMeaning(read, nodes, gres);
  }

  /** Reading an emitted text back line by line gives, row by row, the value of its lines. */
  lemma EmittedSum(rows: seq<Row>, line: Row -> string, parse: string -> real, value: Row -> real)
    requires forall i | 0 <= i < |rows| :: '\n' !in line(rows[i]) && parse(line(rows[i])) == value(rows[i])
    requires parse("") == 0.0
    ensures SumBy(Split(Unlines(Map(rows, line)), '\n'), parse) == SumBy(rows, value)
  {
    SplitUnlines(Map(rows, line));
    SumByStep(Map(rows, line), "", parse);
    SumByPointwise(Map(rows, line), parse, rows, value);
  }

  lemma EmptyLineCountsNothing(read: FloatReader)
    ensures TwoColumns(read)("") == 0.0 && IdleColumns(read)("") == 0.0
  {
  }

  lemma TotalViewMeaning(read: FloatReader, rows: seq<Row>)
    requires forall i | 0 <= i < |rows| :: WellFormed(rows[i])
    ensures SumBy(Split(Unlines(Map(rows, TotalLine)), '\n'), TwoColumns(read)) == SumBy(rows, Configured(read))
  {
    hide NodeGpus, TwoColumnGpus, IdleGpus, Fields, Split, Unlines, SumBy;
    forall i | 0 <= i < |rows|
      ensures '\n' !in TotalLine(rows[i]) && TwoColumns(read)(TotalLine(rows[i])) == Configured(read)(rows[i])
    {
      TwoWords(rows[i].nodes, rows[i].gres);
      TwoColumnMeaning(read, rows[i].nodes, rows[i].gres);
    }
    EmptyLineCountsNothing(read);
    EmittedSum(rows, TotalLine, TwoColumns(read), Configured(read));
  }

  lemma AllocViewMeaning(read: FloatReader, rows: seq<Row>)
    requires forall i | 0 <= i < |rows| :: WellFormed(rows[i])
    ensures SumBy(Split(Unlines(Map(rows, AllocLine)), '\n'), TwoColumns(read)) == SumBy(rows, Used(read))
  {
    hide NodeGpus, TwoColumnGpus, IdleGpus, Fields, Split, Unlines, SumBy;
    forall i | 0 <= i < |rows|
      ensures '\n' !in AllocLine(rows[i]) && TwoColumns(read)(AllocLine(rows[i])) == Used(read)(rows[i])
    {
      TwoWords(rows[i].nodes, rows[i].used);
      TwoColumnMeaning(read, rows[i].nodes, rows[i].used);
    }
    EmptyLineCountsNothing(read);
    EmittedSum(rows, AllocLine, TwoColumns(read), Used(read));
  }

  lemma {:induction false} UnusedSplits(read: FloatReader, rows: seq<Row>)
    ensures SumBy(rows, Unused(read)) == SumBy(rows, Configured(read)) - SumBy(rows, Used(read))
  {
    if rows == [] {
    } else {
      UnusedSplits(read, rows[..|rows| - 1]);
    }
  }

  lemma IdleViewMeaning(read: FloatReader, rows: seq<Row>)
    requires forall i | 0 <= i < |rows| :: WellFormed(rows[i])
    ensures SumBy(Split(Unlines(Map(rows, IdleLine)), '\n'), IdleColumns(read))
         == SumBy(rows, Configured(read)) - SumBy(rows, Used(read))
  {
    hide NodeGpus, TwoColumnGpus, IdleGpus, Fields, Split, Unlines, SumBy;
    forall i | 0 <= i < |rows|
      ensures '\n' !in IdleLine(rows[i]) && IdleColumns(read)(IdleLine(rows[i])) == Unused(read)(rows[i])
    {
      ThreeWords(rows[i].nodes, rows[i].gres, rows[i].used);
      IdleMeaning(read, rows[i]);
    }
    EmptyLineCountsNothing(read);
    EmittedSum(rows, IdleLine, IdleColumns(read), Unused(read));
    UnusedSplits(read, rows);
  }

  // ---- The metrics ----

  datatype GpuMetrics = GpuMetrics(alloc: real, idle: real, other: real, total: real, utilization: real)

  lemma AvailableRows(rows: seq<Row>)
    requires forall i | 0 <= i < |rows| :: WellFormed(rows[i])
    ensures forall i | 0 <= i < |Available(rows)| :: WellFormed(Available(rows)[i])
  {
    FilterMeaning(rows, (r: Row) => IsAvailable(r.state));
    forall i | 0 <= i < |Available(rows)|
      ensures WellFormed(Available(rows)[i])
    {
      assert Available(rows)[i] in Available(rows);
    }
  }

  lemma {:induction false} AvailabilitySplits(rows: seq<Row>, value: Row -> real)
    ensures SumBy(rows, value) == SumBy(Available(rows), value) + SumBy(Unavailable(rows), value)
  {
    if rows == [] {
    } else {
      var front, last := rows[..|rows| - 1], rows[|rows| - 1];
      assert rows == front + [last];
      AvailabilitySplits(front, value);
      if IsAvailable(last.state) {
        assert Available(rows) == Available(front) + [last] && Unavailable(rows) == Unavailable(front);
        SumByStep(Available(front), last, value);
      } else {
        assert Available(rows) == Available(front) && Unavailable(rows) == Unavailable(front) + [last];
        SumByStep(Unavailable(front), last, value);
      }
    }
  }

  /** The metrics account for these rows. */
  ghost predicate Accounts(read: FloatReader, rows: seq<Row>, gm: GpuMetrics) {
    && gm.total == SumBy(rows, Configured(read))
    && gm.alloc == SumBy(Available(rows), Used(read))
    && gm.alloc + gm.idle == SumBy(Available(rows), Configured(read))
    && gm.other == SumBy(Unavailable(rows), Configured(read))
    && gm.utilization == if gm.total > 0.0 then gm.alloc / gm.total else 0.0
  }

  /**
   computeGPUsFromSnapshot: alloc and idle make up the configured GPUs of the available rows, and other is
   exactly the configured GPUs of the remaining rows.
   */
  method ComputeGpusFromSnapshot(read: FloatReader, data: string) returns (gm: GpuMetrics)
    ensures Accounts(read, Rows(data), gm)
  {
    var totalView, allocView, idleView := SplitGpuViews(data);
    var total := ParseTwoColumns(read, totalView);
    var alloc := ParseTwoColumns(read, allocView);
    var idle := ParseIdleGpus(read, idleView);
    var other := total - alloc - idle;
    gm := GpuMetrics(alloc, idle, other, total, if total > 0.0 then alloc / total else 0.0);

    ghost var rows := Rows(data);
    RowsAreWellFormed(data);
    AvailableRows(rows);
    TotalViewMeaning(read, rows);
    AllocViewMeaning(read, Available(rows));
    IdleViewMeaning(read, Available(rows));
    AvailabilitySplits(rows, Configured(read));
  }

  lemma RatioInUnit(part: real, whole: real)
    requires 0.0 <= part <= whole && whole > 0.0
    ensures 0.0 <= part / whole <= 1.0
  {
  }

  lemma NonNegativeRows(read: FloatReader, rows: seq<Row>, some: seq<Row>)
    requires forall i | 0 <= i < |rows| :: FloatOrZero(read, rows[i].nodes) >= 0.0
    requires forall r | r in some :: r in rows
    ensures SumBy(some, Configured(read)) >= 0.0 && SumBy(some, Used(read)) >= 0.0
  {
    hide Gres.GpuCount;
    forall i | 0 <= i < |some|
      ensures Configured(read)(some[i]) >= 0.0 && Used(read)(some[i]) >= 0.0
    {
      assert some[i] in some;
    }
    SumByNonNegative(some, Configured(read));
    SumByNonNegative(some, Used(read));
  }

  lemma TimesMonotone(n: real, low: real, high: real)
    requires n >= 0.0 && low <= high
    ensures n * low <= n * high
  {
  }

  lemma UsedBelowConfigured(read: FloatReader, rows: seq<Row>, some: seq<Row>)
    requires forall i | 0 <= i < |rows| :: FloatOrZero(read, rows[i].nodes) >= 0.0
    requires forall i | 0 <= i < |rows| :: Gres.GpuCount(rows[i].used) <= Gres.GpuCount(rows[i].gres)
    requires forall r | r in some :: r in rows
    ensures SumBy(some, Used(read)) <= SumBy(some, Configured(read))
  {
    hide Gres.GpuCount;
    forall i | 0 <= i < |some|
      ensures Used(read)(some[i]) <= Configured(read)(some[i])
    {
      assert some[i] in some;
      var n, c, u :=
          FloatOrZero(read, some[i].nodes), Gres.GpuCount(some[i].gres) as real, Gres.GpuCount(some[i].used) as real;
      TimesMonotone(n, u, c);
    }
    SumByMonotone(some, Used(read), Configured(read));
  }

  /** What the comment above computeGPUsFromSnapshot promises, under the one fact it assumes about Slurm. */
  lemma GpuBounds(read: FloatReader, rows: seq<Row>, gm: GpuMetrics)
    requires Accounts(read, rows, gm)
    requires forall i | 0 <= i < |rows| :: FloatOrZero(read, rows[i].nodes) >= 0.0
    ensures gm.other >= 0.0 && gm.alloc >= 0.0
    ensures (forall i | 0 <= i < |rows| :: Gres.GpuCount(rows[i].used) <= Gres.GpuCount(rows[i].gres)) ==>
              gm.idle >= 0.0 && gm.alloc <= gm.total && 0.0 <= gm.utilization <= 1.0
  {
    FilterMeaning(rows, (r: Row) => IsAvailable(r.state));
    FilterMeaning(rows, (r: Row) => !IsAvailable(r.state));
    NonNegativeRows(read, rows, Available(rows));
    NonNegativeRows(read, rows, Unavailable(rows));
    AvailabilitySplits(rows, Configured(read));
    if forall i | 0 <= i < |rows| :: Gres.GpuCount(rows[i].used) <= Gres.GpuCount(rows[i].gres) {
      UsedBelowConfigured(read, rows, Available(rows));
      if gm.total > 0.0 {
        RatioInUnit(gm.alloc, gm.total);
      }
    }
  }

  // ---- Printed rows ----

  /** A row as sinfo prints it: four columns. */
  function Printed(r: Row): string {
    Join([r.nodes, r.state, r.gres, r.used], " ")
  }

  lemma RowReadsBack(r: Row)
    requires WellFormed(r)
    ensures RowOf(Printed(r)) == Some(r) && '\n' !in Printed(r)
  {
    hide Join, Fields;
    FieldsOfJoin([r.nodes, r.state, r.gres, r.used]);
    JoinChars([r.nodes, r.state, r.gres, r.used], " ", '\n');
  }

  lemma {:induction false} RowsReadBack(rows: seq<Row>)
    requires forall i | 0 <= i < |rows| :: WellFormed(rows[i])
    ensures Parsed(RowOf, Map(rows, Printed)) == rows
  {
    hide RowOf, Printed, WellFormed;
    if rows == [] {
    } else {
      var front, last := rows[..|rows| - 1], rows[|rows| - 1];
      assert rows == front + [last];
      RowsReadBack(front);
      RowReadsBack(last);
      MapAppend(front, last, Printed);
      ParsedAppend(RowOf, Map(front, Printed), Printed(last));
    }
  }

  lemma NoFieldsNoRow()
    ensures RowOf("") == None
  {
  }

  /** Printed rows are read back, all of them and in order. */
  lemma SnapshotReadsBack(rows: seq<Row>)
    requires forall i | 0 <= i < |rows| :: WellFormed(rows[i])
    ensures Rows(Unlines(Map(rows, Printed))) == rows
  {
    hide RowOf, Printed, WellFormed, Join, Split, Unlines;
    var lines := Map(rows, Printed);
    forall i | 0 <= i < |rows|
      ensures '\n' !in lines[i]
    {
      RowReadsBack(rows[i]);
    }
    RowsReadBack(rows);
    SplitUnlines(lines);
    NoFieldsNoRow();
    ParsedAppend(RowOf, lines, "");
  }

  lemma OneRow(line: string, r: Row)
    requires '\n' !in line && RowOf(line) == Some(r)
    ensures Rows(line) == [r]
  {
    hide RowOf, Split;
    SplitWhole(line, '\n');
    ParsedAppend(RowOf, [], line);
    assert [] + [line] == [line];
  }

  lemma OneRowSums(read: FloatReader, r: Row)
    ensures SumBy([r], Configured(read)) == NodeGpus(read, r.nodes, r.gres)
    ensures SumBy(Available([r]), Used(read)) == if IsAvailable(r.state) then NodeGpus(read, r.nodes, r.used) else 0.0
    ensures SumBy(Available([r]), Configured(read)) ==
            if IsAvailable(r.state) then NodeGpus(read, r.nodes, r.gres) else 0.0
    ensures SumBy(Unavailable([r]), Configured(read)) ==
            if IsAvailable(r.state) then 0.0 else NodeGpus(read, r.nodes, r.gres)
  {
    hide IsAvailable, NodeGpus;
    FilterAppend([], r, (q: Row) => IsAvailable(q.state));
    FilterAppend([], r, (q: Row) => !IsAvailable(q.state));
    assert [] + [r] == [r];
    SumByStep([], r, Configured(read));
    SumByStep([], r, Used(read));
    AvailabilitySplits([r], Configured(read));
  }

  lemma OneRowAccounts(read: FloatReader, r: Row, gm: GpuMetrics)
    requires Accounts(read, [r], gm)
    ensures gm.total == NodeGpus(read, r.nodes, r.gres)
    ensures IsAvailable(r.state) ==>
              && gm.alloc == NodeGpus(read, r.nodes, r.used) && gm.other == 0.0
              && gm.idle == NodeGpus(read, r.nodes, r.gres) - NodeGpus(read, r.nodes, r.used)
    ensures !IsAvailable(r.state) ==>
              gm.alloc == 0.0 && gm.idle == 0.0 && gm.other == NodeGpus(read, r.nodes, r.gres)
  {
    hide IsAvailable, NodeGpus;
    OneRowSums(read, r);
  }

  lemma PrintedNodeGpus(read: FloatReader, nodes: nat, gres: string)
    requires ReadsNumerals(read)
    ensures NodeGpus(read, Decimal(nodes), gres) == nodes as real * Gres.GpuCount(gres) as real
  {
    hide Gres.GpuCount, Decimal, ReadsNumerals, FloatOrZero;
    NumeralReadsBack(read, nodes);
    assert FloatOrZero(read, Decimal(nodes)) == nodes as real;
  }

  lemma NumberIsWord(n: nat)
    ensures IsWord(Decimal(n))
  {
    DecimalReadsBack(n);
  }

  /**
   One printed row: nodes that are idle, allocated or mixed give the used GPUs to alloc and the rest to idle;
   those in any other state are other.
   */
  lemma PrintedRowAccounts(read: FloatReader, nodes: nat, state: string, gres: string, used: string, gm: GpuMetrics)
    requires ReadsNumerals(read) && IsWord(state) && IsWord(gres) && IsWord(used)
    requires Accounts(read, Rows(Join([Decimal(nodes), state, gres, used], " ")), gm)
    ensures var lower, configured, taken := ToLower(state), Gres.GpuCount(gres) as real, Gres.GpuCount(used) as real;
            && gm.total == nodes as real * configured
            && if LeadsWith(lower, "idle") || LeadsWith(lower, "allocated") || LeadsWith(lower, "mixed") then
                 && gm.alloc == nodes as real * taken && gm.other == 0.0
                 && gm.idle == nodes as real * configured - nodes as real * taken
               else
                 gm.alloc == 0.0 && gm.idle == 0.0 && gm.other == nodes as real * configured
  {
    hide LeadsWith, Gres.GpuCount, Rows, ReadsNumerals, Join, IsAvailable, Accounts, IsWord, NodeGpus;
    var r := Row(Decimal(nodes), state, gres, used);
    NumberIsWord(nodes);
    RowReadsBack(r);
    OneRow(Printed(r), r);
    PrintedNodeGpus(read, nodes, gres);
    PrintedNodeGpus(read, nodes, used);
    AvailableIff(state);
    OneRowAccounts(read, r, gm);
  }

  /** A node count that is no number counts as zero. */
  lemma UnreadableNodesCountNothing(read: FloatReader, nodes: string, gres: string)
    requires read(nodes) == None
    ensures NodeGpus(read, nodes, gres) == 0.0
  {
  }
}
