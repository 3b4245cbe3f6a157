/**
 ParseSacctEfficiency of internal/collector/sacct_efficiency.go: one pass over allocation and step lines in
 any order, correlated by job ID, and what the records it returns mean.
 */
module SacctRecords {
  import opened Text
  import opened Numbers
  import opened Parsing
  import opened Sums
  import opened Permutations

  /** What an allocation line says of its job. */
  datatype Identity = Identity(
    user: string,
    account: string,
    allocCpus: real,
    elapsed: real,
    totalCpu: real,
    cpuTime: real,
    reqMem: real
  )

  /** SacctJobRecord: the identity of a job and its peak MaxRSS over all its lines. */
  datatype Record = Record(job: Identity, maxRss: real, maxRssPresent: bool)

  /** What one line contributes to the job with this base ID. */
  datatype Line = Line(base: string, isStep: bool, rss: Option<real>, alloc: Option<Identity>)

  // ---- Fields ----

  /** parseSacctDuration: [D-]HH:MM:SS, MM:SS or SS. */
  function ParseDuration(read: FloatReader, field: string): real {
    var s := TrimSpace(field);
    if s == "" || s == "0" then 0.0 else
    var dash := IndexOf(s, '-');
    var days := if dash < |s| then FloatOrZero(read, s[..dash]) else 0.0;
    var parts := Split(if dash < |s| then s[dash + 1..] else s, ':');
    days * 86400.0 +
    if |parts| == 3 then
      FloatOrZero(read, parts[0]) * 3600.0 + FloatOrZero(read, parts[1]) * 60.0 + FloatOrZero(read, parts[2])
    else if |parts| == 2 then
      FloatOrZero(read, parts[0]) * 60.0 + FloatOrZero(read, parts[1])
    else if |parts| == 1 then FloatOrZero(read, parts[0])
    else 0.0
  }

  /** The factor of a memory unit, and the text without it. */
  function CutUnit(s: string): (real, string) {
    if s == "" then (1.0, s) else
    var front, last := s[..|s| - 1], s[|s| - 1];
    if last == 'P' then (1073741824.0, front)
    else if last == 'T' then (1048576.0, front)
    else if last == 'G' then (1024.0, front)
    else if last == 'M' then (1.0, front)
    else if last == 'K' then (1.0 / 1024.0, front)
    else (1.0, s)
  }

  /** parseSacctMemory: megabytes, or None when the field carries no value. */
  function ParseMemory(read: FloatReader, field: string): Option<real> {
    var s := TrimSpace(field);
    if s == "" || s == "0" || s == "16?" then None else
    var (factor, number) := CutUnit(TrimRight(s, "nc"));
    match read(number)
    case None => None
    case Some(v) => Some(v * factor)
  }

  // ---- Fields as Slurm prints them ----

  function TwoDigits(n: nat): string {
    if n < 10 then "0" + Decimal(n) else Decimal(n)
  }

  lemma TwoDigitsReadBack(n: nat)
    ensures TwoDigits(n) != "" && AllDigits(TwoDigits(n)) && DigitsValue(TwoDigits(n)) == n
  {
    DecimalReadsBack(n);
    if n < 10 {
      var s := TwoDigits(n);
      assert s[..1] == "0" && s[..1][..0] == "";
      assert Decimal(n)[..0] == "";
    }
  }

  /** HH:MM:SS. */
  function Clock(seconds: nat): seq<string> {
    [TwoDigits(seconds / 3600), TwoDigits(seconds % 3600 / 60), TwoDigits(seconds % 3600 % 60)]
  }

  /** [D-]HH:MM:SS. */
  function PrintDuration(seconds: nat): string {
    var days, clock := seconds / 86400, Join(Clock(seconds % 86400), ":");
    if days > 0 then Decimal(days) + "-" + clock else clock
  }

  lemma DigitsLack(s: string, c: char)
    requires AllDigits(s) && !IsDigit(c)
    ensures c !in s
  {
  }

  /** A printed clock is cut at its colons, and holds neither a dash nor a space. */
  lemma ClockReadsBack(seconds: nat)
    ensures var text := Join(Clock(seconds), ":");
            && Split(text, ':') == Clock(seconds) && '-' !in text
            && |text| >= 2 && Trimmed(text) && |Clock(seconds)| == 3
  {
    hide TwoDigits, Split;
    var parts := Clock(seconds);
    TwoDigitsReadBack(seconds / 3600);
    TwoDigitsReadBack(seconds % 3600 / 60);
    TwoDigitsReadBack(seconds % 3600 % 60);
    SplitJoin(parts, ':');
    JoinChars(parts, ":", '-');
    var tail := parts[1] + ":" + parts[2];
    assert parts[1..] == [parts[1], parts[2]];
    assert Join(parts[1..], ":") == tail;
    assert Join(parts, ":") == parts[0] + ":" + tail;
    assert (parts[0] + ":" + tail)[0] == parts[0][0];
    assert tail[|tail| - 1] == parts[2][|parts[2]| - 1];
  }

  lemma TwoDigitsRead(read: FloatReader, n: nat)
    requires ReadsNumerals(read)
    ensures FloatOrZero(read, TwoDigits(n)) == n as real
  {
    TwoDigitsReadBack(n);
  }

  lemma Sexagesimal(seconds: nat)
    ensures (seconds / 3600) as real * 3600.0 + (seconds % 3600 / 60) as real * 60.0 + (seconds % 3600 % 60) as real
         == seconds as real
  {
  }

  lemma ClockSeconds(read: FloatReader, seconds: nat)
    requires ReadsNumerals(read)
    ensures var c := Clock(seconds);
            FloatOrZero(read, c[0]) * 3600.0 + FloatOrZero(read, c[1]) * 60.0 + FloatOrZero(read, c[2])
            == seconds as real
  {
    hide FloatOrZero, TwoDigits, ReadsNumerals;
    TwoDigitsRead(read, seconds / 3600);
    TwoDigitsRead(read, seconds % 3600 / 60);
    TwoDigitsRead(read, seconds % 3600 % 60);
    Sexagesimal(seconds);
  }

  lemma DaysReadBack(read: FloatReader, days: nat, clock: string)
    requires ReadsNumerals(read)
    ensures var s := Decimal(days) + "-" + clock;
            var dash := IndexOf(s, '-');
            dash < |s| && FloatOrZero(read, s[..dash]) == days as real && s[dash + 1..] == clock
  {
    DecimalReadsBack(days);
    DigitsLack(Decimal(days), '-');
    IndexOfFirst(Decimal(days), '-', clock);
    var s := Decimal(days) + "-" + clock;
    assert s[..|Decimal(days)|] == Decimal(days) && s[|Decimal(days)| + 1..] == clock;
  }

  lemma PrintedDurationIsTrimmed(seconds: nat)
    ensures TrimSpace(PrintDuration(seconds)) == PrintDuration(seconds) && |PrintDuration(seconds)| >= 2
  {
    hide Clock, Join, TrimSpace, Decimal;
    var days, clock := seconds / 86400, Join(Clock(seconds % 86400), ":");
    ClockReadsBack(seconds % 86400);
    DecimalReadsBack(days);
    var s := PrintDuration(seconds);
    if days > 0 {
      assert s[0] == Decimal(days)[0] && s[|s| - 1] == clock[|clock| - 1];
    }
    TrimSpaceKeepsTrimmed(s);
  }

  /** Every duration that Slurm prints in this format is read back to the second. */
  lemma DurationRoundTrip(read: FloatReader, seconds: nat)
    requires ReadsNumerals(read)
    ensures ParseDuration(read, PrintDuration(seconds)) == seconds as real
  {
    hide Clock, Split, TrimSpace, Join, FloatOrZero;
    var days: nat, rest: nat := seconds / 86400, seconds % 86400;
    var clock := Join(Clock(rest), ":");
    ClockReadsBack(rest);
    ClockSeconds(read, rest);
    PrintedDurationIsTrimmed(seconds);
    if days > 0 {
      DaysReadBack(read, days, clock);
      assert seconds as real == days as real * 86400.0 + rest as real;
    } else {
      IndexOfNone(clock, '-');
    }
  }

  lemma ZeroDigit(n: nat)
    ensures Decimal(n) == "0" ==> n == 0
  {
    DecimalReadsBack(n);
    DecimalReadsBack(0);
  }

  /** The shorter forms that the reader accepts: minutes and seconds, or seconds alone. */
  lemma ShortDurationsReadBack(read: FloatReader, minutes: nat, seconds: nat)
    requires ReadsNumerals(read)
    ensures ParseDuration(read, Decimal(minutes) + ":" + Decimal(seconds)) == minutes as real * 60.0 + seconds as real
    ensures ParseDuration(read, Decimal(seconds)) == seconds as real
  {
    hide Split, TrimSpace, FloatOrZero, ReadsNumerals, Decimal;
    var m, n := Decimal(minutes), Decimal(seconds);
    var s := m + ":" + n;
    DecimalReadsBack(minutes);
    DecimalReadsBack(seconds);
    DigitsLack(m, ':');
    DigitsLack(n, ':');
    DigitsLack(n, '-');
    DigitsLack(m, '-');
    NumeralReadsBack(read, minutes);
    NumeralReadsBack(read, seconds);
    assert s[0] == m[0] && s[|s| - 1] == n[|n| - 1];
    TrimSpaceKeepsTrimmed(s);
    TrimSpaceKeepsTrimmed(n);
    IndexOfNone(s, '-');
    IndexOfNone(n, '-');
    SplitCons(m, ':', n);
    SplitWhole(n, ':');
    ZeroDigit(seconds);
  }

  /** Fields without a value, for every reader. */
  lemma PlaceholdersAreNoValue(read: FloatReader)
    ensures ParseMemory(read, "") == ParseMemory(read, "0") == ParseMemory(read, "16?") == None
    ensures ParseDuration(read, "") == ParseDuration(read, "0") == 0.0
  {
    TrimSpaceKeepsTrimmed("");
    TrimSpaceKeepsTrimmed("0");
    TrimSpaceKeepsTrimmed("16?");
  }

  /** Slurm's memory units, in megabytes. */
  datatype Unit = Bare | Kilo | Mega | Giga | Tera | Peta

  function Letter(unit: Unit): string {
    match unit
    case Bare => ""
    case Kilo => "K"
    case Mega => "M"
    case Giga => "G"
    case Tera => "T"
    case Peta => "P"
  }

  function Megabytes(unit: Unit): real {
    match unit
    case Bare => 1.0
    case Kilo => 1.0 / 1024.0
    case Mega => 1.0
    case Giga => 1024.0
    case Tera => 1024.0 * 1024.0
    case Peta => 1024.0 * 1024.0 * 1024.0
  }

  lemma UnitIsCut(number: string, unit: Unit)
    requires number != "" && AllDigits(number)
    ensures CutUnit(number + Letter(unit)) == (Megabytes(unit), number)
  {
    assert number + "" == number && IsDigit(number[|number| - 1]);
    assert unit != Bare ==> (number + Letter(unit))[..|number|] == number;
  }

  lemma NoPlaceholder(n: nat, unit: Unit, per: string)
    requires per in {"", "n", "c"}
    ensures var s := Decimal(n) + Letter(unit) + per;
            s != "" && s != "16?" && (s == "0" <==> n == 0 && unit == Bare && per == "")
  {
    DecimalReadsBack(n);
    var s := Decimal(n) + Letter(unit) + per;
    assert s[|s| - 1] != '?';
    if s == "0" {
      assert |Decimal(n)| == 1 && Decimal(n)[0] == '0';
      DecimalReadsBack(0);
    }
  }

  lemma PrintedMemoryIsTrimmed(n: nat, unit: Unit, per: string)
    requires per in {"", "n", "c"}
    ensures var s := Decimal(n) + Letter(unit) + per; s != "" && TrimSpace(s) == s
  {
    DecimalReadsBack(n);
    var s := Decimal(n) + Letter(unit) + per;
    assert s[0] == Decimal(n)[0];
    assert !IsSpace(s[|s| - 1]);
    TrimSpaceKeepsTrimmed(s);
  }

  lemma PerIsCut(s: string, per: string)
    requires per in {"", "n", "c"} && s != "" && s[|s| - 1] != 'n' && s[|s| - 1] != 'c'
    ensures TrimRight(s + per, "nc") == s
  {
  }

  /** A printed memory field is read back in megabytes; only the bare zero, which means no data, is not. */
  lemma MemoryReadsBack(read: FloatReader, n: nat, unit: Unit, per: string)
    requires ReadsNumerals(read) && per in {"", "n", "c"}
    ensures ParseMemory(read, Decimal(n) + Letter(unit) + per) ==
            if n == 0 && unit == Bare && per == "" then None else Some(n as real * Megabytes(unit))
  {
    hide TrimSpace, TrimRight, DigitsValue;
    var number := Decimal(n);
    DecimalReadsBack(n);
    PrintedMemoryIsTrimmed(n, unit, per);
    PerIsCut(number + Letter(unit), per);
    UnitIsCut(number, unit);
    NoPlaceholder(n, unit, per);
    var s := number + Letter(unit) + per;
    assert read(number) == Some(n as real);
    assert CutUnit(TrimRight(s, "nc")) == (Megabytes(unit), number);
    assert !(s == "" || s == "0" || s == "16?") ==> ParseMemory(read, s) == Some(n as real * Megabytes(unit));
  }

  // ---- Lines ----

  /** What an allocation line says, None when it is filtered out. */
  function ParseIdentity(read: FloatReader, f: seq<string>): Option<Identity>
    requires |f| >= 9
  {
    var user, account := TrimSpace(f[1]), TrimSpace(f[2]);
    var alloc, elapsed := FloatOrZero(read, TrimSpace(f[3])), ParseDuration(read, f[4]);
    if user == "" || account == "" || alloc == 0.0 || elapsed == 0.0 then None
    else Some(Identity(user, account, alloc, elapsed, ParseDuration(read, f[5]), ParseDuration(read, f[6]),
                       ParseMemory(read, f[8]).GetOr(0.0)))
  }

  function ParseLine(read: FloatReader, line: string): (parsed: Option<Line>)
    ensures parsed.Some? && parsed.value.isStep ==> parsed.value.alloc.None?
  {
    var f := Split(line, '|');
    if |f| < 9 || TrimSpace(f[0]) == "" then None else
    var id := TrimSpace(f[0]);
    var dot := IndexOf(id, '.');
    Some(Line(id[..dot], dot < |id|, ParseMemory(read, f[7]), if dot < |id| then None else ParseIdentity(read, f)))
  }

  function LineParser(read: FloatReader): string -> Option<Line> {
    line => ParseLine(read, line)
  }

  function Lines(read: FloatReader, input: string): seq<Line> {
    Parsed(LineParser(read), Split(input, '\n'))
  }

  // ---- Meaning ----

  /** The identity on the last valid allocation line of a job. */
  function LastAlloc(lines: seq<Line>, id: string): Option<Identity> {
    if lines == [] then None else
    var last := lines[|lines| - 1];
    if last.base == id && last.alloc.Some? then last.alloc else LastAlloc(lines[..|lines| - 1], id)
  }

  /** The peak MaxRSS over the lines of a job, as the loop keeps it. */
  function PeakRss(lines: seq<Line>, id: string): Option<real> {
    if lines == [] then None else
    var sofar := PeakRss(lines[..|lines| - 1], id);
    var last := lines[|lines| - 1];
    if last.base == id && last.rss.Some? && (sofar.None? || last.rss.value > sofar.value) then last.rss else sofar
  }

  /** The base IDs, in order of first appearance. */
  function FirstSeen(lines: seq<Line>): seq<string> {
    if lines == [] then [] else
    var front, id := FirstSeen(lines[..|lines| - 1]), lines[|lines| - 1].base;
    if id in front then front else front + [id]
  }

  function RecordOf(lines: seq<Line>, id: string): Record
    requires LastAlloc(lines, id).Some?
  {
    var peak := PeakRss(lines, id);
    Record(LastAlloc(lines, id).value, peak.GetOr(0.0), peak.Some?)
  }

  /** One record for each of these jobs that has a valid allocation line. */
  function RecordsFor(lines: seq<Line>, ids: seq<string>): seq<Record> {
    if ids == [] then [] else
    var id := ids[|ids| - 1];
    RecordsFor(lines, ids[..|ids| - 1]) + if LastAlloc(lines, id).Some? then [RecordOf(lines, id)] else []
  }

  function Records(lines: seq<Line>): seq<Record> {
    RecordsFor(lines, FirstSeen(lines))
  }

  /** m is the greatest MaxRSS on a line of this job; None when no line has one. */
  predicate IsPeak(lines: seq<Line>, id: string, m: Option<real>) {
    match m
    case None => forall l | l in lines && l.base == id :: l.rss.None?
    case Some(v) =>
      && (exists l | l in lines :: l.base == id && l.rss == Some(v))
      && (forall l | l in lines && l.base == id && l.rss.Some? :: l.rss.value <= v)
  }

  lemma {:induction false} PeakRssIsPeak(lines: seq<Line>, id: string)
    ensures IsPeak(lines, id, PeakRss(lines, id))
  {
    if lines == [] {
    } else {
      var front, last := lines[..|lines| - 1], lines[|lines| - 1];
      assert lines == front + [last];
      PeakRssIsPeak(front, id);
      assert last in lines;
      if PeakRss(lines, id) == PeakRss(front, id) && PeakRss(front, id).Some? {
        var l :| l in front && l.base == id && l.rss == PeakRss(front, id);
        assert l in lines;
      }
    }
  }

  lemma PeakUnique(lines: seq<Line>, id: string, m: Option<real>)
    requires IsPeak(lines, id, m)
    ensures m == PeakRss(lines, id)
  {
    PeakRssIsPeak(lines, id);
  }

  /** The identity of a record stands on a valid allocation line of the job, and no later line has another. */
  lemma {:induction false} LastAllocMeaning(lines: seq<Line>, id: string)
    ensures LastAlloc(lines, id).None? ==> forall l | l in lines && l.base == id :: l.alloc.None?
    ensures LastAlloc(lines, id).Some? ==>
              exists i | 0 <= i < |lines| ::
                && lines[i].base == id && lines[i].alloc == LastAlloc(lines, id)
                && forall j | i < j < |lines| && lines[j].base == id :: lines[j].alloc.None?
  {
    if lines == [] {
    } else {
      var front, last := lines[..|lines| - 1], lines[|lines| - 1];
      assert lines == front + [last];
      LastAllocMeaning(front, id);
      if last.base == id && last.alloc.Some? {
        assert lines[|lines| - 1].base == id;
      } else if LastAlloc(front, id).Some? {
        var i :| 0 <= i < |front| && front[i].base == id && front[i].alloc == LastAlloc(front, id)
                 && forall j | i < j < |front| && front[j].base == id :: front[j].alloc.None?;
        assert lines[i].base == id && lines[i].alloc == LastAlloc(lines, id);
      }
    }
  }

  lemma {:induction false} FirstSeenMeaning(lines: seq<Line>)
    ensures Distinct(FirstSeen(lines))
    ensures forall id :: id in FirstSeen(lines) <==> exists l | l in lines :: l.base == id
  {
    if lines == [] {
    } else {
      var front, last := lines[..|lines| - 1], lines[|lines| - 1];
      assert lines == front + [last];
      FirstSeenMeaning(front);
      forall id | id in FirstSeen(lines)
        ensures exists l | l in lines :: l.base == id
      {
        if id in FirstSeen(front) {
          var l :| l in front && l.base == id;
          assert l in lines;
        } else {
          assert last in lines;
        }
      }
      forall l | l in lines
        ensures l.base in FirstSeen(lines)
      {
        assert l in front || l == last;
      }
    }
  }

  /** Where a base ID appears first: at n, or nowhere when n is the number of lines. */
  function FirstLine(lines: seq<Line>, id: string): (n: nat)
    ensures n <= |lines|
    ensures forall k | 0 <= k < n :: lines[k].base != id
    ensures n < |lines| ==> lines[n].base == id
  {
    if lines == [] || lines[0].base == id then 0 else 1 + FirstLine(lines[1..], id)
  }

  function Appearance(lines: seq<Line>): string -> int {
    id => FirstLine(lines, id)
  }

  lemma SeenBefore(lines: seq<Line>, line: Line, id: string)
    requires id in FirstSeen(lines)
    ensures FirstLine(lines + [line], id) == FirstLine(lines, id) < |lines|
  {
    hide FirstLine, FirstSeen;
    FirstSeenMeaning(lines);
    var l :| l in lines && l.base == id;
    var k :| 0 <= k < |lines| && lines[k] == l;
    var n := FirstLine(lines, id);
    assert (lines + [line])[n] == lines[n];
    var m := FirstLine(lines + [line], id);
    assert m <= n;
    assert (lines + [line])[m] == lines[m];
  }

  lemma NewAtEnd(lines: seq<Line>, line: Line)
    requires line.base !in FirstSeen(lines)
    ensures FirstLine(lines + [line], line.base) == |lines|
  {
    hide FirstLine, FirstSeen;
    FirstSeenMeaning(lines);
    var n := FirstLine(lines + [line], line.base);
    assert (lines + [line])[|lines|] == line;
  }

  /** The order list follows the lines: of two base IDs in it, the earlier one appears on an earlier line. */
  lemma {:induction false} FirstSeenInOrder(lines: seq<Line>)
    ensures Ascending(FirstSeen(lines), Appearance(lines))
  {
    if lines == [] {
    } else {
      hide FirstLine;
      var front, last := lines[..|lines| - 1], lines[|lines| - 1];
      assert lines == front + [last];
      FirstSeenInOrder(front);
      FirstSeenMeaning(front);
      var seen := FirstSeen(front);
      forall id | id in seen
        ensures FirstLine(lines, id) == FirstLine(front, id) < |front|
      {
        SeenBefore(front, last, id);
      }
      if last.base !in seen {
        NewAtEnd(front, last);
      }
    }
  }

  // ---- The parser ----

  /** The job that the loop accumulates for one base ID. */
  class Job {
    var rec: Option<Identity>
    var maxRss: real
    var rssSeen: bool

    constructor ()
      ensures rec == None && maxRss == 0.0 && !rssSeen
    {
      rec, maxRss, rssSeen := None, 0.0, false;
    }

    /** The job stands for the lines read so far; rec is Some once haveAlloc is set. */
    predicate Holds(lines: seq<Line>, id: string)
      reads this
    {
      && rec == LastAlloc(lines, id)
      && (if rssSeen then Some(maxRss) else None) == PeakRss(lines, id)
      && (!rssSeen ==> maxRss == 0.0)
    }
  }

  /** byID and order after these lines. */
  ghost predicate Accumulated(byId: map<string, Job>, order: seq<string>, lines: seq<Line>)
    reads byId.Values
  {
    && order == FirstSeen(lines)
    && (forall id :: id in byId <==> id in order)
    && (forall id | id in byId :: byId[id].Holds(lines, id))
    && (forall a, b | a in byId && b in byId && a != b :: byId[a] != byId[b])
  }

  lemma {:induction false} UnseenJob(lines: seq<Line>, id: string)
    requires id !in FirstSeen(lines)
    ensures LastAlloc(lines, id) == None && PeakRss(lines, id) == None
  {
    if lines == [] {
    } else {
      UnseenJob(lines[..|lines| - 1], id);
    }
  }

  lemma LineStep(lines: seq<Line>, line: Line)
    ensures FirstSeen(lines + [line]) ==
            if line.base in FirstSeen(lines) then FirstSeen(lines) else FirstSeen(lines) + [line.base]
    ensures forall id :: LastAlloc(lines + [line], id) ==
                         if line.base == id && line.alloc.Some? then line.alloc else LastAlloc(lines, id)
    ensures forall id :: PeakRss(lines + [line], id) ==
                         var sofar := PeakRss(lines, id);
                         if line.base == id && line.rss.Some? && (sofar.None? || line.rss.value > sofar.value)
                         then line.rss else sofar
  {
  }

  lemma NothingAccumulated(read: FloatReader, texts: seq<string>)
    ensures Accumulated(map[], [], Parsed(LineParser(read), texts[..0]))
  {
  }

  /** The part of the loop body that updates the job of a line. */
  method AddLine(job: Job, ghost lines: seq<Line>, line: Line)
    requires job.Holds(lines, line.base) && (line.isStep ==> line.alloc.None?)
    modifies job
    ensures job.Holds(lines + [line], line.base)
  {
    LineStep(lines, line);
    if line.rss.Some? && (!job.rssSeen || line.rss.value > job.maxRss) {
      job.maxRss := line.rss.value;
      job.rssSeen := true;
    }
    if line.isStep {
      return;
    }
    if line.alloc.Some? {
      job.rec := line.alloc;
    }
  }

  /** ParseSacctEfficiency. */
  method ParseSacctEfficiency(read: FloatReader, input: string) returns (records: seq<Record>)
    ensures records == Records(Lines(read, input))
  {
    hide ParseLine, Parsed, PeakRss, LastAlloc, FirstSeen;
    var order: seq<string> := [];
    var byId: map<string, Job> := map[];
    var texts := Split(input, '\n');
    NothingAccumulated(read, texts);
    for i := 0 to |texts|
      invariant Accumulated(byId, order, Parsed(LineParser(read), texts[..i]))
      invariant forall id | id in byId :: fresh(byId[id])
    {
      ghost var lines := Parsed(LineParser(read), texts[..i]);
      ParsedStep(LineParser(read), texts, i);
      var parsed := ParseLine(read, texts[i]);
      if parsed.None? {
        continue;
      }
      var line := parsed.value;
      if line.base !in byId {
        var job := new Job();
        UnseenJob(lines, line.base);
        byId := byId[line.base := job];
        order := order + [line.base];
      }
      LineStep(lines, line);
      AddLine(byId[line.base], lines, line);
    }
    assert texts[..|texts|] == texts;
    ghost var lines := Lines(read, input);
    assert Accumulated(byId, order, lines);

    records := [];
    for i := 0 to |order|
      invariant Accumulated(byId, order, lines)
      invariant records == RecordsFor(lines, order[..i])
    {
      PrefixStep(order, i);
      assert order[..i + 1][..i] == order[..i];
      var job := byId[order[i]];
      assert order[i] in byId && byId[order[i]].Holds(lines, order[i]);
      if job.rec.Some? {
        records := records + [Record(job.rec.value, job.maxRss, job.rssSeen)];
      }
    }
    assert order[..|order|] == order;
  }

  // ---- Step lines may stand anywhere ----

  predicate WellFormed(lines: seq<Line>) {
    forall l | l in lines :: l.isStep ==> l.alloc.None?
  }

  lemma LinesWellFormed(read: FloatReader, input: string)
    ensures WellFormed(Lines(read, input))
  {
    hide ParseLine;
    forall l | l in Lines(read, input)
      ensures l.isStep ==> l.alloc.None?
    {
      ParsedFrom(LineParser(read), Split(input, '\n'), l);
    }
  }

  /** The lines that are not step lines, in order. */
  function AllocationLines(lines: seq<Line>): seq<Line> {
    Filter(lines, (l: Line) => !l.isStep)
  }

  lemma {:induction false} LastAllocIgnoresSteps(lines: seq<Line>, id: string)
    requires WellFormed(lines)
    ensures LastAlloc(AllocationLines(lines), id) == LastAlloc(lines, id)
  {
    if lines == [] {
    } else {
      var front, last := lines[..|lines| - 1], lines[|lines| - 1];
      assert lines == front + [last];
      assert last in lines;
      LastAllocIgnoresSteps(front, id);
      if last.isStep {
        assert AllocationLines(lines) == AllocationLines(front);
      } else {
        assert AllocationLines(lines) == AllocationLines(front) + [last];
        LineStep(AllocationLines(front), last);
      }
    }
  }

  lemma PeakIgnoresOrder(a: seq<Line>, b: seq<Line>, id: string)
    requires multiset(a) == multiset(b)
    ensures PeakRss(a, id) == PeakRss(b, id)
  {
    SameElements(a, b);
    PeakRssIsPeak(a, id);
    var m := PeakRss(a, id);
    if m.Some? {
      var l :| l in a && l.base == id && l.rss == m;
      assert l in b;
    }
    PeakUnique(b, id, m);
  }

  function HasAlloc(lines: seq<Line>): string -> bool {
    id => LastAlloc(lines, id).Some?
  }

  function Build(lines: seq<Line>): string -> Record {
    id => if LastAlloc(lines, id).Some? then RecordOf(lines, id)
          else Record(Identity("", "", 0.0, 0.0, 0.0, 0.0, 0.0), 0.0, false)
  }

  lemma {:induction false} RecordsAreBuilt(lines: seq<Line>, ids: seq<string>)
    ensures RecordsFor(lines, ids) == Map(Filter(ids, HasAlloc(lines)), Build(lines))
  {
    if ids == [] {
    } else {
      var front, id := ids[..|ids| - 1], ids[|ids| - 1];
      RecordsAreBuilt(lines, front);
      if LastAlloc(lines, id).Some? {
        assert Filter(ids, HasAlloc(lines)) == Filter(front, HasAlloc(lines)) + [id];
      }
    }
  }

  /**
   Moving step lines anywhere, among themselves and between allocation lines, leaves the multiset of
   records unchanged.
   */
  lemma StepLinesMoveFreely(a: seq<Line>, b: seq<Line>)
    requires WellFormed(a) && WellFormed(b)
    requires multiset(a) == multiset(b) && AllocationLines(a) == AllocationLines(b)
    ensures multiset(Records(a)) == multiset(Records(b))
  {
    forall id: string
      ensures LastAlloc(a, id) == LastAlloc(b, id) && PeakRss(a, id) == PeakRss(b, id)
    {
      LastAllocIgnoresSteps(a, id);
      LastAllocIgnoresSteps(b, id);
      PeakIgnoresOrder(a, b, id);
    }
    FirstSeenMeaning(a);
    FirstSeenMeaning(b);
    SameElements(a, b);
    var idsA, idsB := Filter(FirstSeen(a), HasAlloc(a)), Filter(FirstSeen(b), HasAlloc(b));
    FilterDistinct(FirstSeen(a), HasAlloc(a));
    FilterMeaning(FirstSeen(a), HasAlloc(a));
    FilterDistinct(FirstSeen(b), HasAlloc(b));
    FilterMeaning(FirstSeen(b), HasAlloc(b));
    DistinctPermutation(idsA, idsB);
    MapPermutation(idsA, idsB, Build(a));
    assert Map(idsB, Build(a)) == Map(idsB, Build(b));
    RecordsAreBuilt(a, FirstSeen(a));
    RecordsAreBuilt(b, FirstSeen(b));
  }

  /** The same for texts: two sacct outputs whose lines differ only in where the step lines stand. */
  lemma StepTextMovesFreely(read: FloatReader, a: string, b: string)
    requires multiset(Lines(read, a)) == multiset(Lines(read, b))
    requires AllocationLines(Lines(read, a)) == AllocationLines(Lines(read, b))
    ensures multiset(Records(Lines(read, a))) == multiset(Records(Lines(read, b)))
  {
    LinesWellFormed(read, a);
    LinesWellFormed(read, b);
    StepLinesMoveFreely(Lines(read, a), Lines(read, b));
  }

  /** Exactly the jobs with a valid allocation line have a record, one each, in order of first appearance. */
  lemma RecordsMeaning(lines: seq<Line>)
    ensures var ids := Filter(FirstSeen(lines), HasAlloc(lines));
            && |Records(lines)| == |ids|
            && (forall i, j | 0 <= i < j < |ids| :: FirstLine(lines, ids[i]) < FirstLine(lines, ids[j]))
            && (forall i | 0 <= i < |ids| ::
                  LastAlloc(lines, ids[i]).Some? && Records(lines)[i] == RecordOf(lines, ids[i]))
            && (forall id :: id in ids <==> exists l | l in lines :: l.base == id && l.alloc.Some?)
  {
    FirstSeenMeaning(lines);
    FirstSeenInOrder(lines);
    var ids := Filter(FirstSeen(lines), HasAlloc(lines));
    FilterAscending(FirstSeen(lines), HasAlloc(lines), Appearance(lines));
    FilterMeaning(FirstSeen(lines), HasAlloc(lines));
    RecordsAreBuilt(lines, FirstSeen(lines));
    forall i | 0 <= i < |ids|
      ensures LastAlloc(lines, ids[i]).Some?
    {
      assert ids[i] in ids;
    }
    forall id: string
      ensures id in ids <==> exists l | l in lines :: l.base == id && l.alloc.Some?
    {
      LastAllocMeaning(lines, id);
      if LastAlloc(lines, id).Some? {
        var i :| 0 <= i < |lines| && lines[i].base == id && lines[i].alloc == LastAlloc(lines, id);
        assert lines[i] in lines;
      }
    }
  }

  // ---- Printed lines ----

  /** A memory field as sacct prints it: a number, a unit, and per what; nothing when there is no value. */
  datatype Memory = Memory(n: nat, unit: Unit, per: string)

  predicate PrintableMemory(m: Option<Memory>) {
    m.Some? ==> m.value.per in {"", "n", "c"}
  }

  function PrintMemory(m: Option<Memory>): string {
    match m
    case None => ""
    case Some(v) => Decimal(v.n) + Letter(v.unit) + v.per
  }

  /** Megabytes; a bare zero, too, means no data. */
  function MemoryValue(m: Option<Memory>): Option<real> {
    match m
    case None => None
    case Some(v) =>
      if v.n == 0 && v.unit == Bare && v.per == "" then None else Some(v.n as real * Megabytes(v.unit))
  }

  lemma PrintedMemoryReadsBack(read: FloatReader, m: Option<Memory>)
    requires ReadsNumerals(read) && PrintableMemory(m)
    ensures ParseMemory(read, PrintMemory(m)) == MemoryValue(m)
    ensures '|' !in PrintMemory(m) && '\n' !in PrintMemory(m)
  {
    hide ParseMemory, Decimal;
    match m
    case None =>
      PlaceholdersAreNoValue(read);
    case Some(v) =>
      MemoryReadsBack(read, v.n, v.unit, v.per);
      DecimalReadsBack(v.n);
  }

  lemma PrintedDurationLacks(seconds: nat, c: char)
    requires !IsDigit(c) && c != ':' && c != '-'
    ensures c !in PrintDuration(seconds)
  {
    hide Decimal, TwoDigits, Join;
    var rest := seconds % 86400;
    TwoDigitsReadBack(rest / 3600);
    TwoDigitsReadBack(rest % 3600 / 60);
    TwoDigitsReadBack(rest % 3600 % 60);
    DecimalReadsBack(seconds / 86400);
    JoinChars(Clock(rest), ":", c);
  }

  /** A name that stands alone in its column. */
  predicate PlainName(s: string) {
    s != "" && Trimmed(s) && '|' !in s && '\n' !in s
  }

  /** What sacct prints on the allocation line of a job. */
  datatype PrintedJob = PrintedJob(
    id: string,
    user: string,
    account: string,
    cpus: nat,
    elapsed: nat,
    totalCpu: nat,
    cpuTime: nat,
    maxRss: Option<Memory>,
    reqMem: Option<Memory>
  )

  predicate Printable(p: PrintedJob) {
    && PlainName(p.id) && '.' !in p.id && PlainName(p.user) && PlainName(p.account)
    && PrintableMemory(p.maxRss) && PrintableMemory(p.reqMem)
  }

  /** What the line says of its job; without CPUs or without a duration the job is filtered out. */
  function IdentityOf(p: PrintedJob): Option<Identity> {
    if p.cpus == 0 || p.elapsed == 0 then None
    else Some(Identity(p.user, p.account, p.cpus as real, p.elapsed as real, p.totalCpu as real, p.cpuTime as real,
                       MemoryValue(p.reqMem).GetOr(0.0)))
  }

  /** JobID|User|Account|AllocCPUS|Elapsed|TotalCPU|CPUTime|MaxRSS|ReqMem. */
  function AllocationLine(p: PrintedJob): string {
    Join([p.id, p.user, p.account, Decimal(p.cpus), PrintDuration(p.elapsed), PrintDuration(p.totalCpu),
          PrintDuration(p.cpuTime), PrintMemory(p.maxRss), PrintMemory(p.reqMem)], "|")
  }

  /** A step carries no identity, only its peak. */
  function StepLine(id: string, step: string, maxRss: Option<Memory>): string {
    Join([id + "." + step, "", "", "", "", "", "", PrintMemory(maxRss), ""], "|")
  }

  /** Columns without pipes are cut apart as they stand. */
  lemma ColumnsAreCut(read: FloatReader, f: seq<string>)
    requires |f| == 9 && Lacks(f, '|') && Trimmed(f[0]) && f[0] != ""
    ensures var dot := IndexOf(f[0], '.');
            ParseLine(read, Join(f, "|")) ==
            Some(Line(f[0][..dot], dot < |f[0]|, ParseMemory(read, f[7]),
                      if dot < |f[0]| then None else ParseIdentity(read, f)))
  {
    hide Split, Join, ParseMemory, ParseIdentity, TrimSpace;
    SplitJoin(f, '|');
    TrimSpaceKeepsTrimmed(f[0]);
  }

  lemma NumberColumn(read: FloatReader, n: nat)
    requires ReadsNumerals(read)
    ensures FloatOrZero(read, TrimSpace(Decimal(n))) == n as real
    ensures '|' !in Decimal(n) && '\n' !in Decimal(n)
  {
    hide TrimSpace, Decimal;
    DecimalReadsBack(n);
    TrimSpaceKeepsTrimmed(Decimal(n));
  }

  /** The nine columns, one by one. */
  lemma AllocationLineReadsBack(read: FloatReader, p: PrintedJob)
    requires ReadsNumerals(read) && Printable(p)
    ensures '\n' !in AllocationLine(p)
    ensures ParseLine(read, AllocationLine(p)) ==
            Some(Line(p.id, false, MemoryValue(p.maxRss), IdentityOf(p)))
  {
    hide ParseLine, ParseMemory, ParseDuration, TrimSpace, Join, Decimal, PrintDuration, PrintMemory, FloatOrZero,
         ReadsNumerals, MemoryValue, Trimmed, PrintableMemory;
    var f := [p.id, p.user, p.account, Decimal(p.cpus), PrintDuration(p.elapsed), PrintDuration(p.totalCpu),
              PrintDuration(p.cpuTime), PrintMemory(p.maxRss), PrintMemory(p.reqMem)];
    NumberColumn(read, p.cpus);
    PrintedMemoryReadsBack(read, p.maxRss);
    PrintedMemoryReadsBack(read, p.reqMem);
    PrintedDurationLacks(p.elapsed, '|');
    PrintedDurationLacks(p.totalCpu, '|');
    PrintedDurationLacks(p.cpuTime, '|');
    PrintedDurationLacks(p.elapsed, '\n');
    PrintedDurationLacks(p.totalCpu, '\n');
    PrintedDurationLacks(p.cpuTime, '\n');
    DurationRoundTrip(read, p.elapsed);
    DurationRoundTrip(read, p.totalCpu);
    DurationRoundTrip(read, p.cpuTime);
    TrimSpaceKeepsTrimmed(p.user);
    TrimSpaceKeepsTrimmed(p.account);
    ColumnsAreCut(read, f);
    IndexOfNone(p.id, '.');
    assert p.id[..|p.id|] == p.id;
    JoinChars(f, "|", '\n');
  }

  lemma StepLineReadsBack(read: FloatReader, id: string, step: string, maxRss: Option<Memory>)
    requires ReadsNumerals(read) && PrintableMemory(maxRss)
    requires PlainName(id) && '.' !in id && PlainName(step)
    ensures '\n' !in StepLine(id, step, maxRss)
    ensures ParseLine(read, StepLine(id, step, maxRss)) == Some(Line(id, true, MemoryValue(maxRss), None))
  {
    hide ParseLine, ParseMemory, TrimSpace, Join, PrintMemory, ReadsNumerals, MemoryValue, PrintableMemory;
    var name := id + "." + step;
    var f := [name, "", "", "", "", "", "", PrintMemory(maxRss), ""];
    PrintedMemoryReadsBack(read, maxRss);
    assert name[0] == id[0] && name[|name| - 1] == step[|step| - 1];
    ColumnsAreCut(read, f);
    IndexOfFirst(id, '.', step);
    assert name[..|id|] == id;
    JoinChars(f, "|", '\n');
  }

  /** A line of either kind. */
  datatype PrintedLine = Allocation(job: PrintedJob) | Step(id: string, step: string, rss: Option<Memory>)

  predicate PrintableLine(l: PrintedLine) {
    match l
    case Allocation(p) => Printable(p)
    case Step(id, step, rss) => PrintableMemory(rss) && PlainName(id) && '.' !in id && PlainName(step)
  }

  function PrintLine(l: PrintedLine): string {
    match l
    case Allocation(p) => AllocationLine(p)
    case Step(id, step, rss) => StepLine(id, step, rss)
  }

  function LineOf(l: PrintedLine): Line {
    match l
    case Allocation(p) => Line(p.id, false, MemoryValue(p.maxRss), IdentityOf(p))
    case Step(id, _, rss) => Line(id, true, MemoryValue(rss), None)
  }

  lemma LineReadsBack(read: FloatReader, l: PrintedLine)
    requires ReadsNumerals(read) && PrintableLine(l)
    ensures LineParser(read)(PrintLine(l)) == Some(LineOf(l)) && '\n' !in PrintLine(l)
  {
    hide ParseLine, AllocationLine, StepLine, ReadsNumerals, PrintableMemory, Printable;
    match l
    case Allocation(p) => AllocationLineReadsBack(read, p);
    case Step(id, step, rss) => StepLineReadsBack(read, id, step, rss);
  }

  lemma {:induction false} PrintedLinesAreParsed(read: FloatReader, ls: seq<PrintedLine>)
    requires ReadsNumerals(read) && forall i | 0 <= i < |ls| :: PrintableLine(ls[i])
    ensures Parsed(LineParser(read), Map(ls, PrintLine)) == Map(ls, LineOf)
  {
    hide ParseLine, PrintLine, LineOf, ReadsNumerals, PrintableLine;
    if ls == [] {
    } else {
      var front, last := ls[..|ls| - 1], ls[|ls| - 1];
      assert ls == front + [last];
      PrintedLinesAreParsed(read, front);
      LineReadsBack(read, last);
      MapAppend(front, last, PrintLine);
      MapAppend(front, last, LineOf);
      ParsedAppend(LineParser(read), Map(front, PrintLine), PrintLine(last));
    }
  }

  lemma EmptyLineIsNone(read: FloatReader)
    ensures LineParser(read)("") == None
  {
    SplitWhole("", '|');
  }

  /** A printed text is read line by line, in order and in full. */
  lemma TextReadsBack(read: FloatReader, ls: seq<PrintedLine>)
    requires ReadsNumerals(read) && forall i | 0 <= i < |ls| :: PrintableLine(ls[i])
    ensures Lines(read, Unlines(Map(ls, PrintLine))) == Map(ls, LineOf)
  {
    hide ParseLine, PrintLine, LineOf, ReadsNumerals, PrintableLine, Split, Unlines;
    var texts := Map(ls, PrintLine);
    forall i | 0 <= i < |ls|
      ensures '\n' !in texts[i]
    {
      LineReadsBack(read, ls[i]);
    }
    PrintedLinesAreParsed(read, ls);
    SplitUnlines(texts);
    EmptyLineIsNone(read);
    ParsedAppend(LineParser(read), texts, "");
  }

  lemma NothingSeen(id: string)
    ensures FirstSeen([]) == [] && LastAlloc([], id) == None && PeakRss([], id) == None
  {
  }

  lemma RecordsOfOne(lines: seq<Line>, id: string)
    requires FirstSeen(lines) == [id]
    ensures Records(lines) == if LastAlloc(lines, id).Some? then [RecordOf(lines, id)] else []
  {
    hide FirstSeen, LastAlloc, RecordOf;
    assert [id][..0] == [];
    assert RecordsFor(lines, []) == [];
  }

  lemma RecordsOfTwo(a: Line, b: Line)
    requires a.base == b.base && b.alloc.None? && a.rss.None?
    ensures Records([a, b]) ==
            if a.alloc.Some? then [Record(a.alloc.value, b.rss.GetOr(0.0), b.rss.Some?)] else []
  {
    hide Records, RecordsFor, FirstSeen, LastAlloc, PeakRss;
    var lines, id := [a, b], a.base;
    NothingSeen(id);
    LineStep([], a);
    LineStep([a], b);
    assert [] + [a] == [a] && [a] + [b] == lines;
    assert FirstSeen(lines) == [id];
    assert LastAlloc(lines, id) == a.alloc && PeakRss(lines, id) == b.rss;
    RecordsOfOne(lines, id);
  }

  lemma NoMemoryNoValue()
    ensures MemoryValue(None) == None
  {
  }

  lemma UnlinesOfTwo(a: string, b: string)
    ensures Unlines([a, b]) == a + "\n" + b + "\n"
  {
    assert [a, b] == [] + [a] + [b];
    UnlinesAppend([], a);
    UnlinesAppend([] + [a], b);
    assert a + "\n" + (b + "\n") == a + "\n" + b + "\n";
  }

  /**
   A job whose allocation line and step line were printed gives one record: its columns as printed, and the
   MaxRSS of the step.
   */
  lemma JobReadsBack(read: FloatReader, p: PrintedJob, step: string, rss: Option<Memory>)
    requires ReadsNumerals(read) && Printable(p) && p.maxRss == None && p.cpus > 0 && p.elapsed > 0
    requires PrintableMemory(rss) && PlainName(step)
    ensures Records(Lines(read, AllocationLine(p) + "\n" + StepLine(p.id, step, rss) + "\n")) ==
            [Record(Identity(p.user, p.account, p.cpus as real, p.elapsed as real, p.totalCpu as real,
                             p.cpuTime as real, MemoryValue(p.reqMem).GetOr(0.0)),
                    MemoryValue(rss).GetOr(0.0), MemoryValue(rss).Some?)]
  {
    hide Records, Lines, AllocationLine, StepLine, ReadsNumerals, MemoryValue;
    var a, b := Allocation(p), Step(p.id, step, rss);
    TextReadsBack(read, [a, b]);
    assert Map([a, b], PrintLine) == [PrintLine(a), PrintLine(b)];
    assert Map([a, b], LineOf) == [LineOf(a), LineOf(b)];
    UnlinesOfTwo(PrintLine(a), PrintLine(b));
    NoMemoryNoValue();
    RecordsOfTwo(LineOf(a), LineOf(b));
  }
}
