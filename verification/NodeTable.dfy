/**
 ParseNodeMetrics of internal/collector/node.go: one record per node, overwritten line by line, and the list
 of the partitions the node is in.
 */
module NodeTable {
  import opened Text
  import opened Numbers
  import opened Permutations
  import opened SortedText
  import opened PartitionNames
  import Gres

  type Counts = map<string, nat>

  /** The value of strconv.ParseUint with its error ignored. */
  function UintOrZero(s: string): nat {
    ParseUint(s).0
  }

  /** What a line with a complete CPU column says. */
  datatype Reading = Reading(
    memAlloc: nat,
    memTotal: nat,
    cpuAlloc: nat,
    cpuIdle: nat,
    cpuOther: nat,
    cpuTotal: nat
  )

  /** NodeMetrics. */
  datatype View = View(
    reading: Reading,
    status: string,
    partitions: seq<string>,
    gresTotal: Counts,
    gresUsed: Counts
  )

  const NO_READING := Reading(0, 0, 0, 0, 0, 0)

  predicate Usable(f: seq<string>) {
    |f| >= 6
  }

  predicate Complete(f: seq<string>) {
    Usable(f) && |Split(f[3], '/')| >= 4
  }

  function ReadingOf(f: seq<string>): Reading
    requires Complete(f)
  {
    var cpu := Split(f[3], '/');
    Reading(UintOrZero(f[1]), UintOrZero(f[2]), UintOrZero(cpu[0]), UintOrZero(cpu[1]), UintOrZero(cpu[2]),
            UintOrZero(cpu[3]))
  }

  /** The partition of a line, without the default marker. */
  function PartitionOf(f: seq<string>): string
    requires Usable(f)
  {
    TrimRight(f[5], "*")
  }

  predicate IsAbout(f: seq<string>, node: string) {
    Usable(f) && f[0] == node
  }

  /** A complete line that puts its node in this partition. */
  predicate Places(f: seq<string>, p: string) {
    Complete(f) && PartitionOf(f) == p
  }

  predicate SomePlaces(fs: seq<seq<string>>, p: string) {
    exists f | f in fs :: Places(f, p)
  }

  /** f are the fields of one of the lines. */
  predicate Yields(lines: seq<string>, f: seq<string>) {
    exists line | line in lines :: Fields(line) == f
  }

  // ---- Meaning of the lines of one node ----

  /** The lines, as fields, that are about this node. */
  function LinesOf(lines: seq<string>, node: string): seq<seq<string>> {
    if lines == [] then [] else
    var f := Fields(lines[|lines| - 1]);
    LinesOf(lines[..|lines| - 1], node) + if IsAbout(f, node) then [f] else []
  }

  /** The reading of the last complete line. */
  function LastReading(fs: seq<seq<string>>): Reading {
    if fs == [] then NO_READING
    else if Complete(fs[|fs| - 1]) then ReadingOf(fs[|fs| - 1])
    else LastReading(fs[..|fs| - 1])
  }

  /** The GRES columns of the last complete line that has both. */
  function LastGres(fs: seq<seq<string>>): (Counts, Counts) {
    if fs == [] then (map[], map[])
    else
      var f := fs[|fs| - 1];
      if Complete(f) && |f| >= 8 then (Gres.GresByType(f[6]), Gres.GresByType(f[7])) else LastGres(fs[..|fs| - 1])
  }

  function AppendUniqueOf(s: seq<string>, x: string): seq<string> {
    if x in s then s else s + [x]
  }

  /** The partitions of the complete lines, in order of first appearance. */
  function PartitionsOf(fs: seq<seq<string>>): seq<string> {
    if fs == [] then []
    else
      var front, f := PartitionsOf(fs[..|fs| - 1]), fs[|fs| - 1];
      if Complete(f) then AppendUniqueOf(front, PartitionOf(f)) else front
  }

  predicate AllUsable(fs: seq<seq<string>>) {
    forall i | 0 <= i < |fs| :: Usable(fs[i])
  }

  /** The record of a node: its status from its first line, the rest from its last complete ones. */
  function ViewOf(fs: seq<seq<string>>): View
    requires AllUsable(fs) && fs != []
  {
    assert Usable(fs[0]);
    View(LastReading(fs), fs[0][4], PartitionsOf(fs), LastGres(fs).0, LastGres(fs).1)
  }

  /** The record stands for these lines of the node. */
  predicate Shows(v: View, fs: seq<seq<string>>) {
    AllUsable(fs) && fs != [] && v == ViewOf(fs)
  }

  /** Position i holds the last line of the node that satisfies p. */
  ghost predicate LastWith(fs: seq<seq<string>>, i: nat, p: seq<string> -> bool) {
    i < |fs| && p(fs[i]) && forall k | i < k < |fs| :: !p(fs[k])
  }

  ghost predicate NoneWith(fs: seq<seq<string>>, p: seq<string> -> bool) {
    forall i | 0 <= i < |fs| :: !p(fs[i])
  }

  /** Both GRES columns are there. */
  predicate HasGres(f: seq<string>) {
    Complete(f) && |f| >= 8
  }

  lemma {:induction false} LastReadingMeaning(fs: seq<seq<string>>, i: nat)
    ensures LastWith(fs, i, Complete) ==> LastReading(fs) == ReadingOf(fs[i])
    ensures NoneWith(fs, Complete) ==> LastReading(fs) == Reading(0, 0, 0, 0, 0, 0)
    decreases |fs|
  {
    hide Complete, ReadingOf;
    if fs == [] {
    } else {
      LastReadingMeaning(fs[..|fs| - 1], i);
    }
  }

  lemma {:induction false} LastGresMeaning(fs: seq<seq<string>>, i: nat)
    ensures LastWith(fs, i, HasGres) ==> LastGres(fs) == (Gres.GresByType(fs[i][6]), Gres.GresByType(fs[i][7]))
    ensures NoneWith(fs, HasGres) ==> LastGres(fs) == (map[], map[])
    decreases |fs|
  {
    hide Complete, Gres.GresByType;
    if fs == [] {
    } else {
      LastGresMeaning(fs[..|fs| - 1], i);
    }
  }

  /**
   The record of a node: the status on its first line, the readings of its last complete line, and the GRES of its
   last complete line that has both columns.
   */
  lemma RecordMeaning(fs: seq<seq<string>>, i: nat, j: nat)
    requires AllUsable(fs) && fs != []
    ensures ViewOf(fs).status == fs[0][4]
    ensures LastWith(fs, i, Complete) ==> ViewOf(fs).reading == ReadingOf(fs[i])
    ensures LastWith(fs, j, HasGres) ==>
              ViewOf(fs).gresTotal == Gres.GresByType(fs[j][6]) && ViewOf(fs).gresUsed == Gres.GresByType(fs[j][7])
    ensures NoneWith(fs, HasGres) ==> ViewOf(fs).gresTotal == map[] && ViewOf(fs).gresUsed == map[]
  {
    LastReadingMeaning(fs, i);
    LastGresMeaning(fs, j);
  }

  /** What one more line of the node does to its record. */
  function Updated(v: View, f: seq<string>): View
    requires Usable(f)
  {
    if !Complete(f) then v
    else
      View(ReadingOf(f), v.status, AppendUniqueOf(v.partitions, PartitionOf(f)),
           if |f| >= 8 then Gres.GresByType(f[6]) else v.gresTotal,
           if |f| >= 8 then Gres.GresByType(f[7]) else v.gresUsed)
  }

  function NewView(f: seq<string>): View
    requires Usable(f)
  {
    View(NO_READING, f[4], [], map[], map[])
  }

  lemma NextLineShows(v: View, fs: seq<seq<string>>, f: seq<string>)
    requires Shows(v, fs) && Usable(f)
    ensures Shows(Updated(v, f), fs + [f])
  {
  }

  lemma FirstLineShows(f: seq<string>)
    requires Usable(f)
    ensures Shows(Updated(NewView(f), f), [f])
  {
    hide Gres.GresByType, ReadingOf, PartitionOf, Complete;
    var none: seq<seq<string>> := [];
    assert [f][..|[f]| - 1] == none;
    assert LastReading(none) == NO_READING && LastGres(none) == (map[], map[]) && PartitionsOf(none) == [];
  }

  /** A node's partition list has no repetition and names exactly the partitions of its complete lines. */
  lemma {:induction false} PartitionsMeaning(fs: seq<seq<string>>)
    ensures Distinct(PartitionsOf(fs))
    ensures forall p :: p in PartitionsOf(fs) <==> SomePlaces(fs, p)
  {
    if fs == [] {
    } else {
      var front, last := fs[..|fs| - 1], fs[|fs| - 1];
      PartitionsMeaning(front);
      forall p: string
        ensures p in PartitionsOf(fs) <==> p in PartitionsOf(front) || Places(last, p)
        ensures SomePlaces(fs, p) <==> SomePlaces(front, p) || Places(last, p)
      {
        hide Complete, PartitionOf;
        assert fs == front + [last] && last in fs;
      }
    }
  }

  lemma {:induction false} LinesOfMeaning(lines: seq<string>, node: string)
    ensures forall f | f in LinesOf(lines, node) :: IsAbout(f, node)
    ensures forall f :: f in LinesOf(lines, node) <==> IsAbout(f, node) && Yields(lines, f)
  {
    if lines == [] {
    } else {
      hide Fields, IsAbout;
      var front, last := lines[..|lines| - 1], lines[|lines| - 1];
      LinesOfMeaning(front, node);
      forall f: seq<string>
        ensures Yields(lines, f) <==> Yields(front, f) || Fields(last) == f
      {
        assert lines == front + [last] && last in lines;
      }
    }
  }

  // ---- The records ----

  /** appendUnique. */
  method AppendUnique(s: seq<string>, x: string) returns (r: seq<string>)
    ensures r == AppendUniqueOf(s, x)
  {
    for i := 0 to |s|
      invariant x !in s[..i]
    {
      if s[i] == x {
        return s;
      }
    }
    assert s[..|s|] == s;
    r := s + [x];
  }

  class NodeMetrics {
    var memAlloc: nat
    var memTotal: nat
    var cpuAlloc: nat
    var cpuIdle: nat
    var cpuOther: nat
    var cpuTotal: nat
    var nodeStatus: string
    var partitions: seq<string>
    var gresTotal: Counts
    var gresUsed: Counts

    constructor (f: seq<string>)
      requires Usable(f)
      ensures Shown() == NewView(f)
    {
      memAlloc, memTotal, cpuAlloc, cpuIdle, cpuOther, cpuTotal := 0, 0, 0, 0, 0, 0;
      nodeStatus := f[4];
      partitions := [];
      gresTotal, gresUsed := map[], map[];
    }

    function Shown(): View
      reads this
    {
      View(Reading(memAlloc, memTotal, cpuAlloc, cpuIdle, cpuOther, cpuTotal), nodeStatus, partitions, gresTotal,
           gresUsed)
    }

    /** The part of the loop body after the CPU column has been found complete. */
    method Update(f: seq<string>)
      requires Complete(f)
      modifies this
      ensures Shown() == Updated(old(Shown()), f)
    {
      hide Gres.GresByType, UintOrZero, TrimRight;
      var cpu := Split(f[3], '/');
      memAlloc, memTotal := UintOrZero(f[1]), UintOrZero(f[2]);
      cpuAlloc, cpuIdle, cpuOther, cpuTotal :=
          UintOrZero(cpu[0]), UintOrZero(cpu[1]), UintOrZero(cpu[2]), UintOrZero(cpu[3]);
      if |f| >= 8 {
        gresTotal := Gres.ParseGresByType(f[6]);
        gresUsed := Gres.ParseGresByType(f[7]);
      }
      partitions := AppendUnique(partitions, TrimRight(f[5], "*"));
    }
  }

  function ShownAll(table: map<string, NodeMetrics>): map<string, View>
    reads table.Values
  {
    map node | node in table :: table[node].Shown()
  }

  /** The records of the nodes with a usable line, each that of its lines. */
  ghost predicate Records(views: map<string, View>, lines: seq<string>) {
    && (forall node :: node in views <==> LinesOf(lines, node) != [])
    && (forall node | node in views :: Shows(views[node], LinesOf(lines, node)))
  }

  /** Two nodes never share an object. */
  predicate Separate(table: map<string, NodeMetrics>) {
    forall a, b | a in table && b in table && a != b :: table[a] != table[b]
  }

  /** One object per node, showing the records of the lines. */
  ghost predicate Holds(table: map<string, NodeMetrics>, lines: seq<string>)
    reads table.Values
  {
    Separate(table) && Records(ShownAll(table), lines)
  }

  lemma LinesOfStep(lines: seq<string>, i: nat, node: string)
    requires i < |lines|
    ensures var f := Fields(lines[i]);
            LinesOf(lines[..i + 1], node) ==
            if IsAbout(f, node) then LinesOf(lines[..i], node) + [f] else LinesOf(lines[..i], node)
  {
    assert lines[..i + 1][..i] == lines[..i];
  }

  lemma RecordsStep(views: map<string, View>, lines: seq<string>, i: nat)
    requires i < |lines| && Usable(Fields(lines[i])) && Records(views, lines[..i])
    ensures var f := Fields(lines[i]);
            var v := if f[0] in views then views[f[0]] else NewView(f);
            Records(views[f[0] := Updated(v, f)], lines[..i + 1])
  {
    hide Fields, LinesOf, Shows, Updated, NewView;
    var f := Fields(lines[i]);
    forall n: string
      ensures LinesOf(lines[..i + 1], n) == if f[0] == n then LinesOf(lines[..i], n) + [f] else LinesOf(lines[..i], n)
    {
      LinesOfStep(lines, i, n);
    }
    if f[0] in views {
      NextLineShows(views[f[0]], LinesOf(lines[..i], f[0]), f);
    } else {
      FirstLineShows(f);
      assert LinesOf(lines[..i + 1], f[0]) == [f];
    }
  }

  lemma NotComplete(v: View, f: seq<string>)
    requires Usable(f) && |Split(f[3], '/')| < 4
    ensures Updated(v, f) == v
  {
  }

  /** The body of the loop for a line with at least six fields. */
  method AddLine(table: map<string, NodeMetrics>, f: seq<string>) returns (after: map<string, NodeMetrics>)
    requires Usable(f) && Separate(table)
    modifies table.Values
    ensures Separate(after)
    ensures forall o | o in after.Values :: o in table.Values || fresh(o)
    ensures var before := old(ShownAll(table));
            ShownAll(after) == before[f[0] := Updated(if f[0] in before then before[f[0]] else NewView(f), f)]
  {
    hide Updated, NewView, NodeMetrics.Shown;
    after := table;
    var node := f[0];
    if node !in after {
      var nm := new NodeMetrics(f);
      after := after[node := nm];
    }
    var cpu := Split(f[3], '/');
    if |cpu| < 4 {
      NotComplete(after[node].Shown(), f);
      return;
    }
    after[node].Update(f);
  }

  lemma NothingHeld(lines: seq<string>)
    ensures Holds(map[], lines[..0])
  {
  }

  lemma ShortLine(views: map<string, View>, lines: seq<string>, i: nat)
    requires i < |lines| && |Fields(lines[i])| < 6 && Records(views, lines[..i])
    ensures Records(views, lines[..i + 1])
  {
    hide Fields, Shows;
    forall n: string
      ensures LinesOf(lines[..i + 1], n) == LinesOf(lines[..i], n)
    {
      LinesOfStep(lines, i, n);
    }
  }

  /** ParseNodeMetrics: sort, compact, then one record per node. */
  method ParseNodeMetrics(input: string) returns (table: map<string, NodeMetrics>)
    ensures Holds(table, Uniq(Split(input, '\n')))
    ensures forall o | o in table.Values :: fresh(o)
  {
    hide Fields, Records, ShownAll, Updated, NewView;
    table := map[];
    var lines := Uniq(Split(input, '\n'));
    NothingHeld(lines);
    for i := 0 to |lines|
      invariant Holds(table, lines[..i])
      invariant forall o | o in table.Values :: fresh(o)
    {
      var node := Fields(lines[i]);
      if |node| < 6 {
        ShortLine(ShownAll(table), lines, i);
        continue;
      }
      RecordsStep(ShownAll(table), lines, i);
      table := AddLine(table, node);
    }
    assert lines[..|lines|] == lines;
  }

  /** The records are a function of the set of input lines: permuting or repeating lines changes nothing. */
  lemma NodesDependOnLineSet(a: string, b: string, node: string)
    requires forall line :: line in Split(a, '\n') <==> line in Split(b, '\n')
    ensures LinesOf(Uniq(Split(a, '\n')), node) == LinesOf(Uniq(Split(b, '\n')), node)
  {
    UniqDependsOnSet(Split(a, '\n'), Split(b, '\n'));
  }

  /** The line is complete, about this node, and puts it in this partition. */
  predicate PutsIn(line: string, node: string, p: string) {
    IsAbout(Fields(line), node) && Places(Fields(line), p)
  }

  predicate SomePutsIn(lines: seq<string>, node: string, p: string) {
    exists line | line in lines :: PutsIn(line, node, p)
  }

  /** The partition list of a node, read off the input: no repetition, and exactly its stripped names. */
  lemma NodePartitions(input: string, node: string)
    ensures var partitions := PartitionsOf(LinesOf(Uniq(Split(input, '\n')), node));
            && Distinct(partitions)
            && forall p :: p in partitions <==> SomePutsIn(Split(input, '\n'), node, p)
  {
    hide Fields, Places, PartitionsOf, LinesOf, Split, Uniq, IsAbout;
    var lines := Uniq(Split(input, '\n'));
    var fs := LinesOf(lines, node);
    UniqMeaning(Split(input, '\n'));
    LinesOfMeaning(lines, node);
    PartitionsMeaning(fs);
    forall p: string
      ensures SomePlaces(fs, p) <==> SomePutsIn(Split(input, '\n'), node, p)
    {
      if f :| f in fs && Places(f, p) {
        var line :| line in lines && Fields(line) == f;
        assert PutsIn(line, node, p);
      }
      if line :| line in Split(input, '\n') && PutsIn(line, node, p) {
        assert line in lines && Fields(line) in fs;
      }
    }
  }

  // ---- One printed node ----

  /** The numbers of a line. */
  datatype Numerals = Numerals(memAlloc: nat, memTotal: nat, alloc: nat, idle: nat, other: nat, total: nat)

  predicate In64Bits(n: Numerals) {
    && n.memAlloc < 18446744073709551616 && n.memTotal < 18446744073709551616
    && n.alloc < 18446744073709551616 && n.idle < 18446744073709551616
    && n.other < 18446744073709551616 && n.total < 18446744073709551616
  }

  /** NodeList, AllocMem, Memory, CPUsState, StateLong, Partition, and the GRES columns when there are any. */
  function Columns(name: string, n: Numerals, status: string, part: string, marked: bool,
                   gres: seq<string>): seq<string>
  {
    [name, Decimal(n.memAlloc), Decimal(n.memTotal),
     Join([Decimal(n.alloc), Decimal(n.idle), Decimal(n.other), Decimal(n.total)], "/"),
     status, Marked(part, marked)] + gres
  }

  lemma NumberReadsBack(n: nat)
    requires n < 18446744073709551616
    ensures UintOrZero(Decimal(n)) == n && IsWord(Decimal(n)) && '/' !in Decimal(n)
  {
    DecimalReadsBack(n);
    ParseUintReadsBack(n);
  }

  lemma SlashIsNoSpace()
    ensures !IsSpace('/')
  {
  }

  lemma CpusReadBack(n: Numerals)
    requires In64Bits(n)
    ensures var text := Join([Decimal(n.alloc), Decimal(n.idle), Decimal(n.other), Decimal(n.total)], "/");
            && Split(text, '/') == [Decimal(n.alloc), Decimal(n.idle), Decimal(n.other), Decimal(n.total)]
            && IsWord(text)
  {
    hide Decimal, Split, Join, IsSpace;
    var parts := [Decimal(n.alloc), Decimal(n.idle), Decimal(n.other), Decimal(n.total)];
    NumberReadsBack(n.alloc);
    NumberReadsBack(n.idle);
    NumberReadsBack(n.other);
    NumberReadsBack(n.total);
    SplitJoin(parts, '/');
    SlashIsNoSpace();
    var text := Join(parts, "/");
    forall i | 0 <= i < |text|
      ensures !IsSpace(text[i])
    {
      if IsSpace(text[i]) {
        JoinChars(parts, "/", text[i]);
      }
    }
    assert text != "" by {
      SplitWhole("", '/');
    }
  }

  lemma NewlineIsSpace()
    ensures IsSpace('\n')
  {
  }

  lemma ColumnsReadBack(name: string, n: Numerals, status: string, part: string, marked: bool, gres: seq<string>)
    requires In64Bits(n) && IsWord(name) && IsWord(status) && PlainName(part)
    requires forall i | 0 <= i < |gres| :: IsWord(gres[i])
    ensures var f := Columns(name, n, status, part, marked, gres);
            && Fields(Join(f, " ")) == f && '\n' !in Join(f, " ")
            && Complete(f) && PartitionOf(f) == part
            && ReadingOf(f) == Reading(n.memAlloc, n.memTotal, n.alloc, n.idle, n.other, n.total)
  {
    hide Fields, Join, Split, Decimal, IsSpace, UintOrZero, TrimRight, Marked, PlainName;
    var f := Columns(name, n, status, part, marked, gres);
    NumberReadsBack(n.memAlloc);
    NumberReadsBack(n.memTotal);
    NumberReadsBack(n.alloc);
    NumberReadsBack(n.idle);
    NumberReadsBack(n.other);
    NumberReadsBack(n.total);
    CpusReadBack(n);
    MarkerIsCut(part, marked);
    assert forall i | 0 <= i < |f| :: IsWord(f[i]);
    FieldsOfJoin(f);
    NewlineIsSpace();
    JoinChars(f, " ", '\n');
  }

  lemma ColumnNames(name: string, n: Numerals, status: string, part: string, marked: bool, gres: seq<string>)
    ensures var f := Columns(name, n, status, part, marked, gres);
            && |f| == 6 + |gres| && f[0] == name && f[4] == status
            && (|gres| == 2 ==> f[6] == gres[0] && f[7] == gres[1])
  {
  }

  lemma LinesOfOne(line: string, f: seq<string>)
    requires Fields(line) == f && Usable(f)
    ensures forall node :: LinesOf([line], node) == if node == f[0] then [f] else []
  {
    hide Fields;
    assert [line][..0] == [];
  }

  lemma OneView(f: seq<string>)
    requires Complete(f)
    ensures ViewOf([f]) ==
            View(ReadingOf(f), f[4], [PartitionOf(f)], if |f| >= 8 then Gres.GresByType(f[6]) else map[],
                 if |f| >= 8 then Gres.GresByType(f[7]) else map[])
  {
    hide Gres.GresByType, ReadingOf, PartitionOf, Complete;
    var none: seq<seq<string>> := [];
    assert [f][..|[f]| - 1] == none;
    assert LastGres(none) == (map[], map[]) && PartitionsOf(none) == [];
  }

  /** One printed line: the one node, with the columns in its fields and the partition without its marker. */
  lemma PrintedNode(table: map<string, NodeMetrics>, name: string, n: Numerals, status: string, part: string,
                    marked: bool, gres: seq<string>)
    requires In64Bits(n) && IsWord(name) && IsWord(status) && PlainName(part)
    requires (|gres| == 0 || |gres| == 2) && forall i | 0 <= i < |gres| :: IsWord(gres[i])
    requires Holds(table, Uniq(Split(Join(Columns(name, n, status, part, marked, gres), " "), '\n')))
    ensures table.Keys == {name}
    ensures var nm := table[name];
            && nm.memAlloc == n.memAlloc && nm.memTotal == n.memTotal
            && nm.cpuAlloc == n.alloc && nm.cpuIdle == n.idle && nm.cpuOther == n.other && nm.cpuTotal == n.total
            && nm.nodeStatus == status && nm.partitions == [part]
            && (gres == [] ==> nm.gresTotal == nm.gresUsed == map[])
            && (gres != [] ==>
                  nm.gresTotal == Gres.GresByType(gres[0]) && nm.gresUsed == Gres.GresByType(gres[1]))
  {
    hide Columns, Fields, Join, Split, ReadingOf, PartitionOf, Complete, IsWord, PlainName, Gres.GresByType, Uniq,
         LinesOf, ViewOf, In64Bits;
    var f := Columns(name, n, status, part, marked, gres);
    var line := Join(f, " ");
    ColumnsReadBack(name, n, status, part, marked, gres);
    SplitWhole(line, '\n');
    UniqOfOne(line);
    ColumnNames(name, n, status, part, marked, gres);
    LinesOfOne(line, f);
    forall node: string
      ensures node in ShownAll(table) <==> node == name
    {
      assert node in ShownAll(table) <==> LinesOf([line], node) != [];
    }
    assert table.Keys == ShownAll(table).Keys;
    OneView(f);
    assert ShownAll(table)[name] == table[name].Shown();
  }
}
