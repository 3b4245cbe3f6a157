/**
 tools/fixture-diff/main.go: the shape of a line, the distinct shapes of a file, and the comparison of two
 fixture directories.
 */
module FixtureDiff {
  import opened Text
  import opened Numbers
  import opened Permutations
  import opened Sums
  import opened SortedText

  // ---- The shape of a line ----

  datatype Kind = Digit | Letter | Blank | Mark

  function KindOf(c: char): Kind {
    if '0' <= c <= '9' then Digit
    else if 'a' <= c <= 'z' || 'A' <= c <= 'Z' || c == '_' then Letter
    else if c == ' ' || c == '\t' then Blank
    else Mark
  }

  /** What a character leaves behind, given the kind of the one before it. */
  function Mold(previous: Kind, c: char): string {
    match KindOf(c)
    case Digit => if previous == Digit then "" else "#"
    case Letter => if previous == Letter then "" else "W"
    case Blank => if previous == Blank then "" else " "
    case Mark => [c]
  }

  /** The shape of s after a character of the given kind. */
  function ShapeAfter(previous: Kind, s: string): string
    decreases |s|
  {
    if s == "" then "" else Mold(previous, s[0]) + ShapeAfter(KindOf(s[0]), s[1..])
  }

  /** shape: a blank line has none. */
  function ShapeOf(line: string): string {
    if TrimSpace(line) == "" then "" else ShapeAfter(Mark, line)
  }

  /** What the three flags say about the previous character. */
  predicate FlagsFor(previous: Kind, inNum: bool, inWord: bool, inSpace: bool) {
    && (inNum <==> previous == Digit)
    && (inWord <==> previous == Letter)
    && (inSpace <==> previous == Blank)
  }

  /** The shape written so far and the shape still to come make up the shape of the line. */
  predicate Written(line: string, i: nat, previous: Kind, b: string)
    requires i <= |line|
  {
    b + ShapeAfter(previous, line[i..]) == ShapeAfter(Mark, line)
  }

  lemma WrittenStep(line: string, i: nat, previous: Kind, b: string)
    requires i < |line| && Written(line, i, previous, b)
    ensures Written(line, i + 1, KindOf(line[i]), b + Mold(previous, line[i]))
    ensures Mold(previous, line[i]) == "" ==> b + Mold(previous, line[i]) == b
  {
    assert line[i..][1..] == line[i + 1..];
    var m, rest := Mold(previous, line[i]), ShapeAfter(KindOf(line[i]), line[i + 1..]);
    assert b + (m + rest) == b + m + rest;
  }

  lemma WrittenStarts(line: string)
    ensures Written(line, 0, Mark, "")
  {
  }

  lemma WrittenEnds(line: string, previous: Kind, b: string)
    requires Written(line, |line|, previous, b)
    ensures b == ShapeAfter(Mark, line)
  {
  }

  /** shape: three flags over the characters, and a builder. */
  method Shape(line: string) returns (shape: string)
    ensures shape == ShapeOf(line)
  {
    hide ShapeAfter, Written;
    if TrimSpace(line) == "" {
      return "";
    }
    var b := "";
    var inNum, inWord, inSpace := false, false, false;
    ghost var previous := Mark;
    WrittenStarts(line);
    for i := 0 to |line|
      invariant FlagsFor(previous, inNum, inWord, inSpace)
      invariant Written(line, i, previous, b)
    {
      WrittenStep(line, i, previous, b);
      previous := KindOf(line[i]);
      var r := line[i];
      if '0' <= r <= '9' {
        if !inNum {
          b := b + "#";
          inNum, inWord := true, false;
        }
      } else if 'a' <= r <= 'z' || 'A' <= r <= 'Z' || r == '_' {
        if !inWord {
          b := b + "W";
          inWord, inNum := true, false;
        }
      } else if r == ' ' || r == '\t' {
        if !inSpace {
          b := b + " ";
        }
        inSpace, inNum, inWord := true, false, false;
        continue;
      } else {
        b := b + [r];
        inNum, inWord := false, false;
      }
      inSpace := false;
    }
    WrittenEnds(line, previous, b);
    return b;
  }

  // ---- Shapes depend on structure only ----

  predicate AllOf(s: string, kind: Kind) {
    forall i | 0 <= i < |s| :: KindOf(s[i]) == kind
  }

  /** What a run of digits, letters or blanks leaves behind. */
  function RunShape(previous: Kind, kind: Kind): string {
    if previous == kind then "" else
    match kind
    case Digit => "#"
    case Letter => "W"
    case _ => " "
  }

  lemma {:induction false} RunLeaves(previous: Kind, run: string, rest: string, kind: Kind)
    requires kind != Mark && run != "" && AllOf(run, kind)
    ensures ShapeAfter(previous, run + rest) == RunShape(previous, kind) + ShapeAfter(kind, rest)
    decreases |run|
  {
    assert (run + rest)[0] == run[0] && (run + rest)[1..] == run[1..] + rest;
    assert Mold(previous, run[0]) == RunShape(previous, kind);
    if |run| == 1 {
      assert run[1..] + rest == rest;
    } else {
      RunLeaves(kind, run[1..], rest, kind);
      assert "" + ShapeAfter(kind, rest) == ShapeAfter(kind, rest);
    }
  }

  /** The kind of the last character of a, or the given one. */
  function LastKind(previous: Kind, a: string): Kind {
    if a == "" then previous else KindOf(a[|a| - 1])
  }

  lemma ShapeCons(previous: Kind, c: char, s: string)
    ensures ShapeAfter(previous, [c] + s) == Mold(previous, c) + ShapeAfter(KindOf(c), s)
  {
  }

  lemma LastKindCons(previous: Kind, c: char, s: string)
    ensures LastKind(previous, [c] + s) == LastKind(KindOf(c), s)
  {
  }

  lemma {:induction false} ShapeConcat(previous: Kind, a: string, b: string)
    ensures ShapeAfter(previous, a + b) == ShapeAfter(previous, a) + ShapeAfter(LastKind(previous, a), b)
    decreases |a|
  {
    if a == "" {
      assert a + b == b;
    } else {
      hide ShapeAfter, KindOf, Mold, LastKind;
      var c, rest := a[0], a[1..];
      assert a == [c] + rest;
      ConcatAssociative([c], rest, b);
      ShapeCons(previous, c, rest);
      ShapeCons(previous, c, rest + b);
      ShapeConcat(KindOf(c), rest, b);
      LastKindCons(previous, c, rest);
      ConcatAssociative(Mold(previous, c), ShapeAfter(KindOf(c), rest), ShapeAfter(LastKind(previous, a), b));
    }
  }

  predicate AllSpace(s: string) {
    forall i | 0 <= i < |s| :: IsSpace(s[i])
  }

  lemma {:induction false} TrimLeftAllSpace(s: string)
    ensures TrimLeftSpace(s) == "" <==> AllSpace(s)
  {
    if s != "" && IsSpace(s[0]) {
      TrimLeftAllSpace(s[1..]);
      assert AllSpace(s) <==> AllSpace(s[1..]);
    }
  }

  lemma {:induction false} TrimRightKeepsSolid(s: string)
    requires s != "" && !IsSpace(s[0])
    ensures TrimRightSpace(s) != ""
  {
    if IsSpace(s[|s| - 1]) {
      TrimRightKeepsSolid(s[..|s| - 1]);
    }
  }

  lemma TrimSpaceEmptyIff(s: string)
    ensures TrimSpace(s) == "" <==> AllSpace(s)
  {
    TrimLeftAllSpace(s);
    TrimLeftIsSuffix(s);
    var t := TrimLeftSpace(s);
    if t != "" {
      assert !IsSpace(t[0]);
      TrimRightKeepsSolid(t);
    }
  }

  lemma BlankIff(before: string, run: string, after: string)
    ensures TrimSpace(before + run + after) == "" <==> AllSpace(before) && AllSpace(run) && AllSpace(after)
  {
    hide TrimSpace;
    var s := before + run + after;
    TrimSpaceEmptyIff(s);
    if AllSpace(s) {
      forall i | 0 <= i < |before|
        ensures IsSpace(before[i])
      {
        assert s[i] == before[i];
      }
      forall i | 0 <= i < |run|
        ensures IsSpace(run[i])
      {
        assert s[|before| + i] == run[i];
      }
      forall i | 0 <= i < |after|
        ensures IsSpace(after[i])
      {
        assert s[|before| + |run| + i] == after[i];
      }
    }
  }

  lemma RunIsBlankIff(run: string, kind: Kind)
    requires kind != Mark && run != "" && AllOf(run, kind)
    ensures AllSpace(run) <==> kind == Blank
  {
    assert KindOf(run[0]) == kind;
  }

  /** Replacing a run of one kind by another non-empty run of that kind leaves the written shape alone. */
  lemma RunLengthDoesNotMatter(before: string, run: string, other: string, after: string, kind: Kind)
    requires kind != Mark && run != "" && other != "" && AllOf(run, kind) && AllOf(other, kind)
    ensures ShapeOf(before + run + after) == ShapeOf(before + other + after)
  {
    hide ShapeAfter, TrimSpace, KindOf, RunShape;
    var previous := LastKind(Mark, before);
    ShapeConcat(Mark, before, run + after);
    ShapeConcat(Mark, before, other + after);
    RunLeaves(previous, run, after, kind);
    RunLeaves(previous, other, after, kind);
    assert before + run + after == before + (run + after) && before + other + after == before + (other + after);
    BlankIff(before, run, after);
    BlankIff(before, other, after);
    RunIsBlankIff(run, kind);
    RunIsBlankIff(other, kind);
  }

  // ---- Idempotence ----

  predicate NoDigit(s: string) {
    forall i | 0 <= i < |s| :: KindOf(s[i]) != Digit
  }

  lemma {:induction false} ShapeHasNoDigit(previous: Kind, s: string)
    ensures NoDigit(ShapeAfter(previous, s))
    decreases |s|
  {
    if s == "" {
    } else {
      ShapeHasNoDigit(KindOf(s[0]), s[1..]);
      assert NoDigit(Mold(previous, s[0]));
    }
  }

  /** Where no digit follows, it does not matter whether the last run was one of digits. */
  lemma DigitOrMark(s: string)
    requires NoDigit(s)
    ensures ShapeAfter(Digit, s) == ShapeAfter(Mark, s)
  {
  }

  /** What a character leaves behind leaves the same behind, and a digit's mark is no digit any more. */
  lemma MoldStable(previous: Kind, c: char)
    requires Mold(previous, c) != ""
    ensures |Mold(previous, c)| == 1
    ensures Mold(previous, Mold(previous, c)[0]) == Mold(previous, c)
    ensures KindOf(Mold(previous, c)[0]) == if KindOf(c) == Digit then Mark else KindOf(c)
  {
  }

  lemma SilentKind(previous: Kind, c: char)
    requires Mold(previous, c) == ""
    ensures KindOf(c) == previous
  {
  }

  lemma {:induction false} ShapeIsStable(previous: Kind, s: string)
    ensures ShapeAfter(previous, ShapeAfter(previous, s)) == ShapeAfter(previous, s)
    decreases |s|
  {
    if s == "" {
    } else {
      hide KindOf, Mold;
      var kind := KindOf(s[0]);
      var m, rest := Mold(previous, s[0]), ShapeAfter(kind, s[1..]);
      ShapeIsStable(kind, s[1..]);
      if m == "" {
        SilentKind(previous, s[0]);
        assert m + rest == rest;
      } else {
        MoldStable(previous, s[0]);
        ShapeHasNoDigit(kind, s[1..]);
        DigitOrMark(rest);
        assert (m + rest)[0] == m[0] && (m + rest)[1..] == rest;
      }
    }
  }

  lemma SolidConcat(a: string, b: string)
    requires !AllSpace(b)
    ensures !AllSpace(a + b)
  {
    var i :| 0 <= i < |b| && !IsSpace(b[i]);
    assert (a + b)[|a| + i] == b[i];
  }

  /** A line that is not blank has a shape that is not blank. */
  lemma {:induction false} SolidShape(previous: Kind, s: string)
    requires !AllSpace(s) && (previous == Digit || previous == Letter ==> s != "" && KindOf(s[0]) != previous)
    ensures !AllSpace(ShapeAfter(previous, s))
    decreases |s|
  {
    var m, rest := Mold(previous, s[0]), ShapeAfter(KindOf(s[0]), s[1..]);
    if IsSpace(s[0]) {
      assert s == [s[0]] + s[1..];
      assert !AllSpace(s[1..]);
      SolidShape(KindOf(s[0]), s[1..]);
      SolidConcat(m, rest);
    } else {
      assert |m| == 1 && !IsSpace(m[0]);
      assert (m + rest)[0] == m[0];
    }
  }

  /** shape is idempotent. */
  lemma ShapeIdempotent(line: string)
    ensures ShapeOf(ShapeOf(line)) == ShapeOf(line)
  {
    ShapeIsStable(Mark, line);
    TrimSpaceEmptyIff(line);
    if !AllSpace(line) {
      TrimSpaceEmptyIff(ShapeAfter(Mark, line));
      SolidShape(Mark, line);
    }
  }

  // ---- Shapes of a file ----

  /** The distinct shapes of the lines of a file. */
  function ShapeSet(content: string): set<string> {
    set line | line in Split(content, '\n') && ShapeOf(line) != "" :: ShapeOf(line)
  }

  /** Exactly the lines that are not blank give a shape, and no shape is empty. */
  lemma ShapeSetMeaning(content: string, shape: string)
    ensures shape in ShapeSet(content) <==>
              exists line | line in Split(content, '\n') :: !AllSpace(line) && ShapeOf(line) == shape
    ensures "" !in ShapeSet(content)
  {
    forall line: string
      ensures ShapeOf(line) != "" <==> !AllSpace(line)
    {
      TrimSpaceEmptyIff(line);
      if !AllSpace(line) {
        SolidShape(Mark, line);
      }
    }
  }

  /** The shapes of the first n lines. */
  function ShapesSoFar(lines: seq<string>): set<string> {
    set line | line in lines && ShapeOf(line) != "" :: ShapeOf(line)
  }

  lemma ShapesStep(lines: seq<string>, line: string)
    ensures ShapesSoFar(lines + [line]) == ShapesSoFar(lines) + if ShapeOf(line) != "" then {ShapeOf(line)} else {}
  {
  }

  lemma TwiceCounts(a: seq<string>, i: nat, j: nat)
    requires i < j < |a| && a[i] == a[j]
    ensures multiset(a)[a[i]] >= 2
  {
    assert a == a[..i] + [a[i]] + a[i + 1..j] + [a[j]] + a[j + 1..];
  }

  lemma SortedDistinct(a: seq<string>, b: seq<string>)
    requires multiset(a) == multiset(b) && Distinct(b)
    ensures Distinct(a)
  {
    forall i, j | 0 <= i < j < |a|
      ensures a[i] != a[j]
    {
      DistinctCount(b, a[i]);
      if a[i] == a[j] {
        TwiceCounts(a, i, j);
      }
    }
  }

  /** The keys of a map, collected in any order and sorted. */
  method SortedList(names: set<string>) returns (sorted: seq<string>)
    ensures StrictlySorted(sorted)
    ensures forall s :: s in sorted <==> s in names
  {
    var out: seq<string> := [];
    var todo := names;
    while todo != {}
      invariant todo <= names && Distinct(out)
      invariant forall s :: s in out <==> s in names && s !in todo
      decreases |todo|
    {
      var s :| s in todo;
      todo := todo - {s};
      out := out + [s];
    }
    sorted := Sort(out);
    SortSorts(out);
    SameElements(sorted, out);
    SortedDistinct(sorted, out);
  }

  /** shapesOf, on a file that could be read: sorted and without repetition. */
  method ShapesOf(content: string) returns (shapes: seq<string>)
    ensures StrictlySorted(shapes)
    ensures forall s :: s in shapes <==> s in ShapeSet(content)
  {
    hide ShapeOf;
    var seen: set<string> := {};
    var lines := Split(content, '\n');
    for i := 0 to |lines|
      invariant seen == ShapesSoFar(lines[..i])
    {
      PrefixStep(lines, i);
      ShapesStep(lines[..i], lines[i]);
      var s := Shape(lines[i]);
      if s != "" {
        seen := seen + {s};
      }
    }
    assert lines[..|lines|] == lines;
    shapes := SortedList(seen);
  }

  function NotIn(others: set<string>): string -> bool {
    s => s !in others
  }

  /** The elements of from that are not in "in", in order. */
  function MissingFrom(from: seq<string>, others: set<string>): seq<string> {
    Filter(from, NotIn(others))
  }

  /** missing. */
  method Missing(from: seq<string>, others: seq<string>) returns (out: seq<string>)
    ensures out == MissingFrom(from, set s | s in others)
    ensures out == [] <==> forall s | s in from :: s in others
  {
    var have: set<string> := {};
    for i := 0 to |others|
      invariant have == set s | s in others[..i]
    {
      PrefixStep(others, i);
      have := have + {others[i]};
    }
    assert others[..|others|] == others;
    out := [];
    for i := 0 to |from|
      invariant out == MissingFrom(from[..i], have)
    {
      PrefixStep(from, i);
      FilterAppend(from[..i], from[i], NotIn(have));
      if from[i] !in have {
        out := out + [from[i]];
      }
    }
    assert from[..|from|] == from;
    FilterMeaning(from, NotIn(have));
    assert out != [] ==> out[0] in out;
  }

  // ---- Comparing two directories ----

  /** The text fixtures of a directory: each file's content, None when it cannot be read. */
  type Directory = map<string, Option<string>>

  /** One entry of the report. */
  datatype Finding =
    | OnlyNew(name: string)
    | OnlyOld(name: string)
    | SameShape(name: string)
    | ShapeChanged(name: string, gone: seq<string>, added: seq<string>)

  /** None is an error. */
  type Report = Option<(seq<Finding>, bool)>

  /** A file of both directories that cannot be read stops the comparison. */
  predicate Unreadable(old_: Directory, new_: Directory, name: string) {
    name in old_ && name in new_ && (old_[name].None? || new_[name].None?)
  }

  /** The comparison fails: nothing to compare, or a file that cannot be read. */
  predicate Fails(old_: Directory, new_: Directory) {
    (old_ == map[] && new_ == map[]) || exists name | name in old_ :: Unreadable(old_, new_, name)
  }

  predicate SameShapes(old_: Directory, new_: Directory, name: string) {
    name in old_ && name in new_ && old_[name].Some? && new_[name].Some?
    && ShapeSet(old_[name].value) == ShapeSet(new_[name].value)
  }

  /** The same file names, and for each the same set of shapes. */
  predicate Agree(old_: Directory, new_: Directory) {
    old_.Keys == new_.Keys && forall name | name in old_ :: SameShapes(old_, new_, name)
  }

  /** What the report says of one file. */
  predicate Describes(f: Finding, old_: Directory, new_: Directory, name: string) {
    match f
    case OnlyNew(n) => n == name && name in new_ && name !in old_
    case OnlyOld(n) => n == name && name in old_ && name !in new_
    case SameShape(n) => n == name && SameShapes(old_, new_, name)
    case ShapeChanged(n, gone, added) =>
      && n == name && name in old_ && name in new_ && old_[name].Some? && new_[name].Some?
      && StrictlySorted(gone) && (set s | s in gone) == ShapeSet(old_[name].value) - ShapeSet(new_[name].value)
      && StrictlySorted(added) && (set s | s in added) == ShapeSet(new_[name].value) - ShapeSet(old_[name].value)
      && (gone != [] || added != [])
  }

  lemma MissingIsDifference(from: seq<string>, others: set<string>)
    requires StrictlySorted(from)
    ensures StrictlySorted(MissingFrom(from, others))
    ensures forall s :: s in MissingFrom(from, others) <==> s in from && s !in others
  {
    hide Le;
    FilterMeaning(from, NotIn(others));
    FilterPairwise(from, NotIn(others), Le);
    FilterDistinct(from, NotIn(others));
  }

  /** The body of compare's loop for a file of both directories that can be read. */
  method CompareFile(old_: Directory, new_: Directory, name: string) returns (f: Finding)
    requires name in old_ && name in new_ && !Unreadable(old_, new_, name)
    ensures Describes(f, old_, new_, name)
    ensures f.SameShape? <==> SameShapes(old_, new_, name)
  {
    hide ShapeSet, Le;
    var oldShapes := ShapesOf(old_[name].value);
    var newShapes := ShapesOf(new_[name].value);
    var gone := Missing(oldShapes, newShapes);
    var added := Missing(newShapes, oldShapes);
    MissingIsDifference(oldShapes, set s | s in newShapes);
    MissingIsDifference(newShapes, set s | s in oldShapes);
    if gone == [] && added == [] {
      return SameShape(name);
    }
    return ShapeChanged(name, gone, added);
  }

  lemma OneSided(old_: Directory, new_: Directory, name: string)
    ensures name !in old_ && name in new_ ==>
              Describes(OnlyNew(name), old_, new_, name) && !SameShapes(old_, new_, name)
    ensures name !in new_ && name in old_ ==>
              Describes(OnlyOld(name), old_, new_, name) && !SameShapes(old_, new_, name)
  {
  }

  lemma NameOf(f: Finding, old_: Directory, new_: Directory, name: string)
    requires Describes(f, old_, new_, name)
    ensures f.name == name
  {
  }

  lemma AllCovered(old_: Directory, new_: Directory, sorted: seq<string>, findings: seq<Finding>)
    requires StrictlySorted(sorted) && forall s :: s in sorted <==> s in old_.Keys + new_.Keys
    requires |findings| == |sorted|
    requires forall j | 0 <= j < |sorted| ::
              findings[j].name == sorted[j] && Describes(findings[j], old_, new_, sorted[j])
    ensures StrictlySorted(Map(findings, (f: Finding) => f.name))
    ensures forall f | f in findings :: Describes(f, old_, new_, f.name)
    ensures forall name :: name in old_ || name in new_ <==> exists f | f in findings :: f.name == name
  {
    hide StrictlySorted, Describes;
    assert Map(findings, (f: Finding) => f.name) == sorted;
    forall name: string
      ensures name in old_ || name in new_ <==> exists f | f in findings :: f.name == name
    {
      if name in sorted {
        var j :| 0 <= j < |sorted| && sorted[j] == name;
        assert findings[j] in findings;
      }
    }
  }

  /** The walk over the sorted names decides for the directories as a whole. */
  lemma VerdictIsAgreement(old_: Directory, new_: Directory, sorted: seq<string>)
    requires forall s :: s in sorted <==> s in old_.Keys + new_.Keys
    requires forall j | 0 <= j < |sorted| :: !Unreadable(old_, new_, sorted[j])
    requires !(old_ == map[] && new_ == map[])
    ensures !Fails(old_, new_)
    ensures (forall j | 0 <= j < |sorted| :: SameShapes(old_, new_, sorted[j])) <==> Agree(old_, new_)
  {
    hide ShapeSet;
    forall name | name in old_ || name in new_
      ensures !Unreadable(old_, new_, name)
      ensures (forall j | 0 <= j < |sorted| :: SameShapes(old_, new_, sorted[j])) ==> SameShapes(old_, new_, name)
    {
      assert name in sorted;
      var j :| 0 <= j < |sorted| && sorted[j] == name;
    }
    forall j | 0 <= j < |sorted|
      ensures Agree(old_, new_) ==> SameShapes(old_, new_, sorted[j])
    {
      assert sorted[j] in sorted;
    }
  }

  /** compare: one finding per file name, in order, and whether any of them is a difference. */
  method Compare(old_: Directory, new_: Directory) returns (report: Report)
    ensures report.None? <==> Fails(old_, new_)
    ensures report.Some? ==>
              var (findings, differs) := report.value;
              && StrictlySorted(Map(findings, (f: Finding) => f.name))
              && (forall f | f in findings :: Describes(f, old_, new_, f.name))
              && (forall name :: name in old_ || name in new_ <==> exists f | f in findings :: f.name == name)
              && (!differs <==> Agree(old_, new_))
  {
    hide ShapeSet, Le, Describes, SameShapes;
    if old_ == map[] && new_ == map[] {
      return None;
    }
    var sorted := SortedList(old_.Keys + new_.Keys);
    var findings: seq<Finding> := [];
    var differs := false;
    for i := 0 to |sorted|
      invariant |findings| == i
      invariant forall j | 0 <= j < i :: findings[j].name == sorted[j] && Describes(findings[j], old_, new_, sorted[j])
      invariant forall j | 0 <= j < i :: !Unreadable(old_, new_, sorted[j])
      invariant !differs <==> forall j | 0 <= j < i :: SameShapes(old_, new_, sorted[j])
    {
      var name := sorted[i];
      assert name in sorted;
      if name !in old_ {
        OneSided(old_, new_, name);
        findings := findings + [OnlyNew(name)];
        differs := true;
        continue;
      }
      if name !in new_ {
        OneSided(old_, new_, name);
        findings := findings + [OnlyOld(name)];
        differs := true;
        continue;
      }
      if old_[name].None? || new_[name].None? {
        assert Unreadable(old_, new_, name);
        return None;
      }
      var f := CompareFile(old_, new_, name);
      NameOf(f, old_, new_, name);
      findings := findings + [f];
      if !f.SameShape? {
        differs := true;
      }
    }
    AllCovered(old_, new_, sorted, findings);
    VerdictIsAgreement(old_, new_, sorted);
    return Some((findings, differs));
  }

  /** The verdict does not depend on which directory is called the old one. */
  lemma VerdictSymmetric(a: Directory, b: Directory)
    ensures Fails(a, b) <==> Fails(b, a)
    ensures Agree(a, b) <==> Agree(b, a)
  {
  }

  // ---- A shape spelled out ----

  lemma NothingLeft(previous: Kind)
    ensures ShapeAfter(previous, "") == ""
  {
  }

  /** Digits become one mark, letters and underscores another, blanks one space, and the rest stays. */
  lemma ShapeSpelled(word: string, number: string, blanks: string, mark: char)
    requires word != "" && forall i | 0 <= i < |word| ::
               'a' <= word[i] <= 'z' || 'A' <= word[i] <= 'Z' || word[i] == '_'
    requires number != "" && forall i | 0 <= i < |number| :: '0' <= number[i] <= '9'
    requires blanks != "" && forall i | 0 <= i < |blanks| :: blanks[i] == ' ' || blanks[i] == '\t'
    requires !('a' <= mark <= 'z' || 'A' <= mark <= 'Z' || mark == '_' || '0' <= mark <= '9')
    requires mark != ' ' && mark != '\t'
    ensures ShapeOf(word + (number + (blanks + ([mark] + word)))) == "W" + ("#" + (" " + ([mark] + "W")))
  {
    hide ShapeAfter;
    var last := word + "";
    assert last == word;
    var tail := [mark] + word;
    RunLeaves(Mark, word, number + (blanks + tail), Letter);
    RunLeaves(Letter, number, blanks + tail, Digit);
    RunLeaves(Digit, blanks, tail, Blank);
    ShapeCons(Blank, mark, word);
    RunLeaves(Mark, last, "", Letter);
    NothingLeft(Letter);
    assert "W" + "" == "W";
    TrimSpaceEmptyIff(word + (number + (blanks + tail)));
    assert (word + (number + (blanks + tail)))[0] == word[0];
  }
}
