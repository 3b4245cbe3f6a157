/**
 squeuePartitions of internal/collector/partitions.go: the partition names one squeue "%P" field refers to.
 */
module PartitionNames {
  import opened Text

  /** One name without its padding and without the default-partition marker. */
  function Strip(name: string): string {
    TrimRight(TrimSpace(name), "*")
  }

  function StripAll(names: seq<string>): (r: seq<string>)
    ensures |r| == |names|
    ensures forall i | 0 <= i < |names| :: r[i] == Strip(names[i])
  {
    seq(|names|, i requires 0 <= i < |names| => Strip(names[i]))
  }

  /** The partitions of a job; a partition listed twice appears twice. */
  function Names(line: string): (names: seq<string>)
    ensures names != []
  {
    StripAll(Split(line, ','))
  }

  /** squeuePartitions: the slice is rewritten in place. */
  method SqueuePartitions(line: string) returns (names: seq<string>)
    ensures names == Names(line)
  {
    names := Split(line, ',');
    ghost var raw := names;
    for i := 0 to |names|
      invariant |names| == |raw|
      invariant forall j | 0 <= j < i :: names[j] == Strip(raw[j])
      invariant forall j | i <= j < |names| :: names[j] == raw[j]
    {
      names := names[i := TrimRight(TrimSpace(names[i]), "*")];
    }
  }

  /** How often a list names a partition. */
  function Multiplicity(parts: seq<string>, part: string): nat {
    multiset(parts)[part]
  }

  function Marked(name: string, marked: bool): string {
    name + if marked then "*" else ""
  }

  /** How squeue may print one partition: padded on both sides, and marked when it is the default. */
  function Printed(name: string, before: string, marked: bool, after: string): string {
    before + Marked(name, marked) + after
  }

  predicate PlainName(name: string) {
    name != "" && NoSpace(name) && ',' !in name && name[|name| - 1] != '*'
  }

  predicate Blank(padding: string) {
    forall i | 0 <= i < |padding| :: IsSpace(padding[i])
  }

  lemma {:induction false} TrimBefore(before: string, body: string)
    requires Blank(before)
    ensures TrimLeftSpace(before + body) == TrimLeftSpace(body)
  {
    if before == "" {
      assert before + body == body;
    } else {
      TrimBefore(before[1..], body);
      assert (before + body)[1..] == before[1..] + body;
    }
  }

  lemma {:induction false} TrimAfter(body: string, after: string)
    requires Blank(after)
    ensures TrimRightSpace(body + after) == TrimRightSpace(body)
  {
    if after == "" {
      assert body + after == body;
    } else {
      TrimAfter(body, after[..|after| - 1]);
      assert (body + after)[..|body + after| - 1] == body + after[..|after| - 1];
    }
  }

  lemma TrimPadding(before: string, body: string, after: string)
    requires Blank(before) && Blank(after)
    requires body != "" && Trimmed(body)
    ensures TrimSpace(before + body + after) == body
  {
    assert before + body + after == before + (body + after);
    TrimBefore(before, body + after);
    TrimAfter(body, after);
  }

  lemma StripPrinted(name: string, before: string, marked: bool, after: string)
    requires PlainName(name) && Blank(before) && Blank(after)
    ensures Strip(Printed(name, before, marked, after)) == name
  {
    var body := Marked(name, marked);
    TrimPadding(before, body, after);
    assert TrimRight(name, "*") == name;
    if marked {
      assert body[..|body| - 1] == name;
    } else {
      assert body == name;
    }
  }

  /** A partition list is read back whatever the padding and wherever the default marker stands. */
  lemma NamesReadBack(names: seq<string>, before: seq<string>, marked: seq<bool>, after: seq<string>)
    requires names != [] && |before| == |names| == |marked| == |after|
    requires forall i | 0 <= i < |names| :: PlainName(names[i]) && Blank(before[i]) && Blank(after[i])
    ensures var printed :=
              seq(|names|, i requires 0 <= i < |names| => Printed(names[i], before[i], marked[i], after[i]));
            Names(Join(printed, ",")) == names
  {
    var printed := seq(|names|, i requires 0 <= i < |names| => Printed(names[i], before[i], marked[i], after[i]));
    forall i | 0 <= i < |names|
      ensures ',' !in printed[i] && Strip(printed[i]) == names[i]
    {
      StripPrinted(names[i], before[i], marked[i], after[i]);
    }
    SplitJoin(printed, ',');
  }

  lemma StripPlain(name: string)
    requires PlainName(name)
    ensures Strip(name) == name
  {
    StripPrinted(name, "", false, "");
    assert Printed(name, "", false, "") == name;
  }

  lemma TwiceReadsBack(name: string)
    requires PlainName(name)
    ensures Names(Join([name, name], ",")) == [name, name]
  {
    hide Strip, Join, Split;
    StripPlain(name);
    SplitJoin([name, name], ',');
  }

  lemma OneReadsBack(name: string)
    requires PlainName(name)
    ensures Names(name) == [name]
  {
    hide Strip, Split;
    StripPlain(name);
    SplitWhole(name, ',');
  }

  lemma MarkerIsCut(part: string, marked: bool)
    requires PlainName(part)
    ensures TrimRight(Marked(part, marked), "*") == part && ',' !in Marked(part, marked) && IsWord(Marked(part, marked))
  {
    assert TrimRight(part, "*") == part;
    if marked {
      assert Marked(part, marked)[..|part|] == part;
    } else {
      assert Marked(part, marked) == part;
    }
  }
}
