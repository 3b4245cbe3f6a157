/**
 What a loop over lines collects when it skips the lines that its parser does not accept.
 */
module Parsing {
  import opened Numbers

  /** The results of the accepted lines, in order. */
  function Parsed<T>(parse: string -> Option<T>, lines: seq<string>): seq<T> {
    if lines == [] then [] else
    Parsed(parse, lines[..|lines| - 1]) + match parse(lines[|lines| - 1]) case Some(x) => [x] case None => []
  }

  lemma ParsedNothing<T>(parse: string -> Option<T>, lines: seq<string>)
    ensures Parsed(parse, lines[..0]) == []
  {
  }

  lemma ParsedAppend<T>(parse: string -> Option<T>, lines: seq<string>, line: string)
    ensures Parsed(parse, lines + [line]) ==
            match parse(line)
            case Some(x) => Parsed(parse, lines) + [x]
            case None => Parsed(parse, lines)
  {
    assert (lines + [line])[..|lines|] == lines;
  }

  /** One turn of a loop over the lines. */
  lemma ParsedStep<T>(parse: string -> Option<T>, lines: seq<string>, i: nat)
    requires i < |lines|
    ensures Parsed(parse, lines[..i + 1]) ==
            match parse(lines[i])
            case Some(x) => Parsed(parse, lines[..i]) + [x]
            case None => Parsed(parse, lines[..i])
  {
    assert lines[..i + 1] == lines[..i] + [lines[i]];
    ParsedAppend(parse, lines[..i], lines[i]);
  }

  /** Every result comes from a line. */
  lemma {:induction false} ParsedFrom<T>(parse: string -> Option<T>, lines: seq<string>, x: T)
    requires x in Parsed(parse, lines)
    ensures exists line | line in lines :: parse(line) == Some(x)
  {
    var front, last := lines[..|lines| - 1], lines[|lines| - 1];
    if parse(last) == Some(x) {
      assert last in lines;
    } else {
      ParsedFrom(parse, front, x);
      var line :| line in front && parse(line) == Some(x);
      assert line in lines;
    }
  }
}
