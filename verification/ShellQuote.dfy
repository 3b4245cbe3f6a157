/**
 The quoting of tools/fixture-capture/main.go: arguments wrapped for POSIX sh, joined, and emitted as one
 run_step line; and what a shell reads back from that line.
 */
module ShellQuote {
  import opened Text
  import opened Numbers
  import opened Permutations
  import opened Sums

  // ---- Quoting ----

  /** strings.ReplaceAll(s, "'", `'\''`): each quote closes the word part, is escaped, and opens the next. */
  function Escaped(s: string): string {
    if s == "" then "" else (if s[0] == '\'' then "'\\''" else [s[0]]) + Escaped(s[1..])
  }

  /** shQuote. */
  function Quote(s: string): string {
    "'" + Escaped(s) + "'"
  }

  // ---- The shell's side ----

  /** A word as the shell reads it: its text, or an expression in double quotes that it has yet to expand. */
  datatype Word = Literal(text: string) | Expansion(expr: string)

  /**
   Where the token recognition of POSIX.1-2017, Shell Command Language, section 2.3 stands: between words,
   inside an unquoted part of a word, or inside single quotes (section 2.2.2).
   */
  datatype Mode = Between | InWord | InQuotes

  /**
   The same inside double quotes (section 2.2.3): in the quoted text, after a dollar sign, or inside a
   command substitution that is so many parentheses deep, and there perhaps inside quotes again.
   */
  datatype Nest = Outer | Dollar | Inside(depth: nat) | InsideDouble(depth: nat) | InsideSingle(depth: nat)

  predicate IsBlank(c: char) {
    c == ' ' || c == '\t'
  }

  /**
   Unquoted, these are operators, expansions, comments, patterns or the end of the command; a line that
   needs any of them is not read as a list of words here.
   */
  predicate IsSpecial(c: char) {
    c in "|&;<>()$`\"\n*?[#~=%"
  }

  /** One more character inside double quotes; None for what is not read here. */
  function Next(nest: Nest, c: char): Option<Nest> {
    match nest
    case Outer => if c == '$' then Some(Dollar) else if c in "`\\" then None else Some(Outer)
    case Dollar => if c == '(' then Some(Inside(1)) else None
    case Inside(d) =>
      if c == '"' then Some(InsideDouble(d))
      else if c == '\'' then Some(InsideSingle(d))
      else if c == '(' then Some(Inside(d + 1))
      else if c == ')' then Some(if d <= 1 then Outer else Inside(d - 1))
      else if c in "`\\#" then None
      else Some(nest)
    case InsideDouble(d) => if c == '"' then Some(Inside(d)) else if c in "$`\\" then None else Some(nest)
    case InsideSingle(d) => if c == '\'' then Some(Inside(d)) else Some(nest)
  }

  /** How far the quoted text goes: to the first double quote that closes it. */
  function Scan(s: string, nest: Nest): (n: Option<nat>)
    ensures n.Some? ==> n.value < |s| && s[n.value] == '"'
  {
    if s == "" then None
    else if nest == Outer && s[0] == '"' then Some(0)
    else
      match Next(nest, s[0])
      case None => None
      case Some(deeper) =>
        match Scan(s[1..], deeper)
        case None => None
        case Some(n) => Some(n + 1)
  }

  function Prepend(word: Word, words: Option<seq<Word>>): Option<seq<Word>> {
    match words
    case None => None
    case Some(ws) => Some([word] + ws)
  }

  /** The words of s, read from the given mode with this much of the current word; None for anything else. */
  function Lex(s: string, mode: Mode, word: string): Option<seq<Word>>
    decreases |s|
  {
    match mode
    case InQuotes =>
      if s == "" then None
      else if s[0] == '\'' then Lex(s[1..], InWord, word)
      else Lex(s[1..], InQuotes, word + [s[0]])
    case _ =>
      if s == "" then Some(if mode == InWord then [Literal(word)] else [])
      else if IsBlank(s[0]) then
        var words := Lex(s[1..], Between, "");
        if mode == InWord then Prepend(Literal(word), words) else words
      else if s[0] == '\'' then Lex(s[1..], InQuotes, if mode == InWord then word else "")
      else if s[0] == '"' && mode == Between then LexExpansion(s)
      else if s[0] == '\\' then
        if |s| == 1 then None
        else if s[1] == '\n' then Lex(s[2..], mode, word)
        else Lex(s[2..], InWord, (if mode == InWord then word else "") + [s[1]])
      else if IsSpecial(s[0]) then None
      else Lex(s[1..], InWord, (if mode == InWord then word else "") + [s[0]])
  }

  /** A word that is one text in double quotes, and the words after it. */
  function LexExpansion(s: string): Option<seq<Word>>
    requires s != "" && s[0] == '"'
    decreases |s|, 0
  {
    match Scan(s[1..], Outer)
    case None => None
    case Some(n) =>
      var rest := s[n + 2..];
      if rest == "" then Some([Expansion(s[1..n + 1])])
      else if IsBlank(rest[0]) then Prepend(Expansion(s[1..n + 1]), Lex(rest[1..], Between, ""))
      else None
  }

  function Words(s: string): Option<seq<Word>> {
    Lex(s, Between, "")
  }

  // ---- Reading quoted words ----

  /** The four characters that stand for a quote. */
  lemma LexEscapedQuote(tail: string, word: string)
    ensures Lex("'\\''" + tail, InQuotes, word) == Lex(tail, InQuotes, word + "'")
  {
    var s := "'\\''" + tail;
    assert s[1..] == "\\''" + tail;
    assert s[1..][2..] == "'" + tail;
    assert s[1..][2..][1..] == tail;
    assert Lex(s, InQuotes, word) == Lex(s[1..], InWord, word);
    assert Lex(s[1..], InWord, word) == Lex(s[1..][2..], InWord, word + ['\'']);
  }

  /** Inside quotes, an escaped text and the closing quote add exactly that text to the word. */
  lemma {:induction false} LexEscaped(s: string, rest: string, word: string)
    ensures Lex(Escaped(s) + "'" + rest, InQuotes, word) == Lex(rest, InWord, word + s)
  {
    if s == "" {
      assert Escaped(s) + "'" + rest == "'" + rest;
      assert word + s == word;
    } else {
      var tail := Escaped(s[1..]) + "'" + rest;
      LexEscaped(s[1..], rest, word + [s[0]]);
      assert word + [s[0]] + s[1..] == word + s;
      if s[0] == '\'' {
        LexEscapedQuote(tail, word);
        assert Escaped(s) + "'" + rest == "'\\''" + tail;
      } else {
        assert Escaped(s) + "'" + rest == [s[0]] + tail;
      }
    }
  }

  lemma LexQuote(s: string, rest: string)
    ensures Lex(Quote(s) + rest, Between, "") == Lex(rest, InWord, s)
  {
    assert Quote(s) + rest == "'" + (Escaped(s) + "'" + rest);
    LexEscaped(s, rest, "");
    assert "" + s == s;
  }

  // ---- Reading shell expressions ----

  /** Read from this nesting, the text ends where the quoted text may be closed, and does not close it before. */
  predicate EndsOuter(s: string, nest: Nest) {
    if s == "" then nest == Outer
    else !(nest == Outer && s[0] == '"') && Next(nest, s[0]).Some? && EndsOuter(s[1..], Next(nest, s[0]).value)
  }

  /** A shell expression that double quotes keep together. */
  predicate Closed(expr: string) {
    EndsOuter(expr, Outer)
  }

  lemma {:induction false} ScanClosed(expr: string, rest: string, nest: Nest)
    requires EndsOuter(expr, nest)
    ensures Scan(expr + "\"" + rest, nest) == Some(|expr|)
  {
    var s := expr + "\"" + rest;
    if expr == "" {
      assert s == "\"" + rest;
    } else {
      hide Next;
      assert s[0] == expr[0] && s[1..] == expr[1..] + "\"" + rest;
      ScanClosed(expr[1..], rest, Next(nest, expr[0]).value);
    }
  }

  lemma ScanOfClosed(expr: string, rest: string)
    requires Closed(expr)
    ensures Scan(expr + "\"" + rest, Outer) == Some(|expr|)
  {
    ScanClosed(expr, rest, Outer);
  }

  /** The quoted expression is one word, and reading goes on behind the blank that follows it. */
  lemma LexShellExpression(expr: string, rest: string)
    requires Closed(expr) && (rest == "" || rest[0] == ' ')
    ensures Words("\"" + expr + "\"" + rest) ==
            if rest == "" then Some([Expansion(expr)]) else Prepend(Expansion(expr), Words(rest[1..]))
  {
    hide Closed, Scan;
    var s := "\"" + expr + "\"" + rest;
    assert s[0] == '"' && s[1..] == expr + "\"" + rest;
    ScanOfClosed(expr, rest);
    assert s[1..|expr| + 1] == expr && s[|expr| + 2..] == rest;
    assert Words(s) == LexExpansion(s);
  }

  /** Text that stands for itself inside a command substitution. */
  predicate PlainInside(s: string) {
    forall i | 0 <= i < |s| :: s[i] !in "\"'()`\\#"
  }

  predicate PlainInDoubleQuotes(s: string) {
    forall i | 0 <= i < |s| :: s[i] !in "\"$`\\"
  }

  lemma {:induction false} EndsPlain(s: string, rest: string, nest: Nest)
    requires (nest.Inside? && PlainInside(s)) || (nest.InsideDouble? && PlainInDoubleQuotes(s))
    ensures EndsOuter(s + rest, nest) <==> EndsOuter(rest, nest)
  {
    if s == "" {
      assert s + rest == rest;
    } else {
      assert (s + rest)[1..] == s[1..] + rest;
      EndsPlain(s[1..], rest, nest);
    }
  }

  /** A command substitution whose command has a part in double quotes. */
  function Substitution(front: string, quoted: string, back: string): string {
    "$(" + (front + ("\"" + (quoted + ("\"" + (back + ")")))))
  }

  lemma EndsParenthesis()
    ensures EndsOuter(")", Inside(1))
  {
    assert ")"[1..] == "";
  }

  lemma SubstitutionOpens(rest: string)
    ensures Closed("$(" + rest) <==> EndsOuter(rest, Inside(1))
  {
    var s := "$(" + rest;
    assert s[1..] == "(" + rest && s[1..][1..] == rest;
    assert EndsOuter(s, Outer) <==> EndsOuter(s[1..], Dollar);
  }

  lemma SubstitutionIsClosed(front: string, quoted: string, back: string)
    requires PlainInside(front) && PlainInDoubleQuotes(quoted) && PlainInside(back)
    ensures Closed(Substitution(front, quoted, back))
  {
    var tail := "\"" + (back + ")");
    var middle := "\"" + (quoted + tail);
    SubstitutionOpens(front + middle);
    EndsPlain(front, middle, Inside(1));
    assert middle[1..] == quoted + tail;
    EndsPlain(quoted, tail, InsideDouble(1));
    assert tail[1..] == back + ")";
    EndsPlain(back, ")", Inside(1));
    EndsParenthesis();
  }

  /** Double quotes keep together the expressions of the two placeholders that the registry has. */
  lemma RegistryExpressionsAreClosed()
    ensures Closed(Substitution("date -d ", "-1 hour", " +%Y-%m-%dT%H:%M:%S"))
    ensures Closed("$(" + ("date +%Y-%m-%dT%H:%M:%S" + ")"))
  {
    hide Closed, Substitution, EndsOuter;
    SubstitutionIsClosed("date -d ", "-1 hour", " +%Y-%m-%dT%H:%M:%S");
    SubstitutionOpens("date +%Y-%m-%dT%H:%M:%S" + ")");
    EndsPlain("date +%Y-%m-%dT%H:%M:%S", ")", Inside(1));
    EndsParenthesis();
  }

  // ---- Steps and lines ----

  /** An argument as the script shows it: a placeholder becomes its shell expression, the rest is quoted. */
  function Shown(arg: string, shell: map<string, string>): string {
    if arg in shell then "\"" + shell[arg] + "\"" else Quote(arg)
  }

  function ShownAll(args: seq<string>, shell: map<string, string>): (shown: seq<string>)
    ensures |shown| == |args|
    ensures forall i | 0 <= i < |args| :: shown[i] == Shown(args[i], shell)
  {
    seq(|args|, i requires 0 <= i < |args| => Shown(args[i], shell))
  }

  /** What an argument stands for. */
  function Meant(arg: string, shell: map<string, string>): Word {
    if arg in shell then Expansion(shell[arg]) else Literal(arg)
  }

  function MeantAll(args: seq<string>, shell: map<string, string>): (words: seq<Word>)
    ensures |words| == |args|
    ensures forall i | 0 <= i < |args| :: words[i] == Meant(args[i], shell)
  {
    seq(|args|, i requires 0 <= i < |args| => Meant(args[i], shell))
  }

  lemma ShownReadsBack(arg: string, rest: string, shell: map<string, string>)
    requires (forall p | p in shell :: Closed(shell[p])) && (rest == "" || rest[0] == ' ')
    ensures Words(Shown(arg, shell) + rest) ==
            if rest == "" then Some([Meant(arg, shell)]) else Prepend(Meant(arg, shell), Words(rest[1..]))
  {
    hide Closed, LexExpansion, Escaped;
    if arg in shell {
      LexShellExpression(shell[arg], rest);
    } else {
      LexQuote(arg, rest);
    }
  }

  /** The shown arguments behind the first one. */
  function Following(args: seq<string>, shell: map<string, string>): string
    requires args != []
  {
    if |args| == 1 then "" else " " + Join(ShownAll(args[1..], shell), " ")
  }

  lemma FirstOfMany(args: seq<string>, shell: map<string, string>)
    requires args != []
    ensures Join(ShownAll(args, shell), " ") == Shown(args[0], shell) + Following(args, shell)
    ensures |args| > 1 ==> Following(args, shell)[1..] == Join(ShownAll(args[1..], shell), " ")
    ensures MeantAll(args, shell) == [Meant(args[0], shell)] + MeantAll(args[1..], shell)
    ensures |args| == 1 ==> MeantAll(args, shell) == [Meant(args[0], shell)]
  {
    hide Shown, Meant;
    assert ShownAll(args, shell)[1..] == ShownAll(args[1..], shell);
    assert Shown(args[0], shell) + "" == Shown(args[0], shell);
    var rest := Join(ShownAll(args[1..], shell), " ");
    assert Shown(args[0], shell) + (" " + rest) == Shown(args[0], shell) + " " + rest;
  }

  /**
   Quoting round trip: the shell reads the space-joined shown arguments back as exactly that list, the
   placeholders as their expressions and everything else as it was, whatever it holds: nothing, quotes,
   blanks, newlines.
   */
  lemma {:induction false} QuotingRoundTrip(args: seq<string>, shell: map<string, string>)
    requires forall p | p in shell :: Closed(shell[p])
    ensures Words(Join(ShownAll(args, shell), " ")) == Some(MeantAll(args, shell))
  {
    if args == [] {
    } else {
      hide Closed, Shown, Meant, Words, Join;
      QuotingRoundTrip(args[1..], shell);
      ShownReadsBack(args[0], Following(args, shell), shell);
      FirstOfMany(args, shell);
    }
  }

  /** captureStep. */
  datatype CaptureStep = CaptureStep(name: string, binary: string, args: string, expensive: bool)

  /** The body of steps() for one command. */
  method Step(name: string, binary: string, args: seq<string>, shell: map<string, string>) returns (step: CaptureStep)
    ensures step == CaptureStep(name, binary, Join(ShownAll(args, shell), " "), binary == "sacct")
  {
    var parts: seq<string> := [];
    for i := 0 to |args|
      invariant parts == ShownAll(args, shell)[..i]
    {
      if args[i] in shell {
        parts := parts + ["\"" + shell[args[i]] + "\""];
        continue;
      }
      parts := parts + [Quote(args[i])];
    }
    assert ShownAll(args, shell)[..|args|] == ShownAll(args, shell);
    step := CaptureStep(name, binary, Join(parts, " "), binary == "sacct");
  }

  function Blanks(n: nat): string {
    seq(n, i => ' ')
  }

  /** %-22s: padded on the right to at least 22 columns. */
  function Padded(s: string): string {
    s + Blanks(if |s| < 22 then 22 - |s| else 0)
  }

  function Head(indent: nat, s: CaptureStep): string {
    Blanks(indent) + "run_step " + Padded(s.name) + " " + s.binary
  }

  /** One emitted line, its trailing spaces trimmed. */
  function LineOf(indent: nat, s: CaptureStep): string {
    TrimRight(Head(indent, s) + " " + s.args, " ")
  }

  function LinesOf(indent: nat, steps: seq<CaptureStep>): seq<string> {
    Map(steps, (s: CaptureStep) => LineOf(indent, s))
  }

  lemma NoLines(indent: nat)
    ensures Unlines(LinesOf(indent, [])) == ""
  {
  }

  function Chosen(all: seq<CaptureStep>, expensive: bool): seq<CaptureStep> {
    Filter(all, (s: CaptureStep) => s.expensive == expensive)
  }

  lemma ChosenAppend(all: seq<CaptureStep>, s: CaptureStep, expensive: bool)
    ensures Chosen(all + [s], expensive) == Chosen(all, expensive) + if s.expensive == expensive then [s] else []
  {
    FilterAppend(all, s, (t: CaptureStep) => t.expensive == expensive);
  }

  /** Every step is emitted by exactly one of the two loops, the expensive ones behind the if. */
  lemma {:induction false} EveryStepOnce(all: seq<CaptureStep>)
    ensures multiset(all) == multiset(Chosen(all, false)) + multiset(Chosen(all, true))
    ensures forall s | s in Chosen(all, true) :: s.expensive
    ensures forall s | s in Chosen(all, false) :: !s.expensive
  {
    if all == [] {
    } else {
      hide Chosen;
      var front, last := all[..|all| - 1], all[|all| - 1];
      assert all == front + [last];
      EveryStepOnce(front);
      ChosenAppend(front, last, false);
      ChosenAppend(front, last, true);
    }
  }

  /** The two emission loops of render(): the steps that always run, or the expensive ones behind an if. */
  method EmitSteps(all: seq<CaptureStep>, expensive: bool) returns (text: string)
    ensures text == Unlines(LinesOf(if expensive then 4 else 0, Chosen(all, expensive)))
  {
    hide LineOf, Unlines;
    var some: seq<CaptureStep> := [];
    for i := 0 to |all|
      invariant some == Chosen(all[..i], expensive)
    {
      PrefixStep(all, i);
      FilterAppend(all[..i], all[i], (s: CaptureStep) => s.expensive == expensive);
      if all[i].expensive == expensive {
        some := some + [all[i]];
      }
    }
    assert all[..|all|] == all;
    var indent := if expensive then 4 else 0;
    text := "";
    NoLines(indent);
    for i := 0 to |some|
      invariant text == Unlines(LinesOf(indent, some[..i]))
    {
      PrefixStep(some, i);
      MapAppend(some[..i], some[i], (s: CaptureStep) => LineOf(indent, s));
      UnlinesAppend(LinesOf(indent, some[..i]), LineOf(indent, some[i]));
      text := text + (LineOf(indent, some[i]) + "\n");
    }
    assert some[..|some|] == some;
  }

  // ---- The trim is harmless ----

  lemma {:induction false} JoinEndsWithLast(parts: seq<string>, sep: string)
    requires parts != [] && parts[|parts| - 1] != ""
    ensures Join(parts, sep) != ""
    ensures Join(parts, sep)[|Join(parts, sep)| - 1] == parts[|parts| - 1][|parts[|parts| - 1]| - 1]
  {
    if |parts| == 1 {
    } else {
      JoinEndsWithLast(parts[1..], sep);
      var head, tail := parts[0] + sep, Join(parts[1..], sep);
      assert Join(parts, sep) == head + tail;
      assert (head + tail)[|head + tail| - 1] == tail[|tail| - 1];
    }
  }

  /** The trailing-space trim never removes a character of a non-empty argument list. */
  lemma TrimKeepsArguments(indent: nat, s: CaptureStep, args: seq<string>, shell: map<string, string>)
    requires args != [] && s.args == Join(ShownAll(args, shell), " ")
    ensures LineOf(indent, s) == Head(indent, s) + " " + s.args
  {
    var shown := ShownAll(args, shell);
    var last := shown[|shown| - 1];
    assert last[|last| - 1] != ' ';
    JoinEndsWithLast(shown, " ");
    var line := Head(indent, s) + " " + s.args;
    assert line[|line| - 1] == s.args[|s.args| - 1];
  }

  /** Without arguments it removes exactly the separating space. */
  lemma TrimWithoutArguments(indent: nat, s: CaptureStep)
    requires s.args == "" && s.binary != "" && s.binary[|s.binary| - 1] != ' '
    ensures LineOf(indent, s) == Head(indent, s)
  {
    var head := Head(indent, s);
    var line := head + " " + s.args;
    assert line == head + " ";
    assert line[..|line| - 1] == head;
    assert head[|head| - 1] == s.binary[|s.binary| - 1];
    assert TrimRight(head, " ") == head;
  }

  // ---- The whole line ----

  /** Characters that stand for themselves outside quotes. */
  predicate PlainWord(s: string) {
    s != "" && forall i | 0 <= i < |s| :: !IsBlank(s[i]) && !IsSpecial(s[i]) && s[i] != '\'' && s[i] != '\\'
  }

  lemma {:induction false} LexPlain(w: string, rest: string, word: string)
    requires w == "" || PlainWord(w)
    ensures Lex(w + rest, InWord, word) == Lex(rest, InWord, word + w)
  {
    if w == "" {
      assert w + rest == rest && word + w == word;
    } else {
      assert (w + rest)[1..] == w[1..] + rest;
      LexPlain(w[1..], rest, word + [w[0]]);
      assert word + [w[0]] + w[1..] == word + w;
    }
  }

  lemma LexPlainWord(w: string, rest: string)
    requires PlainWord(w)
    ensures Lex(w + rest, Between, "") == Lex(rest, InWord, w)
  {
    var s := w + rest;
    assert s[0] == w[0] && s[1..] == w[1..] + rest;
    assert "" + [s[0]] == [w[0]];
    LexPlain(w[1..], rest, [w[0]]);
    assert [w[0]] + w[1..] == w;
  }

  lemma {:induction false} LexBlanks(n: nat, rest: string)
    ensures Words(Blanks(n) + rest) == Words(rest)
  {
    if n == 0 {
      assert Blanks(n) + rest == rest;
    } else {
      assert (Blanks(n) + rest)[1..] == Blanks(n - 1) + rest;
      LexBlanks(n - 1, rest);
    }
  }

  lemma LexWordBlanks(w: string, n: nat, rest: string)
    requires PlainWord(w) && n > 0
    ensures Words(w + Blanks(n) + rest) == Prepend(Literal(w), Words(rest))
  {
    assert w + Blanks(n) + rest == w + (Blanks(n) + rest);
    LexPlainWord(w, Blanks(n) + rest);
    assert (Blanks(n) + rest)[1..] == Blanks(n - 1) + rest;
    LexBlanks(n - 1, rest);
  }

  lemma BinaryReadsBack(s: CaptureStep, args: seq<string>, shell: map<string, string>, rest: string)
    requires PlainWord(s.binary) && s.args == Join(ShownAll(args, shell), " ")
    requires forall p | p in shell :: Closed(shell[p])
    requires rest == if args == [] then "" else " " + s.args
    ensures Words(s.binary + rest) == Some([Literal(s.binary)] + MeantAll(args, shell))
  {
    hide Closed;
    if args == [] {
      LexPlainWord(s.binary, "");
      assert [Literal(s.binary)] + MeantAll(args, shell) == [Literal(s.binary)];
    } else {
      QuotingRoundTrip(args, shell);
      LexWordBlanks(s.binary, 1, s.args);
      assert Blanks(1) == " ";
      assert s.binary + Blanks(1) + s.args == s.binary + rest;
    }
  }

  lemma RunStepIsPlain()
    ensures PlainWord("run_step")
  {
  }

  lemma HeadReadsBack(indent: nat, s: CaptureStep, pad: nat, rest: string)
    requires PlainWord(s.name) && Padded(s.name) == s.name + Blanks(pad)
    ensures Words(Head(indent, s) + rest) ==
              Prepend(Literal("run_step"), Prepend(Literal(s.name), Words(s.binary + rest)))
  {
    hide Words, Prepend, PlainWord;
    var tail := s.binary + rest;
    RunStepIsPlain();
    assert Head(indent, s) + rest == Blanks(indent) + ("run_step" + Blanks(1) + (s.name + Blanks(pad + 1) + tail)) by {
      assert Blanks(1) == " ";
      assert Blanks(pad + 1) == Blanks(pad) + " ";
    }
    LexBlanks(indent, "run_step" + Blanks(1) + (s.name + Blanks(pad + 1) + tail));
    LexWordBlanks("run_step", 1, s.name + Blanks(pad + 1) + tail);
    LexWordBlanks(s.name, pad + 1, tail);
  }

  /** The shell reads an emitted line, indented or not, as the call it stands for. */
  lemma LineReadsBack(indent: nat, s: CaptureStep, args: seq<string>, shell: map<string, string>)
    requires PlainWord(s.name) && PlainWord(s.binary)
    requires (forall p | p in shell :: Closed(shell[p])) && s.args == Join(ShownAll(args, shell), " ")
    ensures Words(LineOf(indent, s)) ==
            Some([Literal("run_step"), Literal(s.name), Literal(s.binary)] + MeantAll(args, shell))
  {
    assert args == [] ==> s.args == "";
    hide Lex, TrimRight, Join, Escaped, Closed;
    var pad := if |s.name| < 22 then 22 - |s.name| else 0;
    var rest := if args == [] then "" else " " + s.args;
    assert LineOf(indent, s) == Head(indent, s) + rest by {
      if args == [] {
        TrimWithoutArguments(indent, s);
      } else {
        TrimKeepsArguments(indent, s, args, shell);
        assert Head(indent, s) + " " + s.args == Head(indent, s) + (" " + s.args);
      }
    }
    BinaryReadsBack(s, args, shell, rest);
    HeadReadsBack(indent, s, pad, rest);
    assert [Literal("run_step")] + ([Literal(s.name)] + ([Literal(s.binary)] + MeantAll(args, shell)))
        == [Literal("run_step"), Literal(s.name), Literal(s.binary)] + MeantAll(args, shell);
  }
}
