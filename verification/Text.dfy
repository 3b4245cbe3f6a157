/**
 Go's string functions, as far as the parsers use them. A string is a sequence of code points.
 */
module Text {

  // ---- Searching ----

  /** The position of the first c in s, or |s| if there is none. */
  function IndexOf(s: string, c: char): (i: nat)
    ensures i <= |s|
    ensures forall j :: 0 <= j < i ==> s[j] != c
    ensures i < |s| ==> s[i] == c
  {
    if s == "" || s[0] == c then 0 else 1 + IndexOf(s[1..], c)
  }

  /** sub stands in s at position i. */
  predicate OccursAt(s: string, i: int, sub: string) {
    0 <= i <= |s| - |sub| && s[i..i + |sub|] == sub
  }

  /** strings.Contains. */
  predicate Contains(s: string, sub: string) {
    exists i | 0 <= i <= |s| - |sub| :: OccursAt(s, i, sub)
  }

  lemma ContainsWithin(pre: string, mid: string, post: string, sub: string)
    requires Contains(mid, sub)
    ensures Contains(pre + mid + post, sub)
  {
    var i :| 0 <= i <= |mid| - |sub| && OccursAt(mid, i, sub);
    var s := pre + mid + post;
    assert s[|pre| + i..|pre| + i + |sub|] == mid[i..i + |sub|];
    assert OccursAt(s, |pre| + i, sub);
  }

  lemma ContainsPrefix(s: string, sub: string)
    requires sub <= s
    ensures Contains(s, sub)
  {
    assert OccursAt(s, 0, sub);
  }

  /** One more element of a sequence that is walked from the left. */
  lemma PrefixStep<T>(s: seq<T>, i: nat)
    requires i < |s|
    ensures s[..i + 1] == s[..i] + [s[i]]
  {
  }

  lemma ConcatAssociative<T>(a: seq<T>, b: seq<T>, c: seq<T>)
    ensures a + (b + c) == a + b + c
  {
  }

  // ---- Splitting and joining ----

  /** strings.Split on a one-character separator. */
  function Split(s: string, c: char): (parts: seq<string>)
    ensures parts != []
    decreases |s|
  {
    var i := IndexOf(s, c);
    if i == |s| then [s] else [s[..i]] + Split(s[i + 1..], c)
  }

  /** strings.SplitN: at most n parts, the last one keeping any further separators. */
  function SplitN(s: string, c: char, n: nat): (parts: seq<string>)
    requires n >= 1
    ensures 1 <= |parts| <= n
    decreases n
  {
    var i := IndexOf(s, c);
    if n == 1 || i == |s| then [s] else [s[..i]] + SplitN(s[i + 1..], c, n - 1)
  }

  /** strings.Join. */
  function Join(parts: seq<string>, sep: string): string {
    if parts == [] then "" else
    if |parts| == 1 then parts[0] else parts[0] + sep + Join(parts[1..], sep)
  }

  /** Every line followed by a newline, as the string builders of the exporter emit text. */
  function Unlines(lines: seq<string>): string {
    if lines == [] then "" else lines[0] + "\n" + Unlines(lines[1..])
  }

  predicate Lacks(parts: seq<string>, c: char) {
    forall i | 0 <= i < |parts| :: c !in parts[i]
  }

  lemma {:induction false} IndexOfFirst(a: string, c: char, b: string)
    requires c !in a
    ensures IndexOf(a + [c] + b, c) == |a|
  {
    if a == "" {
    } else {
      IndexOfFirst(a[1..], c, b);
      assert (a + [c] + b)[1..] == a[1..] + [c] + b;
    }
  }

  lemma IndexOfNone(s: string, c: char)
    requires c !in s
    ensures IndexOf(s, c) == |s|
  {
  }

  lemma SplitCons(a: string, c: char, b: string)
    requires c !in a
    ensures Split(a + [c] + b, c) == [a] + Split(b, c)
  {
    IndexOfFirst(a, c, b);
    var s := a + [c] + b;
    assert s[..|a|] == a && s[|a| + 1..] == b;
  }

  lemma SplitWhole(a: string, c: char)
    requires c !in a
    ensures Split(a, c) == [a]
  {
  }

  lemma SplitNCons(a: string, c: char, b: string, n: nat)
    requires c !in a && n >= 2
    ensures SplitN(a + [c] + b, c, n) == [a] + SplitN(b, c, n - 1)
  {
    IndexOfFirst(a, c, b);
    var s := a + [c] + b;
    assert s[..|a|] == a && s[|a| + 1..] == b;
  }

  lemma {:induction false} SplitLacks(s: string, c: char)
    ensures Lacks(Split(s, c), c)
    decreases |s|
  {
    var i := IndexOf(s, c);
    if i == |s| {
    } else {
      SplitLacks(s[i + 1..], c);
    }
  }

  /** Joining what Split cut gives the string back. */
  lemma {:induction false} JoinSplit(s: string, c: char)
    ensures Join(Split(s, c), [c]) == s
    decreases |s|
  {
    var i := IndexOf(s, c);
    if i == |s| {
    } else {
      JoinSplit(s[i + 1..], c);
      assert s == s[..i] + [c] + s[i + 1..];
      assert Split(s, c)[1..] == Split(s[i + 1..], c);
    }
  }

  lemma {:induction false} SplitJoin(parts: seq<string>, c: char)
    requires parts != [] && Lacks(parts, c)
    ensures Split(Join(parts, [c]), c) == parts
  {
    if |parts| == 1 {
      SplitWhole(parts[0], c);
    } else {
      hide Split, IndexOf;
      assert parts == [parts[0]] + parts[1..];
      SplitJoin(parts[1..], c);
      SplitCons(parts[0], c, Join(parts[1..], [c]));
    }
  }

  /** Of the parts SplitN returns, only the last can hold the separator. */
  lemma {:induction false} SplitNLacks(s: string, c: char, n: nat)
    requires n >= 1
    ensures var parts := SplitN(s, c, n); Lacks(parts[..|parts| - 1], c)
    ensures |SplitN(s, c, n)| < n ==> c !in SplitN(s, c, n)[|SplitN(s, c, n)| - 1]
    decreases n
  {
    var i := IndexOf(s, c);
    if n == 1 || i == |s| {
    } else {
      SplitNLacks(s[i + 1..], c, n - 1);
      var rest := SplitN(s[i + 1..], c, n - 1);
      assert SplitN(s, c, n)[..|rest|] == [s[..i]] + rest[..|rest| - 1];
    }
  }

  /** Joining |parts| fields of which all but the last lack the separator, then cutting again. */
  lemma {:induction false} SplitNJoin(parts: seq<string>, c: char)
    requires parts != [] && Lacks(parts[..|parts| - 1], c)
    ensures SplitN(Join(parts, [c]), c, |parts|) == parts
  {
    if |parts| == 1 {
    } else {
      hide SplitN, IndexOf;
      assert parts == [parts[0]] + parts[1..];
      assert parts[1..][..|parts| - 2] == parts[..|parts| - 1][1..];
      assert parts[..|parts| - 1][0] == parts[0];
      SplitNJoin(parts[1..], c);
      SplitNCons(parts[0], c, Join(parts[1..], [c]), |parts|);
    }
  }

  /** Text emitted line by line is read back as those lines and one empty line. */
  lemma {:induction false} SplitUnlines(lines: seq<string>)
    requires Lacks(lines, '\n')
    ensures Split(Unlines(lines), '\n') == lines + [""]
  {
    if lines == [] {
    } else {
      hide Split, IndexOf;
      assert lines == [lines[0]] + lines[1..];
      SplitUnlines(lines[1..]);
      assert Unlines(lines) == lines[0] + ['\n'] + Unlines(lines[1..]);
      SplitCons(lines[0], '\n', Unlines(lines[1..]));
    }
  }

  lemma {:induction false} UnlinesAppend(lines: seq<string>, line: string)
    ensures Unlines(lines + [line]) == Unlines(lines) + (line + "\n")
  {
    if lines == [] {
    } else {
      UnlinesAppend(lines[1..], line);
      assert (lines + [line])[1..] == lines[1..] + [line];
    }
  }

  lemma {:induction false} JoinConcat(a: seq<string>, b: seq<string>, sep: string)
    requires a != [] && b != []
    ensures Join(a + b, sep) == Join(a, sep) + sep + Join(b, sep)
  {
    assert (a + b)[1..] == a[1..] + b;
    if |a| > 1 {
      JoinConcat(a[1..], b, sep);
      var head, tail := a[0] + sep, Join(a[1..], sep);
      assert head + (tail + sep + Join(b, sep)) == head + tail + sep + Join(b, sep);
    } else {
      assert a[1..] + b == b;
    }
  }

  lemma {:induction false} JoinChars(parts: seq<string>, sep: string, c: char)
    requires c !in sep && Lacks(parts, c)
    ensures c !in Join(parts, sep)
  {
    if |parts| <= 1 {
    } else {
      JoinChars(parts[1..], sep, c);
    }
  }

  // ---- Lower case ----

  /** unicode.ToLower, as far as it can produce an ASCII letter. */
  function LowerChar(c: char): char {
    if 'A' <= c <= 'Z' then (c as int + 32) as char
    else if c == '\U{130}' then 'i'
    else if c == '\U{212A}' then 'k'
    else c
  }

  function ToLower(s: string): (t: string)
    ensures |t| == |s|
  {
    seq(|s|, i requires 0 <= i < |s| => LowerChar(s[i]))
  }

  // ---- White space ----

  /** unicode.IsSpace. */
  predicate IsSpace(c: char) {
    || c == ' '
    || '\U{9}' <= c <= '\U{D}'
    || c in "\U{85}\U{A0}\U{1680}\U{2028}\U{2029}\U{202F}\U{205F}\U{3000}"
    || '\U{2000}' <= c <= '\U{200A}'
  }

  predicate NoSpace(s: string) {
    forall i | 0 <= i < |s| :: !IsSpace(s[i])
  }

  predicate IsWord(s: string) {
    s != "" && NoSpace(s)
  }

  function TrimLeftSpace(s: string): string {
    if s != "" && IsSpace(s[0]) then TrimLeftSpace(s[1..]) else s
  }

  function TrimRightSpace(s: string): string {
    if s != "" && IsSpace(s[|s| - 1]) then TrimRightSpace(s[..|s| - 1]) else s
  }

  /** strings.TrimSpace. */
  function TrimSpace(s: string): string {
    TrimRightSpace(TrimLeftSpace(s))
  }

  /** Neither end is a space: what TrimSpace leaves alone. */
  predicate Trimmed(s: string) {
    s != "" ==> !IsSpace(s[0]) && !IsSpace(s[|s| - 1])
  }

  lemma {:induction false} TrimLeftIsSuffix(s: string)
    ensures |TrimLeftSpace(s)| <= |s| && TrimLeftSpace(s) == s[|s| - |TrimLeftSpace(s)|..]
    ensures TrimLeftSpace(s) != "" ==> !IsSpace(TrimLeftSpace(s)[0])
  {
    if s != "" && IsSpace(s[0]) {
      TrimLeftIsSuffix(s[1..]);
    }
  }

  lemma {:induction false} TrimRightIsPrefix(s: string)
    ensures TrimRightSpace(s) <= s
    ensures TrimRightSpace(s) != "" ==> !IsSpace(TrimRightSpace(s)[|TrimRightSpace(s)| - 1])
  {
    if s != "" && IsSpace(s[|s| - 1]) {
      TrimRightIsPrefix(s[..|s| - 1]);
    }
  }

  /** TrimSpace cuts a stretch out of s, and what it leaves has no space at either end. */
  lemma TrimSpaceCuts(s: string) returns (pre: string, post: string)
    ensures s == pre + TrimSpace(s) + post
    ensures Trimmed(TrimSpace(s))
  {
    hide TrimLeftSpace, TrimRightSpace, IsSpace;
    TrimLeftIsSuffix(s);
    var t := TrimLeftSpace(s);
    TrimRightIsPrefix(t);
    var u := TrimRightSpace(t);
    pre, post := s[..|s| - |t|], t[|u|..];
    assert t == u + post && s == pre + t;
    ConcatAssociative(pre, u, post);
    assert u != "" ==> u[0] == t[0];
  }

  lemma TrimSpaceKeepsTrimmed(s: string)
    requires Trimmed(s)
    ensures TrimSpace(s) == s
  {
  }

  lemma TrimSpaceLacks(s: string, c: char)
    requires c !in s
    ensures c !in TrimSpace(s)
  {
    var pre, post := TrimSpaceCuts(s);
    assert forall x :: x in TrimSpace(s) ==> x in pre + TrimSpace(s) + post;
  }

  /** strings.TrimRight. */
  function TrimRight(s: string, cutset: string): string {
    if s != "" && s[|s| - 1] in cutset then TrimRight(s[..|s| - 1], cutset) else s
  }

  // ---- Fields ----

  function WordLength(s: string): (n: nat)
    ensures n <= |s|
    ensures NoSpace(s[..n])
    ensures n < |s| ==> IsSpace(s[n])
    ensures s != "" && !IsSpace(s[0]) ==> n > 0
  {
    if s == "" || IsSpace(s[0]) then 0 else
    var n := 1 + WordLength(s[1..]);
    assert s[..n] == [s[0]] + s[1..][..n - 1];
    n
  }

  /** strings.Fields: the maximal runs of characters that are not white space. */
  function Fields(s: string): seq<string>
    decreases |s|
  {
    TrimLeftIsSuffix(s);
    var t := TrimLeftSpace(s);
    if t == "" then [] else [t[..WordLength(t)]] + Fields(t[WordLength(t)..])
  }

  lemma {:induction false} FieldsAreWords(s: string)
    ensures forall i | 0 <= i < |Fields(s)| :: IsWord(Fields(s)[i])
    decreases |s|
  {
    TrimLeftIsSuffix(s);
    var t := TrimLeftSpace(s);
    if t == "" {
    } else {
      FieldsAreWords(t[WordLength(t)..]);
    }
  }

  /** One step of Fields: the blanks it skips, the word it takes and the text it goes on with. */
  lemma FieldsStep(s: string) returns (lead: string, word: string, rest: string)
    requires Fields(s) != []
    ensures s == lead + word + rest && |rest| < |s|
    ensures Fields(s) == [word] + Fields(rest)
  {
    TrimLeftIsSuffix(s);
    var t := TrimLeftSpace(s);
    lead, word, rest := s[..|s| - |t|], t[..WordLength(t)], t[WordLength(t)..];
  }

  lemma ConcatAssociates(a: string, b: string, c: string, d: string)
    ensures a + (b + c + d) == a + b + c + d
  {
  }

  /** A field is a stretch of the line it comes from, so it holds nothing the line does not. */
  lemma {:induction false} FieldWithin(s: string, fields: seq<string>, i: nat) returns (pre: string, post: string)
    requires fields == Fields(s) && i < |fields|
    ensures s == pre + fields[i] + post
    decreases |s|
  {
    var lead, word, rest := FieldsStep(s);
    if i == 0 {
      pre, post := lead, rest;
    } else {
      var pre', post' := FieldWithin(rest, fields[1..], i - 1);
      pre, post := lead + word + pre', post';
      ConcatAssociates(lead + word, pre', fields[i], post');
    }
  }

  lemma {:induction false} WordLengthOf(w: string, rest: string)
    requires NoSpace(w) && (rest == "" || IsSpace(rest[0]))
    ensures WordLength(w + rest) == |w|
  {
    if w == "" {
      assert w + rest == rest;
    } else {
      WordLengthOf(w[1..], rest);
      assert (w + rest)[1..] == w[1..] + rest;
    }
  }

  /** Words joined by single spaces are read back as those words. */
  lemma {:induction false} FieldsOfJoin(words: seq<string>)
    requires forall i | 0 <= i < |words| :: IsWord(words[i])
    ensures Fields(Join(words, " ")) == words
  {
    if words == [] {
    } else {
      var rest := if |words| == 1 then "" else " " + Join(words[1..], " ");
      var s := Join(words, " ");
      assert s == words[0] + rest;
      WordLengthOf(words[0], rest);
      assert TrimLeftSpace(s) == s;
      assert s[..|words[0]|] == words[0] && s[|words[0]|..] == rest;
      FieldsOfJoin(words[1..]);
      if |words| > 1 {
        var tail := Join(words[1..], " ");
        assert rest[1..] == tail;
        assert Fields(rest) == Fields(tail);
      }
    }
  }

  // ---- Words in upper case ----

  /** A capital and its small letter are both read as the small one. */
  lemma LowerLetters(i: nat)
    requires i < 26
    ensures LowerChar(('A' as int + i) as char) == ('a' as int + i) as char == LowerChar(('a' as int + i) as char)
  {
  }

  lemma LowerWords()
    ensures ToLower("PENDING") == "pending" && ToLower("RUNNING") == "running" && ToLower("SUSPENDED") == "suspended"
  {
    assert forall i | 0 <= i < 7 :: ToLower("PENDING")[i] == "pending"[i];
    assert forall i | 0 <= i < 7 :: ToLower("RUNNING")[i] == "running"[i];
    assert forall i | 0 <= i < 9 :: ToLower("SUSPENDED")[i] == "suspended"[i];
  }
}
