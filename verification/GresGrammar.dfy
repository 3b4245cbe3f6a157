/**
 gresTokenRe of internal/collector/gpus.go: one anchored expression for one GRES token, as the language
 it stands for and as a recogniser that never backtracks.
 */
module GresGrammar {
  import opened Text
  import opened Numbers

  predicate IsWordChar(c: char) {
    IsDigit(c) || 'A' <= c <= 'Z' || 'a' <= c <= 'z' || c == '_'
  }

  predicate AllWordChars(s: string) {
    forall i | 0 <= i < |s| :: IsWordChar(s[i])
  }

  /** The submatches of the token expression: type, model ("" when absent) and count. */
  datatype Token = Token(word: string, model: string, count: string)

  /** The length of the longest prefix of s without ':' and '('. */
  function ModelLength(s: string): (n: nat)
    ensures n <= |s|
    ensures ':' !in s[..n] && '(' !in s[..n]
    ensures n < |s| ==> s[n] == ':' || s[n] == '('
  {
    if s == "" || s[0] == ':' || s[0] == '(' then 0 else
    var n := 1 + ModelLength(s[1..]);
    assert s[..n] == [s[0]] + s[1..][..n - 1];
    n
  }

  function DigitsLength(s: string): (n: nat)
    ensures n <= |s|
    ensures AllDigits(s[..n])
    ensures n < |s| ==> !IsDigit(s[n])
  {
    if s == "" || !IsDigit(s[0]) then 0 else
    var n := 1 + DigitsLength(s[1..]);
    assert s[..n] == [s[0]] + s[1..][..n - 1];
    n
  }

  /** An absent suffix, or one parenthesised text. */
  predicate IsSuffix(s: string) {
    s == "" || (|s| >= 2 && s[0] == '(' && s[|s| - 1] == ')' && ')' !in s[..|s| - 1])
  }

  /** Digits, then an optional suffix, then the end. */
  function MatchCount(s: string): Option<string> {
    var n := DigitsLength(s);
    if n > 0 && IsSuffix(s[n..]) then Some(s[..n]) else None
  }

  /** The text after the optional model, and the model. */
  function CutModel(s: string): (string, string) {
    if "(null):" <= s then ("(null)", s[7..])
    else
      var n := ModelLength(s);
      if n < |s| && s[n] == ':' then (s[..n], s[n + 1..]) else ("", s)
  }

  /** gresTokenRe, as a recogniser that never backtracks. */
  function MatchToken(s: string): Option<Token> {
    var i := IndexOf(s, ':');
    if i == 0 || i == |s| || !AllWordChars(s[..i]) then None
    else
      var (model, tail) := CutModel(s[i + 1..]);
      match MatchCount(tail)
      case Some(count) => Some(Token(s[..i], model, count))
      case None => None
  }

  /** The expression itself: how s may be cut into its groups. */
  ghost predicate Derives(s: string, word: string, model: Option<string>, count: string, suffix: string) {
    && s == word + ":" + (if model.Some? then model.value + ":" else "") + count + suffix
    && word != "" && AllWordChars(word)
    && (model.Some? ==> model.value == "(null)" || (':' !in model.value && '(' !in model.value))
    && count != "" && AllDigits(count)
    && IsSuffix(suffix)
  }

  lemma {:induction false} ModelLengthOf(a: string, b: string)
    requires ':' !in a && '(' !in a && (b == "" || b[0] == ':' || b[0] == '(')
    ensures ModelLength(a + b) == |a|
  {
    if a == "" {
      assert a + b == b;
    } else {
      ModelLengthOf(a[1..], b);
      assert (a + b)[1..] == a[1..] + b;
    }
  }

  lemma {:induction false} DigitsLengthOf(a: string, b: string)
    requires AllDigits(a) && (b == "" || !IsDigit(b[0]))
    ensures DigitsLength(a + b) == |a|
  {
    if a == "" {
      assert a + b == b;
    } else {
      DigitsLengthOf(a[1..], b);
      assert (a + b)[1..] == a[1..] + b;
    }
  }

  lemma MatchCountOf(count: string, suffix: string)
    requires count != "" && AllDigits(count) && IsSuffix(suffix)
    ensures MatchCount(count + suffix) == Some(count)
  {
    DigitsLengthOf(count, suffix);
    assert (count + suffix)[|count|..] == suffix && (count + suffix)[..|count|] == count;
  }

  lemma CutModelAbsent(tail: string)
    requires tail != "" && IsDigit(tail[0])
    requires exists n | 0 < n <= |tail| :: AllDigits(tail[..n]) && (n == |tail| || tail[n] == '(')
    ensures CutModel(tail) == ("", tail)
  {
  }

  lemma CutModelPresent(model: string, tail: string)
    requires model == "(null)" || (':' !in model && '(' !in model)
    ensures CutModel(model + ":" + tail) == (model, tail)
  {
    var s := model + ":" + tail;
    if model == "(null)" {
      assert s[..7] == "(null):" && s[7..] == tail;
    } else {
      assert s == model + (":" + tail);
      ModelLengthOf(model, ":" + tail);
      assert s[..|model|] == model && s[|model| + 1..] == tail;
      assert s[0] != '(';
    }
  }

  /** The recogniser finds every way the expression derives s, so there is at most one. */
  lemma MatchTokenComplete(s: string, word: string, model: Option<string>, count: string, suffix: string)
    requires Derives(s, word, model, count, suffix)
    ensures MatchToken(s) == Some(Token(word, model.GetOr(""), count))
  {
    var tail := count + suffix;
    var rest := if model.Some? then model.value + ":" + tail else tail;
    assert s == word + [':'] + rest;
    IndexOfFirst(word, ':', rest);
    assert s[..|word|] == word && s[|word| + 1..] == rest;
    if model.Some? {
      CutModelPresent(model.value, tail);
    } else {
      assert tail[..|count|] == count && (|count| == |tail| || tail[|count|] == suffix[0]);
      CutModelAbsent(tail);
    }
    MatchCountOf(count, suffix);
  }

  lemma DerivesFrom(s: string, word: string, model: Option<string>, count: string, suffix: string)
    requires s == word + ":" + ((if model.Some? then model.value + ":" else "") + (count + suffix))
    requires word != "" && AllWordChars(word)
    requires model.Some? ==> model.value == "(null)" || (':' !in model.value && '(' !in model.value)
    requires count != "" && AllDigits(count) && IsSuffix(suffix)
    ensures Derives(s, word, model, count, suffix)
  {
  }

  lemma CutModelInverse(rest: string) returns (model: Option<string>, tail: string)
    ensures CutModel(rest) == (model.GetOr(""), tail)
    ensures rest == (if model.Some? then model.value + ":" else "") + tail
    ensures model.Some? ==> model.value == "(null)" || (':' !in model.value && '(' !in model.value)
  {
    var n := ModelLength(rest);
    if "(null):" <= rest {
      model, tail := Some("(null)"), rest[7..];
      assert rest == "(null)" + ":" + tail;
    } else if n < |rest| && rest[n] == ':' {
      model, tail := Some(rest[..n]), rest[n + 1..];
      assert rest == rest[..n] + ":" + tail;
    } else {
      model, tail := None, rest;
    }
  }

  lemma MatchCountInverse(tail: string) returns (count: string, suffix: string)
    requires MatchCount(tail).Some?
    ensures MatchCount(tail) == Some(count) && tail == count + suffix
    ensures count != "" && AllDigits(count) && IsSuffix(suffix)
  {
    var n := DigitsLength(tail);
    count, suffix := tail[..n], tail[n..];
  }

  /** The recogniser accepts nothing the expression does not derive. */
  lemma MatchTokenSound(s: string) returns (model: Option<string>, suffix: string)
    requires MatchToken(s).Some?
    ensures Derives(s, MatchToken(s).value.word, model, MatchToken(s).value.count, suffix)
    ensures model.GetOr("") == MatchToken(s).value.model
  {
    var i := IndexOf(s, ':');
    var word, rest := s[..i], s[i + 1..];
    assert s == word + ":" + rest;
    var tail;
    model, tail := CutModelInverse(rest);
    var count;
    count, suffix := MatchCountInverse(tail);
    DerivesFrom(s, word, model, count, suffix);
  }
}
