/**
 splitGRESTokens of internal/collector/gpus.go: cutting a GRES specification at the commas that stand
 outside any index or socket suffix.
 */
module GresTokens {
  import opened Text

  /** The parenthesis depth after one more character; a stray ')' does not go below zero. */
  function Deeper(c: char, depth: nat): nat {
    if c == '(' then depth + 1
    else if c == ')' && depth > 0 then depth - 1
    else depth
  }

  function DepthAfter(s: string, depth: nat): nat {
    if s == "" then depth else DepthAfter(s[1..], Deeper(s[0], depth))
  }

  /** Puts text in front of the first token. */
  function Attach(text: string, tokens: seq<string>): (attached: seq<string>)
    requires tokens != []
    ensures |attached| == |tokens|
  {
    [text + tokens[0]] + tokens[1..]
  }

  /** The tokens of s, read from the given depth: cut at each comma standing at depth 0. */
  function TokensFrom(s: string, depth: nat): (tokens: seq<string>)
    ensures tokens != []
  {
    if s == "" then [""]
    else if s[0] == ',' && depth == 0 then [""] + TokensFrom(s[1..], 0)
    else Attach([s[0]], TokensFrom(s[1..], Deeper(s[0], depth)))
  }

  function Tokens(s: string): (tokens: seq<string>)
    ensures tokens != []
  {
    TokensFrom(s, 0)
  }

  /** The tokens cut so far, the pending text and the tokens still to come make up the tokens of spec. */
  predicate Progress(spec: string, tokens: seq<string>, start: nat, i: nat, depth: nat)
    requires start <= i <= |spec|
  {
    tokens + Attach(spec[start..i], TokensFrom(spec[i..], depth)) == Tokens(spec)
  }

  lemma AttachAttach(a: string, b: string, tokens: seq<string>)
    requires tokens != []
    ensures Attach(a, Attach(b, tokens)) == Attach(a + b, tokens)
    ensures Attach("", tokens) == tokens
  {
    assert a + (b + tokens[0]) == a + b + tokens[0];
    assert "" + tokens[0] == tokens[0];
  }

  lemma ProgressStarts(spec: string)
    ensures Progress(spec, [], 0, 0, 0)
  {
    assert spec[0..] == spec && spec[0..0] == "";
    AttachAttach("", "", Tokens(spec));
  }

  /** One turn of the loop: the character at i either closes the pending token or joins it. */
  lemma ProgressStep(spec: string, tokens: seq<string>, start: nat, i: nat, depth: nat)
    requires start <= i < |spec| && Progress(spec, tokens, start, i, depth)
    ensures if spec[i] == ',' && depth == 0
            then Progress(spec, tokens + [spec[start..i]], i + 1, i + 1, 0)
            else Progress(spec, tokens, start, i + 1, Deeper(spec[i], depth))
  {
    var pending := spec[start..i];
    assert spec[i..][1..] == spec[i + 1..];
    if spec[i] == ',' && depth == 0 {
      var rest := TokensFrom(spec[i + 1..], 0);
      assert spec[i + 1..i + 1] == "";
      AttachAttach("", "", rest);
      assert pending + "" == pending && ([""] + rest)[1..] == rest;
      assert tokens + ([pending] + rest) == tokens + [pending] + rest;
    } else {
      assert spec[start..i + 1] == pending + [spec[i]];
      AttachAttach(pending, [spec[i]], TokensFrom(spec[i + 1..], Deeper(spec[i], depth)));
    }
  }

  /** splitGRESTokens. */
  method SplitGresTokens(spec: string) returns (tokens: seq<string>)
    ensures tokens == Tokens(spec)
  {
    tokens := [];
    var depth: nat, start := 0, 0;
    ProgressStarts(spec);
    for i := 0 to |spec|
      invariant 0 <= start <= i
      invariant Progress(spec, tokens, start, i, depth)
    {
      ProgressStep(spec, tokens, start, i, depth);
      if spec[i] == '(' {
        depth := depth + 1;
      } else if spec[i] == ')' {
        if depth > 0 {
          depth := depth - 1;
        }
      } else if spec[i] == ',' {
        if depth == 0 {
          tokens := tokens + [spec[start..i]];
          start := i + 1;
        }
      }
    }
    assert spec[|spec|..] == "" && spec[start..|spec|] + "" == spec[start..];
    tokens := tokens + [spec[start..]];
  }

  /** Read from this depth, the text is a single token. */
  predicate Whole(s: string, depth: nat) {
    TokensFrom(s, depth) == [s]
  }

  lemma WholeStep(s: string, depth: nat)
    requires s != "" && !(s[0] == ',' && depth == 0)
    ensures Whole(s, depth) <==> Whole(s[1..], Deeper(s[0], depth))
  {
    var rest := TokensFrom(s[1..], Deeper(s[0], depth));
    assert s == [s[0]] + s[1..];
    if Whole(s, depth) {
      assert TokensFrom(s, depth)[0] == [s[0]] + rest[0];
      assert rest[0] == ([s[0]] + rest[0])[1..] == s[1..];
      assert |rest| == |TokensFrom(s, depth)| == 1;
      assert rest == [s[1..]];
    }
    if rest == [s[1..]] {
      assert rest[1..] == [];
    }
  }

  lemma {:induction false} TokensRejoin(s: string, depth: nat)
    ensures Join(TokensFrom(s, depth), ",") == s
  {
    if s == "" {
    } else if s[0] == ',' && depth == 0 {
      TokensRejoin(s[1..], 0);
      assert TokensFrom(s, depth)[1..] == TokensFrom(s[1..], 0);
    } else {
      var rest := TokensFrom(s[1..], Deeper(s[0], depth));
      TokensRejoin(s[1..], Deeper(s[0], depth));
      assert Attach([s[0]], rest)[1..] == rest[1..];
    }
  }

  /** Every token is whole, and every token that a comma follows ends at depth 0. */
  predicate CutAtTopLevel(tokens: seq<string>, depth: nat)
    requires tokens != []
  {
    && Whole(tokens[0], depth)
    && (|tokens| > 1 ==> DepthAfter(tokens[0], depth) == 0 && CutAtTopLevel(tokens[1..], 0))
  }

  lemma {:induction false} TokensAreCut(s: string, depth: nat)
    ensures CutAtTopLevel(TokensFrom(s, depth), depth)
  {
    if s == "" {
    } else if s[0] == ',' && depth == 0 {
      TokensAreCut(s[1..], 0);
      assert TokensFrom(s, depth)[1..] == TokensFrom(s[1..], 0);
    } else {
      var deeper := Deeper(s[0], depth);
      var rest := TokensFrom(s[1..], deeper);
      TokensAreCut(s[1..], deeper);
      var first := [s[0]] + rest[0];
      assert first[1..] == rest[0];
      assert Attach([s[0]], rest)[1..] == rest[1..];
    }
  }

  lemma TokensCons(c: char, s: string, depth: nat)
    ensures TokensFrom([c] + s, depth) ==
            if c == ',' && depth == 0 then [""] + TokensFrom(s, 0) else Attach([c], TokensFrom(s, Deeper(c, depth)))
    ensures DepthAfter([c] + s, depth) == DepthAfter(s, Deeper(c, depth))
  {
  }

  lemma AttachConcat(text: string, a: seq<string>, b: seq<string>)
    requires a != []
    ensures Attach(text, a + b) == Attach(text, a) + b
  {
  }

  /** How the tokens of a concatenation come about when the left part ends at depth 0, or deeper. */
  lemma {:induction false} TokensConcat(a: string, b: string, depth: nat)
    ensures DepthAfter(a, depth) == 0 ==>
              TokensFrom(a + "," + b, depth) == TokensFrom(a, depth) + TokensFrom(b, 0)
    ensures DepthAfter(a, depth) > 0 ==>
              |TokensFrom(a + "," + b, depth)| == |TokensFrom(a, depth)| + |TokensFrom(b, DepthAfter(a, depth))| - 1
  {
    if a == "" {
      TokensCons(',', b, depth);
      assert a + "," + b == [','] + b;
    } else {
      hide TokensFrom, DepthAfter, Attach;
      var c, rest := a[0], a[1..];
      var next := Deeper(c, depth);
      assert a == [c] + rest && a + "," + b == [c] + (rest + "," + b);
      TokensCons(c, rest, depth);
      TokensCons(c, rest + "," + b, depth);
      TokensConcat(rest, b, next);
      AttachConcat([c], TokensFrom(rest, next), TokensFrom(b, 0));
      ConcatAssociative([""], TokensFrom(rest, next), TokensFrom(b, 0));
    }
  }

  lemma {:induction false} DeeperCutsLess(s: string, low: nat, high: nat)
    requires low <= high
    ensures |TokensFrom(s, high)| <= |TokensFrom(s, low)|
  {
    if s == "" {
    } else if s[0] == ',' {
      DeeperCutsLess(s[1..], low, high);
    } else {
      DeeperCutsLess(s[1..], Deeper(s[0], low), Deeper(s[0], high));
    }
  }

  /** The comma between a and b separates resources exactly when a leaves no parenthesis open. */
  lemma SplitsAtCommaIffClosed(a: string, b: string)
    ensures Tokens(a + "," + b) == Tokens(a) + Tokens(b) <==> DepthAfter(a, 0) == 0
  {
    TokensConcat(a, b, 0);
    DeeperCutsLess(b, 0, DepthAfter(a, 0));
  }

  /** The only way to cut s into whole tokens at top-level commas is the tokenizer's. */
  lemma {:induction false} TokensUnique(tokens: seq<string>, depth: nat)
    requires tokens != [] && CutAtTopLevel(tokens, depth)
    ensures TokensFrom(Join(tokens, ","), depth) == tokens
  {
    if |tokens| == 1 {
    } else {
      TokensUnique(tokens[1..], 0);
      TokensConcat(tokens[0], Join(tokens[1..], ","), depth);
    }
  }

  /** The tokenizer is characterised: its result is the one list that rejoins to s and is cut at top level. */
  lemma TokensCharacterised(s: string, tokens: seq<string>)
    ensures tokens == Tokens(s) <==> tokens != [] && Join(tokens, ",") == s && CutAtTopLevel(tokens, 0)
  {
    TokensRejoin(s, 0);
    TokensAreCut(s, 0);
    if tokens != [] && CutAtTopLevel(tokens, 0) {
      TokensUnique(tokens, 0);
    }
  }

  lemma {:induction false} CutTokenIsWhole(tokens: seq<string>, i: nat)
    requires tokens != [] && CutAtTopLevel(tokens, 0) && i < |tokens|
    ensures Tokens(tokens[i]) == [tokens[i]]
  {
    if i == 0 {
    } else {
      CutTokenIsWhole(tokens[1..], i - 1);
    }
  }

  /** Splitting any token of a specification again gives that token alone. */
  lemma TokenIsWhole(s: string, i: nat)
    requires i < |Tokens(s)|
    ensures Tokens(Tokens(s)[i]) == [Tokens(s)[i]]
  {
    TokensAreCut(s, 0);
    CutTokenIsWhole(Tokens(s), i);
  }

  /** A token is a stretch of the specification it was cut from. */
  lemma {:induction false} JoinedPartWithin(parts: seq<string>, sep: string, i: nat) returns (pre: string, post: string)
    requires i < |parts|
    ensures Join(parts, sep) == pre + parts[i] + post
  {
    if |parts| == 1 {
      pre, post := "", "";
    } else if i == 0 {
      pre, post := "", sep + Join(parts[1..], sep);
    } else {
      var pre', post' := JoinedPartWithin(parts[1..], sep, i - 1);
      pre, post := parts[0] + sep + pre', post';
      ConcatAssociates(parts[0] + sep, pre', parts[i], post');
    }
  }

  lemma {:induction false} WholeWithoutCommas(s: string, depth: nat)
    requires ',' !in s
    ensures Whole(s, depth)
  {
    if s == "" {
    } else {
      WholeStep(s, depth);
      WholeWithoutCommas(s[1..], Deeper(s[0], depth));
    }
  }

  lemma {:induction false} WholeConcat(a: string, b: string, depth: nat)
    requires Whole(a, depth) && Whole(b, DepthAfter(a, depth))
    ensures Whole(a + b, depth)
    ensures DepthAfter(a + b, depth) == DepthAfter(b, DepthAfter(a, depth))
  {
    if a == "" {
      assert a + b == b;
    } else {
      assert (a + b)[1..] == a[1..] + b;
      WholeStep(a, depth);
      WholeStep(a + b, depth);
      WholeConcat(a[1..], b, Deeper(a[0], depth));
    }
  }

  /** Text without an opening parenthesis that has no comma to cut at and no parenthesis to close. */
  lemma {:induction false} FlatTextIsWhole(s: string, depth: nat)
    requires '(' !in s && (depth == 0 ==> ',' !in s) && (depth > 0 ==> ')' !in s)
    ensures Whole(s, depth) && DepthAfter(s, depth) == depth
  {
    if s == "" {
    } else {
      WholeStep(s, depth);
      FlatTextIsWhole(s[1..], depth);
    }
  }

  lemma ParenthesisedIsWhole(text: string)
    requires '(' !in text && ')' !in text
    ensures Whole("(" + text + ")", 0) && DepthAfter("(" + text + ")", 0) == 0
  {
    FlatTextIsWhole(text, 1);
    WholeWithoutCommas("(", 0);
    WholeWithoutCommas(")", 1);
    WholeConcat("(", text, 0);
    WholeConcat("(" + text, ")", 0);
  }
}
