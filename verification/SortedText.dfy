/**
 slices.Sort followed by slices.Compact on lines: the strictly increasing list of the distinct lines, which
 depends on nothing but the set of lines.
 */
module SortedText {
  import opened Permutations

  /** The order of Go strings: lexicographic. */
  predicate Le(a: string, b: string) {
    a == "" || (b != "" && (a[0] < b[0] || (a[0] == b[0] && Le(a[1..], b[1..]))))
  }

  lemma {:induction false} LeTotal(a: string, b: string)
    ensures Le(a, b) || Le(b, a)
  {
    if a != "" && b != "" && a[0] == b[0] {
      LeTotal(a[1..], b[1..]);
    }
  }

  lemma {:induction false} LeAntisymmetric(a: string, b: string)
    requires Le(a, b) && Le(b, a)
    ensures a == b
  {
    if a != "" {
      LeAntisymmetric(a[1..], b[1..]);
      assert a == [a[0]] + a[1..] && b == [b[0]] + b[1..];
    }
  }

  lemma {:induction false} LeTransitive(a: string, b: string, c: string)
    requires Le(a, b) && Le(b, c)
    ensures Le(a, c)
  {
    if a != "" && a[0] == b[0] && b[0] == c[0] {
      LeTransitive(a[1..], b[1..], c[1..]);
    }
  }

  /** A proper prefix comes first, and otherwise the first character that differs decides. */
  lemma {:induction false} LeIsLexicographic(a: string, b: string, n: nat)
    requires n <= |a| && n <= |b| && a[..n] == b[..n]
    ensures n == |a| ==> Le(a, b)
    ensures n < |a| && n == |b| ==> !Le(a, b)
    ensures n < |a| && n < |b| && a[n] != b[n] ==> (Le(a, b) <==> a[n] < b[n])
    decreases n
  {
    if n == 0 {
    } else {
      assert a[..n][0] == b[..n][0] && a[1..][..n - 1] == a[..n][1..] && b[1..][..n - 1] == b[..n][1..];
      LeIsLexicographic(a[1..], b[1..], n - 1);
    }
  }

  predicate Sorted(s: seq<string>) {
    forall i, j | 0 <= i < j < |s| :: Le(s[i], s[j])
  }

  predicate StrictlySorted(s: seq<string>) {
    Sorted(s) && Distinct(s)
  }

  function Insert(x: string, s: seq<string>): seq<string> {
    if s == [] || Le(x, s[0]) then [x] + s else [s[0]] + Insert(x, s[1..])
  }

  /** slices.Sort. */
  function Sort(s: seq<string>): seq<string> {
    if s == [] then [] else Insert(s[0], Sort(s[1..]))
  }

  /** slices.Compact: of each run of equal elements the first is kept. */
  function Compact(s: seq<string>): seq<string> {
    if |s| <= 1 then s
    else if s[0] == s[1] then Compact(s[1..])
    else [s[0]] + Compact(s[1..])
  }

  /** The lines as both node parsers walk them. */
  function Uniq(lines: seq<string>): seq<string> {
    Compact(Sort(lines))
  }

  lemma {:induction false} InsertSorts(x: string, s: seq<string>)
    requires Sorted(s)
    ensures Sorted(Insert(x, s)) && multiset(Insert(x, s)) == multiset{x} + multiset(s)
  {
    if s == [] {
    } else if Le(x, s[0]) {
      forall j | 0 < j < |s|
        ensures Le(x, s[j])
      {
        LeTransitive(x, s[0], s[j]);
      }
    } else {
      LeTotal(x, s[0]);
      InsertSorts(x, s[1..]);
      assert s == [s[0]] + s[1..];
      var rest := Insert(x, s[1..]);
      forall j | 0 <= j < |rest|
        ensures Le(s[0], rest[j])
      {
        assert rest[j] in multiset(rest);
      }
    }
  }

  lemma {:induction false} SortSorts(s: seq<string>)
    ensures Sorted(Sort(s)) && multiset(Sort(s)) == multiset(s)
  {
    if s == [] {
    } else {
      hide Sorted, Insert;
      SortSorts(s[1..]);
      InsertSorts(s[0], Sort(s[1..]));
      assert s == [s[0]] + s[1..];
    }
  }

  lemma LeReflexive(a: string)
    ensures Le(a, a)
  {
    LeTotal(a, a);
  }

  lemma {:induction false} CompactKeeps(s: seq<string>)
    requires Sorted(s)
    ensures StrictlySorted(Compact(s))
    ensures forall x :: x in Compact(s) <==> x in s
    ensures s != [] ==> Compact(s) != [] && Compact(s)[0] == s[0]
  {
    if |s| <= 1 {
    } else {
      var rest := Compact(s[1..]);
      CompactKeeps(s[1..]);
      assert s == [s[0]] + s[1..];
      if s[0] != s[1] {
        forall j | 0 <= j < |rest|
          ensures Le(s[0], rest[j]) && s[0] != rest[j]
        {
          assert rest[j] in s[1..];
          if s[0] == rest[j] {
            assert Le(s[1], rest[j]) by {
              assert rest[0] == s[1];
              LeReflexive(s[1]);
            }
            LeAntisymmetric(s[0], s[1]);
          }
        }
      }
    }
  }

  lemma NonEmptyHasElement<T>(s: seq<T>)
    ensures s != [] ==> exists x :: x in s
  {
    if s != [] {
      assert s[0] in s;
    }
  }

  lemma HeadIsLeast(s: seq<string>, x: string)
    requires Sorted(s) && x in s
    ensures Le(s[0], x)
  {
    LeReflexive(x);
  }

  /** Two strictly increasing lists of the same elements are the same list. */
  lemma {:induction false} StrictlySortedUnique(a: seq<string>, b: seq<string>)
    requires StrictlySorted(a) && StrictlySorted(b)
    requires forall x :: x in a <==> x in b
    ensures a == b
  {
    if a == [] {
      NonEmptyHasElement(b);
    } else {
      assert a[0] in a && a[0] in b;
      assert b[0] in b && b[0] in a;
      HeadIsLeast(a, b[0]);
      HeadIsLeast(b, a[0]);
      LeAntisymmetric(a[0], b[0]);
      assert a == [a[0]] + a[1..] && b == [b[0]] + b[1..];
      forall x: string
        ensures x in a[1..] <==> x in b[1..]
      {
        assert a[0] !in a[1..] && b[0] !in b[1..];
        assert x in a <==> x == a[0] || x in a[1..];
        assert x in b <==> x == b[0] || x in b[1..];
      }
      StrictlySortedUnique(a[1..], b[1..]);
    }
  }

  lemma UniqMeaning(lines: seq<string>)
    ensures StrictlySorted(Uniq(lines))
    ensures forall x :: x in Uniq(lines) <==> x in lines
  {
    SortSorts(lines);
    CompactKeeps(Sort(lines));
    forall x: string
      ensures x in Uniq(lines) <==> x in lines
    {
      assert x in Sort(lines) <==> x in multiset(Sort(lines));
      assert x in lines <==> x in multiset(lines);
    }
  }

  /** Permuting or repeating lines changes nothing. */
  lemma UniqDependsOnSet(a: seq<string>, b: seq<string>)
    requires forall x :: x in a <==> x in b
    ensures Uniq(a) == Uniq(b)
  {
    UniqMeaning(a);
    UniqMeaning(b);
    StrictlySortedUnique(Uniq(a), Uniq(b));
  }

  lemma SameLength<T>(a: seq<T>, b: seq<T>)
    requires multiset(a) == multiset(b)
    ensures |a| == |b|
  {
    assert |multiset(a)| == |multiset(b)|;
  }

  lemma TailsAgree<T>(a: seq<T>, b: seq<T>)
    requires a != [] && b != [] && a[0] == b[0] && multiset(a) == multiset(b)
    ensures multiset(a[1..]) == multiset(b[1..])
    ensures a == [a[0]] + a[1..] && b == [b[0]] + b[1..]
  {
    assert a == [a[0]] + a[1..] && b == [b[0]] + b[1..];
    assert multiset(a[1..]) == multiset(a) - multiset{a[0]};
    assert multiset(b[1..]) == multiset(b) - multiset{b[0]};
  }

  lemma {:induction false} SortedUnique(a: seq<string>, b: seq<string>)
    requires Sorted(a) && Sorted(b) && multiset(a) == multiset(b)
    ensures a == b
  {
    SameLength(a, b);
    if a == [] {
    } else {
      hide Le;
      assert a[0] in multiset(b) && b[0] in multiset(a);
      HeadIsLeast(a, b[0]);
      HeadIsLeast(b, a[0]);
      LeAntisymmetric(a[0], b[0]);
      TailsAgree(a, b);
      SortedUnique(a[1..], b[1..]);
    }
  }

  /** Sorting depends only on how often each element occurs. */
  lemma SortDependsOnMultiset(a: seq<string>, b: seq<string>)
    requires multiset(a) == multiset(b)
    ensures Sort(a) == Sort(b)
  {
    SortSorts(a);
    SortSorts(b);
    SortedUnique(Sort(a), Sort(b));
  }

  lemma SortKeepsSorted(s: seq<string>)
    requires Sorted(s)
    ensures Sort(s) == s
  {
    SortSorts(s);
    SortedUnique(Sort(s), s);
  }

  lemma SortOfOne(line: string)
    ensures Sort([line]) == [line]
  {
    assert [line][1..] == [];
    assert Insert(line, []) == [line] + [];
  }

  lemma UniqOfOne(line: string)
    ensures Uniq([line]) == [line]
  {
    SortOfOne(line);
  }
}
