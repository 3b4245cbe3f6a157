/**
 Counts by type and GPU counts of a GRES specification (internal/collector/gpus.go), and what they
 mean for a printed resource list.
 */
module Gres {
  import opened Text
  import opened Numbers
  import opened GresTokens
  import opened GresGrammar

  // ---- Entries ----

  datatype Entry = Entry(key: string, count: nat)

  /** "type" or "type:model"; an absent, empty or "(null)" model leaves the bare type. */
  function EntryKey(word: string, model: string): string {
    if model != "" && model != "(null)" then word + ":" + model else word
  }

  /** What one token contributes: nothing when it is malformed or its count is out of range. */
  function ReadToken(token: string): Option<Entry> {
    match MatchToken(TrimSpace(token))
    case None => None
    case Some(t) =>
      var (count, ok) := ParseUint(t.count);
      if ok then Some(Entry(EntryKey(t.word, t.model), count)) else None
  }

  function ReadAll(tokens: seq<string>): (entries: seq<Option<Entry>>)
    ensures |entries| == |tokens|
    ensures forall i | 0 <= i < |tokens| :: entries[i] == ReadToken(tokens[i])
  {
    seq(|tokens|, i requires 0 <= i < |tokens| => ReadToken(tokens[i]))
  }

  /** The entries of a specification, one for each token. */
  function Entries(spec: string): seq<Option<Entry>> {
    ReadAll(Tokens(spec))
  }

  function Keys(entries: seq<Option<Entry>>): set<string> {
    set entry | entry in entries && entry.Some? :: entry.value.key
  }

  function CountIn(entry: Option<Entry>, keys: set<string>): nat {
    if entry.Some? && entry.value.key in keys then entry.value.count else 0
  }

  /** The sum of the counts of the entries whose key is in keys. */
  function SumIn(entries: seq<Option<Entry>>, keys: set<string>): nat {
    if entries == [] then 0
    else SumIn(entries[..|entries| - 1], keys) + CountIn(entries[|entries| - 1], keys)
  }

  /** For each key, the sum of the counts of its entries. */
  function CountsByKey(entries: seq<Option<Entry>>): map<string, nat> {
    map key | key in Keys(entries) :: SumIn(entries, {key})
  }

  function GresByType(spec: string): map<string, nat> {
    CountsByKey(Entries(spec))
  }

  lemma {:induction false} SumInNone(entries: seq<Option<Entry>>, keys: set<string>)
    requires keys !! Keys(entries)
    ensures SumIn(entries, keys) == 0
  {
    if entries == [] {
    } else {
      var front, last := entries[..|entries| - 1], entries[|entries| - 1];
      assert last in entries;
      assert last.Some? ==> last.value.key in Keys(entries);
      SumInNone(front, keys);
    }
  }

  function AddEntry(counts: map<string, nat>, entry: Option<Entry>): map<string, nat> {
    match entry
    case None => counts
    case Some(e) => counts[e.key := (if e.key in counts then counts[e.key] else 0) + e.count]
  }

  lemma CountsByKeyStep(entries: seq<Option<Entry>>, entry: Option<Entry>)
    ensures CountsByKey(entries + [entry]) == AddEntry(CountsByKey(entries), entry)
  {
    var more := entries + [entry];
    assert more[..|entries|] == entries;
    assert Keys(more) == Keys(entries) + if entry.Some? then {entry.value.key} else {};
    if entry.Some? && entry.value.key !in Keys(entries) {
      SumInNone(entries, {entry.value.key});
    }
  }

  /** These placeholders hold no well-formed token. */
  lemma NoEntryWithoutColon(spec: string)
    requires ':' !in spec && ',' !in spec
    ensures Entries(spec) == [None]
  {
    WholeWithoutCommas(spec, 0);
    TrimSpaceLacks(spec, ':');
    IndexOfNone(TrimSpace(spec), ':');
  }

  /** The body of parseGRESByType's loop: one token added to the counts, or skipped. */
  method AddToken(counts: map<string, nat>, token: string) returns (r: map<string, nat>)
    ensures r == AddEntry(counts, ReadToken(token))
  {
    hide MatchToken, TrimSpace, DigitsValue;
    r := counts;
    var m := MatchToken(TrimSpace(token));
    if m.Some? {
      var (count, ok) := ParseUint(m.value.count);
      if ok {
        var key := m.value.word;
        if m.value.model != "" && m.value.model != "(null)" {
          key := key + ":" + m.value.model;
        }
        r := r[key := (if key in r then r[key] else 0) + count];
      }
    }
  }

  /** parseGRESByType. A nil map and an empty one are not told apart. */
  method ParseGresByType(spec: string) returns (counts: map<string, nat>)
    ensures counts == GresByType(spec)
  {
    counts := map[];
    if spec == "" || spec == "(null)" || spec == "N/A" {
      NoEntryWithoutColon(spec);
      return;
    }
    var tokens := SplitGresTokens(spec);
    ghost var entries := ReadAll(tokens);
    for i := 0 to |tokens|
      invariant counts == CountsByKey(entries[..i])
    {
      CountsByKeyStep(entries[..i], entries[i]);
      PrefixStep(entries, i);
      counts := AddToken(counts, tokens[i]);
    }
    assert entries[..|tokens|] == entries;
  }

  // ---- Sums of 64 bits ----

  const TWO_TO_THE_64 := MAX_UINT64 + 1

  /** One entry added as the uint64 values of the map add up, modulo 2^64. */
  function AddWrapped(counts: map<string, nat>, entry: Option<Entry>): map<string, nat> {
    match entry
    case None => counts
    case Some(e) => counts[e.key := ((if e.key in counts then counts[e.key] else 0) + e.count) % TWO_TO_THE_64]
  }

  function WrappedCounts(entries: seq<Option<Entry>>): map<string, nat> {
    if entries == [] then map[] else AddWrapped(WrappedCounts(entries[..|entries| - 1]), entries[|entries| - 1])
  }

  /** The same keys, with the values reduced modulo 2^64. */
  predicate Reduced(wrapped: map<string, nat>, exact: map<string, nat>) {
    wrapped.Keys == exact.Keys && forall key | key in exact :: wrapped[key] == exact[key] % TWO_TO_THE_64
  }

  lemma WrappedSum(sum: nat, count: nat)
    ensures (sum % TWO_TO_THE_64 + count) % TWO_TO_THE_64 == (sum + count) % TWO_TO_THE_64
  {
  }

  lemma ReducedStep(wrapped: map<string, nat>, exact: map<string, nat>, entry: Option<Entry>)
    requires Reduced(wrapped, exact)
    ensures Reduced(AddWrapped(wrapped, entry), AddEntry(exact, entry))
  {
    if entry.Some? {
      WrappedSum(if entry.value.key in exact then exact[entry.value.key] else 0, entry.value.count);
    }
  }

  lemma {:induction false} WrappedMeaning(entries: seq<Option<Entry>>)
    ensures Reduced(WrappedCounts(entries), CountsByKey(entries))
  {
    if entries == [] {
    } else {
      hide CountsByKey, Reduced, AddWrapped, AddEntry;
      var front, last := entries[..|entries| - 1], entries[|entries| - 1];
      assert entries == front + [last];
      WrappedMeaning(front);
      CountsByKeyStep(front, last);
      ReducedStep(WrappedCounts(front), CountsByKey(front), last);
    }
  }

  /** The 64-bit sums are the exact ones if and only if no exact sum exceeds 64 bits. */
  lemma ExactIffNoWrap(spec: string)
    ensures WrappedCounts(Entries(spec)) == GresByType(spec) <==>
              forall key | key in GresByType(spec) :: GresByType(spec)[key] <= MAX_UINT64
  {
    hide Entries, CountsByKey, WrappedCounts;
    WrappedMeaning(Entries(spec));
    forall key | key in GresByType(spec)
      ensures GresByType(spec)[key] % TWO_TO_THE_64 == GresByType(spec)[key] <==> GresByType(spec)[key] <= MAX_UINT64
    {
    }
  }

  // ---- GPU counts ----

  predicate IsGpuKey(key: string) {
    key == "gpu" || "gpu:" <= key
  }

  /** The sum of the counts of the gpu entries. */
  function GpuSum(entries: seq<Option<Entry>>): nat {
    if entries == [] then 0 else
    var last := entries[|entries| - 1];
    GpuSum(entries[..|entries| - 1]) + if last.Some? && IsGpuKey(last.value.key) then last.value.count else 0
  }

  function GpuCount(spec: string): nat {
    GpuSum(Entries(spec))
  }

  lemma {:induction false} SumInAdds(entries: seq<Option<Entry>>, keys: set<string>, key: string)
    requires key !in keys
    ensures SumIn(entries, keys + {key}) == SumIn(entries, keys) + SumIn(entries, {key})
  {
    if entries == [] {
    } else {
      SumInAdds(entries[..|entries| - 1], keys, key);
    }
  }

  lemma {:induction false} SumInGpuKeys(entries: seq<Option<Entry>>, keys: set<string>)
    requires forall key | key in keys :: IsGpuKey(key)
    requires forall key | key in Keys(entries) && IsGpuKey(key) :: key in keys
    ensures SumIn(entries, keys) == GpuSum(entries)
  {
    if entries == [] {
    } else {
      var last := entries[|entries| - 1];
      assert last in entries;
      assert last.Some? ==> last.value.key in Keys(entries);
      SumInGpuKeys(entries[..|entries| - 1], keys);
    }
  }

  /** parseGPUCount: the map is walked in any order. */
  method ParseGpuCount(spec: string) returns (count: nat)
    ensures count == GpuCount(spec)
  {
    hide SumIn, GpuSum, Entries;
    var counts := ParseGresByType(spec);
    ghost var entries := Entries(spec);
    count := 0;
    var todo := counts.Keys;
    ghost var gpus: set<string> := {};
    SumInNone(entries, {});
    while todo != {}
      invariant todo <= counts.Keys && gpus !! todo
      invariant forall key | key in gpus :: IsGpuKey(key)
      invariant forall key | key in counts.Keys - todo && IsGpuKey(key) :: key in gpus
      invariant count == SumIn(entries, gpus)
      decreases |todo|
    {
      var key :| key in todo;
      todo := todo - {key};
      if key == "gpu" || "gpu:" <= key {
        SumInAdds(entries, gpus, key);
        count := count + counts[key];
        gpus := gpus + {key};
      }
    }
    SumInGpuKeys(entries, gpus);
  }

  lemma {:induction false} GpuSumConcat(a: seq<Option<Entry>>, b: seq<Option<Entry>>)
    ensures GpuSum(a + b) == GpuSum(a) + GpuSum(b)
  {
    if b == [] {
      assert a + b == a;
    } else {
      GpuSumConcat(a, b[..|b| - 1]);
      assert (a + b)[..|a + b| - 1] == a + b[..|b| - 1];
    }
  }

  /** GPU counts add up over a comma at depth 0, whatever malformed tokens are around. */
  lemma GpuCountAdditive(a: string, b: string)
    requires DepthAfter(a, 0) == 0
    ensures GpuCount(a + "," + b) == GpuCount(a) + GpuCount(b)
  {
    hide ReadToken, TokensFrom, DepthAfter, GpuSum;
    SplitsAtCommaIffClosed(a, b);
    assert ReadAll(Tokens(a) + Tokens(b)) == ReadAll(Tokens(a)) + ReadAll(Tokens(b));
    GpuSumConcat(Entries(a), Entries(b));
  }

  lemma NoGpuKeyNoSum(entries: seq<Option<Entry>>)
    requires forall key | key in Keys(entries) :: !IsGpuKey(key)
    ensures GpuSum(entries) == 0
  {
    SumInNone(entries, {});
    SumInGpuKeys(entries, {});
  }

  lemma PrefixHas(s: string, prefix: string, c: char)
    requires prefix <= s && c in prefix
    ensures c in s
  {
  }

  lemma GpuKeyHasGpuWord(word: string, model: string)
    requires IsGpuKey(EntryKey(word, model)) && ':' !in word
    ensures word == "gpu"
  {
    var key := EntryKey(word, model);
    if key == word {
      if "gpu:" <= word {
        PrefixHas(word, "gpu:", ':');
      }
    } else {
      assert key[|word|] == ':';
      assert key != "gpu" by {
        assert ':' !in "gpu";
      }
      assert key[..4] == "gpu:";
      if |word| > 3 {
        assert "gpu:" == word[..4] by {
          assert key[..4] == word[..4];
        }
        PrefixHas(word, "gpu:", ':');
      }
      assert |word| == 3 by {
        assert forall k :: 0 <= k < 3 ==> key[k] == "gpu"[k] != ':';
      }
      assert word == key[..3] == "gpu:"[..3];
    }
  }

  lemma GpuTokenHasText(token: string)
    requires ReadToken(token).Some? && IsGpuKey(ReadToken(token).value.key)
    ensures Contains(token, "gpu:")
  {
    var s := TrimSpace(token);
    var word, model := MatchToken(s).value.word, MatchToken(s).value.model;
    var i := IndexOf(s, ':');
    assert word == s[..i];
    GpuKeyHasGpuWord(word, model);
    assert s[..i + 1] == "gpu:";
    ContainsPrefix(s, "gpu:");
    var pre, post := TrimSpaceCuts(token);
    ContainsWithin(pre, s, post, "gpu:");
  }

  /** A specification with a GPU in it has the text "gpu:" in it: the line filters lose nothing. */
  lemma GpuNeedsText(spec: string)
    ensures !Contains(spec, "gpu:") ==> GpuCount(spec) == 0
  {
    if !Contains(spec, "gpu:") {
      var tokens := Tokens(spec);
      forall key | key in Keys(Entries(spec))
        ensures !IsGpuKey(key)
      {
        var i :| 0 <= i < |tokens| && ReadAll(tokens)[i].Some? && ReadAll(tokens)[i].value.key == key;
        if IsGpuKey(key) {
          GpuTokenHasText(tokens[i]);
          TokensRejoin(spec, 0);
          var pre, post := JoinedPartWithin(tokens, ",", i);
          ContainsWithin(pre, tokens[i], post, "gpu:");
        }
      }
      NoGpuKeyNoSum(Entries(spec));
    }
  }

  // ---- Round trip ----

  /** One generic resource as Slurm prints it: type, optional model, count, optional suffix text. */
  datatype Resource = Resource(word: string, model: Option<string>, count: nat, suffix: Option<string>)

  predicate Printable(r: Resource) {
    && r.word != "" && AllWordChars(r.word)
    && (r.model.Some? ==>
          r.model.value == "(null)" || (':' !in r.model.value && '(' !in r.model.value && ',' !in r.model.value))
    && r.count <= MAX_UINT64
    && (r.suffix.Some? ==> '(' !in r.suffix.value && ')' !in r.suffix.value)
  }

  function ModelText(model: Option<string>): string {
    if model.Some? then model.value + ":" else ""
  }

  function SuffixText(suffix: Option<string>): string {
    if suffix.Some? then "(" + suffix.value + ")" else ""
  }

  function Print(r: Resource): string {
    r.word + ":" + ModelText(r.model) + Decimal(r.count) + SuffixText(r.suffix)
  }

  function PrintAll(rs: seq<Resource>): (texts: seq<string>)
    ensures |texts| == |rs|
    ensures forall i | 0 <= i < |rs| :: texts[i] == Print(rs[i])
  {
    seq(|rs|, i requires 0 <= i < |rs| => Print(rs[i]))
  }

  /** What a resource stands for: its type, and the model behind a colon when it has one worth naming. */
  function Meaning(r: Resource): Option<Entry> {
    match r.model
    case None => Some(Entry(r.word, r.count))
    case Some(model) =>
      if model in {"", "(null)"} then Some(Entry(r.word, r.count)) else Some(Entry(r.word + ":" + model, r.count))
  }

  function Meanings(rs: seq<Resource>): (entries: seq<Option<Entry>>)
    ensures |entries| == |rs|
    ensures forall i | 0 <= i < |rs| :: entries[i] == Meaning(rs[i])
  {
    seq(|rs|, i requires 0 <= i < |rs| => Meaning(rs[i]))
  }

  lemma PrintIsWhole(r: Resource)
    requires Printable(r)
    ensures Whole(Print(r), 0) && DepthAfter(Print(r), 0) == 0
  {
    DecimalReadsBack(r.count);
    var head := r.word + ":";
    FlatTextIsWhole(head, 0);
    if r.model == Some("(null)") {
      ParenthesisedIsWhole("null");
      assert "(" + "null" + ")" == "(null)";
      FlatTextIsWhole(":", 0);
      WholeConcat("(null)", ":", 0);
    } else {
      FlatTextIsWhole(ModelText(r.model), 0);
    }
    WholeConcat(head, ModelText(r.model), 0);
    FlatTextIsWhole(Decimal(r.count), 0);
    WholeConcat(head + ModelText(r.model), Decimal(r.count), 0);
    if r.suffix.Some? {
      ParenthesisedIsWhole(r.suffix.value);
    } else {
      FlatTextIsWhole("", 0);
    }
    WholeConcat(head + ModelText(r.model) + Decimal(r.count), SuffixText(r.suffix), 0);
  }

  lemma PrintIsTrimmed(r: Resource)
    requires Printable(r)
    ensures Trimmed(Print(r))
  {
  }

  lemma PrintDerives(r: Resource)
    requires Printable(r)
    ensures Derives(Print(r), r.word, r.model, Decimal(r.count), SuffixText(r.suffix))
  {
    hide Decimal;
    DecimalReadsBack(r.count);
  }

  lemma MeaningIsEntry(r: Resource)
    ensures Meaning(r) == Some(Entry(EntryKey(r.word, r.model.GetOr("")), r.count))
  {
  }

  lemma PrintReadsBack(r: Resource)
    requires Printable(r)
    ensures ReadToken(Print(r)) == Meaning(r)
    ensures r.model in {None, Some(""), Some("(null)")} ==> ReadToken(Print(r)) == Some(Entry(r.word, r.count))
    ensures r.model !in {None, Some(""), Some("(null)")} ==>
              ReadToken(Print(r)) == Some(Entry(r.word + ":" + r.model.value, r.count))
  {
    hide Derives, MatchToken, Print, TrimSpace, Trimmed, Decimal, DigitsValue, SuffixText, EntryKey;
    MeaningIsEntry(r);
    DecimalReadsBack(r.count);
    PrintDerives(r);
    MatchTokenComplete(Print(r), r.word, r.model, Decimal(r.count), SuffixText(r.suffix));
    PrintIsTrimmed(r);
    TrimSpaceKeepsTrimmed(Print(r));
  }

  lemma {:induction false} PrintedListIsCut(rs: seq<Resource>)
    requires rs != [] && forall i | 0 <= i < |rs| :: Printable(rs[i])
    ensures CutAtTopLevel(PrintAll(rs), 0)
  {
    PrintIsWhole(rs[0]);
    if |rs| == 1 {
    } else {
      PrintedListIsCut(rs[1..]);
      assert PrintAll(rs)[1..] == PrintAll(rs[1..]);
    }
  }

  lemma PrintedEntries(rs: seq<Resource>)
    requires rs != [] && forall i | 0 <= i < |rs| :: Printable(rs[i])
    ensures Entries(Join(PrintAll(rs), ",")) == Meanings(rs)
  {
    hide ReadToken, TokensFrom, Print, Meaning, Printable;
    PrintedListIsCut(rs);
    TokensUnique(PrintAll(rs), 0);
    forall i | 0 <= i < |rs|
      ensures ReadToken(PrintAll(rs)[i]) == Meaning(rs[i])
    {
      PrintReadsBack(rs[i]);
    }
    assert ReadAll(PrintAll(rs)) == Meanings(rs);
  }

  /**
   Parsing the comma-joined rendering of any list of resources gives exactly the sums by key, an absent
   or "(null)" model counting for the bare type.
   */
  lemma GresRoundTrip(rs: seq<Resource>)
    requires forall i | 0 <= i < |rs| :: Printable(rs[i])
    ensures GresByType(Join(PrintAll(rs), ",")) == CountsByKey(Meanings(rs))
  {
    if rs == [] {
      NoEntryWithoutColon("");
    } else {
      PrintedEntries(rs);
    }
  }

  lemma NothingCounted()
    ensures CountsByKey([]) == map[]
  {
  }

  /** One printed resource alone: one key, the bare type unless it names a model. */
  lemma OnePrinted(r: Resource)
    requires Printable(r)
    ensures r.model in {None, Some(""), Some("(null)")} ==> GresByType(Print(r)) == map[r.word := r.count]
    ensures r.model !in {None, Some(""), Some("(null)")} ==>
              GresByType(Print(r)) == map[r.word + ":" + r.model.value := r.count]
  {
    hide Print, ReadToken, TokensFrom, CountsByKey;
    PrintIsWhole(r);
    PrintReadsBack(r);
    assert Entries(Print(r)) == [] + [ReadToken(Print(r))];
    CountsByKeyStep([], ReadToken(Print(r)));
    NothingCounted();
  }

  /** The GPUs in a list of resources: those of type gpu, whatever their model. */
  function GpusIn(rs: seq<Resource>): nat {
    if rs == [] then 0 else
    GpusIn(rs[..|rs| - 1]) + if rs[|rs| - 1].word == "gpu" then rs[|rs| - 1].count else 0
  }

  lemma GpuMeaning(r: Resource)
    requires Printable(r)
    ensures IsGpuKey(Meaning(r).value.key) <==> r.word == "gpu"
  {
    MeaningIsEntry(r);
    assert ':' !in r.word;
    if IsGpuKey(Meaning(r).value.key) {
      GpuKeyHasGpuWord(r.word, r.model.GetOr(""));
    }
  }

  lemma {:induction false} GpuSumOfMeanings(rs: seq<Resource>)
    requires forall i | 0 <= i < |rs| :: Printable(rs[i])
    ensures GpuSum(Meanings(rs)) == GpusIn(rs)
  {
    if rs == [] {
    } else {
      hide Meaning, IsGpuKey, Printable;
      var front, last := rs[..|rs| - 1], rs[|rs| - 1];
      assert Meanings(rs)[..|rs| - 1] == Meanings(front);
      GpuSumOfMeanings(front);
      GpuMeaning(last);
      MeaningIsEntry(last);
    }
  }

  /** So the GPU count of a printed list is the number of its GPUs. */
  lemma GpuRoundTrip(rs: seq<Resource>)
    requires forall i | 0 <= i < |rs| :: Printable(rs[i])
    ensures GpuCount(Join(PrintAll(rs), ",")) == GpusIn(rs)
  {
    hide Printable, GpuSum, Meaning;
    GpuSumOfMeanings(rs);
    if rs == [] {
      NoEntryWithoutColon("");
      NoGpuKeyNoSum([None]);
    } else {
      PrintedEntries(rs);
    }
  }

  // ---- The depth condition is needed ----

  lemma PrintedGpuCounts(r: Resource)
    requires Printable(r) && r.word == "gpu"
    ensures GpuCount(Print(r)) == r.count
  {
    hide Print, ReadToken, TokensFrom;
    PrintIsWhole(r);
    PrintReadsBack(r);
    assert Entries(Print(r)) == [Meaning(r)];
    assert GpuSum([Meaning(r)]) == GpuSum([Meaning(r)][..0]) + r.count;
  }

  lemma LeadingParenthesisReadsAsNothing(s: string)
    requires Trimmed(s) && s != "" && s[0] == '('
    ensures ReadToken(s) == None
  {
    TrimSpaceKeepsTrimmed(s);
    var i := IndexOf(s, ':');
    if 0 < i {
      assert !IsWordChar(s[..i][0]);
    }
  }

  /** An open parenthesis swallows the GPUs that follow: the count is not additive at depth 1. */
  lemma OpenParenthesisSwallows(r: Resource)
    requires Printable(r) && r.word == "gpu" && r.count > 0
    requires '(' !in Print(r) && ')' !in Print(r)
    ensures DepthAfter("(", 0) == 1
    ensures GpuCount("(" + ("," + Print(r))) < GpuCount("(") + GpuCount(Print(r))
  {
    var rest := "," + Print(r);
    PrintIsTrimmed(r);
    FlatTextIsWhole(rest, 1);
    WholeWithoutCommas("(", 0);
    assert DepthAfter("(", 0) == DepthAfter("", 1);
    WholeConcat("(", rest, 0);
    LeadingParenthesisReadsAsNothing("(" + rest);
    NoGpuKeyNoSum([None]);
    PrintedGpuCounts(r);
  }
}
