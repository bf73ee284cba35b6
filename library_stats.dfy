/**
 * The counting part of `generateStats` in validate-library.js: snippets per
 * category, snippets with and without placeholders, and the total length of
 * the code. `byCategory` is a JavaScript object whose keys keep the order in
 * which they were first added; it is modelled as an association list in that
 * order.
 */
module LibraryStats {
  import opened Text
  import opened ValidateLibrary

  /** One key of `byCategory` with its counter. */
  datatype CategoryCount = CategoryCount(category: string, count: nat)

  datatype Stats = Stats(
    byCategory: seq<CategoryCount>,
    withPlaceholders: nat,
    withoutPlaceholders: nat,
    totalCodeLength: nat)

  // ---------------------------------------------------------------------------
  // The association list behind `byCategory`.

  /** The keys of `byCategory`, in insertion order. */
  function Keys(counts: seq<CategoryCount>): (keys: seq<string>)
    ensures |keys| == |counts|
    ensures forall i :: 0 <= i < |counts| ==> keys[i] == counts[i].category
  {
    if counts == [] then [] else [counts[0].category] + Keys(counts[1..])
  }

  /** `byCategory[c] || 0`. */
  function Lookup(counts: seq<CategoryCount>, c: string): (n: nat)
    ensures n > 0 ==> c in Keys(counts)
  {
    if counts == [] then 0
    else if counts[0].category == c then counts[0].count
    else Lookup(counts[1..], c)
  }

  /** `byCategory[c] = (byCategory[c] || 0) + 1`: the counter of an existing key
    * moves in place, a new key is appended with count 1. */
  function Bump(counts: seq<CategoryCount>, c: string): (r: seq<CategoryCount>)
    ensures |r| == |counts| + (if c in Keys(counts) then 0 else 1)
  {
    if counts == [] then [CategoryCount(c, 1)]
    else if counts[0].category == c then [counts[0].(count := counts[0].count + 1)] + counts[1..]
    else
      assert Keys(counts) == [counts[0].category] + Keys(counts[1..]);
      [counts[0]] + Bump(counts[1..], c)
  }

  /** The counters of `byCategory`, added up. */
  function Total(counts: seq<CategoryCount>): nat {
    if counts == [] then 0 else counts[0].count + Total(counts[1..])
  }

  /** Every counter in the list is positive. */
  predicate Positive(counts: seq<CategoryCount>) {
    forall i :: 0 <= i < |counts| ==> counts[i].count > 0
  }

  lemma {:induction false} BumpKeys(counts: seq<CategoryCount>, c: string)
    ensures Keys(Bump(counts, c)) == if c in Keys(counts) then Keys(counts) else Keys(counts) + [c]
  {
    if counts != [] {
      assert Keys(counts) == [counts[0].category] + Keys(counts[1..]);
      if counts[0].category != c {
        BumpKeys(counts[1..], c);
        assert Keys(Bump(counts, c)) == [counts[0].category] + Keys(Bump(counts[1..], c));
      } else {
        assert Keys(Bump(counts, c)) == [c] + Keys(counts[1..]);
      }
    }
  }

  /** Bumping `c` adds one to its counter and leaves every other counter alone. */
  lemma {:induction false} BumpLookup(counts: seq<CategoryCount>, c: string, d: string)
    requires NoDuplicates(Keys(counts))
    ensures Lookup(Bump(counts, c), d) == Lookup(counts, d) + (if c == d then 1 else 0)
  {
    if counts != [] {
      assert Keys(counts) == [counts[0].category] + Keys(counts[1..]);
      if counts[0].category == c {
        if c == d {
          assert Lookup(Bump(counts, c), d) == counts[0].count + 1;
        } else {
          assert Lookup(Bump(counts, c), d) == Lookup(counts[1..], d);
        }
      } else {
        assert NoDuplicates(Keys(counts[1..])) by {
          forall i, j | 0 <= i < j < |counts[1..]|
            ensures Keys(counts[1..])[i] != Keys(counts[1..])[j]
          {
            assert Keys(counts)[i + 1] != Keys(counts)[j + 1];
          }
        }
        BumpLookup(counts[1..], c, d);
      }
    }
  }

  /** Bumping keeps the keys distinct. */
  lemma BumpNoDuplicates(counts: seq<CategoryCount>, c: string)
    requires NoDuplicates(Keys(counts))
    ensures NoDuplicates(Keys(Bump(counts, c)))
  {
    BumpKeys(counts, c);
    var keys := Keys(counts);
    if c !in keys {
      forall i, j | 0 <= i < j < |keys + [c]| ensures (keys + [c])[i] != (keys + [c])[j] {
        if j == |keys| {
          assert (keys + [c])[i] == keys[i];
        }
      }
    }
  }

  /** Bumping adds exactly one to the sum of the counters. */
  lemma {:induction false} BumpTotal(counts: seq<CategoryCount>, c: string)
    ensures Total(Bump(counts, c)) == Total(counts) + 1
  {
    if counts != [] && counts[0].category != c {
      BumpTotal(counts[1..], c);
    }
  }

  /** Bumping keeps every counter positive. */
  lemma {:induction false} BumpPositive(counts: seq<CategoryCount>, c: string)
    requires Positive(counts)
    ensures Positive(Bump(counts, c))
  {
    if counts != [] && counts[0].category != c {
      BumpPositive(counts[1..], c);
      var r := Bump(counts, c);
      forall i | 0 <= i < |r| ensures r[i].count > 0 {
        if i > 0 {
          assert r[i] == Bump(counts[1..], c)[i - 1];
        }
      }
    }
  }

  // ---------------------------------------------------------------------------
  // Specification of generateStats.

  /** `snippet.placeholders && snippet.placeholders.length > 0`. */
  predicate DeclaresPlaceholders(s: SnippetRecord) {
    match s.placeholders
    case Absent => false
    case Array(names) => |names| > 0
    case Scalar(text) => |text| > 0
  }

  /** The statistics after one more record. */
  function Step(st: Stats, s: SnippetRecord): Stats {
    Stats(
      if Truthy(s.category) then Bump(st.byCategory, s.category.value) else st.byCategory,
      st.withPlaceholders + (if DeclaresPlaceholders(s) then 1 else 0),
      st.withoutPlaceholders + (if DeclaresPlaceholders(s) then 0 else 1),
      st.totalCodeLength + (if Truthy(s.code) then |s.code.value| else 0))
  }

  /** The statistics of a list of records, accumulated in input order. */
  function StatsOf(snippets: seq<SnippetRecord>): Stats {
    if snippets == [] then Stats([], 0, 0, 0)
    else Step(StatsOf(snippets[..|snippets| - 1]), snippets[|snippets| - 1])
  }

  // Independent descriptions of what the counters count.

  /** The non-empty categories of the records, in input order, with repeats. */
  function Categorized(snippets: seq<SnippetRecord>): (cats: seq<string>)
    ensures |cats| <= |snippets|
  {
    if snippets == [] then []
    else
      var s := snippets[|snippets| - 1];
      Categorized(snippets[..|snippets| - 1]) + (if Truthy(s.category) then [s.category.value] else [])
  }

  /** The records that declare placeholders. */
  function Declaring(snippets: seq<SnippetRecord>): (r: seq<SnippetRecord>)
    ensures forall s :: s in r <==> s in snippets && DeclaresPlaceholders(s)
  {
    if snippets == [] then []
    else
      var s := snippets[|snippets| - 1];
      Declaring(snippets[..|snippets| - 1]) + (if DeclaresPlaceholders(s) then [s] else [])
  }

  /** The present code fields, concatenated in input order. */
  function AllCode(snippets: seq<SnippetRecord>): string {
    if snippets == [] then ""
    else
      var s := snippets[|snippets| - 1];
      AllCode(snippets[..|snippets| - 1]) + (if Truthy(s.code) then s.code.value else "")
  }

  /** The statistics of one more record of the input. */
  lemma StatsOfStep(snippets: seq<SnippetRecord>, i: nat)
    requires i < |snippets|
    ensures StatsOf(snippets[..i + 1]) == Step(StatsOf(snippets[..i]), snippets[i])
  {
    assert snippets[..i + 1][..i] == snippets[..i];
  }

  // ---------------------------------------------------------------------------
  // generateStats.

  /** The body of the loop of `generateStats`: the updates for one record. */
  method CountRecord(stats: Stats, s: SnippetRecord) returns (stats': Stats)
    ensures stats' == Step(stats, s)
  {
    stats' := stats;
    if Truthy(s.category) {
      stats' := stats'.(byCategory := Bump(stats'.byCategory, s.category.value));
    }
    if DeclaresPlaceholders(s) {
      stats' := stats'.(withPlaceholders := stats'.withPlaceholders + 1);
    } else {
      stats' := stats'.(withoutPlaceholders := stats'.withoutPlaceholders + 1);
    }
    if Truthy(s.code) {
      stats' := stats'.(totalCodeLength := stats'.totalCodeLength + |s.code.value|);
    }
  }

  /** The loop of `generateStats` over the records. */
  method GenerateStats(snippets: seq<SnippetRecord>) returns (stats: Stats)
    ensures stats == StatsOf(snippets)
  {
    stats := Stats([], 0, 0, 0);
    var i := 0;
    while i < |snippets|
      invariant i <= |snippets|
      invariant stats == StatsOf(snippets[..i])
    {
      stats := CountRecord(stats, snippets[i]);
      StatsOfStep(snippets, i);
      i := i + 1;
    }
    assert snippets[..i] == snippets;
  }

  // ---------------------------------------------------------------------------
  // Properties of the statistics.

  /** Every record is counted once, either with or without placeholders, and the
    * records counted with placeholders are exactly those that declare some. */
  lemma {:induction false} PlaceholderSplit(snippets: seq<SnippetRecord>)
    ensures StatsOf(snippets).withPlaceholders + StatsOf(snippets).withoutPlaceholders == |snippets|
    ensures StatsOf(snippets).withPlaceholders == |Declaring(snippets)|
  {
    if snippets != [] {
      PlaceholderSplit(snippets[..|snippets| - 1]);
    }
  }

  /** The keys of `byCategory` are distinct and are
    * exactly the non-empty categories; every counter is positive. */
  lemma {:induction false} ByCategoryKeys(snippets: seq<SnippetRecord>)
    ensures NoDuplicates(Keys(StatsOf(snippets).byCategory))
    ensures forall c :: c in Keys(StatsOf(snippets).byCategory) <==> c in Categorized(snippets)
    ensures Positive(StatsOf(snippets).byCategory)
  {
    if snippets != [] {
      var init := snippets[..|snippets| - 1];
      var s := snippets[|snippets| - 1];
      ByCategoryKeys(init);
      if Truthy(s.category) {
        var counts := StatsOf(init).byCategory;
        BumpKeys(counts, s.category.value);
        BumpNoDuplicates(counts, s.category.value);
        BumpPositive(counts, s.category.value);
      }
    }
  }

  /** The counter of a category is the number of records in it. */
  lemma {:induction false} ByCategoryLookup(snippets: seq<SnippetRecord>, c: string)
    ensures Lookup(StatsOf(snippets).byCategory, c) == multiset(Categorized(snippets))[c]
  {
    if snippets != [] {
      var init := snippets[..|snippets| - 1];
      var s := snippets[|snippets| - 1];
      ByCategoryLookup(init, c);
      if Truthy(s.category) {
        ByCategoryKeys(init);
        BumpLookup(StatsOf(init).byCategory, s.category.value, c);
      }
    }
  }

  /** The `byCategory` counters add up to the number of records with a non-empty
    * category. */
  lemma {:induction false} ByCategoryTotal(snippets: seq<SnippetRecord>)
    ensures Total(StatsOf(snippets).byCategory) == |Categorized(snippets)|
  {
    if snippets != [] {
      var init := snippets[..|snippets| - 1];
      var s := snippets[|snippets| - 1];
      ByCategoryTotal(init);
      if Truthy(s.category) {
        BumpTotal(StatsOf(init).byCategory, s.category.value);
      }
    }
  }

  /** `totalCodeLength` is the length of all present code fields put together. */
  lemma {:induction false} TotalCodeLength(snippets: seq<SnippetRecord>)
    ensures StatsOf(snippets).totalCodeLength == |AllCode(snippets)|
  {
    if snippets != [] {
      TotalCodeLength(snippets[..|snippets| - 1]);
    }
  }
}
