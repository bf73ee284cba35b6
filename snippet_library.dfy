/**
 * The read-only snippet catalog: queries over a fixed sequence of snippet
 * records and a fixed sequence of category records. Nothing is mutated; every
 * query is a function of the catalog and its arguments.
 */
module SnippetLibrary {
  import opened Wrappers
  import opened Text

  datatype Snippet = Snippet(
    id: string,
    category: string,
    labelText: string,
    description: string,
    code: string,
    placeholders: seq<string>,
    example: string)

  datatype Category = Category(id: string, labelText: string, description: string)

  /** Every snippet id occurs at most once in the catalog. */
  predicate UniqueIds(snippets: seq<Snippet>) {
    forall i, j :: 0 <= i < j < |snippets| ==> snippets[i].id != snippets[j].id
  }

  /** `getAll`: the whole catalog, in catalog order. */
  function GetAll(snippets: seq<Snippet>): seq<Snippet> {
    snippets
  }

  /** `getByCategory`: the snippets of one category, in catalog order. */
  function GetByCategory(snippets: seq<Snippet>, category: string): (r: seq<Snippet>)
    ensures forall s :: s in r <==> s in snippets && s.category == category
    ensures |r| <= |snippets|
  {
    if snippets == [] then []
    else if snippets[0].category == category then [snippets[0]] + GetByCategory(snippets[1..], category)
    else GetByCategory(snippets[1..], category)
  }

  /** `getByCategory` keeps catalog order: it distributes over concatenation. */
  lemma {:induction false} GetByCategoryAppend(a: seq<Snippet>, b: seq<Snippet>, category: string)
    ensures GetByCategory(a + b, category) == GetByCategory(a, category) + GetByCategory(b, category)
  {
    if a == [] {
      assert a + b == b;
    } else {
      assert (a + b)[0] == a[0] && (a + b)[1..] == a[1..] + b;
      GetByCategoryAppend(a[1..], b, category);
    }
  }

  /** `getById`: the first snippet carrying `id`, or null when there is none. */
  function GetById(snippets: seq<Snippet>, id: string): (r: Option<Snippet>)
    ensures r.Some? ==> r.value in snippets && r.value.id == id
    ensures r.None? <==> forall s :: s in snippets ==> s.id != id
  {
    if snippets == [] then None
    else if snippets[0].id == id then Some(snippets[0])
    else GetById(snippets[1..], id)
  }

  /** The search term matches a snippet when it occurs, ignoring ASCII case,
    * in the label, the description or the id. */
  predicate Matches(s: Snippet, term: string) {
    var t := Lower(term);
    Contains(Lower(s.labelText), t) || Contains(Lower(s.description), t) || Contains(Lower(s.id), t)
  }

  /** `search`: the matching snippets, in catalog order. */
  function Search(snippets: seq<Snippet>, term: string): (r: seq<Snippet>)
    ensures forall s :: s in r <==> s in snippets && Matches(s, term)
    ensures |r| <= |snippets|
  {
    if snippets == [] then []
    else if Matches(snippets[0], term) then [snippets[0]] + Search(snippets[1..], term)
    else Search(snippets[1..], term)
  }

  /** `getCategories`: the category records, in their declared order. */
  function GetCategories(categories: seq<Category>): seq<Category> {
    categories
  }

  /** `getCategoryById`: the first category carrying `id`, or null. */
  function GetCategoryById(categories: seq<Category>, id: string): (r: Option<Category>)
    ensures r.Some? ==> r.value in categories && r.value.id == id
    ensures r.None? <==> forall c :: c in categories ==> c.id != id
  {
    if categories == [] then None
    else if categories[0].id == id then Some(categories[0])
    else GetCategoryById(categories[1..], id)
  }

  /** The categories that at least one snippet belongs to. */
  function UsedCategories(snippets: seq<Snippet>): (cats: set<string>)
    ensures forall c :: c in cats <==> exists s :: s in snippets && s.category == c
  {
    set s | s in snippets :: s.category
  }

  /** `getStats`: for every populated category, the number of its snippets. */
  function GetStats(snippets: seq<Snippet>): (stats: map<string, nat>)
    ensures forall c :: c in stats <==> exists s :: s in snippets && s.category == c
    ensures forall c :: c in stats ==> stats[c] == |GetByCategory(snippets, c)| && stats[c] > 0
  {
    map c | c in UsedCategories(snippets) :: |GetByCategory(snippets, c)|
  }

  /** `getPopular`: at most `limit` snippets drawn from the catalog. */
  function GetPopular(snippets: seq<Snippet>, limit: nat): (r: seq<Snippet>)
    ensures |r| <= limit && |r| <= |snippets|
    ensures |r| == limit || |r| == |snippets|
    ensures forall s :: s in r ==> s in snippets
  {
    if limit < |snippets| then snippets[..limit] else snippets
  }

  // Lemmas relating the queries to one another.

  /** Every catalog entry is returned by the category query of its own category. */
  lemma GetAllIsUnionOfCategories(snippets: seq<Snippet>)
    ensures forall s :: s in GetAll(snippets) <==> s in GetByCategory(snippets, s.category)
  {
  }

  /** Number of catalog entries whose category is `category`. */
  function CountCategory(snippets: seq<Snippet>, category: string): (n: nat)
    ensures n <= |snippets|
  {
    if snippets == [] then 0
    else (if snippets[0].category == category then 1 else 0) + CountCategory(snippets[1..], category)
  }

  /** The size of a category view is the number of entries of that category. */
  lemma {:induction false} GetByCategorySize(snippets: seq<Snippet>, category: string)
    ensures |GetByCategory(snippets, category)| == CountCategory(snippets, category)
  {
    if snippets != [] {
      GetByCategorySize(snippets[1..], category);
    }
  }

  /** The per-category counts of a list of categories, added up. */
  function SumCounts(snippets: seq<Snippet>, categories: seq<string>): nat {
    if categories == [] then 0
    else CountCategory(snippets, categories[0]) + SumCounts(snippets, categories[1..])
  }

  lemma {:induction false} SumCountsEmpty(categories: seq<string>)
    ensures SumCounts([], categories) == 0
  {
    if categories != [] {
      SumCountsEmpty(categories[1..]);
    }
  }

  /** Dropping the first entry lowers the count of exactly its own category. */
  lemma {:induction false} SumCountsStep(snippets: seq<Snippet>, categories: seq<string>)
    requires snippets != [] && NoDuplicates(categories)
    ensures SumCounts(snippets, categories)
         == SumCounts(snippets[1..], categories) + (if snippets[0].category in categories then 1 else 0)
  {
    if categories != [] {
      assert NoDuplicates(categories[1..]) by {
        forall i, j | 0 <= i < j < |categories[1..]| ensures categories[1..][i] != categories[1..][j] {
          assert categories[1..][i] == categories[i + 1] && categories[1..][j] == categories[j + 1];
        }
      }
      assert categories[0] !in categories[1..] by {
        forall j | 0 <= j < |categories[1..]| ensures categories[1..][j] != categories[0] {
          assert categories[1..][j] == categories[j + 1];
        }
      }
      SumCountsStep(snippets, categories[1..]);
      assert snippets[0].category in categories <==>
             snippets[0].category == categories[0] || snippets[0].category in categories[1..];
    }
  }

  /** The category counts of `getStats` add up to the size of the catalog, when
    * every entry's category is listed once. */
  lemma {:induction false} CategoryCountsSumToTotal(snippets: seq<Snippet>, categories: seq<string>)
    requires NoDuplicates(categories)
    requires forall s :: s in snippets ==> s.category in categories
    ensures SumCounts(snippets, categories) == |snippets|
  {
    if snippets == [] {
      SumCountsEmpty(categories);
    } else {
      assert snippets[0] in snippets;
      SumCountsStep(snippets, categories);
      CategoryCountsSumToTotal(snippets[1..], categories);
    }
  }

  /** With unique ids, looking a catalog entry up by its id returns that entry. */
  lemma {:induction false} GetByIdRoundTrip(snippets: seq<Snippet>, k: nat)
    requires UniqueIds(snippets) && k < |snippets|
    ensures GetById(snippets, snippets[k].id) == Some(snippets[k])
  {
    if k > 0 {
      assert snippets[0].id != snippets[k].id;
      GetByIdRoundTrip(snippets[1..], k - 1);
    }
  }

  /** `getById` returns the first entry with the id: nothing before it carries the id. */
  lemma {:induction false} GetByIdIsFirst(snippets: seq<Snippet>, id: string)
    requires GetById(snippets, id).Some?
    ensures exists k :: 0 <= k < |snippets| && snippets[k] == GetById(snippets, id).value
                        && forall j :: 0 <= j < k ==> snippets[j].id != id
  {
    if snippets[0].id != id {
      GetByIdIsFirst(snippets[1..], id);
      var k :| 0 <= k < |snippets[1..]| && snippets[1..][k] == GetById(snippets[1..], id).value
               && forall j :: 0 <= j < k ==> snippets[1..][j].id != id;
      assert snippets[k + 1] == GetById(snippets, id).value;
    } else {
      assert snippets[0] == GetById(snippets, id).value;
    }
  }

  /** The empty search term matches every snippet: `search('')` is `getAll()`. */
  lemma {:induction false} SearchEmptyMatchesAll(snippets: seq<Snippet>)
    ensures Search(snippets, "") == GetAll(snippets)
  {
    if snippets != [] {
      var s := snippets[0];
      assert Lower("") == "";
      ContainsEmpty(Lower(s.labelText));
      SearchEmptyMatchesAll(snippets[1..]);
      assert snippets == [s] + snippets[1..];
    }
  }

  lemma LowerIdempotent(s: string)
    ensures Lower(Lower(s)) == Lower(s)
  {
  }

  /** Search ignores the case of the term. */
  lemma {:induction false} SearchIgnoresTermCase(snippets: seq<Snippet>, term: string)
    ensures Search(snippets, Lower(term)) == Search(snippets, term)
  {
    LowerIdempotent(term);
    if snippets != [] {
      SearchIgnoresTermCase(snippets[1..], term);
    }
  }

  /** With unique ids, a category lookup result and the category query agree. */
  lemma {:induction false} GetCategoryByIdRoundTrip(categories: seq<Category>, k: nat)
    requires k < |categories|
    requires forall i, j :: 0 <= i < j < |categories| ==> categories[i].id != categories[j].id
    ensures GetCategoryById(categories, categories[k].id) == Some(categories[k])
  {
    if k > 0 {
      assert categories[0].id != categories[k].id;
      GetCategoryByIdRoundTrip(categories[1..], k - 1);
    }
  }

  /** The popular list is a prefix of the catalog, and asking for more never drops any. */
  lemma GetPopularMonotone(snippets: seq<Snippet>, m: nat, n: nat)
    requires m <= n
    ensures GetPopular(snippets, m) <= GetPopular(snippets, n)
    ensures GetPopular(snippets, n) <= GetAll(snippets)
  {
  }
}
