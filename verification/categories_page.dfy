/** The inventory category list (src/pages/inventory/InventoryCategories.tsx):
    search by name or description. */
module CategoriesPage {
  import opened Text
  import opened Collections
  import Search

  datatype Category = Category(id: string, name: string, description: string,
                               itemCount: int, createdAt: string)

  /** Fields compared ignoring ASCII case. */
  function FoldedFields(x: Category): seq<string> {
    [x.name, x.description]
  }

  /** Fields compared verbatim. */
  function ExactFields(x: Category): seq<string> {
    []
  }

  /** The row test of `handleSearch`. */
  predicate MatchesQuery(x: Category, query: string) {
    ContainsFolded(x.name, query) || ContainsFolded(x.description, query)
  }

  lemma MatchesIff(x: Category, query: string)
    ensures Search.Matches(x, query, FoldedFields, ExactFields) <==> MatchesQuery(x, query)
  {
    var f := FoldedFields(x);
    if ContainsFolded(x.name, query) {
      assert ContainsFolded(f[0], query);
    }
    if ContainsFolded(x.description, query) {
      assert ContainsFolded(f[1], query);
    }
  }

  /** The categories shown for `query`. */
  function FilterCategories(sample: seq<Category>, query: string): (r: seq<Category>)
    ensures IsBlank(query) ==> r == sample
    ensures !IsBlank(query) ==> forall x :: x in r <==> (x in sample && MatchesQuery(x, query))
    ensures !IsBlank(query) ==> forall x :: multiset(r)[x] == if MatchesQuery(x, query) then multiset(sample)[x] else 0
    ensures IsSubsequence(r, sample)
  {
    forall x { MatchesIff(x, query); }
    Search.SearchList(sample, query, FoldedFields, ExactFields)
  }

  /** Typing a sequence of queries leaves the list of the last one. */
  lemma LatestQueryDecides(sample: seq<Category>, page: Search.Page<Category>, queries: seq<string>)
    requires |queries| > 0
    ensures Search.Replay(sample, page, queries, FoldedFields, ExactFields).shown
      == FilterCategories(sample, queries[|queries| - 1])
  {
    Search.ReplayShowsLatestQuery(sample, page, queries, FoldedFields, ExactFields);
  }
}
