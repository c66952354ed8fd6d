/** The stock list (src/pages/Inventory.tsx): search by item name or category. */
module InventoryPage {
  import opened Text
  import opened Collections
  import Search

  datatype StockStatus = InStock | LowStock | OutOfStock

  datatype InventoryItem = InventoryItem(id: string, name: string, category: string,
                                         price: real, stock: int, status: StockStatus)

  /** Fields compared ignoring ASCII case. */
  function FoldedFields(x: InventoryItem): seq<string> {
    [x.name, x.category]
  }

  /** Fields compared verbatim. */
  function ExactFields(x: InventoryItem): seq<string> {
    []
  }

  /** The row test of `handleSearch`. */
  predicate MatchesQuery(x: InventoryItem, query: string) {
    ContainsFolded(x.name, query) || ContainsFolded(x.category, query)
  }

  lemma MatchesIff(x: InventoryItem, query: string)
    ensures Search.Matches(x, query, FoldedFields, ExactFields) <==> MatchesQuery(x, query)
  {
    var f := FoldedFields(x);
    if ContainsFolded(x.name, query) {
      assert ContainsFolded(f[0], query);
    }
    if ContainsFolded(x.category, query) {
      assert ContainsFolded(f[1], query);
    }
  }

  /** The items shown for `query`. */
  function FilterInventory(sample: seq<InventoryItem>, query: string): (r: seq<InventoryItem>)
    ensures IsBlank(query) ==> r == sample
    ensures !IsBlank(query) ==> forall x :: x in r <==> (x in sample && MatchesQuery(x, query))
    ensures !IsBlank(query) ==> forall x :: multiset(r)[x] == if MatchesQuery(x, query) then multiset(sample)[x] else 0
    ensures IsSubsequence(r, sample)
  {
    forall x { MatchesIff(x, query); }
    Search.SearchList(sample, query, FoldedFields, ExactFields)
  }

  /** Typing a sequence of queries leaves the list of the last one. */
  lemma LatestQueryDecides(sample: seq<InventoryItem>, page: Search.Page<InventoryItem>, queries: seq<string>)
    requires |queries| > 0
    ensures Search.Replay(sample, page, queries, FoldedFields, ExactFields).shown
      == FilterInventory(sample, queries[|queries| - 1])
  {
    Search.ReplayShowsLatestQuery(sample, page, queries, FoldedFields, ExactFields);
  }
}
