/** The sales list (src/pages/Sales.tsx): search by order number or customer. */
module SalesPage {
  import opened Text
  import opened Collections
  import Search

  datatype Sale = Sale(id: string, orderNumber: string, customer: string, date: string,
                       amount: real, items: int, status: string)

  /** Fields compared ignoring ASCII case. */
  function FoldedFields(x: Sale): seq<string> {
    [x.orderNumber, x.customer]
  }

  /** Fields compared verbatim. */
  function ExactFields(x: Sale): seq<string> {
    []
  }

  /** The row test of `handleSearch`. */
  predicate MatchesQuery(x: Sale, query: string) {
    ContainsFolded(x.orderNumber, query) || ContainsFolded(x.customer, query)
  }

  lemma MatchesIff(x: Sale, query: string)
    ensures Search.Matches(x, query, FoldedFields, ExactFields) <==> MatchesQuery(x, query)
  {
    var f := FoldedFields(x);
    if ContainsFolded(x.orderNumber, query) {
      assert ContainsFolded(f[0], query);
    }
    if ContainsFolded(x.customer, query) {
      assert ContainsFolded(f[1], query);
    }
  }

  /** The sales shown for `query`. */
  function FilterSales(sample: seq<Sale>, query: string): (r: seq<Sale>)
    ensures IsBlank(query) ==> r == sample
    ensures !IsBlank(query) ==> forall x :: x in r <==> (x in sample && MatchesQuery(x, query))
    ensures !IsBlank(query) ==> forall x :: multiset(r)[x] == if MatchesQuery(x, query) then multiset(sample)[x] else 0
    ensures IsSubsequence(r, sample)
  {
    forall x { MatchesIff(x, query); }
    Search.SearchList(sample, query, FoldedFields, ExactFields)
  }

  /** Typing a sequence of queries leaves the list of the last one. */
  lemma LatestQueryDecides(sample: seq<Sale>, page: Search.Page<Sale>, queries: seq<string>)
    requires |queries| > 0
    ensures Search.Replay(sample, page, queries, FoldedFields, ExactFields).shown
      == FilterSales(sample, queries[|queries| - 1])
  {
    Search.ReplayShowsLatestQuery(sample, page, queries, FoldedFields, ExactFields);
  }
}
