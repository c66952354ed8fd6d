/** The invoice list (src/pages/Billing.tsx): search by invoice number or
    customer name. */
module BillingPage {
  import opened Text
  import opened Collections
  import Search

  datatype InvoiceStatus = Paid | Pending | Overdue | Draft

  datatype Invoice = Invoice(id: string, invoiceNumber: string, customer: string,
                             date: string, dueDate: string, amount: real, status: InvoiceStatus)

  /** Fields compared ignoring ASCII case. */
  function FoldedFields(x: Invoice): seq<string> {
    [x.invoiceNumber, x.customer]
  }

  /** Fields compared verbatim. */
  function ExactFields(x: Invoice): seq<string> {
    []
  }

  /** The row test of `handleSearch`. */
  predicate MatchesQuery(x: Invoice, query: string) {
    ContainsFolded(x.invoiceNumber, query) || ContainsFolded(x.customer, query)
  }

  lemma MatchesIff(x: Invoice, query: string)
    ensures Search.Matches(x, query, FoldedFields, ExactFields) <==> MatchesQuery(x, query)
  {
    var f := FoldedFields(x);
    if ContainsFolded(x.invoiceNumber, query) {
      assert ContainsFolded(f[0], query);
    }
    if ContainsFolded(x.customer, query) {
      assert ContainsFolded(f[1], query);
    }
  }

  /** The invoices shown for `query`. */
  function FilterInvoices(sample: seq<Invoice>, query: string): (r: seq<Invoice>)
    ensures IsBlank(query) ==> r == sample
    ensures !IsBlank(query) ==> forall x :: x in r <==> (x in sample && MatchesQuery(x, query))
    ensures !IsBlank(query) ==> forall x :: multiset(r)[x] == if MatchesQuery(x, query) then multiset(sample)[x] else 0
    ensures IsSubsequence(r, sample)
  {
    forall x { MatchesIff(x, query); }
    Search.SearchList(sample, query, FoldedFields, ExactFields)
  }

  /** Typing a sequence of queries leaves the list of the last one. */
  lemma LatestQueryDecides(sample: seq<Invoice>, page: Search.Page<Invoice>, queries: seq<string>)
    requires |queries| > 0
    ensures Search.Replay(sample, page, queries, FoldedFields, ExactFields).shown
      == FilterInvoices(sample, queries[|queries| - 1])
  {
    Search.ReplayShowsLatestQuery(sample, page, queries, FoldedFields, ExactFields);
  }
}
