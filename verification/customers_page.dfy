/** The customer directory (src/pages/Customers.tsx): search by name or e-mail
    ignoring case, or by phone number verbatim. */
module CustomersPage {
  import opened Text
  import opened Collections
  import Search

  datatype Customer = Customer(id: string, name: string, email: string, phone: string,
                               totalOrders: int, totalSpent: real, lastPurchase: string, status: string)

  /** Fields compared ignoring ASCII case. */
  function FoldedFields(x: Customer): seq<string> {
    [x.name, x.email]
  }

  /** Fields compared verbatim. */
  function ExactFields(x: Customer): seq<string> {
    [x.phone]
  }

  /** The row test of `handleSearch`. */
  predicate MatchesQuery(x: Customer, query: string) {
    ContainsFolded(x.name, query) || ContainsFolded(x.email, query) || Contains(x.phone, query)
  }

  lemma MatchesIff(x: Customer, query: string)
    ensures Search.Matches(x, query, FoldedFields, ExactFields) <==> MatchesQuery(x, query)
  {
    var f := FoldedFields(x);
    var e := ExactFields(x);
    if ContainsFolded(x.name, query) {
      assert ContainsFolded(f[0], query);
    }
    if ContainsFolded(x.email, query) {
      assert ContainsFolded(f[1], query);
    }
    if Contains(x.phone, query) {
      assert Contains(e[0], query);
    }
  }

  /** The customers shown for `query`. */
  function FilterCustomers(sample: seq<Customer>, query: string): (r: seq<Customer>)
    ensures IsBlank(query) ==> r == sample
    ensures !IsBlank(query) ==> forall x :: x in r <==> (x in sample && MatchesQuery(x, query))
    ensures !IsBlank(query) ==> forall x :: multiset(r)[x] == if MatchesQuery(x, query) then multiset(sample)[x] else 0
    ensures IsSubsequence(r, sample)
  {
    forall x { MatchesIff(x, query); }
    Search.SearchList(sample, query, FoldedFields, ExactFields)
  }

  /** Typing a sequence of queries leaves the list of the last one. */
  lemma LatestQueryDecides(sample: seq<Customer>, page: Search.Page<Customer>, queries: seq<string>)
    requires |queries| > 0
    ensures Search.Replay(sample, page, queries, FoldedFields, ExactFields).shown
      == FilterCustomers(sample, queries[|queries| - 1])
  {
    Search.ReplayShowsLatestQuery(sample, page, queries, FoldedFields, ExactFields);
  }

  /** How a status badge is drawn: green, grey, or the plain secondary style. */
  datatype Tone = Success | Muted | Plain

  datatype Badge = Badge(caption: string, tone: Tone)

  /** `getStatusBadge`: every branch prints the status itself; only the
      colour tells the known statuses apart. */
  function StatusBadge(status: string): (b: Badge)
    ensures b.caption == status
    ensures b.tone == Success <==> status == "Active"
    ensures b.tone == Muted <==> status == "Inactive"
  {
    match status
    case "Active" => Badge("Active", Success)
    case "Inactive" => Badge("Inactive", Muted)
    case _ => Badge(status, Plain)
  }
}
