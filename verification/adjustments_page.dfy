/** The stock adjustment list (src/pages/inventory/InventoryAdjustments.tsx):
    search by reference, reason or the person who made the adjustment. */
module AdjustmentsPage {
  import opened Text
  import opened Collections
  import Search

  datatype Adjustment = Adjustment(id: string, reference: string, date: string, reason: string,
                                   items: int, adjustedBy: string, status: string)

  /** Fields compared ignoring ASCII case. */
  function FoldedFields(x: Adjustment): seq<string> {
    [x.reference, x.reason, x.adjustedBy]
  }

  /** Fields compared verbatim. */
  function ExactFields(x: Adjustment): seq<string> {
    []
  }

  /** The row test of `handleSearch`. */
  predicate MatchesQuery(x: Adjustment, query: string) {
    ContainsFolded(x.reference, query) || ContainsFolded(x.reason, query) || ContainsFolded(x.adjustedBy, query)
  }

  lemma MatchesIff(x: Adjustment, query: string)
    ensures Search.Matches(x, query, FoldedFields, ExactFields) <==> MatchesQuery(x, query)
  {
    var f := FoldedFields(x);
    if ContainsFolded(x.reference, query) {
      assert ContainsFolded(f[0], query);
    }
    if ContainsFolded(x.reason, query) {
      assert ContainsFolded(f[1], query);
    }
    if ContainsFolded(x.adjustedBy, query) {
      assert ContainsFolded(f[2], query);
    }
  }

  /** The adjustments shown for `query`. */
  function FilterAdjustments(sample: seq<Adjustment>, query: string): (r: seq<Adjustment>)
    ensures IsBlank(query) ==> r == sample
    ensures !IsBlank(query) ==> forall x :: x in r <==> (x in sample && MatchesQuery(x, query))
    ensures !IsBlank(query) ==> forall x :: multiset(r)[x] == if MatchesQuery(x, query) then multiset(sample)[x] else 0
    ensures IsSubsequence(r, sample)
  {
    forall x { MatchesIff(x, query); }
    Search.SearchList(sample, query, FoldedFields, ExactFields)
  }

  /** Typing a sequence of queries leaves the list of the last one. */
  lemma LatestQueryDecides(sample: seq<Adjustment>, page: Search.Page<Adjustment>, queries: seq<string>)
    requires |queries| > 0
    ensures Search.Replay(sample, page, queries, FoldedFields, ExactFields).shown
      == FilterAdjustments(sample, queries[|queries| - 1])
  {
    Search.ReplayShowsLatestQuery(sample, page, queries, FoldedFields, ExactFields);
  }

  /** How a status badge is drawn. */
  datatype Tone = Success | Warning | Destructive | Plain

  datatype Badge = Badge(caption: string, tone: Tone)

  /** `getStatusBadge`: every branch prints the status itself; each of the
      three known statuses has its own colour and anything else is plain. */
  function StatusBadge(status: string): (b: Badge)
    ensures b.caption == status
    ensures b.tone == Success <==> status == "Completed"
    ensures b.tone == Warning <==> status == "Draft"
    ensures b.tone == Destructive <==> status == "Cancelled"
  {
    match status
    case "Completed" => Badge("Completed", Success)
    case "Draft" => Badge("Draft", Warning)
    case "Cancelled" => Badge("Cancelled", Destructive)
    case _ => Badge(status, Plain)
  }
}
