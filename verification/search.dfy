/** The search box every list page repeats: a query that is blank after
    `trim()` shows the whole sample; any other query shows the sample rows
    with a field containing the query, compared case-insensitively for some
    fields and verbatim for others. The filter always starts again from the
    full sample. */
module Search {
  import opened Text
  import opened Collections

  /** Some case-folded field contains the query ignoring ASCII case, or some
      exact field contains it verbatim. */
  predicate Matches<T>(x: T, query: string, folded: T -> seq<string>, exact: T -> seq<string>) {
    || (exists k :: 0 <= k < |folded(x)| && ContainsFolded(folded(x)[k], query))
    || (exists k :: 0 <= k < |exact(x)| && Contains(exact(x)[k], query))
  }

  /** The rows a page shows for `query`. Matching uses the untrimmed query. */
  function SearchList<T(!new)>(sample: seq<T>, query: string,
                                folded: T -> seq<string>, exact: T -> seq<string>): (r: seq<T>)
    ensures IsBlank(query) ==> r == sample
    ensures !IsBlank(query) ==> forall x :: x in r <==> x in sample && Matches(x, query, folded, exact)
    ensures !IsBlank(query) ==> forall x :: multiset(r)[x] == if Matches(x, query, folded, exact) then multiset(sample)[x] else 0
    ensures IsSubsequence(r, sample)
  {
    TrimEmptyIffBlank(query);
    if Trim(query) == "" then
      SubsequenceReflexive(sample);
      sample
    else
      var p := x => Matches(x, query, folded, exact);
      FilterIsSubsequence(sample, p);
      assert forall x :: multiset(Filter(sample, p))[x] == if p(x) then multiset(sample)[x] else 0 by {
        forall x { FilterCounts(sample, p, x); }
      }
      Filter(sample, p)
  }

  /** What a list page remembers: the text in the box and the rows shown. */
  datatype Page<T> = Page(query: string, shown: seq<T>)

  /** `handleSearch`: the box takes the new text and the rows are recomputed
      from the full sample; the rows shown before play no part. */
  function HandleSearch<T(!new)>(sample: seq<T>, page: Page<T>, query: string,
                                  folded: T -> seq<string>, exact: T -> seq<string>): Page<T> {
    Page(query, SearchList(sample, query, folded, exact))
  }

  /** The page after the user types each of `queries` in turn. */
  function Replay<T(!new)>(sample: seq<T>, page: Page<T>, queries: seq<string>,
                            folded: T -> seq<string>, exact: T -> seq<string>): Page<T>
    decreases |queries|
  {
    if |queries| == 0 then page
    else Replay(sample, HandleSearch(sample, page, queries[0], folded, exact), queries[1..], folded, exact)
  }

  /** Only the latest query decides what is shown. */
  lemma {:induction false} ReplayShowsLatestQuery<T(!new)>(sample: seq<T>, page: Page<T>, queries: seq<string>,
                                                          folded: T -> seq<string>, exact: T -> seq<string>)
    requires |queries| > 0
    ensures Replay(sample, page, queries, folded, exact)
      == Page(queries[|queries| - 1], SearchList(sample, queries[|queries| - 1], folded, exact))
    decreases |queries|
  {
    if |queries| > 1 {
      ReplayShowsLatestQuery(sample, HandleSearch(sample, page, queries[0], folded, exact), queries[1..], folded, exact);
    }
  }
}
