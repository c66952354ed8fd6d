/** The employee directory (src/pages/Employees.tsx): search by name, e-mail,
    role or department. */
module EmployeesPage {
  import opened Text
  import opened Collections
  import Search

  datatype Status = Active | OnLeave | Inactive

  datatype Employee = Employee(id: string, name: string, email: string, phone: string,
                               role: string, department: string, joinDate: string, status: Status)

  /** Fields compared ignoring ASCII case. */
  function FoldedFields(x: Employee): seq<string> {
    [x.name, x.email, x.role, x.department]
  }

  /** Fields compared verbatim. */
  function ExactFields(x: Employee): seq<string> {
    []
  }

  /** The row test of `handleSearch`. */
  predicate MatchesQuery(x: Employee, query: string) {
    ContainsFolded(x.name, query) || ContainsFolded(x.email, query) || ContainsFolded(x.role, query) || ContainsFolded(x.department, query)
  }

  lemma MatchesIff(x: Employee, query: string)
    ensures Search.Matches(x, query, FoldedFields, ExactFields) <==> MatchesQuery(x, query)
  {
    var f := FoldedFields(x);
    if ContainsFolded(x.name, query) {
      assert ContainsFolded(f[0], query);
    }
    if ContainsFolded(x.email, query) {
      assert ContainsFolded(f[1], query);
    }
    if ContainsFolded(x.role, query) {
      assert ContainsFolded(f[2], query);
    }
    if ContainsFolded(x.department, query) {
      assert ContainsFolded(f[3], query);
    }
  }

  /** The employees shown for `query`. */
  function FilterEmployees(sample: seq<Employee>, query: string): (r: seq<Employee>)
    ensures IsBlank(query) ==> r == sample
    ensures !IsBlank(query) ==> forall x :: x in r <==> (x in sample && MatchesQuery(x, query))
    ensures !IsBlank(query) ==> forall x :: multiset(r)[x] == if MatchesQuery(x, query) then multiset(sample)[x] else 0
    ensures IsSubsequence(r, sample)
  {
    forall x { MatchesIff(x, query); }
    Search.SearchList(sample, query, FoldedFields, ExactFields)
  }

  /** Typing a sequence of queries leaves the list of the last one. */
  lemma LatestQueryDecides(sample: seq<Employee>, page: Search.Page<Employee>, queries: seq<string>)
    requires |queries| > 0
    ensures Search.Replay(sample, page, queries, FoldedFields, ExactFields).shown
      == FilterEmployees(sample, queries[|queries| - 1])
  {
    Search.ReplayShowsLatestQuery(sample, page, queries, FoldedFields, ExactFields);
  }
}
