/** The summary cards above the employee table
    (src/components/employees/EmployeeStats.tsx): the head count per
    department, the number of departments, and the number of active
    employees. */
module EmployeeStats {
  import opened Collections
  import opened EmployeeTypes

  /** One entry of `departmentCounts`. */
  datatype Tally = Tally(department: string, count: nat)

  function Keys(t: seq<Tally>): (ks: seq<string>)
    ensures |ks| == |t|
    ensures forall i :: 0 <= i < |t| ==> ks[i] == t[i].department
  {
    if |t| == 0 then [] else [t[0].department] + Keys(t[1..])
  }

  /** `counts[d]`, read as 0 when absent (`|| 0`). */
  function CountOf(t: seq<Tally>, d: string): nat {
    if |t| == 0 then 0
    else if t[0].department == d then t[0].count
    else CountOf(t[1..], d)
  }

  function Total(t: seq<Tally>): nat {
    if |t| == 0 then 0 else t[0].count + Total(t[1..])
  }

  /** How many employees work in `d`. */
  function Occurrences(employees: seq<Employee>, d: string): nat {
    if |employees| == 0 then 0
    else (if employees[0].department == d then 1 else 0) + Occurrences(employees[1..], d)
  }

  /** Some employee works in `d`. */
  predicate HasDepartment(employees: seq<Employee>, d: string) {
    exists i :: 0 <= i < |employees| && employees[i].department == d
  }

  predicate WellFormed(t: seq<Tally>) {
    NoDuplicates(Keys(t)) && forall k :: 0 <= k < |t| ==> t[k].count >= 1
  }

  /** `counts[d] = (counts[d] || 0) + 1`: a known department gets one more, a
      new one is added after the others with a count of one. */
  function Bump(t: seq<Tally>, d: string): seq<Tally> {
    if |t| == 0 then [Tally(d, 1)]
    else if t[0].department == d then [Tally(d, t[0].count + 1)] + t[1..]
    else [t[0]] + Bump(t[1..], d)
  }

  /** Bumping keeps the department order: the keys are unchanged, or `d` is
      appended after them. */
  lemma {:induction false} BumpKeys(t: seq<Tally>, d: string)
    ensures Keys(Bump(t, d)) == if d in Keys(t) then Keys(t) else Keys(t) + [d]
  {
    if |t| > 0 {
      assert Keys(t) == [t[0].department] + Keys(t[1..]);
      if t[0].department != d {
        BumpKeys(t[1..], d);
        assert Keys(Bump(t, d)) == [t[0].department] + Keys(Bump(t[1..], d));
        assert d in Keys(t) <==> d in Keys(t[1..]);
      } else {
        assert Keys(Bump(t, d)) == [d] + Keys(t[1..]);
      }
    }
  }

  /** Bumping `d` adds one to the count of `d` and leaves every other count
      as it was. */
  lemma {:induction false} BumpCounts(t: seq<Tally>, d: string)
    ensures CountOf(Bump(t, d), d) == CountOf(t, d) + 1
    ensures forall e :: e != d ==> CountOf(Bump(t, d), e) == CountOf(t, e)
  {
    if |t| > 0 && t[0].department != d {
      BumpCounts(t[1..], d);
    }
  }

  lemma {:induction false} BumpTotal(t: seq<Tally>, d: string)
    ensures Total(Bump(t, d)) == Total(t) + 1
  {
    if |t| > 0 && t[0].department != d {
      BumpTotal(t[1..], d);
    }
  }

  /** Bumping keeps one tally per department, each at least one. */
  lemma {:induction false} BumpWellFormed(t: seq<Tally>, d: string)
    requires WellFormed(t)
    ensures WellFormed(Bump(t, d))
  {
    BumpKeys(t, d);
    BumpCountsPositive(t, d);
  }

  lemma {:induction false} BumpCountsPositive(t: seq<Tally>, d: string)
    requires forall k :: 0 <= k < |t| ==> t[k].count >= 1
    ensures forall k :: 0 <= k < |Bump(t, d)| ==> Bump(t, d)[k].count >= 1
  {
    if |t| > 0 && t[0].department != d {
      BumpCountsPositive(t[1..], d);
    }
  }

  /** The `reduce` over the employees, from an accumulator. */
  function Reduce(acc: seq<Tally>, employees: seq<Employee>): (r: seq<Tally>)
    requires WellFormed(acc)
    ensures WellFormed(r)
    ensures forall d :: CountOf(r, d) == CountOf(acc, d) + Occurrences(employees, d)
    ensures forall d :: d in Keys(r) <==> d in Keys(acc) || HasDepartment(employees, d)
    ensures Total(r) == Total(acc) + |employees|
    decreases |employees|
  {
    if |employees| == 0 then acc
    else
      var d0 := employees[0].department;
      BumpWellFormed(acc, d0);
      BumpCounts(acc, d0);
      BumpTotal(acc, d0);
      BumpKeys(acc, d0);
      var r := Reduce(Bump(acc, d0), employees[1..]);
      forall d | HasDepartment(employees, d)
        ensures d == employees[0].department || HasDepartment(employees[1..], d)
      {
        var i :| 0 <= i < |employees| && employees[i].department == d;
        if i > 0 {
          assert employees[1..][i - 1].department == d;
        }
      }
      forall d | HasDepartment(employees[1..], d) ensures HasDepartment(employees, d) {
        var i :| 0 <= i < |employees[1..]| && employees[1..][i].department == d;
        assert employees[i + 1].department == d;
      }
      r
  }

  /** `departmentCounts`: one entry per department, holding its head count. */
  function DepartmentCounts(employees: seq<Employee>): (t: seq<Tally>)
    ensures NoDuplicates(Keys(t))
    ensures forall k :: 0 <= k < |t| ==> t[k].count >= 1
    ensures forall d :: CountOf(t, d) == Occurrences(employees, d)
    ensures forall d :: d in Keys(t) <==> HasDepartment(employees, d)
    ensures Total(t) == |employees|
  {
    Reduce([], employees)
  }

  /** The Departments card: as many departments as distinct department
      names among the employees. */
  lemma DepartmentsShown(employees: seq<Employee>)
    ensures |DepartmentCounts(employees)| == |set i | 0 <= i < |employees| :: employees[i].department|
  {
    var t := DepartmentCounts(employees);
    NoDuplicatesCardinality(Keys(t));
    assert (set x | x in Keys(t)) == (set i | 0 <= i < |employees| :: employees[i].department) by {
      forall x | x in Keys(t) ensures x in (set i | 0 <= i < |employees| :: employees[i].department) {
        var i :| 0 <= i < |employees| && employees[i].department == x;
      }
    }
  }

  /** `activeEmployees`: the length of the active-only filter. */
  function ActiveEmployees(employees: seq<Employee>): (n: nat)
    ensures n <= |employees|
    ensures n == CountWhere(employees, (e: Employee) => e.status == Active)
    ensures n == |employees| <==> forall i :: 0 <= i < |employees| ==> employees[i].status == Active
  {
    var p := (e: Employee) => e.status == Active;
    CountIsFilterLength(employees, p);
    |Filter(employees, p)|
  }
}
