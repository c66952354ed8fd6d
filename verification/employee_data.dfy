/** The employee store (src/data/employeeData.ts): lookup by id, the upsert
    of today's attendance, and the prepend of a payment. The source mutates a
    module-level array in place and hands back a shallow copy; here each
    mutator maps the old collection to the new one and also returns the copy.
    The clock is a parameter: `today` is the current day and `now` the
    current 'HH:mm' time. */
module EmployeeData {
  import opened Wrappers
  import opened EmployeeTypes

  /** Position of the first employee with this id (`Array.prototype.find`). */
  function IndexOfId(employees: seq<Employee>, id: string): (r: Option<nat>)
    ensures r.None? <==> forall i :: 0 <= i < |employees| ==> employees[i].id != id
    ensures r.Some? ==> r.value < |employees| && employees[r.value].id == id
    ensures r.Some? ==> forall j :: 0 <= j < r.value ==> employees[j].id != id
  {
    if |employees| == 0 then None
    else if employees[0].id == id then Some(0)
    else match IndexOfId(employees[1..], id)
      case None => None
      case Some(k) => Some(k + 1)
  }

  /** `getEmployeeById`: the first employee whose id matches, or none. */
  function GetEmployeeById(employees: seq<Employee>, id: string): (r: Option<Employee>)
    ensures r.None? <==> forall i :: 0 <= i < |employees| ==> employees[i].id != id
    ensures r.Some? ==> r.value.id == id
    ensures r.Some? ==> exists i :: 0 <= i < |employees| && employees[i] == r.value
                                 && (forall j :: 0 <= j < i ==> employees[j].id != id)
  {
    match IndexOfId(employees, id)
    case None => None
    case Some(i) => Some(employees[i])
  }

  /** Position of the first attendance record for `day`. */
  function IndexOfDate(records: seq<AttendanceRecord>, day: Day): (r: Option<nat>)
    ensures r.None? <==> forall i :: 0 <= i < |records| ==> records[i].date != day
    ensures r.Some? ==> r.value < |records| && records[r.value].date == day
    ensures r.Some? ==> forall j :: 0 <= j < r.value ==> records[j].date != day
  {
    if |records| == 0 then None
    else if records[0].date == day then Some(0)
    else match IndexOfDate(records[1..], day)
      case None => None
      case Some(k) => Some(k + 1)
  }

  /** `!record.checkInTime`: no check-in, or an empty one. */
  predicate LacksCheckIn(r: AttendanceRecord) {
    r.checkInTime.None? || r.checkInTime.value == ""
  }

  /** The attendance list of one employee after today's upsert. */
  function UpsertToday(records: seq<AttendanceRecord>, today: Day, status: AttendanceStatus,
                       note: Option<string>, now: string): (r: seq<AttendanceRecord>)
    // A record for today exists: it is rewritten where it stands.
    ensures IndexOfDate(records, today).Some? ==>
      var k := IndexOfDate(records, today).value;
      && |r| == |records|
      && (forall i :: 0 <= i < |r| && i != k ==> r[i] == records[i])
      && r[k].date == today && r[k].status == status && r[k].note == note
      && r[k].checkOutTime == records[k].checkOutTime
      && (!LacksCheckIn(records[k]) ==> r[k].checkInTime == records[k].checkInTime)
      && (status == Absent ==> r[k].checkInTime == records[k].checkInTime)
      && (status != Absent && LacksCheckIn(records[k]) ==> r[k].checkInTime == Some(now))
    // No record for today: a new one goes in front of the old ones.
    ensures IndexOfDate(records, today).None? ==>
      && |r| == |records| + 1 && r[1..] == records
      && r[0].date == today && r[0].status == status && r[0].note == note
      && r[0].checkOutTime.None?
      && (r[0].checkInTime.Some? <==> status != Absent)
      && (r[0].checkInTime.Some? ==> r[0].checkInTime.value == now)
  {
    match IndexOfDate(records, today)
    case Some(k) =>
      var prev := records[k];
      var checkIn := if status != Absent && LacksCheckIn(prev) then Some(now) else prev.checkInTime;
      records[k := prev.(status := status, note := note, checkInTime := checkIn)]
    case None =>
      [AttendanceRecord(today, status, if status != Absent then Some(now) else None, None, note)] + records
  }

  /** Exactly one record is dated `day`, and it has status `status`. */
  predicate OneRecordFor(records: seq<AttendanceRecord>, day: Day, status: AttendanceStatus) {
    exists k :: 0 <= k < |records| && records[k].date == day && records[k].status == status
                && (forall i :: 0 <= i < |records| && i != k ==> records[i].date != day)
  }

  /** The upsert keeps one record per day, and afterwards exactly one record
      is dated today and it carries the requested status. */
  lemma UpsertKeepsOneRecordPerDay(records: seq<AttendanceRecord>, today: Day, status: AttendanceStatus,
                                   note: Option<string>, now: string)
    requires DatesDistinct(records)
    ensures var r := UpsertToday(records, today, status, note, now);
      DatesDistinct(r) && OneRecordFor(r, today, status)
  {
    var r := UpsertToday(records, today, status, note, now);
    match IndexOfDate(records, today)
    case Some(k) =>
      assert forall i :: 0 <= i < |r| ==> r[i].date == records[i].date;
      assert r[k].date == today && r[k].status == status;
    case None =>
      assert forall i :: 1 <= i < |r| ==> r[i] == records[i - 1];
      assert r[0].date == today && r[0].status == status;
  }

  /** The store after a mutation, and the copy of the changed employee the
      source returns (`undefined` when the id is unknown). */
  datatype Outcome = Outcome(employees: seq<Employee>, updated: Option<Employee>)

  /** `updateEmployeeAttendance`. */
  function UpdateEmployeeAttendance(employees: seq<Employee>, id: string, status: AttendanceStatus,
                                    note: Option<string>, today: Day, now: string): (o: Outcome)
    ensures o.updated.None? <==> GetEmployeeById(employees, id).None?
    ensures o.updated.None? ==> o.employees == employees
    ensures o.updated.Some? ==>
      var k := IndexOfId(employees, id).value;
      && |o.employees| == |employees|
      && o.employees[k] == o.updated.value
      && o.updated.value == employees[k].(attendance := UpsertToday(employees[k].attendance, today, status, note, now))
      && forall j :: 0 <= j < |employees| && j != k ==> o.employees[j] == employees[j]
  {
    match IndexOfId(employees, id)
    case None => Outcome(employees, None)
    case Some(k) =>
      var e := employees[k].(attendance := UpsertToday(employees[k].attendance, today, status, note, now));
      Outcome(employees[k := e], Some(e))
  }

  /** Every employee keeps at most one attendance record per day through an
      update, and the updated one has exactly one record for today. */
  lemma UpdateKeepsOneRecordPerDay(employees: seq<Employee>, id: string, status: AttendanceStatus,
                                   note: Option<string>, today: Day, now: string)
    requires forall i :: 0 <= i < |employees| ==> DatesDistinct(employees[i].attendance)
    ensures var o := UpdateEmployeeAttendance(employees, id, status, note, today, now);
      forall i :: 0 <= i < |o.employees| ==> DatesDistinct(o.employees[i].attendance)
    ensures var o := UpdateEmployeeAttendance(employees, id, status, note, today, now);
      o.updated.Some? ==> OneRecordFor(o.updated.value.attendance, today, status)
  {
    var o := UpdateEmployeeAttendance(employees, id, status, note, today, now);
    if o.updated.Some? {
      var k := IndexOfId(employees, id).value;
      UpsertKeepsOneRecordPerDay(employees[k].attendance, today, status, note, now);
    }
  }

  /** Marking attendance twice on the same day leaves one record for today,
      holding the second request. */
  lemma SecondUpdateRewrites(employees: seq<Employee>, id: string, first: AttendanceStatus, second: AttendanceStatus,
                             note: Option<string>, today: Day, now: string, later: string)
    requires forall i :: 0 <= i < |employees| ==> DatesDistinct(employees[i].attendance)
    requires GetEmployeeById(employees, id).Some?
    ensures var o1 := UpdateEmployeeAttendance(employees, id, first, note, today, now);
      var o2 := UpdateEmployeeAttendance(o1.employees, id, second, note, today, later);
      && o2.updated.Some?
      && |o2.updated.value.attendance| == |o1.updated.value.attendance|
      && OneRecordFor(o2.updated.value.attendance, today, second)
  {
    var o1 := UpdateEmployeeAttendance(employees, id, first, note, today, now);
    var k := IndexOfId(employees, id).value;
    UpdateKeepsOneRecordPerDay(employees, id, first, note, today, now);
    assert IndexOfId(o1.employees, id) == Some(k) by {
      assert forall j :: 0 <= j < |employees| ==> o1.employees[j].id == employees[j].id;
    }
    var a := o1.employees[k].attendance;
    assert IndexOfDate(a, today).Some?;
    UpdateKeepsOneRecordPerDay(o1.employees, id, second, note, today, later);
  }

  /** `addPaymentRecord`: the draft, named `newId`, goes in front of the
      employee's payments; there is no re-sort. */
  function AddPaymentRecord(employees: seq<Employee>, id: string, payment: PaymentDraft, newId: string): (o: Outcome)
    ensures o.updated.None? <==> GetEmployeeById(employees, id).None?
    ensures o.updated.None? ==> o.employees == employees
    ensures o.updated.Some? ==>
      var k := IndexOfId(employees, id).value;
      && |o.employees| == |employees|
      && o.employees[k] == o.updated.value
      && o.updated.value == employees[k].(payments := [payment.WithId(newId)] + employees[k].payments)
      && |o.updated.value.payments| == |employees[k].payments| + 1
      && forall j :: 0 <= j < |employees| && j != k ==> o.employees[j] == employees[j]
  {
    match IndexOfId(employees, id)
    case None => Outcome(employees, None)
    case Some(k) =>
      var e := employees[k].(payments := [payment.WithId(newId)] + employees[k].payments);
      Outcome(employees[k := e], Some(e))
  }

  /** Prepending keeps a newest-first list newest first exactly when the new
      payment is no older than the current head. */
  lemma PrependNewestFirst(p: PaymentRecord, payments: seq<PaymentRecord>)
    requires NewestFirst(payments)
    ensures NewestFirst([p] + payments) <==> |payments| == 0 || p.date >= payments[0].date
  {
    var r := [p] + payments;
    if |payments| > 0 && p.date >= payments[0].date {
      forall i, j | 0 <= i < j < |r| ensures r[i].date >= r[j].date {
        if i == 0 {
          assert r[j] == payments[j - 1];
        } else {
          assert r[i] == payments[i - 1] && r[j] == payments[j - 1];
        }
      }
    }
    if NewestFirst(r) && |payments| > 0 {
      assert r[0] == p && r[1] == payments[0];
    }
  }
}
