/** The "today" column of the employee table
    (src/components/employees/EmployeeTable.tsx): the caption of the
    attendance badge. */
module EmployeeTable {
  import opened Wrappers
  import opened EmployeeTypes
  import opened EmployeeData

  /** The caption for a stored record's status. */
  function StatusCaption(s: AttendanceStatus): string {
    match s
    case Present => "Present (8AM-7PM)"
    case Absent => "Absent"
    case Late => "Late"
    case HalfDay => "Half-day (8AM-12PM)"
  }

  /** The caption when nothing is stored for today. */
  function UnrecordedCaption(s: EmployeeStatus): string {
    match s
    case Inactive => "Inactive"
    case OnLeave => "On Leave"
    case Active => "Not Recorded"
  }

  /** `getTodayAttendance` of the table: a stored record decides by its status
      alone, whatever the employee's status; without one the employee's
      status decides. */
  function TodayCaption(e: Employee, today: Day): (caption: string)
    ensures IndexOfDate(e.attendance, today).Some? ==>
      caption == StatusCaption(e.attendance[IndexOfDate(e.attendance, today).value].status)
    ensures IndexOfDate(e.attendance, today).None? ==> caption == UnrecordedCaption(e.status)
  {
    match IndexOfDate(e.attendance, today)
    case Some(k) => StatusCaption(e.attendance[k].status)
    case None => UnrecordedCaption(e.status)
  }

  /** The caption tells whether anything is stored for today, and which
      status or employee status it was: no two cases share a caption. */
  lemma CaptionsDistinguishCases(e: Employee, f: Employee, today: Day)
    ensures var stored := IndexOfDate(e.attendance, today).Some?;
      stored <==> TodayCaption(e, today) !in {"Inactive", "On Leave", "Not Recorded"}
    ensures (&& IndexOfDate(e.attendance, today).Some? && IndexOfDate(f.attendance, today).Some?
             && TodayCaption(e, today) == TodayCaption(f, today)) ==>
      e.attendance[IndexOfDate(e.attendance, today).value].status
        == f.attendance[IndexOfDate(f.attendance, today).value].status
    ensures (&& IndexOfDate(e.attendance, today).None? && IndexOfDate(f.attendance, today).None?
             && TodayCaption(e, today) == TodayCaption(f, today)) ==> e.status == f.status
  {
  }

  /** After an update the table shows the caption of the status just stored. */
  lemma CaptionFollowsUpdate(employees: seq<Employee>, id: string, status: AttendanceStatus,
                             note: Option<string>, today: Day, now: string)
    ensures var o := UpdateEmployeeAttendance(employees, id, status, note, today, now);
      o.updated.Some? ==> TodayCaption(o.updated.value, today) == StatusCaption(status)
  {
    var o := UpdateEmployeeAttendance(employees, id, status, note, today, now);
    if o.updated.Some? {
      var k := IndexOfId(employees, id).value;
      var before := employees[k].attendance;
      var after := o.updated.value.attendance;
      match IndexOfDate(before, today)
      case Some(j) =>
        assert forall i :: 0 <= i < |after| ==> after[i].date == before[i].date;
        assert IndexOfDate(after, today) == Some(j);
      case None =>
        assert IndexOfDate(after, today) == Some(0);
    }
  }
}
