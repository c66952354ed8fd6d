/** The policies of the employee detail page
    (src/pages/employees/EmployeeDetails.tsx): the override applied to an
    attendance request before it reaches the store, the read-only view of
    today's attendance, the initial values of the attendance form, and the
    payment form with the payload it produces. */
module EmployeeDetails {
  import opened Wrappers
  import opened EmployeeTypes
  import opened EmployeeData
  import opened Text

  const InactivePresentNote := "Employee is inactive and cannot be marked present"
  const InactiveNote := "Employee is inactive"
  const OnLeaveNote := "Employee is on leave"

  /** The attendance form's values: a status and an optional note. */
  datatype AttendanceRequest = AttendanceRequest(status: AttendanceStatus, note: Option<string>)

  /** The override of `onAttendanceSubmit`: an employee who is not active is
      never stored as present. */
  function Override(employee: EmployeeStatus, req: AttendanceRequest): (r: AttendanceRequest)
    ensures employee != Active ==> r.status != Present
    ensures employee == Active || req.status != Present ==> r == req
    ensures employee == Inactive && req.status == Present ==> r == AttendanceRequest(Absent, Some(InactivePresentNote))
    ensures employee == OnLeave && req.status == Present ==> r == AttendanceRequest(Absent, Some(OrFallback(req.note, OnLeaveNote)))
  {
    // The on-leave rule sees the request the inactive rule leaves, which is
    // never present, so the two rules never both apply.
    if employee.Inactive? && req.status.Present? then
      AttendanceRequest(Absent, Some(InactivePresentNote))
    else if employee.OnLeave? && req.status.Present? then
      AttendanceRequest(Absent, Some(OrFallback(req.note, OnLeaveNote)))
    else
      req
  }

  /** Applying the override to its own result changes nothing. */
  lemma OverrideIdempotent(employee: EmployeeStatus, req: AttendanceRequest)
    ensures Override(employee, Override(employee, req)) == Override(employee, req)
  {
  }

  /** `onAttendanceSubmit`: the overridden request goes to the store for the
      employee the page shows. An unknown id changes nothing. */
  function OnAttendanceSubmit(employees: seq<Employee>, id: string, req: AttendanceRequest,
                              today: Day, now: string): (o: Outcome)
    ensures GetEmployeeById(employees, id).None? ==> o == Outcome(employees, None)
    ensures GetEmployeeById(employees, id).Some? ==>
      var e := GetEmployeeById(employees, id).value;
      var stored := Override(e.status, req);
      o == UpdateEmployeeAttendance(employees, id, stored.status, stored.note, today, now)
  {
    match GetEmployeeById(employees, id)
    case None => Outcome(employees, None)
    case Some(e) =>
      var stored := Override(e.status, req);
      UpdateEmployeeAttendance(employees, id, stored.status, stored.note, today, now)
  }

  /** The one record for a day has one status. */
  lemma OneRecordForDecidesStatus(records: seq<AttendanceRecord>, day: Day, s: AttendanceStatus, t: AttendanceStatus)
    requires OneRecordFor(records, day, s)
    ensures OneRecordFor(records, day, t) <==> s == t
  {
    if OneRecordFor(records, day, t) {
      OneRecordStatusUnique(records, day, s, t);
    }
  }

  lemma OneRecordStatusUnique(records: seq<AttendanceRecord>, day: Day, s: AttendanceStatus, t: AttendanceStatus)
    requires OneRecordFor(records, day, s) && OneRecordFor(records, day, t)
    ensures s == t
  {
    var k :| 0 <= k < |records| && records[k].date == day && records[k].status == s
             && (forall i :: 0 <= i < |records| && i != k ==> records[i].date != day);
    var m :| 0 <= m < |records| && records[m].date == day && records[m].status == t
             && (forall i :: 0 <= i < |records| && i != m ==> records[i].date != day);
    assert k == m;
  }

  /** After a submission the employee has exactly one record for today, and
      for an employee who is not active it is not a present one. */
  lemma SubmitNeverStoresPresentForInactive(employees: seq<Employee>, id: string, req: AttendanceRequest,
                                            today: Day, now: string)
    requires forall i :: 0 <= i < |employees| ==> DatesDistinct(employees[i].attendance)
    ensures var o := OnAttendanceSubmit(employees, id, req, today, now);
      o.updated.Some? ==>
        && o.updated.value.status == GetEmployeeById(employees, id).value.status
        && OneRecordFor(o.updated.value.attendance, today, Override(o.updated.value.status, req).status)
        && (o.updated.value.status != Active ==> !OneRecordFor(o.updated.value.attendance, today, Present))
  {
    var o := OnAttendanceSubmit(employees, id, req, today, now);
    if o.updated.Some? {
      var e := GetEmployeeById(employees, id).value;
      var stored := Override(e.status, req);
      UpdateKeepsOneRecordPerDay(employees, id, stored.status, stored.note, today, now);
      OneRecordForDecidesStatus(o.updated.value.attendance, today, stored.status, Present);
    }
  }

  /** `getTodayAttendance`: the stored record for today if there is one;
      otherwise a made-up absent record for an employee who is not active, and
      nothing for an active one. */
  function TodayAttendance(e: Employee, today: Day): (r: Option<AttendanceRecord>)
    ensures IndexOfDate(e.attendance, today).Some? ==>
      r == Some(e.attendance[IndexOfDate(e.attendance, today).value])
    ensures IndexOfDate(e.attendance, today).None? && e.status == Active ==> r.None?
    ensures IndexOfDate(e.attendance, today).None? && e.status != Active ==>
      && r.Some? && r.value.date == today && r.value.status == Absent
      && r.value.checkInTime.None? && r.value.checkOutTime.None?
      && r.value.note == Some(if e.status == Inactive then InactiveNote else OnLeaveNote)
    ensures r.Some? ==> r.value.date == today
  {
    match IndexOfDate(e.attendance, today)
    case Some(k) => Some(e.attendance[k])
    case None =>
      if e.status == Active then None
      else Some(AttendanceRecord(today, Absent, None, None,
                                 Some(if e.status == Inactive then InactiveNote else OnLeaveNote)))
  }

  /** Whatever was stored before, after an update the view of today shows the
      status and note just submitted. */
  lemma TodayShowsLatestUpdate(employees: seq<Employee>, id: string, status: AttendanceStatus,
                               note: Option<string>, today: Day, now: string)
    ensures var o := UpdateEmployeeAttendance(employees, id, status, note, today, now);
      o.updated.Some? ==>
        && TodayAttendance(o.updated.value, today).Some?
        && TodayAttendance(o.updated.value, today).value.status == status
        && TodayAttendance(o.updated.value, today).value.note == note
  {
    var o := UpdateEmployeeAttendance(employees, id, status, note, today, now);
    if o.updated.Some? {
      var k := IndexOfId(employees, id).value;
      var before := employees[k].attendance;
      var after := o.updated.value.attendance;
      match IndexOfDate(before, today)
      case Some(j) =>
        assert forall i :: 0 <= i < |after| ==> after[i].date == before[i].date;
        assert IndexOfDate(after, today) == Some(j);
      case None =>
        assert IndexOfDate(after, today) == Some(0);
    }
  }

  /** The attendance form as the page first fills it in (the note field is a
      plain string, empty by default). */
  datatype AttendanceForm = AttendanceForm(status: AttendanceStatus, note: string)

  /** The initial form for the employee shown. */
  function InitialAttendanceForm(e: Employee, today: Day): (f: AttendanceForm)
    ensures IndexOfDate(e.attendance, today).Some? ==>
      f.status == e.attendance[IndexOfDate(e.attendance, today).value].status
    ensures IndexOfDate(e.attendance, today).None? ==>
      f == (match e.status
            case Active => AttendanceForm(Present, "")
            case Inactive => AttendanceForm(Absent, InactiveNote)
            case OnLeave => AttendanceForm(Absent, OnLeaveNote))
  {
    match IndexOfDate(e.attendance, today)
    case Some(k) =>
      var rec := e.attendance[k];
      AttendanceForm(rec.status, OrFallback(rec.note, ""))
    case None =>
      match e.status
      case Active => AttendanceForm(Present, "")
      case Inactive => AttendanceForm(Absent, InactiveNote)
      case OnLeave => AttendanceForm(Absent, OnLeaveNote)
  }

  /** The initial form mirrors the view of today: its status and note where
      there is one, and a present request with no note otherwise. */
  lemma InitialFormMirrorsToday(e: Employee, today: Day)
    ensures var f := InitialAttendanceForm(e, today);
      var t := TodayAttendance(e, today);
      && (t.Some? ==> f == AttendanceForm(t.value.status, OrFallback(t.value.note, "")))
      && (t.None? ==> f == AttendanceForm(Present, ""))
  {
  }

  /** The payment form's values; the mode is one of the four the form offers. */
  datatype PaymentForm = PaymentForm(amount: real, paymentMode: PaymentMode, description: string, date: Day)

  const AmountMessage := "Amount must be positive"
  const DescriptionMessage := "Description is required"

  /** `paymentSchema`: the messages of the failed checks, none when valid. */
  function CheckPaymentForm(f: PaymentForm): (errors: seq<string>)
    ensures |errors| == 0 <==> f.amount > 0.0 && |f.description| >= 3
    ensures AmountMessage in errors <==> f.amount <= 0.0
    ensures DescriptionMessage in errors <==> |f.description| < 3
  {
    (if f.amount > 0.0 then [] else [AmountMessage])
    + (if |f.description| >= 3 then [] else [DescriptionMessage])
  }

  /** The payment `onPaymentSubmit` builds: dated as the form says, always
      completed, for the period from `monthStart` (the first of the current
      month) to today. */
  function PaymentPayload(f: PaymentForm, today: Day, monthStart: Day): (p: PaymentDraft)
    ensures p.status == Completed
    ensures p.period == Some(Period(monthStart, today))
    ensures p.date == f.date && p.amount == f.amount && p.paymentMode == f.paymentMode
    ensures p.description == Some(f.description)
  {
    PaymentDraft(f.date, f.amount, f.paymentMode, Completed, Some(f.description), Some(Period(monthStart, today)))
  }

  /** `onPaymentSubmit`, reached only through a valid form: an invalid form
      or an unknown id changes nothing, and a valid form for a known employee
      hands the form's payload to `addPaymentRecord`, which stores it in front
      of the unchanged older payments. */
  function OnPaymentSubmit(employees: seq<Employee>, id: string, f: PaymentForm,
                           today: Day, monthStart: Day, newId: string): (o: Outcome)
    ensures |CheckPaymentForm(f)| > 0 ==> o == Outcome(employees, None)
    ensures o.updated.Some? ==>
      && |CheckPaymentForm(f)| == 0
      && |o.updated.value.payments| > 0
      && o.updated.value.payments[0].id == newId
      && o.updated.value.payments[0].amount > 0.0
      && o.updated.value.payments[0].status == Completed
      && o.updated.value.payments[0].period == Some(Period(monthStart, today))
    ensures |CheckPaymentForm(f)| == 0 ==>
      o == AddPaymentRecord(employees, id, PaymentPayload(f, today, monthStart), newId)
    ensures |CheckPaymentForm(f)| == 0 && GetEmployeeById(employees, id).Some? ==>
      var k := IndexOfId(employees, id).value;
      && o.updated.Some?
      && o.updated.value.payments[0].date == f.date
      && o.updated.value.payments[0].paymentMode == f.paymentMode
      && o.updated.value.payments[0].description == Some(f.description)
      && o.updated.value.payments[1..] == employees[k].payments
  {
    if |CheckPaymentForm(f)| > 0 then Outcome(employees, None)
    else AddPaymentRecord(employees, id, PaymentPayload(f, today, monthStart), newId)
  }

  /** A payment dated today keeps a newest-first history newest first as
      long as no stored payment is dated after today. */
  lemma PaymentTodayKeepsNewestFirst(employees: seq<Employee>, id: string, f: PaymentForm,
                                     today: Day, monthStart: Day, newId: string)
    requires f.date == today
    requires forall i :: 0 <= i < |employees| ==> NewestFirst(employees[i].payments)
    requires forall i, j :: 0 <= i < |employees| && 0 <= j < |employees[i].payments| ==>
      employees[i].payments[j].date <= today
    ensures var o := OnPaymentSubmit(employees, id, f, today, monthStart, newId);
      forall i :: 0 <= i < |o.employees| ==> NewestFirst(o.employees[i].payments)
  {
    var o := OnPaymentSubmit(employees, id, f, today, monthStart, newId);
    if o.updated.Some? {
      var k := IndexOfId(employees, id).value;
      var old_ := employees[k].payments;
      PrependNewestFirst(PaymentPayload(f, today, monthStart).WithId(newId), old_);
    }
  }
}
