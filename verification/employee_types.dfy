/** Employees with their attendance and payroll histories
    (src/types/employee.ts). The string unions of the source become
    enumerations; each comes with its exact spelling and the parse back. */
module EmployeeTypes {
  import opened Wrappers
  import opened Collections

  /** A calendar day as a day number. The source keeps dates as 'yyyy-MM-dd'
      strings, which compare and order exactly as these numbers do. */
  type Day = int

  datatype EmployeeStatus = Active | OnLeave | Inactive

  datatype AttendanceStatus = Present | Absent | Late | HalfDay

  datatype PaymentMode = BankTransfer | Cash | Check | DigitalWallet

  datatype PaymentStatus = Pending | Completed | Failed

  /** The span of days a payment covers; both ends are always present. */
  datatype Period = Period(from: Day, to: Day)

  datatype AttendanceRecord = AttendanceRecord(
    date: Day,
    status: AttendanceStatus,
    checkInTime: Option<string>,
    checkOutTime: Option<string>,
    note: Option<string>)

  datatype PaymentRecord = PaymentRecord(
    id: string,
    date: Day,
    amount: real,
    paymentMode: PaymentMode,
    status: PaymentStatus,
    description: Option<string>,
    period: Option<Period>)

  /** `Omit<PaymentRecord, 'id'>`: a payment before the store names it. */
  datatype PaymentDraft = PaymentDraft(
    date: Day,
    amount: real,
    paymentMode: PaymentMode,
    status: PaymentStatus,
    description: Option<string>,
    period: Option<Period>)
  {
    /** `{...payment, id}`. */
    function WithId(id: string): (p: PaymentRecord)
      ensures p.id == id && p.date == date && p.amount == amount && p.paymentMode == paymentMode
      ensures p.status == status && p.description == description && p.period == period
    {
      PaymentRecord(id, date, amount, paymentMode, status, description, period)
    }
  }

  datatype Employee = Employee(
    id: string,
    name: string,
    email: string,
    phone: string,
    role: string,
    department: string,
    joinDate: Day,
    status: EmployeeStatus,
    address: Option<string>,
    emergencyContact: Option<string>,
    attendance: seq<AttendanceRecord>,
    payments: seq<PaymentRecord>)

  /** The central invariant: at most one attendance record per day. */
  predicate DatesDistinct(records: seq<AttendanceRecord>) {
    forall i, j :: 0 <= i < j < |records| ==> records[i].date != records[j].date
  }

  /** Payments listed newest first. */
  predicate NewestFirst(payments: seq<PaymentRecord>) {
    forall i, j :: 0 <= i < j < |payments| ==> payments[i].date >= payments[j].date
  }

  /** The spelling the source uses. */
  function EmployeeStatusName(s: EmployeeStatus): string
  {
    match s
    case Active => "Active"
    case OnLeave => "On Leave"
    case Inactive => "Inactive"
  }

  /** The union `'Active' | 'On Leave' | 'Inactive'`: exactly three strings. */
  function ParseEmployeeStatus(s: string): (r: Option<EmployeeStatus>)
    ensures r.Some? <==> s in {"Active", "On Leave", "Inactive"}
    ensures r.Some? ==> EmployeeStatusName(r.value) == s
  {
    match s
    case "Active" => Some(Active)
    case "On Leave" => Some(OnLeave)
    case "Inactive" => Some(Inactive)
    case _ => None
  }

  /** The spelling the source uses. */
  function AttendanceStatusName(s: AttendanceStatus): string
  {
    match s
    case Present => "Present"
    case Absent => "Absent"
    case Late => "Late"
    case HalfDay => "Half-day"
  }

  /** The union `'Present' | 'Absent' | 'Late' | 'Half-day'`. */
  function ParseAttendanceStatus(s: string): (r: Option<AttendanceStatus>)
    ensures r.Some? <==> s in {"Present", "Absent", "Late", "Half-day"}
    ensures r.Some? ==> AttendanceStatusName(r.value) == s
  {
    match s
    case "Present" => Some(Present)
    case "Absent" => Some(Absent)
    case "Late" => Some(Late)
    case "Half-day" => Some(HalfDay)
    case _ => None
  }

  /** The spelling the source uses. */
  function PaymentModeName(m: PaymentMode): string
  {
    match m
    case BankTransfer => "Bank Transfer"
    case Cash => "Cash"
    case Check => "Check"
    case DigitalWallet => "Digital Wallet"
  }

  /** The union `'Bank Transfer' | 'Cash' | 'Check' | 'Digital Wallet'`. */
  function ParsePaymentMode(s: string): (r: Option<PaymentMode>)
    ensures r.Some? <==> s in {"Bank Transfer", "Cash", "Check", "Digital Wallet"}
    ensures r.Some? ==> PaymentModeName(r.value) == s
  {
    match s
    case "Bank Transfer" => Some(BankTransfer)
    case "Cash" => Some(Cash)
    case "Check" => Some(Check)
    case "Digital Wallet" => Some(DigitalWallet)
    case _ => None
  }

  /** The spelling the source uses. */
  function PaymentStatusName(s: PaymentStatus): string
  {
    match s
    case Pending => "Pending"
    case Completed => "Completed"
    case Failed => "Failed"
  }

  /** The union `'Pending' | 'Completed' | 'Failed'`. */
  function ParsePaymentStatus(s: string): (r: Option<PaymentStatus>)
    ensures r.Some? <==> s in {"Pending", "Completed", "Failed"}
    ensures r.Some? ==> PaymentStatusName(r.value) == s
  {
    match s
    case "Pending" => Some(Pending)
    case "Completed" => Some(Completed)
    case "Failed" => Some(Failed)
    case _ => None
  }

  /** Every enumerated value survives printing and parsing back. */
  lemma NamesParseBack(e: EmployeeStatus, a: AttendanceStatus, m: PaymentMode, p: PaymentStatus)
    ensures ParseEmployeeStatus(EmployeeStatusName(e)) == Some(e)
    ensures ParseAttendanceStatus(AttendanceStatusName(a)) == Some(a)
    ensures ParsePaymentMode(PaymentModeName(m)) == Some(m)
    ensures ParsePaymentStatus(PaymentStatusName(p)) == Some(p)
  {
  }
}
