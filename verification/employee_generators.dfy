/** The sample-history generators of src/data/employeeData.ts. Each
    `Math.random()` draw is a parameter in [0, 1); the calendar arithmetic of
    the date library (`subMonths`) arrives as precomputed day numbers, and
    payment ids as given strings. */
module EmployeeGenerators {
  import opened Wrappers
  import opened Text
  import opened EmployeeTypes

  /** A value `Math.random()` can return. */
  predicate IsRandom(x: real) {
    0.0 <= x < 1.0
  }

  /** `Math.floor`. */
  function Floor(x: real): int {
    x.Floor
  }

  /** `Math.floor(x * n)` for a draw `x` lands in 0..n-1. */
  lemma FloorOfScaledDraw(x: real, n: nat)
    requires IsRandom(x) && n > 0
    ensures 0 <= Floor(x * n as real) < n
  {
  }

  /** The five draws one day of attendance consumes. */
  datatype AttendanceDraw = AttendanceDraw(status: real, inHour: real, inMinute: real, outHour: real, outMinute: real)

  predicate ValidAttendanceDraw(d: AttendanceDraw) {
    IsRandom(d.status) && IsRandom(d.inHour) && IsRandom(d.inMinute) && IsRandom(d.outHour) && IsRandom(d.outMinute)
  }

  /** The status thresholds: above 0.8 absent, above 0.7 late, above 0.6 a
      half day, otherwise present. */
  function StatusFromDraw(x: real): (s: AttendanceStatus)
    ensures s == Absent <==> x > 0.8
    ensures s == Late <==> 0.7 < x <= 0.8
    ensures s == HalfDay <==> 0.6 < x <= 0.7
    ensures s == Present <==> x <= 0.6
  {
    if x > 0.8 then Absent else if x > 0.7 then Late else if x > 0.6 then HalfDay else Present
  }

  /** `0${8 + floor(r*2)}:${floor(r*59)}`: hour 08 or 09; the minutes are not
      padded. */
  function CheckInTime(d: AttendanceDraw): (t: string)
    requires ValidAttendanceDraw(d)
    ensures |t| >= 4 && (t[..3] == "08:" || t[..3] == "09:")
  {
    FloorOfScaledDraw(d.inHour, 2);
    FloorOfScaledDraw(d.inMinute, 59);
    "0" + DecimalString(8 + Floor(d.inHour * 2.0)) + ":" + DecimalString(Floor(d.inMinute * 59.0))
  }

  /** `${17 + floor(r*3)}:${floor(r*59)}`: hour 17, 18 or 19. */
  function CheckOutTime(d: AttendanceDraw): (t: string)
    requires ValidAttendanceDraw(d)
    ensures |t| >= 4 && (t[..3] == "17:" || t[..3] == "18:" || t[..3] == "19:")
  {
    FloorOfScaledDraw(d.outHour, 3);
    FloorOfScaledDraw(d.outMinute, 59);
    var h := Floor(d.outHour * 3.0);
    assert DecimalString(17 + h) == [DigitChar(1), DigitChar(7 + h)];
    DecimalString(17 + h) + ":" + DecimalString(Floor(d.outMinute * 59.0))
  }

  /** `generateAttendanceRecords(days)`: record `i` is for `today - i`. */
  method GenerateAttendanceRecords(days: int, today: Day, draws: seq<AttendanceDraw>)
    returns (records: seq<AttendanceRecord>)
    requires days <= |draws|
    requires forall i :: 0 <= i < |draws| ==> ValidAttendanceDraw(draws[i])
    ensures |records| == if days > 0 then days else 0
    ensures forall i :: 0 <= i < |records| ==> records[i].date == today - i
    ensures DatesDistinct(records)
    ensures forall i, j :: 0 <= i < j < |records| ==> records[i].date > records[j].date
    ensures forall i :: 0 <= i < |records| ==> records[i].status == StatusFromDraw(draws[i].status)
    ensures forall i :: 0 <= i < |records| ==>
      && (records[i].checkInTime.Some? <==> records[i].status != Absent)
      && (records[i].checkOutTime.Some? <==> records[i].status != Absent)
      && records[i].note.None?
  {
    var n := if days > 0 then days else 0;
    records := [];
    var i := 0;
    while i < n
      invariant 0 <= i <= n && |records| == i
      invariant forall k :: 0 <= k < i ==> records[k].date == today - k
      invariant forall k :: 0 <= k < i ==> records[k].status == StatusFromDraw(draws[k].status)
      invariant forall k :: 0 <= k < i ==>
        && (records[k].checkInTime.Some? <==> records[k].status != Absent)
        && (records[k].checkOutTime.Some? <==> records[k].status != Absent)
        && records[k].note.None?
    {
      var d := draws[i];
      var status := StatusFromDraw(d.status);
      var checkIn := if status != Absent then Some(CheckInTime(d)) else None;
      var checkOut := if status != Absent then Some(CheckOutTime(d)) else None;
      records := records + [AttendanceRecord(today - i, status, checkIn, checkOut, None)];
      i := i + 1;
    }
  }

  /** A payment no older than everything in a newest-first list can go in
      front of it. */
  lemma ConsNewestFirst(h: PaymentRecord, rest: seq<PaymentRecord>)
    requires NewestFirst(rest)
    requires forall i :: 0 <= i < |rest| ==> rest[i].date <= h.date
    ensures NewestFirst([h] + rest)
  {
    var r := [h] + rest;
    forall i, j | 0 <= i < j < |r| ensures r[i].date >= r[j].date {
      assert r[j] == rest[j - 1];
      if i > 0 {
        assert r[i] == rest[i - 1];
      }
    }
  }

  /** Insert into a newest-first list before the first payment that is not
      newer, which keeps equal dates in their original order. */
  function InsertNewestFirst(p: PaymentRecord, sorted: seq<PaymentRecord>): seq<PaymentRecord> {
    if |sorted| == 0 || p.date >= sorted[0].date then [p] + sorted
    else [sorted[0]] + InsertNewestFirst(p, sorted[1..])
  }

  /** Inserting adds exactly one occurrence of `p` and loses nothing. */
  lemma {:induction false} InsertCounts(p: PaymentRecord, sorted: seq<PaymentRecord>)
    ensures multiset(InsertNewestFirst(p, sorted)) == multiset(sorted) + multiset{p}
    ensures forall x :: x in InsertNewestFirst(p, sorted) <==> x == p || x in sorted
  {
    if |sorted| > 0 && p.date < sorted[0].date {
      InsertCounts(p, sorted[1..]);
      assert sorted == [sorted[0]] + sorted[1..];
    }
  }

  /** Inserting into a newest-first list keeps it newest first. */
  lemma {:induction false} InsertSorted(p: PaymentRecord, sorted: seq<PaymentRecord>)
    requires NewestFirst(sorted)
    ensures NewestFirst(InsertNewestFirst(p, sorted))
  {
    if |sorted| == 0 || p.date >= sorted[0].date {
      ConsNewestFirst(p, sorted);
    } else {
      var tail := sorted[1..];
      InsertSorted(p, tail);
      InsertCounts(p, tail);
      var rest := InsertNewestFirst(p, tail);
      forall i | 0 <= i < |rest| ensures rest[i].date <= sorted[0].date {
        if rest[i] != p {
          assert rest[i] in rest;
          assert rest[i] in tail;
          var j :| 0 <= j < |tail| && tail[j] == rest[i];
          assert sorted[j + 1] == rest[i];
        }
      }
      ConsNewestFirst(sorted[0], rest);
    }
  }

  /** `records.sort((a, b) => date(b) - date(a))`, a stable sort by date,
      newest first. */
  function SortNewestFirst(payments: seq<PaymentRecord>): (r: seq<PaymentRecord>)
    ensures NewestFirst(r)
    ensures multiset(r) == multiset(payments)
  {
    if |payments| == 0 then []
    else
      var rest := SortNewestFirst(payments[1..]);
      InsertSorted(payments[0], rest);
      InsertCounts(payments[0], rest);
      assert payments == [payments[0]] + payments[1..];
      InsertNewestFirst(payments[0], rest)
  }

  /** The three draws one month of payroll consumes. */
  datatype PaymentDraw = PaymentDraw(amount: real, mode: real, status: real)

  predicate ValidPaymentDraw(d: PaymentDraw) {
    IsRandom(d.amount) && IsRandom(d.mode) && IsRandom(d.status)
  }

  /** One month of the window: `subMonths(today, i)` and the month before it,
      as the date library computes them. */
  datatype MonthSlot = MonthSlot(date: Day, from: Day)

  /** `['Bank Transfer', 'Cash', 'Check', 'Digital Wallet'][floor(r * 4)]`. */
  function ModeFromDraw(x: real): PaymentMode
    requires IsRandom(x)
  {
    FloorOfScaledDraw(x, 4);
    [BankTransfer, Cash, Check, DigitalWallet][Floor(x * 4.0)]
  }

  /** The payment for one month, before the sort. */
  function MonthlyPayment(slot: MonthSlot, id: string, d: PaymentDraw): (p: PaymentRecord)
    requires ValidPaymentDraw(d)
    ensures 2000.0 <= p.amount <= 2999.0 && p.amount == Floor(p.amount) as real
    ensures p.status == Pending <==> d.status > 0.9
    ensures p.status in {Pending, Completed}
    ensures p.description == Some("Monthly salary")
    ensures p.period == Some(Period(slot.from, slot.date)) && p.date == slot.date
  {
    FloorOfScaledDraw(d.amount, 1000);
    PaymentRecord(id, slot.date, (2000 + Floor(d.amount * 1000.0)) as real, ModeFromDraw(d.mode),
                  if d.status > 0.9 then Pending else Completed, Some("Monthly salary"),
                  Some(Period(slot.from, slot.date)))
  }

  /** The payments of the first `n` months of the window, before the sort. */
  function MonthlyPayments(slots: seq<MonthSlot>, ids: seq<string>, draws: seq<PaymentDraw>, n: nat): (ps: seq<PaymentRecord>)
    requires n <= |slots| && n <= |ids| && n <= |draws|
    requires forall i :: 0 <= i < |draws| ==> ValidPaymentDraw(draws[i])
    ensures |ps| == n
    ensures forall k :: 0 <= k < n ==> ps[k] == MonthlyPayment(slots[k], ids[k], draws[k])
  {
    if n == 0 then [] else MonthlyPayments(slots, ids, draws, n - 1) + [MonthlyPayment(slots[n - 1], ids[n - 1], draws[n - 1])]
  }

  /** Every month payment is a salary in range for the slot it was made
      for. */
  lemma MonthlyPaymentsFacts(slots: seq<MonthSlot>, ids: seq<string>, draws: seq<PaymentDraw>, n: nat)
    requires n <= |slots| && n <= |ids| && n <= |draws|
    requires forall i :: 0 <= i < |draws| ==> ValidPaymentDraw(draws[i])
    ensures forall p :: p in MonthlyPayments(slots, ids, draws, n) ==>
      && 2000.0 <= p.amount <= 2999.0
      && p.status in {Pending, Completed}
      && p.description == Some("Monthly salary")
      && p.period.Some? && p.period.value.to == p.date
      && exists i :: 0 <= i < n && slots[i] == MonthSlot(p.date, p.period.value.from)
  {
    var ps := MonthlyPayments(slots, ids, draws, n);
    forall p | p in ps
      ensures exists i :: 0 <= i < n && slots[i] == MonthSlot(p.date, p.period.value.from)
    {
      var k :| 0 <= k < n && ps[k] == p;
      assert slots[k] == MonthSlot(p.date, p.period.value.from);
    }
  }

  /** `generatePaymentRecords(months)`: one salary payment per month of the
      window, then sorted newest first. */
  method GeneratePaymentRecords(months: int, slots: seq<MonthSlot>, ids: seq<string>, draws: seq<PaymentDraw>)
    returns (records: seq<PaymentRecord>)
    requires months <= |slots| && months <= |ids| && months <= |draws|
    requires forall i :: 0 <= i < |draws| ==> ValidPaymentDraw(draws[i])
    ensures |records| == if months > 0 then months else 0
    ensures NewestFirst(records)
    ensures forall p :: p in records ==>
      && 2000.0 <= p.amount <= 2999.0
      && p.status in {Pending, Completed}
      && p.description == Some("Monthly salary")
      && p.period.Some? && p.period.value.to == p.date
    ensures forall p :: p in records ==> exists i :: 0 <= i < |records| && slots[i] == MonthSlot(p.date, p.period.value.from)
    ensures multiset(records) == multiset(MonthlyPayments(slots, ids, draws, if months > 0 then months else 0))
  {
    var n := if months > 0 then months else 0;
    var unsorted: seq<PaymentRecord> := [];
    var i := 0;
    while i < n
      invariant 0 <= i <= n && |unsorted| == i
      invariant forall k :: 0 <= k < i ==> unsorted[k] == MonthlyPayment(slots[k], ids[k], draws[k])
    {
      unsorted := unsorted + [MonthlyPayment(slots[i], ids[i], draws[i])];
      i := i + 1;
    }
    assert unsorted == MonthlyPayments(slots, ids, draws, n);
    MonthlyPaymentsFacts(slots, ids, draws, n);
    records := SortNewestFirst(unsorted);
    assert |records| == |multiset(records)| == |multiset(unsorted)| == |unsorted|;
    forall p | p in records ensures p in unsorted {
      assert p in multiset(records);
    }
  }
}
