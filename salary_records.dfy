/** The salary record of the Salary page and its pure computations: the
    one-field edits of the edit buffer, the figures derived from the record
    and the clock, and the record the page ends up with after its mount
    effect. Amounts are whole rupees (the page parses them as floats). */
module SalaryRecords {
  import opened Wrappers
  import opened Calendar

  datatype SalaryData = SalaryData(
    currentSalary: int,
    nextSalaryDate: Date,
    nextSalaryAmount: int,
    totalEarnings: int,
    lastUpdate: Date)

  /** Both dates of the record are calendar dates. */
  predicate WellFormed(d: SalaryData) {
    ValidDate(d.nextSalaryDate) && ValidDate(d.lastUpdate)
  }

  /** The record the page starts from; `today` is the date of the first render. */
  function InitialSalary(today: Date): (d: SalaryData)
    ensures d.nextSalaryDate == Date(2025, 8, 25) && d.lastUpdate == today
    ensures d.currentSalary == 45000 && d.nextSalaryAmount == 3500 && d.totalEarnings == 170000
  {
    SalaryData(45000, Date(2025, 8, 25), 3500, 170000, today)
  }

  /** The four fields that have an edit button. */
  datatype SalaryField = TotalEarnings | CurrentSalary | NextSalaryDate | NextSalaryAmount

  datatype SalaryValue = Amount(amount: int) | Day(date: Date)

  function Get(d: SalaryData, f: SalaryField): SalaryValue {
    match f
    case TotalEarnings => Amount(d.totalEarnings)
    case CurrentSalary => Amount(d.currentSalary)
    case NextSalaryDate => Day(d.nextSalaryDate)
    case NextSalaryAmount => Amount(d.nextSalaryAmount)
  }

  /** One buffered value: an entry of `tempValues`, the field it belongs to
      and the value the input holds for it. */
  datatype SalaryEdit =
    | SetTotalEarnings(amount: int)
    | SetCurrentSalary(amount: int)
    | SetNextSalaryDate(date: Date)
    | SetNextSalaryAmount(amount: int)
  {
    function Field(): SalaryField {
      match this
      case SetTotalEarnings(_) => TotalEarnings
      case SetCurrentSalary(_) => CurrentSalary
      case SetNextSalaryDate(_) => NextSalaryDate
      case SetNextSalaryAmount(_) => NextSalaryAmount
    }

    function Value(): SalaryValue {
      match this
      case SetNextSalaryDate(day) => Day(day)
      case SetTotalEarnings(n) => Amount(n)
      case SetCurrentSalary(n) => Amount(n)
      case SetNextSalaryAmount(n) => Amount(n)
    }

    /** A date input yields a calendar date. */
    predicate WellFormed() {
      SetNextSalaryDate? ==> ValidDate(date)
    }
  }

  /** `{ [f]: salaryData[f] }`: the buffer entry holding a field's current value. */
  function Current(d: SalaryData, f: SalaryField): (e: SalaryEdit)
    ensures e.Field() == f && e.Value() == Get(d, f)
    ensures WellFormed(d) ==> e.WellFormed()
  {
    match f
    case TotalEarnings => SetTotalEarnings(d.totalEarnings)
    case CurrentSalary => SetCurrentSalary(d.currentSalary)
    case NextSalaryDate => SetNextSalaryDate(d.nextSalaryDate)
    case NextSalaryAmount => SetNextSalaryAmount(d.nextSalaryAmount)
  }

  /** `{ ...d, [f]: v }`: the buffered field takes its value; the other
      fields, `lastUpdate` included, keep theirs. */
  function WithEdit(d: SalaryData, e: SalaryEdit): (r: SalaryData)
    ensures Get(r, e.Field()) == e.Value()
    ensures forall g :: g != e.Field() ==> Get(r, g) == Get(d, g)
    ensures r.lastUpdate == d.lastUpdate
    ensures WellFormed(d) && e.WellFormed() ==> WellFormed(r)
  {
    match e
    case SetTotalEarnings(n) => d.(totalEarnings := n)
    case SetCurrentSalary(n) => d.(currentSalary := n)
    case SetNextSalaryDate(day) => d.(nextSalaryDate := day)
    case SetNextSalaryAmount(n) => d.(nextSalaryAmount := n)
  }

  /** Writing back a field's current value changes nothing: the partner of
      `Current`. */
  lemma {:induction false} CurrentRoundTrip(d: SalaryData, f: SalaryField)
    ensures WithEdit(d, Current(d, f)) == d
  {
    match f
    case TotalEarnings =>
    case CurrentSalary =>
    case NextSalaryDate =>
    case NextSalaryAmount =>
  }

  /** The saved record: the buffered field written and `lastUpdate` stamped
      with today's date. */
  function Saved(d: SalaryData, e: SalaryEdit, today: Date): (r: SalaryData)
    ensures Get(r, e.Field()) == e.Value() && r.lastUpdate == today
    ensures forall g :: g != e.Field() ==> Get(r, g) == Get(d, g)
    ensures WellFormed(d) && e.WellFormed() && ValidDate(today) ==> WellFormed(r)
  {
    WithEdit(d, e).(lastUpdate := today)
  }

  /** `getDaysUntilNextSalary`: `Math.ceil` of the milliseconds from now to
      UTC midnight of the salary date, in days. Whatever the time of day, this
      is the difference of the two day numbers. */
  function DaysUntil(next: Date, now: Instant): (days: int)
    requires ValidDate(next) && ValidInstant(now)
    ensures days == DayNumber(next) - DayNumber(now.date)
  {
    var diff := MidnightMillis(next) - EpochMillis(now);
    // Math.ceil(x / k) is -floor(-x / k), and `/` on int floors for k > 0
    -((-diff) / MillisPerDay)
  }

  /** The "Days remaining" card shows "Due Today!" exactly when this holds. */
  predicate IsDue(days: int) {
    days <= 0
  }

  /** "Due Today!" replaces the day count exactly when the salary date is
      not a later day than today: today itself, or a day already gone. */
  lemma DueMeans(next: Date, now: Instant)
    requires ValidDate(next) && ValidInstant(now)
    ensures IsDue(DaysUntil(next, now)) <==> !Before(now.date, next)
    ensures !IsDue(DaysUntil(next, now)) ==> DaysUntil(next, now) >= 1
  {
    DayNumberOrder(now.date, next);
  }

  function Max(a: int, b: int): int {
    if a < b then b else a
  }

  /** `Math.round(((30 - Math.max(days, 0)) / 30) * 100)`: the nearest whole
      percent of the 30-day month elapsed, halves rounded up. A due salary
      shows 100, and any wait of 0 to 30 days shows a value in [0, 100]. */
  function ProgressPercent(days: int): (pct: int)
    ensures 60 * pct - 30 <= 200 * (30 - Max(days, 0)) < 60 * pct + 30
    ensures IsDue(days) ==> pct == 100
    ensures 0 <= days <= 30 ==> 0 <= pct <= 100
  {
    (200 * (30 - Max(days, 0)) + 30) / 60
  }

  /** The progress never grows as the wait grows. */
  lemma ProgressAntitone(d1: int, d2: int)
    requires d1 <= d2
    ensures ProgressPercent(d2) <= ProgressPercent(d1)
  {}

  /** `Math.round(totalEarnings / 5)`: the nearest whole rupee to a fifth of
      the total earnings, halves rounded up. */
  function AverageMonthly(totalEarnings: int): (avg: int)
    ensures 10 * avg - 5 <= 2 * totalEarnings < 10 * avg + 5
  {
    (2 * totalEarnings + 5) / 10
  }

  /** `today > new Date(date)`: the clock is past UTC midnight of `date`. */
  predicate Passed(now: Instant, date: Date)
    requires ValidInstant(now) && ValidDate(date)
  {
    EpochMillis(now) > MidnightMillis(date)
  }

  /** The salary date has passed once its day has begun: on an earlier day
      it has not, on a later day it has, and on the day itself it has from the
      first millisecond after midnight on. */
  lemma PassedMeans(now: Instant, date: Date)
    requires ValidInstant(now) && ValidDate(date)
    ensures Passed(now, date) <==> Before(date, now.date) || (date == now.date && now.millis > 0)
  {
    DayNumberOrder(date, now.date);
  }

  /** The date `new Date(today)` holds after `setMonth(getMonth() + 1)` and
      `setDate(25)`. `setMonth` keeps the day of the month, and a day beyond
      the end of the next month rolls over into the month after it, so from
      the 29th to the 31st the 25th found may lie two months ahead. */
  function NextPayday(today: Date): (r: Date)
    requires ValidDate(today)
    ensures ValidDate(r) && r.day == 25
    ensures Before(today, r)
  {
    var next := NextMonth(today.year, today.month);
    if today.day <= DaysInMonth(next.0, next.1) then Date(next.0, next.1, 25)
    else
      var after := NextMonth(next.0, next.1);
      Date(after.0, after.1, 25)
  }

  /** When today's day exists in the next month (always up to the 28th),
      the new salary date is the 25th of the next month. Together with
      `NextPaydaySkipsMonth` this covers every day. */
  lemma NextPaydayNextMonth(today: Date)
    requires ValidDate(today)
    requires var next := NextMonth(today.year, today.month); today.day <= DaysInMonth(next.0, next.1)
    ensures (NextPayday(today).year, NextPayday(today).month) == NextMonth(today.year, today.month)
  {}

  /** From the 29th to the 31st, when the next month is shorter than today's
      day, `setMonth` overflows into the month after it, and that month's 25th
      is the new salary date: a whole month is skipped. */
  lemma NextPaydaySkipsMonth(today: Date)
    requires ValidDate(today)
    requires var next := NextMonth(today.year, today.month); today.day > DaysInMonth(next.0, next.1)
    ensures today.day >= 29
    ensures var next := NextMonth(today.year, today.month);
      (NextPayday(today).year, NextPayday(today).month) == NextMonth(next.0, next.1)
  {}

  /** On January 31 of a common year the month is skipped: `setMonth` lands on
      March 3 and the new salary date is March 25. */
  lemma NextPaydaySkipsFebruary()
    ensures NextPayday(Date(2025, 1, 31)) == Date(2025, 3, 25)
  {
    assert !IsLeapYear(2025);
  }

  /** The record held after the mount effect, which reads `stored` under
      `shippy_salary` while its closure still sees the `initial` record of the
      first render. When the initial record's salary date has passed, the
      stored record is replaced by the initial one with the next salary date
      moved on; otherwise the stored record, or the initial one when nothing
      was stored, is kept. */
  function LoadedSalary(stored: Option<SalaryData>, initial: SalaryData, now: Instant): (r: SalaryData)
    requires ValidInstant(now) && WellFormed(initial)
    ensures Passed(now, initial.nextSalaryDate) ==>
      && r == initial.(nextSalaryDate := r.nextSalaryDate)
      && r.nextSalaryDate.day == 25 && Before(now.date, r.nextSalaryDate)
    ensures !Passed(now, initial.nextSalaryDate) ==>
      r == if stored.Some? then stored.value else initial
  {
    if Passed(now, initial.nextSalaryDate) then
      initial.(nextSalaryDate := NextPayday(now.date))
    else if stored.Some? then stored.value
    else initial
  }

  /** Once the initial salary date has passed, loading yields a salary date on
      the 25th, strictly after today, so the page shows a positive number of
      days and never "Due Today!"; every other field is the initial record's. */
  lemma LoadAdvancesPassedDate(stored: Option<SalaryData>, initial: SalaryData, now: Instant)
    requires ValidInstant(now) && WellFormed(initial)
    requires Passed(now, initial.nextSalaryDate)
    ensures var r := LoadedSalary(stored, initial, now);
      && WellFormed(r)
      && r.nextSalaryDate.day == 25
      && Before(now.date, r.nextSalaryDate)
      && DaysUntil(r.nextSalaryDate, now) >= 1
      && !IsDue(DaysUntil(r.nextSalaryDate, now))
      && r == initial.(nextSalaryDate := r.nextSalaryDate)
  {
    var r := LoadedSalary(stored, initial, now);
    DayNumberAscends(now.date, r.nextSalaryDate);
  }

  /** The comparison looks at the initial record only: once its date has
      passed, whatever was stored is discarded, edits included. */
  lemma LoadIgnoresStoredRecord(s1: Option<SalaryData>, s2: Option<SalaryData>, initial: SalaryData, now: Instant)
    requires ValidInstant(now) && WellFormed(initial)
    requires Passed(now, initial.nextSalaryDate)
    ensures LoadedSalary(s1, initial, now) == LoadedSalary(s2, initial, now)
  {}
}
