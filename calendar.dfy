/**
 * Civil date-times in the proleptic Gregorian calendar, always UTC, with the
 * arithmetic the period code relies on: Python's `datetime` comparison,
 * `timedelta` steps of hours and days, `relativedelta(months=n)` and
 * `relativedelta(weekday=MO(-1))`.  Ordinals and weekdays use CPython's own
 * formulas (`toordinal`, `weekday`).
 */
module Calendar {

  datatype Civil = Civil(year: int, month: int, day: int,
                         hour: int, minute: int, second: int, microsecond: int)

  predicate IsLeapYear(y: int) {
    y % 4 == 0 && (y % 100 != 0 || y % 400 == 0)
  }

  function DaysInMonth(y: int, m: int): (n: int)
    requires 1 <= m <= 12
    ensures 28 <= n <= 31
  {
    if m == 2 then (if IsLeapYear(y) then 29 else 28)
    else if m == 4 || m == 6 || m == 9 || m == 11 then 30
    else 31
  }

  ghost predicate ValidCivil(c: Civil) {
    && 1 <= c.month <= 12
    && 1 <= c.day <= DaysInMonth(c.year, c.month)
    && 0 <= c.hour < 24
    && 0 <= c.minute < 60
    && 0 <= c.second < 60
    && 0 <= c.microsecond < 1000000
  }

  /** A well-formed `datetime` value. */
  type DateTime = c: Civil | ValidCivil(c) witness Civil(1970, 1, 1, 0, 0, 0, 0)

  // ---------------------------------------------------------------------------
  // Ordering: CPython compares same-zone datetimes field by field.

  predicate SameDate(a: DateTime, b: DateTime) {
    a.year == b.year && a.month == b.month && a.day == b.day
  }

  predicate DateBefore(a: DateTime, b: DateTime) {
    || a.year < b.year
    || (a.year == b.year && (a.month < b.month || (a.month == b.month && a.day < b.day)))
  }

  predicate TimeBefore(a: DateTime, b: DateTime) {
    || a.hour < b.hour
    || (a.hour == b.hour &&
        (|| a.minute < b.minute
         || (a.minute == b.minute &&
             (a.second < b.second || (a.second == b.second && a.microsecond < b.microsecond)))))
  }

  /** `a < b` on datetimes. */
  predicate Before(a: DateTime, b: DateTime) {
    DateBefore(a, b) || (SameDate(a, b) && TimeBefore(a, b))
  }

  /** `a <= b` on datetimes. */
  predicate NotAfter(a: DateTime, b: DateTime) {
    a == b || Before(a, b)
  }

  lemma BeforeTotal(a: DateTime, b: DateTime)
    ensures a == b || Before(a, b) || Before(b, a)
    ensures !(Before(a, b) && Before(b, a))
    ensures !Before(a, a)
  {
  }

  // ---------------------------------------------------------------------------
  // Field replacement (`datetime.replace`).

  /** `_truncate_time`: midnight of the same day. */
  function TruncateTime(t: DateTime): (r: DateTime)
    ensures SameDate(r, t) && IsMidnight(r) && NotAfter(r, t)
  {
    t.(hour := 0, minute := 0, second := 0, microsecond := 0)
  }

  predicate IsMidnight(t: DateTime) {
    t.hour == 0 && t.minute == 0 && t.second == 0 && t.microsecond == 0
  }

  // ---------------------------------------------------------------------------
  // CPython's ordinal: day 1 is 0001-01-01.

  function DaysBeforeYear(y: int): int {
    var k := y - 1;
    365 * k + k / 4 - k / 100 + k / 400
  }

  function DaysBeforeMonth(y: int, m: int): (n: int)
    requires 1 <= m <= 12
    ensures 0 <= n
  {
    var table := [0, 31, 59, 90, 120, 151, 181, 212, 243, 273, 304, 334];
    table[m - 1] + (if m > 2 && IsLeapYear(y) then 1 else 0)
  }

  function DaysInYear(y: int): int {
    if IsLeapYear(y) then 366 else 365
  }

  function Ordinal(t: DateTime): int {
    DaysBeforeYear(t.year) + DaysBeforeMonth(t.year, t.month) + t.day
  }

  /** `datetime.weekday()`: Monday is 0, Sunday is 6. */
  function Weekday(t: DateTime): (w: int)
    ensures 0 <= w < 7
  {
    (Ordinal(t) + 6) % 7
  }

  lemma DaysBeforeYearStep(y: int)
    ensures DaysBeforeYear(y + 1) == DaysBeforeYear(y) + DaysInYear(y)
  {
    var a, b, c := y / 4 - (y - 1) / 4, y / 100 - (y - 1) / 100, y / 400 - (y - 1) / 400;
    DivStep(y, 4);
    DivStep(y, 100);
    DivStep(y, 400);
    assert DaysBeforeYear(y + 1) == DaysBeforeYear(y) + 365 + a - b + c;
    assert IsLeapYear(y) <==> (a == 1 && (b == 0 || c == 1));
    assert c == 1 ==> b == 1 && a == 1 by {
      if c == 1 {
        DivisorChain(y);
      }
    }
    assert b == 1 ==> a == 1 by {
      if b == 1 {
        DivisorChain(y);
      }
    }
  }

  /** `y / n` grows by one exactly when `n` divides `y`. */
  lemma DivStep(y: int, n: int)
    requires n == 4 || n == 100 || n == 400
    ensures y / n - (y - 1) / n == if y % n == 0 then 1 else 0
  {
  }

  lemma DivisorChain(y: int)
    ensures y % 400 == 0 ==> y % 100 == 0
    ensures y % 100 == 0 ==> y % 4 == 0
  {
  }

  lemma {:induction false} DaysBeforeYearMonotone(a: int, b: int)
    requires a <= b
    ensures DaysBeforeYear(a) + 365 * (b - a) <= DaysBeforeYear(b)
    decreases b - a
  {
    if a < b {
      DaysBeforeYearMonotone(a, b - 1);
      DaysBeforeYearStep(b - 1);
    }
  }

  lemma DaysBeforeNextMonth(y: int, m: int)
    requires 1 <= m < 12
    ensures DaysBeforeMonth(y, m + 1) == DaysBeforeMonth(y, m) + DaysInMonth(y, m)
  {
  }

  lemma DayOfYearBound(t: DateTime)
    ensures DaysBeforeMonth(t.year, t.month) + t.day <= DaysInYear(t.year)
  {
  }

  lemma MonthsOrdered(y: int, m1: int, m2: int)
    requires 1 <= m1 < m2 <= 12
    ensures DaysBeforeMonth(y, m1) + DaysInMonth(y, m1) <= DaysBeforeMonth(y, m2)
  {
  }

  /** Ordinals are strictly increasing in date order. */
  lemma OrdinalMonotone(a: DateTime, b: DateTime)
    requires DateBefore(a, b)
    ensures Ordinal(a) < Ordinal(b)
  {
    if a.year < b.year {
      DayOfYearBound(a);
      DaysBeforeYearStep(a.year);
      DaysBeforeYearMonotone(a.year + 1, b.year);
    } else if a.month < b.month {
      MonthsOrdered(a.year, a.month, b.month);
    }
  }

  /** The ordinal determines the date, and its order is the date order. */
  lemma OrdinalOrder(a: DateTime, b: DateTime)
    ensures Ordinal(a) == Ordinal(b) <==> SameDate(a, b)
    ensures Ordinal(a) < Ordinal(b) <==> DateBefore(a, b)
  {
    if DateBefore(a, b) {
      OrdinalMonotone(a, b);
    } else if DateBefore(b, a) {
      OrdinalMonotone(b, a);
    }
  }

  // ---------------------------------------------------------------------------
  // Day steps (`+ timedelta(days=1)` and `- timedelta(days=1)`); time of day kept.

  function NextDay(t: DateTime): (r: DateTime)
    ensures Ordinal(r) == Ordinal(t) + 1
    ensures r.hour == t.hour && r.minute == t.minute && r.second == t.second
    ensures r.microsecond == t.microsecond
  {
    if t.day < DaysInMonth(t.year, t.month) then
      t.(day := t.day + 1)
    else if t.month < 12 then
      DaysBeforeNextMonth(t.year, t.month);
      t.(month := t.month + 1, day := 1)
    else
      DaysBeforeYearStep(t.year);
      t.(year := t.year + 1, month := 1, day := 1)
  }

  function PrevDay(t: DateTime): (r: DateTime)
    ensures Ordinal(r) == Ordinal(t) - 1
    ensures r.hour == t.hour && r.minute == t.minute && r.second == t.second
    ensures r.microsecond == t.microsecond
  {
    if t.day > 1 then
      t.(day := t.day - 1)
    else if t.month > 1 then
      DaysBeforeNextMonth(t.year, t.month - 1);
      t.(month := t.month - 1, day := DaysInMonth(t.year, t.month - 1))
    else
      DaysBeforeYearStep(t.year - 1);
      t.(year := t.year - 1, month := 12, day := 31)
  }

  function AddDays(t: DateTime, n: nat): (r: DateTime)
    ensures Ordinal(r) == Ordinal(t) + n
    ensures r.hour == t.hour && r.minute == t.minute && r.second == t.second
    ensures r.microsecond == t.microsecond
    decreases n
  {
    if n == 0 then t else AddDays(NextDay(t), n - 1)
  }

  function SubDays(t: DateTime, n: nat): (r: DateTime)
    ensures Ordinal(r) == Ordinal(t) - n
    ensures r.hour == t.hour && r.minute == t.minute && r.second == t.second
    ensures r.microsecond == t.microsecond
    decreases n
  {
    if n == 0 then t else SubDays(PrevDay(t), n - 1)
  }

  /** Two datetimes with the same time of day are ordered as their ordinals. */
  lemma SameClockOrder(a: DateTime, b: DateTime)
    requires a.hour == b.hour && a.minute == b.minute
    requires a.second == b.second && a.microsecond == b.microsecond
    ensures Ordinal(a) == Ordinal(b) <==> a == b
    ensures Ordinal(a) < Ordinal(b) <==> Before(a, b)
  {
    OrdinalOrder(a, b);
  }

  /** A later ordinal at any time of day is a later datetime. */
  lemma LaterDate(a: DateTime, b: DateTime)
    requires Ordinal(a) < Ordinal(b)
    ensures Before(a, b)
  {
    OrdinalOrder(a, b);
  }

  /** Microseconds since the start of day 0: a linear rank of datetimes. */
  function Instant(t: DateTime): int {
    (((Ordinal(t) * 24 + t.hour) * 60 + t.minute) * 60 + t.second) * 1000000 + t.microsecond
  }

  lemma InstantOrder(a: DateTime, b: DateTime)
    requires Before(a, b)
    ensures Instant(a) < Instant(b)
  {
    OrdinalOrder(a, b);
  }

  // ---------------------------------------------------------------------------
  // `+ timedelta(hours=1)`.

  function AddHour(t: DateTime): (r: DateTime)
    ensures Before(t, r)
    ensures Instant(r) == Instant(t) + 3600 * 1000000
    ensures r.minute == t.minute && r.second == t.second && r.microsecond == t.microsecond
  {
    if t.hour < 23 then t.(hour := t.hour + 1)
    else
      var n := NextDay(t);
      LaterDate(t, n);
      n.(hour := 0)
  }

  // ---------------------------------------------------------------------------
  // `+ relativedelta(months=n)`: shift the month, clamp the day to the new
  // month's length, keep the time of day.

  function AddMonths(t: DateTime, n: int): (r: DateTime)
    requires 1 <= n <= 12
    ensures Before(t, r)
    ensures r.hour == t.hour && r.minute == t.minute && r.second == t.second
    ensures r.microsecond == t.microsecond
    ensures r.year * 12 + r.month == t.year * 12 + t.month + n
    ensures r.day == if t.day < DaysInMonth(r.year, r.month) then t.day else DaysInMonth(r.year, r.month)
  {
    var m := t.month + n;
    var year := if m > 12 then t.year + 1 else t.year;
    var month := if m > 12 then m - 12 else m;
    var dim := DaysInMonth(year, month);
    t.(year := year, month := month, day := if t.day < dim then t.day else dim)
  }

  lemma WeekAligned(x: int, y: int)
    requires y == x - x % 7
    ensures y % 7 == 0
  {
    assert y == 7 * (x / 7);
  }

  lemma ShiftWeek(x: int, y: int)
    requires y == x + 7
    ensures y % 7 == x % 7
  {
  }

  /** Seven days later is the same weekday. */
  lemma WeekdayAfterWeek(t: DateTime)
    ensures Weekday(AddDays(t, 7)) == Weekday(t)
  {
    ShiftWeek(Ordinal(t) + 6, Ordinal(AddDays(t, 7)) + 6);
  }

  /** `+ relativedelta(weekday=MO(-1))`: back to the Monday on or before `t`. */
  function BackToMonday(t: DateTime): (r: DateTime)
    ensures Weekday(r) == 0
    ensures Ordinal(r) == Ordinal(t) - Weekday(t)
    ensures r.hour == t.hour && r.minute == t.minute && r.second == t.second
    ensures r.microsecond == t.microsecond
  {
    var r := SubDays(t, Weekday(t));
    WeekAligned(Ordinal(t) + 6, Ordinal(r) + 6);
    r
  }
}
