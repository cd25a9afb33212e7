/** The Gregorian calendar of the configuration: valid dates, the next day, and
    the day number whose differences count days. */
module Calendar {
  import opened Ledger

  datatype Date = Date(year: int, month: int, day: int)

  const MIN_YEAR := -9999
  const MAX_YEAR := 9999

  predicate IsLeap(y: int) { y % 4 == 0 && (y % 100 != 0 || y % 400 == 0) }

  function DaysInYear(y: int): int { if IsLeap(y) then 366 else 365 }

  function DaysInMonth(y: int, m: int): int
    requires 1 <= m <= 12
  {
    if m == 2 then if IsLeap(y) then 29 else 28
    else if m in {4, 6, 9, 11} then 30 else 31
  }

  predicate ValidDate(d: Date) {
    MIN_YEAR <= d.year <= MAX_YEAR && 1 <= d.month <= 12 && 1 <= d.day <= DaysInMonth(d.year, d.month)
  }

  /** Calendar order, as `Date` derives it. */
  predicate Before(a: Date, b: Date) {
    a.year < b.year || (a.year == b.year && (a.month < b.month || (a.month == b.month && a.day < b.day)))
  }

  function NextDay(d: Date): Option<Date>
    requires ValidDate(d)
  {
    if d.day < DaysInMonth(d.year, d.month) then Some(Date(d.year, d.month, d.day + 1))
    else if d.month < 12 then Some(Date(d.year, d.month + 1, 1))
    else if d.year < MAX_YEAR then Some(Date(d.year + 1, 1, 1))
    else None
  }

  // ----- The closed form -----

  function DaysBeforeMonth(y: int, m: int): int
    requires 1 <= m <= 12
  {
    if m == 1 then 0 else DaysBeforeMonth(y, m - 1) + DaysInMonth(y, m - 1)
  }

  function Ordinal(d: Date): int
    requires ValidDate(d)
  {
    DaysBeforeMonth(d.year, d.month) + d.day
  }

  /** Days before the first of January of year `y`, from a fixed origin. */
  function YearStart(y: int): int {
    var z := y - 1;
    365 * z + z / 4 - z / 100 + z / 400
  }

  function DayNumber(d: Date): int
    requires ValidDate(d)
  {
    YearStart(d.year) + Ordinal(d)
  }

  /** `(to - from).whole_days()`. */
  function WholeDays(from: Date, to: Date): int
    requires ValidDate(from) && ValidDate(to)
  {
    DayNumber(to) - DayNumber(from)
  }

  // ----- The closed form counts days -----

  lemma QuotientSteps(y: int)
    ensures y / 4 == (y - 1) / 4 + (if y % 4 == 0 then 1 else 0)
    ensures y / 100 == (y - 1) / 100 + (if y % 100 == 0 then 1 else 0)
    ensures y / 400 == (y - 1) / 400 + (if y % 400 == 0 then 1 else 0)
  {
  }

  lemma LeapIsQuotients(y: int)
    ensures y % 400 == 0 ==> y % 100 == 0
    ensures y % 100 == 0 ==> y % 4 == 0
  {
  }

  lemma YearStartStep(y: int)
    ensures YearStart(y + 1) == YearStart(y) + DaysInYear(y)
  {
    QuotientSteps(y);
    LeapIsQuotients(y);
  }

  lemma MonthTable(y: int)
    ensures DaysBeforeMonth(y, 12) + DaysInMonth(y, 12) == DaysInYear(y)
    ensures forall m | 1 <= m <= 12 :: DaysBeforeMonth(y, m) >= 0
  {
    var leap := if IsLeap(y) then 1 else 0;
    assert DaysBeforeMonth(y, 1) == 0;
    assert DaysBeforeMonth(y, 2) == 31;
    assert DaysBeforeMonth(y, 3) == 59 + leap;
    assert DaysBeforeMonth(y, 4) == 90 + leap;
    assert DaysBeforeMonth(y, 5) == 120 + leap;
    assert DaysBeforeMonth(y, 6) == 151 + leap;
    assert DaysBeforeMonth(y, 7) == 181 + leap;
    assert DaysBeforeMonth(y, 8) == 212 + leap;
    assert DaysBeforeMonth(y, 9) == 243 + leap;
    assert DaysBeforeMonth(y, 10) == 273 + leap;
    assert DaysBeforeMonth(y, 11) == 304 + leap;
    assert DaysBeforeMonth(y, 12) == 334 + leap;
  }

  /** A step to the next day adds one to the day number; only the last
      representable day has none. */
  lemma NextDayIncrements(d: Date)
    requires ValidDate(d)
    ensures NextDay(d).None? <==> d == Date(9999, 12, 31)
    ensures NextDay(d).Some? ==>
              ValidDate(NextDay(d).value) && DayNumber(NextDay(d).value) == DayNumber(d) + 1
              && Before(d, NextDay(d).value)
  {
    if d.day == DaysInMonth(d.year, d.month) && d.month == 12 {
      YearStartStep(d.year);
      MonthTable(d.year);
    }
  }

  lemma {:induction false} YearStartMonotone(y: int, z: int)
    requires y < z
    ensures YearStart(y) + DaysInYear(y) <= YearStart(z)
    decreases z - y
  {
    YearStartStep(y);
    if y + 1 < z {
      YearStartMonotone(y + 1, z);
    }
  }

  lemma {:induction false} MonthsMonotone(y: int, m: int, n: int)
    requires 1 <= m < n <= 12
    ensures DaysBeforeMonth(y, m) + DaysInMonth(y, m) <= DaysBeforeMonth(y, n)
    decreases n - m
  {
    if m + 1 < n {
      MonthsMonotone(y, m, n - 1);
    }
  }

  lemma OrdinalInYear(d: Date)
    requires ValidDate(d)
    ensures 1 <= Ordinal(d) <= DaysInYear(d.year)
  {
    MonthTable(d.year);
    if d.month < 12 {
      MonthsMonotone(d.year, d.month, 12);
    }
  }

  lemma BeforeIsSmaller(a: Date, b: Date)
    requires ValidDate(a) && ValidDate(b) && Before(a, b)
    ensures DayNumber(a) < DayNumber(b)
  {
    OrdinalInYear(a);
    OrdinalInYear(b);
    if a.year < b.year {
      YearStartMonotone(a.year, b.year);
    } else if a.month < b.month {
      MonthsMonotone(a.year, a.month, b.month);
    }
  }

  /** Calendar order is the order of day numbers, so equal numbers are equal
      dates. */
  lemma OrderIsDayNumber(a: Date, b: Date)
    requires ValidDate(a) && ValidDate(b)
    ensures Before(a, b) <==> DayNumber(a) < DayNumber(b)
    ensures a == b <==> DayNumber(a) == DayNumber(b)
  {
    if Before(a, b) {
      BeforeIsSmaller(a, b);
    } else if a != b {
      BeforeIsSmaller(b, a);
    }
  }

  // ----- Stepping -----

  /** The date `n` days later, one day at a time. */
  function Walk(d: Date, n: nat): Option<Date>
    requires ValidDate(d)
    decreases n
  {
    if n == 0 then Some(d)
    else
      NextDayIncrements(d);
      match NextDay(d) case None => None case Some(e) => Walk(e, n - 1)
  }

  lemma NothingAfterLastDay(a: Date, b: Date)
    requires ValidDate(a) && ValidDate(b) && NextDay(a).None?
    ensures !Before(a, b)
  {
  }

  lemma NoDaysIsSameDate(a: Date, b: Date)
    requires ValidDate(a) && ValidDate(b)
    ensures a == b <==> WholeDays(a, b) == 0
    ensures WholeDays(a, b) > 0 ==> Before(a, b)
  {
    OrderIsDayNumber(a, b);
  }

  lemma NextDayIsOneLess(a: Date, b: Date)
    requires ValidDate(a) && ValidDate(b) && NextDay(a).Some?
    ensures ValidDate(NextDay(a).value) && WholeDays(NextDay(a).value, b) == WholeDays(a, b) - 1
  {
    NextDayIncrements(a);
  }

  /** `whole_days` is the number of steps: from `a`, `n` steps lead to `b`
      exactly when `n` is the difference of their day numbers. */
  lemma {:induction false} WalkIffWholeDays(a: Date, b: Date, n: nat)
    requires ValidDate(a) && ValidDate(b)
    ensures Walk(a, n) == Some(b) <==> WholeDays(a, b) == n
    decreases n
  {
    NoDaysIsSameDate(a, b);
    if n > 0 {
      match NextDay(a)
      case Some(e) =>
        NextDayIsOneLess(a, b);
        WalkIffWholeDays(e, b, n - 1);
      case None => NothingAfterLastDay(a, b);
    }
  }
}
