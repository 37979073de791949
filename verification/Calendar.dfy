/** The proleptic Gregorian calendar of Go's `time` package: day numbers
    relative to 1970-01-01, their inverse, and `time.Date`'s month overflow. */
module Calendar {

  predicate IsLeap(year: int) {
    year % 4 == 0 && (year % 100 != 0 || year % 400 == 0)
  }

  function DaysIn(year: int, month: int): (days: int)
    requires 1 <= month <= 12
    ensures 28 <= days <= 31
  {
    if month == 2 then (if IsLeap(year) then 29 else 28)
    else if month == 4 || month == 6 || month == 9 || month == 11 then 30
    else 31
  }

  function DaysInYear(year: int): int { if IsLeap(year) then 366 else 365 }

  datatype Civil = Civil(year: int, month: int, day: int) {
    predicate Valid() { 1 <= month <= 12 && 1 <= day <= DaysIn(year, month) }

    /** The date one day later, by the rules of the calendar. */
    function Next(): Civil
      requires Valid()
    {
      if day < DaysIn(year, month) then Civil(year, month, day + 1)
      else if month < 12 then Civil(year, month + 1, 1)
      else Civil(year + 1, 1, 1)
    }
  }

  // ---------- dates to day numbers ----------

  /** Days from 1970-01-01 to the first day of `year`, counted year by year. */
  function DaysBeforeYear(year: int): int
    decreases if year < 1970 then 1970 - year else year - 1970
  {
    if year == 1970 then 0
    else if year > 1970 then DaysBeforeYear(year - 1) + DaysInYear(year - 1)
    else DaysBeforeYear(year + 1) - DaysInYear(year)
  }

  /** Leap days in the years before `year`, up to a constant. */
  function LeapsBefore(year: int): int {
    (year - 1) / 4 - (year - 1) / 100 + (year - 1) / 400
  }

  lemma NextMultiple(n: int, k: int)
    requires k == 4 || k == 100 || k == 400
    ensures (n + 1) / k == n / k + (if (n + 1) % k == 0 then 1 else 0)
  {
  }

  lemma LeapStep(year: int)
    ensures LeapsBefore(year + 1) == LeapsBefore(year) + (if IsLeap(year) then 1 else 0)
  {
    NextMultiple(year - 1, 4);
    NextMultiple(year - 1, 100);
    NextMultiple(year - 1, 400);
    LeapDivisors(year);
  }

  lemma LeapDivisors(year: int)
    ensures year % 400 == 0 ==> year % 100 == 0
    ensures year % 100 == 0 ==> year % 4 == 0
  {
  }

  /** The count in closed form. */
  lemma {:induction false} DaysBeforeYearFormula(year: int)
    ensures DaysBeforeYear(year) == 365 * (year - 1970) + LeapsBefore(year) - 477
    decreases if year < 1970 then 1970 - year else year - 1970
  {
    if year > 1970 {
      DaysBeforeYearFormula(year - 1);
      LeapStep(year - 1);
    } else if year < 1970 {
      DaysBeforeYearFormula(year + 1);
      LeapStep(year);
    }
  }

  /** Days in the months of `year` before `month`. */
  function DaysBeforeMonth(year: int, month: int): (days: int)
    requires 1 <= month <= 13
    ensures days >= 0
    decreases month
  {
    if month == 1 then 0 else DaysBeforeMonth(year, month - 1) + DaysIn(year, month - 1)
  }

  /** Days from 1970-01-01 to a date. */
  function Ordinal(c: Civil): int
    requires c.Valid()
  {
    DaysBeforeYear(c.year) + DaysBeforeMonth(c.year, c.month) + c.day - 1
  }

  /** The first of a month, as `time.Date` computes it: months outside 1..12 roll
      over into other years. */
  function FirstOfMonth(year: int, month: int): (c: Civil)
    ensures c.Valid() && c.day == 1
  {
    Civil(year + (month - 1) / 12, (month - 1) % 12 + 1, 1)
  }

  /** The day number of `time.Date(year, month, day, ...)`; days outside the month
      count on into the neighbouring months. */
  function DayNumber(year: int, month: int, day: int): int {
    Ordinal(FirstOfMonth(year, month)) + day - 1
  }

  lemma DayNumberOfDate(c: Civil)
    requires c.Valid()
    ensures DayNumber(c.year, c.month, c.day) == Ordinal(c)
  {
    assert FirstOfMonth(c.year, c.month) == Civil(c.year, c.month, 1);
  }

  lemma YearLength(year: int)
    ensures DaysBeforeYear(year + 1) == DaysBeforeYear(year) + DaysInYear(year)
  {
  }

  lemma MonthsFillYear(year: int)
    ensures DaysBeforeMonth(year, 13) == DaysInYear(year)
  {
    assert DaysBeforeMonth(year, 4) == DaysInYear(year) - 275;
    assert DaysBeforeMonth(year, 7) == DaysInYear(year) - 184;
    assert DaysBeforeMonth(year, 10) == DaysInYear(year) - 92;
  }

  // ---------- day numbers to dates ----------

  /** The year containing day `n`, looked for from `year` on. */
  function YearFrom(n: int, year: int): (y: int)
    ensures DaysBeforeYear(y) <= n < DaysBeforeYear(y + 1)
    decreases if n < DaysBeforeYear(year) then DaysBeforeYear(year) - n
              else if n >= DaysBeforeYear(year + 1) then n - DaysBeforeYear(year + 1) + 1
              else 0
  {
    YearLength(year - 1);
    YearLength(year);
    YearLength(year + 1);
    if n < DaysBeforeYear(year) then YearFrom(n, year - 1)
    else if n >= DaysBeforeYear(year + 1) then YearFrom(n, year + 1)
    else year
  }

  function MonthOf(year: int, dayOfYear: int, month: int): (m: int)
    requires 1 <= month <= 12
    requires DaysBeforeMonth(year, month) <= dayOfYear < DaysBeforeMonth(year, 13)
    ensures 1 <= m <= 12
    ensures DaysBeforeMonth(year, m) <= dayOfYear < DaysBeforeMonth(year, m + 1)
    decreases 12 - month
  {
    if dayOfYear < DaysBeforeMonth(year, month + 1) then month
    else MonthOf(year, dayOfYear, month + 1)
  }

  function CivilOf(n: int): (c: Civil)
    ensures c.Valid()
    ensures Ordinal(c) == n
  {
    var year := YearFrom(n, 1970);
    var dayOfYear := n - DaysBeforeYear(year);
    YearLength(year);
    MonthsFillYear(year);
    var month := MonthOf(year, dayOfYear, 1);
    Civil(year, month, dayOfYear - DaysBeforeMonth(year, month) + 1)
  }

  // ---------- the two are inverse ----------

  lemma {:induction false} YearsIncrease(a: int, b: int)
    requires a <= b
    ensures DaysBeforeYear(a) + 365 * (b - a) <= DaysBeforeYear(b)
    decreases b - a
  {
    if a < b {
      YearLength(b - 1);
      YearsIncrease(a, b - 1);
    }
  }

  lemma {:induction false} MonthsIncrease(year: int, a: int, b: int)
    requires 1 <= a <= b <= 13
    ensures DaysBeforeMonth(year, a) + 28 * (b - a) <= DaysBeforeMonth(year, b)
    decreases b - a
  {
    if a < b {
      MonthsIncrease(year, a, b - 1);
    }
  }

  lemma DateInYear(c: Civil)
    requires c.Valid()
    ensures DaysBeforeYear(c.year) <= Ordinal(c) < DaysBeforeYear(c.year + 1)
  {
    MonthsIncrease(c.year, c.month + 1, 13);
    MonthsFillYear(c.year);
    YearLength(c.year);
  }

  /** Ordinals order dates as the calendar does. */
  lemma OrdinalMonotone(a: Civil, b: Civil)
    requires a.Valid() && b.Valid()
    requires a.year < b.year || (a.year == b.year && a.month < b.month)
    ensures Ordinal(a) < Ordinal(b)
  {
    if a.year < b.year {
      hide Ordinal;
      DateInYear(a);
      DateInYear(b);
      YearsIncrease(a.year + 1, b.year);
    } else {
      MonthsIncrease(a.year, a.month + 1, b.month);
    }
  }

  lemma OrdinalInjective(c: Civil, d: Civil)
    requires c.Valid() && d.Valid() && Ordinal(c) == Ordinal(d)
    ensures c == d
  {
    if d.year < c.year || (d.year == c.year && d.month < c.month) {
      OrdinalMonotone(d, c);
    } else if c.year < d.year || (c.year == d.year && c.month < d.month) {
      OrdinalMonotone(c, d);
    }
  }

  /** Both directions: calendar fields and day numbers determine each other. */
  lemma DatesAndDayNumbers(c: Civil, n: int)
    requires c.Valid()
    ensures Ordinal(c) == n <==> CivilOf(n) == c
  {
    var d := CivilOf(n);
    if Ordinal(c) == n {
      OrdinalInjective(c, d);
    }
  }

  /** `time.Date` given the fields of day `n`, with `k` added to the day of the month. */
  lemma DaysLater(n: int, k: int)
    ensures var c := CivilOf(n); DayNumber(c.year, c.month, c.day + k) == n + k
  {
    DayNumberOfDate(CivilOf(n));
  }

  /** Day numbers count days: stepping through the calendar one date at a time
      visits the dates of consecutive day numbers, from 1970-01-01 on. */
  lemma SuccessiveDays(n: int)
    ensures CivilOf(n + 1) == CivilOf(n).Next()
  {
    var c := CivilOf(n);
    var d := NextOrdinal(c);
    DatesAndDayNumbers(d, n + 1);
  }

  lemma NextOrdinal(c: Civil) returns (d: Civil)
    requires c.Valid()
    ensures d == c.Next() && d.Valid() && Ordinal(d) == Ordinal(c) + 1
  {
    d := c.Next();
    if c.day == DaysIn(c.year, c.month) {
      if c.month == 12 {
        YearLength(c.year);
        MonthsFillYear(c.year);
      }
    }
  }

  // ---------- weekdays ----------

  /** Go's `Weekday()`, Sunday = 0; 1970-01-01 was a Thursday. */
  function GoWeekday(n: int): (w: int)
    ensures 0 <= w < 7
  {
    (n + 4) % 7
  }

  /** The scheduler's numbering, Monday = 1 to Sunday = 7. */
  function Weekday(n: int): (w: int)
    ensures 1 <= w <= 7
  {
    if GoWeekday(n) == 0 then 7 else GoWeekday(n)
  }

  /** The dates the scheduler's own tests rely on: 2026-05-16 is a Saturday. */
  lemma KnownWeekdays()
    ensures Weekday(Ordinal(Civil(2026, 5, 16))) == 6
    ensures Weekday(Ordinal(Civil(2026, 5, 18))) == 1
  {
    DaysBeforeYearFormula(2026);
    assert DaysBeforeYear(2026) == 20_454;
    assert DaysBeforeMonth(2026, 3) == 59;
    assert DaysBeforeMonth(2026, 5) == 120;
  }

  /** The weekday moves on by one from day to day, Sunday to Monday. */
  lemma WeekdayFollows(n: int)
    ensures Weekday(n + 1) == if Weekday(n) == 7 then 1 else Weekday(n) + 1
  {
  }

  /** Where the months of an ordinary and of a leap year begin. */
  lemma KnownMonths(year: int)
    ensures var first := Ordinal(Civil(year, 1, 1));
      var leap := if year % 400 == 0 || (year % 4 == 0 && year % 100 != 0) then 1 else 0;
      && Ordinal(Civil(year, 2, 1)) == first + 31 && Ordinal(Civil(year, 3, 1)) == first + 59 + leap
      && Ordinal(Civil(year, 4, 1)) == first + 90 + leap && Ordinal(Civil(year, 5, 1)) == first + 120 + leap
      && Ordinal(Civil(year, 6, 1)) == first + 151 + leap && Ordinal(Civil(year, 7, 1)) == first + 181 + leap
      && Ordinal(Civil(year, 8, 1)) == first + 212 + leap && Ordinal(Civil(year, 9, 1)) == first + 243 + leap
      && Ordinal(Civil(year, 10, 1)) == first + 273 + leap && Ordinal(Civil(year, 11, 1)) == first + 304 + leap
      && Ordinal(Civil(year, 12, 1)) == first + 334 + leap && Ordinal(Civil(year + 1, 1, 1)) == first + 365 + leap
  {
    LeapDivisors(year);
    YearLength(year);
    hide DaysBeforeYear;
    MonthStarts(year);
  }

  lemma MonthStarts(year: int)
    ensures var leap := if IsLeap(year) then 1 else 0;
      && DaysBeforeMonth(year, 1) == 0 && DaysBeforeMonth(year, 2) == 31 && DaysBeforeMonth(year, 3) == 59 + leap
      && DaysBeforeMonth(year, 4) == 90 + leap && DaysBeforeMonth(year, 5) == 120 + leap
      && DaysBeforeMonth(year, 6) == 151 + leap && DaysBeforeMonth(year, 7) == 181 + leap
      && DaysBeforeMonth(year, 8) == 212 + leap && DaysBeforeMonth(year, 9) == 243 + leap
      && DaysBeforeMonth(year, 10) == 273 + leap && DaysBeforeMonth(year, 11) == 304 + leap
      && DaysBeforeMonth(year, 12) == 334 + leap
  {
    assert DaysBeforeMonth(year, 4) == DaysBeforeMonth(year, 3) + 31;
    assert DaysBeforeMonth(year, 7) == DaysBeforeMonth(year, 6) + 30;
    assert DaysBeforeMonth(year, 10) == DaysBeforeMonth(year, 9) + 30;
  }
}
