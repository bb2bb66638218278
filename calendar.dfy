/**
  Proleptic Gregorian calendar dates as Python's `datetime.date` has them:
  a (year, month, day) triple, compared field by field, with leap years every
  fourth year except centuries not divisible by 400. `Ordinal` numbers the days
  the way `date.toordinal()` does (0001-01-01 is day 1) and is used only in
  proofs, to connect the field-by-field order with counting days.
*/
module Calendar {

  datatype Date = Date(year: int, month: int, day: int)

  predicate IsLeap(y: int) {
    y % 4 == 0 && (y % 100 != 0 || y % 400 == 0)
  }

  function DaysInMonth(y: int, m: int): (n: int)
    requires 1 <= m <= 12
    ensures 28 <= n <= 31
    ensures n == 29 <==> m == 2 && IsLeap(y)
    ensures m != 2 ==> n >= 30
  {
    if m == 2 then (if IsLeap(y) then 29 else 28)
    else if m == 4 || m == 6 || m == 9 || m == 11 then 30
    else 31
  }

  /** A date Python can construct (years are not bounded above in this model). */
  predicate ValidDate(d: Date) {
    d.year >= 1 && 1 <= d.month <= 12 && 1 <= d.day <= DaysInMonth(d.year, d.month)
  }

  /** `a < b` on Python dates: lexicographic on (year, month, day). */
  predicate Before(a: Date, b: Date) {
    a.year < b.year
    || (a.year == b.year && (a.month < b.month || (a.month == b.month && a.day < b.day)))
  }

  /** `a <= b` on Python dates. */
  predicate AtOrBefore(a: Date, b: Date) {
    !Before(b, a)
  }

  /** `d + timedelta(days=1)`. */
  function NextDay(d: Date): (r: Date)
    requires ValidDate(d)
    ensures ValidDate(r) && Before(d, r)
  {
    if d.day < DaysInMonth(d.year, d.month) then Date(d.year, d.month, d.day + 1)
    else if d.month < 12 then Date(d.year, d.month + 1, 1)
    else Date(d.year + 1, 1, 1)
  }

  /** `d + timedelta(days=n)` for n >= 0. */
  function AddDays(d: Date, n: nat): (r: Date)
    requires ValidDate(d)
    ensures ValidDate(r) && AtOrBefore(d, r)
    decreases n
  {
    if n == 0 then d else AddDays(NextDay(d), n - 1)
  }

  /** Days in the months of year y that precede month m. */
  function DaysBeforeMonth(y: int, m: int): nat
    requires 1 <= m <= 13
    decreases m
  {
    if m == 1 then 0 else DaysBeforeMonth(y, m - 1) + DaysInMonth(y, m - 1)
  }

  function DaysInYear(y: int): int {
    if IsLeap(y) then 366 else 365
  }

  /** The twelve months of a year add up to the length of the year. */
  lemma MonthsFillYear(y: int)
    ensures DaysBeforeMonth(y, 12) + 31 == DaysBeforeMonth(y, 13) == DaysInYear(y)
  {
  }

  /** Days in the years before year y, counting from year 1. */
  function DaysBeforeYear(y: int): nat
    requires y >= 1
    decreases y
  {
    if y == 1 then 0 else DaysBeforeYear(y - 1) + DaysInYear(y - 1)
  }

  /** `d.toordinal()`. */
  function Ordinal(d: Date): int
    requires ValidDate(d)
  {
    DaysBeforeYear(d.year) + DaysBeforeMonth(d.year, d.month) + d.day
  }

  lemma {:induction false} DaysBeforeMonthGrows(y: int, m1: int, m2: int)
    requires 1 <= m1 < m2 <= 13
    ensures DaysBeforeMonth(y, m1) + DaysInMonth(y, m1) <= DaysBeforeMonth(y, m2)
    decreases m2
  {
    if m2 > m1 + 1 {
      DaysBeforeMonthGrows(y, m1, m2 - 1);
    }
  }

  lemma {:induction false} DaysBeforeYearGrows(y1: int, y2: int)
    requires 1 <= y1 < y2
    ensures DaysBeforeYear(y1) + DaysInYear(y1) <= DaysBeforeYear(y2)
    decreases y2
  {
    if y2 > y1 + 1 {
      DaysBeforeYearGrows(y1, y2 - 1);
    }
  }

  /** The day of the year of a valid date never exceeds the length of its year. */
  lemma DayOfYearBound(d: Date)
    requires ValidDate(d)
    ensures 1 <= DaysBeforeMonth(d.year, d.month) + d.day <= DaysInYear(d.year)
  {
    if d.month < 12 {
      DaysBeforeMonthGrows(d.year, d.month, 12);
    }
    MonthsFillYear(d.year);
  }

  /** Counting days respects the field-by-field order of dates. */
  lemma OrdinalMonotone(a: Date, b: Date)
    requires ValidDate(a) && ValidDate(b) && Before(a, b)
    ensures Ordinal(a) < Ordinal(b)
  {
    if a.year < b.year {
      DayOfYearBound(a);
      DaysBeforeYearGrows(a.year, b.year);
    } else if a.month < b.month {
      DaysBeforeMonthGrows(a.year, a.month, b.month);
    }
  }

  /** Dates and their day numbers are ordered alike, and equal day numbers mean equal dates. */
  lemma OrdinalOrder(a: Date, b: Date)
    requires ValidDate(a) && ValidDate(b)
    ensures Before(a, b) <==> Ordinal(a) < Ordinal(b)
    ensures a == b <==> Ordinal(a) == Ordinal(b)
  {
    if Before(a, b) {
      OrdinalMonotone(a, b);
    } else if Before(b, a) {
      OrdinalMonotone(b, a);
    }
  }

  lemma NextDayOrdinal(d: Date)
    requires ValidDate(d)
    ensures Ordinal(NextDay(d)) == Ordinal(d) + 1
  {
    if d.day == DaysInMonth(d.year, d.month) && d.month == 12 {
      MonthsFillYear(d.year);
    }
  }

  lemma {:induction false} AddDaysOrdinal(d: Date, n: nat)
    requires ValidDate(d)
    ensures Ordinal(AddDays(d, n)) == Ordinal(d) + n
    decreases n
  {
    if n > 0 {
      NextDayOrdinal(d);
      AddDaysOrdinal(NextDay(d), n - 1);
    }
  }

  /**
    A date p lies in the closed window [d, d + n days] exactly when it is one
    of the n + 1 dates d, d + 1 day, ..., d + n days.
  */
  lemma WindowIsConsecutiveDays(d: Date, p: Date, n: nat)
    requires ValidDate(d) && ValidDate(p)
    ensures AtOrBefore(d, p) && AtOrBefore(p, AddDays(d, n))
            <==> exists k: nat :: k <= n && p == AddDays(d, k)
  {
    var last := AddDays(d, n);
    AddDaysOrdinal(d, n);
    OrdinalOrder(d, p);
    OrdinalOrder(p, last);
    if AtOrBefore(d, p) && AtOrBefore(p, last) {
      var k: nat := Ordinal(p) - Ordinal(d);
      AddDaysOrdinal(d, k);
      OrdinalOrder(p, AddDays(d, k));
      assert k <= n && p == AddDays(d, k);
    }
    if exists k: nat :: k <= n && p == AddDays(d, k) {
      var k: nat :| k <= n && p == AddDays(d, k);
      AddDaysOrdinal(d, k);
    }
  }

  /** A date between d and d + k days, for k <= n, lies in [d, d + n days]. */
  lemma EarlierStaysInWindow(d: Date, p: Date, k: nat)
    requires ValidDate(d) && ValidDate(p) && k <= 7
    requires AtOrBefore(d, p) && AtOrBefore(p, AddDays(d, k))
    ensures AtOrBefore(d, p) && AtOrBefore(p, AddDays(d, 7))
  {
    AddDaysOrdinal(d, k);
    AddDaysOrdinal(d, 7);
    OrdinalOrder(AddDays(d, k), p);
    OrdinalOrder(AddDays(d, 7), p);
  }
}
