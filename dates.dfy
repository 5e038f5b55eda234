/**
 * Calendar arithmetic of Python's `datetime.date`, which the slot engine relies on:
 * the proleptic Gregorian calendar, day ordinals (0001-01-01 is day 1), `weekday()`
 * with Monday = 0, adding a `timedelta(days=n)`, `replace(day=1)` and `strftime("%Y-%m")`.
 */
module Dates {

  datatype Date = Date(year: int, month: int, day: int)

  /** A calendar month; the model of the `"%Y-%m"` label the source keys slots and templates by. */
  datatype Month = Month(year: int, month: int)

  predicate IsLeapYear(y: int)
  {
    y % 4 == 0 && (y % 100 != 0 || y % 400 == 0)
  }

  function DaysInMonth(y: int, m: int): (n: int)
    requires 1 <= m <= 12
    ensures 28 <= n <= 31
    ensures n == 29 <==> m == 2 && IsLeapYear(y)
  {
    if m == 2 then (if IsLeapYear(y) then 29 else 28)
    else if m == 4 || m == 6 || m == 9 || m == 11 then 30
    else 31
  }

  function DaysInYear(y: int): int
  {
    if IsLeapYear(y) then 366 else 365
  }

  predicate ValidMonth(m: Month)
  {
    1 <= m.month <= 12
  }

  predicate ValidDate(d: Date)
  {
    1 <= d.month <= 12 && 1 <= d.day <= DaysInMonth(d.year, d.month)
  }

  function MonthOf(d: Date): Month
  {
    Month(d.year, d.month)
  }

  function MonthDays(m: Month): int
    requires ValidMonth(m)
  {
    DaysInMonth(m.year, m.month)
  }

  /** `d.replace(day=1)` */
  function FirstOfMonth(d: Date): (r: Date)
    requires ValidDate(d)
    ensures ValidDate(r) && MonthOf(r) == MonthOf(d) && r.day == 1
  {
    Date(d.year, d.month, 1)
  }

  function FirstDay(m: Month): (r: Date)
    requires ValidMonth(m)
    ensures ValidDate(r) && MonthOf(r) == m && r.day == 1
  {
    Date(m.year, m.month, 1)
  }

  /** Months counted from January of year 0, so that month order is integer order. */
  function MonthIndex(m: Month): int
  {
    12 * m.year + m.month - 1
  }

  function NextMonth(m: Month): (r: Month)
    requires ValidMonth(m)
    ensures ValidMonth(r) && MonthIndex(r) == MonthIndex(m) + 1
  {
    if m.month < 12 then Month(m.year, m.month + 1) else Month(m.year + 1, 1)
  }

  function PrevMonth(m: Month): (r: Month)
    requires ValidMonth(m)
    ensures ValidMonth(r) && MonthIndex(r) == MonthIndex(m) - 1
  {
    if m.month > 1 then Month(m.year, m.month - 1) else Month(m.year - 1, 12)
  }

  lemma MonthIndexInjective(a: Month, b: Month)
    requires ValidMonth(a) && ValidMonth(b) && MonthIndex(a) == MonthIndex(b)
    ensures a == b
  {
  }

  /** Days in the years before `y`, as Python's `_days_before_year`. */
  function DaysBeforeYear(y: int): int
  {
    var p := y - 1;
    p * 365 + p / 4 - p / 100 + p / 400
  }

  /** Days in the months of year `y` before month `m`, as Python's `_days_before_month`. */
  function DaysBeforeMonth(y: int, m: int): int
    requires 1 <= m <= 13
  {
    var base :=
      if m == 1 then 0 else if m == 2 then 31 else if m == 3 then 59
      else if m == 4 then 90 else if m == 5 then 120 else if m == 6 then 151
      else if m == 7 then 181 else if m == 8 then 212 else if m == 9 then 243
      else if m == 10 then 273 else if m == 11 then 304 else if m == 12 then 334
      else 365;
    base + (if m > 2 && IsLeapYear(y) then 1 else 0)
  }

  /** `date.toordinal()` */
  function Ordinal(d: Date): int
    requires ValidDate(d)
  {
    DaysBeforeYear(d.year) + DaysBeforeMonth(d.year, d.month) + d.day
  }

  /** `date.weekday()`: Monday is 0 and Sunday is 6. */
  function Weekday(d: Date): (w: int)
    requires ValidDate(d)
    ensures 0 <= w < 7
  {
    (Ordinal(d) + 6) % 7
  }

  /** `d + timedelta(days=1)` */
  function NextDay(d: Date): (r: Date)
    requires ValidDate(d)
    ensures ValidDate(r)
  {
    if d.day < DaysInMonth(d.year, d.month) then Date(d.year, d.month, d.day + 1)
    else if d.month < 12 then Date(d.year, d.month + 1, 1)
    else Date(d.year + 1, 1, 1)
  }

  /** `d - timedelta(days=1)` */
  function PrevDay(d: Date): (r: Date)
    requires ValidDate(d)
    ensures ValidDate(r)
  {
    if d.day > 1 then Date(d.year, d.month, d.day - 1)
    else if d.month > 1 then Date(d.year, d.month - 1, DaysInMonth(d.year, d.month - 1))
    else Date(d.year - 1, 12, 31)
  }

  /** `d + timedelta(days=n)`, one day at a time. */
  function AddDays(d: Date, n: int): (r: Date)
    requires ValidDate(d)
    ensures ValidDate(r)
    decreases if n < 0 then -n else n
  {
    if n == 0 then d
    else if n > 0 then AddDays(NextDay(d), n - 1)
    else AddDays(PrevDay(d), n + 1)
  }

  /** Lexicographic order on (year, month, day), the order of `date` comparison. */
  predicate DateBefore(a: Date, b: Date)
  {
    a.year < b.year
    || (a.year == b.year && a.month < b.month)
    || (a.year == b.year && a.month == b.month && a.day < b.day)
  }

  // ---------------------------------------------------------------------------
  // Ordinal arithmetic

  lemma DivStep(y: int, k: int)
    requires k == 4 || k == 100 || k == 400
    ensures y / k - (y - 1) / k == if y % k == 0 then 1 else 0
  {
    var q, r := (y - 1) / k, (y - 1) % k;
    assert y - 1 == k * q + r && 0 <= r < k;
    if r + 1 < k {
      assert y == k * q + (r + 1);
    } else {
      assert y == k * (q + 1) + 0;
    }
  }

  lemma LeapDivisibility(y: int)
    ensures y % 400 == 0 ==> y % 100 == 0
    ensures y % 100 == 0 ==> y % 4 == 0
  {
    if y % 400 == 0 {
      var q := y / 400;
      assert y == 100 * (4 * q);
    }
    if y % 100 == 0 {
      var q := y / 100;
      assert y == 4 * (25 * q);
    }
  }

  /** One more year of days: the step of `_days_before_year`. */
  lemma DaysBeforeNextYear(y: int)
    ensures DaysBeforeYear(y + 1) == DaysBeforeYear(y) + DaysInYear(y)
  {
    DivStep(y, 4);
    DivStep(y, 100);
    DivStep(y, 400);
    LeapDivisibility(y);
  }

  lemma DaysBeforeYearMonotone(a: int, b: int)
    requires a <= b
    ensures DaysBeforeYear(a) + 365 * (b - a) <= DaysBeforeYear(b)
    decreases b - a
  {
    if a < b {
      DaysBeforeNextYear(a);
      DaysBeforeYearMonotone(a + 1, b);
    }
  }

  lemma DaysBeforeMonthStep(y: int, m: int)
    requires 1 <= m <= 12
    ensures DaysBeforeMonth(y, m + 1) == DaysBeforeMonth(y, m) + DaysInMonth(y, m)
  {
  }

  lemma DaysBeforeMonthMonotone(y: int, a: int, b: int)
    requires 1 <= a < b <= 13
    ensures DaysBeforeMonth(y, a) + DaysInMonth(y, a) <= DaysBeforeMonth(y, b)
  {
  }

  /** Day ordinals count days: the next day has the next ordinal. */
  lemma OrdinalNextDay(d: Date)
    requires ValidDate(d)
    ensures Ordinal(NextDay(d)) == Ordinal(d) + 1
  {
    if d.day == DaysInMonth(d.year, d.month) {
      if d.month < 12 {
        DaysBeforeMonthStep(d.year, d.month);
      } else {
        DaysBeforeNextYear(d.year);
      }
    }
  }

  lemma NextDayOfPrevDay(d: Date)
    requires ValidDate(d)
    ensures NextDay(PrevDay(d)) == d
  {
  }

  lemma OrdinalPrevDay(d: Date)
    requires ValidDate(d)
    ensures Ordinal(PrevDay(d)) == Ordinal(d) - 1
  {
    OrdinalNextDay(PrevDay(d));
    NextDayOfPrevDay(d);
  }

  /** Adding n days moves the ordinal by exactly n. */
  lemma {:induction false} OrdinalAddDays(d: Date, n: int)
    requires ValidDate(d)
    ensures Ordinal(AddDays(d, n)) == Ordinal(d) + n
    decreases if n < 0 then -n else n
  {
    if n > 0 {
      OrdinalNextDay(d);
      OrdinalAddDays(NextDay(d), n - 1);
    } else if n < 0 {
      OrdinalPrevDay(d);
      OrdinalAddDays(PrevDay(d), n + 1);
    }
  }

  /** A later date has a larger ordinal. */
  lemma OrdinalMonotone(a: Date, b: Date)
    requires ValidDate(a) && ValidDate(b) && DateBefore(a, b)
    ensures Ordinal(a) < Ordinal(b)
  {
    if a.year < b.year {
      DaysBeforeMonthMonotone(a.year, a.month, 13);
      DaysBeforeNextYear(a.year);
      DaysBeforeYearMonotone(a.year + 1, b.year);
    } else if a.month < b.month {
      DaysBeforeMonthMonotone(a.year, a.month, b.month);
    }
  }

  /** Two valid dates with the same ordinal are the same date. */
  lemma OrdinalInjective(a: Date, b: Date)
    requires ValidDate(a) && ValidDate(b) && Ordinal(a) == Ordinal(b)
    ensures a == b
  {
    if DateBefore(a, b) {
      OrdinalMonotone(a, b);
    } else if DateBefore(b, a) {
      OrdinalMonotone(b, a);
    }
  }

  /** The first of the next month is as many days after the first of a month as that month is long. */
  lemma OrdinalNextMonth(m: Month)
    requires ValidMonth(m)
    ensures Ordinal(FirstDay(NextMonth(m))) == Ordinal(FirstDay(m)) + MonthDays(m)
  {
    var last := Date(m.year, m.month, MonthDays(m));
    OrdinalNextDay(last);
    assert NextDay(last) == FirstDay(NextMonth(m));
  }

  /** The date `j` days after the first of month `m` is day `j + 1` of `m`, for every `j` within the month. */
  lemma DayInMonthByOrdinal(m: Month, e: Date, j: int)
    requires ValidMonth(m) && ValidDate(e) && 0 <= j < MonthDays(m)
    requires Ordinal(e) == Ordinal(FirstDay(m)) + j
    ensures e == Date(m.year, m.month, j + 1)
  {
    OrdinalInjective(e, Date(m.year, m.month, j + 1));
  }

  /**
   * A date no further from month `m` than the months on either side of it is placed in the
   * previous month, in `m` or in the next month by its ordinal alone.
   */
  lemma {:induction false} MonthByOrdinal(m: Month, e: Date)
    requires ValidMonth(m) && ValidDate(e)
    requires Ordinal(FirstDay(m)) - MonthDays(PrevMonth(m)) <= Ordinal(e)
    requires Ordinal(e) < Ordinal(FirstDay(m)) + MonthDays(m) + MonthDays(NextMonth(m))
    ensures Ordinal(e) < Ordinal(FirstDay(m)) ==> MonthOf(e) == PrevMonth(m)
    ensures Ordinal(FirstDay(m)) <= Ordinal(e) < Ordinal(FirstDay(m)) + MonthDays(m) ==> MonthOf(e) == m
    ensures Ordinal(FirstDay(m)) + MonthDays(m) <= Ordinal(e) ==> MonthOf(e) == NextMonth(m)
  {
    var first := Ordinal(FirstDay(m));
    if Ordinal(e) < first {
      var pm := PrevMonth(m);
      MonthIndexInjective(NextMonth(pm), m);
      OrdinalNextMonth(pm);
      DayInMonthByOrdinal(pm, e, Ordinal(e) - Ordinal(FirstDay(pm)));
    } else if Ordinal(e) < first + MonthDays(m) {
      DayInMonthByOrdinal(m, e, Ordinal(e) - first);
    } else {
      OrdinalNextMonth(m);
      DayInMonthByOrdinal(NextMonth(m), e, Ordinal(e) - first - MonthDays(m));
    }
  }

  /** Weekdays advance by one from day to day, wrapping from Sunday to Monday. */
  lemma WeekdayNextDay(d: Date)
    requires ValidDate(d)
    ensures Weekday(NextDay(d)) == (Weekday(d) + 1) % 7
  {
    OrdinalNextDay(d);
    ModSevenStep(Ordinal(d) + 6);
  }

  lemma ModSevenStep(x: int)
    ensures (x + 1) % 7 == (x % 7 + 1) % 7
  {
    var q := x / 7;
    var w := x % 7;
    assert x == 7 * q + w;
    if w == 6 {
      assert x + 1 == 7 * (q + 1);
    } else {
      assert x + 1 == 7 * q + (w + 1);
    }
  }

  // ---------------------------------------------------------------------------
  // Adding days within and across months

  lemma AddDaysWithinMonth(d: Date, n: int)
    requires ValidDate(d) && 1 <= d.day + n <= DaysInMonth(d.year, d.month)
    ensures AddDays(d, n) == Date(d.year, d.month, d.day + n)
  {
    OrdinalAddDays(d, n);
    OrdinalInjective(AddDays(d, n), Date(d.year, d.month, d.day + n));
  }

  /** Adding days in two steps is adding them at once. */
  lemma AddDaysAdd(d: Date, a: int, b: int)
    requires ValidDate(d)
    ensures AddDays(AddDays(d, a), b) == AddDays(d, a + b)
  {
    var x := AddDays(d, a);
    var y := AddDays(x, b);
    var z := AddDays(d, a + b);
    OrdinalAddDays(d, a);
    OrdinalAddDays(x, b);
    OrdinalAddDays(d, a + b);
    OrdinalInjective(y, z);
  }

  lemma AddDaysOne(d: Date)
    requires ValidDate(d)
    ensures AddDays(d, 1) == NextDay(d)
  {
  }

  /** Six consecutive months hold between 181 and 184 days. */
  lemma SixMonthSpan(m: Month)
    requires ValidMonth(m)
    ensures var m1 := NextMonth(m); var m2 := NextMonth(m1); var m3 := NextMonth(m2);
            var m4 := NextMonth(m3); var m5 := NextMonth(m4);
            181 <= MonthDays(m) + MonthDays(m1) + MonthDays(m2) + MonthDays(m3) + MonthDays(m4) + MonthDays(m5) <= 184
  {
  }

  /** Month `k` months after `m`. */
  function MonthsAfter(m: Month, k: nat): (r: Month)
    requires ValidMonth(m)
    ensures ValidMonth(r) && MonthIndex(r) == MonthIndex(m) + k
  {
    if k == 0 then m else NextMonth(MonthsAfter(m, k - 1))
  }

  /**
   * 186 days (`timedelta(days=31 * 6)`) after the first of a month is day 3, 4, 5 or 6 of the
   * month six months later, so `replace(day=1)` of it is the first of that month.
   */
  lemma {:induction false} SixMonthsOfDays(m: Month)
    requires ValidMonth(m)
    ensures var r := AddDays(FirstDay(m), 31 * 6);
            MonthOf(r) == MonthsAfter(m, 6) && 3 <= r.day <= 6
  {
    var m1 := NextMonth(m);
    var m2 := NextMonth(m1);
    var m3 := NextMonth(m2);
    var m4 := NextMonth(m3);
    var m5 := NextMonth(m4);
    var m6 := NextMonth(m5);
    assert MonthsAfter(m, 6) == m6 by {
      assert MonthsAfter(m, 1) == m1;
      assert MonthsAfter(m, 2) == m2;
      assert MonthsAfter(m, 3) == m3;
      assert MonthsAfter(m, 4) == m4;
      assert MonthsAfter(m, 5) == m5;
    }
    OrdinalNextMonth(m);
    OrdinalNextMonth(m1);
    OrdinalNextMonth(m2);
    OrdinalNextMonth(m3);
    OrdinalNextMonth(m4);
    OrdinalNextMonth(m5);
    SixMonthSpan(m);
    var span := MonthDays(m) + MonthDays(m1) + MonthDays(m2) + MonthDays(m3) + MonthDays(m4) + MonthDays(m5);
    assert Ordinal(FirstDay(m6)) == Ordinal(FirstDay(m)) + span;
    OrdinalAddDays(FirstDay(m), 31 * 6);
    DayInMonthByOrdinal(m6, AddDays(FirstDay(m), 31 * 6), 186 - span);
  }

  /** 31 days after the first of a month lies in the next month. */
  lemma {:induction false} ThirtyOneDaysFromFirst(m: Month)
    requires ValidMonth(m)
    ensures MonthOf(AddDays(FirstDay(m), 31)) == NextMonth(m)
  {
    OrdinalNextMonth(m);
    OrdinalAddDays(FirstDay(m), 31);
    DayInMonthByOrdinal(NextMonth(m), AddDays(FirstDay(m), 31), 31 - MonthDays(m));
  }
}
