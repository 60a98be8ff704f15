/** Months of the proleptic Gregorian calendar, years 1 to 9999, as app/services/message_partitions.py uses
    them. Days are counted from the first of January of year 1. */
module CalendarMonths {
  import opened Wrappers

  datatype Date = Date(year: int, month: int, day: int)

  const MAX_YEAR := 9999

  /** Number of months in the supported range. */
  const MONTHS: nat := 12 * MAX_YEAR

  predicate IsLeap(year: int) {
    year % 4 == 0 && (year % 100 != 0 || year % 400 == 0)
  }

  function DaysIn(year: int, month: int): (n: nat)
    requires 1 <= month <= 12
    ensures 28 <= n <= 31
  {
    if month == 2 then (if IsLeap(year) then 29 else 28)
    else if month == 4 || month == 6 || month == 9 || month == 11 then 30
    else 31
  }

  predicate ValidDate(d: Date) {
    1 <= d.year <= MAX_YEAR && 1 <= d.month <= 12 && 1 <= d.day <= DaysIn(d.year, d.month)
  }

  // ---------- months as numbers ----------

  function Index(d: Date): int {
    12 * (d.year - 1) + d.month - 1
  }

  function MonthAt(i: nat): Date {
    Date(i / 12 + 1, i % 12 + 1, 1)
  }

  function MonthStart(d: Date): Date {
    Date(d.year, d.month, 1)
  }

  /** date(year, month, 1), which refuses years outside the calendar. */
  function FirstOf(year: int, month: int): Option<Date> {
    if 1 <= year <= MAX_YEAR && 1 <= month <= 12 then Some(Date(year, month, 1)) else None
  }

  /** Python's // and % round down, as do these for a positive divisor. */
  function AddMonths(d: Date, months: int): Option<Date> {
    var year := d.year + (d.month - 1 + months) / 12;
    var month := (d.month - 1 + months) % 12 + 1;
    FirstOf(year, month)
  }

  predicate Before(a: Date, b: Date) {
    a.year < b.year || (a.year == b.year && (a.month < b.month || (a.month == b.month && a.day < b.day)))
  }

  lemma MonthAtIndex(d: Date)
    requires ValidDate(d)
    ensures 0 <= Index(d) < MONTHS && MonthAt(Index(d)) == MonthStart(d)
  {
  }

  lemma IndexOfMonthAt(i: nat)
    requires i < MONTHS
    ensures ValidDate(MonthAt(i)) && MonthAt(i).day == 1 && Index(MonthAt(i)) == i
  {
  }

  /** Adding months moves the month number by as much, forwards or backwards, until the calendar ends. */
  lemma AddMonthsIsShift(d: Date, k: int)
    requires ValidDate(d)
    ensures AddMonths(d, k) == if 0 <= Index(d) + k < MONTHS then Some(MonthAt(Index(d) + k)) else None
  {
    var q, r := (d.month - 1 + k) / 12, (d.month - 1 + k) % 12;
    assert d.month - 1 + k == 12 * q + r && 0 <= r < 12;
    assert Index(d) + k == 12 * (d.year - 1 + q) + r;
    if 0 <= Index(d) + k {
      DivUnique(Index(d) + k, d.year - 1 + q, r);
    }
  }

  /** The same without month numbers: twelve months to a year, and the result is the first of its month. */
  lemma AddMonthsCountsMonths(d: Date, k: int)
    requires ValidDate(d)
    ensures var r := AddMonths(d, k);
            && (r.Some? <==> 12 <= 12 * d.year + d.month - 1 + k < 120_000)
            && (r.Some? ==>
                  && 12 * r.value.year + r.value.month == 12 * d.year + d.month + k
                  && 1 <= r.value.month <= 12 && r.value.day == 1)
  {
    AddMonthsIsShift(d, k);
    if 0 <= Index(d) + k < MONTHS {
      IndexOfMonthAt(Index(d) + k);
    }
  }

  lemma DivUnique(x: int, q: int, r: int)
    requires x == 12 * q + r && 0 <= r < 12
    ensures x / 12 == q && x % 12 == r
  {
  }

  lemma AddNoMonths(d: Date)
    requires ValidDate(d) && d.day == 1
    ensures AddMonths(d, 0) == Some(d)
  {
  }

  /** With zero doing nothing, an action of the integers on month starts: two moves add up. */
  lemma AddMonthsIsAnAction(d: Date, a: int, x: Date, b: int)
    requires ValidDate(d) && AddMonths(d, a) == Some(x)
    ensures ValidDate(x) && x.day == 1 && AddMonths(x, b) == AddMonths(d, a + b)
  {
    AddMonthsIsShift(d, a);
    var i := Index(d) + a;
    IndexOfMonthAt(i);
    AddMonthsIsShift(x, b);
    AddMonthsIsShift(d, a + b);
  }

  lemma BeforeIsIndexOrder(a: Date, b: Date)
    requires ValidDate(a) && ValidDate(b) && a.day == 1 && b.day == 1
    ensures Before(a, b) <==> Index(a) < Index(b)
    ensures a == b <==> Index(a) == Index(b)
  {
    MonthAtIndex(a);
    MonthAtIndex(b);
  }

  // ---------- months as spans of days ----------

  function LengthOf(i: nat): (n: nat)
    ensures 28 <= n <= 31
  {
    DaysIn(i / 12 + 1, i % 12 + 1)
  }

  /** The day on which month `i` starts. */
  function StartDay(i: nat): nat {
    if i == 0 then 0 else StartDay(i - 1) + LengthOf(i - 1)
  }

  function DayNumber(d: Date): int
    requires ValidDate(d)
  {
    MonthAtIndex(d);
    StartDay(Index(d)) + d.day - 1
  }

  /** The month a day lies in, found by counting up from month `i`. */
  function MonthFrom(day: nat, i: nat): (m: nat)
    requires StartDay(i) <= day
    ensures StartDay(m) <= day < StartDay(m + 1)
    decreases day - StartDay(i)
  {
    if day < StartDay(i + 1) then i else MonthFrom(day, i + 1)
  }

  function MonthOf(day: nat): (m: nat)
    ensures StartDay(m) <= day < StartDay(m + 1)
  {
    MonthFrom(day, 0)
  }

  lemma {:induction false} StartDaysSpread(i: nat, j: nat)
    requires i <= j
    ensures 28 * (j - i) <= StartDay(j) - StartDay(i) <= 31 * (j - i)
    decreases j
  {
    if i == j {
    } else {
      StartDaysSpread(i, j - 1);
    }
  }

  lemma StartDaysGrow(i: nat, j: nat)
    requires i <= j
    ensures StartDay(i) <= StartDay(j)
  {
    StartDaysSpread(i, j);
  }

  lemma MonthAtMost(day: nat, i: nat)
    ensures MonthOf(day) <= i <==> day < StartDay(i + 1)
  {
    var m := MonthOf(day);
    if m <= i {
      StartDaysGrow(m + 1, i + 1);
    } else {
      StartDaysGrow(i + 1, m);
    }
  }

  /** Months tile the days: each day lies in one month only. */
  lemma MonthIsUnique(day: nat, i: nat)
    ensures MonthOf(day) == i <==> StartDay(i) <= day < StartDay(i + 1)
  {
    MonthAtMost(day, i);
    if i > 0 {
      MonthAtMost(day, i - 1);
    }
  }

  /** A date lies in the month of its number. */
  lemma DayInMonth(d: Date)
    requires ValidDate(d)
    ensures 0 <= Index(d) < MONTHS && DayNumber(d) == StartDay(Index(d)) + d.day - 1
    ensures StartDay(Index(d)) <= DayNumber(d) < StartDay(Index(d) + 1) && DayNumber(d) <= StartDay(Index(d)) + 30
  {
    MonthAtIndex(d);
    assert DaysIn(d.year, d.month) == LengthOf(Index(d));
  }

  lemma LengthOfMonth(y: nat, m: nat)
    requires m < 12
    ensures LengthOf(12 * y + m) == DaysIn(y + 1, m + 1)
  {
    DivUnique(12 * y + m, y, m);
  }

  lemma NextStart(i: nat)
    ensures StartDay(i + 1) == StartDay(i) + LengthOf(i)
  {
  }

  lemma NextMonthOfYear(y: nat, january: nat, m: nat)
    requires january == 12 * y && m < 12
    ensures StartDay(january + m + 1) == StartDay(january + m) + DaysIn(y + 1, m + 1)
  {
    NextStart(january + m);
    LengthOfMonth(y, m);
  }

  /** Days of the first `m` months of a year. */
  function DaysOfMonths(year: int, m: nat): nat
    requires m <= 12
  {
    if m == 0 then 0 else DaysOfMonths(year, m - 1) + DaysIn(year, m)
  }

  /** `january` is the number of the first month of year `y + 1`. */
  lemma {:induction false} MonthsAddUp(y: nat, january: nat, m: nat)
    requires january == 12 * y && m <= 12
    ensures StartDay(january + m) == StartDay(january) + DaysOfMonths(y + 1, m)
    decreases m
  {
    if m == 0 {
    } else {
      var k := m - 1;
      MonthsAddUp(y, january, k);
      NextMonthOfYear(y, january, k);
      LongerByAMonth(y + 1, k, StartDay(january), StartDay(january + k), StartDay(january + k + 1));
    }
  }

  lemma LongerByAMonth(year: int, k: nat, start: nat, before: nat, after: nat)
    requires k < 12 && before == start + DaysOfMonths(year, k) && after == before + DaysIn(year, k + 1)
    ensures after == start + DaysOfMonths(year, k + 1)
  {
  }

  /** The days of the first `m` months of a year without a leap day. */
  function DaysBefore(m: nat): nat
    requires m <= 12
  {
    match m
    case 0 => 0
    case 1 => 31
    case 2 => 59
    case 3 => 90
    case 4 => 120
    case 5 => 151
    case 6 => 181
    case 7 => 212
    case 8 => 243
    case 9 => 273
    case 10 => 304
    case 11 => 334
    case _ => 365
  }

  /** Every fourth year, except the centuries that four hundred does not divide. */
  predicate HasLeapDay(year: int) {
    year % 400 == 0 || (year % 4 == 0 && year % 100 != 0)
  }

  lemma FourDivides(year: int, q: int)
    requires year == 400 * q
    ensures year % 4 == 0
  {
  }

  lemma LeapYears(year: int)
    ensures IsLeap(year) <==> HasLeapDay(year)
  {
    if year % 400 == 0 {
      FourDivides(year, year / 400);
    }
  }

  lemma MonthByTable(m: nat, february: nat, days: nat)
    requires 1 <= m <= 12 && (february == 28 || february == 29)
    requires days == if m == 2 then february else if m in {4, 6, 9, 11} then 30 else 31
    ensures DaysBefore(m - 1) + (if m > 2 then february - 28 else 0) + days
            == DaysBefore(m) + (if m >= 2 then february - 28 else 0)
  {
  }

  lemma {:induction false} DaysBeforeMonth(year: int, m: nat)
    requires m <= 12
    ensures DaysOfMonths(year, m) == DaysBefore(m) + (if m >= 2 then DaysIn(year, 2) - 28 else 0)
  {
    if m == 0 {
    } else {
      DaysBeforeMonth(year, m - 1);
      MonthByTable(m, DaysIn(year, 2), DaysIn(year, m));
    }
  }

  lemma DaysOfYear(year: int)
    ensures DaysOfMonths(year, 12) == if IsLeap(year) then 366 else 365
  {
    DaysBeforeMonth(year, 12);
  }

  /** The month lengths add up to the Gregorian calendar: years start where the closed formula says. */
  lemma {:induction false} YearsStartWhereTheFormulaSays(y: nat)
    ensures StartDay(12 * y) == 365 * y + y / 4 - y / 100 + y / 400
  {
    if y == 0 {
    } else {
      YearsStartWhereTheFormulaSays(y - 1);
      NextYearStarts(y);
      LeapStep(y);
    }
  }

  lemma MonthStartsAt(y: nat, january: nat, m: nat)
    requires january == 12 * y && m < 12
    ensures StartDay(january + m)
            == StartDay(january) + DaysBefore(m) + (if m >= 2 then DaysIn(y + 1, 2) - 28 else 0)
  {
    MonthsAddUp(y, january, m);
    DaysBeforeMonth(y + 1, m);
  }

  lemma FebruaryIs(year: int)
    ensures DaysIn(year, 2) - 28 == if HasLeapDay(year) then 1 else 0
  {
    LeapYears(year);
  }

  lemma DayNumberFrom(d: Date, y: nat, january: nat, start: int)
    requires ValidDate(d) && d.year == y + 1 && january == 12 * y && StartDay(january) == start
    ensures DayNumber(d)
            == start + DaysBefore(d.month - 1) + (if d.month > 2 && HasLeapDay(d.year) then 1 else 0) + d.day - 1
  {
    MonthStartsAt(y, january, d.month - 1);
    FebruaryIs(d.year);
    assert Index(d) == january + (d.month - 1);
  }

  /** A date's number is the Gregorian one. */
  lemma DayNumberIsGregorian(d: Date)
    requires ValidDate(d)
    ensures var y := d.year - 1;
            DayNumber(d) == 365 * y + y / 4 - y / 100 + y / 400 + DaysBefore(d.month - 1)
                            + (if d.month > 2 && HasLeapDay(d.year) then 1 else 0) + d.day - 1
  {
    var y := d.year - 1;
    YearsStartWhereTheFormulaSays(y);
    DayNumberFrom(d, y, 12 * y, 365 * y + y / 4 - y / 100 + y / 400);
  }

  lemma NextYearStarts(y: nat)
    requires y > 0
    ensures StartDay(12 * y) == StartDay(12 * (y - 1)) + 365 + (if IsLeap(y) then 1 else 0)
  {
    MonthsAddUp(y - 1, 12 * (y - 1), 12);
    DaysOfYear(y);
  }

  lemma LeapStep(y: nat)
    requires y > 0
    ensures y / 4 - y / 100 + y / 400 - ((y - 1) / 4 - (y - 1) / 100 + (y - 1) / 400) == if IsLeap(y) then 1 else 0
  {
    QuotientStep(y, 4);
    QuotientStep(y, 100);
    QuotientStep(y, 400);
    assert y % 400 == 0 ==> y % 100 == 0;
    assert y % 100 == 0 ==> y % 4 == 0;
  }

  lemma QuotientStep(y: nat, n: nat)
    requires y > 0 && (n == 4 || n == 100 || n == 400)
    ensures y / n - (y - 1) / n == if y % n == 0 then 1 else 0
  {
  }
}
