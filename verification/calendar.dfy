/** Plain Gregorian calendar dates and the calendar-month arithmetic of
    date-fns `addMonths`, which the schedule builder, the form preview, the
    projection chart and the month selector all use. */
module Calendar {

  predicate IsLeapYear(y: int) {
    y % 4 == 0 && (y % 100 != 0 || y % 400 == 0)
  }

  function DaysInMonth(y: int, m: int): (d: int)
    requires 1 <= m <= 12
    ensures 28 <= d <= 31
    ensures m == 2 ==> d == (if IsLeapYear(y) then 29 else 28)
  {
    if m == 2 then (if IsLeapYear(y) then 29 else 28)
    else if m == 4 || m == 6 || m == 9 || m == 11 then 30
    else 31
  }

  datatype DateParts = DateParts(year: int, month: int, day: int)

  predicate ValidDate(d: DateParts) {
    1 <= d.month <= 12 && 1 <= d.day <= DaysInMonth(d.year, d.month)
  }

  /** A calendar day (time of day and time zone are not part of the model). */
  type Date = d: DateParts | ValidDate(d) witness DateParts(2000, 1, 1)

  /** A calendar month, 1-based as the month selector reports it. */
  datatype YearMonth = YearMonth(year: int, month: int)

  /** Months counted from January of year 0; consecutive months have
      consecutive indices. */
  function MonthIndex(ym: YearMonth): int {
    ym.year * 12 + (ym.month - 1)
  }

  function FromMonthIndex(k: int): (ym: YearMonth)
    ensures 1 <= ym.month <= 12
    ensures MonthIndex(ym) == k
  {
    YearMonth(k / 12, k % 12 + 1)
  }

  lemma MonthIndexInjective(a: YearMonth, b: YearMonth)
    requires 1 <= a.month <= 12 && 1 <= b.month <= 12
    requires MonthIndex(a) == MonthIndex(b)
    ensures a == b
  {
  }

  /** `getFullYear()` and `getMonth() + 1` of a date. */
  function YearMonthOf(d: Date): YearMonth {
    YearMonth(d.year, d.month)
  }

  /** The calendar month after `ym`: December is followed by January. */
  function NextMonth(ym: YearMonth): YearMonth {
    if ym.month == 12 then YearMonth(ym.year + 1, 1) else YearMonth(ym.year, ym.month + 1)
  }

  lemma NextMonthIndex(ym: YearMonth)
    requires 1 <= ym.month <= 12
    ensures 1 <= NextMonth(ym).month <= 12
    ensures MonthIndex(NextMonth(ym)) == MonthIndex(ym) + 1
  {
  }

  /** date-fns `addMonths(d, n)`: the same day `n` calendar months later, or
      the last day of that month when it is shorter. */
  function AddMonths(d: Date, n: nat): (r: Date)
    ensures MonthIndex(YearMonthOf(r)) == MonthIndex(YearMonthOf(d)) + n
    ensures r.day == if d.day <= DaysInMonth(r.year, r.month) then d.day else DaysInMonth(r.year, r.month)
  {
    var ym := FromMonthIndex(MonthIndex(YearMonthOf(d)) + n);
    var last := DaysInMonth(ym.year, ym.month);
    DateParts(ym.year, ym.month, if d.day <= last then d.day else last)
  }

  /** The calendar month of `addMonths(d, i)`: the month `i` months after
      the month of `d`. */
  function MonthOffset(d: Date, i: nat): (ym: YearMonth)
    ensures 1 <= ym.month <= 12
    ensures MonthIndex(ym) == MonthIndex(YearMonthOf(d)) + i
  {
    YearMonthOf(AddMonths(d, i))
  }

  /** Adding no months is the identity. */
  lemma AddZeroMonths(d: Date)
    ensures AddMonths(d, 0) == d
  {
    var r := AddMonths(d, 0);
    MonthIndexInjective(YearMonthOf(r), YearMonthOf(d));
  }

  /** Adding months keeps the day of the month whenever the target month has it. */
  lemma AddMonthsKeepsDay(d: Date, n: nat)
    requires d.day <= 28
    ensures AddMonths(d, n).day == d.day
  {
  }

  /** Clamping makes month addition non-compositional: two steps of one
      month from 31 January 2024 land on 29 March, one step of two months on
      31 March. Schedules therefore add `i` months to the first date rather
      than one month to the previous due date. */
  lemma AddMonthsNotCompositional()
    ensures AddMonths(AddMonths(DateParts(2024, 1, 31), 1), 1) == DateParts(2024, 3, 29)
    ensures AddMonths(DateParts(2024, 1, 31), 2) == DateParts(2024, 3, 31)
  {
    assert FromMonthIndex(24289) == YearMonth(2024, 2);
    assert FromMonthIndex(24290) == YearMonth(2024, 3);
    assert AddMonths(DateParts(2024, 1, 31), 1) == DateParts(2024, 2, 29);
    assert AddMonths(DateParts(2024, 2, 29), 1) == DateParts(2024, 3, 29);
  }

  /** Day-granular order on dates (`a < b`). */
  predicate Before(a: Date, b: Date) {
    a.year < b.year
    || (a.year == b.year && a.month < b.month)
    || (a.year == b.year && a.month == b.month && a.day < b.day)
  }

  /** Dates in an earlier month come first. */
  lemma EarlierMonthBefore(a: Date, b: Date)
    requires MonthIndex(YearMonthOf(a)) < MonthIndex(YearMonthOf(b))
    ensures Before(a, b)
  {
  }
}
