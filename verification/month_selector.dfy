/** The month buttons of components/ProjectionMonthSelector.tsx: twelve
    consecutive calendar months starting with today's. */
module ProjectionMonthSelector {
  import opened Calendar

  /** The `months` array: entry `i` is the month of `addMonths(today, i)`. */
  function Months(today: Date): (r: seq<YearMonth>)
    ensures |r| == 12
    ensures r[0] == YearMonthOf(today)
    ensures forall i :: 0 <= i < 12 ==> 1 <= r[i].month <= 12
    ensures forall i :: 0 <= i < 12 ==> r[i] == MonthOffset(today, i)
  {
    var r := seq(12, i requires 0 <= i < 12 => MonthOffset(today, i));
    MonthIndexInjective(r[0], YearMonthOf(today));
    r
  }

  /** Each entry is the calendar month after the previous one, so December
      is followed by January of the next year. */
  lemma MonthsConsecutive(today: Date)
    ensures forall i :: 0 < i < 12 ==> Months(today)[i] == NextMonth(Months(today)[i - 1])
  {
    var r := Months(today);
    forall i | 0 < i < 12
      ensures r[i] == NextMonth(r[i - 1])
    {
      NextMonthIndex(r[i - 1]);
      MonthIndexInjective(r[i], NextMonth(r[i - 1]));
    }
  }

  /** The `${year}-${month}` button keys are pairwise distinct. */
  lemma MonthsDistinct(today: Date)
    ensures forall i, j :: 0 <= i < j < 12 ==> Months(today)[i] != Months(today)[j]
  {
    var r := Months(today);
    forall i, j | 0 <= i < j < 12
      ensures r[i] != r[j]
    {
      assert MonthIndex(r[i]) < MonthIndex(r[j]);
    }
  }

  /** The `(year, month)` pair that clicking entry `k` reports. */
  function Selection(today: Date, k: int): (sel: (int, int))
    requires 0 <= k < 12
    ensures 1 <= sel.1 <= 12
    ensures MonthIndex(YearMonth(sel.0, sel.1)) == MonthIndex(YearMonthOf(today)) + k
  {
    var m := Months(today)[k];
    (m.year, m.month)
  }

  /** The reported pair names exactly one button: no other entry has the same
      year and month. */
  lemma SelectionIdentifiesEntry(today: Date, k: int, j: int)
    requires 0 <= k < 12 && 0 <= j < 12
    requires Selection(today, j) == Selection(today, k)
    ensures j == k
  {
  }
}
