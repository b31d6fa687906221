/** The twelve-month projection of components/ProjectionChart.tsx: income,
    fixed expenses, pending installments and one-off expenses bucketed by
    calendar month, optionally restricted to one person. */
module ProjectionChart {
  import opened Wrappers
  import opened Calendar
  import opened Money
  import opened Records
  import opened Seqs
  import opened Dashboard

  /** The `filterByPerson` prop; `'total'` is its default. */
  datatype ChartFilter = TotalView | PersonView(person: Person)

  /** The prop is typed `'person1' | 'person2' | 'vr' | 'total'`: the shared
      pool is never a person filter. */
  predicate ValidFilter(f: ChartFilter) {
    f.PersonView? ==> f.person in {Person1, Person2, Vr}
  }

  /** Income of the filtered salaries. */
  function Income(salaries: seq<Salary>, filter: ChartFilter): Cents {
    match filter
    case TotalView => IncomeTotal(salaries)
    case PersonView(p) => PersonTotal(salaries, p)
  }

  /** An expense is kept by the filter when the filter is the total view or
      the expense is paid by the filtered person. */
  predicate MatchesFilter(e: Expense, filter: ChartFilter) {
    filter.TotalView? || e.paidBy == Some(filter.person)
  }

  function FilteredExpenses(expenses: seq<Expense>, filter: ChartFilter): (r: seq<Expense>)
    ensures filter.TotalView? ==> r == expenses
    ensures forall e :: e in r <==> e in expenses && MatchesFilter(e, filter)
  {
    match filter
    case TotalView => expenses
    case PersonView(p) => Filter(expenses, (e: Expense) => e.paidBy == Some(p))
  }

  /** `new Map(expenses.map(e => [e.id, e])).get(id)`: the LAST expense
      carrying the id, since later entries overwrite earlier ones. */
  function LookupExpense(expenses: seq<Expense>, id: string): (r: Option<Expense>)
    ensures r.None? <==> forall i :: 0 <= i < |expenses| ==> expenses[i].id != Some(id)
    ensures r.Some? ==>
      exists i :: (0 <= i < |expenses| && expenses[i] == r.value && expenses[i].id == Some(id)
                   && forall j :: i < j < |expenses| ==> expenses[j].id != Some(id))
  {
    if |expenses| == 0 then None
    else
      var last := expenses[|expenses| - 1];
      if last.id == Some(id) then Some(last)
      else
        var r := LookupExpense(expenses[..|expenses| - 1], id);
        assert forall i :: 0 <= i < |expenses| - 1 ==> expenses[..|expenses| - 1][i] == expenses[i];
        r
  }

  /** Under a person filter, an installment is kept when its expense is found
      in the list and paid by that person. */
  predicate BelongsTo(expenses: seq<Expense>, inst: Installment, p: Person) {
    var e := LookupExpense(expenses, inst.expenseId);
    e.Some? && e.value.paidBy == Some(p)
  }

  function PendingInstallments(installments: seq<Installment>): seq<Installment> {
    Filter(installments, (inst: Installment) => inst.status != Paid)
  }

  /** The pending installments the chart buckets. */
  function ParcelInstallments(expenses: seq<Expense>, installments: seq<Installment>, filter: ChartFilter)
    : seq<Installment>
  {
    match filter
    case TotalView => PendingInstallments(installments)
    case PersonView(p) =>
      Filter(PendingInstallments(installments), (inst: Installment) => BelongsTo(expenses, inst, p))
  }

  function UniqueExpenses(expenses: seq<Expense>, filter: ChartFilter): seq<Expense> {
    Filter(FilteredExpenses(expenses, filter), (e: Expense) => e.kind == Unico)
  }

  /** Installments due in the month `ym`. */
  function MonthInstallments(parcels: seq<Installment>, ym: YearMonth): Cents {
    Sum(Filter(parcels, (inst: Installment) => YearMonthOf(inst.dueDate) == ym), (inst: Installment) => inst.amount)
  }

  predicate DueIn(e: Expense, ym: YearMonth) {
    e.dueDate.Some? && YearMonthOf(e.dueDate.value) == ym
  }

  /** One-off expenses due in the month `ym`; one without a due date is never due. */
  function MonthUniqueExpenses(uniques: seq<Expense>, ym: YearMonth): Cents {
    Sum(Filter(uniques, (e: Expense) => DueIn(e, ym)), (e: Expense) => e.amount)
  }

  /** One point of the chart; the month stands for its label. */
  datatype ChartPoint = ChartPoint(month: YearMonth, total: Cents, expenses: Cents, net: Cents)

  /** The chart's point for the month `ym`. */
  function MonthPoint(salaries: seq<Salary>, expenses: seq<Expense>, installments: seq<Installment>,
                      filter: ChartFilter, ym: YearMonth): (pt: ChartPoint)
    requires ValidFilter(filter)
    ensures pt.month == ym
    ensures pt.total == Income(salaries, filter)
    ensures pt.expenses == MonthExpenseRows(expenses, filter, ym)
                         + MonthInstallments(ParcelInstallments(expenses, installments, filter), ym)
    ensures pt.net == pt.total - pt.expenses
  {
    var income := Income(salaries, filter);
    var spent := FixedTotal(FilteredExpenses(expenses, filter))
      + MonthInstallments(ParcelInstallments(expenses, installments, filter), ym)
      + MonthUniqueExpenses(UniqueExpenses(expenses, filter), ym);
    ChartPoint(ym, income, spent, income - spent)
  }

  /** A month's point, spelled out from the figures the loop computes once. */
  lemma MonthPointParts(salaries: seq<Salary>, expenses: seq<Expense>, installments: seq<Installment>,
                        filter: ChartFilter, ym: YearMonth)
    requires ValidFilter(filter)
    ensures MonthPoint(salaries, expenses, installments, filter, ym)
         == var spent := FixedTotal(FilteredExpenses(expenses, filter))
              + MonthInstallments(ParcelInstallments(expenses, installments, filter), ym)
              + MonthUniqueExpenses(UniqueExpenses(expenses, filter), ym);
            ChartPoint(ym, Income(salaries, filter), spent, Income(salaries, filter) - spent)
  {
  }

  /** The projection loop: the filtered figures are computed once, then one
      point is pushed for each of the twelve months starting with today's. */
  method Project(salaries: seq<Salary>, expenses: seq<Expense>, installments: seq<Installment>,
                 filter: ChartFilter, today: Date)
    returns (chart: seq<ChartPoint>)
    requires ValidFilter(filter)
    ensures |chart| == 12
    ensures forall i :: 0 <= i < 12 ==>
      chart[i] == MonthPoint(salaries, expenses, installments, filter, MonthOffset(today, i))
  {
    var totalSalaries := Income(salaries, filter);
    var filtered := FilteredExpenses(expenses, filter);
    var recurring := FixedTotal(filtered);
    var uniques := UniqueExpenses(expenses, filter);
    var parcels := ParcelInstallments(expenses, installments, filter);
    chart := [];
    var i := 0;
    while i < 12
      invariant 0 <= i <= 12
      invariant |chart| == i
      invariant forall j :: 0 <= j < i ==>
        chart[j] == MonthPoint(salaries, expenses, installments, filter, MonthOffset(today, j))
    {
      var ym := MonthOffset(today, i);
      var monthInstallments := MonthInstallments(parcels, ym);
      var monthUnique := MonthUniqueExpenses(uniques, ym);
      var expensesValue := recurring + monthInstallments + monthUnique;
      var point := ChartPoint(ym, totalSalaries, expensesValue, totalSalaries - expensesValue);
      MonthPointParts(salaries, expenses, installments, filter, ym);
      ghost var before := chart;
      chart := chart + [point];
      forall j | 0 <= j <= i
        ensures chart[j] == MonthPoint(salaries, expenses, installments, filter, MonthOffset(today, j))
      {
        if j < i {
          assert chart[j] == before[j];
        }
      }
      i := i + 1;
    }
  }

  /** `chartData.some(...)`: some month has positive income, positive
      expenses or a non-zero net. */
  function HasData(chart: seq<ChartPoint>): (b: bool)
    ensures !b <==> forall i :: 0 <= i < |chart| ==>
      chart[i].total <= 0 && chart[i].expenses <= 0 && chart[i].net == 0
  {
    Any(chart, (pt: ChartPoint) => pt.total > 0 || pt.expenses > 0 || pt.net != 0)
  }

  /** Under the total view the income is all income, which splits into the
      shared pool and the three incomes a person filter can show. */
  lemma IncomeSplitsByPerson(salaries: seq<Salary>)
    ensures Income(salaries, TotalView)
         == Income(salaries, PersonView(Person1)) + Income(salaries, PersonView(Person2))
          + Income(salaries, PersonView(Vr)) + PersonTotal(salaries, Conjunto)
  {
    PersonTotalsCoverIncome(salaries);
  }

  /** Contribution of one installment to a month's expenses, given the
      expense list it is looked up in. */
  function InstallmentShare(expenses: seq<Expense>, inst: Installment, filter: ChartFilter, ym: YearMonth): Cents {
    if inst.status != Paid && YearMonthOf(inst.dueDate) == ym
       && (filter.TotalView? || BelongsTo(expenses, inst, filter.person))
    then inst.amount else 0
  }

  /** Adding an installment changes a month's expenses by its share: its
      amount when it is pending, due that month and (under a person filter)
      its expense is that person's, and nothing otherwise. */
  lemma AddInstallment(salaries: seq<Salary>, expenses: seq<Expense>, installments: seq<Installment>,
                       inst: Installment, filter: ChartFilter, ym: YearMonth)
    requires ValidFilter(filter)
    ensures MonthPoint(salaries, expenses, installments + [inst], filter, ym).expenses
         == MonthPoint(salaries, expenses, installments, filter, ym).expenses
          + InstallmentShare(expenses, inst, filter, ym)
  {
    var pending := (x: Installment) => x.status != Paid;
    var inMonth := (x: Installment) => YearMonthOf(x.dueDate) == ym;
    var amount := (x: Installment) => x.amount;
    FilterConcat(installments, [inst], pending);
    FilterSingleton(inst, pending);
    var parcels := ParcelInstallments(expenses, installments, filter);
    var single := ParcelInstallments(expenses, [inst], filter);
    assert PendingInstallments(installments + [inst]) == PendingInstallments(installments) + PendingInstallments([inst]);
    assert ParcelInstallments(expenses, installments + [inst], filter) == parcels + single by {
      if filter.PersonView? {
        var mine := (x: Installment) => BelongsTo(expenses, x, filter.person);
        FilterConcat(PendingInstallments(installments), PendingInstallments([inst]), mine);
      }
    }
    assert MonthInstallments(single, ym) == InstallmentShare(expenses, inst, filter, ym) by {
      if filter.PersonView? {
        var mine := (x: Installment) => BelongsTo(expenses, x, filter.person);
        FilterSingleton(inst, mine);
        FilterNone([], mine);
      }
      FilterSingleton(inst, inMonth);
      FilterNone([], inMonth);
      assert Sum([inst], amount) == inst.amount;
    }
    FilterConcat(parcels, single, inMonth);
    SumConcat(Filter(parcels, inMonth), Filter(single, inMonth), amount);
  }

  /** A paid installment, or one due in another month, leaves the month's
      point as it was. */
  lemma AddSettledInstallment(salaries: seq<Salary>, expenses: seq<Expense>, installments: seq<Installment>,
                              inst: Installment, filter: ChartFilter, ym: YearMonth)
    requires ValidFilter(filter)
    requires inst.status == Paid || YearMonthOf(inst.dueDate) != ym
    ensures MonthPoint(salaries, expenses, installments + [inst], filter, ym)
         == MonthPoint(salaries, expenses, installments, filter, ym)
  {
    AddInstallment(salaries, expenses, installments, inst, filter, ym);
  }

  /** Contribution of one expense to a month's fixed and one-off figures. */
  function ExpenseShare(e: Expense, filter: ChartFilter, ym: YearMonth): Cents {
    if !MatchesFilter(e, filter) then 0
    else if e.kind == Fixo then e.amount
    else if e.kind == Unico && DueIn(e, ym) then e.amount
    else 0
  }

  /** The fixed and one-off part of a month's expenses. */
  function MonthExpenseRows(expenses: seq<Expense>, filter: ChartFilter, ym: YearMonth): Cents {
    FixedTotal(FilteredExpenses(expenses, filter)) + MonthUniqueExpenses(UniqueExpenses(expenses, filter), ym)
  }

  /** A fixed expense of the filtered person counts in every month; a one-off
      expense counts in the month of its due date only, and never without
      one; an installment purchase's row counts in no month (its
      installments do). */
  lemma AddExpenseRow(expenses: seq<Expense>, e: Expense, filter: ChartFilter, ym: YearMonth)
    ensures MonthExpenseRows(expenses + [e], filter, ym)
         == MonthExpenseRows(expenses, filter, ym) + ExpenseShare(e, filter, ym)
  {
    FilteredExpensesAppend(expenses, e, filter);
    if MatchesFilter(e, filter) {
      FixedTotalAppend(FilteredExpenses(expenses, filter), e);
      UniqueAppend(FilteredExpenses(expenses, filter), e, ym);
    } else {
      assert FilteredExpenses(expenses + [e], filter) == FilteredExpenses(expenses, filter);
    }
  }

  lemma FilteredExpensesAppend(expenses: seq<Expense>, e: Expense, filter: ChartFilter)
    ensures FilteredExpenses(expenses + [e], filter)
         == FilteredExpenses(expenses, filter) + (if MatchesFilter(e, filter) then [e] else [])
  {
    if filter.PersonView? {
      var mine := (x: Expense) => x.paidBy == Some(filter.person);
      FilterConcat(expenses, [e], mine);
      FilterSingleton(e, mine);
    }
  }

  lemma UniqueAppend(kept: seq<Expense>, e: Expense, ym: YearMonth)
    ensures MonthUniqueExpenses(Filter(kept + [e], (x: Expense) => x.kind == Unico), ym)
         == MonthUniqueExpenses(Filter(kept, (x: Expense) => x.kind == Unico), ym)
          + (if e.kind == Unico && DueIn(e, ym) then e.amount else 0)
  {
    var amount := (x: Expense) => x.amount;
    var unico := (x: Expense) => x.kind == Unico;
    var due := (x: Expense) => DueIn(x, ym);
    FilterConcat(kept, [e], unico);
    FilterSingleton(e, unico);
    var uniques := Filter(kept, unico);
    if e.kind == Unico {
      FilterConcat(uniques, [e], due);
      FilterSingleton(e, due);
      SumConcat(Filter(uniques, due), Filter([e], due), amount);
      assert Sum([e], amount) == e.amount;
    } else {
      assert Filter(kept + [e], unico) == uniques;
    }
  }
}
