/** The totals on the home page (app/page.tsx): income per person, the
    expenses still to pay and the remaining balance. "Today" is a parameter. */
module Dashboard {
  import opened Wrappers
  import opened Calendar
  import opened Money
  import opened Records
  import opened Seqs

  /** `expenses.flatMap(e => e.installments || [])`. */
  function AllInstallments(expenses: seq<Expense>): (r: seq<Installment>)
    ensures |expenses| == 0 ==> r == []
  {
    if |expenses| == 0 then [] else InstallmentsOf(expenses[0]) + AllInstallments(expenses[1..])
  }

  /** The flattened list is the concatenation of each expense's list, in
      expense order; an expense without installments contributes nothing. */
  lemma {:induction false} AllInstallmentsConcat(a: seq<Expense>, b: seq<Expense>)
    ensures AllInstallments(a + b) == AllInstallments(a) + AllInstallments(b)
  {
    if |a| == 0 {
      assert a + b == b;
    } else {
      assert (a + b)[1..] == a[1..] + b;
      AllInstallmentsConcat(a[1..], b);
    }
  }

  /** Flattening lists holding the same expenses gives lists holding the
      same installments, whatever the order of the expenses. */
  lemma {:induction false} AllInstallmentsPermutation(a: seq<Expense>, b: seq<Expense>)
    requires multiset(a) == multiset(b)
    ensures multiset(AllInstallments(a)) == multiset(AllInstallments(b))
  {
    if |a| == 0 {
      assert |b| == |multiset(b)| == 0;
    } else {
      var x := a[0];
      assert x in multiset(b);
      var k :| 0 <= k < |b| && b[k] == x;
      var rest := b[..k] + b[k + 1..];
      assert b == b[..k] + [x] + b[k + 1..];
      assert a == [x] + a[1..];
      assert multiset(rest) == multiset(b[..k]) + multiset(b[k + 1..]);
      assert multiset(a[1..]) == multiset(a) - multiset{x};
      assert multiset(rest) == multiset(b) - multiset{x};
      AllInstallmentsPermutation(a[1..], rest);
      AllInstallmentsConcat(b[..k] + [x], b[k + 1..]);
      AllInstallmentsConcat(b[..k], [x]);
      AllInstallmentsConcat(b[..k], b[k + 1..]);
      AllInstallmentsConcat([x], a[1..]);
      AllInstallmentsSingle(x);
    }
  }

  lemma AllInstallmentsSingle(e: Expense)
    ensures AllInstallments([e]) == InstallmentsOf(e)
    ensures e.installments.None? ==> AllInstallments([e]) == []
  {
    assert [e][1..] == [];
  }

  /** Sum of the incomes of one person tag. */
  function PersonTotal(salaries: seq<Salary>, p: Person): Cents {
    Sum(Filter(salaries, (s: Salary) => s.person == p), (s: Salary) => s.value)
  }

  function IncomeTotal(salaries: seq<Salary>): Cents {
    Sum(salaries, (s: Salary) => s.value)
  }

  function FixedTotal(expenses: seq<Expense>): Cents {
    Sum(Filter(expenses, (e: Expense) => e.kind == Fixo), (e: Expense) => e.amount)
  }

  /** Every installment not marked paid, whatever its due date. */
  function PendingInstallmentsTotal(installments: seq<Installment>): Cents {
    Sum(Filter(installments, (i: Installment) => i.status != Paid), (i: Installment) => i.amount)
  }

  /** A one-off expense is still to pay when it is due today or later. */
  predicate UpcomingOneOff(e: Expense, today: Date) {
    e.kind == Unico && e.dueDate.Some? && !Before(e.dueDate.value, today)
  }

  function OneOffTotal(expenses: seq<Expense>, today: Date): Cents {
    Sum(Filter(expenses, (e: Expense) => UpcomingOneOff(e, today)), (e: Expense) => e.amount)
  }

  datatype Totals = Totals(
    conjunto: Cents,
    person1: Cents,
    person2: Cents,
    vr: Cents,
    totalGeral: Cents,
    fixed: Cents,
    pendingInstallments: Cents,
    oneOff: Cents,
    totalDespesas: Cents,
    saldoGeral: Cents)

  /** The page's totals, computed from the loaded salaries and expenses (the
      installment list is the flattened one the page keeps beside them). */
  function PageTotals(salaries: seq<Salary>, expenses: seq<Expense>, today: Date): (t: Totals)
    ensures t.conjunto == PersonTotal(salaries, Conjunto) && t.person1 == PersonTotal(salaries, Person1)
    ensures t.person2 == PersonTotal(salaries, Person2) && t.vr == PersonTotal(salaries, Vr)
    ensures t.totalGeral == IncomeTotal(salaries)
    ensures t.fixed == FixedTotal(expenses)
    ensures t.pendingInstallments == PendingInstallmentsTotal(AllInstallments(expenses))
    ensures t.oneOff == OneOffTotal(expenses, today)
    ensures t.totalDespesas == t.fixed + t.pendingInstallments + t.oneOff
    ensures t.saldoGeral == t.totalGeral - t.totalDespesas
  {
    var conjunto := PersonTotal(salaries, Conjunto);
    var person1 := PersonTotal(salaries, Person1);
    var person2 := PersonTotal(salaries, Person2);
    var vr := PersonTotal(salaries, Vr);
    var totalGeral := conjunto + person1 + person2 + vr;
    var fixed := FixedTotal(expenses);
    var pending := PendingInstallmentsTotal(AllInstallments(expenses));
    var oneOff := OneOffTotal(expenses, today);
    var totalDespesas := fixed + pending + oneOff;
    PersonTotalsCoverIncome(salaries);
    Totals(conjunto, person1, person2, vr, totalGeral, fixed, pending, oneOff, totalDespesas, totalGeral - totalDespesas)
  }

  /** Every income carries one of the four tags, so the four per-person
      totals add up to all income. */
  lemma {:induction false} PersonTotalsCoverIncome(salaries: seq<Salary>)
    ensures PersonTotal(salaries, Conjunto) + PersonTotal(salaries, Person1)
          + PersonTotal(salaries, Person2) + PersonTotal(salaries, Vr) == IncomeTotal(salaries)
  {
    if |salaries| > 0 {
      PersonTotalsCoverIncome(salaries[1..]);
      PersonTotalStep(salaries, Conjunto);
      PersonTotalStep(salaries, Person1);
      PersonTotalStep(salaries, Person2);
      PersonTotalStep(salaries, Vr);
    }
  }

  lemma PersonTotalStep(salaries: seq<Salary>, p: Person)
    requires |salaries| > 0
    ensures PersonTotal(salaries, p)
         == (if salaries[0].person == p then salaries[0].value else 0) + PersonTotal(salaries[1..], p)
  {
    FilteredSumStep(salaries, (s: Salary) => s.person == p, (s: Salary) => s.value);
  }

  /** Appending an installment raises the pending total by its amount unless
      it is paid, whatever its due date. */
  lemma PendingTotalAppend(installments: seq<Installment>, inst: Installment)
    ensures PendingInstallmentsTotal(installments + [inst])
         == PendingInstallmentsTotal(installments) + (if inst.status != Paid then inst.amount else 0)
  {
    var p := (i: Installment) => i.status != Paid;
    FilterConcat(installments, [inst], p);
    FilterSingleton(inst, p);
    SumConcat(Filter(installments, p), Filter([inst], p), (i: Installment) => i.amount);
    assert Sum([inst], (i: Installment) => i.amount) == inst.amount;
  }

  /** Appending an expense raises the fixed total by its amount exactly when
      it is a fixed expense. */
  lemma FixedTotalAppend(expenses: seq<Expense>, e: Expense)
    ensures FixedTotal(expenses + [e]) == FixedTotal(expenses) + (if e.kind == Fixo then e.amount else 0)
  {
    var p := (x: Expense) => x.kind == Fixo;
    FilterConcat(expenses, [e], p);
    FilterSingleton(e, p);
    SumConcat(Filter(expenses, p), Filter([e], p), (x: Expense) => x.amount);
    assert Sum([e], (x: Expense) => x.amount) == e.amount;
  }

  /** Appending an expense raises the one-off total by its amount exactly
      when it is a one-off expense due today or later; one without a due
      date or due in the past is left out. */
  lemma OneOffTotalAppend(expenses: seq<Expense>, e: Expense, today: Date)
    ensures OneOffTotal(expenses + [e], today)
         == OneOffTotal(expenses, today) + (if UpcomingOneOff(e, today) then e.amount else 0)
    ensures e.dueDate.None? || Before(e.dueDate.value, today) ==>
      OneOffTotal(expenses + [e], today) == OneOffTotal(expenses, today)
  {
    var p := (x: Expense) => UpcomingOneOff(x, today);
    FilterConcat(expenses, [e], p);
    FilterSingleton(e, p);
    SumConcat(Filter(expenses, p), Filter([e], p), (x: Expense) => x.amount);
    assert Sum([e], (x: Expense) => x.amount) == e.amount;
  }

  /** The totals do not depend on the order in which salaries and expenses
      are listed. */
  lemma TotalsOrderIndependent(s1: seq<Salary>, s2: seq<Salary>, e1: seq<Expense>, e2: seq<Expense>, today: Date)
    requires multiset(s1) == multiset(s2)
    requires multiset(e1) == multiset(e2)
    ensures PageTotals(s1, e1, today).totalGeral == PageTotals(s2, e2, today).totalGeral
    ensures PageTotals(s1, e1, today).fixed == PageTotals(s2, e2, today).fixed
    ensures PageTotals(s1, e1, today).oneOff == PageTotals(s2, e2, today).oneOff
    ensures PageTotals(s1, e1, today).pendingInstallments == PageTotals(s2, e2, today).pendingInstallments
    ensures PageTotals(s1, e1, today).totalDespesas == PageTotals(s2, e2, today).totalDespesas
    ensures PageTotals(s1, e1, today).saldoGeral == PageTotals(s2, e2, today).saldoGeral
  {
    AllInstallmentsPermutation(e1, e2);
    FilteredSumPermutation(AllInstallments(e1), AllInstallments(e2),
      (i: Installment) => i.status != Paid, (i: Installment) => i.amount);
    SumPermutation(s1, s2, (s: Salary) => s.value);
    FilteredSumPermutation(e1, e2, (e: Expense) => e.kind == Fixo, (e: Expense) => e.amount);
    FilteredSumPermutation(e1, e2, (e: Expense) => UpcomingOneOff(e, today), (e: Expense) => e.amount);
  }
}
