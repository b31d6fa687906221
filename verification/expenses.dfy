/** Creating an expense and its installment schedule, and changing an
    installment's status (lib/expenses.ts). The database is abstracted into
    a `Backend` value saying which writes succeed. */
module Expenses {
  import opened Wrappers
  import opened Calendar
  import opened Money
  import opened Records
  import opened Seqs

  /** What the form submits to `createExpense`. */
  datatype ExpenseInput = ExpenseInput(
    name: string,
    category: string,
    amount: Cents,
    kind: ExpenseKind,
    paidBy: Option<Person>,
    notes: Option<string>,
    totalInstallments: Option<int>,
    firstDueDate: Option<Date>)

  /** The row inserted into the `expenses` table. */
  datatype ExpenseRow = ExpenseRow(
    name: string,
    category: string,
    amount: Cents,
    kind: ExpenseKind,
    paidBy: Person,
    isRecurring: bool,
    totalInstallments: Option<int>,
    notes: Option<string>,
    startDate: Option<Date>)

  /** Whether the backend is configured and which of the two inserts succeed. */
  datatype Backend = Backend(configured: bool, expenseInsertOk: bool, installmentsInsertOk: bool)

  datatype CreateError =
    | NotConfigured
    | ExpenseInsertFailed
    | MissingInstallmentFields
    | InstallmentsInsertFailed

  /** The expense row and the installment batch that `createExpense` writes. */
  datatype Created = Created(row: ExpenseRow, installments: seq<Installment>)

  function NewExpenseRow(input: ExpenseInput): ExpenseRow {
    ExpenseRow(
      input.name,
      input.category,
      input.amount,
      input.kind,
      input.paidBy.GetOr(Conjunto),
      input.kind == Fixo,
      if input.kind == Parcelado then input.totalInstallments else None,
      input.notes,
      input.firstDueDate)
  }

  /** The defaults of the inserted row: the payer falls back to the shared
      pool, only fixed expenses recur, only installment purchases keep a
      count, and the first due date becomes the start date. */
  lemma RowDefaults(input: ExpenseInput)
    ensures NewExpenseRow(input).paidBy == if input.paidBy.Some? then input.paidBy.value else Conjunto
    ensures NewExpenseRow(input).isRecurring <==> input.kind == Fixo
    ensures input.kind != Parcelado ==> NewExpenseRow(input).totalInstallments == None
    ensures input.kind == Parcelado ==> NewExpenseRow(input).totalInstallments == input.totalInstallments
    ensures NewExpenseRow(input).startDate == input.firstDueDate
  {
  }

  /** `!input.total_installments || !input.first_due_date`: a missing or zero
      count, or a missing first date. */
  predicate LacksInstallmentFields(input: ExpenseInput) {
    input.totalInstallments.None? || input.totalInstallments.value == 0 || input.firstDueDate.None?
  }

  /** The installments of a purchase of `amount` in `n` parts, the first due
      on `first`. A count that is not positive yields no installments. */
  function Schedule(expenseId: string, amount: Cents, n: int, first: Date): seq<Installment> {
    seq(if n > 0 then n else 0,
        i requires 0 <= i < (if n > 0 then n else 0) =>
          Installment(expenseId, i + 1, RoundDiv(amount, n), AddMonths(first, i), Pending, None))
  }

  /** The installment loop of `createExpense`. */
  method BuildInstallments(expenseId: string, amount: Cents, n: int, first: Date)
    returns (installments: seq<Installment>)
    ensures |installments| == if n > 0 then n else 0
    ensures forall i :: 0 <= i < |installments| ==>
      installments[i] == Installment(expenseId, i + 1, RoundDiv(amount, n), AddMonths(first, i), Pending, None)
    ensures installments == Schedule(expenseId, amount, n, first)
  {
    installments := [];
    var i := 0;
    while i < n
      invariant 0 <= i <= (if n > 0 then n else 0)
      invariant |installments| == i
      invariant forall j :: 0 <= j < i ==>
        installments[j] == Installment(expenseId, j + 1, RoundDiv(amount, n), AddMonths(first, j), Pending, None)
    {
      var dueDate := AddMonths(first, i);
      var roundedAmount := RoundDiv(amount, n);
      installments := installments + [Installment(expenseId, i + 1, roundedAmount, dueDate, Pending, None)];
      i := i + 1;
    }
  }

  /** `createExpense`: checks the backend, inserts the row (the new row's id
      is `newId`), validates the installment fields of an installment
      purchase and inserts its schedule. Fixed and one-off expenses get no
      installments. */
  method CreateExpense(input: ExpenseInput, backend: Backend, newId: string)
    returns (r: Result<Created, CreateError>)
    ensures !backend.configured ==> r == Failure(NotConfigured)
    ensures backend.configured && !backend.expenseInsertOk ==> r == Failure(ExpenseInsertFailed)
    ensures backend.configured && backend.expenseInsertOk && input.kind != Parcelado ==>
      r == Success(Created(NewExpenseRow(input), []))
    ensures backend.configured && backend.expenseInsertOk && input.kind == Parcelado && LacksInstallmentFields(input) ==>
      r == Failure(MissingInstallmentFields)
    ensures backend.configured && backend.expenseInsertOk && input.kind == Parcelado && !LacksInstallmentFields(input) ==>
      r == if backend.installmentsInsertOk
           then Success(Created(NewExpenseRow(input),
                  Schedule(newId, input.amount, input.totalInstallments.value, input.firstDueDate.value)))
           else Failure(InstallmentsInsertFailed)
  {
    if !backend.configured {
      return Failure(NotConfigured);
    }
    var row := NewExpenseRow(input);
    if !backend.expenseInsertOk {
      return Failure(ExpenseInsertFailed);
    }
    var installments := [];
    if input.kind == Parcelado {
      if LacksInstallmentFields(input) {
        return Failure(MissingInstallmentFields);
      }
      installments := BuildInstallments(newId, input.amount, input.totalInstallments.value, input.firstDueDate.value);
      if !backend.installmentsInsertOk {
        return Failure(InstallmentsInsertFailed);
      }
    }
    return Success(Created(row, installments));
  }

  /** Due dates strictly increase, consecutive ones lie in consecutive
      calendar months, and the first installment is due on the first date. */
  lemma ScheduleDueDates(expenseId: string, amount: Cents, n: int, first: Date)
    ensures var s := Schedule(expenseId, amount, n, first);
      && (n > 0 ==> s[0].dueDate == first)
      && (forall i, j :: 0 <= i < j < |s| ==> Before(s[i].dueDate, s[j].dueDate))
      && (forall i :: 0 < i < |s| ==>
            MonthIndex(YearMonthOf(s[i].dueDate)) == MonthIndex(YearMonthOf(s[i - 1].dueDate)) + 1)
  {
    var s := Schedule(expenseId, amount, n, first);
    if n > 0 {
      AddZeroMonths(first);
    }
    forall i, j | 0 <= i < j < |s|
      ensures Before(s[i].dueDate, s[j].dueDate)
    {
      EarlierMonthBefore(s[i].dueDate, s[j].dueDate);
    }
  }

  /** All installments carry the same rounded share, so their total is `n`
      shares; it misses the purchase amount by at most `n / 2` cents, since no
      remainder is moved onto any installment. */
  lemma ScheduleTotal(expenseId: string, amount: Cents, n: int, first: Date)
    requires n > 0
    ensures var total := Sum(Schedule(expenseId, amount, n, first), (x: Installment) => x.amount);
      && total == n * RoundDiv(amount, n)
      && -n <= 2 * (total - amount) <= n
  {
    var s := Schedule(expenseId, amount, n, first);
    SumOfEqualAmounts(s, RoundDiv(amount, n));
    RoundDivDrift(amount, n);
  }

  lemma {:induction false} SumOfEqualAmounts(s: seq<Installment>, c: Cents)
    requires forall i :: 0 <= i < |s| ==> s[i].amount == c
    ensures Sum(s, (x: Installment) => x.amount) == |s| * c
  {
    if |s| > 0 {
      SumOfEqualAmounts(s[1..], c);
    }
  }

  /** When the count divides the amount the schedule adds up exactly. */
  lemma ScheduleExactSplit(expenseId: string, k: Cents, n: int, first: Date)
    requires n > 0
    ensures Sum(Schedule(expenseId, k * n, n, first), (x: Installment) => x.amount) == k * n
  {
    ScheduleTotal(expenseId, k * n, n, first);
    RoundDivExact(k, n);
  }

  /** The drift can exceed one cent: R$ 0.05 in 10 installments gives ten
      installments of R$ 0.01, R$ 0.10 in all. */
  lemma DriftExceedsOneCent(first: Date)
    ensures Sum(Schedule("e", 5, 10, first), (x: Installment) => x.amount) == 10
  {
    ScheduleTotal("e", 5, 10, first);
    assert RoundDiv(5, 10) == 1;
  }

  /** `paid_at` of a status update: stamped with the clock iff the new status
      is paid. */
  function PaidAtFor(status: InstallmentStatus, now: Timestamp): (paidAt: Option<Timestamp>)
    ensures paidAt.Some? <==> status == Paid
    ensures paidAt.Some? ==> paidAt.value == now
  {
    if status == Paid then Some(now) else None
  }

  /** A paid installment has a payment time and a pending one has none. */
  predicate PaidAtConsistent(inst: Installment) {
    inst.status == Paid <==> inst.paidAt.Some?
  }

  datatype StatusUpdateError = StatusNotConfigured | StatusWriteFailed

  /** `updateInstallmentStatus` applied to the installment it selects. */
  function UpdateInstallmentStatus(inst: Installment, status: InstallmentStatus, now: Timestamp, configured: bool, writeOk: bool)
    : (r: Result<Installment, StatusUpdateError>)
    ensures !configured ==> r == Failure(StatusNotConfigured)
    ensures configured && !writeOk ==> r == Failure(StatusWriteFailed)
    ensures configured && writeOk ==> r.Success?
    ensures r.Success? ==> r.value.paidAt == PaidAtFor(status, now)
    ensures r.Success? ==> r.value.status == status && PaidAtConsistent(r.value)
    ensures r.Success? ==> r.value.(status := inst.status, paidAt := inst.paidAt) == inst
  {
    if !configured then Failure(StatusNotConfigured)
    else if !writeOk then Failure(StatusWriteFailed)
    else Success(inst.(status := status, paidAt := PaidAtFor(status, now)))
  }

  /** Fresh schedules satisfy the paid-time invariant. */
  lemma ScheduleConsistent(expenseId: string, amount: Cents, n: int, first: Date)
    ensures forall i :: 0 <= i < |Schedule(expenseId, amount, n, first)| ==>
      Schedule(expenseId, amount, n, first)[i].status == Pending
      && PaidAtConsistent(Schedule(expenseId, amount, n, first)[i])
  {
  }
}
