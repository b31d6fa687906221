/** The expense form (components/ExpenseForm.tsx): its state, the mapping
    from an expense being edited, the parsing of the amount and count
    inputs, the payload it submits, and the summary and installment preview
    it shows for a purchase in installments. */
module ExpenseForm {
  import opened Wrappers
  import opened Calendar
  import opened Money
  import opened Records
  import opened Expenses

  /** `formData`; an empty date field is `None`. */
  datatype FormData = FormData(
    kind: ExpenseKind,
    name: string,
    category: string,
    amount: Cents,
    totalInstallments: int,
    firstDueDate: Option<Date>,
    notes: string)

  /** The state of a fresh form. */
  function InitialForm(): (f: FormData)
    ensures f.kind == Fixo && f.category == "geral" && f.amount == 0
    ensures f.totalInstallments == 1 && f.firstDueDate.None?
  {
    FormData(Fixo, "", "geral", 0, 1, None, "")
  }

  /** The form loaded with an expense to edit: a missing or zero count
      becomes 1, the first date is the start date, missing notes are empty. */
  function LoadForEdit(e: Expense): (f: FormData)
    ensures f.totalInstallments != 0
    ensures e.totalInstallments.Some? && e.totalInstallments.value != 0 ==> f.totalInstallments == e.totalInstallments.value
    ensures f.firstDueDate == e.startDate
  {
    FormData(e.kind, e.name, e.category, e.amount,
             if e.totalInstallments.None? || e.totalInstallments.value == 0 then 1 else e.totalInstallments.value,
             e.startDate, e.notes.GetOr(""))
  }

  /** The amount input: `parseFloat(text) || 0`, the parse given as `None`
      when the text is not a number. */
  function AmountFromInput(parsed: Option<Cents>): (a: Cents)
    ensures parsed.Some? ==> a == parsed.value
    ensures parsed.None? ==> a == 0
  {
    parsed.GetOr(0)
  }

  /** The count input: `parseInt(text) || 1`. */
  function InstallmentsFromInput(parsed: Option<int>): (n: int)
    ensures n != 0
    ensures parsed.Some? && parsed.value != 0 ==> n == parsed.value
  {
    if parsed.None? || parsed.value == 0 then 1 else parsed.value
  }

  /** `handleSubmit`: the count and the first date go out only for a
      purchase in installments; the payer is never set. */
  function SubmitPayload(f: FormData): (p: ExpenseInput)
    ensures p.kind == f.kind && p.name == f.name && p.category == f.category && p.amount == f.amount
    ensures p.notes == Some(f.notes) && p.paidBy.None?
    ensures p.totalInstallments.Some? <==> f.kind == Parcelado
    ensures f.kind != Parcelado ==> p.firstDueDate.None?
    ensures f.kind == Parcelado ==> p.totalInstallments == Some(f.totalInstallments) && p.firstDueDate == f.firstDueDate
  {
    ExpenseInput(f.name, f.category, f.amount, f.kind, None, Some(f.notes),
                 if f.kind == Parcelado then Some(f.totalInstallments) else None,
                 if f.kind == Parcelado then f.firstDueDate else None)
  }

  /** An expense created from the form is paid by the shared pool. */
  lemma FormExpensesPaidJointly(f: FormData)
    ensures NewExpenseRow(SubmitPayload(f)).paidBy == Conjunto
  {
    RowDefaults(SubmitPayload(f));
  }

  /** Editing and re-submitting an expense keeps its fields; an installment
      expense with a count keeps its count and its first date. */
  lemma EditRoundTrip(e: Expense)
    ensures var p := SubmitPayload(LoadForEdit(e));
      p.name == e.name && p.category == e.category && p.amount == e.amount && p.kind == e.kind
      && (e.notes.Some? ==> p.notes == e.notes)
      && (e.kind == Parcelado && e.totalInstallments.Some? && e.totalInstallments.value != 0 ==>
            p.totalInstallments == e.totalInstallments && p.firstDueDate == e.startDate)
  {
  }

  /** The "Resumo do Parcelamento" block, shown for a purchase in
      installments with a positive amount, a positive count and a date. */
  predicate ShowSummary(f: FormData) {
    f.kind == Parcelado && f.amount > 0 && f.totalInstallments > 0 && f.firstDueDate.Some?
  }

  /** A summary means the submitted purchase passes the installment-field
      check of `createExpense`. */
  lemma SummaryMeansComplete(f: FormData)
    requires ShowSummary(f)
    ensures !LacksInstallmentFields(SubmitPayload(f))
  {
  }

  /** One card of the preview: its number, its due date and the unrounded
      quotient `total / parts` it displays, kept as the exact fraction. */
  datatype PreviewCard = PreviewCard(number: int, dueDate: Date, total: Cents, parts: int)

  /** The preview cards: none unless the summary shows and the count is at
      most 12, otherwise the first `min(count, 6)` installments. */
  function Preview(f: FormData): (cards: seq<PreviewCard>)
    ensures |cards| <= 6
    ensures |cards| > 0 ==> ShowSummary(f) && f.totalInstallments <= 12
    ensures ShowSummary(f) && f.totalInstallments <= 12 ==>
      |cards| == if f.totalInstallments < 6 then f.totalInstallments else 6
    ensures forall i :: 0 <= i < |cards| ==> cards[i].number == i + 1
    ensures forall i :: 0 <= i < |cards| ==> cards[i].total == f.amount && cards[i].parts == f.totalInstallments
  {
    if !ShowSummary(f) || f.totalInstallments > 12 then []
    else
      var shown := if f.totalInstallments < 6 then f.totalInstallments else 6;
      seq(shown, i requires 0 <= i < shown =>
        PreviewCard(i + 1, AddMonths(f.firstDueDate.value, i), f.amount, f.totalInstallments))
  }

  /** The `+ N parcelas` tile after six cards: shown inside the preview
      only, and only when there are more installments than cards. */
  function RemainingTile(f: FormData): (n: Option<int>)
    ensures n.Some? <==> ShowSummary(f) && 6 < f.totalInstallments <= 12
    ensures n.Some? ==> n.value == f.totalInstallments - 6 && n.value > 0
  {
    if ShowSummary(f) && f.totalInstallments <= 12 && f.totalInstallments > 6 then Some(f.totalInstallments - 6)
    else None
  }

  /** The cards and the tile account for every installment. */
  lemma PreviewAccountsForAll(f: FormData)
    requires ShowSummary(f) && f.totalInstallments <= 12
    ensures |Preview(f)| + RemainingTile(f).GetOr(0) == f.totalInstallments
  {
  }

  /** Each card shows the number and the due date of the installment that
      `createExpense` will store, and an amount within half a cent of it. */
  lemma PreviewMatchesSchedule(f: FormData, expenseId: string)
    requires ShowSummary(f)
    ensures var cards := Preview(f);
      var s := Schedule(expenseId, f.amount, f.totalInstallments, f.firstDueDate.value);
      |cards| <= |s|
      && forall i :: 0 <= i < |cards| ==>
           cards[i].number == s[i].number && cards[i].dueDate == s[i].dueDate
           && cards[i].parts > 0
           && -cards[i].parts <= 2 * (cards[i].parts * s[i].amount - cards[i].total) <= cards[i].parts
  {
    RoundDivDrift(f.amount, f.totalInstallments);
  }
}
