/** The bookkeeping behind each card of the expense list
    (components/ExpenseList.tsx): installment counts, the "finished" and
    "due this month" tests, which buttons show, the requested status of a
    clicked installment, the payer's label and the set of expanded cards. */
module ExpenseList {
  import opened Wrappers
  import opened Calendar
  import opened Records
  import opened Seqs
  import opened ConfigContext
  import ConfigDatabase
  import Expenses

  /** `getPendingInstallmentsCount`. */
  function PendingCount(e: Expense): (n: nat)
    ensures n <= |InstallmentsOf(e)|
    ensures n == 0 <==> forall i :: 0 <= i < |InstallmentsOf(e)| ==> InstallmentsOf(e)[i].status == Paid
  {
    match e.installments
    case None => 0
    case Some(insts) => Count(insts, (inst: Installment) => inst.status == Pending)
  }

  /** `getPaidInstallmentsCount`, also the `paid` of the `paid/total` badge. */
  function PaidCount(e: Expense): (n: nat)
    ensures n <= |InstallmentsOf(e)|
    ensures n == 0 <==> forall i :: 0 <= i < |InstallmentsOf(e)| ==> InstallmentsOf(e)[i].status == Pending
  {
    match e.installments
    case None => 0
    case Some(insts) => Count(insts, (inst: Installment) => inst.status == Paid)
  }

  /** Every installment is either pending or paid, so the two counts add up
      to the number of installments. */
  lemma CountsAddUp(e: Expense)
    ensures PendingCount(e) + PaidCount(e) == |InstallmentsOf(e)|
  {
    if e.installments.Some? {
      CountPartition(e.installments.value, (inst: Installment) => inst.status == Pending,
                     (inst: Installment) => inst.status == Paid);
    }
  }

  /** `isFinished`: an installment expense with at least one installment and
      none left pending. */
  predicate IsFinished(e: Expense)
  {
    if e.kind != Parcelado || e.installments.None? || |e.installments.value| == 0 then false
    else PendingCount(e) == 0
  }

  /** What "finished" means: every installment of a non-empty schedule is paid. */
  lemma IsFinishedMeaning(e: Expense)
    ensures IsFinished(e) <==>
      e.kind == Parcelado && |InstallmentsOf(e)| > 0
      && forall i :: 0 <= i < |InstallmentsOf(e)| ==> InstallmentsOf(e)[i].status == Paid
  {
  }

  /** `hasCurrentMonthInstallments`, with today's date as a parameter: some
      installment that is not paid falls due in today's month of today's year. */
  function HasCurrentMonthInstallments(e: Expense, today: Date): (b: bool)
    ensures b <==>
      e.kind == Parcelado
      && exists i :: (0 <= i < |InstallmentsOf(e)| && InstallmentsOf(e)[i].status != Paid
                      && YearMonthOf(InstallmentsOf(e)[i].dueDate) == YearMonthOf(today))
  {
    if e.kind != Parcelado || e.installments.None? then false
    else
      var dueNow := (inst: Installment) => inst.status != Paid && YearMonthOf(inst.dueDate) == YearMonthOf(today);
      assert InstallmentsOf(e) == e.installments.value;
      Any(e.installments.value, dueNow)
  }

  /** `shouldShowInstallmentsSection`: an installment expense that has some. */
  predicate HasInstallments(e: Expense) {
    e.kind == Parcelado && e.installments.Some? && |e.installments.value| > 0
  }

  /** `shouldShowFinalizeButton`. */
  predicate ShowFinalizeButton(e: Expense) {
    e.kind == Unico || (e.kind == Parcelado && e.installments.Some? && |e.installments.value| > 0 && IsFinished(e))
  }

  /** The "finish all" button: shown beside the installments while some are pending. */
  predicate ShowFinishAllButton(e: Expense) {
    HasInstallments(e) && !IsFinished(e)
  }

  /** The "pay this month" button. */
  predicate ShowPayMonthButton(e: Expense, today: Date) {
    HasInstallments(e) && HasCurrentMonthInstallments(e, today)
  }

  /** An installment expense with installments shows exactly one of
      "finalize" and "finish all"; a one-off expense always offers
      "finalize"; a monthly expense offers neither. */
  lemma FinalizeOrFinishAll(e: Expense)
    ensures HasInstallments(e) ==> (ShowFinalizeButton(e) <==> !ShowFinishAllButton(e))
    ensures e.kind == Unico ==> ShowFinalizeButton(e) && !ShowFinishAllButton(e)
    ensures e.kind == Fixo ==> !ShowFinalizeButton(e) && !ShowFinishAllButton(e)
    ensures ShowFinalizeButton(e) && e.kind == Parcelado ==> PendingCount(e) == 0 && PaidCount(e) > 0
  {
    if ShowFinalizeButton(e) && e.kind == Parcelado {
      CountsAddUp(e);
    }
  }

  /** An installment still due this month is a pending one, so whenever
      "pay this month" shows, "finish all" shows too. */
  lemma PayMonthImpliesFinishAll(e: Expense, today: Date)
    ensures ShowPayMonthButton(e, today) ==> ShowFinishAllButton(e)
  {
    if ShowPayMonthButton(e, today) {
      var insts := InstallmentsOf(e);
      var i :| 0 <= i < |insts| && insts[i].status != Paid && YearMonthOf(insts[i].dueDate) == YearMonthOf(today);
      assert insts[i].status == Pending;
    }
  }

  /** The status requested when an installment is clicked. */
  function NextStatus(s: InstallmentStatus): (r: InstallmentStatus)
    ensures r != s
  {
    if s == Paid then Pending else Paid
  }

  /** Clicking an installment twice asks for its original status again. */
  lemma NextStatusInvolution(s: InstallmentStatus)
    ensures NextStatus(NextStatus(s)) == s
  {
  }

  /** A successful click flips the status; two successful clicks on a
      consistent installment give it back unchanged, paid time included. */
  lemma ClickTwiceRestores(inst: Installment, now1: Timestamp, now2: Timestamp)
    requires Expenses.PaidAtConsistent(inst)
    requires inst.status == Pending
    ensures var once := Expenses.UpdateInstallmentStatus(inst, NextStatus(inst.status), now1, true, true);
      once.Success? && once.value.status == Paid
      && Expenses.UpdateInstallmentStatus(once.value, NextStatus(once.value.status), now2, true, true)
         == Success(inst)
  {
  }

  /** `x || fallback` on texts. */
  function OrElse(x: string, fallback: string): (r: string)
    ensures x != "" ==> r == x
    ensures x == "" ==> r == fallback
  {
    if x != "" then x else fallback
  }

  /** The configuration key holding each payer's label. */
  function LabelKey(p: Person): string {
    match p
    case Conjunto => "conjunto_label"
    case Person1 => "person1_name"
    case Person2 => "person2_name"
    case Vr => "vr_label"
  }

  /** The label shown when the configuration has none. */
  function FallbackLabel(p: Person): string {
    match p
    case Conjunto => "Salário Conjunto"
    case Person1 => "Pessoa 1"
    case Person2 => "Pessoa 2"
    case Vr => "Vale Refeição (VR)"
  }

  /** `getPaidByLabel` on the stored tag text: the configured label of a
      known tag, else its fallback, and `Conjunto` for a missing or unknown
      tag. */
  function PaidByLabel(paidBy: Option<string>, configs: map<string, string>): (r: string)
    ensures r != ""
    ensures (forall p :: paidBy != Some(TagName(p))) ==> r == "Conjunto"
    ensures forall p :: paidBy == Some(TagName(p)) ==>
      (r == FallbackLabel(p) || (LabelKey(p) in configs && r == configs[LabelKey(p)]))
  {
    match paidBy
    case None => "Conjunto"
    case Some(tag) =>
      assert TagName(Conjunto) == "conjunto" && TagName(Person1) == "person1";
      assert TagName(Person2) == "person2" && TagName(Vr) == "vr";
      if tag == "conjunto" then OrElse(ConfigValue(configs, "conjunto_label"), "Salário Conjunto")
      else if tag == "person1" then OrElse(ConfigValue(configs, "person1_name"), "Pessoa 1")
      else if tag == "person2" then OrElse(ConfigValue(configs, "person2_name"), "Pessoa 2")
      else if tag == "vr" then OrElse(ConfigValue(configs, "vr_label"), "Vale Refeição (VR)")
      else "Conjunto"
  }

  /** A non-empty configured label always wins over the fallback. */
  lemma ConfiguredLabelWins(p: Person, configs: map<string, string>)
    requires LabelKey(p) in configs && configs[LabelKey(p)] != ""
    ensures PaidByLabel(Some(TagName(p)), configs) == configs[LabelKey(p)]
  {
  }

  /** The fallbacks are the built-in defaults of the same keys, so an
      unconfigured store shows what the default configuration would. */
  lemma FallbacksAreDefaults(p: Person)
    ensures LabelKey(p) in ConfigDatabase.Defaults
    ensures PaidByLabel(Some(TagName(p)), map[]) == ConfigDatabase.Defaults[LabelKey(p)]
  {
  }

  /** `toggleExpense` on a set: `id` flips, every other id stays. */
  function Toggled(s: set<string>, id: string): (r: set<string>)
    ensures id in r <==> id !in s
    ensures forall x :: x != id ==> (x in r <==> x in s)
  {
    if id in s then s - {id} else s + {id}
  }

  /** Toggling the same card twice restores the set. */
  lemma ToggleTwice(s: set<string>, id: string)
    ensures Toggled(Toggled(s, id), id) == s
  {
  }

  /** The `expandedExpenses` state of the list. */
  class ExpandedExpenses {
    var expanded: set<string>

    constructor()
      ensures expanded == {}
    {
      expanded := {};
    }

    /** `toggleExpense`: copy the set, add or delete the id, store the copy. */
    method Toggle(id: string)
      modifies this
      ensures expanded == Toggled(old(expanded), id)
    {
      var newExpanded := expanded;
      if id in newExpanded {
        newExpanded := newExpanded - {id};
      } else {
        newExpanded := newExpanded + {id};
      }
      expanded := newExpanded;
    }
  }
}
