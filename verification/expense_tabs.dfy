/** The person tabs above the expense list (components/ExpenseListWithTabs.tsx). */
module ExpenseListWithTabs {
  import opened Wrappers
  import opened Records
  import opened Seqs

  /** `TabType`: only the two people have a tab besides the total. */
  datatype Tab = TotalTab | Person1Tab | Person2Tab

  /** The tab selected when the list first shows. */
  function InitialTab(): (t: Tab)
    ensures t == TotalTab
  {
    TotalTab
  }

  function TabPerson(t: Tab): Person
    requires t != TotalTab
  {
    if t == Person1Tab then Person1 else Person2
  }

  /** `filteredExpenses`: everything under the total tab, otherwise the
      expenses paid by the tab's person. */
  function FilterExpenses(expenses: seq<Expense>, tab: Tab): (r: seq<Expense>)
    ensures tab == TotalTab ==> r == expenses
    ensures |r| <= |expenses|
  {
    if tab == TotalTab then expenses
    else Filter(expenses, (e: Expense) => e.paidBy == Some(TabPerson(tab)))
  }

  /** Under a person tab an expense is listed exactly when that person pays it. */
  lemma PersonTabMembership(expenses: seq<Expense>, tab: Tab, e: Expense)
    requires tab != TotalTab
    ensures e in FilterExpenses(expenses, tab) <==> e in expenses && e.paidBy == Some(TabPerson(tab))
  {
    var r := FilterExpenses(expenses, tab);
    if e in r {
      var i :| 0 <= i < |r| && r[i] == e;
    }
    if e in expenses && e.paidBy == Some(TabPerson(tab)) {
      var i :| 0 <= i < |expenses| && expenses[i] == e;
    }
  }

  /** Filtering keeps the relative order: it distributes over concatenation. */
  lemma FilterExpensesConcat(a: seq<Expense>, b: seq<Expense>, tab: Tab)
    ensures FilterExpenses(a + b, tab) == FilterExpenses(a, tab) + FilterExpenses(b, tab)
  {
    if tab != TotalTab {
      FilterConcat(a, b, (e: Expense) => e.paidBy == Some(TabPerson(tab)));
    }
  }

  /** Expenses paid from the meal voucher, from the shared pool or by nobody
      in particular are listed under the total tab only. */
  lemma OthersOnlyUnderTotal(expenses: seq<Expense>, tab: Tab, e: Expense)
    requires e.paidBy in {Some(Vr), Some(Conjunto), None}
    ensures e in FilterExpenses(expenses, tab) ==> tab == TotalTab
  {
    if tab != TotalTab {
      PersonTabMembership(expenses, tab, e);
    }
  }

  /** The two person tabs never share an expense. */
  lemma PersonTabsDisjoint(expenses: seq<Expense>, e: Expense)
    ensures !(e in FilterExpenses(expenses, Person1Tab) && e in FilterExpenses(expenses, Person2Tab))
  {
    PersonTabMembership(expenses, Person1Tab, e);
    PersonTabMembership(expenses, Person2Tab, e);
  }
}
