/** The records the application reads from and writes to its database
    (lib/supabase.ts), with the loosely typed tags closed into datatypes. */
module Records {
  import opened Wrappers
  import opened Calendar
  import opened Money

  /** Who an income belongs to, or who pays an expense. */
  datatype Person = Person1 | Person2 | Conjunto | Vr

  /** The tag's text as the database stores it. */
  function TagName(p: Person): string {
    match p
    case Person1 => "person1"
    case Person2 => "person2"
    case Conjunto => "conjunto"
    case Vr => "vr"
  }

  /** `'fixo'` (monthly), `'parcelado'` (in installments) or `'unico'` (one-off). */
  datatype ExpenseKind = Fixo | Parcelado | Unico

  datatype InstallmentStatus = Pending | Paid

  /** An ISO timestamp produced by the clock; its text is not modelled. */
  type Timestamp = string

  datatype Salary = Salary(person: Person, name: string, value: Cents)

  datatype Installment = Installment(
    expenseId: string,
    number: int,
    amount: Cents,
    dueDate: Date,
    status: InstallmentStatus,
    paidAt: Option<Timestamp>)

  datatype Expense = Expense(
    id: Option<string>,
    name: string,
    category: string,
    amount: Cents,
    kind: ExpenseKind,
    paidBy: Option<Person>,
    isRecurring: bool,
    totalInstallments: Option<int>,
    notes: Option<string>,
    startDate: Option<Date>,
    dueDate: Option<Date>,
    installments: Option<seq<Installment>>)

  /** `expense.installments || []`. */
  function InstallmentsOf(e: Expense): seq<Installment> {
    e.installments.GetOr([])
  }

  datatype ConfigType = Text | Number | Textarea

  datatype SiteConfig = SiteConfig(
    id: Option<string>,
    key: string,
    value: string,
    labelText: string,
    category: string,
    kind: ConfigType)

  /** One `{ key, value }` pair of a configuration update. */
  datatype ConfigUpdate = ConfigUpdate(key: string, value: string)
}
