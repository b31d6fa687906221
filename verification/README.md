# Household finance core, modelled in Dafny

A two-person household finance application keeps salaries, expenses and
installment purchases in a hosted database. It shows totals on its home
page, a twelve-month projection chart, an expense list with per-installment
bookkeeping, an expense form with an installment preview, and an editor for
its site texts. This project models the computational core behind those
screens. The database is abstracted into parameters.

- **Schedules.** `createExpense` turns a purchase into `n` installments.
  Each is worth `amount / n` rounded to the cent and is due `i` calendar
  months after the first date. Row defaults, validation and the status
  update with its payment time are modelled too.
- **Totals.** The home page computes per-person income, fixed expenses,
  pending installments, upcoming one-off expenses and the balance.
- **Projection.** The chart computes twelve monthly points, optionally for
  one person. The month selector lists twelve calendar months.
- **Expense list.** Covered here: the installment counts, the "finished" and
  "due this month" tests, button visibility, the requested status of a
  clicked installment, the payer label, the set of expanded cards and the
  person tabs.
- **Expense form.** Covered here: the form state, the mapping from an edited
  expense, the input fallbacks, the submitted payload, and the summary and
  preview cards.
- **Configuration.** Covered here: the built-in defaults and their fallbacks,
  the sequential batch write, the provider's map and list, and the editor's
  edits, save diff, categories, search and grouping.

Representation choices:

- Amounts are integer cents (`Money.Cents`). `toFixed(2)` of `amount / n`
  becomes the nearest whole cent, with ties going away from zero
  (`Money.RoundDiv`).
- Dates are valid Gregorian `(year, month, day)` triples (`Calendar.Date`).
  date-fns `addMonths` becomes calendar-month addition that clamps the day
  to the target month's length.
- Person tags, expense kinds and installment statuses are closed datatypes.
  The payer label alone takes the stored tag as raw text, so its `default:`
  branch for an unknown tag is modelled (`ExpenseList.PaidByLabel`).
- "Today" and the clock's timestamp are parameters.
- The chart's filter is one of the four values its prop's type allows:
  the total view or the tag `person1`, `person2` or `vr`. The shared pool
  is never a person filter (`ProjectionChart.ValidFilter`).
- Every database call becomes a flag or an outcome parameter: whether the
  backend is configured, and whether a write succeeds.

Two behaviours of the installment schedule are easy to expect and are not
what the code does:

- The share is not truncated to two decimals and no remainder is moved
  onto any installment. The code rounds with `toFixed(2)`, so the model
  rounds to the nearest cent. The stored installments then miss the total
  by up to `n / 2` cents, not by at most one cent. `Expenses.ScheduleTotal`
  proves that bound, and `Expenses.DriftExceedsOneCent` shows R$ 0.05 in
  ten installments adding up to R$ 0.10.
- No installment starts out paid. The code creates every installment
  pending (`Expenses.ScheduleConsistent`), with no way to mark the first
  few as already paid.

The record types and the code that uses them also disagree:

- The declared `Expense` record lists only the kinds `fixo` and `parcelado`
  and has no `due_date`. The totals, the chart and the list all test for
  `unico` and read `due_date`, so the model has three kinds and an optional
  due date.

Two behaviours of the configuration code are worth knowing. Both concern a
list that repeats a key, which the provider and the editor accept as they
receive it. The stored table itself is modelled as a map from key to
value: the model takes the table's `key` column to be unique, as the
single-row read by key and the write by key assume. So only the in-memory
layers meet duplicates.

First, the editor fills its edits from the list with the last record of
each key winning. Its save then compares each edit with the first record of
the key. A list with two records of one key and different values therefore
saves an update nobody made (`ConfigEditor.DuplicateKeySavesUpdate`). When
records sharing a key share their value, untouched edits save nothing
(`ConfigEditor.UneditedSavesNothing`).

Second, the provider's map takes the last update of a repeated key, while
its list takes the first (`ConfigContext.RepeatedKeyDisagrees`). With
distinct keys the two agree (`ConfigContext.UpdatesKeepAgreement`). The
editor always sends distinct keys (`ConfigEditor.SaveKeepsStoreAgreement`).

## Model

| member | source | states |
|---|---|---|
| Calendar.AddMonths | lib/expenses.ts:87 | the result lies exactly `n` calendar months after the date's month; it keeps the day when that month has it, and otherwise takes the month's last day |
| Calendar.MonthOffset | components/ProjectionChart.tsx:75 | the month of `addMonths(d, i)` is `i` months after the month of `d`, with a month number in 1..12 |
| Calendar.AddZeroMonths | lib/expenses.ts:87 | adding no months returns the same date, so the first installment is due on the first date |
| Calendar.AddMonthsKeepsDay | lib/expenses.ts:87 | a day of the month up to 28 survives any month addition |
| Calendar.AddMonthsNotCompositional | lib/expenses.ts:87 | two one-month steps from 31 January 2024 give 29 March, while one two-month step gives 31 March, so each due date is computed from the first date |
| Calendar.EarlierMonthBefore | lib/expenses.ts:86-87 | a date in an earlier calendar month comes strictly before |
| Money.RoundDiv | lib/expenses.ts:84-88 | the share is within half a cent of `amount / n`, a tie going away from zero |
| Money.RoundDivDrift | lib/expenses.ts:84-92 | `n` rounded shares miss the amount by at most `n / 2` cents |
| Money.RoundDivExact | lib/expenses.ts:84-88 | when `n` divides the amount, the share is the exact quotient |
| Money.RoundDivUnique | lib/expenses.ts:88 | any whole number of cents within the rounding bounds is the rounded share, so the rounding is the unique nearest cent |
| Expenses.RowDefaults | lib/expenses.ts:59-69 | the payer defaults to the shared pool; the row recurs iff it is fixed; only an installment purchase keeps its count; the first due date becomes the start date |
| Expenses.BuildInstallments | lib/expenses.ts:83-96 | the loop yields exactly `n` records (none for `n <= 0`); record `i` carries the expense id, number `i + 1`, the rounded share, due date `addMonths(first, i)` and status pending, and the list is the schedule |
| Expenses.CreateExpense | lib/expenses.ts:52-107 | returns an error when unconfigured or when the row insert fails; fixed and one-off expenses get no installments; an installment purchase with a missing or zero count, or no date, is rejected before any installment is built; otherwise the schedule, or the installment insert's error |
| Expenses.ScheduleDueDates | lib/expenses.ts:86-87 | the first installment is due on the first date; due dates strictly increase and fall in consecutive calendar months |
| Expenses.ScheduleTotal | lib/expenses.ts:84-92 | all shares are equal, so the total is `n` shares, within `n / 2` cents of the amount |
| Expenses.ScheduleExactSplit | lib/expenses.ts:84-92 | an amount divisible by the count is split exactly |
| Expenses.DriftExceedsOneCent | lib/expenses.ts:84-92 | five cents in ten installments add up to ten cents |
| Expenses.PaidAtFor | lib/expenses.ts:134 | the payment time is set, to the clock's time, iff the new status is paid |
| Expenses.UpdateInstallmentStatus | lib/expenses.ts:125-142 | returns an error when unconfigured or when the write fails, and succeeds otherwise; on success the installment takes the new status, with the clock's time as payment time iff it is paid, and nothing else changes |
| Expenses.ScheduleConsistent | lib/expenses.ts:94 | every fresh installment is pending, with no payment time |
| Dashboard.AllInstallmentsConcat | app/page.tsx:55 | flattening a concatenation of expense lists concatenates their installments, in expense order |
| Dashboard.AllInstallmentsPermutation | app/page.tsx:55 | flattening the same expenses in another order gives the same installments, in another order |
| Dashboard.AllInstallmentsSingle | app/page.tsx:55 | one expense contributes its own installments, and none when it has no list |
| Dashboard.PageTotals | app/page.tsx:164-203 | each per-person total is the sum of that person's salaries and the overall income the sum of every salary; the fixed total sums the fixed expenses, the pending total the unpaid installments of every expense, the one-off total the one-off expenses due today or later; expenses are fixed + pending + one-off and the balance is income minus expenses |
| Dashboard.PersonTotalsCoverIncome | app/page.tsx:164-180 | the four per-person totals add up to the sum of every salary |
| Dashboard.PersonTotalStep | app/page.tsx:164-178 | a person's total counts the head salary exactly when it carries that person's tag |
| Dashboard.PendingTotalAppend | app/page.tsx:186-188 | one more installment raises the pending total by its amount unless it is paid, whatever its due date |
| Dashboard.FixedTotalAppend | app/page.tsx:182-184 | one more expense raises the fixed total by its amount exactly when it is fixed |
| Dashboard.OneOffTotalAppend | app/page.tsx:190-200 | one more expense raises the one-off total by its amount exactly when it is one-off and due today or later; without a due date, or with a past one, it adds nothing |
| Dashboard.TotalsOrderIndependent | app/page.tsx:164-200 | income, the fixed, pending and one-off totals, all expenses and the balance do not depend on the order of the lists |
| ProjectionChart.FilteredExpenses | components/ProjectionChart.tsx:39-42 | the total view keeps every expense; a person view keeps exactly the expenses that person pays |
| ProjectionChart.LookupExpense | components/ProjectionChart.tsx:59-65 | finds nothing iff no expense has the id; otherwise finds the last expense with the id |
| ProjectionChart.MonthPoint | components/ProjectionChart.tsx:79-106 | for one of the four filter values, a point is labelled with its month, carries the filtered income, has as expenses the filtered fixed expenses, the one-off expenses due that month and the filtered pending installments due that month, and has net = income − expenses |
| ProjectionChart.Project | components/ProjectionChart.tsx:71-107 | for one of the four filter values, the loop yields exactly twelve points; point `i` is the month point for the month `i` months after today |
| ProjectionChart.HasData | components/ProjectionChart.tsx:112 | false iff every point has income ≤ 0, expenses ≤ 0 and net = 0 |
| ProjectionChart.IncomeSplitsByPerson | components/ProjectionChart.tsx:31-36 | the total view's income is the three filterable incomes plus the shared pool's |
| ProjectionChart.AddInstallment | components/ProjectionChart.tsx:56-84 | one more installment raises a month's expenses by its amount when it is pending, due in that month and (under a person filter) its expense is found and paid by that person, and by nothing otherwise |
| ProjectionChart.AddSettledInstallment | components/ProjectionChart.tsx:56-84 | a paid installment, or one due in another month, leaves the month's point unchanged |
| ProjectionChart.AddExpenseRow | components/ProjectionChart.tsx:39-96 | one more expense counts only when the filter keeps it: a fixed one in every month, a one-off one only in its due month and never without a due date, an installment purchase's row in no month |
| ProjectionChart.FilteredExpensesAppend | components/ProjectionChart.tsx:39-42 | the person filter keeps the order and looks at each expense on its own |
| ProjectionChart.UniqueAppend | components/ProjectionChart.tsx:87-93 | one more expense adds its amount to a month's one-off figure exactly when it is one-off and due in that month |
| ExpenseList.PendingCount | components/ExpenseList.tsx:145-148 | at most the number of installments, and 0 iff every installment is paid (or there are none) |
| ExpenseList.PaidCount | components/ExpenseList.tsx:150-153 | at most the number of installments, and 0 iff every installment is pending (or there are none) |
| ExpenseList.CountsAddUp | components/ExpenseList.tsx:145-153 | pending plus paid is the number of installments |
| ExpenseList.IsFinishedMeaning | components/ExpenseList.tsx:155-158 | finished iff an installment purchase has a non-empty schedule that is all paid |
| ExpenseList.HasCurrentMonthInstallments | components/ExpenseList.tsx:160-172 | true iff the expense is an installment purchase and some unpaid installment is due in today's month and year |
| ExpenseList.FinalizeOrFinishAll | components/ExpenseList.tsx:177-182 | with installments, exactly one of "finalize" and "finish all" (line 264) shows; a one-off expense shows "finalize"; a fixed one shows neither; "finalize" on an installment purchase means nothing pending and something paid |
| ExpenseList.PayMonthImpliesFinishAll | components/ExpenseList.tsx:252-274 | "pay this month" never shows without "finish all" |
| ExpenseList.NextStatus | components/ExpenseList.tsx:62 | the requested status differs from the current one |
| ExpenseList.NextStatusInvolution | components/ExpenseList.tsx:62 | requesting twice gives the original status |
| ExpenseList.ClickTwiceRestores | components/ExpenseList.tsx:62 | on a consistent pending installment, two successful clicks pay it and then restore it exactly, payment time included |
| ExpenseList.PaidByLabel | components/ExpenseList.tsx:21-34 | the label is never empty; a known tag shows its configured label or its fallback; a missing or unknown tag shows `Conjunto` |
| ExpenseList.ConfiguredLabelWins | components/ExpenseList.tsx:21-34 | a non-empty configured label is shown |
| ExpenseList.FallbacksAreDefaults | components/ExpenseList.tsx:24-30 | with nothing configured, each tag shows the built-in default of its configuration key |
| ExpenseList.Toggled | components/ExpenseList.tsx:72-80 | the toggled id flips membership and every other id keeps it |
| ExpenseList.ToggleTwice | components/ExpenseList.tsx:72-80 | toggling the same id twice restores the set |
| ExpenseList.ExpandedExpenses.constructor | components/ExpenseList.tsx:19 | no card starts expanded |
| ExpenseList.ExpandedExpenses.Toggle | components/ExpenseList.tsx:72-80 | the stored set becomes the old set toggled at the id |
| ExpenseListWithTabs.InitialTab | components/ExpenseListWithTabs.tsx:19 | the total tab is selected first |
| ExpenseListWithTabs.FilterExpenses | components/ExpenseListWithTabs.tsx:28-31 | the total tab passes the list through unchanged; no tab lengthens it |
| ExpenseListWithTabs.PersonTabMembership | components/ExpenseListWithTabs.tsx:29-31 | a person tab lists an expense iff it is in the list and that person pays it |
| ExpenseListWithTabs.FilterExpensesConcat | components/ExpenseListWithTabs.tsx:30 | filtering distributes over concatenation, so it keeps relative order |
| ExpenseListWithTabs.OthersOnlyUnderTotal | components/ExpenseListWithTabs.tsx:28-31 | expenses paid from the meal voucher, by the shared pool or by nobody are listed only under the total tab |
| ExpenseListWithTabs.PersonTabsDisjoint | components/ExpenseListWithTabs.tsx:29-31 | no expense is listed under both person tabs |
| ExpenseForm.InitialForm | components/ExpenseForm.tsx:24-32 | a fresh form is fixed, in category `geral`, with amount 0, count 1 and no date |
| ExpenseForm.LoadForEdit | components/ExpenseForm.tsx:34-46 | the loaded count is never 0 and equals a non-zero stored count; the first date is the start date |
| ExpenseForm.AmountFromInput | components/ExpenseForm.tsx:127 | a parsed amount is kept, an unparsable one becomes 0 |
| ExpenseForm.InstallmentsFromInput | components/ExpenseForm.tsx:148 | the count is never 0; a parsed non-zero count is kept |
| ExpenseForm.SubmitPayload | components/ExpenseForm.tsx:48-59 | name, category, amount, kind and notes go out as entered, with no payer; the count and the first date go out only for an installment purchase |
| ExpenseForm.FormExpensesPaidJointly | components/ExpenseForm.tsx:48-59 | a row created from the form is paid by the shared pool |
| ExpenseForm.EditRoundTrip | components/ExpenseForm.tsx:34-59 | loading an expense and submitting it again keeps its fields, and for an installment purchase with a count, its count and first date |
| ExpenseForm.SummaryMeansComplete | components/ExpenseForm.tsx:174 | whenever the summary shows, the payload passes the installment-field check of `createExpense` |
| ExpenseForm.Preview | components/ExpenseForm.tsx:199-222 | no cards unless the summary shows and the count is at most 12; then `min(count, 6)` cards numbered from 1, each showing the unrounded `amount / count` |
| ExpenseForm.RemainingTile | components/ExpenseForm.tsx:223-226 | the tile shows iff the summary shows and the count lies in 7..12, and then counts `count − 6` further installments |
| ExpenseForm.PreviewAccountsForAll | components/ExpenseForm.tsx:206-226 | the cards plus the tile's number make up the whole count |
| ExpenseForm.PreviewMatchesSchedule | components/ExpenseForm.tsx:206-218 | each card has the number and due date of the installment `createExpense` stores, and its unrounded amount lies within half a cent of the stored amount |
| ProjectionMonthSelector.Months | components/ProjectionMonthSelector.tsx:14-22 | exactly twelve entries; entry 0 is today's month; every month number lies in 1..12; entry `i` is `i` months after today |
| ProjectionMonthSelector.MonthsConsecutive | components/ProjectionMonthSelector.tsx:15-18 | each entry is the calendar month after the previous one, so December is followed by January |
| ProjectionMonthSelector.MonthsDistinct | components/ProjectionMonthSelector.tsx:28 | the `(year, month)` keys are pairwise distinct |
| ProjectionMonthSelector.Selection | components/ProjectionMonthSelector.tsx:29 | the reported month lies in 1..12, `k` months after today's |
| ProjectionMonthSelector.SelectionIdentifiesEntry | components/ProjectionMonthSelector.tsx:28-29 | the reported pair identifies the clicked entry |
| ConfigContext.ConfigValue | contexts/ConfigContext.tsx:84-86 | the stored text, or the empty text for an absent key |
| ConfigContext.LastValue | contexts/ConfigContext.tsx:30-32 | absent iff no pair has the key; otherwise the value of the last pair with the key |
| ConfigContext.FirstValue | contexts/ConfigContext.tsx:74 | absent iff no update has the key; otherwise the value of the first update with the key |
| ConfigContext.AssignLastWins | contexts/ConfigContext.tsx:65-68 | after writing the pairs, a key is present iff it was present or some pair names it; it holds its last pair's value, or else its old one |
| ConfigContext.AssignAll | contexts/ConfigContext.tsx:65-68 | the loop writes the pairs in order |
| ConfigContext.ListWithUpdates | contexts/ConfigContext.tsx:72-77 | the list keeps its length and order; each record with an update takes the first update's value; no record is added |
| ConfigContext.FirstIsLast | contexts/ConfigContext.tsx:65-77 | with distinct keys, the first and the last update of a key agree |
| ConfigContext.UpdatesKeepAgreement | contexts/ConfigContext.tsx:62-82 | an update batch with distinct keys keeps the map and the list in agreement |
| ConfigContext.RepeatedKeyDisagrees | contexts/ConfigContext.tsx:65-77 | with a repeated key the map takes the second value and the list the first |
| ConfigContext.ConfigStore.constructor | contexts/ConfigContext.tsx:20-21 | the store starts with an empty map and an empty list |
| ConfigContext.ConfigStore.GetConfigValue | contexts/ConfigContext.tsx:84-86 | the stored value of a present key, the empty text otherwise |
| ConfigContext.ConfigStore.LoadConfigs | contexts/ConfigContext.tsx:24-41 | the map is the list's pairs written in order, so the later record of a key wins; the list is kept as loaded |
| ConfigContext.ConfigStore.UpdateConfigs | contexts/ConfigContext.tsx:62-82 | a failed write is reported and changes nothing; otherwise the map takes every update and the list the first update of each key |
| ConfigContext.ConfigStore.UpdateConfig | contexts/ConfigContext.tsx:47-60 | a failed write is reported and changes nothing; otherwise only the one key changes, in the map and in every list record with that key |
| ConfigContext.SingleUpdateIsBatch | contexts/ConfigContext.tsx:47-55 | a single update acts on the map and on the list as the one-element batch does |
| ConfigContext.LoadedValue | contexts/ConfigContext.tsx:28-32 | after loading, a key reads as its last record's value, or empty |
| ConfigDatabase.DefaultConfig | lib/configDatabase.ts:67-87 | a found default is the table's value for the key |
| ConfigDatabase.DefaultConfigTotal | lib/configDatabase.ts:86 | a default is found iff the key is in the table |
| ConfigDatabase.DefaultConfigs | lib/configDatabase.ts:89-108 | the default list has sixteen records, one per table entry; `DefaultConfigsKeys` and `DefaultConfigsValues` give their keys and values |
| ConfigDatabase.DefaultConfigsKeys | lib/configDatabase.ts:89-108 | the default list has the sixteen table keys, in order |
| ConfigDatabase.DefaultConfigsValues | lib/configDatabase.ts:68-107 | each record of the default list has the table's value for its key |
| ConfigDatabase.DefaultKeysDistinct | lib/configDatabase.ts:90-107 | the keys of the default list are pairwise distinct |
| ConfigDatabase.DefaultKeysComplete | lib/configDatabase.ts:68-107 | the table and the default list name the same keys |
| ConfigDatabase.GetConfig | lib/configDatabase.ts:3-19 | a returned row's value when there is one; the default when unconfigured, on error or with no row |
| ConfigDatabase.GetAllConfigs | lib/configDatabase.ts:21-38 | the fetched rows are returned unchanged; when unconfigured or when the read fails, the default list |
| ConfigDatabase.FallbackHasEveryDefault | lib/configDatabase.ts:21-38 | when unconfigured or on error, the list names exactly the table's keys, each with the table's value |
| ConfigDatabase.WriteOne | lib/configDatabase.ts:40-54 | a write changes only the row with its key, and nothing when there is none |
| ConfigDatabase.WriteAll | lib/configDatabase.ts:61-63 | sequential writes never add or remove rows |
| ConfigDatabase.UpdateConfigs | lib/configDatabase.ts:56-64 | unconfigured, it fails and writes nothing; otherwise it writes the updates in order and stops at the first failing write, keeping the earlier writes |
| ConfigDatabase.WriteAllSnoc | lib/configDatabase.ts:61-63 | one more write after a batch is the longer batch |
| ConfigDatabase.WriteAllSetsValues | lib/configDatabase.ts:61-63 | with distinct keys, every existing key named in a complete batch ends with its update's value |
| ConfigDatabase.WriteAllKeeps | lib/configDatabase.ts:61-63 | a key no update names keeps its value |
| ConfigEditor.SetEntry | components/ConfigEditor.tsx:38-40 | an existing key keeps its place; a new key goes last; no other entry moves |
| ConfigEditor.SetEntryFirstValue | components/ConfigEditor.tsx:38-40 | changing one key keeps the keys distinct, gives that key the new value and leaves every other key unchanged |
| ConfigEditor.InitialEdits | components/ConfigEditor.tsx:30-36 | the loop gives distinct keys, each holding the value of the last record with that key |
| ConfigEditor.EditsMatchStore | components/ConfigEditor.tsx:30-36 | the initial edits hold exactly the keys, and the values, of the provider's map |
| ConfigEditor.FindConfig | components/ConfigEditor.tsx:47 | finds nothing iff no record has the key; otherwise finds the first record with the key |
| ConfigEditor.SaveUpdates | components/ConfigEditor.tsx:45-50 | an edit is sent iff the list has a record with its key and the first such record holds a different value |
| ConfigEditor.SaveKeepsStoreAgreement | components/ConfigEditor.tsx:42-57 | a save's updates have distinct keys, so the provider's map and list stay in agreement |
| ConfigEditor.UneditedEntryUnchanged | components/ConfigEditor.tsx:45-49 | when records sharing a key share their value, an untouched edit is not a change |
| ConfigEditor.UneditedSavesNothing | components/ConfigEditor.tsx:45-57 | when records sharing a key share their value, saving untouched edits sends nothing |
| ConfigEditor.DuplicateKeySavesUpdate | components/ConfigEditor.tsx:31-49 | with two records of one key and different values, untouched edits send the second value |
| ConfigEditor.Save | components/ConfigEditor.tsx:42-64 | "nothing to save" iff there are no updates; "saved" iff there are updates and the write succeeds; when saved, the store holds the batch; otherwise it is unchanged |
| ConfigEditor.Distinct | components/ConfigEditor.tsx:66 | the result has the same elements, each once |
| ConfigEditor.DistinctInFirstOccurrenceOrder | components/ConfigEditor.tsx:66 | the elements come in the order of their first occurrences |
| ConfigEditor.Categories | components/ConfigEditor.tsx:66 | every category of the list appears exactly once, and nothing else does |
| ConfigEditor.LowerChar | components/ConfigEditor.tsx:69-70 | an ASCII capital becomes its own lower-case letter; other characters are kept |
| ConfigEditor.ToLower | components/ConfigEditor.tsx:69-70 | the text is lower-cased character by character, keeping its length |
| ConfigEditor.ToLowerIdempotent | components/ConfigEditor.tsx:69-70 | lower-casing twice is lower-casing once |
| ConfigEditor.EmptyTermMatches | components/ConfigEditor.tsx:67-73 | the empty term matches every record the category test lets through |
| ConfigEditor.SearchIgnoresCase | components/ConfigEditor.tsx:67-73 | lower-casing the term, or the record's label and value, does not change whether the record shows |
| ConfigEditor.FilteredConfigs | components/ConfigEditor.tsx:67-73 | a record is shown iff it is in the list and passes the search and category tests |
| ConfigEditor.NoFilterShowsAll | components/ConfigEditor.tsx:67-73 | with no term and every category selected, the whole list shows |
| ConfigEditor.GroupOf | components/ConfigEditor.tsx:75-81 | a group holds exactly the list's records of its category |
| ConfigEditor.GroupOfSnoc | components/ConfigEditor.tsx:75-81 | one more record extends its own category's group and no other |
| ConfigEditor.GroupOfAbsent | components/ConfigEditor.tsx:75-81 | a category absent from the list has an empty group |
| ConfigEditor.GroupStep | components/ConfigEditor.tsx:76-79 | appending a record to its category's array, created when missing, gives the groups of the longer list |
| ConfigEditor.GroupByCategory | components/ConfigEditor.tsx:75-81 | there is one group per category present, holding that category's records in list order |

## Left out

- Database access: every hosted-database call, the salary and
  projection-override storage, and client creation are outside the model.
  Each write that the core depends on is a success flag or an outcome
  parameter.
- The expense row left behind when an installment purchase is rejected:
  `createExpense` inserts the row before it validates the installment
  fields. Only the validation outcome is modelled.
- React state, effects, JSX, styling, icons, `alert`/`confirm` dialogs and
  logging are left out. So are the loading flags and the `updating` marker.
- Locale formatting: `toLocaleString('pt-BR')`, date-fns `format`, and the
  capitalised month labels. A chart point carries its month instead of
  its label.
- Floating point: JavaScript numbers and `toFixed(2)` on binary floats are
  not modelled. Amounts are whole cents, and the rounding of `amount / n`
  is the nearest cent with ties away from zero.
- Money.RoundDiv: a float quotient that lands just below a half cent, and
  rounds down under `toFixed(2)`, is rounded up in the model.
- Time zones and clock reads: dates are plain calendar days. UTC parsing
  of date text, local-time `getMonth()`, `setHours(0, 0, 0, 0)` and
  `toISOString()` are not modelled. "Today" and the timestamp are
  parameters.
- The date field as text: an empty date is `None`, and `slice(0, 10)` of a
  stored start date is taken as the date itself.
- `payMonthInstallments` and `finishExpense` are imported by the expense
  list but defined in no file shown. What the "pay this month" and "finish
  all" buttons do is not part of this model; only when they show is.
- `handleFinalizeAndRemove` is not modelled: it is a confirmation dialog
  around `onDelete`.
- The payer colours (`getPaidByColor`) and the category display names of
  the editor are display tables.
- The salary form and list, the chart tabs, the page layout and the
  projection editor are left out: they contain no logic beyond UI wiring.
- ConfigEditor.ToLower: only ASCII letters change case. JavaScript's full
  Unicode `toLowerCase` is not modelled.
- ConfigEditor.InitialEdits: keys are kept in insertion order. JavaScript
  objects list integer-like keys first. Configuration keys are words, so
  the order cannot differ.
- Prototype keys of JavaScript objects (such as `constructor`) are not
  modelled.
- ConfigContext.ConfigStore.UpdateConfigs: the batch write behind it is one
  success flag. A batch that fails halfway leaves the database partly
  written, as `ConfigDatabase.UpdateConfigs` shows, while the store stays
  unchanged.
