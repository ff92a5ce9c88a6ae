# Expense settlement engine of Appexpenses

Appexpenses is a browser application for sharing trip expenses. Its core is
a small engine in `app.js`, and this project models it in Dafny with proofs:

- `calculateBalances` turns the people and expenses of a trip into one
  signed balance per person.
- `calculateSettlements` turns those balances into a short list of suggested
  payments. Balances within one cent of zero are ignored. Debtors and
  creditors are sorted by descending amount. A two-cursor greedy loop then
  walks both lists, largest first. It pays the creditor under its cursor
  from the debtor under its cursor, and moves a cursor on once less than a
  cent is left on that record.

The model also covers the ledger operations that keep references
consistent: deleting a person, deleting a category and saving an expense
from the form. It also covers the two figures of the summary page: the
total spent and the breakdown by category name.

Modules, one per file:

- `Records` (`records.dfy`): people, categories, expenses and debtor or
  creditor entries, plus the two `find` lookups.
- `BalanceCalculator` (`balances.dfy`): the balance dictionary. It is a
  `map` plus a sequence holding the key insertion order that
  `Object.entries` follows. The two `forEach` loops are methods, proved
  against the functions `ZeroBalances`, `ApplyExpense` and `ApplyAll`.
- `StableSort` (`sort.dfy`): `Array.prototype.sort` with the comparator
  `b.amount - a.amount`. It is an in-place insertion sort on an `array`,
  specified by the function `SortDesc`. `StableSortIsUnique` shows that every
  stable descending sort gives the same result, so the choice of sorting
  algorithm does not matter.
- `Settlements` (`settlements.dfy`): the classification into debtors and
  creditors, and the greedy `while` loop. The loop runs over two arrays
  that it updates in place, and is specified by the function `Plan`.
- `TripLedger` (`ledger.dfy`): a `Ledger` class whose fields `people`,
  `categories` and `expenses` are updated in place by `DeletePerson`,
  `DeleteCategory` and `SaveExpense`. It also holds the filters these
  operations use.
- `Summary` (`summary.dfy`): the total of all expenses and the category
  breakdown. The breakdown is a keyed object with its key order.
- `Scenarios` (`scenarios.dfy`): worked ledgers evaluated through the model
  for any distinct, non-empty person ids where the
  scenario needs them.

Modelling conventions:

- Amounts are exact `real`s.
- The one-cent tolerance is the constant `Settlements.Eps`.
- `null` references and empty form values are `Option`s.
- Ids are opaque strings. The id of a new expense is a parameter of
  `SaveExpense`.
- The engine reads a snapshot of the ledger, so people and expenses are
  parameters of its functions and methods.
- The engine needs every payer and participant of a counted expense to be
  a known person. It reads `undefined` otherwise. This requirement is the
  predicate `Records.Resolved`. Both deletions are proved to preserve it.
  Saving an expense preserves it when the chosen payer is a known person
  or none is chosen (`SavedExpenseResolved`). `Ledger.SaveExpense` itself
  does not promise it, because the form's payer is not checked.

Two properties one might expect of the engine do not hold of the code as
written, or hold more strongly than one might expect:

- One might expect applying the suggested settlements to bring every
  balance within one cent of zero. The code does not.
  `Scenarios.ToleranceLeavesDebt` gives a counterexample: one person owes
  0.018, split between two people who are each owed 0.009. Neither
  creditor exceeds the tolerance, so nothing is suggested and a debt
  larger than a cent remains. The model follows the code.
  `Settlements.PlanNearlyExhausts` states what does hold: when the loop
  stops, one side has been paid off to within one cent per record.
- With exact amounts the balances sum to exactly zero
  (`BalanceCalculator.ZeroSum`), not merely to within a tolerance.

Ties in the sort follow the order of the people. `KeyOrderFirstSeen`
shows that the balance keys are listed in the order in which each id first
occurs among the people. `ClassifyConcat` shows that classification keeps
that order in both lists, and `SortDescStable` shows that sorting keeps
the order of equal amounts.

## Model

| member | source | states |
|---|---|---|
| Records.Counts | app.js:474 | an expense counts unless its payer is null or empty or it has no participants; a predicate, stated by `SkippedChangeNothing` and `ForgetPersonCounts` |
| Records.Resolved | app.js:474-482 | every counted expense names a payer and participants among the people, so every `balances[...]` update hits an existing key; a predicate, the precondition of the balance functions |
| Records.FindPerson | app.js:514-515 | returns a person exactly when the id is among the people's ids, and then the first person with that id |
| Records.FindCategory | app.js:610 | returns a category exactly when the expense's category id is the id of some category, and never for a null category; the one returned is the first category with that id |
| BalanceCalculator.KeyOrder | app.js:469-471 | the balance keys are each person's id once, and exactly the people's ids |
| BalanceCalculator.KeyOrderFirstSeen | app.js:469-471 | the keys are listed in the order in which each id first occurs among the people |
| BalanceCalculator.ZeroBalances | app.js:467-471 | the first loop gives one entry per known id, all 0 |
| BalanceCalculator.Share | app.js:476 | `amount / splitBetween.length`; no contract of its own, `SharesAddUp` states it |
| BalanceCalculator.Debit | app.js:480-482 | the inner loop keeps the set of keys; `SplitSum` and `BalanceIsNet` state its values |
| BalanceCalculator.Split | app.js:476-482 | the payer credit then the debits; no contract of its own, `SplitSum` states it |
| BalanceCalculator.ApplyExpense | app.js:474-482 | one expense keeps the set of keys; what it adds and subtracts is stated by `AddExpense`, `SkippedChangeNothing`, `ExpenseSum` and `BalanceIsNet` |
| BalanceCalculator.ApplyAll | app.js:473-483 | the expense loop keeps the set of keys; its sum is stated by `ApplyAllSum` and each value by `BalanceIsNet` |
| BalanceCalculator.Balances | app.js:466-486 | the dictionary has exactly the people's ids as keys; each value is stated by `BalanceIsNet` and their sum by `ZeroSum` |
| BalanceCalculator.CalculateBalances | app.js:466-486 | the method returns the dictionary `Balances(people, expenses)` and its key order |
| BalanceCalculator.StartAtZero | app.js:467-471 | the first loop builds `ZeroBalances(people)` and inserts the keys in `KeyOrder(people)` |
| BalanceCalculator.AddExpenses | app.js:473-483 | the second loop yields `ApplyAll(start, expenses)`, one expense after another in list order |
| BalanceCalculator.AddExpense | app.js:474-482 | one pass skips an expense without a payer or participants, and otherwise credits the payer and debits each participant one share, which is `ApplyExpense` |
| BalanceCalculator.BalanceIsNet | app.js:473-483 | each person's balance is what they paid minus one share for every time they are listed, over the counted expenses |
| BalanceCalculator.UninvolvedIsZero | app.js:467-483 | a person who neither pays for nor shares in a counted expense ends at exactly 0 |
| BalanceCalculator.SkippedChangeNothing | app.js:474 | expenses without a payer (null or empty) or with no participants leave every balance as it is |
| BalanceCalculator.SharesAddUp | app.js:476 | the equal shares of an expense add back up to its amount |
| BalanceCalculator.SplitSum | app.js:476-482 | crediting the payer the amount and debiting the shares leaves the sum of the balances unchanged |
| BalanceCalculator.ExpenseSum | app.js:474-482 | one expense, counted or skipped, leaves the sum of the balances unchanged |
| BalanceCalculator.ApplyAllSum | app.js:473-483 | the whole expense loop leaves the sum of the balances unchanged |
| BalanceCalculator.ZeroSum | app.js:466-486 | when the ledger is resolved, the balances sum to exactly 0 |
| StableSort.SortInPlace | app.js:503-504 | the in-place sort leaves the array equal to `SortDesc` of its old contents |
| StableSort.Insert | app.js:503-504 | one insertion adds exactly one element; `InsertPermutes` and `InsertNonIncreasing` state where it goes |
| StableSort.SortDesc | app.js:503-504 | the sorted list has the input's length; `SortDescPermutes`, `SortDescNonIncreasing`, `SortDescStable` and `StableSortIsUnique` state that it is the stable descending sort |
| StableSort.InsertNext | app.js:503-504 | one insertion pass leaves the prefix equal to `Insert` of the old prefix and the next element, and the rest of the array unchanged |
| StableSort.InsertPermutes | app.js:503-504 | inserting adds the element and loses none |
| StableSort.SortDescPermutes | app.js:503-504 | the sorted list is a permutation of the input |
| StableSort.SortDescNonIncreasing | app.js:503-504 | the sorted list is non-increasing in amount, as the comparator `b.amount - a.amount` orders it |
| StableSort.InsertNonIncreasing | app.js:503-504 | inserting into a non-increasing list keeps it non-increasing |
| StableSort.SortDescStable | app.js:503-504 | records of equal amount keep their relative order in the list being sorted |
| StableSort.StableSortIsUnique | app.js:503-504 | any non-increasing rearrangement that keeps the order within every amount is exactly `SortDesc` of the input |
| Settlements.Partition | app.js:495-501 | the `forEach` over the balance entries builds the debtor and creditor lists `Classify(order, balances)` |
| Settlements.Classify | app.js:495-501 | the two lists the `Object.entries` loop builds; no contract of its own, its properties are `ClassifyMembers`, `ClassifySound`, `ClassifyConcat` and `ClassifyBounds` |
| Settlements.ClassifyMembers | app.js:495-501 | a record is a debtor exactly when it holds the magnitude of a balance below -0.01, and a creditor exactly when it holds a balance above 0.01 |
| Settlements.ClassifySound | app.js:495-501 | a person is a debtor iff their balance is below -0.01 and a creditor iff it is above 0.01; people within the tolerance are in neither list, and nobody is in both |
| Settlements.ClassifyConcat | app.js:495-501 | classification works entry by entry, so both lists keep the order of the balance keys |
| Settlements.ClassifyBounds | app.js:495-501 | every recorded magnitude is at least 0.01 and every recorded id is a balance key |
| Settlements.Advance | app.js:525-529 | the cursor moves on exactly when less than 0.01 of the record is left |
| Settlements.Min | app.js:512 | `Math.min`; no contract of its own, `StepSound` states what the step amount does |
| Settlements.CalculateSettlements | app.js:488-533 | the method returns `SettlementsOf(people, expenses)` |
| Settlements.SortedArray | app.js:503-504 | a fresh array holding the list sorted by `SortDesc` |
| Settlements.Match | app.js:506-532 | the two-cursor loop over the sorted arrays returns the settlements of `Plan` of the arrays' old contents |
| Settlements.Plan | app.js:508-530 | the steps of the `while` loop; no contract of its own, its properties are `PlanStops`, `StepSound`, `PlanAmountsPositive`, `PlanLength`, `PlanParties`, `PlanPaysNoMore` and `PlanNearlyExhausts` |
| Settlements.Emit | app.js:511-523 | the settlements pushed for a list of steps; no contract of its own, its properties are `EmitConcat` and `EmitAllResolve` |
| Settlements.EmitOne | app.js:514-523 | the settlement pushed for one step, only when both ids name a person; no contract of its own, `Record` is proved against it and `EmitOneResolves` states it for known ids |
| Settlements.SettlementsOf | app.js:488-533 | the list `calculateSettlements` returns; no contract of its own, its properties are `SettlementsSound`, `AllSettled`, `SomeoneSettles` and `NoExpensesNoSettlements` |
| Settlements.Transfer | app.js:509-529 | one iteration pays the smaller remainder, lowers both records by it in place and moves each cursor whose remainder is below 0.01 |
| Settlements.Record | app.js:514-523 | a settlement is appended exactly when both ids name a person |
| Settlements.MatchStep | app.js:508-530 | one loop iteration produces the first step of the remaining plan and leaves the rest of the plan for the new cursors |
| Settlements.PlanStops | app.js:508 | once either cursor is past its list, no steps remain |
| Settlements.StepSound | app.js:512-529 | a step pays at least 0.01, takes neither remainder below 0, empties one of them, and leaves records of at least 0.01 under the cursors |
| Settlements.PlanAmountsPositive | app.js:512-523 | every transfer is at least 0.01, so it is strictly positive |
| Settlements.PlanLength | app.js:508-530 | there are at most as many transfers as debtor and creditor records together, and fewer when both lists are non-empty |
| Settlements.PlanParties | app.js:509-515 | every transfer goes from a listed debtor to a listed creditor |
| Settlements.PlanPaysNoMore | app.js:512-526 | the transfers add up to no more than the debtors owe and no more than the creditors are owed |
| Settlements.PlanNearlyExhausts | app.js:508-530 | when the loop stops, the debtors or the creditors have been paid off to within 0.01 per record |
| Settlements.EmitConcat | app.js:514-523 | the emitted settlements of two runs of steps are those of each, in order |
| Settlements.EmitAllResolve | app.js:514-523 | when every id names a person, each step becomes exactly one settlement, with the two people's names and the step's amount |
| Settlements.SortDescKeeps | app.js:503-504 | sorting keeps the set of ids and the lower bound of 0.01 |
| Settlements.SortedLists | app.js:495-504 | the two sorted lists; no contract of its own, `SortDescKeeps` and `SettlementsSound` state them |
| Settlements.EmitOneResolves | app.js:514-523 | with both ids known, one step gives exactly one settlement from the debtor's name to the creditor's name for the step's amount |
| Settlements.SettlementsSound | app.js:488-533 | there is one settlement per step, at most as many as there are debtors and creditors; each pays the step's amount of at least 0.01, from a known person whose balance is below -0.01 to a known person whose balance is above 0.01 |
| Settlements.AllSettled | app.js:495-501 | if every balance is within 0.01 of 0 there are no settlements |
| Settlements.SomeoneSettles | app.js:495-530 | if one person owes and one is owed more than 0.01, at least one settlement is suggested |
| Settlements.NoExpensesNoSettlements | app.js:466-501 | a trip without expenses has no settlements |
| TripLedger.RemoveId | app.js:171 | the participant filter never lengthens the list; `RemoveIdCounts`, `RemoveIdMembers`, `RemoveIdConcat` and `RemoveIdAbsent` state what it keeps |
| TripLedger.WithoutPerson | app.js:165 | the people filter never lengthens the list; `WithoutPersonMembers`, `WithoutPersonIds`, `WithoutPersonConcat` and `WithoutPersonAbsent` state what it keeps |
| TripLedger.WithoutCategory | app.js:264 | the category filter never lengthens the list; `WithoutCategoryMembers` and `WithoutCategoryConcat` state what it keeps |
| TripLedger.ForgetPerson | app.js:167-172 | the `deletePerson` loop body for one expense; no contract of its own, its properties are `ForgetPersonSound`, `ForgetPersonUninvolved`, `ForgetPersonCounts` and `ForgetPersonCovered` |
| TripLedger.ForgetCategory | app.js:266-270 | the `deleteCategory` loop body for one expense; no contract of its own, its properties are `ForgetCategorySound` |
| TripLedger.RemoveIdCounts | app.js:171 | the split filter removes every occurrence of the id and keeps the count of every other id |
| TripLedger.RemoveIdMembers | app.js:171 | after the filter the id is gone and every other participant remains |
| TripLedger.RemoveIdConcat | app.js:171 | the split filter works element by element, so the remaining participants keep their order |
| TripLedger.RemoveIdAbsent | app.js:171 | filtering an id that is not listed changes nothing, so the filter is idempotent |
| TripLedger.WithoutPersonMembers | app.js:165 | a person remains exactly when they were listed and their id differs from the deleted one |
| TripLedger.WithoutPersonIds | app.js:165 | the remaining ids are the old ids without the deleted one |
| TripLedger.WithoutPersonConcat | app.js:165 | the people filter keeps the remaining people in their order |
| TripLedger.WithoutPersonAbsent | app.js:165 | deleting an unknown id leaves the people unchanged |
| TripLedger.WithoutCategoryMembers | app.js:264 | a category remains exactly when it was listed and its id differs from the deleted one |
| TripLedger.WithoutCategoryConcat | app.js:264 | the category filter keeps the remaining categories in their order |
| TripLedger.ForgetPersonSound | app.js:167-172 | afterwards the expense names the person neither as payer nor as participant; another payer stays, the other participants remain, and no other field changes |
| TripLedger.ForgetPersonUninvolved | app.js:167-172 | an expense that does not mention the person is left as it was |
| TripLedger.ForgetPersonCounts | app.js:167-172 | after the deletion an expense still counts for the balances iff it had a payer other than that person and another participant |
| TripLedger.ForgetPersonCovered | app.js:167-172 | every reference that survives the deletion names a surviving person |
| TripLedger.ForgetCategorySound | app.js:266-270 | afterwards the expense does not name the category; no other field changes, and an expense of another category is untouched |
| TripLedger.DeletePreservesResolved | app.js:165-172 | deleting a person keeps the ledger resolved |
| TripLedger.CheckedIds | app.js:367-373 | the split holds exactly the known ids whose box is ticked |
| TripLedger.CheckedIdsEmpty | app.js:375-378 | the split is empty exactly when no known person is ticked |
| TripLedger.CheckedIdsConcat | app.js:367-373 | the split follows the order of the people |
| TripLedger.BuildSplit | app.js:367-373 | the loop pushes the ticked ids, giving `CheckedIds(people, checked)` |
| TripLedger.FindExpense | app.js:381 | returns the index of the first expense with the id, or none when no expense has it |
| TripLedger.Ledger.DeletePerson | app.js:165-172 | the people lose everyone with the id; each expense becomes `ForgetPerson` of itself, in place; the categories are unchanged; a resolved ledger stays resolved |
| TripLedger.Ledger.DeleteCategory | app.js:264-270 | the categories lose the id; each expense becomes `ForgetCategory` of itself, in place; the people are unchanged; a resolved ledger stays resolved |
| TripLedger.Ledger.SaveExpense | app.js:367-400 | the form is accepted iff some known person is ticked; a rejected form changes nothing; an accepted new expense is appended; an accepted edit replaces the first expense with that id; people and categories are unchanged |
| TripLedger.FromForm | app.js:380-399 | the expense the form's fields describe, as pushed or written over an edited expense; no contract of its own, `SaveExpense`, `EditedOnlyFirstMatch` and `SavedExpenseResolved` state it |
| TripLedger.Edited | app.js:380-389 | an edit keeps the number of expenses |
| TripLedger.EditedOnlyFirstMatch | app.js:381-389 | an edit rewrites the first expense with the edited id, keeping its id, and no other expense |
| TripLedger.SavedExpenseResolved | app.js:367-399 | a saved expense has at least one participant, all of them known, and with a known payer or none chosen the ledger stays resolved |
| Summary.TotalAmount | app.js:548 | the left fold of the amounts; no contract of its own, `TotalAmountConcat` and `BreakdownConserves` state it |
| Summary.TotalAmountConcat | app.js:548 | the total of two lists of expenses is the sum of their totals |
| Summary.CategoryFallback | app.js:610-612 | an expense without an existing category is listed as "Uncategorized" with a blank icon, and otherwise under the name and icon of the first category with its id |
| Summary.CategoryName | app.js:610-611 | the name an expense is listed under; no contract of its own, `CategoryFallback` states it |
| Summary.CategoryIcon | app.js:610-612 | the icon shown beside it; no contract of its own, `CategoryFallback` states it |
| Summary.AddOwn | app.js:614-617 | one expense added to the breakdown with an own-property test; no contract of its own, `Accumulate` is proved against it and `AddOwnWellFormed` and `AddOwnSum` state it |
| Summary.AddOwnWellFormed | app.js:614-617 | adding one expense keeps every name listed once and matching the rows |
| Summary.AddOwnSum | app.js:614-617 | adding one expense raises the sum of the rows by exactly its amount |
| Summary.BreakdownOf | app.js:608-618 | the breakdown with an own-property test; no contract of its own, its properties are `BreakdownWellFormed`, `BreakdownConserves`, `BreakdownAmounts`, `BreakdownNames` and `BreakdownIcons` |
| Summary.CategoryBreakdown | app.js:608-618 | the loop builds `BreakdownOf(categories, expenses)` |
| Summary.Accumulate | app.js:614-617 | a missing row is created at 0 with the expense's icon, then the amount is added |
| Summary.BreakdownWellFormed | app.js:608-618 | every name is listed once, and the listed names are exactly the rows |
| Summary.BreakdownConserves | app.js:548 | the rows of the breakdown add up to the total of all expenses |
| Summary.BreakdownAmounts | app.js:614-617 | each row holds the total of the expenses listed under its name |
| Summary.BreakdownNames | app.js:614-616 | a name has a row exactly when some expense is listed under it |
| Summary.BreakdownIcons | app.js:612-616 | a row shows the icon of the first expense listed under its name |
| Summary.AsWrittenAgrees | app.js:614-617 | the breakdown the source computes agrees with the corrected one whenever no category name is an inherited `Object.prototype` member |
| Summary.BreakdownAsWritten | app.js:608-618 | the breakdown as the source computes it; no contract of its own, `AsWrittenAgrees` and `InheritedNameLosesSpending` state it |
| Summary.AddAsWritten | app.js:614-617 | one expense added as the source does: a name missing from the rows but inherited from `Object.prototype` adds nothing; no contract of its own, `AsWrittenAgrees` and `InheritedNameLosesSpending` state it |
| Summary.InheritedNameLosesSpending | app.js:614-617 | with a category named "toString", the source's breakdown is empty although 10 was spent |
| Scenarios.EqualSplit | app.js:466-533 | 90 paid by Asha and shared by three gives balances 60, -30 and -30; Binod and Chitra each pay Asha 30, in the order the people are listed |
| Scenarios.ToleranceLeavesDebt | app.js:495-530 | a debt of 0.018 owed to two creditors of 0.009 each produces no settlement |
| Scenarios.FourWayMatch | app.js:508-530 | from the sorted debtor records C 40, D 40 and creditor records A 50, B 30 (the lists that balances +50, +30, -40 and -40 give), C pays A 40, then D pays A 10, then D pays B 30 |
| Scenarios.FourWaySorted | app.js:503-504 | those debtor and creditor lists are already in descending order, with equal debts in list order |

## Left out

- Floating point is not modelled. Amounts are exact reals, so the model has no rounding drift in `amount / n` and no NaN where a balance key is missing. Referential integrity (`Records.Resolved`) is therefore a precondition rather than a failure mode.
- `parseFloat`, `trim` and `toFixed(2)` are not modelled. A form's amount and description arrive already parsed.
- Integer-like keys are not modelled. `Object.entries` lists keys such as "0" or "2024" first, in numeric order, and all other keys after them in insertion order. The model keeps plain insertion order for both keyed objects. For the balance dictionary this assumes the usual non-numeric generated ids. For the category breakdown, which is keyed by names the user types, a category named "2024" would be listed first by the source but in insertion order by `Breakdown.names`. The rows and their amounts do not depend on this order.
- Rendering, modals, `confirm`/`alert` and event handling are left out. `DeletePerson` and `DeleteCategory` model the code after the user has confirmed. The checkbox states are given as the set `Form.checked`.
- `localStorage`, trip switching and `renderSummary`'s early return for an empty trip are left out as I/O and display code.
- `generateId` depends on the clock and on `Math.random`. The new id is the parameter `newId` of `SaveExpense`.
- The balance display's `balances[person.id] || 0` is left out. With exact amounts every known person has an entry.
- The date sort of the expense list is left out. It relies on the `Date` library and is display only.
- Expenses are modelled as values, not shared objects. `DeletePerson` and `DeleteCategory` update the list element by element, and no aliasing between expense objects is modelled.
- The debtor and creditor records are `Entry` values in arrays rather than objects. The source's in-place `amount -=` is an array element update in `Settlements.Transfer`.
- TripLedger.Edited: its own contract states only the length. What an edit changes is stated by `EditedOnlyFirstMatch`.
- BalanceCalculator.Debit: its own contract states only the set of keys. Its properties are stated by `SplitSum` and `BalanceIsNet`.
- BalanceCalculator.ApplyExpense: its own contract states only the set of keys. Its properties are stated by `AddExpense`, `SkippedChangeNothing`, `ExpenseSum` and `BalanceIsNet`.
- BalanceCalculator.ApplyAll: its own contract states only the set of keys. Its properties are stated by `ApplyAllSum` and `BalanceIsNet`.
- BalanceCalculator.Balances: its own contract states only the set of keys. Its properties are stated by `BalanceIsNet` and `ZeroSum`.
- BalanceCalculator.Share: it has no contract of its own. Its properties are stated by `SharesAddUp`.
- BalanceCalculator.Split: it has no contract of its own. Its properties are stated by `SplitSum`.
- Records.Counts: it has no contract of its own. Its properties are stated by `SkippedChangeNothing` and `ForgetPersonCounts`.
- Records.Resolved: it has no contract of its own. Its properties are stated by `DeletePreservesResolved` and `SavedExpenseResolved`.
- StableSort.Insert: its own contract states only the length. Its properties are stated by `InsertPermutes`, `InsertNonIncreasing` and `InsertStable`.
- StableSort.SortDesc: its own contract states only the length. Its properties are stated by `SortDescPermutes`, `SortDescNonIncreasing`, `SortDescStable` and `StableSortIsUnique`.
- Settlements.Classify: it has no contract of its own. Its properties are stated by `ClassifyMembers`, `ClassifySound`, `ClassifyConcat` and `ClassifyBounds`.
- Settlements.Min: it has no contract of its own. Its properties are stated by `StepSound`.
- Settlements.Plan: it has no contract of its own. Its properties are stated by `PlanStops`, `StepSound`, `PlanAmountsPositive`, `PlanLength`, `PlanParties`, `PlanPaysNoMore` and `PlanNearlyExhausts`.
- Settlements.Emit: it has no contract of its own. Its properties are stated by `EmitConcat` and `EmitAllResolve`.
- Settlements.EmitOne: it has no contract of its own. Its properties are stated by `EmitOneResolves`.
- Settlements.SortedLists: it has no contract of its own. Its properties are stated by `SortDescKeeps`.
- Settlements.SettlementsOf: it has no contract of its own. Its properties are stated by `SettlementsSound`, `AllSettled`, `SomeoneSettles` and `NoExpensesNoSettlements`.
- TripLedger.RemoveId: its own contract states only that the list does not grow. Its properties are stated by `RemoveIdCounts`, `RemoveIdMembers`, `RemoveIdConcat` and `RemoveIdAbsent`.
- TripLedger.WithoutPerson: its own contract states only that the list does not grow. Its properties are stated by `WithoutPersonMembers`, `WithoutPersonIds`, `WithoutPersonConcat` and `WithoutPersonAbsent`.
- TripLedger.WithoutCategory: its own contract states only that the list does not grow. Its properties are stated by `WithoutCategoryMembers` and `WithoutCategoryConcat`.
- TripLedger.ForgetPerson: it has no contract of its own. Its properties are stated by `ForgetPersonSound`, `ForgetPersonUninvolved`, `ForgetPersonCounts` and `ForgetPersonCovered`.
- TripLedger.ForgetCategory: it has no contract of its own. Its properties are stated by `ForgetCategorySound`.
- TripLedger.FromForm: it has no contract of its own. Its properties are stated by the contract of `SaveExpense`, `EditedOnlyFirstMatch` and `SavedExpenseResolved`.
- Summary.TotalAmount: it has no contract of its own. Its properties are stated by `TotalAmountConcat` and `BreakdownConserves`.
- Summary.CategoryName: it has no contract of its own. Its properties are stated by `CategoryFallback`.
- Summary.CategoryIcon: it has no contract of its own. Its properties are stated by `CategoryFallback`.
- Summary.AddOwn: it has no contract of its own. Its properties are stated by `AddOwnWellFormed` and `AddOwnSum`.
- Summary.BreakdownOf: it has no contract of its own. Its properties are stated by `BreakdownWellFormed`, `BreakdownConserves`, `BreakdownAmounts`, `BreakdownNames` and `BreakdownIcons`.
- Summary.AddAsWritten: it has no contract of its own. Its properties are stated by `AsWrittenAgrees` and `InheritedNameLosesSpending`.
- Summary.BreakdownAsWritten: it has no contract of its own. Its properties are stated by `AsWrittenAgrees` and `InheritedNameLosesSpending`.

## Findings

| source | as written | input that shows it | evidently intended | confidence | as-written member | corrected member |
|---|---|---|---|---|---|---|
| app.js:614-617 | `!categoryBreakdown[categoryName]` also sees members inherited from `Object.prototype`, so a category named like one of them never gets its own row | one category "toString" and one expense of 10 in it: the breakdown lists nothing, while the total is 10 | an own-property test, so that every category name gets a row and the rows add up to the total | not executed; the names involved are unusual but can be typed in | Summary.BreakdownAsWritten, Summary.InheritedNameLosesSpending | Summary.BreakdownOf, Summary.BreakdownConserves |
