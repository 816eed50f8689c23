# expenses-bolt: the cost-splitting engine and the group handlers, in Dafny

expenses-bolt is a small web application for sharing costs inside a group.
Each group has people and expenses. From them the application computes two things:

- every person's balance: what they paid, minus an equal share of the total;
- a list of transfers ("from Ben to Anna, 30") meant to settle the balances.
  It does not always settle them: see `Calculations.SmallAmountsVanish` and
  `Calculations.SettleCompletes` below.

This project models the two functions that do the computing
(`src/utils/calculations.ts`). It also models the state handlers of the main
component (`src/App.tsx:15-108`), which add, remove and change groups, people
and expenses. It proves properties of both.

- `types.dfy` (`Types`): the records `Person`, `Expense`, `Settlement` and
  `Group`. `Balance` is a class, because `calculateSettlements` writes into
  the balance objects it receives. `Entry` is the value a `Balance` holds at
  one moment; `Snapshot` reads those values off an array of objects.
- `lists.dfy` (`Lists`): `Array.prototype.filter` as a function, with its
  order and multiplicity lemmas.
- `sorting.dfy` (`Sorting`): the stable numeric `sort`, modelled as a stable
  insertion sort over positions. The lemmas prove it ordered and a
  permutation of its input, and prove that the result of a stable sort is
  unique.
- `calculations.dfy` (`Calculations`), in three parts:
  - the balances: `Balances` as a function and `CalculateBalances` as the
    method that creates the objects;
  - the matcher as functions: `Creditors`, `Debtors`, `Step`, `Advance`,
    `Greedy` and `Settle`;
  - the matcher as imperative code: `CalculateSettlements`, whose `while`
    loop writes into the caller's objects, proved equal to `Settle`. Its
    corrected variant, `CalculateSettlementsOnCopies`, leaves the caller's
    objects alone.
- `summary.dfy` (`Summary`): the one place that calls both calculations.
  It shows the finding below.
- `app.dfy` (`App`): the application state (`groups`, `activeGroupId`) and
  the eight handlers, as functions from state to state.

Money is a Dafny `real`. The threshold 0.01 of the source is the constant
`Epsilon`. The comparisons are the source's:

- creditors are the entries with `balance > 0`, debtors those with `balance < 0`;
- a settlement is emitted when `amount > 0.01`;
- a cursor moves on when the remaining balance is `< 0.01`.

## Model

| member | source | states |
|---|---|---|
| Lists.Filter | src/utils/calculations.ts:9 | the result holds exactly the input elements the predicate accepts, and is no longer than the input |
| Lists.FilterConcat | src/App.tsx:60-61 | filtering a concatenation is the concatenation of the filtered parts, so kept elements keep their relative order |
| Lists.FilterMultiset | src/App.tsx:60-61 | every accepted element keeps all its copies and every rejected one loses all of them |
| Lists.FilterKeepsAll | src/App.tsx:27 | when every element is accepted, filtering returns the list unchanged |
| Sorting.SortByKey | src/utils/calculations.ts:23-24 | the sort returns positions of the key list, as many as it was given |
| Sorting.SortByKeyOrdered | src/utils/calculations.ts:23-24 | the sorted list is ordered by key, equal keys in their original order (stability), and is a permutation of the input |
| Sorting.SortedIsUnique | src/utils/calculations.ts:23-24 | two lists that are both ordered this way and hold the same elements are equal, so any stable sort gives `SortByKey`'s result |
| Calculations.Total | src/utils/calculations.ts:4 | the sum of the amounts, folded from the left starting at 0 (a definition without a contract; `TotalSnoc` and `TotalConcat` state how it adds up) |
| Calculations.TotalSnoc | src/utils/calculations.ts:4 | one more expense adds exactly its amount to the total |
| Calculations.TotalConcat | src/utils/calculations.ts:4 | the total of two lists put together is the sum of their totals, so it does not matter where the list is split |
| Calculations.Paid | src/utils/calculations.ts:8-10 | the total of exactly those expenses whose payer has the id (a definition without a contract; `PaidSnoc` and `NoExpensesNoBalance` state its values) |
| Calculations.Balances | src/utils/calculations.ts:7-16 | one entry per person, in the order of `people`, carrying that person's id |
| Calculations.PaidSnoc | src/utils/calculations.ts:8-10 | one more expense adds its amount to its payer's paid sum and to nobody else's |
| Calculations.NoExpensesNoBalance | src/utils/calculations.ts:4-10 | with no expenses every balance is exactly 0 |
| Calculations.BalancesAfterExpense | src/utils/calculations.ts:4-14 | one more expense raises its payer's balance by its amount and lowers every balance by amount / number of people. With `NoExpensesNoBalance` this pins each balance to paid minus equal share |
| Calculations.OrphansSkewBalances | src/utils/calculations.ts:4-16 | with unique ids the balances add up to minus the total of the expenses whose payer is none of the people |
| Calculations.BalancesSumToZero | src/utils/calculations.ts:4-16 | with unique ids and every payer among the people, the balances add up to exactly 0 |
| Calculations.CalculateBalances | src/utils/calculations.ts:3-19 | returns new, pairwise distinct objects whose values are `Balances(people, expenses)` |
| Calculations.NameOf | src/utils/calculations.ts:36-37 | a person id that no person has resolves to the empty name |
| Calculations.NameOfFirst | src/utils/calculations.ts:36-37 | otherwise the name is that of the first person with the id, as `find` returns it |
| Calculations.Creditors | src/utils/calculations.ts:23 | the creditors are exactly the positions with a balance above 0, each listed once |
| Calculations.CreditorsOrder | src/utils/calculations.ts:23 | creditors come largest balance first; equal balances keep their original order |
| Calculations.Debtors | src/utils/calculations.ts:24 | the debtors are exactly the positions with a balance below 0, each listed once |
| Calculations.DebtorsOrder | src/utils/calculations.ts:24 | debtors come most negative first; equal balances keep their original order |
| Calculations.Step | src/utils/calculations.ts:33-47 | the amount is the smaller of the credit and the debt. It is at most either of them. Neither side changes sign, and at least one side ends at exactly 0 |
| Calculations.Emitted | src/utils/calculations.ts:35-44 | one iteration emits at most one settlement. It emits one exactly when the step's amount is above 0.01, and then it goes from the debtor's name to the creditor's name for that amount |
| Calculations.Advance | src/utils/calculations.ts:46-50 | one iteration keeps the matcher's invariant (cursors within the lists, creditors at or above 0, debtors at or below 0). At least one cursor moves and neither moves by more than one, so the loop terminates |
| Calculations.Start | src/utils/calculations.ts:23-27 | the creditor and debtor lists are disjoint and the initial state with both cursors at 0 satisfies the invariant |
| Calculations.Greedy | src/utils/calculations.ts:29-51 | the while loop run from a valid state until a cursor reaches the end of its list: the settlements it emits, and one working balance per entry. The `Greedy*` lemmas below and the invariant of `CalculateSettlements` are stated about it |
| Calculations.GreedyAmounts | src/utils/calculations.ts:35-43 | from any valid state, every emitted settlement is above 0.01 |
| Calculations.GreedyNames | src/utils/calculations.ts:36-43 | every emitted settlement goes from the name of some debtor to the name of some creditor |
| Calculations.GreedyCount | src/utils/calculations.ts:29-51 | while both lists have entries left, at most one settlement fewer than the entries left is emitted; once one list is used up, none |
| Calculations.GreedyBalances | src/utils/calculations.ts:46-47 | the working balances of creditors only fall and stay at or above 0; those of debtors only rise and stay at or below 0. Entries behind the cursors and entries on neither list stay as they are |
| Calculations.GreedyConserves | src/utils/calculations.ts:46-47 | the sum of the working balances never changes |
| Calculations.GreedySmall | src/utils/calculations.ts:33-35 | when no creditor ahead of the cursor holds more than 0.01, nothing more is emitted |
| Calculations.GreedyCompletes | src/utils/calculations.ts:49-51 | when the loop stops, every creditor is below 0.01 or every debtor owes less than 0.01 |
| Calculations.Settle | src/utils/calculations.ts:21-54 | the outcome holds one entry per input entry, each with its original person id |
| Calculations.SettleAmounts | src/utils/calculations.ts:35 | every settlement is for more than 0.01 |
| Calculations.SettleNames | src/utils/calculations.ts:35-43 | every settlement is paid by the person of an entry that owed money, to the person of an entry that was owed money |
| Calculations.SettleCount | src/utils/calculations.ts:29-51 | no settlement when there is no creditor or no debtor; otherwise at most creditors + debtors - 1 |
| Calculations.SettleBalances | src/utils/calculations.ts:46-47 | person ids do not change; a positive balance ends between 0 and its start, a negative one between its start and 0, and a zero entry is not touched |
| Calculations.SettleConserves | src/utils/calculations.ts:46-47 | the matching moves money between balances and never changes their sum |
| Calculations.AlreadySettled | src/utils/calculations.ts:29-44 | balances all within 0.01 of 0 produce no settlement |
| Calculations.SettleCompletes | src/utils/calculations.ts:49-51 | afterwards all who were owed hold less than 0.01, or all who owed owe less than 0.01 |
| Calculations.SmallAmountsVanish | src/utils/calculations.ts:35-50 | balances +0.016, -0.008, -0.008 add up to 0 and include a credit above 0.01, yet produce no settlement at all |
| Calculations.SettlePair | src/utils/calculations.ts:30-50 | one loop iteration on the two objects. It emits what `Emitted` says, leaves in the objects the values of `Advance` and changes no other entry. The balances left in the two objects decide which cursors move, as `Advance` does |
| Calculations.CalculateSettlements | src/utils/calculations.ts:21-54 | as written: returns `Settle`'s settlements and leaves `Settle`'s balances in the caller's objects, changing nothing but the `balance` fields of those objects |
| Calculations.Copy | src/components/Summary.tsx:26-27 | new, distinct objects holding the same entries |
| Calculations.CalculateSettlementsOnCopies | src/components/Summary.tsx:26-27 | the same settlements as `Settle`, and the caller's objects keep their values |
| Summary.SummaryAsWritten | src/components/Summary.tsx:12-29 | placeholder exactly when there are no people or no expenses. Otherwise it reports the total, the share per person, as "balances" the values left by the matching, and the settlements |
| Summary.Summary | src/components/Summary.tsx:12-29 | as above, but what it shows as the balances are the balances themselves |
| Summary.ShownDiffersFromBalances | src/components/Summary.tsx:52 | when one entry is owed at least 0.01 and another owes at least 0.01, the values left by the matching differ from the balances |
| Summary.DinnerBalances | src/utils/calculations.ts:3-19 | one expense of 90 paid by the first of three people gives balances +60, -30, -30 |
| Summary.DinnerSides | src/utils/calculations.ts:23-24 | for that dinner the creditors are Anna alone and the debtors Ben then Cem |
| Summary.DinnerOwed | src/utils/calculations.ts:23 | for that dinner only the first balance is above 0 |
| Summary.DinnerOwes | src/utils/calculations.ts:24 | for that dinner the second and third balances are below 0, in that order |
| Summary.DinnerRounds | src/utils/calculations.ts:29-51 | the matching for that dinner emits Ben to Anna 30, then Cem to Anna 30, and leaves every balance at exactly 0 |
| Summary.DinnerForThree | src/components/Summary.tsx:52-73 | for that dinner the balances are +60, -30, -30, but the objects the panel renders hold 0, 0, 0 after the matching. Being within 0.01 of 0, every person is shown as settled ("Ausgeglichen") |
| App.Find | src/App.tsx:13 | nothing exactly when the id is null or no group has it; otherwise a group of the list with that id, namely the first one |
| App.ActiveGroup | src/App.tsx:13 | the selected group: nothing exactly when no group is selected or none has the selected id, otherwise a group of the list with the selected id |
| App.AddGroup | src/App.tsx:15-24 | the list gains one new empty group at its end; earlier groups and the selection stay |
| App.RemoveGroup | src/App.tsx:26-31 | the groups left are exactly those with another id. The selection is cleared exactly when it was null or was the removed id, and otherwise stays |
| App.Replace | src/App.tsx:34-36 | same length; each group with the updated id becomes the update, every other group stays |
| App.UpdateGroup | src/App.tsx:33-37 | same length and selection; groups with the id are replaced, all others unchanged |
| App.FindAppend | src/App.tsx:23 | lookup after appending a group finds what it found before; only when it found nothing does it find the new group, and then only for its id |
| App.FindAfterReplace | src/App.tsx:33-37 | after an update the lookup of its id finds the update (if the id existed); other ids find what they found before |
| App.FindAfterFilter | src/App.tsx:27 | removing the groups with one id does not change the lookup of another id |
| App.ActiveAfterRemoveGroup | src/App.tsx:26-31 | after removeGroup there is no active group exactly when the active one was removed; otherwise it is the same group |
| App.AddGroupThenRemove | src/App.tsx:15-31 | adding a group with a new id and removing that id gives back the original state |
| App.UpdateActive | src/App.tsx:33-37 | updating with an edited copy of the active group: it becomes the active group, every group with its id (later ones sharing the id too) becomes the copy, groups with other ids and the selection stay |
| App.Rename | src/App.tsx:72-74 | same length and ids; the people with the id get the new name, the others keep theirs |
| App.AddPerson | src/App.tsx:39-53 | no change without an active group. Otherwise the active group gets the new person at the end of its people; all else is unchanged |
| App.RemovePerson | src/App.tsx:55-65 | no change without an active group. Otherwise the active group loses the people with the id and the expenses they paid; all else is unchanged |
| App.RenamePerson | src/App.tsx:67-78 | no change without an active group. Otherwise only the names of the active group's people with the id change |
| App.AddExpense | src/App.tsx:80-97 | no change without an active group. Otherwise the active group gets the new expense at the end and its people stay |
| App.RemoveExpense | src/App.tsx:99-108 | no change without an active group. Otherwise the active group loses the expenses with the id and its people stay |
| App.RemovePersonExactly | src/App.tsx:60-61 | removePerson removes every copy of exactly the people with the id and of exactly the expenses they paid; everything else keeps all its copies |
| App.RemoveExpenseExactly | src/App.tsx:104 | removeExpense removes every copy of exactly the expenses with the id |
| App.RemovePersonKeepsPayers | src/App.tsx:60-61 | if every expense was paid by one of the people, that still holds after removePerson |
| App.RemovingPayerAlone | src/App.tsx:60-61 | without the expense cascade on line 61 that would fail: a group whose only person paid an expense loses its payer |
| App.AddExpenseKeepsPayers | src/App.tsx:80-97 | adding an expense keeps every payer known exactly when its payer is one of the people |
| App.RenameKeepsPayers | src/App.tsx:67-78 | renaming keeps every payer known |
| App.AddPersonThenRemove | src/App.tsx:39-65 | adding a person with a new id and removing that id gives back the group, when every payer was known |
| App.AddExpenseThenRemove | src/App.tsx:80-108 | adding an expense with a new id and removing that id gives back the group |
| App.HandlersKeepCoherent | src/App.tsx:15-108 | starting from a selection that names an existing group (or none), every handler keeps it so, and so does the initial state |

## Left out

- JSX rendering, icons, and the date and currency formatting of all components: these are presentation.
- React's `useState` and the setters: each handler is a function returning the new state, not a call of `setGroups`/`setActiveGroupId`.
- `Date.now()` and `new Date()` (src/App.tsx:17,21,43,84,88): ids and dates are parameters, and dates are opaque values.
- IEEE-754 arithmetic: money is `real`, so the zero-sum lemma and the exact zeroing in `Step` hold over reals and not over doubles. Rounding drift is not modelled.
- `GroupManager`'s total per group: it is the same sum as `Calculations.Total`.
- Form parsing in the person and expense editors (`parseFloat` and the like): the handlers receive parsed values.
- Calculations.CalculateSettlements: requires the objects of the array to be pairwise distinct. An array that holds the same `Balance` object twice (aliasing) is not modelled. `calculateBalances` creates fresh objects, so the application never passes one.
- Calculations.SettlePair: the loop body of `calculateSettlements` is a method of its own so the loop can be proved piece by piece. The cursor updates stay in the loop.
- Sorting.SortByKey: `Array.prototype.sort` is modelled by a stable insertion sort over positions. `SortedIsUnique` shows that every stable sort gives the same list. The comparator is a numeric difference, so for reals its sign is the order of the keys.
- The `Group` record is not in `src/types.ts`, whose interfaces stop at line 23. Its fields are taken from the object built at src/App.tsx:16-22.
- Summary.tsx is modelled only as far as the two calls and the values it shows (lines 12 and 26-29, and the list rendered from line 52).
- The creditor and debtor lists take every balance above 0 or below 0, however small (src/utils/calculations.ts:23-24). A cursor moves on when the remainder is below 0.01 (src/utils/calculations.ts:49-50). A step of 0.01 or less is subtracted from both sides but emitted as no transfer (src/utils/calculations.ts:35,46-47), so a credit above 0.01 can go unpaid: `Calculations.SmallAmountsVanish` gives balances where a credit of 0.016 receives no settlement. The model therefore promises only what `Calculations.SettleCompletes` states: at the end all creditors or all debtors are below 0.01.

## Findings

| source | as written | input that shows it | evidently intended | confidence | as-written member | corrected member |
|---|---|---|---|---|---|---|
| src/components/Summary.tsx:26-27 | `calculateSettlements` subtracts each settled amount from the `Balance` objects it is given (src/utils/calculations.ts:46-47). These are the objects the panel renders at line 52. The "balances" list therefore shows what is left after matching, not the balances | one expense of 90 paid by Anna, with Anna, Ben and Cem in the group: the balances are +60, -30, -30, but the list shows 0, 0, 0, the values the matching left, so every person is shown as settled | the panel shows each person's balance, and settling works on copies | not executed | Summary.SummaryAsWritten, Summary.DinnerForThree | Summary.Summary, Calculations.CalculateSettlementsOnCopies |
