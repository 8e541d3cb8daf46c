# FinTrack transactions, modelled in Dafny

FinTrack is a small personal finance tracker. Its server keeps each user's
transactions (an amount, a type `income` or `expense`, a category, a
description, a date and the owning user) and offers four routes: list,
create, partial update and delete. Its client has three pages built on the
owner's listing:

- an expense page and an income page (the same code with a different type
  and a different list of predefined categories): each filters the listing,
  sorts it four ways, optionally groups it by category, charts the amounts
  per day, and edits records through a form;
- a dashboard: income against expense totals, and the expense totals per
  category.

This project models that behaviour as pure functions over immutable data and
proves what the code promises about it.

- `Seqs`: duplicate-free sequences, first-occurrence de-duplication (what
  `[...new Set(s)]` yields) and left-to-right sums.
- `Records`: the transaction record and the filter by type.
- `Sorting`: the pages' four-mode comparator and a stable sort.
- `Grouping`: grouping by category with the `'Uncategorized'` key.
- `Totals`: the insertion-ordered "sum per key" accumulator that both the
  day chart and the category chart use.
- `TransactionStore`: the server routes as a state machine over a
  `map<Id, Transaction>`. Each handler returns the reply and the new
  collection.
- `TransactionView`: one page, parameterised by the type and the predefined
  categories, and instantiated as `ExpenseView` and `IncomeView`. It covers
  loading, category options, the sorted or grouped list, the chart, and the
  add/edit form with what it sends to the server.
- `Dashboard`: the pie and bar chart values and the empty-state choice.

The server's clock and the database's identifier generator are parameters
(`now`, and a fresh `newId`). The browser's `toLocaleDateString` day label is
a parameter `day: int -> int`. The lemmas about the chart's label order
assume it is monotone, and so do the proofs that reordering or re-sorting
the page leaves the chart as it was.

## Model

| member | source | states |
|---|---|---|
| `Seqs.Distinct` | client/src/pages/Expenses.jsx:43 | de-duplication keeps each element once, loses none and adds none |
| `Records.AmountSum` | client/src/pages/Dashboard.jsx:41-42 | the `reduce` sum: 0 for no records, and each further record adds its amount to the sum of those before it |
| `Records.FilterKind` | client/src/pages/Expenses.jsx:49 | the filter keeps only records of the requested type, keeps every such record, and never grows the list |
| `Records.FilterKindContents` | client/src/pages/Expenses.jsx:49 | each record of the type is kept as many times as it occurs; records of other types occur zero times |
| `Records.FilterKindConcat` | client/src/pages/Income.jsx:49 | filtering preserves the listing's order: it distributes over concatenation |
| `Records.FilterKindHas` | client/src/pages/Dashboard.jsx:39-40 | a record is in the filtered list iff it is in the listing and has the type |
| `Sorting.ParseSortBy` | client/src/pages/Expenses.jsx:128-133 | `date-asc`, `amount-desc` and `amount-asc` select their modes; every other value, `date-desc` included, means newest first |
| `Sorting.Compare` | client/src/pages/Expenses.jsx:127-134 | per mode, the comparator accepts `a` before `b` (a result of at most 0) exactly when the dates, or the amounts, are in that mode's direction; it is 0 exactly on equal dates, or amounts |
| `Sorting.Sort` | client/src/pages/Expenses.jsx:126-134 | the result is a permutation of the input (same multiset), and every pair is in an order the comparator accepts; for each mode this means dates or amounts are non-decreasing or non-increasing |
| `Grouping.GroupKey` | client/src/pages/Expenses.jsx:138 | the group key is never empty: it is the category when there is one, and `'Uncategorized'` otherwise |
| `Grouping.Push` | client/src/pages/Expenses.jsx:138-140 | adding an entry appends it to its key's group, or opens a new group at the end; nothing else moves, and the size grows by one |
| `Grouping.GroupBy` | client/src/pages/Expenses.jsx:137-142 | the group for any key holds exactly the entries with that key (category, or `'Uncategorized'` when empty), in input order |
| `Grouping.GroupByKeys` | client/src/pages/Income.jsx:138-143 | groups appear in the order their keys first occur in the sorted list |
| `Grouping.GroupByCounts` | client/src/pages/Income.jsx:137-144 | group sizes add up to the input length, and the groups together hold exactly the input's entries |
| `Grouping.GroupByPartition` | client/src/pages/Expenses.jsx:136-143 | group keys are distinct, no group is empty, and an entry is in a group iff the group's key is its key; every entry's key has a group |
| `Grouping.GroupsKeepOrder` | client/src/pages/Income.jsx:137-144 | grouping a sorted list leaves every group sorted |
| `Totals.Add` | client/src/pages/Expenses.jsx:152 | adding `a` under `k` adds `a` to `k`'s total only, opens `k` at the end when new, and raises the grand total by `a` |
| `Totals.Accumulate` | client/src/pages/Expenses.jsx:150-154 | one bucket per distinct key in first-occurrence order; each key's total is the sum of that key's amounts; the totals add up to the sum of all amounts |
| `Totals.AccumulateKeys` | client/src/pages/Expenses.jsx:150-157 | every entry's key is a label, and every label is some entry's key |
| `Totals.AccumulateTotals` | client/src/pages/Dashboard.jsx:60-70 | each bucket, read in order, holds the sum of its own key's amounts |
| `TransactionStore.ApplyPatch` | server/routes/transactions.js:53-58 | a non-empty type, category or description and a non-zero amount overwrite; a falsy or missing field keeps the old value; a given date replaces; the owner never changes |
| `TransactionStore.ApplyPatchIdempotent` | server/routes/transactions.js:72-76 | applying the same `$set` twice is applying it once |
| `TransactionStore.List` | server/routes/transactions.js:12 | the listing holds exactly the caller's records, each once, with dates non-increasing |
| `TransactionStore.Create` | server/routes/transactions.js:23-37 | only the new id is added and no other record changes; the record is owned by the caller whatever the body claims; it copies type, amount, category and description; its date is the body's or now; the reply is 201 with the saved record |
| `TransactionStore.Update` | server/routes/transactions.js:49-78 | an unknown id gives 404, then someone else's record gives 401, and both leave the store unchanged; otherwise the record is patched, the reply is 200 with the record after the update, the other records are untouched, and no owner changes |
| `TransactionStore.Delete` | server/routes/transactions.js:88-103 | the same two checks in the same order leave the store unchanged; otherwise exactly that id is removed, the others are untouched, and the reply is the confirmation message |
| `TransactionStore.UpdateIdempotent` | server/routes/transactions.js:72-78 | repeating an update returns the same reply and leaves the same store |
| `TransactionStore.CreateThenDelete` | server/routes/transactions.js:101-103 | deleting a record just created by its owner restores the collection and confirms |
| `TransactionStore.DeleteThenNotFound` | server/routes/transactions.js:90-94 | after a delete, updating or deleting that id again gives 404 and changes nothing |
| `TransactionStore.OthersUntouched` | server/routes/transactions.js:97-99 | no route lets a caller alter or remove another user's record |
| `TransactionView.Page` | client/src/pages/Expenses.jsx:46-53 | the page holds exactly the listing's records of its type, each as often as in the listing |
| `TransactionView.CustomCategories` | client/src/pages/Expenses.jsx:42 | the custom tail holds exactly the non-empty, non-predefined categories of the loaded records |
| `TransactionView.CategoryOptions` | client/src/pages/Expenses.jsx:41-44 | options are duplicate-free, start with the predefined list in order, and are exactly the predefined categories plus every non-empty loaded category |
| `TransactionView.ExpenseOptions` | client/src/pages/Expenses.jsx:39-44 | the expense page's options start with Groceries, Bills, Transport, Entertainment, Health, Other |
| `TransactionView.IncomeOptions` | client/src/pages/Income.jsx:39-44 | the income page's options start with Salary, Freelance, Investment, Gift, Rental, Other |
| `TransactionView.PagesDisjoint` | client/src/pages/Income.jsx:46-53 | the income and expense pages never show the same record |
| `TransactionView.Processed` | client/src/pages/Expenses.jsx:125-146 | ungrouped, the list is a sorted permutation of the page. Grouped (exactly when grouping is on), the groups partition the page by key in first-occurrence order, and each group is non-empty and sorted |
| `TransactionView.SortedGroups` | client/src/pages/Income.jsx:126-147 | grouping the sorted list accounts for every record of the page exactly once, with every group sorted |
| `TransactionView.ChartData` | client/src/pages/Expenses.jsx:148-157 | each day label's point is that day's sum over the page's records in any order, and the points add up to the page's total |
| `TransactionView.SortedSums` | client/src/pages/Expenses.jsx:149 | sorting oldest first changes neither any day's sum nor the overall sum |
| `TransactionView.ChartLabels` | client/src/pages/Expenses.jsx:148-157 | one label per distinct day of the page's records, each label the day of some record |
| `TransactionView.ChartChronological` | client/src/pages/Expenses.jsx:149-154 | with a monotone day label, labels are strictly ascending |
| `TransactionView.ChartValues` | client/src/pages/Expenses.jsx:150-154 | each point is the sum of that day's amounts over the page, and the points add up to the page's total |
| `TransactionView.ChartPermutationInvariant` | client/src/pages/Income.jsx:149-156 | the chart depends only on which records the page holds, not on their order |
| `TransactionView.ChartSameLabels` | client/src/pages/Income.jsx:150-158 | reordering the page's records leaves the chart's labels as they were |
| `TransactionView.ChartIgnoresSortBy` | client/src/pages/Income.jsx:149-169 | whatever sort the list is shown in, the chart is the same |
| `TransactionView.EditClick` | client/src/pages/Expenses.jsx:88-103 | the form edits that record; a predefined category is selected as itself and keeps the custom fields as they were; any other category shows as `'Other'` with the category as custom text; the date becomes the record's UTC calendar day |
| `TransactionView.Submit` | client/src/pages/Expenses.jsx:63-72 | `'Other'` sends the custom text and any other choice is sent as itself; the type is the page's; the date is the chosen day's UTC midnight, or now when empty |
| `TransactionView.SubmitTypes` | client/src/pages/Income.jsx:66-73 | the expense page always submits `expense` and the income page always `income` |
| `TransactionView.Send` | client/src/pages/Expenses.jsx:74-80 | a PUT to the edited id while editing, a POST otherwise, carrying every submitted field |
| `TransactionView.DayStart` | client/src/pages/Expenses.jsx:95 | the date-only round trip lands on the start of the record's UTC day |
| `TransactionView.EditRoundTrip` | client/src/pages/Expenses.jsx:88-101 | editing then submitting unchanged gives back amount, description and type, the date at the start of its day, and any category other than `'Other'` |
| `TransactionView.OtherDoesNotRoundTrip` | client/src/pages/Income.jsx:89-102 | from a reset form, a stored predefined `'Other'` is submitted as the empty category |
| `TransactionView.AddClick` | client/src/pages/Expenses.jsx:197 | the add button clears editing and the fields but leaves the custom category state |
| `TransactionView.AddAfterReset` | client/src/pages/Expenses.jsx:55-61 | after `resetForm` the add button gives a blank form |
| `TransactionView.CategoryChange` | client/src/pages/Expenses.jsx:115-119 | choosing a category sets it and shows the custom text box exactly for `'Other'`, changing nothing else |
| `TransactionView.ChosenCategorySent` | client/src/pages/Income.jsx:116-120 | after a choice, submit sends that category, or the custom text when the choice is `'Other'` |
| `TransactionView.SubmitNewCreates` | client/src/pages/Income.jsx:63-81 | adding through the form stores a record of the page's type, owned by the caller, with the form's fields and date or now |
| `TransactionView.EditSubmitUpdate` | client/src/pages/Income.jsx:63-104 | an unchanged edit of one's own record, sent through PUT, leaves it as it was apart from the date moving to its day's start, except that a stored `'Other'` takes any non-empty custom text left in the form |
| `TransactionView.EditFromResetKeepsRecord` | server/routes/transactions.js:53-58 | after a reset, that PUT sends an empty category for a stored `'Other'`; the server ignores the falsy field, so the record keeps everything but its date |
| `Dashboard.CategoryKey` | client/src/pages/Dashboard.jsx:61 | the bar key is never empty: it is the category when there is one, and `'Other'` otherwise |
| `Dashboard.CategoryTotals` | client/src/pages/Dashboard.jsx:60-64 | each category's total is the sum of that category's expense amounts, and the totals add up to the listing's expense amounts, other types counting 0 |
| `Dashboard.Render` | client/src/pages/Dashboard.jsx:90-106 | the welcome card shows exactly when the listing is empty; otherwise the overview's bars are the category totals |
| `Dashboard.PieSubsets` | client/src/pages/Dashboard.jsx:39-42 | `incomes` and `expenses` are exactly the records of their type, so any other type is in neither; a type with no record totals 0 |
| `Dashboard.FilterKindSum` | client/src/pages/Dashboard.jsx:41-42 | the sum over a type's subset is the sum over the listing of that type's amounts |
| `Dashboard.PieValues` | client/src/pages/Dashboard.jsx:44-47 | the pie's values are the listing's income sum and expense sum |
| `Dashboard.PieCoversAll` | client/src/pages/Dashboard.jsx:39-42 | when every record is an income or an expense, the pie's two values add up to the sum of all amounts |
| `Dashboard.CategoryBars` | client/src/pages/Dashboard.jsx:60-64 | each bar is the sum of its category's expense amounts, an empty category counting as `'Other'`; the bars add up to the expense total |
| `Dashboard.CategoryLabels` | client/src/pages/Dashboard.jsx:60-67 | one bar per expense category, each once: every expense's category has a bar, and every bar has a contributing expense |
| `Dashboard.OtherMergesUncategorized` | client/src/pages/Dashboard.jsx:61 | the `'Other'` sum is the sum of explicit `'Other'` expenses plus uncategorized ones |
| `Dashboard.OtherBar` | client/src/pages/Dashboard.jsx:60-64 | the `'Other'` bar merges explicit `'Other'` expenses with uncategorized ones |
| `Dashboard.NonExpensesIgnored` | client/src/pages/Dashboard.jsx:40 | inserting records that are not expenses anywhere in the listing never changes the bars |
| `Dashboard.AgreesWithExpensePage` | client/src/pages/Dashboard.jsx:42 | the pie's expense value equals both the sum of the bars and the sum of the expense page's chart |
| `Dashboard.AgreesWithIncomePage` | client/src/pages/Dashboard.jsx:41 | the pie's income value equals the sum of the income page's chart |

## Left out

- The `500 Server Error` paths (database exceptions), concurrent requests
  and last-writer-wins effects: the store is a map updated one request at
  a time.
- Authentication: the middleware that supplies `req.user.id` is not part of
  this model; the caller is an input. `server/routes/auth.js`, the login and
  register pages, `client/src/services/api.js`, `server/server.js`, the theme
  and the layout components are network, startup or UI plumbing.
- Rendering: React state hooks, the modal, the chart.js datasets and colours,
  and the open/closed state of groups (`toggleGroup`) are UI. The toasts and
  the refetch after each change are effects with no data of their own.
- Amounts are integers: JavaScript floating point and `toLocaleString`
  formatting are not modelled.
- `toLocaleDateString` is an abstract day function. `ChartChronological`,
  `ChartSameLabels`, `ChartPermutationInvariant` and `ChartIgnoresSortBy`
  require it to be monotone. Without that, two orders of records on the same
  date could sort differently; the day-key sequences would still agree, but
  that is not proved here.
- JavaScript orders integer-like object keys before others. Groups and
  totals here are association lists in insertion order, so a category
  named like an integer would be placed differently in the browser.
- Categories that name a property every JavaScript object inherits
  (`constructor`, `toString`, `hasOwnProperty`, `__proto__`) are ordinary
  keys here. In the browser, grouping by such a category fails when it
  pushes onto the inherited function, `categoryTotals` turns the
  `constructor` bar into a string, and a `__proto__` bar is dropped, so the
  bars no longer add up to the expense total.
- The form's `required` attributes (amount, date, and the custom category
  text box while it is shown) are browser validation and are not modelled.
  The model lets the form be submitted with an empty date, which sends now,
  and with an empty custom text, which sends an empty category. The page
  never lets either through. So `Submit`'s "now" case is not reachable
  from it, and neither is the unchanged edit of an uncategorized record in
  `EditSubmitUpdate`, which shows `'Other'` with an empty custom text box.
  Every edit starts from a reset form, so the custom text is always empty
  when a record is opened. The `EditSubmitUpdate` case of a stored `'Other'`
  taking leftover custom text is therefore not reachable either. The edit
  of a stored `'Other'` in `EditFromResetKeepsRecord` is reachable: the
  custom box stays hidden, so nothing blocks the submit.
- A POST body with a missing type or amount (which the schema would store as
  absent) is not modelled: the body's type and amount are always present.
- An absent category or description is the empty string. Both are falsy,
  and every view treats them alike.
- An id that is not a valid ObjectId (a cast error, answered with 500) is not
  modelled. Ids are naturals, and an unknown one gives 404.
- `Sorting.Sort`: its contract states the permutation and the order, not
  that ties keep their input order. The definition is a stable insertion
  sort, as the engine's sort is.
- `TransactionStore.List`: the order among records with the same date is
  the database's choice. The method may return any such order, and its
  contract fixes only the non-increasing dates.
- The form's text fields (`Number(formData.amount)` of an arbitrary string,
  `NaN`) are not modelled: the form holds the amount as a number.
