# Expense tracker core in Dafny

This project models the data core of a single-page browser expense tracker
(`Expense_tracker/script.js`). It proves properties of that model. The page keeps a list of income and
expense records and an edit-mode flag. A form adds a record or updates the record being edited.
Buttons delete a record, start or cancel editing, and clear everything. The page then shows three views:

- the records of the selected month, newest first;
- the month's income, expense and balance, a spending percentage for the progress bar, and the all-time totals;
- a pie chart of the month's records grouped by type and category.

Modules:

- `Records`: the data. A record has an identifier, a type, an amount in minor currency units,
  a description, a category and a calendar date. There are also month keys and the raw form contents (`Draft`).
- `Seqs`: the order-preserving filter `Keep`, which models `Array.prototype.filter`.
- `Text`: `String.prototype.trim` over the ECMAScript white-space and line-terminator characters.
- `Repository`: the submission check, the record a submission produces, `findIndex` by identifier,
  and the removal of an identifier.
- `ExpenseTracker`: the class `Tracker`. Its fields are `transactions` and `editingId`.
  Its methods are the form actions `addTx` (`Submit`), `deleteTx`, the confirmed Delete button,
  `startEdit`, `cancelEdit` and `clearAll`.
- `MonthView`: the month filter and the stable newest-first sort of `renderList`,
  plus the host-time-zone behaviour of `getMonthKey` (see Findings).
- `Summary`: the totals of `renderSummary` and the rounded, capped spending percentage.
- `Breakdown`: `drawChart` without the canvas. It covers the grouping loop over a JavaScript `Map`,
  the grand total, the "No data" / "No amounts" placeholders and the colour of each slice.

The clock, randomness, storage and dialogs are inputs:

- the fresh identifier from `uid()` is a parameter of `Submit`;
- the answer to `confirm()` is a boolean parameter;
- the list read from `localStorage` is the constructor's argument;
- the host's UTC offset is a parameter of the as-written month key.

## Model

| member | source | states |
|---|---|---|
| ExpenseTracker.Tracker.constructor | Expense_tracker/script.js:32-33 | the page starts in create mode holding the loaded list |
| ExpenseTracker.Tracker.Submit | Expense_tracker/script.js:239-273 | the submission is accepted exactly when `Repository.Acceptable` holds (line 249: a date is present and the amount is a number above 0); edit mode is `ExpenseTracker.Tracker.Editing` (line 254, `if(editingId)`: a non-empty id); the stored record is `Repository.Record` (lines 258 and 265); a rejected one changes nothing; in create mode exactly one record is appended, carrying the fresh id, the type, amount and date, and trimmed description and category; in edit mode the first record with the edited id is replaced at its position by the new fields under its old id, and edit mode ends; if no record has that id nothing changes and edit mode stays on; unique ids stay unique when the new id is fresh |
| ExpenseTracker.Tracker.DeleteTx | Expense_tracker/script.js:275-279 | the list becomes the order-preserving filter without `id`; `id` is gone, no other id is lost, unique ids stay unique, the edit flag is untouched |
| ExpenseTracker.Tracker.RequestDelete | Expense_tracker/script.js:117-122 | deletes only when confirmed, otherwise changes nothing |
| ExpenseTracker.Tracker.StartEdit | Expense_tracker/script.js:281-294 | on a known id the flag becomes that id and the first record with it is returned to fill the form; on an unknown id nothing changes; the list is never touched |
| ExpenseTracker.Tracker.CancelEdit | Expense_tracker/script.js:296-303 | back to create mode with the list untouched |
| ExpenseTracker.Tracker.ClearAll | Expense_tracker/script.js:305-311 | empties the list only when confirmed; the flag is untouched |
| Repository.IndexOfId | Expense_tracker/script.js:256 | `findIndex`: none exactly when no record has the id; otherwise an in-range index holding the id with no earlier match |
| Repository.WithoutIdSpec | Expense_tracker/script.js:276 | `Repository.WithoutId`, the filter of line 276, removes every record with the id, keeps every other record as often as it occurred, and keeps their relative order |
| Repository.WithoutIdKeepsUnique | Expense_tracker/script.js:276 | deleting keeps identifiers unique |
| Repository.AppendThenFind | Expense_tracker/script.js:265-266 | a record pushed under a fresh id is found at the end by `findIndex`, and ids stay unique |
| Repository.UpdateThenFind | Expense_tracker/script.js:256-258 | after the in-place update the id is found at the same index holding the new fields, and the set of ids is unchanged |
| Text.LeadingSpace | Expense_tracker/script.js:244-245 | the longest all-white-space prefix: all of it is white space and the next character is not |
| Text.TrailingSpace | Expense_tracker/script.js:244-245 | the longest all-white-space suffix: all of it is white space and the character before it is not |
| Text.Trim | Expense_tracker/script.js:244-245 | the trimmed text neither starts nor ends with white space |
| Text.TrimIsSlice | Expense_tracker/script.js:244-245 | the input is white space, then the trimmed text, then white space |
| Text.TrimEmptyIffAllSpace | Expense_tracker/script.js:244-245 | a field trims to the empty string exactly when it is all white space |
| Text.TrimIdempotent | Expense_tracker/script.js:244-245 | trimming twice equals trimming once |
| MonthView.Insert | Expense_tracker/script.js:74 | inserting adds exactly one record and loses none |
| MonthView.SortNewestFirst | Expense_tracker/script.js:74 | the sort is a permutation of its input |
| MonthView.SortIsNewestFirst | Expense_tracker/script.js:74 | with `Records.Later` as the order of the comparator `new Date(b.date) - new Date(a.date)` on valid dates, the sorted list is ordered by date, newest first |
| MonthView.SortIsStable | Expense_tracker/script.js:74 | the records of any one date keep their original relative order |
| MonthView.MonthListSpec | Expense_tracker/script.js:73-74 | `MonthView.MonthList`, the month filter `MonthView.InMonth` (line 73) followed by the sort (line 74), holds exactly the month's records, each as often as stored, newest first, equal dates in stored order |
| MonthView.NewestFirstUnique | Expense_tracker/script.js:73-74 | two newest-first lists with the same records per date in the same order are equal, so every stable newest-first sort gives the month list |
| MonthView.AddedRecordListed | Expense_tracker/script.js:73-74 | a record added under a fresh id appears exactly once in its own month's list, and nothing else there has its id |
| MonthView.DeletedRecordUnlisted | Expense_tracker/script.js:276 | after deleting an id no month list shows a record with it |
| MonthView.HostMonthKeyIsMonthOf | Expense_tracker/script.js:63-66 | `getMonthKey` as written is `MonthView.HostMonthKey`: the month of `MonthView.LocalDay`, the calendar day a host at a fixed UTC offset shows at midnight UTC of the date (the date itself at or east of UTC, `Records.PrevDay` west of it); for every valid date it equals `Records.MonthOf`, the intended key (the year and month written in the date), exactly when the host is not west of UTC or the date is not the 1st |
| Records.PrevDay | Expense_tracker/script.js:64-65 | the local day west of UTC: a valid date strictly earlier than the date, month lengths from `Records.DaysInMonth` with Gregorian leap years (`Records.IsLeapYear`), validity being `Records.ValidDate` |
| Records.PrevNextDay | Expense_tracker/script.js:64-65 | `Records.PrevDay` and its partner `Records.NextDay` are inverse on valid dates |
| Records.PrevDayIsAdjacent | Expense_tracker/script.js:64-65 | no valid date lies strictly between a date and `Records.PrevDay` of it, so it is exactly the day before |
| MonthView.FirstOfMonthMisfiled | Expense_tracker/script.js:63-66 | as written, on a UTC-5 host a record dated 2024-03-01 is missing from March and listed under February by `MonthView.InMonthOnHost`, the filter of line 73 with the as-written key |
| Summary.SummarizeAdditive | Expense_tracker/script.js:135-137 | `Summary.Summarize` builds the figures from `Summary.Income` and `Summary.Expense` (lines 135-136, and 150-151 for all records), each `Summary.SumAmounts` of one type's records, and the balance as their difference (line 137); income, expense and balance of two lists together are the sums of their figures |
| Summary.SummarizeOneMore | Expense_tracker/script.js:135-136 | a record adds its amount to income if its type is "income", to expense if it is "expense", and to neither otherwise |
| Summary.SubsetTotalsBounded | Expense_tracker/script.js:133-151 | the totals of any filtered list, in particular of one month, never exceed the all-time totals |
| Summary.RoundQuotient | Expense_tracker/script.js:145 | `Math.round(n/d)` for non-negative quotients: the integer nearest to n/d, halves rounded up |
| Summary.SpendingPercent | Expense_tracker/script.js:144-146 | always in 0..100; with no income, 100 if anything was spent and 0 otherwise; with income, exactly 100 when the rounded ratio reaches 100, else the nearest integer to 100·expense/income |
| Breakdown.FirstSeen | Expense_tracker/script.js:174-180 | the `Map`'s keys are distinct and are exactly the keys of the records |
| Breakdown.OrderStep | Expense_tracker/script.js:177 | `Breakdown.Set`, the model of `map.set`, keeps a known key in place and appends a new key at the end, so after setting a record's key the `Map`'s insertion order is the first-seen order of the keys of the records so far |
| Breakdown.FirstSeenOrder | Expense_tracker/script.js:174-180 | the groups come in the order their keys first occur |
| Breakdown.KeySumIsFilteredSum | Expense_tracker/script.js:177 | a group's sum is the sum of the amounts of exactly the records with its key |
| Breakdown.GroupStep | Expense_tracker/script.js:175-178 | one pass of the loop body, `Breakdown.Set` of the record's `Breakdown.GroupKey` (line 176, with `Breakdown.CategoryLabel` for the `|| '(uncategorized)'` fallback) to `Breakdown.GetOrZero` plus the amount (line 177), extends the grouping by one record |
| Breakdown.GroupByKey | Expense_tracker/script.js:174-180 | the loop's `Map` (`Breakdown.KeyedSums`, line 174: an insertion order and a key-to-sum map), read out by `Breakdown.MapEntries` (line 180), lists every distinct key once, in first-seen order, with its summed amount: it equals the reference definition `Breakdown.Groups` |
| Breakdown.GroupsSumToTotal | Expense_tracker/script.js:180-181 | the group sums, `Breakdown.SumEntries` (line 181), add up to the sum of all amounts |
| Breakdown.DrawChart | Expense_tracker/script.js:159-196 | "No data" exactly for no records; "No amounts" exactly when records exist but sum to 0; otherwise a pie whose total is the sum of all amounts and whose slices are the groups with their colours (`Breakdown.Paint`, the `colors` array of lines 191-196) |
| Breakdown.ColourDependsOnlyOnType | Expense_tracker/script.js:192-196 | a slice's colour, `Breakdown.Colour` (lines 193-195, the `key.startsWith` tests being `Breakdown.StartsWith`), depends on the type part of its key, never on the category |
| Breakdown.ColourOfType | Expense_tracker/script.js:192-196 | income groups are green, expense groups red, other types (without a `\|`) grey |
| Breakdown.GroupKeyInjective | Expense_tracker/script.js:176 | for types without `\|`, equal keys mean equal type and equal category label, so grouping by key is grouping by the pair |
| Seqs.KeepContents | Expense_tracker/script.js:133 | `Seqs.Keep`, the model of `filter`, keeps exactly the elements that pass, each as often as it occurs |
| Seqs.KeepIsSubsequence | Expense_tracker/script.js:276 | `filter` keeps the survivors in their original relative order |

## Left out

- DOM rendering, event wiring, button labels, form reset and scrolling (`renderList`'s items, `startEdit` filling the inputs, `cancelEdit` resetting the form). `StartEdit` returns the record whose fields fill the form.
- The canvas: clearing, placeholder text and pie geometry. The slice angles `val/total·2π` and the legend's `toFixed(1)` percentages are floating point. The model stops at the integer group sums and colours they are drawn from. The legend's `key.split('|')`, which shows only the first part of a category that itself contains `|`, is display only.
- `formatCurrency` / `toLocaleString`: locale-dependent formatting.
- `localStorage` and `JSON.parse`/`JSON.stringify` (`loadData`, `saveData`). The constructor takes the loaded list as given. `loadData` does not catch a parse error, and nothing here claims that loading fails soft.
- `uid()`: the clock and randomness. `Submit` takes the identifier as a parameter. Freshness is a hypothesis only of the uniqueness clause of its contract.
- `confirm()`: a boolean parameter of `RequestDelete` and `ClearAll`.
- The initial date and month selection from today's date, and `filterMonth || monthSelect.value`. The month is a parameter of the views.
- Amounts are natural numbers of minor units. The model does not capture:
  - JavaScript's floating-point arithmetic;
  - fractional minor units;
  - stored amounts that are not numbers or that are negative.
  `Draft.amount` keeps the not-a-number case that the form check rejects.
- Dates are valid calendar dates, as the date input produces. Malformed stored dates (`Invalid Date`) are not modelled, except that the as-written month filter `MonthView.InMonthOnHost` treats a date that is not `Records.ValidDate` as `Invalid Date`, whose key `NaN-NaN` matches no month. For a day past the month's end (such as 2023-02-29) the parse is engine-dependent: an engine may roll it into the next month and list the record there. That is not modelled.
- `Summary.SpendingPercent`: computed with exact rationals. A floating-point error in `expense / income * 100` that lands on the other side of a .5 boundary is not captured.
- `MonthView.HostMonthKey`: takes the host's offset as one fixed number in (−24 h, +24 h). Daylight-saving changes between dates are not modelled.

## Findings

| source | as written | input that shows it | evidently intended | confidence | as-written member | corrected member |
|---|---|---|---|---|---|---|
| Expense_tracker/script.js:63-66 | `new Date("YYYY-MM-DD")` is midnight UTC, but `getFullYear`/`getMonth` read the host's local calendar, so west of UTC the 1st of a month gets the previous month's key | a record dated 2024-03-01 on a host at UTC−5: it is missing from the March list and totals and counted in February | the month key is the year and month written in the date | not executed | MonthView.FirstOfMonthMisfiled | MonthView.AddedRecordListed |
