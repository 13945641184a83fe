# Balance tracker: aggregation and budget-alert engine

A Dafny model of the client-side engine of a personal income/expense tracker. The
engine is everything in the React client that computes rather than renders:

- conversion of amounts to the base currency (USD) with a fetched rate table;
- the entry list's period filter (day, month or year around a selected date) and its
  free-text search over title and category;
- the consolidated income/expense/balance totals, the twelve-month chart of the selected
  year and the per-category expense pie chart of the selected month;
- the entry list's two updates, adding a validated entry and deleting by id;
- the budget tracker: the month's budget per category, spend against it, the
  "approaching" (>80%) and "exceeded" (>100%) alert state machine, and the rules the
  progress table is drawn from.

Amounts and rates are `real`, so exact arithmetic stands in for JavaScript doubles.
Dates are (year, month 0..11, day) triples. Every operation is a pure function. The alert
effect, which in the client mutates a ref and calls `setAlert`, is a step
`(markers, progress, loaded, editing) -> (markers', notifications)`.

Modules, one per concern:

| file | module | models |
|---|---|---|
| `seqs.dfy` | `Seqs` | `Array.prototype.filter` as a stable filter (`Keep`) with its positions |
| `text.dfy` | `Text` | `trim`, ASCII `toLowerCase`, `includes` |
| `ledger.dfy` | `Ledger` | entries, rates, `convertToBase`, the left-to-right converted sum, the category list |
| `period_filter.dfy` | `PeriodFilter` | `filteredEntries` |
| `summary.dfy` | `Summary` | `consolidatedSummary`, `monthlySummary`, `categoryData` |
| `entry_list.dfy` | `EntryList` | `handleAddEntry`, `handleDeleteEntry` |
| `budgets.dfy` | `Budgets` | the budget map, `handleBudgetChange`, `budgetProgress`, the alert effect, the table's row filter, bar value and colour |

Behaviour of the code that a reader might not expect, all of it modelled as written:

- A fall from `"exceeded"` into (80, 100] raises a fresh warning, because the
  "approaching" branch only checks that the previous marker is not `"approaching"`
  (expenses_react/src/components/Budgets.js:100-110). So budget 100 with spend 50, 85,
  110, 90, 110 raises four alerts (`Budgets.HysteresisExample`).
- `budgetsLoaded` is only ever set to true (Budgets.js:45), and the load effect returns
  early once it is true (Budgets.js:32). So budgets load once, a later change of the
  selected period does not reload them, and the alert markers are cleared only on that
  first load (`Budgets.LoadBudgets`).
- `convertToBase` tests the rate for truthiness (expenses_react/src/App.js:151), so a
  rate of 0 passes the amount through just as a missing rate does.
- `budgetProgress` builds a row for every expense category, with budget 0 when none is
  set (Budgets.js:67-81). Only the table hides the rows without a budget (Budgets.js:153).

## Model

| member | source | states |
|---|---|---|
| `Ledger.ConvertToBase` | expenses_react/src/App.js:151 | with a present, nonzero rate the result times the rate gives back the amount; otherwise the amount passes through unchanged; total |
| `Ledger.TotalFromFront` | expenses_react/src/App.js:202 | the left-to-right `reduce` sum is the first entry's converted amount plus the sum of the rest |
| `Ledger.TotalAppend` | expenses_react/src/App.js:200-205 | the left-to-right converted sum splits over concatenation |
| `Ledger.TotalSplit` | expenses_react/src/App.js:195-205 | summing a filter by a disjoint union is summing the two filters |
| `Text.Trim` | expenses_react/src/App.js:92 | the trimmed title is a slice of the input with only whitespace dropped on both sides, has no whitespace at either end, and is empty exactly when the input is blank |
| `Text.Lower` | expenses_react/src/App.js:154 | the lower-cased string has the input's length, no upper-case ASCII letter, and each character equal to the input's up to ASCII case |
| `Text.LowerEqualIffSameUpToCase` | expenses_react/src/App.js:154-171 | two strings lower-case alike iff they have the same length and agree character by character up to ASCII case, so the search ignores case |
| `Text.Contains` | expenses_react/src/App.js:170-171 | `includes` holds whenever the string starts with the term, and never when the term is longer |
| `Text.ContainsIffOccurs` | expenses_react/src/App.js:170-171 | `includes` holds exactly when the term occurs at some position |
| `PeriodFilter.SearchTerm` | expenses_react/src/App.js:154 | the matched term is empty exactly when the search box is blank |
| `PeriodFilter.Filtered` | expenses_react/src/App.js:153-176 | an entry is listed iff it is in the selected day/month/year and matches the search |
| `PeriodFilter.FilteredIsStable` | expenses_react/src/App.js:155-175 | the listed entries are the input read at increasing positions, exactly the positions of wanted entries |
| `PeriodFilter.BlankSearchKeepsPeriod` | expenses_react/src/App.js:168-173 | with a blank search the list is exactly the period filter |
| `PeriodFilter.SearchNeedsOccurrence` | expenses_react/src/App.js:168-173 | with a non-blank search every listed entry has the lower-cased term inside its lower-cased title or category |
| `PeriodFilter.PeriodsNest` | expenses_react/src/App.js:157-167 | the day view is the month view filtered by day, and the month view is the year view filtered by month |
| `PeriodFilter.SelectedDayListed` | expenses_react/src/App.js:157-174 | with a blank search an entry dated on the selected day is listed in the day, month and year views |
| `PeriodFilter.PeriodBoundary` | expenses_react/src/App.js:157-167 | with 1 March 2024 selected, an entry of 29 February 2024 is listed in the year view only |
| `Summary.Consolidate` | expenses_react/src/App.js:178-189 | balance is income minus expense; income is the converted sum of income entries and expense that of the others |
| `Summary.MonthlySeries` | expenses_react/src/App.js:191-215 | exactly twelve buckets, bucket `i` for month `i` |
| `Summary.BucketAmount` | expenses_react/src/App.js:195-205 | a bucket's income (expense) is the converted sum of the year's income (expense) entries in that month |
| `Summary.EmptyMonthIsZero` | expenses_react/src/App.js:195-205 | a month without entries in the selected year shows 0 income and 0 expense |
| `Summary.ColumnPrefixSum` | expenses_react/src/App.js:191-205 | the first `n` buckets of a column add up to that kind's total over the year's entries before month `n` |
| `Summary.ColumnSumIsYearTotal` | expenses_react/src/App.js:191-205 | the buckets partition the selected year: a column's sum is that kind's total for the year |
| `Summary.SeriesAgreesWithTotals` | expenses_react/src/App.js:178-215 | when every entry is in the selected year, the chart's columns add up to the consolidated income and expense |
| `Summary.CategorySpend` | expenses_react/src/App.js:220-228 | a category's month spend is 0 when no entry is an expense in that category in the selected month |
| `Summary.CategoryBreakdown` | expenses_react/src/App.js:217-232 | every slice is an expense category with positive spend equal to its converted month spend; no category with positive spend is missing |
| `Summary.BreakdownInCategoryOrder` | expenses_react/src/App.js:218-231 | slices appear at increasing positions of the fixed category list |
| `Summary.EmptyLedger` | expenses_react/src/App.js:178-232 | no entries give zero totals, twelve zero buckets and no slices |
| `Summary.MixedCurrencyExample` | expenses_react/src/App.js:178-188 | 100 EUR at 0.9 EUR per USD counts as 1000/9 USD of expense |
| `EntryList.AddEntry` | expenses_react/src/App.js:91-135 | an invalid form or failed save leaves the list and reports an error; a saved entry is appended at the end with the trimmed title, a positive amount and the store's id and date |
| `EntryList.FormRejection` | expenses_react/src/App.js:92-98 | the form is rejected iff the title is blank or the amount is missing or not positive |
| `EntryList.AddGrowsIffAccepted` | expenses_react/src/App.js:115-134 | the list changes, and success is reported, iff the form is valid and the store saved the entry |
| `EntryList.DeleteEntry` | expenses_react/src/App.js:137-149 | after a confirmed delete no entry has the id and every other entry remains; on failure nothing changes |
| `EntryList.DeleteKeepsOrder` | expenses_react/src/App.js:140 | the survivors are the old list read at increasing positions, exactly those with a different id |
| `EntryList.DeleteAbsentId` | expenses_react/src/App.js:140 | deleting an id no entry has changes nothing |
| `EntryList.UpdatesPreserveWellFormed` | expenses_react/src/App.js:92-120 | adding and deleting keep every entry with a positive amount and a trimmed, non-blank title |
| `Budgets.BudgetAmount` | expenses_react/src/components/Budgets.js:78 | the budget is the stored number, and 0 exactly when the value is missing, blank, non-numeric or 0 |
| `Budgets.BudgetMapOf` | expenses_react/src/components/Budgets.js:40-43 | the map built by `forEach` has exactly the fetched categories as keys |
| `Budgets.BudgetMapLastWins` | expenses_react/src/components/Budgets.js:40-43 | each category's key holds the amount of its last fetched row, later rows overwriting earlier ones |
| `Budgets.LoadBudgets` | expenses_react/src/components/Budgets.js:31-56 | loading is a no-op once loaded; a fetched list becomes the map, marks it loaded and clears every marker; a failed fetch reports an error |
| `Budgets.ChangeBudget` | expenses_react/src/components/Budgets.js:58-63 | a cleared field stores the empty value, a typed one the number; other categories keep their values |
| `Budgets.ChangeSetsAmount` | expenses_react/src/components/Budgets.js:58-63 | after an edit the category's budget is the typed number, or 0 when cleared; other budgets are unchanged |
| `Budgets.PercentFacts` | expenses_react/src/components/Budgets.js:79 | with a positive budget the percentage exceeds 100 iff spend exceeds the budget, and 80 iff spend exceeds 80% of it |
| `Budgets.BudgetProgress` | expenses_react/src/components/Budgets.js:65-84 | one row per category in fixed order, with the month's converted spend, the coerced budget, and a percentage consistent with them (0 without a budget) |
| `Budgets.ProgressMatchesBreakdown` | expenses_react/src/components/Budgets.js:68-76 | a category's spend is positive iff the pie chart has a slice for it with the same value |
| `Budgets.CategoryStep` | expenses_react/src/components/Budgets.js:91-113 | an inactive category is untouched; an active one ends in its percentage's band and alerts iff it enters a non-clear band, including a fall from exceeded to approaching |
| `Budgets.CategoryStepSettles` | expenses_react/src/components/Budgets.js:93-113 | a second turn with the same progress changes nothing and alerts nothing |
| `Budgets.Sweep` | expenses_react/src/components/Budgets.js:88-114 | the loop raises no more alerts than there are rows and leaves the markers of categories outside the rows untouched; `SweepNotes` states which alerts |
| `Budgets.Step` | expenses_react/src/components/Budgets.js:86-115 | nothing happens before loading or while editing; categories outside the progress keep their markers; no more alerts than rows |
| `Budgets.SweepNotes` | expenses_react/src/components/Budgets.js:88-114 | with one row per category the loop raises exactly the alert each row raises on its own from the markers before the loop, in row order |
| `Budgets.StepNotes` | expenses_react/src/components/Budgets.js:86-115 | the step raises nothing before loading or while editing, and otherwise exactly the rows' own alerts in row order |
| `Budgets.AlertForInjective` | expenses_react/src/components/Budgets.js:94-109 | two alerts are equal only for the same category and band, since the message names the category and the severity names the band |
| `Budgets.StepAlertIff` | expenses_react/src/components/Budgets.js:91-110 | a category's "exceeded" (or "approaching") alert is raised iff it is active, its percentage is in that band and its marker was not already that band |
| `Budgets.SweepFinal` | expenses_react/src/components/Budgets.js:88-114 | with one row per category each marker ends where its own turn put it |
| `Budgets.SweepSettledIsNoop` | expenses_react/src/components/Budgets.js:88-114 | a sweep over settled rows changes no marker and raises nothing |
| `Budgets.StepIdempotent` | expenses_react/src/components/Budgets.js:86-115 | re-running the step on the same progress raises nothing and changes nothing |
| `Budgets.StepReachesBand` | expenses_react/src/components/Budgets.js:88-114 | after the step every active category's marker is the band of its percentage |
| `Budgets.AlertEffect` | expenses_react/src/components/Budgets.js:65-115 | the effect changes only the markers, and its alerts are none before loading or while editing, otherwise exactly the per-category alerts of the month's progress |
| `Budgets.AlertEffectIdempotent` | expenses_react/src/components/Budgets.js:65-115 | recomputing with unchanged entries, budgets and date raises no alert the second time |
| `Budgets.HysteresisExample` | expenses_react/src/components/Budgets.js:93-113 | budget 100 with spend 50, 85, 110, 90, 110 raises approaching, exceeded, approaching, exceeded |
| `Budgets.ShownCategories` | expenses_react/src/components/Budgets.js:152-153 | the table lists exactly the categories with a positive budget |
| `Budgets.ShownInCategoryOrder` | expenses_react/src/components/Budgets.js:152-153 | listed categories keep the fixed category order |
| `Budgets.ShownRowsHaveBudget` | expenses_react/src/components/Budgets.js:152-177 | a category is listed iff its progress row has a positive budget, so every listed row draws a bar |
| `Budgets.BarValue` | expenses_react/src/components/Budgets.js:187 | the fill is the percentage capped at 100 |
| `Budgets.BarFullIffSpent` | expenses_react/src/components/Budgets.js:187 | with a positive budget the bar is full iff the budget is used up |
| `Budgets.Colour` | expenses_react/src/components/Budgets.js:194-200 | the colour is the colour of the percentage's alert band: error above 100, warning above 80, primary otherwise |
| `Budgets.MarkersAgreeWithColours` | expenses_react/src/components/Budgets.js:86-200 | after the effect every active category's marker has the colour of its bar |

## Left out

- React scheduling: `useMemo` and `useEffect` dependencies, re-render batching. Each view is a function of its inputs, and the caller decides when to recompute.
- The snackbar holds one alert, so of several `setAlert` calls in one effect run only the last is shown. The model returns every notification in order.
- I/O with the entry store, budget store and rate source. The store's answers are parameters: `SaveOutcome` for adding, a `confirmed` flag for deleting, an optional row list for loading budgets. Saving budgets (`Promise.all` of upserts) and the edit/cancel buttons are left out. The alert step takes the edit mode as an input.
- The auth token that gates loading, and the owner of entries and budgets: per-user scoping happens on the server.
- The clock, ISO date formatting and time zones: the date of a new entry is the one the store returns, given as a parameter. Month labels and `toFixed`/`toLocaleString` formatting are presentation.
- Parsing numbers from text. Both numeric fields are HTML number inputs, which report either nothing or a valid number (`NumberField`). A stored budget that `Number` turns into NaN is `NotNumeric`.
- Floating point: NaN, infinities and rounding. With real amounts, `isNaN(percent)` is never true, so that guard is not modelled.
- Text.Lower: maps the ASCII letters A-Z only. Other Unicode case mappings, such as accented or Greek capitals, are not modelled, so a search differing from an entry only in non-ASCII case is treated as a mismatch.
- Resetting the title and amount fields after a successful add is form state.
- `constants.js` is used only for the fixed expense-category list.
- The server (routing, SQL, hashing, tokens) is not part of this model.
