# Gig-earnings tracker: weekly summary and list maintenance

A Dafny model of the logic of a personal delivery-earnings tracker. The app
records one earning per day (an app-tracked amount and a cash amount), keeps
deduction settings (rent, motorcycle, tax, the Wolt platform fee in percent) and
monthly income targets in a backing store, and shows a weekly net-income summary.

Three parts are modelled:

- `WeeklySummary` (`weekly_summary.dfy`) is the weekly summary page's
  `getWeekData`. It fixes the Monday-to-Sunday window selected by a week offset
  and keeps the earnings dated inside it. It builds the zero-filled 7-day
  breakdown, sums the income, and computes the deductions (settings divided by 4,
  fee in percent of income) and the net income. It also models the record that
  "save to history" builds. This part is pure: datatypes, functions and lemmas.
- `EarningsHook` (`earnings_hook.dfy`) is the earnings hook's in-memory list.
  The class `EarningsStore` holds the `earnings` sequence and the `loading`
  flag. Its methods fetch, add today's amounts, and delete by id. Adding means
  an insert, or an update after a unique-date conflict (`23505`).
- `MonthlyTargetsHook` (`monthly_targets.dfy`) is the targets hook's list. The
  class `TargetsStore` performs `setTarget`'s keyed upsert: drop the entries of
  the same (month, year), put the returned row in front, and re-sort newest
  first.

`Records` (`records.dfy`) holds the table rows and the `Reply` datatype shared by
all three.

Abstractions:

- A date is an integer day number, counted from 1970-01-01 (a Thursday), so
  `Weekday(d) = (d + 3) % 7` with Monday = 0.
- Money is `real`.
- The store is an oracle. Fetch replies are plain parameters. Where the hook
  sends a request (insert, update, delete, upsert), the store is a function from
  the request to a `Reply`. That way each method's contract shows what the hook
  asked for, for example that `AddEarning` always asks for today's date.
- The clock's date is the parameter `today`.
- `total_amount` is nullable in the schema (`src/integrations/supabase/types.ts`),
  so it is `Option<real>`. The page's `|| 0` and the `+` of its `reduce` both
  read null as 0.
- `Array.prototype.sort` is stable, so the model uses a stable insertion sort
  keyed by `setTarget`'s comparator `b.year - a.year || b.month - a.month`.

Facts of the code that the model keeps:

- The fee rate field of the settings is `wolt_rate`, a percentage.
- Earnings are saved by an insert; on a unique violation (`23505`) the hook
  sends an update of that date's row instead.
- The summary always covers one calendar week, Monday to Sunday.

## Model

| member | source | states |
|---|---|---|
| `WeeklySummary.Weekday` | src/pages/WeeklySummary.tsx:23 | The day of the week (`weekStartsOn: 1`, Monday = 0) is one of seven values |
| `WeeklySummary.StartOfWeek` | src/pages/WeeklySummary.tsx:23 | `startOfWeek`: the result is a Monday, at most six days before the given day |
| `WeeklySummary.StartOfWeekUnique` | src/pages/WeeklySummary.tsx:23 | Any Monday at most six days before a day is that day's week start, so the week start is unique |
| `WeeklySummary.WeekStart` | src/pages/WeeklySummary.tsx:23 | The window starts on the Monday of the week holding `today - 7 * weekOffset` |
| `WeeklySummary.WeekStartShift` | src/pages/WeeklySummary.tsx:23 | That start is the current week's Monday minus `7 * weekOffset` days |
| `WeeklySummary.EndOfWeek` | src/pages/WeeklySummary.tsx:24 | `endOfWeek` of any day is a Sunday, at most six days after that day |
| `WeeklySummary.EndOfWeekOfMonday` | src/pages/WeeklySummary.tsx:23-24 | The week that starts on a Monday ends six days later, so the window is seven days long |
| `WeeklySummary.InWindow` | src/pages/WeeklySummary.tsx:27 | For a Monday start, a date is in the window exactly when it lies between the start and its `endOfWeek`, that is, exactly when its own week starts on that Monday |
| `WeeklySummary.WeekEarnings` | src/pages/WeeklySummary.tsx:26-28 | The week's earnings are exactly the earnings dated inside the window |
| `WeeklySummary.Total` | src/pages/WeeklySummary.tsx:41 | The `reduce` sum is non-negative when every amount is |
| `WeeklySummary.TotalIncome` | src/pages/WeeklySummary.tsx:26-41 | The week's income is non-negative when the in-window amounts are, and 0 when no earning is in the window |
| `Records.OrZero` | src/pages/WeeklySummary.tsx:35-37 | A present value is kept; the result is 0 exactly when the value is null or 0 |
| `WeeklySummary.TotalIncomeAppend` | src/pages/WeeklySummary.tsx:26-41 | Income is additive over concatenated earning lists |
| `WeeklySummary.TotalIncomeSingle` | src/pages/WeeklySummary.tsx:26-41 | One earning adds its total (null read as 0) exactly when its date is in the window, and 0 otherwise |
| `WeeklySummary.TotalIncomeEmptyWeek` | src/pages/WeeklySummary.tsx:26-41 | With no earning in the window the income is 0 |
| `WeeklySummary.FirstOnDate` | src/pages/WeeklySummary.tsx:31 | `find` gives nothing exactly when no earning has the date; otherwise an earning of the list with that date |
| `WeeklySummary.FirstOnDateIsEarliest` | src/pages/WeeklySummary.tsx:31 | `find` returns the earliest earning with the date |
| `WeeklySummary.FirstOnDateInWeek` | src/pages/WeeklySummary.tsx:26-31 | For a day of the window, searching the week's earnings finds the same earning as searching all of them |
| `WeeklySummary.DayEntryFor` | src/pages/WeeklySummary.tsx:31-38 | A breakdown line carries the day it was built for |
| `WeeklySummary.DailyBreakdown` | src/pages/WeeklySummary.tsx:30-39 | The breakdown has one line per day of the window, in ascending order from the Monday |
| `WeeklySummary.DaysTotalIsTotal` | src/pages/WeeklySummary.tsx:30-41 | For in-window earnings with distinct dates, the seven breakdown totals sum to their total |
| `WeeklySummary.GetWeekData` | src/pages/WeeklySummary.tsx:21-64 | The window is a Monday-to-Sunday week holding `today - 7 * weekOffset`; the breakdown has 7 lines; there are calculations exactly when there are settings |
| `WeeklySummary.WeekDataWindow` | src/pages/WeeklySummary.tsx:23-24 | The window is `[StartOfWeek(today) - 7 * weekOffset, +6]`; offset 0 holds today |
| `WeeklySummary.WeekDataIncome` | src/pages/WeeklySummary.tsx:26-41 | `totalIncome` is the income of the window, 0 when no earning falls inside it |
| `WeeklySummary.WeekDataBreakdown` | src/pages/WeeklySummary.tsx:30-39 | Line `i` is day `weekStart + i`. It holds the amounts of the first earning of the whole list with that date, or zeros when there is none |
| `WeeklySummary.BreakdownSumsToIncome` | src/pages/WeeklySummary.tsx:30-41 | With at most one earning per date, the breakdown totals add up to `totalIncome` |
| `WeeklySummary.WeekDataWithoutSettings` | src/pages/WeeklySummary.tsx:43 | Without settings, `calculations` is null. The window, income and breakdown equal those computed with any settings |
| `WeeklySummary.Deductions` | src/pages/WeeklySummary.tsx:45-49 | Each fixed deduction is a quarter of its monthly setting, the fee is `wolt_rate` percent of the income, and net income plus the four deductions is the income |
| `WeeklySummary.DeductionsNet` | src/pages/WeeklySummary.tsx:48-49 | Net income in closed form: `income * (1 - rate/100) - (rent + motorcycle + tax)/4` |
| `WeeklySummary.FixedDeductions` | src/pages/WeeklySummary.tsx:45-47 | Rent, motorcycle and tax deductions are a quarter of the settings, whatever the earnings |
| `WeeklySummary.NetIncomeBalance` | src/pages/WeeklySummary.tsx:48-49 | The fee is `wolt_rate` percent of income. Net income is `income * (1 - rate/100) - (rent + motorcycle + tax)/4`, unclamped |
| `WeeklySummary.EmptyWeekNetIncome` | src/pages/WeeklySummary.tsx:41-49 | A week without earnings has income 0 and net `-(rent + motorcycle + tax)/4`, negative when the settings are positive |
| `WeeklySummary.SaveToHistory` | src/pages/WeeklySummary.tsx:69-86 | Nothing is saved exactly when `calculations` is null. Otherwise a `'week'` record of the window bounds, the income, the four deductions and the net income as shown |
| `WeeklySummary.SavedRecordBalances` | src/pages/WeeklySummary.tsx:69-86 | A record is saved exactly when there are settings. It covers the selected week and holds its income, deductions of a quarter of the settings and the percent fee. Its net is income less the four deductions |
| `EarningsHook.ReplaceOnDate` | src/hooks/useEarnings.ts:80-82 | The `map` keeps the length and replaces exactly the entries with the date by the row |
| `EarningsHook.RemoveId` | src/hooks/useEarnings.ts:118 | The `filter` keeps exactly the entries with another id |
| `EarningsHook.AfterFetch` | src/hooks/useEarnings.ts:24-35 | After a successful fetch the list holds exactly the returned rows (none for no data); after a failed one it is the old list |
| `EarningsHook.AfterAdd` | src/hooks/useEarnings.ts:63-97 | A successful insert adds one entry, the returned row, in front of the old list. After an insert error the length is kept and entries of other dates are untouched; after an error other than `23505` the list is unchanged |
| `EarningsHook.AfterDelete` | src/hooks/useEarnings.ts:116-118 | The list never grows. A failed delete keeps it; a successful one keeps exactly the entries with another id |
| `EarningsHook.FetchReplacesOrKeeps` | src/hooks/useEarnings.ts:24-45 | A successful fetch shows the store's rows (none for no data); a failed one keeps the list |
| `EarningsHook.InsertPrepends` | src/hooks/useEarnings.ts:92 | A successful insert gives `[row] + old list` |
| `EarningsHook.ConflictReplacesToday` | src/hooks/useEarnings.ts:63-82 | After `23505` and a successful update, entries dated today become the updated row. Other entries and the length are unchanged |
| `EarningsHook.UpdateReplacesAmounts` | src/hooks/useEarnings.ts:67-82 | When the store applies the update as sent, today's entries hold exactly the new amounts, not a sum with the old ones |
| `EarningsHook.AddErrorKeeps` | src/hooks/useEarnings.ts:63-105 | Another insert error, or an update error, leaves the list unchanged |
| `EarningsHook.UpdateTwiceLastWins` | src/hooks/useEarnings.ts:80-82 | Two updates of the same day equal the second alone |
| `EarningsHook.RemoveIdAppend` | src/hooks/useEarnings.ts:118 | Removal preserves order: removing from `a + b` removes from each part |
| `EarningsHook.RemoveIdCount` | src/hooks/useEarnings.ts:118 | Removal drops exactly the entries with the id and leaves none of them |
| `EarningsHook.RemoveAbsentId` | src/hooks/useEarnings.ts:118 | Removing an id that is not present changes nothing |
| `EarningsHook.DeleteIdempotent` | src/hooks/useEarnings.ts:108-118 | A second delete of the same id, whatever the store answers, leaves the list as after the first |
| `EarningsHook.DeleteErrorKeeps` | src/hooks/useEarnings.ts:116-130 | A failed delete leaves the list unchanged |
| `EarningsHook.EarningsStore.constructor` | src/hooks/useEarnings.ts:17-18 | The list starts empty and loading |
| `EarningsHook.EarningsStore.FetchEarnings` | src/hooks/useEarnings.ts:21-46 | The list becomes the fetch result (or stays, on error) and loading is over in both cases |
| `EarningsHook.EarningsStore.AddEarning` | src/hooks/useEarnings.ts:48-106 | The insert and the update both ask for today's date. The new list follows from the replies as above, and the outcome tells saved, updated or failed |
| `EarningsHook.EarningsStore.DeleteEarning` | src/hooks/useEarnings.ts:108-131 | The list loses the entries with the id when the store reports success, and is unchanged otherwise |
| `MonthlyTargetsHook.Compare` | src/hooks/useMonthlyTargets.ts:59 | The comparator is negative exactly for a later (year, month), 0 exactly for the same one, positive exactly for an earlier one |
| `MonthlyTargetsHook.HasKey` | src/hooks/useMonthlyTargets.ts:58 | The filter's key test holds exactly when the comparator ties the entry with a target for that (month, year) |
| `MonthlyTargetsHook.CompareMeansOrder` | src/hooks/useMonthlyTargets.ts:59 | The comparator puts a later year first, then a later month; it ties only on the same (month, year) |
| `MonthlyTargetsHook.Insert` | src/hooks/useMonthlyTargets.ts:59 | Inserting one target adds exactly that target to the multiset of entries |
| `MonthlyTargetsHook.InsertSorted` | src/hooks/useMonthlyTargets.ts:59 | Insertion keeps a list in order |
| `MonthlyTargetsHook.Sort` | src/hooks/useMonthlyTargets.ts:59 | The sort returns a permutation of its input, in descending (year, month) order |
| `MonthlyTargetsHook.InsertOfKey` | src/hooks/useMonthlyTargets.ts:59 | Insertion puts the new target before the entries that tie with it and keeps their order |
| `MonthlyTargetsHook.SortStable` | src/hooks/useMonthlyTargets.ts:59 | The sort is stable: entries of the same (month, year) come out in the order they went in |
| `MonthlyTargetsHook.SortKeepsSorted` | src/hooks/useMonthlyTargets.ts:59 | The sort leaves a list that is already in order unchanged |
| `MonthlyTargetsHook.WithoutKey` | src/hooks/useMonthlyTargets.ts:58 | The `filter` keeps exactly the entries of other (month, year) keys |
| `MonthlyTargetsHook.WithoutKeyCounts` | src/hooks/useMonthlyTargets.ts:58 | The filter drops all entries of the key and no entry of another key |
| `MonthlyTargetsHook.WithoutKeySorted` | src/hooks/useMonthlyTargets.ts:58 | The filter keeps a list in order |
| `MonthlyTargetsHook.AfterSetTarget` | src/hooks/useMonthlyTargets.ts:55-60 | On success the list is sorted and, as a multiset, is the old list less its entries of the key plus the returned row; on error it is the old list |
| `MonthlyTargetsHook.SplitByKey` | src/hooks/useMonthlyTargets.ts:58 | The entries of a key and the filtered list together are the whole list |
| `MonthlyTargetsHook.SetTargetSortedPermutation` | src/hooks/useMonthlyTargets.ts:57-59 | The new list is sorted and a permutation of `[row] + filtered` |
| `MonthlyTargetsHook.SetTargetLength` | src/hooks/useMonthlyTargets.ts:58-59 | New length = old length - entries with the key + 1 |
| `MonthlyTargetsHook.SetTargetSingleEntry` | src/hooks/useMonthlyTargets.ts:57-59 | When the returned row has the requested key, it is the one and only entry for that key |
| `MonthlyTargetsHook.SetTargetKeepsOthers` | src/hooks/useMonthlyTargets.ts:58 | Every entry of another key keeps its multiplicity |
| `MonthlyTargetsHook.SetTargetUniqueKeys` | src/hooks/useMonthlyTargets.ts:57-59 | One target per (month, year) before implies one target per (month, year) after |
| `MonthlyTargetsHook.SetTargetOnSortedList` | src/hooks/useMonthlyTargets.ts:57-59 | On an ordered list, the re-sort only inserts the returned row into the filtered list |
| `MonthlyTargetsHook.SetTargetErrorKeeps` | src/hooks/useMonthlyTargets.ts:55-73 | On error the targets list is unchanged |
| `MonthlyTargetsHook.TargetsStore.constructor` | src/hooks/useMonthlyTargets.ts:16-17 | The list starts empty and loading |
| `MonthlyTargetsHook.TargetsStore.FetchTargets` | src/hooks/useMonthlyTargets.ts:20-40 | The list becomes the fetch result (or stays, on error) and loading is over in both cases |
| `MonthlyTargetsHook.TargetsStore.SetTarget` | src/hooks/useMonthlyTargets.ts:42-74 | The upsert asks for the given month, year and amount. On success the list is sorted with the length above, holds the returned row as the single entry of its key, and keeps keys unique. On error it is unchanged |

## Left out

- Store I/O is left out: the Supabase queries, `toast` notices, `console` logging, React state and effects, and async ordering. Store replies are parameters. The store's own rules are not modelled, such as its unique keys, the conflict target of the targets upsert, or the `updated_at` it writes.
- Date handling is left out: the `date-fns` calls, time zones, and string dates. `addEarning` takes today's UTC date (`toISOString`), while the page parses earning dates with `new Date(...)` and builds its window in local time. Both are reduced to one integer day number.
- Floating point is left out: money is `real`, and `toFixed(2)` display rounding and `parseFloat` input parsing are not modelled.
- Text formatting is left out: the breakdown's `displayDate` and the history record's `period_label` (`format(...)`).
- The rows' `created_at`/`updated_at` timestamps are not modelled.
- The caller of `addEarning` (`src/components/EarningsManager.tsx`) passes a third, selected-date argument. The hook's signature has no such parameter, so the model's `AddEarning` takes none; `today` stands for the clock.
- The monthly target card is left out. `getCurrentTarget`, called by the page, is not among what `useMonthlyTargets` returns, so no target lookup or progress figure is modelled.
- The page offers "Save to History" only for the current week (offset 0) with settings present (src/pages/WeeklySummary.tsx:228). `SaveToHistory` is modelled on any week's data. As the code reads, the page calls `getCurrentTarget()` on every render (src/pages/WeeklySummary.tsx:67), but the hook returns no such member (src/hooks/useMonthlyTargets.ts:80-85). That call would throw a `TypeError` before anything is shown, so the save button could never be reached. The model keeps `SaveToHistory` as the handler is written. The `saveSummary` call, and the history list it updates, are not part of this model.
- `src/hooks/useSettings.ts`, `src/hooks/useHistoricalSummaries.ts`, and the UI components and pages other than the weekly summary are not part of this model.
- The `loading` flags of the two hooks are modelled. Neither `addEarning`/`deleteEarning` nor `setTarget` touches them, and the methods' frames say so.
