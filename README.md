# Expense tracker core in Dafny

This project models the core of an offline-first expense-tracking web
application (a Next.js progressive web app) and proves properties of the
model. Expenses, categories and subcategories live in an IndexedDB store
on the device. A sync engine downloads the server's data once and then
pushes locally created or edited expenses to the backend. React hooks sit
on top of the store and the engine. Read-side analytics group fetched
expenses by category and by week and compute summary figures. An
add-expense form validates its input.

The Dafny modules follow the source files:

- `Sync` (sync_engine.dfy) models lib/sync/engine.ts. The engine is a class over the store, the last-sync slot and a log of backend requests. `bootstrap` and `pushChanges` are methods proved against the functions `BootstrapRun` and `PushResult`.
- `LocalDb` (local_store.dfy) models the three tables declared in lib/db/client.ts and the store operations the hooks and the engine use. Primary-key order is the enumeration order. The expenses table has an auto-increment key.
- `ExpensesHooks`, `ReferenceHooks` and `SyncHooks` model hooks/use-expenses.ts, hooks/use-reference-data.ts and hooks/use-sync.ts. Each hook is a class whose fields are its React state.
- `CategoryBreakdowns`, `WeeklySpendings`, `SummaryStatistics` and `DateUtils` model the four files under lib/api/analytics/. The backend query results are inputs, and the grouping loops are methods proved against functions.
- `Tallies` (tally.dfy) holds the shared "add to a dictionary entry, creating it at 0" loop used by both groupings.
- `CategoryColors`, `PaymentTypes` and `ExpensePriorities` model the constant tables under lib/constants/.
- `AddExpenseForm` models app/add/page.tsx: the category table, `Number.parseFloat` as far as the validator needs it, the validator and a page class holding the form state.
- `Wrappers`, `Seqs`, `Strings`, `Calendar` and `Records` are supporting modules:
  - option, result and outcome types;
  - sums, filters and a stable sort by key;
  - digit and hex strings;
  - Gregorian dates, day numbers and `YYYY-MM-DD`;
  - the record types of lib/types/database.types.ts and lib/sync/types.ts.

Amounts are integers in minor units. So `toFixed(2)` on a sum is the identity, and on a ratio it is a rounding to whole minor units. The backend is modelled as follows:

- For bootstrap, it supplies the answers of three `select("*")` queries (data and error).
- For the push, it is a function from (request number, request) to the reply.
- Every request the engine sends is logged in `requests`, so the number and kind of backend calls can be stated.

The model follows the code as written:

- Bootstrap writes downloaded expenses with `synced: 1`, not `true`. The model keeps this as a third flag value, `FromServer`. Such a record is still never pending, because the push filters on `synced === false`.
- A bootstrap that fails after writing some categories is never retried: the guard on an empty categories table makes every later bootstrap a no-op, so the subcategories and expenses it missed stay missing.
- An empty categories answer without an error writes no category, so the emptiness guard never closes: every later bootstrap downloads all expenses again and stores them under fresh keys.
- `addExpense` calls `add`, not `put`. A new record always gets a fresh auto-increment key.
- There is no month-to-date accessor and no schema-conflict recovery in the code. Neither is modelled.

## Model

| member | source | states |
|---|---|---|
| Sync.SyncEngine.GetLastSyncTime | lib/sync/engine.ts:8-11 | returns what the last-sync slot holds (absent before any write) |
| Sync.SyncEngine.SetLastSyncTime | lib/sync/engine.ts:13-16 | the slot holds exactly the given ISO string afterwards, so a following read returns it |
| Sync.SyncEngine.Bootstrap | lib/sync/engine.ts:18-68 | the store, the request log, the outcome and the slot are exactly those of `BootstrapRun` on the old tables |
| Sync.BootstrapStages | lib/sync/engine.ts:24-66 | bootstrap issues at most the three selects, in the order categories, subcategories, expenses. A non-empty categories table makes it a no-op: no request, no write, no stamp. On an empty categories table, a failed categories select fails the run with its error after one request and leaves the store untouched. A failed subcategories select, after a successful categories select, fails the run with its error after two requests and leaves subcategories and expenses untouched. A failed expenses select, after the other two succeed, fails the run with its error after three requests. When all three succeed the run passes and stamps `now`. What a step wrote before a later step failed stays written: after a failed subcategories select the categories table is the downloaded one, and after a failed expenses select the subcategories table is too. Any failure leaves the expenses table and the counter as they were. The stamp is written exactly when the categories table was empty and the run passed |
| Sync.PartialBootstrapBlocksRetry | lib/sync/engine.ts:24-66 | a bootstrap that writes at least one category and then fails on the subcategories or expenses select leaves categories in the store, no stamp and the expenses table as it was. Every later bootstrap, whatever the backend answers, then issues no request and changes nothing, so the missing subcategories and expenses are never downloaded |
| Sync.EmptyCategoriesRedownload | lib/sync/engine.ts:24-61 | when the server answers an empty categories list without an error, the categories table stays empty and the run is stamped. A second bootstrap with the same answers issues all three selects again and leaves twice the downloaded expenses beside the old ones |
| Sync.SubCategoriesStageFacts | lib/sync/engine.ts:39-67 | the steps after the categories download issue the subcategories select and then at most the expenses select, and keep the categories table. A failed subcategories select fails the run with its error after one request and changes nothing. A failed expenses select after a successful subcategories select fails the run with its error after two requests. When both succeed the run passes and stamps `now`, and a stamp is written exactly when the run passes. A successful subcategories select writes the downloaded subcategories |
| Sync.BootstrapDownloads | lib/sync/engine.ts:49-64 | after a successful bootstrap, the downloaded expenses sit under fresh consecutive local keys. They keep their server `id` and payload, are flagged `FromServer`, and existing records are untouched |
| Sync.LoadExpensesFacts | lib/sync/engine.ts:52-64 | loading the expenses answer puts each server row under a fresh local key, flagged as from the server |
| Sync.BootstrapWellFormed | lib/sync/engine.ts:31-64 | bootstrap keeps every table keyed by its own id and the auto-increment counter above every expense key |
| Sync.PutAllFacts | lib/sync/engine.ts:33-36 | writing rows with `put` gives the old keys plus the row keys. Each key holds the last row written under it, and other keys keep their records |
| Sync.DownloadsFacts | lib/sync/engine.ts:54-62 | the expenses loop assigns keys `start .. start+n-1`, one per server row in order, each flagged `FromServer` |
| Sync.SyncEngine.BootstrapSubCategories | lib/sync/engine.ts:39-67 | from the subcategories select on, the store, log, outcome and slot are those of `SubCategoriesStage`: a failed select stops the bootstrap with its error after one request |
| Sync.SyncEngine.BootstrapExpenses | lib/sync/engine.ts:48-67 | from the expenses select on, the store, log, outcome and slot are those of `ExpensesStage`: a failed select stops with its error and no stamp; otherwise the downloads are stored and the slot takes `now` |
| Sync.SyncEngine.PushChanges | lib/sync/engine.ts:70-120 | a failed read raises its error and changes nothing. Otherwise the expenses table becomes `PushResult` of the old table and the log gains exactly `PushRequests` of the pending records; categories, subcategories and the counter are unchanged |
| Sync.SyncEngine.PendingRecords | lib/sync/engine.ts:76-77 | the pending list is `PendingOf` the current expenses table |
| Sync.PendingFacts | lib/sync/engine.ts:76-77 | every pending record is a stored record with `synced === false`, listed in ascending local-key order |
| Sync.PendingComplete | lib/sync/engine.ts:77 | every stored record with `synced === false` is in the pending list |
| Sync.NoPendingRecords | lib/sync/engine.ts:77-81 | with no record flagged false the pending list is empty, so the push sends no request |
| Sync.PushRequestsFacts | lib/sync/engine.ts:85-109 | exactly one request per pending record, in order: an UPDATE on its server id when it has one, an INSERT otherwise, both carrying only the payload (no local id, flag or id) |
| Sync.SyncEngine.PushOne | lib/sync/engine.ts:85-118 | one pending record sends its one request and is written back from the reply; no key is added or removed |
| Sync.SyncEngine.HandleReply | lib/sync/engine.ts:96-117 | the table after a reply is `WriteBack` of the old one: only that record may change |
| Sync.ReplyOutcome | lib/sync/engine.ts:96-117 | an accepted update sets only `synced` to true. An accepted insert with a returned id also sets `id`. A rejection, or an insert answered without data, leaves the record unchanged and still pending. Local key and payload never change |
| Sync.PushFromFacts | lib/sync/engine.ts:85-119 | the loop keeps the key set. Each pending record ends as its own reply made it, records not in the list are unchanged, and a failure does not stop the loop |
| Sync.PushPassEffect | lib/sync/engine.ts:70-120 | after a pass, non-pending records are unchanged and each pending record is rewritten from its own reply |
| Sync.AllAcceptedLeavesNothingPending | lib/sync/engine.ts:85-119 | when the backend accepts everything, nothing is pending afterwards |
| Sync.RejectedPassChangesNothing | lib/sync/engine.ts:100-102 | when the backend rejects everything, the table is unchanged |
| Sync.RetryThenSync | lib/sync/engine.ts:104-117 | a pending insert that fails once and then succeeds ends synced with a server id, with the same payload and local key, and nothing left pending |
| Sync.SyncEngine.StoreCategories | lib/sync/engine.ts:33-36 | the categories loop `put`s every downloaded row, last write winning; other tables and the counter are unchanged |
| Sync.SyncEngine.StoreSubCategories | lib/sync/engine.ts:42-45 | the subcategories loop `put`s every downloaded row; other tables and the counter are unchanged |
| Sync.SyncEngine.StoreDownloads | lib/sync/engine.ts:54-62 | the expenses loop adds exactly `Downloads` of the rows above the old counter and advances the counter by their number |
| Sync.SyncEngine.PushPending | lib/sync/engine.ts:85-119 | the push loop over a pending list leaves the table as `PushFrom` and appends one request per record, in order |
| Sync.SyncEngine.constructor | lib/sync/engine.ts:5-7 | a new engine is over the given store and slot and has sent no request |
| LocalDb.LocalStore.constructor | lib/db/client.ts:19-23 | a new store has three empty tables and its auto-increment counter at 1 |
| LocalDb.LocalStore.GetAllExpenses | lib/db/client.ts:22 | `getAll` on expenses returns the records in ascending local-key order |
| LocalDb.ChangeBus.Emit | hooks/use-expenses.ts:48 | each change notification is counted once |
| LocalDb.LocalStore.AddExpense | lib/db/client.ts:22 | the auto-increment key is fresh, the record is stored under it with that key, and the counter advances by one |
| LocalDb.LocalStore.PutExpense | lib/db/client.ts:22 | `put` replaces the record under its key and raises the counter above an explicit key |
| LocalDb.LocalStore.DeleteExpense | lib/db/client.ts:22 | removes exactly that key; nothing else changes |
| LocalDb.LocalStore.PutCategory | lib/db/client.ts:20 | the category is stored under its id; other tables unchanged |
| LocalDb.LocalStore.PutSubCategory | lib/db/client.ts:21 | the subcategory is stored under its id; other tables unchanged |
| LocalDb.LocalStore.GetAllCategories | lib/db/client.ts:20 | `getAll` returns the records in ascending primary-key order |
| LocalDb.LocalStore.GetSubCategoriesOf | lib/db/client.ts:21 | the index lookup returns, in key order, exactly the subcategories with that `category_id` |
| LocalDb.LocalStore.CountCategories | lib/db/client.ts:20 | the count is the number of stored categories |
| ExpensesHooks.ExpensesHook.FetchExpenses | hooks/use-expenses.ts:12-28 | loading ends. On a successful read the list is `RecentExpenses` of the table; a missing store or a failed read keeps the old list |
| ExpensesHooks.RecentExpensesFacts | hooks/use-expenses.ts:19 | the recent list has min(10, n) records, newest `expense_date` first, each a stored record |
| ExpensesHooks.RecentOmitsOnlyOlder | hooks/use-expenses.ts:19 | a stored record left out of the recent list is older than every record in it |
| ExpensesHooks.NewestRowsFacts | hooks/use-expenses.ts:19 | ordering by date and reversing gives a newest-first permutation of the whole table |
| ExpensesHooks.NewerThanOrder | hooks/use-expenses.ts:19 | the ordering (date, then local key, descending) is a strict total order on records with distinct keys |
| ExpensesHooks.ExpensesHook.AddExpense | hooks/use-expenses.ts:36-49 | without a store it fails with "Database not ready" and emits nothing. Otherwise it stores the record unsynced, both timestamps set to `now`, under a fresh key, and emits one change notification |
| ExpensesHooks.NewExpenseIsPushedAsInsert | hooks/use-expenses.ts:40-45 | a newly added expense is pending and the next push sends it as an INSERT of its payload |
| ExpensesHooks.ExpensesHook.DeleteExpense | hooks/use-expenses.ts:52-59 | an absent or zero id does nothing. Otherwise exactly that record is removed and one notification is emitted |
| ReferenceHooks.CategoriesHook.FetchCategories | hooks/use-reference-data.ts:12-28 | loading ends. On success the list is the stored categories sorted by `sort_order`; otherwise the old list stays |
| ReferenceHooks.SortedCategoriesPermutation | hooks/use-reference-data.ts:18-20 | the sorted list holds every stored category exactly once and nothing else |
| ReferenceHooks.SortedCategoriesOrder | hooks/use-reference-data.ts:20 | ascending `sort_order` (absent as 0), and ties keep the `getAll` order, i.e. ascending id |
| ReferenceHooks.SubCategoriesHook.SelectCategory | hooks/use-reference-data.ts:45-80 | an absent or zero id clears the list without loading. Any other id loads that category's subcategories sorted |
| ReferenceHooks.SubCategoriesHook.OnStoreChanged | hooks/use-reference-data.ts:76-78 | a change notification refetches only while a category is selected |
| ReferenceHooks.SubCategoriesHook.FetchSub | hooks/use-reference-data.ts:55-71 | loading ends. On success the list is `SubCategoriesOf` the table for that category; otherwise the old list stays |
| ReferenceHooks.SubCategoriesOfMembers | hooks/use-reference-data.ts:61-63 | the list is a permutation of the index lookup: every stored subcategory of that category, in it and nothing else |
| ReferenceHooks.SubCategoriesOfOrder | hooks/use-reference-data.ts:63 | ascending `sort_order`, ties in ascending id |
| SyncHooks.ErrorMessage | hooks/use-sync.ts:39 | an `Error` keeps its own message; any other thrown value gets the fallback text |
| SyncHooks.SyncHook.RefreshLastSync | hooks/use-sync.ts:10-13 | the hook's `lastSyncTime` becomes the engine's slot |
| SyncHooks.SyncHook.Sync | hooks/use-sync.ts:19-43 | while syncing it does nothing. A failed push sets the error ("Sync failed" for non-`Error` values) without refresh or notification. A successful push clears the error, refreshes the time and emits once. `isSyncing` is back to its old value in every case |
| SyncHooks.SyncHook.Bootstrap | hooks/use-sync.ts:45-58 | while syncing it does nothing. Otherwise it runs the engine's bootstrap; on success it refreshes and emits, on failure it sets the error ("Bootstrap failed" fallback). It does not clear an earlier error |
| Tallies.TallyEntries | lib/api/analytics/category-breakdown.ts:53-59 | the `forEach` loop builds exactly `TallyOf` the entries |
| Tallies.TallyKeys | lib/api/analytics/category-breakdown.ts:55-57 | a key has a total exactly when some entry carries it |
| Tallies.TallyTotals | lib/api/analytics/category-breakdown.ts:58 | each total is the sum of the amounts of that key's entries |
| Tallies.TallyOrder | lib/api/analytics/weekly-spending.ts:48-50 | the insertion order lists each key once, exactly the keys with totals |
| Tallies.TallySum | lib/api/analytics/category-breakdown.ts:62 | the totals add up to the sum of all entry amounts |
| Tallies.TotalForBounds | lib/api/analytics/category-breakdown.ts:62 | with non-negative amounts, each total lies between 0 and the grand total |
| CategoryBreakdowns.GetCategoryBreakdown | lib/api/analytics/category-breakdown.ts:22-96 | the method returns `BreakdownOf` the two query answers |
| CategoryBreakdowns.BreakdownErrors | lib/api/analytics/category-breakdown.ts:34-50 | a categories error throws "Failed to fetch categories: msg". Otherwise an expenses error throws "Failed to fetch category breakdown: msg". With both queries fine and a category list, the result is a value |
| CategoryBreakdowns.BreakdownKeysFacts | lib/api/analytics/category-breakdown.ts:53-65 | one entry per distinct `category_id` present in the rows, in the order `Object.entries` gives integer keys: ids 0..4294967294 ascending first, then every other id in the order it first occurs in the rows |
| CategoryBreakdowns.BreakdownAmounts | lib/api/analytics/category-breakdown.ts:53-91 | each entry's amount is the sum for its category; its label is the description or "Unknown"; its fill follows the colour rule for its code. The amounts add up to the rows' total |
| CategoryBreakdowns.BreakdownPercentages | lib/api/analytics/category-breakdown.ts:62-70 | with non-negative amounts every percentage is between 0 and 100 |
| CategoryBreakdowns.FindCategory | lib/api/analytics/category-breakdown.ts:67 | a found category is in the list with that id; nothing is found exactly when no category has that id |
| CategoryBreakdowns.PercentageNearest | lib/api/analytics/category-breakdown.ts:70 | `Math.round(amount/total*100)`: the result is the nearest integer to 100·amount/total, halves rounded up |
| CategoryBreakdowns.PercentageRange | lib/api/analytics/category-breakdown.ts:70 | 0 when the total is not positive; within 0..100 for a share of a positive total |
| CategoryBreakdowns.FillRule | lib/api/analytics/category-breakdown.ts:75-83 | a palette code keeps its palette colour (Food included); any other code gets the hash colour of its text |
| CategoryBreakdowns.UnknownCategory | lib/api/analytics/category-breakdown.ts:67-69 | an id missing from the category list is shown as "Unknown" with the colour of "Other" |
| CategoryBreakdowns.GenerateColorFromText | lib/api/analytics/category-breakdown.ts:102-116 | the hash loop, where only the shift `hash << 5` wraps to 32 bits, computes `ColorFromText`: the hash agrees with the Java-style 31-hash of the text modulo 2^32, and the colour is taken from its low 24 bits |
| CategoryBreakdowns.HashStep | lib/api/analytics/category-breakdown.ts:106 | `c + ((h << 5) - h)` is `31·h + c` modulo 2^32 |
| CategoryBreakdowns.Int32 | lib/api/analytics/category-breakdown.ts:106 | `ToInt32` yields a signed 32-bit value congruent to its input |
| CategoryBreakdowns.HashBytesLow24 | lib/api/analytics/category-breakdown.ts:110-112 | the three bytes r, g, b are the low 24 bits of the hash |
| CategoryBreakdowns.HexColorFacts | lib/api/analytics/category-breakdown.ts:115 | the colour is '#' plus six hex digits that read back as r, g, b |
| Strings.HexByteRoundTrip | lib/api/analytics/category-breakdown.ts:116 | `('0' + x.toString(16)).substr(-2)` of a byte is two hex digits that read back as the byte |
| WeeklySpendings.GetWeeklySpending | lib/api/analytics/weekly-spending.ts:19-68 | the method returns `WeeklyOf` the query answer |
| WeeklySpendings.WeeklyError | lib/api/analytics/weekly-spending.ts:35-38 | the call throws exactly when the query reports an error, with "Failed to fetch weekly spending: msg" |
| WeeklySpendings.WeekNumberFacts | lib/api/analytics/weekly-spending.ts:74-82 | the week is at least 1; a date d days after the start is in week d/7+1; dates before the start are in week 1 |
| WeeklySpendings.WeekNumberMonotone | lib/api/analytics/weekly-spending.ts:74-82 | a later date never gets an earlier week |
| WeeklySpendings.WeekLabelRoundTrip | lib/api/analytics/weekly-spending.ts:46 | reading a "Week N" label back gives N, so distinct weeks get distinct labels |
| WeeklySpendings.WeekKeysAreLabels | lib/api/analytics/weekly-spending.ts:43-52 | every bucket key is the label of its own week number |
| WeeklySpendings.WeeklyWeeks | lib/api/analytics/weekly-spending.ts:43-52 | there is a bucket for week n exactly when some row falls in week n |
| WeeklySpendings.WeeklyAmounts | lib/api/analytics/weekly-spending.ts:41-57 | one row per bucket, each with the sum of its rows' amounts; together they add up to all rows' amounts |
| WeeklySpendings.WeeklySorted | lib/api/analytics/weekly-spending.ts:58-63 | the list is in strictly increasing week number |
| WeeklySpendings.BucketContents | lib/api/analytics/weekly-spending.ts:55-63 | sorting the buckets keeps each one with its total and keeps their sum |
| WeeklySpendings.BucketOrder | lib/api/analytics/weekly-spending.ts:58-63 | buckets labelled by distinct week numbers sort into strictly increasing weeks |
| SummaryStatistics.TotalSpent | lib/api/analytics/summary-stats.ts:30 | an empty breakdown totals 0 |
| SummaryStatistics.TotalOfBreakdown | lib/api/analytics/summary-stats.ts:30 | the total of a category breakdown equals the sum of the amounts of the expenses it was built from |
| SummaryStatistics.DaysDiffFacts | lib/api/analytics/summary-stats.ts:33-35 | the day count is at least 1, the same with start and end swapped, and 1 exactly when start = end |
| SummaryStatistics.DaysDiffOfMonth | lib/api/analytics/summary-stats.ts:33-35 | from a month's first to its last day the count is the month's length |
| SummaryStatistics.AvgPerDayNearest | lib/api/analytics/summary-stats.ts:37-46 | the average in minor units is within half a unit of total/days |
| SummaryStatistics.AvgPerDaySymmetric | lib/api/analytics/summary-stats.ts:46 | rounding is symmetric in sign, and one day gives the total itself |
| SummaryStatistics.ReduceLargerIsLastLargest | lib/api/analytics/summary-stats.ts:41 | the `reduce` picks an element of maximal amount, and no later element ties with it (the later one wins ties) |
| SummaryStatistics.LargestFacts | lib/api/analytics/summary-stats.ts:40-42 | an empty breakdown gives {"N/A", 0, 0}; otherwise the last element with the largest amount, all its fields kept |
| SummaryStatistics.SummaryStatsFacts | lib/api/analytics/summary-stats.ts:23-48 | the three figures together: the sum of amounts, an average within half a minor unit of total/days with days at least 1, and the largest category |
| DateUtils.PeriodsRecognised | lib/api/analytics/date-utils.ts:10-43 | exactly the three named periods give a range; any other throws "Invalid period: " plus the period |
| DateUtils.CurrentMonth | lib/api/analytics/date-utils.ts:14-21 | "current-month" runs from the 1st to the last day of today's month |
| DateUtils.PreviousMonth | lib/api/analytics/date-utils.ts:23-30 | "previous-month" covers the whole month before, January wrapping to December of the previous year |
| DateUtils.SixMonths | lib/api/analytics/date-utils.ts:32-39 | "six-months" starts on the 1st five months back (in the previous year from January to May) and ends on the last day of this month: six calendar months |
| DateUtils.SpanShape | lib/api/analytics/date-utils.ts:15-37 | every range starts on the 1st, ends on the month's last day (Gregorian leap rule, via day 0 of the next month), and starts before it ends |
| DateUtils.DateRangeStrings | lib/api/analytics/date-utils.ts:18-37 | for years 1..9999 both ends are `YYYY-MM-DD`, the start ends in "01", and the start sorts before the end as text |
| Calendar.DayZeroIsMonthEnd | lib/api/analytics/date-utils.ts:16 | `new Date(y, m, 0)` is the last day of the month before m |
| Calendar.FormatParseRoundTrip | lib/api/analytics/date-utils.ts:18 | an ISO date string reads back as the date it was formatted from |
| Calendar.ParseFormatRoundTrip | lib/api/analytics/date-utils.ts:18-19 | every string that parses as `YYYY-MM-DD` is the formatting of the date it names, so formatting and parsing are inverse in both directions |
| Calendar.FormatOrder | lib/api/analytics/date-utils.ts:18 | ISO strings compare as text exactly as their dates compare in time |
| CategoryColors.GetCategoryColor | lib/constants/category-colors.ts:80-82 | a palette name gets its own entry; any other name gets Food's |
| CategoryColors.GetCategoryHexColor | lib/constants/category-colors.ts:89-91 | the hex is the fill of `getCategoryColor` |
| CategoryColors.GetCategories | lib/constants/category-colors.ts:97-99 | the eight palette names, each once, in declaration order: Food, Transport, Housing, Entertainment, Health, Shopping, Bills, Other |
| CategoryColors.FillsDistinct | lib/constants/category-colors.ts:32-73 | different palette names have different fills |
| CategoryColors.FoodFillExactly | lib/constants/category-colors.ts:32-82 | the hex is `#f97316` exactly for "Food" and for unknown names |
| PaymentTypes.AllPaymentTypes | lib/constants/payment-type.ts:2-20 | all five payment types, each once, in declaration order: upi, credit_card, debit_card, bank_transfer, cash |
| PaymentTypes.CodesAndLabelsDistinct | lib/constants/payment-type.ts:2-17 | codes are pairwise distinct, labels are pairwise distinct, and every code maps back to its value |
| PaymentTypes.FromCode | lib/constants/payment-type.ts:2-8 | a string reads as the payment type with that code, or as nothing when no code matches |
| ExpensePriorities.AllPriorities | lib/constants/expense-priority.ts:2-20 | all five priorities, each once, in declaration order: need, want, unwanted, planned, capex |
| ExpensePriorities.CodesAndLabelsDistinct | lib/constants/expense-priority.ts:2-17 | codes are pairwise distinct, labels are pairwise distinct, and every code maps back to its value |
| ExpensePriorities.FromCode | lib/constants/expense-priority.ts:2-8 | a string reads as the priority with that code, or as nothing when no code matches |
| AddExpenseForm.CategoriesDataFacts | app/add/page.tsx:16-49 | eight categories, labelled by their own keys, keys distinct, each with at least one non-empty subcategory |
| AddExpenseForm.LookupCategory | app/add/page.tsx:69 | a lookup finds the entry with that key, or nothing exactly when no key matches |
| AddExpenseForm.FirstSubcategoryFacts | app/add/page.tsx:69-107 | a known category offers its own subcategories and starts at the first of them; an unknown one offers none and gives "" |
| AddExpenseForm.DefaultsConsistent | app/add/page.tsx:61-67 | the default subcategory Groceries is the first subcategory of the default category Food |
| AddExpenseForm.ParseFloatDigits | app/add/page.tsx:74 | a string of digits parses to its value, and it is at most 0 only when every digit is 0 |
| AddExpenseForm.ParseFloatNegative | app/add/page.tsx:74 | a minus sign before digits parses to a value of at most 0 |
| AddExpenseForm.ParseFloatNoDigits | app/add/page.tsx:74 | text without a leading number parses to `NaN`, which is not `<= 0` |
| AddExpenseForm.ErrorsOfFacts | app/add/page.tsx:71-88 | a field has an error exactly when its check fails, with its own non-empty message; the description never fails; the form is valid exactly when the map is empty |
| AddExpenseForm.AmountRule | app/add/page.tsx:74-76 | the amount fails exactly when it is empty or parses to at most 0; a digit string fails only when it is all zeros |
| AddExpenseForm.DefaultFormErrors | app/add/page.tsx:61-88 | a fresh form always fails on the amount, never on category or subcategory, and on the date exactly when today's string is empty |
| AddExpenseForm.AddExpensePage.ValidateForm | app/add/page.tsx:71-89 | replaces the whole error map with `ErrorsOf` the data, leaves the data alone, and returns true exactly when no check fails |
| AddExpenseForm.SetField | app/add/page.tsx:93-96 | the named field takes the value and every other field keeps its value |
| AddExpenseForm.ClearError | app/add/page.tsx:97-102 | that field's error goes and every other error stays as it was |
| AddExpenseForm.AddExpensePage.HandleInputChange | app/add/page.tsx:91-103 | only the named field changes, and only its error is cleared (when shown) |
| AddExpenseForm.WithCategory | app/add/page.tsx:105-113 | category and subcategory change to the new category and its first subcategory; amount, date and description stay |
| AddExpenseForm.CategoryChangeKeepsChoiceValid | app/add/page.tsx:205-211 | after a category change the subcategory is one the new category offers, or "" for a category outside the table |
| AddExpenseForm.AddExpensePage.HandleCategoryChange | app/add/page.tsx:105-113 | the form becomes `WithCategory` of the new value; errors unchanged |
| AddExpenseForm.AddExpensePage.HandleSubcategoryChange | app/add/page.tsx:234-240 | only the subcategory changes; errors unchanged |
| AddExpenseForm.DefaultForm | app/add/page.tsx:61-67 | the defaults: empty amount and description, today's date, Food with its first subcategory |
| AddExpenseForm.AddExpensePage.HandleSubmit | app/add/page.tsx:115-131 | an invalid form keeps its data and gets the new error map. A valid one resets to the defaults with no errors. It submits exactly when no check fails |
| AddExpenseForm.AddExpensePage.constructor | app/add/page.tsx:60-67 | the page starts with the default form and no errors |

## Left out

- Store API: lib/sync/engine.ts calls an idb-style API (`db.count`, `transaction(...).store.put`, `db.getAll`, `db.put`) on a store created with Dexie (lib/db/client.ts:5-27), which has none of these methods. hooks/use-reference-data.ts does the same with `db.getAll("categories")` (line 18) and `db.getAllFromIndex(...)` (line 61). As written, each of these two calls throws a `TypeError`, which the hook's `catch` (lines 23 and 66) logs, so the categories list and the subcategories list never load and keep their previous value. The model gives all these calls their intended meaning on the three tables. The failing path is the hooks' `readFails` case, which leaves the list unchanged as the program does.
- Index name: `getAllFromIndex("subcategories", "by-category", …)` names an index that lib/db/client.ts does not declare (it declares `category_id`). The model treats it as the intended filter by `category_id`.
- Server-side rendering: the `typeof window` guard of the last-sync slot. The slot is always available.
- Environment inputs: `localStorage`, the clock (`new Date()`) and the backend client become parameters. `now` is the engine's and hooks' ISO time, and `today` is the analytics date or the form's date string.
- Store failures: IndexedDB write failures are not modelled. A failing read is a parameter (`readFails`, `readError`) of the hook or engine call.
- React machinery: effects, listener registration and removal, and re-render batching are not modelled. The change bus counts notifications, and the hooks' handlers are methods.
- Concurrency: interleaving between `await` points, and the stale-closure `isSyncing` guard. Each `sync`, `bootstrap` and push step is an atomic sequential transition.
- Backend rows: the backend's filtering (date range, `deleted_at`, ordering) is assumed. Its rows and errors are inputs, and thrown values are `Thrown` (an `Error` with a message, or another value).
- Floating point: `parseFloat`, `toFixed(2)`, `Math.round` and `/` are integer arithmetic on minor units.
- Hash arithmetic: the double arithmetic in `generateColorFromText` is exact only while intermediate values stay below 2^53. The model assumes exact integer arithmetic before each 32-bit truncation, which holds for category codes of realistic length.
- Character codes: `charCodeAt` reads UTF-16 code units. The model reads one `char` per character, so characters outside the Basic Multilingual Plane count as one unit instead of two.
- Date strings: invalid date strings (giving `NaN` weeks or day counts) are not modelled. Dates arrive as valid calendar dates.
- Time zones: the `toISOString` UTC shift in lib/api/analytics/date-utils.ts is not modelled. Dates are local calendar dates, as if the device ran in UTC or west of it.
- DateUtils.DateRangeStrings: east of UTC, for instance at UTC+5:30 where the rupee amounts of app/add/page.tsx:161 place the users, local midnight of the 1st is still the previous day in UTC. There `toISOString` gives the last day of the previous month as the start, so "the start ends in 01" holds only for the range the code evidently means, not for the program run in such a zone.
- Records.ExpenseInsert: `priority` and `payment_type` are `string` in lib/types/database.types.ts:39-40. The model narrows them to the enumerations of lib/constants/, so a server row holding any other string cannot be represented.
- Year formats: years outside 0..9999 are formatted as `toISOString` would, with a sign and six digits. The ISO-shape lemmas are stated only for years 1..9999.
- ExpensesHooks.ExpensesHook.AddExpense: the two `new Date()` calls for `created_at` and `updated_at` share one `now` parameter.
- Listener wiring: the `useEffect` wiring of `fetchExpenses` and `fetchCategories` to the change event is not modelled. The handlers are the same methods.
- AddExpenseForm.ParseFloat: does not model exponents (`1e5`), underflow of tiny exponents to 0, or white space other than ASCII, no-break space and the byte-order mark. Only whether the value is `<= 0` matters to the validator.
- AddExpenseForm.ClearError: `[name]: undefined` leaves a key holding `undefined` in the source. The model removes the key, which is the same for every reader, since all of them test truthiness.
- Object prototype keys: keys such as `constructor` reaching `CATEGORIES_DATA[...]` or `CATEGORY_COLORS[...]` are not modelled. They are plain missing keys here.
- Add page: the page's rendering, the console log of the submitted expense and the navigation to `/` are not modelled. The add page never writes the expense to the store.
- Functions without code: `SyncEngine.syncCategories` and `syncSubcategories` are called elsewhere but defined nowhere in the code. A month-to-date total has no code either, so neither is modelled.
