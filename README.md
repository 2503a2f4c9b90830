# CashFlow Pro — a verified model of its ledger and planning core

CashFlow Pro is a personal-finance application: a Streamlit front end
(`app.py`) over a SQLite ledger (`db.py`) of accounts, categories,
transactions, recurring rules, planned transactions, goals, debts and
keyword rules. This project models, in Dafny, the data layer of `db.py`
and the planning and forecasting computations `app.py` runs on top of it,
and proves what those operations promise.

## How the system is represented

- **Tables** are sequences of datatype rows (`Ledger.Account`,
  `Ledger.Transaction`, `Ledger.PlannedTransaction`, ...). A query that only
  reads becomes a function over those sequences; an operation that writes
  (`add_tx`, `reconcile_tx`, `bulk_update_transactions`,
  `bulk_delete_transactions`, `settle_debt`, `add_goal`, `add_rule`) becomes
  a method of the class `Store.LedgerStore`, whose fields are the tables and
  whose invariant `Valid()` is the schema's key constraints
  (`Schema.TablesValid`: unique ids, unique account and category names,
  unique rule keywords, goals stored as costs) together with unique debt
  ids.
- **Dates** are calendar dates (`Dates.CalendarDate`) with Python's
  proleptic day number (`Dates.DayNumber`, the value of `toordinal`).
  `timedelta` is `Dates.AddDays`, `relativedelta(months=k)` is
  `Dates.AddMonths` (clamping the day to the end of the month). ISO date
  text compares like the dates it names for four-digit years, so SQL's
  text comparisons `tx_date < ?` and `BETWEEN` become date comparisons.
- **Date text** goes through `DateText.ParseDate`, a character-level model
  of `parse_date`: `strptime` with `%Y-%m-%d`, then `%d/%m/%Y`, including
  the regular expressions `strptime` compiles for `%Y`, `%m` and `%d`.
- **Amounts** are exact `real`s; pandas' `round` is round-half-to-even
  (`Numbers.RoundHalfEven`).
- **Loops stay loops.** Where the source loops and updates variables
  (collecting future events, expanding a recurring rule, grouping
  suggestions, the per-day planner curve, the goal scheduler, the monthly
  forecast, the cumulative balance, the expense roll-up), the model is a
  method with a `while` loop, proved against a specification function,
  and the properties are proved about that function as lemmas.
- **Today** (`date.today()`) is a parameter.

Behaviour modelled as the code has it, where a reader might expect otherwise:

- Goals are read with `ORDER BY amount ASC`; since goals are stored as
  negative costs, the planner places the most expensive goal first
  (`Ledger.LargestCostFirst`); the `priority` column plays no part.
- The reconciliation matcher's amount tolerance is a percentage of the
  imported amount, not of the planned one: a planned 100.00 matches an
  imported 116.00 at 15% (`Matching.ToleranceFollowsImportedAmount`).
- Future events never include booked transactions; a recurring occurrence
  is only suppressed when a transaction of the same category and a close
  amount is booked in its month (`Projection.BookedMonthIsSuppressed`).
- Monthly recurrences advance one month from the previous occurrence, so a
  rule starting on the 31st drifts to the 28th after February
  (`Projection.MonthlyStepsDrift`).
- `settle_debt` does not check the debt's status: settling twice books
  twice.
- The balance trend starts from the opening balance of standard accounts
  only but adds the transactions of every account in range, credit cards
  included (`Forecast.BalanceTrend`).
- `get_actual_expenses_by_year` compares `strftime('%Y')`, always four
  digits, with `str(year)`, so years below 1000 never match; and an account
  literally named "Tutti i conti" loses its entry to the roll-up of the same
  name (`Expenses.ActualExpensesByYear`).

## Model

| member | source | states |
|---|---|---|
| Numbers.RoundHalfEven | db.py:411-415 | the bucket is the integer nearest to the amount over the divisor, the even one on a tie |
| Numbers.RoundHalfEvenUnique | db.py:411-415 | any integer within one half of x that is even on a tie is the rounding of x (the rounding is unique) |
| Dates.NextDay | db.py:385 | the next day has the day number one greater |
| Dates.AddDays | db.py:513 | adding n days adds n to the day number |
| Dates.AddMonths | db.py:387 | adding k months lands k months later, on the same day or, when that month is shorter, on its last day |
| Dates.AddMonthsIsLater | db.py:387 | a positive month step moves strictly forward in time, so the recurrence loop advances |
| Dates.BeforeIsDayNumberOrder | db.py:378-379 | comparing dates field by field is the same as comparing their day numbers |
| Dates.DayNumberInjective | db.py:378-379 | two dates with the same day number are the same date |
| Dates.SameMonthIsSameIndex | db.py:380-381 | two dates share a `%Y-%m` month exactly when their month indices are equal |
| Dates.MonthIndexOrder | app.py:810-811 | a date in an earlier month is before a date in a later month |
| DateText.Build | db.py:106 | the three numbers yield a date exactly when the calendar has that day |
| DateText.ParseDate | db.py:103-109 | date and datetime values give their date, other non-text values give none, text is tried as `%Y-%m-%d` and then as `%d/%m/%Y` |
| DateText.ParseIsoFormat | db.py:106 | the ISO text of every date with a four-digit year parses back to that date |
| DateText.ParseDmyFormat | db.py:108 | the day/month/year text of every date with a four-digit year parses back to that date |
| DateText.UnpaddedIsAccepted | db.py:106-108 | `2024-1-5` and `5/1/2024` both parse to 5 January 2024 |
| DateText.NonexistentDayIsRejected | db.py:106-109 | 29 February of a common year is no date |
| DateText.DayOutOfRangeIsRejected | db.py:106-109 | a day 32 is no date |
| DateText.YearZeroIsRejected | db.py:106-109 | year 0000 is no date |
| DateText.TrailingTimeIsRejected | db.py:106-109 | text with a time after the date is no date |
| Text.Lower | db.py:406 | lower-casing keeps the length and maps every character, ASCII capitals to their small letters |
| Text.LowerIdempotent | db.py:421 | lower-casing twice is lower-casing once |
| Text.LowerHasNoUpper | db.py:505 | a lower-cased text has no ASCII capital letter |
| Text.Strip | db.py:406 | the result is the input with exactly its leading and trailing white space removed: a slice of the input, white space on both sides of it, and neither end of it white space |
| Text.StripOfTrimmed | db.py:445 | a text without surrounding white space is its own strip |
| Text.StripIdempotent | db.py:445 | stripping twice is stripping once |
| Text.UpperFirst | db.py:443 | only the first character changes, an ASCII small letter to its capital |
| Text.ContainsSelfAndEmpty | db.py:505 | every text contains itself and the empty keyword |
| Sorting.Insert | db.py:389 | inserting adds exactly the one element |
| Sorting.SortBy | db.py:389 | sorting is a permutation |
| Sorting.SortBySorted | db.py:389 | the result is ordered by the key |
| Sorting.SortByStable | db.py:389 | elements with equal keys keep their relative order (Python's `sorted` is stable) |
| Sorting.SortBySum | db.py:389 | sorting keeps every total |
| Ledger.NextId | db.py:126-127 | a new row's id is larger than every id in the table and one past the largest |
| Ledger.FirstIndex | db.py:117-119 | the index found is the first row that satisfies the test; none means no row does |
| Ledger.AccountNamed | db.py:154-155 | the account returned has the name; none means no account has it |
| Ledger.CategoryNamed | db.py:150-151 | the category returned has the name; none means no category has it |
| Ledger.AccountLookup | db.py:111-122 | `get_or_create` on accounts finds the account with the name or returns no row, never creates |
| Ledger.CategoryLookup | db.py:111-127 | on categories with a type: finds a row with name and type, creates one only when the name is free, and hits the UNIQUE(name) constraint when the name exists with another type; without a type a missing name fails the NOT NULL type column |
| Ledger.GetOrCreate | db.py:111-127 | any table other than accounts and categories is refused; accounts are never created |
| Ledger.GetOrCreateIdempotent | db.py:111-127 | a second call with the same arguments finds the row the first one found or created |
| Ledger.CategoryLookupKeepsKeys | db.py:21 | a lookup that creates a category keeps ids and names unique |
| Ledger.NewTransaction | db.py:130-137 | a row is inserted exactly when the account exists; it has the next id, the date, amount and description given, the account's id and the id of the category with the name, which is created as an expense only when the name is new |
| Ledger.Reassign | db.py:145-160 | listed rows get the new category and account where one was resolved; every other field and every other row is unchanged |
| Ledger.ReassignIdempotent | db.py:158-160 | applying the same bulk update twice is applying it once |
| Ledger.ReassignKeepsTotal | db.py:158-160 | a bulk update never changes the sum of amounts |
| Ledger.WithoutIds | db.py:165-173 | exactly the rows whose id is not listed remain |
| Ledger.WithoutIdsCount | db.py:172-173 | remaining rows plus listed rows make up the table (the rowcount returned is the number deleted) |
| Ledger.WithoutIdsIdempotent | db.py:170-173 | deleting the same ids again deletes nothing |
| Ledger.SettlementEntry | db.py:483 | a lent debt books its amount as "Restituzione Prestito", a borrowed one books its negation as "Pagamento Debito"; the size is the debt's |
| Ledger.MarkSettled | db.py:486 | the debt with the id becomes settled and no other row changes |
| Ledger.NewGoal | db.py:536-537 | a new goal is stored as a non-positive cost of the given size, pending, priority 1, with the next id |
| Ledger.GoalsWithStatus | db.py:539-540 | exactly the goals with the status are selected, each as many times as it is stored |
| Ledger.GetGoals | db.py:539-540 | a permutation of the goals with the status, ordered by stored amount ascending |
| Ledger.LargestCostFirst | db.py:539-540 | with costs stored as negatives, goals come out largest cost first |
| Ledger.NewGoalKeepsCosts | db.py:537 | adding a goal keeps every stored goal amount non-positive |
| Ledger.WithoutPlanned | db.py:531 | exactly the planned rows with another id remain |
| Ledger.WithoutPlannedKeepsIds | db.py:531 | deleting a planned row keeps ids unique |
| Ledger.WithoutIdsKeepsIds | db.py:171-172 | deleting transactions keeps ids unique |
| Rules.MatchingRule | db.py:502-506 | the rule found is a rule whose keyword occurs in the text, and no matching rule has a longer keyword; none means no keyword occurs |
| Rules.ApplyRules | db.py:500-508 | no description, or no keyword in its lower-case form, gives "Da categorizzare"; when one matching rule has the strictly longest keyword, the answer is the name of its category, or "Da categorizzare" when that category is gone; any other answer is the name of the category of a longest matching rule |
| Rules.ApplyRulesIgnoresCase | db.py:505 | the answer does not depend on the description's letter case |
| Rules.WithRule | db.py:491 | INSERT OR REPLACE removes the rule with the same lower-cased keyword and appends the new one with the next id |
| Rules.WithRuleKeepsKeywordsUnique | db.py:26 | adding a rule keeps keywords unique |
| Rules.WithRuleKeepsIds | db.py:26 | adding a rule keeps ids unique |
| Rules.AddedRuleApplies | db.py:491-505 | after adding a rule, a description containing its keyword matches a rule with a keyword at least as long |
| Rules.RuleCategoryAsWritten | db.py:490 | the lookup `add_rule` performs finds a category only when the name exists as an expense |
| Rules.RuleForNonExpenseCategoryFails | db.py:490 | for a name that exists as an income or transfer category, that lookup fails with a UNIQUE violation |
| Rules.RuleForSalaryFails | db.py:47 | the default income category "Stipendio" cannot receive a rule |
| Rules.RuleCategory | db.py:488-491 | the corrected lookup finds the category with the name whatever its type and creates an expense only for a new name |
| Rules.RuleCategoryKeepsKeys | db.py:21 | the corrected lookup keeps category ids and names unique |
| Rules.RuleCategoryAgrees | db.py:488-491 | wherever the code as written succeeds, the corrected lookup gives the same result |
| Matching.BestAmong | db.py:514-518 | the match is a candidate and no candidate is strictly closer in amount, or equally close and closer in date; none means no candidate |
| Matching.FindBestMatch | db.py:510-520 | an unparsable date gives no match; otherwise the match is a best candidate among the planned rows, and none means no candidate |
| Matching.CandidateMeansWithinTolerance | db.py:513-517 | a candidate is a still-planned row within the day window and within the percentage of the imported amount |
| Matching.ToleranceFollowsImportedAmount | db.py:514-515 | a planned 100.00 matches an imported 116.00 but not 86.00 at 15% |
| Matching.DayWindowIsInclusive | db.py:513 | a plan seven days away matches, eight days away does not |
| Matching.AmountRanksBeforeDate | db.py:517 | a closer amount wins over a closer date |
| Matching.ConsumedNeverMatches | db.py:517 | consumed plans are never matched |
| Balances.AmountBeforeNextDay | db.py:302-306 | the transactions before the next day are those before the day plus those on it |
| Balances.BalanceBeforeNextDay | db.py:295-307 | the balance before the next day is the balance before the day plus the day's standard-account transactions |
| Balances.BalanceBeforeDate | db.py:295-307 | before the first date the balance is the opening balance of the selected standard accounts; a name no standard account carries gives 0 |
| Balances.BalanceRow | db.py:225-232 | a standard account shows opening balance plus its transactions; a card owes its transactions and shows remaining credit exactly when it has a limit |
| Balances.AccountsWithBalance | db.py:219-238 | one row per account, each its balance row |
| Balances.LiquidityAndCards | db.py:317-320 | liquidity plus card balances is the standard opening balance plus every transaction booked to an account |
| Balances.OwnTotalsIsBooked | db.py:234-235 | with unique account ids, summing per account counts each booked transaction once |
| Balances.NetWorth | db.py:317-322 | with distinct account ids, net worth is standard opening balances plus all booked transactions minus outstanding borrowing |
| Balances.BookedTotalAppend | db.py:137 | booking a transaction to an existing account adds its amount to the booked total |
| Balances.OutstandingBorrowedSettled | db.py:321 | settling a debt removes it from outstanding borrowing exactly when it was borrowed and outstanding |
| Balances.SettlingDebtNetWorth | db.py:479-486 | settling an outstanding borrowed debt leaves net worth unchanged; settling a lent one raises it by the amount |
| Store.BulkTargets | db.py:149-156 | the new category and account ids are resolved only when a name is given and exists |
| Store.LedgerStore.AddTx | db.py:130-137 | a transaction is added exactly when the date parses and the account exists, as `NewTransaction` builds it; otherwise nothing changes; keys stay unique |
| Store.LedgerStore.ReconcileTx | db.py:522-534 | on success the transaction is added and the planned row deleted; on an unparsable date or unknown account nothing changes |
| Store.LedgerStore.BulkUpdateTransactions | db.py:145-160 | no ids or nothing resolved leaves the table unchanged; otherwise the listed rows are reassigned |
| Store.LedgerStore.BulkDeleteTransactions | db.py:165-173 | the listed rows are deleted and the count returned is the number deleted |
| Store.LedgerStore.SettleDebt | db.py:479-486 | an unknown debt or account changes nothing; otherwise the settlement entry is booked today and the debt marked settled |
| Store.LedgerStore.AddGoal | db.py:536-537 | the new goal is appended and goal costs stay stored as negatives |
| Store.LedgerStore.AddRule | db.py:488-491 | the category is resolved (corrected lookup) and the rule inserted or replaced; keys stay unique |
| Store.NewTransactionKeepsKeys | db.py:21-22 | inserting a transaction keeps every table's keys unique |
| Store.AddRuleKeepsKeys | db.py:21-26 | adding a rule keeps every table's keys unique |
| Projection.Step | db.py:385-388 | daily and weekly steps add 1 and 7 days, monthly moves to the next month, other intervals stop the loop; every step moves forward |
| Projection.CollectPlanned | db.py:361-367 | the planned events collected are the specification's planned events |
| Projection.ExpandRule | db.py:377-388 | the loop over one rule appends exactly that rule's occurrences |
| Projection.CollectRecurring | db.py:369-388 | the loop over the rules appends the occurrences of every rule on a selected standard account |
| Projection.GetFutureEvents | db.py:359-389 | the events returned are the specification's future events |
| Projection.PlannedEventsMembers | db.py:361-367 | a planned event is exactly a plan on a selected standard account dated within the range |
| Projection.RuleEventsFacts | db.py:378-384 | every occurrence is within the range, not before the rule's cursor, carries the rule's name and amount, and is not suppressed |
| Projection.RecurringEventsInRange | db.py:378-379 | every recurring event falls within the range |
| Projection.FutureEventsSorted | db.py:389 | the events are sorted by date |
| Projection.FutureEventsContents | db.py:359-389 | the events are exactly the planned and the recurring events, all within the range |
| Projection.PlannedFirstOnSameDay | db.py:389 | on any one day, planned events come before recurring ones, each in query order |
| Projection.OnGridIsMultiple | db.py:385-386 | stepping by 1 or 7 from a reaches c exactly when c - a is a non-negative multiple of the step |
| Projection.FixedStepEvents | db.py:378-386 | a daily or weekly rule occurs exactly on the dates a whole number of steps from its start that are in range and not suppressed |
| Projection.OccurrenceMembers | db.py:379-384 | one cursor date yields its occurrence exactly when it is in range and not suppressed |
| Projection.MonthlyStepsDrift | db.py:387 | a monthly rule starting 31 January occurs on 28 February and then on 28 March, not 31 March |
| Projection.OtherIntervalOnce | db.py:388 | a rule with an unknown interval occurs at most once |
| Projection.BookedMonthIsSuppressed | db.py:380-383 | an occurrence in a month with a booked transaction of the same category and amount is not emitted |
| Forecast.MonthSplit | app.py:800-804 | a month's income is non-negative, its expense non-positive, and together they are the month's net flow |
| Forecast.AmountInMonthsStep | app.py:808-815 | the flow over months lo..hi+1 is the flow over lo..hi plus month hi |
| Forecast.MonthlyFlows | app.py:800-804 | every month present holds its income and expense totals; absent months have none |
| Forecast.MonthlyForecast | app.py:806-816 | one row for the current balance then one per month, each with the month's income, expense, net flow and the running balance |
| Forecast.RunningBalanceIsTotal | app.py:808-815 | the balance after k months is the current balance plus all flows of those months |
| Forecast.HorizonMonthIsDropped | app.py:795-816 | events in the month of the horizon's end are not counted in a one-month forecast |
| Forecast.TransactionsInRangeMembers | db.py:184-189 | the trend's rows are exactly the transactions in the range, of the selected account when one is given |
| Forecast.CumulativeBalance | app.py:301-302 | each point keeps its date and amount and shows the initial balance plus the running sum |
| Forecast.BalanceTrend | app.py:296-302 | no points exactly when no transaction is in range; otherwise the points are the range's rows sorted by date, each showing the balance before the range plus the running sum, the last the balance after all of them |
| Planner.DailyDeltas | app.py:524-525 | every day with events maps to the sum of its event amounts; other days sum to zero |
| Planner.DayColumn | app.py:522-527 | the column holds each day's delta, zero for days without events |
| Planner.CumulativeSum | app.py:528 | each entry is the initial balance plus the prefix sum of the column |
| Planner.ColumnSums | app.py:528 | the prefix sums of the daily column are the event totals through each day |
| Planner.DailyCurve | app.py:522-528 | one balance per day in the range, each the initial balance plus every event amount from the start through that day |
| Planner.Shift | app.py:534-535 | spending on a day lowers that day and every later day by the cost and leaves earlier days alone |
| Planner.SuffixMinAtLeast | app.py:536 | the minimum from a day on is above the floor exactly when every day from there is |
| Planner.FirstFitSound | app.py:533-539 | the day chosen is one from which the shifted curve stays above the safety floor |
| Planner.FirstFitMinimal | app.py:533-539 | no earlier day would have kept the curve above the floor |
| Planner.ShiftKeepsSafe | app.py:536-538 | a goal placed safely keeps safe every stretch of days that was safe before |
| Planner.PlaceGoalFacts | app.py:532-540 | a goal gets a date exactly when some day keeps the curve above the floor; then it is the earliest such day and the curve is shifted; otherwise the curve is unchanged |
| Planner.FindDay | app.py:533-539 | the loop finds the earliest safe day and the shifted curve |
| Planner.ScheduleGoals | app.py:530-540 | the goals are placed in order, each on the curve the previous ones left |
| Planner.PlanRows | app.py:540 | one result per goal, in goal order, with its description and its cost as a positive amount |
| Planner.PlanFrom | app.py:531-540 | placing goals i.. is placing goal i and then the rest on the curve it leaves |
| Planner.PlanSpending | app.py:518-541 | one result row per pending goal, in the order `get_goals` returns them |
| Planner.PlacedDaysStaySafe | app.py:530-540 | later goals never push a stretch that was above the floor below it |
| Planner.PlanKeepsFloor | app.py:530-540 | after all goals are placed, the final curve stays above the floor from every suggested date on |
| Inference.RowsMembers | db.py:393-401 | a row is read exactly when some transaction has a non-zero amount and an existing category and account; the row carries its date, amount, description (empty when missing), category name and type, and account name |
| Inference.MembersAreKeyed | db.py:422 | a group holds exactly the rows with its key |
| Inference.GroupKeys | db.py:422 | the group keys are exactly the keys of the rows, each once |
| Inference.Gaps | db.py:428 | one gap per pair of consecutive rows, the number of days between them |
| Inference.ClassifyIsRatioTest | db.py:431-432 | monthly when at least 80% of gaps are 28 to 32 days; else weekly when at least 80% are 6 to 8; else neither |
| Inference.ClassifyExamples | db.py:431-432 | gaps 30, 30, 31 are monthly; 5, 40, 2 are neither; four monthly gaps of five still count; 7, 7, 30 are neither |
| Inference.SmallGroupsYieldNothing | db.py:425 | a group of fewer than three rows gives no suggestion |
| Inference.SuggestionsMembers | db.py:424-447 | a suggestion is exactly a suggestion of one of the groups |
| Inference.SuggestionFacts | db.py:424-447 | a suggestion comes from a group of three or more with that interval, category and account, has the group's display name and mean amount, is not already stored, and starts on the group's earliest date |
| Inference.CollectStoredKeys | db.py:416-421 | the set of stored recurring keys is built from every stored rule |
| Inference.FindRecurringSuggestions | db.py:392-448 | the suggestions returned are the specification's suggestions over the rows sorted by date |
| Inference.ResultsAreGroupSuggestions | db.py:392-448 | every suggestion returned comes from a group and its key is not stored already |
| Inference.BucketExamples | db.py:409-415 | 1490 and 1510 of income fall in one bucket; 47.50 and 52.50 of expense in one; 57.50 in bucket 12 |
| Inference.IncomeIgnoresDescription | db.py:407 | income rows with equal category, account and bucket share a group whatever their descriptions |
| Inference.MeanOfEqualAmounts | db.py:435 | a group of equal amounts has that amount as its mean |
| Expenses.ExpenseItemsMembers | db.py:465 | an item is grouped exactly when some transaction with an existing category and account is dated in the (four-digit) year with a negative amount; it is keyed by that month, the category name and the account name, and carries the amount |
| Expenses.AddItem | db.py:465 | adding an item records its key and touches no other group |
| Expenses.AddItemDistinct | db.py:465 | grouping keeps keys distinct |
| Expenses.GroupItemsSums | db.py:465 | groups have distinct keys, each group's total is the sum of its items, and the sums per month and category agree |
| Expenses.GroupItemsKeys | db.py:465 | every group comes from an item and every item has a group; negative items give negative totals |
| Expenses.GroupTotalOfMember | db.py:468 | with distinct keys, a group's total is the total recorded for its key |
| Expenses.PositiveTotals | db.py:468 | each group's key maps to its total spent as a positive amount, and no other key appears |
| Expenses.TotalsByCategory | db.py:469 | one total per month and category present, the sum over all its accounts |
| Expenses.StoreRollUps | db.py:470 | every month and category gets an entry under "Tutti i conti"; other entries are kept |
| Expenses.ActualExpensesByYear | db.py:464-471 | each month, category and account maps to its amount spent; each month and category maps under "Tutti i conti" to the sum over all accounts; nothing else appears |
| Forms.SignedAmountFacts | app.py:358 | the signed amount keeps the size, is negative for "Uscita" and positive otherwise, ignores the typed sign, and the recurring form signs alike |
| Forms.MinAmount | app.py:379 | the minimum is one of the amounts and no amount is smaller |
| Forms.MaxAmount | app.py:379 | the maximum is one of the amounts and no amount is larger |
| Forms.AmountSpread | app.py:378-380 | the amount slider exists exactly when two rows have different amounts |
| Forms.FilterRowsMembers | app.py:382-390 | a row is shown exactly when it passes every active filter |
| Forms.FilterRowsIsWhere | app.py:382-390 | applying the filters one after another is one filter by their conjunction |
| Forms.CleanedRows | app.py:866-867 | names are stripped text and types stripped lower-case text, row for row |
| Forms.CleanCategoriesAsWrittenMembers | app.py:864-870 | a record survives exactly when its type is income or expense and its text name is not empty, whatever the cell held |
| Forms.MissingNameImportedAsNan | app.py:866-869 | a row with no name and a known type is kept, named "nan" |
| Forms.MissingNameIsNan | app.py:866 | converting a missing cell to text gives "nan" |
| Forms.CleanCategoriesMembers | app.py:864-870 | in the corrected cleaning a record survives exactly when its name cell held text, its type is known and its name is not empty; names are stripped |
| Forms.MissingNameDropped | app.py:869 | the corrected cleaning drops a row with no name |
| Forms.CleanCategoriesNoNan | app.py:869 | no record of the corrected cleaning is named "nan" unless a cell held that text |
| Forms.CleanCategoriesAgrees | app.py:864-870 | without missing names, the corrected and the written cleaning agree |

## Left out

- The SQLite plumbing (connections, `init_db`, schema upgrades, `reset_db`), workspace scoping and concurrent access: tables are values handed to each operation.
- The Streamlit interface, charts and CSV export; `auth.py` and `ml_utils.py` are not part of this model.
- Operations outside the modelled core (update and delete of single rows, budgets, debt creation, planned and recurring creation, the Sankey and category-trend queries) are not modelled.
- Floating point: amounts are exact reals, so rounding at the tolerance boundaries of the matcher and the recurrence suppression is not captured.
- Formatting: month names (`%B`), the cost text `"{:,.2f} €"`, the planner's status strings and dates printed in results are not modelled; dates stay values.
- The ordering `ORDER BY name` of `get_accounts_with_balance` is not modelled: rows follow the account table.
- The order of ties is not modelled where SQL leaves it open: `LIMIT 1` among equally close plans, equal-length keywords in `apply_rules`, goals with equal amounts, and rows returned without `ORDER BY`.
- Inference.FindRecurringSuggestions: groups are visited in order of first occurrence, not in pandas' sorted key order, so the set of suggestions is the source's but their order may differ.
- Forms.FilterRowsMembers: the description search is a literal substring test; `str.contains` would read the text as a regular expression.
- Forms.AmountSpread: the `'min_v' in locals()` test is modelled as "the slider was shown", which it is within one script run.
- Dates: text comparison equals date comparison only for four-digit years; years past 9999 are not modelled apart from that.
- Planner.PlanSpending: its contract states the row count and goal order; the dates it suggests are characterised by `ScheduleGoals`, `PlaceGoalFacts` and `PlanKeepsFloor` over the curve `DailyCurve` builds rather than restated for the composed method.
- Store.LedgerStore.AddTx: where the code raises (an unknown account violates NOT NULL on `account_id`, and the transaction rolls back), the model returns `false` and changes nothing; the exception reaching the caller is not modelled.
- Store.LedgerStore.SettleDebt: an unknown account makes the `add_tx` call of db.py:485 raise before the debt is marked settled; the model returns `false` and changes nothing, and the exception reaching the caller is not modelled.
- Store.LedgerStore.AddRule: uses the corrected category lookup (see Findings); for a name that exists as an income or transfer category the code as written raises an IntegrityError and stores no rule, which Rules.RuleForNonExpenseCategoryFails states on the as-written lookup.
- Text.Lower: case mapping covers the ASCII letters only, while Python's `lower()` maps all of Unicode (`È` to `è`). Every operation built on it inherits this: rule matching in `apply_rules` (db.py:505) and the stored keyword of `add_rule` (db.py:491), the grouping and key check of recurring suggestions (db.py:406, 421, 445), the cleaning of imported category types (app.py:867) and the case-insensitive list search (app.py:385).
- Text.UpperFirst: capitalises ASCII small letters only, while Python's `upper()` maps all of Unicode (`è` to `È`, `ß` to `SS`, which also lengthens the text); this affects the display name of recurring suggestions (db.py:443).
- Text.LowerHasNoUpper: states the absence of ASCII capitals only, matching Text.Lower.
- DateText.ParseDate: digits are ASCII `0`-`9`; `strptime`'s `%Y` and `%d` also accept other Unicode decimal digits.

## Findings

| source | as written | input that shows it | evidently intended | confidence | as-written member | corrected member |
|---|---|---|---|---|---|---|
| app.py:866-869 | `astype(str)` turns a missing name into the text "nan" before `dropna` runs, so the row is kept | a row with an empty NOME cell and TIPO "expense" | rows without a name are dropped | not executed | Forms.MissingNameImportedAsNan | Forms.MissingNameDropped |
| db.py:488-491 | `get_or_create` looks the category up by name and type 'expense'; for an income or transfer category it misses, and the insert of the same name violates UNIQUE(name), so the rule is never saved | `add_rule("stipendio", "Stipendio")` with the default categories | the rule points at the existing category whatever its type | not executed | Rules.RuleForNonExpenseCategoryFails | Rules.RuleCategory |
