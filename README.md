# Ledgerly — a verified model of the ledger rules

Ledgerly is a small bookkeeping application for a studio: it keeps two record
tables, `income` and `expenses`, each row carrying an amount, a date and a
status. Its Python tools close a month into a profit-and-loss snapshot, project
cash day by day over a horizon, and check records for integrity. Its
TypeScript side keeps the same rules for the dashboard: a cash engine, income
and expense transitions, an invoice-status adapter, and three recurring
generators (retainer milestones, recurring expenses, recurring income). The
pages hold a receivables lifecycle (an auto-overdue sweep, overdue and on-hold
queues, conversion of a receivable into a received row, snooze, hold and
resolve) and a schedule of open bills and receivables. Four analytics charts
bucket the records by month, and a month filter steps through months.

This project models those rules in Dafny and proves what they promise.

- The database is replaced by in-memory tables. A `Records.Store` object holds
  the income, expense, retainer-instance and recurring-rule tables as
  sequences; a handler that writes to the database is a method that reassigns
  those fields.
- Queries become filters and orderings (`Queries`), and inserts and updates
  become sequence transitions.
- Today's date, confirmation answers, generated ids and the failure of each
  store call are parameters.
- Loops in the source are methods with loop invariants. Each is proved against
  a specification function (a fold over the rows), and the lemmas about the
  system are stated over those functions.
- Dates are `Calendar.Date` values with the Gregorian month lengths and the
  leap-year rule, and `today` is always a parameter.
- Amounts are `real`, statuses are strings with an explicit ASCII case fold
  (`Text`), and JavaScript's truncating `%` is written out (`Ordinal.JsRem`).

Modules, leaves first:
- `Wrappers`, `Calendar`, `Text`, `Sums`, `Sorting` and `Queries`: the
  primitives the pages and tools rely on.
- `Records` and `Domain`: the tables, the store and the validators.
- The tools: `PeriodCloser` (close_month_pl), `CashProjector`
  (recalculate_cashflow) and `IntegrityVerifier` (verify_integrity).
- The engines: `CashEngine`, `LedgerEngine` and `QuoteForgeAdapter`.
- The generators: `Retainer`, `RecurringExpenses` and `RecurringIncome`.
- The pages: `Dashboard` (`src/app/page.tsx`), `Receivables` and `Schedule`.
- The charts: `MonthBuckets`, `CashflowRunway`, `ProfitMarginTrend`,
  `OutstandingTracker` and `SourceBreakdown`.
- The widgets: `MonthFilter` and `Ordinal`.

The status tests are modelled exactly as each file writes them. For example:
- liquid cash (tools/recalculate_cashflow.py:53) compares the expense status
  with `'Paid'` case-sensitively, while the projection
  (tools/recalculate_cashflow.py:81) lower-cases it before comparing;
- the status tests of the tools, the engine and the dashboard differ from one
  another, and are kept apart rather than unified (`CashProjector.StatusTestsDiverge`,
  `Dashboard.ExactPaidOnly`);
- the receivables queue counts a row as overdue on the last day of the grace
  period, which the dashboard's sweep does not
  (`Receivables.QueueAndSweepDisagreeOnLastDay`);
- the sweep does not exclude ARCHIVED rows.

## Model

| member | source | states |
|---|---|---|
| Calendar.DaysInMonth | tools/close_month_pl.py:36 | the length of a month is between 28 and 31 days; the leap-year rule decides February |
| Calendar.AddMonths | tools/close_month_pl.py:33 | moving by k months lands exactly k months away, with the day clamped to the target month's length (relativedelta) |
| Calendar.MonthEndIsLastDay | tools/close_month_pl.py:36 | day 1 plus one month minus one day is the month's last calendar day |
| Calendar.SetDay | src/lib/recurring-logic.ts:68 | `setDate` always gives a calendar date, also for a day past the month's end |
| Calendar.SetDayRollsOver | src/lib/recurring-logic.ts:68 | a day past the month's end rolls over into the following month |
| Calendar.SetDayWithinMonth | src/lib/recurring-logic.ts:68 | a day inside the month gives that day of that month |
| Calendar.ClampedDay | src/lib/recurring-expenses-logic.ts:50-53 | the clamped due day is always a calendar date |
| Calendar.ClampedDayInMonth | src/lib/recurring-expenses-logic.ts:50-53 | the clamped date is day min(day, days in month) and lies inside the target month |
| Calendar.AddDays | tools/recalculate_cashflow.py:65 | `today + timedelta(days=n)` is a calendar date |
| Calendar.AddDaysMonotone | tools/recalculate_cashflow.py:64-65 | more days forward gives a strictly later date |
| PeriodCloser.TargetDay | tools/close_month_pl.py:28-33 | the month to close is represented by a calendar date: the target date or today moved back a month |
| PeriodCloser.PeriodEnd | tools/close_month_pl.py:36 | `end_date` is a calendar date |
| PeriodCloser.SumRevenue | tools/close_month_pl.py:46-54 | the revenue loop totals exactly the amounts of rows whose upper-cased status is RECEIVED, PENDING, PARTIAL or OVERDUE |
| PeriodCloser.SumExpenses | tools/close_month_pl.py:56-62 | the expense loop totals the amounts of rows whose lower-cased status is paid, pending or pending_payment, and fails exactly when such a row has no amount |
| PeriodCloser.CloseMonthPL | tools/close_month_pl.py:18-71 | no connection aborts with no snapshot; otherwise the snapshot's month is `start_date`, its totals are the accrual sums over the rows dated in the period, and net profit is revenue minus expenses |
| PeriodCloser.PeriodIsWholeMonth | tools/close_month_pl.py:35-36 | `start_date` is day 1 and `end_date` the last day of the same month, so start <= end |
| PeriodCloser.FebruaryEnds | tools/close_month_pl.py:36 | February closes on the 29th in a leap year and on the 28th otherwise |
| PeriodCloser.DefaultIsPreviousMonth | tools/close_month_pl.py:28-33 | without a target the previous calendar month is closed; in January that is December of the year before |
| PeriodCloser.IncomeInPeriodMembers | tools/close_month_pl.py:42 | the income query keeps exactly the rows dated within [start, end] |
| PeriodCloser.ExpensesInPeriodMembers | tools/close_month_pl.py:43 | the expense query keeps exactly the rows dated within [start, end] |
| PeriodCloser.BoundariesIncluded | tools/close_month_pl.py:42-43 | both boundary days are included; the day before the start, the day after the end and a null date are not |
| PeriodCloser.IncomeAccrualExamples | tools/close_month_pl.py:52-53 | any casing of RECEIVED or OVERDUE counts; EXPECTED and ARCHIVED do not |
| PeriodCloser.ExpenseAccrualExamples | tools/close_month_pl.py:60-61 | Paid and PENDING_PAYMENT count; Planned, SCHEDULED and Archived do not |
| PeriodCloser.UncountedRowsAddNothing | tools/close_month_pl.py:52-54 | a row whose status does not count leaves the revenue total unchanged |
| CashProjector.CalculateCashflow | tools/recalculate_cashflow.py:28-93 | missing credentials stop the run; otherwise liquid cash is start balance plus RECEIVED income minus `Paid` expenses up to today, and the projection has `horizon_days` entries, entry i dated today + i + 1, each carrying that day's inflow and outflow and the running balance |
| CashProjector.ProjectionUnique | tools/recalculate_cashflow.py:28-93 | the job keeps no state: the same records, balance and day give the same projection |
| CashProjector.EntriesAgree | tools/recalculate_cashflow.py:61-91 | two projections from the same inputs agree entry by entry |
| CashProjector.ProjectionDatesIncrease | tools/recalculate_cashflow.py:64-65 | projection dates strictly increase and all lie after today |
| CashProjector.BalanceIsCumulative | tools/recalculate_cashflow.py:62-84 | each balance is the opening cash plus the net flow of all days up to it |
| CashProjector.EmptyStoreIsFlat | tools/recalculate_cashflow.py:46-82 | with no records liquid cash is the start balance and every entry is flat at it |
| CashProjector.ReceivedAndOverdueNeverInflow | tools/recalculate_cashflow.py:72-73 | RECEIVED and OVERDUE rows never change a day's inflow |
| CashProjector.PaidNeverOutflow | tools/recalculate_cashflow.py:81-82 | rows whose lower-cased status is `paid` never change a day's outflow |
| CashProjector.LiquidCashIgnoresOtherIncome | tools/recalculate_cashflow.py:48-49 | only income of status exactly RECEIVED dated by today moves liquid cash |
| CashProjector.LiquidCashIgnoresOtherExpenses | tools/recalculate_cashflow.py:53-54 | only expenses of status exactly `Paid` dated by today move liquid cash |
| CashProjector.StatusTestsDiverge | tools/recalculate_cashflow.py:53-81 | an upper-case PAID expense is neither liquid-cash spending nor projected outflow, while SCHEDULED counts as outflow |
| IntegrityVerifier.VerifyIntegrity | tools/verify_integrity.py:16-58 | without credentials nothing runs and nothing fails; otherwise the issues are all expense issues then all income issues, and the run fails iff there is an issue |
| IntegrityVerifier.PaidWithoutDateReported | tools/verify_integrity.py:30-34 | a "PAID but no date" issue appears for an id iff some expense with that id is paid (any casing) and undated |
| IntegrityVerifier.NegativeAmountReported | tools/verify_integrity.py:36-37 | a negative-amount issue appears iff some expense has a present amount below zero, whatever its status |
| IntegrityVerifier.ReceivedWithoutDateReported | tools/verify_integrity.py:44-49 | a "RECEIVED but no date" issue appears iff some income row is received (any casing) and undated |
| IntegrityVerifier.OtherIncomeIsClean | tools/verify_integrity.py:48 | income of any other status never yields an issue |
| IntegrityVerifier.ExpenseIssuesAreExpenseIssues | tools/verify_integrity.py:29-37 | the expense loop yields only expense issues |
| IntegrityVerifier.IncomeIssuesAreIncomeIssues | tools/verify_integrity.py:43-49 | the income loop yields only income issues |
| IntegrityVerifier.ExpenseIssuesFirst | tools/verify_integrity.py:27-49 | every expense issue precedes every income issue |
| IntegrityVerifier.OneExpenseTwoIssues | tools/verify_integrity.py:33-37 | one paid, undated, negative expense yields two issues, in rule order |
| CashEngine.Runway | src/lib/engines/cashflow.ts:52-55 | 999 when burn <= 0; otherwise runway times burn is the liquid cash, so runway is negative iff the cash is |
| CashEngine.ProjectedCashBalance | src/lib/engines/cashflow.ts:59-68 | with empty lists the projection is the liquid cash unchanged |
| CashEngine.LiquidCashIncomeStep | src/lib/engines/cashflow.ts:12-26 | for `CashEngine.LiquidCash` (`calculateLiquidCash`): a RECEIVED or PARTIAL entry adds its received amount to liquid cash; PENDING and OVERDUE add nothing |
| CashEngine.LiquidCashExpenseStep | src/lib/engines/cashflow.ts:21-23 | for `CashEngine.LiquidCash`: a PAID expense lowers liquid cash by its amount; every other status leaves it |
| CashEngine.LiquidCashIgnoresExpected | src/lib/engines/cashflow.ts:19 | liquid cash depends on each entry's status and received amount only, never on the expected amount |
| CashEngine.BurnBounds | src/lib/engines/cashflow.ts:32-47 | for `CashEngine.MonthlyBurn` (`calculateMonthlyBurn`): with no qualifying expense the burn is 0, and with well-formed amounts it is never negative |
| CashEngine.BurnWindowIsOpen | src/lib/engines/cashflow.ts:32-40 | for `CashEngine.MonthlyBurn`: the window is open at both ends over whole days (a payment on the reference day or exactly three months before is left out), and ONE_OFF expenses never count; with the default reference `new Date()`, a time after midnight, the source does count a payment dated today |
| CashEngine.ProjectionAtLeastCash | src/lib/engines/cashflow.ts:64-67 | collecting open receivables never lowers the projection below the liquid cash |
| CashEngine.ProjectionStep | src/lib/engines/cashflow.ts:64-67 | one more open receivable raises the projection by its expected minus received amount; one more pending expense lowers it by its amount |
| Domain.ValidateIncomeInvariant | src/lib/gemini.ts:104-108 | the validator passes iff the entry is not RECEIVED or has a receive date and a positive received amount; every other status passes |
| Domain.ValidateExpenseInvariant | src/lib/gemini.ts:114-118 | the validator passes iff the expense is not PAID or has a payment date; PLANNED and PENDING_PAYMENT always pass |
| LedgerEngine.IngestIncome | src/lib/engines/ledger.ts:27-60 | without verification: success, a PENDING entry with the payload's fields, no receive date and no events; with verification: always a failure with a message, no data and no events |
| LedgerEngine.VerifyIncome | src/lib/engines/ledger.ts:62-94 | succeeds iff the final amount (the confirmed amount, else the expected one) is positive; success gives the entry RECEIVED on the given day with that amount, all else unchanged, and exactly the RECALCULATE_LIQUID_CASH event; failure gives no data and no events |
| LedgerEngine.PostExpense | src/lib/engines/ledger.ts:98-114 | always succeeds with a PLANNED expense built from the payload, no payment date and no events |
| LedgerEngine.PayExpense | src/lib/engines/ledger.ts:116-138 | always succeeds, setting PAID and the payment date only, with the RECALCULATE_LIQUID_CASH event |
| LedgerEngine.SuccessfulTransitionsKeepInvariants | src/lib/engines/ledger.ts:47-52 | every record a successful transition returns satisfies the income or expense invariant |
| LedgerEngine.VerifyWithoutAmountSucceeds | src/lib/engines/ledger.ts:70-72 | verifying a well-formed entry without a confirmed amount succeeds and records the expected amount |
| LedgerEngine.PostThenPay | src/lib/engines/ledger.ts:102-125 | posting then paying changes only status (PLANNED to PAID) and payment date |
| QuoteForgeAdapter.MapStatus | src/lib/integration/quoteforge-adapter.ts:29-52 | on the upper-cased status: PAID gives RECEIVED, PARTIAL gives PARTIAL, OVERDUE gives OVERDUE, and every other string gives PENDING, each in both directions |
| QuoteForgeAdapter.TransformEvent | src/lib/integration/quoteforge-adapter.ts:66-81 | category PROJECT_FEE; id, invoiced amount, received amount and client copied; receive date null iff the payment date is null or empty; status is the mapped status |
| QuoteForgeAdapter.MapStatusIgnoresCaseAndAmounts | src/lib/integration/quoteforge-adapter.ts:29-30 | statuses that agree up to case map alike whatever the amounts; any casing of "paid" gives RECEIVED |
| QuoteForgeAdapter.SentAndViewedArePending | src/lib/integration/quoteforge-adapter.ts:44-51 | SENT, viewed and unknown strings map to PENDING |
| Retainer.FirstRemainderFinds | src/lib/retainer-logic.ts:194 | the step found is the first remainder step of the structure, and none is found iff the structure has no remainder step |
| Retainer.PlanSteps | src/lib/retainer-logic.ts:174-191 | the loop yields one milestone per non-remainder step, in structure order, each dated base + day_offset, a fixed step paying its value (0 if absent) and a percent step total × value / 100; `remaining` is the total minus their sum |
| Retainer.CalculateMilestones | src/lib/retainer-logic.ts:164-204 | the result is `Retainer.Milestones`, the milestone list: a single "Full Payment" of the total on the base date for an empty structure, else the planned steps followed by the first remainder step; with an empty structure or a remainder step the amounts sum to the total |
| Retainer.PlannedSum | src/lib/retainer-logic.ts:178-191 | the planned milestones add up to the step amounts of the structure |
| Retainer.MilestonesSum | src/lib/retainer-logic.ts:193-203 | with a remainder step (or no structure) the milestones sum exactly to the total; without one they sum to the fixed and percent amounts |
| Retainer.PercentSplit | src/lib/retainer-logic.ts:183 | worked instance of MilestonesSum: percent steps of 40 and 60 split the total exactly |
| Retainer.SelectVersion | src/lib/retainer-logic.ts:70-79 | the version chosen is a position in the version list |
| Retainer.SelectVersionIsLastApplicable | src/lib/retainer-logic.ts:70-79 | the chosen version applies to the month (started by its month, not ended before it) and no later version in the list does; there is no choice iff none applies |
| Retainer.SelectedStartsLatest | src/lib/retainer-logic.ts:52-79 | over versions in ascending start order, the chosen version starts no earlier than any applicable version |
| Retainer.MilestoneRows | src/lib/retainer-logic.ts:141-151 | one income row per milestone |
| Retainer.MilestoneRowsAt | src/lib/retainer-logic.ts:141-151 | row k is milestone k's EXPECTED Retainer row |
| Retainer.RunStep | src/lib/retainer-logic.ts:64-160 | tables holding the first i months of a run, plus month i's batch, hold the first i + 1 months |
| Retainer.InsertInstance | src/lib/retainer-logic.ts:108-156 | the instance is inserted, then its milestone rows unless their insert fails; nothing else changes |
| Retainer.MonthInserts | src/lib/retainer-logic.ts:65-159 | one pass of the month loop adds exactly that month's batch to the instance and income tables |
| Retainer.GenerateMonth | src/lib/retainer-logic.ts:64-160 | one loop pass keeps the tables equal to the old tables plus the run so far |
| Retainer.GenerateForContract | src/lib/retainer-logic.ts:56-160 | one contract's loop visits its earliest version's month through next month and adds exactly that run |
| Retainer.ExistingMonthGeneratesNothing | src/lib/retainer-logic.ts:85-103 | a month with no applicable version, or already holding an instance for its version, generates nothing |
| Retainer.GeneratedRowsShape | src/lib/retainer-logic.ts:108-151 | a month adds at most one instance, for its applicable version and the month's first day; each milestone row is EXPECTED Retainer income linked to that instance |
| Retainer.BatchIsNew | src/lib/retainer-logic.ts:91-103 | a month's batch holds at most one instance, never one already stored |
| Retainer.AppendNew | src/lib/retainer-logic.ts:91-103 | appending a new instance keeps the run free of duplicates |
| Retainer.RunAddsNoDuplicates | src/lib/retainer-logic.ts:64-160 | a contract's run adds no instance whose version and month are already stored and no two with the same version and month |
| Retainer.GenerationStep | src/lib/retainer-logic.ts:46-161 | one more contract adds exactly its batch to the generation so far |
| Retainer.GenerateRetainerInstances | src/lib/retainer-logic.ts:25-162 | the instance and income tables grow by exactly the generation of every active contract with versions; expenses and rules are unchanged |
| Retainer.VersionsOf | src/lib/retainer-logic.ts:48-51 | exactly the versions of the given contract |
| RecurringExpenses.ActiveExpenseRules | src/lib/recurring-expenses-logic.ts:15-18 | exactly the active rules are processed |
| RecurringExpenses.GenerateMonthExpense | src/lib/recurring-expenses-logic.ts:32-88 | one target month appends exactly what the month inserts for the rule (nothing outside the validity window, nothing if the rule already has an expense in the month, nothing on insert failure); other tables unchanged |
| RecurringExpenses.GenerateForExpenseRule | src/lib/recurring-expenses-logic.ts:32-89 | the inner loop appends the months' inserts in order, each month seeing the earlier inserts |
| RecurringExpenses.GenerateExpenseInstances | src/lib/recurring-expenses-logic.ts:11-91 | a failed rule fetch changes nothing; otherwise the expenses grow by exactly the generation of the active rules over this month and next month |
| RecurringExpenses.DueDateInMonth | src/lib/recurring-expenses-logic.ts:50-53 | the due date is day min(due_day, days in month) of the target month and a calendar date, so due day 31 in February gives the 28th or 29th |
| RecurringExpenses.MonthInsertShape | src/lib/recurring-expenses-logic.ts:34-84 | one month inserts at most one expense: SCHEDULED, the rule's amount, vendor, category and payment method, "<name> (Recurring)", dated in that month, and only if the month held no expense of the rule |
| RecurringExpenses.HasExpenseGrows | src/lib/recurring-expenses-logic.ts:58-65 | more rows can only make a month count as already holding an expense |
| RecurringExpenses.AppendFresh | src/lib/recurring-expenses-logic.ts:58-84 | appending an expense of a fresh month keeps the inserts in distinct, fresh months |
| RecurringExpenses.RuleInsertsProperties | src/lib/recurring-expenses-logic.ts:32-89 | what a rule inserts has the generated shape, each in a month that held no expense of the rule, at most one per month |
| RecurringExpenses.RerunInsertsNothing | src/lib/recurring-expenses-logic.ts:58-68 | running a rule again over a table holding the first run's inserts inserts nothing (idempotence) |
| RecurringExpenses.GenerationOnlyTargetMonths | src/lib/recurring-expenses-logic.ts:26-42 | every generated expense comes from an active rule and is dated in this month or next month |
| RecurringExpenses.GenerationFromRules | src/lib/recurring-expenses-logic.ts:31-89 | every generated expense is scheduled by one of the rules for one of the months |
| RecurringIncome.SetLastGenerated | src/lib/recurring-logic.ts:137-140 | the update keeps the table's length, touching only the rule with that id |
| RecurringIncome.SetLastGeneratedOverwrites | src/lib/recurring-logic.ts:106-140 | a later write of `last_generated_date` to the same rule overwrites an earlier one |
| RecurringIncome.ThenAssociative | src/lib/recurring-logic.ts:61-145 | proof helper for the loop's invariant, not a property of the generator: chaining the results of consecutive months is associative |
| RecurringIncome.RuleMonth | src/lib/recurring-logic.ts:63-144 | one pass stops exactly on the `break` cases (past the end date, failed insert); otherwise it appends that month's rows and writes the month's last generated date |
| RecurringIncome.ProgressContinues | src/lib/recurring-logic.ts:61-145 | the loop invariant carries over a month that goes on |
| RecurringIncome.ProgressEnds | src/lib/recurring-logic.ts:61-145 | when the loop stops, by `break` or past the limit, the tables hold the whole run |
| RecurringIncome.AdvanceRule | src/lib/recurring-logic.ts:61-145 | one loop pass keeps the invariant, or ends with the whole run in the tables |
| RecurringIncome.GenerateForRule | src/lib/recurring-logic.ts:50-145 | the cursor loop from the month after `last_generated_date` (or the start month) through the month after today inserts exactly the run's rows, in order, and writes its last date |
| RecurringIncome.ActiveRules | src/lib/recurring-logic.ts:29-32 | exactly the rules whose status is 'active' are processed |
| RecurringIncome.GenerationStep | src/lib/recurring-logic.ts:46-146 | one more rule adds exactly its run to the generation so far |
| RecurringIncome.GenerateRecurringIncome | src/lib/recurring-logic.ts:25-149 | a failed fetch returns no rows and changes nothing; otherwise the returned rows, in order, are exactly those appended to income, and the rules table gets the run's writes |
| RecurringIncome.StepRows | src/lib/recurring-logic.ts:86-133 | a pass inserts at most the rule's EXPECTED row for its date, and only into a month holding none of the rule's rows |
| RecurringIncome.RunRowsShape | src/lib/recurring-logic.ts:116-125 | every inserted row is EXPECTED "Monthly Retainer" Retainer income of the rule with its amount |
| RecurringIncome.AlreadyGeneratedGrows | src/lib/recurring-logic.ts:91-98 | more rows can only make a month count as already generated |
| RecurringIncome.PrependFresh | src/lib/recurring-logic.ts:86-133 | a row of a fresh month in front of fresh rows keeps all of them fresh |
| RecurringIncome.PrependDistinct | src/lib/recurring-logic.ts:86-133 | such a row in front keeps the rows' months distinct |
| RecurringIncome.RunInsertsFreshMonths | src/lib/recurring-logic.ts:86-111 | a run never inserts into a month already holding one of the rule's rows, and never twice into one month |
| RecurringIncome.RerunStep | src/lib/recurring-logic.ts:86-111 | a month of a second run over a table holding the first run stops where the first stopped and otherwise inserts nothing |
| RecurringIncome.RerunInsertsNothing | src/lib/recurring-logic.ts:86-111 | running a rule again over a table holding the first run's rows inserts nothing |
| RecurringIncome.StepWritesLater | src/lib/recurring-logic.ts:105-140 | for a rule whose default day is at least 1, a date a pass from the rule's first cursor month writes lies after the previous `last_generated_date` |
| RecurringIncome.SkipWriteIsLater | src/lib/recurring-logic.ts:105-106 | for any default day, the already-generated branch writes only a date after the previous `last_generated_date` |
| RecurringIncome.NonPositiveDayWritesEarlier | src/lib/recurring-logic.ts:68-140 | with day -5 and `last_generated_date` 31 January 2023, the February pass inserts a row dated 26 January and writes that earlier date |
| RecurringIncome.LastGeneratedMovesForward | src/lib/recurring-logic.ts:105-140 | for a rule whose default day is at least 1, `last_generated_date` only ever moves forward over a run |
| RecurringIncome.RolloverSkipsNextMonth | src/lib/recurring-logic.ts:68-98 | a default day past a month's end dates the row in the following month, whose own pass then finds it already generated and inserts nothing |
| RecurringIncome.ClampedDateStaysInMonth | src/lib/recurring-logic.ts:68 | with the day clamped, each pass's date lies in its own cursor month, on min(day, month length), so different passes date different months |
| Receivables.OverdueListIsQueue | src/app/receivables/page.tsx:38-62 | `Receivables.OverdueList`, the overdue queue, holds exactly the rows that are not RECEIVED, not ARCHIVED, not on hold and whose expected date (else date) is before today minus 7 days, in date order |
| Receivables.OnHoldListIsQueue | src/app/receivables/page.tsx:64-71 | `Receivables.OnHoldList`, the on-hold queue, holds exactly the rows on hold, whatever their status, latest hold first |
| Receivables.QueueAndSweepDisagreeOnLastDay | src/app/receivables/page.tsx:56-60 | a row dated exactly on the grace limit is in the page's overdue queue, yet the dashboard's sweep does not mark it |
| Receivables.UpdateById | src/app/receivables/page.tsx:115-121 | `update(...).eq('id', id)` patches exactly the rows with that id, leaving the others and the table length unchanged |
| Receivables.FoundInTable | src/app/receivables/page.tsx:84-88 | the row `.single()` finds is a row of the table with that id |
| Receivables.SingleMatch | src/app/receivables/page.tsx:84-93 | when `.single()` succeeds exactly one row carries the id |
| Receivables.UpdateSingle | src/app/receivables/page.tsx:115-121 | the update of the single row found is a point update |
| Receivables.UpdateSkipsAppended | src/app/receivables/page.tsx:96-121 | the archive update does not reach the freshly inserted copy |
| Receivables.ConvertedDescription | src/app/receivables/page.tsx:119 | the archived description is never empty and keeps the original description as its prefix |
| Receivables.MarkReceived | src/app/receivables/page.tsx:80-128 | nothing changes unless confirmed and the row is found; otherwise a RECEIVED copy dated today is inserted (unless the insert fails) and the original is then archived with " (Converted)" (unless the archive fails) |
| Receivables.MarkReceivedMovesCash | src/app/receivables/page.tsx:96-121 | a completed conversion replaces the original by its archived form and appends the RECEIVED copy, so received cash grows by the original's amount less what it already counted |
| Receivables.ArchiveFailureLeavesBoth | src/app/receivables/page.tsx:115-124 | if the archive fails after the insert, the original stays unchanged beside its RECEIVED copy |
| Receivables.Snooze | src/app/receivables/page.tsx:130-142 | with a date picked, the rows with the id get it as expected date and nothing else changes; without a date nothing changes |
| Receivables.SnoozeDefers | src/app/receivables/page.tsx:130-135 | snoozing past the grace limit changes only the expected date and takes the row out of the overdue queue and out of the sweep |
| Receivables.Hold | src/app/receivables/page.tsx:144-162 | the rows with the id go on hold with the form's reason, note and party from today |
| Receivables.HoldMovesToHoldQueue | src/app/receivables/page.tsx:144-155 | a held row moves from the overdue queue to the on-hold queue, keeping its status, amount and dates |
| Receivables.Resolve | src/app/receivables/page.tsx:164-222 | 'received' inserts a RECEIVED copy then archives the held row with hold fields cleared; 'new_date' sets the expected date and clears the hold fields, keeping the status |
| Receivables.ResolveLeavesHold | src/app/receivables/page.tsx:167-215 | either way the row leaves the on-hold queue; received, it is archived beside a RECEIVED copy of its amount with no recurring link; rescheduled, it keeps its status and is overdue again iff the new date is by the grace limit |
| Dashboard.MarkOverdue | src/app/page.tsx:113-117 | `update({status: 'OVERDUE'}).in('id', ids)` keeps the table's length |
| Dashboard.SweepOverdue | src/app/page.tsx:88-121 | a failed candidate query changes nothing; otherwise the income table becomes the table with the past-due ids marked OVERDUE; other tables unchanged |
| Dashboard.OverdueIdsSelect | src/app/page.tsx:94-111 | of `Dashboard.OverdueIds`, the sweep's candidate query: an id is selected iff some row with it is neither RECEIVED nor OVERDUE, dated before today − 7 days, and has an effective date (expected date, else date) before that threshold |
| Dashboard.SweepRow | src/app/page.tsx:113-117 | the sweep changes at most one row's status, only to OVERDUE, and only for a past-due id |
| Dashboard.SweepMarksExactlyPastDue | src/app/page.tsx:90-117 | the sweep changes only statuses, only to OVERDUE, only of past-due ids; with unique ids exactly the past-due rows change, so snoozed rows stay and ARCHIVED rows past due are marked |
| Dashboard.Margin | src/app/page.tsx:153-156 | the margin times the revenue is net profit × 100 when revenue > 0, and 0 otherwise; a positive-revenue margin is negative iff the net profit is |
| Dashboard.SumSplit | src/app/page.tsx:132-138 | sums of two masks adding up to a third add up |
| Dashboard.RevenueSplitsAtMonthStart | src/app/page.tsx:127-138 | in `Dashboard.FetchFinancials`, lifetime revenue is this month's revenue plus the RECEIVED revenue dated before the month (or undated); with non-negative amounts the monthly figure never exceeds the lifetime one |
| Dashboard.ExactPaidOnly | src/app/page.tsx:141-146 | in `Dashboard.FetchFinancials`, only status exactly 'PAID' counts: an expense spelled otherwise adds nothing to expenses or net profit |
| Dashboard.CleanAmount | src/app/page.tsx:219 | the sanitised amount is no longer than the input and holds exactly the characters of the input that are digits or dots |
| Dashboard.CleanAmountAppend | src/app/page.tsx:219 | sanitising keeps the order: the sanitised concatenation is the concatenation of the sanitised parts |
| Dashboard.CleanAmountChar | src/app/page.tsx:219 | a single character is kept iff it is a digit or a dot; with CleanAmountAppend this fixes the sanitised string completely |
| Dashboard.DigitRun | src/app/page.tsx:220 | the longest prefix of digits: all digits, followed by a non-digit or the end |
| Dashboard.Pow10 | src/app/page.tsx:220 | helper of the digit reader: the scale of a fraction part is at least 1, so dividing by it is defined |
| Dashboard.ParseFloat | src/app/page.tsx:220 | `parseFloat` on a sanitised string is NaN or a non-negative number |
| Dashboard.Spelled | src/app/page.tsx:219-220 | the decimal spelling of a number is a non-empty digit string |
| Dashboard.SpelledValue | src/app/page.tsx:219-220 | a spelled number's digits read back as the number |
| Dashboard.DigitRunOfDigits | src/app/page.tsx:220 | `parseFloat` reads a whole digit string |
| Dashboard.ParseSpelled | src/app/page.tsx:219-226 | a whole amount typed without decoration parses back to itself |
| Dashboard.Submit | src/app/page.tsx:213-271 | the amount is rejected iff it is not a number above zero; income without a service is rejected; income with a service but no client is cancelled iff the user declines the confirmation, and is inserted otherwise; any other valid form is inserted as an expense; inserted income carries the amount, service, client, date, status, description, payment method and the service name (else the category) as category; an inserted expense carries the date, status and payment method, maps the description to the vendor and falls back to the "General" category |
| Dashboard.AddTransaction | src/app/page.tsx:213-273 | the row is inserted into its table iff the form passes and the insert succeeds; nothing else changes |
| Dashboard.DotExamples | src/app/page.tsx:219-222 | worked instances of ParseFloat: `parseFloat` stops at a second dot ("1.2.3" is 1.2), and a lone dot is NaN |
| Schedule.PayableItem | src/components/dashboard/financial-schedule.tsx:41-49 | a bill's line always names a party (vendor, else description, else "Unknown Vendor"), keeps the bill's id and is not a receivable |
| Schedule.ReceivableLabel | src/components/dashboard/financial-schedule.tsx:57-71 | the client and project shown are never empty |
| Schedule.ReceivableItem | src/components/dashboard/financial-schedule.tsx:52-77 | a receivable's line keeps its id, is marked receivable and shows a non-empty client and project |
| Schedule.Map | src/components/dashboard/financial-schedule.tsx:41 | `map` keeps the length and applies the function at each position |
| Schedule.ShownRowsPass | src/components/dashboard/financial-schedule.tsx:22-38 | every shown row passes its tab's filter, and with valid dates the shown rows are earliest first, undated last |
| Schedule.PayablesShowOpenBills | src/components/dashboard/financial-schedule.tsx:22-29 | `Schedule.Payables`, the bills tab, shows at most 50 rows, none PAID or ARCHIVED, earliest first; a bill shows ticked only if its status is RECEIVED |
| Schedule.ReceivablesShowOpenIncome | src/components/dashboard/financial-schedule.tsx:31-38 | `Schedule.ReceivablesTab`, the receivables tab, shows at most 50 rows, none RECEIVED or ARCHIVED, earliest first; a receivable shows ticked only if its status is PAID |
| Schedule.ColonDescriptionSplits | src/components/dashboard/financial-schedule.tsx:60-62 | without a linked client, a description "client: project" shows the trimmed client and project |
| Schedule.JoinedClientWins | src/components/dashboard/financial-schedule.tsx:63-66 | a linked client's name wins, and the description (or "Project") is the project |
| Schedule.MarkPaid | src/components/dashboard/financial-schedule.tsx:175-182 | marking a bill paid keeps the table's length |
| Schedule.CheckReceivable | src/components/dashboard/financial-schedule.tsx:97-172 | the income table becomes the check-off effect (retainer row settled in place, other rows converted); other tables unchanged |
| Schedule.CheckPayable | src/components/dashboard/financial-schedule.tsx:174-183 | the expenses table becomes the table with the bill PAID today; other tables unchanged |
| Schedule.RetainerRowSettledInPlace | src/components/dashboard/financial-schedule.tsx:117-130 | a retainer milestone row becomes RECEIVED today in place: no row is added and nothing else changes, whatever the insert and archive would have done |
| Schedule.OtherRowsConvertAsReceivables | src/components/dashboard/financial-schedule.tsx:132-161 | any other receivable is converted exactly as on the receivables page (RECEIVED copy, then archive) |
| Schedule.MarkPaidOnlyTouchesBill | src/components/dashboard/financial-schedule.tsx:175-182 | only rows with the id change, only to PAID dated today, keeping their amount, and they leave the bills tab |
| MonthBuckets.InflowAppend | src/components/analytics/cashflow-runway.tsx:18-23 | one more income row adds its amount to its own month's inflow only if it is RECEIVED, and adds its month to the received months |
| MonthBuckets.BurnAppend | src/components/analytics/cashflow-runway.tsx:25-30 | one more expense row adds its amount to its own month's burn only if it is PAID, and adds its month to the paid months |
| MonthBuckets.InflowStep | src/components/analytics/cashflow-runway.tsx:18-23 | folding one income row into the buckets keeps them the tally of the rows seen |
| MonthBuckets.InflowSeen | src/components/analytics/cashflow-runway.tsx:18-23 | after an income row the bucket keys are still distinct and exactly the months with a counted row |
| MonthBuckets.InflowSums | src/components/analytics/cashflow-runway.tsx:18-23 | after an income row every bucket holds its month's sums and every month without one sums to zero |
| MonthBuckets.BurnStep | src/components/analytics/cashflow-runway.tsx:25-30 | folding one expense row into the buckets keeps them the tally of the rows seen |
| MonthBuckets.BurnSeen | src/components/analytics/cashflow-runway.tsx:25-30 | after an expense row the bucket keys are still distinct and exactly the months with a counted row |
| MonthBuckets.BurnSums | src/components/analytics/cashflow-runway.tsx:25-30 | after an expense row every bucket holds its month's sums and every month without one sums to zero |
| MonthBuckets.CollectFlows | src/components/analytics/cashflow-runway.tsx:16-30 | the two loops leave one bucket per month with a received row or a paid expense, keys distinct, holding that month's received inflow and paid burn |
| MonthBuckets.Latest | src/components/analytics/cashflow-runway.tsx:40-41 | sorting then `slice(-n)` gives at most n entries in ascending order |
| MonthBuckets.SuffixSorted | src/components/analytics/cashflow-runway.tsx:41 | a suffix of a sorted sequence is sorted |
| MonthBuckets.LatestAreLatest | src/components/analytics/cashflow-runway.tsx:40-41 | the window has min(count, n) entries, all taken from the rows; every row left out is no later than the first one shown; with at most n rows all are shown |
| MonthBuckets.LatestNoRepeats | src/components/analytics/cashflow-runway.tsx:40-41 | the window repeats no entry when the rows do not |
| MonthBuckets.DistinctCount | src/components/analytics/cashflow-runway.tsx:32 | distinct keys listing exactly a set of months are as many as the months |
| MonthBuckets.RowsFor | src/components/analytics/cashflow-runway.tsx:32-39 | `Object.entries(...).map` gives one row per bucket key |
| MonthBuckets.Window | src/components/analytics/cashflow-runway.tsx:32-41 | the chart has at most n rows |
| MonthBuckets.MonthRows | src/components/analytics/cashflow-runway.tsx:32-39 | rows from distinct keys repeat no row, each is the row of one of the months, and every month has its row |
| MonthBuckets.StrictlyAscending | src/components/analytics/cashflow-runway.tsx:40 | a sorted window of distinct month rows strictly ascends by month |
| MonthBuckets.WindowShowsLatestMonths | src/components/analytics/cashflow-runway.tsx:32-41 | one row per month, sorted and cut to n, shows the latest min(count, n) months strictly ascending, each with its own row, every omitted month earlier than the first shown |
| CashflowRunway.BucketRowsAreMonthRows | src/components/analytics/cashflow-runway.tsx:32-39 | the rows built from the buckets are the months' rows as the records define them (inflow, burn, net = inflow − burn) |
| CashflowRunway.AverageBurn | src/components/analytics/cashflow-runway.tsx:43-46 | without chart rows the average burn is 0 |
| CashflowRunway.AverageBurnIsMean | src/components/analytics/cashflow-runway.tsx:43-46 | the average burn is the mean of the last (up to) three rows' burn, and lies between their least and greatest burn |
| CashflowRunway.TotalBetween | src/components/analytics/cashflow-runway.tsx:44 | a total of burns each between lo and hi lies between count × lo and count × hi |
| CashflowRunway.MeanBetween | src/components/analytics/cashflow-runway.tsx:45 | a mean of terms between lo and hi lies between lo and hi |
| CashflowRunway.Runway | src/components/analytics/cashflow-runway.tsx:49 | the runway is infinite iff the average burn is not positive; otherwise it is non-negative, times the burn gives the positive part of liquidity, and is 0 when liquidity is not positive |
| CashflowRunway.RunwayGrowsWithCash | src/components/analytics/cashflow-runway.tsx:49 | more cash never shortens a finite runway |
| CashflowRunway.CashflowRunway | src/components/analytics/cashflow-runway.tsx:16-49 | the chart shows the latest six months with received income or paid expenses, each with its own sums, strictly ascending; the average burn and runway are those of the chart |
| ProfitMarginTrend.RowMeaning | src/components/analytics/profit-margin-trend.tsx:33-43 | net profit is revenue less expense; with positive revenue margin × revenue = net profit × 100 and the margin is negative iff expense exceeds revenue; otherwise the margin is 0 |
| ProfitMarginTrend.ExpenseOnlyMonth | src/components/analytics/profit-margin-trend.tsx:35-36 | a month with paid expenses and no revenue shows margin 0 and a negative net profit |
| ProfitMarginTrend.BucketRowsAreMonthRows | src/components/analytics/profit-margin-trend.tsx:33-43 | the rows built from the buckets are the months' rows as the records define them |
| ProfitMarginTrend.ProfitMarginTrend | src/components/analytics/profit-margin-trend.tsx:18-46 | the trend shows the latest twelve months with received income or paid expenses, strictly ascending, each with its own revenue, net profit and margin |
| OutstandingTracker.RecordAppend | src/components/analytics/outstanding-tracker.tsx:16-24 | one more record adds its amount to its own month's sum for its status (RECEIVED, PENDING or OVERDUE) and adds its month whatever its status |
| OutstandingTracker.RecordStep | src/components/analytics/outstanding-tracker.tsx:16-24 | folding one record into the buckets keeps them the tally of the records seen |
| OutstandingTracker.MonthsSeenStep | src/components/analytics/outstanding-tracker.tsx:16-18 | after a record the bucket keys are distinct and exactly the months with a record |
| OutstandingTracker.SumsStep | src/components/analytics/outstanding-tracker.tsx:20-23 | after a record every bucket holds its month's three sums and every month without one sums to zero |
| OutstandingTracker.CollectOwed | src/components/analytics/outstanding-tracker.tsx:16-24 | the loop leaves one bucket per month with any record, holding the month's received, pending and overdue sums |
| OutstandingTracker.BucketRowsAreMonthRows | src/components/analytics/outstanding-tracker.tsx:26-33 | the rows built from the buckets are the months' rows as the records define them |
| OutstandingTracker.OutstandingTracker | src/components/analytics/outstanding-tracker.tsx:16-35 | the chart shows the latest six months with any record, strictly ascending, each with its own three sums |
| OutstandingTracker.ThreeStatusesAddUp | src/components/analytics/outstanding-tracker.tsx:21-23 | a month's received, pending and overdue sums add up to the sum of its amounts whose status is one of the three |
| OutstandingTracker.OtherStatusOnlyAddsMonth | src/components/analytics/outstanding-tracker.tsx:17-23 | a record of any other status makes its month appear but changes no month's sums |
| SourceBreakdown.ServiceKey | src/components/analytics/source-breakdown.tsx:31 | the service name, else the category, else "Uncategorized"; never empty |
| SourceBreakdown.ClientKey | src/components/analytics/source-breakdown.tsx:34 | the client name, else the client, else "Unknown Client"; never empty |
| SourceBreakdown.TotalAgrees | src/components/analytics/source-breakdown.tsx:32 | totals agreeing on every key give the same grand total |
| SourceBreakdown.TotalAddExisting | src/components/analytics/source-breakdown.tsx:32 | adding x to an existing name adds x to the grand total |
| SourceBreakdown.TotalAddNew | src/components/analytics/source-breakdown.tsx:32 | a new name holding x adds x to the grand total |
| SourceBreakdown.RecordAppend | src/components/analytics/source-breakdown.tsx:28-36 | one more row adds its amount under its own name only when it is RECEIVED, and only then adds its name |
| SourceBreakdown.NamesSeenStep | src/components/analytics/source-breakdown.tsx:31-35 | after a row the map's keys are distinct and exactly the names of the received rows |
| SourceBreakdown.NameSumsStep | src/components/analytics/source-breakdown.tsx:32-35 | after a row every name's entry is the sum of its received amounts |
| SourceBreakdown.TotalStep | src/components/analytics/source-breakdown.tsx:29-35 | after a row the map's grand total is the received total |
| SourceBreakdown.TallyStep | src/components/analytics/source-breakdown.tsx:28-36 | folding one row keeps the map the tally of the rows seen |
| SourceBreakdown.BothStep | src/components/analytics/source-breakdown.tsx:28-36 | one loop pass keeps both the service tally and the client tally |
| SourceBreakdown.CollectSources | src/components/analytics/source-breakdown.tsx:28-36 | the loop leaves, per service and per client, the sum of its received amounts, and both maps total the same |
| SourceBreakdown.Entries | src/components/analytics/source-breakdown.tsx:38-39 | one entry per key |
| SourceBreakdown.Top | src/components/analytics/source-breakdown.tsx:40-41 | at most n entries |
| SourceBreakdown.ToChartData | src/components/analytics/source-breakdown.tsx:38-41 | at most five entries |
| SourceBreakdown.TallyEntries | src/components/analytics/source-breakdown.tsx:38-39 | the entries repeat nothing, each is a received name with its sum, and every received name has its entry |
| SourceBreakdown.TopKeepsEntries | src/components/analytics/source-breakdown.tsx:40-41 | the top entries repeat nothing and are taken from the entries |
| SourceBreakdown.TopDescends | src/components/analytics/source-breakdown.tsx:40 | the top entries are in descending order of value |
| SourceBreakdown.TopIsLargest | src/components/analytics/source-breakdown.tsx:40-41 | an entry left out is no larger than the last one shown, and then n are shown |
| SourceBreakdown.TopAreLargest | src/components/analytics/source-breakdown.tsx:38-41 | the chart shows the five largest names with their received sums, descending |
| SourceBreakdown.SourceBreakdown | src/components/analytics/source-breakdown.tsx:28-44 | both charts show the five largest services and clients by received amount, descending |
| MonthFilter.PrevMonth | src/components/ui/month-filter.tsx:58-66 | stepping back gives a month in 0..11 that is the calendar month before; January wraps to December of the year before |
| MonthFilter.NextMonth | src/components/ui/month-filter.tsx:72-80 | stepping forward gives a month in 0..11 that is the calendar month after; December wraps to January of the year after |
| MonthFilter.PrevNextInverse | src/components/ui/month-filter.tsx:58-84 | stepping back then forward, or forward then back, restores the selection |
| MonthFilter.RangeIsWholeMonth | src/components/ui/month-filter.tsx:35-38 | the written range's ends are valid dates of the month, and a date lies between them iff it is in the month |
| MonthFilter.IsLifetime | src/components/ui/month-filter.tsx:130-132 | the lifetime view is shown only with both parameters present, and then iff from's year ≤ 2000 and to's year ≥ 2099 |
| MonthFilter.LifetimeOnlyFromLifetimeRange | src/components/ui/month-filter.tsx:95-104 | a month's range never reads as lifetime; the lifetime button's range always does |
| MonthFilter.LastMonth | src/components/ui/month-filter.tsx:126-127 | last month is the calendar month before today's, as a month in 0..11 |
| MonthFilter.AvailableYears | src/components/ui/month-filter.tsx:107-116 | the picker lists exactly the years from 2020 through the current year plus 3, ascending, one each |
| MonthFilter.Filter.constructor | src/components/ui/month-filter.tsx:16-17 | the filter mounts on today's month and year with the URL's parameters |
| MonthFilter.Filter.UpdateRange | src/components/ui/month-filter.tsx:35-44 | from and to become the first and last day of the given month and the page 1; the selection is unchanged |
| MonthFilter.Filter.Sync | src/components/ui/month-filter.tsx:20-32 | a parsed `from` moves the selection to its month leaving the parameters; a missing one, absent or empty (`?from=` is falsy), writes the selected month's range; a non-empty unparsable one changes nothing |
| MonthFilter.Filter.HandleMonthChange | src/components/ui/month-filter.tsx:46-50 | the month becomes the chosen one, the year stays, and the range is the new month's |
| MonthFilter.Filter.HandleYearChange | src/components/ui/month-filter.tsx:52-56 | the year becomes the chosen one, the month stays, and the range is the new month's |
| MonthFilter.Filter.HandlePrev | src/components/ui/month-filter.tsx:58-70 | the selection moves to the calendar month before, with wrap-around, and the range and page follow |
| MonthFilter.Filter.HandleNext | src/components/ui/month-filter.tsx:72-84 | the selection moves to the calendar month after, with wrap-around, and the range and page follow |
| MonthFilter.Filter.HandleQuickRange | src/components/ui/month-filter.tsx:86-93 | the selection becomes today's month or the month before it, and the range and page follow |
| MonthFilter.Filter.HandleLifetime | src/components/ui/month-filter.tsx:95-104 | the range becomes 2000-01-01 to 2099-12-31 on page 1, the selection stays, and the filter then reads as lifetime |
| MonthFilter.ThisAndLastExclusive | src/components/ui/month-filter.tsx:124-127 | "this month" and "last month" are never both lit |
| Ordinal.JsRem | src/app/recurring_costs/page.tsx:387 | JavaScript's `%`: Euclidean for a non-negative dividend, strictly inside (−b, b), and negative only for a negative dividend |
| Ordinal.GetOrdinal | src/app/recurring_costs/page.tsx:385-389 | the suffix is one of "th", "st", "nd", "rd" |
| Ordinal.GetOrdinalIsEnglish | src/app/recurring_costs/page.tsx:385-389 | for every non-negative day the suffix follows the English rule: st/nd/rd after a last digit 1/2/3 except 11/12/13 of each hundred, th otherwise |
| Ordinal.NegativeGetsTh | src/app/recurring_costs/page.tsx:387-388 | a negative number always gets "th" |
| Ordinal.DependsOnLastTwoDigits | src/app/recurring_costs/page.tsx:387 | numbers with the same remainder modulo 100 get the same suffix |
| Ordinal.Examples | src/app/recurring_costs/page.tsx:385-389 | worked instances of the suffix rule: 1st 21st 31st, 2nd 22nd, 3rd 23rd, 11th 12th 13th 111th and 0th |
| Ordinal.FourToTwentyGetTh | src/app/recurring_costs/page.tsx:388 | every number ending in 4 to 20 of its hundred gets "th" |
| Queries.Filter | src/app/receivables/page.tsx:56 | filtering never lengthens the list |
| Queries.FilterMembers | src/app/receivables/page.tsx:56 | the filter keeps exactly the elements that satisfy the predicate |
| Queries.FilterKeepsValidDates | src/app/receivables/page.tsx:56 | filtering keeps every date valid |
| Queries.KeyBound | src/app/receivables/page.tsx:52 | a bound above every dated row's sort key, so undated rows sort past all dates |
| Queries.Ascending | src/app/receivables/page.tsx:52 | the ascending order is a permutation of the rows |
| Queries.Descending | src/app/receivables/page.tsx:69 | the descending order is a permutation of the rows |
| Queries.Reordered | src/app/receivables/page.tsx:52 | a permutation keeps each row's date valid and under the bound |
| Queries.AscendingIsChronological | src/app/receivables/page.tsx:52 | ascending by date is chronological with the undated rows last |
| Queries.DescendingIsReverseChronological | src/app/receivables/page.tsx:69 | descending by date is latest first with the undated rows first |
| Text.Upper | src/lib/integration/quoteforge-adapter.ts:30 | `toUpperCase` (ASCII letters) keeps the length |
| Text.PaidFoldsAgree | tools/recalculate_cashflow.py:81 | a status is "paid" lower-cased iff it is "PAID" upper-cased |
| Text.TrimStart | src/components/dashboard/financial-schedule.tsx:61-62 | the result is a suffix of the input, starts with a non-whitespace character, and only whitespace was dropped, whitespace being JavaScript's set (ASCII blanks and line breaks, no-break space, U+FEFF, the Unicode space separators, U+2028 and U+2029) |
| Text.TrimEnd | src/components/dashboard/financial-schedule.tsx:61-62 | the result is a prefix of the input, ends with a non-whitespace character, and only whitespace was dropped, in the same sense |
| Text.IndexOf | src/components/dashboard/financial-schedule.tsx:61-62 | the position of the first separator, or the length when there is none |
| Text.FieldsOfJoin | src/components/dashboard/financial-schedule.tsx:61-62 | `split(c)[0]` of "a c b …" is a, and `split(c)[1]` is b when b ends at the next separator or the end |
| Sorting.SortBy | src/components/analytics/cashflow-runway.tsx:40 | `sort` by a key gives a permutation of the same length in ascending key order |
| Sorting.InsertSorted | src/components/analytics/cashflow-runway.tsx:40 | inserting into a sorted list keeps it sorted |
| Sorting.Take | src/components/analytics/source-breakdown.tsx:41 | `slice(0, n)` is the prefix of length min(length, n) |
| Sorting.TakeLast | src/components/analytics/cashflow-runway.tsx:41 | `slice(-n)` is the suffix of length min(length, n) |
| RecurringIncome.ClampedNextMonthStillInserts | src/lib/recurring-logic.ts:61-144 | for `RecurringIncome.ClampedMonthStep`, the pass with the clamped date: two consecutive open months each get one row dated inside their own month |

## Left out

- Database access: Supabase, PostgREST, pandas, the real-time channels and the 300 ms URL polling are out of scope. Tables are sequences, queries are filters and orderings, and writes are sequence transitions.
- Update failures are not modelled: every `update` is taken to succeed. Only insert failures, archive failures after a conversion's insert, and the failure of the fetch that a handler tests are parameters.
- Credentials, environment loading, printed output and process exit codes are out of scope. Missing credentials or a missing connection become a boolean input, and pass/fail becomes a boolean result.
- Time zones and the time of day are not modelled: `new Date()`, `startOfDay` and timestamps such as the hold start or "paid now" become a `today` date. Parsing of date strings (`new Date(s)`, `parseISO`) is replaced by dates that are already parsed, or by the `MonthFilter.UrlDate` cases.
- Floating point is not modelled: amounts are exact reals. The rounding by `toFixed` of the runway (src/components/analytics/cashflow-runway.tsx:49) and of the margin (src/components/analytics/profit-margin-trend.tsx:42) is left out.
- Chart labels (`format(date, "MMM")`), recharts components, dialogs, toasts, `router.push` and every other piece of rendering are left out. Of the schedule's rendering, only the completed flag is modelled.
- Order among rows with equal sort keys is not stated. `.order`, `sort` and `localeCompare` may break ties in any order here.
- Ids are parameters: uuid generation and the database's default ids are not modelled.
- zod parsing in `src/lib/gemini.ts` is left out. Its enums and bounds are kept as datatype predicates.
- A non-numeric amount in the source breakdown is `None`, which counts as 0. A joined `client` object (rather than a string) is not modelled.
- CashflowRunway.CashflowRunway: requires every RECEIVED income row and every PAID expense to carry a date. `format(parseISO(null))` throws in the source, so the chart never renders in that case.
- ProfitMarginTrend.ProfitMarginTrend: requires every RECEIVED income row and every PAID expense to carry a date, for the same reason.
- OutstandingTracker.OutstandingTracker: requires every income record to carry a date, for the same reason.
- MonthBuckets.CollectFlows: requires every RECEIVED income row and every PAID expense to carry a date, for the same reason.
- OutstandingTracker.CollectOwed: requires every income record to carry a date, for the same reason.
- RecurringExpenses.GenerationOnlyTargetMonths: stated only for rules whose due day is at least 1. A day of 0 or below makes `setDate` step back into the previous month, which this lemma does not cover; the generator method itself has no such precondition.
- RecurringExpenses.GenerationFromRules: stated only for rules whose due day is at least 1, for the same reason.
- RecurringIncome.StepWritesLater: stated only for rules whose default day is at least 1. The source accepts any day, and with a day of 0 or below the insert branch writes a date that can be earlier than the previous `last_generated_date` (NonPositiveDayWritesEarlier shows one); only the already-generated branch is proved later for every day, by SkipWriteIsLater.
- RecurringIncome.LastGeneratedMovesForward: stated only for rules whose default day is at least 1, for the same reason.
- RecurringIncome.RerunInsertsNothing: the existence check `AlreadyGenerated` always sees the true table. In the source a failed count query leaves `count` null, the `count && count > 0` test (src/lib/recurring-logic.ts:91-98) then fails and the generator inserts anyway, so the lemma holds only when that query succeeds.
- RecurringExpenses.RerunInsertsNothing: the existence check `HasExpense` always sees the true table; a failed count query (src/lib/recurring-expenses-logic.ts:58-68) makes the source insert anyway, so the lemma holds only when that query succeeds.
- Retainer.RunAddsNoDuplicates: the existence check `HasInstance` always sees the true table; a failed count query (src/lib/retainer-logic.ts:93-103) makes the source insert anyway, so the lemma holds only when that query succeeds.
- Null statuses and null income amounts in the Python tools are not modelled: statuses are strings and income amounts are numbers. In the source, `.upper()` or `.lower()` on a null status (tools/close_month_pl.py:51 and :59, tools/verify_integrity.py:30 and :44) and `float()` of a null income amount (tools/close_month_pl.py:53) raise. The null expense amount is modelled, in PeriodCloser.SumExpenses.
- CashEngine.BurnWindowIsOpen: the reference is a whole day, so a payment dated on the reference day is left out. With the default reference `new Date()`, which is later than midnight, the source counts a payment dated today; that case is not captured.
- Text.Upper, Text.Lower, Text.PaidFoldsAgree: case mapping covers ASCII letters only. Unicode case mapping (the dotless ı, ß's expansion to SS and other non-ASCII letters) is not captured.
- Authentication, the mock invoice sync, the one-off scripts, the date pickers, the revenue area chart and the clients, services, employees, reports, income and expenses pages are not part of this model.

## Findings

| source | as written | input that shows it | evidently intended | confidence | as-written member | corrected member |
|---|---|---|---|---|---|---|
| src/lib/recurring-logic.ts:68 | the expected date is `setDate(cursor, default_day)` without clamping, so a day past the month's end rolls into the next month, and that month's own pass then finds it already generated and inserts nothing | a rule with default day 31 and cursor February 2023: the row is dated 2023-03-03, and March 2023 never gets its row for the 31st | clamp the day to the month's length, as the recurring expense generator does (src/lib/recurring-expenses-logic.ts:50-53) and as the comment at line 66 wishes, so each month gets its own row | high (not executed) | RecurringIncome.RolloverSkipsNextMonth | RecurringIncome.ClampedNextMonthStillInserts |

`RecurringIncome.GenerateRecurringIncome` models the generator as written, with the rollover. `RecurringIncome.ClampedMonthStep` is the corrected pass. `RecurringIncome.ClampedDateStaysInMonth` and `RecurringIncome.ClampedNextMonthStillInserts` prove that the corrected pass dates every row inside its own month, so consecutive months each get their own row.
