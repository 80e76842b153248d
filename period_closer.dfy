/** The month-closing job (`tools/close_month_pl.py`): a profit-and-loss
    snapshot of one calendar month on an accrual basis. */
module PeriodCloser {
  import opened Wrappers
  import opened Calendar
  import opened Text
  import opened Sums
  import opened Records

  /** Income that counts on an accrual basis: its upper-cased status is one of
      the four known non-cancelled statuses. */
  predicate IncomeCountsAccrual(status: string) {
    var s := Upper(status);
    s == "RECEIVED" || s == "PENDING" || s == "PARTIAL" || s == "OVERDUE"
  }

  /** An expense that counts on an accrual basis: its lower-cased status is
      paid, pending or pending_payment. */
  predicate ExpenseCountsAccrual(status: string) {
    var s := Lower(status);
    s == "paid" || s == "pending" || s == "pending_payment"
  }

  datatype Snapshot = Snapshot(month: Date, totalRevenue: real, totalExpenses: real, netProfit: real)

  /** No store connection; a counted expense with a null amount (`float(None)`
      raises); or a snapshot. */
  datatype CloseOutcome = ConnectionFailed | AmountMissing | Closed(snapshot: Snapshot)

  /** The representative day of the month to close: the given target date, or
      today moved back one month. */
  function TargetDay(target: Option<Date>, today: Date): (dt: Date)
    requires today.Valid() && (target.Some? ==> target.value.Valid())
    ensures dt.Valid()
  {
    if target.Some? then target.value else AddMonths(today, -1)
  }

  /** `start_date`: day 1 of the month of `dt`. */
  function PeriodStart(dt: Date): Date {
    Date(dt.year, dt.month, 1)
  }

  /** `end_date`: day 1 of the month, plus one month, minus one day. */
  function PeriodEnd(dt: Date): (e: Date)
    requires dt.Valid()
    ensures e.Valid()
  {
    AddDays(AddMonths(PeriodStart(dt), 1), -1)
  }

  /** The range filter of the queries: `gte(start)` and `lte(end)`; a null
      date matches neither. */
  predicate InPeriod(d: Option<Date>, start: Date, end: Date) {
    d.Some? && LessEq(start, d.value) && LessEq(d.value, end)
  }

  function IncomeInPeriod(rows: seq<IncomeRow>, start: Date, end: Date): (r: seq<IncomeRow>)
  {
    if |rows| == 0 then []
    else IncomeInPeriod(rows[..|rows| - 1], start, end)
         + (if InPeriod(rows[|rows| - 1].date, start, end) then [rows[|rows| - 1]] else [])
  }

  function ExpensesInPeriod(rows: seq<ExpenseRow>, start: Date, end: Date): (r: seq<ExpenseRow>)
  {
    if |rows| == 0 then []
    else ExpensesInPeriod(rows[..|rows| - 1], start, end)
         + (if InPeriod(rows[|rows| - 1].date, start, end) then [rows[|rows| - 1]] else [])
  }

  function RevenueTerm(r: IncomeRow): real {
    if IncomeCountsAccrual(r.status) then r.amount else 0.0
  }

  /** A counted expense's amount; only used where the amount is present. */
  function ExpenseTerm(e: ExpenseRow): real {
    if ExpenseCountsAccrual(e.status) then e.amount.GetOr(0.0) else 0.0
  }

  /** Every expense that counts carries an amount, so `float(...)` succeeds. */
  predicate CountedAmountsPresent(rows: seq<ExpenseRow>) {
    forall i :: 0 <= i < |rows| ==> ExpenseCountsAccrual(rows[i].status) ==> rows[i].amount.Some?
  }

  /** The revenue loop of `close_month_pl`: the amounts of the rows whose
      status counts on an accrual basis. */
  method SumRevenue(rows: seq<IncomeRow>) returns (total: real)
    ensures total == Sum(rows, RevenueTerm)
  {
    total := 0.0;
    for i := 0 to |rows|
      invariant total == Sum(rows[..i], RevenueTerm)
    {
      SumStep(rows, i, RevenueTerm);
      if IncomeCountsAccrual(rows[i].status) {
        total := total + rows[i].amount;
      }
    }
    assert rows[..|rows|] == rows;
  }

  /** The expense loop of `close_month_pl`: the amounts of the rows whose
      status counts, or nothing when one of those rows has no amount. */
  method SumExpenses(rows: seq<ExpenseRow>) returns (total: Option<real>)
    ensures total.Some? <==> CountedAmountsPresent(rows)
    ensures total.Some? ==> total.value == Sum(rows, ExpenseTerm)
  {
    var t := 0.0;
    for i := 0 to |rows|
      invariant t == Sum(rows[..i], ExpenseTerm)
      invariant CountedAmountsPresent(rows[..i])
    {
      SumStep(rows, i, ExpenseTerm);
      if ExpenseCountsAccrual(rows[i].status) {
        if rows[i].amount.None? {
          return None;
        }
        t := t + rows[i].amount.value;
      }
    }
    assert rows[..|rows|] == rows;
    return Some(t);
  }

  /** `close_month_pl(target_date)`: fetch the month's rows, total them and
      build the snapshot. */
  method CloseMonthPL(connected: bool, target: Option<Date>, today: Date,
                      income: seq<IncomeRow>, expenses: seq<ExpenseRow>) returns (outcome: CloseOutcome)
    requires today.Valid() && (target.Some? ==> target.value.Valid())
    ensures outcome.ConnectionFailed? <==> !connected
    ensures var dt := TargetDay(target, today);
            var exps := ExpensesInPeriod(expenses, PeriodStart(dt), PeriodEnd(dt));
            connected ==> (outcome.Closed? <==> CountedAmountsPresent(exps))
    ensures outcome.Closed? ==>
            var dt := TargetDay(target, today);
            var start, end := PeriodStart(dt), PeriodEnd(dt);
            && outcome.snapshot.month == start
            && outcome.snapshot.totalRevenue == Sum(IncomeInPeriod(income, start, end), RevenueTerm)
            && outcome.snapshot.totalExpenses == Sum(ExpensesInPeriod(expenses, start, end), ExpenseTerm)
            && outcome.snapshot.netProfit == outcome.snapshot.totalRevenue - outcome.snapshot.totalExpenses
  {
    if !connected {
      return ConnectionFailed;
    }
    var dt := TargetDay(target, today);
    var start, end := PeriodStart(dt), PeriodEnd(dt);
    var incomeRes := IncomeInPeriod(income, start, end);
    var expensesRes := ExpensesInPeriod(expenses, start, end);
    var totalRevenue := SumRevenue(incomeRes);
    var totalExpenses := SumExpenses(expensesRes);
    if totalExpenses.None? {
      return AmountMissing;
    }
    var netProfit := totalRevenue - totalExpenses.value;
    return Closed(Snapshot(start, totalRevenue, totalExpenses.value, netProfit));
  }

  /** The month's income rows are exactly the rows dated inside the period. */
  lemma {:induction false} IncomeInPeriodMembers(rows: seq<IncomeRow>, start: Date, end: Date)
    ensures forall x :: x in IncomeInPeriod(rows, start, end) <==> x in rows && InPeriod(x.date, start, end)
  {
    if |rows| > 0 {
      IncomeInPeriodMembers(rows[..|rows| - 1], start, end);
      assert rows == rows[..|rows| - 1] + [rows[|rows| - 1]];
    }
  }

  /** The month's expense rows are exactly the rows dated inside the period. */
  lemma {:induction false} ExpensesInPeriodMembers(rows: seq<ExpenseRow>, start: Date, end: Date)
    ensures forall x :: x in ExpensesInPeriod(rows, start, end) <==> x in rows && InPeriod(x.date, start, end)
  {
    if |rows| > 0 {
      ExpensesInPeriodMembers(rows[..|rows| - 1], start, end);
      assert rows == rows[..|rows| - 1] + [rows[|rows| - 1]];
    }
  }

  /** The closed period runs from day 1 to the last day of the target month,
      whatever that month's length. */
  lemma PeriodIsWholeMonth(dt: Date)
    requires dt.Valid()
    ensures PeriodStart(dt) == MonthOf(dt).First()
    ensures PeriodEnd(dt) == MonthOf(dt).Last()
    ensures PeriodEnd(dt).day == DaysInMonth(dt.year, dt.month)
    ensures LessEq(PeriodStart(dt), PeriodEnd(dt))
  {
    MonthEndIsLastDay(MonthOf(dt));
  }

  /** A February closes on the 29th in a leap year and on the 28th otherwise
      (2024-02-29, 2023-02-28). */
  lemma FebruaryEnds(dt: Date)
    requires dt.Valid() && dt.month == 2
    ensures PeriodEnd(dt).day == if IsLeapYear(dt.year) then 29 else 28
  {
    PeriodIsWholeMonth(dt);
  }

  /** Without a target date the closed month is the previous calendar month;
      in January that is December of the year before. */
  lemma DefaultIsPreviousMonth(today: Date)
    requires today.Valid()
    ensures MonthOf(TargetDay(None, today)) == MonthOf(today).Prev()
    ensures today.month == 1 ==> MonthOf(TargetDay(None, today)) == YearMonth(today.year - 1, 12)
  {
    var dt := TargetDay(None, today);
    FromIndexOfIndex(MonthOf(dt));
    FromIndexOfIndex(MonthOf(today).Prev());
  }

  /** Both boundary days are inside the period, the days just outside it are
      not, and a row without a date never is. */
  lemma BoundariesIncluded(dt: Date)
    requires dt.Valid()
    ensures InPeriod(Some(PeriodStart(dt)), PeriodStart(dt), PeriodEnd(dt))
    ensures InPeriod(Some(PeriodEnd(dt)), PeriodStart(dt), PeriodEnd(dt))
    ensures !InPeriod(Some(NextDay(PeriodEnd(dt))), PeriodStart(dt), PeriodEnd(dt))
    ensures !InPeriod(Some(PrevDay(PeriodStart(dt))), PeriodStart(dt), PeriodEnd(dt))
    ensures !InPeriod(None, PeriodStart(dt), PeriodEnd(dt))
  {
    PeriodIsWholeMonth(dt);
  }

  /** Which income statuses the accrual basis counts: case does not matter,
      and EXPECTED and ARCHIVED rows add nothing. */
  lemma IncomeAccrualExamples()
    ensures IncomeCountsAccrual("received") && IncomeCountsAccrual("Overdue")
    ensures !IncomeCountsAccrual("EXPECTED") && !IncomeCountsAccrual("ARCHIVED")
  {
    assert Upper("received") == "RECEIVED";
    assert Upper("Overdue") == "OVERDUE";
    assert Upper("EXPECTED") == "EXPECTED";
    assert Upper("ARCHIVED") == "ARCHIVED";
  }

  /** Which expense statuses the accrual basis counts: case does not matter,
      and planned, scheduled and archived rows add nothing. */
  lemma ExpenseAccrualExamples()
    ensures ExpenseCountsAccrual("Paid") && ExpenseCountsAccrual("PENDING_PAYMENT")
    ensures !ExpenseCountsAccrual("Planned") && !ExpenseCountsAccrual("SCHEDULED")
    ensures !ExpenseCountsAccrual("Archived")
  {
    assert Lower("Paid") == "paid";
    assert Lower("PENDING_PAYMENT") == "pending_payment";
    assert Lower("Planned") == "planned";
    assert Lower("SCHEDULED") == "scheduled";
    assert Lower("Archived") == "archived";
  }

  /** A row of a status that does not count never changes the totals. */
  lemma UncountedRowsAddNothing(rows: seq<IncomeRow>, extra: IncomeRow)
    requires !IncomeCountsAccrual(extra.status)
    ensures Sum(rows + [extra], RevenueTerm) == Sum(rows, RevenueTerm)
  {
    assert (rows + [extra])[..|rows|] == rows;
  }
}
