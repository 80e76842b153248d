/** The cash-flow projection job (`tools/recalculate_cashflow.py`): today's
    liquid cash on a cash basis, then a day-by-day running balance over a
    horizon of future days. */
module CashProjector {
  import opened Wrappers
  import opened Calendar
  import opened Text
  import opened Sums
  import opened Records

  /** A row dated on or before `today`; a missing date (`NaT`) compares false. */
  predicate DatedBy(d: Option<Date>, today: Date) {
    d.Some? && LessEq(d.value, today)
  }

  /** Income that is already cash: status exactly `RECEIVED`, dated by today. */
  function ReceivedTerm(today: Date): IncomeRow -> real {
    (r: IncomeRow) => if r.status == "RECEIVED" && DatedBy(r.date, today) then r.amount else 0.0
  }

  /** Expenses that already left: status exactly `Paid` (case-sensitive),
      dated by today; a null amount is skipped by the masked sum. */
  function PaidTerm(today: Date): ExpenseRow -> real {
    (e: ExpenseRow) => if e.status == "Paid" && DatedBy(e.date, today) then e.amount.GetOr(0.0) else 0.0
  }

  /** `current_liquid_cash`: the start balance plus received income minus
      paid expenses, both up to today. */
  function LiquidCash(startBalance: real, today: Date, income: seq<IncomeRow>, expenses: seq<ExpenseRow>): real {
    startBalance + Sum(income, ReceivedTerm(today)) - Sum(expenses, PaidTerm(today))
  }

  /** A day's expected income: PENDING or PARTIAL rows dated exactly `day`. */
  function InflowTerm(day: Date): IncomeRow -> real {
    (r: IncomeRow) => if (r.status == "PENDING" || r.status == "PARTIAL") && r.date == Some(day) then r.amount else 0.0
  }

  /** A day's expected expenses: rows dated exactly `day` whose lower-cased
      status is not `paid`; a null amount is skipped. */
  function OutflowTerm(day: Date): ExpenseRow -> real {
    (e: ExpenseRow) => if e.date == Some(day) && Lower(e.status) != "paid" then e.amount.GetOr(0.0) else 0.0
  }

  function DayInflow(income: seq<IncomeRow>, day: Date): real {
    Sum(income, InflowTerm(day))
  }

  function DayOutflow(expenses: seq<ExpenseRow>, day: Date): real {
    Sum(expenses, OutflowTerm(day))
  }

  /** One element of the projection list. */
  datatype Entry = Entry(date: Date, balance: real, inflow: real, outflow: real)

  /** Missing credentials raise before anything is fetched; otherwise the
      liquid cash and the projection. */
  datatype ProjectionOutcome = MissingCredentials | Projected(liquidCash: real, entries: seq<Entry>)

  /** Entry `i` of `p` is dated `today + i + 1`, carries that day's inflow
      and outflow, and moves the balance of the entry before it (or
      `opening`) by inflow minus outflow. */
  predicate EntryAt(p: seq<Entry>, i: nat, opening: real, today: Date, income: seq<IncomeRow>, expenses: seq<ExpenseRow>)
    requires today.Valid() && i < |p|
  {
    && p[i].date == AddDays(today, i + 1)
    && p[i].inflow == DayInflow(income, p[i].date)
    && p[i].outflow == DayOutflow(expenses, p[i].date)
    && p[i].balance == (if i == 0 then opening else p[i - 1].balance) + p[i].inflow - p[i].outflow
  }

  /** `p` is a projection from `opening`: every entry is as `EntryAt` says. */
  predicate IsProjection(p: seq<Entry>, opening: real, today: Date, income: seq<IncomeRow>, expenses: seq<ExpenseRow>)
    requires today.Valid()
  {
    forall i: nat :: i < |p| ==> EntryAt(p, i, opening, today, income, expenses)
  }

  function Horizon(horizonDays: int): nat {
    if horizonDays > 0 then horizonDays else 0
  }

  /** `calculate_cashflow(start_balance, horizon_days)`. */
  method CalculateCashflow(hasCredentials: bool, startBalance: real, horizonDays: int, today: Date,
                           income: seq<IncomeRow>, expenses: seq<ExpenseRow>) returns (outcome: ProjectionOutcome)
    requires today.Valid()
    ensures outcome.MissingCredentials? <==> !hasCredentials
    ensures outcome.Projected? ==>
            && outcome.liquidCash == LiquidCash(startBalance, today, income, expenses)
            && |outcome.entries| == Horizon(horizonDays)
            && IsProjection(outcome.entries, outcome.liquidCash, today, income, expenses)
  {
    if !hasCredentials {
      return MissingCredentials;
    }
    var cash := LiquidCash(startBalance, today, income, expenses);
    var projection: seq<Entry> := [];
    var running := cash;
    var i := 1;
    while i <= horizonDays
      invariant 1 <= i <= Horizon(horizonDays) + 1
      invariant |projection| == i - 1
      invariant IsProjection(projection, cash, today, income, expenses)
      invariant running == if i == 1 then cash else projection[i - 2].balance
    {
      var day := AddDays(today, i);
      var inflow := DayInflow(income, day);
      var outflow := DayOutflow(expenses, day);
      running := running + inflow - outflow;
      ghost var before := projection;
      projection := projection + [Entry(day, running, inflow, outflow)];
      forall k: nat | k < |projection| ensures EntryAt(projection, k, cash, today, income, expenses) {
        if k < |before| {
          assert EntryAt(before, k, cash, today, income, expenses);
        }
      }
      i := i + 1;
    }
    return Projected(cash, projection);
  }

  /** The job keeps no state: the same records, start balance and day give
      the same projection. */
  lemma ProjectionUnique(p: seq<Entry>, q: seq<Entry>, opening: real, today: Date,
                         income: seq<IncomeRow>, expenses: seq<ExpenseRow>)
    requires today.Valid() && |p| == |q|
    requires IsProjection(p, opening, today, income, expenses)
    requires IsProjection(q, opening, today, income, expenses)
    ensures p == q
  {
    forall k | 0 <= k < |p| ensures p[k] == q[k] {
      EntriesAgree(p, q, opening, today, income, expenses, k);
    }
  }

  lemma {:induction false} EntriesAgree(p: seq<Entry>, q: seq<Entry>, opening: real, today: Date,
                                        income: seq<IncomeRow>, expenses: seq<ExpenseRow>, k: nat)
    requires today.Valid() && k < |p| == |q|
    requires IsProjection(p, opening, today, income, expenses)
    requires IsProjection(q, opening, today, income, expenses)
    ensures p[k] == q[k]
  {
    assert EntryAt(p, k, opening, today, income, expenses);
    assert EntryAt(q, k, opening, today, income, expenses);
    if k > 0 {
      EntriesAgree(p, q, opening, today, income, expenses, k - 1);
    }
  }

  /** Projection dates strictly increase and all lie after today, so today
      itself never appears. */
  lemma ProjectionDatesIncrease(p: seq<Entry>, opening: real, today: Date,
                                income: seq<IncomeRow>, expenses: seq<ExpenseRow>)
    requires today.Valid()
    requires IsProjection(p, opening, today, income, expenses)
    ensures forall i, j :: 0 <= i < j < |p| ==> Less(p[i].date, p[j].date)
    ensures forall i :: 0 <= i < |p| ==> Less(today, p[i].date) && p[i].date != today
  {
    forall i, j | 0 <= i < j < |p| ensures Less(p[i].date, p[j].date) {
      assert EntryAt(p, i, opening, today, income, expenses);
      assert EntryAt(p, j, opening, today, income, expenses);
      AddDaysMonotone(today, i + 1, j + 1);
    }
    forall i | 0 <= i < |p| ensures Less(today, p[i].date) {
      assert EntryAt(p, i, opening, today, income, expenses);
      AddDaysForward(today, i + 1);
    }
  }

  function NetTerm(e: Entry): real {
    e.inflow - e.outflow
  }

  /** Each balance is the opening cash plus the net flow of every day up to
      and including its own. */
  lemma {:induction false} BalanceIsCumulative(p: seq<Entry>, opening: real, today: Date,
                                              income: seq<IncomeRow>, expenses: seq<ExpenseRow>, k: nat)
    requires today.Valid() && k < |p|
    requires IsProjection(p, opening, today, income, expenses)
    ensures p[k].balance == opening + Sum(p[..k + 1], NetTerm)
  {
    SumStep(p, k, NetTerm);
    assert EntryAt(p, k, opening, today, income, expenses);
    if k > 0 {
      BalanceIsCumulative(p, opening, today, income, expenses, k - 1);
    }
  }

  /** With no records the liquid cash is the start balance and the projection
      stays flat at that value, with no inflow and no outflow. */
  lemma {:induction false} EmptyStoreIsFlat(p: seq<Entry>, startBalance: real, today: Date, k: nat)
    requires today.Valid() && k < |p|
    requires IsProjection(p, LiquidCash(startBalance, today, [], []), today, [], [])
    ensures LiquidCash(startBalance, today, [], []) == startBalance
    ensures p[k].inflow == 0.0 && p[k].outflow == 0.0 && p[k].balance == startBalance
  {
    assert EntryAt(p, k, LiquidCash(startBalance, today, [], []), today, [], []);
    if k > 0 {
      EmptyStoreIsFlat(p, startBalance, today, k - 1);
    }
  }

  /** RECEIVED and OVERDUE income never enters a day's inflow. */
  lemma ReceivedAndOverdueNeverInflow(income: seq<IncomeRow>, extra: seq<IncomeRow>, day: Date)
    requires forall i :: 0 <= i < |extra| ==> extra[i].status == "RECEIVED" || extra[i].status == "OVERDUE"
    ensures DayInflow(income + extra, day) == DayInflow(income, day)
  {
    SumAppend(income, extra, InflowTerm(day));
    SumOfZeros(extra, InflowTerm(day));
  }

  /** Expenses whose status lower-cases to `paid` never enter a day's
      outflow; a SCHEDULED or Planned expense dated that day does. */
  lemma PaidNeverOutflow(expenses: seq<ExpenseRow>, extra: seq<ExpenseRow>, day: Date)
    requires forall i :: 0 <= i < |extra| ==> Lower(extra[i].status) == "paid"
    ensures DayOutflow(expenses + extra, day) == DayOutflow(expenses, day)
  {
    SumAppend(expenses, extra, OutflowTerm(day));
    SumOfZeros(extra, OutflowTerm(day));
  }

  /** Only income of status exactly RECEIVED dated by today changes the
      liquid cash. */
  lemma LiquidCashIgnoresOtherIncome(startBalance: real, today: Date, income: seq<IncomeRow>,
                                     extra: seq<IncomeRow>, expenses: seq<ExpenseRow>)
    requires forall i :: 0 <= i < |extra| ==> extra[i].status != "RECEIVED" || !DatedBy(extra[i].date, today)
    ensures LiquidCash(startBalance, today, income + extra, expenses) == LiquidCash(startBalance, today, income, expenses)
  {
    SumAppend(income, extra, ReceivedTerm(today));
    SumOfZeros(extra, ReceivedTerm(today));
  }

  /** Only expenses of status exactly `Paid` dated by today change the
      liquid cash: an upper-case `PAID` row does not. */
  lemma LiquidCashIgnoresOtherExpenses(startBalance: real, today: Date, income: seq<IncomeRow>,
                                       expenses: seq<ExpenseRow>, extra: seq<ExpenseRow>)
    requires forall i :: 0 <= i < |extra| ==> extra[i].status != "Paid" || !DatedBy(extra[i].date, today)
    ensures LiquidCash(startBalance, today, income, expenses + extra) == LiquidCash(startBalance, today, income, expenses)
  {
    SumAppend(expenses, extra, PaidTerm(today));
    SumOfZeros(extra, PaidTerm(today));
  }

  /** The two status tests of the job disagree: an expense `PAID` in upper
      case is neither liquid cash nor a future outflow; one `Paid` dated today
      is taken from the liquid cash; one SCHEDULED dated `day` is an outflow. */
  lemma StatusTestsDiverge(e: ExpenseRow, today: Date, day: Date, amount: real)
    requires e.amount == Some(amount)
    ensures e.status == "PAID" ==> PaidTerm(today)(e) == 0.0 && OutflowTerm(day)(e) == 0.0
    ensures e.status == "Paid" && e.date == Some(today) ==> PaidTerm(today)(e) == amount
    ensures e.status == "SCHEDULED" && e.date == Some(day) ==> OutflowTerm(day)(e) == amount
  {
    assert Lower("PAID") == "paid";
    assert Lower("SCHEDULED") == "scheduled";
  }
}
