/** The cash-flow rules of the TypeScript engine (`src/lib/engines/cashflow.ts`):
    liquid cash, trailing three-month burn, runway and projected balance, all
    over the domain's typed entries. */
module CashEngine {
  import opened Wrappers
  import opened Calendar
  import opened Sums
  import opened Domain

  /** The cash an income entry has brought in: its received amount when it is
      RECEIVED or PARTIAL (never its expected amount). */
  function ReceivedCash(i: IncomeEntry): real {
    if i.status == RECEIVED || i.status == PARTIAL then i.amountReceived else 0.0
  }

  /** The cash an expense has taken out: its amount when it is PAID. */
  function PaidCash(e: ExpenseEntry): real {
    if e.status == PAID then e.amount else 0.0
  }

  /** `calculateLiquidCash(initialBalance, allIncome, allExpenses)`: the
      filter-then-reduce sums, written as sums of the masked amounts. */
  function LiquidCash(initialBalance: real, income: seq<IncomeEntry>, expenses: seq<ExpenseEntry>): real {
    initialBalance + Sum(income, ReceivedCash) - Sum(expenses, PaidCash)
  }

  /** Operational spend inside the trailing window: a PAID expense that is
      not ONE_OFF, whose payment date lies strictly after `reference` minus
      three months and strictly before `reference`. */
  predicate InBurnWindow(e: ExpenseEntry, reference: Date)
    requires reference.Valid()
  {
    && e.status == PAID && e.kind != ExpenseType.ONE_OFF && e.paidDate.Some?
    && Less(AddMonths(reference, -3), e.paidDate.value) && Less(e.paidDate.value, reference)
  }

  function BurnTerm(reference: Date): ExpenseEntry -> real
    requires reference.Valid()
  {
    (e: ExpenseEntry) => if InBurnWindow(e, reference) then e.amount else 0.0
  }

  /** `calculateMonthlyBurn(allExpenses, referenceDate)`: the window's spend
      divided by three, however many months actually hold data. */
  function MonthlyBurn(expenses: seq<ExpenseEntry>, reference: Date): real
    requires reference.Valid()
  {
    Sum(expenses, BurnTerm(reference)) / 3.0
  }

  /** `calculateRunway(liquidCash, monthlyBurn)`: 999 stands for an infinite
      runway when nothing is burnt; otherwise the months the cash lasts. */
  function Runway(liquidCash: real, monthlyBurn: real): (r: real)
    ensures monthlyBurn <= 0.0 ==> r == 999.0
    ensures monthlyBurn > 0.0 ==> r * monthlyBurn == liquidCash
    ensures monthlyBurn > 0.0 ==> (r < 0.0 <==> liquidCash < 0.0)
  {
    if monthlyBurn <= 0.0 then 999.0 else liquidCash / monthlyBurn
  }

  function OpenIncome(i: IncomeEntry): real {
    i.amountExpected - i.amountReceived
  }

  function ExpenseAmount(e: ExpenseEntry): real {
    e.amount
  }

  /** `projectedCashBalance(liquidCash, pendingIncome, pendingExpenses)`:
      the cash once every open receivable is collected and every pending
      expense paid. */
  function ProjectedCashBalance(liquidCash: real, pendingIncome: seq<IncomeEntry>, pendingExpenses: seq<ExpenseEntry>): (r: real)
    ensures pendingIncome == [] && pendingExpenses == [] ==> r == liquidCash
  {
    liquidCash + Sum(pendingIncome, OpenIncome) - Sum(pendingExpenses, ExpenseAmount)
  }

  /** Liquid cash grows by the received amount of a RECEIVED or PARTIAL
      entry and ignores PENDING and OVERDUE ones. */
  lemma LiquidCashIncomeStep(initialBalance: real, income: seq<IncomeEntry>, i: IncomeEntry, expenses: seq<ExpenseEntry>)
    ensures i.status == RECEIVED || i.status == PARTIAL ==>
            LiquidCash(initialBalance, income + [i], expenses) == LiquidCash(initialBalance, income, expenses) + i.amountReceived
    ensures i.status == PENDING || i.status == OVERDUE ==>
            LiquidCash(initialBalance, income + [i], expenses) == LiquidCash(initialBalance, income, expenses)
  {
    assert (income + [i])[..|income|] == income;
  }

  /** Liquid cash falls by the amount of a PAID expense and ignores PLANNED
      and PENDING_PAYMENT ones. */
  lemma LiquidCashExpenseStep(initialBalance: real, income: seq<IncomeEntry>, expenses: seq<ExpenseEntry>, e: ExpenseEntry)
    ensures e.status == PAID ==>
            LiquidCash(initialBalance, income, expenses + [e]) == LiquidCash(initialBalance, income, expenses) - e.amount
    ensures e.status != PAID ==>
            LiquidCash(initialBalance, income, expenses + [e]) == LiquidCash(initialBalance, income, expenses)
  {
    assert (expenses + [e])[..|expenses|] == expenses;
  }

  /** Liquid cash reads only the status and the received amount of each
      income entry: entries that differ in their expected amounts give the
      same liquid cash. */
  lemma {:induction false} LiquidCashIgnoresExpected(initialBalance: real, a: seq<IncomeEntry>, b: seq<IncomeEntry>,
                                                     expenses: seq<ExpenseEntry>)
    requires |a| == |b|
    requires forall k :: 0 <= k < |a| ==> a[k].status == b[k].status && a[k].amountReceived == b[k].amountReceived
    ensures LiquidCash(initialBalance, a, expenses) == LiquidCash(initialBalance, b, expenses)
    decreases |a|
  {
    if |a| > 0 {
      LiquidCashIgnoresExpected(initialBalance, a[..|a| - 1], b[..|b| - 1], expenses);
    }
  }

  /** Without qualifying expenses the burn is zero; with well-formed
      (positive) expenses it is never negative. */
  lemma BurnBounds(expenses: seq<ExpenseEntry>, reference: Date)
    requires reference.Valid()
    ensures (forall k :: 0 <= k < |expenses| ==> !InBurnWindow(expenses[k], reference)) ==> MonthlyBurn(expenses, reference) == 0.0
    ensures (forall k :: 0 <= k < |expenses| ==> expenses[k].WellFormed()) ==> MonthlyBurn(expenses, reference) >= 0.0
  {
    if forall k :: 0 <= k < |expenses| ==> !InBurnWindow(expenses[k], reference) {
      SumOfZeros(expenses, BurnTerm(reference));
    }
    if forall k :: 0 <= k < |expenses| ==> expenses[k].WellFormed() {
      SumNonNegative(expenses, BurnTerm(reference));
    }
  }

  /** A payment on the reference day itself, or on the day three months
      before it, is outside the window; so is any ONE_OFF expense. */
  lemma BurnWindowIsOpen(e: ExpenseEntry, reference: Date)
    requires reference.Valid()
    ensures e.paidDate == Some(reference) ==> !InBurnWindow(e, reference)
    ensures e.paidDate == Some(AddMonths(reference, -3)) ==> !InBurnWindow(e, reference)
    ensures e.kind == ExpenseType.ONE_OFF ==> !InBurnWindow(e, reference)
  {
  }

  /** Collecting open receivables only raises the projection: with no pending
      expenses and received amounts not above the expected ones, the projected
      balance is at least the liquid cash. */
  lemma ProjectionAtLeastCash(liquidCash: real, pendingIncome: seq<IncomeEntry>)
    requires forall k :: 0 <= k < |pendingIncome| ==> pendingIncome[k].amountReceived <= pendingIncome[k].amountExpected
    ensures ProjectedCashBalance(liquidCash, pendingIncome, []) >= liquidCash
  {
    SumNonNegative(pendingIncome, OpenIncome);
  }

  /** One more open receivable raises the projection by what is still to
      be collected on it; one more pending expense lowers it by its amount. */
  lemma ProjectionStep(liquidCash: real, pendingIncome: seq<IncomeEntry>, pendingExpenses: seq<ExpenseEntry>,
                       i: IncomeEntry, e: ExpenseEntry)
    ensures ProjectedCashBalance(liquidCash, pendingIncome + [i], pendingExpenses)
            == ProjectedCashBalance(liquidCash, pendingIncome, pendingExpenses) + (i.amountExpected - i.amountReceived)
    ensures ProjectedCashBalance(liquidCash, pendingIncome, pendingExpenses + [e])
            == ProjectedCashBalance(liquidCash, pendingIncome, pendingExpenses) - e.amount
  {
    assert (pendingIncome + [i])[..|pendingIncome|] == pendingIncome;
    assert (pendingExpenses + [e])[..|pendingExpenses|] == pendingExpenses;
  }
}
