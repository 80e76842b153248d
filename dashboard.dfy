/** The dashboard's ledger rules (`src/app/page.tsx`): the auto-overdue sweep
    run on load, the cash-basis totals and margins, and the checks and
    payloads of the add-transaction form.  Today's date is a parameter; the
    confirmation dialog's answer and the outcome of each store call are
    parameters too. */
module Dashboard {
  import opened Wrappers
  import opened Calendar
  import opened Sums
  import opened Records

  /** Days past due after which a row is marked OVERDUE. */
  const GracePeriodDays: int := 7

  /** `format(today - 7 days)`: rows dated strictly before it are past due. */
  function SweepThreshold(today: Date): Date
    requires today.Valid()
  {
    AddDays(today, -GracePeriodDays)
  }

  /** The candidate query: status neither RECEIVED nor OVERDUE and original
      date before the threshold (a null date never compares). */
  predicate SweepCandidate(r: IncomeRow, threshold: Date) {
    r.status != "RECEIVED" && r.status != "OVERDUE" && r.date.Some? && Less(r.date.value, threshold)
  }

  /** `item.expected_date || item.date`: a snoozed row's expected date wins. */
  function EffectiveDate(r: IncomeRow): Option<Date> {
    if r.expectedDate.Some? then r.expectedDate else r.date
  }

  /** A candidate whose effective date is also before the threshold. */
  predicate PastDue(r: IncomeRow, threshold: Date) {
    SweepCandidate(r, threshold) && Less(EffectiveDate(r).value, threshold)
  }

  /** The ids of the past-due rows, in table order. */
  function OverdueIds(income: seq<IncomeRow>, threshold: Date): seq<string> {
    if |income| == 0 then []
    else
      var last := income[|income| - 1];
      OverdueIds(income[..|income| - 1], threshold) + (if PastDue(last, threshold) then [last.id] else [])
  }

  /** `update({status: 'OVERDUE'}).in('id', ids)`. */
  function MarkOverdue(income: seq<IncomeRow>, ids: seq<string>): (r: seq<IncomeRow>)
    ensures |r| == |income|
  {
    seq(|income|, k requires 0 <= k < |income| => if income[k].id in ids then income[k].(status := "OVERDUE") else income[k])
  }

  /** The sweep: when the candidate query fails nothing changes; otherwise
      every row whose id is past due becomes OVERDUE. */
  method SweepOverdue(store: Store, today: Date, fetchFails: bool)
    requires today.Valid()
    modifies store
    ensures fetchFails ==> store.income == old(store.income)
    ensures !fetchFails ==> store.income == MarkOverdue(old(store.income), OverdueIds(old(store.income), SweepThreshold(today)))
    ensures store.expenses == old(store.expenses) && store.instances == old(store.instances)
    ensures store.recurringRules == old(store.recurringRules)
  {
    if fetchFails {
      return;
    }
    var overdueIds := OverdueIds(store.income, SweepThreshold(today));
    if |overdueIds| > 0 {
      store.income := MarkOverdue(store.income, overdueIds);
    } else {
      assert MarkOverdue(store.income, overdueIds) == store.income;
    }
  }

  /** An id is selected iff some row with that id is past due. */
  lemma {:induction false} OverdueIdsSelect(income: seq<IncomeRow>, threshold: Date, id: string)
    ensures id in OverdueIds(income, threshold) <==>
            exists k :: 0 <= k < |income| && income[k].id == id && PastDue(income[k], threshold)
    decreases |income|
  {
    if |income| > 0 {
      var init := income[..|income| - 1];
      OverdueIdsSelect(init, threshold, id);
      if exists k :: 0 <= k < |init| && init[k].id == id && PastDue(init[k], threshold) {
        var k :| 0 <= k < |init| && init[k].id == id && PastDue(init[k], threshold);
        assert income[k] == init[k];
      }
      if exists k :: 0 <= k < |income| && income[k].id == id && PastDue(income[k], threshold) {
        var k :| 0 <= k < |income| && income[k].id == id && PastDue(income[k], threshold);
        if k < |init| {
          assert init[k] == income[k];
        }
      }
    }
  }

  /** No two rows share an id. */
  predicate UniqueIds(income: seq<IncomeRow>) {
    forall i, j :: 0 <= i < j < |income| ==> income[i].id != income[j].id
  }

  /** Some row with this id is past due. */
  predicate IdPastDue(income: seq<IncomeRow>, id: string, threshold: Date) {
    exists j :: 0 <= j < |income| && income[j].id == id && PastDue(income[j], threshold)
  }

  /** What the sweep does to one row `r` that was `before`: only its status
      changes, only to OVERDUE, and only when its id is past due; with
      unique ids, exactly the past-due rows change. */
  predicate SweptRow(income: seq<IncomeRow>, threshold: Date, before: IncomeRow, r: IncomeRow) {
    && (r == before || r == before.(status := "OVERDUE"))
    && (r != before ==> IdPastDue(income, before.id, threshold))
    && (UniqueIds(income) ==> if PastDue(before, threshold) then r.status == "OVERDUE" else r == before)
  }

  lemma SweepRow(income: seq<IncomeRow>, threshold: Date, k: int)
    requires 0 <= k < |income|
    ensures SweptRow(income, threshold, income[k], MarkOverdue(income, OverdueIds(income, threshold))[k])
  {
    OverdueIdsSelect(income, threshold, income[k].id);
  }

  /** The sweep changes only the status, only to OVERDUE, and only of rows
      whose id belongs to a past-due row; with unique ids, exactly the
      past-due rows change, so RECEIVED and OVERDUE rows and rows snoozed to
      a date not before the threshold are left as they were, while an
      ARCHIVED row past due is marked. */
  lemma SweepMarksExactlyPastDue(income: seq<IncomeRow>, threshold: Date)
    ensures forall k :: 0 <= k < |income| ==>
              SweptRow(income, threshold, income[k], MarkOverdue(income, OverdueIds(income, threshold))[k])
  {
    forall k | 0 <= k < |income|
      ensures SweptRow(income, threshold, income[k], MarkOverdue(income, OverdueIds(income, threshold))[k])
    {
      SweepRow(income, threshold, k);
    }
  }

  /** The figures the dashboard shows. */
  datatype Financials = Financials(
    revenue: real, expenses: real, netProfit: real, margin: real,
    monthlyRevenue: real, monthlyExpenses: real, monthlyNetProfit: real, monthlyMargin: real)

  /** Cash basis: an income row counts with its amount iff its status is
      exactly RECEIVED. */
  function ReceivedAmount(r: IncomeRow): real {
    if r.status == "RECEIVED" then r.amount else 0.0
  }

  /** An expense counts iff its status is exactly PAID; a null amount counts
      as `Number(null)`, 0. */
  function PaidAmount(e: ExpenseRow): real {
    if e.status == "PAID" then e.amount.GetOr(0.0) else 0.0
  }

  /** A row dated on or after `monthStart` (a null date never compares). */
  predicate DatedFrom(date: Option<Date>, monthStart: Date) {
    date.Some? && !Less(date.value, monthStart)
  }

  function MonthlyReceivedAmount(monthStart: Date): IncomeRow -> real {
    (r: IncomeRow) => if DatedFrom(r.date, monthStart) then ReceivedAmount(r) else 0.0
  }

  function MonthlyPaidAmount(monthStart: Date): ExpenseRow -> real {
    (e: ExpenseRow) => if DatedFrom(e.date, monthStart) then PaidAmount(e) else 0.0
  }

  /** The margin in percent: net profit over revenue when revenue is
      positive, otherwise 0. */
  function Margin(netProfit: real, revenue: real): (m: real)
    ensures revenue > 0.0 ==> m * revenue == netProfit * 100.0
    ensures revenue <= 0.0 ==> m == 0.0
    ensures revenue > 0.0 ==> (m < 0.0 <==> netProfit < 0.0)
  {
    if revenue > 0.0 then (netProfit / revenue) * 100.0 else 0.0
  }

  /** `fetchFinancials()`: lifetime and current-month totals, net profit
      and margin. */
  function FetchFinancials(income: seq<IncomeRow>, expenses: seq<ExpenseRow>, today: Date): Financials
    requires today.Valid()
  {
    var monthStart := MonthOf(today).First();
    var revenue := Sum(income, ReceivedAmount);
    var spent := Sum(expenses, PaidAmount);
    var monthlyRevenue := Sum(income, MonthlyReceivedAmount(monthStart));
    var monthlySpent := Sum(expenses, MonthlyPaidAmount(monthStart));
    Financials(revenue, spent, revenue - spent, Margin(revenue - spent, revenue),
               monthlyRevenue, monthlySpent, monthlyRevenue - monthlySpent,
               Margin(monthlyRevenue - monthlySpent, monthlyRevenue))
  }

  function EarlierReceivedAmount(monthStart: Date): IncomeRow -> real {
    (r: IncomeRow) => if DatedFrom(r.date, monthStart) then 0.0 else ReceivedAmount(r)
  }

  /** Sums of two masks that add up to a third add up. */
  lemma {:induction false} SumSplit<T>(s: seq<T>, f: T -> real, g: T -> real, h: T -> real)
    requires forall x :: f(x) == g(x) + h(x)
    ensures Sum(s, f) == Sum(s, g) + Sum(s, h)
    decreases |s|
  {
    if |s| > 0 {
      SumSplit(s[..|s| - 1], f, g, h);
    }
  }

  /** The lifetime revenue is this month's revenue plus the revenue of
      RECEIVED rows dated before this month (or undated); with
      non-negative amounts this month's revenue never exceeds it. */
  lemma RevenueSplitsAtMonthStart(income: seq<IncomeRow>, expenses: seq<ExpenseRow>, today: Date)
    requires today.Valid()
    ensures var f := FetchFinancials(income, expenses, today);
            f.revenue == f.monthlyRevenue + Sum(income, EarlierReceivedAmount(MonthOf(today).First()))
    ensures (forall k :: 0 <= k < |income| ==> income[k].amount >= 0.0) ==>
            FetchFinancials(income, expenses, today).monthlyRevenue <= FetchFinancials(income, expenses, today).revenue
  {
    var monthStart := MonthOf(today).First();
    SumSplit(income, ReceivedAmount, MonthlyReceivedAmount(monthStart), EarlierReceivedAmount(monthStart));
    if forall k :: 0 <= k < |income| ==> income[k].amount >= 0.0 {
      SumNonNegative(income, EarlierReceivedAmount(monthStart));
    }
  }

  /** Only the exact spellings count: an expense whose status is 'Paid' or
      'paid' adds nothing to the dashboard's expenses. */
  lemma ExactPaidOnly(income: seq<IncomeRow>, e: ExpenseRow, today: Date)
    requires today.Valid() && e.status != "PAID"
    ensures FetchFinancials(income, [e], today).expenses == 0.0
    ensures FetchFinancials(income, [e], today).netProfit == FetchFinancials(income, [], today).revenue
  {
    assert [e][..0] == [];
    assert Sum([e], PaidAmount) == Sum([], PaidAmount) + PaidAmount(e);
  }

  /** A character the amount sanitiser keeps: a digit or '.'. */
  predicate AmountChar(c: char) {
    ('0' <= c <= '9') || c == '.'
  }

  predicate IsDigit(c: char) {
    '0' <= c <= '9'
  }

  /** `replace(/[^0-9.]/g, '')`. */
  function CleanAmount(s: string): (r: string)
    ensures |r| <= |s|
    ensures forall c :: c in r <==> c in s && AmountChar(c)
  {
    if |s| == 0 then ""
    else CleanAmount(s[..|s| - 1]) + (if AmountChar(s[|s| - 1]) then [s[|s| - 1]] else "")
  }

  /** Sanitising works character by character and keeps the order: the
      cleaned concatenation is the concatenation of the cleaned parts. */
  lemma {:induction false} CleanAmountAppend(a: string, b: string)
    ensures CleanAmount(a + b) == CleanAmount(a) + CleanAmount(b)
    decreases |b|
  {
    if |b| == 0 {
      assert a + b == a;
    } else {
      var b' := b[..|b| - 1];
      assert (a + b)[..|a + b| - 1] == a + b';
      assert (a + b)[|a + b| - 1] == b[|b| - 1];
      CleanAmountAppend(a, b');
    }
  }

  /** A single character survives sanitising exactly when it is a digit or a dot. */
  lemma CleanAmountChar(c: char)
    ensures CleanAmount([c]) == (if AmountChar(c) then [c] else [])
  {
    assert [c][..0] == [];
  }

  /** The length of the longest prefix of digits. */
  function DigitRun(s: string): (n: nat)
    ensures n <= |s|
    ensures forall i :: 0 <= i < n ==> IsDigit(s[i])
    ensures n < |s| ==> !IsDigit(s[n])
  {
    if |s| == 0 || !IsDigit(s[0]) then 0 else 1 + DigitRun(s[1..])
  }

  /** The value of a string of decimal digits. */
  function DigitsValue(s: string): nat {
    if |s| == 0 then 0
    else DigitsValue(s[..|s| - 1]) * 10 + (s[|s| - 1] as int - '0' as int) % 10
  }

  function Pow10(n: nat): (p: nat)
    ensures p >= 1
  {
    if n == 0 then 1 else 10 * Pow10(n - 1)
  }

  /** `parseFloat` on a string of digits and dots: the longest prefix of the
      form digits, optional '.', digits; NaN (None) when that prefix holds
      no digit. */
  function ParseFloat(s: string): (r: Option<real>)
    ensures r.Some? ==> r.value >= 0.0
  {
    var n := DigitRun(s);
    if n < |s| && s[n] == '.' then
      var m := DigitRun(s[n + 1..]);
      if n == 0 && m == 0 then None
      else Some(DigitsValue(s[..n]) as real + DigitsValue(s[n + 1..][..m]) as real / Pow10(m) as real)
    else if n == 0 then None
    else Some(DigitsValue(s[..n]) as real)
  }

  /** The decimal spelling of a natural number. */
  function Spelled(n: nat): (s: string)
    ensures |s| >= 1 && forall i :: 0 <= i < |s| ==> IsDigit(s[i])
  {
    if n < 10 then [('0' as int + n) as char]
    else Spelled(n / 10) + [('0' as int + n % 10) as char]
  }

  /** The digits of a spelled number read back as the number. */
  lemma {:induction false} SpelledValue(n: nat)
    ensures DigitsValue(Spelled(n)) == n
    decreases n
  {
    if n >= 10 {
      SpelledValue(n / 10);
      var s := Spelled(n);
      assert s[..|s| - 1] == Spelled(n / 10);
    }
  }

  /** `parseFloat` reads a whole digit string. */
  lemma {:induction false} DigitRunOfDigits(s: string)
    requires forall i :: 0 <= i < |s| ==> IsDigit(s[i])
    ensures DigitRun(s) == |s|
    decreases |s|
  {
    if |s| > 0 {
      DigitRunOfDigits(s[1..]);
    }
  }

  /** A whole amount typed without decoration parses back to itself. */
  lemma ParseSpelled(n: nat)
    ensures ParseFloat(Spelled(n)) == Some(n as real)
  {
    DigitRunOfDigits(Spelled(n));
    SpelledValue(n);
    assert Spelled(n)[..|Spelled(n)|] == Spelled(n);
  }

  /** The add-transaction form. */
  datatype TransactionForm = TransactionForm(
    kind: string,
    amount: string,
    description: string,
    paymentMethod: string,
    category: string,
    clientId: Option<string>,
    serviceId: Option<string>,
    serviceName: string,
    date: Date,
    status: string)

  /** What a submission does: a rejection, or the row to insert. */
  datatype Submission =
    | InvalidAmount
    | MissingService
    | Cancelled
    | InsertIncome(income: IncomeRow)
    | InsertExpense(expense: ExpenseRow)

  /** A null or empty optional id. */
  predicate Blank(id: Option<string>) {
    id.None? || id.value == ""
  }

  /** The amount the form submits, when it is a number above zero. */
  function FormAmount(form: TransactionForm): Option<real> {
    var v := ParseFloat(CleanAmount(form.amount));
    if v.Some? && v.value > 0.0 then v else None
  }

  /** `handleAddTransaction`: the amount check, then for income the
      service check and the no-client confirmation, then the row to insert.
      `confirmNoClient` is the user's answer to the confirmation. */
  function Submit(form: TransactionForm, confirmNoClient: bool, id: string): (s: Submission)
    ensures s == InvalidAmount <==> FormAmount(form).None?
    ensures s.InsertIncome? ==> form.kind == "income" && !Blank(form.serviceId)
                                && s.income.amount == FormAmount(form).value && s.income.amount > 0.0
                                && s.income.serviceId == form.serviceId && s.income.clientId == form.clientId
                                && s.income.date == Some(form.date) && s.income.status == form.status
    ensures s.InsertExpense? ==> form.kind != "income" && s.expense.amount == FormAmount(form)
                                 && s.expense.vendor == form.description && s.expense.category != ""
    ensures s == MissingService <==> FormAmount(form).Some? && form.kind == "income" && Blank(form.serviceId)
    ensures s == Cancelled <==> FormAmount(form).Some? && form.kind == "income" && !Blank(form.serviceId)
                                && Blank(form.clientId) && !confirmNoClient
    ensures s.InsertIncome? <==> FormAmount(form).Some? && form.kind == "income" && !Blank(form.serviceId)
                                 && (!Blank(form.clientId) || confirmNoClient)
    ensures s.InsertExpense? <==> FormAmount(form).Some? && form.kind != "income"
    ensures s.InsertIncome? ==> s.income.category == (if form.serviceName != "" then form.serviceName else form.category)
                                && s.income.description == form.description && s.income.paymentMethod == form.paymentMethod
    ensures s.InsertExpense? ==> s.expense.date == Some(form.date) && s.expense.status == form.status
                                 && s.expense.paymentMethod == form.paymentMethod
                                 && s.expense.category == (if form.category != "" then form.category else "General")
  {
    var amount := FormAmount(form);
    if amount.None? then InvalidAmount
    else if form.kind == "income" then
      if Blank(form.serviceId) then MissingService
      else if Blank(form.clientId) && !confirmNoClient then Cancelled
      else InsertIncome(NewIncome(id, amount.value, form.date, form.status, form.description,
                                  if form.serviceName != "" then form.serviceName else form.category,
                                  form.clientId, form.serviceId, form.paymentMethod, None))
    else
      InsertExpense(ExpenseRow(id, amount, Some(form.date), form.status, form.description, form.description, "",
                               if form.category != "" then form.category else "General", form.paymentMethod, None))
  }

  /** The submission against the store: the row is inserted unless the form
      is rejected or the insert fails. */
  method AddTransaction(store: Store, form: TransactionForm, confirmNoClient: bool, insertFails: bool, id: string)
    returns (inserted: bool)
    modifies store
    ensures var s := Submit(form, confirmNoClient, id);
            && (inserted <==> !insertFails && (s.InsertIncome? || s.InsertExpense?))
            && store.income == (if inserted && s.InsertIncome? then old(store.income) + [s.income] else old(store.income))
            && store.expenses == (if inserted && s.InsertExpense? then old(store.expenses) + [s.expense] else old(store.expenses))
    ensures store.instances == old(store.instances) && store.recurringRules == old(store.recurringRules)
  {
    var s := Submit(form, confirmNoClient, id);
    inserted := false;
    if !insertFails {
      match s {
        case InsertIncome(row) =>
          store.income := store.income + [row];
          inserted := true;
        case InsertExpense(row) =>
          store.expenses := store.expenses + [row];
          inserted := true;
        case _ =>
      }
    }
  }

  /** `parseFloat` stops at a second dot, and a lone dot is NaN. */
  lemma DotExamples()
    ensures ParseFloat("1.2.3") == Some(1.2)
    ensures ParseFloat(".") == None
  {
    assert "1.2.3"[..1] == "1";
    assert "1.2.3"[2..][..1] == "2";
  }
}
