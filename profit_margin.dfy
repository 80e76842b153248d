/** The profit-margin trend of the analytics page: per-month revenue and
    paid expenses, the net profit and the margin in percent, for the last
    twelve months. */
module ProfitMarginTrend {
  import opened Sums
  import opened Records
  import opened MonthBuckets
  import Dashboard

  /** `.slice(-12)`. */
  const TrendMonths := 12

  /** A trend row: the month, its revenue, its net profit and its margin. */
  datatype MarginRow = MarginRow(key: int, revenue: real, netProfit: real, margin: real)

  function RowMonth(r: MarginRow): int {
    r.key
  }

  /** The row of a month with revenue `revenue` and expense `expense`. */
  function RowOf(key: int, revenue: real, expense: real): MarginRow {
    MarginRow(key, revenue, revenue - expense, Dashboard.Margin(revenue - expense, revenue))
  }

  /** A month's row as the records define it: its received income against
      its paid expenses. */
  function MonthRow(income: seq<IncomeRow>, expenses: seq<ExpenseRow>): int -> MarginRow {
    (k: int) => RowOf(k, Sum(income, InflowIn(k)), Sum(expenses, BurnIn(k)))
  }

  /** The row the chart builds from a bucket. */
  function BucketRow(stats: map<int, Flow>): int -> MarginRow {
    (k: int) =>
      var f := if k in stats then stats[k] else Flow(0.0, 0.0);
      RowOf(k, f.inflow, f.burn)
  }

  /** Net profit is revenue less expense; with positive revenue the margin
      is the net profit as a percentage of it, with the sign of the net
      profit; a month without revenue has margin 0. */
  lemma RowMeaning(key: int, revenue: real, expense: real)
    ensures RowOf(key, revenue, expense).netProfit + expense == revenue
    ensures revenue > 0.0 ==> RowOf(key, revenue, expense).margin * revenue == (revenue - expense) * 100.0
    ensures revenue > 0.0 ==> (RowOf(key, revenue, expense).margin < 0.0 <==> expense > revenue)
    ensures revenue <= 0.0 ==> RowOf(key, revenue, expense).margin == 0.0
  {
  }

  /** A month with paid expenses and no revenue shows margin 0 and a
      negative net profit. */
  lemma ExpenseOnlyMonth(income: seq<IncomeRow>, expenses: seq<ExpenseRow>, k: int)
    requires Sum(income, InflowIn(k)) == 0.0 && Sum(expenses, BurnIn(k)) > 0.0
    ensures MonthRow(income, expenses)(k).margin == 0.0
    ensures MonthRow(income, expenses)(k).netProfit < 0.0
  {
  }

  /** Rows built from the buckets are the months' rows. */
  lemma BucketRowsAreMonthRows(income: seq<IncomeRow>, expenses: seq<ExpenseRow>, keys: seq<int>, stats: map<int, Flow>)
    requires Tally(income, expenses, keys, stats)
    ensures RowsFor(keys, BucketRow(stats)) == RowsFor(keys, MonthRow(income, expenses))
  {
    var a := RowsFor(keys, BucketRow(stats));
    var b := RowsFor(keys, MonthRow(income, expenses));
    forall i | 0 <= i < |keys|
      ensures a[i] == b[i]
    {
      assert keys[i] in keys;
    }
  }

  /** `ProfitMarginTrend`: the rows of the latest twelve months with a
      received or paid record, oldest first. */
  method ProfitMarginTrend(income: seq<IncomeRow>, expenses: seq<ExpenseRow>) returns (chart: seq<MarginRow>)
    requires ReceivedDated(income) && PaidDated(expenses)
    ensures LatestMonths(chart, RowMonth, Months(income, expenses), MonthRow(income, expenses), TrendMonths)
  {
    var keys, stats := CollectFlows(income, expenses);
    chart := Window(keys, BucketRow(stats), RowMonth, TrendMonths);
    BucketRowsAreMonthRows(income, expenses, keys, stats);
    WindowShowsLatestMonths(keys, Months(income, expenses), MonthRow(income, expenses), RowMonth, TrendMonths);
  }
}
