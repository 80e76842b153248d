/** The cash-flow and runway chart of the analytics page: per-month inflow
    and burn, the last six months, the average burn of the last three and
    the months of runway the liquid cash buys at that burn. */
module CashflowRunway {
  import opened Wrappers
  import opened Sums
  import opened Sorting
  import opened Records
  import opened MonthBuckets

  /** `.slice(-6)` on the chart rows. */
  const ChartMonths := 6
  /** `.slice(-3)` for the average burn. */
  const BurnMonths := 3

  /** A chart row: the month, its inflow and burn, and the net flow. */
  datatype FlowRow = FlowRow(key: int, inflow: real, burn: real, net: real)

  function RowMonth(r: FlowRow): int {
    r.key
  }

  function Burn(r: FlowRow): real {
    r.burn
  }

  /** A month's row as the records define it: the month's received income
      as inflow, its paid expenses as burn, and inflow minus burn as net. */
  function MonthRow(income: seq<IncomeRow>, expenses: seq<ExpenseRow>): int -> FlowRow {
    (k: int) =>
      var inflow := Sum(income, InflowIn(k));
      var burn := Sum(expenses, BurnIn(k));
      FlowRow(k, inflow, burn, inflow - burn)
  }

  /** The row the chart builds from a bucket. */
  function BucketRow(stats: map<int, Flow>): int -> FlowRow {
    (k: int) =>
      var f := if k in stats then stats[k] else Flow(0.0, 0.0);
      FlowRow(k, f.inflow, f.burn, f.inflow - f.burn)
  }

  /** Rows built from the buckets are the months' rows. */
  lemma BucketRowsAreMonthRows(income: seq<IncomeRow>, expenses: seq<ExpenseRow>, keys: seq<int>, stats: map<int, Flow>)
    requires Tally(income, expenses, keys, stats)
    ensures RowsFor(keys, BucketRow(stats)) == RowsFor(keys, MonthRow(income, expenses))
  {
    var a := RowsFor(keys, BucketRow(stats));
    var b := RowsFor(keys, MonthRow(income, expenses));
    forall i | 0 <= i < |keys|
      ensures a[i] == b[i]
    {
      assert keys[i] in keys;
    }
  }

  /** The mean burn of the last (up to) three chart rows; 0 without rows. */
  function AverageBurn(chart: seq<FlowRow>): (avg: real)
    ensures |chart| == 0 ==> avg == 0.0
  {
    var recent := TakeLast(chart, BurnMonths);
    if |recent| > 0 then Sum(recent, Burn) / (|recent| as real) else 0.0
  }

  /** The average burn times the number of months averaged is their total
      burn, so it lies between the least and the greatest of those burns. */
  lemma AverageBurnIsMean(chart: seq<FlowRow>, lo: real, hi: real)
    requires |chart| > 0
    requires forall r :: r in TakeLast(chart, BurnMonths) ==> lo <= r.burn <= hi
    ensures AverageBurn(chart) * (|TakeLast(chart, BurnMonths)| as real) == Sum(TakeLast(chart, BurnMonths), Burn)
    ensures lo <= AverageBurn(chart) <= hi
  {
    var recent := TakeLast(chart, BurnMonths);
    TotalBetween(recent, lo, hi);
    MeanBetween(AverageBurn(chart), Sum(recent, Burn), |recent| as real, lo, hi);
  }

  lemma TotalBetween(recent: seq<FlowRow>, lo: real, hi: real)
    requires forall r :: r in recent ==> lo <= r.burn <= hi
    ensures (|recent| as real) * lo <= Sum(recent, Burn) <= (|recent| as real) * hi
  {
    assert forall i :: 0 <= i < |recent| ==> recent[i] in recent;
    SumAtLeast(recent, Burn, lo);
    SumAtMost(recent, Burn, hi);
  }

  /** A total of `n` terms, each between `lo` and `hi`, averages between
      them. */
  lemma MeanBetween(mean: real, total: real, n: real, lo: real, hi: real)
    requires n > 0.0 && mean == total / n && n * lo <= total <= n * hi
    ensures mean * n == total && lo <= mean <= hi
  {
  }

  /** `runwayMonths`: `None` stands for "∞", shown unless the average
      burn is positive; otherwise the non-negative part of the liquid cash
      over the average burn. */
  function Runway(liquidity: real, avgBurn: real): (months: Option<real>)
    ensures months.None? <==> avgBurn <= 0.0
    ensures months.Some? ==> months.value >= 0.0
    ensures months.Some? ==> months.value * avgBurn == (if liquidity > 0.0 then liquidity else 0.0)
    ensures months.Some? && liquidity <= 0.0 ==> months.value == 0.0
  {
    if avgBurn > 0.0 then Some((if liquidity > 0.0 then liquidity else 0.0) / avgBurn) else None
  }

  /** More cash never shortens the runway. */
  lemma RunwayGrowsWithCash(less: real, more: real, avgBurn: real)
    requires less <= more && avgBurn > 0.0
    ensures Runway(less, avgBurn).value <= Runway(more, avgBurn).value
  {
    var a := Runway(less, avgBurn).value;
    var b := Runway(more, avgBurn).value;
    assert a * avgBurn <= b * avgBurn;
  }

  /** `CashflowRunway`: the chart of the latest six months with a received
      or paid record, the average burn of its last three rows and the
      runway at that burn. */
  method CashflowRunway(income: seq<IncomeRow>, expenses: seq<ExpenseRow>, totalLiquidity: real)
    returns (chart: seq<FlowRow>, avgBurn: real, runway: Option<real>)
    requires ReceivedDated(income) && PaidDated(expenses)
    ensures LatestMonths(chart, RowMonth, Months(income, expenses), MonthRow(income, expenses), ChartMonths)
    ensures avgBurn == AverageBurn(chart) && runway == Runway(totalLiquidity, avgBurn)
  {
    var keys, stats := CollectFlows(income, expenses);
    chart := Window(keys, BucketRow(stats), RowMonth, ChartMonths);
    BucketRowsAreMonthRows(income, expenses, keys, stats);
    WindowShowsLatestMonths(keys, Months(income, expenses), MonthRow(income, expenses), RowMonth, ChartMonths);
    avgBurn := AverageBurn(chart);
    runway := Runway(totalLiquidity, avgBurn);
  }
}
