/** The outstanding tracker of the analytics page: every income record's
    month gets a bucket, and the bucket sums the month's received, pending
    and overdue amounts; the chart shows the last six months. */
module OutstandingTracker {
  import opened Sums
  import opened Records
  import opened MonthBuckets

  /** `.slice(-6)`. */
  const TrackerMonths := 6

  /** Every record carries a date: `format` throws on the invalid date
      `parseISO` makes of a missing one, whatever the status. */
  predicate AllDated(income: seq<IncomeRow>) {
    forall k :: 0 <= k < |income| ==> income[k].date.Some?
  }

  /** A record's amount, counted in its own month when its status is
      exactly `status`. */
  function StatusIn(status: string, key: int): IncomeRow -> real {
    (r: IncomeRow) => if r.status == status && r.date.Some? && MonthKey(r.date.value) == key then r.amount else 0.0
  }

  predicate Tracked(status: string) {
    status == "RECEIVED" || status == "PENDING" || status == "OVERDUE"
  }

  /** A record's amount, counted in its own month when its status is one
      of the three the tracker shows. */
  function TrackedIn(key: int): IncomeRow -> real {
    (r: IncomeRow) => if Tracked(r.status) && r.date.Some? && MonthKey(r.date.value) == key then r.amount else 0.0
  }

  /** The months of the dated records, whatever their status. */
  function IncomeMonths(income: seq<IncomeRow>): set<int> {
    if |income| == 0 then {}
    else
      var r := income[|income| - 1];
      IncomeMonths(income[..|income| - 1]) + (if r.date.Some? then {MonthKey(r.date.value)} else {})
  }

  /** A month's bucket. */
  datatype Owed = Owed(received: real, pending: real, overdue: real)

  /** The bucket the records define for month `k`. */
  function OwedIn(income: seq<IncomeRow>, k: int): Owed {
    Owed(Sum(income, StatusIn("RECEIVED", k)), Sum(income, StatusIn("PENDING", k)), Sum(income, StatusIn("OVERDUE", k)))
  }

  /** One key per month with a record, each seen once. */
  ghost predicate OwedMonthsSeen(income: seq<IncomeRow>, keys: seq<int>, stats: map<int, Owed>) {
    && DistinctKeys(keys)
    && (forall k :: k in keys <==> k in stats)
    && stats.Keys == IncomeMonths(income)
  }

  /** Each month's bucket holds that month's sums; a month without a
      bucket has nothing to sum. */
  ghost predicate OwedSums(income: seq<IncomeRow>, stats: map<int, Owed>) {
    && (forall k :: k in stats ==> stats[k] == OwedIn(income, k))
    && (forall k :: k !in stats ==> OwedIn(income, k) == Owed(0.0, 0.0, 0.0))
  }

  /** What the buckets hold after `income` has been folded in. */
  ghost predicate OwedTally(income: seq<IncomeRow>, keys: seq<int>, stats: map<int, Owed>) {
    OwedMonthsSeen(income, keys, stats) && OwedSums(income, stats)
  }

  /** The `forEach` callback: the record's month gets a bucket, and the
      record's amount goes to the field its status names, if any. */
  function WithRecord(keys: seq<int>, stats: map<int, Owed>, r: IncomeRow): (seq<int>, map<int, Owed>)
    requires r.date.Some?
  {
    var key := MonthKey(r.date.value);
    var keys' := if key in stats then keys else keys + [key];
    var b := if key in stats then stats[key] else Owed(0.0, 0.0, 0.0);
    var b' :=
      if r.status == "RECEIVED" then b.(received := b.received + r.amount)
      else if r.status == "OVERDUE" then b.(overdue := b.overdue + r.amount)
      else if r.status == "PENDING" then b.(pending := b.pending + r.amount)
      else b;
    (keys', stats[key := b'])
  }

  /** One more record adds its amount to its month's sum for its status
      and its month to the months seen. */
  lemma RecordAppend(income: seq<IncomeRow>, r: IncomeRow)
    ensures forall k ::
              OwedIn(income + [r], k) ==
              Owed(OwedIn(income, k).received + StatusIn("RECEIVED", k)(r),
                   OwedIn(income, k).pending + StatusIn("PENDING", k)(r),
                   OwedIn(income, k).overdue + StatusIn("OVERDUE", k)(r))
    ensures IncomeMonths(income + [r]) == IncomeMonths(income) + (if r.date.Some? then {MonthKey(r.date.value)} else {})
  {
    assert (income + [r])[..|income|] == income;
  }

  lemma RecordStep(income: seq<IncomeRow>, keys: seq<int>, stats: map<int, Owed>, r: IncomeRow)
    requires OwedTally(income, keys, stats) && r.date.Some?
    ensures OwedTally(income + [r], WithRecord(keys, stats, r).0, WithRecord(keys, stats, r).1)
  {
    RecordAppend(income, r);
    MonthsSeenStep(income, keys, stats, r);
    SumsStep(income, keys, stats, r);
  }

  lemma MonthsSeenStep(income: seq<IncomeRow>, keys: seq<int>, stats: map<int, Owed>, r: IncomeRow)
    requires OwedMonthsSeen(income, keys, stats) && r.date.Some?
    requires IncomeMonths(income + [r]) == IncomeMonths(income) + {MonthKey(r.date.value)}
    ensures OwedMonthsSeen(income + [r], WithRecord(keys, stats, r).0, WithRecord(keys, stats, r).1)
  {
  }

  lemma SumsStep(income: seq<IncomeRow>, keys: seq<int>, stats: map<int, Owed>, r: IncomeRow)
    requires OwedSums(income, stats) && r.date.Some?
    requires forall k ::
               OwedIn(income + [r], k) ==
               Owed(OwedIn(income, k).received + StatusIn("RECEIVED", k)(r),
                    OwedIn(income, k).pending + StatusIn("PENDING", k)(r),
                    OwedIn(income, k).overdue + StatusIn("OVERDUE", k)(r))
    ensures OwedSums(income + [r], WithRecord(keys, stats, r).1)
  {
  }

  /** The `forEach` loop: every month with a record gets a bucket holding
      that month's received, pending and overdue sums. */
  method CollectOwed(income: seq<IncomeRow>) returns (keys: seq<int>, stats: map<int, Owed>)
    requires AllDated(income)
    ensures OwedTally(income, keys, stats)
  {
    keys, stats := [], map[];
    for i := 0 to |income|
      invariant OwedTally(income[..i], keys, stats)
    {
      RecordStep(income[..i], keys, stats, income[i]);
      assert income[..i + 1] == income[..i] + [income[i]];
      keys, stats := WithRecord(keys, stats, income[i]).0, WithRecord(keys, stats, income[i]).1;
    }
    assert income[..|income|] == income;
  }

  /** A chart row: the month and its received, pending and overdue sums. */
  datatype OwedRow = OwedRow(key: int, received: real, pending: real, overdue: real)

  function RowMonth(r: OwedRow): int {
    r.key
  }

  /** A month's row as the records define it. */
  function MonthRow(income: seq<IncomeRow>): int -> OwedRow {
    (k: int) => var b := OwedIn(income, k); OwedRow(k, b.received, b.pending, b.overdue)
  }

  /** The row the chart builds from a bucket. */
  function BucketRow(stats: map<int, Owed>): int -> OwedRow {
    (k: int) =>
      var b := if k in stats then stats[k] else Owed(0.0, 0.0, 0.0);
      OwedRow(k, b.received, b.pending, b.overdue)
  }

  lemma BucketRowsAreMonthRows(income: seq<IncomeRow>, keys: seq<int>, stats: map<int, Owed>)
    requires OwedTally(income, keys, stats)
    ensures RowsFor(keys, BucketRow(stats)) == RowsFor(keys, MonthRow(income))
  {
    var a := RowsFor(keys, BucketRow(stats));
    var b := RowsFor(keys, MonthRow(income));
    forall i | 0 <= i < |keys|
      ensures a[i] == b[i]
    {
      assert keys[i] in keys;
    }
  }

  /** `OutstandingTracker`: the rows of the latest six months with any
      income record, oldest first. */
  method OutstandingTracker(income: seq<IncomeRow>) returns (chart: seq<OwedRow>)
    requires AllDated(income)
    ensures LatestMonths(chart, RowMonth, IncomeMonths(income), MonthRow(income), TrackerMonths)
  {
    var keys, stats := CollectOwed(income);
    chart := Window(keys, BucketRow(stats), RowMonth, TrackerMonths);
    BucketRowsAreMonthRows(income, keys, stats);
    WindowShowsLatestMonths(keys, IncomeMonths(income), MonthRow(income), RowMonth, TrackerMonths);
  }

  /** A month's three sums together are the sum of its amounts that carry
      one of the three statuses. */
  lemma {:induction false} ThreeStatusesAddUp(income: seq<IncomeRow>, k: int)
    ensures MonthRow(income)(k).received + MonthRow(income)(k).pending + MonthRow(income)(k).overdue == Sum(income, TrackedIn(k))
    decreases |income|
  {
    if |income| > 0 {
      var init := income[..|income| - 1];
      ThreeStatusesAddUp(init, k);
      RecordAppend(init, income[|income| - 1]);
      assert income == init + [income[|income| - 1]];
      assert (init + [income[|income| - 1]])[..|init|] == init;
    }
  }

  /** A record with any other status (EXPECTED, ARCHIVED, PARTIAL) adds
      its month to the chart but nothing to any sum. */
  lemma OtherStatusOnlyAddsMonth(income: seq<IncomeRow>, r: IncomeRow, k: int)
    requires r.date.Some? && !Tracked(r.status)
    ensures MonthKey(r.date.value) in IncomeMonths(income + [r])
    ensures MonthRow(income + [r])(k) == MonthRow(income)(k)
  {
    RecordAppend(income, r);
  }
}
