/** The per-month buckets the analytics charts build: records keyed by the
    `yyyy-MM` of their date, received income as inflow and paid expenses as
    burn, then the entries ordered by month and cut to the latest few. */
module MonthBuckets {
  import opened Wrappers
  import opened Calendar
  import opened Sums
  import opened Sorting
  import opened Records

  /** `format(parseISO(date), "yyyy-MM")`, as the month's number: for
      four-digit years the `yyyy-MM` strings sort as these numbers do. */
  function MonthKey(d: Date): int {
    MonthOf(d).Index()
  }

  predicate Received(r: IncomeRow) {
    r.status == "RECEIVED"
  }

  predicate Paid(e: ExpenseRow) {
    e.status == "PAID"
  }

  /** Every received row carries a date: `format` throws on the invalid
      date `parseISO` makes of a missing one. */
  predicate ReceivedDated(income: seq<IncomeRow>) {
    forall k :: 0 <= k < |income| && Received(income[k]) ==> income[k].date.Some?
  }

  predicate PaidDated(expenses: seq<ExpenseRow>) {
    forall k :: 0 <= k < |expenses| && Paid(expenses[k]) ==> expenses[k].date.Some?
  }

  /** A received row's amount, counted in its own month only. */
  function InflowIn(key: int): IncomeRow -> real {
    (r: IncomeRow) => if Received(r) && r.date.Some? && MonthKey(r.date.value) == key then r.amount else 0.0
  }

  /** A paid expense's amount (`Number(null)` is 0), counted in its own
      month only. */
  function BurnIn(key: int): ExpenseRow -> real {
    (e: ExpenseRow) => if Paid(e) && e.date.Some? && MonthKey(e.date.value) == key then e.amount.GetOr(0.0) else 0.0
  }

  /** The months holding a received row. */
  function ReceivedMonths(income: seq<IncomeRow>): set<int> {
    if |income| == 0 then {}
    else
      var r := income[|income| - 1];
      ReceivedMonths(income[..|income| - 1]) + (if Received(r) && r.date.Some? then {MonthKey(r.date.value)} else {})
  }

  /** The months holding a paid expense. */
  function PaidMonths(expenses: seq<ExpenseRow>): set<int> {
    if |expenses| == 0 then {}
    else
      var e := expenses[|expenses| - 1];
      PaidMonths(expenses[..|expenses| - 1]) + (if Paid(e) && e.date.Some? then {MonthKey(e.date.value)} else {})
  }

  /** A month's bucket. */
  datatype Flow = Flow(inflow: real, burn: real)

  predicate DistinctKeys(keys: seq<int>) {
    forall i, j :: 0 <= i < j < |keys| ==> keys[i] != keys[j]
  }

  /** What the buckets hold after `income` and `expenses` have been
      folded in: one key per month with a counted row, in the order the
      months were first seen, and for each month the sums of its rows. */
  ghost predicate Tally(income: seq<IncomeRow>, expenses: seq<ExpenseRow>, keys: seq<int>, stats: map<int, Flow>) {
    && MonthsSeen(income, expenses, keys, stats)
    && MonthSums(income, expenses, stats)
  }

  /** One key per month with a counted row, each seen once. */
  ghost predicate MonthsSeen(income: seq<IncomeRow>, expenses: seq<ExpenseRow>, keys: seq<int>, stats: map<int, Flow>) {
    && DistinctKeys(keys)
    && (forall k :: k in keys <==> k in stats)
    && stats.Keys == ReceivedMonths(income) + PaidMonths(expenses)
  }

  /** Each month's bucket holds that month's sums; a month without a
      bucket has nothing to sum. */
  ghost predicate MonthSums(income: seq<IncomeRow>, expenses: seq<ExpenseRow>, stats: map<int, Flow>) {
    && (forall k :: k in stats ==> stats[k] == Flow(Sum(income, InflowIn(k)), Sum(expenses, BurnIn(k))))
    && (forall k :: k !in stats ==> Sum(income, InflowIn(k)) == 0.0 && Sum(expenses, BurnIn(k)) == 0.0)
  }

  /** The bucket for `key`, created empty when missing. */
  function Touch(keys: seq<int>, stats: map<int, Flow>, key: int): (seq<int>, map<int, Flow>) {
    if key in stats then (keys, stats) else (keys + [key], stats[key := Flow(0.0, 0.0)])
  }

  /** The income callback: a received row adds its amount to its month. */
  function WithInflow(keys: seq<int>, stats: map<int, Flow>, r: IncomeRow): (seq<int>, map<int, Flow>)
    requires Received(r) ==> r.date.Some?
  {
    if !Received(r) then (keys, stats)
    else
      var key := MonthKey(r.date.value);
      var (keys', stats') := Touch(keys, stats, key);
      (keys', stats'[key := stats'[key].(inflow := stats'[key].inflow + r.amount)])
  }

  /** The expense callback: a paid expense adds its amount to its month. */
  function WithBurn(keys: seq<int>, stats: map<int, Flow>, e: ExpenseRow): (seq<int>, map<int, Flow>)
    requires Paid(e) ==> e.date.Some?
  {
    if !Paid(e) then (keys, stats)
    else
      var key := MonthKey(e.date.value);
      var (keys', stats') := Touch(keys, stats, key);
      (keys', stats'[key := stats'[key].(burn := stats'[key].burn + e.amount.GetOr(0.0))])
  }

  /** One more row adds its term to every month's sum and its month to
      the months seen. */
  lemma InflowAppend(income: seq<IncomeRow>, r: IncomeRow)
    ensures forall k :: Sum(income + [r], InflowIn(k)) == Sum(income, InflowIn(k)) + InflowIn(k)(r)
    ensures ReceivedMonths(income + [r]) == ReceivedMonths(income) + (if Received(r) && r.date.Some? then {MonthKey(r.date.value)} else {})
  {
    assert (income + [r])[..|income|] == income;
  }

  lemma BurnAppend(expenses: seq<ExpenseRow>, e: ExpenseRow)
    ensures forall k :: Sum(expenses + [e], BurnIn(k)) == Sum(expenses, BurnIn(k)) + BurnIn(k)(e)
    ensures PaidMonths(expenses + [e]) == PaidMonths(expenses) + (if Paid(e) && e.date.Some? then {MonthKey(e.date.value)} else {})
  {
    assert (expenses + [e])[..|expenses|] == expenses;
  }

  lemma InflowStep(income: seq<IncomeRow>, expenses: seq<ExpenseRow>, keys: seq<int>, stats: map<int, Flow>, r: IncomeRow)
    requires Tally(income, expenses, keys, stats) && (Received(r) ==> r.date.Some?)
    ensures Tally(income + [r], expenses, WithInflow(keys, stats, r).0, WithInflow(keys, stats, r).1)
  {
    InflowAppend(income, r);
    InflowSeen(income, expenses, keys, stats, r);
    InflowSums(income, expenses, keys, stats, r);
  }

  lemma InflowSeen(income: seq<IncomeRow>, expenses: seq<ExpenseRow>, keys: seq<int>, stats: map<int, Flow>, r: IncomeRow)
    requires MonthsSeen(income, expenses, keys, stats) && (Received(r) ==> r.date.Some?)
    requires ReceivedMonths(income + [r]) == ReceivedMonths(income) + (if Received(r) && r.date.Some? then {MonthKey(r.date.value)} else {})
    ensures MonthsSeen(income + [r], expenses, WithInflow(keys, stats, r).0, WithInflow(keys, stats, r).1)
  {
  }

  lemma InflowSums(income: seq<IncomeRow>, expenses: seq<ExpenseRow>, keys: seq<int>, stats: map<int, Flow>, r: IncomeRow)
    requires MonthSums(income, expenses, stats) && (Received(r) ==> r.date.Some?)
    requires forall k :: Sum(income + [r], InflowIn(k)) == Sum(income, InflowIn(k)) + InflowIn(k)(r)
    ensures MonthSums(income + [r], expenses, WithInflow(keys, stats, r).1)
  {
  }

  lemma BurnStep(income: seq<IncomeRow>, expenses: seq<ExpenseRow>, keys: seq<int>, stats: map<int, Flow>, e: ExpenseRow)
    requires Tally(income, expenses, keys, stats) && (Paid(e) ==> e.date.Some?)
    ensures Tally(income, expenses + [e], WithBurn(keys, stats, e).0, WithBurn(keys, stats, e).1)
  {
    BurnAppend(expenses, e);
    BurnSeen(income, expenses, keys, stats, e);
    BurnSums(income, expenses, keys, stats, e);
  }

  lemma BurnSeen(income: seq<IncomeRow>, expenses: seq<ExpenseRow>, keys: seq<int>, stats: map<int, Flow>, e: ExpenseRow)
    requires MonthsSeen(income, expenses, keys, stats) && (Paid(e) ==> e.date.Some?)
    requires PaidMonths(expenses + [e]) == PaidMonths(expenses) + (if Paid(e) && e.date.Some? then {MonthKey(e.date.value)} else {})
    ensures MonthsSeen(income, expenses + [e], WithBurn(keys, stats, e).0, WithBurn(keys, stats, e).1)
  {
  }

  lemma BurnSums(income: seq<IncomeRow>, expenses: seq<ExpenseRow>, keys: seq<int>, stats: map<int, Flow>, e: ExpenseRow)
    requires MonthSums(income, expenses, stats) && (Paid(e) ==> e.date.Some?)
    requires forall k :: Sum(expenses + [e], BurnIn(k)) == Sum(expenses, BurnIn(k)) + BurnIn(k)(e)
    ensures MonthSums(income, expenses + [e], WithBurn(keys, stats, e).1)
  {
  }

  /** The two `forEach` loops: each month with a received row or a paid
      expense gets a bucket whose inflow is the sum of that month's
      received amounts and whose burn is the sum of its paid amounts. */
  method CollectFlows(income: seq<IncomeRow>, expenses: seq<ExpenseRow>) returns (keys: seq<int>, stats: map<int, Flow>)
    requires ReceivedDated(income) && PaidDated(expenses)
    ensures Tally(income, expenses, keys, stats)
  {
    keys, stats := [], map[];
    for i := 0 to |income|
      invariant Tally(income[..i], [], keys, stats)
    {
      InflowStep(income[..i], [], keys, stats, income[i]);
      assert income[..i + 1] == income[..i] + [income[i]];
      keys, stats := WithInflow(keys, stats, income[i]).0, WithInflow(keys, stats, income[i]).1;
    }
    assert income[..|income|] == income;
    for j := 0 to |expenses|
      invariant Tally(income, expenses[..j], keys, stats)
    {
      BurnStep(income, expenses[..j], keys, stats, expenses[j]);
      assert expenses[..j + 1] == expenses[..j] + [expenses[j]];
      keys, stats := WithBurn(keys, stats, expenses[j]).0, WithBurn(keys, stats, expenses[j]).1;
    }
    assert expenses[..|expenses|] == expenses;
  }

  /** `sort(by key).slice(-n)`: the `n` latest entries, oldest first. */
  function Latest<R>(rows: seq<R>, key: R -> real, n: nat): (w: seq<R>)
    ensures |w| <= n && SortedBy(w, key)
  {
    var sorted := SortBy(rows, key);
    SuffixSorted(sorted, key, |sorted| - |TakeLast(sorted, n)|);
    TakeLast(sorted, n)
  }

  lemma SuffixSorted<R>(s: seq<R>, key: R -> real, cut: int)
    requires SortedBy(s, key) && 0 <= cut <= |s|
    ensures SortedBy(s[cut..], key)
  {
    forall i, j | 0 <= i < j < |s| - cut
      ensures key(s[cut..][i]) <= key(s[cut..][j])
    {
      assert s[cut..][i] == s[cut + i] && s[cut..][j] == s[cut + j];
    }
  }

  /** The window keeps the latest entries: every entry left out is no
      later than the first one shown, every entry shown is one of the
      entries, and when there are no more than `n` entries all are shown. */
  lemma LatestAreLatest<R(!new)>(rows: seq<R>, key: R -> real, n: nat)
    requires n > 0 && |rows| > 0
    ensures var w := Latest(rows, key, n);
            && |w| == (if |rows| <= n then |rows| else n)
            && (forall x :: x in w ==> x in rows)
            && (forall x :: x in rows ==> x in w || key(x) <= key(w[0]))
            && (|rows| <= n ==> forall x :: x in rows ==> x in w)
  {
    var sorted := SortBy(rows, key);
    var w := Latest(rows, key, n);
    var cut := |sorted| - |w|;
    assert w == sorted[cut..];
    forall x | x in w
      ensures x in rows
    {
      assert x in multiset(sorted);
    }
    forall x | x in rows
      ensures x in w || key(x) <= key(w[0])
      ensures |rows| <= n ==> x in w
    {
      assert x in multiset(sorted);
      var i :| 0 <= i < |sorted| && sorted[i] == x;
      assert w[0] == sorted[cut];
      if i >= cut {
        assert w[i - cut] == x;
      }
    }
  }

  /** The window repeats no entry the entries do not repeat. */
  lemma LatestNoRepeats<R>(rows: seq<R>, key: R -> real, n: nat)
    requires NoRepeats(rows)
    ensures NoRepeats(Latest(rows, key, n))
  {
    var sorted := SortBy(rows, key);
    PermutationNoRepeats(rows, sorted);
    var w := Latest(rows, key, n);
    var cut := |sorted| - |w|;
    assert w == sorted[cut..];
    forall i, j | 0 <= i < j < |w|
      ensures w[i] != w[j]
    {
      assert w[i] == sorted[cut + i] && w[j] == sorted[cut + j];
    }
  }

  /** A sequence of distinct keys is as long as the set it lists. */
  lemma {:induction false} DistinctCount(keys: seq<int>, months: set<int>)
    requires DistinctKeys(keys) && (forall k :: k in keys <==> k in months)
    ensures |keys| == |months|
    decreases |keys|
  {
    if |keys| == 0 {
      assert forall k :: k !in keys;
      assert forall k :: k !in months;
    } else {
      var last := keys[|keys| - 1];
      var init := keys[..|keys| - 1];
      assert keys == init + [last];
      forall k
        ensures k in init <==> k in months - {last}
      {
        if k in months - {last} {
          var i :| 0 <= i < |keys| && keys[i] == k;
          assert init[i] == k;
        }
      }
      DistinctCount(init, months - {last});
    }
  }

  /** The months of the buckets the two loops fill. */
  function Months(income: seq<IncomeRow>, expenses: seq<ExpenseRow>): set<int> {
    ReceivedMonths(income) + PaidMonths(expenses)
  }

  /** `Object.entries(monthlyStats).map(...)`: one chart row per key, in
      the order the keys were first seen. */
  function RowsFor<R>(keys: seq<int>, rowFor: int -> R): (rows: seq<R>)
    ensures |rows| == |keys|
  {
    seq(|keys|, i requires 0 <= i < |keys| => rowFor(keys[i]))
  }

  /** The order of `fullDate.localeCompare`: by month. */
  function ByMonth<R>(month: R -> int): R -> real {
    (x: R) => month(x) as real
  }

  /** `.sort(by fullDate).slice(-n)`. */
  function Window<R>(keys: seq<int>, rowFor: int -> R, month: R -> int, n: nat): (chart: seq<R>)
    ensures |chart| <= n
  {
    Latest(RowsFor(keys, rowFor), ByMonth(month), n)
  }

  /** The chart of the latest `n` months of `months`, oldest first: each
      row is the row of its month, the months strictly ascend, there are
      as many rows as months up to `n`, and every month left out is
      earlier than the first one shown. */
  ghost predicate LatestMonths<R(!new)>(chart: seq<R>, month: R -> int, months: set<int>, rowFor: int -> R, n: nat) {
    && (forall i, j :: 0 <= i < j < |chart| ==> month(chart[i]) < month(chart[j]))
    && |chart| == (if |months| <= n then |months| else n)
    && (forall r :: r in chart ==> month(r) in months && r == rowFor(month(r)))
    && (forall k :: k in months ==> rowFor(k) in chart || (|chart| > 0 && k < month(chart[0])))
  }

  /** The rows built from distinct keys repeat no row, and each is the
      row of its month. */
  lemma MonthRows<R(!new)>(keys: seq<int>, months: set<int>, rowFor: int -> R, month: R -> int)
    requires DistinctKeys(keys) && (forall k :: k in keys <==> k in months)
    requires forall k :: month(rowFor(k)) == k
    ensures NoRepeats(RowsFor(keys, rowFor))
    ensures forall r :: r in RowsFor(keys, rowFor) ==> month(r) in months && r == rowFor(month(r))
    ensures forall k :: k in months ==> rowFor(k) in RowsFor(keys, rowFor)
  {
    var rows := RowsFor(keys, rowFor);
    forall i, j | 0 <= i < j < |rows|
      ensures rows[i] != rows[j]
    {
      assert month(rows[i]) == keys[i] && month(rows[j]) == keys[j];
    }
    forall r | r in rows
      ensures month(r) in months && r == rowFor(month(r))
    {
      var i :| 0 <= i < |rows| && rows[i] == r;
      assert r == rowFor(keys[i]) && keys[i] in keys;
    }
    forall k | k in months
      ensures rowFor(k) in rows
    {
      var i :| 0 <= i < |keys| && keys[i] == k;
      assert rows[i] == rowFor(k);
    }
  }

  /** A window without repeats, sorted by month, whose rows are each the
      row of their month, strictly ascends by month. */
  lemma StrictlyAscending<R(!new)>(chart: seq<R>, rowFor: int -> R, month: R -> int)
    requires NoRepeats(chart) && SortedBy(chart, ByMonth(month))
    requires forall r :: r in chart ==> r == rowFor(month(r))
    ensures forall i, j :: 0 <= i < j < |chart| ==> month(chart[i]) < month(chart[j])
  {
    forall i, j | 0 <= i < j < |chart|
      ensures month(chart[i]) < month(chart[j])
    {
      assert ByMonth(month)(chart[i]) <= ByMonth(month)(chart[j]);
      assert chart[i] in chart && chart[j] in chart;
    }
  }

  /** Building one row per distinct month, sorting by month and keeping
      the last `n` gives the latest `n` months. */
  lemma WindowShowsLatestMonths<R(!new)>(keys: seq<int>, months: set<int>, rowFor: int -> R, month: R -> int, n: nat)
    requires n > 0 && DistinctKeys(keys) && (forall k :: k in keys <==> k in months)
    requires forall k :: month(rowFor(k)) == k
    ensures LatestMonths(Window(keys, rowFor, month, n), month, months, rowFor, n)
  {
    var rows := RowsFor(keys, rowFor);
    var key := ByMonth(month);
    var chart := Window(keys, rowFor, month, n);
    DistinctCount(keys, months);
    MonthRows(keys, months, rowFor, month);
    LatestNoRepeats(rows, key, n);
    if |rows| > 0 {
      LatestAreLatest(rows, key, n);
    }
    StrictlyAscending(chart, rowFor, month);
  }
}
