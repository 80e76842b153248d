/** Proleptic Gregorian calendar dates as used by the ledger's `yyyy-MM-dd`
    columns (the `full-date` form of section 5.6 of RFC 3339), with the
    per-month day limits of section 5.7 of RFC 3339 and the leap-year rule of
    its Appendix C.  Day and month arithmetic follows the libraries the ledger
    calls: adding days steps across month and year ends, adding months clamps
    the day of the month to the length of the target month. */
module Calendar {

  /** The Gregorian leap-year rule (RFC 3339, Appendix C). */
  predicate IsLeapYear(y: int) {
    y % 4 == 0 && (y % 100 != 0 || y % 400 == 0)
  }

  /** The maximum day of month `m` (1..12) of year `y` (RFC 3339, section 5.7). */
  function DaysInMonth(y: int, m: int): (n: int)
    requires 1 <= m <= 12
    ensures 28 <= n <= 31
  {
    if m == 2 then (if IsLeapYear(y) then 29 else 28)
    else if m == 4 || m == 6 || m == 9 || m == 11 then 30
    else 31
  }

  /** A calendar day; months are 1..12. */
  datatype Date = Date(year: int, month: int, day: int) {
    predicate Valid() {
      1 <= month <= 12 && 1 <= day <= DaysInMonth(year, month)
    }
  }

  /** Chronological order of dates, which is also the lexicographic order of
      their `yyyy-MM-dd` spellings for four-digit years. */
  predicate Less(a: Date, b: Date) {
    a.year < b.year ||
    (a.year == b.year && (a.month < b.month || (a.month == b.month && a.day < b.day)))
  }

  predicate LessEq(a: Date, b: Date) {
    Less(a, b) || a == b
  }

  /** A calendar month, the unit of the ledger's `yyyy-MM` buckets. */
  datatype YearMonth = YearMonth(year: int, month: int) {
    predicate Valid() {
      1 <= month <= 12
    }

    /** Months counted from year 0, so that month order is integer order. */
    function Index(): int {
      year * 12 + month - 1
    }

    function Days(): int
      requires Valid()
    {
      DaysInMonth(year, month)
    }

    function First(): Date
      requires Valid()
    {
      Date(year, month, 1)
    }

    function Last(): Date
      requires Valid()
    {
      Date(year, month, DaysInMonth(year, month))
    }

    function Next(): (r: YearMonth)
      requires Valid()
      ensures r.Valid() && r.Index() == Index() + 1
    {
      if month == 12 then YearMonth(year + 1, 1) else YearMonth(year, month + 1)
    }

    function Prev(): (r: YearMonth)
      requires Valid()
      ensures r.Valid() && r.Index() == Index() - 1
    {
      if month == 1 then YearMonth(year - 1, 12) else YearMonth(year, month - 1)
    }
  }

  /** The month with the given index. */
  function FromIndex(i: int): (ym: YearMonth)
    ensures ym.Valid() && ym.Index() == i
  {
    YearMonth(i / 12, i % 12 + 1)
  }

  lemma FromIndexOfIndex(ym: YearMonth)
    requires ym.Valid()
    ensures FromIndex(ym.Index()) == ym
  {
  }

  function MonthOf(d: Date): YearMonth {
    YearMonth(d.year, d.month)
  }

  function Min(a: int, b: int): int {
    if a <= b then a else b
  }

  /** The following calendar day: the smallest valid date after `d`. */
  function NextDay(d: Date): (r: Date)
    requires d.Valid()
    ensures r.Valid() && Less(d, r)
  {
    if d.day < DaysInMonth(d.year, d.month) then Date(d.year, d.month, d.day + 1)
    else if d.month < 12 then Date(d.year, d.month + 1, 1)
    else Date(d.year + 1, 1, 1)
  }

  /** The preceding calendar day: the largest valid date before `d`. */
  function PrevDay(d: Date): (r: Date)
    requires d.Valid()
    ensures r.Valid() && Less(r, d)
  {
    if d.day > 1 then Date(d.year, d.month, d.day - 1)
    else if d.month > 1 then Date(d.year, d.month - 1, DaysInMonth(d.year, d.month - 1))
    else Date(d.year - 1, 12, 31)
  }

  /** No valid date lies strictly between a day and the next one. */
  lemma NextDayIsImmediate(d: Date, x: Date)
    requires d.Valid() && x.Valid() && Less(d, x)
    ensures LessEq(NextDay(d), x)
  {
  }

  /** No valid date lies strictly between the previous day and a day. */
  lemma PrevDayIsImmediate(d: Date, x: Date)
    requires d.Valid() && x.Valid() && Less(x, d)
    ensures LessEq(x, PrevDay(d))
  {
  }

  /** `d` moved by `n` days, forwards or backwards (`today + timedelta(days=n)`,
      date-fns `addDays`). */
  function AddDays(d: Date, n: int): (r: Date)
    requires d.Valid()
    ensures r.Valid()
    decreases if n < 0 then -n else n
  {
    if n == 0 then d
    else if n > 0 then NextDay(AddDays(d, n - 1))
    else PrevDay(AddDays(d, n + 1))
  }

  /** `d` moved by `k` months with the day clamped to the length of the
      target month (dateutil `relativedelta(months=k)`, date-fns `addMonths`). */
  function AddMonths(d: Date, k: int): (r: Date)
    requires d.Valid()
    ensures r.Valid()
    ensures MonthOf(r).Index() == MonthOf(d).Index() + k
    ensures r.day == Min(d.day, MonthOf(r).Days())
  {
    var ym := FromIndex(MonthOf(d).Index() + k);
    Date(ym.year, ym.month, Min(d.day, DaysInMonth(ym.year, ym.month)))
  }

  /** date-fns `setDate(monthStart, day)`: day `day` of month `ym`, where a
      day beyond the end of the month rolls over into the following month and
      a day below 1 rolls back into the preceding one. */
  function SetDay(ym: YearMonth, day: int): (r: Date)
    requires ym.Valid()
    ensures r.Valid()
  {
    AddDays(ym.First(), day - 1)
  }

  /** Day `day` of month `ym` with the day first clamped to the month's
      length, `setDate(monthStart, Math.min(day, daysInMonth))`. */
  function ClampedDay(ym: YearMonth, day: int): (r: Date)
    requires ym.Valid()
    ensures r.Valid()
  {
    SetDay(ym, Min(day, ym.Days()))
  }

  /** Moving forward by a positive number of days gives a later date. */
  lemma {:induction false} AddDaysForward(d: Date, n: int)
    requires d.Valid() && n >= 1
    ensures Less(d, AddDays(d, n))
  {
    if n > 1 {
      AddDaysForward(d, n - 1);
    }
  }

  /** Moving forward is strictly monotone in the number of days. */
  lemma {:induction false} AddDaysMonotone(d: Date, i: int, j: int)
    requires d.Valid() && 0 <= i < j
    ensures Less(AddDays(d, i), AddDays(d, j))
    decreases j - i
  {
    if j == i + 1 {
    } else {
      AddDaysMonotone(d, i, j - 1);
    }
  }

  /** Within a month, adding `k` days to the first of the month gives day `k + 1`. */
  lemma {:induction false} AddDaysWithinMonth(ym: YearMonth, k: int)
    requires ym.Valid() && 0 <= k < ym.Days()
    ensures AddDays(ym.First(), k) == Date(ym.year, ym.month, k + 1)
  {
    if k > 0 {
      AddDaysWithinMonth(ym, k - 1);
    }
  }

  /** Past the month's last day, adding days continues in the following month. */
  lemma {:induction false} AddDaysIntoNextMonth(ym: YearMonth, j: int)
    requires ym.Valid() && 0 <= j < ym.Next().Days()
    ensures AddDays(ym.First(), ym.Days() + j) == Date(ym.Next().year, ym.Next().month, j + 1)
  {
    if j == 0 {
      AddDaysWithinMonth(ym, ym.Days() - 1);
    } else {
      AddDaysIntoNextMonth(ym, j - 1);
    }
  }

  /** The first of the month, plus one month, minus one day, is the month's
      last day (its 28th, 29th, 30th or 31st as section 5.7 of RFC 3339 says). */
  lemma MonthEndIsLastDay(ym: YearMonth)
    requires ym.Valid()
    ensures AddDays(AddMonths(ym.First(), 1), -1) == ym.Last()
  {
    var n := AddMonths(ym.First(), 1);
    FromIndexOfIndex(ym.Next());
    assert n == ym.Next().First();
  }

  /** `setDate` inside the month: day `day` of `ym` itself. */
  lemma SetDayWithinMonth(ym: YearMonth, day: int)
    requires ym.Valid() && 1 <= day <= ym.Days()
    ensures SetDay(ym, day) == Date(ym.year, ym.month, day)
  {
    AddDaysWithinMonth(ym, day - 1);
  }

  /** `setDate` past the month's end rolls over: day `Days() + j` of `ym` is
      day `j` of the following month (Feb 30 of 2023 is March 2). */
  lemma SetDayRollsOver(ym: YearMonth, day: int)
    requires ym.Valid() && ym.Days() < day <= ym.Days() + ym.Next().Days()
    ensures SetDay(ym, day) == Date(ym.Next().year, ym.Next().month, day - ym.Days())
  {
    AddDaysIntoNextMonth(ym, day - ym.Days() - 1);
  }

  /** For a day of at least 1 the clamped day stays in its month: day 31 of
      February 2023 is February 28. */
  lemma ClampedDayInMonth(ym: YearMonth, day: int)
    requires ym.Valid() && day >= 1
    ensures ClampedDay(ym, day) == Date(ym.year, ym.month, Min(day, ym.Days()))
    ensures MonthOf(ClampedDay(ym, day)) == ym
  {
    SetDayWithinMonth(ym, Min(day, ym.Days()));
  }

  /** A date in an earlier month is an earlier date. */
  lemma EarlierMonthEarlierDate(a: Date, b: Date)
    requires MonthOf(a).Index() < MonthOf(b).Index()
    requires a.Valid() && b.Valid()
    ensures Less(a, b)
  {
  }

  /** `setDate(monthStart, day)` with a day of at least 1 is never before
      the first of the month. */
  lemma {:induction false} SetDayFromFirst(ym: YearMonth, day: int)
    requires ym.Valid() && day >= 1
    ensures LessEq(ym.First(), SetDay(ym, day))
  {
    if day > 1 {
      AddDaysForward(ym.First(), day - 1);
    }
  }

  /** A numeric sort key that orders valid dates chronologically. */
  function OrderKey(d: Date): real {
    (d.year * 372 + d.month * 31 + d.day) as real
  }

  lemma OrderKeyMonotone(a: Date, b: Date)
    requires a.Valid() && b.Valid()
    ensures Less(a, b) <==> OrderKey(a) < OrderKey(b)
    ensures a == b <==> OrderKey(a) == OrderKey(b)
  {
    if a.year < b.year {
      assert a.year * 372 + 372 <= b.year * 372;
    } else if a.year > b.year {
      assert b.year * 372 + 372 <= a.year * 372;
    }
  }
}
