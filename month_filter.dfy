/** The month filter above the ledger's lists: a selected month (0 to 11,
    as `getMonth` counts) and year, stepped with wrap-around, and written
    to the page's `from`, `to` and `page` URL parameters. */
module MonthFilter {
  import opened Wrappers
  import opened Calendar

  /** `handleLifetime`'s range. */
  const LifetimeFrom := Date(2000, 1, 1)
  const LifetimeTo := Date(2099, 12, 31)
  /** The first year the year picker lists. */
  const FirstListedYear := 2020
  /** How many years past the current one the picker lists. */
  const YearsAhead := 3

  /** A date URL parameter. `Missing` covers both an absent parameter and
      an empty one (`?from=`), since the component only tests the string for
      truthiness; `Unparsed` is a non-empty value that is not a date, and
      `Parsed` a date. */
  datatype UrlDate = Missing | Unparsed | Parsed(date: Date)

  /** The selected month as a calendar month. */
  function Selected(month: int, year: int): YearMonth {
    YearMonth(year, month + 1)
  }

  /** `handlePrev`'s arithmetic: month 0 wraps to 11 of the year before. */
  function PrevMonth(month: int, year: int): (r: (int, int))
    requires 0 <= month <= 11
    ensures 0 <= r.0 <= 11
    ensures Selected(r.0, r.1) == Selected(month, year).Prev()
    ensures month == 0 ==> r == (11, year - 1)
    ensures month > 0 ==> r == (month - 1, year)
  {
    var newMonth := month - 1;
    if newMonth < 0 then (11, year - 1) else (newMonth, year)
  }

  /** `handleNext`'s arithmetic: month 11 wraps to 0 of the year after. */
  function NextMonth(month: int, year: int): (r: (int, int))
    requires 0 <= month <= 11
    ensures 0 <= r.0 <= 11
    ensures Selected(r.0, r.1) == Selected(month, year).Next()
    ensures month == 11 ==> r == (0, year + 1)
    ensures month < 11 ==> r == (month + 1, year)
  {
    var newMonth := month + 1;
    if newMonth > 11 then (0, year + 1) else (newMonth, year)
  }

  /** Stepping back then forward, or forward then back, restores the
      selection. */
  lemma PrevNextInverse(month: int, year: int)
    requires 0 <= month <= 11
    ensures NextMonth(PrevMonth(month, year).0, PrevMonth(month, year).1) == (month, year)
    ensures PrevMonth(NextMonth(month, year).0, NextMonth(month, year).1) == (month, year)
  {
  }

  /** The range `updateRange` writes covers the month exactly: both ends
      are dates of the month, and a date lies between them iff it is a
      date of the month. */
  lemma RangeIsWholeMonth(ym: YearMonth, d: Date)
    requires ym.Valid() && d.Valid()
    ensures ym.First().Valid() && ym.Last().Valid()
    ensures MonthOf(ym.First()) == ym && MonthOf(ym.Last()) == ym
    ensures LessEq(ym.First(), d) && LessEq(d, ym.Last()) <==> MonthOf(d) == ym
  {
  }

  /** `isLifetime`: both parameters are dates, the first no later than
      2000 and the second no earlier than 2099. */
  function IsLifetime(from: UrlDate, to: UrlDate): (b: bool)
    ensures b ==> from.Parsed? && to.Parsed?
    ensures from.Parsed? && to.Parsed? ==> (b <==> from.date.year <= 2000 && to.date.year >= 2099)
  {
    match (from, to)
    case (Parsed(f), Parsed(t)) => f.year <= 2000 && t.year >= 2099
    case _ => false
  }

  /** A single month's range is never taken for the lifetime view, and the
      lifetime range always is. */
  lemma LifetimeOnlyFromLifetimeRange(ym: YearMonth)
    requires ym.Valid()
    ensures !IsLifetime(Parsed(ym.First()), Parsed(ym.Last()))
    ensures IsLifetime(Parsed(LifetimeFrom), Parsed(LifetimeTo))
  {
  }

  /** The month `subMonths(now, 1)` falls in. */
  function LastMonth(today: Date): (r: (int, int))
    requires today.Valid()
    ensures 0 <= r.0 <= 11 && Selected(r.0, r.1) == MonthOf(today).Prev()
  {
    var d := AddMonths(today, -1);
    (d.month - 1, d.year)
  }

  /** `availableYears`: 2020 through three years after the current one,
      ascending and without gaps (none when that is before 2020). */
  method AvailableYears(currentYear: int) returns (years: seq<int>)
    ensures |years| == if currentYear + YearsAhead >= FirstListedYear then currentYear + YearsAhead - FirstListedYear + 1 else 0
    ensures forall i :: 0 <= i < |years| ==> years[i] == FirstListedYear + i
    ensures forall y :: y in years <==> FirstListedYear <= y <= currentYear + YearsAhead
  {
    var endYear := currentYear + YearsAhead;
    years := [];
    var i := FirstListedYear;
    while i <= endYear
      invariant FirstListedYear <= i <= (if endYear >= FirstListedYear then endYear + 1 else FirstListedYear)
      invariant |years| == i - FirstListedYear
      invariant forall k :: 0 <= k < |years| ==> years[k] == FirstListedYear + k
      decreases endYear - i
    {
      years := years + [i];
      i := i + 1;
    }
    forall y | FirstListedYear <= y <= endYear
      ensures y in years
    {
      assert years[y - FirstListedYear] == y;
    }
  }

  class Filter {
    var selectedMonth: int
    var selectedYear: int
    var from: UrlDate
    var to: UrlDate
    /** The `page` parameter; `None` while absent. */
    var page: Option<int>

    /** The selected month is one of 0 to 11 and parsed parameters are
        calendar dates. */
    predicate Valid()
      reads this
    {
      && 0 <= selectedMonth <= 11
      && (from.Parsed? ==> from.date.Valid())
      && (to.Parsed? ==> to.date.Valid())
    }

    /** The component mounts on today's month with the URL's parameters. */
    constructor(today: Date, from: UrlDate, to: UrlDate, page: Option<int>)
      requires today.Valid()
      requires from.Parsed? ==> from.date.Valid()
      requires to.Parsed? ==> to.date.Valid()
      ensures Valid()
      ensures selectedMonth == today.month - 1 && selectedYear == today.year
      ensures this.from == from && this.to == to && this.page == page
    {
      selectedMonth := today.month - 1;
      selectedYear := today.year;
      this.from := from;
      this.to := to;
      this.page := page;
    }

    /** `updateRange`: `from` and `to` become the first and last day of the
        given month, and the page goes back to 1. */
    method UpdateRange(month: int, year: int)
      requires 0 <= month <= 11 && Valid()
      modifies this
      ensures Valid()
      ensures from == Parsed(Selected(month, year).First()) && to == Parsed(Selected(month, year).Last())
      ensures page == Some(1)
      ensures selectedMonth == old(selectedMonth) && selectedYear == old(selectedYear)
    {
      var ym := Selected(month, year);
      from := Parsed(ym.First());
      to := Parsed(ym.Last());
      page := Some(1);
    }

    /** The effect hook: a parsed `from` moves the selection to its month;
        an absent one writes the selected month's range; an unparsable one
        changes nothing. */
    method Sync()
      requires Valid()
      modifies this
      ensures Valid()
      ensures old(from).Parsed? ==>
                selectedMonth == old(from).date.month - 1 && selectedYear == old(from).date.year &&
                from == old(from) && to == old(to) && page == old(page)
      ensures old(from).Missing? ==>
                selectedMonth == old(selectedMonth) && selectedYear == old(selectedYear) &&
                from == Parsed(Selected(selectedMonth, selectedYear).First()) &&
                to == Parsed(Selected(selectedMonth, selectedYear).Last()) && page == Some(1)
      ensures old(from).Unparsed? ==>
                selectedMonth == old(selectedMonth) && selectedYear == old(selectedYear) &&
                from == old(from) && to == old(to) && page == old(page)
    {
      match from
      case Parsed(d) =>
        selectedMonth := d.month - 1;
        selectedYear := d.year;
      case Missing =>
        UpdateRange(selectedMonth, selectedYear);
      case Unparsed =>
    }

    /** `handleMonthChange`. */
    method HandleMonthChange(value: int)
      requires 0 <= value <= 11 && Valid()
      modifies this
      ensures Valid()
      ensures selectedMonth == value && selectedYear == old(selectedYear)
      ensures from == Parsed(Selected(value, selectedYear).First()) && to == Parsed(Selected(value, selectedYear).Last())
      ensures page == Some(1)
    {
      selectedMonth := value;
      UpdateRange(value, selectedYear);
    }

    /** `handleYearChange`. */
    method HandleYearChange(value: int)
      requires Valid()
      modifies this
      ensures Valid()
      ensures selectedMonth == old(selectedMonth) && selectedYear == value
      ensures from == Parsed(Selected(selectedMonth, value).First()) && to == Parsed(Selected(selectedMonth, value).Last())
      ensures page == Some(1)
    {
      selectedYear := value;
      UpdateRange(selectedMonth, value);
    }

    /** `handlePrev`: the month before, and its range. */
    method HandlePrev()
      requires Valid()
      modifies this
      ensures Valid()
      ensures (selectedMonth, selectedYear) == PrevMonth(old(selectedMonth), old(selectedYear))
      ensures Selected(selectedMonth, selectedYear) == Selected(old(selectedMonth), old(selectedYear)).Prev()
      ensures from == Parsed(Selected(selectedMonth, selectedYear).First()) && to == Parsed(Selected(selectedMonth, selectedYear).Last())
      ensures page == Some(1)
    {
      var (newMonth, newYear) := PrevMonth(selectedMonth, selectedYear);
      selectedMonth := newMonth;
      selectedYear := newYear;
      UpdateRange(newMonth, newYear);
    }

    /** `handleNext`: the month after, and its range. */
    method HandleNext()
      requires Valid()
      modifies this
      ensures Valid()
      ensures (selectedMonth, selectedYear) == NextMonth(old(selectedMonth), old(selectedYear))
      ensures Selected(selectedMonth, selectedYear) == Selected(old(selectedMonth), old(selectedYear)).Next()
      ensures from == Parsed(Selected(selectedMonth, selectedYear).First()) && to == Parsed(Selected(selectedMonth, selectedYear).Last())
      ensures page == Some(1)
    {
      var (newMonth, newYear) := NextMonth(selectedMonth, selectedYear);
      selectedMonth := newMonth;
      selectedYear := newYear;
      UpdateRange(newMonth, newYear);
    }

    /** `handleQuickRange`: this month, or the month before it. */
    method HandleQuickRange(today: Date, last: bool)
      requires today.Valid() && Valid()
      modifies this
      ensures Valid()
      ensures Selected(selectedMonth, selectedYear) == (if last then MonthOf(today).Prev() else MonthOf(today))
      ensures from == Parsed(Selected(selectedMonth, selectedYear).First()) && to == Parsed(Selected(selectedMonth, selectedYear).Last())
      ensures page == Some(1)
    {
      var (newMonth, newYear) := if last then LastMonth(today) else (today.month - 1, today.year);
      selectedMonth := newMonth;
      selectedYear := newYear;
      UpdateRange(newMonth, newYear);
    }

    /** `handleLifetime`: the range 2000-01-01 to 2099-12-31, page 1; the
        selection stays. */
    method HandleLifetime()
      requires Valid()
      modifies this
      ensures Valid()
      ensures from == Parsed(LifetimeFrom) && to == Parsed(LifetimeTo) && page == Some(1)
      ensures selectedMonth == old(selectedMonth) && selectedYear == old(selectedYear)
      ensures Lifetime()
    {
      from := Parsed(LifetimeFrom);
      to := Parsed(LifetimeTo);
      page := Some(1);
    }

    /** `isThisMonth`. */
    function ThisMonth(today: Date): bool
      reads this
    {
      selectedMonth == today.month - 1 && selectedYear == today.year
    }

    /** `isLastMonth`. */
    function IsLastMonth(today: Date): bool
      requires today.Valid()
      reads this
    {
      (selectedMonth, selectedYear) == LastMonth(today)
    }

    /** `isLifetime` of the current parameters. */
    function Lifetime(): bool
      reads this
    {
      IsLifetime(from, to)
    }
  }

  /** The "this month" and "last month" buttons are never lit together. */
  lemma ThisAndLastExclusive(month: int, year: int, today: Date)
    requires today.Valid() && 0 <= month <= 11
    ensures !((month, year) == (today.month - 1, today.year) && (month, year) == LastMonth(today))
  {
    assert Selected(LastMonth(today).0, LastMonth(today).1).Index() == MonthOf(today).Index() - 1;
  }
}
