/** The query shapes the ledger's pages share: `.order(column)` over a
    nullable date column, in-memory filters, and `update(...).eq('id', id)`. */
module Queries {
  import opened Wrappers
  import opened Calendar
  import opened Sorting

  /** `filter(p)`, keeping the order. */
  function Filter<T(!new)>(s: seq<T>, p: T -> bool): (r: seq<T>)
    ensures |r| <= |s|
  {
    if |s| == 0 then []
    else Filter(s[..|s| - 1], p) + (if p(s[|s| - 1]) then [s[|s| - 1]] else [])
  }

  /** The filter keeps exactly the elements that satisfy `p`. */
  lemma {:induction false} FilterMembers<T(!new)>(s: seq<T>, p: T -> bool, x: T)
    ensures x in Filter(s, p) <==> x in s && p(x)
    decreases |s|
  {
    if |s| > 0 {
      FilterMembers(s[..|s| - 1], p, x);
      assert s == s[..|s| - 1] + [s[|s| - 1]];
    }
  }

  /** Filtering keeps every date valid. */
  lemma FilterKeepsValidDates<T(!new)>(rows: seq<T>, p: T -> bool, date: T -> Option<Date>)
    requires ValidDates(rows, date)
    ensures ValidDates(Filter(rows, p), date)
  {
    var r := Filter(rows, p);
    forall k | 0 <= k < |r| && date(r[k]).Some?
      ensures date(r[k]).value.Valid()
    {
      FilterMembers(rows, p, r[k]);
      var a :| 0 <= a < |rows| && rows[a] == r[k];
    }
  }

  /** A bound above the sort key of every dated row. */
  function KeyBound<T(!new)>(rows: seq<T>, date: T -> Option<Date>): (b: real)
    ensures forall k :: 0 <= k < |rows| && date(rows[k]).Some? ==> OrderKey(date(rows[k]).value) < b
  {
    if |rows| == 0 then 0.0
    else
      var b := KeyBound(rows[..|rows| - 1], date);
      var last := rows[|rows| - 1];
      assert forall k :: 0 <= k < |rows| - 1 ==> rows[k] == rows[..|rows| - 1][k];
      if date(last).Some? && OrderKey(date(last).value) >= b then OrderKey(date(last).value) + 1.0 else b
  }

  /** The sort key of ascending order, nulls after every date. */
  function NullsLastKey<T(!new)>(bound: real, date: T -> Option<Date>): T -> real {
    (x: T) => if date(x).Some? then OrderKey(date(x).value) else bound
  }

  /** The sort key of descending order, nulls before every date. */
  function NullsFirstKey<T(!new)>(bound: real, date: T -> Option<Date>): T -> real {
    (x: T) => if date(x).Some? then -OrderKey(date(x).value) else -bound
  }

  /** `.order(column, { ascending: true })`: the rows in date order, the
      rows whose date is null after all others (PostgreSQL's default for an
      ascending order).  The order among rows of the same date is not fixed
      by the query and not by the model either. */
  function Ascending<T(!new)>(rows: seq<T>, date: T -> Option<Date>): (r: seq<T>)
    ensures multiset(r) == multiset(rows)
  {
    SortBy(rows, NullsLastKey(KeyBound(rows, date), date))
  }

  /** `.order(column, { ascending: false })`: the rows whose date is null
      first (the default for a descending order), then the latest first. */
  function Descending<T(!new)>(rows: seq<T>, date: T -> Option<Date>): (r: seq<T>)
    ensures multiset(r) == multiset(rows)
  {
    SortBy(rows, NullsFirstKey(KeyBound(rows, date), date))
  }

  /** Every date in `rows` is a calendar date. */
  predicate ValidDates<T(!new)>(rows: seq<T>, date: T -> Option<Date>) {
    forall k :: 0 <= k < |rows| && date(rows[k]).Some? ==> date(rows[k]).value.Valid()
  }

  /** Chronological, with the undated rows at the end. */
  predicate Chronological<T(!new)>(r: seq<T>, date: T -> Option<Date>) {
    forall i, j :: 0 <= i < j < |r| && date(r[j]).Some? ==>
      date(r[i]).Some? && LessEq(date(r[i]).value, date(r[j]).value)
  }

  /** Latest first, with the undated rows at the start. */
  predicate ReverseChronological<T(!new)>(r: seq<T>, date: T -> Option<Date>) {
    forall i, j :: 0 <= i < j < |r| && date(r[i]).Some? ==>
      date(r[j]).Some? && LessEq(date(r[j]).value, date(r[i]).value)
  }

  /** A reordering of `rows` keeps each row's date valid and under the bound. */
  lemma Reordered<T(!new)>(rows: seq<T>, date: T -> Option<Date>, r: seq<T>, k: int)
    requires ValidDates(rows, date) && multiset(r) == multiset(rows) && 0 <= k < |r|
    ensures date(r[k]).Some? ==> date(r[k]).value.Valid() && OrderKey(date(r[k]).value) < KeyBound(rows, date)
  {
    assert r[k] in multiset(rows);
    var a :| 0 <= a < |rows| && rows[a] == r[k];
  }

  /** The ascending order is chronological, nulls last. */
  lemma AscendingIsChronological<T(!new)>(rows: seq<T>, date: T -> Option<Date>)
    requires ValidDates(rows, date)
    ensures Chronological(Ascending(rows, date), date)
  {
    var r := Ascending(rows, date);
    var key := NullsLastKey(KeyBound(rows, date), date);
    forall i, j | 0 <= i < j < |r| && date(r[j]).Some?
      ensures date(r[i]).Some? && LessEq(date(r[i]).value, date(r[j]).value)
    {
      Reordered(rows, date, r, i);
      Reordered(rows, date, r, j);
      assert key(r[i]) <= key(r[j]);
      OrderKeyMonotone(date(r[i]).value, date(r[j]).value);
    }
  }

  /** The descending order is reverse chronological, nulls first. */
  lemma DescendingIsReverseChronological<T(!new)>(rows: seq<T>, date: T -> Option<Date>)
    requires ValidDates(rows, date)
    ensures ReverseChronological(Descending(rows, date), date)
  {
    var r := Descending(rows, date);
    var key := NullsFirstKey(KeyBound(rows, date), date);
    forall i, j | 0 <= i < j < |r| && date(r[i]).Some?
      ensures date(r[j]).Some? && LessEq(date(r[j]).value, date(r[i]).value)
    {
      Reordered(rows, date, r, i);
      Reordered(rows, date, r, j);
      assert key(r[i]) <= key(r[j]);
      OrderKeyMonotone(date(r[j]).value, date(r[i]).value);
    }
  }
}
