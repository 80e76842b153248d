/** The integrity check (`tools/verify_integrity.py`): every expense and
    every income row is inspected, the diagnostics are accumulated without
    stopping early, and the run fails exactly when there are any. */
module IntegrityVerifier {
  import opened Wrappers
  import opened Text
  import opened Records

  /** One diagnostic line, identified by the offending row. */
  datatype Issue =
    | ExpensePaidWithoutDate(expenseId: string)
    | ExpenseNegativeAmount(expenseId: string, amount: real)
    | IncomeReceivedWithoutDate(incomeId: string)
  {
    predicate IsExpenseIssue() {
      !IncomeReceivedWithoutDate?
    }
  }

  /** The report of a run; `ran` is false when the credentials are missing
      and the check is skipped. */
  datatype Report = Report(ran: bool, issues: seq<Issue>, failed: bool)

  /** A paid expense (any casing) whose date is missing. */
  predicate PaidWithoutDate(e: ExpenseRow) {
    Lower(e.status) == "paid" && e.date.None?
  }

  /** An expense whose amount is present and below zero. */
  predicate NegativeAmount(e: ExpenseRow) {
    e.amount.Some? && e.amount.value < 0.0
  }

  /** A received income row (any casing) whose date is missing. */
  predicate ReceivedWithoutDate(r: IncomeRow) {
    Upper(r.status) == "RECEIVED" && r.date.None?
  }

  /** The issues of one expense, in the order the two rules are applied. */
  function ExpenseIssues(e: ExpenseRow): seq<Issue> {
    (if PaidWithoutDate(e) then [ExpensePaidWithoutDate(e.id)] else [])
    + (if NegativeAmount(e) then [ExpenseNegativeAmount(e.id, e.amount.value)] else [])
  }

  function IncomeIssues(r: IncomeRow): seq<Issue> {
    if ReceivedWithoutDate(r) then [IncomeReceivedWithoutDate(r.id)] else []
  }

  /** The issues of every expense, in fetch order. */
  function AllExpenseIssues(rows: seq<ExpenseRow>): seq<Issue> {
    if |rows| == 0 then [] else AllExpenseIssues(rows[..|rows| - 1]) + ExpenseIssues(rows[|rows| - 1])
  }

  /** The issues of every income row, in fetch order. */
  function AllIncomeIssues(rows: seq<IncomeRow>): seq<Issue> {
    if |rows| == 0 then [] else AllIncomeIssues(rows[..|rows| - 1]) + IncomeIssues(rows[|rows| - 1])
  }

  /** `verify_integrity()`: the two loops over the fetched tables, then the
      pass/fail decision. */
  method VerifyIntegrity(hasCredentials: bool, expenses: seq<ExpenseRow>, income: seq<IncomeRow>)
    returns (report: Report)
    ensures !hasCredentials ==> report == Report(false, [], false)
    ensures hasCredentials ==> report.ran && report.issues == AllExpenseIssues(expenses) + AllIncomeIssues(income)
    ensures report.failed <==> |report.issues| > 0
  {
    if !hasCredentials {
      return Report(false, [], false);
    }
    var issues: seq<Issue> := [];
    for i := 0 to |expenses|
      invariant issues == AllExpenseIssues(expenses[..i])
    {
      assert expenses[..i + 1][..i] == expenses[..i];
      var exp := expenses[i];
      if Lower(exp.status) == "paid" && exp.date.None? {
        issues := issues + [ExpensePaidWithoutDate(exp.id)];
      }
      if exp.amount.Some? && exp.amount.value < 0.0 {
        issues := issues + [ExpenseNegativeAmount(exp.id, exp.amount.value)];
      }
    }
    assert expenses[..|expenses|] == expenses;
    ghost var expenseIssues := issues;
    for i := 0 to |income|
      invariant issues == expenseIssues + AllIncomeIssues(income[..i])
    {
      assert income[..i + 1][..i] == income[..i];
      var inc := income[i];
      if Upper(inc.status) == "RECEIVED" && inc.date.None? {
        issues := issues + [IncomeReceivedWithoutDate(inc.id)];
      }
    }
    assert income[..|income|] == income;
    return Report(true, issues, |issues| > 0);
  }

  /** A paid-without-date issue is reported for an id exactly when some
      expense with that id is paid (in any casing) and has no date. */
  lemma {:induction false} PaidWithoutDateReported(rows: seq<ExpenseRow>, id: string)
    ensures ExpensePaidWithoutDate(id) in AllExpenseIssues(rows)
            <==> exists e :: e in rows && e.id == id && PaidWithoutDate(e)
  {
    if |rows| > 0 {
      PaidWithoutDateReported(rows[..|rows| - 1], id);
      assert rows == rows[..|rows| - 1] + [rows[|rows| - 1]];
    }
  }

  /** A negative-amount issue is reported for an id and amount exactly when
      some expense with that id has that amount and it is below zero, whatever
      its status; a zero or null amount is never reported. */
  lemma {:induction false} NegativeAmountReported(rows: seq<ExpenseRow>, id: string, amount: real)
    ensures ExpenseNegativeAmount(id, amount) in AllExpenseIssues(rows)
            <==> exists e :: e in rows && e.id == id && e.amount == Some(amount) && amount < 0.0
  {
    if |rows| > 0 {
      NegativeAmountReported(rows[..|rows| - 1], id, amount);
      assert rows == rows[..|rows| - 1] + [rows[|rows| - 1]];
    }
  }

  /** A received-without-date issue is reported for an id exactly when some
      income row with that id is RECEIVED (any casing) and has no date. */
  lemma {:induction false} ReceivedWithoutDateReported(rows: seq<IncomeRow>, id: string)
    ensures IncomeReceivedWithoutDate(id) in AllIncomeIssues(rows)
            <==> exists r :: r in rows && r.id == id && ReceivedWithoutDate(r)
  {
    if |rows| > 0 {
      ReceivedWithoutDateReported(rows[..|rows| - 1], id);
      assert rows == rows[..|rows| - 1] + [rows[|rows| - 1]];
    }
  }

  /** Income whose status is not RECEIVED in any casing never yields an
      issue, whatever its date. */
  lemma {:induction false} OtherIncomeIsClean(rows: seq<IncomeRow>)
    requires forall i :: 0 <= i < |rows| ==> Upper(rows[i].status) != "RECEIVED"
    ensures AllIncomeIssues(rows) == []
  {
    if |rows| > 0 {
      OtherIncomeIsClean(rows[..|rows| - 1]);
    }
  }

  lemma {:induction false} ExpenseIssuesAreExpenseIssues(rows: seq<ExpenseRow>)
    ensures forall k :: 0 <= k < |AllExpenseIssues(rows)| ==> AllExpenseIssues(rows)[k].IsExpenseIssue()
  {
    if |rows| > 0 {
      ExpenseIssuesAreExpenseIssues(rows[..|rows| - 1]);
    }
  }

  lemma {:induction false} IncomeIssuesAreIncomeIssues(rows: seq<IncomeRow>)
    ensures forall k :: 0 <= k < |AllIncomeIssues(rows)| ==> !AllIncomeIssues(rows)[k].IsExpenseIssue()
  {
    if |rows| > 0 {
      IncomeIssuesAreIncomeIssues(rows[..|rows| - 1]);
    }
  }

  /** In a report every expense issue comes before every income issue. */
  lemma ExpenseIssuesFirst(expenses: seq<ExpenseRow>, income: seq<IncomeRow>)
    ensures var issues := AllExpenseIssues(expenses) + AllIncomeIssues(income);
            forall i, j :: 0 <= i < j < |issues| && issues[j].IsExpenseIssue() ==> issues[i].IsExpenseIssue()
  {
    ExpenseIssuesAreExpenseIssues(expenses);
    IncomeIssuesAreIncomeIssues(income);
  }

  /** Both rules apply to the same expense: a paid expense with no date and a
      negative amount yields two issues, paid-without-date first. */
  lemma OneExpenseTwoIssues(e: ExpenseRow, amount: real)
    requires Lower(e.status) == "paid" && e.date.None? && e.amount == Some(amount) && amount < 0.0
    ensures AllExpenseIssues([e]) == [ExpensePaidWithoutDate(e.id), ExpenseNegativeAmount(e.id, amount)]
  {
    assert [e][..0] == [];
  }
}
