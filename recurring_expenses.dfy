/** The recurring expense generator (`src/lib/recurring-expenses-logic.ts`):
    for every active rule of the `recurring_expense_rules` table and for this
    month and next month, one SCHEDULED expense on the rule's due day,
    clamped to the month's last day, unless the rule's window excludes the
    month or an expense of the rule is already dated in it.  The rules table
    is read only, so it is a parameter; the ids of inserted rows come from
    `newId` and the inserts that fail are the pairs of rule id and month
    index in `insertFails`. */
module RecurringExpenses {
  import opened Wrappers
  import opened Calendar
  import opened Records
  import opened Sorting

  /** A row of the `recurring_expense_rules` table. */
  datatype ExpenseRule = ExpenseRule(
    id: string,
    name: string,
    amount: real,
    vendor: string,
    category: string,
    paymentMethod: string,
    dueDay: int,
    startMonth: Date,
    endMonth: Option<Date>,
    active: bool)

  /** The rules `.eq('active', true)` fetches, in table order. */
  function ActiveExpenseRules(rules: seq<ExpenseRule>): (r: seq<ExpenseRule>)
    ensures forall x :: x in r <==> x in rules && x.active
  {
    if |rules| == 0 then []
    else ActiveExpenseRules(rules[..|rules| - 1]) + (if rules[|rules| - 1].active then [rules[|rules| - 1]] else [])
  }

  /** The target months: the month of today and the month after it. */
  function TargetMonths(today: Date): seq<int> {
    [MonthOf(today).Index(), MonthOf(today).Index() + 1]
  }

  /** The rule's validity period covers the month: not before the month of
      `start_month` and, when `end_month` is set, not after its month. */
  predicate InWindow(rule: ExpenseRule, monthIndex: int) {
    && monthIndex >= MonthOf(rule.startMonth).Index()
    && (rule.endMonth.None? || monthIndex <= MonthOf(rule.endMonth.value).Index())
  }

  /** The due date in the month: the due day, capped at the month's number of
      days. */
  function DueDate(rule: ExpenseRule, monthIndex: int): Date {
    ClampedDay(FromIndex(monthIndex), rule.dueDay)
  }

  /** Some expense of the rule is dated between the first and the last day of
      month `m`: the idempotency query's non-zero count. */
  predicate HasExpenseIn(expenses: seq<ExpenseRow>, ruleId: string, m: YearMonth) {
    exists k :: 0 <= k < |expenses| && expenses[k].recurringRuleId == Some(ruleId)
                && expenses[k].date.Some? && MonthOf(expenses[k].date.value) == m
  }

  /** The expense the generator inserts for `rule` on `date`. */
  function ScheduledExpense(rule: ExpenseRule, date: Date, id: string): ExpenseRow {
    ExpenseRow(id, Some(rule.amount), Some(date), "SCHEDULED", rule.name + " (Recurring)",
               rule.vendor, "", rule.category, rule.paymentMethod, Some(rule.id))
  }

  /** What one target month inserts for `rule`: nothing outside the rule's
      window, nothing when the month already holds an expense of the rule,
      nothing when the insert fails (the failure is only logged), otherwise
      the scheduled expense. */
  function MonthInsert(rule: ExpenseRule, monthIndex: int, expenses: seq<ExpenseRow>,
                       insertFails: set<(string, int)>, newId: (string, int) -> string): seq<ExpenseRow>
  {
    if !InWindow(rule, monthIndex) then []
    else if HasExpenseIn(expenses, rule.id, FromIndex(monthIndex)) then []
    else if (rule.id, monthIndex) in insertFails then []
    else [ScheduledExpense(rule, DueDate(rule, monthIndex), newId(rule.id, monthIndex))]
  }

  /** The inner loop: the months in order, each seeing the expenses inserted
      for the months before it. */
  function RuleInserts(rule: ExpenseRule, months: seq<int>, expenses: seq<ExpenseRow>,
                       insertFails: set<(string, int)>, newId: (string, int) -> string): seq<ExpenseRow>
  {
    if |months| == 0 then []
    else
      var prev := RuleInserts(rule, months[..|months| - 1], expenses, insertFails, newId);
      prev + MonthInsert(rule, months[|months| - 1], expenses + prev, insertFails, newId)
  }

  /** The outer loop: the rules in order, each seeing the expenses inserted
      for the rules before it. */
  function ExpenseGeneration(rules: seq<ExpenseRule>, months: seq<int>, expenses: seq<ExpenseRow>,
                             insertFails: set<(string, int)>, newId: (string, int) -> string): seq<ExpenseRow>
  {
    if |rules| == 0 then []
    else
      var prev := ExpenseGeneration(rules[..|rules| - 1], months, expenses, insertFails, newId);
      prev + RuleInserts(rules[|rules| - 1], months, expenses + prev, insertFails, newId)
  }

  /** One target month against the live expenses table. */
  method GenerateMonthExpense(store: Store, rule: ExpenseRule, monthIndex: int,
                              insertFails: set<(string, int)>, newId: (string, int) -> string)
    modifies store
    ensures store.expenses == old(store.expenses) + MonthInsert(rule, monthIndex, old(store.expenses), insertFails, newId)
    ensures store.income == old(store.income) && store.instances == old(store.instances)
    ensures store.recurringRules == old(store.recurringRules)
  {
    var skip := true;
    if InWindow(rule, monthIndex) {
      var monthStart := FromIndex(monthIndex);
      var expectedDate := ClampedDay(monthStart, rule.dueDay);
      if !HasExpenseIn(store.expenses, rule.id, monthStart) && (rule.id, monthIndex) !in insertFails {
        store.expenses := store.expenses + [ScheduledExpense(rule, expectedDate, newId(rule.id, monthIndex))];
        skip := false;
      }
    }
    if skip {
      assert old(store.expenses) + [] == old(store.expenses);
    }
  }

  /** The inner loop over the target months for one rule. */
  method GenerateForExpenseRule(store: Store, rule: ExpenseRule, months: seq<int>,
                                insertFails: set<(string, int)>, newId: (string, int) -> string)
    modifies store
    ensures store.expenses == old(store.expenses) + RuleInserts(rule, months, old(store.expenses), insertFails, newId)
    ensures store.income == old(store.income) && store.instances == old(store.instances)
    ensures store.recurringRules == old(store.recurringRules)
  {
    assert old(store.expenses) + [] == old(store.expenses);
    for j := 0 to |months|
      invariant store.expenses == old(store.expenses) + RuleInserts(rule, months[..j], old(store.expenses), insertFails, newId)
      invariant store.income == old(store.income) && store.instances == old(store.instances)
      invariant store.recurringRules == old(store.recurringRules)
    {
      ghost var prev := RuleInserts(rule, months[..j], old(store.expenses), insertFails, newId);
      GenerateMonthExpense(store, rule, months[j], insertFails, newId);
      assert months[..j + 1][..j] == months[..j];
      AppendAssociative(old(store.expenses), prev,
                        MonthInsert(rule, months[j], old(store.expenses) + prev, insertFails, newId));
    }
    assert months[..|months|] == months;
  }

  /** `generateExpenseInstances()`: nothing when the rules cannot be fetched;
      otherwise every active rule over this month and next month. */
  method GenerateExpenseInstances(store: Store, rules: seq<ExpenseRule>, today: Date, fetchFails: bool,
                                  insertFails: set<(string, int)>, newId: (string, int) -> string)
    modifies store
    ensures fetchFails ==> store.expenses == old(store.expenses)
    ensures !fetchFails ==>
            store.expenses == old(store.expenses) + ExpenseGeneration(ActiveExpenseRules(rules), TargetMonths(today),
                                                                      old(store.expenses), insertFails, newId)
    ensures store.income == old(store.income) && store.instances == old(store.instances)
    ensures store.recurringRules == old(store.recurringRules)
  {
    if fetchFails {
      return;
    }
    var active := ActiveExpenseRules(rules);
    var months := TargetMonths(today);
    assert old(store.expenses) + [] == old(store.expenses);
    for i := 0 to |active|
      invariant store.expenses == old(store.expenses) + ExpenseGeneration(active[..i], months, old(store.expenses), insertFails, newId)
      invariant store.income == old(store.income) && store.instances == old(store.instances)
      invariant store.recurringRules == old(store.recurringRules)
    {
      ghost var prev := ExpenseGeneration(active[..i], months, old(store.expenses), insertFails, newId);
      GenerateForExpenseRule(store, active[i], months, insertFails, newId);
      assert active[..i + 1][..i] == active[..i];
      AppendAssociative(old(store.expenses), prev,
                        RuleInserts(active[i], months, old(store.expenses) + prev, insertFails, newId));
    }
    assert active[..|active|] == active;
  }

  /** The clamped due date lies inside the target month, on the due day or,
      when the month is shorter, on its last day (day 31 in February 2024 is
      February 29). */
  lemma DueDateInMonth(rule: ExpenseRule, monthIndex: int)
    requires rule.dueDay >= 1
    ensures MonthOf(DueDate(rule, monthIndex)) == FromIndex(monthIndex)
    ensures DueDate(rule, monthIndex).day == Min(rule.dueDay, FromIndex(monthIndex).Days())
    ensures DueDate(rule, monthIndex).Valid()
  {
    ClampedDayInMonth(FromIndex(monthIndex), rule.dueDay);
  }

  /** A generated expense: SCHEDULED, the rule's amount, vendor, category and
      payment method, "<name> (Recurring)", linked to the rule, dated inside
      one of the target months that the rule's window covers. */
  predicate ScheduledFor(rule: ExpenseRule, months: seq<int>, r: ExpenseRow) {
    && r.status == "SCHEDULED" && r.amount == Some(rule.amount) && r.vendor == rule.vendor
    && r.category == rule.category && r.paymentMethod == rule.paymentMethod
    && r.description == rule.name + " (Recurring)" && r.recurringRuleId == Some(rule.id)
    && r.date.Some? && MonthOf(r.date.value).Index() in months && InWindow(rule, MonthOf(r.date.value).Index())
  }

  predicate AllScheduledFor(rule: ExpenseRule, months: seq<int>, rows: seq<ExpenseRow>) {
    forall k :: 0 <= k < |rows| ==> ScheduledFor(rule, months, rows[k])
  }

  /** Every row of the months is dated, in a month that held no expense of
      the rule. */
  predicate InFreshMonths(expenses: seq<ExpenseRow>, ruleId: string, rows: seq<ExpenseRow>) {
    forall k :: 0 <= k < |rows| ==> rows[k].date.Some? && !HasExpenseIn(expenses, ruleId, MonthOf(rows[k].date.value))
  }

  /** No two rows are dated in the same month. */
  predicate DistinctMonths(rows: seq<ExpenseRow>)
    requires forall k :: 0 <= k < |rows| ==> rows[k].date.Some?
  {
    forall i, j :: 0 <= i < j < |rows| ==> MonthOf(rows[i].date.value) != MonthOf(rows[j].date.value)
  }

  /** One target month inserts at most the rule's expense, dated in that
      month, and only when the month held no expense of the rule. */
  lemma MonthInsertShape(rule: ExpenseRule, months: seq<int>, j: int, expenses: seq<ExpenseRow>,
                         insertFails: set<(string, int)>, newId: (string, int) -> string)
    requires rule.dueDay >= 1 && 0 <= j < |months|
    ensures var rows := MonthInsert(rule, months[j], expenses, insertFails, newId);
            && |rows| <= 1 && AllScheduledFor(rule, months, rows) && InFreshMonths(expenses, rule.id, rows)
  {
    DueDateInMonth(rule, months[j]);
  }

  /** More rows can only make a month count as already holding an expense. */
  lemma HasExpenseGrows(expenses: seq<ExpenseRow>, more: seq<ExpenseRow>, ruleId: string, m: YearMonth)
    requires forall r :: r in expenses ==> r in more
    requires HasExpenseIn(expenses, ruleId, m)
    ensures HasExpenseIn(more, ruleId, m)
  {
    var k :| 0 <= k < |expenses| && expenses[k].recurringRuleId == Some(ruleId)
             && expenses[k].date.Some? && MonthOf(expenses[k].date.value) == m;
    assert expenses[k] in expenses;
    var k2 :| 0 <= k2 < |more| && more[k2] == expenses[k];
  }

  /** Appending a row of a month that is fresh even with `prev` stored keeps
      the rows fresh and their months distinct. */
  lemma AppendFresh(expenses: seq<ExpenseRow>, ruleId: string, prev: seq<ExpenseRow>, added: seq<ExpenseRow>)
    requires |added| <= 1
    requires InFreshMonths(expenses, ruleId, prev) && DistinctMonths(prev)
    requires forall k :: 0 <= k < |prev| ==> prev[k].recurringRuleId == Some(ruleId)
    requires InFreshMonths(expenses + prev, ruleId, added)
    ensures InFreshMonths(expenses, ruleId, prev + added) && DistinctMonths(prev + added)
  {
    var rows := prev + added;
    if |added| == 0 {
      assert rows == prev;
    } else {
      var x := added[0];
      assert forall k :: 0 <= k < |prev| ==> (expenses + prev)[|expenses| + k] == prev[k];
      if HasExpenseIn(expenses, ruleId, MonthOf(x.date.value)) {
        HasExpenseGrows(expenses, expenses + prev, ruleId, MonthOf(x.date.value));
      }
      forall k | 0 <= k < |rows| ensures rows[k].date.Some? && !HasExpenseIn(expenses, ruleId, MonthOf(rows[k].date.value)) {
        if k < |prev| {
          assert rows[k] == prev[k];
        }
      }
      forall i, j | 0 <= i < j < |rows| ensures MonthOf(rows[i].date.value) != MonthOf(rows[j].date.value) {
        assert rows[i] == prev[i];
        if j < |prev| {
          assert rows[j] == prev[j];
        }
      }
    }
  }

  /** What a rule inserts over the target months: expenses of the rule's
      shape, each in a month that held no expense of the rule, no two in the
      same month (repeated months included). */
  lemma {:induction false} RuleInsertsProperties(rule: ExpenseRule, months: seq<int>, expenses: seq<ExpenseRow>,
                                                 insertFails: set<(string, int)>, newId: (string, int) -> string)
    requires rule.dueDay >= 1
    ensures var rows := RuleInserts(rule, months, expenses, insertFails, newId);
            AllScheduledFor(rule, months, rows) && InFreshMonths(expenses, rule.id, rows) && DistinctMonths(rows)
    decreases |months|
  {
    if |months| > 0 {
      var init := months[..|months| - 1];
      RuleInsertsProperties(rule, init, expenses, insertFails, newId);
      var prev := RuleInserts(rule, init, expenses, insertFails, newId);
      MonthInsertShape(rule, months, |months| - 1, expenses + prev, insertFails, newId);
      var added := MonthInsert(rule, months[|months| - 1], expenses + prev, insertFails, newId);
      AppendFresh(expenses, rule.id, prev, added);
      var rows := prev + added;
      forall k | 0 <= k < |rows| ensures ScheduledFor(rule, months, rows[k]) {
        if k < |prev| {
          assert rows[k] == prev[k];
          assert MonthOf(prev[k].date.value).Index() in init;
        }
      }
    }
  }

  /** Running the rule again over a table that holds everything the first
      run (without insert failures) left behind inserts nothing. */
  lemma {:induction false} RerunInsertsNothing(rule: ExpenseRule, months: seq<int>, expenses: seq<ExpenseRow>,
                                               newId: (string, int) -> string, more: seq<ExpenseRow>,
                                               insertFails2: set<(string, int)>, newId2: (string, int) -> string)
    requires rule.dueDay >= 1
    requires forall r :: r in expenses + RuleInserts(rule, months, expenses, {}, newId) ==> r in more
    ensures RuleInserts(rule, months, more, insertFails2, newId2) == []
    decreases |months|
  {
    if |months| > 0 {
      var init := months[..|months| - 1];
      var m := months[|months| - 1];
      var prev := RuleInserts(rule, init, expenses, {}, newId);
      var added := MonthInsert(rule, m, expenses + prev, {}, newId);
      assert RuleInserts(rule, months, expenses, {}, newId) == prev + added;
      assert forall r :: r in expenses + prev ==> r in expenses + (prev + added);
      RerunInsertsNothing(rule, init, expenses, newId, more, insertFails2, newId2);
      assert more + [] == more;
      if InWindow(rule, m) {
        if HasExpenseIn(expenses + prev, rule.id, FromIndex(m)) {
          HasExpenseGrows(expenses + prev, more, rule.id, FromIndex(m));
        } else {
          DueDateInMonth(rule, m);
          assert added[0] in expenses + (prev + added);
          var k :| 0 <= k < |more| && more[k] == added[0];
        }
      }
    }
  }

  /** Some rule of `rules` schedules `r` in one of the months. */
  predicate FromSomeRule(rules: seq<ExpenseRule>, months: seq<int>, r: ExpenseRow) {
    exists x :: x in rules && ScheduledFor(x, months, r)
  }

  predicate AllFromRules(rules: seq<ExpenseRule>, months: seq<int>, rows: seq<ExpenseRow>) {
    forall k :: 0 <= k < |rows| ==> FromSomeRule(rules, months, rows[k])
  }

  /** Every expense a whole generation inserts comes from an active rule and
      is dated in this month or next month. */
  lemma GenerationOnlyTargetMonths(rules: seq<ExpenseRule>, today: Date, expenses: seq<ExpenseRow>,
                                   insertFails: set<(string, int)>, newId: (string, int) -> string)
    requires forall k :: 0 <= k < |rules| ==> rules[k].dueDay >= 1
    ensures var rows := ExpenseGeneration(ActiveExpenseRules(rules), TargetMonths(today), expenses, insertFails, newId);
            forall k :: 0 <= k < |rows| ==>
              && rows[k].date.Some?
              && (MonthOf(rows[k].date.value).Index() == MonthOf(today).Index()
                  || MonthOf(rows[k].date.value).Index() == MonthOf(today).Index() + 1)
              && exists x :: x in rules && x.active && rows[k].recurringRuleId == Some(x.id)
  {
    var active := ActiveExpenseRules(rules);
    var months := TargetMonths(today);
    GenerationFromRules(active, months, expenses, insertFails, newId);
    var rows := ExpenseGeneration(active, months, expenses, insertFails, newId);
    assert AllFromRules(active, months, rows);
    forall k | 0 <= k < |rows|
      ensures && rows[k].date.Some?
              && (MonthOf(rows[k].date.value).Index() == MonthOf(today).Index()
                  || MonthOf(rows[k].date.value).Index() == MonthOf(today).Index() + 1)
              && exists x :: x in rules && x.active && rows[k].recurringRuleId == Some(x.id)
    {
      assert FromSomeRule(active, months, rows[k]);
      var x :| x in active && ScheduledFor(x, months, rows[k]);
      assert x in rules && x.active;
    }
  }

  /** Every expense a generation over `rules` inserts is scheduled for one of
      them. */
  lemma {:induction false} GenerationFromRules(rules: seq<ExpenseRule>, months: seq<int>, expenses: seq<ExpenseRow>,
                                               insertFails: set<(string, int)>, newId: (string, int) -> string)
    requires forall x :: x in rules ==> x.dueDay >= 1
    ensures AllFromRules(rules, months, ExpenseGeneration(rules, months, expenses, insertFails, newId))
    decreases |rules|
  {
    if |rules| > 0 {
      var init := rules[..|rules| - 1];
      var last := rules[|rules| - 1];
      GenerationFromRules(init, months, expenses, insertFails, newId);
      var prev := ExpenseGeneration(init, months, expenses, insertFails, newId);
      assert AllFromRules(init, months, prev);
      RuleInsertsProperties(last, months, expenses + prev, insertFails, newId);
      var added := RuleInserts(last, months, expenses + prev, insertFails, newId);
      var rows := prev + added;
      assert rows == ExpenseGeneration(rules, months, expenses, insertFails, newId);
      forall k | 0 <= k < |rows| ensures FromSomeRule(rules, months, rows[k]) {
        if k < |prev| {
          assert rows[k] == prev[k];
          assert FromSomeRule(init, months, prev[k]);
          var x :| x in init && ScheduledFor(x, months, prev[k]);
          assert x in rules;
        } else {
          assert rows[k] == added[k - |prev|];
          assert ScheduledFor(last, months, rows[k]);
        }
      }
    }
  }
}
