/** The recurring income generator (`src/lib/recurring-logic.ts`): for every
    active recurring rule, a month cursor from the month after the rule's
    last generated date (or from its start date) through next month; one
    EXPECTED income row per month on the rule's default day, unless the month
    already holds one, and the rule's `last_generated_date` moved along.
    The database ids of inserted rows come from `newId`, and the inserts that
    fail are the pairs of rule id and month index in `insertFails`. */
module RecurringIncome {
  import opened Wrappers
  import opened Calendar
  import opened Sorting
  import opened Records

  /** `setDate(cursorDate, rule.default_day)` for the cursor month with index
      `monthIndex`: no clamping, so a day past the month's end rolls over into
      the following month. */
  function ExpectedDate(rule: RecurringRule, monthIndex: int): Date {
    SetDay(FromIndex(monthIndex), rule.defaultDay)
  }

  /** The first cursor month: the month after the last generated date when
      there is one (`addMonths(last, 1)` lands in that month), otherwise the
      month of the start date. */
  function StartIndex(rule: RecurringRule): int {
    if rule.lastGeneratedDate.Some? then MonthOf(rule.lastGeneratedDate.value).Index() + 1
    else MonthOf(rule.startDate).Index()
  }

  /** The last cursor month: the month after today's. */
  function LimitIndex(today: Date): int {
    MonthOf(today).Index() + 1
  }

  /** Some income row of the rule is dated in month `m`: the idempotency
      query's non-zero count. */
  predicate AlreadyGenerated(income: seq<IncomeRow>, ruleId: string, m: YearMonth) {
    exists k :: 0 <= k < |income| && income[k].recurringRuleId == Some(ruleId)
                && income[k].date.Some? && MonthOf(income[k].date.value) == m
  }

  /** The row the generator inserts for `rule` on `date`. The insert names
      no payment method, so that column takes its database default, written
      here as the empty string. */
  function GeneratedRow(rule: RecurringRule, date: Date, id: string): IncomeRow {
    NewIncome(id, rule.amount, date, "EXPECTED", "Monthly Retainer", "Retainer", rule.clientId, rule.serviceId, "", Some(rule.id))
  }

  /** What one cursor month does: go on after inserting `rows` and writing
      `write` as the rule's last generated date, or stop the rule. */
  datatype Step = Continue(rows: seq<IncomeRow>, write: Option<Date>) | Halt

  /** One pass of the cursor loop over the income table `income`: skip a date
      before the start; stop after the end date; for a month already generated
      insert nothing, moving the last generated date forward only; stop when
      the insert fails; otherwise insert the row and record its date. */
  function MonthStep(rule: RecurringRule, monthIndex: int, income: seq<IncomeRow>,
                     insertFails: set<(string, int)>, newId: (string, int) -> string): Step
  {
    StepOn(rule, monthIndex, ExpectedDate(rule, monthIndex), income, insertFails, newId)
  }

  /** The pass for cursor month `monthIndex` once its expected date is known. */
  function StepOn(rule: RecurringRule, monthIndex: int, expected: Date, income: seq<IncomeRow>,
                  insertFails: set<(string, int)>, newId: (string, int) -> string): Step
  {
    if Less(expected, rule.startDate) then Continue([], None)
    else if rule.endDate.Some? && Less(rule.endDate.value, expected) then Halt
    else if AlreadyGenerated(income, rule.id, MonthOf(expected)) then
      Continue([], if rule.lastGeneratedDate.None? || Less(rule.lastGeneratedDate.value, expected) then Some(expected) else None)
    else if (rule.id, monthIndex) in insertFails then Halt
    else Continue([GeneratedRow(rule, expected, newId(rule.id, monthIndex))], Some(expected))
  }

  /** The rows a rule inserts and the last date it writes as its last
      generated date. */
  datatype RuleResult = RuleResult(rows: seq<IncomeRow>, lastWrite: Option<Date>)

  /** `a` followed by `b`: the rows of both, and the later write. */
  function Then(a: RuleResult, b: RuleResult): RuleResult {
    RuleResult(a.rows + b.rows, if b.lastWrite.Some? then b.lastWrite else a.lastWrite)
  }

  /** The cursor loop of one rule from month `monthIndex` through `limit`,
      each month seeing the rows inserted before it. */
  function RuleRun(rule: RecurringRule, monthIndex: int, limit: int, income: seq<IncomeRow>,
                   insertFails: set<(string, int)>, newId: (string, int) -> string): RuleResult
    decreases limit - monthIndex
  {
    if monthIndex > limit then RuleResult([], None)
    else match MonthStep(rule, monthIndex, income, insertFails, newId)
      case Halt => RuleResult([], None)
      case Continue(rows, w) =>
        Then(RuleResult(rows, w), RuleRun(rule, monthIndex + 1, limit, income + rows, insertFails, newId))
  }

  /** `update({last_generated_date}).eq('id', id)` on the rules table. */
  function SetLastGenerated(rules: seq<RecurringRule>, id: string, d: Date): (r: seq<RecurringRule>)
    ensures |r| == |rules|
  {
    seq(|rules|, k requires 0 <= k < |rules| => if rules[k].id == id then rules[k].(lastGeneratedDate := Some(d)) else rules[k])
  }

  function ApplyWrite(rules: seq<RecurringRule>, id: string, w: Option<Date>): seq<RecurringRule> {
    if w.Some? then SetLastGenerated(rules, id, w.value) else rules
  }

  /** A later update of the same rule overwrites an earlier one; rows of
      other rules keep their date. */
  lemma SetLastGeneratedOverwrites(rules: seq<RecurringRule>, id: string, w: Option<Date>, d: Date)
    ensures SetLastGenerated(ApplyWrite(rules, id, w), id, d) == SetLastGenerated(rules, id, d)
  {
  }

  lemma ThenAssociative(a: RuleResult, b: RuleResult, c: RuleResult)
    ensures Then(Then(a, b), c) == Then(a, Then(b, c))
  {
    AppendAssociative(a.rows, b.rows, c.rows);
  }

  /** One pass of the cursor loop against the live tables; `stop` is the
      loop's `break`. */
  method RuleMonth(store: Store, rule: RecurringRule, cursor: int,
                   insertFails: set<(string, int)>, newId: (string, int) -> string)
    returns (stop: bool, inserted: seq<IncomeRow>)
    modifies store
    ensures var step := MonthStep(rule, cursor, old(store.income), insertFails, newId);
            && (stop <==> step.Halt?)
            && (stop ==> inserted == [] && store.income == old(store.income)
                         && store.recurringRules == old(store.recurringRules))
            && (!stop ==> inserted == step.rows && store.income == old(store.income) + step.rows
                          && store.recurringRules == ApplyWrite(old(store.recurringRules), rule.id, step.write))
    ensures store.expenses == old(store.expenses) && store.instances == old(store.instances)
  {
    var expected := SetDay(FromIndex(cursor), rule.defaultDay);
    if Less(expected, rule.startDate) {
      assert old(store.income) + [] == old(store.income);
      return false, [];
    }
    if rule.endDate.Some? && Less(rule.endDate.value, expected) {
      return true, [];
    }
    if AlreadyGenerated(store.income, rule.id, MonthOf(expected)) {
      if rule.lastGeneratedDate.None? || Less(rule.lastGeneratedDate.value, expected) {
        store.recurringRules := SetLastGenerated(store.recurringRules, rule.id, expected);
      }
      assert old(store.income) + [] == old(store.income);
      return false, [];
    }
    if (rule.id, cursor) in insertFails {
      return true, [];
    }
    var row := GeneratedRow(rule, expected, newId(rule.id, cursor));
    store.income := store.income + [row];
    store.recurringRules := SetLastGenerated(store.recurringRules, rule.id, expected);
    return false, [row];
  }

  /** The cursor loop's invariant: the months before `cursor` have
      inserted `done.rows` and written `done.lastWrite`, and the rest of the
      run from `cursor` completes the whole run. */
  ghost predicate Progress(rule: RecurringRule, cursor: int, limit: int, insertFails: set<(string, int)>,
                           newId: (string, int) -> string, income0: seq<IncomeRow>, rules0: seq<RecurringRule>,
                           whole: RuleResult, done: RuleResult,
                           income: seq<IncomeRow>, rules: seq<RecurringRule>, inserted: seq<IncomeRow>)
  {
    && Then(done, RuleRun(rule, cursor, limit, income, insertFails, newId)) == whole
    && inserted == done.rows && income == income0 + done.rows
    && rules == ApplyWrite(rules0, rule.id, done.lastWrite)
  }

  /** The invariant carried over a month that goes on. */
  lemma ProgressContinues(rule: RecurringRule, cursor: int, limit: int, insertFails: set<(string, int)>,
                          newId: (string, int) -> string, income0: seq<IncomeRow>, rules0: seq<RecurringRule>,
                          whole: RuleResult, done: RuleResult,
                          income: seq<IncomeRow>, rules: seq<RecurringRule>, inserted: seq<IncomeRow>,
                          income2: seq<IncomeRow>, rules2: seq<RecurringRule>, inserted2: seq<IncomeRow>)
    requires Progress(rule, cursor, limit, insertFails, newId, income0, rules0, whole, done, income, rules, inserted)
    requires cursor <= limit && MonthStep(rule, cursor, income, insertFails, newId).Continue?
    requires var step := MonthStep(rule, cursor, income, insertFails, newId);
             && income2 == income + step.rows && inserted2 == inserted + step.rows
             && rules2 == ApplyWrite(rules, rule.id, step.write)
    ensures var step := MonthStep(rule, cursor, income, insertFails, newId);
            Progress(rule, cursor + 1, limit, insertFails, newId, income0, rules0, whole,
                     Then(done, RuleResult(step.rows, step.write)), income2, rules2, inserted2)
  {
    var step := MonthStep(rule, cursor, income, insertFails, newId);
    ThenAssociative(done, RuleResult(step.rows, step.write), RuleRun(rule, cursor + 1, limit, income + step.rows, insertFails, newId));
    AppendAssociative(income0, done.rows, step.rows);
    if step.write.Some? {
      SetLastGeneratedOverwrites(rules0, rule.id, done.lastWrite, step.write.value);
    }
  }

  /** When the loop stops, by `break` or past the limit, the tables hold the
      whole run. */
  lemma ProgressEnds(rule: RecurringRule, cursor: int, limit: int, insertFails: set<(string, int)>,
                     newId: (string, int) -> string, income0: seq<IncomeRow>, rules0: seq<RecurringRule>,
                     whole: RuleResult, done: RuleResult,
                     income: seq<IncomeRow>, rules: seq<RecurringRule>, inserted: seq<IncomeRow>)
    requires Progress(rule, cursor, limit, insertFails, newId, income0, rules0, whole, done, income, rules, inserted)
    requires cursor > limit || MonthStep(rule, cursor, income, insertFails, newId).Halt?
    ensures inserted == whole.rows && income == income0 + whole.rows && rules == ApplyWrite(rules0, rule.id, whole.lastWrite)
  {
    assert done.rows + [] == done.rows;
  }

  /** One pass of the cursor loop, carrying the loop invariant: on `break`
      the tables hold the whole run, otherwise the invariant holds for the
      next month, with `done'` the months so far. */
  method AdvanceRule(store: Store, rule: RecurringRule, cursor: int, limit: int,
                     insertFails: set<(string, int)>, newId: (string, int) -> string,
                     ghost income0: seq<IncomeRow>, ghost rules0: seq<RecurringRule>, ghost whole: RuleResult,
                     ghost done: RuleResult, ghost inserted: seq<IncomeRow>)
    returns (stop: bool, rows: seq<IncomeRow>, ghost done': RuleResult)
    requires cursor <= limit
    requires Progress(rule, cursor, limit, insertFails, newId, income0, rules0, whole, done,
                      store.income, store.recurringRules, inserted)
    modifies store
    ensures stop ==> inserted == whole.rows && store.income == income0 + whole.rows
                     && store.recurringRules == ApplyWrite(rules0, rule.id, whole.lastWrite)
    ensures !stop ==> Progress(rule, cursor + 1, limit, insertFails, newId, income0, rules0, whole, done',
                               store.income, store.recurringRules, inserted + rows)
    ensures store.expenses == old(store.expenses) && store.instances == old(store.instances)
  {
    ghost var income := store.income;
    ghost var rules := store.recurringRules;
    ghost var step := MonthStep(rule, cursor, income, insertFails, newId);
    stop, rows := RuleMonth(store, rule, cursor, insertFails, newId);
    if stop {
      ProgressEnds(rule, cursor, limit, insertFails, newId, income0, rules0, whole, done, income, rules, inserted);
      done' := done;
    } else {
      ProgressContinues(rule, cursor, limit, insertFails, newId, income0, rules0, whole, done,
                        income, rules, inserted, store.income, store.recurringRules, inserted + rows);
      done' := Then(done, RuleResult(rows, step.write));
    }
  }

  /** The cursor loop of one rule, against the live tables. */
  method GenerateForRule(store: Store, rule: RecurringRule, limit: int,
                         insertFails: set<(string, int)>, newId: (string, int) -> string)
    returns (inserted: seq<IncomeRow>)
    modifies store
    ensures var run := RuleRun(rule, StartIndex(rule), limit, old(store.income), insertFails, newId);
            && inserted == run.rows && store.income == old(store.income) + run.rows
            && store.recurringRules == ApplyWrite(old(store.recurringRules), rule.id, run.lastWrite)
    ensures store.expenses == old(store.expenses) && store.instances == old(store.instances)
  {
    var cursor := StartIndex(rule);
    inserted := [];
    ghost var done := RuleResult([], None);
    ghost var whole := RuleRun(rule, cursor, limit, store.income, insertFails, newId);
    assert Progress(rule, cursor, limit, insertFails, newId, old(store.income), old(store.recurringRules), whole, done,
                    store.income, store.recurringRules, inserted) by {
      assert [] + whole.rows == whole.rows;
      assert old(store.income) + [] == old(store.income);
    }
    while cursor <= limit
      invariant Progress(rule, cursor, limit, insertFails, newId, old(store.income), old(store.recurringRules), whole, done,
                         store.income, store.recurringRules, inserted)
      invariant store.expenses == old(store.expenses) && store.instances == old(store.instances)
      decreases limit - cursor
    {
      var stop, rows;
      stop, rows, done := AdvanceRule(store, rule, cursor, limit, insertFails, newId,
                                      old(store.income), old(store.recurringRules), whole, done, inserted);
      if stop {
        return;
      }
      inserted := inserted + rows;
      cursor := cursor + 1;
    }
    ProgressEnds(rule, cursor, limit, insertFails, newId, old(store.income), old(store.recurringRules), whole, done,
                 store.income, store.recurringRules, inserted);
  }

  /** The rules the generator fetches: those whose status is 'active', in
      table order. */
  function ActiveRules(rules: seq<RecurringRule>): (r: seq<RecurringRule>)
    ensures forall x :: x in r <==> x in rules && x.status == "active"
  {
    if |rules| == 0 then []
    else ActiveRules(rules[..|rules| - 1]) + (if rules[|rules| - 1].status == "active" then [rules[|rules| - 1]] else [])
  }

  /** The rows inserted by, and the rules table after, a whole generation. */
  datatype Generated = Generated(rows: seq<IncomeRow>, rules: seq<RecurringRule>)

  /** Rule after rule, each seeing the income inserted for the rules before it. */
  function Generation(rules: seq<RecurringRule>, limit: int, income: seq<IncomeRow>, table: seq<RecurringRule>,
                      insertFails: set<(string, int)>, newId: (string, int) -> string): Generated
  {
    if |rules| == 0 then Generated([], table)
    else
      var prev := Generation(rules[..|rules| - 1], limit, income, table, insertFails, newId);
      var rule := rules[|rules| - 1];
      var run := RuleRun(rule, StartIndex(rule), limit, income + prev.rows, insertFails, newId);
      Generated(prev.rows + run.rows, ApplyWrite(prev.rules, rule.id, run.lastWrite))
  }

  /** One more rule of the generation. */
  lemma GenerationStep(rules: seq<RecurringRule>, i: nat, limit: int, income0: seq<IncomeRow>, table0: seq<RecurringRule>,
                       income1: seq<IncomeRow>, table1: seq<RecurringRule>, entries1: seq<IncomeRow>,
                       income2: seq<IncomeRow>, table2: seq<RecurringRule>, inserted: seq<IncomeRow>,
                       insertFails: set<(string, int)>, newId: (string, int) -> string)
    requires i < |rules|
    requires var g := Generation(rules[..i], limit, income0, table0, insertFails, newId);
             entries1 == g.rows && income1 == income0 + g.rows && table1 == g.rules
    requires var run := RuleRun(rules[i], StartIndex(rules[i]), limit, income1, insertFails, newId);
             inserted == run.rows && income2 == income1 + run.rows && table2 == ApplyWrite(table1, rules[i].id, run.lastWrite)
    ensures var g := Generation(rules[..i + 1], limit, income0, table0, insertFails, newId);
            entries1 + inserted == g.rows && income2 == income0 + g.rows && table2 == g.rules
  {
    assert rules[..i + 1][..i] == rules[..i];
    var prev := Generation(rules[..i], limit, income0, table0, insertFails, newId);
    AppendAssociative(income0, prev.rows, inserted);
  }

  /** `generateRecurringIncome()`: nothing when the rules cannot be fetched;
      otherwise every active rule's cursor loop, returning the inserted rows
      in order. */
  method GenerateRecurringIncome(store: Store, today: Date, fetchFails: bool,
                                 insertFails: set<(string, int)>, newId: (string, int) -> string)
    returns (newEntries: seq<IncomeRow>)
    modifies store
    ensures fetchFails ==> newEntries == [] && store.income == old(store.income)
                           && store.recurringRules == old(store.recurringRules)
    ensures !fetchFails ==>
            var g := Generation(ActiveRules(old(store.recurringRules)), LimitIndex(today), old(store.income),
                                old(store.recurringRules), insertFails, newId);
            && newEntries == g.rows && store.income == old(store.income) + g.rows && store.recurringRules == g.rules
    ensures store.expenses == old(store.expenses) && store.instances == old(store.instances)
  {
    if fetchFails {
      return [];
    }
    var rules := ActiveRules(store.recurringRules);
    var limit := MonthOf(today).Index() + 1;
    newEntries := [];
    assert old(store.income) + [] == old(store.income);
    for i := 0 to |rules|
      invariant var g := Generation(rules[..i], limit, old(store.income), old(store.recurringRules), insertFails, newId);
                && newEntries == g.rows && store.income == old(store.income) + g.rows && store.recurringRules == g.rules
      invariant store.expenses == old(store.expenses) && store.instances == old(store.instances)
    {
      ghost var incomeBefore := store.income;
      ghost var rulesBefore := store.recurringRules;
      var inserted := GenerateForRule(store, rules[i], limit, insertFails, newId);
      GenerationStep(rules, i, limit, old(store.income), old(store.recurringRules), incomeBefore, rulesBefore,
                     newEntries, store.income, store.recurringRules, inserted, insertFails, newId);
      newEntries := newEntries + inserted;
    }
    assert rules[..|rules|] == rules;
  }

  /** A row the generator inserts for `rule`: EXPECTED "Monthly Retainer"
      income of the rule's amount, linked to the rule, dated neither before
      its start date nor after its end date. */
  predicate RowOfRule(rule: RecurringRule, r: IncomeRow) {
    && r.recurringRuleId == Some(rule.id) && r.status == "EXPECTED" && r.amount == rule.amount
    && r.category == "Retainer" && r.description == "Monthly Retainer" && r.date.Some?
    && !Less(r.date.value, rule.startDate)
    && (rule.endDate.None? || !Less(rule.endDate.value, r.date.value))
  }

  predicate AllOfRule(rule: RecurringRule, rows: seq<IncomeRow>) {
    forall k :: 0 <= k < |rows| ==> RowOfRule(rule, rows[k])
  }

  /** Every row is dated, in a month that held none of the rule's rows. */
  predicate InFreshMonths(income: seq<IncomeRow>, ruleId: string, rows: seq<IncomeRow>) {
    forall k :: 0 <= k < |rows| ==> rows[k].date.Some? && !AlreadyGenerated(income, ruleId, MonthOf(rows[k].date.value))
  }

  /** No two rows are dated in the same month. */
  predicate DistinctMonths(rows: seq<IncomeRow>)
    requires forall k :: 0 <= k < |rows| ==> rows[k].date.Some?
  {
    forall i, j :: 0 <= i < j < |rows| ==> MonthOf(rows[i].date.value) != MonthOf(rows[j].date.value)
  }

  /** A single pass inserts at most the rule's row for the month, and only
      into a month that holds none of the rule's rows. */
  lemma StepRows(rule: RecurringRule, monthIndex: int, income: seq<IncomeRow>,
                 insertFails: set<(string, int)>, newId: (string, int) -> string)
    ensures var step := MonthStep(rule, monthIndex, income, insertFails, newId);
            step.Continue? ==>
              && |step.rows| <= 1
              && forall k :: 0 <= k < |step.rows| ==>
                   RowOfRule(rule, step.rows[k]) && !AlreadyGenerated(income, rule.id, MonthOf(step.rows[k].date.value))
  {
    var step := MonthStep(rule, monthIndex, income, insertFails, newId);
    if step.Continue? && |step.rows| > 0 {
      var expected := ExpectedDate(rule, monthIndex);
      assert step.rows[0] == GeneratedRow(rule, expected, newId(rule.id, monthIndex));
    }
  }

  /** Every inserted row has the shape of the rule's rows. */
  lemma {:induction false} RunRowsShape(rule: RecurringRule, monthIndex: int, limit: int, income: seq<IncomeRow>,
                                        insertFails: set<(string, int)>, newId: (string, int) -> string)
    ensures AllOfRule(rule, RuleRun(rule, monthIndex, limit, income, insertFails, newId).rows)
    decreases limit - monthIndex
  {
    if monthIndex <= limit {
      var step := MonthStep(rule, monthIndex, income, insertFails, newId);
      if step.Continue? {
        StepRows(rule, monthIndex, income, insertFails, newId);
        RunRowsShape(rule, monthIndex + 1, limit, income + step.rows, insertFails, newId);
        var rest := RuleRun(rule, monthIndex + 1, limit, income + step.rows, insertFails, newId).rows;
        var rows := step.rows + rest;
        forall k | 0 <= k < |rows| ensures RowOfRule(rule, rows[k]) {
          if k >= |step.rows| {
            assert rows[k] == rest[k - |step.rows|];
          }
        }
      }
    }
  }

  /** More rows can only make a month count as already generated. */
  lemma AlreadyGeneratedGrows(income: seq<IncomeRow>, income2: seq<IncomeRow>, ruleId: string, m: YearMonth)
    requires forall r :: r in income ==> r in income2
    requires AlreadyGenerated(income, ruleId, m)
    ensures AlreadyGenerated(income2, ruleId, m)
  {
    var k :| 0 <= k < |income| && income[k].recurringRuleId == Some(ruleId)
             && income[k].date.Some? && MonthOf(income[k].date.value) == m;
    assert income[k] in income;
    var k2 :| 0 <= k2 < |income2| && income2[k2] == income[k];
  }

  /** Putting a row of a fresh month in front of rows that are fresh even
      with it in the table keeps every row fresh. */
  lemma PrependFresh(income: seq<IncomeRow>, ruleId: string, head: seq<IncomeRow>, rest: seq<IncomeRow>)
    requires |head| <= 1
    requires InFreshMonths(income, ruleId, head) && InFreshMonths(income + head, ruleId, rest)
    ensures InFreshMonths(income, ruleId, head + rest)
  {
    var rows := head + rest;
    forall k | 0 <= k < |rows| ensures rows[k].date.Some? && !AlreadyGenerated(income, ruleId, MonthOf(rows[k].date.value)) {
      if k >= |head| {
        assert rows[k] == rest[k - |head|];
        if AlreadyGenerated(income, ruleId, MonthOf(rest[k - |head|].date.value)) {
          AlreadyGeneratedGrows(income, income + head, ruleId, MonthOf(rest[k - |head|].date.value));
        }
      }
    }
  }

  /** ... and, the front row being the rule's, their months distinct. */
  lemma PrependDistinct(income: seq<IncomeRow>, ruleId: string, head: seq<IncomeRow>, rest: seq<IncomeRow>)
    requires |head| <= 1 && forall k :: 0 <= k < |head| ==> head[k].recurringRuleId == Some(ruleId) && head[k].date.Some?
    requires InFreshMonths(income + head, ruleId, rest) && DistinctMonths(rest)
    ensures forall k :: 0 <= k < |head + rest| ==> (head + rest)[k].date.Some?
    ensures DistinctMonths(head + rest)
  {
    var rows := head + rest;
    assert forall k :: 0 <= k < |rows| ==> rows[k].date.Some? by {
      forall k | 0 <= k < |rows| ensures rows[k].date.Some? {
        if k >= |head| {
          assert rows[k] == rest[k - |head|];
        }
      }
    }
    if |head| == 1 {
      assert (income + head)[|income|] == head[0];
      forall i, j | 0 <= i < j < |rows| ensures MonthOf(rows[i].date.value) != MonthOf(rows[j].date.value) {
        assert rows[j] == rest[j - 1];
        if i > 0 {
          assert rows[i] == rest[i - 1];
        }
      }
    } else {
      assert rows == rest;
    }
  }

  /** Idempotency: a run never inserts a row into a month that already holds
      one of the rule's rows, and never two rows into the same month. */
  lemma {:induction false} RunInsertsFreshMonths(rule: RecurringRule, monthIndex: int, limit: int, income: seq<IncomeRow>,
                                                 insertFails: set<(string, int)>, newId: (string, int) -> string)
    ensures var rows := RuleRun(rule, monthIndex, limit, income, insertFails, newId).rows;
            InFreshMonths(income, rule.id, rows) && DistinctMonths(rows)
    decreases limit - monthIndex
  {
    if monthIndex <= limit {
      var step := MonthStep(rule, monthIndex, income, insertFails, newId);
      if step.Continue? {
        StepRows(rule, monthIndex, income, insertFails, newId);
        RunInsertsFreshMonths(rule, monthIndex + 1, limit, income + step.rows, insertFails, newId);
        var rest := RuleRun(rule, monthIndex + 1, limit, income + step.rows, insertFails, newId).rows;
        PrependFresh(income, rule.id, step.rows, rest);
        PrependDistinct(income, rule.id, step.rows, rest);
      }
    }
  }

  /** One month of a second run over a table that holds everything the first
      run's month saw and inserted: it stops where the first one stopped and
      otherwise inserts nothing. */
  lemma RerunStep(rule: RecurringRule, monthIndex: int, income: seq<IncomeRow>, newId: (string, int) -> string,
                  income2: seq<IncomeRow>, insertFails2: set<(string, int)>, newId2: (string, int) -> string)
    requires forall r :: r in income ==> r in income2
    requires var step := MonthStep(rule, monthIndex, income, {}, newId);
             step.Continue? && |step.rows| == 1 ==> step.rows[0] in income2
    ensures var step := MonthStep(rule, monthIndex, income, {}, newId);
            var step2 := MonthStep(rule, monthIndex, income2, insertFails2, newId2);
            && (step.Halt? <==> step2.Halt?)
            && (step2.Continue? ==> step2.rows == [])
  {
    var expected := ExpectedDate(rule, monthIndex);
    if AlreadyGenerated(income, rule.id, MonthOf(expected)) {
      AlreadyGeneratedGrows(income, income2, rule.id, MonthOf(expected));
    }
    var step := MonthStep(rule, monthIndex, income, {}, newId);
    if step.Continue? && |step.rows| == 1 {
      var k :| 0 <= k < |income2| && income2[k] == step.rows[0];
    }
  }

  /** Running a rule again over a table that holds everything the first run
      (without insert failures) left behind inserts nothing, whatever fails
      and whatever ids the second run draws. */
  lemma {:induction false} RerunInsertsNothing(rule: RecurringRule, monthIndex: int, limit: int,
                                               income: seq<IncomeRow>, newId: (string, int) -> string,
                                               income2: seq<IncomeRow>, insertFails2: set<(string, int)>,
                                               newId2: (string, int) -> string)
    requires forall r :: r in income + RuleRun(rule, monthIndex, limit, income, {}, newId).rows ==> r in income2
    ensures RuleRun(rule, monthIndex, limit, income2, insertFails2, newId2).rows == []
    decreases limit - monthIndex
  {
    if monthIndex <= limit {
      var step := MonthStep(rule, monthIndex, income, {}, newId);
      if step.Continue? {
        var rest := RuleRun(rule, monthIndex + 1, limit, income + step.rows, {}, newId).rows;
        assert forall r :: r in (income + step.rows) + rest ==> r in income + (step.rows + rest);
        RerunStep(rule, monthIndex, income, newId, income2, insertFails2, newId2);
        var step2 := MonthStep(rule, monthIndex, income2, insertFails2, newId2);
        assert income2 + step2.rows == income2;
        RerunInsertsNothing(rule, monthIndex + 1, limit, income + step.rows, newId, income2, insertFails2, newId2);
      } else {
        RerunStep(rule, monthIndex, income, newId, income2, insertFails2, newId2);
      }
    }
  }

  /** A date a single pass writes lies after the rule's last generated
      date, when the pass is at or after the rule's first cursor month. */
  lemma StepWritesLater(rule: RecurringRule, monthIndex: int, income: seq<IncomeRow>,
                        insertFails: set<(string, int)>, newId: (string, int) -> string)
    requires rule.defaultDay >= 1 && monthIndex >= StartIndex(rule)
    requires rule.lastGeneratedDate.Some? ==> rule.lastGeneratedDate.value.Valid()
    ensures var step := MonthStep(rule, monthIndex, income, insertFails, newId);
            step.Continue? && step.write.Some? && rule.lastGeneratedDate.Some? ==>
              Less(rule.lastGeneratedDate.value, step.write.value)
  {
    if rule.lastGeneratedDate.Some? {
      var ym := FromIndex(monthIndex);
      SetDayFromFirst(ym, rule.defaultDay);
      EarlierMonthEarlierDate(rule.lastGeneratedDate.value, ym.First());
    }
  }

  /** The already-generated branch writes `last_generated_date` only when the
      expected date is after it, whatever the rule's day. */
  lemma SkipWriteIsLater(rule: RecurringRule, monthIndex: int, income: seq<IncomeRow>,
                         insertFails: set<(string, int)>, newId: (string, int) -> string)
    requires AlreadyGenerated(income, rule.id, MonthOf(ExpectedDate(rule, monthIndex)))
    ensures var step := MonthStep(rule, monthIndex, income, insertFails, newId);
            step.Continue? && step.write.Some? && rule.lastGeneratedDate.Some? ==>
              Less(rule.lastGeneratedDate.value, step.write.value)
  {
  }

  /** A day below 1 can move `last_generated_date` back: with the date at
      31 January 2023 and day -5, the February pass dates its row
      `setDate(1 February, -5)`, which is 26 January, inserts it and writes
      that earlier date. */
  lemma NonPositiveDayWritesEarlier(newId: (string, int) -> string)
    ensures var rule := RecurringRule("r", None, None, 100.0, -5, Date(2022, 1, 1), None, "active",
                                      Some(Date(2023, 1, 31)));
            var step := MonthStep(rule, StartIndex(rule), [], {}, newId);
            step.Continue? && step.write == Some(Date(2023, 1, 26)) && |step.rows| == 1
            && Less(step.write.value, rule.lastGeneratedDate.value)
  {
    var rule := RecurringRule("r", None, None, 100.0, -5, Date(2022, 1, 1), None, "active", Some(Date(2023, 1, 31)));
    var feb := YearMonth(2023, 2);
    FromIndexOfIndex(feb);
    assert StartIndex(rule) == feb.Index();
    assert AddDays(feb.First(), -6) == Date(2023, 1, 26) by {
      assert AddDays(feb.First(), -1) == Date(2023, 1, 31);
      assert AddDays(feb.First(), -2) == Date(2023, 1, 30);
      assert AddDays(feb.First(), -3) == Date(2023, 1, 29);
      assert AddDays(feb.First(), -4) == Date(2023, 1, 28);
      assert AddDays(feb.First(), -5) == Date(2023, 1, 27);
    }
    assert ExpectedDate(rule, StartIndex(rule)) == Date(2023, 1, 26);
  }

  /** `last_generated_date` only moves forward: for a rule whose day is at
      least 1, every date a run from the rule's first cursor month writes is
      after the date it had. */
  lemma {:induction false} LastGeneratedMovesForward(rule: RecurringRule, monthIndex: int, limit: int, income: seq<IncomeRow>,
                                                     insertFails: set<(string, int)>, newId: (string, int) -> string)
    requires rule.defaultDay >= 1 && monthIndex >= StartIndex(rule)
    requires rule.lastGeneratedDate.Some? ==> rule.lastGeneratedDate.value.Valid()
    ensures var w := RuleRun(rule, monthIndex, limit, income, insertFails, newId).lastWrite;
            w.Some? && rule.lastGeneratedDate.Some? ==> Less(rule.lastGeneratedDate.value, w.value)
    decreases limit - monthIndex
  {
    if monthIndex <= limit {
      var step := MonthStep(rule, monthIndex, income, insertFails, newId);
      if step.Continue? {
        LastGeneratedMovesForward(rule, monthIndex + 1, limit, income + step.rows, insertFails, newId);
        StepWritesLater(rule, monthIndex, income, insertFails, newId);
      }
    }
  }

  /** A default day past the end of a month rolls its date into the next
      month (day 31 in February 2023 lands on March 3), and when the next month
      has that day, the next pass finds its month already generated and
      inserts nothing: no row is ever dated on the rule's day in that month. */
  lemma RolloverSkipsNextMonth(rule: RecurringRule, monthIndex: int, income: seq<IncomeRow>,
                               insertFails: set<(string, int)>, newId: (string, int) -> string)
    requires FromIndex(monthIndex).Days() < rule.defaultDay <= FromIndex(monthIndex).Next().Days()
    requires LessEq(rule.startDate, FromIndex(monthIndex).First()) && rule.endDate.None?
    requires !AlreadyGenerated(income, rule.id, FromIndex(monthIndex).Next()) && (rule.id, monthIndex) !in insertFails
    ensures var ym := FromIndex(monthIndex);
            var step := MonthStep(rule, monthIndex, income, insertFails, newId);
            && step.Continue? && |step.rows| == 1
            && step.rows[0].date == Some(Date(ym.Next().year, ym.Next().month, rule.defaultDay - ym.Days()))
            && MonthOf(step.rows[0].date.value) != ym
    ensures var step := MonthStep(rule, monthIndex, income, insertFails, newId);
            var next := MonthStep(rule, monthIndex + 1, income + step.rows, insertFails, newId);
            next.Continue? && next.rows == []
  {
    var ym := FromIndex(monthIndex);
    SetDayRollsOver(ym, rule.defaultDay);
    SetDayFromFirst(ym, rule.defaultDay);
    var step := MonthStep(rule, monthIndex, income, insertFails, newId);
    FromIndexOfIndex(ym.Next());
    SetDayWithinMonth(ym.Next(), rule.defaultDay);
    assert (income + step.rows)[|income|] == step.rows[0];
    assert AlreadyGenerated(income + step.rows, rule.id, ym.Next());
  }

  /** The evidently intended expected date: the default day clamped to the
      length of the cursor month, as the recurring expense generator does. */
  function ClampedExpectedDate(rule: RecurringRule, monthIndex: int): Date {
    ClampedDay(FromIndex(monthIndex), rule.defaultDay)
  }

  /** With the clamp every pass dates its row inside its own cursor month, so
      no pass can make a later month look already generated. */
  lemma ClampedDateStaysInMonth(rule: RecurringRule, i: int, j: int)
    requires rule.defaultDay >= 1
    ensures MonthOf(ClampedExpectedDate(rule, i)) == FromIndex(i)
    ensures ClampedExpectedDate(rule, i).day == Min(rule.defaultDay, FromIndex(i).Days())
    ensures i != j ==> MonthOf(ClampedExpectedDate(rule, i)) != MonthOf(ClampedExpectedDate(rule, j))
  {
    ClampedDayInMonth(FromIndex(i), rule.defaultDay);
    ClampedDayInMonth(FromIndex(j), rule.defaultDay);
  }

  /** The cursor pass with the clamped expected date. */
  function ClampedMonthStep(rule: RecurringRule, monthIndex: int, income: seq<IncomeRow>,
                            insertFails: set<(string, int)>, newId: (string, int) -> string): Step
  {
    StepOn(rule, monthIndex, ClampedExpectedDate(rule, monthIndex), income, insertFails, newId)
  }

  /** With the clamp, two consecutive open months each get their own row:
      the row inserted for one month never makes the next look generated. */
  lemma ClampedNextMonthStillInserts(rule: RecurringRule, monthIndex: int, income: seq<IncomeRow>,
                                     insertFails: set<(string, int)>, newId: (string, int) -> string)
    requires rule.defaultDay >= 1 && rule.endDate.None?
    requires LessEq(rule.startDate, FromIndex(monthIndex).First())
    requires !AlreadyGenerated(income, rule.id, FromIndex(monthIndex))
    requires !AlreadyGenerated(income, rule.id, FromIndex(monthIndex + 1))
    requires (rule.id, monthIndex) !in insertFails && (rule.id, monthIndex + 1) !in insertFails
    ensures var step := ClampedMonthStep(rule, monthIndex, income, insertFails, newId);
            && step.Continue? && |step.rows| == 1 && step.rows[0].date.Some?
            && MonthOf(step.rows[0].date.value) == FromIndex(monthIndex)
    ensures var step := ClampedMonthStep(rule, monthIndex, income, insertFails, newId);
            var next := ClampedMonthStep(rule, monthIndex + 1, income + step.rows, insertFails, newId);
            && next.Continue? && |next.rows| == 1 && next.rows[0].date.Some?
            && MonthOf(next.rows[0].date.value) == FromIndex(monthIndex + 1)
  {
    var ym, ym2 := FromIndex(monthIndex), FromIndex(monthIndex + 1);
    ClampedDateStaysInMonth(rule, monthIndex, monthIndex + 1);
    ClampedDateStaysInMonth(rule, monthIndex + 1, monthIndex);
    EarlierMonthEarlierDate(ym.First(), ym2.First());
  }
}
