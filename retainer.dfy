/** The retainer generator (`src/lib/retainer-logic.ts`): for every active
    contract, month by month from its earliest version up to next month, the
    applicable pricing version, one monthly instance and the instance's
    payment milestones as expected income. */
module Retainer {
  import opened Wrappers
  import opened Calendar
  import opened Sums
  import opened Sorting
  import opened Records

  datatype StepKind = Percent | Fixed | Remainder

  /** One step of a version's payment structure. */
  datatype MilestoneConfig = MilestoneConfig(name: string, kind: StepKind, value: Option<real>, dayOffset: int)

  /** A computed payment milestone. */
  datatype Milestone = Milestone(name: string, amount: real, date: Date)

  datatype RetainerContract = RetainerContract(id: string, clientId: string, serviceId: Option<string>,
                                               name: string, status: string)

  /** A pricing version of a contract, effective over a range of months. */
  datatype ContractVersion = ContractVersion(
    id: string,
    contractId: string,
    monthlyPrice: real,
    effectiveStart: Date,
    effectiveEnd: Option<Date>,
    paymentStructure: seq<MilestoneConfig>)

  /** A fixed step pays its value, a percent step that share of the total;
      an absent value counts as 0. */
  function StepAmount(step: MilestoneConfig, total: real): real {
    match step.kind
    case Fixed => step.value.GetOr(0.0)
    case Percent => total * step.value.GetOr(0.0) / 100.0
    case Remainder => 0.0
  }

  function StepTerm(total: real): MilestoneConfig -> real {
    (step: MilestoneConfig) => StepAmount(step, total)
  }

  function MilestoneAmount(m: Milestone): real {
    m.amount
  }

  /** The milestones of the non-remainder steps, in structure order, each
      dated `base` plus its day offset. */
  function Planned(structure: seq<MilestoneConfig>, total: real, base: Date): seq<Milestone>
    requires base.Valid()
  {
    if |structure| == 0 then []
    else
      var step := structure[|structure| - 1];
      Planned(structure[..|structure| - 1], total, base)
      + (if step.kind == Remainder then [] else [Milestone(step.name, StepAmount(step, total), AddDays(base, step.dayOffset))])
  }

  /** `structure.find(s => s.type === 'remainder')`. */
  function FirstRemainder(structure: seq<MilestoneConfig>): (r: Option<MilestoneConfig>)
  {
    if |structure| == 0 then None
    else if structure[0].kind == Remainder then Some(structure[0])
    else FirstRemainder(structure[1..])
  }

  /** The step found is the first remainder step of the structure, and one
      is found exactly when the structure has a remainder step. */
  lemma {:induction false} FirstRemainderFinds(structure: seq<MilestoneConfig>)
    ensures var r := FirstRemainder(structure);
            && (r.Some? ==> r.value.kind == Remainder && r.value in structure)
            && (r.Some? ==> exists k :: 0 <= k < |structure| && structure[k] == r.value &&
                              forall j :: 0 <= j < k ==> structure[j].kind != Remainder)
            && (r.None? <==> forall k :: 0 <= k < |structure| ==> structure[k].kind != Remainder)
  {
    if |structure| > 0 {
      if structure[0].kind == Remainder {
        assert structure[0] == FirstRemainder(structure).value;
      } else {
        var rest := structure[1..];
        FirstRemainderFinds(rest);
        assert forall k :: 1 <= k < |structure| ==> rest[k - 1] == structure[k];
        if FirstRemainder(rest).Some? {
          var k :| 0 <= k < |rest| && rest[k] == FirstRemainder(rest).value &&
                   forall j :: 0 <= j < k ==> rest[j].kind != Remainder;
          assert structure[k + 1] == FirstRemainder(structure).value;
          assert forall j :: 0 <= j < k + 1 ==> structure[j].kind != Remainder by {
            forall j | 0 <= j < k + 1 ensures structure[j].kind != Remainder {
              if j > 0 { assert structure[j] == rest[j - 1]; }
            }
          }
        }
      }
    }
  }

  /** The milestones `calculateMilestones` computes: one "Full Payment" of
      the whole total for an empty structure; otherwise the planned steps and,
      when a remainder step exists, a final one carrying what is left. */
  function Milestones(total: real, structure: seq<MilestoneConfig>, base: Date): seq<Milestone>
    requires base.Valid()
  {
    if |structure| == 0 then [Milestone("Full Payment", total, base)]
    else
      var planned := Planned(structure, total, base);
      match FirstRemainder(structure)
      case None => planned
      case Some(rem) => planned + [Milestone(rem.name, total - Sum(planned, MilestoneAmount), AddDays(base, rem.dayOffset))]
  }

  /** The loop of `calculateMilestones`: the non-remainder steps in order,
      and what is left of the total after them. */
  method PlanSteps(total: real, structure: seq<MilestoneConfig>, base: Date) returns (results: seq<Milestone>, remaining: real)
    requires base.Valid()
    ensures results == Planned(structure, total, base)
    ensures remaining == total - Sum(results, MilestoneAmount)
  {
    remaining := total;
    results := [];
    for i := 0 to |structure|
      invariant results == Planned(structure[..i], total, base)
      invariant remaining == total - Sum(results, MilestoneAmount)
    {
      assert structure[..i + 1][..i] == structure[..i] && structure[..i + 1][i] == structure[i];
      var step := structure[i];
      assert Planned(structure[..i + 1], total, base) == results
             + (if step.kind == Remainder then [] else [Milestone(step.name, StepAmount(step, total), AddDays(base, step.dayOffset))]);
      if step.kind == Remainder {
        continue;
      }
      var amount := 0.0;
      if step.kind == Fixed {
        amount := step.value.GetOr(0.0);
      }
      if step.kind == Percent {
        amount := (total * step.value.GetOr(0.0)) / 100.0;
      }
      var m := Milestone(step.name, amount, AddDays(base, step.dayOffset));
      assert (results + [m])[..|results|] == results;
      results := results + [m];
      remaining := remaining - amount;
    }
    assert structure[..|structure|] == structure;
  }

  /** `calculateMilestones(total, structure, baseDate)`: the full total
      upfront for an empty structure; otherwise the planned steps, then the
      first remainder step with what is left. */
  method CalculateMilestones(total: real, structure: seq<MilestoneConfig>, base: Date) returns (results: seq<Milestone>)
    requires base.Valid()
    ensures results == Milestones(total, structure, base)
    ensures |structure| == 0 || FirstRemainder(structure).Some? ==> Sum(results, MilestoneAmount) == total
  {
    if |structure| == 0 {
      return [Milestone("Full Payment", total, base)];
    }
    var remaining;
    results, remaining := PlanSteps(total, structure, base);
    var remainderStep := FirstRemainder(structure);
    if remainderStep.Some? {
      var last := Milestone(remainderStep.value.name, remaining, AddDays(base, remainderStep.value.dayOffset));
      assert (results + [last])[..|results|] == results;
      results := results + [last];
    }
  }

  /** The planned milestones add up to the amounts of the structure's steps
      (a remainder step adds nothing). */
  lemma {:induction false} PlannedSum(structure: seq<MilestoneConfig>, total: real, base: Date)
    requires base.Valid()
    ensures Sum(Planned(structure, total, base), MilestoneAmount) == Sum(structure, StepTerm(total))
    decreases |structure|
  {
    if |structure| > 0 {
      var init := structure[..|structure| - 1];
      var step := structure[|structure| - 1];
      PlannedSum(init, total, base);
      var p := Planned(init, total, base);
      if step.kind != Remainder {
        var m := Milestone(step.name, StepAmount(step, total), AddDays(base, step.dayOffset));
        assert (p + [m])[..|p|] == p;
      } else {
        assert p + [] == p;
      }
    }
  }

  /** With a remainder step the milestones always add up to the total; without
      one they add up to the fixed and percent steps and no balancing milestone
      is added. */
  lemma MilestonesSum(total: real, structure: seq<MilestoneConfig>, base: Date)
    requires base.Valid()
    ensures |structure| == 0 || FirstRemainder(structure).Some? ==> Sum(Milestones(total, structure, base), MilestoneAmount) == total
    ensures |structure| > 0 && FirstRemainder(structure).None? ==>
            Sum(Milestones(total, structure, base), MilestoneAmount) == Sum(structure, StepTerm(total))
  {
    PlannedSum(structure, total, base);
    var planned := Planned(structure, total, base);
    if |structure| > 0 && FirstRemainder(structure).Some? {
      var rem := FirstRemainder(structure).value;
      var last := Milestone(rem.name, total - Sum(planned, MilestoneAmount), AddDays(base, rem.dayOffset));
      assert (planned + [last])[..|planned|] == planned;
    }
  }

  /** Percent steps of 40 and 60 split the total exactly. */
  lemma PercentSplit(total: real, base: Date)
    requires base.Valid()
    ensures var s := [MilestoneConfig("Advance", Percent, Some(40.0), 0), MilestoneConfig("Balance", Percent, Some(60.0), 14)];
            Sum(Milestones(total, s, base), MilestoneAmount) == total
  {
    var s := [MilestoneConfig("Advance", Percent, Some(40.0), 0), MilestoneConfig("Balance", Percent, Some(60.0), 14)];
    MilestonesSum(total, s, base);
    assert s[..1] == [s[0]] && s[..1][..0] == [];
    assert Sum(s, StepTerm(total)) == total * 40.0 / 100.0 + total * 60.0 / 100.0;
  }

  /** A version applies to a month when the month is not before the month of
      its start and, if it has an end, not after the month of its end. */
  predicate Applicable(v: ContractVersion, m: YearMonth) {
    && MonthOf(v.effectiveStart).Index() <= m.Index()
    && (v.effectiveEnd.None? || m.Index() <= MonthOf(v.effectiveEnd.value).Index())
  }

  /** `versions.slice().reverse().find(...)`: the position of the last
      applicable version. */
  function SelectVersion(versions: seq<ContractVersion>, m: YearMonth): (r: Option<nat>)
    ensures r.Some? ==> r.value < |versions|
  {
    if |versions| == 0 then None
    else if Applicable(versions[|versions| - 1], m) then Some(|versions| - 1)
    else SelectVersion(versions[..|versions| - 1], m)
  }

  /** The chosen version applies to the month and no later one does; there
      is no choice exactly when no version applies. */
  lemma {:induction false} SelectVersionIsLastApplicable(versions: seq<ContractVersion>, m: YearMonth)
    ensures var r := SelectVersion(versions, m);
            && (r.Some? ==> Applicable(versions[r.value], m))
            && (r.Some? ==> forall j :: r.value < j < |versions| ==> !Applicable(versions[j], m))
            && (r.None? <==> forall j :: 0 <= j < |versions| ==> !Applicable(versions[j], m))
  {
    if |versions| > 0 && !Applicable(versions[|versions| - 1], m) {
      var init := versions[..|versions| - 1];
      SelectVersionIsLastApplicable(init, m);
      assert forall j :: 0 <= j < |init| ==> init[j] == versions[j];
    }
  }

  function StartKey(v: ContractVersion): real {
    OrderKey(v.effectiveStart)
  }

  /** Over versions in ascending start order the chosen version is a
      latest-starting applicable one. */
  lemma SelectedStartsLatest(versions: seq<ContractVersion>, m: YearMonth, j: nat)
    requires SortedBy(versions, StartKey)
    requires SelectVersion(versions, m).Some? && j < |versions| && Applicable(versions[j], m)
    ensures StartKey(versions[j]) <= StartKey(versions[SelectVersion(versions, m).value])
  {
    SelectVersionIsLastApplicable(versions, m);
  }

  /** Is there an instance of version `versionId` for the month starting on
      `monthStart`? */
  predicate HasInstance(instances: seq<MonthlyInstance>, versionId: string, monthStart: Date) {
    exists k :: 0 <= k < |instances| && instances[k].contractVersionId == versionId && instances[k].monthDate == monthStart
  }

  /** The income row of milestone `m`, the `k`-th of its instance: EXPECTED
      Retainer income labelled with the contract name and the milestone name. */
  function MilestoneRow(c: RetainerContract, instanceId: string, m: Milestone, k: int, newId: (string, int) -> string): IncomeRow {
    IncomeRow(newId(instanceId, k), m.amount, Some(m.date), None, "EXPECTED",
              c.name + " - " + m.name, "Retainer", Some(c.clientId), c.serviceId, "", None,
              false, false, None, None, None, None, Some(instanceId), Some(m.name), None)
  }

  /** The income rows of a generated instance's milestones, in order. */
  function MilestoneRows(c: RetainerContract, instanceId: string, ms: seq<Milestone>, newId: (string, int) -> string): (rows: seq<IncomeRow>)
    ensures |rows| == |ms|
  {
    if |ms| == 0 then []
    else MilestoneRows(c, instanceId, ms[..|ms| - 1], newId) + [MilestoneRow(c, instanceId, ms[|ms| - 1], |ms| - 1, newId)]
  }

  /** Row `k` is milestone `k`'s row. */
  lemma {:induction false} MilestoneRowsAt(c: RetainerContract, instanceId: string, ms: seq<Milestone>, newId: (string, int) -> string)
    ensures forall k :: 0 <= k < |ms| ==> MilestoneRows(c, instanceId, ms, newId)[k] == MilestoneRow(c, instanceId, ms[k], k, newId)
  {
    if |ms| > 0 {
      MilestoneRowsAt(c, instanceId, ms[..|ms| - 1], newId);
    }
  }

  /** What one month adds to the two tables. */
  datatype Batch = Batch(instances: seq<MonthlyInstance>, income: seq<IncomeRow>)

  /** The rows generated for month `m` of contract `c`, given the instances
      already stored: nothing when no version applies or an instance for the
      version and month exists; nothing when the instance insert fails (the
      insert failures are the pairs of version id and month index in
      `instanceFails`); otherwise the instance and, unless the milestone
      insert fails, its milestones. */
  function MonthBatch(c: RetainerContract, versions: seq<ContractVersion>, m: YearMonth,
                      existing: seq<MonthlyInstance>, instanceFails: set<(string, int)>,
                      milestoneFails: set<(string, int)>, newId: (string, int) -> string): Batch
    requires m.Valid()
  {
    match SelectVersion(versions, m)
    case None => Batch([], [])
    case Some(k) =>
      var v := versions[k];
      if HasInstance(existing, v.id, m.First()) || (v.id, m.Index()) in instanceFails then Batch([], [])
      else InstanceBatch(c, v, m, milestoneFails, newId)
  }

  /** The instance of version `v` for month `m` and, unless the milestone
      insert fails, its milestones' income rows. */
  function InstanceBatch(c: RetainerContract, v: ContractVersion, m: YearMonth,
                         milestoneFails: set<(string, int)>, newId: (string, int) -> string): Batch
    requires m.Valid()
  {
    var inst := MonthlyInstance(newId(v.id, m.Index()), v.id, m.First(), v.monthlyPrice, "generated");
    var rows := MilestoneRows(c, inst.id, Milestones(v.monthlyPrice, v.paymentStructure, m.First()), newId);
    Batch([inst], if (v.id, m.Index()) in milestoneFails then [] else rows)
  }

  /** The rows generated for the `count` months starting at month index
      `first`, each month seeing the instances of the months before it. */
  function ContractRun(c: RetainerContract, versions: seq<ContractVersion>, first: int, count: nat,
                       existing: seq<MonthlyInstance>, instanceFails: set<(string, int)>,
                       milestoneFails: set<(string, int)>, newId: (string, int) -> string): Batch
  {
    if count == 0 then Batch([], [])
    else
      var prev := ContractRun(c, versions, first, count - 1, existing, instanceFails, milestoneFails, newId);
      var b := MonthBatch(c, versions, FromIndex(first + count - 1), existing + prev.instances,
                          instanceFails, milestoneFails, newId);
      Batch(prev.instances + b.instances, prev.income + b.income)
  }

  /** The months visited for a contract: from the month of its earliest
      version through next month, inclusive. */
  function MonthCount(versions: seq<ContractVersion>, today: Date): nat
    requires |versions| > 0
  {
    var first := MonthOf(versions[0].effectiveStart).Index();
    var cutoff := MonthOf(today).Index() + 1;
    if cutoff < first then 0 else cutoff - first + 1
  }

  /** The tables hold what they held before the run followed by the run's
      first `n` months. */
  ghost predicate RunHolds(c: RetainerContract, versions: seq<ContractVersion>, first: int, n: nat,
                           instances0: seq<MonthlyInstance>, income0: seq<IncomeRow>,
                           instances: seq<MonthlyInstance>, income: seq<IncomeRow>,
                           instanceFails: set<(string, int)>, milestoneFails: set<(string, int)>, newId: (string, int) -> string)
  {
    var run := ContractRun(c, versions, first, n, instances0, instanceFails, milestoneFails, newId);
    instances == instances0 + run.instances && income == income0 + run.income
  }

  /** One more month of the run: tables that held the first `i` months and
      then received month `i`'s batch hold the first `i + 1` months. */
  lemma RunStep(c: RetainerContract, versions: seq<ContractVersion>, first: int, i: nat,
                instances0: seq<MonthlyInstance>, income0: seq<IncomeRow>,
                instances1: seq<MonthlyInstance>, income1: seq<IncomeRow>,
                instances2: seq<MonthlyInstance>, income2: seq<IncomeRow>,
                instanceFails: set<(string, int)>, milestoneFails: set<(string, int)>, newId: (string, int) -> string)
    requires RunHolds(c, versions, first, i, instances0, income0, instances1, income1, instanceFails, milestoneFails, newId)
    requires var b := MonthBatch(c, versions, FromIndex(first + i), instances1, instanceFails, milestoneFails, newId);
             instances2 == instances1 + b.instances && income2 == income1 + b.income
    ensures RunHolds(c, versions, first, i + 1, instances0, income0, instances2, income2, instanceFails, milestoneFails, newId)
  {
    var prev := ContractRun(c, versions, first, i, instances0, instanceFails, milestoneFails, newId);
    var b := MonthBatch(c, versions, FromIndex(first + i), instances1, instanceFails, milestoneFails, newId);
    AppendAssociative(instances0, prev.instances, b.instances);
    AppendAssociative(income0, prev.income, b.income);
  }

  /** The inserts of a month that needs an instance: the instance, then
      its milestones unless that insert fails. */
  method InsertInstance(store: Store, c: RetainerContract, v: ContractVersion, monthStart: YearMonth,
                        milestoneFails: set<(string, int)>, newId: (string, int) -> string)
    requires monthStart.Valid()
    modifies store
    ensures var b := InstanceBatch(c, v, monthStart, milestoneFails, newId);
            store.instances == old(store.instances) + b.instances && store.income == old(store.income) + b.income
    ensures store.expenses == old(store.expenses) && store.recurringRules == old(store.recurringRules)
  {
    var instance := MonthlyInstance(newId(v.id, monthStart.Index()), v.id, monthStart.First(), v.monthlyPrice, "generated");
    store.instances := store.instances + [instance];
    var milestones := CalculateMilestones(v.monthlyPrice, v.paymentStructure, monthStart.First());
    var incomeEntries := MilestoneRows(c, instance.id, milestones, newId);
    if |incomeEntries| > 0 && (v.id, monthStart.Index()) !in milestoneFails {
      store.income := store.income + incomeEntries;
    } else {
      assert old(store.income) + [] == old(store.income);
    }
  }

  /** One pass of the month loop: pick the version, check for an existing
      instance, insert the instance, then its milestones. */
  method MonthInserts(store: Store, c: RetainerContract, versions: seq<ContractVersion>, monthIndex: int,
                      instanceFails: set<(string, int)>, milestoneFails: set<(string, int)>,
                      newId: (string, int) -> string)
    modifies store
    ensures var b := MonthBatch(c, versions, FromIndex(monthIndex), old(store.instances), instanceFails, milestoneFails, newId);
            store.instances == old(store.instances) + b.instances && store.income == old(store.income) + b.income
    ensures store.expenses == old(store.expenses) && store.recurringRules == old(store.recurringRules)
  {
    var monthStart := FromIndex(monthIndex);
    var validVersion := SelectVersion(versions, monthStart);
    var generate := false;
    if validVersion.Some? {
      var v := versions[validVersion.value];
      if !HasInstance(store.instances, v.id, monthStart.First()) && (v.id, monthIndex) !in instanceFails {
        generate := true;
        InsertInstance(store, c, v, monthStart, milestoneFails, newId);
      }
    }
    if !generate {
      assert old(store.instances) + [] == old(store.instances) && old(store.income) + [] == old(store.income);
    }
  }

  /** The month loop's pass for month index `first + i`, carrying the loop
      invariant. */
  method GenerateMonth(store: Store, c: RetainerContract, versions: seq<ContractVersion>, monthIndex: int,
                       instanceFails: set<(string, int)>, milestoneFails: set<(string, int)>,
                       newId: (string, int) -> string,
                       ghost first: int, ghost i: nat, ghost instances0: seq<MonthlyInstance>, ghost income0: seq<IncomeRow>)
    requires monthIndex == first + i
    requires RunHolds(c, versions, first, i, instances0, income0, store.instances, store.income, instanceFails, milestoneFails, newId)
    modifies store
    ensures RunHolds(c, versions, first, i + 1, instances0, income0, store.instances, store.income, instanceFails, milestoneFails, newId)
    ensures store.expenses == old(store.expenses) && store.recurringRules == old(store.recurringRules)
  {
    ghost var before := store.instances;
    ghost var incomeBefore := store.income;
    MonthInserts(store, c, versions, monthIndex, instanceFails, milestoneFails, newId);
    RunStep(c, versions, first, i, instances0, income0, before, incomeBefore, store.instances, store.income,
            instanceFails, milestoneFails, newId);
  }

  /** The loop of `generateRetainerInstances` for one contract: months from
      the earliest version's month through next month. */
  method GenerateForContract(store: Store, c: RetainerContract, versions: seq<ContractVersion>, today: Date,
                             instanceFails: set<(string, int)>, milestoneFails: set<(string, int)>,
                             newId: (string, int) -> string)
    requires |versions| > 0 && today.Valid()
    modifies store
    ensures RunHolds(c, versions, MonthOf(versions[0].effectiveStart).Index(), MonthCount(versions, today),
                     old(store.instances), old(store.income), store.instances, store.income,
                     instanceFails, milestoneFails, newId)
    ensures store.expenses == old(store.expenses) && store.recurringRules == old(store.recurringRules)
  {
    var first := MonthOf(versions[0].effectiveStart).Index();
    var cutoff := MonthOf(today).Index() + 1;
    ghost var count := MonthCount(versions, today);
    var monthIndex := first;
    assert old(store.instances) + [] == old(store.instances) && old(store.income) + [] == old(store.income);
    while monthIndex <= cutoff
      invariant first <= monthIndex && monthIndex - first <= count
      invariant RunHolds(c, versions, first, monthIndex - first, old(store.instances), old(store.income),
                         store.instances, store.income, instanceFails, milestoneFails, newId)
      invariant store.expenses == old(store.expenses) && store.recurringRules == old(store.recurringRules)
      decreases cutoff - monthIndex
    {
      GenerateMonth(store, c, versions, monthIndex, instanceFails, milestoneFails, newId,
                    first, monthIndex - first, old(store.instances), old(store.income));
      monthIndex := monthIndex + 1;
    }
    assert monthIndex - first == count;
  }

  /** A month that already holds an instance for its chosen version generates
      nothing, and so does a month without an applicable version. */
  lemma ExistingMonthGeneratesNothing(c: RetainerContract, versions: seq<ContractVersion>, m: YearMonth,
                                      existing: seq<MonthlyInstance>, instanceFails: set<(string, int)>,
                                      milestoneFails: set<(string, int)>, newId: (string, int) -> string)
    requires m.Valid()
    requires SelectVersion(versions, m).None? || HasInstance(existing, versions[SelectVersion(versions, m).value].id, m.First())
    ensures MonthBatch(c, versions, m, existing, instanceFails, milestoneFails, newId) == Batch([], [])
  {
  }

  /** Every generated instance is for the month it was generated in and its
      applicable version, and every milestone row is EXPECTED Retainer income
      linked to its instance. */
  lemma GeneratedRowsShape(c: RetainerContract, versions: seq<ContractVersion>, m: YearMonth,
                           existing: seq<MonthlyInstance>, instanceFails: set<(string, int)>,
                           milestoneFails: set<(string, int)>, newId: (string, int) -> string)
    requires m.Valid()
    ensures var b := MonthBatch(c, versions, m, existing, instanceFails, milestoneFails, newId);
            && |b.instances| <= 1
            && (forall x :: x in b.instances ==>
                  exists k :: 0 <= k < |versions| && versions[k].id == x.contractVersionId
                           && Applicable(versions[k], m) && x.monthDate == m.First())
            && (forall r :: r in b.income ==>
                  r.status == "EXPECTED" && r.category == "Retainer" && r.retainerInstanceId.Some?
                  && |b.instances| == 1 && r.retainerInstanceId.value == b.instances[0].id)
  {
    var b := MonthBatch(c, versions, m, existing, instanceFails, milestoneFails, newId);
    if |b.income| > 0 {
      var v := versions[SelectVersion(versions, m).value];
      var ms := Milestones(v.monthlyPrice, v.paymentStructure, m.First());
      MilestoneRowsAt(c, b.instances[0].id, ms, newId);
    }
    SelectVersionIsLastApplicable(versions, m);
  }

  function Key(x: MonthlyInstance): (string, Date) {
    (x.contractVersionId, x.monthDate)
  }

  /** No two instances share a version and a month. */
  predicate DistinctKeys(s: seq<MonthlyInstance>) {
    forall i, j :: 0 <= i < j < |s| ==> Key(s[i]) != Key(s[j])
  }

  /** None of `s` repeats the version and month of an instance in `existing`. */
  predicate AllNew(existing: seq<MonthlyInstance>, s: seq<MonthlyInstance>) {
    forall k :: 0 <= k < |s| ==> !HasInstance(existing, s[k].contractVersionId, s[k].monthDate)
  }

  /** A month's batch holds at most one instance, and only one whose
      version and month are not yet stored. */
  lemma BatchIsNew(c: RetainerContract, versions: seq<ContractVersion>, m: YearMonth,
                   existing: seq<MonthlyInstance>, instanceFails: set<(string, int)>,
                   milestoneFails: set<(string, int)>, newId: (string, int) -> string)
    requires m.Valid()
    ensures var b := MonthBatch(c, versions, m, existing, instanceFails, milestoneFails, newId);
            |b.instances| <= 1 && AllNew(existing, b.instances)
  {
  }

  /** Appending instances that are new even with `prev` stored keeps the
      instances new and their keys distinct. */
  lemma AppendNew(existing: seq<MonthlyInstance>, prev: seq<MonthlyInstance>, added: seq<MonthlyInstance>)
    requires |added| <= 1
    requires AllNew(existing, prev) && DistinctKeys(prev) && AllNew(existing + prev, added)
    ensures AllNew(existing, prev + added) && DistinctKeys(prev + added)
  {
    var all := existing + prev;
    var run := prev + added;
    if |added| == 0 {
      assert run == prev;
    } else {
      var x := added[0];
      assert !HasInstance(all, x.contractVersionId, x.monthDate);
      forall k | 0 <= k < |existing| ensures Key(existing[k]) != Key(x) {
        assert all[k] == existing[k];
      }
      forall k | 0 <= k < |prev| ensures Key(prev[k]) != Key(x) {
        assert all[|existing| + k] == prev[k];
      }
      forall i, j | 0 <= i < j < |run| ensures Key(run[i]) != Key(run[j]) {
        assert run[i] == prev[i];
        if j < |prev| {
          assert run[j] == prev[j];
        } else {
          assert run[j] == x;
        }
      }
      forall k | 0 <= k < |run| ensures !HasInstance(existing, run[k].contractVersionId, run[k].monthDate) {
        if k < |prev| {
          assert run[k] == prev[k];
        } else {
          assert run[k] == x;
        }
      }
    }
  }

  /** A month already generated for its version is never generated again:
      a contract's run adds no instance whose version and month are already
      stored, and no two with the same version and month. */
  lemma {:induction false} RunAddsNoDuplicates(c: RetainerContract, versions: seq<ContractVersion>, first: int, count: nat,
                                               existing: seq<MonthlyInstance>, instanceFails: set<(string, int)>,
                                               milestoneFails: set<(string, int)>, newId: (string, int) -> string)
    ensures var run := ContractRun(c, versions, first, count, existing, instanceFails, milestoneFails, newId);
            AllNew(existing, run.instances) && DistinctKeys(run.instances)
  {
    if count > 0 {
      RunAddsNoDuplicates(c, versions, first, count - 1, existing, instanceFails, milestoneFails, newId);
      var prev := ContractRun(c, versions, first, count - 1, existing, instanceFails, milestoneFails, newId);
      var m := FromIndex(first + count - 1);
      BatchIsNew(c, versions, m, existing + prev.instances, instanceFails, milestoneFails, newId);
      var b := MonthBatch(c, versions, m, existing + prev.instances, instanceFails, milestoneFails, newId);
      AppendNew(existing, prev.instances, b.instances);
    }
  }

  /** A contract's versions in ascending start order, as the query orders them. */
  function ContractVersions(c: RetainerContract, allVersions: seq<ContractVersion>): seq<ContractVersion> {
    SortBy(VersionsOf(allVersions, c.id), StartKey)
  }

  /** What one contract adds: nothing unless it is active and has a version;
      otherwise its run from its earliest version's month through next month. */
  function ContractBatch(c: RetainerContract, allVersions: seq<ContractVersion>, today: Date,
                         existing: seq<MonthlyInstance>, instanceFails: set<(string, int)>,
                         milestoneFails: set<(string, int)>, newId: (string, int) -> string): Batch
  {
    var versions := ContractVersions(c, allVersions);
    if c.status != "active" || |versions| == 0 then Batch([], [])
    else ContractRun(c, versions, MonthOf(versions[0].effectiveStart).Index(), MonthCount(versions, today),
                     existing, instanceFails, milestoneFails, newId)
  }

  /** What a whole generation adds, contract by contract, each contract
      seeing the instances generated before it. */
  function Generation(contracts: seq<RetainerContract>, allVersions: seq<ContractVersion>, today: Date,
                      existing: seq<MonthlyInstance>, instanceFails: set<(string, int)>,
                      milestoneFails: set<(string, int)>, newId: (string, int) -> string): Batch
  {
    if |contracts| == 0 then Batch([], [])
    else
      var prev := Generation(contracts[..|contracts| - 1], allVersions, today, existing, instanceFails, milestoneFails, newId);
      var b := ContractBatch(contracts[|contracts| - 1], allVersions, today, existing + prev.instances,
                             instanceFails, milestoneFails, newId);
      Batch(prev.instances + b.instances, prev.income + b.income)
  }

  /** One more contract of the generation. */
  lemma GenerationStep(contracts: seq<RetainerContract>, i: nat, allVersions: seq<ContractVersion>, today: Date,
                       instances0: seq<MonthlyInstance>, income0: seq<IncomeRow>,
                       instances1: seq<MonthlyInstance>, income1: seq<IncomeRow>,
                       instances2: seq<MonthlyInstance>, income2: seq<IncomeRow>,
                       instanceFails: set<(string, int)>, milestoneFails: set<(string, int)>, newId: (string, int) -> string)
    requires i < |contracts|
    requires var g := Generation(contracts[..i], allVersions, today, instances0, instanceFails, milestoneFails, newId);
             instances1 == instances0 + g.instances && income1 == income0 + g.income
    requires var b := ContractBatch(contracts[i], allVersions, today, instances1, instanceFails, milestoneFails, newId);
             instances2 == instances1 + b.instances && income2 == income1 + b.income
    ensures var g := Generation(contracts[..i + 1], allVersions, today, instances0, instanceFails, milestoneFails, newId);
            instances2 == instances0 + g.instances && income2 == income0 + g.income
  {
    assert contracts[..i + 1][..i] == contracts[..i];
    var prev := Generation(contracts[..i], allVersions, today, instances0, instanceFails, milestoneFails, newId);
    var b := ContractBatch(contracts[i], allVersions, today, instances1, instanceFails, milestoneFails, newId);
    AppendAssociative(instances0, prev.instances, b.instances);
    AppendAssociative(income0, prev.income, b.income);
  }

  /** `generateRetainerInstances()`: every active contract with at least one
      version, its versions in ascending start order. */
  method GenerateRetainerInstances(store: Store, contracts: seq<RetainerContract>, allVersions: seq<ContractVersion>,
                                   today: Date, instanceFails: set<(string, int)>, milestoneFails: set<(string, int)>,
                                   newId: (string, int) -> string)
    requires today.Valid()
    modifies store
    ensures var g := Generation(contracts, allVersions, today, old(store.instances), instanceFails, milestoneFails, newId);
            store.instances == old(store.instances) + g.instances && store.income == old(store.income) + g.income
    ensures store.expenses == old(store.expenses) && store.recurringRules == old(store.recurringRules)
  {
    assert old(store.instances) + [] == old(store.instances) && old(store.income) + [] == old(store.income);
    for i := 0 to |contracts|
      invariant var g := Generation(contracts[..i], allVersions, today, old(store.instances), instanceFails, milestoneFails, newId);
                store.instances == old(store.instances) + g.instances && store.income == old(store.income) + g.income
      invariant store.expenses == old(store.expenses) && store.recurringRules == old(store.recurringRules)
    {
      var contract := contracts[i];
      ghost var before := store.instances;
      ghost var incomeBefore := store.income;
      var versions := SortBy(VersionsOf(allVersions, contract.id), StartKey);
      if contract.status == "active" && |versions| > 0 {
        GenerateForContract(store, contract, versions, today, instanceFails, milestoneFails, newId);
      } else {
        assert before + [] == before && incomeBefore + [] == incomeBefore;
      }
      GenerationStep(contracts, i, allVersions, today, old(store.instances), old(store.income), before, incomeBefore,
                     store.instances, store.income, instanceFails, milestoneFails, newId);
    }
    assert contracts[..|contracts|] == contracts;
  }

  /** The versions of one contract. */
  function VersionsOf(all: seq<ContractVersion>, contractId: string): (r: seq<ContractVersion>)
    ensures forall v :: v in r <==> v in all && v.contractId == contractId
  {
    if |all| == 0 then []
    else VersionsOf(all[..|all| - 1], contractId)
         + (if all[|all| - 1].contractId == contractId then [all[|all| - 1]] else [])
  }
}
