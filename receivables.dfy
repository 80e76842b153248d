/** The receivables page (`src/app/receivables/page.tsx`): the overdue and
    on-hold queues and the actions on them.  Marking a row received never
    edits its amount or date: it inserts a new RECEIVED row dated today and
    archives the original, so the ledger keeps both the promise and the
    payment.  Today's date, the confirmation dialog's answer, generated ids
    and the failure of each store call are parameters. */
module Receivables {
  import opened Wrappers
  import opened Calendar
  import opened Sums
  import opened Records
  import opened Queries
  import Dashboard

  function RowDate(r: IncomeRow): Option<Date> {
    r.date
  }

  function HoldStart(r: IncomeRow): Option<Date> {
    r.holdStartDate
  }

  /** `today - GRACE_PERIOD_DAYS`. */
  function GraceLimit(today: Date): Date
    requires today.Valid()
  {
    AddDays(today, -Dashboard.GracePeriodDays)
  }

  /** The pending query: neither RECEIVED nor ARCHIVED, and not on hold. */
  predicate Unsettled(r: IncomeRow) {
    r.status != "RECEIVED" && r.status != "ARCHIVED" && !r.isOnHold
  }

  /** `new Date(expected_date || date) < graceLimit`.  The target day is read
      as its midnight and the limit keeps the current time of day, so the
      limit's own day is overdue; a row with neither date reads as 1970 and
      is overdue too. */
  predicate OverdueOn(r: IncomeRow, today: Date)
    requires today.Valid()
  {
    Unsettled(r) && (Dashboard.EffectiveDate(r).None? || LessEq(Dashboard.EffectiveDate(r).value, GraceLimit(today)))
  }

  function OverdueTest(today: Date): IncomeRow -> bool
    requires today.Valid()
  {
    (r: IncomeRow) => OverdueOn(r, today)
  }

  function OnHoldTest(): IncomeRow -> bool {
    (r: IncomeRow) => r.isOnHold
  }

  /** The overdue queue, by original date.  The query orders the pending
      rows and the page filters them; since both keep every row of a date
      together, ordering the filtered rows gives the same queue up to the
      order among rows of one date, which the query leaves open. */
  function OverdueList(income: seq<IncomeRow>, today: Date): seq<IncomeRow>
    requires today.Valid()
  {
    Ascending(Filter(income, OverdueTest(today)), RowDate)
  }

  /** The on-hold queue, latest hold first. */
  function OnHoldList(income: seq<IncomeRow>): seq<IncomeRow> {
    Descending(Filter(income, OnHoldTest()), HoldStart)
  }

  /** The overdue queue holds exactly the overdue rows, oldest first, and
      never a row that is on hold. */
  lemma OverdueListIsQueue(income: seq<IncomeRow>, today: Date, x: IncomeRow)
    requires today.Valid()
    ensures x in OverdueList(income, today) <==> x in income && OverdueOn(x, today)
    ensures x in OverdueList(income, today) ==> !x.isOnHold && x.status != "RECEIVED" && x.status != "ARCHIVED"
    ensures ValidDates(income, RowDate) ==> Chronological(OverdueList(income, today), RowDate)
  {
    var picked := Filter(income, OverdueTest(today));
    FilterMembers(income, OverdueTest(today), x);
    assert x in OverdueList(income, today) <==> x in multiset(picked);
    if ValidDates(income, RowDate) {
      FilterKeepsValidDates(income, OverdueTest(today), RowDate);
      AscendingIsChronological(picked, RowDate);
    }
  }

  /** The on-hold queue holds exactly the rows on hold, latest hold first. */
  lemma OnHoldListIsQueue(income: seq<IncomeRow>, x: IncomeRow)
    ensures x in OnHoldList(income) <==> x in income && x.isOnHold
    ensures ValidDates(income, HoldStart) ==> ReverseChronological(OnHoldList(income), HoldStart)
  {
    var picked := Filter(income, OnHoldTest());
    FilterMembers(income, OnHoldTest(), x);
    assert x in OnHoldList(income) <==> x in multiset(picked);
    if ValidDates(income, HoldStart) {
      FilterKeepsValidDates(income, OnHoldTest(), HoldStart);
      DescendingIsReverseChronological(picked, HoldStart);
    }
  }

  /** The page counts the grace limit's own day as overdue while the
      dashboard's sweep, comparing strictly, does not mark it: a row due
      exactly seven days ago is in the queue but still not OVERDUE. */
  lemma QueueAndSweepDisagreeOnLastDay(r: IncomeRow, today: Date)
    requires today.Valid() && r.status == "PENDING" && !r.isOnHold
    requires r.expectedDate.None? && r.date == Some(GraceLimit(today))
    ensures OverdueOn(r, today)
    ensures !Dashboard.PastDue(r, Dashboard.SweepThreshold(today))
  {
  }

  /** `update(patch).eq('id', id)`: the patch applied to every row with
      the id. */
  function UpdateById(rows: seq<IncomeRow>, id: string, patch: IncomeRow -> IncomeRow): (r: seq<IncomeRow>)
    ensures |r| == |rows|
    ensures forall k :: 0 <= k < |rows| && rows[k].id != id ==> r[k] == rows[k]
    ensures forall k :: 0 <= k < |rows| && rows[k].id == id ==> r[k] == patch(rows[k])
  {
    seq(|rows|, k requires 0 <= k < |rows| => if rows[k].id == id then patch(rows[k]) else rows[k])
  }

  /** A row found by `.single()` is a row of the table with that id. */
  lemma {:induction false} FoundInTable(rows: seq<IncomeRow>, id: string, x: IncomeRow)
    ensures x in IncomeWithId(rows, id) <==> x in rows && x.id == id
    decreases |rows|
  {
    if |rows| > 0 {
      FoundInTable(rows[..|rows| - 1], id, x);
      assert rows == rows[..|rows| - 1] + [rows[|rows| - 1]];
    }
  }

  /** When `.single()` succeeds, exactly one row carries the id. */
  lemma {:induction false} SingleMatch(rows: seq<IncomeRow>, id: string, i: int, j: int)
    requires |IncomeWithId(rows, id)| == 1
    requires 0 <= i < |rows| && 0 <= j < |rows| && rows[i].id == id && rows[j].id == id
    ensures i == j
    decreases |rows|
  {
    var n := |rows| - 1;
    var init := rows[..n];
    if rows[n].id == id {
      if i < n {
        FoundInTable(init, id, init[i]);
      }
      if j < n {
        FoundInTable(init, id, init[j]);
      }
    } else {
      assert rows[i] == init[i] && rows[j] == init[j];
      SingleMatch(init, id, i, j);
    }
  }

  /** The update of the one row `.single()` found is a point update. */
  lemma UpdateSingle(rows: seq<IncomeRow>, id: string, patch: IncomeRow -> IncomeRow, k: int)
    requires |IncomeWithId(rows, id)| == 1 && 0 <= k < |rows| && rows[k].id == id
    ensures UpdateById(rows, id, patch) == rows[k := patch(rows[k])]
  {
    forall j | 0 <= j < |rows| && rows[j].id == id
      ensures j == k
    {
      SingleMatch(rows, id, j, k);
    }
  }

  /** The update does not reach a row appended with another id. */
  lemma UpdateSkipsAppended(rows: seq<IncomeRow>, id: string, patch: IncomeRow -> IncomeRow, x: IncomeRow)
    requires x.id != id
    ensures UpdateById(rows + [x], id, patch) == UpdateById(rows, id, patch) + [x]
  {
  }

  /** The description an archived original takes. */
  function ConvertedDescription(description: string): (d: string)
    ensures d != "" && |d| >= |description|
    ensures description != "" ==> d[..|description|] == description
  {
    if description == "" then "(Converted)" else description + " (Converted)"
  }

  /** The patch that archives a converted original. */
  function ArchiveAsConverted(description: string): IncomeRow -> IncomeRow {
    (r: IncomeRow) => r.(status := "ARCHIVED", description := description)
  }

  /** The realised-cash row: the original's amount, text and links, dated
      today, RECEIVED and not recurring. */
  function ReceivedCopy(original: IncomeRow, newId: string, today: Date, ruleId: Option<string>): IncomeRow {
    NewIncome(newId, original.amount, today, "RECEIVED", original.description, original.category,
              original.clientId, original.serviceId, original.paymentMethod, ruleId)
  }

  /** `handleMarkReceived(id)`: nothing happens unless the user confirms,
      `.single()` finds the row and the insert succeeds; then the copy is
      in the table, and unless the archive fails the original is ARCHIVED
      with a converted description. */
  function MarkReceivedEffect(income: seq<IncomeRow>, id: string, confirmed: bool, today: Date, newId: string,
                              insertFails: bool, archiveFails: bool): seq<IncomeRow>
  {
    var found := IncomeWithId(income, id);
    if !confirmed || |found| != 1 || insertFails then income
    else
      var original := found[0];
      var withCopy := income + [ReceivedCopy(original, newId, today, original.recurringRuleId)];
      if archiveFails then withCopy
      else UpdateById(withCopy, id, ArchiveAsConverted(ConvertedDescription(original.description)))
  }

  method MarkReceived(store: Store, id: string, confirmed: bool, today: Date, newId: string,
                      insertFails: bool, archiveFails: bool)
    modifies store
    ensures store.income == MarkReceivedEffect(old(store.income), id, confirmed, today, newId, insertFails, archiveFails)
    ensures store.expenses == old(store.expenses) && store.instances == old(store.instances)
    ensures store.recurringRules == old(store.recurringRules)
  {
    if !confirmed {
      return;
    }
    var found := IncomeWithId(store.income, id);
    if |found| != 1 {
      return;
    }
    var original := found[0];
    if insertFails {
      return;
    }
    store.income := store.income + [ReceivedCopy(original, newId, today, original.recurringRuleId)];
    if archiveFails {
      return;
    }
    store.income := UpdateById(store.income, id, ArchiveAsConverted(ConvertedDescription(original.description)));
  }

  /** A completed conversion with a fresh id replaces the original by its
      archived form and appends the RECEIVED copy; the received cash grows
      by the original's amount, less what the original already counted. */
  lemma MarkReceivedMovesCash(income: seq<IncomeRow>, id: string, today: Date, newId: string, k: int)
    requires 0 <= k < |income| && income[k].id == id && |IncomeWithId(income, id)| == 1 && newId != id
    ensures var original := income[k];
            var archived := original.(status := "ARCHIVED", description := ConvertedDescription(original.description));
            MarkReceivedEffect(income, id, true, today, newId, false, false)
            == income[k := archived] + [ReceivedCopy(original, newId, today, original.recurringRuleId)]
    ensures Sum(MarkReceivedEffect(income, id, true, today, newId, false, false), Dashboard.ReceivedAmount)
            == Sum(income, Dashboard.ReceivedAmount) + income[k].amount - Dashboard.ReceivedAmount(income[k])
  {
    var original := income[k];
    FoundInTable(income, id, IncomeWithId(income, id)[0]);
    var i :| 0 <= i < |income| && income[i] == IncomeWithId(income, id)[0];
    SingleMatch(income, id, i, k);
    var copy := ReceivedCopy(original, newId, today, original.recurringRuleId);
    var patch := ArchiveAsConverted(ConvertedDescription(original.description));
    UpdateSkipsAppended(income, id, patch, copy);
    UpdateSingle(income, id, patch, k);
    SumAppend(income[k := patch(original)], [copy], Dashboard.ReceivedAmount);
    SumUpdate(income, k, patch(original), Dashboard.ReceivedAmount);
    assert Sum([copy], Dashboard.ReceivedAmount) == Sum([], Dashboard.ReceivedAmount) + Dashboard.ReceivedAmount(copy);
  }

  /** When the archive fails after the insert, the original stays as it
      was beside its RECEIVED copy, so the payment is in the ledger twice
      over: once realised and once still open. */
  lemma ArchiveFailureLeavesBoth(income: seq<IncomeRow>, id: string, today: Date, newId: string, k: int)
    requires 0 <= k < |income| && income[k].id == id && |IncomeWithId(income, id)| == 1
    ensures var r := MarkReceivedEffect(income, id, true, today, newId, false, true);
            r[..|income|] == income && r[|income|] == ReceivedCopy(income[k], newId, today, income[k].recurringRuleId)
  {
    FoundInTable(income, id, IncomeWithId(income, id)[0]);
    var i :| 0 <= i < |income| && income[i] == IncomeWithId(income, id)[0];
    SingleMatch(income, id, i, k);
  }

  /** `handleSnooze`: with a date picked, every row with the id gets it as
      its expected date; without one nothing happens. */
  function SnoozeEffect(income: seq<IncomeRow>, id: string, date: Option<Date>): seq<IncomeRow> {
    if date.None? then income
    else UpdateById(income, id, (r: IncomeRow) => r.(expectedDate := date))
  }

  method Snooze(store: Store, id: string, date: Option<Date>)
    modifies store
    ensures store.income == SnoozeEffect(old(store.income), id, date)
    ensures store.expenses == old(store.expenses) && store.instances == old(store.instances)
    ensures store.recurringRules == old(store.recurringRules)
  {
    if date.None? {
      return;
    }
    store.income := UpdateById(store.income, id, (r: IncomeRow) => r.(expectedDate := date));
  }

  /** Snoozing past the grace limit takes the row out of the overdue queue
      and out of reach of the dashboard's sweep, and changes nothing else. */
  lemma SnoozeDefers(income: seq<IncomeRow>, id: string, d: Date, today: Date, k: int)
    requires today.Valid() && 0 <= k < |income|
    requires Less(GraceLimit(today), d)
    ensures var r := SnoozeEffect(income, id, Some(d))[k];
            if income[k].id == id then
              r == income[k].(expectedDate := Some(d)) && !OverdueOn(r, today)
              && !Dashboard.PastDue(r, Dashboard.SweepThreshold(today))
            else r == income[k]
  {
  }

  /** `handleHold`: every row with the id goes on hold with the form's
      reason, note and party, from today. */
  function HoldEffect(income: seq<IncomeRow>, id: string, reason: string, note: string, with: string, today: Date): seq<IncomeRow> {
    UpdateById(income, id, (r: IncomeRow) => r.(isOnHold := true, holdReason := Some(reason), holdNote := Some(note),
                                                 holdWith := Some(with), holdStartDate := Some(today)))
  }

  method Hold(store: Store, id: string, reason: string, note: string, with: string, today: Date)
    modifies store
    ensures store.income == HoldEffect(old(store.income), id, reason, note, with, today)
    ensures store.expenses == old(store.expenses) && store.instances == old(store.instances)
    ensures store.recurringRules == old(store.recurringRules)
  {
    store.income := HoldEffect(store.income, id, reason, note, with, today);
  }

  /** A held row moves from the overdue queue to the on-hold queue; its
      status, amount and dates are kept. */
  lemma HoldMovesToHoldQueue(income: seq<IncomeRow>, id: string, reason: string, note: string, with: string,
                             today: Date, k: int)
    requires today.Valid() && 0 <= k < |income| && income[k].id == id
    ensures var held := HoldEffect(income, id, reason, note, with, today);
            && held[k] in OnHoldList(held) && held[k] !in OverdueList(held, today)
            && held[k].status == income[k].status && held[k].amount == income[k].amount
            && held[k].date == income[k].date && held[k].expectedDate == income[k].expectedDate
  {
    var held := HoldEffect(income, id, reason, note, with, today);
    OnHoldListIsQueue(held, held[k]);
    OverdueListIsQueue(held, today, held[k]);
  }

  /** The two ways of resolving a hold. */
  datatype Resolution = Received | NewDate(date: Option<Date>)

  /** The hold fields cleared. */
  function Released(r: IncomeRow): IncomeRow {
    r.(isOnHold := false, holdReason := None, holdNote := None, holdStartDate := None, holdWith := None)
  }

  /** `handleResolve` for the held `item`: 'received' inserts a RECEIVED
      copy (without the recurring link) and, if that succeeds, archives
      every row with the item's id and releases its hold, keeping its
      description; 'new_date' with a date releases the hold and sets the
      expected date; 'new_date' without one does nothing. */
  function ResolveEffect(income: seq<IncomeRow>, item: IncomeRow, action: Resolution, today: Date, newId: string,
                         insertFails: bool, archiveFails: bool): seq<IncomeRow>
  {
    match action
    case Received =>
      if insertFails then income
      else
        var withCopy := income + [ReceivedCopy(item, newId, today, None)];
        if archiveFails then withCopy
        else UpdateById(withCopy, item.id, (r: IncomeRow) => Released(r).(status := "ARCHIVED"))
    case NewDate(date) =>
      if date.None? then income
      else UpdateById(income, item.id, (r: IncomeRow) => Released(r).(expectedDate := date))
  }

  method Resolve(store: Store, item: IncomeRow, action: Resolution, today: Date, newId: string,
                 insertFails: bool, archiveFails: bool)
    modifies store
    ensures store.income == ResolveEffect(old(store.income), item, action, today, newId, insertFails, archiveFails)
    ensures store.expenses == old(store.expenses) && store.instances == old(store.instances)
    ensures store.recurringRules == old(store.recurringRules)
  {
    match action
    case Received =>
      if insertFails {
        return;
      }
      store.income := store.income + [ReceivedCopy(item, newId, today, None)];
      if archiveFails {
        return;
      }
      store.income := UpdateById(store.income, item.id, (r: IncomeRow) => Released(r).(status := "ARCHIVED"));
    case NewDate(date) =>
      if date.None? {
        return;
      }
      store.income := UpdateById(store.income, item.id, (r: IncomeRow) => Released(r).(expectedDate := date));
  }

  /** Resolving a held row leaves the on-hold queue either way: received,
      it is archived beside a RECEIVED copy of its amount that carries no
      recurring link; rescheduled, it keeps its status and is overdue
      again exactly when the new date is past the grace limit. */
  lemma ResolveLeavesHold(income: seq<IncomeRow>, item: IncomeRow, action: Resolution, today: Date, newId: string, k: int)
    requires today.Valid() && 0 <= k < |income| && income[k].id == item.id && newId != item.id
    requires action.Received? || action.date.Some?
    ensures var r := ResolveEffect(income, item, action, today, newId, false, false);
            && !r[k].isOnHold && r[k].holdReason.None? && r[k].holdStartDate.None?
            && r[k] !in OnHoldList([r[k]])
            && (action.Received? ==>
                  r[k].status == "ARCHIVED" && r[k].description == income[k].description
                  && |r| == |income| + 1 && r[|income|].status == "RECEIVED"
                  && r[|income|].amount == item.amount && r[|income|].recurringRuleId.None?)
            && (action.NewDate? ==>
                  r[k].status == income[k].status && r[k].expectedDate == action.date
                  && (OverdueOn(r[k], today) <==>
                      income[k].status != "RECEIVED" && income[k].status != "ARCHIVED"
                      && LessEq(action.date.value, GraceLimit(today))))
  {
    var r := ResolveEffect(income, item, action, today, newId, false, false);
    OnHoldListIsQueue([r[k]], r[k]);
  }
}
