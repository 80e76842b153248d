/** The dashboard's schedule (`src/components/dashboard/financial-schedule.tsx`):
    the next fifty open bills and receivables, how each is labelled, and the
    check-off action.  Today's date, the confirmation dialog's answer,
    generated ids and the failure of each store call are parameters. */
module Schedule {
  import opened Wrappers
  import opened Calendar
  import opened Records
  import opened Text
  import opened Sorting
  import opened Queries
  import Receivables

  /** The schedule shows at most this many rows of each kind. */
  const ScheduleLimit: nat := 50

  function ExpenseDate(e: ExpenseRow): Option<Date> {
    e.date
  }

  function IncomeDate(r: IncomeRow): Option<Date> {
    r.date
  }

  function OpenBill(): ExpenseRow -> bool {
    (e: ExpenseRow) => e.status != "PAID" && e.status != "ARCHIVED"
  }

  function OpenReceivable(): IncomeRow -> bool {
    (r: IncomeRow) => r.status != "RECEIVED" && r.status != "ARCHIVED"
  }

  /** One line of the schedule. */
  datatype Item = Item(id: string, party: string, detail: string, amount: real, due: Option<Date>,
                       status: string, receivable: bool)

  /** `a || b` on strings. */
  function Or(a: string, b: string): string {
    if a != "" then a else b
  }

  /** A bill's line: vendor, else description, else "Unknown Vendor"; the
      service, else the category; a null amount reads as 0; an empty
      status shows as SCHEDULED. */
  function PayableItem(e: ExpenseRow): (it: Item)
    ensures it.party != "" && !it.receivable && it.id == e.id
  {
    Item(e.id, Or(e.vendor, Or(e.description, "Unknown Vendor")), Or(e.service, e.category),
         e.amount.GetOr(0.0), e.date, Or(e.status, "SCHEDULED"), false)
  }

  /** The client and project a receivable's line shows. */
  datatype Label = Label(client: string, project: string)

  /** A receivable's client and project.  With a joined client name the
      description (or "Project") is the project; without one, a
      description holding ':' is read as "client: project"; otherwise the
      client is "Unknown".  Empty results fall back to "Client" and
      "Project". */
  function ReceivableLabel(clientName: Option<string>, description: string): (names: Label)
    ensures names.client != "" && names.project != ""
  {
    var joined := if clientName.Some? then clientName.value else "";
    if joined == "" && description != "" && Contains(description, ':') then
      Label(Or(Trim(FieldZero(description, ':')), "Client"), Or(Trim(FieldOne(description, ':')), "Project"))
    else if joined != "" then
      Label(joined, Or(description, "Project"))
    else
      Label(Or("Unknown", "Client"), Or(description, "Project"))
  }

  function ReceivableItem(r: IncomeRow): (it: Item)
    ensures it.party != "" && it.detail != "" && it.receivable && it.id == r.id
  {
    var names := ReceivableLabel(r.clientName, r.description);
    Item(r.id, names.client, names.project, r.amount, r.date, Or(r.status, "EXPECTED"), true)
  }

  function Map<T, U>(s: seq<T>, f: T -> U): (r: seq<U>)
    ensures |r| == |s| && forall k :: 0 <= k < |s| ==> r[k] == f(s[k])
  {
    seq(|s|, k requires 0 <= k < |s| => f(s[k]))
  }

  /** The bills tab: open expenses, earliest first, at most fifty. */
  function Payables(expenses: seq<ExpenseRow>): seq<Item> {
    Map(Take(Ascending(Filter(expenses, OpenBill()), ExpenseDate), ScheduleLimit), PayableItem)
  }

  /** The receivables tab: open income, earliest first, at most fifty. */
  function ReceivablesTab(income: seq<IncomeRow>): seq<Item> {
    Map(Take(Ascending(Filter(income, OpenReceivable()), IncomeDate), ScheduleLimit), ReceivableItem)
  }

  /** A line whose status is PAID or RECEIVED is shown ticked and its
      button disabled. */
  predicate Completed(it: Item) {
    it.status == "PAID" || it.status == "RECEIVED"
  }

  /** The rows a tab shows are rows of its query. */
  lemma {:induction false} ShownRowsPass<T(!new)>(rows: seq<T>, open: T -> bool, date: T -> Option<Date>)
    ensures forall k :: 0 <= k < |Take(Ascending(Filter(rows, open), date), ScheduleLimit)| ==>
              open(Take(Ascending(Filter(rows, open), date), ScheduleLimit)[k])
    ensures ValidDates(rows, date) ==> Chronological(Take(Ascending(Filter(rows, open), date), ScheduleLimit), date)
  {
    var sorted := Ascending(Filter(rows, open), date);
    forall k | 0 <= k < |Take(sorted, ScheduleLimit)|
      ensures open(Take(sorted, ScheduleLimit)[k])
    {
      var x := sorted[k];
      assert x in multiset(sorted);
      FilterMembers(rows, open, x);
    }
    if ValidDates(rows, date) {
      FilterKeepsValidDates(rows, open, date);
      AscendingIsChronological(Filter(rows, open), date);
    }
  }

  /** The status a bill's line shows. */
  predicate OpenBillLine(it: Item) {
    it.status != "PAID" && it.status != "ARCHIVED" && (Completed(it) ==> it.status == "RECEIVED")
  }

  /** The status a receivable's line shows. */
  predicate OpenReceivableLine(it: Item) {
    it.status != "RECEIVED" && it.status != "ARCHIVED" && (Completed(it) ==> it.status == "PAID")
  }

  /** The bills tab shows at most fifty rows, earliest first, none of them
      PAID or ARCHIVED; a bill is shown ticked only if its status is the
      income status RECEIVED. */
  lemma PayablesShowOpenBills(expenses: seq<ExpenseRow>)
    ensures |Payables(expenses)| <= ScheduleLimit
    ensures forall k :: 0 <= k < |Payables(expenses)| ==> OpenBillLine(Payables(expenses)[k])
    ensures ValidDates(expenses, ExpenseDate) ==>
            Chronological(Take(Ascending(Filter(expenses, OpenBill()), ExpenseDate), ScheduleLimit), ExpenseDate)
  {
    ShownRowsPass(expenses, OpenBill(), ExpenseDate);
  }

  /** The receivables tab shows at most fifty rows, earliest first, none of
      them RECEIVED or ARCHIVED; a receivable is shown ticked only if its
      status is the expense status PAID. */
  lemma ReceivablesShowOpenIncome(income: seq<IncomeRow>)
    ensures |ReceivablesTab(income)| <= ScheduleLimit
    ensures forall k :: 0 <= k < |ReceivablesTab(income)| ==> OpenReceivableLine(ReceivablesTab(income)[k])
    ensures ValidDates(income, IncomeDate) ==>
            Chronological(Take(Ascending(Filter(income, OpenReceivable()), IncomeDate), ScheduleLimit), IncomeDate)
  {
    ShownRowsPass(income, OpenReceivable(), IncomeDate);
  }

  /** A description written "client: project" names the client and the
      project when no client is linked. */
  lemma ColonDescriptionSplits(a: string, b: string)
    requires !Contains(a, ':') && !Contains(b, ':') && Trim(a) != "" && Trim(b) != ""
    ensures ReceivableLabel(None, a + ":" + b) == Label(Trim(a), Trim(b))
  {
    FieldsOfJoin(a, b, [], ':');
    assert a + [':'] + b + [] == a + ":" + b;
  }

  /** A linked client's name always wins, and the description is then the
      project whatever it holds. */
  lemma JoinedClientWins(name: string, description: string)
    requires name != ""
    ensures ReceivableLabel(Some(name), description) == Label(name, if description == "" then "Project" else description)
  {
  }

  /** `update(patch).eq('id', id)` on the expenses table. */
  function MarkPaid(expenses: seq<ExpenseRow>, id: string, today: Date): (r: seq<ExpenseRow>)
    ensures |r| == |expenses|
  {
    seq(|expenses|, k requires 0 <= k < |expenses| =>
      if expenses[k].id == id then expenses[k].(status := "PAID", date := Some(today)) else expenses[k])
  }

  /** `handleCheck` on a receivable: after confirmation and a successful
      `.single()`, a row of a retainer instance is settled in place
      (RECEIVED, dated today); any other row goes through the same
      insert-and-archive conversion as the receivables page. */
  function CheckReceivableEffect(income: seq<IncomeRow>, id: string, confirmed: bool, today: Date, newId: string,
                                 insertFails: bool, archiveFails: bool): seq<IncomeRow>
  {
    var found := IncomeWithId(income, id);
    if confirmed && |found| == 1 && found[0].retainerInstanceId.Some? then
      Receivables.UpdateById(income, id, (r: IncomeRow) => r.(status := "RECEIVED", date := Some(today)))
    else
      Receivables.MarkReceivedEffect(income, id, confirmed, today, newId, insertFails, archiveFails)
  }

  method CheckReceivable(store: Store, id: string, confirmed: bool, today: Date, newId: string,
                         insertFails: bool, archiveFails: bool)
    modifies store
    ensures store.income == CheckReceivableEffect(old(store.income), id, confirmed, today, newId, insertFails, archiveFails)
    ensures store.expenses == old(store.expenses) && store.instances == old(store.instances)
    ensures store.recurringRules == old(store.recurringRules)
  {
    if !confirmed {
      return;
    }
    var found := IncomeWithId(store.income, id);
    if |found| != 1 {
      return;
    }
    var original := found[0];
    if original.retainerInstanceId.Some? {
      store.income := Receivables.UpdateById(store.income, id, (r: IncomeRow) => r.(status := "RECEIVED", date := Some(today)));
      return;
    }
    if insertFails {
      return;
    }
    store.income := store.income + [Receivables.ReceivedCopy(original, newId, today, original.recurringRuleId)];
    if archiveFails {
      return;
    }
    store.income := Receivables.UpdateById(store.income, id,
                                           Receivables.ArchiveAsConverted(Receivables.ConvertedDescription(original.description)));
  }

  /** `handleCheck` on a bill: every expense with the id is PAID today. */
  method CheckPayable(store: Store, id: string, today: Date)
    modifies store
    ensures store.expenses == MarkPaid(old(store.expenses), id, today)
    ensures store.income == old(store.income) && store.instances == old(store.instances)
    ensures store.recurringRules == old(store.recurringRules)
  {
    store.expenses := MarkPaid(store.expenses, id, today);
  }

  /** A retainer milestone is settled in place: no row is added, the row
      keeps its id, amount and instance link and becomes RECEIVED today,
      and every other row is unchanged. */
  lemma RetainerRowSettledInPlace(income: seq<IncomeRow>, id: string, today: Date, newId: string,
                                  insertFails: bool, archiveFails: bool, k: int)
    requires 0 <= k < |income| && income[k].id == id && |IncomeWithId(income, id)| == 1
    requires income[k].retainerInstanceId.Some?
    ensures var r := CheckReceivableEffect(income, id, true, today, newId, insertFails, archiveFails);
            r == income[k := income[k].(status := "RECEIVED", date := Some(today))]
  {
    Receivables.FoundInTable(income, id, IncomeWithId(income, id)[0]);
    var i :| 0 <= i < |income| && income[i] == IncomeWithId(income, id)[0];
    Receivables.SingleMatch(income, id, i, k);
    Receivables.UpdateSingle(income, id, (r: IncomeRow) => r.(status := "RECEIVED", date := Some(today)), k);
  }

  /** Any other receivable is converted exactly as on the receivables page. */
  lemma OtherRowsConvertAsReceivables(income: seq<IncomeRow>, id: string, today: Date, newId: string,
                                      insertFails: bool, archiveFails: bool, k: int)
    requires 0 <= k < |income| && income[k].id == id && |IncomeWithId(income, id)| == 1
    requires income[k].retainerInstanceId.None?
    ensures CheckReceivableEffect(income, id, true, today, newId, insertFails, archiveFails)
            == Receivables.MarkReceivedEffect(income, id, true, today, newId, insertFails, archiveFails)
  {
    Receivables.FoundInTable(income, id, IncomeWithId(income, id)[0]);
    var i :| 0 <= i < |income| && income[i] == IncomeWithId(income, id)[0];
    Receivables.SingleMatch(income, id, i, k);
  }

  /** Paying a bill touches only the rows with its id, and only their
      status and date. */
  lemma MarkPaidOnlyTouchesBill(expenses: seq<ExpenseRow>, id: string, today: Date)
    ensures forall k :: 0 <= k < |expenses| ==>
              MarkPaid(expenses, id, today)[k] ==
                (if expenses[k].id == id then expenses[k].(status := "PAID", date := Some(today)) else expenses[k])
    ensures forall k :: 0 <= k < |expenses| && expenses[k].id == id ==>
              MarkPaid(expenses, id, today)[k].amount == expenses[k].amount && !OpenBill()(MarkPaid(expenses, id, today)[k])
  {
  }
}
