/** The rows of the ledger's tables and the record store that holds them.
    Queries of the store become filters over these sequences; inserts append
    a row and updates rewrite the rows whose `id` matches. */
module Records {
  import opened Wrappers
  import opened Calendar

  /** A row of the `income` table.  An empty `description` stands for a null
      or empty one; `clientName` is the joined `clients(name)`. */
  datatype IncomeRow = IncomeRow(
    id: string,
    amount: real,
    date: Option<Date>,
    expectedDate: Option<Date>,
    status: string,
    description: string,
    category: string,
    clientId: Option<string>,
    serviceId: Option<string>,
    paymentMethod: string,
    recurringRuleId: Option<string>,
    isRecurring: bool,
    isOnHold: bool,
    holdReason: Option<string>,
    holdNote: Option<string>,
    holdWith: Option<string>,
    holdStartDate: Option<Date>,
    retainerInstanceId: Option<string>,
    milestoneLabel: Option<string>,
    clientName: Option<string>)

  /** A row of the `expenses` table; `amount` may be null. */
  datatype ExpenseRow = ExpenseRow(
    id: string,
    amount: Option<real>,
    date: Option<Date>,
    status: string,
    description: string,
    vendor: string,
    service: string,
    category: string,
    paymentMethod: string,
    recurringRuleId: Option<string>)

  /** A row of the `monthly_instances` table (one generated retainer month). */
  datatype MonthlyInstance = MonthlyInstance(
    id: string,
    contractVersionId: string,
    monthDate: Date,
    totalDue: real,
    status: string)

  /** A row of the `recurring_rules` table (recurring income). */
  datatype RecurringRule = RecurringRule(
    id: string,
    clientId: Option<string>,
    serviceId: Option<string>,
    amount: real,
    defaultDay: int,
    startDate: Date,
    endDate: Option<Date>,
    status: string,
    lastGeneratedDate: Option<Date>)

  /** A new income row as an insert creates it: the columns the insert does
      not name take their defaults (null, false). */
  function NewIncome(id: string, amount: real, date: Date, status: string, description: string,
                     category: string, clientId: Option<string>, serviceId: Option<string>,
                     paymentMethod: string, recurringRuleId: Option<string>): IncomeRow
  {
    IncomeRow(id, amount, Some(date), None, status, description, category, clientId, serviceId,
              paymentMethod, recurringRuleId, false, false, None, None, None, None, None, None, None)
  }

  /** The record store: the tables the ledger's handlers and generators write. */
  class Store {
    var income: seq<IncomeRow>
    var expenses: seq<ExpenseRow>
    var instances: seq<MonthlyInstance>
    var recurringRules: seq<RecurringRule>

    constructor (income: seq<IncomeRow>, expenses: seq<ExpenseRow>,
                 instances: seq<MonthlyInstance>, recurringRules: seq<RecurringRule>)
      ensures this.income == income && this.expenses == expenses
      ensures this.instances == instances && this.recurringRules == recurringRules
    {
      this.income := income;
      this.expenses := expenses;
      this.instances := instances;
      this.recurringRules := recurringRules;
    }
  }

  /** The rows a `select ... .eq('id', id)` finds. */
  function IncomeWithId(rows: seq<IncomeRow>, id: string): seq<IncomeRow> {
    if |rows| == 0 then []
    else IncomeWithId(rows[..|rows| - 1], id) + (if rows[|rows| - 1].id == id then [rows[|rows| - 1]] else [])
  }
}
