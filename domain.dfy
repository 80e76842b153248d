/** The typed domain model of the ledger (`src/lib/gemini.ts`): the status
    and category enumerations, the income and expense entries with their
    amount bounds, and the two invariant validators. */
module Domain {
  import opened Wrappers
  import opened Calendar

  datatype IncomeStatus = PENDING | RECEIVED | PARTIAL | OVERDUE
  datatype IncomeCategory = RETAINER | PROJECT_FEE | ONE_OFF
  datatype ExpenseCategory = SALARY | TOOLS | OFFICE | MARKETING | SERVER | MISC
  datatype ExpenseType = FIXED | VARIABLE | ONE_OFF
  datatype ExpenseStatus = PLANNED | PENDING_PAYMENT | PAID

  /** An income entry; `receivedDate` may be null. */
  datatype IncomeEntry = IncomeEntry(
    id: string,
    sourceRefId: Option<string>,
    amountExpected: real,
    amountReceived: real,
    receivedDate: Option<Date>,
    status: IncomeStatus,
    category: IncomeCategory,
    clientName: string)
  {
    /** The schema's bounds: a positive expected amount and a non-negative
        received amount. */
    predicate WellFormed() {
      amountExpected > 0.0 && amountReceived >= 0.0
    }
  }

  /** An expense entry; `paidDate` may be null. */
  datatype ExpenseEntry = ExpenseEntry(
    id: string,
    amount: real,
    incurredDate: Date,
    paidDate: Option<Date>,
    category: ExpenseCategory,
    kind: ExpenseType,
    status: ExpenseStatus,
    description: Option<string>,
    vendor: string,
    isTaxDeductible: bool)
  {
    /** The schema's bound: a positive amount. */
    predicate WellFormed() {
      amount > 0.0
    }
  }

  /** A validator returns normally or throws with a message. */
  datatype Validation = Valid | Violation(message: string)

  /** Conservation of money: received income has a receive date and a
      positive received amount. */
  predicate IncomeInvariant(entry: IncomeEntry) {
    entry.status == RECEIVED ==> entry.receivedDate.Some? && entry.amountReceived > 0.0
  }

  /** Reality principle: a paid expense has a payment date. */
  predicate ExpenseInvariant(entry: ExpenseEntry) {
    entry.status == PAID ==> entry.paidDate.Some?
  }

  /** `validateIncomeInvariant(entry)`. */
  function ValidateIncomeInvariant(entry: IncomeEntry): (r: Validation)
    ensures r.Valid? <==> IncomeInvariant(entry)
    ensures entry.status != RECEIVED ==> r.Valid?
  {
    if entry.status == RECEIVED && (entry.receivedDate.None? || entry.amountReceived <= 0.0) then
      Violation("INVARIANT VIOLATION: Income marked RECEIVED without valid date or amount.")
    else
      Valid
  }

  /** `validateExpenseInvariant(entry)`. */
  function ValidateExpenseInvariant(entry: ExpenseEntry): (r: Validation)
    ensures r.Valid? <==> ExpenseInvariant(entry)
    ensures entry.status != PAID ==> r.Valid?
  {
    if entry.status == PAID && entry.paidDate.None? then
      Violation("INVARIANT VIOLATION: Expense marked PAID without payment date.")
    else
      Valid
  }
}
