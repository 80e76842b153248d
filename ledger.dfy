/** The transactional engine (`src/lib/engines/ledger.ts`): income and
    expense state transitions, each checked by the domain's invariant
    validator before it is handed back.  Ids, which the engine draws from a
    uuid generator, are parameters here. */
module LedgerEngine {
  import opened Wrappers
  import opened Calendar
  import opened Domain

  /** The event a cash-moving transition asks its caller to trigger. */
  const RecalculateLiquidCash: string := "RECALCULATE_LIQUID_CASH"

  /** The outcome of a transition: the new record on success, a message on
      failure, and the side effects to trigger. */
  datatype TransactionResult<T> = TransactionResult(success: bool, data: Option<T>, error: Option<string>, events: seq<string>)

  /** What `ingestIncome` takes: an income entry without id, status and
      receive date. */
  datatype IncomePayload = IncomePayload(
    sourceRefId: Option<string>,
    amountExpected: real,
    amountReceived: real,
    category: IncomeCategory,
    clientName: string)

  /** What `postExpense` takes: an expense entry without id, status and
      payment date. */
  datatype ExpensePayload = ExpensePayload(
    amount: real,
    incurredDate: Date,
    category: ExpenseCategory,
    kind: ExpenseType,
    description: Option<string>,
    vendor: string,
    isTaxDeductible: bool)

  function Failure<T>(v: Validation): TransactionResult<T>
    requires v.Violation?
  {
    TransactionResult(false, None, Some(v.message), [])
  }

  /** `ingestIncome(payload, isVerification)`: a new PENDING entry without a
      receive date, or, for a verification, a RECEIVED one, which the
      invariant then rejects. */
  function IngestIncome(id: string, payload: IncomePayload, isVerification: bool): (r: TransactionResult<IncomeEntry>)
    ensures !isVerification ==>
            && r.success && r.events == [] && r.error.None?
            && r.data == Some(IncomeEntry(id, payload.sourceRefId, payload.amountExpected, payload.amountReceived,
                                          None, PENDING, payload.category, payload.clientName))
    ensures isVerification ==> !r.success && r.data.None? && r.error.Some? && r.events == []
  {
    var record := IncomeEntry(id, payload.sourceRefId, payload.amountExpected, payload.amountReceived,
                              None, if isVerification then RECEIVED else PENDING, payload.category, payload.clientName);
    var check := ValidateIncomeInvariant(record);
    if check.Violation? then Failure(check)
    else TransactionResult(true, Some(record), None, [])
  }

  /** The amount a verification records: the confirmed amount when one is
      supplied (even zero), otherwise the expected amount. */
  function FinalAmount(record: IncomeEntry, verifiedAmount: Option<real>): real {
    verifiedAmount.GetOr(record.amountExpected)
  }

  /** `verifyIncome(record, receivedDate, account, verifiedAmount)`: PENDING
      (or any status) to RECEIVED with the receive date and final amount. */
  function VerifyIncome(record: IncomeEntry, receivedDate: Date, verifiedAmount: Option<real>): (r: TransactionResult<IncomeEntry>)
    ensures r.success <==> FinalAmount(record, verifiedAmount) > 0.0
    ensures r.success ==>
            && r.data == Some(record.(status := RECEIVED, receivedDate := Some(receivedDate),
                                      amountReceived := FinalAmount(record, verifiedAmount)))
            && r.events == [RecalculateLiquidCash] && r.error.None?
    ensures !r.success ==> r.data.None? && r.error.Some? && r.events == []
  {
    var updated := record.(status := RECEIVED, receivedDate := Some(receivedDate),
                           amountReceived := verifiedAmount.GetOr(record.amountExpected));
    var check := ValidateIncomeInvariant(updated);
    if check.Violation? then Failure(check)
    else TransactionResult(true, Some(updated), None, [RecalculateLiquidCash])
  }

  /** `postExpense(payload)`: a new PLANNED expense without a payment date. */
  function PostExpense(id: string, payload: ExpensePayload): (r: TransactionResult<ExpenseEntry>)
    ensures r.success && r.events == [] && r.error.None?
    ensures r.data == Some(ExpenseEntry(id, payload.amount, payload.incurredDate, None, payload.category,
                                        payload.kind, PLANNED, payload.description, payload.vendor,
                                        payload.isTaxDeductible))
  {
    TransactionResult(true, Some(ExpenseEntry(id, payload.amount, payload.incurredDate, None, payload.category,
                                              payload.kind, PLANNED, payload.description, payload.vendor,
                                              payload.isTaxDeductible)), None, [])
  }

  /** `payExpense(record, paidDate)`: the expense becomes PAID on `paidDate`. */
  function PayExpense(record: ExpenseEntry, paidDate: Date): (r: TransactionResult<ExpenseEntry>)
    ensures r.success && r.events == [RecalculateLiquidCash] && r.error.None?
    ensures r.data == Some(record.(status := PAID, paidDate := Some(paidDate)))
  {
    var updated := record.(status := PAID, paidDate := Some(paidDate));
    var check := ValidateExpenseInvariant(updated);
    // The validator's failure branch is unreachable: the paid date is set.
    if check.Violation? then assert false; TransactionResult(false, None, None, [])
    else TransactionResult(true, Some(updated), None, [RecalculateLiquidCash])
  }

  /** Every record a transition hands back satisfies its invariant, and
      every well-formed input stays well-formed. */
  lemma SuccessfulTransitionsKeepInvariants(id: string, ip: IncomePayload, ep: ExpensePayload,
                                            record: IncomeEntry, expense: ExpenseEntry, day: Date,
                                            verifiedAmount: Option<real>, isVerification: bool)
    ensures var r := IngestIncome(id, ip, isVerification); r.success ==> IncomeInvariant(r.data.value)
    ensures var r := VerifyIncome(record, day, verifiedAmount);
            r.success ==> IncomeInvariant(r.data.value) && (record.WellFormed() ==> r.data.value.WellFormed())
    ensures var r := PostExpense(id, ep); ExpenseInvariant(r.data.value)
    ensures var r := PayExpense(expense, day);
            ExpenseInvariant(r.data.value) && (expense.WellFormed() ==> r.data.value.WellFormed())
  {
  }

  /** Verifying a well-formed entry without a confirmed amount always
      succeeds, and records the expected amount as received. */
  lemma VerifyWithoutAmountSucceeds(record: IncomeEntry, day: Date)
    requires record.WellFormed()
    ensures VerifyIncome(record, day, None).success
    ensures VerifyIncome(record, day, None).data.value.amountReceived == record.amountExpected
  {
  }

  /** Posting then paying an expense changes only its status, from PLANNED
      to PAID, and its payment date. */
  lemma PostThenPay(id: string, ep: ExpensePayload, day: Date)
    ensures var posted := PostExpense(id, ep).data.value;
            var paid := PayExpense(posted, day).data.value;
            && posted.status == PLANNED && paid.status == PAID && paid.paidDate == Some(day)
            && paid.(status := PLANNED, paidDate := None) == posted
  {
  }
}
