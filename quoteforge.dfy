/** The QuoteForge integration (`src/lib/integration/quoteforge-adapter.ts`):
    external invoice events translated into the ledger's income payloads. */
module QuoteForgeAdapter {
  import opened Wrappers
  import opened Text
  import opened Domain

  /** An incoming invoice event; dates stay unparsed text. */
  datatype IncomingIncomeEvent = IncomingIncomeEvent(
    externalId: string,
    amountInvoiced: real,
    amountReceived: real,
    currency: string,
    issueDate: string,
    dueDate: string,
    paymentDate: Option<string>,
    externalStatus: string,
    clientName: string,
    projectRef: string)

  /** The income payload handed to the ledger; `receivedDate` is the payment
      date text that `new Date(...)` would parse. */
  datatype LedgerlyIncomePayload = LedgerlyIncomePayload(
    sourceRefId: string,
    amountExpected: real,
    amountReceived: real,
    receivedDate: Option<string>,
    status: IncomeStatus,
    category: IncomeCategory,
    clientName: string)

  /** `mapStatus(qfStatus, amountReceived, amountExpected)`: the external
      status, upper-cased, picks the internal one; anything unknown is
      PENDING. */
  function MapStatus(qfStatus: string, amountReceived: real, amountExpected: real): (r: IncomeStatus)
    ensures r == RECEIVED <==> Upper(qfStatus) == "PAID"
    ensures r == PARTIAL <==> Upper(qfStatus) == "PARTIAL"
    ensures r == OVERDUE <==> Upper(qfStatus) == "OVERDUE"
    ensures r == PENDING <==> Upper(qfStatus) !in {"PAID", "PARTIAL", "OVERDUE"}
  {
    var status := Upper(qfStatus);
    if status == "PAID" then RECEIVED
    else if status == "PARTIAL" then PARTIAL
    else if status == "SENT" || status == "VIEWED" || status == "OVERDUE" then
      if status == "OVERDUE" then OVERDUE else PENDING
    else PENDING
  }

  /** `transformEvent(event)`. */
  function TransformEvent(event: IncomingIncomeEvent): (p: LedgerlyIncomePayload)
    ensures p.category == PROJECT_FEE
    ensures p.sourceRefId == event.externalId && p.clientName == event.clientName
    ensures p.amountExpected == event.amountInvoiced && p.amountReceived == event.amountReceived
    ensures p.receivedDate.None? <==> event.paymentDate.None? || event.paymentDate.value == ""
    ensures p.receivedDate.Some? ==> p.receivedDate == event.paymentDate
    ensures p.status == MapStatus(event.externalStatus, event.amountReceived, event.amountInvoiced)
  {
    var mapped := MapStatus(event.externalStatus, event.amountReceived, event.amountInvoiced);
    var received := if event.paymentDate.Some? && event.paymentDate.value != "" then event.paymentDate else None;
    LedgerlyIncomePayload(event.externalId, event.amountInvoiced, event.amountReceived, received, mapped,
                          PROJECT_FEE, event.clientName)
  }

  /** The mapping ignores case and the two amounts: statuses that agree
      once upper-cased map alike, e.g. "paid", "Paid" and "PAID". */
  lemma MapStatusIgnoresCaseAndAmounts(s: string, t: string, a1: real, e1: real, a2: real, e2: real)
    requires Upper(s) == Upper(t)
    ensures MapStatus(s, a1, e1) == MapStatus(t, a2, e2)
    ensures MapStatus("paid", a1, e1) == MapStatus("Paid", a2, e2) == RECEIVED
  {
    assert Upper("paid") == "PAID";
    assert Upper("Paid") == "PAID";
  }

  /** SENT and VIEWED, in any casing, are pending cash. */
  lemma SentAndViewedArePending(a: real, e: real)
    ensures MapStatus("SENT", a, e) == PENDING && MapStatus("viewed", a, e) == PENDING
    ensures MapStatus("draft", a, e) == PENDING
  {
    assert Upper("SENT") == "SENT";
    assert Upper("viewed") == "VIEWED";
    assert Upper("draft") == "DRAFT";
  }
}
