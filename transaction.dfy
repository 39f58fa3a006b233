/** The transaction record and its status life cycle. */
module TransactionModel {
  import opened Outcomes
  import opened LedgerEntryModel

  datatype TransactionType = Transfer | Deposit | Withdrawal

  datatype TransactionStatus = Pending | Completed | Failed

  datatype Transaction = Transaction(
    id: nat,
    txType: TransactionType,
    sourceAccountId: Option<nat>,
    destinationAccountId: Option<nat>,
    amount: Amount,
    currency: string,
    status: TransactionStatus,
    description: Option<string>,
    createdAt: nat)

  /** Which parties a transaction of each type names: both for a transfer,
      only the destination for a deposit, only the source for a withdrawal. */
  predicate PartiesFit(txType: TransactionType, source: Option<nat>, destination: Option<nat>)
  {
    match txType
    case Transfer => source.Some? && destination.Some?
    case Deposit => source.None? && destination.Some?
    case Withdrawal => source.Some? && destination.None?
  }

  /** A status write that the life cycle allows: rewriting the status a record
      already has, or leaving PENDING for COMPLETED or FAILED. */
  predicate StatusStep(from: TransactionStatus, to: TransactionStatus)
  {
    from == to || (from == Pending && to != Pending)
  }

  /** Once a record is COMPLETED or FAILED, no sequence of allowed status
      writes moves it again; and the steps compose. */
  lemma TerminalStatusIsFinal(from: TransactionStatus, to: TransactionStatus)
    requires from != Pending && StatusStep(from, to)
    ensures to == from
  {
  }

  lemma StatusStepTransitive(a: TransactionStatus, b: TransactionStatus, c: TransactionStatus)
    requires StatusStep(a, b) && StatusStep(b, c)
    ensures StatusStep(a, c)
    ensures c == Pending ==> a == Pending && b == Pending
  {
  }
}
