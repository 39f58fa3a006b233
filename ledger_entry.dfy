/** An immutable, signed ledger entry. Amounts are fixed-point decimals with
    four fractional digits, counted here as whole ten-thousandths. */
module LedgerEntryModel {

  /** An amount as stored in an entry or a transaction: strictly positive. */
  type Amount = x: int | x > 0 witness 1

  datatype EntryType = Debit | Credit

  datatype LedgerEntry = LedgerEntry(
    id: nat,
    accountId: nat,
    transactionId: nat,
    entryType: EntryType,
    amount: Amount,
    createdAt: nat)

  /** The entry's contribution to its account's balance: its magnitude is the
      stored amount and it is positive exactly for a credit. */
  function SignedAmount(e: LedgerEntry): (r: int)
    ensures (if r < 0 then -r else r) == e.amount
    ensures r > 0 <==> e.entryType == Credit
    ensures r < 0 <==> e.entryType == Debit
  {
    match e.entryType
    case Credit => e.amount as int
    case Debit => -(e.amount as int)
  }

  /** A debit and a credit of the same amount cancel out: the net effect of a
      transfer over its two accounts is zero. */
  lemma DebitCreditNetZero(d: LedgerEntry, c: LedgerEntry)
    requires d.entryType == Debit && c.entryType == Credit
    requires d.amount == c.amount
    ensures SignedAmount(d) + SignedAmount(c) == 0
  {
  }
}
