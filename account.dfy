/** The account record. Its balance is never stored: the field only carries a
    value computed from the ledger when an account is read with its balance. */
module AccountModel {

  datatype AccountType = Checking | Savings

  datatype AccountStatus = Active | Frozen

  datatype Account = Account(
    id: nat,
    userId: nat,
    accountType: AccountType,
    currency: string,
    status: AccountStatus,
    balance: int)   // transient, in ten-thousandths of the currency unit
}
