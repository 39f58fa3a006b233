/** Failure-aware results: the exceptions the services throw become values. */
module Outcomes {

  datatype Option<+T> = None | Some(value: T)

  /** The business failures of the ledger core: a missing account
      (NoSuchElementException), differing currencies in a transfer
      (IllegalArgumentException) and an overdraft (InsufficientBalanceException). */
  datatype Error = NotFound | CurrencyMismatch | InsufficientFunds

  datatype Result<+T> = Ok(value: T) | Err(error: Error)
}
