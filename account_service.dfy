/** Opening accounts and reading an account with its derived balance. */
module AccountServices {
  import opened Outcomes
  import opened AccountModel
  import opened LedgerEntryRepository
  import opened Stores

  class AccountService {
    const store: Store

    constructor (store: Store)
      ensures this.store == store
    {
      this.store := store;
    }

    /** Opens an ACTIVE account with the requested owner, type and currency
        under a fresh id, leaving every other record as it was. */
    method CreateAccount(userId: nat, accountType: AccountType, currency: string) returns (account: Account)
      requires store.Consistent()
      requires userId > 0
      modifies store
      ensures store.Consistent()
      ensures account.id !in old(store.accounts)
      ensures account == Account(account.id, userId, accountType, currency, Active, 0)
      ensures store.accounts == old(store.accounts)[account.id := account]
      ensures store.transactions == old(store.transactions) && store.entries == old(store.entries)
      ensures store.nextAccountId == old(store.nextAccountId) + 1
      ensures store.nextTransactionId == old(store.nextTransactionId) && store.clock == old(store.clock)
      ensures History(store.entries, account.id) == [] && CalculateBalance(store.entries, account.id) == 0
    {
      // A new Account starts ACTIVE with a zero transient balance.
      account := Account(store.nextAccountId, userId, accountType, currency, Active, 0);
      OpenAccountKeepsWellFormed(store.accounts, store.transactions, store.entries,
                                 store.nextAccountId, store.nextTransactionId, store.clock, account);
      OpenAccountKeepsBookkeeping(store.accounts, store.transactions, store.entries, account);
      store.accounts := store.accounts[account.id := account];
      store.nextAccountId := store.nextAccountId + 1;
    }

    /** Looks an account up and fills in its balance from the ledger; a
        missing account is NotFound. Nothing is written. */
    method GetAccountWithBalance(accountId: nat) returns (r: Result<Account>)
      ensures r.Err? <==> accountId !in store.accounts
      ensures r.Err? ==> r.error == NotFound
      ensures r.Ok? ==> r.value == store.accounts[accountId].(balance := CalculateBalance(store.entries, accountId))
      ensures r.Ok? ==> r.value.balance == SumOf(History(store.entries, accountId))
      ensures r.Ok? && store.Consistent() ==> r.value.balance >= 0
    {
      if accountId !in store.accounts {
        return Err(NotFound);
      }
      var account := store.accounts[accountId];
      // The query's COALESCE already turns an empty sum into zero, so the
      // balance is never absent and the service's null fallback is not needed.
      account := account.(balance := CalculateBalance(store.entries, accountId));
      BalanceIsSumOfHistory(store.entries, accountId);
      return Ok(account);
    }
  }
}
