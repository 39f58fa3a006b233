/** The transaction coordinator: deposits, withdrawals and transfers, each of
    which records a PENDING transaction, checks funds against the derived
    balance where money leaves an account, appends its ledger entries and
    finally marks the transaction COMPLETED or FAILED. */
module TransactionServices {
  import opened Outcomes
  import opened AccountModel
  import opened LedgerEntryModel
  import opened TransactionModel
  import opened LedgerEntryRepository
  import opened Stores

  class TransactionService {
    const store: Store

    constructor (store: Store)
      ensures this.store == store
    {
      this.store := store;
    }

    /** Moves money from one account to another: both must exist and share a
        currency, and the source must cover the amount. */
    method ExecuteTransfer(sourceId: nat, destinationId: nat, amount: int, description: Option<string>)
      returns (r: Result<Transaction>)
      requires store.Consistent()
      requires amount > 0
      modifies store
      ensures store.Consistent()
      ensures store.accounts == old(store.accounts) && store.nextAccountId == old(store.nextAccountId)
      // Rejections before any record exists.
      ensures sourceId !in old(store.accounts) || destinationId !in old(store.accounts) ==> r == Err(NotFound)
      ensures sourceId in old(store.accounts) && destinationId in old(store.accounts)
              && old(store.accounts)[sourceId].currency != old(store.accounts)[destinationId].currency
              ==> r == Err(CurrencyMismatch)
      ensures r == Err(NotFound) || r == Err(CurrencyMismatch) ==> unchanged(store)
      // Once both accounts exist and agree on the currency, the funds check decides.
      ensures sourceId in old(store.accounts) && destinationId in old(store.accounts)
              && old(store.accounts)[sourceId].currency == old(store.accounts)[destinationId].currency
              ==> (r.Ok? <==> CalculateBalance(old(store.entries), sourceId) - amount >= 0)
                  && (r.Err? ==> r.error == InsufficientFunds)
      // A rejected attempt leaves a FAILED record and no entries.
      ensures r == Err(InsufficientFunds) ==>
                && store.entries == old(store.entries)
                && store.transactions == old(store.transactions)[old(store.nextTransactionId) :=
                     Transaction(old(store.nextTransactionId), Transfer, Some(sourceId), Some(destinationId),
                                 amount, old(store.accounts)[sourceId].currency, Failed, description,
                                 old(store.clock))]
                && store.nextTransactionId == old(store.nextTransactionId) + 1 && store.clock == old(store.clock) + 1
      // A completed transfer: one DEBIT on the source, one CREDIT on the destination.
      ensures r.Ok? ==>
                && r.value == Transaction(old(store.nextTransactionId), Transfer, Some(sourceId), Some(destinationId),
                                          amount, old(store.accounts)[sourceId].currency, Completed, description,
                                          old(store.clock))
                && store.transactions == old(store.transactions)[r.value.id := r.value]
                && store.entries == old(store.entries)
                     + [LedgerEntry(|old(store.entries)| + 1, sourceId, r.value.id, Debit, amount, old(store.clock) + 1),
                        LedgerEntry(|old(store.entries)| + 2, destinationId, r.value.id, Credit, amount, old(store.clock) + 2)]
                && store.nextTransactionId == old(store.nextTransactionId) + 1 && store.clock == old(store.clock) + 3
      ensures r.Ok? ==> forall a :: CalculateBalance(store.entries, a)
                                    == CalculateBalance(old(store.entries), a)
                                       - (if a == sourceId then amount else 0)
                                       + (if a == destinationId then amount else 0)
    {
      // `findByIdWithLock` is declared nowhere; the source lookup is read as `findById`.
      if sourceId !in store.accounts {
        return Err(NotFound);
      }
      var source := store.accounts[sourceId];
      assert source.id == sourceId;
      if destinationId !in store.accounts {
        return Err(NotFound);
      }
      var dest := store.accounts[destinationId];
      assert dest.id == destinationId;
      if source.currency != dest.currency {
        return Err(CurrencyMismatch);
      }
      ghost var accounts0, transactions0, entries0 := store.accounts, store.transactions, store.entries;
      ghost var nextAccountId0, nextTransactionId0, clock0 := store.nextAccountId, store.nextTransactionId, store.clock;
      var transaction := CreatePendingTransaction(Transfer, amount, source.currency, description,
                                                  Some(source.id), Some(dest.id));
      PendingKeepsInvariants(accounts0, transactions0, entries0, nextAccountId0, nextTransactionId0, clock0,
                             transaction);
      assert store.Consistent();
      assert transaction == Transaction(nextTransactionId0, Transfer, Some(sourceId), Some(destinationId), amount,
                                        source.currency, Pending, description, clock0);
      r := SettleTransfer(transaction, source.id, dest.id, amount);
      SaveOverwrites(transactions0, transaction.id, transaction, transaction.(status := Failed));
      SaveOverwrites(transactions0, transaction.id, transaction, transaction.(status := Completed));
    }

    /** The guarded part of a transfer, once its PENDING record exists: the
        funds check on the source, then the two legs and COMPLETED, or FAILED
        and no legs. */
    method SettleTransfer(transaction: Transaction, sourceId: nat, destinationId: nat, amount: int)
      returns (r: Result<Transaction>)
      requires store.Consistent()
      requires transaction.id in store.transactions && store.transactions[transaction.id] == transaction
      requires transaction.status == Pending && transaction.txType == Transfer && transaction.amount == amount
      requires transaction.sourceAccountId == Some(sourceId)
      requires transaction.destinationAccountId == Some(destinationId)
      modifies store
      ensures store.Consistent()
      ensures store.accounts == old(store.accounts)
      ensures store.nextAccountId == old(store.nextAccountId)
      ensures store.nextTransactionId == old(store.nextTransactionId)
      ensures r.Ok? <==> CalculateBalance(old(store.entries), sourceId) - amount >= 0
      ensures r.Err? ==>
                && r.error == InsufficientFunds
                && store.entries == old(store.entries) && store.clock == old(store.clock)
                && store.transactions == old(store.transactions)[transaction.id := transaction.(status := Failed)]
      ensures r.Ok? ==>
                && r.value == transaction.(status := Completed)
                && store.transactions == old(store.transactions)[transaction.id := r.value]
                && store.entries == old(store.entries)
                     + [LedgerEntry(|old(store.entries)| + 1, sourceId, transaction.id, Debit, amount, old(store.clock)),
                        LedgerEntry(|old(store.entries)| + 2, destinationId, transaction.id, Credit, amount,
                                    old(store.clock) + 1)]
                && store.clock == old(store.clock) + 2
      ensures r.Ok? ==> forall a :: CalculateBalance(store.entries, a)
                                    == CalculateBalance(old(store.entries), a)
                                       - (if a == sourceId then amount else 0)
                                       + (if a == destinationId then amount else 0)
    {
      ghost var accounts0, transactions0, entries0 := store.accounts, store.transactions, store.entries;
      ghost var nextAccountId0, nextTransactionId0, clock0 := store.nextAccountId, store.nextTransactionId, store.clock;
      var currentBalance := CalculateBalance(store.entries, sourceId);
      var newBalance := currentBalance - amount;
      if newBalance < 0 {
        var failed := SetStatusAndSave(transaction, Failed);
        FailKeepsInvariants(accounts0, transactions0, entries0, nextAccountId0, nextTransactionId0, clock0, failed);
        // The handler around the funds check marks the record FAILED once more
        // before the exception leaves the method.
        failed := SetStatusAndSave(failed, Failed);
        SaveOverwrites(transactions0, transaction.id, failed, failed);
        return Err(InsufficientFunds);
      }
      CreateLedgerEntry(sourceId, transaction.id, Debit, amount);
      CreateLedgerEntry(destinationId, transaction.id, Credit, amount);
      var completed := SetStatusAndSave(transaction, Completed);
      ghost var debit := LedgerEntry(|entries0| + 1, sourceId, transaction.id, Debit, amount, clock0);
      ghost var credit := LedgerEntry(|entries0| + 2, destinationId, transaction.id, Credit, amount, clock0 + 1);
      assert store.entries == entries0 + [debit, credit];
      CompleteTransferKeepsInvariants(accounts0, transactions0, entries0, nextAccountId0, nextTransactionId0, clock0,
                                      completed, debit, credit);
      return Ok(completed);
    }

    /** Takes money out of an account that exists and can cover the amount. */
    method ExecuteWithdrawal(accountId: nat, amount: int, description: Option<string>)
      returns (r: Result<Transaction>)
      requires store.Consistent()
      requires amount > 0
      modifies store
      ensures store.Consistent()
      ensures store.accounts == old(store.accounts) && store.nextAccountId == old(store.nextAccountId)
      ensures r == Err(NotFound) <==> accountId !in old(store.accounts)
      ensures r == Err(NotFound) ==> unchanged(store)
      ensures accountId in old(store.accounts) ==>
                (r.Ok? <==> CalculateBalance(old(store.entries), accountId) - amount >= 0)
                && (r.Err? ==> r.error == InsufficientFunds)
      ensures r == Err(InsufficientFunds) ==>
                && store.entries == old(store.entries)
                && store.transactions == old(store.transactions)[old(store.nextTransactionId) :=
                     Transaction(old(store.nextTransactionId), Withdrawal, Some(accountId), None,
                                 amount, old(store.accounts)[accountId].currency, Failed, description,
                                 old(store.clock))]
                && store.nextTransactionId == old(store.nextTransactionId) + 1 && store.clock == old(store.clock) + 1
      ensures r.Ok? ==>
                && r.value == Transaction(old(store.nextTransactionId), Withdrawal, Some(accountId), None,
                                          amount, old(store.accounts)[accountId].currency, Completed, description,
                                          old(store.clock))
                && store.transactions == old(store.transactions)[r.value.id := r.value]
                && store.entries == old(store.entries)
                     + [LedgerEntry(|old(store.entries)| + 1, accountId, r.value.id, Debit, amount, old(store.clock) + 1)]
                && store.nextTransactionId == old(store.nextTransactionId) + 1 && store.clock == old(store.clock) + 2
      ensures r.Ok? ==> forall a :: CalculateBalance(store.entries, a)
                                    == CalculateBalance(old(store.entries), a) - (if a == accountId then amount else 0)
    {
      // As for transfers, the undeclared `findByIdWithLock` is read as `findById`.
      if accountId !in store.accounts {
        return Err(NotFound);
      }
      var source := store.accounts[accountId];
      assert source.id == accountId;
      ghost var accounts0, transactions0, entries0 := store.accounts, store.transactions, store.entries;
      ghost var nextAccountId0, nextTransactionId0, clock0 := store.nextAccountId, store.nextTransactionId, store.clock;
      var transaction := CreatePendingTransaction(Withdrawal, amount, source.currency, description,
                                                  Some(source.id), None);
      ghost var pending := transaction;
      var currentBalance := CalculateBalance(store.entries, source.id);
      var newBalance := currentBalance - amount;
      if newBalance < 0 {
        transaction := SetStatusAndSave(transaction, Failed);
        SaveOverwrites(transactions0, transaction.id, pending, transaction);
        RejectionKeepsInvariants(accounts0, transactions0, entries0, nextAccountId0, nextTransactionId0, clock0,
                                 transaction);
        return Err(InsufficientFunds);
      }
      CreateLedgerEntry(source.id, transaction.id, Debit, amount);
      transaction := SetStatusAndSave(transaction, Completed);
      ghost var debit := LedgerEntry(|entries0| + 1, accountId, transaction.id, Debit, amount, clock0 + 1);
      assert store.entries == entries0 + [debit];
      SaveOverwrites(transactions0, transaction.id, pending, transaction);
      WithdrawalKeepsInvariants(accounts0, transactions0, entries0, nextAccountId0, nextTransactionId0, clock0,
                                transaction, debit);
      return Ok(transaction);
    }

    /** Puts money into an account that exists; no funds check is needed. */
    method ExecuteDeposit(accountId: nat, amount: int, description: Option<string>)
      returns (r: Result<Transaction>)
      requires store.Consistent()
      requires amount > 0
      modifies store
      ensures store.Consistent()
      ensures store.accounts == old(store.accounts) && store.nextAccountId == old(store.nextAccountId)
      ensures r.Err? <==> accountId !in old(store.accounts)
      ensures r.Err? ==> r.error == NotFound && unchanged(store)
      ensures r.Ok? ==>
                && r.value == Transaction(old(store.nextTransactionId), Deposit, None, Some(accountId),
                                          amount, old(store.accounts)[accountId].currency, Completed, description,
                                          old(store.clock))
                && store.transactions == old(store.transactions)[r.value.id := r.value]
                && store.entries == old(store.entries)
                     + [LedgerEntry(|old(store.entries)| + 1, accountId, r.value.id, Credit, amount, old(store.clock) + 1)]
                && store.nextTransactionId == old(store.nextTransactionId) + 1 && store.clock == old(store.clock) + 2
      ensures r.Ok? ==> forall a :: CalculateBalance(store.entries, a)
                                    == CalculateBalance(old(store.entries), a) + (if a == accountId then amount else 0)
    {
      if accountId !in store.accounts {
        return Err(NotFound);
      }
      var dest := store.accounts[accountId];
      assert dest.id == accountId;
      ghost var accounts0, transactions0, entries0 := store.accounts, store.transactions, store.entries;
      ghost var nextAccountId0, nextTransactionId0, clock0 := store.nextAccountId, store.nextTransactionId, store.clock;
      var transaction := CreatePendingTransaction(Deposit, amount, dest.currency, description,
                                                  None, Some(dest.id));
      ghost var pending := transaction;
      CreateLedgerEntry(dest.id, transaction.id, Credit, amount);
      transaction := SetStatusAndSave(transaction, Completed);
      ghost var credit := LedgerEntry(|entries0| + 1, accountId, transaction.id, Credit, amount, clock0 + 1);
      assert store.entries == entries0 + [credit];
      SaveOverwrites(transactions0, transaction.id, pending, transaction);
      DepositKeepsInvariants(accounts0, transactions0, entries0, nextAccountId0, nextTransactionId0, clock0,
                             transaction, credit);
      return Ok(transaction);
    }

    /** Saves a new PENDING transaction with exactly the given type, amount,
        currency, description and parties, under the next id and the current
        time. */
    method CreatePendingTransaction(txType: TransactionType, amount: int, currency: string,
                                    description: Option<string>, sourceId: Option<nat>, destinationId: Option<nat>)
      returns (t: Transaction)
      requires amount > 0
      modifies store
      ensures t == Transaction(old(store.nextTransactionId), txType, sourceId, destinationId, amount, currency,
                               Pending, description, old(store.clock))
      ensures store.transactions == old(store.transactions)[t.id := t]
      ensures store.accounts == old(store.accounts) && store.entries == old(store.entries)
      ensures store.nextAccountId == old(store.nextAccountId)
      ensures store.nextTransactionId == old(store.nextTransactionId) + 1 && store.clock == old(store.clock) + 1
    {
      t := Transaction(store.nextTransactionId, txType, sourceId, destinationId, amount, currency,
                       Pending, description, store.clock);
      store.transactions := store.transactions[t.id := t];
      store.nextTransactionId := store.nextTransactionId + 1;
      store.clock := store.clock + 1;
    }

    /** Appends one entry of the given kind and amount on an account for a
        transaction, with the next entry id and the current time. */
    method CreateLedgerEntry(accountId: nat, transactionId: nat, entryType: EntryType, amount: int)
      requires amount > 0
      modifies store
      ensures store.entries == old(store.entries)
                + [LedgerEntry(|old(store.entries)| + 1, accountId, transactionId, entryType, amount, old(store.clock))]
      ensures store.accounts == old(store.accounts) && store.transactions == old(store.transactions)
      ensures store.nextAccountId == old(store.nextAccountId)
      ensures store.nextTransactionId == old(store.nextTransactionId) && store.clock == old(store.clock) + 1
    {
      var entry := LedgerEntry(|store.entries| + 1, accountId, transactionId, entryType, amount, store.clock);
      store.entries := store.entries + [entry];
      store.clock := store.clock + 1;
    }

    /** `setStatus` followed by `save` on a stored transaction: only a status
        write the life cycle allows is accepted, and nothing else changes. */
    method SetStatusAndSave(t: Transaction, status: TransactionStatus) returns (saved: Transaction)
      requires t.id in store.transactions && store.transactions[t.id] == t
      requires StatusStep(t.status, status)
      modifies store
      ensures saved == t.(status := status)
      ensures store.transactions == old(store.transactions)[t.id := saved]
      ensures store.accounts == old(store.accounts) && store.entries == old(store.entries)
      ensures store.nextAccountId == old(store.nextAccountId)
      ensures store.nextTransactionId == old(store.nextTransactionId) && store.clock == old(store.clock)
    {
      saved := t.(status := status);
      store.transactions := store.transactions[t.id := saved];
    }
  }
}
