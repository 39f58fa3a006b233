# Double-entry ledger core in Dafny

This project models the bookkeeping core of a small double-entry ledger
service (Java, Spring Boot, JPA). There are three stores:

- accounts, keyed by generated id;
- transactions, keyed by generated id;
- ledger entries, an append-only sequence in insertion order.

Every movement of money is recorded in these stores. A deposit, a withdrawal
or a transfer works in five steps:

1. It first saves a PENDING transaction record.
2. Where money leaves an account, it checks the amount against that account's
   **derived** balance. The balance is never stored. It is the signed sum of
   the account's ledger entries: CREDIT adds, DEBIT subtracts. The ledger
   query wraps the sum in COALESCE, so an account without entries has
   balance 0.
3. It appends one signed entry per leg: a DEBIT on the source, a CREDIT on the
   destination.
4. It finally rewrites the record as COMPLETED.
5. If the funds check fails, it rewrites the record as FAILED and appends no
   entry.

Missing accounts and currency mismatches are rejected before any record
exists.

Module layout, following the program:

| module (file) | models |
|---|---|
| `Outcomes` (`outcomes.dfy`) | the three business exceptions as a `Result` |
| `AccountModel` (`account.dfy`) | the `Account` entity |
| `LedgerEntryModel` (`ledger_entry.dfy`) | the `LedgerEntry` entity and its signed amount |
| `TransactionModel` (`transaction.dfy`) | the `Transaction` record and its status life cycle |
| `LedgerEntryRepository` (`ledger_repository.dfy`) | `calculateBalance` and the per-account history query |
| `Stores` (`store.dfy`) | the database as a class `Store`, with its invariants and the lemmas that each write keeps them |
| `AccountServices` (`account_service.dfy`) | `AccountService` as a class over a `Store` |
| `TransactionServices` (`transaction_service.dfy`) | `TransactionService` as a class over a `Store` |

Modelling decisions:

- Amounts are `DECIMAL(19,4)` in the source. They are modelled exactly as
  integers counted in ten-thousandths. A stored amount has type `Amount`,
  which is always positive.
- Generated account and transaction ids come from two counters. Each counter
  moves forward by one when a record of its kind is created. An entry's id is
  its position in the ledger plus one.
- `LocalDateTime.now()` becomes a clock. The clock advances by one with every
  transaction record and every ledger entry created. Opening an account does
  not advance it, because an account stores no time.
- The JPA repositories' `save` calls are writes to the fields of the `Store`
  class.
- A `Transaction` is a value in the transaction map. Each `setStatus` followed
  by `save` is modelled by one method, `SetStatusAndSave`. Its precondition
  accepts only status writes the life cycle allows.
- The three exceptions the services throw become `Result` errors:
  - `NoSuchElementException` becomes `NotFound`;
  - `IllegalArgumentException` for a currency mismatch becomes
    `CurrencyMismatch`;
  - `InsufficientBalanceException` becomes `InsufficientFunds`.

Store.Consistent is the invariant every service method needs and keeps. It
has two parts:

- **WellFormed** (structure):
  - ids match their keys and lie below the counters;
  - every record refers only to accounts and transactions that exist;
  - each transaction names the parties its type calls for;
  - entry ids follow insertion order;
  - entries appear in creation order.
- **Bookkept** (bookkeeping):
  - every transaction owns exactly the entries its status and type call for:
    none unless it is COMPLETED, then a DEBIT on the source followed by a
    CREDIT on the destination for a transfer, one CREDIT for a deposit and
    one DEBIT for a withdrawal, each for the transaction's amount;
  - no account balance is negative.

`Account` has a FROZEN status (Account.java:49-51), but no service checks it.
The model follows the code and treats FROZEN accounts like ACTIVE ones.

## Model

| member | source | states |
|---|---|---|
| LedgerEntryModel.SignedAmount | src/main/java/com/example/ledger/model/LedgerEntry.java:43-45 | The magnitude of the signed amount is the stored amount. It is positive exactly for a CREDIT and negative exactly for a DEBIT. |
| LedgerEntryModel.DebitCreditNetZero | src/main/java/com/example/ledger/model/LedgerEntry.java:43-45 | A DEBIT and a CREDIT of equal amounts have signed amounts that add up to zero: the net effect of a transfer. |
| TransactionModel.TerminalStatusIsFinal | src/main/java/com/example/ledger/service/TransactionService.java:64-78 | Once a record is COMPLETED or FAILED, the only status write allowed keeps that status. |
| TransactionModel.StatusStepTransitive | src/main/java/com/example/ledger/service/TransactionService.java:64-78 | Allowed status writes compose. A record can end PENDING only if it was PENDING all along. |
| LedgerEntryRepository.History | src/main/java/com/example/ledger/repository/LedgerEntryRepository.java:30-32 | The history contains exactly the ledger's entries for the account, each row no more often than in the ledger, so it is a filter of the ledger. |
| LedgerEntryRepository.HistoryWithoutEntries | src/main/java/com/example/ledger/repository/LedgerEntryRepository.java:32 | An account that no entry references has an empty history. |
| LedgerEntryRepository.CreatedInOrderPairwise | src/main/java/com/example/ledger/repository/LedgerEntryRepository.java:30-32 | In a sequence in creation order, every entry is no younger than every entry after it. |
| LedgerEntryRepository.HistoryCreatedInOrder | src/main/java/com/example/ledger/repository/LedgerEntryRepository.java:30-32 | When the ledger is in creation order, so is each account's history. This is the `OrderByCreatedAtAsc` of the query. |
| LedgerEntryRepository.SumOfSigned | src/main/java/com/example/ledger/repository/LedgerEntryRepository.java:20-27 | The bare SQL sum over an account's rows is NULL when no entry belongs to the account. SumIsNullIffNoEntries adds the converse. |
| LedgerEntryRepository.CalculateBalance | src/main/java/com/example/ledger/repository/LedgerEntryRepository.java:18-28 | The COALESCEd balance is exactly 0 for an account without entries. BalanceAfterAppend gives how each appended entry moves it, and BalanceIsSumOfHistory equates it with the signed sum of the account's history. |
| LedgerEntryRepository.SumIsNullIffNoEntries | src/main/java/com/example/ledger/repository/LedgerEntryRepository.java:20-28 | The SQL sum before COALESCE is NULL exactly when no entry belongs to the account. |
| LedgerEntryRepository.BalanceWithoutEntries | src/main/java/com/example/ledger/repository/LedgerEntryRepository.java:18-28 | An account without entries has balance exactly 0, never an absent value, and an empty history. |
| LedgerEntryRepository.BalanceAfterAppend | src/main/java/com/example/ledger/repository/LedgerEntryRepository.java:20-28 | Appending an entry moves its own account's balance by exactly its signed amount and leaves every other account's balance unchanged. |
| LedgerEntryRepository.HistoryAfterAppend | src/main/java/com/example/ledger/repository/LedgerEntryRepository.java:30-32 | Appending an entry extends its own account's history by that entry and leaves every other history unchanged. |
| LedgerEntryRepository.BalanceIsSumOfHistory | src/main/java/com/example/ledger/repository/LedgerEntryRepository.java:20-32 | The balance equals the signed amounts of the account's history, added up from the first entry to the last. |
| Stores.RecordPreservesMatch | src/main/java/com/example/ledger/service/TransactionService.java:119-129 | Recording a new transaction together with entries that match it keeps every transaction matched with its own entries. |
| Stores.AppendKeepsBalancesNonNegative | src/main/java/com/example/ledger/service/TransactionService.java:61-71 | Appending an entry keeps every balance non-negative, provided a debit does not exceed its account's current balance. |
| Stores.OpenAccountKeepsWellFormed | src/main/java/com/example/ledger/service/AccountService.java:25-31 | Adding an account under the next id with zero balance keeps the structure valid. |
| Stores.OpenAccountKeepsBookkeeping | src/main/java/com/example/ledger/service/AccountService.java:25-31 | An account that no entry references has an empty history and balance 0, so adding it keeps the bookkeeping invariant. |
| Stores.AddTransactionKeepsWellFormed | src/main/java/com/example/ledger/service/TransactionService.java:119-129 | Saving a transaction under the next id and the current time, with parties that fit its type and exist, keeps the structure valid, and its id is fresh. |
| Stores.AppendEntryKeepsWellFormed | src/main/java/com/example/ledger/service/TransactionService.java:131-138 | Appending an entry with the next id and the current time, on an existing account and transaction, keeps the structure valid and the creation order. |
| Stores.PendingKeepsInvariants | src/main/java/com/example/ledger/service/TransactionService.java:119-129 | Saving a new PENDING record keeps both invariants, because a pending transaction owns no entries. |
| Stores.SettlePreservesMatch | src/main/java/com/example/ledger/service/TransactionService.java:64-74 | Moving a PENDING record to a new status, with the entries that status calls for, keeps every transaction matched with its entries. |
| Stores.StatusChangeKeepsWellFormed | src/main/java/com/example/ledger/service/TransactionService.java:65-66 | Rewriting only the status of a stored record keeps the structure valid. |
| Stores.FailKeepsInvariants | src/main/java/com/example/ledger/service/TransactionService.java:64-67 | Marking a PENDING record FAILED, with no entries, keeps both invariants. |
| Stores.CompleteDepositKeepsInvariants | src/main/java/com/example/ledger/service/TransactionService.java:113-116 | Completing a pending deposit with one CREDIT keeps both invariants. Only the destination balance moves, up by the amount. |
| Stores.CompleteWithdrawalKeepsInvariants | src/main/java/com/example/ledger/service/TransactionService.java:92-103 | Completing a pending withdrawal with one DEBIT the source covers keeps both invariants. Only the source balance moves, down by the amount. |
| Stores.CompleteTransferKeepsInvariants | src/main/java/com/example/ledger/service/TransactionService.java:61-74 | Completing a pending transfer keeps both invariants: a DEBIT the source covers, then a CREDIT. The source balance falls by the amount and the destination balance rises by the amount. |
| Stores.RejectionKeepsInvariants | src/main/java/com/example/ledger/service/TransactionService.java:89-99 | A rejected attempt keeps both invariants: a PENDING record, then FAILED, with no entries. |
| Stores.DepositKeepsInvariants | src/main/java/com/example/ledger/service/TransactionService.java:107-117 | A whole deposit keeps both invariants and raises only the destination balance, by the amount. |
| Stores.WithdrawalKeepsInvariants | src/main/java/com/example/ledger/service/TransactionService.java:84-103 | A whole withdrawal that passes the funds check keeps both invariants and lowers only the source balance, by the amount. |
| Stores.Store.constructor | src/main/java/com/example/ledger/repository/AccountRepository.java:9-13 | A fresh database has no accounts, no transactions and no entries, and it already satisfies the invariant. |
| AccountServices.AccountService.CreateAccount | src/main/java/com/example/ledger/service/AccountService.java:24-32 | Stores the requested owner, type and currency as a new ACTIVE account under a fresh id. No other account, transaction or entry changes. Only the account counter advances; the transaction counter and the clock keep their values. The invariant is kept, and the new account has an empty history and balance 0. |
| AccountServices.AccountService.GetAccountWithBalance | src/main/java/com/example/ledger/service/AccountService.java:34-42 | Returns NotFound exactly when the account is missing. Otherwise it returns the stored account with its balance filled in: the COALESCEd sum, which equals the signed sum of its history and is non-negative in a consistent store. Nothing is written. |
| TransactionServices.TransactionService.ExecuteTransfer | src/main/java/com/example/ledger/service/TransactionService.java:43-81 | A missing account gives NotFound and a currency mismatch gives CurrencyMismatch, and both leave the store untouched. Otherwise it succeeds exactly when the source balance covers the amount. On failure it gives InsufficientFunds and leaves one FAILED record and no entries. On success it records one COMPLETED TRANSFER with exactly one DEBIT on the source and then one CREDIT on the destination, same amount and transaction id. The source balance falls and the destination balance rises by the amount, and the invariant is kept. The account counter never moves. A recorded attempt advances the transaction counter by one, and the clock by one per record and entry. |
| TransactionServices.TransactionService.SettleTransfer | src/main/java/com/example/ledger/service/TransactionService.java:58-80 | Runs the guarded part of a transfer on its PENDING record. If the source cannot cover the amount, the record becomes FAILED (written twice, with the same result) and no entry is appended. Otherwise the DEBIT and CREDIT are appended and the record becomes COMPLETED. The record is never left PENDING. |
| TransactionServices.TransactionService.ExecuteWithdrawal | src/main/java/com/example/ledger/service/TransactionService.java:83-104 | NotFound exactly when the account is missing, with the store untouched. Otherwise it succeeds exactly when the balance covers the amount. On failure one FAILED WITHDRAWAL record with no destination and no entry. On success one COMPLETED record and one DEBIT, and only that balance falls, by the amount. The account counter never moves; a recorded attempt advances the transaction counter by one and the clock by one per record and entry. |
| TransactionServices.TransactionService.ExecuteDeposit | src/main/java/com/example/ledger/service/TransactionService.java:106-117 | No funds check is made. NotFound exactly when the account is missing, with the store untouched. Otherwise one COMPLETED DEPOSIT with no source and one CREDIT on the destination, and only that balance rises, by the amount. The account counter keeps its value, the transaction counter advances by one and the clock by two. |
| TransactionServices.TransactionService.CreatePendingTransaction | src/main/java/com/example/ledger/service/TransactionService.java:119-129 | Saves a PENDING record holding exactly the given type, amount, currency, description, source and destination, under the next id and the current time. Nothing else changes. |
| TransactionServices.TransactionService.CreateLedgerEntry | src/main/java/com/example/ledger/service/TransactionService.java:131-138 | Appends exactly one entry, with the given account, transaction, kind and amount, the next entry id and the current time. Nothing else changes. |
| TransactionServices.TransactionService.SetStatusAndSave | src/main/java/com/example/ledger/service/TransactionService.java:65-66 | Rewrites only the status of a stored record. Only an allowed life-cycle step is accepted, and nothing else changes. |

## Left out

- HTTP layer: the controllers and the exception handler only route requests and map exceptions to status codes.
- Request validation: the bean-validation annotations on the request DTOs are framework checks. Of their effect the model carries only `amount > 0` (the `requires` of the service methods) and `userId > 0` (the `requires` of CreateAccount).
- Currency codes and descriptions are plain strings. Their length limits (3 characters for a currency) are column constraints the services never check.
- Locking and isolation: TransactionService.java:46 and :86 call `accountRepository.findByIdWithLock`, but AccountRepository.java:10-13 declares no such method. As written, the service does not compile, and no lock is ever taken. The model is sequential, reads both calls as the plain `findById` they stand for, and leaves the isolation level out.
- Spring rollback: `executeTransfer` and `executeWithdrawal` are `@Transactional` (TransactionService.java:43, :83), and `InsufficientBalanceException` is a `RuntimeException` (InsufficientBalanceException.java:4). When the funds check fails, Spring therefore rolls back the whole unit of work: the PENDING insert and every FAILED update. The running program keeps no transaction record of a rejected attempt. The model does not roll back. The FAILED record that ExecuteTransfer, SettleTransfer and ExecuteWithdrawal promise is only the sequential effect of the code's writes. The id drawn by the rolled-back insert (an IDENTITY column, Transaction.java:15-17) stays used, so the next transaction skips it, as in the model, and the clock keeps moving forward in both.
- Failures of the database itself, and exceptions other than the three business ones, are not modelled. As a result, the "any other failure" path of the transfer's catch block is reached only by the insufficient-funds case.
- Logging calls have no effect on the state and are left out.
- Id generation and `LocalDateTime.now()` are replaced by counters and a clock. Real timestamps may coincide, whereas the clock here strictly increases, so history order is creation order.
- `TransactionRepository.findBySourceAccountIdOrDestinationAccountId` is a derived audit query that no core operation uses.
- FROZEN accounts: no code path checks the account status, so the model has no rule for it.
- The `DECIMAL(19,4)` precision bound: amounts are unbounded integers of ten-thousandths. Request amounts with more than four fractional digits, which the database would round, are not represented.
- AccountServices.AccountService.GetAccountWithBalance: the service's null fallback for the balance is not modelled as a branch. The query's COALESCE already makes the balance present, and SumIsNullIffNoEntries shows that the bare sum is NULL exactly when there are no entries.
- The returned `Transaction` is a managed JPA entity that the code mutates and saves again. The model passes value copies and rewrites the stored record at each save, so aliasing between the returned object and the stored row is not captured.
