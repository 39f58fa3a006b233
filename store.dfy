/** The state behind the three repositories: accounts and transactions keyed by
    their generated ids, and the append-only ledger in insertion order. Ids are
    handed out by counters, and the clock stands for `LocalDateTime.now()`: it
    moves forward with every record that carries a creation time. */
module Stores {
  import opened Outcomes
  import opened AccountModel
  import opened LedgerEntryModel
  import opened TransactionModel
  import opened LedgerEntryRepository

  /** The entries that reference one transaction, in ledger order. */
  function EntriesOf(entries: seq<LedgerEntry>, transactionId: nat): seq<LedgerEntry>
  {
    if entries == [] then []
    else
      var prefix := EntriesOf(entries[..|entries| - 1], transactionId);
      var last := entries[|entries| - 1];
      if last.transactionId == transactionId then prefix + [last] else prefix
  }

  lemma {:induction false} EntriesOfConcat(s: seq<LedgerEntry>, added: seq<LedgerEntry>, transactionId: nat)
    ensures EntriesOf(s + added, transactionId) == EntriesOf(s, transactionId) + EntriesOf(added, transactionId)
  {
    if added == [] {
      assert s + added == s;
    } else {
      var init := added[..|added| - 1];
      var last := added[|added| - 1];
      assert (s + added)[..|s + added| - 1] == s + init;
      assert (s + added)[|s + added| - 1] == last;
      EntriesOfConcat(s, init, transactionId);
    }
  }

  /** One leg of a transaction: an entry of the given kind and amount on the
      named party. */
  predicate IsLeg(e: LedgerEntry, party: Option<nat>, kind: EntryType, amount: int)
  {
    party == Some(e.accountId) && e.entryType == kind && e.amount == amount
  }

  /** The entries a transaction owns, given its status: none unless it is
      COMPLETED; then one DEBIT on the source and one CREDIT on the destination
      for a transfer, a single CREDIT for a deposit, a single DEBIT for a
      withdrawal, each for the transaction's amount. */
  predicate EntriesMatch(t: Transaction, es: seq<LedgerEntry>)
  {
    if t.status != Completed then es == []
    else match t.txType
      case Transfer =>
        |es| == 2 && IsLeg(es[0], t.sourceAccountId, Debit, t.amount)
        && IsLeg(es[1], t.destinationAccountId, Credit, t.amount)
      case Deposit => |es| == 1 && IsLeg(es[0], t.destinationAccountId, Credit, t.amount)
      case Withdrawal => |es| == 1 && IsLeg(es[0], t.sourceAccountId, Debit, t.amount)
  }

  /** Every transaction owns exactly the entries its type and status call for. */
  ghost predicate LedgerMatches(transactions: map<nat, Transaction>, entries: seq<LedgerEntry>)
  {
    forall id {:trigger EntriesOf(entries, id)} ::
      id in transactions ==> EntriesMatch(transactions[id], EntriesOf(entries, id))
  }

  /** No account is overdrawn. */
  ghost predicate BalancesNonNegative(accounts: map<nat, Account>, entries: seq<LedgerEntry>)
  {
    forall a {:trigger CalculateBalance(entries, a)} :: a in accounts ==> CalculateBalance(entries, a) >= 0
  }

  /** Recording a new transaction together with the entries it owns keeps every
      transaction matched with its entries. */
  lemma RecordPreservesMatch(transactions: map<nat, Transaction>, entries: seq<LedgerEntry>,
                             t: Transaction, added: seq<LedgerEntry>)
    requires LedgerMatches(transactions, entries)
    requires t.id !in transactions
    requires forall i :: 0 <= i < |entries| ==> entries[i].transactionId in transactions
    requires forall i :: 0 <= i < |added| ==> added[i].transactionId == t.id
    requires EntriesMatch(t, added)
    ensures LedgerMatches(transactions[t.id := t], entries + added)
  {
    forall id | id in transactions[t.id := t]
      ensures EntriesMatch(transactions[t.id := t][id], EntriesOf(entries + added, id))
    {
      EntriesOfConcat(entries, added, id);
      if id == t.id {
        OtherEntries(entries, id);
        OwnEntries(added, id);
      } else {
        OtherEntries(added, id);
      }
    }
  }

  lemma {:induction false} OwnEntries(added: seq<LedgerEntry>, transactionId: nat)
    requires forall i :: 0 <= i < |added| ==> added[i].transactionId == transactionId
    ensures EntriesOf(added, transactionId) == added
  {
    if added != [] {
      OwnEntries(added[..|added| - 1], transactionId);
    }
  }

  lemma {:induction false} OtherEntries(added: seq<LedgerEntry>, transactionId: nat)
    requires forall i :: 0 <= i < |added| ==> added[i].transactionId != transactionId
    ensures EntriesOf(added, transactionId) == []
  {
    if added != [] {
      OtherEntries(added[..|added| - 1], transactionId);
    }
  }

  /** Appending an entry keeps every balance non-negative as long as a debit
      does not exceed its account's current balance. */
  lemma AppendKeepsBalancesNonNegative(accounts: map<nat, Account>, entries: seq<LedgerEntry>, e: LedgerEntry)
    requires BalancesNonNegative(accounts, entries)
    requires e.entryType == Debit ==> CalculateBalance(entries, e.accountId) >= e.amount
    ensures BalancesNonNegative(accounts, entries + [e])
  {
    forall a | a in accounts ensures CalculateBalance(entries + [e], a) >= 0 {
      BalanceAfterAppend(entries, e, a);
    }
  }

  /** Structural invariant of the database: generated ids match their keys and
      are below the counters, stored accounts carry no balance, every record
      references accounts that exist, every entry references a transaction that
      exists, entry ids follow insertion order and creation times never go
      back past the clock. */
  ghost predicate WellFormed(accounts: map<nat, Account>, transactions: map<nat, Transaction>,
                             entries: seq<LedgerEntry>, nextAccountId: nat, nextTransactionId: nat, clock: nat)
  {
    && 0 < nextAccountId && 0 < nextTransactionId
    && (forall id :: id in accounts ==>
          0 < id < nextAccountId && accounts[id].id == id && accounts[id].balance == 0)
    && (forall id :: id in transactions ==>
          && 0 < id < nextTransactionId && transactions[id].id == id
          && transactions[id].createdAt < clock
          && RefersToAccounts(transactions[id], accounts))
    && (forall i :: 0 <= i < |entries| ==>
          && entries[i].id == i + 1
          && entries[i].accountId in accounts
          && entries[i].transactionId in transactions
          && entries[i].createdAt < clock)
    && CreatedInOrder(entries)
  }

  /** A transaction names the parties its type calls for, and they exist. */
  predicate RefersToAccounts(t: Transaction, accounts: map<nat, Account>)
  {
    && PartiesFit(t.txType, t.sourceAccountId, t.destinationAccountId)
    && (t.sourceAccountId.Some? ==> t.sourceAccountId.value in accounts)
    && (t.destinationAccountId.Some? ==> t.destinationAccountId.value in accounts)
  }

  /** The bookkeeping invariant: every transaction owns exactly the entries its
      status and type call for, and no account balance is negative. */
  ghost predicate Bookkept(accounts: map<nat, Account>, transactions: map<nat, Transaction>,
                           entries: seq<LedgerEntry>)
  {
    LedgerMatches(transactions, entries) && BalancesNonNegative(accounts, entries)
  }

  /** Opening an account under the next id keeps the structure valid. */
  lemma OpenAccountKeepsWellFormed(accounts: map<nat, Account>, transactions: map<nat, Transaction>,
                                   entries: seq<LedgerEntry>, nextAccountId: nat, nextTransactionId: nat,
                                   clock: nat, account: Account)
    requires WellFormed(accounts, transactions, entries, nextAccountId, nextTransactionId, clock)
    requires account.id == nextAccountId && account.balance == 0
    ensures WellFormed(accounts[account.id := account], transactions, entries,
                       nextAccountId + 1, nextTransactionId, clock)
  {
  }

  /** An account that no entry references has an empty history and a zero
      balance, so adding it keeps the bookkeeping invariant. */
  lemma OpenAccountKeepsBookkeeping(accounts: map<nat, Account>, transactions: map<nat, Transaction>,
                                    entries: seq<LedgerEntry>, account: Account)
    requires Bookkept(accounts, transactions, entries)
    requires forall i :: 0 <= i < |entries| ==> entries[i].accountId != account.id
    ensures Bookkept(accounts[account.id := account], transactions, entries)
    ensures History(entries, account.id) == [] && CalculateBalance(entries, account.id) == 0
  {
    BalanceWithoutEntries(entries, account.id);
  }

  /** Saving a new transaction under the next id and the current time keeps the
      structure valid, provided its parties fit its type and exist. */
  lemma AddTransactionKeepsWellFormed(accounts: map<nat, Account>, transactions: map<nat, Transaction>,
                                      entries: seq<LedgerEntry>, nextAccountId: nat, nextTransactionId: nat,
                                      clock: nat, t: Transaction)
    requires WellFormed(accounts, transactions, entries, nextAccountId, nextTransactionId, clock)
    requires t.id == nextTransactionId && t.createdAt == clock && RefersToAccounts(t, accounts)
    ensures t.id !in transactions
    ensures WellFormed(accounts, transactions[t.id := t], entries, nextAccountId, nextTransactionId + 1, clock + 1)
  {
  }

  /** Appending an entry with the next id and the current time, on an existing
      account and transaction, keeps the structure valid. */
  lemma AppendEntryKeepsWellFormed(accounts: map<nat, Account>, transactions: map<nat, Transaction>,
                                   entries: seq<LedgerEntry>, nextAccountId: nat, nextTransactionId: nat,
                                   clock: nat, e: LedgerEntry)
    requires WellFormed(accounts, transactions, entries, nextAccountId, nextTransactionId, clock)
    requires e.id == |entries| + 1 && e.createdAt == clock
    requires e.accountId in accounts && e.transactionId in transactions
    ensures WellFormed(accounts, transactions, entries + [e], nextAccountId, nextTransactionId, clock + 1)
  {
  }

  /** Saving a new PENDING transaction under the next id and the current time
      keeps both invariants: a pending transaction owns no entries yet. */
  lemma PendingKeepsInvariants(accounts: map<nat, Account>, transactions: map<nat, Transaction>,
                               entries: seq<LedgerEntry>, nextAccountId: nat, nextTransactionId: nat,
                               clock: nat, t: Transaction)
    requires WellFormed(accounts, transactions, entries, nextAccountId, nextTransactionId, clock)
    requires Bookkept(accounts, transactions, entries)
    requires t.id == nextTransactionId && t.createdAt == clock && RefersToAccounts(t, accounts)
    requires t.status == Pending
    ensures t.id !in transactions
    ensures WellFormed(accounts, transactions[t.id := t], entries, nextAccountId, nextTransactionId + 1, clock + 1)
    ensures Bookkept(accounts, transactions[t.id := t], entries)
  {
    assert entries + [] == entries;
    AddTransactionKeepsWellFormed(accounts, transactions, entries, nextAccountId, nextTransactionId, clock, t);
    RecordPreservesMatch(transactions, entries, t, []);
  }

  /** Settling a PENDING transaction to a new status together with the entries
      that status calls for keeps every transaction matched with its entries. */
  lemma SettlePreservesMatch(transactions: map<nat, Transaction>, entries: seq<LedgerEntry>,
                             t: Transaction, added: seq<LedgerEntry>)
    requires LedgerMatches(transactions, entries)
    requires t.id in transactions && transactions[t.id].status == Pending
    requires forall i :: 0 <= i < |added| ==> added[i].transactionId == t.id
    requires EntriesMatch(t, added)
    ensures LedgerMatches(transactions[t.id := t], entries + added)
  {
    forall id | id in transactions[t.id := t]
      ensures EntriesMatch(transactions[t.id := t][id], EntriesOf(entries + added, id))
    {
      EntriesOfConcat(entries, added, id);
      if id == t.id {
        assert EntriesMatch(transactions[id], EntriesOf(entries, id));
        OwnEntries(added, id);
      } else {
        OtherEntries(added, id);
      }
    }
  }

  /** Rewriting the status of a stored transaction keeps the structure valid. */
  lemma StatusChangeKeepsWellFormed(accounts: map<nat, Account>, transactions: map<nat, Transaction>,
                                    entries: seq<LedgerEntry>, nextAccountId: nat, nextTransactionId: nat,
                                    clock: nat, t: Transaction)
    requires WellFormed(accounts, transactions, entries, nextAccountId, nextTransactionId, clock)
    requires t.id in transactions && t == transactions[t.id].(status := t.status)
    ensures WellFormed(accounts, transactions[t.id := t], entries, nextAccountId, nextTransactionId, clock)
  {
  }

  /** Marking a PENDING transaction FAILED, with no entries, keeps both
      invariants. */
  lemma FailKeepsInvariants(accounts: map<nat, Account>, transactions: map<nat, Transaction>,
                            entries: seq<LedgerEntry>, nextAccountId: nat, nextTransactionId: nat,
                            clock: nat, t: Transaction)
    requires WellFormed(accounts, transactions, entries, nextAccountId, nextTransactionId, clock)
    requires Bookkept(accounts, transactions, entries)
    requires t.id in transactions && transactions[t.id].status == Pending
    requires t == transactions[t.id].(status := Failed)
    ensures WellFormed(accounts, transactions[t.id := t], entries, nextAccountId, nextTransactionId, clock)
    ensures Bookkept(accounts, transactions[t.id := t], entries)
  {
  }

  /** Completing a PENDING deposit with one CREDIT on its destination keeps
      both invariants, and only that balance moves, up by the amount. */
  lemma CompleteDepositKeepsInvariants(accounts: map<nat, Account>, transactions: map<nat, Transaction>,
                                       entries: seq<LedgerEntry>, nextAccountId: nat, nextTransactionId: nat,
                                       clock: nat, t: Transaction, credit: LedgerEntry)
    requires WellFormed(accounts, transactions, entries, nextAccountId, nextTransactionId, clock)
    requires Bookkept(accounts, transactions, entries)
    requires t.id in transactions && transactions[t.id].status == Pending
    requires t == transactions[t.id].(status := Completed)
    requires t.txType == Deposit && t.destinationAccountId == Some(credit.accountId)
    requires credit == LedgerEntry(|entries| + 1, credit.accountId, t.id, Credit, t.amount, clock)
    ensures WellFormed(accounts, transactions[t.id := t], entries + [credit],
                       nextAccountId, nextTransactionId, clock + 1)
    ensures Bookkept(accounts, transactions[t.id := t], entries + [credit])
    ensures forall a :: CalculateBalance(entries + [credit], a)
                        == CalculateBalance(entries, a) + (if a == credit.accountId then t.amount as int else 0)
  {
    assert RefersToAccounts(transactions[t.id], accounts);
    AppendEntryKeepsWellFormed(accounts, transactions, entries, nextAccountId, nextTransactionId, clock, credit);
    StatusChangeKeepsWellFormed(accounts, transactions, entries + [credit],
                                nextAccountId, nextTransactionId, clock + 1, t);
    SettlePreservesMatch(transactions, entries, t, [credit]);
    AppendKeepsBalancesNonNegative(accounts, entries, credit);
    forall a ensures CalculateBalance(entries + [credit], a)
                     == CalculateBalance(entries, a) + (if a == credit.accountId then t.amount as int else 0)
    {
      BalanceAfterAppend(entries, credit, a);
    }
  }

  /** Completing a PENDING withdrawal with one DEBIT on a source that covers it
      keeps both invariants, and only that balance moves, down by the amount. */
  lemma CompleteWithdrawalKeepsInvariants(accounts: map<nat, Account>, transactions: map<nat, Transaction>,
                                          entries: seq<LedgerEntry>, nextAccountId: nat, nextTransactionId: nat,
                                          clock: nat, t: Transaction, debit: LedgerEntry)
    requires WellFormed(accounts, transactions, entries, nextAccountId, nextTransactionId, clock)
    requires Bookkept(accounts, transactions, entries)
    requires t.id in transactions && transactions[t.id].status == Pending
    requires t == transactions[t.id].(status := Completed)
    requires t.txType == Withdrawal && t.sourceAccountId == Some(debit.accountId)
    requires CalculateBalance(entries, debit.accountId) >= t.amount
    requires debit == LedgerEntry(|entries| + 1, debit.accountId, t.id, Debit, t.amount, clock)
    ensures WellFormed(accounts, transactions[t.id := t], entries + [debit],
                       nextAccountId, nextTransactionId, clock + 1)
    ensures Bookkept(accounts, transactions[t.id := t], entries + [debit])
    ensures forall a :: CalculateBalance(entries + [debit], a)
                        == CalculateBalance(entries, a) - (if a == debit.accountId then t.amount as int else 0)
  {
    assert RefersToAccounts(transactions[t.id], accounts);
    AppendEntryKeepsWellFormed(accounts, transactions, entries, nextAccountId, nextTransactionId, clock, debit);
    StatusChangeKeepsWellFormed(accounts, transactions, entries + [debit],
                                nextAccountId, nextTransactionId, clock + 1, t);
    SettlePreservesMatch(transactions, entries, t, [debit]);
    AppendKeepsBalancesNonNegative(accounts, entries, debit);
    forall a ensures CalculateBalance(entries + [debit], a)
                     == CalculateBalance(entries, a) - (if a == debit.accountId then t.amount as int else 0)
    {
      BalanceAfterAppend(entries, debit, a);
    }
  }

  /** Completing a PENDING transfer with a DEBIT on a source that covers it and
      then a CREDIT on the destination keeps both invariants; the source
      balance falls and the destination balance rises by the amount. */
  lemma CompleteTransferKeepsInvariants(accounts: map<nat, Account>, transactions: map<nat, Transaction>,
                                        entries: seq<LedgerEntry>, nextAccountId: nat, nextTransactionId: nat,
                                        clock: nat, t: Transaction, debit: LedgerEntry, credit: LedgerEntry)
    requires WellFormed(accounts, transactions, entries, nextAccountId, nextTransactionId, clock)
    requires Bookkept(accounts, transactions, entries)
    requires t.id in transactions && transactions[t.id].status == Pending
    requires t == transactions[t.id].(status := Completed)
    requires t.txType == Transfer && t.sourceAccountId == Some(debit.accountId)
    requires t.destinationAccountId == Some(credit.accountId)
    requires CalculateBalance(entries, debit.accountId) >= t.amount
    requires debit == LedgerEntry(|entries| + 1, debit.accountId, t.id, Debit, t.amount, clock)
    requires credit == LedgerEntry(|entries| + 2, credit.accountId, t.id, Credit, t.amount, clock + 1)
    ensures WellFormed(accounts, transactions[t.id := t], entries + [debit, credit],
                       nextAccountId, nextTransactionId, clock + 2)
    ensures Bookkept(accounts, transactions[t.id := t], entries + [debit, credit])
    ensures forall a :: CalculateBalance(entries + [debit, credit], a)
                        == CalculateBalance(entries, a)
                           - (if a == debit.accountId then t.amount as int else 0)
                           + (if a == credit.accountId then t.amount as int else 0)
  {
    assert RefersToAccounts(transactions[t.id], accounts);
    AppendEntryKeepsWellFormed(accounts, transactions, entries, nextAccountId, nextTransactionId, clock, debit);
    AppendEntryKeepsWellFormed(accounts, transactions, entries + [debit],
                               nextAccountId, nextTransactionId, clock + 1, credit);
    assert entries + [debit, credit] == (entries + [debit]) + [credit];
    StatusChangeKeepsWellFormed(accounts, transactions, entries + [debit, credit],
                                nextAccountId, nextTransactionId, clock + 2, t);
    SettlePreservesMatch(transactions, entries, t, [debit, credit]);
    AppendKeepsBalancesNonNegative(accounts, entries, debit);
    AppendKeepsBalancesNonNegative(accounts, entries + [debit], credit);
    forall a ensures CalculateBalance(entries + [debit, credit], a)
                     == CalculateBalance(entries, a)
                        - (if a == debit.accountId then t.amount as int else 0)
                        + (if a == credit.accountId then t.amount as int else 0)
    {
      BalanceAfterAppend(entries, debit, a);
      BalanceAfterAppend(entries + [debit], credit, a);
    }
  }

  /** A whole withdrawal or transfer rejected by the funds check: its record
      is saved PENDING and then rewritten FAILED, with no entries; both
      invariants survive. */
  lemma RejectionKeepsInvariants(accounts: map<nat, Account>, transactions: map<nat, Transaction>,
                                 entries: seq<LedgerEntry>, nextAccountId: nat, nextTransactionId: nat,
                                 clock: nat, t: Transaction)
    requires WellFormed(accounts, transactions, entries, nextAccountId, nextTransactionId, clock)
    requires Bookkept(accounts, transactions, entries)
    requires t.id == nextTransactionId && t.createdAt == clock && RefersToAccounts(t, accounts)
    requires t.status == Failed
    ensures WellFormed(accounts, transactions[t.id := t], entries, nextAccountId, nextTransactionId + 1, clock + 1)
    ensures Bookkept(accounts, transactions[t.id := t], entries)
  {
    var pending := t.(status := Pending);
    PendingKeepsInvariants(accounts, transactions, entries, nextAccountId, nextTransactionId, clock, pending);
    FailKeepsInvariants(accounts, transactions[t.id := pending], entries,
                        nextAccountId, nextTransactionId + 1, clock + 1, t);
    SaveOverwrites(transactions, t.id, pending, t);
  }

  /** A whole deposit: the record saved PENDING, one CREDIT on the destination,
      then COMPLETED; both invariants survive and only that balance moves. */
  lemma DepositKeepsInvariants(accounts: map<nat, Account>, transactions: map<nat, Transaction>,
                               entries: seq<LedgerEntry>, nextAccountId: nat, nextTransactionId: nat,
                               clock: nat, t: Transaction, credit: LedgerEntry)
    requires WellFormed(accounts, transactions, entries, nextAccountId, nextTransactionId, clock)
    requires Bookkept(accounts, transactions, entries)
    requires t.id == nextTransactionId && t.createdAt == clock && RefersToAccounts(t, accounts)
    requires t.status == Completed && t.txType == Deposit && t.destinationAccountId == Some(credit.accountId)
    requires credit == LedgerEntry(|entries| + 1, credit.accountId, t.id, Credit, t.amount, clock + 1)
    ensures WellFormed(accounts, transactions[t.id := t], entries + [credit],
                       nextAccountId, nextTransactionId + 1, clock + 2)
    ensures Bookkept(accounts, transactions[t.id := t], entries + [credit])
    ensures forall a :: CalculateBalance(entries + [credit], a)
                        == CalculateBalance(entries, a) + (if a == credit.accountId then t.amount as int else 0)
  {
    var pending := t.(status := Pending);
    PendingKeepsInvariants(accounts, transactions, entries, nextAccountId, nextTransactionId, clock, pending);
    CompleteDepositKeepsInvariants(accounts, transactions[t.id := pending], entries,
                                   nextAccountId, nextTransactionId + 1, clock + 1, t, credit);
    SaveOverwrites(transactions, t.id, pending, t);
  }

  /** A whole withdrawal that passes the funds check: the record saved
      PENDING, one DEBIT on the source, then COMPLETED; both invariants survive
      and only that balance moves. */
  lemma WithdrawalKeepsInvariants(accounts: map<nat, Account>, transactions: map<nat, Transaction>,
                                  entries: seq<LedgerEntry>, nextAccountId: nat, nextTransactionId: nat,
                                  clock: nat, t: Transaction, debit: LedgerEntry)
    requires WellFormed(accounts, transactions, entries, nextAccountId, nextTransactionId, clock)
    requires Bookkept(accounts, transactions, entries)
    requires t.id == nextTransactionId && t.createdAt == clock && RefersToAccounts(t, accounts)
    requires t.status == Completed && t.txType == Withdrawal && t.sourceAccountId == Some(debit.accountId)
    requires CalculateBalance(entries, debit.accountId) >= t.amount
    requires debit == LedgerEntry(|entries| + 1, debit.accountId, t.id, Debit, t.amount, clock + 1)
    ensures WellFormed(accounts, transactions[t.id := t], entries + [debit],
                       nextAccountId, nextTransactionId + 1, clock + 2)
    ensures Bookkept(accounts, transactions[t.id := t], entries + [debit])
    ensures forall a :: CalculateBalance(entries + [debit], a)
                        == CalculateBalance(entries, a) - (if a == debit.accountId then t.amount as int else 0)
  {
    var pending := t.(status := Pending);
    PendingKeepsInvariants(accounts, transactions, entries, nextAccountId, nextTransactionId, clock, pending);
    CompleteWithdrawalKeepsInvariants(accounts, transactions[t.id := pending], entries,
                                      nextAccountId, nextTransactionId + 1, clock + 1, t, debit);
    SaveOverwrites(transactions, t.id, pending, t);
  }

  /** Saving a record under a key twice leaves only the second save. */
  lemma SaveOverwrites(transactions: map<nat, Transaction>, id: nat, first: Transaction, second: Transaction)
    ensures transactions[id := first][id := second] == transactions[id := second]
  {
  }

  class Store {
    var accounts: map<nat, Account>
    var transactions: map<nat, Transaction>
    var entries: seq<LedgerEntry>
    var nextAccountId: nat
    var nextTransactionId: nat
    var clock: nat

    ghost predicate Valid()
      reads this
    {
      WellFormed(accounts, transactions, entries, nextAccountId, nextTransactionId, clock)
    }

    /** The invariant the services keep between calls. */
    ghost predicate Consistent()
      reads this
    {
      Valid() && Bookkept(accounts, transactions, entries)
    }

    /** An empty database. */
    constructor ()
      ensures Consistent()
      ensures accounts == map[] && transactions == map[] && entries == []
    {
      accounts, transactions, entries := map[], map[], [];
      nextAccountId, nextTransactionId, clock := 1, 1, 0;
    }
  }
}
