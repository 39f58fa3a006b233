/** The two queries of the ledger entry repository, over the ledger as
    the sequence of its entries in insertion order: the derived balance
    (a SQL SUM with COALESCE) and the per-account history. */
module LedgerEntryRepository {
  import opened Outcomes
  import opened LedgerEntryModel

  /** Entries appear in non-decreasing order of creation time: each entry is
      no older than any entry before it. */
  predicate CreatedInOrder(s: seq<LedgerEntry>)
  {
    s == []
    || (&& CreatedInOrder(s[..|s| - 1])
        && forall i :: 0 <= i < |s| - 1 ==> s[i].createdAt <= s[|s| - 1].createdAt)
  }

  /** In a sequence created in order, every earlier entry is no younger than
      every later one. */
  lemma {:induction false} CreatedInOrderPairwise(s: seq<LedgerEntry>)
    requires CreatedInOrder(s)
    ensures forall i, j :: 0 <= i < j < |s| ==> s[i].createdAt <= s[j].createdAt
  {
    if s != [] {
      var prefix := s[..|s| - 1];
      CreatedInOrderPairwise(prefix);
      assert forall i :: 0 <= i < |prefix| ==> prefix[i] == s[i];
    }
  }

  /** `findAllByAccountIdOrderByCreatedAtAsc`: the entries of one account,
      kept in ledger order. */
  function History(entries: seq<LedgerEntry>, accountId: nat): (h: seq<LedgerEntry>)
    ensures |h| <= |entries|
    ensures multiset(h) <= multiset(entries)
    ensures forall e :: e in h <==> e in entries && e.accountId == accountId
  {
    if entries == [] then []
    else
      var prefix := History(entries[..|entries| - 1], accountId);
      var last := entries[|entries| - 1];
      assert entries == entries[..|entries| - 1] + [last];
      assert forall e :: e in entries <==> e in entries[..|entries| - 1] || e == last;
      if last.accountId == accountId then prefix + [last] else prefix
  }

  /** No entry of the ledger belongs to the account. */
  predicate NoEntriesFor(entries: seq<LedgerEntry>, accountId: nat)
  {
    forall i :: 0 <= i < |entries| ==> entries[i].accountId != accountId
  }

  /** An account without entries has an empty history. */
  lemma {:induction false} HistoryWithoutEntries(entries: seq<LedgerEntry>, accountId: nat)
    requires NoEntriesFor(entries, accountId)
    ensures History(entries, accountId) == []
  {
    if entries != [] {
      HistoryWithoutEntries(entries[..|entries| - 1], accountId);
    }
  }

  /** `SUM(CASE WHEN type = 'CREDIT' THEN amount ELSE -amount END)` over the
      rows of one account: SQL yields NULL when no row matches. */
  function SumOfSigned(entries: seq<LedgerEntry>, accountId: nat): (r: Option<int>)
    ensures NoEntriesFor(entries, accountId) ==> r.None?
  {
    if entries == [] then None
    else
      var last := entries[|entries| - 1];
      var prefix := SumOfSigned(entries[..|entries| - 1], accountId);
      if last.accountId != accountId then prefix
      else match prefix
        case None => Some(SignedAmount(last))
        case Some(s) => Some(s + SignedAmount(last))
  }

  /** `calculateBalance`: the signed sum of the account's entries, COALESCEd
      to zero, so it is never absent and is exactly 0 without entries. */
  function CalculateBalance(entries: seq<LedgerEntry>, accountId: nat): (r: int)
    ensures NoEntriesFor(entries, accountId) ==> r == 0
  {
    match SumOfSigned(entries, accountId)
    case None => 0
    case Some(s) => s
  }

  /** The SQL sum is NULL exactly when the account has no entries. */
  lemma {:induction false} SumIsNullIffNoEntries(entries: seq<LedgerEntry>, accountId: nat)
    ensures SumOfSigned(entries, accountId).None? <==> NoEntriesFor(entries, accountId)
  {
    if entries != [] {
      var prefix := entries[..|entries| - 1];
      SumIsNullIffNoEntries(prefix, accountId);
      assert forall i :: 0 <= i < |prefix| ==> prefix[i] == entries[i];
    }
  }

  /** An account without entries has balance exactly 0. */
  lemma BalanceWithoutEntries(entries: seq<LedgerEntry>, accountId: nat)
    requires NoEntriesFor(entries, accountId)
    ensures CalculateBalance(entries, accountId) == 0
    ensures History(entries, accountId) == []
  {
    SumIsNullIffNoEntries(entries, accountId);
    HistoryWithoutEntries(entries, accountId);
  }

  /** The reference definition of a balance: the signed amounts of a history,
      added up from the first entry to the last. */
  function SumOf(history: seq<LedgerEntry>): int
  {
    if history == [] then 0 else SignedAmount(history[0]) + SumOf(history[1..])
  }

  lemma {:induction false} SumOfAppend(h: seq<LedgerEntry>, e: LedgerEntry)
    ensures SumOf(h + [e]) == SumOf(h) + SignedAmount(e)
  {
    if h == [] {
      assert h + [e] == [e];
    } else {
      assert (h + [e])[1..] == h[1..] + [e];
      SumOfAppend(h[1..], e);
    }
  }

  /** Appending one entry moves the balance of its own account by exactly the
      entry's signed amount and leaves every other account's balance alone. */
  lemma BalanceAfterAppend(entries: seq<LedgerEntry>, e: LedgerEntry, accountId: nat)
    ensures CalculateBalance(entries + [e], accountId)
         == CalculateBalance(entries, accountId) + (if e.accountId == accountId then SignedAmount(e) else 0)
  {
  }

  /** Appending one entry extends its own account's history by that entry
      and leaves every other history alone. */
  lemma HistoryAfterAppend(entries: seq<LedgerEntry>, e: LedgerEntry, accountId: nat)
    ensures History(entries + [e], accountId)
         == History(entries, accountId) + (if e.accountId == accountId then [e] else [])
  {
  }

  /** The balance is the fold of the signed amounts over the account's history. */
  lemma {:induction false} BalanceIsSumOfHistory(entries: seq<LedgerEntry>, accountId: nat)
    ensures CalculateBalance(entries, accountId) == SumOf(History(entries, accountId))
  {
    if entries != [] {
      var prefix := entries[..|entries| - 1];
      var last := entries[|entries| - 1];
      assert entries == prefix + [last];
      BalanceIsSumOfHistory(prefix, accountId);
      BalanceAfterAppend(prefix, last, accountId);
      HistoryAfterAppend(prefix, last, accountId);
      if last.accountId == accountId {
        SumOfAppend(History(prefix, accountId), last);
      }
    }
  }

  /** The history of an account lists its entries in non-decreasing creation
      order whenever the ledger does. */
  lemma {:induction false} HistoryCreatedInOrder(entries: seq<LedgerEntry>, accountId: nat)
    requires CreatedInOrder(entries)
    ensures CreatedInOrder(History(entries, accountId))
  {
    if entries != [] {
      var prefix := entries[..|entries| - 1];
      var last := entries[|entries| - 1];
      HistoryCreatedInOrder(prefix, accountId);
      var h := History(prefix, accountId);
      if last.accountId == accountId {
        assert (h + [last])[..|h|] == h;
        forall i | 0 <= i < |h| ensures h[i].createdAt <= last.createdAt {
          assert h[i] in prefix;
        }
      }
    }
  }
}
