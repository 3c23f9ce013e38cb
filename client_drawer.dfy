/**
 * The drawer view of client/src/components/VirtualDrawer.tsx:19-48: the browser's own fold over
 * the instance's ledger listing, which knows only deposits and withdrawals, and the grand total
 * it shows next to the counts.
 */
module ClientDrawer {
  import opened Wrappers
  import opened Denominations
  import opened Ledger
  import opened Balances
  import Sales

  /**
   * A listing row as the component reads it: the entry type, the flag, and `data.amount || {}`
   * when the payload parses, or None when `JSON.parse` throws.
   */
  datatype ClientEntry = ClientEntry(entryType: EntryType, amount: Option<Amount>, isReverted: bool)

  /** The row the listing holds for a stored entry whose payload reads back. */
  function FromLedger(e: LedgerEntry): ClientEntry {
    ClientEntry(TypeOf(e.data), Some(Sales.AmountField(e.data)), e.isReverted)
  }

  function Rows(es: seq<LedgerEntry>): (rs: seq<ClientEntry>)
    ensures |rs| == |es| && forall i | 0 <= i < |es| :: rs[i] == FromLedger(es[i])
  {
    seq(|es|, i requires 0 <= i < |es| => FromLedger(es[i]))
  }

  /** A row the fold passes over: flagged reverted, unreadable, or neither deposit nor withdrawal. */
  predicate Skipped(e: ClientEntry) {
    e.isReverted || e.amount.None? || !(e.entryType == DepositType || e.entryType == WithdrawalType)
  }

  /** The change one row makes to the count of face value d. */
  function ClientDelta(e: ClientEntry, d: int): int {
    if Skipped(e) then 0
    else if e.entryType == DepositType then Count(e.amount.value, d)
    else -Count(e.amount.value, d)
  }

  function ClientSum(es: seq<ClientEntry>, d: int): int {
    if es == [] then 0 else ClientSum(es[..|es| - 1], d) + ClientDelta(es[|es| - 1], d)
  }

  /** The cash value one row moves: plus a deposit's value, minus a withdrawal's. */
  function RowCash(e: ClientEntry): int {
    if Skipped(e) then 0
    else if e.entryType == DepositType then Value(e.amount.value)
    else -Value(e.amount.value)
  }

  /** The net cash value the rows move, row by row. */
  function NetCash(es: seq<ClientEntry>): int {
    if es == [] then 0 else NetCash(es[..|es| - 1]) + RowCash(es[|es| - 1])
  }

  /** A readable amount is keyed by face values (an unknown key would turn a count into NaN). */
  predicate RowKeysIn(e: ClientEntry) {
    e.amount.Some? ==> KeysIn(e.amount.value, Denoms)
  }

  /**
   * `calculateBalance(entries)` of the component: every face value starts at zero, the rows are
   * folded in, and the grand total is the sum of face value times count over the result. The
   * counts are what ClientSum adds up and the total is the net cash the rows move.
   */
  method CalculateBalance(entries: seq<ClientEntry>) returns (balance: Amount, grandTotal: int)
    requires forall e | e in entries :: RowKeysIn(e)
    ensures forall d :: d in balance <==> d in Denoms
    ensures forall d | d in Denoms :: balance[d] == ClientSum(entries, d)
    ensures grandTotal == NetCash(entries)
  {
    balance := Zeros(Denoms);
    for i := 0 to |entries|
      invariant forall d :: d in balance <==> d in Denoms
      invariant forall d | d in Denoms :: balance[d] == ClientSum(entries[..i], d)
    {
      var entry := entries[i];
      assert entries[..i + 1][..i] == entries[..i];
      assert entry in entries;
      if !entry.isReverted && entry.amount.Some? {
        var amount := entry.amount.value;
        if entry.entryType == DepositType {
          balance := AddCounts(balance, amount, 1);
        } else if entry.entryType == WithdrawalType {
          balance := AddCounts(balance, amount, -1);
        }
      }
    }
    assert entries[..|entries|] == entries;
    grandTotal := Value(balance);
    GrandTotalIsNetCash(entries, balance);
  }

  /** The counts the fold leaves, as a map over the fixed face values. */
  function ClientCash(es: seq<ClientEntry>): (m: Amount)
    ensures forall d :: d in m <==> d in Denoms
  {
    map d | d in Denoms :: ClientSum(es, d)
  }

  /** The value of the folded counts is the net cash the rows move. */
  lemma {:induction false} ClientCashValue(es: seq<ClientEntry>)
    requires forall e | e in es :: RowKeysIn(e)
    ensures Value(ClientCash(es)) == NetCash(es)
  {
    if es == [] {
      ValueOverNoKeys(Denoms, map[]);
      ValueOverAgree(Denoms, ClientCash(es), map[]);
    } else {
      var init := es[..|es| - 1];
      var last := es[|es| - 1];
      assert forall e | e in init :: e in es;
      assert last in es;
      ClientCashValue(init);
      var before, after := ClientCash(init), ClientCash(es);
      if Skipped(last) {
        ValueOverAgree(Denoms, after, before);
      } else if last.entryType == DepositType {
        ValueOverAdd(Denoms, before, last.amount.value, after);
      } else {
        ValueOverAdd(Denoms, after, last.amount.value, before);
      }
    }
  }

  lemma GrandTotalIsNetCash(es: seq<ClientEntry>, balance: Amount)
    requires forall e | e in es :: RowKeysIn(e)
    requires forall d | d in Denoms :: d in balance && balance[d] == ClientSum(es, d)
    ensures Value(balance) == NetCash(es)
  {
    ValueOverAgree(Denoms, balance, ClientCash(es));
    ClientCashValue(es);
  }

  lemma {:induction false} ClientSumAppend(a: seq<ClientEntry>, b: seq<ClientEntry>, d: int)
    ensures ClientSum(a + b, d) == ClientSum(a, d) + ClientSum(b, d)
    decreases |b|
  {
    if b == [] {
      assert a + b == a;
    } else {
      assert (a + b)[..|a + b| - 1] == a + b[..|b| - 1];
      ClientSumAppend(a, b[..|b| - 1], d);
    }
  }

  // ---------------------------------------------------------------------------------------
  // The listing as the ledger route serves it

  /**
   * The row the component is actually given for a stored entry: the ledger route sends entries
   * whose `data` the store has already parsed into an object, and `JSON.parse` of an object
   * throws, so the row is read as one whose payload does not parse.
   */
  function Served(e: LedgerEntry): ClientEntry {
    ClientEntry(TypeOf(e.data), None, e.isReverted)
  }

  function ServedRows(es: seq<LedgerEntry>): (rs: seq<ClientEntry>)
    ensures |rs| == |es| && forall i | 0 <= i < |es| :: rs[i] == Served(es[i])
  {
    seq(|es|, i requires 0 <= i < |es| => Served(es[i]))
  }

  /**
   * As served, every row is skipped: on every ledger the view shows each count, and the grand
   * total, as zero.
   */
  lemma {:induction false} ServedDrawerIsEmpty(es: seq<LedgerEntry>, d: int)
    ensures ClientSum(ServedRows(es), d) == 0
    ensures NetCash(ServedRows(es)) == 0
  {
    if es != [] {
      var init := es[..|es| - 1];
      assert ServedRows(es)[..|es| - 1] == ServedRows(init);
      ServedDrawerIsEmpty(init, d);
    }
  }

  /**
   * One deposit of a single 1000-yen note: read from its payload the drawer holds that note,
   * as served it shows none.
   */
  lemma ServedHidesDeposit()
    ensures var es := [LedgerEntry(1, "pos-1", Deposit("clerk", map[1000 := 1]), false)];
      ClientSum(Rows(es), 1000) == 1 && ClientSum(ServedRows(es), 1000) == 0
  {
    var es := [LedgerEntry(1, "pos-1", Deposit("clerk", map[1000 := 1]), false)];
    assert Rows(es)[..0] == [];
    assert ServedRows(es)[..0] == [];
  }

  /**
   * A row that is flagged reverted, whose payload does not parse, or that is a sale or a
   * reversal changes no count, wherever it sits among the others.
   */
  lemma SkippedRowChangesNothing(a: seq<ClientEntry>, x: ClientEntry, b: seq<ClientEntry>)
    requires Skipped(x)
    ensures forall d :: ClientSum(a + [x] + b, d) == ClientSum(a + b, d)
  {
    forall d
      ensures ClientSum(a + [x] + b, d) == ClientSum(a + b, d)
    {
      ClientSumAppend(a + [x], b, d);
      ClientSumAppend(a, [x], d);
      ClientSumAppend(a, b, d);
      assert [x][..0] == [];
    }
  }

  /**
   * On every ledger the client's fold gives the same counts as the fold the sale route
   * (server/src/routes/sales.ts:50-59) builds for itself.
   */
  lemma {:induction false} ClientMatchesSaleRoute(es: seq<LedgerEntry>, d: int)
    ensures ClientSum(Rows(es), d) == Sales.SaleRouteSum(es, d)
  {
    if es != [] {
      var init := es[..|es| - 1];
      assert Rows(es)[..|es| - 1] == Rows(init);
      ClientMatchesSaleRoute(init, d);
    }
  }

  /**
   * On ledgers holding only deposits and withdrawals the client's counts are those of the
   * server's `getDrawerBalance`.
   */
  lemma ClientAgreesOnCashMoves(es: seq<LedgerEntry>, d: int)
    requires forall e | e in es :: e.data.Deposit? || e.data.Withdrawal?
    ensures ClientSum(Rows(es), d) == DrawerBalance(es, d)
  {
    ClientMatchesSaleRoute(es, d);
    Sales.SaleRouteAgreesOnCashMoves(es, IdIndex(es), d);
  }
}
