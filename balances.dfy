/**
 * The two reversal-aware balance folds as the server runs them: `calculateBalance`
 * (server/src/utils.ts:5-58) and `getDrawerBalance` (server/src/routes/drawer.ts:35-95). Both
 * start every listed face value at zero and then walk the entries, adding or subtracting counts
 * in place; each is proved to leave the counts that Ledger.UtilsBalance and
 * Ledger.DrawerBalance describe.
 */
module Balances {
  import opened Denominations
  import opened Ledger

  /** The face values a payload mentions. */
  function PayloadKeys(data: EntryData): set<int> {
    match data
    case Sale(_, _, paid, change) => paid.Keys + change.Keys
    case Deposit(_, amount) => amount.Keys
    case Withdrawal(_, amount) => amount.Keys
    case Reversal(_) => {}
  }

  /**
   * `for (const [denom, count] of Object.entries(amount)) balance[denom] += sign * count`:
   * every count of the amount is added, scaled by sign, and no other face value changes.
   */
  method AddCounts(balance: Amount, amount: Amount, sign: int) returns (b: Amount)
    ensures forall d :: d in b <==> d in balance || d in amount
    ensures forall d :: Count(b, d) == Count(balance, d) + sign * Count(amount, d)
  {
    b := balance;
    var todo := amount.Keys;
    while todo != {}
      invariant forall d | d in todo :: d in amount
      invariant PartlyAdded(b, balance, amount, sign, todo)
      decreases |todo|
    {
      NonEmpty(todo);
      var k :| k in todo;
      AddOne(b, balance, amount, sign, todo, k);
      b, todo := b[k := Count(b, k) + sign * amount[k]], todo - {k};
    }
  }

  /**
   * The counts of amount outside todo have been added to balance, scaled by sign, and exactly
   * those face values have been added as keys.
   */
  ghost predicate PartlyAdded(b: Amount, balance: Amount, amount: Amount, sign: int, todo: set<int>) {
    && (forall d :: d in b <==> d in balance || (d in amount && d !in todo))
    && (forall d :: Count(b, d) == Count(balance, d) + (if d in todo then 0 else sign * Count(amount, d)))
  }

  lemma AddOne(b: Amount, balance: Amount, amount: Amount, sign: int, todo: set<int>, k: int)
    requires PartlyAdded(b, balance, amount, sign, todo) && k in todo && k in amount
    ensures PartlyAdded(b[k := Count(b, k) + sign * amount[k]], balance, amount, sign, todo - {k})
  {
    var next := b[k := Count(b, k) + sign * amount[k]];
    forall d
      ensures Count(next, d) == Count(balance, d) + (if d in todo - {k} then 0 else sign * Count(amount, d))
    {
      if d != k {
        assert Count(next, d) == Count(b, d);
      }
    }
  }

  /**
   * One branch of the `switch (entry_type)`: applies a payload (sign 1) or undoes it (sign -1).
   * A deposit adds its amount, a withdrawal subtracts it, a sale adds what was paid and subtracts
   * the change given, and a reversal payload has no counts of its own.
   */
  method ApplyPayload(balance: Amount, data: EntryData, sign: int) returns (b: Amount)
    ensures forall d :: d in b <==> d in balance || d in PayloadKeys(data)
    ensures forall d :: Count(b, d) == Count(balance, d) + sign * OwnDelta(data, d)
  {
    match data
    case Deposit(_, amount) =>
      b := AddCounts(balance, amount, sign);
    case Withdrawal(_, amount) =>
      b := AddCounts(balance, amount, -sign);
    case Sale(_, _, paid, change) =>
      b := AddCounts(balance, paid, sign);
      b := AddCounts(b, change, -sign);
    case Reversal(_) =>
      b := balance;
  }

  /** Every listed face value at zero (`denominations.forEach(d => balance[d] = 0)`). */
  method Zeros(denominations: seq<int>) returns (balance: Amount)
    ensures forall d :: d in balance <==> d in denominations
    ensures forall d | d in balance :: balance[d] == 0
  {
    balance := map[];
    for j := 0 to |denominations|
      invariant forall d :: d in balance <==> d in denominations[..j]
      invariant forall d | d in balance :: balance[d] == 0
    {
      balance := balance[denominations[j] := 0];
    }
    assert denominations[..|denominations|] == denominations;
  }

  lemma PayloadKeysIn(data: EntryData, ds: seq<int>)
    requires DataKeysIn(data, ds)
    ensures forall k | k in PayloadKeys(data) :: k in ds
  {
  }

  /**
   * The body of both folds for one entry that is counted: a deposit, withdrawal or sale applies
   * its own payload, and a reversal undoes the payload of the entry the id index finds for it,
   * or changes nothing when the index has no such entry.
   */
  method ApplyEntry(balance: Amount, entry: LedgerEntry, entryMap: map<int, LedgerEntry>, denominations: seq<int>)
    returns (b: Amount)
    requires DataKeysIn(entry.data, denominations)
    requires forall o | o in entryMap :: DataKeysIn(entryMap[o].data, denominations)
    requires forall d :: d in balance <==> d in denominations
    ensures forall d :: d in b <==> d in denominations
    ensures forall d | d in denominations :: b[d] == balance[d] + UtilsDelta(entry, entryMap, d)
  {
    match entry.data
    case Reversal(o) =>
      if o in entryMap {
        var original := entryMap[o];
        PayloadKeysIn(original.data, denominations);
        b := ApplyPayload(balance, original.data, -1);
      } else {
        b := balance;
      }
    case _ =>
      PayloadKeysIn(entry.data, denominations);
      b := ApplyPayload(balance, entry.data, 1);
    forall d | d in denominations
      ensures b[d] == balance[d] + UtilsDelta(entry, entryMap, d)
    {
      assert Count(b, d) == b[d] && Count(balance, d) == balance[d];
    }
  }

  /**
   * `calculateBalance(entries, denominations)`: the result has exactly the listed face values as
   * keys, and each count is what the entries add up to, a reversal undoing the entry its
   * `original_entry_id` finds in the whole batch whether or not that entry is flagged reverted.
   */
  method CalculateBalance(entries: seq<LedgerEntry>, denominations: seq<int>) returns (balance: Amount)
    requires EntriesKeysIn(entries, denominations)
    ensures forall d :: d in balance <==> d in denominations
    ensures forall d | d in denominations :: balance[d] == UtilsBalance(entries, d)
  {
    balance := Zeros(denominations);
    var entryMap := IdIndex(entries);
    IdIndexContents(entries);
    for i := 0 to |entries|
      invariant forall d :: d in balance <==> d in denominations
      invariant forall d | d in denominations :: balance[d] == UtilsSum(entries[..i], entryMap, d)
    {
      UtilsSumStep(entries, i, entryMap);
      balance := ApplyEntry(balance, entries[i], entryMap, denominations);
    }
    assert entries[..|entries|] == entries;
  }

  /**
   * `getDrawerBalance(entries)`: the fixed face values as keys, each count what the entries not
   * flagged reverted add up to; a reversal still undoes the entry it points to.
   */
  method GetDrawerBalance(entries: seq<LedgerEntry>) returns (balance: Amount)
    requires EntriesKeysIn(entries, Denoms)
    ensures forall d :: d in balance <==> d in Denoms
    ensures forall d | d in Denoms :: balance[d] == DrawerBalance(entries, d)
  {
    balance := Zeros(Denoms);
    var entryMap := IdIndex(entries);
    IdIndexContents(entries);
    for i := 0 to |entries|
      invariant forall d :: d in balance <==> d in Denoms
      invariant forall d | d in Denoms :: balance[d] == DrawerSum(entries[..i], entryMap, d)
    {
      DrawerSumStep(entries, i, entryMap);
      if !entries[i].isReverted {
        balance := ApplyEntry(balance, entries[i], entryMap, Denoms);
      }
    }
    assert entries[..|entries|] == entries;
  }
}
