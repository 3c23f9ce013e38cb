/**
 * The sale route of server/src/routes/sales.ts: `calculateChange` (lines 7-29) and the handler
 * body (lines 39-79) without its HTTP and database plumbing.
 */
module Sales {
  import opened Wrappers
  import opened Denominations
  import opened ChangeMaking
  import opened Ledger
  import opened Balances
  import opened LedgerStore
  import opened Catalog

  datatype SaleError = InsufficientPayment | InsufficientChange

  /**
   * `calculateChange(drawerBalance, changeDue)`: the greedy pass over the fixed face values,
   * largest first, taking `min(floor(remaining / d), drawerBalance[d] || 0)` of each. It fails
   * exactly when something is left over; otherwise the change pays `changeDue` exactly, uses
   * only counts the drawer holds, and is empty when nothing is due.
   */
  method CalculateChange(drawerBalance: Amount, changeDue: int) returns (r: Result<Amount, SaleError>)
    ensures var g := ChangeFor(drawerBalance, changeDue);
      r == if g.1 > 0 then Failure(InsufficientChange) else Success(g.0)
    ensures changeDue >= 0 && r.Success? ==> Value(r.value) == changeDue
    ensures changeDue <= 0 ==> r == Success(map[])
    ensures r.Success? ==> forall k | k in r.value :: k in Denoms && 0 < r.value[k] <= Count(drawerBalance, k)
  {
    DenomsFacts();
    // The source sorts the literal list in descending order, which leaves it as it is
    // (Denominations.DenomsSorted).
    var denominations := Denoms;
    var remaining := changeDue;
    var changeToGive: Amount := map[];
    assert denominations[0..] == denominations;
    for i := 0 to |denominations|
      invariant AllPositive(denominations[i..])
      invariant Run(denominations[i..], drawerBalance, remaining, changeToGive)
             == Run(denominations, drawerBalance, changeDue, map[])
    {
      RunStep(denominations, i, drawerBalance, remaining, changeToGive);
      var denom := denominations[i];
      var countNeeded := remaining / denom;
      var countAvailable := Count(drawerBalance, denom);
      var countToUse := Min(countNeeded, countAvailable);
      if countToUse > 0 {
        changeToGive := changeToGive[denom := countToUse];
        remaining := remaining - countToUse * denom;
      }
    }
    assert denominations[|denominations|..] == [];
    assert ChangeFor(drawerBalance, changeDue) == (changeToGive, remaining);
    if remaining > 0 {
      r := Failure(InsufficientChange);
    } else {
      r := Success(changeToGive);
    }
  }

  // ---------------------------------------------------------------------------------------
  // The balance the route builds for itself (lines 50-59)

  /**
   * One entry's effect in the route's own fold: reverted entries are skipped, and `data.amount`
   * is added for a deposit and subtracted for every other type; a sale or a reversal has no
   * `amount` and adds nothing.
   */
  function SaleRouteDelta(e: LedgerEntry, d: int): int {
    if e.isReverted then 0 else
      match e.data
      case Deposit(_, amount) => Count(amount, d)
      case Withdrawal(_, amount) => -Count(amount, d)
      case _ => 0
  }

  function SaleRouteSum(es: seq<LedgerEntry>, d: int): int {
    if es == [] then 0 else SaleRouteSum(es[..|es| - 1], d) + SaleRouteDelta(es[|es| - 1], d)
  }

  /** `data.amount || {}`. */
  function AmountField(data: EntryData): Amount {
    match data
    case Deposit(_, amount) => amount
    case Withdrawal(_, amount) => amount
    case _ => map[]
  }

  /**
   * The `ledgerEntries.forEach(...)` that builds `drawerBalance` in the sale route: each count is
   * what the route's fold adds up, and only face values the entries mention appear as keys.
   */
  method SaleRouteBalance(entries: seq<LedgerEntry>) returns (drawerBalance: Amount)
    ensures forall d :: Count(drawerBalance, d) == SaleRouteSum(entries, d)
    ensures EntriesKeysIn(entries, Denoms) ==> KeysIn(drawerBalance, Denoms)
  {
    drawerBalance := map[];
    for i := 0 to |entries|
      invariant forall d :: Count(drawerBalance, d) == SaleRouteSum(entries[..i], d)
      invariant EntriesKeysIn(entries, Denoms) ==> KeysIn(drawerBalance, Denoms)
    {
      var entry := entries[i];
      assert entries[..i + 1][..i] == entries[..i];
      assert entry in entries;
      if !entry.isReverted {
        var amount := AmountField(entry.data);
        var multiplier := if entry.data.Deposit? then 1 else -1;
        drawerBalance := AddCounts(drawerBalance, amount, multiplier);
      }
    }
    assert entries[..|entries|] == entries;
  }

  /**
   * On ledgers holding only deposits and withdrawals the route's fold agrees with
   * `getDrawerBalance`; the two part ways only on sales and reversals.
   */
  lemma {:induction false} SaleRouteAgreesOnCashMoves(es: seq<LedgerEntry>, index: map<int, LedgerEntry>, d: int)
    requires forall e | e in es :: e.data.Deposit? || e.data.Withdrawal?
    ensures SaleRouteSum(es, d) == DrawerSum(es, index, d)
  {
    if es != [] {
      assert forall e | e in es[..|es| - 1] :: e in es;
      assert es[|es| - 1] in es;
      SaleRouteAgreesOnCashMoves(es[..|es| - 1], index, d);
    }
  }

  /**
   * The route's fold ignores the cash of earlier sales. After a deposit of one 500-yen coin and
   * a sale that took a 1000-yen note and gave that coin back as change, the fold still counts
   * the coin and no note, while the ledger's cash (`calculateBalance`) has the note and no coin.
   */
  lemma SaleRouteMissesSaleCash()
    ensures var es := [
        LedgerEntry(1, "pos", Deposit("owner", map[500 := 1]), false),
        LedgerEntry(2, "pos", Sale([7], 500, map[1000 := 1], map[500 := 1]), false)
      ];
      && SaleRouteSum(es, 500) == 1 && SaleRouteSum(es, 1000) == 0
      && UtilsBalance(es, 500) == 0 && UtilsBalance(es, 1000) == 1
  {
    var es := [
      LedgerEntry(1, "pos", Deposit("owner", map[500 := 1]), false),
      LedgerEntry(2, "pos", Sale([7], 500, map[1000 := 1], map[500 := 1]), false)
    ];
    assert es[..1] == [es[0]];
    assert es[..1][..0] == [];
    var index := IdIndex(es);
    assert IdIndex(es[..1]) == IdIndex([])[1 := es[0]];
    assert index == IdIndex(es[..1])[2 := es[1]];
    assert Count(map[500 := 1], 1000) == 0;
    assert UtilsSum(es[..1], index, 500) == 1;
    assert UtilsSum(es[..1], index, 1000) == 0;
  }

  // ---------------------------------------------------------------------------------------
  // The handler

  /** The drawer the change is taken from: the ledger's cash plus the tender just received. */
  function DrawerWithTender(entries: seq<LedgerEntry>, paidAmount: Amount): (m: Amount)
    ensures forall d :: d in m <==> d in Denoms
  {
    map d | d in Denoms :: UtilsBalance(entries, d) + Count(paidAmount, d)
  }

  /**
   * Lines 49-64: the drawer from the instance's ledger, then `drawerBalance[d] += count` for each
   * count of the tender.
   */
  method TenderedDrawer(entries: seq<LedgerEntry>, paidAmount: Amount) returns (drawerBalance: Amount)
    requires KeysIn(paidAmount, Denoms) && EntriesKeysIn(entries, Denoms)
    ensures forall d :: d in drawerBalance <==> d in Denoms
    ensures forall d | d in Denoms :: drawerBalance[d] == UtilsBalance(entries, d) + Count(paidAmount, d)
  {
    var ledgerCash := CalculateBalance(entries, Denoms);
    drawerBalance := AddCounts(ledgerCash, paidAmount, 1);
    forall d | d in Denoms
      ensures drawerBalance[d] == UtilsBalance(entries, d) + Count(paidAmount, d)
    {
      assert Count(drawerBalance, d) == drawerBalance[d];
      assert Count(ledgerCash, d) == ledgerCash[d];
    }
  }

  /**
   * What the handler computes before it writes: InsufficientPayment when the tender is worth less
   * than the cart, otherwise the greedy change for the difference from the ledger's cash plus the
   * tender, or InsufficientChange when that pass leaves something over.
   */
  ghost function SaleOutcome(entries: seq<LedgerEntry>, cart: seq<Product>, paidAmount: Amount): Result<Amount, SaleError> {
    if ChangeDue(cart, paidAmount) < 0 then Failure(InsufficientPayment)
    else SaleChange(ChangeFor(DrawerWithTender(entries, paidAmount), ChangeDue(cart, paidAmount)))
  }

  /** `changeDue = totalPaid - totalPrice`, with `totalPaid` the value of the tender. */
  function ChangeOwed(paidAmount: Amount, totalPrice: int): int {
    Value(paidAmount) - totalPrice
  }

  /** The change due on a cart: the tender's value less the cart total. */
  function ChangeDue(cart: seq<Product>, paidAmount: Amount): int {
    ChangeOwed(paidAmount, CartTotal(cart))
  }

  /** The change of a greedy pass, or InsufficientChange when it leaves something over. */
  function SaleChange(g: (Amount, int)): Result<Amount, SaleError> {
    if g.1 > 0 then Failure(InsufficientChange) else Success(g.0)
  }

  /**
   * Lines 42-64 and the `calculateChange` call. The sale fails with InsufficientPayment exactly
   * when the tender is worth less than the cart, and with InsufficientChange exactly when the
   * greedy pass over the ledger's cash plus the tender leaves something over. On success the
   * change pays the difference exactly, from counts that drawer holds.
   */
  method PrepareSale(entries: seq<LedgerEntry>, cart: seq<Product>, paidAmount: Amount)
    returns (r: Result<Amount, SaleError>)
    requires KeysIn(paidAmount, Denoms) && EntriesKeysIn(entries, Denoms)
    ensures r == SaleOutcome(entries, cart, paidAmount)
    ensures r == Failure(InsufficientPayment) <==> Value(paidAmount) < CartTotal(cart)
    ensures r == Failure(InsufficientChange) <==>
      ChangeDue(cart, paidAmount) >= 0 &&
      ChangeFor(DrawerWithTender(entries, paidAmount), ChangeDue(cart, paidAmount)).1 > 0
    ensures r.Success? ==> Value(r.value) == Value(paidAmount) - CartTotal(cart)
    ensures r.Success? ==> forall k | k in r.value ::
      k in Denoms && 0 < r.value[k] <= UtilsBalance(entries, k) + Count(paidAmount, k)
  {
    var totalPrice := CartTotal(cart);
    var totalPaid := Value(paidAmount);
    var changeDue := totalPaid - totalPrice;
    if changeDue < 0 {
      return Failure(InsufficientPayment);
    }
    var drawerBalance := TenderedDrawer(entries, paidAmount);
    ghost var tendered := DrawerWithTender(entries, paidAmount);
    forall d | d in Denoms
      ensures Count(drawerBalance, d) == Count(tendered, d)
    {
      assert d in tendered && d in drawerBalance;
    }
    ChangeForAgree(drawerBalance, tendered, changeDue);
    r := CalculateChange(drawerBalance, changeDue);
    ghost var g := ChangeFor(tendered, changeDue);
    assert ChangeFor(drawerBalance, changeDue) == g;
    assert changeDue == ChangeDue(cart, paidAmount);
    assert SaleOutcome(entries, cart, paidAmount) == SaleChange(g);
  }

  /**
   * The sale route: the outcome is the handler's decision over this instance's rows as they stood
   * before the call; on success exactly one sale row is appended in the instance and the change is
   * returned; on failure the store is left as it was.
   */
  method FinalizeSale(store: Store, posInstanceId: string, cart: seq<Product>, paidAmount: Amount)
    returns (r: Result<Amount, SaleError>)
    requires store.Valid() && KeysIn(paidAmount, Denoms) && EntriesKeysIn(store.rows, Denoms)
    modifies store
    ensures store.Valid()
    ensures r == SaleOutcome(NewestFirst(old(store.rows), posInstanceId), cart, paidAmount)
    ensures r.Failure? ==> store.rows == old(store.rows) && store.nextId == old(store.nextId)
    ensures r.Success? ==>
      && store.nextId == old(store.nextId) + 1
      && store.rows == old(store.rows) +
           [LedgerEntry(old(store.nextId), posInstanceId, Sale(CartIds(cart), CartTotal(cart), paidAmount, r.value), false)]
      && Value(r.value) == Value(paidAmount) - CartTotal(cart)
  {
    var entries := store.ListByInstance(posInstanceId);
    assert EntriesKeysIn(entries, Denoms);
    var changeGiven := PrepareSale(entries, cart, paidAmount);
    if changeGiven.Failure? {
      return changeGiven;
    }
    var saleData := Sale(CartIds(cart), CartTotal(cart), paidAmount, changeGiven.value);
    var entry := store.CreateLedgerEntry(posInstanceId, saleData);
    r := changeGiven;
  }

  /**
   * A recorded sale whose change came from the drawer plus the tender never takes any count of
   * the ledger's cash below zero.
   */
  lemma SaleKeepsCountsNonNegative(es: seq<LedgerEntry>, e: LedgerEntry, d: int)
    requires e.data.Sale? && NoReversalOf(es, e.id)
    requires UtilsBalance(es, d) + Count(e.data.paidAmount, d) >= 0
    requires d in e.data.changeGiven ==> e.data.changeGiven[d] <= UtilsBalance(es, d) + Count(e.data.paidAmount, d)
    ensures UtilsBalance(es + [e], d) >= 0
  {
    UtilsBalanceAppendPayload(es, e, d);
  }
}
