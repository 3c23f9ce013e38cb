/**
 * The payout routes of server/src/routes/drawer.ts: `calculateOptimalPayout` (lines 4-33), the
 * seller route (lines 99-125) and the depositor route (lines 127-150), without their HTTP
 * plumbing. Both routes total what is owed and then propose notes and coins for it from the
 * instance's drawer, largest first.
 */
module Payouts {
  import opened Wrappers
  import opened Denominations
  import opened ChangeMaking
  import opened Ledger
  import opened Balances
  import opened Catalog

  datatype PayoutError =
    | InsufficientFunds(have: int, need: int)
    | NoExactPayout(remaining: int)

  /** What a route sends on success: the total owed and the suggested notes and coins. */
  datatype Payout = Payout(totalAmount: int, suggestedPayout: Amount)

  /** Every key of the drawer is a positive face value, so dividing by it is defined. */
  predicate PositiveKeys(drawer: Amount) {
    forall d | d in drawer :: d > 0
  }

  /** `Object.keys(drawerBalance).map(Number).sort((a, b) => b - a)`. */
  function DrawerDenoms(drawer: Amount): (ds: seq<int>)
    requires PositiveKeys(drawer)
    ensures AllPositive(ds) && Distinct(ds) && Descending(ds)
    ensures forall d :: d in ds <==> d in drawer
  {
    var ds := SortDesc(drawer.Keys);
    assert forall i | 0 <= i < |ds| :: ds[i] in drawer;
    ds
  }

  /** `totalInDrawer`: the value of every count in the drawer. */
  function DrawerTotal(drawer: Amount): int
    requires PositiveKeys(drawer)
  {
    ValueOver(DrawerDenoms(drawer), drawer)
  }

  /**
   * The greedy pass of `calculateOptimalPayout` over the drawer's own face values: the recorded
   * counts and what is left over. The counts and the leftover make up the amount exactly, the
   * leftover is never negative nor more than the amount, nothing is paid for an amount of zero
   * or less, and each face value paid is in the drawer and no more than its count.
   */
  function PayoutPlan(drawer: Amount, amount: int): (r: (Amount, int))
    requires PositiveKeys(drawer)
    ensures ValueOver(DrawerDenoms(drawer), r.0) + r.1 == amount
    ensures amount >= 0 ==> 0 <= r.1 <= amount
    ensures amount <= 0 ==> r == (map[], amount)
    ensures forall k | k in r.0 :: k in drawer && 0 < r.0[k] <= drawer[k]
  {
    Greedy(DrawerDenoms(drawer), drawer, amount)
  }

  /** What `calculateOptimalPayout` returns or throws. */
  function PayoutResult(drawer: Amount, amount: int): Result<Amount, PayoutError>
    requires PositiveKeys(drawer)
  {
    if DrawerTotal(drawer) < amount then Failure(InsufficientFunds(DrawerTotal(drawer), amount))
    else PlanOutcome(PayoutPlan(drawer, amount))
  }

  /** The recorded counts, or NoExactPayout when the pass leaves something over. */
  function PlanOutcome(plan: (Amount, int)): Result<Amount, PayoutError> {
    if plan.1 > 0 then Failure(NoExactPayout(plan.1)) else Success(plan.0)
  }

  /**
   * `calculateOptimalPayout(drawerBalance, amountToPay)`. It throws InsufficientFunds exactly
   * when the drawer is worth less than the amount, and otherwise NoExactPayout exactly when the
   * greedy pass leaves something over. A payout it returns pays the amount exactly when the
   * amount is not negative, and takes from each face value at least one and at most its count.
   */
  method CalculateOptimalPayout(drawerBalance: Amount, amountToPay: int) returns (r: Result<Amount, PayoutError>)
    requires PositiveKeys(drawerBalance)
    ensures r == PayoutResult(drawerBalance, amountToPay)
    ensures r == Failure(InsufficientFunds(DrawerTotal(drawerBalance), amountToPay)) <==>
      DrawerTotal(drawerBalance) < amountToPay
    ensures r.Success? ==> amountToPay >= 0 ==> ValueOver(DrawerDenoms(drawerBalance), r.value) == amountToPay
    ensures r.Success? ==> forall k | k in r.value :: k in drawerBalance && 0 < r.value[k] <= drawerBalance[k]
  {
    var denominations := DrawerDenoms(drawerBalance);
    var totalInDrawer := ValueOver(denominations, drawerBalance);
    if totalInDrawer < amountToPay {
      r := Failure(InsufficientFunds(totalInDrawer, amountToPay));
    } else {
      var payout, remaining := PayoutLoop(denominations, drawerBalance, amountToPay);
      assert PayoutPlan(drawerBalance, amountToPay) == (payout, remaining);
      if remaining > 0 {
        r := Failure(NoExactPayout(remaining));
      } else {
        r := Success(payout);
      }
    }
  }

  /**
   * Lines 14-27: the pass over the sorted face values with a working copy of the drawer. A face
   * value with nothing available is skipped, and a count is recorded only when it is positive.
   */
  method PayoutLoop(denominations: seq<int>, drawerBalance: Amount, amountToPay: int)
    returns (payout: Amount, remaining: int)
    requires AllPositive(denominations) && Distinct(denominations)
    ensures (payout, remaining) == Run(denominations, drawerBalance, amountToPay, map[])
  {
    remaining := amountToPay;
    payout := map[];
    var tempDrawer := drawerBalance;
    assert denominations[0..] == denominations;
    for i := 0 to |denominations|
      invariant forall j | i <= j < |denominations| ::
        Count(tempDrawer, denominations[j]) == Count(drawerBalance, denominations[j])
      invariant forall j | i <= j < |denominations| :: denominations[j] !in payout
      invariant Run(denominations[i..], drawerBalance, remaining, payout)
             == Run(denominations, drawerBalance, amountToPay, map[])
    {
      RunStep(denominations, i, drawerBalance, remaining, payout);
      var denom := denominations[i];
      var countAvailable := Count(tempDrawer, denom);
      if countAvailable > 0 {
        var countToUse := Min(remaining / denom, countAvailable);
        if countToUse > 0 {
          payout := payout[denom := Count(payout, denom) + countToUse];
          tempDrawer := tempDrawer[denom := tempDrawer[denom] - countToUse];
          remaining := remaining - countToUse * denom;
        }
      }
    }
    assert denominations[|denominations|..] == [];
  }

  /**
   * On a drawer keyed by exactly the fixed face values, as the balance folds build it, the payout
   * pass is the sale route's change pass: the sorted keys are the fixed list, the drawer's total
   * is its value, and the plan is the change for the same amount.
   */
  lemma PayoutIsChange(drawer: Amount, amount: int)
    requires forall d :: d in drawer <==> d in Denoms
    ensures PositiveKeys(drawer)
    ensures DrawerDenoms(drawer) == Denoms
    ensures DrawerTotal(drawer) == Value(drawer)
    ensures PayoutPlan(drawer, amount) == ChangeFor(drawer, amount)
  {
    DenomsFacts();
    assert forall d | d in drawer :: d > 0 by {
      forall d | d in drawer
        ensures d > 0
      {
        var i :| 0 <= i < |Denoms| && Denoms[i] == d;
      }
    }
    DenomsSorted(drawer.Keys);
  }

  // ---------------------------------------------------------------------------------------
  // The seller route

  /**
   * `sellerProducts.forEach(p => sellerProductMap.set(p.id, p))`: products by id, a later product
   * with the same id replacing an earlier one.
   */
  function ProductIndex(products: seq<Product>): map<int, Product> {
    if products == [] then map[]
    else
      var last := products[|products| - 1];
      ProductIndex(products[..|products| - 1])[last.id := last]
  }

  /**
   * The index holds exactly the ids of the products; each entry is one of the products with that
   * id, and a product no later product shares its id with is the one kept.
   */
  lemma {:induction false} ProductIndexContents(products: seq<Product>)
    ensures forall id :: id in ProductIndex(products) <==> exists p | p in products :: p.id == id
    ensures forall id | id in ProductIndex(products) ::
      ProductIndex(products)[id] in products && ProductIndex(products)[id].id == id
    ensures forall i | 0 <= i < |products| && (forall j | i < j < |products| :: products[j].id != products[i].id) ::
      ProductIndex(products)[products[i].id] == products[i]
  {
    if products != [] {
      var n := |products|;
      var init := products[..n - 1];
      var last := products[n - 1];
      ProductIndexContents(init);
      assert products == init + [last];
      forall i | 0 <= i < n && (forall j | i < j < n :: products[j].id != products[i].id)
        ensures ProductIndex(products)[products[i].id] == products[i]
      {
        if i < n - 1 {
          assert products[i] == init[i];
          forall j | i < j < n - 1
            ensures init[j].id != init[i].id
          {
            assert init[j] == products[j];
          }
        }
      }
    }
  }

  /** The loop that builds the product map. */
  method SellerProductMap(sellerProducts: seq<Product>) returns (m: map<int, Product>)
    ensures m == ProductIndex(sellerProducts)
  {
    m := map[];
    for i := 0 to |sellerProducts|
      invariant m == ProductIndex(sellerProducts[..i])
    {
      assert sellerProducts[..i + 1][..i] == sellerProducts[..i];
      m := m[sellerProducts[i].id := sellerProducts[i]];
    }
    assert sellerProducts[..|sellerProducts|] == sellerProducts;
  }

  /** The prices of the listed product ids that belong to the seller; other ids add nothing. */
  function ItemsTotal(productIds: seq<int>, index: map<int, Product>): int {
    if productIds == [] then 0
    else
      var id := productIds[|productIds| - 1];
      ItemsTotal(productIds[..|productIds| - 1], index) + (if id in index then index[id].price else 0)
  }

  /** `totalSales`: the seller's items over the sales not flagged reverted. */
  function SellerSales(entries: seq<LedgerEntry>, index: map<int, Product>): int {
    if entries == [] then 0
    else
      var e := entries[|entries| - 1];
      SellerSales(entries[..|entries| - 1], index)
        + (if e.data.Sale? && !e.isReverted then ItemsTotal(e.data.products, index) else 0)
  }

  /** Lines 106-117: the outer loop over the entries and the inner loop over each sale's ids. */
  method SellerTotal(ledgerEntries: seq<LedgerEntry>, sellerProductMap: map<int, Product>) returns (totalSales: int)
    ensures totalSales == SellerSales(ledgerEntries, sellerProductMap)
  {
    totalSales := 0;
    for i := 0 to |ledgerEntries|
      invariant totalSales == SellerSales(ledgerEntries[..i], sellerProductMap)
    {
      var entry := ledgerEntries[i];
      assert ledgerEntries[..i + 1][..i] == ledgerEntries[..i];
      if entry.data.Sale? && !entry.isReverted {
        var products := entry.data.products;
        var itemSum := 0;
        for k := 0 to |products|
          invariant itemSum == ItemsTotal(products[..k], sellerProductMap)
        {
          assert products[..k + 1][..k] == products[..k];
          var productId := products[k];
          if productId in sellerProductMap {
            itemSum := itemSum + sellerProductMap[productId].price;
          }
        }
        assert products[..|products|] == products;
        totalSales := totalSales + itemSum;
      }
    }
    assert ledgerEntries[..|ledgerEntries|] == ledgerEntries;
  }

  /** Two lists of ids put together add up to the sum of their totals. */
  lemma {:induction false} ItemsTotalAppend(xs: seq<int>, ys: seq<int>, index: map<int, Product>)
    ensures ItemsTotal(xs + ys, index) == ItemsTotal(xs, index) + ItemsTotal(ys, index)
    decreases |ys|
  {
    if ys == [] {
      assert xs + ys == xs;
    } else {
      var init := ys[..|ys| - 1];
      assert (xs + ys)[..|xs + ys| - 1] == xs + init;
      ItemsTotalAppend(xs, init, index);
    }
  }

  /**
   * A seller who owns every item of a cart, at the price it was sold for, is owed exactly the
   * cart's total for the sale that recorded it.
   */
  lemma {:induction false} SellerOwnsCart(cart: seq<Product>, index: map<int, Product>)
    requires forall p | p in cart :: p.id in index && index[p.id].price == p.price
    ensures ItemsTotal(CartIds(cart), index) == CartTotal(cart)
    decreases |cart|
  {
    if cart != [] {
      var init := cart[..|cart| - 1];
      assert CartIds(cart)[..|cart| - 1] == CartIds(init);
      assert forall p | p in init :: p in cart;
      assert cart[|cart| - 1] in cart;
      SellerOwnsCart(init, index);
    }
  }

  /** A seller's total does not count a sale once it is flagged reverted. */
  lemma SellerSalesSkipsReverted(entries: seq<LedgerEntry>, e: LedgerEntry, index: map<int, Product>)
    requires e.data.Sale?
    ensures SellerSales(entries + [e.(isReverted := true)], index) == SellerSales(entries, index)
    ensures SellerSales(entries + [e.(isReverted := false)], index)
         == SellerSales(entries, index) + ItemsTotal(e.data.products, index)
  {
    assert (entries + [e.(isReverted := true)])[..|entries|] == entries;
    assert (entries + [e.(isReverted := false)])[..|entries|] == entries;
  }

  // ---------------------------------------------------------------------------------------
  // The depositor route

  /**
   * `totalDeposits`: the value of the deposits not flagged reverted whose person is exactly the
   * given name. Withdrawals, sales and reversals add nothing.
   */
  function DepositsOf(entries: seq<LedgerEntry>, personName: string): int {
    if entries == [] then 0
    else
      var e := entries[|entries| - 1];
      DepositsOf(entries[..|entries| - 1], personName)
        + (if e.data.Deposit? && !e.isReverted && e.data.person == personName then Value(e.data.amount) else 0)
  }

  /** Lines 132-141. */
  method DepositorTotal(ledgerEntries: seq<LedgerEntry>, personName: string) returns (totalDeposits: int)
    ensures totalDeposits == DepositsOf(ledgerEntries, personName)
  {
    totalDeposits := 0;
    for i := 0 to |ledgerEntries|
      invariant totalDeposits == DepositsOf(ledgerEntries[..i], personName)
    {
      var entry := ledgerEntries[i];
      assert ledgerEntries[..i + 1][..i] == ledgerEntries[..i];
      if entry.data.Deposit? && !entry.isReverted {
        if entry.data.person == personName {
          totalDeposits := totalDeposits + Value(entry.data.amount);
        }
      }
    }
    assert ledgerEntries[..|ledgerEntries|] == ledgerEntries;
  }

  /** The ledger's cash per fixed face value, as `calculateBalance(entries, DENOMINATIONS)` leaves it. */
  function LedgerCash(entries: seq<LedgerEntry>): (m: Amount)
    ensures forall d :: d in m <==> d in Denoms
  {
    map d | d in Denoms :: UtilsBalance(entries, d)
  }

  /** The cash a list of entries adds up to, per fixed face value, against a given id index. */
  function CashOver(entries: seq<LedgerEntry>, index: map<int, LedgerEntry>): (m: Amount)
    ensures forall d :: d in m <==> d in Denoms
  {
    map d | d in Denoms :: UtilsSum(entries, index, d)
  }

  /**
   * In a ledger of one person's deposits, none of them flagged reverted, the depositor is owed
   * exactly what the drawer holds, so their payout never fails for want of funds.
   */
  lemma {:induction false} DepositsAreTheCash(entries: seq<LedgerEntry>, personName: string, index: map<int, LedgerEntry>)
    requires forall e | e in entries :: e.data.Deposit? && !e.isReverted && e.data.person == personName
    ensures DepositsOf(entries, personName) == Value(CashOver(entries, index))
  {
    if entries == [] {
      ValueOverAgree(Denoms, CashOver(entries, index), map[]);
      ValueOverNoKeys(Denoms, map[]);
    } else {
      var n := |entries|;
      var init := entries[..n - 1];
      var last := entries[n - 1];
      assert forall e | e in init :: e in entries;
      assert last in entries;
      DepositsAreTheCash(init, personName, index);
      forall d | d in Denoms
        ensures Count(CashOver(entries, index), d) == Count(CashOver(init, index), d) + Count(last.data.amount, d)
      {
      }
      ValueOverAdd(Denoms, CashOver(init, index), last.data.amount, CashOver(entries, index));
    }
  }

  // ---------------------------------------------------------------------------------------
  // The two handlers

  /** The payout the routes compute for an amount owed, from the ledger's cash. */
  function PayoutFor(entries: seq<LedgerEntry>, total: int): Result<Payout, PayoutError> {
    PayoutIsChange(LedgerCash(entries), total);
    match PayoutResult(LedgerCash(entries), total)
    case Success(p) => Success(Payout(total, p))
    case Failure(e) => Failure(e)
  }

  /** Counts the helper builds from the ledger are the ledger's cash. */
  lemma SameCash(drawer: Amount, entries: seq<LedgerEntry>)
    requires forall d :: d in drawer <==> d in Denoms
    requires forall d | d in Denoms :: drawer[d] == UtilsBalance(entries, d)
    ensures drawer == LedgerCash(entries)
  {
    var cash := LedgerCash(entries);
    forall d
      ensures d in drawer <==> d in cash
    {
    }
    forall d | d in drawer
      ensures drawer[d] == cash[d]
    {
    }
    assert drawer == cash;
  }

  /** The drawer and the payout, shared by both routes once the amount owed is known. */
  method PayOut(entries: seq<LedgerEntry>, total: int) returns (r: Result<Payout, PayoutError>)
    requires EntriesKeysIn(entries, Denoms)
    ensures r == PayoutFor(entries, total)
  {
    var drawerBalance := CalculateBalance(entries, Denoms);
    SameCash(drawerBalance, entries);
    PayoutIsChange(drawerBalance, total);
    var payout := CalculateOptimalPayout(drawerBalance, total);
    if payout.Failure? {
      r := Failure(payout.error);
    } else {
      r := Success(Payout(total, payout.value));
    }
  }

  /**
   * `GET /api/instances/:instanceId/payouts/seller/:sellerName`, given the instance's entries
   * and the seller's products: the seller's sales total and a payout for it.
   */
  method SellerPayout(entries: seq<LedgerEntry>, sellerProducts: seq<Product>) returns (r: Result<Payout, PayoutError>)
    requires EntriesKeysIn(entries, Denoms)
    ensures r == PayoutFor(entries, SellerSales(entries, ProductIndex(sellerProducts)))
    ensures r.Success? ==> r.value.totalAmount == SellerSales(entries, ProductIndex(sellerProducts))
  {
    var sellerProductMap := SellerProductMap(sellerProducts);
    var totalSales := SellerTotal(entries, sellerProductMap);
    r := PayOut(entries, totalSales);
  }

  /**
   * `GET /api/instances/:instanceId/payouts/depositor/:personName`, given the instance's entries:
   * the person's deposits and a payout for them.
   */
  method DepositorPayout(entries: seq<LedgerEntry>, personName: string) returns (r: Result<Payout, PayoutError>)
    requires EntriesKeysIn(entries, Denoms)
    ensures r == PayoutFor(entries, DepositsOf(entries, personName))
    ensures r.Success? ==> r.value.totalAmount == DepositsOf(entries, personName)
  {
    var totalDeposits := DepositorTotal(entries, personName);
    r := PayOut(entries, totalDeposits);
  }
}
