# Cash-drawer ledger of a point-of-sale prototype

This project models the cash side of a small point-of-sale system for events in Dafny.

Each till instance keeps a ledger of entries of four kinds:
- a **sale**: the product ids sold, the price, the notes and coins tendered (`paidAmount`) and the change handed back (`changeGiven`);
- a **deposit** or **withdrawal** of cash by a named person;
- a **reversal** that points at an earlier entry.

Cash is always a map from a yen face value (10000, 5000, 2000, 1000, 500, 100, 50, 10, 5, 1) to a count.

The server works out several things from the ledger:
- the drawer's counts;
- the change for a sale, by a greedy largest-first pass;
- the payout owed to a seller or a depositor.

The browser has its own code for:
- the drawer view and its grand total;
- the deposit and withdrawal forms;
- grouping the cart and applying discounts;
- the tender counters, product pages and screens of the till.

The modules follow the source files:
- `Denominations`: face values, counts and cash value.
- `Ledger`: entries and the reversal-aware balance functions.
- `Balances`: the server's two folds, as loops.
- `ChangeMaking`: the shared greedy pass.
- `Sales`: the sale route.
- `Payouts`: the payout routes.
- `LedgerStore`: the ledger table, as a class over a sequence of rows.
- `Catalog`: products and cart totals.
- `ClientDrawer`: the drawer view.
- `DrawerForm`: the deposit/withdrawal page.
- `CartPricing`: the cart list and discounts.
- `OperationArea`: the operation panel.

Each loop in the source is a method. It is proved against a function that says what the loop computes, and lemmas then state the promised properties of that function.

## Model

| member | source | states |
|---|---|---|
| `Denominations.DenomsFacts` | server/src/utils.ts:3 | The fixed face values are distinct, all positive and strictly descending, so sorting them largest first leaves them as they are. |
| `Balances.Zeros` | server/src/utils.ts:6-7 | The starting balance has exactly the listed face values as keys, each at zero. |
| `Balances.AddCounts` | server/src/utils.ts:13-15 | Adding an amount with a sign changes each face value's count by sign times the amount's count. It adds the amount's keys and changes nothing else. |
| `Balances.ApplyPayload` | server/src/utils.ts:11-29 | A deposit adds its counts and a withdrawal subtracts them. A sale adds what was paid and subtracts the change given. With sign −1 this is exactly undone. |
| `Balances.ApplyEntry` | server/src/utils.ts:30-54 | One entry moves each count by its effect. A reversal undoes the payload of the entry the id map finds for it, or does nothing when the id is missing. |
| `Balances.CalculateBalance` | server/src/utils.ts:5-58 | The result's keys are exactly the given face values. Each count is the ledger's balance, with reversals applied whether or not their target is flagged reverted. |
| `Balances.GetDrawerBalance` | server/src/routes/drawer.ts:35-95 | The result's keys are exactly the fixed face values. Each count is the sum over entries not flagged reverted, and a reversal still undoes its target. |
| `Ledger.IdIndexContents` | server/src/utils.ts:8 | The entry map holds exactly the ids of the batch, each mapped to an entry of the batch with that id. |
| `Ledger.IdIndexSameEntries` | server/src/utils.ts:8 | With unique ids, the entry map depends only on which entries are present, not on their order. |
| `Ledger.UtilsBalanceOrderFree` | server/src/utils.ts:8-56 | With unique ids, `calculateBalance` gives the same counts for every ordering of the same entries, including the store's newest-first listing. |
| `Ledger.UtilsBalanceAppendPayload` | server/src/utils.ts:10-29 | Appending a sale, deposit or withdrawal adds exactly its own payload to every count. |
| `Ledger.UtilsBalanceAppendReversal` | server/src/utils.ts:30-54 | An appended reversal subtracts the payload of the entry it points to. It changes nothing when the id is missing or when the target is itself a reversal. |
| `Ledger.UtilsRevertNetsZero` | server/src/utils.ts:10-54 | An entry followed by its reversal nets to zero in `calculateBalance`, even though the entry is flagged reverted. |
| `Ledger.DrawerVsUtils` | server/src/routes/drawer.ts:43-93 | When no reversal is itself flagged reverted, `getDrawerBalance` is `calculateBalance` minus the payloads of the reverted entries. |
| `Ledger.DrawerRevertedPair` | server/src/routes/drawer.ts:44-91 | In `getDrawerBalance` a reverted entry plus its reversal contributes minus the entry's payload, not zero. |
| `Ledger.DrawerDoubleCountsRevert` | server/src/routes/drawer.ts:44-91 | Concrete case: a reverted deposit of one 1000-yen note plus its reversal leaves −1 note in `getDrawerBalance` and 0 in `calculateBalance`. |
| `ChangeMaking.Take` | server/src/routes/sales.ts:15-17 | One step takes `min(floor(remaining / d), available)`. That is at most what is available and at most what fits, and stops short only when availability runs out. |
| `ChangeMaking.Greedy` | server/src/routes/drawer.ts:16-26 | Over any duplicate-free list of positive face values, the chosen counts plus the leftover make up the amount. The leftover is between 0 and the amount, nothing is chosen when nothing is owed, and each count is positive and within what is available. |
| `ChangeMaking.ChangeFor` | server/src/routes/sales.ts:14-23 | The same four facts for the pass over the fixed face values, with the chosen counts valued by their own keys. |
| `ChangeMaking.ChangeForAgree` | server/src/routes/sales.ts:16 | The pass reads the drawer only through its count of each fixed face value, an absent key counting as zero, so two drawers with equal counts get the same change. |
| `Sales.CalculateChange` | server/src/routes/sales.ts:7-29 | Fails exactly when something is left over. Otherwise the change is worth exactly `changeDue`, takes only positive counts within the drawer, and is empty when `changeDue` is 0. |
| `Sales.SaleRouteBalance` | server/src/routes/sales.ts:50-59 | The route's own fold skips reverted entries. It adds a deposit's `amount` and subtracts `amount` for every other type, so a sale or reversal adds nothing. |
| `Sales.SaleRouteAgreesOnCashMoves` | server/src/routes/sales.ts:50-59 | On ledgers of deposits and withdrawals only, the route's fold equals `getDrawerBalance`. |
| `Sales.SaleRouteMissesSaleCash` | server/src/routes/sales.ts:50-59 | Concrete case: after a sale that took a 1000-yen note and gave a 500-yen coin as change, the route's fold still holds the coin and no note. The ledger holds the note and no coin. |
| `Sales.TenderedDrawer` | server/src/routes/sales.ts:49-64 | The drawer used for change has the fixed face values as keys. Each count is the ledger's count plus the tendered count. |
| `Sales.PrepareSale` | server/src/routes/sales.ts:39-67 | Underpayment is refused exactly when the tender is worth less than the cart. Lack of change is reported exactly when the greedy pass leaves something over. On success the change is worth the tender minus the price and uses only counts the tendered drawer holds. |
| `Sales.FinalizeSale` | server/src/routes/sales.ts:34-85 | The outcome is the handler's decision (`Sales.SaleOutcome`) over the instance's rows as they stood before the call. On success exactly one sale row is appended: the cart's ids in order, the price, the tender and the change. On failure the store is unchanged. |
| `Sales.SaleKeepsCountsNonNegative` | server/src/routes/sales.ts:61-76 | A sale whose change came from the drawer plus the tender leaves no count of the ledger's cash below zero. |
| `Catalog.CartIds` | server/src/routes/sales.ts:71 | The recorded product list has one id per cart item, in cart order. |
| `Catalog.CartTotalAppend` | server/src/routes/sales.ts:40 | The total of two carts put together is the sum of their totals. |
| `Payouts.DrawerDenoms` | server/src/routes/drawer.ts:5 | The drawer's own keys, largest first, are distinct, positive and strictly descending, and are exactly the drawer's keys. |
| `Payouts.PayoutPlan` | server/src/routes/drawer.ts:14-26 | The pass over the drawer's sorted keys makes up the amount together with its leftover, and the leftover is between 0 and the amount. It pays nothing when nothing is owed, and each paid count is a key of the drawer, positive and within its count. |
| `Payouts.PayoutLoop` | server/src/routes/drawer.ts:14-27 | The loop with its working copy of the drawer computes the greedy pass exactly. |
| `Payouts.CalculateOptimalPayout` | server/src/routes/drawer.ts:4-33 | Fails for insufficient funds exactly when the drawer is worth less than the amount. Otherwise it fails exactly when the pass leaves something over. A payout it returns is worth the amount and takes from each face value at least one and at most its count. |
| `Payouts.PayoutIsChange` | server/src/routes/drawer.ts:4-33 | On a drawer keyed by the fixed face values, the payout pass is the change pass of the sale route, and the drawer total is its cash value. |
| `Payouts.ProductIndexContents` | server/src/routes/drawer.ts:103-104 | The seller's product map holds exactly the products' ids. A product whose id no later product repeats is the one kept. |
| `Payouts.SellerProductMap` | server/src/routes/drawer.ts:103-104 | The loop builds exactly that product map. |
| `Payouts.SellerTotal` | server/src/routes/drawer.ts:106-119 | The nested loops add the price of every listed id the seller owns, over every sale not flagged reverted, repeats counted each time. |
| `Payouts.ItemsTotalAppend` | server/src/routes/drawer.ts:112-116 | The seller's total over two id lists put together is the sum of the two totals. |
| `Payouts.SellerOwnsCart` | server/src/routes/drawer.ts:108-119 | A seller who owns every item of a cart at the price sold is owed exactly the cart total for that sale. |
| `Payouts.SellerSalesSkipsReverted` | server/src/routes/drawer.ts:109 | A sale flagged reverted adds nothing to the seller's total. One that is not flagged adds its items. |
| `Payouts.DepositorTotal` | server/src/routes/drawer.ts:133-142 | The loop adds the cash value of every non-reverted deposit whose person is exactly the name. Withdrawals are not subtracted. |
| `Payouts.DepositsAreTheCash` | server/src/routes/drawer.ts:133-145 | In a ledger of one person's non-reverted deposits, the depositor is owed exactly what those deposits put in the drawer. |
| `Payouts.PayOut` | server/src/routes/drawer.ts:121-122 | The payout for an amount owed is the greedy payout from the ledger's cash, as the specification function `PayoutFor` describes it. |
| `Payouts.SellerPayout` | server/src/routes/drawer.ts:99-128 | The seller route answers with the seller's sales total and a payout for it, or the payout's error. |
| `Payouts.DepositorPayout` | server/src/routes/drawer.ts:130-151 | The depositor route answers with the person's deposit total and a payout for it, or the payout's error. |
| `LedgerStore.NewestFirst` | server/src/dao/ledgerDao.ts:43-47 | The listing holds exactly the rows of the instance. |
| `LedgerStore.NewestFirstDescending` | server/src/dao/ledgerDao.ts:44 | When ids grow with insertion, the listing has strictly decreasing ids, newest first. |
| `LedgerStore.MarkReverted` | server/src/dao/ledgerDao.ts:61-62 | The update flags the rows with that id and keeps every other field of every row. |
| `LedgerStore.MarkRevertedTwice` | server/src/dao/ledgerDao.ts:61-62 | Flagging the same id twice is the same as flagging it once. |
| `LedgerStore.InstanceOf` | server/src/dao/ledgerDao.ts:64-69 | The instance lookup fails exactly when no row has the id. Otherwise it gives the instance of a row with that id. |
| `LedgerStore.MarkRevertedValid` | server/src/dao/ledgerDao.ts:59-62 | Flagging keeps ids increasing and below the next id, and keeps the id set and each id's instance. |
| `LedgerStore.Store.CreateLedgerEntry` | server/src/dao/ledgerDao.ts:49-57 | Appends one unflagged row with a fresh id, the given instance and the payload, and returns that row. |
| `LedgerStore.Store.ListByInstance` | server/src/dao/ledgerDao.ts:43-47 | The listing holds exactly the rows of the instance, newest first. |
| `LedgerStore.Store.SetReverted` | server/src/dao/ledgerDao.ts:61-62 | Flags the rows with the id and adds no row. |
| `LedgerStore.Store.RevertLedgerEntry` | server/src/dao/ledgerDao.ts:59-72 | An unknown id fails with nothing changed. Otherwise the target is flagged and exactly one reversal row is appended in the target's instance. There is no check for a second revert or for reverting a reversal. |
| `ClientDrawer.CalculateBalance` | client/src/components/VirtualDrawer.tsx:19-48 | Every face value is present. Each count is the deposits minus the withdrawals over rows that are not reverted and that parse. The grand total is the net cash those rows move. |
| `ClientDrawer.ClientCashValue` | client/src/components/VirtualDrawer.tsx:45 | The value of the folded counts is the net cash the rows move. |
| `ClientDrawer.GrandTotalIsNetCash` | client/src/components/VirtualDrawer.tsx:45 | Any balance holding the folded counts is worth the net cash of the rows. |
| `ClientDrawer.SkippedRowChangesNothing` | client/src/components/VirtualDrawer.tsx:22-43 | A row that is reverted, unreadable, a sale or a reversal changes no count, wherever it sits. |
| `ClientDrawer.ClientMatchesSaleRoute` | client/src/components/VirtualDrawer.tsx:22-43 | On every ledger the client's counts are those of the sale route's inline fold. |
| `ClientDrawer.ClientAgreesOnCashMoves` | client/src/components/VirtualDrawer.tsx:22-43 | On ledgers of deposits and withdrawals only, the client's counts are those of `getDrawerBalance`. |
| `ClientDrawer.ServedDrawerIsEmpty` | client/src/components/VirtualDrawer.tsx:25-42 | On every ledger as served, every count and the grand total are zero. |
| `ClientDrawer.ServedHidesDeposit` | client/src/components/VirtualDrawer.tsx:25-42 | One deposit of a 1000-yen note: read from its payload the view counts one note, as served it counts none. |
| `DrawerForm.ParseInt` | client/src/pages/VirtualDrawerPage.tsx:11 | `parseInt` gives a number only when the text holds a digit. |
| `DrawerForm.ParseIntReads` | client/src/pages/VirtualDrawerPage.tsx:11 | For any text split into white space, at most one sign, a run of digits and a rest that does not start with a digit, `parseInt` gives the run's value with the sign applied, and NaN exactly when the run is empty. |
| `DrawerForm.TrimSpaces` | client/src/pages/VirtualDrawerPage.tsx:11 | Leading white space is dropped, and nothing after it. |
| `DrawerForm.DigitRunOf` | client/src/pages/VirtualDrawerPage.tsx:11 | The digits read are exactly those before the first non-digit. |
| `DrawerForm.SignRead` | client/src/pages/VirtualDrawerPage.tsx:11 | One leading `-` or `+` is stripped and gives the sign; without one the number is positive. |
| `DrawerForm.ParseCount` | client/src/pages/VirtualDrawerPage.tsx:11 | Text with no digit reads as the count 0. |
| `DrawerForm.ParseShowNat` | client/src/pages/VirtualDrawerPage.tsx:11 | Reading back the decimal digits of a count gives that count. |
| `DrawerForm.HandleCountChange` | client/src/pages/VirtualDrawerPage.tsx:10-13 | The edited face value gets the parsed count and every other entry is kept. |
| `DrawerForm.TypedCountIsStored` | client/src/pages/VirtualDrawerPage.tsx:10-13 | Typing the digits of a count stores exactly that count. |
| `DrawerForm.FilterPositive` | client/src/pages/VirtualDrawerPage.tsx:62-64 | Keeps exactly the face values whose count is above zero, with their counts unchanged. |
| `DrawerForm.FilterPositiveIdempotent` | client/src/pages/VirtualDrawerPage.tsx:62-64 | Filtering twice is filtering once. |
| `DrawerForm.FilterPositiveValue` | client/src/pages/VirtualDrawerPage.tsx:62-64 | For counts that are not negative, filtering keeps the cash value. |
| `DrawerForm.HandleSubmit` | client/src/pages/VirtualDrawerPage.tsx:49-78 | Per chosen form: an empty name is refused, and only then an amount with no positive count. These are the only two refusals, and the name error names the chosen form. An accepted entry has the chosen type, the person and the filtered amount. |
| `DrawerForm.FilledFormIsPosted` | client/src/pages/VirtualDrawerPage.tsx:49-78 | A form is posted exactly when it has a name and at least one count above zero. |
| `DrawerForm.SubmittedEntryMovesCash` | client/src/pages/VirtualDrawerPage.tsx:62-78 | An accepted entry has face-value keys and a positive cash value. It moves each count by the typed count when that was positive: added for a deposit, subtracted for a withdrawal. |
| `CartPricing.FindRow` | client/src/components/RegisteredItems.tsx:28 | The lookup finds the first row with the id, or reports that none has it. |
| `CartPricing.AggregateCart` | client/src/components/RegisteredItems.tsx:25-35 | The loop with its id-to-row map computes exactly the grouped list. |
| `CartPricing.AddItemSummarises` | client/src/components/RegisteredItems.tsx:28-32 | Adding an item keeps the grouped rows a summary of the cart: a known id bumps its row, a new id gets a row with quantity 1. |
| `CartPricing.AggregateSummarises` | client/src/components/RegisteredItems.tsx:25-35 | The grouped list has one row per distinct id, in first-seen order. Each row carries the first item's name and price, and its quantity is the number of occurrences. |
| `CartPricing.AggregateDistinct` | client/src/components/RegisteredItems.tsx:26-34 | No two rows of the grouped list share an id. |
| `CartPricing.AggregateQuantities` | client/src/components/RegisteredItems.tsx:27-33 | The quantities add up to the number of items in the cart. |
| `CartPricing.Applicable` | client/src/components/RegisteredItems.tsx:45 | The applicable items are exactly the cart items whose id is listed, and there are no more of them than cart items. |
| `CartPricing.UnitsFit` | client/src/components/RegisteredItems.tsx:48 | `floor(n / r)` whole units of r fit in n applicable items, and one more unit does not. |
| `CartPricing.DiscountedItems` | client/src/components/RegisteredItems.tsx:57-59 | The discounted items are the first `times * required_quantity` applicable items, in cart order. |
| `CartPricing.DiscountAmount` | client/src/components/RegisteredItems.tsx:45-64 | A rule with fewer applicable items than required gives nothing. |
| `CartPricing.ValueDiscountUnits` | client/src/components/RegisteredItems.tsx:47-54 | A value discount that applies gives `times * discount_value`, where `times` is at least 1 and counts the whole units of applicable items. |
| `CartPricing.QuantityDiscountBounded` | client/src/components/RegisteredItems.tsx:55-63 | For a rate between 0 and 100 and prices that are not negative, a quantity discount is at least 0 and at most the price of the discounted items. |
| `CartPricing.PriceCart` | client/src/components/RegisteredItems.tsx:37-78 | The loop records the positive discounts in rule order. The final price is the subtotal minus their amounts. |
| `CartPricing.AppliedExactly` | client/src/components/RegisteredItems.tsx:66-69 | A discount is recorded exactly when its amount is positive, and every record comes from a rule. |
| `CartPricing.AmountsTotalPositive` | client/src/components/RegisteredItems.tsx:66-67 | The recorded amounts add up to at least 0, and to 0 exactly when none is recorded. |
| `CartPricing.FinalPriceAtMostSubtotal` | client/src/components/RegisteredItems.tsx:74-77 | The final price never exceeds the subtotal. It equals the subtotal exactly when no rule gives a positive amount. |
| `CartPricing.FinalPriceCanBeNegative` | client/src/components/RegisteredItems.tsx:75 | The price is not clamped: a 100-yen item with a 500-yen value discount costs −400. |
| `OperationArea.AdjustDenom` | client/src/components/OperationArea.tsx:73 | A counter moves by its step but never below zero, and the other counts are kept. |
| `OperationArea.AdjustTotalPaid` | client/src/components/OperationArea.tsx:70-73 | "+" adds the face value to the total paid. "−" subtracts it when the count is positive and changes nothing at zero. |
| `OperationArea.PlusThenMinus` | client/src/components/OperationArea.tsx:73 | "+" then "−" on one face value gives back every count. |
| `OperationArea.CanSubmit` | client/src/components/OperationArea.tsx:111 | Submitting is enabled exactly when the tender covers the price, no submission is under way and the cart is not empty. |
| `OperationArea.SubmitIsNotUnderpaid` | client/src/components/OperationArea.tsx:111 | When the price shown is the undiscounted cart total, a tender the button lets through is never refused by the sale route as underpaid. |
| `OperationArea.DiscountedPriceLetsUnderpaymentThrough` | client/src/components/RegisteredItems.tsx:75 | Concrete case: with the discounted price shown (a 100-yen item, 50 yen off), a 50-yen tender passes the button and the sale route refuses it as underpaid, since it charges the undiscounted total. |
| `OperationArea.ShownChangeIsChangeDue` | client/src/components/OperationArea.tsx:121 | The change total shown for an accepted sale equals the tender's value minus the cart total. |
| `OperationArea.PageSlice` | client/src/components/OperationArea.tsx:42 | A page holds at most nine products, the ones from index 9p on, and is empty past the end. |
| `OperationArea.TotalPages` | client/src/components/OperationArea.tsx:43 | The page count is the fewest pages of nine that hold every product. |
| `OperationArea.PagesCoverProducts` | client/src/components/OperationArea.tsx:42-43 | Every product is on page `i / 9`, at position `i % 9`, within the page count. |
| `OperationArea.Placeholders` | client/src/components/OperationArea.tsx:56 | The shown products plus the empty cells always make nine. |
| `OperationArea.PageButtonsKeepValid` | client/src/components/OperationArea.tsx:50-52 | "前へ" never goes below the first page. "次へ", when enabled, moves exactly one page within the count. |
| `OperationArea.Press` | client/src/components/OperationArea.tsx:59-110 | Registration moves to payment exactly on "完了", and payment back to registration exactly on "戻る". "クリア" empties the tender, and no button of these screens reaches the change screen. |
| `OperationArea.PressKeepsTenderWellFormed` | client/src/components/OperationArea.tsx:73-110 | Every press keeps the tender keyed by face values with no count below zero. |
| `OperationArea.ClearResetsTender` | client/src/components/OperationArea.tsx:110 | After "クリア" the tender is worth nothing, and the change shown is minus the price. |

## Left out

- Database, SQL and HTTP are not modelled. The ledger table is a sequence of rows held by `LedgerStore.Store`, and `last_insert_rowid()` is a counter of the next id.
- `created_at` is insertion order. Listing newest first assumes timestamps grow with insertion.
- The route handlers take the instance's entry listing as a parameter. The seller route also takes the seller's products as a parameter, since the product query (`findProductsBySellerName`) is not part of this model.
- The price the operation panel is given is not fixed by the source, because the page passes it no props (client/src/pages/PosInstancePage.tsx:61). The sale route always charges the undiscounted total (server/src/routes/sales.ts:40), so the panel's guard protects against underpayment only when it shows that total (`OperationArea.SubmitIsNotUnderpaid`). With the discounted `finalPrice` it does not (`OperationArea.DiscountedPriceLetsUnderpaymentThrough`).
- Every amount, count and price is an exact integer. JavaScript numbers are doubles: the source agrees with the model only while values stay below 2^53, and `parseInt` of a digit run longer than about 16 digits rounds.
- JSON is not modelled. Payloads are typed values whose face-value keys are integers, and amount keys must be face values; in the source an unknown key turns a count into `NaN`.
- The DAO already parses `data`, yet the routes call `JSON.parse(entry.data)` on it again (server/src/routes/sales.ts:53, server/src/routes/drawer.ts:46, 70, 110, 137). At run time that throws on an object; for the server routes this is not modelled. The ledger route (server/src/routes/ledger.ts:11-12) sends those parsed entries to the drawer view too, whose `JSON.parse` then fails on every row: that is modelled, see Findings.
- Concurrency is not modelled. Revert updates and then inserts without a transaction, and the sale route reads and then appends; the model runs each request alone.
- `Payouts.CalculateOptimalPayout`: the leftover test `remaining > 0.001` is modelled as `remaining > 0`, because all amounts are integers.
- `Payouts.SellerPayout`: it takes the drawer from the corrected fold (`Balances.CalculateBalance`), not from `getDrawerBalance`. See Findings.
- `Payouts.DepositorPayout`: it takes the drawer from the corrected fold (`Balances.CalculateBalance`), not from `getDrawerBalance`. See Findings.
- `Sales.PrepareSale`: it takes the drawer from the ledger's cash (`calculateBalance`), not from the route's inline fold. See Findings.
- `Sales.FinalizeSale`: its outcome is `Sales.SaleOutcome`, whose drawer is the ledger's cash plus the tender (`Sales.DrawerWithTender`), not the route's inline fold at server/src/routes/sales.ts:50-59. See Findings.
- `Payouts.PayOut`: it pays from the ledger's cash (`Balances.CalculateBalance`), not from what `getDrawerBalance` computes at server/src/routes/drawer.ts:121. See Findings.
- `CartPricing.DiscountAmount`: `Math.floor(total * (rate / 100))` is modelled as the integer `(total * rate) / 100`. The floating-point product can come out one lower when `rate / 100` is not exact, as with 0.29 × 100.
- `CartPricing.DiscountAmount`: a required quantity of at least 1 is a precondition, because the discount form only accepts such values. With 0 the source divides by zero and computes with `Infinity`/`NaN`.
- `CartPricing.PriceCart`: the rules arrive already parsed from `details`.
- `CartPricing.PriceCart`: a description is a value (yen off, or percent off), not the formatted Japanese string.
- `DrawerForm.ParseInt`: only ASCII digits and the white space characters space, tab, line feed and carriage return are recognised. A decimal point or exponent simply ends the digits. A `0x` or `0X` prefix is not read as hexadecimal: `parseInt("0x10")` is 16, the model reads 0.
- The number input's own handling of non-numeric text in the browser is not modelled.
- React state, effects, `isLoading`, the fetch calls, navigation and `setTimeout` are not modelled. Only the computations are.
- The "商品登録開始" start button (`hasStarted`) is not modelled.
- The move to the change screen is not modelled: it happens in the page component after `finalizeSale`, outside the operation panel.
- Wiring is not modelled. The route registry registers only the two instance routes (server/src/routes/index.ts:4-33): the sale, drawer, ledger, product and discount routes are never registered. The drawer-view finding assumes the ledger route (server/src/routes/ledger.ts:8-12) is wired up. Also, the DAO bundle has no ledger (server/src/dao/index.ts:5-8), and the page renders the cart list and the operation panel without props (client/src/pages/PosInstancePage.tsx:60-61). The model treats each piece as if it were wired up.
- The caller's `drawerBalance` is never changed by the payout pass because every value here is immutable; the source keeps it intact by working on a copy.

## Findings

| source | as written | input that shows it | evidently intended | confidence | as-written member | corrected member |
|---|---|---|---|---|---|---|
| server/src/routes/drawer.ts:44-91 | `getDrawerBalance` skips entries flagged reverted but still applies each reversal's inverse, so a reverted entry is taken out twice. | A deposit of one 1000-yen note, flagged reverted, followed by its reversal: the drawer shows −1 note. | The entry and its reversal cancel, as in `calculateBalance`. | not executed | `Ledger.DrawerDoubleCountsRevert` | `Ledger.UtilsRevertNetsZero` |
| client/src/components/VirtualDrawer.tsx:25-42 | The view calls `JSON.parse(entry.data)` on entries whose `data` the ledger route already sends as an object (server/src/routes/ledger.ts:11-12). That throws, the error is caught and the row is skipped, so every row is skipped. | A ledger holding one deposit of a 1000-yen note: the view shows 0 notes and a grand total of 0. | Each count is the deposits minus the withdrawals read from the payloads. | not executed | `ClientDrawer.ServedDrawerIsEmpty` | `ClientDrawer.ClientAgreesOnCashMoves` |
| server/src/routes/sales.ts:50-59 | The sale route builds the drawer only from `data.amount`: sales add nothing and the cash they took in and paid out is ignored. | A deposit of one 500-yen coin, then a sale paid with a 1000-yen note that returned the coin: the route sees the coin and no note. | The drawer is the ledger's cash, as `calculateBalance` computes it. | not executed | `Sales.SaleRouteMissesSaleCash` | `Sales.TenderedDrawer` |

The payout routes and the sale route in this model use the corrected drawer. `Balances.GetDrawerBalance` and `Sales.SaleRouteBalance` keep the code as written, and `Ledger.DrawerVsUtils` and `Ledger.DrawerRevertedPair` state how far the drawer as written differs from the corrected one. The drawer view is modelled on rows whose payload reads back (`ClientDrawer.Rows`), and `ClientDrawer.ServedRows` keeps the listing as the ledger route actually serves it.
