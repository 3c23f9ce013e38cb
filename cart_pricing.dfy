/**
 * The cart panel of client/src/components/RegisteredItems.tsx:25-78: the cart grouped into one
 * row per product (`aggregatedCart`), and the price after the quantity and value discounts
 * (`finalPrice`, `appliedDiscounts`).
 */
module CartPricing {
  import opened Wrappers
  import opened Catalog

  // ---------------------------------------------------------------------------------------
  // aggregatedCart

  /** One row of the grouped cart: the first item's id, name and price, and how many there are. */
  datatype AggregatedItem = AggregatedItem(id: int, name: string, price: int, quantity: int)

  /** The position of the first row with the id, if there is one. */
  function FindRow(rows: seq<AggregatedItem>, id: int): (r: Option<nat>)
    ensures r.Some? ==> r.value < |rows| && rows[r.value].id == id && forall k | 0 <= k < r.value :: rows[k].id != id
    ensures r.None? ==> forall k | 0 <= k < |rows| :: rows[k].id != id
  {
    if rows == [] then None
    else if rows[0].id == id then Some(0)
    else match FindRow(rows[1..], id)
      case None => None
      case Some(k) => Some(k + 1)
  }

  /** The position of the first cart item with the id, if there is one. */
  function FirstIndex(cart: seq<Product>, id: int): (r: Option<nat>)
    ensures r.Some? ==> r.value < |cart| && cart[r.value].id == id && forall k | 0 <= k < r.value :: cart[k].id != id
    ensures r.None? ==> forall k | 0 <= k < |cart| :: cart[k].id != id
  {
    if cart == [] then None
    else if cart[0].id == id then Some(0)
    else match FirstIndex(cart[1..], id)
      case None => None
      case Some(k) => Some(k + 1)
  }

  /** How many items of the cart have the id. */
  function Occurrences(cart: seq<Product>, id: int): nat {
    if cart == [] then 0 else Occurrences(cart[..|cart| - 1], id) + (if cart[|cart| - 1].id == id then 1 else 0)
  }

  /** One step of the loop: the item's row counts one more, or a new row with quantity 1 is added at the end. */
  function AddItem(rows: seq<AggregatedItem>, item: Product): seq<AggregatedItem> {
    match FindRow(rows, item.id)
    case Some(j) => rows[j := rows[j].(quantity := rows[j].quantity + 1)]
    case None => rows + [AggregatedItem(item.id, item.name, item.price, 1)]
  }

  /** The rows after every item of the cart, in order. */
  function Aggregate(cart: seq<Product>): seq<AggregatedItem> {
    if cart == [] then [] else AddItem(Aggregate(cart[..|cart| - 1]), cart[|cart| - 1])
  }

  /**
   * `aggregatedCart`: a JS `Map` from id to row, whose values come out in insertion order. The
   * rows are those values in that order and `position` is the map's lookup by id.
   */
  method AggregateCart(cart: seq<Product>) returns (rows: seq<AggregatedItem>)
    ensures rows == Aggregate(cart)
  {
    rows := [];
    var position: map<int, nat> := map[];
    for i := 0 to |cart|
      invariant rows == Aggregate(cart[..i])
      invariant Locates(position, rows)
    {
      var item := cart[i];
      assert Aggregate(cart[..i + 1]) == AddItem(rows, item) by {
        assert cart[..i + 1][..i] == cart[..i];
      }
      if item.id in position {
        var j := position[item.id];
        BumpLocates(position, rows, j);
        rows := rows[j := rows[j].(quantity := rows[j].quantity + 1)];
      } else {
        var row := AggregatedItem(item.id, item.name, item.price, 1);
        AppendLocates(position, rows, row);
        position := position[item.id := |rows|];
        rows := rows + [row];
      }
    }
    assert cart[..|cart|] == cart;
  }

  /** `position` finds, for each id with a row, where its row is, and has no other ids. */
  ghost predicate Locates(position: map<int, nat>, rows: seq<AggregatedItem>) {
    forall id :: (id in position <==> FindRow(rows, id).Some?) && (id in position ==> FindRow(rows, id) == Some(position[id]))
  }

  lemma BumpLocates(position: map<int, nat>, rows: seq<AggregatedItem>, j: nat)
    requires Locates(position, rows) && j < |rows|
    ensures Locates(position, rows[j := rows[j].(quantity := rows[j].quantity + 1)])
  {
    FindRowSameIds(rows, rows[j := rows[j].(quantity := rows[j].quantity + 1)]);
  }

  lemma AppendLocates(position: map<int, nat>, rows: seq<AggregatedItem>, row: AggregatedItem)
    requires Locates(position, rows) && row.id !in position
    ensures Locates(position[row.id := |rows|], rows + [row])
  {
    FindRowAppend(rows, row);
  }

  /** The first position is determined by its description. */
  lemma FindRowIs(rows: seq<AggregatedItem>, id: int, r: Option<nat>)
    requires r.Some? ==> r.value < |rows| && rows[r.value].id == id && forall k | 0 <= k < r.value :: rows[k].id != id
    requires r.None? ==> forall k | 0 <= k < |rows| :: rows[k].id != id
    ensures FindRow(rows, id) == r
  {
    var a := FindRow(rows, id);
    if a.Some? && r.Some? {
      assert !(a.value < r.value) && !(r.value < a.value);
    }
  }

  lemma FirstIndexIs(cart: seq<Product>, id: int, r: Option<nat>)
    requires r.Some? ==> r.value < |cart| && cart[r.value].id == id && forall k | 0 <= k < r.value :: cart[k].id != id
    requires r.None? ==> forall k | 0 <= k < |cart| :: cart[k].id != id
    ensures FirstIndex(cart, id) == r
  {
    var a := FirstIndex(cart, id);
    if a.Some? && r.Some? {
      assert !(a.value < r.value) && !(r.value < a.value);
    }
  }

  /** Rows with the same ids at the same positions are found at the same places. */
  lemma FindRowSameIds(rows: seq<AggregatedItem>, other: seq<AggregatedItem>)
    requires |rows| == |other| && forall k | 0 <= k < |rows| :: rows[k].id == other[k].id
    ensures forall id :: FindRow(other, id) == FindRow(rows, id)
  {
    forall id
      ensures FindRow(other, id) == FindRow(rows, id)
    {
      FindRowIs(other, id, FindRow(rows, id));
    }
  }

  /** A row with a new id is found at the end, and every other id where it was. */
  lemma FindRowAppend(rows: seq<AggregatedItem>, row: AggregatedItem)
    requires FindRow(rows, row.id).None?
    ensures forall id :: FindRow(rows + [row], id) == (if id == row.id then Some(|rows|) else FindRow(rows, id))
  {
    var ext := rows + [row];
    assert forall k | 0 <= k < |rows| :: ext[k] == rows[k];
    forall id
      ensures FindRow(ext, id) == (if id == row.id then Some(|rows|) else FindRow(rows, id))
    {
      if id == row.id {
        FindRowIs(ext, id, Some(|rows|));
      } else {
        FindRowIs(ext, id, FindRow(rows, id));
      }
    }
  }

  /** Where an id is first seen once an item is added to the end of the cart. */
  function FirstAfter(cart: seq<Product>, x: Product, id: int): Option<nat> {
    if FirstIndex(cart, id).Some? then FirstIndex(cart, id)
    else if id == x.id then Some(|cart|)
    else None
  }

  /** Adding an item to the end of a cart keeps every first position that existed. */
  lemma FirstIndexAppend(cart: seq<Product>, x: Product)
    ensures forall id :: FirstIndex(cart + [x], id) == FirstAfter(cart, x, id)
  {
    var ext := cart + [x];
    assert forall k | 0 <= k < |cart| :: ext[k] == cart[k];
    forall id
      ensures FirstIndex(ext, id) == FirstAfter(cart, x, id)
    {
      FirstIndexIs(ext, id, FirstAfter(cart, x, id));
    }
  }

  /** Row i describes the cart: its first item with the id gives the name and price, and the quantity counts them all. */
  predicate RowSummarises(row: AggregatedItem, cart: seq<Product>) {
    match FirstIndex(cart, row.id)
    case None => false
    case Some(f) => cart[f].name == row.name && cart[f].price == row.price && row.quantity == Occurrences(cart, row.id)
  }

  /** The id a appears in the cart before the id b. */
  predicate SeenBefore(cart: seq<Product>, a: int, b: int) {
    FirstIndex(cart, a).Some? && FirstIndex(cart, b).Some? && FirstIndex(cart, a).value < FirstIndex(cart, b).value
  }

  /**
   * The rows group the cart: an id has a row exactly when it is in the cart, each row describes
   * its id's items, and the rows come in the order the ids are first seen (so no id has two rows).
   */
  ghost predicate Summarises(rows: seq<AggregatedItem>, cart: seq<Product>) {
    Covers(rows, cart) && Describes(rows, cart) && InFirstSeenOrder(rows, cart)
  }

  ghost predicate Covers(rows: seq<AggregatedItem>, cart: seq<Product>) {
    forall id :: FindRow(rows, id).Some? <==> FirstIndex(cart, id).Some?
  }

  predicate Describes(rows: seq<AggregatedItem>, cart: seq<Product>) {
    forall i | 0 <= i < |rows| :: RowSummarises(rows[i], cart)
  }

  predicate InFirstSeenOrder(rows: seq<AggregatedItem>, cart: seq<Product>) {
    forall i, j | 0 <= i < j < |rows| :: SeenBefore(cart, rows[i].id, rows[j].id)
  }

  lemma AddItemSummarises(rows: seq<AggregatedItem>, cart: seq<Product>, x: Product)
    requires Summarises(rows, cart)
    ensures Summarises(AddItem(rows, x), cart + [x])
  {
    if FindRow(rows, x.id).Some? {
      AddSeenSummarises(rows, cart, x);
    } else {
      AddNewSummarises(rows, cart, x);
    }
  }

  lemma OccurrencesAppend(cart: seq<Product>, x: Product)
    ensures forall id :: Occurrences(cart + [x], id) == Occurrences(cart, id) + (if x.id == id then 1 else 0)
  {
    assert (cart + [x])[..|cart|] == cart;
  }

  /** A row for another id still describes the cart once an item is added. */
  lemma RowKept(row: AggregatedItem, cart: seq<Product>, x: Product)
    requires RowSummarises(row, cart) && row.id != x.id
    ensures RowSummarises(row, cart + [x])
  {
    FirstIndexAppend(cart, x);
    OccurrencesAppend(cart, x);
    assert (cart + [x])[FirstIndex(cart, row.id).value] == cart[FirstIndex(cart, row.id).value];
  }

  /** The row for the added item's id, counting one more, describes the longer cart. */
  lemma RowBumped(row: AggregatedItem, cart: seq<Product>, x: Product)
    requires RowSummarises(row, cart) && row.id == x.id
    ensures RowSummarises(row.(quantity := row.quantity + 1), cart + [x])
  {
    FirstIndexAppend(cart, x);
    OccurrencesAppend(cart, x);
    assert (cart + [x])[FirstIndex(cart, row.id).value] == cart[FirstIndex(cart, row.id).value];
  }

  /** A new row for an id not seen before describes the longer cart. */
  lemma RowAdded(cart: seq<Product>, x: Product)
    requires FirstIndex(cart, x.id).None?
    ensures RowSummarises(AggregatedItem(x.id, x.name, x.price, 1), cart + [x])
  {
    FirstIndexAppend(cart, x);
    OccurrencesAppend(cart, x);
    NoOccurrences(cart, x.id);
  }

  lemma SeenBeforeKept(cart: seq<Product>, x: Product, a: int, b: int)
    requires SeenBefore(cart, a, b)
    ensures SeenBefore(cart + [x], a, b)
  {
    FirstIndexAppend(cart, x);
  }

  /** An id already in the cart is seen before the id of an item added with a new id. */
  lemma SeenBeforeNew(cart: seq<Product>, x: Product, a: int)
    requires FirstIndex(cart, a).Some? && FirstIndex(cart, x.id).None?
    ensures SeenBefore(cart + [x], a, x.id)
  {
    FirstIndexAppend(cart, x);
  }

  /** An item whose id already has a row counts one more in that row. */
  lemma AddSeenSummarises(rows: seq<AggregatedItem>, cart: seq<Product>, x: Product)
    requires Summarises(rows, cart) && FindRow(rows, x.id).Some?
    ensures Summarises(AddItem(rows, x), cart + [x])
  {
    var j := FindRow(rows, x.id).value;
    var next := rows[j := rows[j].(quantity := rows[j].quantity + 1)];
    assert AddItem(rows, x) == next;
    SeenCovers(rows, cart, x, j);
    SeenDescribes(rows, cart, x, j);
    SeenOrder(rows, cart, x, j);
  }

  lemma SeenCovers(rows: seq<AggregatedItem>, cart: seq<Product>, x: Product, j: nat)
    requires Covers(rows, cart) && FindRow(rows, x.id) == Some(j)
    ensures Covers(rows[j := rows[j].(quantity := rows[j].quantity + 1)], cart + [x])
  {
    FindRowSameIds(rows, rows[j := rows[j].(quantity := rows[j].quantity + 1)]);
    FirstIndexAppend(cart, x);
  }

  lemma SeenDescribes(rows: seq<AggregatedItem>, cart: seq<Product>, x: Product, j: nat)
    requires Describes(rows, cart) && InFirstSeenOrder(rows, cart) && FindRow(rows, x.id) == Some(j)
    ensures Describes(rows[j := rows[j].(quantity := rows[j].quantity + 1)], cart + [x])
  {
    var next := rows[j := rows[j].(quantity := rows[j].quantity + 1)];
    forall i | 0 <= i < |next|
      ensures RowSummarises(next[i], cart + [x])
    {
      if i == j {
        RowBumped(rows[j], cart, x);
      } else {
        if i > j {
          assert SeenBefore(cart, rows[j].id, rows[i].id);
        }
        RowKept(rows[i], cart, x);
      }
    }
  }

  lemma SeenOrder(rows: seq<AggregatedItem>, cart: seq<Product>, x: Product, j: nat)
    requires InFirstSeenOrder(rows, cart) && j < |rows|
    ensures InFirstSeenOrder(rows[j := rows[j].(quantity := rows[j].quantity + 1)], cart + [x])
  {
    var next := rows[j := rows[j].(quantity := rows[j].quantity + 1)];
    forall i, k | 0 <= i < k < |next|
      ensures SeenBefore(cart + [x], next[i].id, next[k].id)
    {
      SeenBeforeKept(cart, x, rows[i].id, rows[k].id);
    }
  }

  /** An item with a new id gets a row at the end, first seen after every earlier id. */
  lemma AddNewSummarises(rows: seq<AggregatedItem>, cart: seq<Product>, x: Product)
    requires Summarises(rows, cart) && FindRow(rows, x.id).None?
    ensures Summarises(AddItem(rows, x), cart + [x])
  {
    var row := AggregatedItem(x.id, x.name, x.price, 1);
    assert AddItem(rows, x) == rows + [row];
    assert FirstIndex(cart, x.id).None?;
    NewCovers(rows, cart, x);
    NewDescribes(rows, cart, x);
    NewOrder(rows, cart, x);
  }

  lemma NewCovers(rows: seq<AggregatedItem>, cart: seq<Product>, x: Product)
    requires Covers(rows, cart) && FindRow(rows, x.id).None?
    ensures Covers(rows + [AggregatedItem(x.id, x.name, x.price, 1)], cart + [x])
  {
    FindRowAppend(rows, AggregatedItem(x.id, x.name, x.price, 1));
    FirstIndexAppend(cart, x);
  }

  lemma NewDescribes(rows: seq<AggregatedItem>, cart: seq<Product>, x: Product)
    requires Describes(rows, cart) && FindRow(rows, x.id).None? && FirstIndex(cart, x.id).None?
    ensures Describes(rows + [AggregatedItem(x.id, x.name, x.price, 1)], cart + [x])
  {
    var next := rows + [AggregatedItem(x.id, x.name, x.price, 1)];
    forall i | 0 <= i < |next|
      ensures RowSummarises(next[i], cart + [x])
    {
      if i < |rows| {
        assert next[i] == rows[i];
        RowKept(rows[i], cart, x);
      } else {
        RowAdded(cart, x);
      }
    }
  }

  lemma NewOrder(rows: seq<AggregatedItem>, cart: seq<Product>, x: Product)
    requires Describes(rows, cart) && InFirstSeenOrder(rows, cart) && FirstIndex(cart, x.id).None?
    ensures InFirstSeenOrder(rows + [AggregatedItem(x.id, x.name, x.price, 1)], cart + [x])
  {
    var next := rows + [AggregatedItem(x.id, x.name, x.price, 1)];
    forall i, k | 0 <= i < k < |next|
      ensures SeenBefore(cart + [x], next[i].id, next[k].id)
    {
      assert next[i] == rows[i];
      if k < |rows| {
        assert next[k] == rows[k];
        SeenBeforeKept(cart, x, rows[i].id, rows[k].id);
      } else {
        assert RowSummarises(rows[i], cart);
        SeenBeforeNew(cart, x, rows[i].id);
      }
    }
  }

  lemma {:induction false} NoOccurrences(cart: seq<Product>, id: int)
    requires FirstIndex(cart, id).None?
    ensures Occurrences(cart, id) == 0
  {
    if cart != [] {
      var init := cart[..|cart| - 1];
      assert FirstIndex(init, id).None? by {
        FirstIndexAppend(init, cart[|cart| - 1]);
        assert init + [cart[|cart| - 1]] == cart;
      }
      NoOccurrences(init, id);
    }
  }

  /** The grouped cart has one row per distinct id, in first-seen order, each with its count. */
  lemma {:induction false} AggregateSummarises(cart: seq<Product>)
    ensures Summarises(Aggregate(cart), cart)
  {
    if cart != [] {
      var init := cart[..|cart| - 1];
      AggregateSummarises(init);
      AddItemSummarises(Aggregate(init), init, cart[|cart| - 1]);
      assert init + [cart[|cart| - 1]] == cart;
    }
  }

  /** No two rows of the grouped cart share an id. */
  lemma AggregateDistinct(cart: seq<Product>)
    ensures var rows := Aggregate(cart); forall i, j | 0 <= i < j < |rows| :: rows[i].id != rows[j].id
  {
    AggregateSummarises(cart);
  }

  function QuantitySum(rows: seq<AggregatedItem>): int {
    if rows == [] then 0 else QuantitySum(rows[..|rows| - 1]) + rows[|rows| - 1].quantity
  }

  lemma {:induction false} QuantitySumBump(rows: seq<AggregatedItem>, j: int)
    requires 0 <= j < |rows|
    ensures QuantitySum(rows[j := rows[j].(quantity := rows[j].quantity + 1)]) == QuantitySum(rows) + 1
  {
    var bumped := rows[j := rows[j].(quantity := rows[j].quantity + 1)];
    var n := |rows|;
    if j < n - 1 {
      assert bumped[..n - 1] == rows[..n - 1][j := rows[j].(quantity := rows[j].quantity + 1)];
      QuantitySumBump(rows[..n - 1], j);
    } else {
      assert bumped[..n - 1] == rows[..n - 1];
    }
  }

  /** The quantities of the grouped cart add up to the number of items in the cart. */
  lemma {:induction false} AggregateQuantities(cart: seq<Product>)
    ensures QuantitySum(Aggregate(cart)) == |cart|
  {
    if cart != [] {
      var init := cart[..|cart| - 1];
      var rows := Aggregate(init);
      var x := cart[|cart| - 1];
      AggregateQuantities(init);
      match FindRow(rows, x.id)
      case Some(j) =>
        QuantitySumBump(rows, j);
      case None =>
        var ext := rows + [AggregatedItem(x.id, x.name, x.price, 1)];
        assert ext[..|ext| - 1] == rows;
    }
  }

  // ---------------------------------------------------------------------------------------
  // Discounts

  /**
   * The parsed `details` of a discount condition. The discount form only accepts a required
   * quantity of at least one.
   */
  datatype DiscountRule =
    | ValueDiscount(productIds: seq<int>, requiredQuantity: int, discountValue: int)
    | QuantityDiscount(productIds: seq<int>, requiredQuantity: int, discountRate: int)

  datatype DiscountCondition = DiscountCondition(id: int, rule: DiscountRule)

  /** What the description string says: so many yen off, or so many percent off. */
  datatype Description = YenOff(yen: int) | PercentOff(rate: int)

  datatype AppliedDiscount = AppliedDiscount(id: int, description: Description, amount: int)

  /** `cart.filter(item => details.product_ids.includes(item.id))`, in cart order. */
  function Applicable(cart: seq<Product>, productIds: seq<int>): (r: seq<Product>)
    ensures |r| <= |cart|
    ensures forall x :: x in r <==> x in cart && x.id in productIds
  {
    if cart == [] then [] else
      var init := Applicable(cart[..|cart| - 1], productIds);
      var last := cart[|cart| - 1];
      assert forall x :: x in cart <==> x in cart[..|cart| - 1] || x == last by {
        assert cart == cart[..|cart| - 1] + [last];
      }
      if last.id in productIds then init + [last] else init
  }

  /** `Math.floor(applicableItemsCount / details.required_quantity)`. */
  function Times(cart: seq<Product>, rule: DiscountRule): (t: nat)
    requires rule.requiredQuantity >= 1
  {
    |Applicable(cart, rule.productIds)| / rule.requiredQuantity
  }

  /** Whole units fit: `times * required` items are at most all of them and leave fewer than one unit over. */
  lemma UnitsFit(count: nat, required: int, times: int)
    requires required >= 1 && times == count / required
    ensures 0 <= times * required <= count < times * required + required
  {
    assert count == times * required + count % required;
  }

  /**
   * The items a quantity discount takes its percentage of: the first `times * required_quantity`
   * applicable items in cart order.
   */
  function DiscountedItems(cart: seq<Product>, rule: DiscountRule): (r: seq<Product>)
    requires rule.requiredQuantity >= 1
    ensures |r| == Times(cart, rule) * rule.requiredQuantity
    ensures r == Applicable(cart, rule.productIds)[..|r|]
  {
    var items := Applicable(cart, rule.productIds);
    var units := Times(cart, rule) * rule.requiredQuantity;
    UnitsFit(|items|, rule.requiredQuantity, Times(cart, rule));
    items[..units]
  }

  /**
   * `discountAmount` of one condition: zero unless enough applicable items are in the cart;
   * then times the discount value for a value discount, and the floor of the rate's percentage
   * of the discounted items' prices for a quantity discount.
   */
  function DiscountAmount(cart: seq<Product>, rule: DiscountRule): (r: int)
    requires rule.requiredQuantity >= 1
    ensures |Applicable(cart, rule.productIds)| < rule.requiredQuantity ==> r == 0
  {
    if |Applicable(cart, rule.productIds)| < rule.requiredQuantity then 0
    else match rule
      case ValueDiscount(_, _, value) => Times(cart, rule) * value
      case QuantityDiscount(_, _, rate) => (CartTotal(DiscountedItems(cart, rule)) * rate) / 100
  }

  /** The description that goes with an amount. */
  function DescriptionOf(cart: seq<Product>, rule: DiscountRule): Description
    requires rule.requiredQuantity >= 1
  {
    match rule
    case ValueDiscount(_, _, value) => YenOff(Times(cart, rule) * value)
    case QuantityDiscount(_, _, rate) => PercentOff(rate)
  }

  predicate WellFormed(discounts: seq<DiscountCondition>) {
    forall c | c in discounts :: c.rule.requiredQuantity >= 1
  }

  /** The record kept for a condition. */
  function Record(cart: seq<Product>, c: DiscountCondition): AppliedDiscount
    requires c.rule.requiredQuantity >= 1
  {
    AppliedDiscount(c.id, DescriptionOf(cart, c.rule), DiscountAmount(cart, c.rule))
  }

  /** `appliedDiscounts`: the records of the conditions with a positive amount, in order. */
  function Applied(cart: seq<Product>, discounts: seq<DiscountCondition>): seq<AppliedDiscount>
    requires WellFormed(discounts)
  {
    if discounts == [] then [] else
      var last := discounts[|discounts| - 1];
      assert last in discounts;
      Applied(cart, discounts[..|discounts| - 1]) + (if DiscountAmount(cart, last.rule) > 0 then [Record(cart, last)] else [])
  }

  function AmountsTotal(applied: seq<AppliedDiscount>): int {
    if applied == [] then 0 else AmountsTotal(applied[..|applied| - 1]) + applied[|applied| - 1].amount
  }

  /**
   * The `useMemo` that prices the cart: the subtotal of all item prices less the sum of the
   * applied amounts, not clamped at zero, and the list of applied discounts.
   */
  method PriceCart(cart: seq<Product>, discounts: seq<DiscountCondition>)
    returns (finalPrice: int, appliedDiscounts: seq<AppliedDiscount>)
    requires WellFormed(discounts)
    ensures appliedDiscounts == Applied(cart, discounts)
    ensures finalPrice == CartTotal(cart) - AmountsTotal(appliedDiscounts)
  {
    var subtotal := CartTotal(cart);
    var totalDiscountAmount := 0;
    appliedDiscounts := [];
    for i := 0 to |discounts|
      invariant appliedDiscounts == Applied(cart, discounts[..i])
      invariant totalDiscountAmount == AmountsTotal(appliedDiscounts)
    {
      var discount := discounts[i];
      assert discounts[..i + 1][..i] == discounts[..i];
      assert discount in discounts;
      var discountAmount := DiscountAmount(cart, discount.rule);
      var description := DescriptionOf(cart, discount.rule);
      if discountAmount > 0 {
        var record := AppliedDiscount(discount.id, description, discountAmount);
        assert (appliedDiscounts + [record])[..|appliedDiscounts|] == appliedDiscounts;
        totalDiscountAmount := totalDiscountAmount + discountAmount;
        appliedDiscounts := appliedDiscounts + [record];
      }
    }
    assert discounts[..|discounts|] == discounts;
    finalPrice := subtotal - totalDiscountAmount;
  }

  /**
   * Exactly the conditions with a positive amount are recorded: every record has a positive
   * amount and is the record of some condition, and every condition with a positive amount has
   * its record in the list.
   */
  lemma {:induction false} AppliedExactly(cart: seq<Product>, discounts: seq<DiscountCondition>)
    requires WellFormed(discounts)
    ensures forall a | a in Applied(cart, discounts) ::
      a.amount > 0 && exists k | 0 <= k < |discounts| :: a == Record(cart, discounts[k])
    ensures forall k | 0 <= k < |discounts| && DiscountAmount(cart, discounts[k].rule) > 0 ::
      Record(cart, discounts[k]) in Applied(cart, discounts)
  {
    if discounts != [] {
      var n := |discounts|;
      var init := discounts[..n - 1];
      AppliedExactly(cart, init);
      forall a | a in Applied(cart, discounts)
        ensures a.amount > 0 && exists k | 0 <= k < n :: a == Record(cart, discounts[k])
      {
        if a in Applied(cart, init) {
          var k :| 0 <= k < n - 1 && a == Record(cart, init[k]);
          assert discounts[k] == init[k];
        } else {
          assert a == Record(cart, discounts[n - 1]);
        }
      }
      forall k | 0 <= k < n && DiscountAmount(cart, discounts[k].rule) > 0
        ensures Record(cart, discounts[k]) in Applied(cart, discounts)
      {
        if k < n - 1 {
          assert discounts[k] == init[k];
        }
      }
    }
  }

  lemma {:induction false} AmountsTotalPositive(applied: seq<AppliedDiscount>)
    requires forall a | a in applied :: a.amount > 0
    ensures AmountsTotal(applied) >= 0
    ensures AmountsTotal(applied) == 0 <==> applied == []
  {
    if applied != [] {
      assert applied[|applied| - 1] in applied;
      assert forall a | a in applied[..|applied| - 1] :: a in applied;
      AmountsTotalPositive(applied[..|applied| - 1]);
    }
  }

  /**
   * The final price never exceeds the subtotal, and equals it exactly when no condition gives
   * a positive amount.
   */
  lemma FinalPriceAtMostSubtotal(cart: seq<Product>, discounts: seq<DiscountCondition>)
    requires WellFormed(discounts)
    ensures CartTotal(cart) - AmountsTotal(Applied(cart, discounts)) <= CartTotal(cart)
    ensures CartTotal(cart) - AmountsTotal(Applied(cart, discounts)) == CartTotal(cart) <==>
      forall k | 0 <= k < |discounts| :: DiscountAmount(cart, discounts[k].rule) <= 0
  {
    AppliedExactly(cart, discounts);
    AmountsTotalPositive(Applied(cart, discounts));
    if Applied(cart, discounts) != [] {
      var a := Applied(cart, discounts)[0];
      assert a in Applied(cart, discounts);
      var k :| 0 <= k < |discounts| && a == Record(cart, discounts[k]);
    }
  }

  /**
   * A value discount takes its value once per whole unit of required items: with n applicable
   * items and r required, `floor(n / r)` times.
   */
  lemma ValueDiscountUnits(cart: seq<Product>, rule: DiscountRule)
    requires rule.ValueDiscount? && rule.requiredQuantity >= 1
    ensures var n := |Applicable(cart, rule.productIds)|;
      n >= rule.requiredQuantity ==>
        && DiscountAmount(cart, rule) == Times(cart, rule) * rule.discountValue
        && Times(cart, rule) >= 1
        && Times(cart, rule) * rule.requiredQuantity <= n < (Times(cart, rule) + 1) * rule.requiredQuantity
  {
    UnitsFit(|Applicable(cart, rule.productIds)|, rule.requiredQuantity, Times(cart, rule));
  }

  /**
   * A quantity discount with a rate between 0 and 100 on items of non-negative price is at
   * least zero and at most the price of the discounted items, which are whole units of the
   * first applicable items.
   */
  lemma QuantityDiscountBounded(cart: seq<Product>, rule: DiscountRule)
    requires rule.QuantityDiscount? && rule.requiredQuantity >= 1
    requires 0 <= rule.discountRate <= 100
    requires forall x | x in cart :: x.price >= 0
    ensures |Applicable(cart, rule.productIds)| >= rule.requiredQuantity ==>
      0 <= DiscountAmount(cart, rule) <= CartTotal(DiscountedItems(cart, rule))
  {
    var items := DiscountedItems(cart, rule);
    assert forall x | x in items :: x in Applicable(cart, rule.productIds);
    CartTotalNonNegative(items);
    RateBound(CartTotal(items), rule.discountRate);
  }

  lemma RateBound(total: int, rate: int)
    requires total >= 0 && 0 <= rate <= 100
    ensures 0 <= (total * rate) / 100 <= total
  {
    assert total * rate <= total * 100;
  }

  lemma {:induction false} CartTotalNonNegative(cart: seq<Product>)
    requires forall x | x in cart :: x.price >= 0
    ensures CartTotal(cart) >= 0
  {
    if cart != [] {
      assert cart[|cart| - 1] in cart;
      assert forall x | x in cart[..|cart| - 1] :: x in cart;
      CartTotalNonNegative(cart[..|cart| - 1]);
    }
  }

  /**
   * The price is not clamped: one 100-yen item with a 500-yen value discount on it costs -400.
   */
  lemma FinalPriceCanBeNegative()
    ensures var cart := [Product(1, "tea", 100)];
      var discounts := [DiscountCondition(1, ValueDiscount([1], 1, 500))];
      CartTotal(cart) - AmountsTotal(Applied(cart, discounts)) == -400
  {
    var cart := [Product(1, "tea", 100)];
    var discounts := [DiscountCondition(1, ValueDiscount([1], 1, 500))];
    assert cart[..0] == [];
    assert Applicable(cart, [1]) == [cart[0]];
    assert discounts[..0] == [];
    var applied := Applied(cart, discounts);
    assert applied == [AppliedDiscount(1, YenOff(500), 500)];
    assert applied[..0] == [];
  }
}
