/**
 * The till's operation panel, client/src/components/OperationArea.tsx: the product pages of the
 * registration screen, the tender counters and the submit guard of the payment screen, the
 * change total of the change screen, and the buttons that move between the screens.
 */
module OperationArea {
  import opened Wrappers
  import opened Denominations
  import opened Ledger
  import opened Catalog
  import Sales
  import CartPricing

  function Max(a: int, b: int): int {
    if a >= b then a else b
  }

  function Min(a: int, b: int): int {
    if a <= b then a else b
  }

  // ---------------------------------------------------------------------------------------
  // The tender counters

  /**
   * `adjustDenom(d, adj)`: the count of face value d moves by adj but never below zero, and the
   * other counts are kept.
   */
  function AdjustDenom(paid: Amount, d: int, adj: int): (r: Amount)
    ensures d in r && r[d] >= 0
    ensures Count(paid, d) + adj >= 0 ==> r[d] == Count(paid, d) + adj
    ensures Count(paid, d) + adj < 0 ==> r[d] == 0
    ensures forall k | k != d :: (k in r <==> k in paid) && Count(r, k) == Count(paid, k)
  {
    paid[d := Max(0, Count(paid, d) + adj)]
  }

  /** A tender as the counters build it: face values as keys and no count below zero. */
  predicate WellFormedTender(paid: Amount) {
    KeysIn(paid, Denoms) && forall k | k in paid :: paid[k] >= 0
  }

  /**
   * `totalPaid` follows the counters: "+" on a face value adds that face value, and "-" takes it
   * away when its count is above zero and changes nothing when the count is zero.
   */
  lemma AdjustTotalPaid(paid: Amount, d: int)
    requires d in Denoms && Count(paid, d) >= 0
    ensures Value(AdjustDenom(paid, d, 1)) == Value(paid) + d
    ensures Count(paid, d) > 0 ==> Value(AdjustDenom(paid, d, -1)) == Value(paid) - d
    ensures Count(paid, d) == 0 ==> Value(AdjustDenom(paid, d, -1)) == Value(paid)
  {
    ValueUpdate(paid, d, Count(paid, d) + 1);
    ValueUpdate(paid, d, Max(0, Count(paid, d) - 1));
  }

  /** "+" then "-" on the same face value gives back every count. */
  lemma PlusThenMinus(paid: Amount, d: int)
    requires Count(paid, d) >= 0
    ensures forall k :: Count(AdjustDenom(AdjustDenom(paid, d, 1), d, -1), k) == Count(paid, k)
  {
  }

  /**
   * The "入金完了" button is enabled only when the change due is not negative, no submission
   * is under way and the cart is not empty.
   */
  function CanSubmit(paid: Amount, totalPrice: int, isSubmitting: bool, cart: seq<Product>): (ok: bool)
    ensures ok <==> Value(paid) >= totalPrice && !isSubmitting && |cart| > 0
  {
    !(Sales.ChangeOwed(paid, totalPrice) < 0 || isSubmitting || |cart| == 0)
  }

  /**
   * When the price shown is the cart total, a tender the button lets through is never refused
   * by the sale route as underpaid.
   */
  lemma SubmitIsNotUnderpaid(entries: seq<LedgerEntry>, cart: seq<Product>, paid: Amount, isSubmitting: bool)
    requires CanSubmit(paid, CartTotal(cart), isSubmitting, cart)
    ensures Sales.SaleOutcome(entries, cart, paid) != Failure(Sales.InsufficientPayment)
  {
  }

  /**
   * The premise above matters: the sale route charges the undiscounted cart total, so with the
   * discounted price on the panel a tender the button lets through can be refused as underpaid.
   * A 100-yen item with a 50-yen value discount shows 50; a 50-yen coin passes the guard and the
   * sale is refused.
   */
  lemma DiscountedPriceLetsUnderpaymentThrough()
    ensures var cart := [Product(1, "tea", 100)];
      var discounts := [CartPricing.DiscountCondition(1, CartPricing.ValueDiscount([1], 1, 50))];
      var paid := map[50 := 1];
      && CanSubmit(paid, CartTotal(cart) - CartPricing.AmountsTotal(CartPricing.Applied(cart, discounts)), false, cart)
      && Sales.SaleOutcome([], cart, paid) == Failure(Sales.InsufficientPayment)
  {
    var cart := [Product(1, "tea", 100)];
    var discounts := [CartPricing.DiscountCondition(1, CartPricing.ValueDiscount([1], 1, 50))];
    var paid := map[50 := 1];
    assert cart[..0] == [];
    assert CartPricing.Applicable(cart, [1]) == [cart[0]];
    assert discounts[..0] == [];
    var applied := CartPricing.Applied(cart, discounts);
    assert applied == [CartPricing.AppliedDiscount(1, CartPricing.YenOff(50), 50)];
    assert applied[..0] == [];
    ValueUpdate(map[], 50, 1);
    ValueOverNoKeys(Denoms, map[]);
  }

  /**
   * The displayed change total (`totalChange`) of a sale the server accepted is the change due:
   * the tender's value less the cart total.
   */
  lemma ShownChangeIsChangeDue(entries: seq<LedgerEntry>, cart: seq<Product>, paid: Amount)
    requires Sales.SaleOutcome(entries, cart, paid).Success?
    ensures Value(Sales.SaleOutcome(entries, cart, paid).value) == Sales.ChangeOwed(paid, CartTotal(cart))
  {
  }

  // ---------------------------------------------------------------------------------------
  // The product pages

  const ProductsPerPage: int := 9

  /** `products.slice(page * 9, (page + 1) * 9)`: at most nine products, those from index 9p on. */
  function PageSlice(products: seq<Product>, page: nat): (r: seq<Product>)
    ensures |r| <= ProductsPerPage
    ensures page * ProductsPerPage < |products| ==> |r| == Min(ProductsPerPage, |products| - page * ProductsPerPage)
    ensures page * ProductsPerPage >= |products| ==> r == []
    ensures forall k | 0 <= k < |r| :: r[k] == products[page * ProductsPerPage + k]
  {
    var lo := Min(page * ProductsPerPage, |products|);
    var hi := Min((page + 1) * ProductsPerPage, |products|);
    products[lo..hi]
  }

  /** `Math.ceil(products.length / 9)`: the fewest pages of nine that hold every product. */
  function TotalPages(n: nat): (t: nat)
    ensures t * ProductsPerPage >= n
    ensures t > 0 ==> (t - 1) * ProductsPerPage < n
  {
    (n + ProductsPerPage - 1) / ProductsPerPage
  }

  /** Every product is on exactly one page within the page count, at its index modulo nine. */
  lemma PagesCoverProducts(products: seq<Product>, i: nat)
    requires i < |products|
    ensures i / ProductsPerPage < TotalPages(|products|)
    ensures var page := PageSlice(products, i / ProductsPerPage);
      i % ProductsPerPage < |page| && page[i % ProductsPerPage] == products[i]
  {
    var p := i / ProductsPerPage;
    assert p * ProductsPerPage + i % ProductsPerPage == i;
  }

  /** `Array.from({ length: 9 - paginatedProducts.length })`: the empty cells that fill the grid. */
  function Placeholders(products: seq<Product>, page: nat): (r: int)
    ensures r >= 0 && r + |PageSlice(products, page)| == ProductsPerPage
  {
    ProductsPerPage - |PageSlice(products, page)|
  }

  /** "前へ": one page back, never below the first. */
  function PrevPage(page: int): int {
    Max(0, page - 1)
  }

  /** "次へ": one page on, never past the last. */
  function NextPage(page: int, totalPages: int): int {
    Min(totalPages - 1, page + 1)
  }

  /** "次へ" is disabled on the last page, and on the only page when there are no products. */
  function NextDisabled(page: int, totalPages: int): bool {
    page >= totalPages - 1
  }

  /** A page the label can show: the first, or one within the page count. */
  predicate ValidPage(page: int, totalPages: int) {
    0 <= page < Max(1, totalPages)
  }

  /** Both buttons keep the page valid; "次へ", when enabled, moves exactly one page on. */
  lemma PageButtonsKeepValid(page: int, totalPages: int)
    requires ValidPage(page, totalPages)
    ensures ValidPage(PrevPage(page), totalPages)
    ensures page > 0 ==> PrevPage(page) == page - 1
    ensures !NextDisabled(page, totalPages) ==> ValidPage(NextPage(page, totalPages), totalPages) && NextPage(page, totalPages) == page + 1
  {
  }

  // ---------------------------------------------------------------------------------------
  // Moving between the screens

  datatype Phase = Registering | Payment | Change

  /** The buttons of the three screens that stay in this component. */
  datatype Button = Complete | Back | Clear | Plus(d: int) | Minus(d: int)

  /** The phase, and the tender of the payment screen (empty whenever that screen is not shown). */
  datatype Screen = Screen(phase: Phase, paid: Amount)

  /**
   * One press: "完了" on the registration screen opens the payment screen with an empty tender,
   * "戻る" goes back to registration, "クリア" empties the tender, and "+"/"-" move one face
   * value's counter. A button that the current screen does not show changes nothing.
   */
  function Press(s: Screen, b: Button): (r: Screen)
    ensures s.phase == Registering ==> (r.phase == Payment <==> b == Complete) && (r.phase != Change)
    ensures s.phase == Payment ==> (r.phase == Registering <==> b == Back) && (r.phase != Change)
    ensures s.phase == Change ==> r == s
    ensures s.phase == Payment && b == Clear ==> r.paid == map[]
  {
    match s.phase
    case Registering =>
      if b == Complete then Screen(Payment, map[]) else s
    case Payment =>
      (match b
       case Back => Screen(Registering, map[])
       case Clear => s.(paid := map[])
       case Plus(d) => if d in Denoms then s.(paid := AdjustDenom(s.paid, d, 1)) else s
       case Minus(d) => if d in Denoms then s.(paid := AdjustDenom(s.paid, d, -1)) else s
       case Complete => s)
    case Change => s
  }

  /** Every press keeps the tender keyed by face values with no count below zero. */
  lemma PressKeepsTenderWellFormed(s: Screen, b: Button)
    requires WellFormedTender(s.paid)
    ensures WellFormedTender(Press(s, b).paid)
  {
  }

  /** After "クリア" the tender is worth nothing, so the change shown is minus the price. */
  lemma ClearResetsTender(s: Screen, totalPrice: int)
    requires s.phase == Payment
    ensures Value(Press(s, Clear).paid) == 0
    ensures Sales.ChangeOwed(Press(s, Clear).paid, totalPrice) == -totalPrice
  {
    ValueOverNoKeys(Denoms, map[]);
  }
}
