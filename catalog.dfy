/** Products as the sale route, the payout route and the client cart see them. */
module Catalog {

  datatype Product = Product(id: int, name: string, price: int)

  /** `cart.reduce((sum, item) => sum + item.price, 0)`. */
  function CartTotal(cart: seq<Product>): int {
    if cart == [] then 0 else CartTotal(cart[..|cart| - 1]) + cart[|cart| - 1].price
  }

  /** `cart.map(p => p.id)`. */
  function CartIds(cart: seq<Product>): (ids: seq<int>)
    ensures |ids| == |cart| && forall i | 0 <= i < |cart| :: ids[i] == cart[i].id
  {
    seq(|cart|, i requires 0 <= i < |cart| => cart[i].id)
  }

  /** The total of two carts put together is the sum of their totals. */
  lemma {:induction false} CartTotalAppend(a: seq<Product>, b: seq<Product>)
    ensures CartTotal(a + b) == CartTotal(a) + CartTotal(b)
    decreases |b|
  {
    if b != [] {
      var init := b[..|b| - 1];
      assert (a + b)[..|a + b| - 1] == a + init;
      CartTotalAppend(a, init);
    } else {
      assert a + b == a;
    }
  }
}
