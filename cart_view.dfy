/** The cart drawer: its subtotal, its line-count badge, the quantity controls and the footer. */
module CartView {
  import opened Domain
  import CartStore

  /** One line's contribution to the subtotal, in cents. */
  function LineTotal(line: CartLine): int {
    line.product.price * line.quantity
  }

  /** `calculateTotal`: the sum over the lines of price times quantity (summed from the front). */
  function CalculateTotal(cart: seq<CartLine>): int {
    if cart == [] then 0 else LineTotal(cart[0]) + CalculateTotal(cart[1..])
  }

  lemma {:induction false} TotalOfConcat(a: seq<CartLine>, b: seq<CartLine>)
    ensures CalculateTotal(a + b) == CalculateTotal(a) + CalculateTotal(b)
  {
    if a == [] {
      assert a + b == b;
    } else {
      TotalOfConcat(a[1..], b);
      assert (a + b)[1..] == a[1..] + b;
    }
  }

  /** Appending a line adds exactly its price times its quantity; an empty cart totals 0. */
  lemma TotalOfAppend(cart: seq<CartLine>, line: CartLine)
    ensures CalculateTotal([]) == 0
    ensures CalculateTotal(cart + [line]) == CalculateTotal(cart) + line.product.price * line.quantity
  {
    TotalOfConcat(cart, [line]);
  }

  /** With every quantity at least one the total is never negative, and it is at least the sum of the prices. */
  lemma {:induction false} TotalBounds(cart: seq<CartLine>)
    requires CartStore.AllPositive(cart)
    ensures CalculateTotal(cart) >= PriceSum(cart) >= 0
  {
    if cart != [] {
      TotalBounds(cart[1..]);
      assert LineTotal(cart[0]) >= cart[0].product.price;
    }
  }

  function PriceSum(cart: seq<CartLine>): nat {
    if cart == [] then 0 else cart[0].product.price + PriceSum(cart[1..])
  }

  /** Adding a product raises the total by exactly that line's price. */
  lemma TotalOfAddToCart(cart: seq<CartLine>, product: Product)
    requires CartStore.UniqueIds(cart)
    ensures CalculateTotal(CartStore.AddToCart(cart, product)) == CalculateTotal(cart) + PriceOf(cart, product)
  {
    if CartStore.HasId(cart, product.id) {
      var k :| 0 <= k < |cart| && cart[k].Id() == product.id;
      assert CartStore.AddToCart(cart, product) == CartStore.Increment(cart, product.id);
      TotalOfIncrement(cart, product.id);
      PriceOfLine(cart, product, k);
    } else {
      assert CartStore.AddToCart(cart, product) == cart + [CartLine(product, 1)];
      TotalOfConcat(cart, [CartLine(product, 1)]);
      PriceOfAbsent(cart, product);
    }
  }

  /** The unit price an add charges: that of the existing line, else the product's own. */
  function PriceOf(cart: seq<CartLine>, product: Product): nat {
    if cart == [] then product.price
    else if cart[0].Id() == product.id then cart[0].product.price
    else PriceOf(cart[1..], product)
  }

  lemma {:induction false} PriceOfLine(cart: seq<CartLine>, product: Product, k: int)
    requires CartStore.UniqueIds(cart) && 0 <= k < |cart| && cart[k].Id() == product.id
    ensures PriceOf(cart, product) == cart[k].product.price
    ensures PricesOf(cart, product.id) == cart[k].product.price
  {
    if k > 0 {
      PriceOfLine(cart[1..], product, k - 1);
    } else {
      PricesOfAbsent(cart[1..], product.id);
    }
  }

  lemma {:induction false} PriceOfAbsent(cart: seq<CartLine>, product: Product)
    requires !CartStore.HasId(cart, product.id)
    ensures PriceOf(cart, product) == product.price
  {
    if cart != [] {
      assert cart[0].Id() != product.id;
      assert !CartStore.HasId(cart[1..], product.id);
      PriceOfAbsent(cart[1..], product);
    }
  }

  /** The sum of the prices of the lines with the given id. */
  function PricesOf(cart: seq<CartLine>, id: int): nat {
    if cart == [] then 0
    else (if cart[0].Id() == id then cart[0].product.price else 0) + PricesOf(cart[1..], id)
  }

  lemma {:induction false} PricesOfAbsent(cart: seq<CartLine>, id: int)
    requires forall i :: 0 <= i < |cart| ==> cart[i].Id() != id
    ensures PricesOf(cart, id) == 0
  {
    if cart != [] {
      PricesOfAbsent(cart[1..], id);
    }
  }

  lemma {:induction false} TotalOfIncrement(cart: seq<CartLine>, id: int)
    ensures CalculateTotal(CartStore.Increment(cart, id)) == CalculateTotal(cart) + PricesOf(cart, id)
  {
    if cart != [] {
      TotalOfIncrement(cart[1..], id);
      assert CartStore.Increment(cart, id)[1..] == CartStore.Increment(cart[1..], id);
    }
  }

  /** The drawer's header badge: the number of lines. */
  function HeaderBadge(cart: seq<CartLine>): nat {
    |cart|
  }

  ghost function IdSet(cart: seq<CartLine>): set<int> {
    set l | l in cart :: l.Id()
  }

  /** With unique ids the header badge counts the distinct products in the cart. */
  lemma {:induction false} HeaderBadgeCountsProducts(cart: seq<CartLine>)
    requires CartStore.UniqueIds(cart)
    ensures HeaderBadge(cart) == |IdSet(cart)|
  {
    if cart != [] {
      var rest := cart[1..];
      HeaderBadgeCountsProducts(rest);
      assert IdSet(cart) == {cart[0].Id()} + IdSet(rest) by {
        forall x | x in IdSet(cart) ensures x in {cart[0].Id()} + IdSet(rest) {
          var l :| l in cart && l.Id() == x;
          var i :| 0 <= i < |cart| && cart[i] == l;
          if i > 0 { assert rest[i - 1] == l; }
        }
      }
      assert cart[0].Id() !in IdSet(rest);
    }
  }

  /** The header badge never exceeds the navbar badge, and they agree exactly when every line holds one unit. */
  lemma {:induction false} HeaderBadgeVersusCount(cart: seq<CartLine>)
    requires CartStore.AllPositive(cart)
    ensures HeaderBadge(cart) <= CartStore.CartItemsCount(cart)
    ensures HeaderBadge(cart) == CartStore.CartItemsCount(cart) <==>
      forall i :: 0 <= i < |cart| ==> cart[i].quantity == 1
  {
    if cart != [] {
      HeaderBadgeVersusCount(cart[1..]);
      CartStore.CountAtLeastLines(cart[1..]);
      if cart[0].quantity == 1 && forall i :: 0 <= i < |cart[1..]| ==> cart[1..][i].quantity == 1 {
        assert forall i :: 0 < i < |cart| ==> cart[i] == cart[1..][i - 1];
      }
    }
  }

  /** A −/+ button: the quantity it requests for its line and whether it is disabled. */
  datatype QuantityControl = QuantityControl(request: int, disabled: bool)

  /** The − button: requests one unit less and is disabled at one unit or below. */
  function DecrementControl(line: CartLine): QuantityControl {
    QuantityControl(line.quantity - 1, line.quantity <= 1)
  }

  /** The + button: requests one unit more and is never disabled. */
  function IncrementControl(line: CartLine): QuantityControl {
    QuantityControl(line.quantity + 1, false)
  }

  /** An enabled − button takes exactly one unit off its line and never removes it. */
  lemma DecrementKeepsLine(cart: seq<CartLine>, k: int)
    requires CartStore.WellFormed(cart) && 0 <= k < |cart|
    requires !DecrementControl(cart[k]).disabled
    ensures var r := CartStore.UpdateQuantity(cart, cart[k].Id(), DecrementControl(cart[k]).request);
      |r| == |cart| && r[k] == cart[k].(quantity := cart[k].quantity - 1) && r[k].quantity >= 1 &&
      forall i :: 0 <= i < |cart| && i != k ==> r[i] == cart[i]
  {
    CartStore.UpdatePositiveSets(cart, cart[k].Id(), DecrementControl(cart[k]).request);
  }

  /** The + button has the same effect as adding the line's product to the cart again. */
  lemma IncrementIsAddToCart(cart: seq<CartLine>, k: int)
    requires CartStore.WellFormed(cart) && 0 <= k < |cart|
    ensures CartStore.UpdateQuantity(cart, cart[k].Id(), IncrementControl(cart[k]).request)
         == CartStore.AddToCart(cart, cart[k].product)
  {
    var id, q := cart[k].Id(), cart[k].quantity + 1;
    assert q > 0;
    CartStore.AddToExistingLine(cart, cart[k].product, k);
    CartStore.UpdatePositiveSets(cart, id, q);
    var u, a := CartStore.UpdateQuantity(cart, id, q), CartStore.AddToCart(cart, cart[k].product);
    forall i | 0 <= i < |cart| ensures u[i] == a[i] {
      if i != k {
        assert cart[i].Id() != id;
      }
    }
  }

  /** The footer with subtotal, total and checkout: present only for a non-empty cart. */
  function Footer(cart: seq<CartLine>): (r: Option<int>)
    ensures r.Some? <==> cart != []
    ensures r.Some? ==> r.value == CalculateTotal(cart)
  {
    if |cart| > 0 then Some(CalculateTotal(cart)) else None
  }
}
