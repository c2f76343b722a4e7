/**
 * The cart store of the index page: the three cart handlers, written as the pure
 * transformations of the previous line list that the page hands to its state setter,
 * and the badge count that the page derives from the lines.
 */
module CartStore {
  import opened Domain

  /** No two lines share a product id: the cart is keyed by id. */
  ghost predicate UniqueIds(cart: seq<CartLine>) {
    forall i, j :: 0 <= i < j < |cart| ==> cart[i].Id() != cart[j].Id()
  }

  /** No line is ever kept at a quantity below one. */
  ghost predicate AllPositive(cart: seq<CartLine>) {
    forall i :: 0 <= i < |cart| ==> cart[i].quantity >= 1
  }

  /** The invariant of the cart store. */
  ghost predicate WellFormed(cart: seq<CartLine>) {
    UniqueIds(cart) && AllPositive(cart)
  }

  ghost predicate HasId(cart: seq<CartLine>, id: int) {
    exists i :: 0 <= i < |cart| && cart[i].Id() == id
  }

  /** `prevItems.find(item => item.id === id)`: the first line with that id, if any. */
  function Find(cart: seq<CartLine>, id: int): (r: Option<CartLine>)
    ensures r.Some? <==> HasId(cart, id)
    ensures r.Some? ==> r.value in cart && r.value.Id() == id
    ensures r.Some? ==> exists k :: 0 <= k < |cart| && r.value == cart[k] && forall j :: 0 <= j < k ==> cart[j].Id() != id
  {
    if cart == [] then None
    else if cart[0].Id() == id then Some(cart[0])
    else
      assert forall i :: 0 < i < |cart| ==> cart[i] == cart[1..][i - 1];
      var r := Find(cart[1..], id);
      if r.Some? then
        var k :| 0 <= k < |cart[1..]| && r.value == cart[1..][k] && forall j :: 0 <= j < k ==> cart[1..][j].Id() != id;
        assert r.value == cart[k + 1] && forall j :: 0 <= j < k + 1 ==> cart[j].Id() != id;
        r
      else
        r
  }

  /** The `map` of the add handler: every line with that id gets one more unit. */
  function Increment(cart: seq<CartLine>, id: int): (r: seq<CartLine>)
    ensures |r| == |cart|
    ensures forall i :: 0 <= i < |cart| ==> r[i].product == cart[i].product
    ensures forall i :: 0 <= i < |cart| ==>
      r[i].quantity == if cart[i].Id() == id then cart[i].quantity + 1 else cart[i].quantity
  {
    if cart == [] then []
    else
      [if cart[0].Id() == id then cart[0].(quantity := cart[0].quantity + 1) else cart[0]]
      + Increment(cart[1..], id)
  }

  /** The `map` of the update handler: every line with that id gets exactly `quantity`. */
  function SetQuantity(cart: seq<CartLine>, id: int, quantity: int): (r: seq<CartLine>)
    ensures |r| == |cart|
    ensures forall i :: 0 <= i < |cart| ==> r[i].product == cart[i].product
    ensures forall i :: 0 <= i < |cart| ==>
      r[i].quantity == if cart[i].Id() == id then quantity else cart[i].quantity
  {
    if cart == [] then []
    else
      [if cart[0].Id() == id then cart[0].(quantity := quantity) else cart[0]]
      + SetQuantity(cart[1..], id, quantity)
  }

  /** `handleAddToCart`: one more unit of an existing line, or a new line of one unit at the end. */
  function AddToCart(cart: seq<CartLine>, product: Product): seq<CartLine> {
    match Find(cart, product.id)
    case Some(_) => Increment(cart, product.id)
    case None => cart + [CartLine(product, 1)]
  }

  /** `handleRemoveItem`: `filter` out every line with that id. */
  function RemoveItem(cart: seq<CartLine>, id: int): (r: seq<CartLine>)
    ensures |r| <= |cart|
    ensures forall l :: l in r <==> l in cart && l.Id() != id
    ensures !HasId(cart, id) ==> r == cart
  {
    if cart == [] then []
    else if cart[0].Id() == id then RemoveItem(cart[1..], id)
    else
      assert !HasId(cart, id) ==> !HasId(cart[1..], id) by {
        if HasId(cart[1..], id) {
          var i :| 0 <= i < |cart[1..]| && cart[1..][i].Id() == id;
          assert cart[i + 1].Id() == id;
        }
      }
      [cart[0]] + RemoveItem(cart[1..], id)
  }

  /** `handleUpdateQuantity`: a quantity of zero or less removes the line; otherwise it is set. */
  function UpdateQuantity(cart: seq<CartLine>, id: int, quantity: int): seq<CartLine> {
    if quantity <= 0 then RemoveItem(cart, id) else SetQuantity(cart, id, quantity)
  }

  /** `cartItemsCount`: the sum of the line quantities (summed from the front; addition commutes). */
  function CartItemsCount(cart: seq<CartLine>): int {
    if cart == [] then 0 else cart[0].quantity + CartItemsCount(cart[1..])
  }

  /** The number of lines with the given id. */
  function Occurrences(cart: seq<CartLine>, id: int): nat {
    if cart == [] then 0 else (if cart[0].Id() == id then 1 else 0) + Occurrences(cart[1..], id)
  }

  /** The total quantity held under the given id. */
  function QuantityOf(cart: seq<CartLine>, id: int): int {
    if cart == [] then 0 else (if cart[0].Id() == id then cart[0].quantity else 0) + QuantityOf(cart[1..], id)
  }

  // ---- add ----

  /** Adding a product that has a line: same length and order, only that line gains one unit. */
  lemma AddToExistingLine(cart: seq<CartLine>, product: Product, k: int)
    requires UniqueIds(cart) && 0 <= k < |cart| && cart[k].Id() == product.id
    ensures |AddToCart(cart, product)| == |cart|
    ensures AddToCart(cart, product)[k] == cart[k].(quantity := cart[k].quantity + 1)
    ensures forall i :: 0 <= i < |cart| && i != k ==> AddToCart(cart, product)[i] == cart[i]
  {
    assert HasId(cart, product.id);
  }

  /** Adding a product that has no line appends `{...product, quantity: 1}` and keeps every earlier line. */
  lemma AddNewLine(cart: seq<CartLine>, product: Product)
    requires !HasId(cart, product.id)
    ensures AddToCart(cart, product) == cart + [CartLine(product, 1)]
    ensures UniqueIds(cart) ==> UniqueIds(AddToCart(cart, product))
  {
  }

  lemma AddToCartWellFormed(cart: seq<CartLine>, product: Product)
    requires WellFormed(cart)
    ensures WellFormed(AddToCart(cart, product))
  {
    if HasId(cart, product.id) {
      var r := AddToCart(cart, product);
      assert r == Increment(cart, product.id);
      assert forall i :: 0 <= i < |r| ==> r[i].Id() == cart[i].Id();
    }
  }

  // ---- update ----

  /** A non-positive quantity has exactly the effect of removing the id. */
  lemma UpdateToZeroRemoves(cart: seq<CartLine>, id: int, quantity: int)
    requires quantity <= 0
    ensures UpdateQuantity(cart, id, quantity) == RemoveItem(cart, id)
    ensures !HasId(UpdateQuantity(cart, id, quantity), id)
  {
  }

  /** A positive quantity sets the matching line to exactly that quantity, keeps length, order
      and every other line, and changes nothing when the id is absent. */
  lemma UpdatePositiveSets(cart: seq<CartLine>, id: int, quantity: int)
    requires quantity > 0
    ensures |UpdateQuantity(cart, id, quantity)| == |cart|
    ensures forall i :: 0 <= i < |cart| ==>
      UpdateQuantity(cart, id, quantity)[i] ==
        if cart[i].Id() == id then cart[i].(quantity := quantity) else cart[i]
    ensures !HasId(cart, id) ==> UpdateQuantity(cart, id, quantity) == cart
  {
    var r := UpdateQuantity(cart, id, quantity);
    if !HasId(cart, id) {
      assert forall i :: 0 <= i < |cart| ==> r[i] == cart[i];
    }
  }

  lemma UpdateQuantityWellFormed(cart: seq<CartLine>, id: int, quantity: int)
    requires WellFormed(cart)
    ensures WellFormed(UpdateQuantity(cart, id, quantity))
  {
    if quantity <= 0 {
      RemoveItemWellFormed(cart, id);
    } else {
      var r := UpdateQuantity(cart, id, quantity);
      assert forall i :: 0 <= i < |r| ==> r[i].Id() == cart[i].Id();
    }
  }

  // ---- remove ----

  /** Removing keeps the remaining lines in their original relative order. */
  lemma {:induction false} RemoveItemKeepsOrder(cart: seq<CartLine>, id: int)
    ensures SubsequenceOf(RemoveItem(cart, id), cart)
  {
    if cart != [] {
      RemoveItemKeepsOrder(cart[1..], id);
      var r := RemoveItem(cart, id);
      if cart[0].Id() != id {
        assert r[0] == cart[0] && r[1..] == RemoveItem(cart[1..], id);
      }
    }
  }

  /** Removing drops every line with that id and keeps every other line as often as it was there. */
  lemma {:induction false} RemoveItemMultiplicity(cart: seq<CartLine>, id: int, l: CartLine)
    ensures multiset(RemoveItem(cart, id))[l] == if l.Id() == id then 0 else multiset(cart)[l]
  {
    if cart != [] {
      RemoveItemMultiplicity(cart[1..], id, l);
      assert cart == [cart[0]] + cart[1..];
    }
  }

  lemma {:induction false} RemoveItemWellFormed(cart: seq<CartLine>, id: int)
    requires WellFormed(cart)
    ensures WellFormed(RemoveItem(cart, id))
  {
    if cart != [] {
      RemoveItemWellFormed(cart[1..], id);
      var rest := RemoveItem(cart[1..], id);
      if cart[0].Id() != id {
        var r := [cart[0]] + rest;
        forall j | 0 < j < |r| ensures r[0].Id() != r[j].Id() {
          assert r[j] in rest;
          var m :| 0 <= m < |cart[1..]| && cart[1..][m] == r[j];
          assert cart[m + 1] == r[j];
        }
        forall j | 0 <= j < |r| ensures r[j].quantity >= 1 {
          if j > 0 { assert r[j] in rest; }
        }
      }
    }
  }

  // ---- count ----

  lemma {:induction false} CountOfConcat(a: seq<CartLine>, b: seq<CartLine>)
    ensures CartItemsCount(a + b) == CartItemsCount(a) + CartItemsCount(b)
  {
    if a != [] {
      CountOfConcat(a[1..], b);
      assert (a + b)[1..] == a[1..] + b;
    } else {
      assert a + b == b;
    }
  }

  lemma {:induction false} CountOfIncrement(cart: seq<CartLine>, id: int)
    ensures CartItemsCount(Increment(cart, id)) == CartItemsCount(cart) + Occurrences(cart, id)
  {
    if cart != [] {
      CountOfIncrement(cart[1..], id);
      assert Increment(cart, id)[1..] == Increment(cart[1..], id);
    }
  }

  lemma {:induction false} CountOfSetQuantity(cart: seq<CartLine>, id: int, quantity: int)
    ensures CartItemsCount(SetQuantity(cart, id, quantity))
         == CartItemsCount(cart) - QuantityOf(cart, id) + quantity * Occurrences(cart, id)
  {
    if cart != [] {
      CountOfSetQuantity(cart[1..], id, quantity);
      assert SetQuantity(cart, id, quantity)[1..] == SetQuantity(cart[1..], id, quantity);
    }
  }

  lemma {:induction false} CountOfRemoveItem(cart: seq<CartLine>, id: int)
    ensures CartItemsCount(RemoveItem(cart, id)) == CartItemsCount(cart) - QuantityOf(cart, id)
  {
    if cart != [] {
      CountOfRemoveItem(cart[1..], id);
      if cart[0].Id() != id {
        assert ([cart[0]] + RemoveItem(cart[1..], id))[1..] == RemoveItem(cart[1..], id);
      }
    }
  }

  /** With unique ids the id names one line: it occurs once and holds that line's quantity. */
  lemma {:induction false} SingleLine(cart: seq<CartLine>, k: int)
    requires UniqueIds(cart) && 0 <= k < |cart|
    ensures Occurrences(cart, cart[k].Id()) == 1
    ensures QuantityOf(cart, cart[k].Id()) == cart[k].quantity
  {
    if k == 0 {
      AbsentId(cart[1..], cart[0].Id());
    } else {
      SingleLine(cart[1..], k - 1);
    }
  }

  lemma {:induction false} AbsentId(cart: seq<CartLine>, id: int)
    requires forall i :: 0 <= i < |cart| ==> cart[i].Id() != id
    ensures Occurrences(cart, id) == 0 && QuantityOf(cart, id) == 0
  {
    if cart != [] {
      AbsentId(cart[1..], id);
    }
  }

  /** The badge grows by exactly one on every add, whether the line existed or not. */
  lemma CountOfAddToCart(cart: seq<CartLine>, product: Product)
    requires UniqueIds(cart)
    ensures CartItemsCount(AddToCart(cart, product)) == CartItemsCount(cart) + 1
  {
    if HasId(cart, product.id) {
      var k :| 0 <= k < |cart| && cart[k].Id() == product.id;
      CountOfIncrement(cart, product.id);
      SingleLine(cart, k);
    } else {
      CountOfConcat(cart, [CartLine(product, 1)]);
    }
  }

  /** An update to a positive quantity moves the badge by the difference to the old quantity. */
  lemma CountOfUpdate(cart: seq<CartLine>, k: int, quantity: int)
    requires UniqueIds(cart) && 0 <= k < |cart|
    ensures CartItemsCount(UpdateQuantity(cart, cart[k].Id(), quantity))
         == CartItemsCount(cart) - cart[k].quantity + (if quantity > 0 then quantity else 0)
  {
    SingleLine(cart, k);
    if quantity <= 0 {
      CountOfRemoveItem(cart, cart[k].Id());
    } else {
      CountOfSetQuantity(cart, cart[k].Id(), quantity);
    }
  }

  /** Removing a line takes its whole quantity off the badge. */
  lemma CountOfRemove(cart: seq<CartLine>, k: int)
    requires UniqueIds(cart) && 0 <= k < |cart|
    ensures CartItemsCount(RemoveItem(cart, cart[k].Id())) == CartItemsCount(cart) - cart[k].quantity
  {
    SingleLine(cart, k);
    CountOfRemoveItem(cart, cart[k].Id());
  }

  /** With every quantity at least one, the badge counts at least one unit per line. */
  lemma {:induction false} CountAtLeastLines(cart: seq<CartLine>)
    requires AllPositive(cart)
    ensures CartItemsCount(cart) >= |cart|
    ensures CartItemsCount(cart) == 0 <==> cart == []
  {
    if cart != [] {
      CountAtLeastLines(cart[1..]);
    }
  }

  /** Adding the same product twice to an empty cart gives one line of two; updating it to zero empties the cart. */
  lemma AddTwiceThenClear(product: Product)
    ensures AddToCart(AddToCart([], product), product) == [CartLine(product, 2)]
    ensures CartItemsCount(AddToCart(AddToCart([], product), product)) == 2
    ensures UpdateQuantity(AddToCart(AddToCart([], product), product), product.id, 0) == []
  {
    var once := AddToCart([], product);
    assert once == [CartLine(product, 1)];
    assert once[0].Id() == product.id;
    var twice := AddToCart(once, product);
    assert twice == [CartLine(product, 2)];
  }
}
