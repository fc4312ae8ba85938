/**
 * The localStorage-backed cart of the products page. The stored value is
 * an array of line items: a product's fields plus a quantity. Adding a
 * product finds the first line item with the same id and increments its
 * quantity in place, or appends a new line item with quantity one, and
 * writes the whole array back.
 */
module ProductCart {
  import opened Wrappers
  import opened ProductCatalog

  /** `{...product, quantity}`: the product's fields and a count. */
  datatype LineItem = LineItem(product: Product, quantity: int)

  /** `cart.find(item => item.id === id)`, as the index of the first match. */
  function FirstIndexOf(cart: seq<LineItem>, id: int): (r: Option<nat>)
    ensures r.Some? ==> r.value < |cart| && cart[r.value].product.id == id
    ensures r.Some? ==> forall k :: 0 <= k < r.value ==> cart[k].product.id != id
    ensures r.None? ==> forall k :: 0 <= k < |cart| ==> cart[k].product.id != id
  {
    if cart == [] then None
    else if cart[0].product.id == id then Some(0)
    else match FirstIndexOf(cart[1..], id)
      case None => None
      case Some(k) => Some(k + 1)
  }

  /** The cart after adding `product` once: increment the first match, or append. */
  function AddedToCart(cart: seq<LineItem>, product: Product): (r: seq<LineItem>)
  {
    match FirstIndexOf(cart, product.id)
    case Some(i) => cart[i := cart[i].(quantity := cart[i].quantity + 1)]
    case None => cart + [LineItem(product, 1)]
  }

  /** `localStorage.getItem('cart') || '[]'`: a missing cart reads as empty. */
  function StoredCart(stored: Option<seq<LineItem>>): (r: seq<LineItem>)
    ensures stored.None? ==> r == []
    ensures stored.Some? ==> r == stored.value
  {
    match stored
    case None => []
    case Some(cart) => cart
  }

  /** Adding to a browser with no stored cart gives a cart of just that product, quantity 1. */
  lemma AddToMissingCart(product: Product)
    ensures AddedToCart(StoredCart(None), product) == [LineItem(product, 1)]
  {
  }

  /**
   * `handleAddToCart`: load the stored cart, search it for the product's
   * id, update it, and return the array to be stored back.
   */
  method HandleAddToCart(stored: Option<seq<LineItem>>, product: Product) returns (saved: seq<LineItem>)
    ensures saved == AddedToCart(StoredCart(stored), product)
  {
    var cart := if stored.Some? then stored.value else [];
    var i := 0;
    while i < |cart| && cart[i].product.id != product.id
      invariant 0 <= i <= |cart|
      invariant forall k :: 0 <= k < i ==> cart[k].product.id != product.id
    {
      i := i + 1;
    }
    if i < |cart| {
      cart := cart[i := cart[i].(quantity := cart[i].quantity + 1)];
    } else {
      cart := cart + [LineItem(product, 1)];
    }
    saved := cart;
  }

  // ---------------------------------------------------------------------
  // Properties of an add
  // ---------------------------------------------------------------------

  predicate HasId(cart: seq<LineItem>, id: int)
  {
    exists k :: 0 <= k < |cart| && cart[k].product.id == id
  }

  /** No two line items carry the same product id. */
  predicate UniqueIds(cart: seq<LineItem>)
  {
    forall i, j :: 0 <= i < j < |cart| ==> cart[i].product.id != cart[j].product.id
  }

  /** The sum of the quantities of all line items. */
  function TotalQuantity(cart: seq<LineItem>): (r: int)
  {
    if cart == [] then 0 else cart[0].quantity + TotalQuantity(cart[1..])
  }

  /**
   * A product already in the cart at i (its first line item with that id,
   * the only one when ids are unique): same length, that item's quantity
   * one more, every other item unchanged.
   */
  lemma AddExisting(cart: seq<LineItem>, product: Product, i: nat)
    requires i < |cart| && cart[i].product.id == product.id
    requires forall k :: 0 <= k < i ==> cart[k].product.id != product.id
    ensures var r := AddedToCart(cart, product);
      && |r| == |cart|
      && r[i].product == cart[i].product
      && r[i].quantity == cart[i].quantity + 1
      && forall k :: 0 <= k < |cart| && k != i ==> r[k] == cart[k]
  {
  }

  /** A product not in the cart: one new line item at the end, with quantity 1. */
  lemma AddAbsent(cart: seq<LineItem>, product: Product)
    requires !HasId(cart, product.id)
    ensures var r := AddedToCart(cart, product);
      && |r| == |cart| + 1
      && r[..|cart|] == cart
      && r[|cart|] == LineItem(product, 1)
  {
  }

  /** Adding keeps product ids unique. */
  lemma AddKeepsIdsUnique(cart: seq<LineItem>, product: Product)
    requires UniqueIds(cart)
    ensures UniqueIds(AddedToCart(cart, product))
  {
  }

  lemma {:induction false} TotalQuantityAppend(cart: seq<LineItem>, item: LineItem)
    ensures TotalQuantity(cart + [item]) == TotalQuantity(cart) + item.quantity
    decreases |cart|
  {
    if cart != [] {
      assert (cart + [item])[1..] == cart[1..] + [item];
      TotalQuantityAppend(cart[1..], item);
    }
  }

  lemma {:induction false} TotalQuantityUpdate(cart: seq<LineItem>, i: nat, item: LineItem)
    requires i < |cart|
    ensures TotalQuantity(cart[i := item]) == TotalQuantity(cart) - cart[i].quantity + item.quantity
    decreases |cart|
  {
    if i > 0 {
      assert cart[i := item][1..] == cart[1..][i - 1 := item];
      TotalQuantityUpdate(cart[1..], i - 1, item);
    } else {
      assert cart[i := item][1..] == cart[1..];
    }
  }

  /** Every add raises the cart's total quantity by exactly one. */
  lemma AddRaisesTotalByOne(cart: seq<LineItem>, product: Product)
    ensures TotalQuantity(AddedToCart(cart, product)) == TotalQuantity(cart) + 1
  {
    match FirstIndexOf(cart, product.id)
    case Some(i) =>
      TotalQuantityUpdate(cart, i, cart[i].(quantity := cart[i].quantity + 1));
    case None =>
      TotalQuantityAppend(cart, LineItem(product, 1));
  }

  /** Adding a new product twice gives one line item with quantity 2, not two line items. */
  lemma AddTwice(cart: seq<LineItem>, product: Product)
    requires !HasId(cart, product.id)
    ensures var r := AddedToCart(AddedToCart(cart, product), product);
      && |r| == |cart| + 1
      && r[..|cart|] == cart
      && r[|cart|] == LineItem(product, 2)
  {
    var once := AddedToCart(cart, product);
    AddAbsent(cart, product);
    assert forall k :: 0 <= k < |cart| ==> once[k] == cart[k];
    assert FirstIndexOf(once, product.id) == Some(|cart|);
  }
}
