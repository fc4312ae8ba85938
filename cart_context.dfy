/**
 * The cart context: a provider holding an append-only list of items, and
 * the `useCart` hook that hands the provider's value to a consumer or
 * throws when no provider encloses it.
 */
module CartContext {
  import opened Wrappers

  /** The message `useCart` throws outside a provider. */
  const OutsideProviderError: string := "useCart must be used within a CartProvider"

  /** The value a provider publishes: its current items (and, in the source, `addItem`). */
  datatype CartContextValue<T> = CartContextValue(items: seq<T>)

  /** `[...items, item]`: the old items, unchanged, followed by the new one. */
  function Appended<T>(items: seq<T>, item: T): (r: seq<T>)
    ensures |r| == |items| + 1
    ensures r[..|items|] == items
    ensures r[|items|] == item
  {
    items + [item]
  }

  /** addItem does not de-duplicate: adding the same item twice adds two entries. */
  lemma AppendedTwiceKeepsBoth<T>(items: seq<T>, item: T)
    ensures var r := Appended(Appended(items, item), item);
      && |r| == |items| + 2
      && r[..|items|] == items
      && r[|items|] == item && r[|items| + 1] == item
      && multiset(r)[item] == multiset(items)[item] + 2
  {
  }

  /** `CartProvider`: the `items` state and its `addItem` transition. */
  class CartProvider<T> {
    var items: seq<T>

    /** `useState<any[]>([])`: a provider starts with no items. */
    constructor ()
      ensures items == []
    {
      items := [];
    }

    /** The context value published to consumers. */
    function Value(): (v: CartContextValue<T>)
      reads this
      ensures v.items == items
    {
      CartContextValue(items)
    }

    /** `addItem`: append the item to the held list. */
    method AddItem(item: T)
      modifies this
      ensures items == Appended(old(items), item)
    {
      items := items + [item];
    }
  }

  /**
   * `useCart`: the enclosing provider's value (None when there is none);
   * it fails with the usage error when there is no provider and otherwise
   * returns that value unchanged.
   */
  function UseCart<T>(context: Option<CartContextValue<T>>): (r: Result<CartContextValue<T>, string>)
    ensures r.Failure? <==> context.None?
    ensures r.Failure? ==> r.error == OutsideProviderError
    ensures r.Success? ==> r.value == context.value
  {
    match context
    case None => Failure(OutsideProviderError)
    case Some(value) => Success(value)
  }

  /**
   * A consumer inside provider `p` calls `addItem(item)` through the
   * context and, on the next render, reads the context with `useCart`:
   * the read succeeds and shows the provider's old items followed by the
   * new one.
   */
  method ConsumerSeesAdd<T>(p: CartProvider<T>, item: T) returns (seen: Result<CartContextValue<T>, string>)
    modifies p
    ensures p.items == Appended(old(p.items), item)
    ensures seen.Success? && seen.value == p.Value()
    ensures seen == Success(CartContextValue(old(p.items) + [item]))
  {
    p.AddItem(item);
    seen := UseCart(Some(p.Value()));
  }
}
