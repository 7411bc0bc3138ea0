/** The cart page: it loads the stored cart into its own list, edits that
    list and mirrors every edit into the storage slot. */
module CartPageModel {
  import opened Seqs
  import opened Basket

  /** The list `updateQuantity` leaves: a quantity below 1 removes the line,
      any other quantity is set on every line with that id. */
  function Updated(b: seq<Line>, id: string, q: int): (r: seq<Line>)
    ensures q < 1 ==> r == Without(b, id)
    ensures q >= 1 ==> r == WithQuantity(b, id, q)
  {
    if q < 1 then Without(b, id) else WithQuantity(b, id, q)
  }

  /** A quantity of at least 1 changes only the quantity of the matched
      lines: length, order and every other field stay. */
  lemma UpdatedKeepsShape(b: seq<Line>, id: string, q: int)
    requires q >= 1
    ensures |Updated(b, id, q)| == |b|
    ensures forall k :: 0 <= k < |b| ==>
              Updated(b, id, q)[k].(quantity := b[k].quantity) == b[k] &&
              Updated(b, id, q)[k].quantity == (if b[k].id == id then q else b[k].quantity)
  {
  }

  /** `proceedToCheckout` navigates exactly when the cart has lines. */
  function ProceedsToCheckout(items: seq<Line>): (go: bool)
    ensures go <==> |items| > 0
  {
    |items| != 0
  }

  class CartPage {
    var cartItems: seq<Line>
    var loading: bool

    constructor()
      ensures cartItems == [] && loading
    {
      cartItems := [];
      loading := true;
    }

    /** `loadCart`: a stored cart replaces the list; a missing slot or text
        that does not parse leaves it as it was. */
    method LoadCart(store: LocalStorage)
      modifies this
      ensures store.basket.Stored? ==> cartItems == store.basket.lines
      ensures !store.basket.Stored? ==> cartItems == old(cartItems)
      ensures !loading
    {
      if store.basket.Stored? {
        cartItems := store.basket.lines;
      }
      loading := false;
    }

    /** `removeItem`: drops every line with the id and stores the rest. */
    method RemoveItem(store: LocalStorage, id: string)
      modifies this, store
      ensures cartItems == Without(old(cartItems), id)
      ensures store.basket == Stored(cartItems) && store.auth == old(store.auth)
      ensures loading == old(loading)
    {
      var updated := Without(cartItems, id);
      cartItems := updated;
      store.SaveBasket(updated);
    }

    /** `updateQuantity`: below 1 it is `removeItem`; otherwise the quantity
        is set on the matching lines and the new list is stored. */
    method UpdateQuantity(store: LocalStorage, id: string, q: int)
      modifies this, store
      ensures cartItems == Updated(old(cartItems), id, q)
      ensures store.basket == Stored(cartItems) && store.auth == old(store.auth)
      ensures loading == old(loading)
    {
      if q < 1 {
        RemoveItem(store, id);
        return;
      }
      var updated := WithQuantity(cartItems, id, q);
      cartItems := updated;
      store.SaveBasket(updated);
    }

    /** `clearCart`: once confirmed the list is emptied and the slot is
        removed rather than overwritten. */
    method ClearCart(store: LocalStorage, confirmed: bool)
      modifies this, store
      ensures confirmed ==> cartItems == [] && store.basket == Absent
      ensures !confirmed ==> cartItems == old(cartItems) && store.basket == old(store.basket)
      ensures store.auth == old(store.auth) && loading == old(loading)
    {
      if confirmed {
        cartItems := [];
        store.RemoveBasket();
      }
    }

    /** `calculateTotal`. */
    function CalculateTotal(): (t: int)
      reads this
      ensures t == Total(cartItems)
      ensures cartItems == [] ==> t == 0
    {
      Total(cartItems)
    }

    /** `calculateItemCount`. */
    function CalculateItemCount(): (n: int)
      reads this
      ensures n == ItemCount(cartItems)
      ensures cartItems == [] ==> n == 0
    {
      ItemCount(cartItems)
    }
  }

  /** An empty cart totals and counts 0, so the page shows zeros and does
      not navigate. */
  lemma EmptyCart()
    ensures Total([]) == 0 && ItemCount([]) == 0 && !ProceedsToCheckout([])
  {
  }

  /** Removing a line after the page loaded a cart, then reading the slot
      back as the catalog does, gives exactly the remaining lines in order. */
  lemma RemoveThenRead(b: seq<Line>, id: string)
    ensures BasketOf(Stored(Without(b, id))) == Without(b, id)
    ensures Subsequence(Without(b, id), b)
  {
    WithoutInOrder(b, id);
  }

  /** A cart of two lines, 2 × 120 and 1 × 100, totals 340 with 3 pieces. */
  lemma TotalExample(a: Line, c: Line)
    requires a.price == 120 && a.quantity == 2 && c.price == 100 && c.quantity == 1
    ensures Total([a, c]) == 340 && ItemCount([a, c]) == 3
  {
    FoldsAppend([a], [c]);
    FoldsSingle(a);
    FoldsSingle(c);
  }
}
