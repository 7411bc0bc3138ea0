/** The cart as the storefront persists it: one `localStorage` slot,
    `cheburechnaya_basket`, holding the JSON array of cart lines, next to
    the `admin_auth` slot the home page reads. The catalog, cart, checkout
    and home pages all read this one slot; this module holds the line
    record, the slot, the storage object and the folds over a basket. */
module Basket {
  import opened Options
  import opened Js
  import opened Seqs

  /** One cart line as `handleAddToBasket` builds it (the image is left
      out). `productId` is the product's id as it came from the catalog; the
      line `id` and the timestamps are generated by the page. */
  datatype Line = Line(
    id: string,
    productId: Value,
    name: string,
    size: string,
    sizeId: string,
    price: int,
    weight: int,
    quantity: int,
    calories: int,
    addedAt: string,
    updatedAt: Option<string>,
    description: string,
    category: string)

  /** The `cheburechnaya_basket` slot: missing, holding text that does not
      parse, or holding a basket. */
  datatype BasketSlot = Absent | Malformed | Stored(lines: seq<Line>)

  /** The `admin_auth` slot. */
  datatype AuthSlot = AuthAbsent | AuthMalformed | AuthStored(record: Record)

  /** What `getBasketFromStorage` yields for a slot: the stored basket, and
      the empty basket when the slot is missing or does not parse. */
  function BasketOf(slot: BasketSlot): (b: seq<Line>)
    ensures slot.Stored? ==> b == slot.lines
    ensures !slot.Stored? ==> b == []
  {
    if slot.Stored? then slot.lines else []
  }

  /** The browser's `localStorage`, restricted to the two slots the core
      reads and writes. */
  class LocalStorage {
    var basket: BasketSlot
    var auth: AuthSlot

    constructor(basket0: BasketSlot, auth0: AuthSlot)
      ensures basket == basket0 && auth == auth0
    {
      basket := basket0;
      auth := auth0;
    }

    /** `getBasketFromStorage`: reading fails soft. */
    method ReadBasket() returns (b: seq<Line>)
      ensures b == BasketOf(basket)
    {
      match basket
      case Absent => b := [];
      case Malformed => b := [];
      case Stored(lines) => b := lines;
    }

    /** `saveBasketToStorage` and every `setItem` of the basket slot. */
    method SaveBasket(b: seq<Line>)
      modifies this
      ensures basket == Stored(b) && auth == old(auth)
    {
      basket := Stored(b);
    }

    /** `localStorage.removeItem('cheburechnaya_basket')`. */
    method RemoveBasket()
      modifies this
      ensures basket == Absent && auth == old(auth)
    {
      basket := Absent;
    }
  }

  /** A saved basket reads back as itself. */
  lemma SaveThenRead(b: seq<Line>)
    ensures BasketOf(Stored(b)) == b
  {
  }

  /** `reduce((total, item) => total + item.price * item.quantity, 0)`,
      folded from the left as `reduce` does. */
  function Total(b: seq<Line>): (r: int)
    ensures (forall k :: 0 <= k < |b| ==> b[k].price >= 0 && b[k].quantity >= 0) ==> r >= 0
  {
    if b == [] then 0 else Total(b[..|b| - 1]) + b[|b| - 1].price * b[|b| - 1].quantity
  }

  /** `reduce((count, item) => count + item.quantity, 0)`. */
  function ItemCount(b: seq<Line>): (r: int)
    ensures (forall k :: 0 <= k < |b| ==> b[k].quantity >= 1) ==> r >= |b|
  {
    if b == [] then 0 else ItemCount(b[..|b| - 1]) + b[|b| - 1].quantity
  }

  /** Both folds split over concatenation. */
  lemma {:induction false} FoldsAppend(a: seq<Line>, c: seq<Line>)
    ensures Total(a + c) == Total(a) + Total(c)
    ensures ItemCount(a + c) == ItemCount(a) + ItemCount(c)
  {
    if c != [] {
      var c' := c[..|c| - 1];
      assert (a + c)[..|a + c| - 1] == a + c';
      FoldsAppend(a, c');
    } else {
      assert a + c == a;
    }
  }

  /** The folds of a one-line basket. */
  lemma FoldsSingle(l: Line)
    ensures Total([l]) == l.price * l.quantity
    ensures ItemCount([l]) == l.quantity
  {
    assert [l][..0] == [];
  }

  /** The folds of a basket with line `i` replaced. */
  lemma {:induction false} FoldsUpdate(b: seq<Line>, i: nat, l: Line)
    requires i < |b|
    ensures Total(b[i := l]) == Total(b) - b[i].price * b[i].quantity + l.price * l.quantity
    ensures ItemCount(b[i := l]) == ItemCount(b) - b[i].quantity + l.quantity
  {
    assert b == b[..i] + [b[i]] + b[i + 1..];
    assert b[i := l] == b[..i] + [l] + b[i + 1..];
    FoldsAppend(b[..i] + [b[i]], b[i + 1..]);
    FoldsAppend(b[..i], [b[i]]);
    FoldsAppend(b[..i] + [l], b[i + 1..]);
    FoldsAppend(b[..i], [l]);
    FoldsSingle(b[i]);
    FoldsSingle(l);
  }

  /** With non-negative quantities the count is at least the number of
      lines with a positive quantity, and zero exactly when every quantity
      is zero. */
  lemma {:induction false} ItemCountNonNegative(b: seq<Line>)
    requires forall i :: 0 <= i < |b| ==> b[i].quantity >= 0
    ensures ItemCount(b) >= 0
    ensures ItemCount(b) == 0 <==> forall i :: 0 <= i < |b| ==> b[i].quantity == 0
  {
    if b != [] {
      ItemCountNonNegative(b[..|b| - 1]);
    }
  }

  // ----- the add-to-cart merge -----

  /** Whether a line is the line of product `productId` in size `sizeId`,
      compared with `===` as the source does. */
  predicate HasKey(l: Line, productId: Value, sizeId: string) {
    l.productId == productId && l.sizeId == sizeId
  }

  /** No two lines share a product and size. */
  predicate UniqueKeys(b: seq<Line>) {
    forall i, j :: 0 <= i < j < |b| ==> !HasKey(b[j], b[i].productId, b[i].sizeId)
  }

  /** `findIndex`: the first line with the key, or -1. */
  function FindLine(b: seq<Line>, productId: Value, sizeId: string): (i: int)
    ensures -1 <= i < |b|
    ensures i >= 0 ==> HasKey(b[i], productId, sizeId)
    ensures forall j :: 0 <= j < |b| && (i < 0 || j < i) ==> !HasKey(b[j], productId, sizeId)
  {
    if b == [] then -1
    else if HasKey(b[0], productId, sizeId) then 0
    else
      var j := FindLine(b[1..], productId, sizeId);
      assert forall k :: 1 <= k < |b| ==> b[k] == b[1..][k - 1];
      if j < 0 then -1 else j + 1
  }

  /** A line after `quantity += 1` and a fresh `updatedAt`. */
  function Bumped(l: Line, now: string): (r: Line)
    ensures r.quantity == l.quantity + 1
    ensures r == l.(quantity := r.quantity, updatedAt := Some(now))
  {
    l.(quantity := l.quantity + 1, updatedAt := Some(now))
  }

  /** The basket after `handleAddToBasket` merged `item` into it at time
      `now`: the line with the item's product and size gets one more piece,
      and when there is none the item is appended. */
  function AddLine(b: seq<Line>, item: Line, now: string): (r: seq<Line>)
    ensures FindLine(b, item.productId, item.sizeId) >= 0 ==> |r| == |b|
    ensures FindLine(b, item.productId, item.sizeId) < 0 ==> r == b + [item]
  {
    var i := FindLine(b, item.productId, item.sizeId);
    if i > -1 then b[i := Bumped(b[i], now)] else b + [item]
  }

  /** Adding a product and size that is already in the basket raises that
      line's quantity by one and touches nothing else: the price, name and
      size locked in when the line was created stay. */
  lemma AddLineExisting(b: seq<Line>, item: Line, now: string)
    requires FindLine(b, item.productId, item.sizeId) >= 0
    ensures var i := FindLine(b, item.productId, item.sizeId);
            var r := AddLine(b, item, now);
            |r| == |b| &&
            r[i].quantity == b[i].quantity + 1 && r[i].price == b[i].price &&
            r[i].name == b[i].name && r[i].size == b[i].size && r[i].id == b[i].id &&
            forall j :: 0 <= j < |b| && j != i ==> r[j] == b[j]
  {
  }

  /** Merging keeps product-and-size pairs unique. */
  lemma AddLineKeepsKeysUnique(b: seq<Line>, item: Line, now: string)
    requires UniqueKeys(b)
    ensures UniqueKeys(AddLine(b, item, now))
  {
    var i := FindLine(b, item.productId, item.sizeId);
    var r := AddLine(b, item, now);
    if i < 0 {
      forall x, y | 0 <= x < y < |r| ensures !HasKey(r[y], r[x].productId, r[x].sizeId) {
        if y == |b| {
          assert !HasKey(b[x], item.productId, item.sizeId);
        }
      }
    } else {
      forall x, y | 0 <= x < y < |r| ensures !HasKey(r[y], r[x].productId, r[x].sizeId) {
        assert HasKey(r[x], b[x].productId, b[x].sizeId) && HasKey(r[y], b[y].productId, b[y].sizeId);
      }
    }
  }

  /** A merge adds exactly one piece to the count and that piece's price to
      the total: the new item's price, or the stored price of the line it
      joins. */
  lemma AddLineFolds(b: seq<Line>, item: Line, now: string)
    requires item.quantity == 1
    ensures ItemCount(AddLine(b, item, now)) == ItemCount(b) + 1
    ensures var i := FindLine(b, item.productId, item.sizeId);
            Total(AddLine(b, item, now)) == Total(b) + (if i >= 0 then b[i].price else item.price)
  {
    var i := FindLine(b, item.productId, item.sizeId);
    if i >= 0 {
      BumpFolds(b, i, now);
    } else {
      FoldsAppend(b, [item]);
      FoldsSingle(item);
    }
  }

  /** Bumping one line adds one piece and that line's price. */
  lemma BumpFolds(b: seq<Line>, i: nat, now: string)
    requires i < |b|
    ensures ItemCount(b[i := Bumped(b[i], now)]) == ItemCount(b) + 1
    ensures Total(b[i := Bumped(b[i], now)]) == Total(b) + b[i].price
  {
    var l := Bumped(b[i], now);
    FoldsUpdate(b, i, l);
    assert l.price == b[i].price && l.quantity == b[i].quantity + 1;
    MulStep(b[i].price, b[i].quantity);
  }

  /** One more piece at a price adds that price once. */
  lemma MulStep(price: int, quantity: int)
    ensures price * (quantity + 1) == price * quantity + price
  {
  }

  /** `n` adds of one product and size. */
  function AddTimes(b: seq<Line>, item: Line, now: string, n: nat): seq<Line> {
    if n == 0 then b else AddLine(AddTimes(b, item, now, n - 1), item, now)
  }

  /** Adding the same product and size `n` times to a basket that lacks it
      gives one new line at the end with quantity `n`. */
  lemma {:induction false} AddTimesOneLine(b: seq<Line>, item: Line, now: string, n: nat)
    requires FindLine(b, item.productId, item.sizeId) < 0 && item.quantity == 1 && n >= 1
    ensures AddTimes(b, item, now, n) ==
              b + [item.(quantity := n, updatedAt := if n == 1 then item.updatedAt else Some(now))]
  {
    if n > 1 {
      AddTimesOneLine(b, item, now, n - 1);
      var prev := AddTimes(b, item, now, n - 1);
      var l := item.(quantity := n - 1, updatedAt := if n - 1 == 1 then item.updatedAt else Some(now));
      assert prev == b + [l];
      assert HasKey(prev[|b|], item.productId, item.sizeId);
      assert FindLine(prev, item.productId, item.sizeId) == |b|;
      assert AddLine(prev, item, now) == prev[|b| := Bumped(l, now)];
    }
  }

  // ----- the cart page's list operations -----

  /** The test of `cartItems.filter(item => item.id !== itemId)`. */
  function KeepsLine(id: string): Line -> bool {
    (l: Line) => l.id != id
  }

  /** `cartItems.filter(item => item.id !== itemId)`. */
  function Without(b: seq<Line>, id: string): (r: seq<Line>)
    ensures |r| <= |b|
    ensures forall k :: 0 <= k < |r| ==> r[k].id != id
  {
    Filter(b, KeepsLine(id))
  }

  /** `cartItems.map(item => item.id === itemId ? {...item, quantity} : item)`. */
  function WithQuantity(b: seq<Line>, id: string, q: int): (r: seq<Line>)
    ensures |r| == |b|
    ensures forall k :: 0 <= k < |b| ==> r[k] == if b[k].id == id then b[k].(quantity := q) else b[k]
  {
    seq(|b|, k requires 0 <= k < |b| => if b[k].id == id then b[k].(quantity := q) else b[k])
  }

  /** Removing a line keeps the other lines in their original order. */
  lemma WithoutInOrder(b: seq<Line>, id: string)
    ensures Subsequence(Without(b, id), b)
  {
    FilterInOrder(b, KeepsLine(id));
  }

  /** Removing a line keeps every line of another id as many times as it
      occurs, and no line of that id. */
  lemma WithoutCounts(b: seq<Line>, id: string)
    ensures forall l: Line :: multiset(Without(b, id))[l] == if l.id != id then multiset(b)[l] else 0
  {
    FilterCounts(b, KeepsLine(id));
  }

  /** A basket without lines of that id is left as it is. */
  lemma WithoutAbsent(b: seq<Line>, id: string)
    requires forall k :: 0 <= k < |b| ==> b[k].id != id
    ensures Without(b, id) == b
  {
    FilterAllPass(b, KeepsLine(id));
  }

  /** Setting quantities changes the count by the change on the matched
      lines: with a single line of that id, by `q` minus its old quantity. */
  lemma WithQuantityCount(b: seq<Line>, id: string, q: int, i: nat)
    requires i < |b| && b[i].id == id
    requires forall k :: 0 <= k < |b| && k != i ==> b[k].id != id
    ensures WithQuantity(b, id, q) == b[i := b[i].(quantity := q)]
    ensures ItemCount(WithQuantity(b, id, q)) == ItemCount(b) - b[i].quantity + q
    ensures Total(WithQuantity(b, id, q)) == Total(b) - b[i].price * b[i].quantity + b[i].price * q
  {
    assert WithQuantity(b, id, q) == b[i := b[i].(quantity := q)];
    FoldsUpdate(b, i, b[i].(quantity := q));
  }
}
