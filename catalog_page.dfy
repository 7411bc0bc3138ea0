/** The state of the catalog page and the handlers that change it: size
    selection, add-to-cart with its guards, the cart badge, clearing the
    cart, and loading the fallback catalog. The cart itself lives in the
    shared storage object. */
module CatalogPageModel {
  import opened Options
  import opened Text
  import opened Js
  import opened Catalog
  import opened Basket

  /** Why `handleAddToBasket` stopped, or the notification it showed. */
  datatype AddOutcome = NoSizeSelected | Unavailable | SizeNotFound | Added(message: string)

  /** `product.variants?.find(v => v.id === sizeId)`. */
  function FindVariant(vs: seq<Variant>, sizeId: string): (r: Option<Variant>)
    ensures r.Some? ==> r.value in vs && r.value.id == sizeId
    ensures r.None? <==> forall k :: 0 <= k < |vs| ==> vs[k].id != sizeId
  {
    if vs == [] then None
    else if vs[0].id == sizeId then Some(vs[0])
    else
      var r := FindVariant(vs[1..], sizeId);
      assert forall k :: 1 <= k < |vs| ==> vs[k] == vs[1..][k - 1];
      r
  }

  /** `selectedSizes[product.id]`; the id is used as a property name, so it
      is turned into text first, and a missing entry reads as `""`. */
  function SelectedSize(selectedSizes: map<string, string>, productId: Value): (r: string)
    ensures ToText(productId) in selectedSizes ==> r == selectedSizes[ToText(productId)]
    ensures ToText(productId) !in selectedSizes ==> r == ""
  {
    var key := ToText(productId);
    if key in selectedSizes then selectedSizes[key] else ""
  }

  /** A size chosen with `handleSizeSelect` is the one the add handler
      reads back for that product, and for any product whose id has the
      same text; the other products' choices are unchanged. */
  lemma SelectThenRead(selectedSizes: map<string, string>, productId: Value, sizeId: string, other: Value)
    ensures SelectedSize(selectedSizes[ToText(productId) := sizeId], productId) == sizeId
    ensures ToText(other) == ToText(productId) ==>
              SelectedSize(selectedSizes[ToText(productId) := sizeId], other) == sizeId
    ensures ToText(other) != ToText(productId) ==>
              SelectedSize(selectedSizes[ToText(productId) := sizeId], other) == SelectedSize(selectedSizes, other)
  {
  }

  /** The three guards of `handleAddToBasket`, in order, and the variant
      they let through. */
  function AddCheck(selectedSizes: map<string, string>, product: Product): (r: Result<Variant, AddOutcome>)
    ensures r.Ok? <==> SelectedSize(selectedSizes, product.id) != "" && product.isAvailable &&
                       exists k :: 0 <= k < |product.variants| && product.variants[k].id == SelectedSize(selectedSizes, product.id)
    ensures r.Ok? ==> r.value in product.variants && r.value.id == SelectedSize(selectedSizes, product.id)
    ensures r.Err? && SelectedSize(selectedSizes, product.id) == "" ==> r.error == NoSizeSelected
    ensures SelectedSize(selectedSizes, product.id) != "" && !product.isAvailable ==> r == Err(Unavailable)
    ensures SelectedSize(selectedSizes, product.id) != "" && product.isAvailable &&
            (forall k :: 0 <= k < |product.variants| ==> product.variants[k].id != SelectedSize(selectedSizes, product.id)) ==>
              r == Err(SizeNotFound)
  {
    var sizeId := SelectedSize(selectedSizes, product.id);
    if sizeId == "" then Err(NoSizeSelected)
    else if !product.isAvailable then Err(Unavailable)
    else
      match FindVariant(product.variants, sizeId)
      case None => Err(SizeNotFound)
      case Some(v) => Ok(v)
  }

  /** The `basketItem` built for a product in the chosen variant. */
  function NewLine(product: Product, v: Variant, sizeId: string, lineId: string, now: string): (l: Line)
    ensures l.quantity == 1 && l.productId == product.id && l.sizeId == sizeId
    ensures l.price == v.price && l.weight == v.weight && l.size == v.size && l.name == product.name
  {
    Line(lineId, product.id, product.name, v.size, sizeId, v.price, v.weight, 1,
         product.calories, now, None, product.description, product.category)
  }

  /** The notification shown after a successful add. */
  function AddedMessage(product: Product, v: Variant): (r: string)
    ensures IsPrefix(product.name, r)
    ensures Contains(r, v.size) && Contains(r, IntToString(v.price))
  {
    var head := product.name + " (";
    var mid := ") добавлен в корзину за ";
    var price := IntToString(v.price);
    var r := head + v.size + mid + price + " ₽";
    assert r == head + v.size + (mid + price + " ₽");
    ContainsMiddle(head, v.size, mid + price + " ₽");
    ContainsMiddle(head + v.size + mid, price, " ₽");
    r
  }

  class CatalogPage {
    var products: seq<Product>
    var categories: seq<string>
    var selectedSizes: map<string, string>
    var basketCount: int
    var error: Option<string>
    var apiStatus: string

    constructor()
      ensures products == [] && categories == [] && selectedSizes == map[] && basketCount == 0
      ensures error == None && apiStatus == "checking"
    {
      products := [];
      categories := [];
      selectedSizes := map[];
      basketCount := 0;
      error := None;
      apiStatus := "checking";
    }

    /** `initializeBasket`: the badge starts at the number of lines. */
    method InitializeBasket(store: LocalStorage)
      modifies this
      ensures basketCount == |BasketOf(store.basket)|
      ensures products == old(products) && categories == old(categories) && selectedSizes == old(selectedSizes)
      ensures error == old(error) && apiStatus == old(apiStatus)
    {
      var saved := store.ReadBasket();
      basketCount := |saved|;
    }

    /** `handleSizeSelect`. */
    method SelectSize(productId: Value, sizeId: string)
      modifies this
      ensures selectedSizes == old(selectedSizes)[ToText(productId) := sizeId]
      ensures products == old(products) && categories == old(categories) && basketCount == old(basketCount)
      ensures error == old(error) && apiStatus == old(apiStatus)
    {
      selectedSizes := selectedSizes[ToText(productId) := sizeId];
    }

    /** `handleAddToBasket`, with the generated line id and the clock
        passed in. A rejected add changes neither the stored cart nor the
        badge; an accepted one reads the stored cart, merges the new line
        into it, writes it back and sets the badge to the number of pieces. */
    method AddToBasket(store: LocalStorage, product: Product, lineId: string, now: string)
      returns (outcome: AddOutcome)
      modifies this, store
      ensures var check := AddCheck(old(selectedSizes), product);
              check.Err? ==> outcome == check.error && store.basket == old(store.basket) &&
                             basketCount == old(basketCount)
      ensures var check := AddCheck(old(selectedSizes), product);
              check.Ok? ==>
                var item := NewLine(product, check.value, check.value.id, lineId, now);
                var merged := AddLine(old(BasketOf(store.basket)), item, now);
                store.basket == Stored(merged) && basketCount == ItemCount(merged) &&
                outcome == Added(AddedMessage(product, check.value))
      ensures store.auth == old(store.auth)
      ensures products == old(products) && categories == old(categories) && selectedSizes == old(selectedSizes)
      ensures error == old(error) && apiStatus == old(apiStatus)
    {
      var sizeId := SelectedSize(selectedSizes, product.id);
      if sizeId == "" {
        return NoSizeSelected;
      }
      if !product.isAvailable {
        return Unavailable;
      }
      var found := FindVariant(product.variants, sizeId);
      if found.None? {
        return SizeNotFound;
      }
      var v := found.value;
      var item := NewLine(product, v, sizeId, lineId, now);
      var current := store.ReadBasket();
      ghost var saved := current;
      var i := FindLine(current, product.id, sizeId);
      if i > -1 {
        current := current[i := current[i].(quantity := current[i].quantity + 1)];
        current := current[i := current[i].(updatedAt := Some(now))];
      } else {
        current := current + [item];
      }
      assert current == AddLine(saved, item, now);
      store.SaveBasket(current);
      basketCount := ItemCount(current);
      outcome := Added(AddedMessage(product, v));
    }

    /** `handleClearBasket`: once confirmed, the slot holds an empty cart
        (it is written, not removed) and the badge is 0. */
    method ClearBasket(store: LocalStorage, confirmed: bool)
      modifies this, store
      ensures confirmed ==> store.basket == Stored([]) && basketCount == 0
      ensures !confirmed ==> store.basket == old(store.basket) && basketCount == old(basketCount)
      ensures store.auth == old(store.auth)
      ensures products == old(products) && categories == old(categories) && selectedSizes == old(selectedSizes)
      ensures error == old(error) && apiStatus == old(apiStatus)
    {
      if confirmed {
        store.SaveBasket([]);
        basketCount := 0;
      }
    }

    /** `loadTestData`: the fallback catalog, normalised, with its
        categories. */
    method LoadTestData()
      modifies this
      ensures products == NormalizeAll(TestProducts)
      ensures categories == ExtractCategories(products)
      ensures error == None && apiStatus == "offline"
      ensures selectedSizes == old(selectedSizes) && basketCount == old(basketCount)
    {
      products := NormalizeAll(TestProducts);
      error := None;
      apiStatus := "offline";
      categories := ExtractCategories(products);
    }
  }

  /** The badge is inconsistent: after a page load it counts the stored
      lines (`InitializeBasket`), after an add it counts pieces. In a
      stored cart where every line holds a piece and some line holds two,
      the load count is below the number of pieces. */
  lemma {:induction false} BadgeCountsDiffer(b: seq<Line>, k: nat)
    requires forall i :: 0 <= i < |b| ==> b[i].quantity >= 1
    requires k < |b| && b[k].quantity >= 2
    ensures |BasketOf(Stored(b))| < ItemCount(BasketOf(Stored(b)))
  {
    var init := b[..|b| - 1];
    assert forall i :: 0 <= i < |init| ==> init[i].quantity >= 1;
    if k < |b| - 1 {
      assert init[k] == b[k];
      BadgeCountsDiffer(init, k);
    }
  }

  /** One line of two pieces: the badge shows 1 on load, while the cart
      holds 2 pieces, and 3 after adding another piece of that line. */
  lemma BadgeOneLineExample(l: Line, now: string)
    requires l.quantity == 2
    ensures |BasketOf(Stored([l]))| == 1 && ItemCount(BasketOf(Stored([l]))) == 2
    ensures ItemCount(AddLine([l], l.(quantity := 1), now)) == 3
  {
    AddLineFolds([l], l.(quantity := 1), now);
    FoldsSingle(l);
  }

  /** A product that is offered in the selected size can be added; the
      sizes the normaliser produces are always offered for an available
      product. */
  lemma NormalizedSizeAccepted(raw: RawProduct, index: nat, selectedSizes: map<string, string>, k: nat)
    requires var p := Normalize(raw, index);
             k < |p.variants| && SelectedSize(selectedSizes, p.id) == p.variants[k].id
    ensures AddCheck(selectedSizes, Normalize(raw, index)).Ok?
  {
    var p := Normalize(raw, index);
    if EnglishCategory(raw) == "Bakery" {
      assert p.variants[k].id in {"small", "medium", "large"};
    }
  }
}
