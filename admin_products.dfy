/** The products page of the back office: the delete filter and the id a
    row shows and sends to it. */
module AdminProductsModel {
  import opened Text
  import opened Js
  import opened Seqs
  import opened Fields

  /** The test of `prev.filter(product => (product.id || product.Id || product.ID) != id)`. */
  function KeepsProduct(id: Value): Record -> bool {
    (p: Record) => !LooseEq(IdOf(p), id)
  }

  /** `handleDelete` after the confirmation: the list when the request
      succeeds, the old list when it fails. */
  function DeleteProduct(products: seq<Record>, id: Value, success: bool): (r: seq<Record>)
    ensures !success ==> r == products
    ensures |r| <= |products|
  {
    if success then Filter(products, KeepsProduct(id)) else products
  }

  /** A successful delete keeps, in order, exactly the products whose
      `id || Id || ID` loosely differs from the deleted id. */
  lemma DeleteProductSpec(products: seq<Record>, id: Value)
    ensures forall p :: p in DeleteProduct(products, id, true) <==> p in products && !LooseEq(IdOf(p), id)
    ensures Subsequence(DeleteProduct(products, id, true), products)
  {
    FilterMembers(products, KeepsProduct(id));
    FilterInOrder(products, KeepsProduct(id));
  }

  /** The id a row shows and passes to `handleDelete`:
      `getProductField(product, 'id') || getProductField(product, 'Id') || index + 1`. */
  function DisplayedId(product: Record, index: nat): (id: Value)
    ensures Truthy(id)
  {
    Or(Or(ProductFieldOf(product, "id"), ProductFieldOf(product, "Id")), Num(index + 1))
  }

  /** The fallback order of the row id: a truthy `id`, else a truthy `Id`
      when `id` is unset, else the position counted from 1. */
  lemma DisplayedIdOrder(product: Record, index: nat)
    ensures Truthy(Get(product, "id")) ==> DisplayedId(product, index) == Get(product, "id")
    ensures Get(product, "id") == Null && Truthy(Get(product, "Id")) ==> DisplayedId(product, index) == Get(product, "Id")
    ensures Get(product, "id") == Null && Get(product, "Id") == Null && Get(product, "ID") == Null ==>
              DisplayedId(product, index) == Num(index + 1)
  {
    ProductIdSpellings();
    ProbeOrder(product, ProductFieldVariants("id"));
    ProbeOrder(product, ProductFieldVariants("Id"));
  }

  /** The spellings `getProductField` probes for `id` and for `Id`. */
  lemma ProductIdSpellings()
    ensures ProductFieldVariants("id") == ["id", "id", "Id", "ID"]
    ensures ProductFieldVariants("Id") == ["Id", "id", "Id", "ID"]
  {
    assert Lower("id") == "id";
    assert Upper("id") == "ID";
    assert Capitalize("id") == "Id" by { assert Upper("i") == "I"; }
    assert Lower("Id") == "id" by { assert LowerChar('I') == 'i'; }
    assert Upper("Id") == "ID";
    assert Capitalize("Id") == "Id" by { assert Upper("I") == "I"; }
  }

  /** Deleting a row's product by the id the row shows removes that
      product whenever it has a truthy `id`; a product without any id
      sends its position, which matches no stored id. */
  lemma DeleteRowProduct(products: seq<Record>, k: nat)
    requires k < |products|
    ensures Truthy(Get(products[k], "id")) ==>
              products[k] !in DeleteProduct(products, DisplayedId(products[k], k), true)
    ensures Get(products[k], "id") == Null && Get(products[k], "Id") == Null && Get(products[k], "ID") == Null ==>
              products[k] in DeleteProduct(products, DisplayedId(products[k], k), true)
  {
    DisplayedIdOrder(products[k], k);
    DeleteProductSpec(products, DisplayedId(products[k], k));
    LooseEqSymmetric(Get(products[k], "id"), Get(products[k], "id"));
  }
}
