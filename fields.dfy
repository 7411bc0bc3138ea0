/** The case-probing field lookups of the admin pages. Records come from a
    back end whose property names vary in case (`id`, `Id`, `ID`), so the
    pages read a field by trying several spellings of its name in turn and
    taking the first one that is neither `null` nor `undefined`.
    `getField` (identical in the employees, deliveries and orders pages) and
    `getProductField` (products page) try the spellings in different orders. */
module Fields {
  import opened Options
  import opened Text
  import opened Js

  /** `f.charAt(0).toUpperCase() + f.slice(1)`. */
  function Capitalize(f: string): (r: string)
    ensures |r| == |f|
    ensures f != "" ==> r[0] == UpperChar(f[0]) && r[1..] == f[1..]
  {
    if f == "" then "" else Upper(f[..1]) + f[1..]
  }

  /** The spellings `getField` tries: as given, lower case, upper case,
      capitalised. */
  function FieldVariants(f: string): seq<string> {
    [f, Lower(f), Upper(f), Capitalize(f)]
  }

  /** The spellings `getProductField` tries: as given, lower case,
      capitalised, upper case. */
  function ProductFieldVariants(f: string): seq<string> {
    [f, Lower(f), Capitalize(f), Upper(f)]
  }

  /** The value of the first of `keys` that is set (neither `null` nor
      absent) in `obj`, and `null` when none is. */
  function FirstPresent(obj: Record, keys: seq<string>): (r: Value)
    ensures r == Null <==> forall i :: 0 <= i < |keys| ==> Get(obj, keys[i]) == Null
    ensures r != Null ==> exists i :: 0 <= i < |keys| && Get(obj, keys[i]) == r &&
                                      forall j :: 0 <= j < i ==> Get(obj, keys[j]) == Null
  {
    if keys == [] then Null
    else if Get(obj, keys[0]) != Null then Get(obj, keys[0])
    else
      var r := FirstPresent(obj, keys[1..]);
      assert forall i :: 1 <= i < |keys| ==> keys[i] == keys[1..][i - 1];
      r
  }

  /** The first set key decides the lookup: every earlier key is unset. */
  lemma {:induction false} FirstPresentAt(obj: Record, keys: seq<string>, i: nat)
    requires i < |keys| && Get(obj, keys[i]) != Null
    requires forall j :: 0 <= j < i ==> Get(obj, keys[j]) == Null
    ensures FirstPresent(obj, keys) == Get(obj, keys[i])
  {
    if i > 0 {
      assert forall j :: 0 <= j < i - 1 ==> keys[1..][j] == keys[j + 1];
      FirstPresentAt(obj, keys[1..], i - 1);
    }
  }

  /** `getField(obj, f)`: `null` for a missing object, otherwise the first
      set spelling of `f` in the order of FieldVariants. */
  function FieldOf(obj: Option<Record>, f: string): (r: Value)
    ensures obj.None? ==> r == Null
    ensures obj.Some? ==> r == FirstPresent(obj.value, FieldVariants(f))
  {
    match obj
    case None => Null
    case Some(o) => FirstPresent(o, FieldVariants(f))
  }

  /** `getProductField(product, f)`: the first set spelling of `f` in the
      order of ProductFieldVariants. The source does not guard against a
      missing product, and every caller passes one. */
  function ProductFieldOf(product: Record, f: string): (r: Value)
    ensures r == FirstPresent(product, ProductFieldVariants(f))
  {
    FirstPresent(product, ProductFieldVariants(f))
  }

  /** The probing order of `getField`, spelling by spelling. */
  lemma FieldOfOrder(o: Record, f: string)
    ensures Get(o, f) != Null ==> FieldOf(Some(o), f) == Get(o, f)
    ensures Get(o, f) == Null && Get(o, Lower(f)) != Null ==> FieldOf(Some(o), f) == Get(o, Lower(f))
    ensures Get(o, f) == Null && Get(o, Lower(f)) == Null && Get(o, Upper(f)) != Null ==>
              FieldOf(Some(o), f) == Get(o, Upper(f))
    ensures Get(o, f) == Null && Get(o, Lower(f)) == Null && Get(o, Upper(f)) == Null ==>
              FieldOf(Some(o), f) == Get(o, Capitalize(f))
  {
    ProbeOrder(o, FieldVariants(f));
  }

  /** The probing order of `getProductField`, spelling by spelling. */
  lemma ProductFieldOfOrder(o: Record, f: string)
    ensures Get(o, f) != Null ==> ProductFieldOf(o, f) == Get(o, f)
    ensures Get(o, f) == Null && Get(o, Lower(f)) != Null ==> ProductFieldOf(o, f) == Get(o, Lower(f))
    ensures Get(o, f) == Null && Get(o, Lower(f)) == Null && Get(o, Capitalize(f)) != Null ==>
              ProductFieldOf(o, f) == Get(o, Capitalize(f))
    ensures Get(o, f) == Null && Get(o, Lower(f)) == Null && Get(o, Capitalize(f)) == Null ==>
              ProductFieldOf(o, f) == Get(o, Upper(f))
  {
    ProbeOrder(o, ProductFieldVariants(f));
  }

  /** FirstPresent over four keys, case by case. */
  lemma ProbeOrder(o: Record, ks: seq<string>)
    requires |ks| == 4
    ensures Get(o, ks[0]) != Null ==> FirstPresent(o, ks) == Get(o, ks[0])
    ensures Get(o, ks[0]) == Null && Get(o, ks[1]) != Null ==> FirstPresent(o, ks) == Get(o, ks[1])
    ensures Get(o, ks[0]) == Null && Get(o, ks[1]) == Null && Get(o, ks[2]) != Null ==>
              FirstPresent(o, ks) == Get(o, ks[2])
    ensures Get(o, ks[0]) == Null && Get(o, ks[1]) == Null && Get(o, ks[2]) == Null ==>
              FirstPresent(o, ks) == Get(o, ks[3])
  {
    if Get(o, ks[0]) != Null {
      FirstPresentAt(o, ks, 0);
    } else if Get(o, ks[1]) != Null {
      FirstPresentAt(o, ks, 1);
    } else if Get(o, ks[2]) != Null {
      FirstPresentAt(o, ks, 2);
    } else if Get(o, ks[3]) != Null {
      FirstPresentAt(o, ks, 3);
    }
  }

  /** The two orders differ: a record carrying both `ID` and `Id` reads
      `id` as the `ID` value through `getField` and as the `Id` value
      through `getProductField`. */
  lemma LookupOrdersDiffer()
    ensures FieldOf(Some(map["ID" := Num(1), "Id" := Num(2)]), "id") == Num(1)
    ensures ProductFieldOf(map["ID" := Num(1), "Id" := Num(2)], "id") == Num(2)
  {
    var o := map["ID" := Num(1), "Id" := Num(2)];
    assert Lower("id") == "id";
    assert Upper("id") == "ID";
    assert Capitalize("id") == "Id" by { assert Upper("i") == "I"; }
    FirstPresentAt(o, FieldVariants("id"), 2);
    FirstPresentAt(o, ProductFieldVariants("id"), 2);
  }

  /** `getField` as the source writes it: a loop over the spellings that
      returns at the first set one. */
  method GetField(obj: Option<Record>, fieldName: string) returns (r: Value)
    ensures r == FieldOf(obj, fieldName)
  {
    if obj.None? {
      return Null;
    }
    var o := obj.value;
    var variants := FieldVariants(fieldName);
    var k := 0;
    while k < |variants|
      invariant 0 <= k <= |variants|
      invariant FirstPresent(o, variants[k..]) == FirstPresent(o, variants)
    {
      if Get(o, variants[k]) != Null {
        return Get(o, variants[k]);
      }
      assert variants[k..][1..] == variants[k + 1..];
      k := k + 1;
    }
    return Null;
  }

  /** `getProductField`, the same loop over the other order. */
  method GetProductField(product: Record, fieldName: string) returns (r: Value)
    ensures r == ProductFieldOf(product, fieldName)
  {
    var variants := ProductFieldVariants(fieldName);
    var k := 0;
    while k < |variants|
      invariant 0 <= k <= |variants|
      invariant FirstPresent(product, variants[k..]) == FirstPresent(product, variants)
    {
      if Get(product, variants[k]) != Null {
        return Get(product, variants[k]);
      }
      assert variants[k..][1..] == variants[k + 1..];
      k := k + 1;
    }
    return Null;
  }

  /** `item.id || item.Id || item.ID`, the direct id reads of the
      deliveries and products pages. */
  function IdOf(obj: Record): (r: Value)
    ensures Truthy(r) <==> Truthy(Get(obj, "id")) || Truthy(Get(obj, "Id")) || Truthy(Get(obj, "ID"))
    ensures Truthy(Get(obj, "id")) ==> r == Get(obj, "id")
    ensures !Truthy(Get(obj, "id")) && Truthy(Get(obj, "Id")) ==> r == Get(obj, "Id")
    ensures !Truthy(Get(obj, "id")) && !Truthy(Get(obj, "Id")) ==> r == Get(obj, "ID")
  {
    Or(Or(Get(obj, "id"), Get(obj, "Id")), Get(obj, "ID"))
  }
}
