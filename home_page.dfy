/** The two storage reads of the home page: the cart badge and the admin
    link guard. */
module HomePageModel {
  import opened Js
  import opened Basket

  /** `getCartItemCount`: the number of pieces in the stored cart, 0 when
      the slot is missing or does not parse. */
  function CartItemCount(slot: BasketSlot): (n: int)
    ensures slot.Stored? ==> n == ItemCount(slot.lines)
    ensures !slot.Stored? ==> n == 0
  {
    match slot
    case Absent => 0
    case Malformed => 0
    case Stored(lines) => ItemCount(lines)
  }

  /** `isAdminAuthenticated`: the stored record's `isAuthenticated` value
      as it is (not coerced to a boolean), and `false` when the slot is
      missing or does not parse. */
  function IsAdminAuthenticated(slot: AuthSlot): (v: Value)
    ensures slot.AuthStored? ==> v == Get(slot.record, "isAuthenticated")
    ensures !slot.AuthStored? ==> v == Bool(false)
  {
    match slot
    case AuthAbsent => Bool(false)
    case AuthMalformed => Bool(false)
    case AuthStored(r) => Get(r, "isAuthenticated")
  }

  /** The home badge agrees with the count the catalog shows after an add:
      both fold the quantities of the stored cart. */
  lemma BadgeAfterAdd(b: seq<Line>, item: Line, now: string)
    requires item.quantity == 1
    ensures CartItemCount(Stored(AddLine(b, item, now))) == CartItemCount(Stored(b)) + 1
  {
    AddLineFolds(b, item, now);
  }

  /** Only a stored record whose flag is truthy lets the admin link
      through; a record without the flag reads as `undefined`. */
  lemma AuthNeedsFlag(slot: AuthSlot)
    ensures Truthy(IsAdminAuthenticated(slot)) ==> slot.AuthStored? && Truthy(Get(slot.record, "isAuthenticated"))
  {
  }
}
