/** The checkout page: the phone field with its live mask and error text,
    the order gate, the order payload, and the totals it shows. Sending the
    order is simulated in the source; whether it throws, the order number
    and the clock are parameters here. */
module CheckoutPageModel {
  import opened Options
  import opened Text
  import opened Js
  import opened Phone
  import opened Basket

  /** One entry of `orderDetails.items`. */
  datatype OrderItem = OrderItem(productId: Value, productName: string, quantity: int, unitPrice: int, size: string)

  datatype Customer = Customer(name: string, phone: string, email: string, address: string)

  /** The `orderData` payload. */
  datatype Order = Order(
    customer: Customer,
    items: seq<OrderItem>,
    totalAmount: int,
    deliveryType: string,
    paymentType: string,
    employeeId: Value,
    comment: string,
    timestamp: string)

  /** The form fields of the page. */
  datatype Form = Form(name: string, phone: string, email: string, address: string,
                       deliveryType: string, paymentType: string, comment: string)

  /** Why the order was refused before anything was built. */
  datatype Refusal = EmptyCart | MissingFields | InvalidPhone

  datatype SubmitOutcome = Refused(reason: Refusal) | Placed(order: Order, message: string) | Failed

  datatype MockEmployee = MockEmployee(id: int, name: string, position: string)

  const MockEmployees: seq<MockEmployee> := [
    MockEmployee(1, "Иванов Иван", "Кассир"),
    MockEmployee(2, "Петрова Анна", "Официант"),
    MockEmployee(3, "Сидоров Алексей", "Менеджер")
  ]

  /** The gate of `handleSubmitOrder`: an empty cart, then a missing name
      or phone, then an invalid phone; `None` lets the order through. */
  function SubmitCheck(cart: seq<Line>, form: Form): (r: Option<Refusal>)
    ensures r == None <==> |cart| > 0 && form.name != "" && ValidatePhone(form.phone)
    ensures |cart| == 0 ==> r == Some(EmptyCart)
    ensures |cart| > 0 && (form.name == "" || form.phone == "") ==> r == Some(MissingFields)
    ensures |cart| > 0 && form.name != "" && form.phone != "" && !ValidatePhone(form.phone) ==> r == Some(InvalidPhone)
  {
    if |cart| == 0 then Some(EmptyCart)
    else if form.name == "" || form.phone == "" then Some(MissingFields)
    else if !ValidatePhone(form.phone) then Some(InvalidPhone)
    else None
  }

  /** `cartItems.map(...)` for the payload. */
  function OrderItems(cart: seq<Line>): (items: seq<OrderItem>)
    ensures |items| == |cart|
    ensures forall k :: 0 <= k < |cart| ==>
              items[k] == OrderItem(cart[k].productId, cart[k].name, cart[k].quantity, cart[k].price, cart[k].size)
  {
    seq(|cart|, k requires 0 <= k < |cart| =>
      OrderItem(cart[k].productId, cart[k].name, cart[k].quantity, cart[k].price, cart[k].size))
  }

  /** `orderData`: the customer with the phone reduced to its digits, one
      item per cart line in order, and the goods total without delivery. */
  function BuildOrder(cart: seq<Line>, form: Form, employeeId: Value, timestamp: string): (o: Order)
    ensures o.customer.phone == Digits(form.phone) && o.customer.name == form.name
    ensures o.items == OrderItems(cart)
    ensures o.totalAmount == Total(cart)
  {
    Order(Customer(form.name, Digits(form.phone), form.email, form.address),
          OrderItems(cart), Total(cart), form.deliveryType, form.paymentType,
          employeeId, form.comment, timestamp)
  }

  /** The grand total shown: 150 more for delivery. */
  function GrandTotal(cart: seq<Line>, deliveryType: string): (t: int)
    ensures deliveryType == "delivery" ==> t == Total(cart) + 150
    ensures deliveryType != "delivery" ==> t == Total(cart)
  {
    if deliveryType == "delivery" then Total(cart) + 150 else Total(cart)
  }

  function PlacedMessage(orderId: int, phone: string): (r: string)
    ensures Contains(r, IntToString(orderId)) && Contains(r, FormatPhone(phone))
  {
    var head := "Заказ №";
    var mid := " успешно оформлен! Мы свяжемся с вами по номеру ";
    var tail := " для подтверждения.";
    var r := head + IntToString(orderId) + mid + FormatPhone(phone) + tail;
    assert r == head + IntToString(orderId) + (mid + FormatPhone(phone) + tail);
    ContainsMiddle(head, IntToString(orderId), mid + FormatPhone(phone) + tail);
    ContainsMiddle(head + IntToString(orderId) + mid, FormatPhone(phone), tail);
    r
  }

  class CheckoutPage {
    var cartItems: seq<Line>
    var form: Form
    var employees: seq<MockEmployee>
    var selectedEmployee: Value
    var loading: bool
    var submitting: bool
    var phoneError: string

    constructor()
      ensures cartItems == [] && form == Form("", "", "", "", "pickup", "cash", "")
      ensures employees == [] && selectedEmployee == Str("") && loading && !submitting && phoneError == ""
    {
      cartItems := [];
      form := Form("", "", "", "", "pickup", "cash", "");
      employees := [];
      selectedEmployee := Str("");
      loading := true;
      submitting := false;
      phoneError := "";
    }

    /** `loadCheckoutData`: the stored cart, if any, and the three mock
        employees with the first preselected. A stored cart that does not
        parse throws inside the `try`, so the employees are never set and
        only the loading flag changes. */
    method LoadCheckoutData(store: LocalStorage)
      modifies this
      ensures store.basket.Stored? ==> cartItems == store.basket.lines
      ensures !store.basket.Stored? ==> cartItems == old(cartItems)
      ensures !store.basket.Malformed? ==> employees == MockEmployees && selectedEmployee == Num(1)
      ensures store.basket.Malformed? ==> employees == old(employees) && selectedEmployee == old(selectedEmployee)
      ensures !loading
      ensures form == old(form) && phoneError == old(phoneError) && submitting == old(submitting)
    {
      if store.basket.Malformed? {
        loading := false;
        return;
      }
      if store.basket.Stored? {
        cartItems := store.basket.lines;
      }
      employees := MockEmployees;
      if |employees| > 0 {
        selectedEmployee := Num(employees[0].id);
      }
      loading := false;
    }

    /** `handlePhoneChange`: the field shows the mask of what was typed and
        the error text follows the digits. */
    method HandlePhoneChange(value: string)
      modifies this
      ensures form == old(form).(phone := Mask(value))
      ensures phoneError == MaskError(value)
      ensures Digits(form.phone) == Take(Digits(value), 11)
      ensures cartItems == old(cartItems) && employees == old(employees) && selectedEmployee == old(selectedEmployee)
      ensures loading == old(loading) && submitting == old(submitting)
    {
      var masked := MaskInput(value);
      phoneError := MaskError(value);
      form := form.(phone := masked);
    }

    /** `handlePhoneBlur`. */
    method HandlePhoneBlur()
      modifies this
      ensures phoneError == PhoneBlurError(form.phone)
      ensures form == old(form) && cartItems == old(cartItems) && employees == old(employees)
      ensures selectedEmployee == old(selectedEmployee) && loading == old(loading) && submitting == old(submitting)
    {
      if form.phone != "" && !ValidatePhone(form.phone) {
        phoneError := BlurError;
      } else {
        phoneError := "";
      }
    }

    /** `handleSubmitOrder`. A refused order builds nothing and keeps the
        cart. An accepted one is built from the page state; when nothing
        throws the slot is removed, and when something throws it is kept. */
    method SubmitOrder(store: LocalStorage, orderId: int, timestamp: string, throws: bool)
      returns (outcome: SubmitOutcome)
      modifies this, store
      ensures SubmitCheck(cartItems, form).Some? ==>
                outcome == Refused(SubmitCheck(cartItems, form).value) && store.basket == old(store.basket)
      ensures SubmitCheck(cartItems, form).None? && throws ==>
                outcome == Failed && store.basket == old(store.basket)
      ensures SubmitCheck(cartItems, form).None? && !throws ==>
                outcome == Placed(BuildOrder(cartItems, form, selectedEmployee, timestamp), PlacedMessage(orderId, form.phone)) &&
                store.basket == Absent
      ensures store.auth == old(store.auth)
      ensures submitting == (SubmitCheck(cartItems, form).Some? && old(submitting))
      ensures cartItems == old(cartItems) && form == old(form) && employees == old(employees)
      ensures selectedEmployee == old(selectedEmployee) && loading == old(loading) && phoneError == old(phoneError)
    {
      var check := SubmitCheck(cartItems, form);
      if check.Some? {
        return Refused(check.value);
      }
      submitting := true;
      if throws {
        outcome := Failed;
      } else {
        var order := BuildOrder(cartItems, form, selectedEmployee, timestamp);
        store.RemoveBasket();
        outcome := Placed(order, PlacedMessage(orderId, form.phone));
      }
      submitting := false;
    }
  }

  /** The order sent for an accepted form carries eleven digits starting
      with 7 or 8, and a total that leaves out the delivery fee. */
  lemma AcceptedOrder(cart: seq<Line>, form: Form, employeeId: Value, timestamp: string)
    requires SubmitCheck(cart, form) == None
    ensures var o := BuildOrder(cart, form, employeeId, timestamp);
            IsRussianMobile(o.customer.phone) && AllDigits(o.customer.phone) &&
            |o.items| == |cart| &&
            GrandTotal(cart, "delivery") == o.totalAmount + 150 &&
            GrandTotal(cart, "pickup") == o.totalAmount
  {
    DigitsAreDigits(form.phone);
  }

  /** The payload phone keeps a leading 8 as typed, so two spellings of one
      number reach the server as different strings. */
  lemma PayloadPhoneAsTyped(cart: seq<Line>, employeeId: Value, timestamp: string)
    ensures BuildOrder(cart, Form("Иван", "89991234567", "", "", "pickup", "cash", ""), employeeId, timestamp).customer.phone == "89991234567"
    ensures BuildOrder(cart, Form("Иван", "+79991234567", "", "", "pickup", "cash", ""), employeeId, timestamp).customer.phone == "79991234567"
  {
    ValidationExampleEight();
    ValidationExampleSeven();
  }

  /** A phone accepted by the mask without an error text passes the gate's
      phone check. */
  lemma MaskedPhonePassesGate(cart: seq<Line>, form: Form, value: string)
    requires |cart| > 0 && form.name != "" && MaskError(value) == "" && Mask(value) != ""
    ensures SubmitCheck(cart, form.(phone := Mask(value))) == None
  {
    MaskWithoutErrorIsValid(value);
  }
}
