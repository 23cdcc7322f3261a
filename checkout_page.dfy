/** The checkout page: its own price parser and line totals for the summary,
    and the submit handler, which refuses to send an order without a login
    token or without a street, city, postal code and country, and on success
    clears the cart and keeps the order the server returned. */
module CheckoutPage {
  import opened Seqs
  import opened Text
  import opened JsNumbers
  import opened JsValues
  import CartContext
  import OrderController

  /** The page's `parsePrice`: nothing is 0, a number is itself, anything else
      is converted with `String`, stripped to digits, `.` and `-`, and parsed,
      with `|| 0`. */
  function ParsePrice(price: JsValue): (r: real)
    ensures IsNullish(price) ==> r == 0.0
    ensures price.Num? ==> r == price.n
    ensures price.Str? ==> r == CartContext.ParsePrice(price)
  {
    if IsNullish(price) then 0.0
    else if price.Num? then price.n
    else OrElse(ParseFloat(Filter(ToStr(price), CartContext.IsClientPriceChar)), 0.0)
  }

  /** The page and the cart parse every price alike, so the summary's unit
      prices are the ones the cart total uses; `String` of a boolean or an
      object has no digit in it and is priced 0. */
  lemma ParsersAgree(price: JsValue)
    ensures ParsePrice(price) == CartContext.ParsePrice(price)
    ensures !price.Num? && !price.Str? ==> ParsePrice(price) == 0.0
  {
    match price
    case Bool(b) =>
      var t := if b then "true" else "false";
      forall i | 0 <= i < |t| ensures !CartContext.IsClientPriceChar(t[i]) {
        if b { } else { }
      }
      CartContext.NoPriceCharsIsZero(t);
    case Obj(_) =>
      var t := "[object Object]";
      forall i | 0 <= i < |t| ensures !CartContext.IsClientPriceChar(t[i]) {
        if i < 8 { } else { }
      }
      CartContext.NoPriceCharsIsZero(t);
    case _ =>
  }

  /** The summary line of one item: `parsePrice(it.price) * (it.quantity || 1)`,
      where `*` converts the quantity to a number. */
  function LineTotal(it: CartContext.CartItem): (r: Numeric)
    ensures it.quantity.Num? && it.quantity.n != 0.0 ==>
              r == Finite(CartContext.Times(ParsePrice(it.price), it.quantity.n))
    ensures !Truthy(it.quantity) ==> r == Finite(ParsePrice(it.price))
    ensures Truthy(it.quantity) && ToNumeric(it.quantity).Finite? ==>
              r == Finite(CartContext.Times(ParsePrice(it.price), ToNumeric(it.quantity).value))
    ensures Truthy(it.quantity) && ToNumeric(it.quantity).NaN? ==> r == NaN
  {
    match ToNumeric(Or(it.quantity, Num(1.0)))
    case NaN => NaN
    case Finite(q) => Finite(CartContext.Times(ParsePrice(it.price), q))
  }

  /** For a non-zero numeric quantity the line shows the item's share of the
      cart total. */
  lemma LineIsShareOfTotal(it: CartContext.CartItem)
    requires it.quantity.Num? && it.quantity.n != 0.0
    ensures LineTotal(it) == Finite(CartContext.LineValue(it))
  {
    ParsersAgree(it.price);
  }

  /** A quantity kept as digit text is read as the number it spells. */
  lemma TextQuantityLine(it: CartContext.CartItem, d: string)
    requires it.quantity == Str(d) && AllDigits(d) && d != []
    ensures LineTotal(it) == Finite(CartContext.Times(ParsePrice(it.price), DigitsValue(d) as real))
  {
    assert Truthy(it.quantity);
    assert ToNumeric(it.quantity) == ToNumber(d) == Finite(DigitsValue(d) as real);
  }

  /** A quantity of 0 shows the price once on its line while the total adds
      nothing for it. */
  lemma ZeroQuantityLine()
    ensures var it := CartContext.CartItem(Str("p1"), Str("Mouse"), Num(5.0), Str(""), Num(0.0));
            LineTotal(it) == Finite(5.0) && CartContext.LineValue(it) == 0.0
  {
  }

  /** The shipping address form. */
  datatype Address = Address(name: string, phone: string, street: string, city: string,
                             state: string, postalCode: string, country: string)

  /** The page's minimal validation. */
  predicate AddressComplete(a: Address) {
    a.street != "" && a.city != "" && a.postalCode != "" && a.country != ""
  }

  /** The request body, `{ address, paymentMethod }`. */
  function RequestBody(a: Address, paymentMethod: string): JsValue {
    Obj(map["address" := Obj(map["name" := Str(a.name), "phone" := Str(a.phone), "street" := Str(a.street),
                                 "city" := Str(a.city), "state" := Str(a.state),
                                 "postalCode" := Str(a.postalCode), "country" := Str(a.country)]),
            "paymentMethod" := Str(paymentMethod)])
  }

  /** An address the page sends is never one the server warns about. */
  lemma PageCheckIsStricter(a: Address, paymentMethod: string)
    requires AddressComplete(a)
    ensures !OrderController.AddressIncomplete(OrderController.ShippingAddress(RequestBody(a, paymentMethod)))
  {
  }

  /** The server takes an address the page refuses: a street alone. */
  lemma ServerTakesWhatPageRefuses(paymentMethod: string)
    ensures var a := Address("", "", "1 Main St", "", "", "", "");
            !AddressComplete(a)
            && !OrderController.AddressIncomplete(OrderController.ShippingAddress(RequestBody(a, paymentMethod)))
  {
  }

  /** What the checkout request came back with: no answer (the request threw
      with `error`), or a JSON body with `res.ok`, `data.message` ("" when
      absent) and `data.order`. */
  datatype Answer =
    | NoAnswer(error: string)
    | Answer(ok: bool, message: string, order: JsValue)

  const CodNotice := "Order placed successfully — Cash on Delivery"
  const PlainNotice := "Order placed successfully — Order ID: "

  /** `data.order?._id || 'N/A'`. */
  function OrderIdText(order: JsValue): string
    requires HasText(Get(order, "_id"))
  {
    var id := Get(order, "_id");
    if Truthy(id) then ToStr(id) else "N/A"
  }

  /** The message after a successful checkout. */
  function SuccessMessage(paymentMethod: string, order: JsValue): string
    requires HasText(Get(order, "_id"))
  {
    if paymentMethod == "cod" then
      CodNotice + ". Admin has been notified with the order details. Order ID: " + OrderIdText(order)
    else
      PlainNotice + OrderIdText(order)
  }

  /** The success message announces Cash on Delivery exactly when that was
      the payment method. */
  lemma SuccessMessageMarksCod(paymentMethod: string, order: JsValue)
    requires HasText(Get(order, "_id"))
    ensures StartsWith(SuccessMessage(paymentMethod, order), CodNotice) <==> paymentMethod == "cod"
  {
    var id := OrderIdText(order);
    if paymentMethod == "cod" {
      var rest := ". Admin has been notified with the order details. Order ID: " + id;
      assert SuccessMessage(paymentMethod, order) == CodNotice + rest;
      StartsWithConcat(CodNotice, rest);
    } else {
      assert SuccessMessage(paymentMethod, order) == PlainNotice + id;
      PlainMessageIsNotCod(id);
    }
  }

  lemma PlainMessageIsNotCod(id: string)
    ensures !StartsWith(PlainNotice + id, CodNotice)
  {
    var m := PlainNotice + id;
    assert m[28] == PlainNotice[28] == 'O';
    assert CodNotice[28] == 'C';
    DiffersFromPrefix(m, CodNotice, 28);
  }

  /** `err?.message || 'Checkout failed'` for the error a failed request raised. */
  function FailureMessage(answer: Answer): string
    requires !(answer.Answer? && answer.ok)
  {
    var text := if answer.NoAnswer? then answer.error else answer.message;
    if text != "" then text else "Checkout failed"
  }

  /** The checkout form's state. */
  class CheckoutForm {
    var address: Address
    var paymentMethod: string
    var loading: bool
    var message: string
    var placedOrder: JsValue

    constructor ()
      ensures address == Address("", "", "", "", "", "", "") && paymentMethod == "card"
      ensures !loading && message == "" && placedOrder == Null
    {
      address := Address("", "", "", "", "", "", "");
      paymentMethod := "card";
      loading := false;
      message := "";
      placedOrder := Null;
    }

    /** `handleSubmit`; `token` is the stored user token ("" when absent) and
        `answer` what the request would come back with. `sent` is whether the
        request is made. */
    method HandleSubmit(cart: CartContext.CartState, token: string, answer: Answer) returns (sent: bool)
      requires answer.Answer? && answer.ok ==> HasText(Get(answer.order, "_id"))
      modifies this, cart
      ensures !loading
      ensures address == old(address) && paymentMethod == old(paymentMethod) && cart.token == old(cart.token)
      ensures sent <==> token != "" && AddressComplete(address)
      ensures token == "" ==> message == "Please login to place an order"
      ensures token != "" && !AddressComplete(address) ==>
                message == "Please provide street, city, postal code and country"
      ensures sent && answer.Answer? && answer.ok ==>
                cart.items == [] && placedOrder == Or(answer.order, Null)
                && message == SuccessMessage(paymentMethod, answer.order)
      ensures sent && !(answer.Answer? && answer.ok) ==> message == FailureMessage(answer)
      ensures !(sent && answer.Answer? && answer.ok) ==>
                cart.items == old(cart.items) && placedOrder == old(placedOrder)
    {
      message := "";
      loading := true;
      sent := false;
      if token == "" {
        message := "Please login to place an order";
      } else if !AddressComplete(address) {
        message := "Please provide street, city, postal code and country";
      } else {
        sent := true;
        if answer.Answer? && answer.ok {
          cart.ClearCart();
          placedOrder := Or(answer.order, Null);
          message := SuccessMessage(paymentMethod, answer.order);
        } else {
          message := FailureMessage(answer);
        }
      }
      loading := false;
    }
  }
}
