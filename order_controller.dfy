/** Orders: checkout turns the user's cart into one order, empties the cart
    and notifies the admin; the admin side lists the most recent order lines,
    lists every order newest first, and deletes orders. */
module OrderController {
  import opened Wrappers
  import opened Seqs
  import opened Text
  import opened JsNumbers
  import opened JsValues
  import opened Store

  /** `s || d` for a string. */
  function OrText(s: string, d: string): (r: string)
    ensures s != "" ==> r == s
    ensures s == "" ==> r == d
  {
    if s != "" then s else d
  }

  /** `q || 1` for a quantity. */
  function OrOne(q: int): (r: int)
    ensures r != 0
    ensures q != 0 ==> r == q
    ensures q == 0 ==> r == 1
  {
    if q != 0 then q else 1
  }

  /** `populate('cart.product')`: the product a cart line refers to, when it
      still exists. */
  function Populate(products: seq<Product>, line: CartLine): (p: Option<Product>)
    ensures p.Some? ==> p.value in products && p.value.id == line.product
    ensures p.None? ==> forall i :: 0 <= i < |products| ==> products[i].id != line.product
  {
    match FindById(products, ProductId, line.product)
    case None => None
    case Some(i) => Some(products[i])
  }

  /** The order line checkout builds from one cart line: a copy of the
      product's title, price and image, or placeholders when the product is
      gone. */
  function SnapshotItem(products: seq<Product>, line: CartLine): OrderItem {
    match Populate(products, line)
    case None => OrderItem(EmptyObject, "", "0", "", OrOne(line.quantity))
    case Some(p) => OrderItem(ProductRef(p.id), OrText(p.title, ""), OrText(p.price, "0"), OrText(p.img, ""), OrOne(line.quantity))
  }

  /** `user.cart.map(...)`: one order line per cart line, in cart order. */
  function Snapshot(products: seq<Product>, cart: seq<CartLine>): (items: seq<OrderItem>)
    ensures |items| == |cart|
    ensures forall i :: 0 <= i < |cart| ==> items[i] == SnapshotItem(products, cart[i])
  {
    if cart == [] then [] else [SnapshotItem(products, cart[0])] + Snapshot(products, cart[1..])
  }

  /** What an order line copies: the referenced product's own data while it
      exists, placeholders once it is gone, and never a quantity of 0. */
  lemma SnapshotCopiesProduct(products: seq<Product>, line: CartLine, k: nat)
    requires k < |products| && products[k].id == line.product
    requires UniqueIds(products, ProductId)
    ensures SnapshotItem(products, line).product == ProductRef(line.product)
    ensures SnapshotItem(products, line).title == products[k].title
    ensures SnapshotItem(products, line).img == products[k].img
    ensures products[k].price != "" ==> SnapshotItem(products, line).price == products[k].price
    ensures SnapshotItem(products, line).quantity == OrOne(line.quantity)
  {
    var p := Populate(products, line);
    assert p.Some?;
    assert p.value == products[k] by {
      var i :| 0 <= i < |products| && products[i] == p.value;
      assert products[i].id == products[k].id;
    }
  }

  lemma SnapshotOfMissingProduct(products: seq<Product>, line: CartLine)
    requires forall i :: 0 <= i < |products| ==> products[i].id != line.product
    ensures SnapshotItem(products, line) == OrderItem(EmptyObject, "", "0", "", OrOne(line.quantity))
  {
  }

  /** The price a price string stands for on the server:
      `parseFloat(String(price).replace(/[^0-9.]/g, '')) || 0`. */
  predicate IsPriceChar(c: char) { IsDigit(c) || c == '.' }

  function BackendPrice(price: string): real {
    OrElse(ParseFloat(Filter(price, IsPriceChar)), 0.0)
  }

  /** A price written `whole.fraction`, with or without a currency sign in
      front, is the whole part plus the fraction. */
  lemma BackendPriceReadsDecimal(prefix: string, w: string, f: string)
    requires forall i :: 0 <= i < |prefix| ==> !IsPriceChar(prefix[i])
    requires AllDigits(w) && AllDigits(f) && w != []
    ensures BackendPrice(prefix + w + "." + f) == DigitsValue(w) as real + FractionValue(f)
  {
    DecimalPriceTextKept(prefix, w, f);
    ParseFloatReadsDecimal(w, f);
  }

  /** Filtering drops the prefix and keeps the whole of `whole.fraction`. */
  lemma DecimalPriceTextKept(prefix: string, w: string, f: string)
    requires forall i :: 0 <= i < |prefix| ==> !IsPriceChar(prefix[i])
    requires AllDigits(w) && AllDigits(f)
    ensures Filter(prefix + w + "." + f, IsPriceChar) == w + "." + f
  {
    var s := w + "." + f;
    DecimalTextKept(w, f);
    FilterAppend(prefix, s, IsPriceChar);
    FilterNone(prefix, IsPriceChar);
    assert prefix + w + "." + f == prefix + s;
    assert [] + s == s;
  }

  lemma DecimalTextKept(w: string, f: string)
    requires AllDigits(w) && AllDigits(f)
    ensures Filter(w + "." + f, IsPriceChar) == w + "." + f
  {
    var s := w + "." + f;
    forall i | 0 <= i < |s| ensures IsPriceChar(s[i]) {
      if i < |w| { assert s[i] == w[i]; } else if i > |w| { assert s[i] == f[i - |w| - 1]; }
    }
    FilterAll(s, IsPriceChar);
  }

  /** The server drops a minus sign: "-5" costs what "5" costs. */
  lemma BackendPriceDropsSign(t: string)
    ensures BackendPrice("-" + t) == BackendPrice(t)
  {
    FilterCons('-', t, IsPriceChar);
    assert [] + Filter(t, IsPriceChar) == Filter(t, IsPriceChar);
  }

  /** A server-side price is never negative: the sign is filtered out. */
  lemma BackendPriceNonNegative(price: string)
    ensures BackendPrice(price) >= 0.0
  {
    var t := Filter(price, IsPriceChar);
    if t != [] {
      assert IsPriceChar(t[0]);
    }
    TrimStartNoSpace(t);
  }

  /** One line's share of the total: `numeric * (it.quantity || 1)`. */
  function LineAmount(it: OrderItem): real {
    Scale(BackendPrice(it.price), OrOne(it.quantity))
  }

  function Scale(price: real, quantity: int): real {
    price * quantity as real
  }

  /** `items.reduce((sum, it) => sum + ..., 0)`, summed left to right. */
  function TotalAmount(items: seq<OrderItem>): real
    decreases |items|
  {
    if items == [] then 0.0 else TotalAmount(items[..|items| - 1]) + LineAmount(items[|items| - 1])
  }

  lemma TotalAmountAppend(items: seq<OrderItem>, more: seq<OrderItem>)
    ensures TotalAmount(items + more) == TotalAmount(items) + TotalAmount(more)
    decreases |more|
  {
    if more != [] {
      var last := more[|more| - 1];
      assert (items + more)[..|items + more| - 1] == items + more[..|more| - 1];
      TotalAmountAppend(items, more[..|more| - 1]);
    } else {
      assert items + more == items;
    }
  }

  lemma ScaleNonNegative(price: real, quantity: int)
    requires price >= 0.0 && quantity >= 0
    ensures Scale(price, quantity) >= 0.0
  {
  }

  lemma LineAmountNonNegative(it: OrderItem)
    requires it.quantity >= 0
    ensures LineAmount(it) >= 0.0
  {
    BackendPriceNonNegative(it.price);
    ScaleNonNegative(BackendPrice(it.price), OrOne(it.quantity));
  }

  /** With no negative quantity in the cart the order total is not negative. */
  lemma {:induction false} TotalAmountNonNegative(items: seq<OrderItem>)
    requires forall i :: 0 <= i < |items| ==> items[i].quantity >= 0
    ensures TotalAmount(items) >= 0.0
    decreases |items|
  {
    if items != [] {
      TotalAmountNonNegative(items[..|items| - 1]);
      LineAmountNonNegative(items[|items| - 1]);
    }
  }

  lemma ReadsTen()
    ensures ReadUnsigned("10.00") == Some(Read(10.0, ""))
  {
    assert DigitsValue("10") == 10 by { assert "10"[..1] == "1"; }
    assert DigitsValue("00") == 0 by { assert "00"[..1] == "0"; }
    assert ReadUnsigned("10.00") == Some(Read(10.0 + 0.0 / 100.0, "")) by {
      assert "10.00" == "10" + "." + "00";
      ReadsCents("10", "00");
    }
  }

  lemma ReadsNineteen()
    ensures ReadUnsigned("19.99") == Some(Read(19.99, ""))
  {
    assert DigitsValue("19") == 19 by { assert "19"[..1] == "1"; }
    assert DigitsValue("99") == 99 by { assert "99"[..1] == "9"; }
    assert ReadUnsigned("19.99") == Some(Read(19.0 + 99.0 / 100.0, "")) by {
      assert "19.99" == "19" + "." + "99";
      ReadsCents("19", "99");
    }
  }

  lemma PriceCharsKept(s: string)
    requires forall i :: 0 <= i < |s| ==> IsDigit(s[i]) || s[i] == '.'
    ensures Filter(s, IsPriceChar) == s
  {
    FilterAll(s, IsPriceChar);
  }

  lemma ParsesTen()
    ensures ParseFloat("10.00") == Finite(10.0)
  {
    TrimStartNoSpace("10.00");
    ReadsTen();
  }

  lemma ParsesNineteen()
    ensures ParseFloat("19.99") == Finite(19.99)
  {
    TrimStartNoSpace("19.99");
    ReadsNineteen();
  }

  /** The currency sign is dropped before parsing. */
  lemma TenDollars()
    ensures BackendPrice("$10.00") == 10.0
  {
    assert "$10.00"[1..] == "10.00";
    PriceCharsKept("10.00");
    assert Filter("$10.00", IsPriceChar) == "10.00";
    ParsesTen();
  }

  lemma NineteenNinetyNine()
    ensures BackendPrice("19.99") == 19.99
  {
    PriceCharsKept("19.99");
    ParsesNineteen();
  }

  /** Two lines at "$10.00" and one at "19.99" come to 39.99. */
  lemma TotalAmountExample(a: ItemProduct, b: ItemProduct)
    ensures TotalAmount([OrderItem(a, "A", "$10.00", "", 2), OrderItem(b, "B", "19.99", "", 1)]) == 39.99
  {
    var items := [OrderItem(a, "A", "$10.00", "", 2), OrderItem(b, "B", "19.99", "", 1)];
    TenDollars();
    NineteenNinetyNine();
    assert items[..1][..0] == [];
    assert TotalAmount(items[..1]) == 20.0;
  }

  /** `req.body?.address || {}`. */
  function ShippingAddress(body: JsValue): JsValue {
    Or(Get(body, "address"), Obj(map[]))
  }

  /** `req.body?.paymentMethod || 'unknown'`. */
  function PaymentMethod(body: JsValue): JsValue {
    Or(Get(body, "paymentMethod"), Str("unknown"))
  }

  /** The condition under which checkout logs a warning and goes on:
      neither a street nor a postal code. */
  predicate AddressIncomplete(address: JsValue) {
    !Truthy(address) || (!Truthy(Get(address, "street")) && !Truthy(Get(address, "postalCode")))
  }

  /** The stored address and payment method are never falsy; a body without
      an address, or one with neither street nor postal code, is warned about,
      and a missing method is stored as 'unknown'. */
  lemma OrderDefaults(body: JsValue)
    ensures Truthy(ShippingAddress(body)) && Truthy(PaymentMethod(body))
    ensures !Truthy(Get(body, "address")) ==> AddressIncomplete(ShippingAddress(body))
    ensures Truthy(Get(body, "address")) ==>
              (AddressIncomplete(ShippingAddress(body)) <==>
               !Truthy(Get(Get(body, "address"), "street")) && !Truthy(Get(Get(body, "address"), "postalCode")))
    ensures !Truthy(Get(body, "paymentMethod")) ==> PaymentMethod(body) == Str("unknown")
    ensures Truthy(Get(body, "paymentMethod")) ==> PaymentMethod(body) == Get(body, "paymentMethod")
  {
  }

  /** The order checkout stores for a user with a non-empty cart. */
  function PlacedOrder(u: User, products: seq<Product>, userId: string, body: JsValue, orderId: string, now: int): Order {
    var items := Snapshot(products, u.cart);
    Order(orderId, userId, items, TotalAmount(items), ShippingAddress(body), PaymentMethod(body), now)
  }

  /** `user.Fullname || user.Email || String(userId)`. */
  function UserName(u: User, userId: string): (r: string)
    ensures u.Fullname != "" ==> r == u.Fullname
    ensures u.Fullname == "" && u.Email != "" ==> r == u.Email
    ensures u.Fullname == "" && u.Email == "" ==> r == userId
  {
    OrText(u.Fullname, OrText(u.Email, userId))
  }

  /** The admin notification's text. */
  function NotificationMessage(userName: string, paymentMethod: JsValue, orderId: string): string {
    userName + " placed a new order" + (if StrictEquals(paymentMethod, Str("cod")) then " (COD)" else "")
      + " (" + orderId + ")"
  }

  function OrderNotification(u: User, userId: string, o: Order): Notification {
    Notification("order", NotificationMessage(UserName(u, userId), o.paymentMethod, o.id), userId,
                 o.id, o.totalAmount, o.paymentMethod)
  }

  predicate NoParen(s: string) { forall i :: 0 <= i < |s| ==> s[i] != '(' }

  /** The notification is marked " (COD)" exactly when the payment method is
      `'cod'`, for a user name without parentheses and a hexadecimal order id. */
  lemma NotificationMarksCod(userName: string, paymentMethod: JsValue, orderId: string)
    requires NoParen(userName)
    requires forall i :: 0 <= i < |orderId| ==> IsHexDigit(orderId[i])
    ensures Contains(NotificationMessage(userName, paymentMethod, orderId), " (COD)")
            <==> StrictEquals(paymentMethod, Str("cod"))
  {
    var msg := NotificationMessage(userName, paymentMethod, orderId);
    if StrictEquals(paymentMethod, Str("cod")) {
      var at := |userName| + 19;
      assert msg == (userName + " placed a new order") + " (COD)" + (" (" + orderId + ")");
      assert msg[at..at + 6] == " (COD)";
      assert OccursAt(msg, " (COD)", at);
    } else {
      var head := userName + " placed a new order (";
      assert msg == head + orderId + ")";
      NoCodMarker(userName, head, orderId, msg);
    }
  }

  /** Without the no-parenthesis hypothesis the marker can come from the name:
      "Bob (COD)" paying by card gets a message containing " (COD)". */
  lemma NameCanCarryCodMarker()
    ensures !StrictEquals(Str("card"), Str("cod"))
    ensures Contains(NotificationMessage("Bob (COD)", Str("card"), "1a"), " (COD)")
  {
    var msg := NotificationMessage("Bob (COD)", Str("card"), "1a");
    assert msg[3..9] == " (COD)";
    assert OccursAt(msg, " (COD)", 3);
  }

  lemma NoCodMarker(userName: string, head: string, orderId: string, msg: string)
    requires NoParen(userName)
    requires forall i :: 0 <= i < |orderId| ==> IsHexDigit(orderId[i])
    requires head == userName + " placed a new order (" && msg == head + orderId + ")"
    ensures !Contains(msg, " (COD)")
  {
    var phrase := " placed a new order ";
    assert NoParen(phrase);
    assert head == userName + phrase + "(";
    var p := |head| - 1;
    forall j | 0 <= j <= |msg| - 6 ensures !OccursAt(msg, " (COD)", j) {
      OccursAtChars(msg, " (COD)", j);
      if j + 1 < |userName| {
        assert msg[j + 1] == userName[j + 1];
      } else if j + 1 < p {
        assert msg[j + 1] == phrase[j + 1 - |userName|];
      } else if j + 1 == p {
        assert msg[j + 3] == orderId[j + 3 - |head|];
      } else {
        assert msg[j + 1] == orderId[j + 1 - |head|];
      }
    }
  }

  datatype CheckoutReply =
    | CheckoutRejected(status: int, message: string)
    | OrderPlaced(status: int, message: string, order: Order)

  /** The collections checkout writes. */
  datatype Collections = Collections(users: seq<User>, orders: seq<Order>, notes: seq<Notification>)

  /** What checkout does, as a function of the collections before the call:
      the reply, whether the address warning is logged, and the collections
      after the call. */
  datatype CheckoutOutcome = CheckoutOutcome(reply: CheckoutReply, warned: bool, after: Collections)

  function CheckoutSpec(before: Collections, products: seq<Product>, userId: string, body: JsValue,
                        orderId: string, now: int, notificationFails: bool): CheckoutOutcome {
    match FindById(before.users, UserId, userId)
    case None => CheckoutOutcome(CheckoutRejected(404, "User not found"), false, before)
    case Some(k) =>
      if before.users[k].cart == [] then CheckoutOutcome(CheckoutRejected(400, "Cart is empty"), false, before)
      else PlaceOrderSpec(before, k, products, userId, body, orderId, now, notificationFails)
  }

  /** Checkout for the user at position `k`, whose cart is not empty. */
  function PlaceOrderSpec(before: Collections, k: nat, products: seq<Product>, userId: string, body: JsValue,
                          orderId: string, now: int, notificationFails: bool): CheckoutOutcome
    requires k < |before.users|
  {
    var u := before.users[k];
    var o := PlacedOrder(u, products, userId, body, orderId, now);
    var notes := if notificationFails then before.notes else before.notes + [OrderNotification(u, userId, o)];
    CheckoutOutcome(OrderPlaced(201, "Order placed", o), AddressIncomplete(o.shippingAddress),
                    Collections(before.users[k := u.(cart := [])], before.orders + [o], notes))
  }

  /** A refused checkout changes nothing; it is refused exactly when the
      user is unknown or their cart is empty. */
  lemma CheckoutRefusedChangesNothing(before: Collections, products: seq<Product>, userId: string, body: JsValue,
                                      orderId: string, now: int, notificationFails: bool)
    requires UniqueIds(before.users, UserId)
    ensures var out := CheckoutSpec(before, products, userId, body, orderId, now, notificationFails);
            out.reply.CheckoutRejected? ==> out.after == before && !out.warned
    ensures var out := CheckoutSpec(before, products, userId, body, orderId, now, notificationFails);
            out.reply.CheckoutRejected? <==>
              forall i :: 0 <= i < |before.users| && before.users[i].id == userId ==> before.users[i].cart == []
  {
    var out := CheckoutSpec(before, products, userId, body, orderId, now, notificationFails);
    match FindById(before.users, UserId, userId)
    case None =>
      assert out.reply.CheckoutRejected?;
    case Some(k) =>
      assert forall i :: 0 <= i < |before.users| && before.users[i].id == userId ==> i == k;
  }

  /** A successful checkout stores exactly one order, copied from the cart
      with its total; empties that user's cart and touches no other user; and
      adds one notification unless creating it failed. */
  lemma CheckoutPlacesOneOrder(before: Collections, products: seq<Product>, userId: string, body: JsValue,
                               orderId: string, now: int, notificationFails: bool)
    requires UniqueIds(before.users, UserId)
    ensures var out := CheckoutSpec(before, products, userId, body, orderId, now, notificationFails);
            out.reply.OrderPlaced? ==>
              var o := out.reply.order;
              exists k :: 0 <= k < |before.users| && before.users[k].id == userId && before.users[k].cart != []
                && out.after.orders == before.orders + [o]
                && o.id == orderId && o.user == userId && o.createdAt == now
                && o.items == Snapshot(products, before.users[k].cart)
                && o.totalAmount == TotalAmount(o.items)
                && |out.after.users| == |before.users| && out.after.users[k].cart == []
                && out.after.users[k] == before.users[k].(cart := [])
                && (forall j :: 0 <= j < |before.users| && j != k ==> out.after.users[j] == before.users[j])
                && |out.after.notes| == |before.notes| + (if notificationFails then 0 else 1)
  {
  }

  /** `checkout` for the logged-in user `userId`. `orderId` is the id the
      database gives the new order, `now` the time of the call, and
      `notificationFails` whether creating the admin notification throws (the
      handler swallows that). `warned` is whether the warning about an
      incomplete address is logged. */
  method Checkout(users: UserStore, products: ProductStore, orders: OrderStore, notes: NotificationStore,
                  userId: string, body: JsValue, orderId: string, now: int, notificationFails: bool)
    returns (reply: CheckoutReply, warned: bool)
    requires users.Valid() && orders.Valid()
    requires forall i :: 0 <= i < |orders.docs| ==> orders.docs[i].id != orderId
    modifies users, orders, notes
    ensures users.Valid() && orders.Valid()
    ensures CheckoutOutcome(reply, warned, Collections(users.docs, orders.docs, notes.docs))
            == CheckoutSpec(Collections(old(users.docs), old(orders.docs), old(notes.docs)), products.docs,
                            userId, body, orderId, now, notificationFails)
  {
    warned := false;
    var found := FindById(users.docs, UserId, userId);
    if found.None? {
      return CheckoutRejected(404, "User not found"), warned;
    }
    var k := found.value;
    var user := users.docs[k];
    if user.cart == [] {
      return CheckoutRejected(400, "Cart is empty"), warned;
    }
    ghost var before := Collections(users.docs, orders.docs, notes.docs);
    reply, warned := PlaceOrder(users, products, orders, notes, k, userId, body, orderId, now, notificationFails);
    CheckoutSpecOnSuccess(before, products.docs, userId, body, orderId, now, notificationFails, k);
  }

  /** The part of checkout after the user and a non-empty cart were found:
      store the order, empty the cart, notify the admin. */
  method PlaceOrder(users: UserStore, products: ProductStore, orders: OrderStore, notes: NotificationStore, k: nat,
                    userId: string, body: JsValue, orderId: string, now: int, notificationFails: bool)
    returns (reply: CheckoutReply, warned: bool)
    requires users.Valid() && orders.Valid() && k < |users.docs|
    requires forall i :: 0 <= i < |orders.docs| ==> orders.docs[i].id != orderId
    modifies users, orders, notes
    ensures users.Valid() && orders.Valid()
    ensures var u := old(users.docs)[k];
            var o := PlacedOrder(u, products.docs, userId, body, orderId, now);
            reply == OrderPlaced(201, "Order placed", o) && warned == AddressIncomplete(o.shippingAddress)
            && users.docs == old(users.docs)[k := u.(cart := [])] && orders.docs == old(orders.docs) + [o]
            && notes.docs == old(notes.docs) + (if notificationFails then [] else [OrderNotification(u, userId, o)])
  {
    var user := users.docs[k];
    var saved;
    saved, warned := BuildOrder(user, products.docs, userId, body, orderId, now);
    StoreOrder(orders, saved);
    ClearCart(users, k);
    NotifyAdmin(notes, user, userId, saved, notificationFails);
    reply := OrderPlaced(201, "Order placed", saved);
  }

  /** `Order.create`: store an order under a fresh id. */
  method StoreOrder(orders: OrderStore, saved: Order)
    requires orders.Valid()
    requires forall i :: 0 <= i < |orders.docs| ==> orders.docs[i].id != saved.id
    modifies orders
    ensures orders.Valid() && orders.docs == old(orders.docs) + [saved]
  {
    AppendFresh(orders.docs, OrderId, saved);
    orders.docs := orders.docs + [saved];
  }

  /** `user.cart = []; await user.save()`. */
  method ClearCart(users: UserStore, k: nat)
    requires users.Valid() && k < |users.docs|
    modifies users
    ensures users.Valid() && users.docs == old(users.docs)[k := old(users.docs)[k].(cart := [])]
  {
    ClearCartKeepsValid(users.docs, k);
    users.docs := users.docs[k := users.docs[k].(cart := [])];
  }

  /** The order checkout builds for `user`, and whether its address is
      incomplete enough to log a warning. */
  method BuildOrder(user: User, products: seq<Product>, userId: string, body: JsValue, orderId: string, now: int)
    returns (saved: Order, warned: bool)
    ensures saved == PlacedOrder(user, products, userId, body, orderId, now)
    ensures warned == AddressIncomplete(saved.shippingAddress)
  {
    var items := Snapshot(products, user.cart);
    var totalAmount := TotalAmount(items);
    var address := ShippingAddress(body);
    var paymentMethod := PaymentMethod(body);
    warned := AddressIncomplete(address);
    saved := Order(orderId, userId, items, totalAmount, address, paymentMethod, now);
  }

  /** The admin notification about `saved`; when creating it throws, the error
      is logged and nothing is stored. */
  method NotifyAdmin(notes: NotificationStore, user: User, userId: string, saved: Order, fails: bool)
    modifies notes
    ensures notes.docs == old(notes.docs) + (if fails then [] else [OrderNotification(user, userId, saved)])
  {
    if !fails {
      var message := NotificationMessage(UserName(user, userId), saved.paymentMethod, saved.id);
      notes.docs := notes.docs + [Notification("order", message, userId, saved.id, saved.totalAmount, saved.paymentMethod)];
    }
  }

  /** The successful branch of `CheckoutSpec`, spelled out. */
  lemma CheckoutSpecOnSuccess(before: Collections, products: seq<Product>, userId: string, body: JsValue,
                              orderId: string, now: int, notificationFails: bool, k: nat)
    requires k < |before.users|
    ensures var u := before.users[k];
            var o := PlacedOrder(u, products, userId, body, orderId, now);
            PlaceOrderSpec(before, k, products, userId, body, orderId, now, notificationFails)
            == CheckoutOutcome(OrderPlaced(201, "Order placed", o), AddressIncomplete(o.shippingAddress),
                               Collections(before.users[k := u.(cart := [])], before.orders + [o],
                                           if notificationFails then before.notes
                                           else before.notes + [OrderNotification(u, userId, o)]))
  {
  }

  /** Emptying one user's cart keeps ids and e-mails unique. */
  lemma ClearCartKeepsValid(docs: seq<User>, k: nat)
    requires k < |docs|
    requires UniqueIds(docs, UserId) && forall i, j :: 0 <= i < j < |docs| ==> docs[i].Email != docs[j].Email
    ensures var d := docs[k := docs[k].(cart := [])];
            UniqueIds(d, UserId) && forall i, j :: 0 <= i < j < |d| ==> d[i].Email != d[j].Email
  {
    var d := docs[k := docs[k].(cart := [])];
    assert forall i :: 0 <= i < |d| ==> d[i].id == docs[i].id && d[i].Email == docs[i].Email;
  }

  /** Who placed an order, as `populate('user', 'Fullname Email')` shows it. */
  datatype Buyer = Buyer(id: string, name: string, email: string)

  /** One entry of the recent-orders list. */
  datatype RecentItem = RecentItem(orderId: string, productId: ItemProduct, title: string, price: string,
                                   img: string, quantity: int, orderedAt: int, orderedBy: Option<Buyer>,
                                   shippingAddress: JsValue)

  function OrderedBy(users: seq<User>, o: Order): (b: Option<Buyer>)
    ensures b.Some? ==> exists i :: 0 <= i < |users| && users[i].id == o.user
                          && b.value == Buyer(users[i].id, users[i].Fullname, users[i].Email)
    ensures b.None? ==> forall i :: 0 <= i < |users| ==> users[i].id != o.user
  {
    match FindById(users, UserId, o.user)
    case None => None
    case Some(i) => Some(Buyer(users[i].id, users[i].Fullname, users[i].Email))
  }

  /** The entry `getRecentOrders` pushes for one line of one order. */
  function RecentRow(users: seq<User>, o: Order, it: OrderItem): RecentItem {
    RecentItem(o.id, it.product, OrText(it.title, ""), OrText(it.price, ""), OrText(it.img, ""),
               OrOne(it.quantity), o.createdAt, OrderedBy(users, o), Or(o.shippingAddress, Null))
  }

  function OrderRows(users: seq<User>, o: Order): (rows: seq<RecentItem>)
    ensures |rows| == |o.items|
    ensures forall j :: 0 <= j < |rows| ==> rows[j] == RecentRow(users, o, o.items[j])
  {
    seq(|o.items|, j requires 0 <= j < |o.items| => RecentRow(users, o, o.items[j]))
  }

  /** The lines of the given orders, order by order, each order's lines in
      their own order. */
  function FlattenRows(users: seq<User>, os: seq<Order>): seq<RecentItem>
    decreases |os|
  {
    if os == [] then [] else FlattenRows(users, os[..|os| - 1]) + OrderRows(users, os[|os| - 1])
  }

  function ItemCount(os: seq<Order>): nat
    decreases |os|
  {
    if os == [] then 0 else ItemCount(os[..|os| - 1]) + |os[|os| - 1].items|
  }

  /** `parseInt(req.query.limit) || 8`; an absent query parameter reads as
      `parseInt(undefined)`, which is NaN (the text "undefined" has no digits). */
  function Limit(query: Option<string>): (n: int)
    ensures n != 0
    ensures query.None? ==> n == 8
    ensures query.Some? && ParseInt(query.value).Finite? && ParseInt(query.value).value != 0.0
            ==> n == ParseInt(query.value).value.Floor
    ensures query.Some? && (ParseInt(query.value).NaN? || ParseInt(query.value).value == 0.0) ==> n == 8
    ensures query.Some? && AllDigits(query.value) && DigitsValue(query.value) != 0 ==> n == DigitsValue(query.value)
    ensures query.Some? && AllDigits(query.value) && DigitsValue(query.value) == 0 ==> n == 8
  {
    var parsed := if query.Some? then ParseInt(query.value) else NaN;
    OrElse(parsed, 8.0).Floor
  }

  /** `Order.find().sort({ createdAt: -1 }).limit(n)`; a negative limit returns
      as many documents as a positive one. */
  function RecentOrders(docs: seq<Order>, query: Option<string>): seq<Order> {
    Take(SortDescending(docs, OrderCreatedAt), Bound(Limit(query)))
  }

  /** `?limit=5` asks for five orders, `?limit=0` and `?limit=abc` for eight. */
  lemma LimitExamples()
    ensures Limit(Some("5")) == 5
    ensures Limit(Some("0")) == 8
    ensures Limit(Some("abc")) == 8
  {
    assert DigitsValue("5") == 5 by { assert "5"[..0] == ""; }
    assert DigitsValue("0") == 0 by { assert "0"[..0] == ""; }
    ParseIntNoDigits("abc");
  }

  /** How many documents `.limit(n)` lets through. */
  function Bound(n: int): nat {
    if n < 0 then -n else n
  }

  /** The orders `getRecentOrders` reads are the newest ones, at most the
      limit of them, and eight when no limit is given. */
  lemma RecentOrdersAreNewest(docs: seq<Order>, query: Option<string>)
    ensures Descending(RecentOrders(docs, query), OrderCreatedAt)
    ensures multiset(RecentOrders(docs, query)) <= multiset(docs)
    ensures var m := Bound(Limit(query));
            |RecentOrders(docs, query)| == if |docs| < m then |docs| else m
    ensures query.None? ==> |RecentOrders(docs, query)| == if |docs| < 8 then |docs| else 8
    ensures forall d, i :: d in multiset(docs) - multiset(RecentOrders(docs, query)) && 0 <= i < |RecentOrders(docs, query)|
              ==> OrderCreatedAt(d) <= OrderCreatedAt(RecentOrders(docs, query)[i])
  {
    var sorted := SortDescending(docs, OrderCreatedAt);
    var m := Bound(Limit(query));
    assert RecentOrders(docs, query) == Take(sorted, m);
    TakeDescending(sorted, OrderCreatedAt, m);
    TakeLeavesSmaller(sorted, OrderCreatedAt, m);
  }

  /** `getRecentOrders`: the lines of the newest orders, newest order first. */
  method GetRecentOrders(orders: OrderStore, users: UserStore, query: Option<string>)
    returns (items: seq<RecentItem>)
    ensures items == FlattenRows(users.docs, RecentOrders(orders.docs, query))
    ensures |items| == ItemCount(RecentOrders(orders.docs, query))
  {
    var selected := RecentOrders(orders.docs, query);
    var buyers := users.docs;
    items := [];
    var i := 0;
    while i < |selected|
      invariant 0 <= i <= |selected|
      invariant items == FlattenRows(buyers, selected[..i])
    {
      items := PushOrderRows(items, buyers, selected[i]);
      FlattenRowsStep(buyers, selected, i);
      i := i + 1;
    }
    assert selected[..i] == selected;
    FlattenRowsLength(buyers, selected);
  }

  /** The inner loop of `getRecentOrders`: one entry per line of the order. */
  method PushOrderRows(items: seq<RecentItem>, users: seq<User>, o: Order) returns (r: seq<RecentItem>)
    ensures r == items + OrderRows(users, o)
  {
    r := items;
    var j := 0;
    while j < |o.items|
      invariant 0 <= j <= |o.items|
      invariant r == items + OrderRows(users, o)[..j]
    {
      assert OrderRows(users, o)[..j + 1] == OrderRows(users, o)[..j] + [RecentRow(users, o, o.items[j])];
      r := r + [RecentRow(users, o, o.items[j])];
      j := j + 1;
    }
    assert OrderRows(users, o)[..j] == OrderRows(users, o);
  }

  lemma FlattenRowsStep(users: seq<User>, os: seq<Order>, i: nat)
    requires i < |os|
    ensures FlattenRows(users, os[..i + 1]) == FlattenRows(users, os[..i]) + OrderRows(users, os[i])
  {
    assert os[..i + 1][..i] == os[..i];
  }

  lemma {:induction false} FlattenRowsLength(users: seq<User>, os: seq<Order>)
    ensures |FlattenRows(users, os)| == ItemCount(os)
    decreases |os|
  {
    if os != [] {
      FlattenRowsLength(users, os[..|os| - 1]);
    }
  }

  /** Every entry of the list is a line of one of the listed orders: entry
      `k` comes from line `j` of order `i`. */
  lemma {:induction false} RowOrigin(users: seq<User>, os: seq<Order>, k: nat) returns (i: nat, j: nat)
    requires k < |FlattenRows(users, os)|
    ensures i < |os| && j < |os[i].items|
    ensures FlattenRows(users, os)[k] == RecentRow(users, os[i], os[i].items[j])
    decreases |os|
  {
    var init := os[..|os| - 1];
    var front := FlattenRows(users, init);
    if k < |front| {
      i, j := RowOrigin(users, init, k);
      assert os[i] == init[i];
    } else {
      i, j := |os| - 1, k - |front|;
    }
  }

  /** One order as `getAllOrders` returns it: its `user` populated with the
      buyer's id, name and email, or null once that user is gone. */
  datatype ListedOrder = ListedOrder(order: Order, user: Option<Buyer>)

  /** The orders of a listing, without their buyers. */
  function ListedOrders(list: seq<ListedOrder>): (os: seq<Order>)
    ensures |os| == |list| && forall i :: 0 <= i < |list| ==> os[i] == list[i].order
  {
    seq(|list|, i requires 0 <= i < |list| => list[i].order)
  }

  /** `getAllOrders`: every order, newest first, each with its buyer. */
  method GetAllOrders(orders: OrderStore, users: UserStore) returns (list: seq<ListedOrder>)
    ensures Descending(ListedOrders(list), OrderCreatedAt)
    ensures multiset(ListedOrders(list)) == multiset(orders.docs)
    ensures forall i :: 0 <= i < |list| ==> list[i].user == OrderedBy(users.docs, list[i].order)
  {
    var sorted := SortDescending(orders.docs, OrderCreatedAt);
    var buyers := users.docs;
    list := [];
    var i := 0;
    while i < |sorted|
      invariant 0 <= i <= |sorted|
      invariant ListedOrders(list) == sorted[..i]
      invariant forall k :: 0 <= k < |list| ==> list[k].user == OrderedBy(buyers, list[k].order)
    {
      list := list + [ListedOrder(sorted[i], OrderedBy(buyers, sorted[i]))];
      i := i + 1;
    }
    assert sorted[..i] == sorted;
  }

  datatype DeleteReply =
    | DeleteRejected(status: int, message: string)
    | OrderDeleted(status: int, message: string, order: Order)

  /** `deleteOrder`. An id Mongoose cannot cast makes `findByIdAndDelete`
      throw, which the handler answers with 500. */
  method DeleteOrder(orders: OrderStore, id: string) returns (reply: DeleteReply)
    requires orders.Valid()
    modifies orders
    ensures orders.Valid()
    ensures id == "" ==> reply == DeleteRejected(400, "Order id required")
    ensures id != "" && !IsObjectIdText(id) ==> reply == DeleteRejected(500, "Server error while deleting order")
    ensures !reply.OrderDeleted? ==> orders.docs == old(orders.docs)
    ensures id != "" && IsObjectIdText(id) ==>
              (reply.OrderDeleted? <==> exists i :: 0 <= i < |old(orders.docs)| && old(orders.docs)[i].id == id)
    ensures id != "" && IsObjectIdText(id) && !reply.OrderDeleted? ==> reply == DeleteRejected(404, "Order not found")
    ensures reply.OrderDeleted? ==>
              reply.status == 200 && reply.message == "Order deleted" && reply.order.id == id
              && exists i :: 0 <= i < |old(orders.docs)| && old(orders.docs)[i] == reply.order
                   && orders.docs == RemoveAt(old(orders.docs), i)
    ensures reply.OrderDeleted? ==> forall j :: 0 <= j < |orders.docs| ==> orders.docs[j].id != id
  {
    if id == "" {
      return DeleteRejected(400, "Order id required");
    }
    if !IsObjectIdText(id) {
      return DeleteRejected(500, "Server error while deleting order");
    }
    var found := FindById(orders.docs, OrderId, id);
    if found.None? {
      return DeleteRejected(404, "Order not found");
    }
    var i := found.value;
    var deleted := orders.docs[i];
    RemoveKeepsUnique(orders.docs, OrderId, i);
    RemoveDropsId(orders.docs, OrderId, i);
    orders.docs := RemoveAt(orders.docs, i);
    reply := OrderDeleted(200, "Order deleted", deleted);
  }
}
