/** The client's cart. Entries the server sends are normalised into client
    items with lenient defaults; prices are parsed from text such as "$12.99"
    (keeping a minus sign, unlike the server); the total and the item count
    are folds over the items. A logged-out client edits the cart locally; a
    logged-in one replaces it with the server's answer. */
module CartContext {
  import opened Wrappers
  import opened Seqs
  import opened Text
  import opened JsNumbers
  import opened JsValues

  /** An item as the client keeps it: `{ id, title, price, img, quantity }`. */
  datatype CartItem = CartItem(id: JsValue, title: JsValue, price: JsValue, img: JsValue, quantity: JsValue)

  /** A cart entry of a server reply: the two fields the client reads from it. */
  datatype CartEntry = CartEntry(product: JsValue, quantity: JsValue)

  /** `typeof q === 'number' ? q : parseInt(q) || 1` (in `normalizeEntry`) and
      `Number.isFinite(q) ? q : parseInt(q) || 1` (in `getTotalPrice`); the two
      agree because the numbers a JSON value holds are finite. */
  function Quantity(q: JsValue): (r: real)
    ensures q.Num? ==> r == q.n
    ensures !q.Num? ==> r != 0.0 && IsInteger(r)
  {
    if q.Num? then q.n else ParsedQuantity(ToStr(q))
  }

  /** `parseInt(text) || 1`: a whole number, never 0; the number a digit
      string spells when that is not 0, and 1 when it is. */
  function ParsedQuantity(text: string): (r: real)
    ensures r != 0.0 && IsInteger(r)
    ensures AllDigits(text) && DigitsValue(text) != 0 ==> r == DigitsValue(text) as real
    ensures AllDigits(text) && DigitsValue(text) == 0 ==> r == 1.0
  {
    OrElse(ParseInt(text), 1.0)
  }

  /** A quantity kept as digit text reads as the number it spells, or as 1
      when that is 0. */
  lemma QuantityOfDigits(d: string)
    requires AllDigits(d)
    ensures DigitsValue(d) != 0 ==> Quantity(Str(d)) == DigitsValue(d) as real
    ensures DigitsValue(d) == 0 ==> Quantity(Str(d)) == 1.0
  {
    assert Quantity(Str(d)) == ParsedQuantity(d);
  }

  /** A quantity that is neither a number nor a text reads as 1: its text
      ("undefined", "null", "true", "false", "[object Object]") does not start
      with a number. */
  lemma QuantityOfNonText(q: JsValue)
    requires !q.Num? && !q.Str?
    ensures Quantity(q) == 1.0
  {
    ParseIntNoDigits(ToStr(q));
  }

  /** A text that starts with neither white space, a sign nor a digit reads
      as 1. */
  lemma ParsedQuantityOfNoNumber(text: string)
    requires text != [] && !IsSpace(text[0]) && !IsDigit(text[0]) && text[0] != '-' && text[0] != '+'
    ensures ParsedQuantity(text) == 1.0
  {
    ParseIntNoDigits(text);
  }

  /** `typeof c.product === 'string' ? { _id: c.product } : (c.product || {})`. */
  function EntryProduct(c: CartEntry): JsValue {
    if c.product.Str? then Obj(map["_id" := c.product]) else Or(c.product, Obj(map[]))
  }

  /** `product[first] || product[second] || otherwise`. */
  function Fallback(product: JsValue, first: string, second: string, otherwise: JsValue): (r: JsValue)
    ensures Truthy(Get(product, first)) ==> r == Get(product, first)
    ensures !Truthy(Get(product, first)) && Truthy(Get(product, second)) ==> r == Get(product, second)
    ensures !Truthy(Get(product, first)) && !Truthy(Get(product, second)) ==> r == otherwise
    ensures Truthy(otherwise) ==> Truthy(r)
  {
    Or(Get(product, first), Or(Get(product, second), otherwise))
  }

  /** `normalizeEntry`; `now` is what `Date.now()` returns, the id of last resort.
      The fallback chains of the id, the title and the image, the price default
      and the reading of a quantity that is not a number are stated by
      `NormalizedIdChain`, `NormalizedTextChains` and `NormalizedPriceAndQuantity`. */
  function NormalizeEntry(c: CartEntry, now: real): (item: CartItem)
    ensures c.product.Str? && c.product.s != "" ==> item.id == c.product
    ensures now != 0.0 ==> Truthy(item.id)
    ensures Truthy(item.title)
    ensures Truthy(Get(EntryProduct(c), "title")) ==> item.title == Get(EntryProduct(c), "title")
    ensures !IsNullish(item.price)
    ensures !IsNullish(Get(EntryProduct(c), "price")) ==> item.price == Get(EntryProduct(c), "price")
    ensures !IsNullish(item.img)
    ensures item.quantity.Num? && (item.quantity.n != 0.0 || c.quantity == Num(0.0))
    ensures c.quantity.Num? ==> item.quantity == c.quantity
  {
    var product := EntryProduct(c);
    CartItem(Fallback(product, "_id", "id", Or(c.product, Num(now))),
             Fallback(product, "title", "name", Str("Unknown product")),
             if IsNullish(Get(product, "price")) then Str("$0.00") else Get(product, "price"),
             Fallback(product, "img", "image", Str("")),
             Num(Quantity(c.quantity)))
  }

  /** The id is the product's `_id`, else its `id`, else the entry's `product`
      itself, else the clock. */
  lemma NormalizedIdChain(c: CartEntry, now: real)
    ensures var p, id := EntryProduct(c), NormalizeEntry(c, now).id;
            (Truthy(Get(p, "_id")) ==> id == Get(p, "_id"))
            && (!Truthy(Get(p, "_id")) && Truthy(Get(p, "id")) ==> id == Get(p, "id"))
            && (!Truthy(Get(p, "_id")) && !Truthy(Get(p, "id")) && Truthy(c.product) ==> id == c.product)
            && (!Truthy(Get(p, "_id")) && !Truthy(Get(p, "id")) && !Truthy(c.product) ==> id == Num(now))
  {
  }

  /** The title is `title`, else `name`, else "Unknown product"; the image is
      `img`, else `image`, else "". */
  lemma NormalizedTextChains(c: CartEntry, now: real)
    ensures var p, item := EntryProduct(c), NormalizeEntry(c, now);
            (Truthy(Get(p, "title")) ==> item.title == Get(p, "title"))
            && (!Truthy(Get(p, "title")) && Truthy(Get(p, "name")) ==> item.title == Get(p, "name"))
            && (!Truthy(Get(p, "title")) && !Truthy(Get(p, "name")) ==> item.title == Str("Unknown product"))
            && (Truthy(Get(p, "img")) ==> item.img == Get(p, "img"))
            && (!Truthy(Get(p, "img")) && Truthy(Get(p, "image")) ==> item.img == Get(p, "image"))
            && (!Truthy(Get(p, "img")) && !Truthy(Get(p, "image")) ==> item.img == Str(""))
  {
  }

  /** A nullish price becomes "$0.00"; a quantity that is not a number is read
      by `parseInt(q) || 1`. */
  lemma NormalizedPriceAndQuantity(c: CartEntry, now: real)
    ensures IsNullish(Get(EntryProduct(c), "price")) ==> NormalizeEntry(c, now).price == Str("$0.00")
    ensures !c.quantity.Num? ==> NormalizeEntry(c, now).quantity == Num(ParsedQuantity(ToStr(c.quantity)))
  {
  }

  /** A server entry `{ product: "p1", quantity: "3" }` becomes three of "p1",
      titled "Unknown product" and priced "$0.00". */
  lemma NormalizesTextEntry(now: real)
    ensures NormalizeEntry(CartEntry(Str("p1"), Str("3")), now)
            == CartItem(Str("p1"), Str("Unknown product"), Str("$0.00"), Str(""), Num(3.0))
  {
    var c := CartEntry(Str("p1"), Str("3"));
    var item := NormalizeEntry(c, now);
    var p := EntryProduct(c);
    assert p == Obj(map["_id" := Str("p1")]);
    assert item.title == Str("Unknown product") by {
      assert !Truthy(Get(p, "title")) && !Truthy(Get(p, "name"));
      NormalizedTextChains(c, now);
    }
    assert item.img == Str("") by {
      assert !Truthy(Get(p, "img")) && !Truthy(Get(p, "image"));
      NormalizedTextChains(c, now);
    }
    assert item.price == Str("$0.00") by {
      assert IsNullish(Get(p, "price"));
      NormalizedPriceAndQuantity(c, now);
    }
    assert item.quantity == Num(3.0) by {
      assert AllDigits("3") && DigitsValue("3") == 3 by { assert "3"[..0] == ""; }
      QuantityOfDigits("3");
    }
  }

  /** `(data.cart || []).map(normalizeEntry)`. */
  function NormalizeAll(cart: seq<CartEntry>, now: real): (items: seq<CartItem>)
    ensures |items| == |cart|
    ensures forall i :: 0 <= i < |cart| ==> items[i] == NormalizeEntry(cart[i], now)
  {
    seq(|cart|, i requires 0 <= i < |cart| => NormalizeEntry(cart[i], now))
  }

  /** The characters `price.replace(/[^0-9.-]+/g, '')` keeps. */
  predicate IsClientPriceChar(c: char) { IsDigit(c) || c == '.' || c == '-' }

  /** `parsePrice`: nothing is 0, a number is itself, a string is parsed after
      dropping every character but digits, `.` and `-`, and `|| 0` turns NaN
      into 0; any other value is 0. */
  function ParsePrice(price: JsValue): (r: real)
    ensures IsNullish(price) ==> r == 0.0
    ensures price.Num? ==> r == price.n
    ensures !price.Num? && !price.Str? ==> r == 0.0
  {
    match price
    case Num(n) => n
    case Str(s) => OrElse(ParseFloat(Filter(s, IsClientPriceChar)), 0.0)
    case _ => 0.0
  }

  /** A text without a digit, `.` or `-` is priced 0. */
  lemma NoPriceCharsIsZero(s: string)
    requires forall i :: 0 <= i < |s| ==> !IsClientPriceChar(s[i])
    ensures ParsePrice(Str(s)) == 0.0
  {
    FilterNone(s, IsClientPriceChar);
    TrimStartNoSpace([]);
  }

  /** Characters that are not part of a number, such as a currency sign, are
      ignored wherever they stand in front. */
  lemma PrefixIgnored(prefix: string, s: string)
    requires forall i :: 0 <= i < |prefix| ==> !IsClientPriceChar(prefix[i])
    ensures ParsePrice(Str(prefix + s)) == ParsePrice(Str(s))
  {
    FilterAppend(prefix, s, IsClientPriceChar);
    FilterNone(prefix, IsClientPriceChar);
    assert [] + Filter(s, IsClientPriceChar) == Filter(s, IsClientPriceChar);
  }

  /** A price written as digits costs the number they spell. */
  lemma PriceReadsDigits(s: string)
    requires AllDigits(s) && s != []
    ensures ParsePrice(Str(s)) == DigitsValue(s) as real
  {
    ClientPriceCharsKept(s);
    assert ParseFloat(s) == Finite(DigitsValue(s) as real);
  }

  /** A price written `whole.fraction` costs the whole part plus the fraction. */
  lemma PriceReadsDecimal(w: string, f: string)
    requires AllDigits(w) && AllDigits(f) && w != []
    ensures ParsePrice(Str(w + "." + f)) == DigitsValue(w) as real + FractionValue(f)
  {
    var s := w + "." + f;
    DecimalCharsKept(w, f);
    assert ParsePrice(Str(s)) == OrElse(ParseFloat(s), 0.0);
    ParseFloatReadsDecimal(w, f);
  }

  lemma DecimalCharsKept(w: string, f: string)
    requires AllDigits(w) && AllDigits(f)
    ensures Filter(w + "." + f, IsClientPriceChar) == w + "." + f
  {
    var s := w + "." + f;
    forall i | 0 <= i < |s| ensures IsClientPriceChar(s[i]) {
      if i < |w| { assert s[i] == w[i]; } else if i > |w| { assert s[i] == f[i - |w| - 1]; }
    }
    ClientPriceCharsKept(s);
  }

  /** A minus sign in front of a price negates it: the cart keeps the sign. */
  lemma PriceKeepsSign(t: string)
    requires t != [] && IsDigit(t[0])
    ensures ParsePrice(Str("-" + t)) == -ParsePrice(Str(t))
  {
    var u := Filter(t, IsClientPriceChar);
    NegatedPrice(t);
    CleansMinus(t);
    ParseFloatNegates(u);
    OrElseNegates(ParseFloat(u).value);
  }

  /** The price of `-t` is the cleaned `t`, negated and read. */
  lemma NegatedPrice(t: string)
    requires t != [] && IsDigit(t[0])
    ensures ParsePrice(Str("-" + t)) == OrElse(ParseFloat("-" + Filter(t, IsClientPriceChar)), 0.0)
  {
    CleansMinus(t);
  }

  lemma OrElseNegates(v: real)
    ensures OrElse(Finite(-v), 0.0) == -OrElse(Finite(v), 0.0)
  {
  }

  /** Cleaning keeps a leading minus sign and a leading digit. */
  lemma CleansMinus(t: string)
    requires t != [] && IsDigit(t[0])
    ensures Filter("-" + t, IsClientPriceChar) == "-" + Filter(t, IsClientPriceChar)
    ensures Filter(t, IsClientPriceChar) != [] && IsDigit(Filter(t, IsClientPriceChar)[0])
  {
    FilterCons('-', t, IsClientPriceChar);
    assert t == [t[0]] + t[1..];
    FilterCons(t[0], t[1..], IsClientPriceChar);
  }

  lemma ReadsTwelve()
    ensures ReadUnsigned("12.99") == Some(Read(12.99, ""))
  {
    assert DigitsValue("12") == 12 by { assert "12"[..1] == "1"; }
    assert DigitsValue("99") == 99 by { assert "99"[..1] == "9"; }
    assert ReadUnsigned("12.99") == Some(Read(12.0 + 99.0 / 100.0, "")) by {
      assert "12.99" == "12" + "." + "99";
      ReadsCents("12", "99");
    }
  }

  lemma ParsesTwelve()
    ensures ParseFloat("12.99") == Finite(12.99)
  {
    TrimStartNoSpace("12.99");
    ReadsTwelve();
  }

  lemma ClientPriceCharsKept(s: string)
    requires forall i :: 0 <= i < |s| ==> IsClientPriceChar(s[i])
    ensures Filter(s, IsClientPriceChar) == s
  {
    FilterAll(s, IsClientPriceChar);
  }

  lemma CleansDollarPrice()
    ensures Filter("$12.99", IsClientPriceChar) == "12.99"
  {
    assert "$12.99"[1..] == "12.99";
    ClientPriceCharsKept("12.99");
  }

  /** A price with a currency sign: "$12.99" is 12.99. */
  lemma ParsesDollarPrice()
    ensures ParsePrice(Str("$12.99")) == 12.99
  {
    CleansDollarPrice();
    ParsesTwelve();
  }

  lemma ReadsFive()
    ensures ReadUnsigned("5") == Some(Read(5.0, ""))
  {
    assert "5" == ['5'] + "";
    WholeDigit('5', "", 0, false);
  }

  lemma ReadsMinusFive()
    ensures ReadSigned("-5") == Some(Read(-5.0, ""))
  {
    assert "-5"[1..] == "5";
    ReadsFive();
  }

  lemma ParsesMinusFive()
    ensures ParseFloat("-5") == Finite(-5.0)
  {
    TrimStartNoSpace("-5");
    ReadsMinusFive();
  }

  /** The minus sign is kept: "-5" is -5. */
  lemma KeepsMinusSign()
    ensures ParsePrice(Str("-5")) == -5.0
  {
    CleansMinusFive();
    ParsesMinusFive();
  }

  lemma CleansMinusFive()
    ensures Filter("-5", IsClientPriceChar) == "-5"
  {
    assert IsClientPriceChar("-5"[0]) && IsClientPriceChar("-5"[1]);
    ClientPriceCharsKept("-5");
  }

  /** One item's share of the total: `parsePrice(item.price) * qty`. */
  function LineValue(item: CartItem): real {
    Times(ParsePrice(item.price), Quantity(item.quantity))
  }

  function Times(x: real, y: real): real { x * y }

  /** `getTotalPrice`: the items' shares summed left to right, from 0. */
  function TotalPrice(items: seq<CartItem>): real {
    Sum(items, LineValue)
  }

  /** The total of two runs of items is the sum of their totals. */
  lemma TotalPriceAppend(a: seq<CartItem>, b: seq<CartItem>)
    ensures TotalPrice(a + b) == TotalPrice(a) + TotalPrice(b)
  {
    SumAppend(a, b, LineValue);
  }

  /** `getCartCount`: the quantities summed from 0. With a quantity that is not
      a number, `+` would turn to string concatenation or NaN; the model
      answers None there. */
  function CartCount(items: seq<CartItem>): (r: Option<real>)
    ensures r.Some? <==> forall i :: 0 <= i < |items| ==> items[i].quantity.Num?
    ensures r.Some? ==> r.value == Sum(items, NumericQuantity)
    decreases |items|
  {
    if items == [] then Some(0.0)
    else
      var last := items[|items| - 1];
      match CartCount(items[..|items| - 1])
      case None => None
      case Some(c) => if last.quantity.Num? then Some(c + last.quantity.n) else None
  }

  /** An item's quantity where it is a number, and 0 otherwise. */
  function NumericQuantity(item: CartItem): real {
    if item.quantity.Num? then item.quantity.n else 0.0
  }

  /** Items the client made from server entries always have a count. */
  lemma NormalizedCartCounts(cart: seq<CartEntry>, now: real)
    ensures CartCount(NormalizeAll(cart, now)).Some?
  {
  }

  /** The offline `removeFromCart`: `items.filter(item => item.id !== productId)`. */
  function RemoveOffline(items: seq<CartItem>, productId: JsValue): (r: seq<CartItem>)
    ensures forall i :: 0 <= i < |r| ==> !StrictEquals(r[i].id, productId)
    ensures forall i :: 0 <= i < |items| && !StrictEquals(items[i].id, productId) ==> items[i] in r
    ensures IsSubsequence(r, items)
    ensures forall x: CartItem :: !StrictEquals(x.id, productId) ==> multiset(r)[x] == multiset(items)[x]
  {
    var keep := (item: CartItem) => !StrictEquals(item.id, productId);
    FilterKeeps(items, keep);
    FilterCounts(items, keep);
    Filter(items, keep)
  }

  /** Removing an id no item has leaves the cart as it was. */
  lemma RemoveAbsentKeepsCart(items: seq<CartItem>, productId: JsValue)
    requires forall i :: 0 <= i < |items| ==> !StrictEquals(items[i].id, productId)
    ensures RemoveOffline(items, productId) == items
  {
    FilterAll(items, (item: CartItem) => !StrictEquals(item.id, productId));
  }

  /** Removing twice is removing once. */
  lemma RemoveTwice(items: seq<CartItem>, productId: JsValue)
    ensures RemoveOffline(RemoveOffline(items, productId), productId) == RemoveOffline(items, productId)
  {
    FilterTwice(items, (item: CartItem) => !StrictEquals(item.id, productId));
  }

  /** Removing a product lowers the total by exactly that product's items. */
  lemma RemoveLowersTotal(items: seq<CartItem>, productId: JsValue)
    ensures TotalPrice(items) ==
            TotalPrice(RemoveOffline(items, productId))
            + TotalPrice(Filter(items, (item: CartItem) => StrictEquals(item.id, productId)))
  {
    SumSplits(items, LineValue, (item: CartItem) => !StrictEquals(item.id, productId),
              (item: CartItem) => StrictEquals(item.id, productId));
  }

  /** The offline `updateQuantity`:
      `items.map(item => item.id === productId ? { ...item, quantity } : item)`. */
  function UpdateOffline(items: seq<CartItem>, productId: JsValue, quantity: real): (r: seq<CartItem>)
    ensures |r| == |items|
    ensures forall i :: 0 <= i < |items| && StrictEquals(items[i].id, productId) ==>
              r[i] == items[i].(quantity := Num(quantity))
    ensures forall i :: 0 <= i < |items| && !StrictEquals(items[i].id, productId) ==> r[i] == items[i]
  {
    seq(|items|, i requires 0 <= i < |items| =>
      if StrictEquals(items[i].id, productId) then items[i].(quantity := Num(quantity)) else items[i])
  }

  /** Setting the same quantity again changes nothing. */
  lemma UpdateTwice(items: seq<CartItem>, productId: JsValue, quantity: real)
    ensures UpdateOffline(UpdateOffline(items, productId, quantity), productId, quantity)
            == UpdateOffline(items, productId, quantity)
  {
  }

  /** An updated item is still found by its id: removing after an update is
      removing. */
  lemma RemoveAfterUpdate(items: seq<CartItem>, productId: JsValue, quantity: real)
    ensures RemoveOffline(UpdateOffline(items, productId, quantity), productId) == RemoveOffline(items, productId)
    decreases |items|
  {
    var keep := (item: CartItem) => !StrictEquals(item.id, productId);
    var u := UpdateOffline(items, productId, quantity);
    if items != [] {
      assert u[1..] == UpdateOffline(items[1..], productId, quantity);
      RemoveAfterUpdate(items[1..], productId, quantity);
    }
  }

  /** What the server answered: no answer (the request threw `error`), or a
      JSON body with `res.ok`, `data.message`, and the entries of
      `data.cart || []`. */
  datatype Reply =
    | NoReply(error: JsValue)
    | Reply(ok: bool, message: JsValue, cart: seq<CartEntry>)

  /** How a cart operation ends: normally, or by throwing an error with this
      message. */
  datatype Outcome = Done | Threw(message: JsValue)

  /** The error thrown by reading a property of `null` or `undefined`; its
      wording is the engine's and is not modelled. */
  const TypeError: JsValue := Str("TypeError")

  /** A cart operation's new items and outcome. */
  datatype Step = Step(items: seq<CartItem>, outcome: Outcome)

  /** The answer to a logged-in remove or update: the server's cart, or the
      error with `data.message || failure`. */
  function ServerStep(items: seq<CartItem>, reply: Reply, failure: string, now: real): (s: Step)
    ensures s.outcome.Done? ==> reply.Reply? && reply.ok && s.items == NormalizeAll(reply.cart, now)
    ensures s.outcome.Threw? ==> s.items == items
    ensures reply.Reply? && reply.ok ==> s == Step(NormalizeAll(reply.cart, now), Done)
    ensures reply.Reply? && !reply.ok ==> s == Step(items, Threw(Or(reply.message, Str(failure))))
    ensures reply.NoReply? ==> s == Step(items, Threw(reply.error))
  {
    match reply
    case NoReply(e) => Step(items, Threw(e))
    case Reply(ok, message, cart) =>
      if !ok then Step(items, Threw(Or(message, Str(failure))))
      else Step(NormalizeAll(cart, now), Done)
  }

  /** `removeFromCart`; `token` is the stored user token, "" when absent. */
  function RemoveStep(items: seq<CartItem>, token: string, productId: JsValue, reply: Reply, now: real): (s: Step)
    ensures token == "" ==> s == Step(RemoveOffline(items, productId), Done)
  {
    if token == "" then Step(RemoveOffline(items, productId), Done)
    else ServerStep(items, reply, "Failed to remove from cart", now)
  }

  /** `updateQuantity`. */
  function UpdateStep(items: seq<CartItem>, token: string, productId: JsValue, quantity: real,
                      reply: Reply, now: real): (s: Step)
    ensures quantity <= 0.0 ==> s == RemoveStep(items, token, productId, reply, now)
    ensures quantity > 0.0 && token == "" ==> s == Step(UpdateOffline(items, productId, quantity), Done)
  {
    if quantity <= 0.0 then RemoveStep(items, token, productId, reply, now)
    else if token == "" then Step(UpdateOffline(items, productId, quantity), Done)
    else ServerStep(items, reply, "Failed to update cart", now)
  }

  /** `product.id || product._id`, the id of the product being added. */
  function PreviewId(product: JsValue): JsValue {
    Or(Get(product, "id"), Get(product, "_id"))
  }

  /** Whether `localPreview[String(normalized.id)]` finds the product being
      added: both ids have the same text. */
  predicate PreviewMatches(product: JsValue, normalized: CartItem) {
    Truthy(PreviewId(product)) && KeyText(normalized.id).Some? && KeyText(normalized.id) == KeyText(PreviewId(product))
  }

  /** The preview `addToCart` builds from its argument. */
  function PreviewItem(product: JsValue): CartItem {
    CartItem(PreviewId(product), Get(product, "title"), Get(product, "price"), Get(product, "img"),
             Or(Get(product, "quantity"), Num(1.0)))
  }

  /** `merge ? { ...normalized, ...merge } : normalized`, as written: every
      field of the preview wins, the quantity included. */
  function MergeEntryAsWritten(c: CartEntry, product: JsValue, now: real): (item: CartItem)
    ensures PreviewMatches(product, NormalizeEntry(c, now)) ==> item == PreviewItem(product)
    ensures PreviewMatches(product, NormalizeEntry(c, now)) ==> item.quantity == Or(Get(product, "quantity"), Num(1.0))
    ensures !PreviewMatches(product, NormalizeEntry(c, now)) ==> item == NormalizeEntry(c, now)
  {
    var normalized := NormalizeEntry(c, now);
    if PreviewMatches(product, normalized) then PreviewItem(product) else normalized
  }

  /** The merge with the server's quantity kept, as the preview is meant only
      to supply what the item shows. */
  function MergeEntry(c: CartEntry, product: JsValue, now: real): (item: CartItem)
    ensures item.quantity == NormalizeEntry(c, now).quantity
    ensures PreviewMatches(product, NormalizeEntry(c, now)) ==>
              item == PreviewItem(product).(quantity := NormalizeEntry(c, now).quantity)
    ensures !PreviewMatches(product, NormalizeEntry(c, now)) ==> item == NormalizeEntry(c, now)
  {
    var normalized := NormalizeEntry(c, now);
    if PreviewMatches(product, normalized) then PreviewItem(product).(quantity := normalized.quantity)
    else normalized
  }

  function MergeAll(cart: seq<CartEntry>, product: JsValue, now: real): (items: seq<CartItem>)
    ensures |items| == |cart|
    ensures forall i :: 0 <= i < |cart| ==> items[i] == MergeEntry(cart[i], product, now)
  {
    seq(|cart|, i requires 0 <= i < |cart| => MergeEntry(cart[i], product, now))
  }

  /** After adding, the quantities are the server's and the count exists. */
  lemma MergeKeepsQuantities(cart: seq<CartEntry>, product: JsValue, now: real)
    ensures forall i :: 0 <= i < |cart| ==> MergeAll(cart, product, now)[i].quantity == NormalizeAll(cart, now)[i].quantity
    ensures CartCount(MergeAll(cart, product, now)) == CartCount(NormalizeAll(cart, now))
  {
    var m, n := MergeAll(cart, product, now), NormalizeAll(cart, now);
    CountSameQuantities(m, n);
  }

  lemma {:induction false} CountSameQuantities(a: seq<CartItem>, b: seq<CartItem>)
    requires |a| == |b| && forall i :: 0 <= i < |a| ==> a[i].quantity == b[i].quantity
    ensures CartCount(a) == CartCount(b)
    decreases |a|
  {
    if a != [] {
      CountSameQuantities(a[..|a| - 1], b[..|b| - 1]);
    }
  }

  /** As written, adding a product the server already holds twice shows a
      quantity of one. */
  lemma MergeAsWrittenDropsQuantity()
    ensures var c := CartEntry(Str("p1"), Num(2.0));
            var product := Obj(map["id" := Str("p1"), "title" := Str("Mouse")]);
            NormalizeEntry(c, 1.0).quantity == Num(2.0)
            && MergeEntryAsWritten(c, product, 1.0).quantity == Num(1.0)
  {
    var product := Obj(map["id" := Str("p1"), "title" := Str("Mouse")]);
    assert PreviewId(product) == Str("p1");
  }

  /** The cart state: the items and the stored user token ("" when absent). */
  class CartState {
    var items: seq<CartItem>
    var token: string

    constructor (token: string)
      ensures items == [] && this.token == token
    {
      items := [];
      this.token := token;
    }

    /** `addToCart`. Without a token it throws before any request, and so does
      reading `product.id` of a nullish product. */
    method AddToCart(product: JsValue, reply: Reply, now: real) returns (outcome: Outcome)
      modifies this
      ensures token == old(token)
      ensures token == "" ==> outcome == Threw(Str("Please login to add items to your cart")) && items == old(items)
      ensures token != "" && IsNullish(product) ==> outcome == Threw(TypeError) && items == old(items)
      ensures token != "" && !IsNullish(product) && reply.NoReply? ==> outcome == Threw(reply.error) && items == old(items)
      ensures token != "" && !IsNullish(product) && reply.Reply? && !reply.ok ==>
                outcome == Threw(Or(reply.message, Str("Failed to add to cart"))) && items == old(items)
      ensures token != "" && !IsNullish(product) && reply.Reply? && reply.ok ==> outcome == Done && items == MergeAll(reply.cart, product, now)
    {
      if token == "" {
        return Threw(Str("Please login to add items to your cart"));
      }
      if IsNullish(product) {
        return Threw(TypeError);
      }
      match reply
      case NoReply(e) =>
        outcome := Threw(e);
      case Reply(ok, message, cart) =>
        if !ok {
          outcome := Threw(Or(message, Str("Failed to add to cart")));
        } else {
          items := MergeAll(cart, product, now);
          outcome := Done;
        }
    }

    /** `removeFromCart`. */
    method RemoveFromCart(productId: JsValue, reply: Reply, now: real) returns (outcome: Outcome)
      modifies this
      ensures token == old(token)
      ensures Step(items, outcome) == RemoveStep(old(items), token, productId, reply, now)
    {
      if token == "" {
        items := Filter(items, (item: CartItem) => !StrictEquals(item.id, productId));
        return Done;
      }
      var s := ServerStep(items, reply, "Failed to remove from cart", now);
      items, outcome := s.items, s.outcome;
    }

    /** `updateQuantity`: a quantity of zero or less removes the product. */
    method UpdateQuantity(productId: JsValue, quantity: real, reply: Reply, now: real) returns (outcome: Outcome)
      modifies this
      ensures token == old(token)
      ensures Step(items, outcome) == UpdateStep(old(items), token, productId, quantity, reply, now)
    {
      if quantity <= 0.0 {
        outcome := RemoveFromCart(productId, reply, now);
        return;
      }
      if token == "" {
        items := UpdateOffline(items, productId, quantity);
        return Done;
      }
      var s := ServerStep(items, reply, "Failed to update cart", now);
      items, outcome := s.items, s.outcome;
    }

    /** `clearCart`. */
    method ClearCart()
      modifies this
      ensures token == old(token)
      ensures items == [] && TotalPrice(items) == 0.0 && CartCount(items) == Some(0.0)
    {
      items := [];
    }
  }
}
