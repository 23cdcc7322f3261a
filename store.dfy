/** The MongoDB collections the controllers read and write: users, admins,
    products, orders and notifications, each a sequence of documents in
    natural (insertion) order. Document ids are strings; the database hands
    out a fresh one for each new document. */
module Store {
  import opened Wrappers
  import opened Seqs
  import opened JsValues
  import opened Credentials
  import opened Text

  /** One line of a user's cart: a reference to a product and a quantity. */
  datatype CartLine = CartLine(product: string, quantity: int)

  datatype User = User(id: string, Fullname: string, Email: string, Phone: string,
                       Password: Digest, cart: seq<CartLine>)

  datatype Admin = Admin(id: string, Fullname: string, Email: string, Password: Digest)

  /** A catalogue entry (the product schema); `img` is `""` when none was given. */
  datatype Product = Product(id: string, title: string, price: string, img: string,
                             seller: string, createdAt: int)

  /** What an order line records as its product: the product's id, or the empty
      object `{}` when the referenced product no longer exists. */
  datatype ItemProduct = ProductRef(id: string) | EmptyObject

  /** An order line: a copy of the product's data at checkout time. */
  datatype OrderItem = OrderItem(product: ItemProduct, title: string, price: string,
                                 img: string, quantity: int)

  datatype Order = Order(id: string, user: string, items: seq<OrderItem>, totalAmount: real,
                         shippingAddress: JsValue, paymentMethod: JsValue, createdAt: int)

  /** An admin notification about a new order. */
  datatype Notification = Notification(kind: string, message: string, user: string,
                                       orderId: string, totalAmount: real, paymentMethod: JsValue)

  /** No two documents share an id. */
  ghost predicate UniqueIds<T>(docs: seq<T>, id: T -> string) {
    forall i, j :: 0 <= i < j < |docs| ==> id(docs[i]) != id(docs[j])
  }

  /** A string Mongoose can cast to an ObjectId: 24 hexadecimal digits, or
      any 12 characters (read as the id's 12 bytes). Casting any other string
      throws. */
  predicate IsObjectIdText(s: string) {
    |s| == 12 || (|s| == 24 && forall i :: 0 <= i < |s| ==> IsHexDigit(s[i]))
  }

  function UserId(u: User): string { u.id }
  function AdminId(a: Admin): string { a.id }
  function ProductId(p: Product): string { p.id }
  function ProductCreatedAt(p: Product): int { p.createdAt }
  function OrderId(o: Order): string { o.id }
  function OrderCreatedAt(o: Order): int { o.createdAt }

  class UserStore {
    var docs: seq<User>

    ghost predicate Valid()
      reads this
    {
      UniqueIds(docs, UserId) && forall i, j :: 0 <= i < j < |docs| ==> docs[i].Email != docs[j].Email
    }

    constructor ()
      ensures docs == [] && Valid()
    {
      docs := [];
    }
  }

  class AdminStore {
    var docs: seq<Admin>

    /** The store holds at most one admin. */
    ghost predicate Valid()
      reads this
    {
      |docs| <= 1
    }

    constructor ()
      ensures docs == [] && Valid()
    {
      docs := [];
    }
  }

  class ProductStore {
    var docs: seq<Product>

    ghost predicate Valid()
      reads this
    {
      UniqueIds(docs, ProductId)
    }

    constructor ()
      ensures docs == [] && Valid()
    {
      docs := [];
    }
  }

  class OrderStore {
    var docs: seq<Order>

    ghost predicate Valid()
      reads this
    {
      UniqueIds(docs, OrderId)
    }

    constructor ()
      ensures docs == [] && Valid()
    {
      docs := [];
    }
  }

  class NotificationStore {
    var docs: seq<Notification>

    constructor ()
      ensures docs == []
    {
      docs := [];
    }
  }

  /** `findById`: the position of the document with that id. */
  function FindById<T>(docs: seq<T>, id: T -> string, key: string): (r: Option<nat>)
    ensures r.Some? ==> r.value < |docs| && id(docs[r.value]) == key
    ensures r.None? ==> forall i :: 0 <= i < |docs| ==> id(docs[i]) != key
  {
    FirstIndex(docs, (d: T) => id(d) == key)
  }

  /** Adding a document with a fresh id keeps the ids unique. */
  lemma AppendFresh<T>(docs: seq<T>, id: T -> string, d: T)
    requires UniqueIds(docs, id)
    requires forall i :: 0 <= i < |docs| ==> id(docs[i]) != id(d)
    ensures UniqueIds(docs + [d], id)
  {
  }

  /** Removing a document keeps the ids unique. */
  lemma RemoveKeepsUnique<T>(docs: seq<T>, id: T -> string, i: nat)
    requires i < |docs| && UniqueIds(docs, id)
    ensures UniqueIds(RemoveAt(docs, i), id)
  {
    var r := RemoveAt(docs, i);
    forall a, b | 0 <= a < b < |r| ensures id(r[a]) != id(r[b]) {
      var a' := if a < i then a else a + 1;
      var b' := if b < i then b else b + 1;
      assert r[a] == docs[a'] && r[b] == docs[b'];
    }
  }

  /** With ids unique, removing a document removes its id. */
  lemma RemoveDropsId<T>(docs: seq<T>, id: T -> string, i: nat)
    requires i < |docs| && UniqueIds(docs, id)
    ensures forall j :: 0 <= j < |docs| - 1 ==> id(RemoveAt(docs, i)[j]) != id(docs[i])
  {
    var r := RemoveAt(docs, i);
    forall j | 0 <= j < |r| ensures id(r[j]) != id(docs[i]) {
      if j < i {
        assert r[j] == docs[j];
      } else {
        assert r[j] == docs[j + 1];
      }
    }
  }
}
