/** The product catalogue: creating a product, listing all products newest
    first, and deleting one by id. Order lines hold copies of a product's data,
    so deleting a product leaves every order as it was. */
module ProductController {
  import opened Wrappers
  import opened Seqs
  import opened Text
  import opened Store

  /** The fields `createProduct` reads from the request body; `""` stands for
      a field that is absent, null or empty. */
  datatype ProductInput = ProductInput(title: string, price: string, img: string)

  datatype ProductReply =
    | ProductRejected(status: int, message: string)
    | ProductAnswered(status: int, message: string, product: Product)

  /** The document the schema builds from a valid input: the title trimmed,
      the seller fixed, the creation time taken from the clock. */
  function NewProduct(input: ProductInput, id: string, now: int): Product {
    Product(id, Trim(input.title), input.price, input.img, "seller", now)
  }

  /** `createProduct`. `freshId` is the id the database gives the document and
      `now` the time of the call. A title of nothing but white space passes the
      handler's own check but fails the schema's `required` once trimmed, which
      the handler answers with 500. */
  method CreateProduct(products: ProductStore, input: ProductInput, freshId: string, now: int)
    returns (reply: ProductReply)
    requires products.Valid()
    requires forall i :: 0 <= i < |products.docs| ==> products.docs[i].id != freshId
    modifies products
    ensures products.Valid()
    ensures input.title == "" || input.price == "" ==>
              reply == ProductRejected(400, "title and price are required") && products.docs == old(products.docs)
    ensures input.title != "" && input.price != "" && Trim(input.title) == "" ==>
              reply == ProductRejected(500, "Server error") && products.docs == old(products.docs)
    ensures input.title != "" && input.price != "" && Trim(input.title) != "" ==>
              products.docs == old(products.docs) + [NewProduct(input, freshId, now)]
              && reply == ProductAnswered(201, "Product created", NewProduct(input, freshId, now))
  {
    if input.title == "" || input.price == "" {
      return ProductRejected(400, "title and price are required");
    }
    var title := Trim(input.title);
    if title == "" {
      return ProductRejected(500, "Server error");
    }
    var created := Product(freshId, title, input.price, input.img, "seller", now);
    AppendFresh(products.docs, ProductId, created);
    products.docs := products.docs + [created];
    reply := ProductAnswered(201, "Product created", created);
  }

  /** `getProducts`: every product, newest first. */
  method GetProducts(products: ProductStore) returns (list: seq<Product>)
    ensures Descending(list, ProductCreatedAt)
    ensures multiset(list) == multiset(products.docs)
  {
    list := SortDescending(products.docs, ProductCreatedAt);
  }

  /** A product created after every other one heads the listing. */
  lemma CreatedProductListedFirst(docs: seq<Product>, input: ProductInput, id: string, now: int)
    requires forall i :: 0 <= i < |docs| ==> docs[i].createdAt < now
    ensures SortDescending(docs + [NewProduct(input, id, now)], ProductCreatedAt)[0] == NewProduct(input, id, now)
  {
    var s := docs + [NewProduct(input, id, now)];
    assert forall j :: 0 <= j < |s| && j != |docs| ==> s[j] == docs[j];
    NewestFirst(s, ProductCreatedAt, |docs|);
  }

  /** `deleteProduct`. An id Mongoose cannot cast makes `findByIdAndDelete`
      throw, which the handler answers with 500. */
  method DeleteProduct(products: ProductStore, id: string) returns (reply: ProductReply)
    requires products.Valid()
    modifies products
    ensures products.Valid()
    ensures id == "" ==> reply == ProductRejected(400, "Product id required")
    ensures id != "" && !IsObjectIdText(id) ==> reply == ProductRejected(500, "Server error while deleting product")
    ensures !reply.ProductAnswered? ==> products.docs == old(products.docs)
    ensures id != "" && IsObjectIdText(id) ==>
              (reply.ProductAnswered? <==> exists i :: 0 <= i < |old(products.docs)| && old(products.docs)[i].id == id)
    ensures id != "" && IsObjectIdText(id) && !reply.ProductAnswered? ==> reply == ProductRejected(404, "Product not found")
    ensures reply.ProductAnswered? ==>
              reply.status == 200 && reply.message == "Product deleted" && reply.product.id == id
              && exists i :: 0 <= i < |old(products.docs)| && old(products.docs)[i] == reply.product
                   && products.docs == RemoveAt(old(products.docs), i)
    ensures reply.ProductAnswered? ==> forall j :: 0 <= j < |products.docs| ==> products.docs[j].id != id
  {
    if id == "" {
      return ProductRejected(400, "Product id required");
    }
    if !IsObjectIdText(id) {
      return ProductRejected(500, "Server error while deleting product");
    }
    var found := FindById(products.docs, ProductId, id);
    if found.None? {
      return ProductRejected(404, "Product not found");
    }
    var i := found.value;
    var deleted := products.docs[i];
    RemoveKeepsUnique(products.docs, ProductId, i);
    RemoveDropsId(products.docs, ProductId, i);
    products.docs := RemoveAt(products.docs, i);
    reply := ProductAnswered(200, "Product deleted", deleted);
  }
}
