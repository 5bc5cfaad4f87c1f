/** The product catalog: the product schema, the public listing and lookup
    handlers, and the administrator's create handler and its two stubs. */
module Catalog {
  import opened Http

  /** A product document. `price` and `stock` are string paths in the schema
      that the handlers coerce to numbers; here they are integers (price in
      minor units). The schema declares no `category` path; `category` is the
      value the listing filter compares against, absent on products the
      administrator creates. */
  datatype Product = Product(
    productName: string,
    description: string,
    price: int,
    stock: int,
    productImage: string,
    category: Option<string>)

  /** The product collection, keyed by `_id`. */
  type Store = map<Id, Product>

  /** The fields `addProduct` reads from the request body; each may be missing. */
  datatype ProductBody = ProductBody(
    productName: Option<string>,
    description: Option<string>,
    price: Option<int>,
    stock: Option<int>)

  /** Whether a product passes the listing filter: with no (or an empty)
      `category` query parameter every product passes. */
  predicate InListing(p: Product, category: string) {
    category != "" ==> p.category == Some(category)
  }

  /** `getAllProducts` of the public controller, pagination aside: the
      products passing the category filter, or 404 when there are none. */
  function ListProducts(store: Store, category: string): (r: Result<Store>)
    ensures r.Ok? ==> forall id :: id in r.value ==>
      id in store && r.value[id] == store[id] && InListing(store[id], category)
    ensures r.Ok? ==> forall id :: id in store && InListing(store[id], category) ==> id in r.value
    ensures r.Fail? <==> forall id :: id in store ==> !InListing(store[id], category)
    ensures r.Fail? && category != "" ==> r.error == Error(404, "No category found")
    ensures r.Fail? && category == "" ==> r.error == Error(404, "No products found")
  {
    var found := map id | id in store && InListing(store[id], category) :: store[id];
    if |found| == 0 then
      assert forall id :: id in store && InListing(store[id], category) ==> id in found;
      if category != "" then Fail(Error(404, "No category found"))
      else Fail(Error(404, "No products found"))
    else
      assert exists id :: id in found;
      Ok(found)
  }

  /** `getSingleProduct` (both controllers): the stored product, or 404. */
  function GetSingleProduct(store: Store, productId: Id): (r: Result<Product>)
    ensures r.Ok? <==> productId in store
    ensures r.Ok? ==> r.value == store[productId]
    ensures r.Fail? ==> r.error == Error(404, "Product not found")
  {
    if productId in store then Ok(store[productId])
    else Fail(Error(404, "Product not found"))
  }

  /** The document `productModel.create` stores for a validated body:
      the image path takes its schema default, the empty string. */
  function CreatedProduct(body: ProductBody): (p: Product)
    requires body.productName.Some? && body.description.Some?
    requires body.price.Some? && body.stock.Some?
    ensures p.productImage == ""
    ensures p.category == None
  {
    Product(body.productName.value, body.description.value,
            body.price.value, body.stock.value, "", None)
  }

  /** The check at the top of `addProduct`: every required field is truthy. */
  predicate AllFieldsGiven(body: ProductBody) {
    && TruthyString(body.productName) && TruthyString(body.description)
    && TruthyNumber(body.price) && TruthyNumber(body.stock)
  }

  /** `addProduct`: rejects a body with any falsy required field (so a price
      or stock of 0 is rejected too), otherwise inserts one product under the
      fresh id the database assigns; a clashing id is the duplicate-key
      failure the handler forwards to the error middleware. */
  function AddProduct(store: Store, body: ProductBody, newId: Id): (r: Result<Store>)
    ensures r.Fail? <==> !AllFieldsGiven(body) || newId in store
    ensures !AllFieldsGiven(body) ==> r == Fail(Error(400, "All fields are required"))
    ensures AllFieldsGiven(body) && newId in store ==> r == Fail(Unhandled)
    ensures r.Ok? ==> r.value.Keys == store.Keys + {newId} && newId !in store
    ensures r.Ok? ==> forall id :: id in store ==> r.value[id] == store[id]
    ensures r.Ok? ==> var p := r.value[newId];
      && Some(p.productName) == body.productName && Some(p.description) == body.description
      && Some(p.price) == body.price && Some(p.stock) == body.stock
      && p.productImage == "" && p.category == None
  {
    if !AllFieldsGiven(body) then
      Fail(Error(400, "All fields are required"))
    else if newId in store then
      Fail(Unhandled)
    else
      Ok(store[newId := CreatedProduct(body)])
  }

  /** `updateProduct`: an empty handler. It sends no reply and writes nothing,
      so the store is the same whatever the id and body. */
  function UpdateProduct(store: Store, productId: Id, body: ProductBody): (r: Store)
    ensures forall id :: GetSingleProduct(r, id) == GetSingleProduct(store, id)
  {
    store
  }

  /** `deleteProduct`: an empty handler; in particular the product stays. */
  function DeleteProduct(store: Store, productId: Id): (r: Store)
    ensures forall id :: GetSingleProduct(r, id) == GetSingleProduct(store, id)
  {
    store
  }

  /** A created product is found by its id, exactly as the body gave it,
      with the default empty image. */
  lemma AddThenGet(store: Store, body: ProductBody, newId: Id)
    requires AddProduct(store, body, newId).Ok?
    ensures GetSingleProduct(AddProduct(store, body, newId).value, newId)
         == Ok(Product(body.productName.value, body.description.value,
                       body.price.value, body.stock.value, "", None))
  {
  }

  /** A created product is listed when no category is asked for. */
  lemma AddedProductIsListed(store: Store, body: ProductBody, newId: Id)
    requires AddProduct(store, body, newId).Ok?
    ensures var r := ListProducts(AddProduct(store, body, newId).value, "");
      r.Ok? && newId in r.value
  {
  }

  /** A listing by category is the same after a product is created, since
      created products have no category. */
  lemma AddKeepsCategoryListing(store: Store, body: ProductBody, newId: Id, category: string)
    requires AddProduct(store, body, newId).Ok?
    requires category != ""
    ensures ListProducts(AddProduct(store, body, newId).value, category) == ListProducts(store, category)
  {
    var store' := AddProduct(store, body, newId).value;
    assert !InListing(store'[newId], category);
    assert forall id :: (id in store' && InListing(store'[id], category)) <==> (id in store && InListing(store[id], category));
    var before := ListProducts(store, category);
    var after := ListProducts(store', category);
    if after.Ok? && before.Ok? {
      assert after.value == before.value;
    }
  }

  /** Creating a product changes no other product's lookup. */
  lemma AddKeepsOthers(store: Store, body: ProductBody, newId: Id, other: Id)
    requires AddProduct(store, body, newId).Ok?
    requires other != newId
    ensures GetSingleProduct(AddProduct(store, body, newId).value, other)
         == GetSingleProduct(store, other)
  {
  }
}
