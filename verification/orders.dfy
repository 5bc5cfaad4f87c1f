/** Order placement (`createOrder`) and the per-customer order listing
    (`getCustomerOrders`). Placement is two passes over the request: the
    first prices and checks every line against the store as it was before
    the order, the second re-reads each product and decrements its stock. */
module Orders {
  import opened Http
  import opened Catalog

  /** One requested line of `orderItems`. */
  datatype Req = Req(productId: Id, quantity: int)

  /** A line of a stored order: the price is frozen at order time. */
  datatype LineItem = LineItem(productId: Id, quantity: int, price: int, totalCost: int)

  /** Order status; a new order is pending. */
  datatype Status = Pending | Approved | Rejected

  /** An order document; `createdAt` is the timestamp the database stamps. */
  datatype Order = Order(
    customerId: Id,
    orderItems: seq<LineItem>,
    totalCost: int,
    status: Status,
    createdAt: int)

  // ---------------------------------------------------------------------
  // Reference definitions

  /** A requested line passes pass 1: the product exists and its stock,
      as it was before the order, covers the quantity. */
  predicate Admissible(store: Store, item: Req) {
    item.productId in store && store[item.productId].stock >= item.quantity
  }

  /** The reply for the first line that does not pass. A missing product is
      answered 404; the handler then dereferences the missing product and the
      failure is forwarded to the error middleware, but nothing is written. */
  function Rejection(store: Store, item: Req): Error {
    if item.productId !in store then Error(404, "Product not found: " + item.productId)
    else Error(400, "Insufficient stock for product: " + store[item.productId].productName)
  }

  /** `line` records `item` at the current price of its product. */
  predicate PricedAs(store: Store, item: Req, line: LineItem) {
    && item.productId in store
    && line.productId == item.productId
    && line.quantity == item.quantity
    && line.price == store[item.productId].price
    && line.totalCost == line.price * line.quantity
  }

  /** The sum of the line totals. */
  function LineSum(lines: seq<LineItem>): int {
    if |lines| == 0 then 0 else lines[0].totalCost + LineSum(lines[1..])
  }

  /** The total quantity the lines take from product `id`. */
  function LineQuantity(lines: seq<LineItem>, id: Id): int {
    if |lines| == 0 then 0
    else (if lines[0].productId == id then lines[0].quantity else 0) + LineQuantity(lines[1..], id)
  }

  /** The total quantity the request asks of product `id`. */
  function Requested(items: seq<Req>, id: Id): int {
    if |items| == 0 then 0
    else (if items[0].productId == id then items[0].quantity else 0) + Requested(items[1..], id)
  }

  /** No line of the request names product `id`. */
  predicate NotOrdered(items: seq<Req>, id: Id) {
    forall i :: 0 <= i < |items| ==> items[i].productId != id
  }

  /** No product is named by two lines of the request. */
  predicate DistinctProducts(items: seq<Req>) {
    forall i, j :: 0 <= i < j < |items| ==> items[i].productId != items[j].productId
  }

  // ---------------------------------------------------------------------
  // The two passes

  /** Pass 1: walks the request in order, appending one priced line to `acc`
      and its cost to the running `total` per item, and stops at the first
      item that is missing or short of stock. */
  function PriceItems(store: Store, items: seq<Req>, acc: seq<LineItem>, total: int)
    : (r: Result<(seq<LineItem>, int)>)
    ensures r.Ok? <==> forall i :: 0 <= i < |items| ==> Admissible(store, items[i])
    ensures r.Fail? ==>
      exists k :: 0 <= k < |items| && !Admissible(store, items[k])
        && (forall i :: 0 <= i < k ==> Admissible(store, items[i]))
        && r.error == Rejection(store, items[k])
    ensures r.Ok? ==> |r.value.0| == |acc| + |items| && r.value.0[..|acc|] == acc
    ensures r.Ok? ==> forall i :: 0 <= i < |items| ==> PricedAs(store, items[i], r.value.0[|acc| + i])
    ensures r.Ok? ==> r.value.1 == total + LineSum(r.value.0[|acc|..])
    decreases |items|
  {
    if |items| == 0 then Ok((acc, total))
    else
      var item := items[0];
      if item.productId !in store then Fail(Error(404, "Product not found: " + item.productId))
      else
        var product := store[item.productId];
        if product.stock < item.quantity then
          Fail(Error(400, "Insufficient stock for product: " + product.productName))
        else
          var cost := product.price * item.quantity;
          var line := LineItem(item.productId, item.quantity, product.price, cost);
          var r := PriceItems(store, items[1..], acc + [line], total + cost);
          assert forall i :: 1 <= i < |items| ==> items[i] == items[1..][i - 1];
          if r.Fail? then
            var k :| 0 <= k < |items[1..]| && !Admissible(store, items[1..][k])
              && (forall i :: 0 <= i < k ==> Admissible(store, items[1..][i]))
              && r.error == Rejection(store, items[1..][k]);
            assert !Admissible(store, items[k + 1]);
            r
          else
            var lines := r.value.0;
            assert lines[|acc|] == line by {
              assert lines[..|acc| + 1] == acc + [line];
            }
            assert lines[|acc|..][1..] == lines[|acc| + 1..];
            assert lines[..|acc|] == (acc + [line])[..|acc|];
            r
  }

  /** Pass 2: for each line in order, re-reads the product and lowers its
      stock by the line's quantity, so repeated ids take cumulatively. */
  function Decrement(store: Store, lines: seq<LineItem>): (r: Store)
    requires forall i :: 0 <= i < |lines| ==> lines[i].productId in store
    ensures r.Keys == store.Keys
    ensures forall id :: id in store ==>
      r[id] == store[id].(stock := store[id].stock - LineQuantity(lines, id))
    decreases |lines|
  {
    if |lines| == 0 then store
    else
      var id := lines[0].productId;
      var store' := store[id := store[id].(stock := store[id].stock - lines[0].quantity)];
      assert forall i :: 1 <= i < |lines| ==> lines[i] == lines[1..][i - 1];
      Decrement(store', lines[1..])
  }

  /** Lines priced from a request take from each product what was asked of it. */
  lemma {:induction false} LineQuantityIsRequested(store: Store, items: seq<Req>, lines: seq<LineItem>, id: Id)
    requires |lines| == |items|
    requires forall i :: 0 <= i < |items| ==> PricedAs(store, items[i], lines[i])
    ensures LineQuantity(lines, id) == Requested(items, id)
    decreases |items|
  {
    if |items| > 0 {
      assert PricedAs(store, items[0], lines[0]);
      assert forall i :: 0 <= i < |items| - 1 ==> items[1..][i] == items[i + 1] && lines[1..][i] == lines[i + 1];
      LineQuantityIsRequested(store, items[1..], lines[1..], id);
    }
  }

  // ---------------------------------------------------------------------
  // createOrder

  /** `createOrder` for the signed-in customer: the store after the order and
      the order created, or the reply for an empty request or the first line
      that does not pass. A failure happens before any write. */
  function PlaceOrder(store: Store, customerId: Id, orderItems: Option<seq<Req>>, now: int)
    : (r: Result<(Store, Order)>)
    ensures orderItems.None? || |orderItems.value| == 0 ==> r == Fail(Error(400, "Invalid order data"))
    ensures orderItems.Some? && |orderItems.value| > 0 ==>
      (r.Ok? <==> forall i :: 0 <= i < |orderItems.value| ==> Admissible(store, orderItems.value[i]))
    ensures orderItems.Some? && r.Fail? && |orderItems.value| > 0 ==>
      var items := orderItems.value;
      exists k :: 0 <= k < |items| && !Admissible(store, items[k])
        && (forall i :: 0 <= i < k ==> Admissible(store, items[i]))
        && r.error == Rejection(store, items[k])
    ensures r.Ok? ==> var order := r.value.1;
      && orderItems.Some?
      && order.customerId == customerId && order.status == Pending && order.createdAt == now
      && |order.orderItems| == |orderItems.value|
      && (forall i :: 0 <= i < |orderItems.value| ==> PricedAs(store, orderItems.value[i], order.orderItems[i]))
      && order.totalCost == LineSum(order.orderItems)
    ensures r.Ok? ==> r.value.0.Keys == store.Keys
    ensures r.Ok? ==> forall id :: id in store ==>
      r.value.0[id] == store[id].(stock := store[id].stock - Requested(orderItems.value, id))
  {
    if orderItems.None? || |orderItems.value| == 0 then Fail(Error(400, "Invalid order data"))
    else
      var items := orderItems.value;
      match PriceItems(store, items, [], 0)
      case Fail(e) => Fail(e)
      case Ok((lines, total)) =>
        assert lines[0..] == lines;
        assert forall i :: 0 <= i < |lines| ==> PricedAs(store, items[i], lines[i]);
        var store' := Decrement(store, lines);
        assert forall id :: id in store ==> LineQuantity(lines, id) == Requested(items, id) by {
          forall id | id in store {
            LineQuantityIsRequested(store, items, lines, id);
          }
        }
        Ok((store', Order(customerId, lines, total, Pending, now)))
  }

  /** An order leaves every product that none of its lines names as it was. */
  lemma UnorderedProductsUnchanged(store: Store, customerId: Id, items: seq<Req>, now: int)
    requires PlaceOrder(store, customerId, Some(items), now).Ok?
    ensures var store' := PlaceOrder(store, customerId, Some(items), now).value.0;
      forall id :: id in store && NotOrdered(items, id) ==> store'[id] == store[id]
  {
    forall id | id in store && NotOrdered(items, id) {
      RequestedAbsent(items, id);
    }
  }

  /** When no product appears twice in the request, an order never takes a
      product below zero that was not below zero before. */
  lemma DistinctOrderKeepsStock(store: Store, customerId: Id, items: seq<Req>, now: int)
    requires DistinctProducts(items)
    requires forall id :: id in store ==> store[id].stock >= 0
    requires PlaceOrder(store, customerId, Some(items), now).Ok?
    ensures var store' := PlaceOrder(store, customerId, Some(items), now).value.0;
      forall id :: id in store' ==> store'[id].stock >= 0
  {
    var store' := PlaceOrder(store, customerId, Some(items), now).value.0;
    forall id | id in store'
      ensures store'[id].stock >= 0
    {
      RequestedDistinct(items, id);
      if k :| 0 <= k < |items| && items[k].productId == id {
        assert Admissible(store, items[k]);
      }
    }
  }

  /** A product no line names is asked for nothing. */
  lemma {:induction false} RequestedAbsent(items: seq<Req>, id: Id)
    requires NotOrdered(items, id)
    ensures Requested(items, id) == 0
    decreases |items|
  {
    if |items| > 0 {
      assert forall i :: 0 <= i < |items| - 1 ==> items[1..][i] == items[i + 1];
      RequestedAbsent(items[1..], id);
    }
  }

  /** With distinct ids, what the request asks of `id` is the quantity of the
      one line naming it, or nothing. */
  lemma {:induction false} RequestedDistinct(items: seq<Req>, id: Id)
    requires DistinctProducts(items)
    ensures (forall i :: 0 <= i < |items| ==> items[i].productId != id) ==> Requested(items, id) == 0
    ensures forall k :: 0 <= k < |items| && items[k].productId == id ==> Requested(items, id) == items[k].quantity
    decreases |items|
  {
    if |items| > 0 {
      var rest := items[1..];
      assert forall i :: 0 <= i < |rest| ==> rest[i] == items[i + 1];
      RequestedDistinct(rest, id);
      if items[0].productId == id {
        assert forall i :: 0 <= i < |rest| ==> rest[i].productId != id;
      }
    }
  }

  /** The check against the stock as it was before the order lets a request
      that names one product twice take more than there is: one unit in stock,
      two lines of one, and the order succeeds with stock left at -1. */
  lemma RepeatedProductOversells()
    ensures var store := map["w" := Product("Widget", "a widget", 10, 1, "", None)];
      var r := PlaceOrder(store, "c", Some([Req("w", 1), Req("w", 1)]), 0);
      r.Ok? && r.value.0["w"].stock == -1 && r.value.1.totalCost == 20
  {
  }

  /** A product with stock 5 and price 10: ordering 3 costs 30 and leaves 2;
      ordering 3 more is then refused and names the product. */
  lemma WidgetScenario()
    ensures var store := map["w" := Product("Widget", "a widget", 10, 5, "", None)];
      var first := PlaceOrder(store, "c", Some([Req("w", 3)]), 0);
      && first.Ok? && first.value.1.totalCost == 30 && first.value.0["w"].stock == 2
      && PlaceOrder(first.value.0, "c", Some([Req("w", 3)]), 1)
         == Fail(Error(400, "Insufficient stock for product: Widget"))
  {
  }

  // ---------------------------------------------------------------------
  // getCustomerOrders

  /** Newest first. */
  predicate NewestFirst(orders: seq<Order>) {
    forall i, j :: 0 <= i < j < |orders| ==> orders[i].createdAt >= orders[j].createdAt
  }

  /** The orders placed by `customerId`, in store order. */
  function OrdersOf(orders: seq<Order>, customerId: Id): (r: seq<Order>)
    ensures forall o :: multiset(r)[o] == if o.customerId == customerId then multiset(orders)[o] else 0
    decreases |orders|
  {
    if |orders| == 0 then []
    else
      var rest := OrdersOf(orders[1..], customerId);
      assert orders == [orders[0]] + orders[1..];
      if orders[0].customerId == customerId then [orders[0]] + rest else rest
  }

  /** Inserts `o` into a newest-first sequence. */
  function InsertByDate(o: Order, sorted: seq<Order>): (r: seq<Order>)
    requires NewestFirst(sorted)
    ensures NewestFirst(r)
    ensures multiset(r) == multiset(sorted) + multiset{o}
    ensures |r| == |sorted| + 1
    ensures r[0] == o || (|sorted| > 0 && r[0] == sorted[0])
    decreases |sorted|
  {
    if |sorted| == 0 || o.createdAt >= sorted[0].createdAt then [o] + sorted
    else
      var rest := InsertByDate(o, sorted[1..]);
      assert sorted == [sorted[0]] + sorted[1..];
      [sorted[0]] + rest
  }

  /** Sorts by `createdAt`, newest first. */
  function SortByDate(orders: seq<Order>): (r: seq<Order>)
    ensures NewestFirst(r)
    ensures multiset(r) == multiset(orders)
    decreases |orders|
  {
    if |orders| == 0 then []
    else
      assert orders == [orders[0]] + orders[1..];
      InsertByDate(orders[0], SortByDate(orders[1..]))
  }

  /** `getCustomerOrders`, pagination aside: the customer's orders newest
      first; an empty customer id and an empty result are both answered 400. */
  function CustomerOrders(orders: seq<Order>, customerId: Id): (r: Result<seq<Order>>)
    ensures customerId == "" ==> r == Fail(Error(400, "Customer ID is required"))
    ensures customerId != "" ==> (r.Fail? <==> forall i :: 0 <= i < |orders| ==> orders[i].customerId != customerId)
    ensures customerId != "" && r.Fail? ==> r.error == Error(400, "No orders found for this customer")
    ensures r.Ok? ==> NewestFirst(r.value)
    ensures r.Ok? ==>
      forall o :: multiset(r.value)[o] == if o.customerId == customerId then multiset(orders)[o] else 0
  {
    if customerId == "" then Fail(Error(400, "Customer ID is required"))
    else
      var mine := SortByDate(OrdersOf(orders, customerId));
      if |mine| == 0 then
        assert forall i :: 0 <= i < |orders| ==> orders[i].customerId != customerId by {
          forall i | 0 <= i < |orders|
            ensures orders[i].customerId != customerId
          {
            assert multiset(orders)[orders[i]] > 0;
            assert multiset(mine)[orders[i]] == 0;
          }
        }
        Fail(Error(400, "No orders found for this customer"))
      else
        assert mine[0] in multiset(mine);
        Ok(mine)
  }

  /** An order just placed is among its customer's listed orders. */
  lemma PlacedOrderIsListed(store: Store, orders: seq<Order>, customerId: Id, items: seq<Req>, now: int)
    requires customerId != ""
    requires PlaceOrder(store, customerId, Some(items), now).Ok?
    ensures var o := PlaceOrder(store, customerId, Some(items), now).value.1;
      var r := CustomerOrders(orders + [o], customerId);
      r.Ok? && o in r.value
  {
  }
}
