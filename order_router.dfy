/**
 * The order router: creating an order from a list of requested products,
 * the guards around the payment gateway, finishing a paid order, listing
 * orders by status and the sales report.
 */
module OrderRouter {
  import opened Common
  import opened Tables
  import Pricing

  // ---------------------------------------------------------------------
  // createOrder
  // ---------------------------------------------------------------------

  /** One entry of the `orderItems` input of `createOrder`. */
  datatype OrderItemInput = OrderItemInput(productId: Id, quantity: int)

  function RequestKey(item: OrderItemInput): Id { item.productId }

  /** zod: every `quantity` is at least 1. */
  predicate QuantitiesValid(orderItems: seq<OrderItemInput>) {
    forall i :: 0 <= i < |orderItems| ==> orderItems[i].quantity >= 1
  }

  /** `orderItems.map((item) => item.productId)`. */
  function RequestedIds(orderItems: seq<OrderItemInput>): (ids: seq<Id>)
    ensures |ids| == |orderItems|
    ensures forall i :: 0 <= i < |orderItems| ==> ids[i] == orderItems[i].productId
    ensures forall id :: id in ids <==> HasKey(orderItems, RequestKey, id)
  {
    var ids := seq(|orderItems|, i requires 0 <= i < |orderItems| => orderItems[i].productId);
    assert forall id :: HasKey(orderItems, RequestKey, id) ==> id in ids by {
      forall id | HasKey(orderItems, RequestKey, id) ensures id in ids {
        var i :| 0 <= i < |orderItems| && RequestKey(orderItems[i]) == id;
        assert ids[i] == id;
      }
    }
    ids
  }

  /**
   * The product rows `findMany({ where: { id: { in: ids } } })` returns, in
   * table order: a requested id with no product simply yields no row.
   */
  function Resolve(products: seq<Product>, ids: seq<Id>): (r: seq<Product>)
    ensures |r| <= |products|
    ensures forall p :: p in r <==> p in products && p.id in ids
  {
    if |products| == 0 then []
    else
      var n := |products| - 1;
      assert products == products[..n] + [products[n]];
      Resolve(products[..n], ids) + (if products[n].id in ids then [products[n]] else [])
  }

  /** A product table with unique ids resolves to rows with unique ids. */
  lemma {:induction false} ResolveUnique(products: seq<Product>, ids: seq<Id>)
    requires UniqueKeys(products, ProductKey)
    ensures UniqueKeys(Resolve(products, ids), ProductKey)
  {
    if |products| > 0 {
      var n := |products| - 1;
      var init := products[..n];
      assert forall j :: 0 <= j < n ==> init[j] == products[j];
      ResolveUnique(init, ids);
      var front := Resolve(init, ids);
      if products[n].id in ids {
        forall i | 0 <= i < |front| ensures ProductKey(front[i]) != products[n].id {
          assert front[i] in init;
          var j :| 0 <= j < n && init[j] == front[i];
          assert products[j] == front[i];
        }
        UniqueAppend(front, ProductKey, products[n]);
      }
    }
  }

  /**
   * `orderItems.find((item) => item.productId === productId)!.quantity`: the
   * quantity of the FIRST entry naming the product. Every resolved product is
   * requested, so the `None` case (where the source would throw) is never
   * reached from `createOrder`.
   */
  function QuantityOf(orderItems: seq<OrderItemInput>, productId: Id): int {
    match IndexOf(orderItems, RequestKey, productId)
    case Some(k) => orderItems[k].quantity
    case None => 0
  }

  /** The quantity used for a product is that of its first request entry, whatever later entries say. */
  lemma FirstEntryWins(orderItems: seq<OrderItemInput>, i: nat)
    requires i < |orderItems|
    requires forall j :: 0 <= j < i ==> orderItems[j].productId != orderItems[i].productId
    ensures QuantityOf(orderItems, orderItems[i].productId) == orderItems[i].quantity
  {
    var k := IndexOf(orderItems, RequestKey, orderItems[i].productId);
    assert RequestKey(orderItems[i]) == orderItems[i].productId;
    assert k.Some?;
  }

  function LineTotal(product: Product, orderItems: seq<OrderItemInput>): int {
    product.price * QuantityOf(orderItems, product.id)
  }

  /** The value `subtotal += product.price * productQuantity` reaches over `products`. */
  function Subtotal(products: seq<Product>, orderItems: seq<OrderItemInput>): int {
    if |products| == 0 then 0
    else Subtotal(products[..|products| - 1], orderItems) + LineTotal(products[|products| - 1], orderItems)
  }

  /** The `let subtotal = 0; products.forEach(...)` loop of `createOrder`. */
  method ComputeSubtotal(products: seq<Product>, orderItems: seq<OrderItemInput>) returns (subtotal: int)
    ensures subtotal == Subtotal(products, orderItems)
  {
    subtotal := 0;
    var i := 0;
    while i < |products|
      invariant 0 <= i <= |products|
      invariant subtotal == Subtotal(products[..i], orderItems)
    {
      var productQuantity := QuantityOf(orderItems, products[i].id);
      var totalPrice := products[i].price * productQuantity;
      assert products[..i + 1][..i] == products[..i];
      subtotal := subtotal + totalPrice;
      i := i + 1;
    }
    assert products[..i] == products;
  }

  /** Requesting no product gives a zero subtotal over any table. */
  lemma {:induction false} SubtotalOfEmptyRequest(products: seq<Product>)
    ensures Subtotal(products, []) == 0
  {
    if |products| > 0 {
      SubtotalOfEmptyRequest(products[..|products| - 1]);
      assert IndexOf([], RequestKey, products[|products| - 1].id).None?;
    }
  }

  /** Adding a request for a product not yet requested changes only that product's quantity. */
  lemma QuantityOfAppend(orderItems: seq<OrderItemInput>, item: OrderItemInput, productId: Id)
    requires !HasKey(orderItems, RequestKey, item.productId)
    ensures QuantityOf(orderItems + [item], productId) ==
      if productId == item.productId then item.quantity else QuantityOf(orderItems, productId)
  {
    var t := orderItems + [item];
    HasKeyAppend(orderItems, RequestKey, item, productId);
    forall j | 0 <= j < |orderItems| ensures t[j] == orderItems[j] {
    }
    var found := IndexOf(orderItems, RequestKey, productId);
    if found.Some? {
      IndexOfFirst(t, RequestKey, productId, found.value);
    } else if productId == item.productId {
      assert t[|orderItems|] == item;
      IndexOfFirst(t, RequestKey, productId, |orderItems|);
    }
  }

  /** The server's subtotal is the same whether taken over the resolved rows or the whole table. */
  lemma {:induction false} ResolvedSubtotal(products: seq<Product>, orderItems: seq<OrderItemInput>)
    ensures Subtotal(Resolve(products, RequestedIds(orderItems)), orderItems) == Subtotal(products, orderItems)
  {
    if |products| > 0 {
      var n := |products| - 1;
      var ids := RequestedIds(orderItems);
      var front := Resolve(products[..n], ids);
      ResolvedSubtotal(products[..n], orderItems);
      if products[n].id in ids {
        assert (front + [products[n]])[..|front|] == front;
      } else {
        assert IndexOf(orderItems, RequestKey, products[n].id).None?;
        assert Resolve(products, ids) == front;
      }
    }
  }

  /** A request for a product absent from the table changes no line. */
  lemma {:induction false} SubtotalAppendUnlisted(products: seq<Product>, orderItems: seq<OrderItemInput>, item: OrderItemInput)
    requires !HasKey(orderItems, RequestKey, item.productId)
    requires !HasKey(products, ProductKey, item.productId)
    ensures Subtotal(products, orderItems + [item]) == Subtotal(products, orderItems)
  {
    if |products| > 0 {
      var n := |products| - 1;
      var init := products[..n];
      assert forall i :: 0 <= i < n ==> init[i] == products[i];
      SubtotalAppendUnlisted(init, orderItems, item);
      assert ProductKey(products[n]) != item.productId;
      QuantityOfAppend(orderItems, item, products[n].id);
    }
  }

  /** A request for the product in row `k` of a table with unique ids adds that row's line. */
  lemma {:induction false} SubtotalAppendListed(products: seq<Product>, orderItems: seq<OrderItemInput>, item: OrderItemInput, k: nat)
    requires UniqueKeys(products, ProductKey)
    requires k < |products| && products[k].id == item.productId
    requires !HasKey(orderItems, RequestKey, item.productId)
    ensures Subtotal(products, orderItems + [item]) == Subtotal(products, orderItems) + products[k].price * item.quantity
  {
    var n := |products| - 1;
    var init := products[..n];
    var last := products[n];
    var t := orderItems + [item];
    assert Subtotal(products, t) == Subtotal(init, t) + LineTotal(last, t);
    assert Subtotal(products, orderItems) == Subtotal(init, orderItems) + LineTotal(last, orderItems);
    QuantityOfAppend(orderItems, item, last.id);
    if k == n {
      forall i | 0 <= i < n ensures ProductKey(init[i]) != item.productId {
        assert init[i] == products[i];
        assert ProductKey(products[i]) != ProductKey(products[n]);
      }
      SubtotalAppendUnlisted(init, orderItems, item);
      assert QuantityOf(orderItems, item.productId) == 0;
    } else {
      assert ProductKey(products[k]) != ProductKey(last);
      forall i, j | 0 <= i < j < n ensures ProductKey(init[i]) != ProductKey(init[j]) {
        assert init[i] == products[i] && init[j] == products[j];
      }
      assert init[k] == products[k];
      SubtotalAppendListed(init, orderItems, item, k);
    }
  }

  /** The row `db.order.create` inserts. */
  function NewOrder(id: Id, subtotal: int, now: int): Order {
    var t := Pricing.TotalsOf(subtotal);
    Order(id, AwaitingPayment, t.subtotal, t.tax, t.grandTotal, None, None, None, now)
  }

  /** The rows `db.orderItems.createMany` inserts: one per resolved product, price copied from it. */
  function ItemsFor(orderId: Id, products: seq<Product>, orderItems: seq<OrderItemInput>): (items: seq<OrderItem>)
    ensures |items| == |products|
    ensures forall k :: 0 <= k < |items| ==>
      && items[k].orderId == orderId
      && items[k].productId == products[k].id
      && items[k].price == products[k].price
      && items[k].quantity == QuantityOf(orderItems, products[k].id)
  {
    seq(|products|, k requires 0 <= k < |products| =>
      OrderItem(orderId, products[k].id, products[k].price, QuantityOf(orderItems, products[k].id)))
  }

  /** `Σ price * quantity` over order items. */
  function ItemsTotal(items: seq<OrderItem>): int {
    if |items| == 0 then 0
    else ItemsTotal(items[..|items| - 1]) + items[|items| - 1].price * items[|items| - 1].quantity
  }

  /** The order's subtotal equals the sum of its items' snapshot price times quantity. */
  lemma {:induction false} ItemsTotalIsSubtotal(orderId: Id, products: seq<Product>, orderItems: seq<OrderItemInput>)
    ensures ItemsTotal(ItemsFor(orderId, products, orderItems)) == Subtotal(products, orderItems)
  {
    if |products| > 0 {
      var n := |products| - 1;
      ItemsTotalIsSubtotal(orderId, products[..n], orderItems);
      assert ItemsFor(orderId, products, orderItems)[..n] == ItemsFor(orderId, products[..n], orderItems);
    }
  }

  /**
   * There are as many order items as distinct requested ids that name an
   * existing product (duplicates and unknown ids add no item).
   */
  lemma OneItemPerDistinctFoundId(orderId: Id, products: seq<Product>, orderItems: seq<OrderItemInput>)
    requires UniqueKeys(products, ProductKey)
    ensures |ItemsFor(orderId, Resolve(products, RequestedIds(orderItems)), orderItems)|
         == |set id | id in RequestedIds(orderItems) && HasKey(products, ProductKey, id)|
  {
    var ids := RequestedIds(orderItems);
    var r := Resolve(products, ids);
    var found := set id | id in ids && HasKey(products, ProductKey, id);
    ResolveUnique(products, ids);
    UniqueKeysCardinality(r, ProductKey);
    assert KeySet(r, ProductKey) == found by {
      forall id | id in KeySet(r, ProductKey) ensures id in found {
        var i :| 0 <= i < |r| && ProductKey(r[i]) == id;
        assert r[i] in products;
        var j :| 0 <= j < |products| && products[j] == r[i];
        assert ProductKey(products[j]) == id;
      }
      forall id | id in found ensures id in KeySet(r, ProductKey) {
        var j :| 0 <= j < |products| && ProductKey(products[j]) == id;
        assert products[j] in r;
        var i :| 0 <= i < |r| && r[i] == products[j];
        assert ProductKey(r[i]) == id;
      }
    }
  }

  lemma {:induction false} ResolveNothing(products: seq<Product>)
    ensures Resolve(products, []) == []
  {
    if |products| > 0 {
      ResolveNothing(products[..|products| - 1]);
    }
  }

  /** An empty request resolves no product, inserts no item and yields a zero-total order. */
  lemma EmptyRequestGivesZeroOrder(products: seq<Product>, id: Id, now: int)
    ensures Resolve(products, RequestedIds([])) == []
    ensures QuantitiesValid([])
    ensures var o := NewOrder(id, Subtotal([], []), now);
      o.subtotal == 0.0 && o.tax == 0.0 && o.grandTotal == 0.0 && o.status == AwaitingPayment
  {
    assert RequestedIds([]) == [];
    ResolveNothing(products);
  }

  /** One product at 10000, quantity 2: subtotal 20000, tax 2000, grand total 22000. */
  lemma ExampleTotals()
    ensures var table := [Product("p1", "Coffee", 10000, "https://example.com/p1.jpeg", "c1")];
      var request := [OrderItemInput("p1", 2)];
      var o := NewOrder("o1", Subtotal(Resolve(table, RequestedIds(request)), request), 0);
      o.subtotal == 20000.0 && o.tax == 2000.0 && o.grandTotal == 22000.0
  {
    var p1 := Product("p1", "Coffee", 10000, "https://example.com/p1.jpeg", "c1");
    var table := [p1];
    var request := [OrderItemInput("p1", 2)];
    var ids := RequestedIds(request);
    assert ids == ["p1"];
    assert table[..0] == [];
    assert Resolve(table, ids) == [p1];
    FirstEntryWins(request, 0);
    assert [p1][..0] == [];
    assert Subtotal([p1], request) == 20000;
  }

  /** The part of the gateway's payment request that this code reads. */
  datatype PaymentRequest = PaymentRequest(id: string, paymentMethodId: string, qrString: string)

  /** What `createQRIS({ amount, orderId })` does: returns a payment request, or throws. */
  datatype GatewayReply = Created(request: PaymentRequest) | Failed

  /**
   * The reply of `createOrder`: the order AS FIRST CREATED (before the
   * gateway ids are written), the count `createMany` reports, and the QR payload.
   */
  datatype CreateOrderReply = CreateOrderReply(order: Order, newOrderItems: nat, qrString: string)

  /** Inserting an order with a fresh id together with its items keeps the database invariant. */
  lemma InsertOrderKeepsInvariant(orders: seq<Order>, items: seq<OrderItem>, order: Order, newItems: seq<OrderItem>)
    requires UniqueKeys(orders, OrderKey) && !HasKey(orders, OrderKey, order.id)
    requires ItemsReferToOrders(items, orders)
    requires forall k :: 0 <= k < |newItems| ==> newItems[k].orderId == order.id
    ensures UniqueKeys(orders + [order], OrderKey)
    ensures ItemsReferToOrders(items + newItems, orders + [order])
  {
    UniqueAppend(orders, OrderKey, order);
    var all := items + newItems;
    forall k | 0 <= k < |all| ensures HasKey(orders + [order], OrderKey, all[k].orderId) {
      HasKeyAppend(orders, OrderKey, order, all[k].orderId);
      if k < |items| {
        assert all[k] == items[k];
      } else {
        assert all[k] == newItems[k - |items|];
      }
    }
  }

  /** Rewriting a row of the order table under the same id keeps the database invariant. */
  lemma UpdateOrderKeepsInvariant(orders: seq<Order>, items: seq<OrderItem>, k: nat, updated: Order)
    requires UniqueKeys(orders, OrderKey) && k < |orders| && updated.id == orders[k].id
    requires ItemsReferToOrders(items, orders)
    ensures UniqueKeys(orders[k := updated], OrderKey)
    ensures ItemsReferToOrders(items, orders[k := updated])
  {
    ReplaceSameKey(orders, OrderKey, k, updated);
  }

  /**
   * `createOrder`. `newId` and `now` are the id and timestamp the database
   * assigns; `createQris` stands for the payment gateway.
   */
  method CreateOrder(db: Db, orderItems: seq<OrderItemInput>, newId: Id, now: int,
                     createQris: (real, Id) -> GatewayReply)
    returns (r: Result<CreateOrderReply, ApiError>)
    requires db.Valid()
    requires !HasKey(db.orders, OrderKey, newId)
    modifies db
    ensures db.Valid()
    ensures db.categories == old(db.categories) && db.products == old(db.products)
    ensures !QuantitiesValid(orderItems) ==>
      r == Err(BadRequest) && db.orders == old(db.orders) && db.orderItems == old(db.orderItems)
    ensures QuantitiesValid(orderItems) ==>
      var products := Resolve(old(db.products), RequestedIds(orderItems));
      var order := NewOrder(newId, Subtotal(products, orderItems), now);
      && db.orderItems == old(db.orderItems) + ItemsFor(newId, products, orderItems)
      && (createQris(order.grandTotal, newId).Failed? ==>
            && r == Err(InternalServerError(GatewayFailure))
            && db.orders == old(db.orders) + [order])
      && (createQris(order.grandTotal, newId).Created? ==>
            var pr := createQris(order.grandTotal, newId).request;
            && r == Ok(CreateOrderReply(order, |products|, pr.qrString))
            && db.orders == old(db.orders) + [order.(externalTransactionId := Some(pr.id),
                                                     paymentMethodId := Some(pr.paymentMethodId))])
  {
    if !QuantitiesValid(orderItems) {
      return Err(BadRequest);
    }
    var products := Resolve(db.products, RequestedIds(orderItems));

    var subtotal := ComputeSubtotal(products, orderItems);

    var order := NewOrder(newId, subtotal, now);
    var newOrderItems := ItemsFor(order.id, products, orderItems);
    InsertOrderKeepsInvariant(db.orders, db.orderItems, order, newOrderItems);
    db.orders := db.orders + [order];
    db.orderItems := db.orderItems + newOrderItems;

    var reply := createQris(order.grandTotal, order.id);
    match reply
    case Failed =>
      r := Err(InternalServerError(GatewayFailure));
    case Created(pr) =>
      var last := |db.orders| - 1;
      IndexOfUnique(db.orders, OrderKey, last);
      var k := IndexOf(db.orders, OrderKey, order.id).value;
      var updated := db.orders[k].(externalTransactionId := Some(pr.id), paymentMethodId := Some(pr.paymentMethodId));
      UpdateOrderKeepsInvariant(db.orders, db.orderItems, k, updated);
      db.orders := db.orders[k := updated];
      r := Ok(CreateOrderReply(order, |newOrderItems|, pr.qrString));
  }

  // ---------------------------------------------------------------------
  // simulatePayment, checkOrderStatus: the guards before the gateway call
  // ---------------------------------------------------------------------

  predicate IsPaidOrder(orders: seq<Order>, orderId: Id) {
    exists k :: 0 <= k < |orders| && orders[k].id == orderId && orders[k].paidAt.Some?
  }

  /** The gateway call `simulatePayment` makes: the stored payment method id and the grand total. */
  datatype SimulateCall = SimulateCall(paymentMethodId: Option<string>, amount: real)

  /** `simulatePayment`: a non-uuid id is rejected, a missing order is NOT_FOUND, otherwise the call to forward. */
  function SimulatePayment(orders: seq<Order>, orderId: Id, isUuid: string -> bool): (r: Result<SimulateCall, ApiError>)
    requires UniqueKeys(orders, OrderKey)
    ensures !isUuid(orderId) ==> r == Err(BadRequest)
    ensures isUuid(orderId) ==> (r.Ok? <==> HasKey(orders, OrderKey, orderId))
    ensures isUuid(orderId) && r.Err? ==> r.error == NotFound
    ensures r.Ok? ==> exists k :: 0 <= k < |orders| && orders[k].id == orderId &&
                                 r.value == SimulateCall(orders[k].paymentMethodId, orders[k].grandTotal)
  {
    if !isUuid(orderId) then Err(BadRequest)
    else match IndexOf(orders, OrderKey, orderId)
      case None => Err(NotFound)
      case Some(k) => Ok(SimulateCall(orders[k].paymentMethodId, orders[k].grandTotal))
  }

  /**
   * `checkOrderStatus`: a missing order and an unpaid one both end in the same
   * plain Error (an INTERNAL_SERVER_ERROR, not NOT_FOUND); otherwise the
   * external transaction id the gateway is queried with.
   */
  function CheckOrderStatus(orders: seq<Order>, orderId: Id, isUuid: string -> bool): (r: Result<Option<string>, ApiError>)
    requires UniqueKeys(orders, OrderKey)
    ensures !isUuid(orderId) ==> r == Err(BadRequest)
    ensures isUuid(orderId) ==> (r.Ok? <==> IsPaidOrder(orders, orderId))
    ensures isUuid(orderId) && r.Err? ==> r.error == InternalServerError(StatusCheckOnUnpaidOrder)
    ensures r.Ok? ==> exists k :: 0 <= k < |orders| && orders[k].id == orderId &&
                                 r.value == orders[k].externalTransactionId
  {
    if !isUuid(orderId) then Err(BadRequest)
    else match IndexOf(orders, OrderKey, orderId)
      case None => Err(InternalServerError(StatusCheckOnUnpaidOrder))
      case Some(k) =>
        if orders[k].paidAt.None? then Err(InternalServerError(StatusCheckOnUnpaidOrder))
        else Ok(orders[k].externalTransactionId)
  }

  // ---------------------------------------------------------------------
  // finishOrder
  // ---------------------------------------------------------------------

  /**
   * The checks of `finishOrder`: the position of the order to update, or the
   * error thrown. The order's current status plays no part.
   */
  function FinishOrderGuard(orders: seq<Order>, orderId: Id, isUuid: string -> bool): (r: Result<nat, ApiError>)
    requires UniqueKeys(orders, OrderKey)
    ensures r.Ok? <==> isUuid(orderId) && IsPaidOrder(orders, orderId)
    ensures r.Ok? ==> r.value < |orders| && orders[r.value].id == orderId
    ensures r == Err(BadRequest) <==> !isUuid(orderId)
    ensures r == Err(NotFound) <==> isUuid(orderId) && !HasKey(orders, OrderKey, orderId)
    ensures r == Err(UnprocessableContent) <==>
      isUuid(orderId) && HasKey(orders, OrderKey, orderId) && !IsPaidOrder(orders, orderId)
  {
    if !isUuid(orderId) then Err(BadRequest)
    else match IndexOf(orders, OrderKey, orderId)
      case None => Err(NotFound)
      case Some(k) =>
        assert forall j :: 0 <= j < |orders| && orders[j].id == orderId ==> j == k by {
          forall j | 0 <= j < |orders| && orders[j].id == orderId ensures j == k {
            assert OrderKey(orders[j]) == OrderKey(orders[k]);
          }
        }
        if orders[k].paidAt.None? then Err(UnprocessableContent) else Ok(k)
  }

  /** `db.order.update({ where: { id }, data: { status: DONE } })` on row `k`. */
  function MarkDone(orders: seq<Order>, k: nat): (r: seq<Order>)
    requires k < |orders|
    ensures |r| == |orders|
    ensures forall j :: 0 <= j < |r| && j != k ==> r[j] == orders[j]
    ensures r[k].status == Done && r[k].(status := orders[k].status) == orders[k]
  {
    orders[k := orders[k].(status := Done)]
  }

  /** `finishOrder`: on either error nothing changes; otherwise only that order's status becomes DONE. */
  method FinishOrder(db: Db, orderId: Id, isUuid: string -> bool) returns (r: Result<(), ApiError>)
    requires db.Valid()
    modifies db
    ensures db.Valid()
    ensures db.categories == old(db.categories) && db.products == old(db.products)
    ensures db.orderItems == old(db.orderItems)
    ensures match FinishOrderGuard(old(db.orders), orderId, isUuid)
      case Err(e) => r == Err(e) && db.orders == old(db.orders)
      case Ok(k) => r == Ok(()) && db.orders == MarkDone(old(db.orders), k)
  {
    if !isUuid(orderId) {
      return Err(BadRequest);
    }
    var found := IndexOf(db.orders, OrderKey, orderId);
    if found.None? {
      return Err(NotFound);
    }
    var order := db.orders[found.value];
    if order.paidAt.None? {
      return Err(UnprocessableContent);
    }
    IndexOfUnique(db.orders, OrderKey, found.value);
    var k := IndexOf(db.orders, OrderKey, order.id).value;
    ReplaceSameKey(db.orders, OrderKey, k, db.orders[k].(status := Done));
    db.orders := db.orders[k := db.orders[k].(status := Done)];
    return Ok(());
  }

  /** Calling `finishOrder` a second time succeeds again and leaves the same table as calling it once. */
  lemma FinishOrderTwice(orders: seq<Order>, orderId: Id, isUuid: string -> bool, k: nat)
    requires UniqueKeys(orders, OrderKey)
    requires FinishOrderGuard(orders, orderId, isUuid) == Ok(k)
    ensures UniqueKeys(MarkDone(orders, k), OrderKey)
    ensures FinishOrderGuard(MarkDone(orders, k), orderId, isUuid) == Ok(k)
    ensures MarkDone(MarkDone(orders, k), k) == MarkDone(orders, k)
  {
    var once := MarkDone(orders, k);
    ReplaceSameKey(orders, OrderKey, k, orders[k].(status := Done));
    IndexOfUnique(once, OrderKey, k);
    assert OrderKey(once[k]) == orderId;
  }

  // ---------------------------------------------------------------------
  // getOrders
  // ---------------------------------------------------------------------

  datatype StatusFilter = AllStatuses | OnlyStatus(status: OrderStatus)

  function StatusName(s: OrderStatus): string {
    match s
    case AwaitingPayment => "AWAITING_PAYMENT"
    case Processing => "PROCESSING"
    case Done => "DONE"
  }

  /**
   * zod's `z.enum(["ALL", ...Object.keys(OrderStatus)]).default(d)`: an
   * omitted status is replaced by `d`, which then goes through the enum check
   * like any other value.
   */
  function ParseStatusFilter(raw: Option<string>, default: string): (r: Result<StatusFilter, ApiError>)
    ensures var s := if raw.Some? then raw.value else default;
      && (r == Ok(AllStatuses) <==> s == "ALL")
      && (forall st :: r == Ok(OnlyStatus(st)) <==> s == StatusName(st))
      && (r.Err? ==> r.error == BadRequest)
  {
    var s := if raw.Some? then raw.value else default;
    if s == "ALL" then Ok(AllStatuses)
    else if s == "AWAITING_PAYMENT" then Ok(OnlyStatus(AwaitingPayment))
    else if s == "PROCESSING" then Ok(OnlyStatus(Processing))
    else if s == "DONE" then Ok(OnlyStatus(Done))
    else Err(BadRequest)
  }

  /** The `where` clause built by the `switch`: "ALL" matches no case, so it filters nothing. */
  predicate Selects(filter: StatusFilter, o: Order) {
    filter.AllStatuses? || o.status == filter.status
  }

  function Selector(filter: StatusFilter): Order -> bool {
    (o: Order) => Selects(filter, o)
  }

  lemma SelectAllKeepsAll(orders: seq<Order>, filter: StatusFilter)
    ensures filter.AllStatuses? ==> Filter(orders, Selector(filter)) == orders
  {
    if filter.AllStatuses? {
      FilterAll(orders, Selector(filter));
    }
  }

  /** `_count.orderItems`. */
  function ItemCount(items: seq<OrderItem>, orderId: Id): nat {
    if |items| == 0 then 0
    else ItemCount(items[..|items| - 1], orderId) + (if items[|items| - 1].orderId == orderId then 1 else 0)
  }

  datatype OrderSummary = OrderSummary(id: Id, grandTotal: real, status: OrderStatus, paidAt: Option<int>, itemCount: nat)

  function Summary(o: Order, items: seq<OrderItem>): OrderSummary {
    OrderSummary(o.id, o.grandTotal, o.status, o.paidAt, ItemCount(items, o.id))
  }

  /** The summaries of the selected rows are the summaries of the table's rows that pass the filter. */
  lemma SummariesOfSelected(orders: seq<Order>, items: seq<OrderItem>, filter: StatusFilter, r: seq<OrderSummary>)
    requires var selected := Filter(orders, Selector(filter));
      |r| == |selected| && forall k :: 0 <= k < |r| ==> r[k] == Summary(selected[k], items)
    ensures forall s :: s in r <==> exists o :: o in orders && Selects(filter, o) && s == Summary(o, items)
  {
    var selected := Filter(orders, Selector(filter));
    forall s ensures s in r <==> exists o :: o in orders && Selects(filter, o) && s == Summary(o, items) {
      if s in r {
        var k :| 0 <= k < |r| && r[k] == s;
        assert selected[k] in selected;
      }
      if exists o :: o in orders && Selects(filter, o) && s == Summary(o, items) {
        var o :| o in orders && Selects(filter, o) && s == Summary(o, items);
        assert o in selected;
        var k :| 0 <= k < |selected| && selected[k] == o;
        assert r[k] == s;
      }
    }
  }

  /** The rows of `findMany({ where, select })` for a parsed filter. */
  function ListOrders(orders: seq<Order>, items: seq<OrderItem>, filter: StatusFilter): (r: seq<OrderSummary>)
    ensures forall s :: s in r <==> exists o :: o in orders && Selects(filter, o) && s == Summary(o, items)
    ensures |r| == |Filter(orders, Selector(filter))|
    ensures forall k :: 0 <= k < |r| ==> r[k] == Summary(Filter(orders, Selector(filter))[k], items)
    ensures filter.AllStatuses? ==> |r| == |orders| && forall k :: 0 <= k < |r| ==> r[k] == Summary(orders[k], items)
  {
    var selected := Filter(orders, Selector(filter));
    SelectAllKeepsAll(orders, filter);
    var r := seq(|selected|, k requires 0 <= k < |selected| => Summary(selected[k], items));
    SummariesOfSelected(orders, items, filter, r);
    r
  }

  /** The default as written, `.default("All")`: not one of the enum's values. */
  const DefaultStatusAsWritten := "All"

  /** The evidently intended default, the enum's "ALL". */
  const DefaultStatus := "ALL"

  /** `getOrders` as written. */
  function GetOrdersAsWritten(orders: seq<Order>, items: seq<OrderItem>, raw: Option<string>): (r: Result<seq<OrderSummary>, ApiError>)
    ensures r.Ok? <==> ParseStatusFilter(raw, DefaultStatusAsWritten).Ok?
    ensures r.Err? ==> r == Err(BadRequest)
    ensures raw.Some? ==> (r.Err? <==> raw.value != "ALL" && forall st :: raw.value != StatusName(st))
    ensures raw.Some? ==> r == GetOrders(orders, items, raw)
  {
    match ParseStatusFilter(raw, DefaultStatusAsWritten)
    case Err(e) => Err(e)
    case Ok(filter) => Ok(ListOrders(orders, items, filter))
  }

  /** As written, calling `getOrders` without a status fails validation. */
  lemma OmittedStatusRejectedAsWritten(orders: seq<Order>, items: seq<OrderItem>)
    ensures GetOrdersAsWritten(orders, items, None) == Err(BadRequest)
  {
    var p := ParseStatusFilter(None, DefaultStatusAsWritten);
    assert DefaultStatusAsWritten != "ALL";
    assert forall st :: DefaultStatusAsWritten != StatusName(st);
    assert p.Err?;
  }

  /** `getOrders` with the default corrected to "ALL". */
  function GetOrders(orders: seq<Order>, items: seq<OrderItem>, raw: Option<string>): (r: Result<seq<OrderSummary>, ApiError>)
    ensures r.Err? ==> r.error == BadRequest
    ensures r.Err? <==> raw.Some? && raw.value != "ALL" && forall st :: raw.value != StatusName(st)
    ensures raw == Some("ALL") || raw.None? ==> r == Ok(ListOrders(orders, items, AllStatuses))
    ensures forall st :: raw == Some(StatusName(st)) ==> r == Ok(ListOrders(orders, items, OnlyStatus(st)))
  {
    match ParseStatusFilter(raw, DefaultStatus)
    case Err(e) => Err(e)
    case Ok(filter) => Ok(ListOrders(orders, items, filter))
  }

  /** With the corrected default, an omitted status lists every order, in table order. */
  lemma OmittedStatusListsEveryOrder(orders: seq<Order>, items: seq<OrderItem>)
    ensures GetOrders(orders, items, None).Ok?
    ensures var r := GetOrders(orders, items, None).value;
      |r| == |orders| && forall k :: 0 <= k < |r| ==> r[k] == Summary(orders[k], items)
  {
  }

  /**
   * A concrete status lists exactly the orders that have it, each as often as
   * it occurs in the table (once, with unique ids), in table order.
   */
  lemma GetOrdersByStatus(orders: seq<Order>, items: seq<OrderItem>, st: OrderStatus)
    ensures GetOrders(orders, items, Some(StatusName(st))).Ok?
    ensures forall s :: s in GetOrders(orders, items, Some(StatusName(st))).value <==>
      exists o :: o in orders && o.status == st && s == Summary(o, items)
    ensures var r := GetOrders(orders, items, Some(StatusName(st))).value;
      var selected := Filter(orders, Selector(OnlyStatus(st)));
      && |r| == |selected|
      && (forall k :: 0 <= k < |r| ==> r[k] == Summary(selected[k], items))
      && (forall o :: multiset(selected)[o] == if o.status == st then multiset(orders)[o] else 0)
  {
    forall o ensures multiset(Filter(orders, Selector(OnlyStatus(st))))[o] == if o.status == st then multiset(orders)[o] else 0 {
      FilterMultiset(orders, Selector(OnlyStatus(st)), o);
    }
  }

  /** Listing the DONE orders gives as many rows as the sales report's completed count. */
  lemma DoneListingMatchesReport(orders: seq<Order>, items: seq<OrderItem>)
    ensures GetOrders(orders, items, Some("DONE")).Ok?
    ensures |GetOrders(orders, items, Some("DONE")).value| == GetSalesReport(orders).totalCompletedOrders
  {
    assert StatusName(Done) == "DONE";
    FilterSameCondition(orders, Selector(OnlyStatus(Done)), IsCompleted);
  }

  // ---------------------------------------------------------------------
  // getSalesReport
  // ---------------------------------------------------------------------

  predicate IsPaid(o: Order) { o.paidAt.Some? }
  predicate IsOngoing(o: Order) { o.status != Done }
  predicate IsCompleted(o: Order) { o.status == Done }

  /** `paidOrders.reduce((a, b) => a + b.grandTotal, 0)`. */
  function SumGrandTotals(orders: seq<Order>): real {
    if |orders| == 0 then 0.0
    else SumGrandTotals(orders[..|orders| - 1]) + orders[|orders| - 1].grandTotal
  }

  datatype SalesReport = SalesReport(totalRevenue: real, totalOngoingOrders: nat, totalCompletedOrders: nat)

  /** `getSalesReport`: the three queries, run one after the other. */
  function GetSalesReport(orders: seq<Order>): (r: SalesReport)
    ensures r.totalOngoingOrders + r.totalCompletedOrders == |orders|
  {
    FilterSplit(orders, IsCompleted, IsOngoing);
    SalesReport(
      SumGrandTotals(Filter(orders, IsPaid)),
      |Filter(orders, IsOngoing)|,
      |Filter(orders, IsCompleted)|)
  }

  /** Three orders, two of them paid and one of those done. */
  lemma SalesReportFixture(a: Order, b: Order, c: Order)
    requires a.paidAt.Some? && a.status == Done
    requires b.paidAt.Some? && b.status != Done
    requires c.paidAt.None? && c.status != Done
    ensures GetSalesReport([a, b, c]) == SalesReport(a.grandTotal + b.grandTotal, 2, 1)
  {
    FixtureRevenue(a, b, c);
    FixtureCounts(a, b, c);
  }

  lemma FixtureRevenue(a: Order, b: Order, c: Order)
    requires IsPaid(a) && IsPaid(b) && !IsPaid(c)
    ensures SumGrandTotals(Filter([a, b, c], IsPaid)) == a.grandTotal + b.grandTotal
  {
    assert [a, b, c][..2] == [a, b] && [a, b][..1] == [a] && [a][..0] == [];
    RevenueLast([a]);
    RevenueLast([a, b]);
    RevenueLast([a, b, c]);
  }

  lemma FixtureCounts(a: Order, b: Order, c: Order)
    requires IsCompleted(a) && IsOngoing(b) && IsOngoing(c)
    ensures |Filter([a, b, c], IsOngoing)| == 2 && |Filter([a, b, c], IsCompleted)| == 1
  {
    assert [a, b, c][..2] == [a, b] && [a, b][..1] == [a] && [a][..0] == [];
    assert Filter([a, b], IsOngoing) == [b] by {
      assert Filter([a], IsOngoing) == [];
    }
    assert Filter([a, b], IsCompleted) == [a] by {
      assert Filter([a], IsCompleted) == [a];
    }
  }

  lemma SumAppend(orders: seq<Order>, o: Order)
    ensures SumGrandTotals(orders + [o]) == SumGrandTotals(orders) + o.grandTotal
  {
    assert (orders + [o])[..|orders|] == orders;
  }

  /** Appending an order adds its grand total to the revenue exactly when it is paid. */
  lemma RevenueSnoc(orders: seq<Order>, o: Order)
    ensures SumGrandTotals(Filter(orders + [o], IsPaid))
         == SumGrandTotals(Filter(orders, IsPaid)) + (if IsPaid(o) then o.grandTotal else 0.0)
  {
    FilterSnoc(orders, IsPaid, o);
    if IsPaid(o) {
      SumAppend(Filter(orders, IsPaid), o);
    } else {
      assert Filter(orders, IsPaid) + [] == Filter(orders, IsPaid);
    }
  }

  /** The revenue of a table is that of all rows but the last, plus the last row's total when it is paid. */
  lemma RevenueLast(s: seq<Order>)
    requires |s| > 0
    ensures SumGrandTotals(Filter(s, IsPaid))
         == SumGrandTotals(Filter(s[..|s| - 1], IsPaid)) + (if IsPaid(s[|s| - 1]) then s[|s| - 1].grandTotal else 0.0)
  {
    var init := Filter(s[..|s| - 1], IsPaid);
    if IsPaid(s[|s| - 1]) {
      SumAppend(init, s[|s| - 1]);
    } else {
      assert init + [] == init;
    }
  }

  /** Two tables that agree row by row on being paid and on the grand total have the same revenue. */
  lemma {:induction false} RevenueAgrees(s: seq<Order>, t: seq<Order>)
    requires |s| == |t|
    requires forall i :: 0 <= i < |s| ==> IsPaid(s[i]) == IsPaid(t[i]) && s[i].grandTotal == t[i].grandTotal
    ensures SumGrandTotals(Filter(s, IsPaid)) == SumGrandTotals(Filter(t, IsPaid))
  {
    if |s| > 0 {
      var n := |s| - 1;
      assert SumGrandTotals(Filter(s[..n], IsPaid)) == SumGrandTotals(Filter(t[..n], IsPaid)) by {
        assert forall i :: 0 <= i < n ==> s[..n][i] == s[i] && t[..n][i] == t[i];
        RevenueAgrees(s[..n], t[..n]);
      }
      RevenueLast(s);
      RevenueLast(t);
    }
  }

  /** Finishing row `k` does not change any paid order's grand total, so revenue is unchanged. */
  lemma MarkDoneKeepsRevenue(orders: seq<Order>, k: nat)
    requires k < |orders|
    ensures SumGrandTotals(Filter(MarkDone(orders, k), IsPaid)) == SumGrandTotals(Filter(orders, IsPaid))
  {
    var after := MarkDone(orders, k);
    assert after[k].paidAt == orders[k].paidAt && after[k].grandTotal == orders[k].grandTotal;
    RevenueAgrees(after, orders);
  }

  /** Finishing row `k` that was not yet DONE adds one completed order. */
  lemma {:induction false} MarkDoneAddsCompleted(orders: seq<Order>, k: nat)
    requires k < |orders| && orders[k].status != Done
    ensures |Filter(MarkDone(orders, k), IsCompleted)| == |Filter(orders, IsCompleted)| + 1
  {
    var n := |orders| - 1;
    var after := MarkDone(orders, k);
    assert |Filter(after, IsCompleted)| == |Filter(after[..n], IsCompleted)| + (if IsCompleted(after[n]) then 1 else 0);
    assert |Filter(orders, IsCompleted)| == |Filter(orders[..n], IsCompleted)| + (if IsCompleted(orders[n]) then 1 else 0);
    if k < n {
      assert |Filter(after[..n], IsCompleted)| == |Filter(orders[..n], IsCompleted)| + 1 by {
        assert after[..n] == MarkDone(orders[..n], k);
        MarkDoneAddsCompleted(orders[..n], k);
      }
      assert after[n] == orders[n];
    } else {
      assert after[..n] == orders[..n];
    }
  }

  /** A successful `finishOrder` on an order not yet DONE moves it from ongoing to completed; revenue stays. */
  lemma FinishOrderReport(orders: seq<Order>, orderId: Id, isUuid: string -> bool, k: nat)
    requires UniqueKeys(orders, OrderKey)
    requires FinishOrderGuard(orders, orderId, isUuid) == Ok(k)
    requires orders[k].status != Done
    ensures var before := GetSalesReport(orders);
      var after := GetSalesReport(MarkDone(orders, k));
      && after.totalRevenue == before.totalRevenue
      && after.totalCompletedOrders == before.totalCompletedOrders + 1
      && after.totalOngoingOrders + 1 == before.totalOngoingOrders
  {
    MarkDoneKeepsRevenue(orders, k);
    MarkDoneAddsCompleted(orders, k);
  }

  /** The order `createOrder` inserts counts as ongoing and adds nothing to revenue. */
  lemma NewOrderReport(orders: seq<Order>, id: Id, subtotal: int, now: int)
    ensures var before := GetSalesReport(orders);
      var after := GetSalesReport(orders + [NewOrder(id, subtotal, now)]);
      && after.totalRevenue == before.totalRevenue
      && after.totalOngoingOrders == before.totalOngoingOrders + 1
      && after.totalCompletedOrders == before.totalCompletedOrders
  {
    var o := NewOrder(id, subtotal, now);
    var s := orders + [o];
    assert s[..|orders|] == orders;
    assert !IsPaid(o) && IsOngoing(o) && !IsCompleted(o);
    assert Filter(s, IsPaid) == Filter(orders, IsPaid);
    assert Filter(s, IsOngoing) == Filter(orders, IsOngoing) + [o];
    assert Filter(s, IsCompleted) == Filter(orders, IsCompleted);
  }
}
