/**
 * The order sheet of the point-of-sale screen: the totals shown for the
 * cart, the quantity stepper, and the handlers that talk to the cart store
 * and to the order router.
 *
 * The cart store itself is not part of this model: its operations appear
 * as the `Effect`s the sheet emits, in order.
 */
module CreateOrderSheet {
  import opened Common
  import opened Tables
  import Pricing
  import opened OrderRouter

  /** An entry of the cart store. */
  datatype CartItem = CartItem(productId: Id, name: string, price: int, quantity: int, imageUrl: string)

  function CartKey(item: CartItem): Id { item.productId }

  // ---------------------------------------------------------------------
  // Totals
  // ---------------------------------------------------------------------

  /** `items.reduce((a, b) => a + b.price * b.quantity, 0)`. */
  function CartSubtotal(cart: seq<CartItem>): int {
    if |cart| == 0 then 0
    else CartSubtotal(cart[..|cart| - 1]) + cart[|cart| - 1].price * cart[|cart| - 1].quantity
  }

  /** No negative price or quantity in the cart. */
  predicate NonNegativeLines(cart: seq<CartItem>) {
    forall i :: 0 <= i < |cart| ==> cart[i].price >= 0 && cart[i].quantity >= 0
  }

  lemma {:induction false} CartSubtotalNonNegative(cart: seq<CartItem>)
    ensures NonNegativeLines(cart) ==> CartSubtotal(cart) >= 0
  {
    if |cart| > 0 && NonNegativeLines(cart) {
      var n := |cart| - 1;
      assert forall i :: 0 <= i < n ==> cart[..n][i] == cart[i];
      CartSubtotalNonNegative(cart[..n]);
      assert cart[n].price * cart[n].quantity >= 0;
    }
  }

  /** The subtotal, tax and grand total the sheet shows. */
  function CartTotals(cart: seq<CartItem>): (t: Pricing.Totals)
    ensures t.subtotal == CartSubtotal(cart) as real
    ensures t.tax == t.subtotal * Pricing.TaxRate
    ensures t.grandTotal == t.subtotal + t.tax
    ensures NonNegativeLines(cart) ==> 0.0 <= t.subtotal <= t.grandTotal
  {
    CartSubtotalNonNegative(cart);
    Pricing.TotalsOf(CartSubtotal(cart))
  }

  // ---------------------------------------------------------------------
  // The quantity stepper
  // ---------------------------------------------------------------------

  /** The minus button: `Math.max(0, quantity - 1)`. */
  function DecrementedQuantity(quantity: int): (r: int)
    ensures r >= 0
    ensures quantity >= 1 ==> r == quantity - 1
    ensures quantity < 1 ==> r == 0
  {
    if quantity - 1 > 0 then quantity - 1 else 0
  }

  /** The plus button. */
  function IncrementedQuantity(quantity: int): int {
    quantity + 1
  }

  /** What the sheet does with the cart and itself. */
  datatype Effect =
    | UpdateQuantity(productId: Id, quantity: int)   // cartStore.updateQuantity
    | RemoveFromCart(productId: Id)                   // cartStore.removeFromCart
    | ClearCart                                       // cartStore.clearCart
    | CloseSheet                                      // onOpenChange(false)
    | Alert(message: string)
    | SendCreateOrder(orderItems: seq<OrderItemInput>)
    | SendCheckOrderStatus(orderId: Id)
    | SendSimulatePayment(orderId: Id)

  /** `handleQuantityChange`: update the quantity, or remove the item and close the sheet at zero. */
  function QuantityChangeEffects(productId: Id, quantity: int): seq<Effect> {
    if quantity != 0 then [UpdateQuantity(productId, quantity)]
    else [RemoveFromCart(productId), CloseSheet]
  }

  /**
   * The two stepper buttons for an item with quantity `quantity >= 0`: minus
   * removes an item of quantity 0 or 1 and otherwise lowers it by one, plus
   * raises it by one. No effect ever touches another product, and no update
   * ever sets a quantity below 1.
   */
  lemma StepperEffects(productId: Id, quantity: int)
    requires quantity >= 0
    ensures QuantityChangeEffects(productId, DecrementedQuantity(quantity)) ==
      if quantity <= 1 then [RemoveFromCart(productId), CloseSheet]
      else [UpdateQuantity(productId, quantity - 1)]
    ensures QuantityChangeEffects(productId, IncrementedQuantity(quantity)) == [UpdateQuantity(productId, quantity + 1)]
    ensures forall e :: e in QuantityChangeEffects(productId, DecrementedQuantity(quantity)) + QuantityChangeEffects(productId, IncrementedQuantity(quantity)) ==>
      (e.UpdateQuantity? ==> e.productId == productId && e.quantity >= 1) &&
      (e.RemoveFromCart? ==> e.productId == productId)
  {
  }

  // ---------------------------------------------------------------------
  // Creating the order
  // ---------------------------------------------------------------------

  const EmptyCartMessage: string := "Cart is empty. Please add items to the cart."
  const OrderCreatedMessage: string := "Order created"
  const PaymentSimulatedMessage: string := "Payment simulated successfully"

  /** `items.map((item) => ({ productId, quantity }))`: one entry per cart item, in cart order. */
  function OrderRequestOf(cart: seq<CartItem>): (r: seq<OrderItemInput>)
    ensures |r| == |cart|
    ensures forall i :: 0 <= i < |cart| ==> r[i].productId == cart[i].productId && r[i].quantity == cart[i].quantity
  {
    seq(|cart|, i requires 0 <= i < |cart| => OrderItemInput(cart[i].productId, cart[i].quantity))
  }

  /** `handleCreateOrder`: an empty cart only alerts; otherwise one `createOrder` request. */
  function CreateOrderEffects(cart: seq<CartItem>): seq<Effect> {
    if |cart| == 0 then [Alert(EmptyCartMessage)]
    else [SendCreateOrder(OrderRequestOf(cart))]
  }

  /** An empty cart sends nothing; a non-empty one sends exactly one request, mirroring the cart. */
  lemma CreateOrderSendsOneRequest(cart: seq<CartItem>)
    ensures |cart| == 0 ==> forall e :: e in CreateOrderEffects(cart) ==> !e.SendCreateOrder?
    ensures |cart| > 0 ==>
      && |CreateOrderEffects(cart)| == 1
      && CreateOrderEffects(cart)[0].SendCreateOrder?
      && RequestedIds(CreateOrderEffects(cart)[0].orderItems) == seq(|cart|, i requires 0 <= i < |cart| => cart[i].productId)
  {
  }

  /** A cart entry's product is in the table at the price the cart holds. */
  predicate PricedAsInTable(products: seq<Product>, item: CartItem) {
    exists k :: 0 <= k < |products| && products[k].id == item.productId && products[k].price == item.price
  }

  /** Over the whole table, the server's subtotal of the cart's request is the cart's subtotal. */
  lemma {:induction false} TableSubtotalIsCartSubtotal(products: seq<Product>, cart: seq<CartItem>)
    requires UniqueKeys(products, ProductKey)
    requires UniqueKeys(cart, CartKey)
    requires forall i :: 0 <= i < |cart| ==> PricedAsInTable(products, cart[i])
    ensures Subtotal(products, OrderRequestOf(cart)) == CartSubtotal(cart)
  {
    if |cart| == 0 {
      SubtotalOfEmptyRequest(products);
    } else {
      var n := |cart| - 1;
      var init := cart[..n];
      assert forall i :: 0 <= i < n ==> init[i] == cart[i];
      var request := OrderRequestOf(init);
      var item := OrderItemInput(cart[n].productId, cart[n].quantity);
      assert OrderRequestOf(cart) == request + [item];
      forall i | 0 <= i < n ensures RequestKey(request[i]) != item.productId {
        assert CartKey(cart[i]) != CartKey(cart[n]);
      }
      TableSubtotalIsCartSubtotal(products, init);
      assert PricedAsInTable(products, cart[n]);
      var k :| 0 <= k < |products| && products[k].id == cart[n].productId && products[k].price == cart[n].price;
      SubtotalAppendListed(products, request, item, k);
    }
  }

  /**
   * The totals the sheet shows are the totals `createOrder` stores, when the
   * cart holds each product once and at its table price.
   */
  lemma CartMatchesServer(products: seq<Product>, cart: seq<CartItem>)
    requires UniqueKeys(products, ProductKey)
    requires UniqueKeys(cart, CartKey)
    requires forall i :: 0 <= i < |cart| ==> PricedAsInTable(products, cart[i])
    ensures var request := OrderRequestOf(cart);
      Subtotal(Resolve(products, RequestedIds(request)), request) == CartSubtotal(cart)
    ensures var request := OrderRequestOf(cart);
      Pricing.TotalsOf(Subtotal(Resolve(products, RequestedIds(request)), request)) == CartTotals(cart)
  {
    ResolvedSubtotal(products, OrderRequestOf(cart));
    TableSubtotalIsCartSubtotal(products, cart);
  }

  // ---------------------------------------------------------------------
  // The payment dialog
  // ---------------------------------------------------------------------

  /** A JavaScript value as a mutation's `data` can hold it. */
  datatype JsValue = JsUndefined | JsNull | JsBool(b: bool) | JsNumber(n: real) | JsString(s: string) | JsObject

  /** JavaScript truthiness (NaN is not modelled). */
  predicate Truthy(v: JsValue) {
    match v
    case JsUndefined => false
    case JsNull => false
    case JsBool(b) => b
    case JsNumber(n) => n != 0.0
    case JsString(s) => s != ""
    case JsObject => true
  }

  /** `orderPaid === true`, with `None` for a mutation that has no data. */
  predicate PaidFlag(orderPaid: Option<JsValue>) {
    orderPaid == Some(JsBool(true))
  }

  /** The sheet's own state; `effects` is everything it has emitted so far, in order. */
  class CreateOrderSheet {
    var paymentDialogOpen: bool
    /** The `data` of the `createOrder` mutation. */
    var createdOrder: Option<CreateOrderReply>
    /** The `data` of the `checkOrderStatus` mutation. */
    var orderPaid: Option<JsValue>
    var effects: seq<Effect>

    constructor ()
      ensures !paymentDialogOpen && createdOrder.None? && orderPaid.None? && effects == []
    {
      paymentDialogOpen, createdOrder, orderPaid, effects := false, None, None, [];
    }

    /** `isPaid`: whether the sheet shows the order as paid. */
    predicate ShowsPaid()
      reads this
    {
      PaidFlag(orderPaid)
    }

    method HandleQuantityChange(productId: Id, quantity: int)
      modifies this
      ensures effects == old(effects) + QuantityChangeEffects(productId, quantity)
      ensures paymentDialogOpen == old(paymentDialogOpen) && createdOrder == old(createdOrder)
      ensures orderPaid == old(orderPaid)
    {
      if quantity != 0 {
        effects := effects + [UpdateQuantity(productId, quantity)];
      } else {
        effects := effects + [RemoveFromCart(productId), CloseSheet];
      }
    }

    /** `cart` is `cartStore.items`. */
    method HandleCreateOrder(cart: seq<CartItem>)
      modifies this
      ensures effects == old(effects) + CreateOrderEffects(cart)
      ensures paymentDialogOpen == old(paymentDialogOpen) && createdOrder == old(createdOrder)
      ensures orderPaid == old(orderPaid)
    {
      if |cart| == 0 {
        effects := effects + [Alert(EmptyCartMessage)];
        return;
      }
      effects := effects + [SendCreateOrder(OrderRequestOf(cart))];
    }

    /** `createOrder`'s `onSuccess`, with the reply stored as the mutation's data. */
    method OnCreateOrderSuccess(reply: CreateOrderReply)
      modifies this
      ensures effects == old(effects) + [Alert(OrderCreatedMessage)]
      ensures paymentDialogOpen && createdOrder == Some(reply)
      ensures orderPaid == old(orderPaid)
    {
      effects := effects + [Alert(OrderCreatedMessage)];
      paymentDialogOpen := true;
      createdOrder := Some(reply);
    }

    /** `handleRefresh`: ask for the created order's status, or do nothing before an order exists. */
    method HandleRefresh()
      modifies this
      ensures createdOrder.None? ==> effects == old(effects)
      ensures createdOrder.Some? ==> effects == old(effects) + [SendCheckOrderStatus(createdOrder.value.order.id)]
      ensures paymentDialogOpen == old(paymentDialogOpen) && createdOrder == old(createdOrder)
      ensures orderPaid == old(orderPaid)
    {
      if createdOrder.None? {
        return;
      }
      effects := effects + [SendCheckOrderStatus(createdOrder.value.order.id)];
    }

    /** `handleSimulatePayment`: the same guard, then a `simulatePayment` request. */
    method HandleSimulatePayment()
      modifies this
      ensures createdOrder.None? ==> effects == old(effects)
      ensures createdOrder.Some? ==> effects == old(effects) + [SendSimulatePayment(createdOrder.value.order.id)]
      ensures paymentDialogOpen == old(paymentDialogOpen) && createdOrder == old(createdOrder)
      ensures orderPaid == old(orderPaid)
    {
      if createdOrder.None? {
        return;
      }
      effects := effects + [SendSimulatePayment(createdOrder.value.order.id)];
    }

    method OnSimulatePaymentSuccess()
      modifies this
      ensures effects == old(effects) + [Alert(PaymentSimulatedMessage)]
      ensures paymentDialogOpen == old(paymentDialogOpen) && createdOrder == old(createdOrder)
      ensures orderPaid == old(orderPaid)
    {
      effects := effects + [Alert(PaymentSimulatedMessage)];
    }

    /** `checkOrderStatus`'s `onSuccess`: a truthy result clears the cart, a falsy one leaves it. */
    method OnCheckOrderStatusSuccess(result: JsValue)
      modifies this
      ensures Truthy(result) ==> effects == old(effects) + [ClearCart]
      ensures !Truthy(result) ==> effects == old(effects)
      ensures orderPaid == Some(result)
      ensures ShowsPaid() <==> result == JsBool(true)
      ensures paymentDialogOpen == old(paymentDialogOpen) && createdOrder == old(createdOrder)
    {
      orderPaid := Some(result);
      if Truthy(result) {
        effects := effects + [ClearCart];
      }
    }

    /**
     * The reply of a `checkOrderStatus` that succeeded on the server reaching
     * the callback. The server returns the gateway's payment-request object,
     * so the cart is cleared, yet the sheet never shows the order as paid.
     */
    method ReceiveStatusReply(orders: seq<Order>, orderId: Id, isUuid: string -> bool)
      requires UniqueKeys(orders, OrderKey)
      requires CheckOrderStatus(orders, orderId, isUuid).Ok?
      modifies this
      ensures effects == old(effects) + [ClearCart]
      ensures orderPaid == Some(JsObject) && !ShowsPaid()
      ensures paymentDialogOpen == old(paymentDialogOpen) && createdOrder == old(createdOrder)
    {
      OnCheckOrderStatusSuccess(JsObject);
    }

    /** `handleClosePaymentDialog`: close both, and forget the status check. */
    method HandleClosePaymentDialog()
      modifies this
      ensures !paymentDialogOpen && orderPaid.None? && !ShowsPaid()
      ensures effects == old(effects) + [CloseSheet]
      ensures createdOrder == old(createdOrder)
    {
      paymentDialogOpen := false;
      effects := effects + [CloseSheet];
      orderPaid := None;
    }
  }
}
