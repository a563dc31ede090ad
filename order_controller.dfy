/** The order endpoints: checkout from the cart, the order listings, and the administrator's
    and the client's status updates. Checkout and the updates change the ledger in place and
    are proved equal to the specification functions below. */
module OrderController {
  import opened Common
  import opened Orders
  import opened Catalog
  import opened CartController
  import opened StripeService

  /** The flat shipping charge, 1.35, in cents. */
  const ShippingCost := 135

  const ServerError := Reply(500, "Server Error")

  /** The JSON `store` answers: the order and the client secret only on success. */
  datatype CheckoutReply = CheckoutReply(code: nat, message: string, order: Option<Order>, clientSecret: Option<string>)

  function Plain(r: Reply): CheckoutReply {
    CheckoutReply(r.code, r.message, None, None)
  }

  // ---------------------------------------------------------------------------
  // Checkout.

  /** The order item that snapshots one cart line: product id, name and price as they are now. */
  function SnapshotOf(line: CartLine, orderId: nat, products: map<nat, Product>): OrderItem
    requires line.productId in products
  {
    OrderItem(orderId, line.productId, products[line.productId].name, products[line.productId].price, line.quantity)
  }

  /** One order item per cart line, in cart order. */
  function Snapshot(lines: seq<CartLine>, orderId: nat, products: map<nat, Product>): (r: seq<OrderItem>)
    requires AllPriced(lines, products)
    ensures |r| == |lines|
    ensures forall i :: 0 <= i < |r| ==> r[i] == SnapshotOf(lines[i], orderId, products)
  {
    seq(|lines|, i requires 0 <= i < |lines| => SnapshotOf(lines[i], orderId, products))
  }

  /** The items' subtotals add up to the cart's total at the prices of the moment. */
  lemma {:induction false} SnapshotTotal(lines: seq<CartLine>, orderId: nat, products: map<nat, Product>)
    requires AllPriced(lines, products)
    ensures LinesTotal(lines, products).Some?
    ensures ItemsTotal(Snapshot(lines, orderId, products)) == LinesTotal(lines, products).value
  {
    LinesTotalDefined(lines, products);
    if |lines| > 0 {
      var init := lines[..|lines| - 1];
      LinesTotalDefined(init, products);
      SnapshotTotal(init, orderId, products);
      var snap := Snapshot(lines, orderId, products);
      assert snap[..|snap| - 1] == Snapshot(init, orderId, products);
    }
  }

  /** The order number is already used (the column is unique). */
  predicate NumberTaken(orders: seq<Order>, number: string) {
    exists i :: 0 <= i < |orders| && orders[i].orderNumber == number
  }

  /** The order `store` creates for a cart whose lines total `sum`. */
  function NewOrder(s: LedgerState, userId: nat, number: string, sum: int, address: string, phone: string): Order {
    Order(|s.orders| + 1, userId, number, sum + ShippingCost, ShippingCost, address, phone, "pending", "unpaid", None)
  }

  function PaymentSetupFailure(result: IntentResult): string {
    "Failed to create payment: " + (if result.IntentFailed? then result.message else "Unknown error")
  }

  /** `store`: the new ledger, the new carts and the reply. */
  function Checkout(
    s: LedgerState, carts: map<nat, seq<CartLine>>, products: map<nat, Product>, userId: nat,
    address: Field<string>, phone: Field<string>, token: string, gateway: IntentRequest -> GatewayReply)
    : (LedgerState, map<nat, seq<CartLine>>, CheckoutReply)
  {
    if !(RequiredText(address) && RequiredText(phone)) then (s, carts, Plain(Reply(422, "Validation failed")))
    else if userId !in carts || |carts[userId]| == 0 then (s, carts, Plain(Reply(422, "Cart is empty")))
    else
      var lines := carts[userId];
      LinesTotalDefined(lines, products);
      match LinesTotal(lines, products)
      case None => (s, carts, Plain(ServerError))
      case Some(sum) =>
        var number := GenerateOrderNumber(token);
        if NumberTaken(s.orders, number) then (s, carts, Plain(ServerError))
        else
          var o := NewOrder(s, userId, number, sum, address.value, phone.value);
          var placed := s.(orders := s.orders + [o], items := s.items + Snapshot(lines, o.id, products));
          var intent := CreatePaymentIntent(o, gateway);
          if intent.IntentOk? && intent.clientSecret.Some? then
            (placed, carts[userId := []], CheckoutReply(200, "Order created successfully", Some(o), intent.clientSecret))
          else
            (placed, carts, Plain(Reply(500, PaymentSetupFailure(intent))))
  }

  /** Appending the items of a new order leaves every other order's items as they were. */
  lemma ItemsOfPlaced(items: seq<OrderItem>, snap: seq<OrderItem>, newId: nat, id: nat)
    requires forall k :: 0 <= k < |items| ==> items[k].orderId < newId
    requires forall k :: 0 <= k < |snap| ==> snap[k].orderId == newId
    ensures ItemsOf(items + snap, id) == if id == newId then snap else ItemsOf(items, id)
  {
    ItemsOfAppend(items, snap, id);
    if id == newId {
      ItemsOfNone(items, id);
      ItemsOfAll(snap, id);
      assert [] + snap == snap;
    } else {
      ItemsOfNone(snap, id);
      assert ItemsOf(items, id) + [] == ItemsOf(items, id);
    }
  }

  lemma PlacedTotals(s: LedgerState, o: Order, snap: seq<OrderItem>)
    requires LedgerInvariant(s) && o.id == |s.orders| + 1
    requires forall k :: 0 <= k < |snap| ==> snap[k].orderId == o.id
    requires o.totalAmount == ItemsTotal(snap) + o.shippingCost
    ensures var orders, items := s.orders + [o], s.items + snap;
      forall i :: 0 <= i < |orders| ==> orders[i].totalAmount == ItemsTotal(ItemsOf(items, i + 1)) + orders[i].shippingCost
  {
    forall i | 0 <= i < |s.orders| + 1
      ensures (s.orders + [o])[i].totalAmount == ItemsTotal(ItemsOf(s.items + snap, i + 1)) + (s.orders + [o])[i].shippingCost
    {
      PlacedTotalAt(s, o, snap, i);
    }
  }

  lemma PlacedTotalAt(s: LedgerState, o: Order, snap: seq<OrderItem>, i: nat)
    requires LedgerInvariant(s) && o.id == |s.orders| + 1 && i <= |s.orders|
    requires forall k :: 0 <= k < |snap| ==> snap[k].orderId == o.id
    requires o.totalAmount == ItemsTotal(snap) + o.shippingCost
    ensures (s.orders + [o])[i].totalAmount == ItemsTotal(ItemsOf(s.items + snap, i + 1)) + (s.orders + [o])[i].shippingCost
  {
    ItemsOfPlaced(s.items, snap, o.id, i + 1);
    if i < |s.orders| {
      assert (s.orders + [o])[i] == s.orders[i];
    } else {
      assert (s.orders + [o])[i] == o;
    }
  }

  lemma PlaceOrderKeepsInvariant(s: LedgerState, o: Order, lines: seq<CartLine>, products: map<nat, Product>)
    requires LedgerInvariant(s) && AllPriced(lines, products)
    requires o.id == |s.orders| + 1 && !NumberTaken(s.orders, o.orderNumber)
    requires LinesTotal(lines, products).Some? && o.totalAmount == LinesTotal(lines, products).value + o.shippingCost
    requires o.status == "pending" && o.paymentStatus == "unpaid"
    ensures LedgerInvariant(s.(orders := s.orders + [o], items := s.items + Snapshot(lines, o.id, products)))
  {
    var snap := Snapshot(lines, o.id, products);
    SnapshotTotal(lines, o.id, products);
    PlacedTotals(s, o, snap);
    PlacedOrders(s, o);
    PlacedItems(s.items, snap, o.id);
  }

  /** The appended order keeps ids positional, numbers distinct and statuses valid. */
  lemma PlacedOrders(s: LedgerState, o: Order)
    requires LedgerInvariant(s)
    requires o.id == |s.orders| + 1 && !NumberTaken(s.orders, o.orderNumber)
    requires o.status == "pending" && o.paymentStatus == "unpaid"
    ensures var orders := s.orders + [o];
      && (forall i :: 0 <= i < |orders| ==> orders[i].id == i + 1)
      && (forall i, j :: 0 <= i < j < |orders| ==> orders[i].orderNumber != orders[j].orderNumber)
      && (forall i :: 0 <= i < |orders| ==> orders[i].status in OrderStatuses && orders[i].paymentStatus in PaymentStatuses)
  {
    var orders := s.orders + [o];
    forall i, j | 0 <= i < j < |orders|
      ensures orders[i].orderNumber != orders[j].orderNumber
    {
      assert orders[i] == s.orders[i];
      if j < |s.orders| {
        assert orders[j] == s.orders[j];
      }
    }
  }

  /** The items of a new order with id `newId` refer to an order at most `newId`. */
  lemma PlacedItems(items: seq<OrderItem>, snap: seq<OrderItem>, newId: nat)
    requires newId >= 1 && forall k :: 0 <= k < |items| ==> 1 <= items[k].orderId < newId
    requires forall k :: 0 <= k < |snap| ==> snap[k].orderId == newId
    ensures forall k :: 0 <= k < |items + snap| ==> 1 <= (items + snap)[k].orderId <= newId
  {
    forall k | 0 <= k < |items + snap|
      ensures 1 <= (items + snap)[k].orderId <= newId
    {
      if k >= |items| {
        assert (items + snap)[k] == snap[k - |items|];
      } else {
        assert (items + snap)[k] == items[k];
      }
    }
  }

  lemma CheckoutKeepsInvariant(
    s: LedgerState, carts: map<nat, seq<CartLine>>, products: map<nat, Product>, userId: nat,
    address: Field<string>, phone: Field<string>, token: string, gateway: IntentRequest -> GatewayReply)
    requires LedgerInvariant(s)
    ensures LedgerInvariant(Checkout(s, carts, products, userId, address, phone, token, gateway).0)
  {
    if RequiredText(address) && RequiredText(phone) && userId in carts && |carts[userId]| > 0 {
      var lines := carts[userId];
      LinesTotalDefined(lines, products);
      if LinesTotal(lines, products).Some? && !NumberTaken(s.orders, GenerateOrderNumber(token)) {
        var o := NewOrder(s, userId, GenerateOrderNumber(token), LinesTotal(lines, products).value, address.value, phone.value);
        PlaceOrderKeepsInvariant(s, o, lines, products);
      }
    }
  }

  /** Checkout refuses, writing nothing, when the address or phone is missing or the cart is
      absent or empty. */
  lemma CheckoutRejections(
    s: LedgerState, carts: map<nat, seq<CartLine>>, products: map<nat, Product>, userId: nat,
    address: Field<string>, phone: Field<string>, token: string, gateway: IntentRequest -> GatewayReply)
    requires !RequiredText(address) || !RequiredText(phone) || userId !in carts || carts[userId] == []
    ensures var (t, c, r) := Checkout(s, carts, products, userId, address, phone, token, gateway);
      t == s && c == carts && r.code == 422 && r.order == None
  {
  }

  /** A checkout that gets past validation and the cart check, whose lines all have products
      and whose order number is free, creates exactly one order: pending, unpaid, owned by the
      caller, with total the cart's total plus 1.35, and one item per cart line. Whether or
      not the intent succeeds the order and its items stay; only on success is the cart emptied,
      and the reply carries the processor's client secret. */
  lemma CheckoutPlacesOrder(
    s: LedgerState, carts: map<nat, seq<CartLine>>, products: map<nat, Product>, userId: nat,
    address: Field<string>, phone: Field<string>, token: string, gateway: IntentRequest -> GatewayReply)
    requires LedgerInvariant(s)
    requires RequiredText(address) && RequiredText(phone) && userId in carts && |carts[userId]| > 0
    requires AllPriced(carts[userId], products) && !NumberTaken(s.orders, GenerateOrderNumber(token))
    ensures var (t, c, r) := Checkout(s, carts, products, userId, address, phone, token, gateway);
      var lines := carts[userId];
      && |t.orders| == |s.orders| + 1 && t.orders[..|s.orders|] == s.orders && t.payments == s.payments
      && var o := t.orders[|s.orders|];
      && o.id == |s.orders| + 1 && o.userId == userId && o.orderNumber == GenerateOrderNumber(token)
      && o.shippingAddress == address.value && o.phone == phone.value
      && o.status == "pending" && o.paymentStatus == "unpaid" && o.transactionId == None
      && o.shippingCost == ShippingCost
      && LinesTotal(lines, products).Some? && o.totalAmount == LinesTotal(lines, products).value + ShippingCost
      && ItemsOf(t.items, o.id) == Snapshot(lines, o.id, products)
      && (forall id :: 1 <= id <= |s.orders| ==> ItemsOf(t.items, id) == ItemsOf(s.items, id))
      && var reply := gateway(IntentRequestFor(o));
      && (reply.IntentCreated? && reply.clientSecret.Some? ==>
            c == carts[userId := []] && r == CheckoutReply(200, "Order created successfully", Some(o), reply.clientSecret))
      && (!(reply.IntentCreated? && reply.clientSecret.Some?) ==>
            c == carts && r.code == 500 && r.order == None &&
            r.message == "Failed to create payment: " + (if reply.ApiError? then reply.message else "Unknown error"))
  {
    var lines := carts[userId];
    LinesTotalDefined(lines, products);
    var o := NewOrder(s, userId, GenerateOrderNumber(token), LinesTotal(lines, products).value, address.value, phone.value);
    var snap := Snapshot(lines, o.id, products);
    var placed := s.(orders := s.orders + [o], items := s.items + snap);
    var intent := CreatePaymentIntent(o, gateway);
    assert Checkout(s, carts, products, userId, address, phone, token, gateway) ==
      if intent.IntentOk? && intent.clientSecret.Some?
      then (placed, carts[userId := []], CheckoutReply(200, "Order created successfully", Some(o), intent.clientSecret))
      else (placed, carts, Plain(Reply(500, PaymentSetupFailure(intent))));
    assert (s.orders + [o])[..|s.orders|] == s.orders;
    PlacedItemsOf(s.items, snap, o.id);
  }

  /** After appending the items of order `newId`, that order's items are exactly the new
      ones and every earlier order's items are unchanged. */
  lemma PlacedItemsOf(items: seq<OrderItem>, snap: seq<OrderItem>, newId: nat)
    requires forall k :: 0 <= k < |items| ==> items[k].orderId < newId
    requires forall k :: 0 <= k < |snap| ==> snap[k].orderId == newId
    ensures ItemsOf(items + snap, newId) == snap
    ensures forall id :: 1 <= id < newId ==> ItemsOf(items + snap, id) == ItemsOf(items, id)
  {
    ItemsOfPlaced(items, snap, newId, newId);
    forall id | 1 <= id < newId
      ensures ItemsOf(items + snap, id) == ItemsOf(items, id)
    {
      ItemsOfPlaced(items, snap, newId, id);
    }
  }

  /** The loop of `store` that creates one order item per cart line. */
  method CreateItems(ledger: Ledger, orderId: nat, lines: seq<CartLine>, products: map<nat, Product>)
    requires AllPriced(lines, products)
    modifies ledger`items
    ensures ledger.items == old(ledger.items) + Snapshot(lines, orderId, products)
  {
    var i := 0;
    while i < |lines|
      invariant 0 <= i <= |lines|
      invariant ledger.items == old(ledger.items) + Snapshot(lines[..i], orderId, products)
    {
      var line := lines[i];
      var product := products[line.productId];
      assert Snapshot(lines[..i + 1], orderId, products) == Snapshot(lines[..i], orderId, products) + [SnapshotOf(line, orderId, products)];
      ledger.items := ledger.items + [OrderItem(orderId, line.productId, product.name, product.price, line.quantity)];
      i := i + 1;
    }
    assert lines[..i] == lines;
  }

  /** The writes of `store`: the order row, then one item row per cart line. */
  method PlaceOrder(ledger: Ledger, order: Order, lines: seq<CartLine>, products: map<nat, Product>)
    requires AllPriced(lines, products)
    modifies ledger`orders, ledger`items
    ensures ledger.State() == old(ledger.State()).(orders := old(ledger.orders) + [order],
                                                   items := old(ledger.items) + Snapshot(lines, order.id, products))
  {
    ledger.orders := ledger.orders + [order];
    CreateItems(ledger, order.id, lines, products);
  }

  /** `store`, in place. `products` is the catalog's products table, which it only reads. */
  method Store(
    ledger: Ledger, store: CartStore, products: map<nat, Product>, userId: nat,
    address: Field<string>, phone: Field<string>, token: string, gateway: IntentRequest -> GatewayReply)
    returns (r: CheckoutReply)
    requires ledger.Valid() && store.Valid()
    modifies ledger, store`carts
    ensures (ledger.State(), store.carts, r) ==
      Checkout(old(ledger.State()), old(store.carts), products, userId, address, phone, token, gateway)
    ensures ledger.Valid() && store.Valid()
  {
    ghost var s0 := ledger.State();
    if !(RequiredText(address) && RequiredText(phone)) {
      return Plain(Reply(422, "Validation failed"));
    }
    if userId !in store.carts || |store.carts[userId]| == 0 {
      return Plain(Reply(422, "Cart is empty"));
    }
    var lines := store.carts[userId];
    var total := SumLines(lines, products);
    if total.None? {
      return Plain(ServerError);
    }
    var number := GenerateOrderNumber(token);
    if NumberTaken(ledger.orders, number) {
      return Plain(ServerError);
    }
    LinesTotalDefined(lines, products);
    var order := NewOrder(ledger.State(), userId, number, total.value, address.value, phone.value);
    PlaceOrder(ledger, order, lines, products);
    PlaceOrderKeepsInvariant(s0, order, lines, products);
    var intent := CreatePaymentIntent(order, gateway);
    if !(intent.IntentOk? && intent.clientSecret.Some?) {
      return Plain(Reply(500, PaymentSetupFailure(intent)));
    }
    PutKeepsWellFormed(store.carts, userId, [], store.nextLineId, store.nextLineId);
    store.carts := store.carts[userId := []];
    r := CheckoutReply(200, "Order created successfully", Some(order), intent.clientSecret);
  }

  // ---------------------------------------------------------------------------
  // Listings.

  /** The orders of `orders` (kept in creation order) that satisfy `keep`, newest first. */
  function NewestOrders(orders: seq<Order>, keep: Order -> bool): (r: seq<Order>)
    ensures forall o :: o in r <==> o in orders && keep(o)
  {
    if |orders| == 0 then []
    else NewestOrders(orders[1..], keep) + (if keep(orders[0]) then [orders[0]] else [])
  }

  lemma {:induction false} NewestOrdersDescending(orders: seq<Order>, keep: Order -> bool)
    requires forall i, j :: 0 <= i < j < |orders| ==> orders[i].id < orders[j].id
    ensures forall i, j :: 0 <= i < j < |NewestOrders(orders, keep)| ==> NewestOrders(orders, keep)[i].id > NewestOrders(orders, keep)[j].id
  {
    if |orders| > 0 {
      var first, tail := orders[0], orders[1..];
      NewestOrdersDescending(tail, keep);
      var rest := NewestOrders(tail, keep);
      forall k | 0 <= k < |rest| ensures rest[k].id > first.id {
        assert rest[k] in tail;
        var m :| 0 <= m < |tail| && tail[m] == rest[k];
        assert orders[m + 1] == rest[k];
      }
      var r := rest + (if keep(first) then [first] else []);
      forall i, j | 0 <= i < j < |r| ensures r[i].id > r[j].id {
        assert r[i] == rest[i];
        if j < |rest| {
          assert r[j] == rest[j];
        } else {
          assert keep(first) && r[j] == first;
        }
      }
    }
  }

  /** The `allOrders` filter: a truthy status other than "all" keeps that status only. */
  predicate Filters(status: Option<string>) {
    status.Some? && Truthy(status.value) && status.value != "all"
  }

  /** `allOrders`: every order, or those with the requested status, newest first. */
  function AllOrders(orders: seq<Order>, status: Option<string>): (r: seq<Order>)
    ensures !Filters(status) ==> forall o :: o in r <==> o in orders
    ensures Filters(status) ==> forall o :: o in r <==> o in orders && o.status == status.value
  {
    NewestOrders(orders, (o: Order) => !Filters(status) || o.status == status.value)
  }

  /** Under the ledger invariant the listing is in strictly decreasing id order. */
  lemma AllOrdersNewestFirst(s: LedgerState, status: Option<string>)
    requires LedgerInvariant(s)
    ensures forall i, j :: 0 <= i < j < |AllOrders(s.orders, status)| ==> AllOrders(s.orders, status)[i].id > AllOrders(s.orders, status)[j].id
  {
    NewestOrdersDescending(s.orders, (o: Order) => !Filters(status) || o.status == status.value);
  }

  /** `index`: the caller's orders, newest first. */
  function UserOrders(orders: seq<Order>, userId: nat): (r: seq<Order>)
    ensures forall o :: o in r <==> o in orders && o.userId == userId
  {
    NewestOrders(orders, (o: Order) => o.userId == userId)
  }

  /** `Order::where('id', ...)->where('user_id', ...)->first()` */
  function OwnOrder(orders: seq<Order>, userId: nat, id: nat): (r: Option<nat>)
    ensures r.Some? ==> r.value < |orders| && orders[r.value].id == id && orders[r.value].userId == userId
    ensures r.None? ==> forall i :: 0 <= i < |orders| ==> !(orders[i].id == id && orders[i].userId == userId)
  {
    FirstIndex(orders, (o: Order) => o.id == id && o.userId == userId)
  }

  /** `show`: the caller's order with its items and its payment, or 404. */
  function Show(s: LedgerState, userId: nat, id: nat): (r: (Reply, Option<(Order, seq<OrderItem>, Option<Payment>)>))
    ensures r.0.code == 404 <==> forall i :: 0 <= i < |s.orders| ==> !(s.orders[i].id == id && s.orders[i].userId == userId)
    ensures r.0.code != 404 ==> r.1.Some?
    ensures r.1.Some? ==> r.1.value.0 in s.orders && r.1.value.0.userId == userId && r.1.value.0.id == id
    ensures r.1.Some? ==> r.1.value.1 == ItemsOf(s.items, id) && r.1.value.2 == PaymentOf(s.payments, id)
  {
    match OwnOrder(s.orders, userId, id)
    case None => (Reply(404, "Order not found"), None)
    case Some(i) => (Reply(200, ""), Some((s.orders[i], ItemsOf(s.items, id), PaymentOf(s.payments, id))))
  }

  /** `adminShowOrder`: any order with its items, whoever owns it, or 404. */
  function AdminShowOrder(s: LedgerState, id: nat): (r: (Reply, Option<(Order, seq<OrderItem>)>))
    ensures r.0.code == 404 <==> forall i :: 0 <= i < |s.orders| ==> s.orders[i].id != id
    ensures r.0.code != 404 ==> r.1.Some?
    ensures r.1.Some? ==> r.1.value.0 in s.orders && r.1.value.0.id == id && r.1.value.1 == ItemsOf(s.items, id)
  {
    match FindOrder(s.orders, id)
    case None => (Reply(404, "Order not found"), None)
    case Some(i) => (Reply(200, ""), Some((s.orders[i], ItemsOf(s.items, id))))
  }

  /** Under the ledger invariant the caller's listing is in strictly decreasing id order. */
  lemma UserOrdersNewestFirst(s: LedgerState, userId: nat)
    requires LedgerInvariant(s)
    ensures forall i, j :: 0 <= i < j < |UserOrders(s.orders, userId)| ==> UserOrders(s.orders, userId)[i].id > UserOrders(s.orders, userId)[j].id
  {
    NewestOrdersDescending(s.orders, (o: Order) => o.userId == userId);
  }

  // ---------------------------------------------------------------------------
  // Status updates.

  /** `updateStatus` (administrator). */
  function AdminStatusUpdate(s: LedgerState, id: nat, status: Field<string>): (LedgerState, Reply) {
    if !(status.Given? && status.value in AdminStatuses) then (s, Reply(422, "Invalid status"))
    else
      match FindOrder(s.orders, id)
      case None => (s, Reply(404, "Order not found"))
      case Some(i) => (Amend(s, i, s.orders[i].(status := status.value), []), Reply(200, "Order status updated successfully"))
  }

  /** An invalid status gives 422 and an unknown id 404, both writing nothing; otherwise only
      that order's `status` changes. */
  lemma AdminStatusUpdateEffect(s: LedgerState, id: nat, status: Field<string>)
    requires LedgerInvariant(s)
    ensures var (t, r) := AdminStatusUpdate(s, id, status);
      && LedgerInvariant(t)
      && (!(status.Given? && status.value in AdminStatuses) ==> t == s && r.code == 422)
      && (status.Given? && status.value in AdminStatuses && !(1 <= id <= |s.orders|) ==> t == s && r.code == 404)
      && (status.Given? && status.value in AdminStatuses && 1 <= id <= |s.orders| ==>
            r.code == 200 && t.items == s.items && t.payments == s.payments &&
            t.orders == s.orders[id - 1 := s.orders[id - 1].(status := status.value)])
  {
    FindOrderByPosition(s, id);
    if status.Given? && status.value in AdminStatuses && 1 <= id <= |s.orders| {
      AmendKeepsInvariant(s, id - 1, s.orders[id - 1].(status := status.value), []);
    }
  }

  method UpdateStatus(ledger: Ledger, id: nat, status: Field<string>) returns (r: Reply)
    requires ledger.Valid()
    modifies ledger
    ensures ledger.Valid()
    ensures (ledger.State(), r) == AdminStatusUpdate(old(ledger.State()), id, status)
  {
    AdminStatusUpdateEffect(ledger.State(), id, status);
    if !(status.Given? && status.value in AdminStatuses) {
      return Reply(422, "Invalid status");
    }
    var found := FindOrder(ledger.orders, id);
    if found.None? {
      return Reply(404, "Order not found");
    }
    var order := ledger.orders[found.value];
    order := order.(status := status.value);
    ledger.orders := ledger.orders[found.value := order];
    r := Reply(200, "Order status updated successfully");
  }

  /** `Payment::updateOrCreate(['order_id' => ...], [...])`: the order's first payment row is
      overwritten (its response data kept), or a row is appended when it has none. */
  function RecordClientPayment(payments: seq<Payment>, o: Order, transactionId: string): seq<Payment> {
    match PaymentIndex(payments, o.id)
    case Some(k) =>
      payments[k := payments[k].(transactionId := transactionId, amount := o.totalAmount, currency := "USD",
                                 paymentMethod := "stripe", status := "success")]
    case None => payments + [Payment(o.id, transactionId, o.totalAmount, "USD", "stripe", "success", None)]
  }

  function PaymentIndex(payments: seq<Payment>, orderId: nat): (r: Option<nat>)
    ensures r.Some? ==> r.value < |payments| && payments[r.value].orderId == orderId
    ensures r.Some? ==> forall j :: 0 <= j < r.value ==> payments[j].orderId != orderId
    ensures r.None? ==> forall j :: 0 <= j < |payments| ==> payments[j].orderId != orderId
  {
    FirstIndex(payments, (p: Payment) => p.orderId == orderId)
  }

  /** After the upsert the order's payment is a `success` row with the reported transaction id
      and the order's total; at most one row is added; no other order's rows change. */
  lemma RecordClientPaymentEffect(payments: seq<Payment>, o: Order, transactionId: string)
    ensures var r := RecordClientPayment(payments, o, transactionId);
      && |r| == |payments| + (if PaymentIndex(payments, o.id).Some? then 0 else 1)
      && (forall j :: 0 <= j < |payments| && payments[j].orderId != o.id ==> r[j] == payments[j])
      && (forall j :: 0 <= j < |r| ==> r[j].orderId == (if j < |payments| then payments[j].orderId else o.id))
      && var p := PaymentOf(r, o.id);
      && p.Some? && p.value.transactionId == transactionId && p.value.amount == o.totalAmount
      && p.value.status == "success" && p.value.currency == "USD"
  {
    var r := RecordClientPayment(payments, o, transactionId);
    match PaymentIndex(payments, o.id) {
      case Some(k) =>
        assert r[k].orderId == o.id;
        assert PaymentIndex(r, o.id) == Some(k);
      case None =>
        assert r[|payments|].orderId == o.id;
        assert PaymentIndex(r, o.id) == Some(|payments|);
    }
  }

  lemma ReplacePaymentsKeepsInvariant(s: LedgerState, payments: seq<Payment>)
    requires LedgerInvariant(s)
    requires forall k :: 0 <= k < |payments| ==> 1 <= payments[k].orderId <= |s.orders|
    ensures LedgerInvariant(s.(payments := payments))
  {
  }

  predicate ClientUpdateAccepted(status: Field<string>, paymentStatus: Field<string>, transactionId: Field<string>) {
    && status.Given? && status.value in AdminStatuses
    && paymentStatus.Given? && paymentStatus.value in ClientPaymentStatuses
    && Nullable(transactionId)
  }

  /** `if ($request->transaction_id)` */
  predicate Supplied(transactionId: Field<string>) {
    transactionId.Given? && Truthy(transactionId.value)
  }

  /** `updateUserOrderStatus` (client). */
  function ClientStatusUpdate(s: LedgerState, userId: nat, id: nat, status: Field<string>, paymentStatus: Field<string>, transactionId: Field<string>)
    : (LedgerState, Reply)
  {
    if !ClientUpdateAccepted(status, paymentStatus, transactionId) then (s, Reply(422, "Invalid status parameters"))
    else
      match OwnOrder(s.orders, userId, id)
      case None => (s, Reply(404, "Order not found"))
      case Some(i) =>
        var o := s.orders[i].(status := status.value, paymentStatus := paymentStatus.value,
                              transactionId := if Supplied(transactionId) then Some(transactionId.value) else s.orders[i].transactionId);
        var payments := if paymentStatus.value == "paid" && Supplied(transactionId)
                        then RecordClientPayment(s.payments, o, transactionId.value) else s.payments;
        (s.(orders := s.orders[i := o], payments := payments), Reply(200, "Order status updated successfully"))
  }

  /** Upserting a payment row for a stored order keeps the ledger invariant. */
  lemma RecordClientPaymentKeepsInvariant(s: LedgerState, o: Order, transactionId: string)
    requires LedgerInvariant(s) && 1 <= o.id <= |s.orders|
    ensures LedgerInvariant(s.(payments := RecordClientPayment(s.payments, o, transactionId)))
  {
    RecordClientPaymentEffect(s.payments, o, transactionId);
    ReplacePaymentsKeepsInvariant(s, RecordClientPayment(s.payments, o, transactionId));
  }

  /** The client update keeps the ledger invariant and never touches order lines. */
  lemma ClientStatusUpdateKeepsInvariant(s: LedgerState, userId: nat, id: nat, status: Field<string>, paymentStatus: Field<string>, transactionId: Field<string>)
    requires LedgerInvariant(s)
    ensures var t := ClientStatusUpdate(s, userId, id, status, paymentStatus, transactionId).0;
      LedgerInvariant(t) && t.items == s.items && |t.orders| == |s.orders|
  {
    if ClientUpdateAccepted(status, paymentStatus, transactionId) && OwnOrder(s.orders, userId, id).Some? {
      var i := OwnOrder(s.orders, userId, id).value;
      var o := s.orders[i].(status := status.value, paymentStatus := paymentStatus.value,
                            transactionId := if Supplied(transactionId) then Some(transactionId.value) else s.orders[i].transactionId);
      AmendKeepsInvariant(s, i, o, []);
      var amended := s.(orders := s.orders[i := o]);
      assert Amend(s, i, o, []) == amended by {
        assert s.payments + [] == s.payments;
      }
      if paymentStatus.value == "paid" && Supplied(transactionId) {
        RecordClientPaymentKeepsInvariant(amended, o, transactionId.value);
      }
    }
  }

  /** The client update acts only on the caller's own order; it sets both statuses, keeps the
      transaction id unless a truthy one is supplied, and touches payments only when reporting
      `paid` with a transaction id. */
  lemma ClientStatusUpdateEffect(s: LedgerState, userId: nat, id: nat, status: Field<string>, paymentStatus: Field<string>, transactionId: Field<string>)
    requires LedgerInvariant(s)
    ensures var (t, r) := ClientStatusUpdate(s, userId, id, status, paymentStatus, transactionId);
      && (!ClientUpdateAccepted(status, paymentStatus, transactionId) ==> t == s && r.code == 422)
      && (ClientUpdateAccepted(status, paymentStatus, transactionId) && OwnOrder(s.orders, userId, id).None? ==> t == s && r.code == 404)
      && (ClientUpdateAccepted(status, paymentStatus, transactionId) && OwnOrder(s.orders, userId, id).Some? ==>
            var i := OwnOrder(s.orders, userId, id).value;
            && r.code == 200 && i == id - 1
            && t.items == s.items && |t.orders| == |s.orders|
            && (forall j :: 0 <= j < |s.orders| && j != i ==> t.orders[j] == s.orders[j])
            && t.orders[i] == s.orders[i].(status := status.value, paymentStatus := paymentStatus.value,
                 transactionId := if Supplied(transactionId) then Some(transactionId.value) else s.orders[i].transactionId)
            && (paymentStatus.value == "paid" && Supplied(transactionId) ==>
                  t.payments == RecordClientPayment(s.payments, t.orders[i], transactionId.value))
            && (!(paymentStatus.value == "paid" && Supplied(transactionId)) ==> t.payments == s.payments))
  {
    if ClientUpdateAccepted(status, paymentStatus, transactionId) && OwnOrder(s.orders, userId, id).Some? {
      FindOrderByPosition(s, id);
    }
  }

  /** Nothing stops a client from reporting a paid order as unpaid again. */
  lemma ClientMayResetPaidOrder(s: LedgerState, userId: nat, i: nat, status: string)
    requires LedgerInvariant(s) && i < |s.orders| && s.orders[i].userId == userId && s.orders[i].paymentStatus == "paid"
    requires status in AdminStatuses
    ensures var t := ClientStatusUpdate(s, userId, i + 1, Given(status), Given("unpaid"), Absent).0;
      t.orders[i].paymentStatus == "unpaid"
  {
    assert OwnOrder(s.orders, userId, i + 1) == Some(i) by {
      var r := OwnOrder(s.orders, userId, i + 1);
      assert s.orders[i].id == i + 1;
      assert r.Some?;
      assert s.orders[r.value].id == r.value + 1;
    }
  }

  method UpdateUserOrderStatus(ledger: Ledger, userId: nat, id: nat, status: Field<string>, paymentStatus: Field<string>, transactionId: Field<string>)
    returns (r: Reply)
    requires ledger.Valid()
    modifies ledger
    ensures ledger.Valid()
    ensures (ledger.State(), r) == ClientStatusUpdate(old(ledger.State()), userId, id, status, paymentStatus, transactionId)
  {
    ClientStatusUpdateKeepsInvariant(ledger.State(), userId, id, status, paymentStatus, transactionId);
    if !ClientUpdateAccepted(status, paymentStatus, transactionId) {
      return Reply(422, "Invalid status parameters");
    }
    var found := OwnOrder(ledger.orders, userId, id);
    if found.None? {
      return Reply(404, "Order not found");
    }
    var order := ledger.orders[found.value];
    order := order.(status := status.value);
    order := order.(paymentStatus := paymentStatus.value);
    if Supplied(transactionId) {
      order := order.(transactionId := Some(transactionId.value));
    }
    ledger.orders := ledger.orders[found.value := order];
    if paymentStatus.value == "paid" && Supplied(transactionId) {
      var k := PaymentIndex(ledger.payments, order.id);
      if k.Some? {
        var row := ledger.payments[k.value];
        row := row.(transactionId := transactionId.value, amount := order.totalAmount, currency := "USD",
                    paymentMethod := "stripe", status := "success");
        ledger.payments := ledger.payments[k.value := row];
      } else {
        ledger.payments := ledger.payments + [Payment(order.id, transactionId.value, order.totalAmount, "USD", "stripe", "success", None)];
      }
    }
    r := Reply(200, "Order status updated successfully");
  }
}
