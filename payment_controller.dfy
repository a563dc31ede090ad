/** The payment endpoints: issuing a payment intent for the caller's unpaid order, relaying
    webhook deliveries to the adapter, and the two landing pages after checkout. The processor
    is a parameter (`gateway` for intents, `construct` for signature checks). */
module PaymentController {
  import opened Common
  import opened Orders
  import opened StripeService

  /** The JSON answer of `createIntent`. */
  datatype IntentReply = IntentReply(code: int, message: Option<string>, clientSecret: Option<string>, paymentIntentId: Option<string>)

  /** The JSON answer of `success` and `failed`. */
  datatype LandingReply = LandingReply(code: int, message: string, order: Option<Order>)

  /** The caller's order `id` when it is still unpaid. */
  function UnpaidOwnOrder(orders: seq<Order>, userId: nat, id: nat): (r: Option<nat>)
    ensures r.Some? ==> r.value < |orders| && orders[r.value].id == id && orders[r.value].userId == userId
    ensures r.Some? ==> orders[r.value].paymentStatus == "unpaid"
    ensures r.None? ==> forall i :: 0 <= i < |orders| ==>
      !(orders[i].id == id && orders[i].userId == userId && orders[i].paymentStatus == "unpaid")
  {
    FirstIndex(orders, (o: Order) => o.id == id && o.userId == userId && o.paymentStatus == "unpaid")
  }

  /** `createIntent`: 404 unless the order is the caller's and unpaid; otherwise the
      processor's error as a 400, or its client secret and intent id as a 200. */
  function CreateIntent(s: LedgerState, userId: nat, orderId: nat, gateway: IntentRequest -> GatewayReply): (r: IntentReply)
    ensures r.code == 404 <==> UnpaidOwnOrder(s.orders, userId, orderId).None?
    ensures r.code == 404 ==> r.message == Some("Order not found or already paid")
    ensures UnpaidOwnOrder(s.orders, userId, orderId).Some? ==>
      var reply := gateway(IntentRequestFor(s.orders[UnpaidOwnOrder(s.orders, userId, orderId).value]));
      && (r.code == 400 <==> reply.ApiError?)
      && (r.code == 400 ==> r.message == Some(reply.message))
      && (r.code == 200 <==> reply.IntentCreated?)
      && (r.code == 200 ==> r.clientSecret == reply.clientSecret && r.paymentIntentId == Some(reply.intentId))
  {
    match UnpaidOwnOrder(s.orders, userId, orderId)
    case None => IntentReply(404, Some("Order not found or already paid"), None, None)
    case Some(i) =>
      match CreatePaymentIntent(s.orders[i], gateway)
      case IntentFailed(message) => IntentReply(400, Some(message), None, None)
      case IntentOk(secret, intentId) => IntentReply(200, None, secret, Some(intentId))
  }

  /** In a well-formed ledger an intent is asked for exactly when the order is the caller's
      and unpaid, and it asks the processor for that order's stored total in cents. */
  lemma CreateIntentChargesOrderTotal(s: LedgerState, userId: nat, orderId: nat, gateway: IntentRequest -> GatewayReply)
    requires LedgerInvariant(s)
    ensures UnpaidOwnOrder(s.orders, userId, orderId).Some? <==>
      1 <= orderId <= |s.orders| && s.orders[orderId - 1].userId == userId && s.orders[orderId - 1].paymentStatus == "unpaid"
    ensures UnpaidOwnOrder(s.orders, userId, orderId).Some? ==>
      var req := IntentRequestFor(s.orders[orderId - 1]);
      req.amount == s.orders[orderId - 1].totalAmount && req.orderId == orderId && req.currency == "usd"
  {
    UnpaidOwnOrderAt(s, userId, orderId);
  }

  /** In a well-formed ledger the order with id `id` sits at position `id - 1`. */
  lemma UnpaidOwnOrderAt(s: LedgerState, userId: nat, id: nat)
    requires LedgerInvariant(s)
    ensures UnpaidOwnOrder(s.orders, userId, id) ==
      if 1 <= id <= |s.orders| && s.orders[id - 1].userId == userId && s.orders[id - 1].paymentStatus == "unpaid"
      then Some(id - 1) else None
  {
    var r := UnpaidOwnOrder(s.orders, userId, id);
    if r.Some? {
      assert s.orders[r.value].id == r.value + 1;
    } else if 1 <= id <= |s.orders| {
      assert s.orders[id - 1].id == id;
    }
  }

  /** A paid order never gets a new intent, whatever the processor would answer. */
  lemma PaidOrdersGetNoIntent(s: LedgerState, userId: nat, i: nat, gateway: IntentRequest -> GatewayReply)
    requires LedgerInvariant(s) && i < |s.orders| && s.orders[i].paymentStatus == "paid"
    ensures CreateIntent(s, userId, i + 1, gateway).code == 404
  {
    UnpaidOwnOrderAt(s, userId, i + 1);
  }

  /** `handleWebhook`: the raw body and the signature header go to the adapter, whose
      result is the response. `construct` is the processor's signature check. */
  method HandleWebhook(ledger: Ledger, payload: string, signature: string, construct: (string, string) -> ConstructOutcome)
    returns (r: WebhookResult)
    requires ledger.Valid()
    modifies ledger
    ensures ledger.Valid()
    ensures (ledger.State(), r) == AfterWebhook(old(ledger.State()), construct(payload, signature))
  {
    r := HandleWebhookEvent(ledger, construct(payload, signature));
  }

  /** `Order::find($request->input('order_id'))` and the landing reply; an absent or
      non-numeric id is `None`. The order is not checked against the caller. */
  function Landing(orders: seq<Order>, orderId: Option<nat>, message: string): (r: LandingReply)
    ensures r.code == 200 <==> orderId.Some? && FindOrder(orders, orderId.value).Some?
    ensures r.code != 200 ==> r == LandingReply(404, "Order not found", None)
    ensures r.code == 200 ==> r.message == message && r.order == Some(orders[FindOrder(orders, orderId.value).value])
  {
    if orderId.None? then LandingReply(404, "Order not found", None)
    else
      match FindOrder(orders, orderId.value)
      case None => LandingReply(404, "Order not found", None)
      case Some(i) => LandingReply(200, message, Some(orders[i]))
  }

  /** `success` */
  function Success(s: LedgerState, orderId: Option<nat>): (r: LandingReply)
    ensures r.code == 200 <==> orderId.Some? && FindOrder(s.orders, orderId.value).Some?
    ensures r.code == 200 ==> r.message == "Payment successful" && r.order == Some(s.orders[FindOrder(s.orders, orderId.value).value])
    ensures r.code != 200 ==> r == LandingReply(404, "Order not found", None)
  {
    Landing(s.orders, orderId, "Payment successful")
  }

  /** `failed` */
  function Failed(s: LedgerState, orderId: Option<nat>): (r: LandingReply)
    ensures r.code == 200 <==> orderId.Some? && FindOrder(s.orders, orderId.value).Some?
    ensures r.code == 200 ==> r.message == "Payment failed" && r.order == Some(s.orders[FindOrder(s.orders, orderId.value).value])
    ensures r.code != 200 ==> r == LandingReply(404, "Order not found", None)
  {
    Landing(s.orders, orderId, "Payment failed")
  }

  /** Both landing pages report any stored order, paid or not and whoever owns it, and
      neither looks at the payment: they differ only in their message. */
  lemma LandingPagesShowAnyOrder(s: LedgerState, i: nat)
    requires LedgerInvariant(s) && i < |s.orders|
    ensures Success(s, Some(i + 1)) == LandingReply(200, "Payment successful", Some(s.orders[i]))
    ensures Failed(s, Some(i + 1)) == LandingReply(200, "Payment failed", Some(s.orders[i]))
  {
    FindOrderByPosition(s, i + 1);
  }
}
