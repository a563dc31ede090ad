/** The payment-processor adapter and the webhook reconciler. The processor is an
    oracle: intent creation is a function from the request to the processor's reply,
    and signature checking is the outcome it hands back. The handlers change the
    ledger in place and are proved equal to the specification functions below. */
module StripeService {
  import opened Common
  import opened Orders

  // ---------------------------------------------------------------------------
  // Amount conversion. A column amount of `c` cents has the value `c / 100`.

  /** PHP's `(int)` cast of a float: truncation toward zero. */
  function Truncate(x: real): (n: int)
    ensures x >= 0.0 ==> n as real <= x < n as real + 1.0
    ensures x < 0.0 ==> n as real - 1.0 < x <= n as real
  {
    if x >= 0.0 then x.Floor else -((-x).Floor)
  }

  function FormatAmountForStripe(amount: real): int {
    Truncate(amount * 100.0)
  }

  function FormatAmountFromStripe(minor: int): real {
    minor as real / 100.0
  }

  /** An amount with no fraction of a cent. */
  predicate WholeCents(amount: real) {
    (amount * 100.0).Floor as real == amount * 100.0
  }

  lemma TruncateWhole(c: int)
    ensures Truncate(c as real) == c
  {
    var n := Truncate(c as real);
    if c >= 0 {
      assert n as real <= c as real < n as real + 1.0;
    } else {
      assert n as real - 1.0 < c as real <= n as real;
    }
  }

  /** Converting a stored amount to minor units gives its cents. */
  lemma ForStripeOfStoredAmount(cents: int)
    ensures FormatAmountForStripe(cents as real / 100.0) == cents
  {
    assert cents as real / 100.0 * 100.0 == cents as real;
    TruncateWhole(cents);
  }

  /** Minor units to amount and back is the identity, and the amount is exactly the
      stored amount of that many cents. */
  lemma MinorUnitsRoundTrip(minor: int)
    ensures FormatAmountForStripe(FormatAmountFromStripe(minor)) == minor
  {
    ForStripeOfStoredAmount(minor);
  }

  /** For a whole-cent amount, to minor units and back returns the amount. */
  lemma WholeCentsRoundTrip(amount: real)
    requires WholeCents(amount)
    ensures FormatAmountFromStripe(FormatAmountForStripe(amount)) == amount
  {
    var c := (amount * 100.0).Floor;
    TruncateWhole(c);
    assert FormatAmountForStripe(amount) == c;
  }

  // ---------------------------------------------------------------------------
  // Payment intents.

  /** What the adapter sends to the processor. */
  datatype IntentRequest = IntentRequest(amount: int, currency: string, orderId: nat, orderNumber: string)

  /** What the processor answers: an intent (whose client secret may be null), or an API
      error with its message. */
  datatype GatewayReply = IntentCreated(clientSecret: Option<string>, intentId: string) | ApiError(message: string)

  /** What `createPaymentIntent` returns to its caller. */
  datatype IntentResult = IntentOk(clientSecret: Option<string>, paymentIntentId: string) | IntentFailed(message: string)

  function IntentRequestFor(order: Order): (req: IntentRequest)
    ensures req.amount == order.totalAmount
    ensures req.currency == "usd"
    ensures req.orderId == order.id && req.orderNumber == order.orderNumber
  {
    ForStripeOfStoredAmount(order.totalAmount);
    IntentRequest(FormatAmountForStripe(order.totalAmount as real / 100.0), "usd", order.id, order.orderNumber)
  }

  function CreatePaymentIntent(order: Order, gateway: IntentRequest -> GatewayReply): (r: IntentResult)
    ensures r.IntentOk? <==> gateway(IntentRequestFor(order)).IntentCreated?
    ensures r.IntentOk? ==> gateway(IntentRequestFor(order)) == IntentCreated(r.clientSecret, r.paymentIntentId)
    ensures r.IntentFailed? ==> gateway(IntentRequestFor(order)) == ApiError(r.message)
  {
    match gateway(IntentRequestFor(order))
    case IntentCreated(secret, id) => IntentOk(secret, id)
    case ApiError(message) => IntentFailed(message)
  }

  // ---------------------------------------------------------------------------
  // Webhook events.

  /** The `data.object` of an event, with every field a handler reads: a payment intent
      carries `metadataOrderId`, a charge `paymentIntent` and `amountRefunded`; `snapshot`
      is the whole object, kept opaque. Amounts are minor units. Metadata values are
      strings at the processor; `Some(0)` stands for the falsy "0". */
  datatype StripeObject = StripeObject(
    id: string,
    amount: int,
    amountRefunded: int,
    currency: string,
    metadataOrderId: Option<nat>,
    paymentIntent: Option<string>,
    snapshot: string)

  datatype Event = Event(eventType: string, data: StripeObject)

  /** What signature verification hands back. */
  datatype ConstructOutcome = Verified(event: Event) | InvalidPayload | InvalidSignature

  /** The acknowledgement returned to the processor. */
  datatype WebhookResult = WebhookResult(success: bool, message: string, order: Option<Order>)

  /** The three payment-intent outcomes with a handler of their own. */
  datatype IntentOutcome = Succeeded | Failed | Canceled

  /** `$paymentIntent->metadata->order_id ?? null`, then the falsy test. */
  function OrderIdOf(obj: StripeObject): Option<nat> {
    match obj.metadataOrderId
    case Some(k) => if k == 0 then None else Some(k)
    case None => None
  }

  /** The fields a handler sets on the order. */
  function Settle(o: Order, pi: StripeObject, outcome: IntentOutcome): Order {
    match outcome
    case Succeeded => o.(paymentStatus := "paid", status := "processing", transactionId := Some(pi.id))
    case Failed => o.(paymentStatus := "failed")
    case Canceled => o.(paymentStatus := "canceled", status := "canceled")
  }

  function RowStatus(outcome: IntentOutcome): string {
    match outcome
    case Succeeded => "success"
    case Failed => "failed"
    case Canceled => "canceled"
  }

  function Confirmation(outcome: IntentOutcome): string {
    match outcome
    case Succeeded => "Payment successful"
    case Failed => "Payment failure recorded"
    case Canceled => "Payment cancellation recorded"
  }

  /** The evidence row a handler appends. `formatAmountFromStripe(m)` is `m / 100`, which the
      decimal column stores exactly as `m` cents (MinorUnitsRoundTrip). */
  function Evidence(orderId: nat, transactionId: string, minor: int, currency: string, status: string, snapshot: string): Payment {
    Payment(orderId, transactionId, minor, currency, "stripe", status, Some(snapshot))
  }

  /** `handleSuccessfulPayment`, `handleFailedPayment` and `handleCanceledPayment`. */
  function AfterIntentEvent(s: LedgerState, pi: StripeObject, outcome: IntentOutcome): (LedgerState, WebhookResult) {
    match OrderIdOf(pi)
    case None => (s, WebhookResult(false, "No order ID found", None))
    case Some(id) =>
      match FindOrder(s.orders, id)
      case None => (s, WebhookResult(false, "Order not found", None))
      case Some(i) =>
        var o := Settle(s.orders[i], pi, outcome);
        (Amend(s, i, o, [Evidence(o.id, pi.id, pi.amount, pi.currency, RowStatus(outcome), pi.snapshot)]),
         WebhookResult(true, Confirmation(outcome), Some(o)))
  }

  /** `Payment::where('transaction_id', $id)->first()`, over the payments of every order.
      A null id matches nothing: the column is not nullable. */
  function PaymentWithTransaction(payments: seq<Payment>, transactionId: Option<string>): (r: Option<nat>)
    ensures r.Some? ==> transactionId.Some? && r.value < |payments| && payments[r.value].transactionId == transactionId.value
    ensures r.Some? ==> forall k :: 0 <= k < r.value ==> payments[k].transactionId != transactionId.value
    ensures r.None? ==> forall k :: 0 <= k < |payments| ==> Some(payments[k].transactionId) != transactionId
  {
    match transactionId
    case None => None
    case Some(t) => FirstIndex(payments, (p: Payment) => p.transactionId == t)
  }

  /** `handleRefund` */
  function AfterRefund(s: LedgerState, charge: StripeObject): (LedgerState, WebhookResult) {
    match PaymentWithTransaction(s.payments, charge.paymentIntent)
    case None => (s, WebhookResult(false, "Payment not found", None))
    case Some(k) =>
      match FindOrder(s.orders, s.payments[k].orderId)
      case None => (s, WebhookResult(false, "Order not found", None))
      case Some(i) =>
        var o := s.orders[i].(status := "refunded");
        (Amend(s, i, o, [Evidence(o.id, charge.id, charge.amountRefunded, charge.currency, "refund", charge.snapshot)]),
         WebhookResult(true, "Refund processed", Some(o)))
  }

  /** `handleWebhookEvent`: the verification outcome, then the dispatch on the event type. */
  function AfterWebhook(s: LedgerState, outcome: ConstructOutcome): (LedgerState, WebhookResult) {
    match outcome
    case InvalidPayload => (s, WebhookResult(false, "Invalid payload", None))
    case InvalidSignature => (s, WebhookResult(false, "Invalid signature", None))
    case Verified(e) =>
      if e.eventType == "payment_intent.succeeded" then AfterIntentEvent(s, e.data, Succeeded)
      else if e.eventType == "payment_intent.payment_failed" then AfterIntentEvent(s, e.data, Failed)
      else if e.eventType == "charge.succeeded" then (s, WebhookResult(true, "Charge recorded", None))
      else if e.eventType == "charge.refunded" then AfterRefund(s, e.data)
      else if e.eventType == "payment_intent.canceled" then AfterIntentEvent(s, e.data, Canceled)
      else (s, WebhookResult(true, "Unhandled event", None))
  }

  // ---------------------------------------------------------------------------
  // What the reconciler promises.

  lemma IntentEventKeepsInvariant(s: LedgerState, pi: StripeObject, outcome: IntentOutcome)
    requires LedgerInvariant(s)
    ensures LedgerInvariant(AfterIntentEvent(s, pi, outcome).0)
  {
    if OrderIdOf(pi).Some? {
      var found := FindOrder(s.orders, OrderIdOf(pi).value);
      if found.Some? {
        var i := found.value;
        var o := Settle(s.orders[i], pi, outcome);
        AmendKeepsInvariant(s, i, o, [Evidence(o.id, pi.id, pi.amount, pi.currency, RowStatus(outcome), pi.snapshot)]);
      }
    }
  }

  lemma RefundKeepsInvariant(s: LedgerState, charge: StripeObject)
    requires LedgerInvariant(s)
    ensures LedgerInvariant(AfterRefund(s, charge).0)
  {
    var k := PaymentWithTransaction(s.payments, charge.paymentIntent);
    if k.Some? {
      var found := FindOrder(s.orders, s.payments[k.value].orderId);
      if found.Some? {
        var i := found.value;
        var o := s.orders[i].(status := "refunded");
        AmendKeepsInvariant(s, i, o, [Evidence(o.id, charge.id, charge.amountRefunded, charge.currency, "refund", charge.snapshot)]);
      }
    }
  }

  lemma WebhookKeepsInvariant(s: LedgerState, outcome: ConstructOutcome)
    requires LedgerInvariant(s)
    ensures LedgerInvariant(AfterWebhook(s, outcome).0)
  {
    if outcome.Verified? {
      var e := outcome.event;
      if e.eventType == "payment_intent.succeeded" {
        IntentEventKeepsInvariant(s, e.data, Succeeded);
      } else if e.eventType == "payment_intent.payment_failed" {
        IntentEventKeepsInvariant(s, e.data, Failed);
      } else if e.eventType == "charge.refunded" {
        RefundKeepsInvariant(s, e.data);
      } else if e.eventType == "payment_intent.canceled" {
        IntentEventKeepsInvariant(s, e.data, Canceled);
      }
    }
  }

  /** A success event marks the order paid and processing whatever its status was (a shipped
      order too), records the intent id, and appends exactly one `success` row; a missing or
      unknown order id changes nothing. */
  lemma SucceededEffect(s: LedgerState, pi: StripeObject)
    ensures var (t, r) := AfterIntentEvent(s, pi, Succeeded);
      if OrderIdOf(pi).None? then t == s && r == WebhookResult(false, "No order ID found", None)
      else if FindOrder(s.orders, OrderIdOf(pi).value).None? then t == s && r == WebhookResult(false, "Order not found", None)
      else
        var i := FindOrder(s.orders, OrderIdOf(pi).value).value;
        && |t.orders| == |s.orders| && t.items == s.items
        && t.orders[i] == s.orders[i].(paymentStatus := "paid", status := "processing", transactionId := Some(pi.id))
        && (forall j :: 0 <= j < |s.orders| && j != i ==> t.orders[j] == s.orders[j])
        && t.payments == s.payments + [Payment(s.orders[i].id, pi.id, pi.amount, pi.currency, "stripe", "success", Some(pi.snapshot))]
        && r.success && r.order == Some(t.orders[i])
  {
  }

  /** A failure event sets only `payment_status`; `status` and `transaction_id` are untouched. */
  lemma FailedEffect(s: LedgerState, pi: StripeObject)
    requires OrderIdOf(pi).Some? && FindOrder(s.orders, OrderIdOf(pi).value).Some?
    ensures var (t, r) := AfterIntentEvent(s, pi, Failed);
      var i := FindOrder(s.orders, OrderIdOf(pi).value).value;
      && t.orders == s.orders[i := s.orders[i].(paymentStatus := "failed")]
      && t.orders[i].status == s.orders[i].status && t.orders[i].transactionId == s.orders[i].transactionId
      && t.payments == s.payments + [Payment(s.orders[i].id, pi.id, pi.amount, pi.currency, "stripe", "failed", Some(pi.snapshot))]
      && t.items == s.items && r.success
  {
  }

  /** A cancel event writes "canceled" (one l) to both status fields: a `status` value the
      administrator's status update would reject. */
  lemma CanceledEffect(s: LedgerState, pi: StripeObject)
    requires OrderIdOf(pi).Some? && FindOrder(s.orders, OrderIdOf(pi).value).Some?
    ensures var (t, r) := AfterIntentEvent(s, pi, Canceled);
      var i := FindOrder(s.orders, OrderIdOf(pi).value).value;
      && t.orders == s.orders[i := s.orders[i].(paymentStatus := "canceled", status := "canceled")]
      && t.orders[i].status !in AdminStatuses
      && t.payments == s.payments + [Payment(s.orders[i].id, pi.id, pi.amount, pi.currency, "stripe", "canceled", Some(pi.snapshot))]
      && t.items == s.items && r.success
  {
  }

  /** A refund looks the payment up by transaction id across all orders; with none it writes
      nothing, otherwise the order of the first such payment becomes `refunded` (its payment
      status untouched) and one `refund` row with the charge id and refunded amount is appended. */
  lemma RefundEffect(s: LedgerState, charge: StripeObject)
    requires LedgerInvariant(s)
    ensures var (t, r) := AfterRefund(s, charge);
      match PaymentWithTransaction(s.payments, charge.paymentIntent)
      case None => t == s && r == WebhookResult(false, "Payment not found", None)
      case Some(k) =>
        var i := s.payments[k].orderId - 1;
        && 0 <= i < |s.orders|
        && t.orders == s.orders[i := s.orders[i].(status := "refunded")]
        && t.orders[i].paymentStatus == s.orders[i].paymentStatus
        && t.payments == s.payments + [Payment(s.payments[k].orderId, charge.id, charge.amountRefunded, charge.currency, "stripe", "refund", Some(charge.snapshot))]
        && t.items == s.items && r.success
  {
    var k := PaymentWithTransaction(s.payments, charge.paymentIntent);
    if k.Some? {
      FindOrderByPosition(s, s.payments[k.value].orderId);
    }
  }

  /** There is no duplicate-event check: the same success event twice appends two rows. */
  lemma {:induction false} RepeatedSuccessAppendsTwice(s: LedgerState, pi: StripeObject)
    requires OrderIdOf(pi).Some? && FindOrder(s.orders, OrderIdOf(pi).value).Some?
    ensures var t := AfterIntentEvent(AfterIntentEvent(s, pi, Succeeded).0, pi, Succeeded).0;
      && |t.payments| == |s.payments| + 2
      && t.payments[|s.payments|] == t.payments[|s.payments| + 1]
      && t.payments[|s.payments|].status == "success"
  {
    var i := FindOrder(s.orders, OrderIdOf(pi).value).value;
    var s1 := AfterIntentEvent(s, pi, Succeeded).0;
    SucceededEffect(s, pi);
    assert s1.orders[i].id == s.orders[i].id == OrderIdOf(pi).value;
    assert FindOrder(s1.orders, OrderIdOf(pi).value).Some?;
    SucceededEffect(s1, pi);
  }

  /** Failed verification, `charge.succeeded` and unknown event types write nothing. */
  lemma UnhandledEventsWriteNothing(s: LedgerState, outcome: ConstructOutcome)
    requires !outcome.Verified? || outcome.event.eventType !in
      {"payment_intent.succeeded", "payment_intent.payment_failed", "charge.refunded", "payment_intent.canceled"}
    ensures AfterWebhook(s, outcome).0 == s
    ensures AfterWebhook(s, outcome).1.success <==> outcome.Verified?
  {
  }

  /** Settling an order leaves no order unpaid that was not unpaid before. */
  lemma IntentEventNeverSetsUnpaid(s: LedgerState, pi: StripeObject, outcome: IntentOutcome)
    ensures |AfterIntentEvent(s, pi, outcome).0.orders| == |s.orders|
    ensures forall i :: 0 <= i < |s.orders| && AfterIntentEvent(s, pi, outcome).0.orders[i].paymentStatus == "unpaid" ==>
              s.orders[i].paymentStatus == "unpaid"
  {
    if OrderIdOf(pi).Some? && FindOrder(s.orders, OrderIdOf(pi).value).Some? {
      var o := Settle(s.orders[FindOrder(s.orders, OrderIdOf(pi).value).value], pi, outcome);
      assert o.paymentStatus in {"paid", "failed", "canceled"};
    }
  }

  /** A refund changes only the order status, never the payment status. */
  lemma RefundKeepsPaymentStatus(s: LedgerState, charge: StripeObject)
    ensures |AfterRefund(s, charge).0.orders| == |s.orders|
    ensures forall i :: 0 <= i < |s.orders| ==> AfterRefund(s, charge).0.orders[i].paymentStatus == s.orders[i].paymentStatus
  {
  }

  /** No webhook moves an order's payment status to `unpaid`. */
  lemma WebhooksNeverSetUnpaid(s: LedgerState, outcome: ConstructOutcome)
    ensures |AfterWebhook(s, outcome).0.orders| == |s.orders|
    ensures forall i :: 0 <= i < |s.orders| && AfterWebhook(s, outcome).0.orders[i].paymentStatus == "unpaid" ==>
              s.orders[i].paymentStatus == "unpaid"
  {
    if outcome.Verified? {
      var e := outcome.event;
      if e.eventType == "payment_intent.succeeded" {
        IntentEventNeverSetsUnpaid(s, e.data, Succeeded);
      } else if e.eventType == "payment_intent.payment_failed" {
        IntentEventNeverSetsUnpaid(s, e.data, Failed);
      } else if e.eventType == "charge.refunded" {
        RefundKeepsPaymentStatus(s, e.data);
      } else if e.eventType == "payment_intent.canceled" {
        IntentEventNeverSetsUnpaid(s, e.data, Canceled);
      }
    }
  }

  // ---------------------------------------------------------------------------
  // The handlers, on the ledger in place.

  /** `handleSuccessfulPayment`, `handleFailedPayment`, `handleCanceledPayment`. */
  method HandleIntentEvent(ledger: Ledger, pi: StripeObject, outcome: IntentOutcome) returns (r: WebhookResult)
    requires ledger.Valid()
    modifies ledger
    ensures ledger.Valid()
    ensures (ledger.State(), r) == AfterIntentEvent(old(ledger.State()), pi, outcome)
  {
    IntentEventKeepsInvariant(ledger.State(), pi, outcome);
    var orderId := OrderIdOf(pi);
    if orderId.None? {
      return WebhookResult(false, "No order ID found", None);
    }
    var found := FindOrder(ledger.orders, orderId.value);
    if found.None? {
      return WebhookResult(false, "Order not found", None);
    }
    var i := found.value;
    var order := ledger.orders[i];
    match outcome {
      case Succeeded =>
        order := order.(paymentStatus := "paid");
        order := order.(status := "processing");
        order := order.(transactionId := Some(pi.id));
      case Failed =>
        order := order.(paymentStatus := "failed");
      case Canceled =>
        order := order.(paymentStatus := "canceled");
        order := order.(status := "canceled");
    }
    ledger.orders := ledger.orders[i := order];
    ledger.payments := ledger.payments + [Evidence(order.id, pi.id, pi.amount, pi.currency, RowStatus(outcome), pi.snapshot)];
    r := WebhookResult(true, Confirmation(outcome), Some(order));
  }

  /** `handleRefund` */
  method HandleRefund(ledger: Ledger, charge: StripeObject) returns (r: WebhookResult)
    requires ledger.Valid()
    modifies ledger
    ensures ledger.Valid()
    ensures (ledger.State(), r) == AfterRefund(old(ledger.State()), charge)
  {
    RefundKeepsInvariant(ledger.State(), charge);
    var k := PaymentWithTransaction(ledger.payments, charge.paymentIntent);
    if k.None? {
      return WebhookResult(false, "Payment not found", None);
    }
    var found := FindOrder(ledger.orders, ledger.payments[k.value].orderId);
    if found.None? {
      return WebhookResult(false, "Order not found", None);
    }
    var i := found.value;
    var order := ledger.orders[i];
    order := order.(status := "refunded");
    ledger.orders := ledger.orders[i := order];
    ledger.payments := ledger.payments + [Evidence(order.id, charge.id, charge.amountRefunded, charge.currency, "refund", charge.snapshot)];
    r := WebhookResult(true, "Refund processed", Some(order));
  }

  /** `handleWebhookEvent` */
  method HandleWebhookEvent(ledger: Ledger, outcome: ConstructOutcome) returns (r: WebhookResult)
    requires ledger.Valid()
    modifies ledger
    ensures ledger.Valid()
    ensures (ledger.State(), r) == AfterWebhook(old(ledger.State()), outcome)
  {
    match outcome {
      case InvalidPayload =>
        r := WebhookResult(false, "Invalid payload", None);
      case InvalidSignature =>
        r := WebhookResult(false, "Invalid signature", None);
      case Verified(e) =>
        if e.eventType == "payment_intent.succeeded" {
          r := HandleIntentEvent(ledger, e.data, Succeeded);
        } else if e.eventType == "payment_intent.payment_failed" {
          r := HandleIntentEvent(ledger, e.data, Failed);
        } else if e.eventType == "charge.succeeded" {
          r := WebhookResult(true, "Charge recorded", None);
        } else if e.eventType == "charge.refunded" {
          r := HandleRefund(ledger, e.data);
        } else if e.eventType == "payment_intent.canceled" {
          r := HandleIntentEvent(ledger, e.data, Canceled);
        } else {
          r := WebhookResult(true, "Unhandled event", None);
        }
    }
  }
}
