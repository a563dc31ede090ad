/** The order ledger: the Order, OrderItem and Payment rows, their relations, the
    order-number generator, and the invariant every ledger operation keeps.
    All amounts are whole cents (the columns are decimal with two fractional digits). */
module Orders {
  import opened Common

  datatype Order = Order(
    id: nat,
    userId: nat,
    orderNumber: string,
    totalAmount: int,
    shippingCost: int,
    shippingAddress: string,
    phone: string,
    status: string,
    paymentStatus: string,
    transactionId: Option<string>)

  /** A snapshot of one cart line, taken when the order was placed. */
  datatype OrderItem = OrderItem(orderId: nat, productId: nat, productName: string, price: int, quantity: int)

  /** One row of the payments table; `responseData` is the processor's object, kept opaque. */
  datatype Payment = Payment(
    orderId: nat,
    transactionId: string,
    amount: int,
    currency: string,
    paymentMethod: string,
    status: string,
    responseData: Option<string>)

  /** The fulfilment statuses an administrator or a client may set. */
  const AdminStatuses: set<string> := {"pending", "processing", "shipped", "delivered", "cancelled"}

  /** The payment statuses a client may report. */
  const ClientPaymentStatuses: set<string> := {"unpaid", "paid", "failed", "cancelled"}

  /** Every `status` some code path writes: the webhooks add "canceled" (one l) and "refunded". */
  const OrderStatuses: set<string> := AdminStatuses + {"canceled", "refunded"}

  /** Every `payment_status` some code path writes: the cancel webhook adds "canceled" (one l). */
  const PaymentStatuses: set<string> := ClientPaymentStatuses + {"canceled"}

  /** The `subtotal` attribute of an item. */
  function Subtotal(item: OrderItem): int {
    item.price * item.quantity
  }

  /** The sum of the subtotals of `items`. */
  function ItemsTotal(items: seq<OrderItem>): int {
    if |items| == 0 then 0 else ItemsTotal(items[..|items| - 1]) + Subtotal(items[|items| - 1])
  }

  lemma {:induction false} ItemsTotalAppend(a: seq<OrderItem>, b: seq<OrderItem>)
    ensures ItemsTotal(a + b) == ItemsTotal(a) + ItemsTotal(b)
    decreases |b|
  {
    if |b| == 0 {
      assert a + b == a;
    } else {
      assert (a + b)[..|a + b| - 1] == a + b[..|b| - 1];
      ItemsTotalAppend(a, b[..|b| - 1]);
    }
  }

  /** The `items` relation: the rows of `items` that belong to order `orderId`, in table order. */
  function ItemsOf(items: seq<OrderItem>, orderId: nat): (r: seq<OrderItem>)
    ensures forall x :: x in r <==> x in items && x.orderId == orderId
  {
    if |items| == 0 then []
    else
      var last := items[|items| - 1];
      assert items == items[..|items| - 1] + [last];
      ItemsOf(items[..|items| - 1], orderId) + (if last.orderId == orderId then [last] else [])
  }

  lemma {:induction false} ItemsOfAppend(a: seq<OrderItem>, b: seq<OrderItem>, orderId: nat)
    ensures ItemsOf(a + b, orderId) == ItemsOf(a, orderId) + ItemsOf(b, orderId)
    decreases |b|
  {
    if |b| == 0 {
      assert a + b == a;
    } else {
      var b', last := b[..|b| - 1], b[|b| - 1];
      var tail := if last.orderId == orderId then [last] else [];
      assert (a + b)[..|a + b| - 1] == a + b';
      assert (a + b)[|a + b| - 1] == last;
      assert ItemsOf(a + b, orderId) == ItemsOf(a + b', orderId) + tail;
      ItemsOfAppend(a, b', orderId);
      assert ItemsOf(b, orderId) == ItemsOf(b', orderId) + tail;
    }
  }

  lemma {:induction false} ItemsOfNone(items: seq<OrderItem>, orderId: nat)
    requires forall k :: 0 <= k < |items| ==> items[k].orderId != orderId
    ensures ItemsOf(items, orderId) == []
  {
    if |items| > 0 {
      ItemsOfNone(items[..|items| - 1], orderId);
    }
  }

  lemma {:induction false} ItemsOfAll(items: seq<OrderItem>, orderId: nat)
    requires forall k :: 0 <= k < |items| ==> items[k].orderId == orderId
    ensures ItemsOf(items, orderId) == items
  {
    if |items| > 0 {
      var init := items[..|items| - 1];
      ItemsOfAll(init, orderId);
      assert items == init + [items[|items| - 1]];
    }
  }

  /** The `payment` relation is has-one: it yields the first payment row of the order,
      although the webhooks may have appended several. */
  function PaymentOf(payments: seq<Payment>, orderId: nat): (r: Option<Payment>)
    ensures r.Some? ==> r.value in payments && r.value.orderId == orderId
    ensures r.Some? ==> exists j :: 0 <= j < |payments| && payments[j] == r.value &&
                          forall k :: 0 <= k < j ==> payments[k].orderId != orderId
    ensures r.None? <==> forall j :: 0 <= j < |payments| ==> payments[j].orderId != orderId
  {
    match FirstIndex(payments, (p: Payment) => p.orderId == orderId)
    case None => None
    case Some(i) =>
      assert payments[i] == payments[i] && forall k :: 0 <= k < i ==> payments[k].orderId != orderId;
      Some(payments[i])
  }

  /** ASCII upper-casing, as PHP's `strtoupper` does it. */
  function UpperAscii(c: char): char {
    if 'a' <= c <= 'z' then (c as int - 32) as char else c
  }

  function Upper(s: string): string {
    seq(|s|, i requires 0 <= i < |s| => UpperAscii(s[i]))
  }

  /** `'ORD-' . strtoupper(substr(uniqid(), 0, 8))`, with the `uniqid()` token as input. */
  function GenerateOrderNumber(token: string): (r: string)
    ensures |r| == 4 + (if |token| < 8 then |token| else 8) && |r| <= 12
    ensures r[..4] == "ORD-"
    ensures forall i :: 4 <= i < |r| ==> !('a' <= r[i] <= 'z')
    ensures forall i :: 4 <= i < |r| ==> UpperAscii(token[i - 4]) == r[i]
  {
    var suffix := if |token| < 8 then token else token[..8];
    "ORD-" + Upper(suffix)
  }

  /** The three tables the ledger operations read and write. */
  datatype LedgerState = LedgerState(orders: seq<Order>, items: seq<OrderItem>, payments: seq<Payment>)

  /** What holds throughout: ids are positions (orders are never deleted), order numbers are
      unique (a column constraint), every item and payment references an existing order, every
      order's total is its items' subtotals plus shipping, and statuses stay in their domains. */
  ghost predicate LedgerInvariant(s: LedgerState) {
    && (forall i :: 0 <= i < |s.orders| ==> s.orders[i].id == i + 1)
    && (forall i, j :: 0 <= i < j < |s.orders| ==> s.orders[i].orderNumber != s.orders[j].orderNumber)
    && (forall k :: 0 <= k < |s.items| ==> 1 <= s.items[k].orderId <= |s.orders|)
    && (forall k :: 0 <= k < |s.payments| ==> 1 <= s.payments[k].orderId <= |s.orders|)
    && (forall i :: 0 <= i < |s.orders| ==>
          s.orders[i].totalAmount == ItemsTotal(ItemsOf(s.items, i + 1)) + s.orders[i].shippingCost)
    && (forall i :: 0 <= i < |s.orders| ==>
          s.orders[i].status in OrderStatuses && s.orders[i].paymentStatus in PaymentStatuses)
  }

  /** `Order::find(id)`: the position of the order with that id. */
  function FindOrder(orders: seq<Order>, id: nat): (r: Option<nat>)
    ensures r.Some? ==> r.value < |orders| && orders[r.value].id == id
    ensures r.None? ==> forall i :: 0 <= i < |orders| ==> orders[i].id != id
  {
    FirstIndex(orders, (o: Order) => o.id == id)
  }

  lemma FindOrderByPosition(s: LedgerState, id: nat)
    requires LedgerInvariant(s)
    ensures FindOrder(s.orders, id) == if 1 <= id <= |s.orders| then Some(id - 1) else None
  {
    var r := FindOrder(s.orders, id);
    if 1 <= id <= |s.orders| {
      assert s.orders[id - 1].id == id;
    }
  }

  /** The ledger's one change to an existing order: replace order `i` by `o` (which keeps
      the order's identity and amounts) and append `rows` referencing existing orders. */
  function Amend(s: LedgerState, i: nat, o: Order, rows: seq<Payment>): LedgerState
    requires i < |s.orders|
  {
    s.(orders := s.orders[i := o], payments := s.payments + rows)
  }

  lemma AmendKeepsInvariant(s: LedgerState, i: nat, o: Order, rows: seq<Payment>)
    requires LedgerInvariant(s) && i < |s.orders|
    requires o.id == s.orders[i].id && o.orderNumber == s.orders[i].orderNumber
    requires o.totalAmount == s.orders[i].totalAmount && o.shippingCost == s.orders[i].shippingCost
    requires o.status in OrderStatuses && o.paymentStatus in PaymentStatuses
    requires forall k :: 0 <= k < |rows| ==> 1 <= rows[k].orderId <= |s.orders|
    ensures LedgerInvariant(Amend(s, i, o, rows))
  {
    var t := Amend(s, i, o, rows);
    forall k | 0 <= k < |t.payments|
      ensures 1 <= t.payments[k].orderId <= |t.orders|
    {
      if k >= |s.payments| {
        assert t.payments[k] == rows[k - |s.payments|];
      }
    }
  }

  /** The store of orders, order items and payments, updated in place. */
  class Ledger {
    var orders: seq<Order>
    var items: seq<OrderItem>
    var payments: seq<Payment>

    function State(): LedgerState
      reads this
    {
      LedgerState(orders, items, payments)
    }

    ghost predicate Valid()
      reads this
    {
      LedgerInvariant(State())
    }

    constructor ()
      ensures Valid() && orders == [] && items == [] && payments == []
    {
      orders, items, payments := [], [], [];
    }
  }
}
