# E-commerce backend: checkout, payment reconciliation and catalog, in Dafny

This project models the core of a Laravel shop backend in Dafny.

The primary part is checkout and payment reconciliation:
- the per-user carts;
- checkout, which turns a cart into an order with snapshot items and asks the payment processor for a payment intent;
- the administrator's and the client's status updates;
- the guard on issuing payment intents;
- the webhook handlers that settle orders and append payment rows.

The secondary part is the catalog: categories, brands, products and slideshows, each a table with validation and referential rules.

Form of the model:
- State that the source updates in place is a class:
  - `Orders.Ledger`: orders, order items and payments;
  - `CartController.CartStore`: carts by user;
  - `Catalog.CatalogDb`: the four catalog tables with their next-id counters.
- The operations on these classes are methods with `modifies` clauses.
- Each ledger method is proved equal to a specification function on the `LedgerState` value. The lemmas prove what the source promises about those functions, and `Orders.LedgerInvariant` is kept by every operation.
- The invariant says:
  - ids are positions;
  - order numbers are unique;
  - every item and payment references an order;
  - every order's total equals its items' subtotals plus shipping;
  - statuses stay in their domains.
- Checkout and the cart total are loops with invariants, as in the source.
- Lookups, listings and the payment controller are functions.

Conventions:
- Money is integer cents, since the columns are decimal with two digits; the shipping charge 1.35 is `135`.
- The processor's minor-unit conversions are modelled over `real` with PHP's truncating `(int)` cast. Lemmas connect them back to cents.
- A request field is `Common.Field`: `Absent`, `Null`, `Malformed` (fails its type rule) or `Given(v)`.
- The caller is a user id.
- The processor is two parameters:
  - `gateway`, the reply to an intent request;
  - `construct`, the outcome of signature checking.
- Random and clock values are inputs:
  - `uniqid()` becomes the checkout `token`;
  - `time()`-based file names become the `Given` value of a file field.

Where the code does something a reader may not expect, the model follows the code. The lemmas named below state each case:
- Repeated webhook events are not deduplicated: the same success event twice appends two rows (`StripeService.RepeatedSuccessAppendsTwice`).
- A success event sets `processing` even on a shipped order (`StripeService.SucceededEffect`).
- The cancel webhook writes `canceled`, while the administrator's enum has `cancelled` (`StripeService.CanceledEffect`).
- A refund matches the first payment row with the intent id across all orders, and needs no prior `success` row (`StripeService.RefundEffect`).
- A client may report a paid order as unpaid again (`OrderController.ClientMayResetPaidOrder`).
- The client path overwrites the order's first payment row; the webhooks append rows (`OrderController.RecordClientPaymentEffect`).
- A failed intent at checkout leaves the order and its items in place and the cart untouched, and the reply carries no order id (`OrderController.CheckoutPlacesOrder`).
- Another user's cart line is reported as not found (404), not forbidden.

## Model

| member | source | states |
|---|---|---|
| StripeService.MinorUnitsRoundTrip | backend/app/Services/StripeService.php:300-313 | minor units converted to an amount and back are the same integer |
| StripeService.WholeCentsRoundTrip | backend/app/Services/StripeService.php:300-313 | an amount with no fraction of a cent, converted to minor units (×100, truncated) and back, is unchanged |
| StripeService.ForStripeOfStoredAmount | backend/app/Services/StripeService.php:300-304 | a stored amount of c cents is sent to the processor as exactly c minor units |
| StripeService.Truncate | backend/app/Services/StripeService.php:303 | PHP's `(int)` cast: the integer part toward zero, for both signs |
| StripeService.IntentRequestFor | backend/app/Services/StripeService.php:36-42 | the intent asks for the order's total in cents, currency `usd`, metadata order id and order number |
| StripeService.CreatePaymentIntent | backend/app/Services/StripeService.php:33-61 | success exactly when the processor creates the intent, passing its client secret and id through; otherwise failure with the processor's message |
| StripeService.PaymentWithTransaction | backend/app/Services/StripeService.php:192-195 | the first payment row of any order whose transaction id is the charge's intent; none for a null intent |
| StripeService.WebhookKeepsInvariant | backend/app/Services/StripeService.php:67-107 | every webhook outcome keeps the ledger invariant |
| StripeService.IntentEventKeepsInvariant | backend/app/Services/StripeService.php:112-265 | the success, failure and cancel handlers keep the ledger invariant |
| StripeService.RefundKeepsInvariant | backend/app/Services/StripeService.php:190-226 | the refund handler keeps the ledger invariant |
| StripeService.SucceededEffect | backend/app/Services/StripeService.php:112-147 | no order id or an unknown order: nothing written, `success` false; otherwise only that order changes (paid, processing, transaction id = intent id, whatever its status was) and exactly one `success` row with the intent's amount and currency is appended |
| StripeService.FailedEffect | backend/app/Services/StripeService.php:152-185 | only `payment_status` becomes `failed`; status and transaction id unchanged; one `failed` row appended |
| StripeService.CanceledEffect | backend/app/Services/StripeService.php:231-265 | both statuses become `canceled`, a status outside the administrator's enum; one `canceled` row appended |
| StripeService.RefundEffect | backend/app/Services/StripeService.php:190-226 | no matching payment: nothing written, `Payment not found`; otherwise that payment's order becomes `refunded` with payment status untouched, and one `refund` row with the charge id and refunded amount is appended |
| StripeService.RepeatedSuccessAppendsTwice | backend/app/Services/StripeService.php:128-143 | the same success event applied twice appends two identical `success` rows |
| StripeService.UnhandledEventsWriteNothing | backend/app/Services/StripeService.php:79-106 | invalid payload, invalid signature, `charge.succeeded` and unknown types leave the ledger unchanged; `success` is true exactly for verified events |
| StripeService.WebhooksNeverSetUnpaid | backend/app/Services/StripeService.php:79-99 | no webhook moves an order's payment status to `unpaid` or adds or removes orders |
| StripeService.IntentEventNeverSetsUnpaid | backend/app/Services/StripeService.php:112-189 | settling an order on a succeeded, failed or canceled intent never leaves an order `unpaid` that was not |
| StripeService.RefundKeepsPaymentStatus | backend/app/Services/StripeService.php:190-230 | a refund keeps the number of orders and every order's payment status |
| StripeService.HandleIntentEvent | backend/app/Services/StripeService.php:112-265 | in place, the ledger and result are those of the intent-event specification, and the invariant is kept |
| StripeService.HandleRefund | backend/app/Services/StripeService.php:190-226 | in place, the ledger and result are those of the refund specification, and the invariant is kept |
| StripeService.HandleWebhookEvent | backend/app/Services/StripeService.php:67-107 | in place, the ledger and result are those of the dispatch specification, and the invariant is kept |
| Orders.GenerateOrderNumber | backend/app/Models/Order.php:40-43 | the number starts with `ORD-`, has at most 8 more characters (at most 12), and its suffix is the upper-cased token prefix, with no lower-case letter |
| Orders.ItemsOf | backend/app/Models/Order.php:29-32 | an item is among an order's items exactly when it belongs to that order |
| Orders.ItemsOfAppend | backend/app/Models/Order.php:29-32 | the items of an order over two tables are the items over each |
| Orders.PaymentOf | backend/app/Models/Order.php:34-37 | the has-one `payment` is the first payment row of the order, none exactly when it has none |
| Orders.ItemsTotalAppend | backend/app/Models/OrderItem.php:39-42 | the sum of item subtotals (price × quantity) over two lists is the sum over each |
| Orders.FindOrderByPosition | backend/app/Services/StripeService.php:121 | in a well-formed ledger `Order::find(id)` is the order at position id - 1, and none outside 1..count |
| Orders.AmendKeepsInvariant | backend/app/Services/StripeService.php:128-143 | changing an order's statuses and appending payment rows for existing orders keeps the invariant |
| CartController.LineOfProduct | backend/app/Http/Controllers/CartController.php:54-56 | the first line of the cart for the product (no earlier line has it), none exactly when no line has it |
| CartController.LineWithId | backend/app/Http/Controllers/CartController.php:95-97 | the line of the cart with that id, none exactly when no line has it |
| CartController.LinesTotalDefined | backend/app/Http/Controllers/CartController.php:20-24 | a cart has a total exactly when every line's product exists |
| CartController.LinesTotalRaise | backend/app/Http/Controllers/CartController.php:58-61 | raising one line's quantity by q raises the total by its price × q |
| CartController.AddLineQuantity | backend/app/Http/Controllers/CartController.php:54-70 | adding q of a product raises its quantity by q, leaves every other product's quantity, and adds a line only when the product was not in the cart |
| CartController.AddLineTotal | backend/app/Http/Controllers/CartController.php:54-70 | adding q of a product raises the total by its price × q |
| CartController.AddTwiceMerges | backend/app/Http/Controllers/CartController.php:54-70 | adding a product twice keeps one line with the sum of the quantities |
| CartController.AddLineWellFormed | backend/app/Http/Controllers/CartController.php:54-70 | adding keeps at most one line per product, distinct line ids and quantities of at least one |
| CartController.RemoveAtWellFormed | backend/app/Http/Controllers/CartController.php:113-117 | removing a line keeps the cart well formed |
| CartController.RemoveAt | backend/app/Http/Controllers/CartController.php:117 | exactly the named line is gone and the others keep their order |
| CartController.SumLines | backend/app/Http/Controllers/CartController.php:20-24 | the running total of the loop is the cart's total at current prices, and none when a product is gone |
| CartController.GetCart | backend/app/Http/Controllers/CartController.php:15-31 | the caller's cart is created empty when absent, no other cart changes, and the total is Σ price × quantity |
| CartController.AddToCart | backend/app/Http/Controllers/CartController.php:33-76 | a missing or unknown product or a quantity below one: 422 and nothing changes; otherwise the caller's cart is created if absent and gets the merged lines |
| CartController.UpdateCartItem | backend/app/Http/Controllers/CartController.php:78-106 | 422 for a bad quantity; 404 for no cart or a line outside the caller's cart; otherwise only that line's quantity is set |
| CartController.RemoveCartItem | backend/app/Http/Controllers/CartController.php:108-123 | 404 for no cart or a line outside it; otherwise exactly that line is removed |
| CartController.ClearCart | backend/app/Http/Controllers/CartController.php:125-136 | 404 without a cart; otherwise the caller's cart is empty and no other cart changes |
| OrderController.Snapshot | backend/app/Models/OrderItem.php:12-18 | one item per cart line, in order, each with the line's product id, the product's name and price at that moment and the line's quantity |
| OrderController.SnapshotTotal | backend/app/Http/Controllers/OrderController.php:94-97 | the snapshot items' subtotals add up to the cart total computed by the loop |
| OrderController.CheckoutRejections | backend/app/Http/Controllers/OrderController.php:70-91 | a missing address or phone, or an absent or empty cart: 422, and nothing is written |
| OrderController.CheckoutPlacesOrder | backend/app/Http/Controllers/OrderController.php:93-147 | exactly one new order (the caller's, with the generated order number, the given address and phone, pending, unpaid, no transaction id, shipping 135, total = cart total + 135) with one snapshot item per line, other orders' items unchanged, payments unchanged; with a client secret the cart is emptied and the reply carries the secret; otherwise 500 with the processor's message, the order stays and the cart is kept |
| OrderController.CheckoutKeepsInvariant | backend/app/Http/Controllers/OrderController.php:68-148 | every outcome of checkout keeps the ledger invariant, totals included |
| OrderController.PlaceOrderKeepsInvariant | backend/app/Http/Controllers/OrderController.php:103-123 | appending the new order and its items keeps the invariant |
| OrderController.ItemsOfPlaced | backend/app/Http/Controllers/OrderController.php:115-123 | after the new order's items are appended, the new order's items are exactly the snapshot and every other order's items are unchanged |
| OrderController.Store | backend/app/Http/Controllers/OrderController.php:68-148 | in place, with the summing loop and the item-creating loop, ledger, carts and reply are those of the checkout specification |
| OrderController.PlaceOrder | backend/app/Http/Controllers/OrderController.php:103-123 | the new ledger is the old one with the order appended and one item per cart line appended |
| OrderController.CreateItems | backend/app/Http/Controllers/OrderController.php:114-123 | the loop appends exactly the snapshot of the cart lines, in cart order |
| OrderController.NewestOrders | backend/app/Http/Controllers/OrderController.php:158-166 | exactly the orders that pass the filter |
| OrderController.NewestOrdersDescending | backend/app/Http/Controllers/OrderController.php:159 | for orders in creation order, the listing is in strictly decreasing id order |
| OrderController.AllOrders | backend/app/Http/Controllers/OrderController.php:153-172 | a truthy status other than `all` lists exactly the orders with it; otherwise every order |
| OrderController.AllOrdersNewestFirst | backend/app/Http/Controllers/OrderController.php:158-159 | the administrator's listing is newest first |
| OrderController.UserOrders | backend/app/Http/Controllers/OrderController.php:27-39 | exactly the caller's orders |
| OrderController.UserOrdersNewestFirst | backend/app/Http/Controllers/OrderController.php:30-33 | the caller's listing is newest first |
| OrderController.OwnOrder | backend/app/Http/Controllers/OrderController.php:247-249 | the caller's order with that id, none exactly when there is no such order |
| OrderController.Show | backend/app/Http/Controllers/OrderController.php:44-63 | 404 exactly when the caller has no order with that id; otherwise the reply carries that order, its items and its first payment |
| OrderController.AdminShowOrder | backend/app/Http/Controllers/OrderController.php:174-189 | 404 exactly when no order has that id; otherwise that order and its items, whoever owns it |
| OrderController.AdminStatusUpdateEffect | backend/app/Http/Controllers/OrderController.php:194-225 | a status outside pending/processing/shipped/delivered/cancelled: 422; an unknown id: 404; both change nothing; otherwise only that order's status changes; the invariant is kept |
| OrderController.UpdateStatus | backend/app/Http/Controllers/OrderController.php:194-225 | in place, ledger and reply are those of the administrator's update |
| OrderController.PaymentIndex | backend/app/Http/Controllers/OrderController.php:271-272 | the first payment row of the order, none exactly when it has none |
| OrderController.RecordClientPaymentEffect | backend/app/Http/Controllers/OrderController.php:271-280 | the upsert adds a row only when the order has none, changes no other order's rows, and leaves the order's payment a `success` row in USD with the reported transaction id and the order's total |
| OrderController.ClientStatusUpdateKeepsInvariant | backend/app/Http/Controllers/OrderController.php:230-288 | the client's update keeps the ledger invariant and never touches order items |
| OrderController.RecordClientPaymentKeepsInvariant | backend/app/Http/Controllers/OrderController.php:270-281 | upserting the payment row of a stored order keeps the ledger invariant |
| OrderController.ClientStatusUpdateEffect | backend/app/Http/Controllers/OrderController.php:232-281 | invalid parameters: 422; not the caller's order: 404; both change nothing; otherwise only that order changes: it is the old row with both statuses set and the transaction id replaced only by a truthy one; items are kept; for `paid` with a transaction id the payments are the upsert of that order's row, otherwise they are kept |
| OrderController.ClientMayResetPaidOrder | backend/app/Http/Controllers/OrderController.php:259-260 | a client can set a paid order's payment status back to `unpaid` |
| OrderController.UpdateUserOrderStatus | backend/app/Http/Controllers/OrderController.php:230-288 | in place, with the payment row updated or appended, ledger and reply are those of the client's update |
| PaymentController.UnpaidOwnOrder | backend/app/Http/Controllers/PaymentController.php:27-30 | the caller's unpaid order with that id, none exactly when there is none |
| PaymentController.CreateIntent | backend/app/Http/Controllers/PaymentController.php:24-55 | 404 exactly when the order is not the caller's unpaid order; then 400 exactly on a processor error, with its message; 200 exactly when the intent is created, with the client secret and intent id passed through |
| PaymentController.CreateIntentChargesOrderTotal | backend/app/Http/Controllers/PaymentController.php:26-40 | in a well-formed ledger an intent is requested exactly for the caller's unpaid order `orderId`, for its total in cents |
| PaymentController.PaidOrdersGetNoIntent | backend/app/Http/Controllers/PaymentController.php:27-37 | a paid order always gets 404, whatever the processor would answer |
| PaymentController.HandleWebhook | backend/app/Http/Controllers/PaymentController.php:60-68 | the reply is the adapter's result for the signature-checked payload, verbatim |
| PaymentController.Landing | backend/app/Http/Controllers/PaymentController.php:75-89 | 200 with the order exactly when the id names a stored order; otherwise 404 `Order not found` |
| PaymentController.Success | backend/app/Http/Controllers/PaymentController.php:73-90 | 404 for an absent or unknown order; otherwise `Payment successful` with the order; the ledger is only read |
| PaymentController.Failed | backend/app/Http/Controllers/PaymentController.php:95-112 | 404 for an absent or unknown order; otherwise `Payment failed` with the order; the ledger is only read |
| PaymentController.LandingPagesShowAnyOrder | backend/app/Http/Controllers/PaymentController.php:73-112 | both pages show any stored order, whoever owns it and whatever its payment status |
| Catalog.NewestFirst | backend/app/Http/Controllers/ProductController.php:17 | exactly the stored ids, in strictly decreasing order |
| Catalog.OldestFirst | backend/app/Http/Controllers/SlideshowController.php:17 | exactly the stored ids, in strictly increasing order |
| Catalog.SortBySsorder | backend/app/Http/Controllers/SlideshowController.php:17 | a permutation of its input in non-decreasing `ssorder`, null first |
| Catalog.InsertBySsorder | backend/app/Http/Controllers/SlideshowController.php:17 | inserting adds exactly that id (as a multiset) and nothing from outside the list |
| Catalog.InsertKeepsSorted | backend/app/Http/Controllers/SlideshowController.php:17 | inserting into a list sorted by `ssorder` keeps it sorted |
| CategoryController.Index | backend/app/Http/Controllers/CategoryController.php:14-22 | every category, newest first |
| CategoryController.UpdateKeepsOwnName | backend/app/Http/Controllers/CategoryController.php:70-81 | an update may keep the category's own name |
| CategoryController.OtherNamesRefused | backend/app/Http/Controllers/CategoryController.php:29-40 | another category's name is refused on insert and on update |
| CategoryController.Store | backend/app/Http/Controllers/CategoryController.php:27-52 | a blank, over-255 or used name: 422 and nothing inserted; otherwise one category under a fresh id, 201; names stay unique |
| CategoryController.Update | backend/app/Http/Controllers/CategoryController.php:68-90 | 404 for an unknown id; 422 and no change on a rule failure; otherwise only the supplied name and description change |
| CategoryController.Destroy | backend/app/Http/Controllers/CategoryController.php:95-111 | 422 and kept while any product references it; otherwise removed |
| BrandController.Index | backend/app/Http/Controllers/BrandController.php:15-23 | every brand, newest first |
| BrandController.NewBrand | backend/app/Http/Controllers/BrandController.php:44-57 | without an uploaded file the logo is null; with one it is the stored file name |
| BrandController.UpdatedBrand | backend/app/Http/Controllers/BrandController.php:96-110 | supplied name and description are written and absent ones kept, a null description clears it; a new file sets the logo, otherwise it is kept |
| BrandController.NullLogoKeepsLogo | backend/app/Http/Controllers/BrandController.php:96-110 | a null logo key neither clears nor replaces the logo; an update with nothing supplied changes nothing |
| BrandController.Store | backend/app/Http/Controllers/BrandController.php:28-64 | a blank, over-255 or used name: 422 and nothing inserted; otherwise one brand under a fresh id, 201 |
| BrandController.Update | backend/app/Http/Controllers/BrandController.php:80-117 | 404 for an unknown id; the uniqueness check excludes the brand itself; 422 and no change on failure; otherwise the updated brand |
| BrandController.Destroy | backend/app/Http/Controllers/BrandController.php:122-144 | 422 and kept while it has products; otherwise removed |
| ProductController.Index | backend/app/Http/Controllers/ProductController.php:15-23 | every product, newest first |
| ProductController.NewProduct | backend/app/Http/Controllers/ProductController.php:47-62 | the row carries the given fields and category, the brand or null, and a null image without a file |
| ProductController.UpdatedProduct | backend/app/Http/Controllers/ProductController.php:106-122 | supplied name, description, price, category and brand are written and absent ones kept; a null brand clears it; a new file sets the image, otherwise it is kept |
| ProductController.AcceptedProductsReference | backend/app/Http/Controllers/ProductController.php:30-45 | a product accepted by `store` or `update` references an existing category and an existing brand or none |
| ProductController.Store | backend/app/Http/Controllers/ProductController.php:28-69 | a rule failure: 422 and nothing created; otherwise one product under a fresh id, 201 |
| ProductController.Update | backend/app/Http/Controllers/ProductController.php:87-129 | 404 for an unknown id; 422 and no change on failure; otherwise the updated product |
| ProductController.Destroy | backend/app/Http/Controllers/ProductController.php:135-148 | the product is removed; 404 for an unknown id |
| SlideshowController.Index | backend/app/Http/Controllers/SlideshowController.php:15-23 | every slide, a permutation of the ids with none repeated, in non-decreasing `ssorder` |
| SlideshowController.Enabled | backend/app/Http/Controllers/SlideshowController.php:160 | exactly the ids whose slide has `enable` true |
| SlideshowController.ActiveSlides | backend/app/Http/Controllers/SlideshowController.php:158-169 | exactly the slides with `enable` true, each once (a permutation of the enabled ids), in non-decreasing `ssorder` |
| SlideshowController.NewSlide | backend/app/Http/Controllers/SlideshowController.php:58-67 | name and description as given; `enable` is true when the key is absent, null when it is null, the value otherwise; `link` the value or null; `ssorder` is 0 when absent or null; the image is the file, or null without one |
| SlideshowController.UpdatedSlide | backend/app/Http/Controllers/SlideshowController.php:113-128 | every supplied field is written and absent ones kept; a null `enable`, `link` or `ssorder` clears it; a new file sets the image, otherwise it is kept |
| SlideshowController.EmptyUpdateKeepsSlide | backend/app/Http/Controllers/SlideshowController.php:113-128 | an update with nothing supplied changes nothing |
| SlideshowController.Store | backend/app/Http/Controllers/SlideshowController.php:28-74 | a negative price or `ssorder`, an unknown product or another rule failure: 422 and nothing created; otherwise one slide under a fresh id, 201 |
| SlideshowController.Update | backend/app/Http/Controllers/SlideshowController.php:92-135 | 404 for an unknown id; 422 and no change on failure; otherwise the updated slide |
| SlideshowController.Destroy | backend/app/Http/Controllers/SlideshowController.php:140-153 | the slide is removed; 404 for an unknown id |

## Left out

- Floating-point money: prices and totals are integer cents. PHP's float arithmetic and the rounding error of `(int)($amount*100)` on non-cent values are not modelled, but the truncation itself is.
- `addPaymentMethod` and `logStripeError`: foreign calls into the processor's customer API, or logging only.
- The API-key check in the `StripeService` constructor, the webhook secret and the `publishable_key` in replies: configuration. `PaymentController.CreateIntent` and `OrderController.CheckoutReply` omit the publishable key.
- Logging (`Log::info`, `Log::error`): it has no effect on state or replies.
- File storage: uploads, deletes of old files, and image, mime, size and URL validation. An uploaded file is `Given(filename)`; a non-URL link or an ill-typed field is `Malformed`.
- `uniqid()` and `time()`: the order-number token and the file names are inputs.
- Order-number collisions: a taken number makes checkout answer 500 with nothing written, which is the unique column's error; there is no retry.
- `created_at` ordering: listings order by creation sequence (id), so ties in `created_at` are not modelled.
- `latest()` and `orderBy('ssorder')` tie order: for equal `ssorder`, slides come out in id order; the database does not promise any order there.
- Case-insensitive collation of the `unique` rules: names compare as exact strings.
- The `show` endpoints of the catalog controllers: each returns the route-bound row unchanged. The 404 of route-model binding is modelled in `Update` and `Destroy`.
- Foreign keys on delete: deleting a product that order items, slides or cart lines reference is allowed here, and a later total over a cart line whose product is gone is the server error (`None`).
- `getCart`'s per-item `subtotal` attribute in the reply: only the total is modelled.
- Eager loading (`with('items', 'payment', 'user')`): listings return order rows; `Show` and `AdminShowOrder` return the related rows explicitly.
- Routing, middleware, authentication and administrator checks: the caller is a user id; who may call an endpoint is not modelled.
- Concurrency: each request is one sequential step, so a webhook and a client update cannot interleave.
- Console commands, migrations, seeders and views: they only supply the field shapes used here.
- Column widths: item quantities are a 32-bit `integer` column and order totals `decimal(10,2)` (backend/app/Console/Commands/RecreateOrdersTables.php:26, 51), and cart quantities have no maximum. In the source a quantity or total outside those ranges makes the insert fail with a 500; the model's integers are unbounded, so CartController.AddToCart and CartController.UpdateCartItem answer 200 and OrderController.Checkout and OrderController.Store place the order. The column ranges are not modelled.
- Auto-increment gaps: `Orders.LedgerInvariant` takes order ids to be positions (`id == index + 1`). With MySQL, an insert refused by the unique `order_number` still uses up an id, and deleted rows leave gaps. Lemmas stated with `id - 1` (`Orders.FindOrderByPosition`, `PaymentController.CreateIntentChargesOrderTotal`, `PaymentController.LandingPagesShowAnyOrder`) therefore hold for the states the model reaches, not for every database. The contracts built on `FindOrder` do not depend on it.
- StripeService.CreatePaymentIntent: the `automatic_payment_methods` options of the request are not part of `IntentRequest`, because the processor is an oracle and they do not affect any modelled state.
