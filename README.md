# Order and payment workflow of the e-commerce demo, in Dafny

This project models the order/payment core of a small Spring e-commerce backend.

- **Orders.** Customers place orders against a product catalog. Each order's total is Σ price × quantity, computed exactly. An order can be revised until it is paid, and can be deleted.
- **Order reads.** Reads go through a key→view cache named `orders-cache`. The cache follows the service's `@Cacheable`, `@CachePut` and `@CacheEvict` annotations.
- **Payments.** A payment is checked against the order total. It comes out insufficient, excessive or exact, and the order's status is set to match. An exact payment is published, best effort, to a settlement queue.
- **Ledger.** A listener turns each settlement message into a ledger entry.

The model has one module per service:

- `Domain`: the entities, requests, responses and errors.
- `CatalogService`: the product and user lookups. The catalog is read-only.
- `OrderRules`: the pure part of the order engine.
  - resolving a request against the catalog;
  - composing and rebuilding line items;
  - the order amount;
  - rendering an order into its `OrderResponse` view;
  - the listing.
- `Orders`: the `OrderService` class. Its fields are the order store, the cache and the identity counters.
- `Payments`: the `PaymentService` class. It holds the payment repository and the settlement queue, with the decision procedure stated as functions.
- `Transactions`: the `TransactionService` class, whose field is the append-only ledger.
- `Scenarios`: end-to-end scenarios on a one-product catalog.

Modelling choices:

- **Money** (`BigDecimal`) is `real`. `compareTo` compares numerically, so `<`, `>` and `==` on `real` are the same comparisons.
- **Quantities** are Java `int`, modelled as an `int32` newtype.
- **Ids.** `IDENTITY` ids become counters starting at 1: `nextOrderId` for orders and `nextLineId` for line items. A line item takes the next value only when a new row is inserted; a reused line keeps its id and takes none. New lines are numbered in request order. The payment and transaction repositories are sequences in which the entry at index i has id i + 1.
- **Rebuilding lines on update.** `Orders.OrderService.UpdateOrder` uses the corrected rebuild (`OrderRules.RebuildItems`), not the one the code performs (`OrderRules.RebuildAsWritten`). The two differ only when the request names a product already in the order more than once; see "## Findings". `OrderRules.RebuildAsWrittenAgrees` proves they agree on every other request, including one that names a product new to the order more than once.
- **References.** References between entities (order → user, payment → order, and so on) are kept as ids.
- **Exceptions.** A thrown `RuntimeException` becomes an `Err` result:
  - lookup failures carry the missing id;
  - a refusal by a guard carries the exception's message.
- **Publishing.** The broker's outcome is the `publishOk` parameter of `MakePayment`. A refused publish is swallowed. The queue is the `published` field, and the listener is called explicitly with a queued message.

## Model

| member | source | states |
|---|---|---|
| CatalogService.GetProductById | src/main/java/com/ecommerce/demo/services/ProductService.java:18-21 | succeeds exactly when a product has the id, returning that product; otherwise fails with ProductNotFound for that id |
| CatalogService.GetUserById | src/main/java/com/ecommerce/demo/services/OrderService.java:52 | succeeds exactly when a user has the id, returning that user; otherwise fails with UserNotFound for that id |
| OrderRules.Resolve | src/main/java/com/ecommerce/demo/services/OrderService.java:58-59 | succeeds exactly when every entry's product exists; the products then come in request order; a failure names the first entry whose product is missing |
| OrderRules.ResolveFailsAt | src/main/java/com/ecommerce/demo/services/OrderService.java:58-59 | when entry k is the first with a missing product, the lookup fails with that product's ProductNotFound |
| OrderRules.AmountOfCarriedRequest | src/main/java/com/ecommerce/demo/services/OrderService.java:69-72 | the stream reduction from zero over lines carrying a request equals the reference sum Σ price × quantity over the request |
| OrderRules.ComposeItems | src/main/java/com/ecommerce/demo/services/OrderService.java:58-66 | one line per request entry, in request order, with the entry's product and quantity; the lines get distinct fresh ids from the next line id on |
| OrderRules.ComposeIsRebuildFromNothing | src/main/java/com/ecommerce/demo/services/OrderService.java:58-66 | composing the lines of a new order is the same as rebuilding lines against an order with no lines, where every entry makes a new line |
| OrderRules.PlacedOrderSpec | src/main/java/com/ecommerce/demo/services/OrderService.java:54-74 | a new order is Pending, carries the request line by line, costs Σ price × quantity, and has distinct line ids below the next line id |
| OrderRules.FirstLineFor | src/main/java/com/ecommerce/demo/services/OrderService.java:100-103 | the line findFirst picks: the first existing line with that product, no earlier line has it, and none is found exactly when no line has it |
| OrderRules.RebuildItems | src/main/java/com/ecommerce/demo/services/OrderService.java:96-114 | (corrected rebuild) after an update the lines are exactly the request's products and quantities in request order; products not in the request are dropped |
| OrderRules.RebuildIdentity | src/main/java/com/ecommerce/demo/services/OrderService.java:99-108 | (corrected rebuild) the first entry for a product already in the order keeps that line's id; every other entry takes the next identity value, counting only new lines, in request order; the ids stay distinct and below the next line id plus the number of new lines |
| OrderRules.RebuiltIdSnoc | src/main/java/com/ecommerce/demo/services/OrderService.java:96-110 | (corrected rebuild) one more request entry leaves the earlier lines' ids alone; it reuses a line exactly when the order has one for its product and no earlier entry names it; otherwise it takes the next identity value and the count of new lines grows by one |
| OrderRules.RebuildItemsSnoc | src/main/java/com/ecommerce/demo/services/OrderService.java:96-110 | (corrected rebuild) one more request entry appends exactly its own line and leaves the earlier lines unchanged |
| OrderRules.RebuildStep | src/main/java/com/ecommerce/demo/services/OrderService.java:96-110 | (corrected rebuild) the appended line reuses the existing line's id and takes no identity value, or takes the next identity value and adds one to the count of new lines |
| OrderRules.RebuildAsWrittenAgrees | src/main/java/com/ecommerce/demo/services/OrderService.java:96-110 | when no product the order already holds is named twice in the request (products new to the order may repeat), the lines the code builds are exactly the corrected rebuild's, ids and quantities included |
| OrderRules.RebuiltOrderSpec | src/main/java/com/ecommerce/demo/services/OrderService.java:92-122 | (corrected rebuild) an updated order keeps its id and status, takes the new user, carries exactly the request, its amount is recomputed as Σ price × quantity, and its line ids stay below the next line id plus the number of new lines |
| OrderRules.RebuildAsWrittenOvercharges | src/main/java/com/ecommerce/demo/services/OrderService.java:96-110 | with a product named twice, the lines as written share one line and one quantity, and charge 60.00 for a request costing 50.00; the corrected rebuild charges 50.00 |
| OrderRules.ToView | src/main/java/com/ecommerce/demo/services/OrderService.java:137-157 | the view copies id, user, amount and status, with one line view (line id, product id, quantity) per line in the same order |
| OrderRules.OrdersBelowIsStore | src/main/java/com/ecommerce/demo/services/OrderService.java:37 | findAll lists exactly the stored orders, each once, in ascending id order |
| OrderRules.ViewAll | src/main/java/com/ecommerce/demo/services/OrderService.java:37-39 | getAllOrders renders every stored order, and renders nothing else; the views come in ascending id order, so each order appears once |
| Orders.PlacementSpec | src/main/java/com/ecommerce/demo/services/OrderService.java:50-81 | placing succeeds exactly when the user and every product exist; a missing user is reported first; an empty request gives an empty order of 0; a success is Pending, carries the request and costs Σ price × quantity |
| Orders.RevisionSpec | src/main/java/com/ecommerce/demo/services/OrderService.java:84-129 | a missing order fails with OrderNotFound and a Success order is refused with the "payment has been already received" message, whatever the request; otherwise the update succeeds exactly when the user and products exist, keeps id and status, carries the request, costs Σ price × quantity, and takes one identity value per new line; when no product the order already holds is named twice, its lines are exactly those the code builds |
| Orders.PlacementStored | src/main/java/com/ecommerce/demo/services/OrderService.java:78 | the saved new order gets an unused id and keeps every stored order well formed |
| Orders.RevisionStored | src/main/java/com/ecommerce/demo/services/OrderService.java:126 | saving the updated order keeps every stored order well formed, with the next line id advanced by the number of new lines |
| Orders.OrderService.GetOrderById | src/main/java/com/ecommerce/demo/services/OrderService.java:159-162 | returns the stored order, or OrderNotFound exactly when none has the id; the cache is not consulted and nothing changes |
| Orders.OrderService.GetOrderResponseById | src/main/java/com/ecommerce/demo/services/OrderService.java:42-48 | a cache hit is returned as cached without reading the store; a miss renders the stored order and caches it under its id; a missing order caches nothing |
| Orders.OrderService.GetAllOrders | src/main/java/com/ecommerce/demo/services/OrderService.java:34-40 | a hit on the no-argument key returns the cached list; a miss renders all stored orders and caches the list under that key |
| Orders.ResolveLinesStep | src/main/java/com/ecommerce/demo/services/OrderService.java:96-110 | (corrected rebuild) each pass of the loop over the entries keeps its invariant: the products found so far are the catalog's, the lines are the rebuild of the entries so far, and the count is their number of new lines |
| Orders.OrderService.ResolveLines | src/main/java/com/ecommerce/demo/services/OrderService.java:96-110 | the loop over the request's entries gives the lookup's first error, or the rebuilt lines (corrected rebuild) together with the number of new lines |
| Orders.OrderService.PlaceOrder | src/main/java/com/ecommerce/demo/services/OrderService.java:50-81 | on failure nothing is stored; on success exactly one order, under a fresh id, is added, and the cache is untouched |
| Orders.OrderService.UpdateOrder | src/main/java/com/ecommerce/demo/services/OrderService.java:83-129 | on failure the store and the cache are unchanged; on success only that order is replaced, the returned view is put in the cache under its id, and the next line id advances by the number of new lines |
| Orders.OrderService.DeleteOrder | src/main/java/com/ecommerce/demo/services/OrderService.java:131-135 | succeeds exactly when the order exists; it then removes the order and evicts only its id key; a failure changes nothing |
| Orders.OrderService.UpdateOrderStatus | src/main/java/com/ecommerce/demo/services/OrderService.java:164-167 | changes only the order's status and saves it; the cache is untouched |
| Payments.Settle | src/main/java/com/ecommerce/demo/services/PaymentService.java:43-63 | the payment records the order, the user and the amount; it is Success with no message exactly when the amount equals the total, otherwise Failed with the insufficient or excess message |
| Payments.AttemptSpec | src/main/java/com/ecommerce/demo/services/PaymentService.java:33-63 | a missing order is reported first, then a missing user, then a settled order is refused; otherwise exactly one of the three outcomes holds, and the order takes its status and changes in nothing else |
| Payments.ReplayChangesOnlyStatus | src/main/java/com/ecommerce/demo/services/PaymentService.java:50-63 | any run of payments on an order changes only its status, and gives one outcome per payment |
| Payments.SettledRefusesAll | src/main/java/com/ecommerce/demo/services/PaymentService.java:39-41 | once Success, every further payment is refused and the order stays as it is |
| Payments.ReplaySettlesIffExact | src/main/java/com/ecommerce/demo/services/PaymentService.java:39-63 | an order ends Success exactly when it was Success already or some payment matched its total; a Failed order can still be paid |
| Payments.AtMostOneSuccess | src/main/java/com/ecommerce/demo/services/PaymentService.java:39-63 | after a successful payment, every later payment on the order is refused |
| Payments.PaymentService.MakePayment | src/main/java/com/ecommerce/demo/services/PaymentService.java:33-73 | a refusal saves, updates and publishes nothing; otherwise one payment is saved with the next id, the order's status is set, and only an exact payment with the broker up is published; every queued message is a saved Success payment |
| Payments.PaymentService.GetPaymentById | src/main/java/com/ecommerce/demo/services/PaymentService.java:79-82 | returns the saved payment with that id, or PaymentNotFound exactly when none has it |
| Transactions.RecordAppends | src/main/java/com/ecommerce/demo/services/TransactionService.java:23-28 | consuming keeps the existing entries and appends one entry per message, with the message's amount, user and order and the next id |
| Transactions.RecordKeepsNumbered | src/main/java/com/ecommerce/demo/services/TransactionService.java:28 | ledger ids stay 1, 2, 3, … in saving order |
| Transactions.RecordSnoc | src/main/java/com/ecommerce/demo/services/TransactionService.java:19-31 | consuming messages one at a time is the same as consuming them as one batch |
| Transactions.RecordTotal | src/main/java/com/ecommerce/demo/services/TransactionService.java:24-28 | the ledger total grows by exactly the consumed payments' amounts |
| Transactions.NoDeduplication | src/main/java/com/ecommerce/demo/services/TransactionService.java:19-28 | the same message consumed twice gives two entries with equal amount, user and order and different ids |
| Transactions.TransactionService.ConsumePayments | src/main/java/com/ecommerce/demo/services/TransactionService.java:19-31 | appends exactly one entry with the payment's amount, user and order and the next id; earlier entries are unchanged |
| Scenarios.TwoPensPlaced | src/main/java/com/ecommerce/demo/services/OrderService.java:69-74 | two pens at 50.00 make a Pending order of 100.00 with one line |
| Scenarios.OpenOrderForTwoPens | src/main/java/com/ecommerce/demo/entity/CustomerOrder.java:39 | a freshly placed order is stored Pending with id 1 and line id 1, and is not cached |
| Scenarios.PayShortThenOver | src/main/java/com/ecommerce/demo/services/PaymentService.java:50-59 | payments of 50.00 and 150.00 on a 100.00 order are both saved Failed with their messages; the order is left Failed and nothing is published |
| Scenarios.PayTwoPenOrder | src/main/java/com/ecommerce/demo/services/PaymentService.java:33-73 | a payment on the unsettled two-pen order is saved under the next id with the outcome the comparison decides; the order takes the matching status, and only a settling payment is queued |
| Scenarios.Checkout | src/main/java/com/ecommerce/demo/services/PaymentService.java:39-72 | after the two failures an exact payment settles the Failed order as payment 3, and a further payment is refused; the ledger then holds one entry of 100.00 |
| Scenarios.RecordSettlement | src/main/java/com/ecommerce/demo/services/TransactionService.java:19-31 | a fresh recorder consuming one settlement message holds a single entry, numbered 1, with the message's order, user and amount |
| Scenarios.SettleWithBrokerDown | src/main/java/com/ecommerce/demo/services/PaymentService.java:65-70 | a refused publish still saves the Success payment and settles the order, with nothing queued |
| Scenarios.StaleViewAfterPayment | src/main/java/com/ecommerce/demo/services/OrderService.java:164-167 | a view cached before payment is served afterwards as Pending while the stored order is Success |
| Scenarios.DeleteTwice | src/main/java/com/ecommerce/demo/services/OrderService.java:131-135 | the second delete fails with OrderNotFound, and the cached listing still shows the deleted order |
| Scenarios.PenTwiceRevised | src/main/java/com/ecommerce/demo/services/OrderService.java:96-122 | (corrected rebuild) revising the order to name the pen twice keeps line 1 for the first entry, gives the second line 2, and costs 250.00; as written, both entries share line 1 with quantity 3 and cost 300.00 |
| Scenarios.NewProductNamedTwiceAgrees | src/main/java/com/ecommerce/demo/services/OrderService.java:96-110 | an update naming an ink twice on an order that holds only a pen builds, as the code does, lines 2 and 3 for the ink with quantities 1 and 4 |
| Scenarios.ReusedLineTakesNoIdentity | src/main/java/com/ecommerce/demo/services/OrderService.java:96-110 | an update keeping the pen's line 1 and adding an ink gives the ink line 2 and leaves 3 as the next line id |
| Scenarios.UpdateNamingPenTwice | src/main/java/com/ecommerce/demo/services/OrderService.java:83-128 | (corrected rebuild) the update returns and caches the view with lines 1 and 2 and a total of 250.00, and consumes one line id |

## Left out

- **Transport and wiring.** The HTTP controllers, the exception handler, and the RabbitMQ and Hazelcast configuration are not modelled. This includes the cache's TTL, max-idle and LRU eviction: the cache here never forgets an entry on its own.
- **Timestamps, logging and JSON serialization** are not modelled.
- **The settlement queue's delivery.** Redelivery, ordering and durability are not modelled. The listener is called with a queued message.
- **Transactions.** Rollback, isolation and concurrent requests are not modelled. Every operation runs alone and atomically.
- **Other storage operations.** `getAllPayments`, `createProduct`, `getAllProducts` and the user CRUD are plain storage with no invariant. The catalog does not change.
- **Lookup error texts.** The lookup errors carry the missing id, not the exception's text. UserService is not part of this model, so its text is unknown.
- **Null fields and validation.** Null fields in requests are not modelled. Neither are the `@NotEmpty`/`@Positive` annotations, which the controllers never enforce.
- **Quantities.** Any `int` is accepted as a quantity, including zero and negative values, as the code does.
- **Persistence effects.** Three are not modelled:
  - Replaced lines that updateOrder drops are not deleted. There is no `orphanRemoval`, so their rows stay behind.
  - Deleting an order that has payments would violate the payments' foreign key.
  - A second ledger entry for the same order may clash with the `@OneToOne` join column if the schema makes it unique.

  Here the dropped lines are simply gone, and a delete or a ledger append always succeeds.
- Orders.OrderService.GetAllOrders: lists orders in ascending id, because `findAll` has no ORDER BY and the real order is the database's.
- Orders.OrderService.UpdateOrderStatus: requires the order to be stored and well formed. Its only caller, makePayment, passes the order it has just read from the store.
- **Cache freshness.** A stricter cache policy would also evict the all-orders entry on deleteOrder and refresh the cache on every write. The code evicts only the id key, and placeOrder and updateOrderStatus leave the cache alone. The model follows the code.
- **Request ids.** Ids are `nat`, while the endpoints take a `Long`. A negative id, which always fails with NotFound in the code, cannot be passed to the model.
- Orders.RevisionSpec: states the corrected rebuild. Its lines equal the code's (`RebuildAsWritten`) only when no product already in the order is named twice in the request; otherwise the code gives every such entry the same existing line with the last quantity.
- Orders.RevisionStored: saves the corrected rebuild, which differs from the code's only when a product already in the order is named twice.
- Orders.Revision: builds the corrected rebuild, which differs from the code's only when a product already in the order is named twice.
- Orders.OrderService.ResolveLines: returns the corrected rebuild, which differs from the code's only when a product already in the order is named twice.
- Orders.OrderService.UpdateOrder: stores the corrected rebuild, which differs from the code's only when a product already in the order is named twice; there the code would store the lines `RebuildAsWritten` gives.
- Scenarios.PenTwiceRevised: the order it states as the update's result is the corrected one (250.00). The code would give two copies of line 1 with quantity 3 (300.00); the lemma states that outcome too.
- Scenarios.UpdateNamingPenTwice: the view it returns is the corrected rebuild's (lines 1 and 2, 250.00). The code would return two copies of line 1 with quantity 3 and a total of 300.00.

## Findings

| source | as written | input that shows it | evidently intended | confidence | as-written member | corrected member |
|---|---|---|---|---|---|---|
| src/main/java/com/ecommerce/demo/services/OrderService.java:96-110 | every request entry for a product already in the order gets the same existing OrderProduct object via findFirst; each entry overwrites its quantity, so all of them end with the last quantity and share one line id | order with line 1 = (pen at 10.00, 1); update with entries (pen, 2), (pen, 3): both lines show quantity 3 under id 1, and the amount is 60.00 for a request costing 50.00 | one line per request entry carrying that entry's quantity; only the first entry reuses the existing line, the others get new lines with the next identity values (line 2 here); the amount equals Σ price × quantity of the request | not executed | OrderRules.RebuildAsWrittenOvercharges | OrderRules.RebuildIdentity |
