/** End-to-end scenarios of the workflow on a one-product catalog (a pen at 50.00,
    one user), driving the order engine, the payment engine and the
    transaction recorder through the states the services go through. */
module Scenarios {
  import opened Domain
  import opened CatalogService
  import opened OrderRules
  import Orders
  import Payments
  import Transactions

  /** The catalog every scenario runs against. */
  function PenShop(): (c: Catalog)
    ensures WellKeyed(c)
    ensures c.products == map[1 := Product(1, "pen", 50.0)]
  {
    Catalog(map[1 := Product(1, "pen", 50.0)], map[1 := User(1, "ann", "ann@example.com", "555-0100")])
  }

  /** Placing an order for two pens as the first order of a fresh service
      gives a Pending order of 100.00 with a single line. */
  lemma TwoPensPlaced()
    ensures var p := Orders.Placement(PenShop(), OrderRequest(1, [ProductQuantity(1, 2)]), 1, 1);
            && p.Ok? && p.value.id == 1 && p.value.userId == 1 && p.value.status == OrderStatus.Pending
            && p.value.orderAmount == 100.0 && p.value.items == [LineItem(1, Product(1, "pen", 50.0), 2)]
  {
    var reqs := [ProductQuantity(1, 2)];
    var pen := Product(1, "pen", 50.0);
    assert reqs[0].productId in PenShop().products;
    var r := Resolve(PenShop(), reqs);
    assert r.value == [pen];
    Orders.PlacementSpec(PenShop(), OrderRequest(1, reqs), 1, 1);
    assert RequestCharge([pen], reqs) == 50.0 * 2 as real + RequestCharge([], []);
    var items := Orders.Placement(PenShop(), OrderRequest(1, reqs), 1, 1).value.items;
    assert items[0].id == RebuiltId([], [pen], 0, 1);
  }

  /** A fresh order service holding one order for two pens (id 1, total 100.00). */
  method OpenOrderForTwoPens() returns (orders: Orders.OrderService)
    ensures fresh(orders) && orders.Valid() && orders.catalog == PenShop()
    ensures orders.orders == map[1 := TwoPenOrder(OrderStatus.Pending)]
    ensures orders.nextOrderId == 2 && orders.nextLineId == 2 && orders.cache == map[]
  {
    orders := new Orders.OrderService(PenShop());
    TwoPensPlaced();
    var placed := orders.PlaceOrder(OrderRequest(1, [ProductQuantity(1, 2)]));
  }

  /** The two-pen order (line 1, 100.00) in the given status. */
  function TwoPenOrder(status: OrderStatus): Order {
    Order(1, 1, [LineItem(1, Product(1, "pen", 50.0), 2)], 100.0, status)
  }

  /** One payment by the order's user against the unsettled two-pen order:
      it is saved under the next id with the outcome Settle decides, the order
      takes the matching status, and only a settling payment is queued. */
  method PayTwoPenOrder(payments: Payments.PaymentService, status: OrderStatus, amount: real) returns (r: Result<Payment>)
    requires payments.Valid() && payments.orderService.catalog == PenShop()
    requires payments.orderService.orders == map[1 := TwoPenOrder(status)] && status != OrderStatus.Success
    modifies payments, payments.orderService
    ensures payments.Valid()
    ensures var paid := Payments.Settle(TwoPenOrder(status), 1, amount);
            && r == Ok(paid.(id := Some(|old(payments.payments)| + 1)))
            && payments.payments == old(payments.payments) + [r.value]
            && payments.orderService.orders == map[1 := TwoPenOrder(Payments.OrderStatusAfter(paid.status))]
            && payments.published == old(payments.published) + (if paid.status == PaymentStatus.Success then [paid] else [])
  {
    assert 1 in PenShop().users;
    r := payments.MakePayment(PaymentRequest(1, 1, amount), true);
  }

  /** Against the order of 100.00, a payment of 50.00 is refused as
      insufficient and then one of 150.00 as excessive: both are saved as
      Failed, the order is left Failed, and nothing is published. */
  method PayShortThenOver() returns (payments: Payments.PaymentService, short: Result<Payment>, over: Result<Payment>)
    ensures fresh(payments) && fresh(payments.orderService) && payments.Valid()
    ensures payments.orderService.catalog == PenShop()
    ensures payments.orderService.orders == map[1 := TwoPenOrder(OrderStatus.Failed)]
    ensures |payments.payments| == 2 && payments.published == []
    ensures short.Ok? && short.value.status == PaymentStatus.Failed
    ensures short.value.errorMessage == Some(Payments.INSUFFICIENT_AMOUNT) && short.value.receivedAmount == 50.0
    ensures over.Ok? && over.value.status == PaymentStatus.Failed
    ensures over.value.errorMessage == Some(Payments.EXCESS_AMOUNT) && over.value.receivedAmount == 150.0
  {
    var orders := OpenOrderForTwoPens();
    payments := new Payments.PaymentService(orders);
    short := PayTwoPenOrder(payments, OrderStatus.Pending, 50.0);
    over := PayTwoPenOrder(payments, OrderStatus.Failed, 150.0);
  }

  /** The settlement flow: after the short and the excessive payment, a
      payment of exactly 100.00 settles the Failed order and a further one is
      rejected; consuming what was published leaves one ledger entry of 100.00
      for that order and user. */
  method Checkout() returns (attempts: seq<Result<Payment>>, ledger: seq<Transaction>)
    ensures |attempts| == 4
    ensures attempts[0].Ok? && attempts[0].value.status == PaymentStatus.Failed
    ensures attempts[0].value.errorMessage == Some(Payments.INSUFFICIENT_AMOUNT)
    ensures attempts[1].Ok? && attempts[1].value.status == PaymentStatus.Failed
    ensures attempts[1].value.errorMessage == Some(Payments.EXCESS_AMOUNT)
    ensures attempts[2].Ok? && attempts[2].value.status == PaymentStatus.Success
    ensures attempts[2].value.errorMessage == None && attempts[2].value.id == Some(3)
    ensures attempts[3] == Err(Rejected(Payments.PAYMENT_ALREADY_RECEIVED))
    ensures ledger == [Transaction(1, 1, 1, 100.0)]
  {
    var payments, a0, a1 := PayShortThenOver();
    var a2 := PayTwoPenOrder(payments, OrderStatus.Failed, 100.0);
    var settled := Payment(None, 1, 1, 100.0, PaymentStatus.Success, None);
    assert a2 == Ok(settled.(id := Some(3)));
    assert payments.orderService.orders == map[1 := TwoPenOrder(OrderStatus.Success)];
    assert payments.published == [settled];
    var a3 := payments.MakePayment(PaymentRequest(1, 1, 100.0), true);
    assert a3 == Err(Rejected(Payments.PAYMENT_ALREADY_RECEIVED));
    attempts := [a0, a1, a2, a3];
    ledger := RecordSettlement(settled);
  }

  /** A fresh transaction recorder consuming one settlement message holds one
      entry, numbered 1, for that message's order, user and amount. */
  method RecordSettlement(p: Payment) returns (ledger: seq<Transaction>)
    ensures ledger == [Transaction(1, p.orderId, p.userId, p.receivedAmount)]
  {
    var recorder := new Transactions.TransactionService();
    recorder.ConsumePayments(p);
    ledger := recorder.ledger;
  }

  /** A broker that refuses the message does not undo the settlement: the
      payment is saved as Success, the order is settled, and nothing is queued. */
  method SettleWithBrokerDown() returns (r: Result<Payment>, status: OrderStatus, queued: seq<Payment>)
    ensures r.Ok? && r.value.status == PaymentStatus.Success && r.value.id == Some(1)
    ensures status == OrderStatus.Success && queued == []
  {
    var orders := OpenOrderForTwoPens();
    var payments := new Payments.PaymentService(orders);
    r := payments.MakePayment(PaymentRequest(1, 1, 100.0), false);
    status := orders.orders[1].status;
    queued := payments.published;
  }

  /** The cached view goes stale: payment sets the stored status without
      touching "orders-cache", so a view cached before the payment is served
      afterwards with the old status. */
  method StaleViewAfterPayment() returns (served: Result<OrderResponse>, stored: Order)
    ensures served.Ok? && served.value.id == stored.id == 1
    ensures served.value.orderStatus == OrderStatus.Pending && stored.status == OrderStatus.Success
  {
    var orders := OpenOrderForTwoPens();
    var before := orders.GetOrderResponseById(1);
    var payments := new Payments.PaymentService(orders);
    var paid := payments.MakePayment(PaymentRequest(1, 1, 100.0), true);
    served := orders.GetOrderResponseById(1);
    var found := orders.GetOrderById(1);
    stored := found.value;
  }

  /** Deleting twice: the first delete succeeds and evicts the order's view,
      the second fails with OrderNotFound; the cached listing still shows the
      deleted order, as deleteOrder evicts only the per-id key. */
  method DeleteTwice() returns (first: Result<()>, second: Result<()>, listing: seq<OrderResponse>)
    ensures first.Ok? && second == Err(OrderNotFound(1))
    ensures |listing| == 1 && listing[0].id == 1
  {
    var orders := OpenOrderForTwoPens();
    var cachedListing := orders.GetAllOrders();
    assert OrdersBelow(orders.orders, 1) == [];
    first := orders.DeleteOrder(1);
    second := orders.DeleteOrder(1);
    listing := orders.GetAllOrders();
  }

  /** Revising the two-pen order to name the pen twice, 2 and then 3: with the
      corrected rebuild the first entry keeps line 1, the second gets the next
      identity value 2, and the order costs 250.00 with its status kept; as
      written, both entries share line 1 with quantity 3 and cost 300.00. */
  lemma PenTwiceRevised()
    ensures var pen := Product(1, "pen", 50.0);
            var before := Order(1, 1, [LineItem(1, pen, 2)], 100.0, OrderStatus.Pending);
            var reqs := [ProductQuantity(1, 2), ProductQuantity(1, 3)];
            && Orders.Revision(PenShop(), map[1 := before], 1, OrderRequest(1, reqs), 2)
                 == Ok(Order(1, 1, [LineItem(1, pen, 2), LineItem(2, pen, 3)], 250.0, OrderStatus.Pending))
            && Resolve(PenShop(), reqs) == Ok([pen, pen]) && NewLines(before.items, [pen, pen]) == 1
            && RebuildAsWritten(before.items, [pen, pen], reqs, 2) == [LineItem(1, pen, 3), LineItem(1, pen, 3)]
            && OrderAmount(RebuildAsWritten(before.items, [pen, pen], reqs, 2)) == 300.0
  {
    var pen := Product(1, "pen", 50.0);
    var before := Order(1, 1, [LineItem(1, pen, 2)], 100.0, OrderStatus.Pending);
    var reqs := [ProductQuantity(1, 2), ProductQuantity(1, 3)];
    assert reqs[0].productId in PenShop().products && reqs[1].productId in PenShop().products;
    var r := Resolve(PenShop(), reqs);
    assert r.value == [pen, pen];
    assert FirstLineFor(before.items, 1) == Some(0);
    assert RebuiltId(before.items, [pen, pen], 0, 2) == 1;
    assert !Reuses(before.items, [pen, pen], 1) && NewLinesBefore(before.items, [pen, pen], 1) == 0;
    var items := RebuildItems(before.items, [pen, pen], reqs, 2);
    assert items == [LineItem(1, pen, 2), LineItem(2, pen, 3)];
    assert items[..1] == [LineItem(1, pen, 2)] && items[..1][..0] == [];
    assert OrderAmount(items[..1]) == 0.0 + 50.0 * 2 as real;
    assert OrderAmount(items) == OrderAmount(items[..1]) + 50.0 * 3 as real;
    assert LastQuantityFor([pen, pen], reqs, 1, 2) == 3;
    assert LastQuantityFor([pen, pen], reqs, 1, 3) == 3;
    var asWritten := RebuildAsWritten(before.items, [pen, pen], reqs, 2);
    assert asWritten == [LineItem(1, pen, 3), LineItem(1, pen, 3)];
    assert asWritten[..1] == [LineItem(1, pen, 3)] && asWritten[..1][..0] == [];
    assert OrderAmount(asWritten[..1]) == 0.0 + 50.0 * 3 as real;
    assert OrderAmount(asWritten) == OrderAmount(asWritten[..1]) + 50.0 * 3 as real;
  }

  /** A reused line takes no identity value: revising an order holding line 1
      for a pen, with line ids issued up to 1, to a pen and an ink keeps line 1
      and gives the ink line 2, after which the next value is 3. */
  lemma ReusedLineTakesNoIdentity()
    ensures var pen := Product(1, "pen", 50.0);
            var ink := Product(2, "ink", 5.0);
            var reqs := [ProductQuantity(1, 1), ProductQuantity(2, 1)];
            && RebuildItems([LineItem(1, pen, 1)], [pen, ink], reqs, 2) == [LineItem(1, pen, 1), LineItem(2, ink, 1)]
            && 2 + NewLines([LineItem(1, pen, 1)], [pen, ink]) == 3
  {
    var pen := Product(1, "pen", 50.0);
    var ink := Product(2, "ink", 5.0);
    var existing := [LineItem(1, pen, 1)];
    assert FirstLineFor(existing, 1) == Some(0);
    assert FirstLineFor(existing, 2) == None;
    assert Reuses(existing, [pen, ink], 0) && !Reuses(existing, [pen, ink], 1);
  }

  /** A product new to the order may be named twice without the source going
      wrong: revising an order holding line 1 for a pen, with line ids issued
      up to 1, to two entries for an ink builds, as written and corrected
      alike, lines 2 and 3 for the ink with their own quantities. */
  lemma NewProductNamedTwiceAgrees()
    ensures var pen := Product(1, "pen", 50.0);
            var ink := Product(2, "ink", 5.0);
            var existing := [LineItem(1, pen, 1)];
            var reqs := [ProductQuantity(2, 1), ProductQuantity(2, 4)];
            && RebuildAsWritten(existing, [ink, ink], reqs, 2) == [LineItem(2, ink, 1), LineItem(3, ink, 4)]
            && RebuildItems(existing, [ink, ink], reqs, 2) == RebuildAsWritten(existing, [ink, ink], reqs, 2)
  {
    var pen := Product(1, "pen", 50.0);
    var ink := Product(2, "ink", 5.0);
    var existing := [LineItem(1, pen, 1)];
    var reqs := [ProductQuantity(2, 1), ProductQuantity(2, 4)];
    assert FirstLineFor(existing, 2) == None;
    RebuildAsWrittenAgrees(existing, [ink, ink], reqs, 2);
  }

  /** Naming the pen twice in an update (corrected rebuild): the first entry
      keeps the existing line, the second gets a new line with the next
      identity value, the order is charged for all five pens, one identity
      value is consumed, and the cache holds the returned view. */
  method UpdateNamingPenTwice() returns (r: Result<OrderResponse>, cached: OrderResponse, nextLineId: nat)
    ensures r.Ok? && r.value.orderAmount == 250.0 && r.value.orderStatus == OrderStatus.Pending
    ensures r.value.orderProducts == [OrderProductResponse(1, 1, 2), OrderProductResponse(2, 1, 3)]
    ensures cached == r.value && nextLineId == 3
  {
    var orders := OpenOrderForTwoPens();
    PenTwiceRevised();
    var pen := Product(1, "pen", 50.0);
    var after := Order(1, 1, [LineItem(1, pen, 2), LineItem(2, pen, 3)], 250.0, OrderStatus.Pending);
    assert orders.orders[1] == Order(1, 1, [LineItem(1, pen, 2)], 100.0, OrderStatus.Pending);
    r := orders.UpdateOrder(1, OrderRequest(1, [ProductQuantity(1, 2), ProductQuantity(1, 3)]));
    assert r == Ok(ToView(after)) && orders.nextLineId == 3;
    assert ToView(after).orderProducts[0] == OrderProductResponse(1, 1, 2);
    assert ToView(after).orderProducts[1] == OrderProductResponse(2, 1, 3);
    cached := orders.cache[Orders.OrderKey(1)].view;
    nextLineId := orders.nextLineId;
  }
}
