/** The payment engine (PaymentService): the guard against settled orders, the
    three-way comparison of the paid amount with the order amount, the status
    update of the order, the best-effort publish of a settled payment, and the
    payment repository. */
module Payments {
  import opened Domain
  import opened CatalogService
  import opened OrderRules
  import Orders

  const PAYMENT_ALREADY_RECEIVED := "Order payment has been already received!"
  const INSUFFICIENT_AMOUNT := "Insufficient amount!"
  const EXCESS_AMOUNT := "Payment amount exceeding order amount!"

  /** The order status a payment of the given status leads to. */
  function OrderStatusAfter(s: PaymentStatus): OrderStatus {
    match s
    case Success => OrderStatus.Success
    case Failed => OrderStatus.Failed
  }

  /** The payment record makePayment builds for an order that is not settled,
      before it is saved (so without an id). BigDecimal.compareTo compares
      numerically, which `real` comparison is. */
  function Settle(o: Order, userId: nat, amount: real): (p: Payment)
    ensures p.id == None && p.orderId == o.id && p.userId == userId && p.receivedAmount == amount
    ensures p.status == PaymentStatus.Success <==> amount == o.orderAmount
    ensures p.status == PaymentStatus.Success <==> p.errorMessage == None
    ensures amount < o.orderAmount <==> p.errorMessage == Some(INSUFFICIENT_AMOUNT)
    ensures amount > o.orderAmount <==> p.errorMessage == Some(EXCESS_AMOUNT)
  {
    var p := Payment(None, o.id, userId, amount, PaymentStatus.Failed, None);
    if amount < o.orderAmount then p.(status := PaymentStatus.Failed, errorMessage := Some(INSUFFICIENT_AMOUNT))
    else if amount > o.orderAmount then p.(status := PaymentStatus.Failed, errorMessage := Some(EXCESS_AMOUNT))
    else p.(status := PaymentStatus.Success)
  }

  /** One payment attempt against an order whose user exists: the new order
      and the payment, or the rejection of an already settled order. */
  function PayOrder(o: Order, userId: nat, amount: real): (Order, Result<Payment>)
  {
    if o.status == OrderStatus.Success then (o, Err(Rejected(PAYMENT_ALREADY_RECEIVED)))
    else
      var p := Settle(o, userId, amount);
      (o.(status := OrderStatusAfter(p.status)), Ok(p))
  }

  /** What makePayment decides, as a value: the order lookup comes first, then
      the user lookup, then the guard against a settled order, then Settle. */
  function Attempt(c: Catalog, orders: map<nat, Order>, req: PaymentRequest): Result<(Order, Payment)>
  {
    if req.orderId !in orders then Err(OrderNotFound(req.orderId))
    else if req.userId !in c.users then Err(UserNotFound(req.userId))
    else
      match PayOrder(orders[req.orderId], req.userId, req.amount)
      case (o, Ok(p)) => Ok((o, p))
      case (_, Err(e)) => Err(e)
  }

  /** makePayment's outcomes: a missing order is reported first, then a missing
      user (even for a settled order), then a settled order is refused; in every
      other case the payment records the requested amount and exactly one of
      the three comparison outcomes holds, the order taking the payment's
      status and changing in nothing else. */
  lemma AttemptSpec(c: Catalog, orders: map<nat, Order>, req: PaymentRequest)
    ensures var a := Attempt(c, orders, req);
            && (req.orderId !in orders ==> a == Err(OrderNotFound(req.orderId)))
            && (req.orderId in orders && req.userId !in c.users ==> a == Err(UserNotFound(req.userId)))
            && (req.orderId in orders && req.userId in c.users && orders[req.orderId].status == OrderStatus.Success ==>
                  a == Err(Rejected(PAYMENT_ALREADY_RECEIVED)))
            && (a.Ok? <==> req.orderId in orders && req.userId in c.users && orders[req.orderId].status != OrderStatus.Success)
            && (a.Ok? ==>
                  var (o, p) := a.value;
                  var total := orders[req.orderId].orderAmount;
                  && o == orders[req.orderId].(status := OrderStatusAfter(p.status))
                  && p.orderId == orders[req.orderId].id && p.userId == req.userId && p.receivedAmount == req.amount
                  && ((req.amount < total && p.status == PaymentStatus.Failed && p.errorMessage == Some(INSUFFICIENT_AMOUNT)
                       && o.status == OrderStatus.Failed)
                   || (req.amount > total && p.status == PaymentStatus.Failed && p.errorMessage == Some(EXCESS_AMOUNT)
                       && o.status == OrderStatus.Failed)
                   || (req.amount == total && p.status == PaymentStatus.Success && p.errorMessage == None
                       && o.status == OrderStatus.Success)))
  {
    if req.orderId in orders && req.userId in c.users && orders[req.orderId].status != OrderStatus.Success {
      var p := Settle(orders[req.orderId], req.userId, req.amount);
      assert PayOrder(orders[req.orderId], req.userId, req.amount) == (orders[req.orderId].(status := OrderStatusAfter(p.status)), Ok(p));
    }
  }

  /** A sequence of payment attempts by one user against one order, in turn:
      the final order and each attempt's outcome. */
  function Replay(o: Order, userId: nat, amounts: seq<real>): (Order, seq<Result<Payment>>)
    decreases |amounts|
  {
    if amounts == [] then (o, [])
    else
      var (o', r) := PayOrder(o, userId, amounts[0]);
      var (final, rs) := Replay(o', userId, amounts[1..]);
      (final, [r] + rs)
  }

  /** Payment attempts change only the order's status. */
  lemma {:induction false} ReplayChangesOnlyStatus(o: Order, userId: nat, amounts: seq<real>)
    ensures Replay(o, userId, amounts).0 == o.(status := Replay(o, userId, amounts).0.status)
    ensures |Replay(o, userId, amounts).1| == |amounts|
    decreases |amounts|
  {
    if amounts != [] {
      ReplayChangesOnlyStatus(PayOrder(o, userId, amounts[0]).0, userId, amounts[1..]);
    }
  }

  /** Success is terminal: once an order is settled, every further attempt is
      refused with "Order payment has been already received!" and the order
      stays as it is. */
  lemma {:induction false} SettledRefusesAll(o: Order, userId: nat, amounts: seq<real>)
    requires o.status == OrderStatus.Success
    ensures Replay(o, userId, amounts).0 == o
    ensures forall k :: 0 <= k < |Replay(o, userId, amounts).1| ==>
              Replay(o, userId, amounts).1[k] == Err(Rejected(PAYMENT_ALREADY_RECEIVED))
    decreases |amounts|
  {
    if amounts != [] {
      SettledRefusesAll(o, userId, amounts[1..]);
    }
  }

  /** An order ends settled exactly when it was settled already or one of the
      attempts paid its amount exactly; a Failed order is not blocked, so a
      later exact payment still settles it. */
  lemma {:induction false} ReplaySettlesIffExact(o: Order, userId: nat, amounts: seq<real>)
    ensures Replay(o, userId, amounts).0.status == OrderStatus.Success <==>
              o.status == OrderStatus.Success || exists k :: 0 <= k < |amounts| && amounts[k] == o.orderAmount
    decreases |amounts|
  {
    if amounts != [] {
      var (o', _) := PayOrder(o, userId, amounts[0]);
      ReplaySettlesIffExact(o', userId, amounts[1..]);
      if o.status != OrderStatus.Success && amounts[0] != o.orderAmount {
        assert o'.orderAmount == o.orderAmount;
        forall k | 0 <= k < |amounts| && amounts[k] == o.orderAmount ensures exists j :: 0 <= j < |amounts[1..]| && amounts[1..][j] == o'.orderAmount {
          assert amounts[1..][k - 1] == amounts[k];
        }
        forall j | 0 <= j < |amounts[1..]| && amounts[1..][j] == o'.orderAmount ensures exists k :: 0 <= k < |amounts| && amounts[k] == o.orderAmount {
          assert amounts[j + 1] == amounts[1..][j];
        }
      }
    }
  }

  /** At most one attempt against an order succeeds: after a successful payment
      every later attempt is refused. */
  lemma {:induction false} AtMostOneSuccess(o: Order, userId: nat, amounts: seq<real>)
    ensures var rs := Replay(o, userId, amounts).1;
            forall i, j :: 0 <= i < j < |rs| && rs[i].Ok? && rs[i].value.status == PaymentStatus.Success ==>
              rs[j] == Err(Rejected(PAYMENT_ALREADY_RECEIVED))
    decreases |amounts|
  {
    if amounts != [] {
      var (o', r) := PayOrder(o, userId, amounts[0]);
      AtMostOneSuccess(o', userId, amounts[1..]);
      ReplayChangesOnlyStatus(o', userId, amounts[1..]);
      var rs := Replay(o, userId, amounts).1;
      var rest := Replay(o', userId, amounts[1..]).1;
      assert rs == [r] + rest;
      if r.Ok? && r.value.status == PaymentStatus.Success {
        SettledRefusesAll(o', userId, amounts[1..]);
      }
    }
  }

  /** A settlement message is a successful payment, sent before it was saved
      (so without an id), that the payment repository holds. */
  ghost predicate Announced(payments: seq<Payment>, m: Payment) {
    && m.status == PaymentStatus.Success && m.errorMessage == None && m.id == None
    && exists i :: 0 <= i < |payments| && payments[i] == m.(id := Some(i + 1))
  }

  /** Saving another payment keeps every earlier announcement backed. */
  lemma AnnouncedAfterSave(payments: seq<Payment>, saved: Payment, m: Payment)
    requires Announced(payments, m)
    ensures Announced(payments + [saved], m)
  {
    var i :| 0 <= i < |payments| && payments[i] == m.(id := Some(i + 1));
    assert (payments + [saved])[i] == payments[i];
  }

  class PaymentService {
    const orderService: Orders.OrderService
    /** The payment repository; the payment at index i has id i + 1. */
    var payments: seq<Payment>
    /** The messages handed to the settlement queue. */
    var published: seq<Payment>

    ghost predicate Valid()
      reads this, orderService
    {
      && orderService.Valid()
      && (forall i :: 0 <= i < |payments| ==> payments[i].id == Some(i + 1))
      && (forall k :: 0 <= k < |published| ==> Announced(payments, published[k]))
    }

    constructor (orderService: Orders.OrderService)
      requires orderService.Valid()
      ensures Valid()
      ensures this.orderService == orderService && payments == [] && published == []
    {
      this.orderService := orderService;
      payments := [];
      published := [];
    }

    /** makePayment. `publishOk` is whether the broker accepts the settlement
        message; a refusal is swallowed and changes nothing else. */
    method MakePayment(req: PaymentRequest, publishOk: bool) returns (r: Result<Payment>)
      requires Valid()
      modifies this`payments, this`published, orderService`orders
      ensures Valid()
      ensures var a := Attempt(orderService.catalog, old(orderService.orders), req);
              && (a.Err? ==> && r == Err(a.error) && payments == old(payments)
                             && orderService.orders == old(orderService.orders) && published == old(published))
              && (a.Ok? ==> && r == Ok(a.value.1.(id := Some(|old(payments)| + 1)))
                            && payments == old(payments) + [r.value]
                            && orderService.orders == old(orderService.orders)[req.orderId := a.value.0]
                            && published == old(published) +
                                 (if a.value.1.status == PaymentStatus.Success && publishOk then [a.value.1] else []))
    {
      var found := orderService.GetOrderById(req.orderId);
      if found.Err? {
        r := Err(found.error);
        return;
      }
      var order := found.value;
      var user := GetUserById(orderService.catalog, req.userId);
      if user.Err? {
        r := Err(user.error);
        return;
      }
      var paymentAmount := req.amount;
      var orderAmount := order.orderAmount;
      if order.status == OrderStatus.Success {
        r := Err(Rejected(PAYMENT_ALREADY_RECEIVED));
        return;
      }
      var payment := Payment(None, order.id, user.value.id, paymentAmount, PaymentStatus.Failed, None);
      if paymentAmount < orderAmount {
        payment := payment.(status := PaymentStatus.Failed, errorMessage := Some(INSUFFICIENT_AMOUNT));
        orderService.UpdateOrderStatus(order, OrderStatus.Failed);
      } else if paymentAmount > orderAmount {
        payment := payment.(status := PaymentStatus.Failed, errorMessage := Some(EXCESS_AMOUNT));
        orderService.UpdateOrderStatus(order, OrderStatus.Failed);
      } else {
        payment := payment.(status := PaymentStatus.Success);
        orderService.UpdateOrderStatus(order, OrderStatus.Success);
        if publishOk {
          published := published + [payment];
        }
      }
      assert payment == Settle(order, req.userId, req.amount);
      var saved := payment.(id := Some(|payments| + 1));
      forall k | 0 <= k < |old(published)| ensures Announced(payments + [saved], old(published)[k]) {
        AnnouncedAfterSave(payments, saved, old(published)[k]);
      }
      assert (payments + [saved])[|payments|] == payment.(id := Some(|payments| + 1));
      payments := payments + [saved];
      r := Ok(saved);
    }

    /** getPaymentById: the saved payment with that id, or PaymentNotFound. */
    method GetPaymentById(id: nat) returns (r: Result<Payment>)
      requires Valid()
      ensures r.Ok? <==> exists i :: 0 <= i < |payments| && payments[i].id == Some(id)
      ensures r.Ok? ==> r.value in payments && r.value.id == Some(id)
      ensures r.Err? ==> r.error == PaymentNotFound(id)
    {
      if 1 <= id <= |payments| {
        r := Ok(payments[id - 1]);
      } else {
        r := Err(PaymentNotFound(id));
      }
    }
  }
}
