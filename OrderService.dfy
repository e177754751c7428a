/** The order engine (OrderService) and the "orders-cache" wrapped around it.
    The cache follows the annotations on the service: getOrderResponseById and
    getAllOrders are @Cacheable (a hit is served from the cache, a miss fills
    it), updateOrder is @CachePut under the order id, deleteOrder is
    @CacheEvict under the order id after a successful delete; placeOrder and
    updateOrderStatus do not touch the cache. */
module Orders {
  import opened Domain
  import opened CatalogService
  import opened OrderRules

  const ORDER_UPDATE_REJECTED := "Order update failed as payment has been already received!"

  /** Keys of "orders-cache": an order id, or the no-argument key of getAllOrders. */
  datatype CacheKey = OrderKey(id: nat) | AllOrdersKey

  datatype CacheEntry = OrderView(view: OrderResponse) | OrderViews(views: seq<OrderResponse>)

  /** An id key holds the view of that order; the no-argument key holds a list of views. */
  ghost predicate CacheShape(k: CacheKey, e: CacheEntry) {
    match k
    case OrderKey(id) => e.OrderView? && e.view.id == id
    case AllOrdersKey => e.OrderViews?
  }

  /** What placeOrder does to the store, as a value: the user is looked up first,
      then every product in request order; the new order gets id `id` and its
      lines the ids from `firstLineId` on. */
  function Placement(c: Catalog, req: OrderRequest, id: nat, firstLineId: nat): Result<Order>
  {
    if req.userId !in c.users then Err(UserNotFound(req.userId))
    else
      var prods := Resolve(c, req.products);
      if prods.Err? then Err(prods.error)
      else Ok(PlacedOrder(id, req.userId, prods.value, req.products, firstLineId))
  }

  /** placeOrder succeeds exactly when the user and every product exist, even
      for an empty product list; the order it saves is Pending, has one line per
      entry in request order with the requested product and quantity, and its
      amount is Σ price × quantity. A missing user is reported before any
      missing product. */
  lemma PlacementSpec(c: Catalog, req: OrderRequest, id: nat, firstLineId: nat)
    ensures var p := Placement(c, req, id, firstLineId);
            && (p.Ok? <==> req.userId in c.users && forall k :: 0 <= k < |req.products| ==> req.products[k].productId in c.products)
            && (req.userId !in c.users ==> p == Err(UserNotFound(req.userId)))
            && (p.Err? && req.userId in c.users ==> p.error.ProductNotFound?)
            && (p.Ok? ==> && p.value.id == id && p.value.userId == req.userId
                          && p.value.status == OrderStatus.Pending
                          && CarriesRequest(p.value.items, Resolve(c, req.products).value, req.products)
                          && (forall k :: 0 <= k < |req.products| ==> p.value.items[k].product == c.products[req.products[k].productId])
                          && p.value.orderAmount == RequestCharge(Resolve(c, req.products).value, req.products)
                          && WellFormed(p.value, firstLineId + |req.products|))
            && (req.products == [] && req.userId in c.users ==> p.Ok? && p.value.orderAmount == 0.0 && p.value.items == [])
  {
    var r := Resolve(c, req.products);
    if req.userId in c.users && r.Ok? {
      PlacedOrderSpec(id, req.userId, r.value, req.products, firstLineId);
    }
  }

  /** What updateOrder does to order `id`, as a value: the order lookup comes
      first, then the guard against settled orders, then the user and the
      products; the lines are rebuilt and the amount recomputed. */
  function Revision(c: Catalog, orders: map<nat, Order>, id: nat, req: OrderRequest, firstLineId: nat): Result<Order>
  {
    if id !in orders then Err(OrderNotFound(id))
    else if orders[id].status == OrderStatus.Success then Err(Rejected(ORDER_UPDATE_REJECTED))
    else if req.userId !in c.users then Err(UserNotFound(req.userId))
    else
      var prods := Resolve(c, req.products);
      if prods.Err? then Err(prods.error)
      else Ok(RebuiltOrder(orders[id], req.userId, prods.value, req.products, firstLineId))
  }

  /** updateOrder refuses a settled order whatever the request, succeeds on any
      other stored order exactly when the user and products exist, and then
      keeps the order's id and status (a Failed order stays Failed), carries
      exactly the request, costs Σ price × quantity and stays well formed,
      having taken one identity value per new line. When no product the order
      already holds is named twice, the lines are exactly those the source builds (RebuildAsWritten). */
  lemma RevisionSpec(c: Catalog, orders: map<nat, Order>, id: nat, req: OrderRequest, firstLineId: nat)
    requires id in orders ==> WellFormed(orders[id], firstLineId)
    ensures var u := Revision(c, orders, id, req, firstLineId);
            && (id !in orders ==> u == Err(OrderNotFound(id)))
            && (id in orders && orders[id].status == OrderStatus.Success ==> u == Err(Rejected(ORDER_UPDATE_REJECTED)))
            && (u.Ok? <==> && id in orders && orders[id].status != OrderStatus.Success && req.userId in c.users
                           && forall k :: 0 <= k < |req.products| ==> req.products[k].productId in c.products)
            && (u.Ok? ==> && u.value.id == orders[id].id && u.value.status == orders[id].status
                          && u.value.userId == req.userId
                          && CarriesRequest(u.value.items, Resolve(c, req.products).value, req.products)
                          && u.value.orderAmount == RequestCharge(Resolve(c, req.products).value, req.products)
                          && WellFormed(u.value, firstLineId + NewLines(orders[id].items, Resolve(c, req.products).value))
                          && (NoHeldRepeats(orders[id].items, Resolve(c, req.products).value) ==>
                                u.value.items == RebuildAsWritten(orders[id].items, Resolve(c, req.products).value, req.products, firstLineId)))
  {
    var r := Resolve(c, req.products);
    if id in orders && orders[id].status != OrderStatus.Success && req.userId in c.users && r.Ok? {
      RebuiltOrderSpec(orders[id], req.userId, r.value, req.products, firstLineId);
      if NoHeldRepeats(orders[id].items, r.value) {
        RebuildAsWrittenAgrees(orders[id].items, r.value, req.products, firstLineId);
      }
    }
  }

  /** Every stored order sits under its own id, below the next order id, and is well formed. */
  ghost predicate StoreValid(orders: map<nat, Order>, nextOrderId: nat, nextLineId: nat) {
    && 1 <= nextOrderId
    && forall id :: id in orders ==> orders[id].id == id && 1 <= id < nextOrderId && WellFormed(orders[id], nextLineId)
  }

  ghost predicate CacheValid(cache: map<CacheKey, CacheEntry>) {
    forall k :: k in cache ==> CacheShape(k, cache[k])
  }

  /** Saving a well-formed order under its id keeps the store valid, also when more line ids have been issued. */
  lemma SaveKeepsStoreValid(orders: map<nat, Order>, nextOrderId: nat, nextLineId: nat, o: Order, nextLineId': nat)
    requires StoreValid(orders, nextOrderId, nextLineId)
    requires 1 <= o.id < nextOrderId && WellFormed(o, nextLineId') && nextLineId <= nextLineId'
    ensures StoreValid(orders[o.id := o], nextOrderId, nextLineId')
  {
    forall id | id in orders ensures WellFormed(orders[id], nextLineId') {
      WellFormedMonotone(orders[id], nextLineId, nextLineId');
    }
  }

  /** The order placeOrder builds from resolved lines is Placement's, is new, and
      keeps the store valid. */
  lemma PlacementStored(c: Catalog, orders: map<nat, Order>, nextOrderId: nat, nextLineId: nat, req: OrderRequest, items: seq<LineItem>)
    requires StoreValid(orders, nextOrderId, nextLineId)
    requires req.userId in c.users && Resolve(c, req.products).Ok?
    requires items == RebuildItems([], Resolve(c, req.products).value, req.products, nextLineId)
    ensures var o := Order(nextOrderId, req.userId, items, OrderAmount(items), OrderStatus.Pending);
            && Placement(c, req, nextOrderId, nextLineId) == Ok(o)
            && nextOrderId !in orders
            && StoreValid(orders[nextOrderId := o], nextOrderId + 1, nextLineId + |req.products|)
  {
    var prods := Resolve(c, req.products).value;
    ComposeIsRebuildFromNothing(prods, req.products, nextLineId);
    PlacedOrderSpec(nextOrderId, req.userId, prods, req.products, nextLineId);
    SaveKeepsStoreValid(orders, nextOrderId + 1, nextLineId, PlacedOrder(nextOrderId, req.userId, prods, req.products, nextLineId), nextLineId + |req.products|);
  }

  /** The order updateOrder builds from rebuilt lines is Revision's and keeps the store valid. */
  lemma RevisionStored(c: Catalog, orders: map<nat, Order>, nextOrderId: nat, nextLineId: nat, id: nat, req: OrderRequest, items: seq<LineItem>)
    requires StoreValid(orders, nextOrderId, nextLineId)
    requires id in orders && orders[id].status != OrderStatus.Success
    requires req.userId in c.users && Resolve(c, req.products).Ok?
    requires items == RebuildItems(orders[id].items, Resolve(c, req.products).value, req.products, nextLineId)
    ensures var o := orders[id].(userId := req.userId, items := items, orderAmount := OrderAmount(items));
            && Revision(c, orders, id, req, nextLineId) == Ok(o)
            && StoreValid(orders[id := o], nextOrderId, nextLineId + NewLines(orders[id].items, Resolve(c, req.products).value))
  {
    var prods := Resolve(c, req.products).value;
    var next := nextLineId + NewLines(orders[id].items, prods);
    RebuiltOrderSpec(orders[id], req.userId, prods, req.products, nextLineId);
    SaveKeepsStoreValid(orders, nextOrderId, nextLineId, RebuiltOrder(orders[id], req.userId, prods, req.products, nextLineId), next);
  }

  /** The loop of ResolveLines keeps its invariant: the products resolved so
      far are the catalog's, the lines are the rebuild of the entries so far,
      and `added` counts the new lines among them. */
  lemma ResolveLinesStep(c: Catalog, existing: seq<LineItem>, reqs: seq<ProductQuantity>, k: nat, firstId: nat,
                         prods: seq<Product>, items: seq<LineItem>, added: nat, p: Product, lineId: nat, added': nat)
    requires |prods| == k < |reqs|
    requires forall j :: 0 <= j < k ==> reqs[j].productId in c.products && prods[j] == c.products[reqs[j].productId]
    requires items == RebuildItems(existing, prods, reqs[..k], firstId) && added == NewLines(existing, prods)
    requires reqs[k].productId in c.products && p == c.products[reqs[k].productId]
    requires Reuses(existing, prods + [p], k) ==> lineId == existing[FirstLineFor(existing, p.id).value].id && added' == added
    requires !Reuses(existing, prods + [p], k) ==> lineId == firstId + added && added' == added + 1
    ensures forall j :: 0 <= j < k + 1 ==> reqs[j].productId in c.products && (prods + [p])[j] == c.products[reqs[j].productId]
    ensures items + [LineItem(lineId, p, reqs[k].quantity)] == RebuildItems(existing, prods + [p], reqs[..k + 1], firstId)
    ensures added' == NewLines(existing, prods + [p])
  {
    forall j | 0 <= j < k + 1 ensures reqs[j].productId in c.products && (prods + [p])[j] == c.products[reqs[j].productId] {
      if j < k {
        assert (prods + [p])[j] == prods[j];
      }
    }
    RebuildStep(existing, prods, reqs, k, p, firstId);
    if Reuses(existing, prods + [p], k) {
      assert LineItem(lineId, p, reqs[k].quantity) == LineItem(existing[FirstLineFor(existing, p.id).value].id, p, reqs[k].quantity);
    } else {
      assert LineItem(lineId, p, reqs[k].quantity) == LineItem(firstId + NewLines(existing, prods), p, reqs[k].quantity);
    }
  }

  class OrderService {
    const catalog: Catalog
    /** The order repository. */
    var orders: map<nat, Order>
    /** "orders-cache". */
    var cache: map<CacheKey, CacheEntry>
    /** The next identity value for orders and for line items. */
    var nextOrderId: nat
    var nextLineId: nat

    ghost predicate Valid()
      reads this
    {
      StoreValid(orders, nextOrderId, nextLineId) && CacheValid(cache) && WellKeyed(catalog)
    }

    constructor (catalog: Catalog)
      requires WellKeyed(catalog)
      ensures Valid()
      ensures this.catalog == catalog && orders == map[] && cache == map[]
      ensures nextOrderId == 1 && nextLineId == 1
    {
      this.catalog := catalog;
      orders := map[];
      cache := map[];
      nextOrderId := 1;
      nextLineId := 1;
    }

    /** getOrderById: the stored order, or OrderNotFound. The cache is not consulted. */
    method GetOrderById(id: nat) returns (r: Result<Order>)
      ensures r.Ok? <==> id in orders
      ensures r.Ok? ==> r.value == orders[id]
      ensures r.Err? ==> r.error == OrderNotFound(id)
    {
      if id in orders {
        r := Ok(orders[id]);
      } else {
        r := Err(OrderNotFound(id));
      }
    }

    /** getOrderResponseById under @Cacheable(key = id). */
    method GetOrderResponseById(id: nat) returns (r: Result<OrderResponse>)
      requires Valid()
      modifies this`cache
      ensures Valid()
      ensures OrderKey(id) in old(cache) ==> r == Ok(old(cache)[OrderKey(id)].view) && cache == old(cache)
      ensures OrderKey(id) !in old(cache) && id in orders ==>
                r == Ok(ToView(orders[id])) && cache == old(cache)[OrderKey(id) := OrderView(ToView(orders[id]))]
      ensures OrderKey(id) !in old(cache) && id !in orders ==> r == Err(OrderNotFound(id)) && cache == old(cache)
    {
      if OrderKey(id) in cache {
        r := Ok(cache[OrderKey(id)].view);
        return;
      }
      var o := GetOrderById(id);
      if o.Err? {
        r := Err(o.error);
        return;
      }
      var view := ToView(o.value);
      cache := cache[OrderKey(id) := OrderView(view)];
      r := Ok(view);
    }

    /** getAllOrders under @Cacheable with no key: the whole list is cached under one key. */
    method GetAllOrders() returns (vs: seq<OrderResponse>)
      requires Valid()
      modifies this`cache
      ensures Valid()
      ensures AllOrdersKey in old(cache) ==> vs == old(cache)[AllOrdersKey].views && cache == old(cache)
      ensures AllOrdersKey !in old(cache) ==>
                vs == ViewAll(orders, nextOrderId) && cache == old(cache)[AllOrdersKey := OrderViews(vs)]
    {
      if AllOrdersKey in cache {
        vs := cache[AllOrdersKey].views;
        return;
      }
      vs := ViewAll(orders, nextOrderId);
      cache := cache[AllOrdersKey := OrderViews(vs)];
    }

    /** The stream over the request's entries that placeOrder and updateOrder
        run: each entry's product is looked up in turn (the first missing one
        aborts), and the entry becomes a line. Under the corrected reuse rule
        the first entry naming a product reuses the line `existing` holds for
        it, and any other entry gets a new line that takes the next identity
        value; the source gives the existing line to every entry naming that
        product (RebuildAsWritten). `added` counts the values taken. */
    method ResolveLines(existing: seq<LineItem>, reqs: seq<ProductQuantity>) returns (r: Result<seq<LineItem>>, added: nat)
      ensures Resolve(catalog, reqs).Err? ==> r == Err(Resolve(catalog, reqs).error)
      ensures Resolve(catalog, reqs).Ok? ==> r == Ok(RebuildItems(existing, Resolve(catalog, reqs).value, reqs, nextLineId))
      ensures Resolve(catalog, reqs).Ok? ==> added == NewLines(existing, Resolve(catalog, reqs).value)
    {
      var prods: seq<Product> := [];
      var items: seq<LineItem> := [];
      added := 0;
      var k := 0;
      while k < |reqs|
        invariant 0 <= k <= |reqs|
        invariant |prods| == k
        invariant forall j :: 0 <= j < k ==> reqs[j].productId in catalog.products && prods[j] == catalog.products[reqs[j].productId]
        invariant items == RebuildItems(existing, prods, reqs[..k], nextLineId)
        invariant added == NewLines(existing, prods)
      {
        var product := GetProductById(catalog, reqs[k].productId);
        if product.Err? {
          ResolveFailsAt(catalog, reqs, k);
          r := Err(product.error);
          return;
        }
        var p := product.value;
        var lineId, added' := nextLineId + added, added + 1;
        if Reuses(existing, prods + [p], k) {
          lineId, added' := existing[FirstLineFor(existing, p.id).value].id, added;
        }
        ResolveLinesStep(catalog, existing, reqs, k, nextLineId, prods, items, added, p, lineId, added');
        added := added';
        prods := prods + [p];
        items := items + [LineItem(lineId, p, reqs[k].quantity)];
        k := k + 1;
      }
      assert reqs[..k] == reqs;
      assert prods == Resolve(catalog, reqs).value;
      r := Ok(items);
    }

    /** placeOrder. */
    method PlaceOrder(req: OrderRequest) returns (r: Result<OrderResponse>)
      requires Valid()
      modifies this`orders, this`nextOrderId, this`nextLineId
      ensures Valid()
      ensures var p := Placement(catalog, req, old(nextOrderId), old(nextLineId));
              && (p.Err? ==> && r == Err(p.error) && orders == old(orders)
                             && nextOrderId == old(nextOrderId) && nextLineId == old(nextLineId))
              && (p.Ok? ==> && r == Ok(ToView(p.value)) && orders == old(orders)[p.value.id := p.value]
                            && p.value.id !in old(orders)
                            && nextOrderId == old(nextOrderId) + 1 && nextLineId == old(nextLineId) + |req.products|)
    {
      ghost var p := Placement(catalog, req, nextOrderId, nextLineId);
      if req.userId !in catalog.users {
        r := Err(UserNotFound(req.userId));
        assert p == Err(UserNotFound(req.userId));
        return;
      }
      var reqs := req.products;
      var lines, _ := ResolveLines([], reqs);
      if lines.Err? {
        r := Err(lines.error);
        assert p == Err(lines.error);
        return;
      }
      var items := lines.value;
      var order := Order(nextOrderId, req.userId, items, OrderAmount(items), OrderStatus.Pending);
      PlacementStored(catalog, orders, nextOrderId, nextLineId, req, items);
      assert p == Ok(order);
      orders := orders[nextOrderId := order];
      nextOrderId := nextOrderId + 1;
      nextLineId := nextLineId + |reqs|;
      r := Ok(ToView(order));
    }

    /** updateOrder under @CachePut(key = id): on success the returned view replaces the cached one. */
    method UpdateOrder(id: nat, req: OrderRequest) returns (r: Result<OrderResponse>)
      requires Valid()
      modifies this`orders, this`cache, this`nextLineId
      ensures Valid()
      ensures var u := Revision(catalog, old(orders), id, req, old(nextLineId));
              && (u.Err? ==> && r == Err(u.error) && orders == old(orders)
                             && cache == old(cache) && nextLineId == old(nextLineId))
              && (u.Ok? ==> && r == Ok(ToView(u.value)) && orders == old(orders)[id := u.value]
                            && cache == old(cache)[OrderKey(id) := OrderView(ToView(u.value))]
                            && nextLineId == old(nextLineId) + NewLines(old(orders)[id].items, Resolve(catalog, req.products).value))
    {
      var existing := GetOrderById(id);
      if existing.Err? {
        r := Err(existing.error);
        return;
      }
      var order := existing.value;
      if order.status == OrderStatus.Success {
        r := Err(Rejected(ORDER_UPDATE_REJECTED));
        return;
      }
      if req.userId !in catalog.users {
        r := Err(UserNotFound(req.userId));
        return;
      }
      var reqs := req.products;
      var lines, added := ResolveLines(order.items, reqs);
      if lines.Err? {
        r := Err(lines.error);
        return;
      }
      var items := lines.value;
      var updated := order.(userId := req.userId, items := items, orderAmount := OrderAmount(items));
      RevisionStored(catalog, orders, nextOrderId, nextLineId, id, req, items);
      orders := orders[id := updated];
      nextLineId := nextLineId + added;
      var view := ToView(updated);
      cache := cache[OrderKey(id) := OrderView(view)];
      r := Ok(view);
    }

    /** deleteOrder under @CacheEvict(key = id): the per-id entry is evicted only
        when the delete succeeds; the getAllOrders entry is left in place. */
    method DeleteOrder(id: nat) returns (r: Result<()>)
      requires Valid()
      modifies this`orders, this`cache
      ensures Valid()
      ensures r.Ok? <==> id in old(orders)
      ensures r.Err? ==> r.error == OrderNotFound(id) && orders == old(orders) && cache == old(cache)
      ensures r.Ok? ==> orders == old(orders) - {id} && cache == old(cache) - {OrderKey(id)}
    {
      var existing := GetOrderById(id);
      if existing.Err? {
        r := Err(existing.error);
        return;
      }
      orders := orders - {id};
      cache := cache - {OrderKey(id)};
      r := Ok(());
    }

    /** updateOrderStatus: sets the status of the given order and saves it; the
        cache is not touched, so a cached view keeps the old status. */
    method UpdateOrderStatus(order: Order, status: OrderStatus)
      requires Valid()
      requires order.id in orders && WellFormed(order, nextLineId)
      modifies this`orders
      ensures Valid()
      ensures orders == old(orders)[order.id := order.(status := status)]
    {
      orders := orders[order.id := order.(status := status)];
    }
  }
}
