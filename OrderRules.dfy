/** The pure part of the order engine: resolving a request against the catalog,
    composing and rebuilding line items, the order amount, and rendering views. */
module OrderRules {
  import opened Domain
  import opened CatalogService

  /** One line's charge, price × quantity, computed exactly. */
  function LineAmount(li: LineItem): real {
    li.product.price * li.quantity as real
  }

  /** The order amount as the service computes it: a reduction from zero that
      adds the lines' charges from the first line to the last. */
  function OrderAmount(items: seq<LineItem>): real
    decreases |items|
  {
    if items == [] then 0.0
    else OrderAmount(items[..|items| - 1]) + LineAmount(items[|items| - 1])
  }

  /** Reference definition of what a request costs: Σ price × quantity over the
      request's entries, with `prods[k]` the product entry `k` names. */
  function RequestCharge(prods: seq<Product>, reqs: seq<ProductQuantity>): real
    requires |prods| == |reqs|
  {
    if reqs == [] then 0.0
    else prods[0].price * reqs[0].quantity as real + RequestCharge(prods[1..], reqs[1..])
  }

  /** The lines carry the request's products and quantities, one line per entry, in request order. */
  ghost predicate CarriesRequest(items: seq<LineItem>, prods: seq<Product>, reqs: seq<ProductQuantity>) {
    && |items| == |prods| == |reqs|
    && forall k :: 0 <= k < |items| ==> items[k].product == prods[k] && items[k].quantity == reqs[k].quantity
  }

  /** No two lines of an order share an id. */
  ghost predicate DistinctIds(items: seq<LineItem>) {
    forall i, j :: 0 <= i < j < |items| ==> items[i].id != items[j].id
  }

  /** What every stored order satisfies: its amount is the sum of its lines, its
      lines have distinct ids, and all those ids were issued below `bound`. */
  ghost predicate WellFormed(o: Order, bound: nat) {
    && o.orderAmount == OrderAmount(o.items)
    && DistinctIds(o.items)
    && forall k :: 0 <= k < |o.items| ==> o.items[k].id < bound
  }

  lemma WellFormedMonotone(o: Order, bound: nat, bound': nat)
    requires WellFormed(o, bound) && bound <= bound'
    ensures WellFormed(o, bound')
  {
  }

  lemma {:induction false} RequestChargeSnoc(prods: seq<Product>, reqs: seq<ProductQuantity>, p: Product, q: ProductQuantity)
    requires |prods| == |reqs|
    ensures RequestCharge(prods + [p], reqs + [q]) == RequestCharge(prods, reqs) + p.price * q.quantity as real
  {
    if reqs != [] {
      assert (prods + [p])[1..] == prods[1..] + [p];
      assert (reqs + [q])[1..] == reqs[1..] + [q];
      RequestChargeSnoc(prods[1..], reqs[1..], p, q);
    }
  }

  /** The amount the service computes over lines that carry a request is what
      the request costs: the stream reduction agrees with Σ price × quantity. */
  lemma {:induction false} AmountOfCarriedRequest(items: seq<LineItem>, prods: seq<Product>, reqs: seq<ProductQuantity>)
    requires CarriesRequest(items, prods, reqs)
    ensures OrderAmount(items) == RequestCharge(prods, reqs)
  {
    if items != [] {
      var n := |items| - 1;
      assert prods[..n] + [prods[n]] == prods;
      assert reqs[..n] + [reqs[n]] == reqs;
      AmountOfCarriedRequest(items[..n], prods[..n], reqs[..n]);
      RequestChargeSnoc(prods[..n], reqs[..n], prods[n], reqs[n]);
    }
  }

  /** Looks up every entry's product, in request order; the first entry whose
      product is missing decides the error. */
  function Resolve(c: Catalog, reqs: seq<ProductQuantity>): (r: Result<seq<Product>>)
    ensures r.Ok? <==> forall k :: 0 <= k < |reqs| ==> reqs[k].productId in c.products
    ensures r.Ok? ==> |r.value| == |reqs| && forall k :: 0 <= k < |reqs| ==> r.value[k] == c.products[reqs[k].productId]
    ensures r.Err? ==> exists k :: && 0 <= k < |reqs|
                                   && reqs[k].productId !in c.products
                                   && (forall j :: 0 <= j < k ==> reqs[j].productId in c.products)
                                   && r.error == ProductNotFound(reqs[k].productId)
  {
    if reqs == [] then Ok([])
    else
      match GetProductById(c, reqs[0].productId)
      case Err(e) => Err(e)
      case Ok(p) =>
        var rest := Resolve(c, reqs[1..]);
        if rest.Err? then
          assert exists k :: && 0 <= k < |reqs| - 1
                             && reqs[1..][k].productId !in c.products
                             && (forall j :: 0 <= j < k ==> reqs[1..][j].productId in c.products)
                             && rest.error == ProductNotFound(reqs[1..][k].productId);
          var k :| && 0 <= k < |reqs| - 1
                   && reqs[1..][k].productId !in c.products
                   && (forall j :: 0 <= j < k ==> reqs[1..][j].productId in c.products)
                   && rest.error == ProductNotFound(reqs[1..][k].productId);
          assert forall j :: 0 <= j < k + 1 ==> reqs[j].productId in c.products by {
            forall j | 0 <= j < k + 1 ensures reqs[j].productId in c.products {
              if j > 0 { assert reqs[j] == reqs[1..][j - 1]; }
            }
          }
          Err(rest.error)
        else
          Ok([p] + rest.value)
  }

  /** When every entry before `k` resolves and entry `k` does not, the whole
      request fails on entry `k`'s product. */
  lemma ResolveFailsAt(c: Catalog, reqs: seq<ProductQuantity>, k: nat)
    requires k < |reqs|
    requires forall j :: 0 <= j < k ==> reqs[j].productId in c.products
    requires reqs[k].productId !in c.products
    ensures Resolve(c, reqs) == Err(ProductNotFound(reqs[k].productId))
  {
    var r := Resolve(c, reqs);
    var k' :| && 0 <= k' < |reqs|
              && reqs[k'].productId !in c.products
              && (forall j :: 0 <= j < k' ==> reqs[j].productId in c.products)
              && r.error == ProductNotFound(reqs[k'].productId);
    assert k' == k;
  }

  /** The lines placeOrder composes: one per entry, with fresh ids `firstId`, `firstId + 1`, …. */
  function ComposeItems(prods: seq<Product>, reqs: seq<ProductQuantity>, firstId: nat): (items: seq<LineItem>)
    requires |prods| == |reqs|
    ensures CarriesRequest(items, prods, reqs)
    ensures forall k :: 0 <= k < |items| ==> firstId <= items[k].id < firstId + |reqs|
    ensures DistinctIds(items)
  {
    seq(|reqs|, k requires 0 <= k < |reqs| => LineItem(firstId + k, prods[k], reqs[k].quantity))
  }

  /** Composing lines for a new order is rebuilding them against no existing lines. */
  lemma ComposeIsRebuildFromNothing(prods: seq<Product>, reqs: seq<ProductQuantity>, firstId: nat)
    requires |prods| == |reqs|
    ensures RebuildItems([], prods, reqs, firstId) == ComposeItems(prods, reqs, firstId)
    ensures NewLines([], prods) == |reqs|
  {
    var rebuilt := RebuildItems([], prods, reqs, firstId);
    var composed := ComposeItems(prods, reqs, firstId);
    forall k | 0 <= k < |reqs| ensures rebuilt[k] == composed[k] {
      assert FirstLineFor([], prods[k].id) == None;
      NothingToReuse(prods, k);
    }
    NothingToReuse(prods, |prods|);
  }

  /** The order placeOrder saves. */
  function PlacedOrder(id: nat, userId: nat, prods: seq<Product>, reqs: seq<ProductQuantity>, firstLineId: nat): Order
    requires |prods| == |reqs|
  {
    var items := ComposeItems(prods, reqs, firstLineId);
    Order(id, userId, items, OrderAmount(items), OrderStatus.Pending)
  }

  /** A placed order is Pending, carries the request line by line, costs what the
      request costs, and is well formed for the next line id. */
  lemma PlacedOrderSpec(id: nat, userId: nat, prods: seq<Product>, reqs: seq<ProductQuantity>, firstLineId: nat)
    requires |prods| == |reqs|
    ensures var o := PlacedOrder(id, userId, prods, reqs, firstLineId);
            && o.id == id && o.userId == userId && o.status == OrderStatus.Pending
            && CarriesRequest(o.items, prods, reqs)
            && o.orderAmount == RequestCharge(prods, reqs)
            && WellFormed(o, firstLineId + |reqs|)
  {
    AmountOfCarriedRequest(ComposeItems(prods, reqs, firstLineId), prods, reqs);
  }

  /** The index of the first line for product `pid`, the line `findFirst` picks. */
  function FirstLineFor(items: seq<LineItem>, pid: nat): (r: Option<nat>)
    ensures r.Some? ==> && r.value < |items|
                        && items[r.value].product.id == pid
                        && forall j :: 0 <= j < r.value ==> items[j].product.id != pid
    ensures r.None? ==> forall j :: 0 <= j < |items| ==> items[j].product.id != pid
  {
    if items == [] then None
    else if items[0].product.id == pid then Some(0)
    else
      match FirstLineFor(items[1..], pid)
      case None => None
      case Some(i) => Some(i + 1)
  }

  /** Entry `k` of an update reuses an existing line: it is the first entry
      naming its product, and the order already has a line for that product. */
  predicate Reuses(existing: seq<LineItem>, prods: seq<Product>, k: nat)
    requires k < |prods|
  {
    FirstLineFor(existing, prods[k].id).Some? && forall j :: 0 <= j < k ==> prods[j].id != prods[k].id
  }

  /** How many of the first `k` entries get a new line, and so an identity value. */
  function NewLinesBefore(existing: seq<LineItem>, prods: seq<Product>, k: nat): nat
    requires k <= |prods|
  {
    if k == 0 then 0
    else NewLinesBefore(existing, prods, k - 1) + (if Reuses(existing, prods, k - 1) then 0 else 1)
  }

  /** How many new lines an update inserts: the identity values it consumes. */
  function NewLines(existing: seq<LineItem>, prods: seq<Product>): nat {
    NewLinesBefore(existing, prods, |prods|)
  }

  /** The id that entry `k` of an update gets: the reused line's id, or the
      identity value issued to it, new lines being numbered in request order
      from `firstId`. */
  function RebuiltId(existing: seq<LineItem>, prods: seq<Product>, k: nat, firstId: nat): nat
    requires k < |prods|
  {
    if Reuses(existing, prods, k) then existing[FirstLineFor(existing, prods[k].id).value].id
    else firstId + NewLinesBefore(existing, prods, k)
  }

  /** A later new line has a larger identity value than an earlier one. */
  lemma {:induction false} NewLinesBeforeGrows(existing: seq<LineItem>, prods: seq<Product>, i: nat, j: nat)
    requires i < j <= |prods| && !Reuses(existing, prods, i)
    ensures NewLinesBefore(existing, prods, i) < NewLinesBefore(existing, prods, j)
    decreases j
  {
    if j > i + 1 {
      NewLinesBeforeGrows(existing, prods, i, j - 1);
    }
  }

  /** Appending an entry changes neither the earlier entries' reuse nor their numbering. */
  lemma {:induction false} NewLinesBeforeExtend(existing: seq<LineItem>, prods: seq<Product>, p: Product, k: nat)
    requires k <= |prods|
    ensures NewLinesBefore(existing, prods + [p], k) == NewLinesBefore(existing, prods, k)
    ensures forall j :: 0 <= j < k ==> Reuses(existing, prods + [p], j) == Reuses(existing, prods, j)
    decreases k
  {
    forall j | 0 <= j < k ensures Reuses(existing, prods + [p], j) == Reuses(existing, prods, j) {
      assert forall i :: 0 <= i <= j ==> (prods + [p])[i] == prods[i];
    }
    if k > 0 {
      NewLinesBeforeExtend(existing, prods, p, k - 1);
    }
  }

  /** One more entry: the earlier entries keep their ids, and the new one
      reuses a line exactly when the order has one for its product and no
      earlier entry names that product; otherwise it takes the next value. */
  lemma RebuiltIdSnoc(existing: seq<LineItem>, prods: seq<Product>, p: Product, firstId: nat)
    ensures forall j :: 0 <= j < |prods| ==> RebuiltId(existing, prods + [p], j, firstId) == RebuiltId(existing, prods, j, firstId)
    ensures Reuses(existing, prods + [p], |prods|) <==>
              FirstLineFor(existing, p.id).Some? && forall j :: 0 <= j < |prods| ==> prods[j].id != p.id
    ensures NewLinesBefore(existing, prods + [p], |prods| + 1) ==
              NewLinesBefore(existing, prods, |prods|) + (if Reuses(existing, prods + [p], |prods|) then 0 else 1)
    ensures !Reuses(existing, prods + [p], |prods|) ==>
              RebuiltId(existing, prods + [p], |prods|, firstId) == firstId + NewLinesBefore(existing, prods, |prods|)
  {
    NewLinesBeforeExtend(existing, prods, p, |prods|);
    forall j | 0 <= j < |prods| ensures RebuiltId(existing, prods + [p], j, firstId) == RebuiltId(existing, prods, j, firstId) {
      NewLinesBeforeExtend(existing, prods, p, j);
      assert (prods + [p])[j] == prods[j];
    }
    assert forall j :: 0 <= j < |prods| ==> (prods + [p])[j] == prods[j];
  }

  /** Against an order with no lines every entry gets a new line. */
  lemma {:induction false} NothingToReuse(prods: seq<Product>, k: nat)
    requires k <= |prods|
    ensures NewLinesBefore([], prods, k) == k
    decreases k
  {
    if k > 0 {
      NothingToReuse(prods, k - 1);
    }
  }

  /** The lines updateOrder puts in place of `existing` (corrected definition:
      see RebuildAsWritten for what the source builds). */
  function RebuildItems(existing: seq<LineItem>, prods: seq<Product>, reqs: seq<ProductQuantity>, firstId: nat): (items: seq<LineItem>)
    requires |prods| == |reqs|
    ensures CarriesRequest(items, prods, reqs)
  {
    seq(|reqs|, k requires 0 <= k < |reqs| => LineItem(RebuiltId(existing, prods, k, firstId), prods[k], reqs[k].quantity))
  }

  /** Rebuilding with one more entry appends that entry's line and leaves the earlier lines alone. */
  lemma RebuildItemsSnoc(existing: seq<LineItem>, prods: seq<Product>, reqs: seq<ProductQuantity>, p: Product, q: ProductQuantity, firstId: nat)
    requires |prods| == |reqs|
    ensures RebuildItems(existing, prods + [p], reqs + [q], firstId)
              == RebuildItems(existing, prods, reqs, firstId) + [LineItem(RebuiltId(existing, prods + [p], |prods|, firstId), p, q.quantity)]
  {
    var longer := RebuildItems(existing, prods + [p], reqs + [q], firstId);
    var shorter := RebuildItems(existing, prods, reqs, firstId);
    var extended := shorter + [LineItem(RebuiltId(existing, prods + [p], |prods|, firstId), p, q.quantity)];
    forall j | 0 <= j < |extended| ensures longer[j] == extended[j] {
      if j < |prods| {
        RebuiltIdSnoc(existing, prods, p, firstId);
        assert (prods + [p])[j] == prods[j] && (reqs + [q])[j] == reqs[j];
        assert RebuiltId(existing, prods + [p], j, firstId) == RebuiltId(existing, prods, j, firstId);
      }
    }
  }

  /** One step of the rebuild over the request's first `k` entries: a reused
      line keeps its id and takes no identity value, a new one takes the next. */
  lemma RebuildStep(existing: seq<LineItem>, prods: seq<Product>, reqs: seq<ProductQuantity>, k: nat, p: Product, firstId: nat)
    requires |prods| == k < |reqs|
    ensures Reuses(existing, prods + [p], k) ==>
              && RebuildItems(existing, prods + [p], reqs[..k + 1], firstId)
                   == RebuildItems(existing, prods, reqs[..k], firstId) + [LineItem(existing[FirstLineFor(existing, p.id).value].id, p, reqs[k].quantity)]
              && NewLines(existing, prods + [p]) == NewLines(existing, prods)
    ensures !Reuses(existing, prods + [p], k) ==>
              && RebuildItems(existing, prods + [p], reqs[..k + 1], firstId)
                   == RebuildItems(existing, prods, reqs[..k], firstId) + [LineItem(firstId + NewLines(existing, prods), p, reqs[k].quantity)]
              && NewLines(existing, prods + [p]) == NewLines(existing, prods) + 1
  {
    assert reqs[..k + 1] == reqs[..k] + [reqs[k]];
    RebuildItemsSnoc(existing, prods, reqs[..k], p, reqs[k], firstId);
    NewLinesBeforeExtend(existing, prods, p, |prods|);
  }

  /** Identity of rebuilt lines: the first entry for a product already in the
      order keeps that line's id; every other entry gets the next identity
      value, in request order, from `firstId`; and when the existing ids are
      distinct and below `firstId`, the rebuilt ids are distinct and below
      `firstId` plus the number of new lines. */
  lemma {:induction false} RebuildIdentity(existing: seq<LineItem>, prods: seq<Product>, reqs: seq<ProductQuantity>, firstId: nat)
    requires |prods| == |reqs|
    requires DistinctIds(existing)
    requires forall i :: 0 <= i < |existing| ==> existing[i].id < firstId
    ensures var items := RebuildItems(existing, prods, reqs, firstId);
            && DistinctIds(items)
            && (forall k :: 0 <= k < |items| ==> items[k].id < firstId + NewLines(existing, prods))
            && (forall k :: 0 <= k < |items| && Reuses(existing, prods, k) ==>
                  items[k].id == existing[FirstLineFor(existing, prods[k].id).value].id)
            && (forall k :: 0 <= k < |items| && !Reuses(existing, prods, k) ==>
                  items[k].id == firstId + NewLinesBefore(existing, prods, k))
  {
    var items := RebuildItems(existing, prods, reqs, firstId);
    forall k | 0 <= k < |items| ensures items[k].id < firstId + NewLines(existing, prods) {
      if !Reuses(existing, prods, k) {
        NewLinesBeforeGrows(existing, prods, k, |prods|);
      }
    }
    forall i, j | 0 <= i < j < |items| ensures items[i].id != items[j].id {
      if Reuses(existing, prods, i) && Reuses(existing, prods, j) {
        var mi := FirstLineFor(existing, prods[i].id);
        var mj := FirstLineFor(existing, prods[j].id);
        assert prods[i].id != prods[j].id;
        assert existing[mi.value].product.id != existing[mj.value].product.id;
      } else if !Reuses(existing, prods, i) && !Reuses(existing, prods, j) {
        NewLinesBeforeGrows(existing, prods, i, j);
      }
    }
  }

  /** The order updateOrder saves: new user and lines, amount recomputed, status kept. */
  function RebuiltOrder(o: Order, userId: nat, prods: seq<Product>, reqs: seq<ProductQuantity>, firstLineId: nat): Order
    requires |prods| == |reqs|
  {
    var items := RebuildItems(o.items, prods, reqs, firstLineId);
    o.(userId := userId, items := items, orderAmount := OrderAmount(items))
  }

  /** An updated order keeps its id and status, carries exactly the request, costs
      what the request costs, and stays well formed. */
  lemma RebuiltOrderSpec(o: Order, userId: nat, prods: seq<Product>, reqs: seq<ProductQuantity>, firstLineId: nat)
    requires |prods| == |reqs| && WellFormed(o, firstLineId)
    ensures var o' := RebuiltOrder(o, userId, prods, reqs, firstLineId);
            && o'.id == o.id && o'.status == o.status && o'.userId == userId
            && CarriesRequest(o'.items, prods, reqs)
            && o'.orderAmount == RequestCharge(prods, reqs)
            && WellFormed(o', firstLineId + NewLines(o.items, prods))
  {
    RebuildIdentity(o.items, prods, reqs, firstLineId);
    AmountOfCarriedRequest(RebuildItems(o.items, prods, reqs, firstLineId), prods, reqs);
  }

  /** The quantity of the last entry naming product `pid` (or `otherwise` if none does). */
  function LastQuantityFor(prods: seq<Product>, reqs: seq<ProductQuantity>, pid: nat, otherwise: int32): int32
    requires |prods| == |reqs|
  {
    if reqs == [] then otherwise
    else if prods[|prods| - 1].id == pid then reqs[|reqs| - 1].quantity
    else LastQuantityFor(prods[..|prods| - 1], reqs[..|reqs| - 1], pid, otherwise)
  }

  /** How many of the first `k` entries, as written, get a new OrderProduct:
      those whose product the order does not have yet. */
  function NewLinesBeforeAsWritten(existing: seq<LineItem>, prods: seq<Product>, k: nat): nat
    requires k <= |prods|
  {
    if k == 0 then 0
    else NewLinesBeforeAsWritten(existing, prods, k - 1) + (if FirstLineFor(existing, prods[k - 1].id).Some? then 0 else 1)
  }

  /** The lines updateOrder builds as written: every entry whose product is
      already in the order gets the SAME existing OrderProduct object, whose
      quantity each such entry overwrites in turn, so all of them end with the
      quantity of the last entry for that product; every other entry gets a
      new line, numbered in request order from `firstId`. */
  function RebuildAsWritten(existing: seq<LineItem>, prods: seq<Product>, reqs: seq<ProductQuantity>, firstId: nat): seq<LineItem>
    requires |prods| == |reqs|
  {
    seq(|reqs|, k requires 0 <= k < |reqs| =>
      match FirstLineFor(existing, prods[k].id)
      case Some(m) => LineItem(existing[m].id, prods[k], LastQuantityFor(prods, reqs, prods[k].id, reqs[k].quantity))
      case None => LineItem(firstId + NewLinesBeforeAsWritten(existing, prods, k), prods[k], reqs[k].quantity))
  }

  /** No product the order already holds is named by two entries of the
      request; products new to the order may repeat. */
  ghost predicate NoHeldRepeats(existing: seq<LineItem>, prods: seq<Product>) {
    forall i, j :: 0 <= i < j < |prods| && prods[i].id == prods[j].id ==> FirstLineFor(existing, prods[i].id).None?
  }

  /** When no later entry names entry `k`'s product, the last entry for that product is entry `k`. */
  lemma {:induction false} LastQuantityOfUnrepeated(prods: seq<Product>, reqs: seq<ProductQuantity>, k: nat, otherwise: int32)
    requires |prods| == |reqs| && k < |prods|
    requires forall j :: k < j < |prods| ==> prods[j].id != prods[k].id
    ensures LastQuantityFor(prods, reqs, prods[k].id, otherwise) == reqs[k].quantity
    decreases |prods|
  {
    var n := |prods| - 1;
    if k < n {
      assert prods[n].id != prods[k].id;
      assert prods[..n][k] == prods[k];
      LastQuantityOfUnrepeated(prods[..n], reqs[..n], k, otherwise);
    }
  }

  /** When no held product is named twice, the reuse rule of the corrected
      rebuild and the source's coincide, and so does the numbering of new lines. */
  lemma {:induction false} UnrepeatedNumbering(existing: seq<LineItem>, prods: seq<Product>, k: nat)
    requires NoHeldRepeats(existing, prods) && k <= |prods|
    ensures NewLinesBefore(existing, prods, k) == NewLinesBeforeAsWritten(existing, prods, k)
    ensures forall j :: 0 <= j < k ==> (Reuses(existing, prods, j) <==> FirstLineFor(existing, prods[j].id).Some?)
    decreases k
  {
    if k > 0 {
      UnrepeatedNumbering(existing, prods, k - 1);
    }
  }

  /** When no product the order already holds is named twice, updateOrder as
      written builds exactly the corrected lines: the two differ only on
      requests that repeat a product the order already has. */
  lemma RebuildAsWrittenAgrees(existing: seq<LineItem>, prods: seq<Product>, reqs: seq<ProductQuantity>, firstId: nat)
    requires |prods| == |reqs| && NoHeldRepeats(existing, prods)
    ensures RebuildAsWritten(existing, prods, reqs, firstId) == RebuildItems(existing, prods, reqs, firstId)
  {
    UnrepeatedNumbering(existing, prods, |prods|);
    var asWritten := RebuildAsWritten(existing, prods, reqs, firstId);
    var fixed := RebuildItems(existing, prods, reqs, firstId);
    forall k | 0 <= k < |reqs| ensures asWritten[k] == fixed[k] {
      UnrepeatedNumbering(existing, prods, k);
      if FirstLineFor(existing, prods[k].id).Some? {
        LastQuantityOfUnrepeated(prods, reqs, k, reqs[k].quantity);
      }
    }
  }

  /** Counterexample: an order holding one line of a 10.00 product, updated with
      the entries (product, 2) and (product, 3). As written, both entries share
      line 1, both show quantity 3, and the order is charged 60.00 where the
      request costs 50.00; the corrected rebuild charges 50.00 with distinct ids,
      the second line taking the next identity value. */
  lemma RebuildAsWrittenOvercharges()
    ensures var pen := Product(7, "pen", 10.0);
            var existing := [LineItem(1, pen, 1)];
            var prods := [pen, pen];
            var reqs := [ProductQuantity(7, 2), ProductQuantity(7, 3)];
            && RebuildAsWritten(existing, prods, reqs, 2) == [LineItem(1, pen, 3), LineItem(1, pen, 3)]
            && OrderAmount(RebuildAsWritten(existing, prods, reqs, 2)) == 60.0
            && RequestCharge(prods, reqs) == 50.0
            && RebuildItems(existing, prods, reqs, 2) == [LineItem(1, pen, 2), LineItem(2, pen, 3)]
            && OrderAmount(RebuildItems(existing, prods, reqs, 2)) == 50.0
  {
    var pen := Product(7, "pen", 10.0);
    var existing := [LineItem(1, pen, 1)];
    var prods := [pen, pen];
    var reqs := [ProductQuantity(7, 2), ProductQuantity(7, 3)];
    assert FirstLineFor(existing, 7) == Some(0);
    assert LastQuantityFor(prods, reqs, 7, 2) == 3;
    assert LastQuantityFor(prods, reqs, 7, 3) == 3;
    var asWritten := RebuildAsWritten(existing, prods, reqs, 2);
    assert asWritten == [LineItem(1, pen, 3), LineItem(1, pen, 3)];
    assert asWritten[..1] == [LineItem(1, pen, 3)];
    assert asWritten[..1][..0] == [];
    assert OrderAmount(asWritten[..1]) == 30.0;
    var fixed := RebuildItems(existing, prods, reqs, 2);
    assert RebuiltId(existing, prods, 0, 2) == 1;
    assert prods[0].id == prods[1].id;
    assert !Reuses(existing, prods, 1) && NewLinesBefore(existing, prods, 1) == 0;
    assert fixed == [LineItem(1, pen, 2), LineItem(2, pen, 3)];
    assert fixed[..1] == [LineItem(1, pen, 2)];
    assert fixed[..1][..0] == [];
    assert OrderAmount(fixed[..1]) == 20.0;
    assert [pen][1..] == [] && [ProductQuantity(7, 3)][1..] == [];
    assert RequestCharge([pen], [ProductQuantity(7, 3)]) == 30.0;
    assert prods[1..] == [pen] && reqs[1..] == [ProductQuantity(7, 3)];
  }

  /** mapToOrderResponse. */
  function ToView(o: Order): (v: OrderResponse)
    ensures v.id == o.id && v.userId == o.userId && v.orderAmount == o.orderAmount && v.orderStatus == o.status
    ensures |v.orderProducts| == |o.items|
    ensures forall k :: 0 <= k < |o.items| ==>
              v.orderProducts[k] == OrderProductResponse(o.items[k].id, o.items[k].product.id, o.items[k].quantity)
  {
    OrderResponse(
      o.id, o.userId,
      seq(|o.items|, k requires 0 <= k < |o.items| =>
        OrderProductResponse(o.items[k].id, o.items[k].product.id, o.items[k].quantity)),
      o.orderAmount, o.status)
  }

  /** The stored orders with ids below `n`, in ascending id order (findAll). */
  function OrdersBelow(orders: map<nat, Order>, n: nat): seq<Order>
  {
    if n == 0 then []
    else OrdersBelow(orders, n - 1) + (if n - 1 in orders then [orders[n - 1]] else [])
  }

  /** The listing below `n` holds exactly the stored orders with ids below `n`,
      each once, in ascending id order. */
  lemma {:induction false} OrdersBelowIsStore(orders: map<nat, Order>, n: nat)
    requires forall id :: id in orders ==> orders[id].id == id
    ensures var os := OrdersBelow(orders, n);
            && (forall o :: o in os <==> o in orders.Values && o.id < n)
            && (forall i, j :: 0 <= i < j < |os| ==> os[i].id < os[j].id)
  {
    if n > 0 {
      OrdersBelowIsStore(orders, n - 1);
      var os := OrdersBelow(orders, n);
      var prefix := OrdersBelow(orders, n - 1);
      forall o | o in orders.Values && o.id < n ensures o in os {
        var id :| id in orders && orders[id] == o;
        if id < n - 1 { assert o in prefix; }
      }
    }
  }

  /** Rendering a listing that holds exactly the stored orders below `n`. */
  lemma ViewsOfListing(orders: map<nat, Order>, os: seq<Order>, vs: seq<OrderResponse>, n: nat)
    requires forall o :: o in os <==> o in orders.Values && o.id < n
    requires forall id :: id in orders ==> orders[id].id == id
    requires |vs| == |os| && forall i :: 0 <= i < |os| ==> vs[i] == ToView(os[i])
    ensures forall id :: id in orders && id < n ==> ToView(orders[id]) in vs
    ensures forall i :: 0 <= i < |vs| ==> vs[i].id in orders && vs[i].id < n && vs[i] == ToView(orders[vs[i].id])
  {
    forall id | id in orders && id < n ensures ToView(orders[id]) in vs {
      assert orders[id] in orders.Values;
      var i :| 0 <= i < |os| && os[i] == orders[id];
      assert vs[i] == ToView(orders[id]);
    }
    forall i | 0 <= i < |vs| ensures vs[i].id in orders && vs[i].id < n && vs[i] == ToView(orders[vs[i].id]) {
      assert os[i] in os;
      var id :| id in orders && orders[id] == os[i];
      assert id == os[i].id == vs[i].id;
    }
  }

  /** getAllOrders' result on a miss: the view of every stored order, each
      exactly once, in ascending id order. */
  function ViewAll(orders: map<nat, Order>, n: nat): (vs: seq<OrderResponse>)
    requires forall id :: id in orders ==> orders[id].id == id
    ensures forall id :: id in orders && id < n ==> ToView(orders[id]) in vs
    ensures forall i :: 0 <= i < |vs| ==> vs[i].id in orders && vs[i].id < n && vs[i] == ToView(orders[vs[i].id])
    ensures forall i, j :: 0 <= i < j < |vs| ==> vs[i].id < vs[j].id
  {
    var os := OrdersBelow(orders, n);
    var vs := seq(|os|, i requires 0 <= i < |os| => ToView(os[i]));
    OrdersBelowIsStore(orders, n);
    ViewsOfListing(orders, os, vs, n);
    vs
  }
}
