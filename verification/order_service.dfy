/** The ordering service (`ordering-service/.../OrderService.java`): order creation, lookup,
    status update, and the budget-driven fulfilment pass over PRIORITY then PENDING orders. */
module OrderService {
  import opened Results
  import opened Text
  import opened Orders
  import opened Matcher

  /** The request body of `createOrder`; `status` and `fulfilledQuantity` are overwritten, so
      only these fields matter. Absent fields are Java nulls; the id is bound from the body
      like any other field. */
  datatype OrderDraft = OrderDraft(
    id: Option<OrderId>,
    region: Option<string>,
    vaccineQuantity: int,
    expectedDeliveryTime: Option<Day>)

  /** The store after a save, and the saved order. */
  datatype Saved = Saved(orders: Store, order: Order)

  const RegionEmpty := "Region cannot be empty"
  const QuantityNotPositive := "Vaccine Quantity must be greater than 0"
  const DeliveryTimeMissing := "Expected Delivery Time cannot be null"

  /** Validates the draft in source order and saves it PENDING with nothing fulfilled;
      `newId` is the id the repository generates. A draft carrying the id of a stored order
      is saved over that order. */
  function CreateOrder(store: Store, draft: OrderDraft, newId: OrderId): (r: Result<Saved>)
    requires newId !in store
    ensures r == Err(IllegalArgument(RegionEmpty)) <==> IsBlank(draft.region)
    ensures r == Err(IllegalArgument(QuantityNotPositive)) <==>
      !IsBlank(draft.region) && draft.vaccineQuantity <= 0
    ensures r == Err(IllegalArgument(DeliveryTimeMissing)) <==>
      !IsBlank(draft.region) && draft.vaccineQuantity > 0 && draft.expectedDeliveryTime.None?
    ensures r.Ok? <==>
      !IsBlank(draft.region) && draft.vaccineQuantity > 0 && draft.expectedDeliveryTime.Some?
    ensures r.Ok? ==>
      && r.value.order.id == SaveTarget(store, draft.id, newId)
      && Some(r.value.order.region) == draft.region
      && r.value.order.vaccineQuantity == draft.vaccineQuantity
      && Some(r.value.order.expectedDeliveryTime) == draft.expectedDeliveryTime
      && r.value.order.status == Pending
      && r.value.order.fulfilledQuantity == 0
      && r.value.orders.Keys == store.Keys + {r.value.order.id}
      && r.value.orders[r.value.order.id] == r.value.order
      && (forall id :: id in store && id != r.value.order.id ==> r.value.orders[id] == store[id])
  {
    if IsBlank(draft.region) then Err(IllegalArgument(RegionEmpty))
    else if draft.vaccineQuantity <= 0 then Err(IllegalArgument(QuantityNotPositive))
    else if draft.expectedDeliveryTime.None? then Err(IllegalArgument(DeliveryTimeMissing))
    else
      var id := SaveTarget(store, draft.id, newId);
      var order := Order(id, draft.region.value, draft.vaccineQuantity, 0, Pending,
                         draft.expectedDeliveryTime.value);
      var saved := store[id := order];
      assert saved.Keys == store.Keys + {id};
      Ok(Saved(saved, order))
  }

  /** `findById(id).orElseThrow(...)`, over the order record of either revision. */
  function GetOrder<T>(store: map<OrderId, T>, id: OrderId): (r: Result<T>)
    ensures r.Ok? <==> id in store
    ensures r.Ok? ==> r.value == store[id]
    ensures r.Err? ==> r.error == NotFound(id)
  {
    if id in store then Ok(store[id]) else Err(NotFound(id))
  }

  /** Sets the status of one existing order and nothing else. */
  function UpdateOrderStatus(store: Store, id: OrderId, newStatus: Status): (r: Result<Saved>)
    ensures r.Ok? <==> id in store
    ensures r.Err? ==> r.error == NotFound(id)
    ensures r.Ok? ==>
      && r.value.order.status == newStatus
      && r.value.order.(status := store[id].status) == store[id]
      && OnlyChanged(store, r.value.orders, id)
      && r.value.orders[id] == r.value.order
  {
    match GetOrder(store, id)
    case Err(e) => Err(e)
    case Ok(order) =>
      var updated := order.(status := newStatus);
      Ok(Saved(store[id := updated], updated))
  }

  /** Saves each order of `l` in turn, as `orderRepository.save` does. */
  function SaveAll(store: Store, l: seq<Order>): Store
    decreases |l|
  {
    if |l| == 0 then store else SaveAll(store[l[0].id := l[0]], l[1..])
  }

  lemma {:induction false} SaveAllStores(store: Store, l: seq<Order>)
    requires DistinctIds(l)
    ensures SaveAll(store, l).Keys == store.Keys + set i | 0 <= i < |l| :: l[i].id
    ensures forall i :: 0 <= i < |l| ==> SaveAll(store, l)[l[i].id] == l[i]
    ensures forall id :: id in store && (forall i :: 0 <= i < |l| ==> l[i].id != id) ==>
      SaveAll(store, l)[id] == store[id]
    decreases |l|
  {
    if |l| > 0 {
      var next := store[l[0].id := l[0]];
      SaveAllStores(next, l[1..]);
      var tailIds := set i | 0 <= i < |l[1..]| :: l[1..][i].id;
      var ids := set i | 0 <= i < |l| :: l[i].id;
      assert ids == {l[0].id} + tailIds by {
        forall k | k in ids ensures k in {l[0].id} + tailIds {
          var i :| 0 <= i < |l| && l[i].id == k;
          if i > 0 { assert l[1..][i - 1].id == k; }
        }
      }
      forall i | 0 <= i < |l|
        ensures SaveAll(store, l)[l[i].id] == l[i]
      {
        if i > 0 { assert l[1..][i - 1] == l[i]; }
      }
    }
  }

  /** Saving the orders a walk left over the listed orders they came from: the listed ids
      now hold the walk's orders and every order with another status is as it was. */
  lemma {:induction false} Committed(store: Store, statuses: set<Status>, l: seq<Order>, walked: seq<Order>)
    requires ListedIn(store, statuses, l)
    requires Settles(l, walked)
    ensures SaveAll(store, walked).Keys == store.Keys
    ensures forall i :: 0 <= i < |l| ==> SaveAll(store, walked)[l[i].id] == walked[i]
    ensures forall id :: id in store && store[id].status !in statuses ==>
      SaveAll(store, walked)[id] == store[id]
  {
    assert forall i :: 0 <= i < |l| ==> walked[i].id == l[i].id;
    SaveAllStores(store, walked);
    var ids := set i | 0 <= i < |walked| :: walked[i].id;
    assert ids <= store.Keys;
    forall id | id in store && store[id].status !in statuses
      ensures forall i :: 0 <= i < |walked| ==> walked[i].id != id
    {
    }
  }

  /** The orders after one pass, the PRIORITY and PENDING lists as the pass left them, and the
      doses the pass did not use. */
  datatype Fulfilment = Fulfilment(orders: Store, priority: seq<Order>, pending: seq<Order>, leftover: int)

  /** What the pass needs of its two listings: every listed order is stored as listed, once,
      with the listing's status. */
  ghost predicate Listed(store: Store, priority: seq<Order>, pending: seq<Order>)
  {
    ListedIn(store, {Priority}, priority) && ListedIn(store, {Pending}, pending)
  }

  /** The repository queries `fulfillOrders` makes: every PRIORITY and every PENDING order,
      each list ascending by delivery date. */
  ghost predicate Queried(store: Store, priority: seq<Order>, pending: seq<Order>)
  {
    && Lists(store, {Priority}, priority) && SortedByDelivery(priority)
    && Lists(store, {Pending}, pending) && SortedByDelivery(pending)
  }

  /** `fulfillOrders(vaccineCount)`: the walk over PRIORITY orders with the whole count, then,
      only if doses remain, the walk over PENDING orders with what is left. */
  function FulfillOrders(store: Store, priority: seq<Order>, pending: seq<Order>, vaccineCount: int)
    : (r: Fulfilment)
    requires Listed(store, priority, pending)
    ensures Settles(priority, r.priority) && Settles(pending, r.pending)
    ensures r.orders.Keys == store.Keys
    ensures forall i :: 0 <= i < |priority| ==> r.orders[priority[i].id] == r.priority[i]
    ensures forall i :: 0 <= i < |pending| ==> r.orders[pending[i].id] == r.pending[i]
    ensures forall id :: id in store && store[id].status != Priority && store[id].status != Pending ==>
      r.orders[id] == store[id]
    ensures r.leftover <= vaccineCount
    ensures vaccineCount >= 0 ==> r.leftover >= 0
  {
    var first := FulfillList(priority, vaccineCount);
    Committed(store, {Priority}, priority, first.orders);
    var afterPriority := SaveAll(store, first.orders);
    assert ListedIn(afterPriority, {Pending}, pending);
    if first.leftover > 0 then
      var second := FulfillList(pending, first.leftover);
      Committed(afterPriority, {Pending}, pending, second.orders);
      Fulfilment(SaveAll(afterPriority, second.orders), first.orders, second.orders, second.leftover)
    else
      Fulfilment(afterPriority, first.orders, pending, first.leftover)
  }

  /** Conservation: the count goes down by exactly the needs of the PRIORITY and PENDING
      orders the pass served. */
  lemma FulfillOrdersConserves(store: Store, priority: seq<Order>, pending: seq<Order>, vaccineCount: int)
    requires Listed(store, priority, pending)
    ensures var r := FulfillOrders(store, priority, pending, vaccineCount);
      vaccineCount - r.leftover == Drawn(priority, r.priority) + Drawn(pending, r.pending)
  {
    var first := FulfillList(priority, vaccineCount);
    FulfillListConserves(priority, vaccineCount);
    if first.leftover > 0 {
      FulfillListConserves(pending, first.leftover);
    } else {
      DrawnUnchanged(pending);
    }
  }

  /** The PENDING walk is handed exactly the doses the PRIORITY walk did not use; the
      `remaining > 0` guard in front of it changes nothing, since a walk with no doses leaves
      every order as it was. */
  lemma PendingGetsWhatPriorityLeft(store: Store, priority: seq<Order>, pending: seq<Order>, vaccineCount: int)
    requires Listed(store, priority, pending)
    ensures FulfillOrders(store, priority, pending, vaccineCount).pending ==
      FulfillList(pending, vaccineCount - Drawn(priority, FulfillList(priority, vaccineCount).orders)).orders
    ensures FulfillOrders(store, priority, pending, vaccineCount).leftover ==
      FulfillList(pending, vaccineCount - Drawn(priority, FulfillList(priority, vaccineCount).orders)).leftover
  {
    FulfillListConserves(priority, vaccineCount);
    var first := FulfillList(priority, vaccineCount);
    if first.leftover <= 0 {
      NothingWithoutBudget(pending, first.leftover);
    }
  }

  /** PRIORITY before PENDING, stated without the loops: a PRIORITY order is served exactly
      when it still needs doses and the positive needs of the PRIORITY orders up to it fit in
      the whole count. */
  lemma PriorityServedFirst(store: Store, priority: seq<Order>, pending: seq<Order>, vaccineCount: int)
    requires Listed(store, priority, pending)
    ensures forall i :: 0 <= i < |priority| ==>
      FulfillOrders(store, priority, pending, vaccineCount).orders[priority[i].id] ==
        if Need(priority[i]) > 0 && PrefixDemand(priority, i + 1) <= vaccineCount
        then Fulfil(priority[i]) else priority[i]
  {
    FulfillListPrefixRule(priority, vaccineCount);
  }

  /** A PENDING order is served exactly when it still needs doses and the positive needs of
      the PENDING orders up to it fit in what the served PRIORITY orders left of the count. */
  lemma PendingServedFromRemainder(store: Store, priority: seq<Order>, pending: seq<Order>, vaccineCount: int)
    requires Listed(store, priority, pending)
    ensures forall i :: 0 <= i < |pending| ==>
      FulfillOrders(store, priority, pending, vaccineCount).orders[pending[i].id] ==
        if Need(pending[i]) > 0 &&
           Drawn(priority, FulfillOrders(store, priority, pending, vaccineCount).priority) +
           PrefixDemand(pending, i + 1) <= vaccineCount
        then Fulfil(pending[i]) else pending[i]
  {
    var r := FulfillOrders(store, priority, pending, vaccineCount);
    var remainder := vaccineCount - Drawn(priority, r.priority);
    PendingGetsWhatPriorityLeft(store, priority, pending, vaccineCount);
    assert r.pending == FulfillList(pending, remainder).orders;
    FulfillListPrefixRule(pending, remainder);
  }

  /** Every operation of the service keeps the store invariant. */
  lemma CreateOrderKeepsValid(store: Store, draft: OrderDraft, newId: OrderId)
    requires newId !in store && Valid(store)
    ensures CreateOrder(store, draft, newId).Ok? ==> Valid(CreateOrder(store, draft, newId).value.orders)
  {
  }

  lemma UpdateOrderStatusKeepsValid(store: Store, id: OrderId, newStatus: Status)
    requires Valid(store)
    ensures UpdateOrderStatus(store, id, newStatus).Ok? ==>
      Valid(UpdateOrderStatus(store, id, newStatus).value.orders)
  {
  }

  lemma FulfillOrdersKeepsValid(store: Store, priority: seq<Order>, pending: seq<Order>, vaccineCount: int)
    requires Queried(store, priority, pending) && Valid(store)
    ensures Valid(FulfillOrders(store, priority, pending, vaccineCount).orders)
  {
    var r := FulfillOrders(store, priority, pending, vaccineCount);
    forall id | id in r.orders
      ensures r.orders[id].id == id && 0 < r.orders[id].vaccineQuantity
      ensures 0 <= r.orders[id].fulfilledQuantity <= r.orders[id].vaccineQuantity
    {
      if store[id].status == Priority {
        var i :| 0 <= i < |priority| && priority[i].id == id;
      } else if store[id].status == Pending {
        var i :| 0 <= i < |pending| && pending[i].id == id;
      }
    }
  }

  /** A created order can be read back under its id, exactly as returned. */
  lemma CreateThenGet(store: Store, draft: OrderDraft, newId: OrderId)
    requires newId !in store
    requires CreateOrder(store, draft, newId).Ok?
    ensures var created := CreateOrder(store, draft, newId).value;
      GetOrder(created.orders, created.order.id) == Ok(created.order)
  {
  }

  /** A draft carrying the id of a stored order reopens that order: whatever its status,
      FULFILLED included, it is PENDING again and owes its whole quantity, and no order is
      added. */
  lemma ResubmittedIdReopens(store: Store, draft: OrderDraft, newId: OrderId, id: OrderId)
    requires newId !in store && id in store && draft.id == Some(id)
    requires CreateOrder(store, draft, newId).Ok?
    ensures var created := CreateOrder(store, draft, newId).value;
      && created.order.id == id
      && created.orders.Keys == store.Keys
      && created.orders[id].status == Pending
      && Need(created.orders[id]) == draft.vaccineQuantity > 0
  {
  }
}
