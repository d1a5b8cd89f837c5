/** The producer service of the distribution revision
    (`distribution/producer-service/.../ProducerService.java`): capacity registration, which
    pools all recorded excess with the new batch, spends the pool through the ordering
    service's fulfilment pass and books the leftover on the new capacity alone; and the
    expiry sweep over PENDING and PARTIALLY_FULFILLED orders. */
module ProducerService {
  import opened Results
  import opened Orders
  import opened Capacities
  import opened Matcher
  import opened OrderService

  /** The capacity ledger after registration, the capacity as returned, and the fulfilment
      pass it triggered. */
  datatype Registration = Registration(capacities: seq<Capacity>, created: Capacity, fulfilment: Fulfilment)

  /** `newId` is the id the repository generates for the new capacity; the order store and
      its two listings are what the ordering service sees when it is called. */
  function RegisterProducerCapacity(caps: seq<Capacity>, store: Store, priority: seq<Order>,
                                    pending: seq<Order>, request: CapacityRequest, newId: nat)
    : (r: Result<Registration>)
    requires forall c :: c in caps ==> c.id != newId
    requires Listed(store, priority, pending)
    ensures r.Err? <==> ValidateCapacityRequest(request).Err?
    ensures r.Err? ==> r.error == ValidateCapacityRequest(request).error
    ensures r.Ok? ==>
      && r.value.created.id == newId
      && Some(r.value.created.producerName) == request.producerName
      && r.value.created.vaccinesQuantity == request.vaccinesQuantity
      && Some(r.value.created.productionDeadline) == request.productionDeadline
      && r.value.fulfilment ==
           FulfillOrders(store, priority, pending, TotalExcess(caps) + request.vaccinesQuantity)
      && r.value.created.excessVaccines == r.value.fulfilment.leftover
      && |r.value.capacities| == |caps| + 1
      && r.value.capacities[|caps|] == r.value.created
      && (forall i :: 0 <= i < |caps| ==> r.value.capacities[i] == caps[i].(excessVaccines := 0))
      && r.value.capacities == Rebook(caps, r.value.created)
  {
    match ValidateCapacityRequest(request)
    case Err(e) => Err(e)
    case Ok(fields) =>
      var newCapacity := Capacity(newId, fields.producerName, fields.vaccinesQuantity, fields.productionDeadline, 0);
      var total := Pool(caps, newCapacity, request.vaccinesQuantity);
      var fulfilment := FulfillOrders(store, priority, pending, total);
      var created := newCapacity.(excessVaccines := fulfilment.leftover);
      Ok(Registration(Rebook(caps, created), created, fulfilment))
  }

  /** The pool the pass is given: the ledger's excess summed after the new capacity is saved
      with none, plus the new batch; this is the earlier excess plus the batch. */
  function Pool(caps: seq<Capacity>, newCapacity: Capacity, quantity: int): (total: int)
    requires newCapacity.excessVaccines == 0
    ensures total == TotalExcess(caps) + quantity
  {
    TotalExcessAppend(caps, newCapacity);
    TotalExcess(caps + [newCapacity]) + quantity
  }

  lemma {:induction false} TotalExcessNonNegative(caps: seq<Capacity>)
    requires forall i :: 0 <= i < |caps| ==> caps[i].excessVaccines >= 0
    ensures TotalExcess(caps) >= 0
  {
    if |caps| > 0 {
      TotalExcessNonNegative(caps[1..]);
    }
  }

  /** Conservation across the two ledgers: the pooled excess plus the new batch, less the
      excess left afterwards, is exactly the doses the triggered pass handed to orders; the
      excess left is the pass's leftover, and never more than the pool. */
  lemma RegisterConservesDoses(caps: seq<Capacity>, store: Store, priority: seq<Order>,
                               pending: seq<Order>, request: CapacityRequest, newId: nat)
    requires forall c :: c in caps ==> c.id != newId
    requires Listed(store, priority, pending)
    requires RegisterProducerCapacity(caps, store, priority, pending, request, newId).Ok?
    ensures var reg := RegisterProducerCapacity(caps, store, priority, pending, request, newId).value;
      && TotalExcess(reg.capacities) == reg.fulfilment.leftover
      && TotalExcess(reg.capacities) <= TotalExcess(caps) + request.vaccinesQuantity
      && TotalExcess(caps) + request.vaccinesQuantity - TotalExcess(reg.capacities) ==
           Drawn(priority, reg.fulfilment.priority) + Drawn(pending, reg.fulfilment.pending)
  {
    var total := TotalExcess(caps) + request.vaccinesQuantity;
    var reg := RegisterProducerCapacity(caps, store, priority, pending, request, newId).value;
    assert reg.fulfilment == FulfillOrders(store, priority, pending, total);
    FulfillOrdersConserves(store, priority, pending, total);
  }

  /** With no negative excess recorded before, none is recorded after. */
  lemma RegisterKeepsExcessNonNegative(caps: seq<Capacity>, store: Store, priority: seq<Order>,
                                       pending: seq<Order>, request: CapacityRequest, newId: nat)
    requires forall c :: c in caps ==> c.id != newId
    requires Listed(store, priority, pending)
    requires forall i :: 0 <= i < |caps| ==> caps[i].excessVaccines >= 0
    ensures var r := RegisterProducerCapacity(caps, store, priority, pending, request, newId);
      r.Ok? ==> forall i :: 0 <= i < |r.value.capacities| ==> r.value.capacities[i].excessVaccines >= 0
  {
    TotalExcessNonNegative(caps);
  }

  /** The sweep considers PENDING and PARTIALLY_FULFILLED orders only, and expires those
      whose delivery date lies strictly before today. */
  predicate Overdue(o: Order, today: Day)
  {
    (o.status == Pending || o.status == PartiallyFulfilled) && o.expectedDeliveryTime < today
  }

  /** One order as the sweep leaves it. */
  function ExpireIfOverdue(o: Order, today: Day): Order
  {
    if Overdue(o, today) then o.(status := Expired) else o
  }

  /** `expireOldOrders` with the clock read passed in as `today`. */
  function Sweep(store: Store, today: Day): (r: Store)
    ensures r.Keys == store.Keys
    ensures forall id :: id in store ==> r[id].(status := store[id].status) == store[id]
    ensures forall id :: id in store && Overdue(store[id], today) ==> r[id].status == Expired
    ensures forall id :: id in store && !Overdue(store[id], today) ==> r[id] == store[id]
  {
    map id | id in store :: ExpireIfOverdue(store[id], today)
  }

  /** A second sweep with the same day changes nothing. */
  lemma SweepIdempotent(store: Store, today: Day)
    ensures Sweep(Sweep(store, today), today) == Sweep(store, today)
  {
    var once := Sweep(store, today);
    assert forall id :: id in once ==> Sweep(once, today)[id] == once[id];
  }

  /** Sweeping on an earlier day and then a later one is the same as sweeping on the later day
      alone: an order expired early stays expired. */
  lemma SweepLaterSubsumes(store: Store, earlier: Day, later: Day)
    requires earlier <= later
    ensures Sweep(Sweep(store, earlier), later) == Sweep(store, later)
  {
    var twice := Sweep(Sweep(store, earlier), later);
    assert forall id :: id in store ==> twice[id] == Sweep(store, later)[id];
  }

  lemma SweepKeepsValid(store: Store, today: Day)
    requires Valid(store)
    ensures Valid(Sweep(store, today))
  {
  }

  /** The loop of `expireOldOrders` over `findByStatusIn(PENDING, PARTIALLY_FULFILLED)`. */
  method ExpireOldOrders(store: Store, pendingOrders: seq<Order>, today: Day) returns (result: Store)
    requires Lists(store, {Pending, PartiallyFulfilled}, pendingOrders)
    ensures result == Sweep(store, today)
  {
    result := store;
    var i := 0;
    while i < |pendingOrders|
      invariant 0 <= i <= |pendingOrders|
      invariant result.Keys == store.Keys
      invariant forall k :: 0 <= k < |pendingOrders| ==>
        result[pendingOrders[k].id] ==
          if k < i then ExpireIfOverdue(pendingOrders[k], today) else pendingOrders[k]
      invariant forall id ::
        (id in store && store[id].status != Pending && store[id].status != PartiallyFulfilled) ==>
        result[id] == store[id]
    {
      var order := pendingOrders[i];
      if order.expectedDeliveryTime < today {
        result := result[order.id := order.(status := Expired)];
      }
      i := i + 1;
    }
    forall id | id in store
      ensures result[id] == ExpireIfOverdue(store[id], today)
    {
      if store[id].status == Pending || store[id].status == PartiallyFulfilled {
        var k :| 0 <= k < |pendingOrders| && pendingOrders[k].id == id;
      }
    }
  }
}
