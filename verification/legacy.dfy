/** The earlier revision of the ordering service (`ordering_service/.../OrderService.java`):
    its order record also carries a case count, creation additionally rejects a non-positive
    case count, and there is no fulfilled quantity to initialise. */
module LegacyOrderService {
  import opened Results
  import opened Text
  import opened Orders
  import OrderService

  datatype LegacyOrder = LegacyOrder(
    id: OrderId,
    region: string,
    cases: int,
    vaccineQuantity: int,
    expectedDeliveryTime: Day,
    status: Status)

  type LegacyStore = map<OrderId, LegacyOrder>

  /** The request body of `createOrder`; absent fields are Java nulls, and the id is bound
      from the body like any other field. */
  datatype LegacyDraft = LegacyDraft(
    id: Option<OrderId>,
    region: Option<string>,
    cases: int,
    vaccineQuantity: int,
    expectedDeliveryTime: Option<Day>)

  datatype LegacySaved = LegacySaved(orders: LegacyStore, order: LegacyOrder)

  const CasesOrQuantityNotPositive := "Cases and Vaccine Quantity must be greater than 0"

  /** Validates the draft in source order and saves it PENDING; a draft carrying the id of a
      stored order is saved over that order, as in the later revision. */
  function CreateOrder(store: LegacyStore, draft: LegacyDraft, newId: OrderId): (r: Result<LegacySaved>)
    requires newId !in store
    ensures r == Err(IllegalArgument(OrderService.RegionEmpty)) <==> IsBlank(draft.region)
    ensures r == Err(IllegalArgument(CasesOrQuantityNotPositive)) <==>
      !IsBlank(draft.region) && (draft.cases <= 0 || draft.vaccineQuantity <= 0)
    ensures r == Err(IllegalArgument(OrderService.DeliveryTimeMissing)) <==>
      && !IsBlank(draft.region) && draft.cases > 0 && draft.vaccineQuantity > 0
      && draft.expectedDeliveryTime.None?
    ensures r.Ok? <==>
      !IsBlank(draft.region) && draft.cases > 0 && draft.vaccineQuantity > 0 &&
      draft.expectedDeliveryTime.Some?
    ensures r.Ok? ==>
      && r.value.order == LegacyOrder(SaveTarget(store, draft.id, newId), draft.region.value,
                                      draft.cases, draft.vaccineQuantity,
                                      draft.expectedDeliveryTime.value, Pending)
      && r.value.orders.Keys == store.Keys + {r.value.order.id}
      && r.value.orders[r.value.order.id] == r.value.order
      && (forall id :: id in store && id != r.value.order.id ==> r.value.orders[id] == store[id])
  {
    if IsBlank(draft.region) then Err(IllegalArgument(OrderService.RegionEmpty))
    else if draft.cases <= 0 || draft.vaccineQuantity <= 0 then Err(IllegalArgument(CasesOrQuantityNotPositive))
    else if draft.expectedDeliveryTime.None? then Err(IllegalArgument(OrderService.DeliveryTimeMissing))
    else
      var order := LegacyOrder(SaveTarget(store, draft.id, newId), draft.region.value, draft.cases,
                               draft.vaccineQuantity, draft.expectedDeliveryTime.value, Pending);
      Ok(LegacySaved(store[order.id := order], order))
  }

  /** The earlier revision accepts exactly the drafts the later one accepts that also have a
      positive case count, and both save them PENDING with the same region, quantity and date. */
  lemma LaterRevisionDropsCasesCheck(store: LegacyStore, later: Store, draft: LegacyDraft, newId: OrderId)
    requires newId !in store && newId !in later
    ensures var earlier := CreateOrder(store, draft, newId);
      var now := OrderService.CreateOrder(later,
        OrderService.OrderDraft(draft.id, draft.region, draft.vaccineQuantity, draft.expectedDeliveryTime),
        newId);
      && (earlier.Ok? <==> now.Ok? && draft.cases > 0)
      && (earlier.Ok? ==>
            && earlier.value.order.status == now.value.order.status == Pending
            && earlier.value.order.region == now.value.order.region
            && earlier.value.order.vaccineQuantity == now.value.order.vaccineQuantity
            && earlier.value.order.expectedDeliveryTime == now.value.order.expectedDeliveryTime)
  {
  }
}

/** The earlier revision of the producer service (`producer-service/.../ProducerService.java`):
    the same request validation, then the capacity is saved as requested, with no excess
    bookkeeping and no fulfilment pass. */
module LegacyProducerService {
  import opened Results
  import opened Capacities
  import opened Orders
  import OrderService
  import ProducerService

  /** The capacity record of that revision: it has no excess field. */
  datatype LegacyCapacity = LegacyCapacity(
    id: nat,
    producerName: string,
    vaccinesQuantity: int,
    productionDeadline: string)

  datatype LegacyRegistration = LegacyRegistration(capacities: seq<LegacyCapacity>, created: LegacyCapacity)

  function RegisterProducerCapacity(caps: seq<LegacyCapacity>, request: CapacityRequest, newId: nat)
    : (r: Result<LegacyRegistration>)
    requires forall c :: c in caps ==> c.id != newId
    ensures r.Err? <==> ValidateCapacityRequest(request).Err?
    ensures r.Err? ==> r.error == ValidateCapacityRequest(request).error
    ensures r.Ok? ==>
      && r.value.created.id == newId
      && Some(r.value.created.producerName) == request.producerName
      && r.value.created.vaccinesQuantity == request.vaccinesQuantity
      && Some(r.value.created.productionDeadline) == request.productionDeadline
      && |r.value.capacities| == |caps| + 1
      && r.value.capacities[..|caps|] == caps
      && r.value.capacities[|caps|] == r.value.created
  {
    match ValidateCapacityRequest(request)
    case Err(e) => Err(e)
    case Ok(fields) =>
      var created := LegacyCapacity(newId, fields.producerName, fields.vaccinesQuantity, fields.productionDeadline);
      Ok(LegacyRegistration(caps + [created], created))
  }

  /** The later revision rejects exactly the requests the earlier one rejects, with the same
      error, and records the same producer, quantity and deadline; what it adds is the excess
      bookkeeping and the fulfilment pass. */
  lemma LaterRevisionAddsAllocation(caps: seq<LegacyCapacity>, ledger: seq<Capacity>, store: Store,
                                    priority: seq<Order>, pending: seq<Order>,
                                    request: CapacityRequest, newId: nat)
    requires forall c :: c in caps ==> c.id != newId
    requires forall c :: c in ledger ==> c.id != newId
    requires OrderService.Listed(store, priority, pending)
    ensures var earlier := RegisterProducerCapacity(caps, request, newId);
      var now := ProducerService.RegisterProducerCapacity(ledger, store, priority, pending, request, newId);
      && (earlier.Err? <==> now.Err?)
      && (earlier.Err? ==> earlier.error == now.error)
      && (earlier.Ok? ==>
            && earlier.value.created.producerName == now.value.created.producerName
            && earlier.value.created.vaccinesQuantity == now.value.created.vaccinesQuantity
            && earlier.value.created.productionDeadline == now.value.created.productionDeadline)
  {
  }
}
