/** The status endpoints of `ordering-service/.../OrderController.java`: the guards they
    apply before delegating to the service, and the fulfil endpoint's pass-through. */
module OrderController {
  import opened Results
  import opened Orders
  import opened OrderService

  /** `PATCH /{id}/priority`: only an EXPIRED order may be promoted to PRIORITY. */
  function PrioritizeOrder(store: Store, id: OrderId): (r: Result<Saved>)
    ensures r == Err(NotFound(id)) <==> id !in store
    ensures r == Err(BadRequest) <==> id in store && store[id].status != Expired
    ensures r.Ok? <==> id in store && store[id].status == Expired
    ensures r.Ok? ==>
      && OnlyChanged(store, r.value.orders, id)
      && r.value.order == store[id].(status := Priority)
      && r.value.orders[id] == r.value.order
  {
    match GetOrder(store, id)
    case Err(e) => Err(e)
    case Ok(order) =>
      if order.status != Expired then Err(BadRequest)
      else UpdateOrderStatus(store, id, Priority)
  }

  /** `PATCH /{id}/cancel`: no guard, so even a FULFILLED order can be cancelled. */
  function CancelOrder(store: Store, id: OrderId): (r: Result<Saved>)
    ensures r.Ok? <==> id in store
    ensures r.Err? ==> r.error == NotFound(id)
    ensures r.Ok? ==>
      && OnlyChanged(store, r.value.orders, id)
      && r.value.order == store[id].(status := Cancelled)
      && r.value.orders[id] == r.value.order
  {
    UpdateOrderStatus(store, id, Cancelled)
  }

  /** `PATCH /{id}/status`: any status the caller names, from any status. */
  function UpdateStatus(store: Store, id: OrderId, newStatus: Status): (r: Result<Saved>)
    ensures r.Ok? <==> id in store
    ensures r.Err? ==> r.error == NotFound(id)
    ensures r.Ok? ==>
      && OnlyChanged(store, r.value.orders, id)
      && r.value.order == store[id].(status := newStatus)
      && r.value.orders[id] == r.value.order
  {
    UpdateOrderStatus(store, id, newStatus)
  }

  /** The store after the fulfil endpoint and the count it answers with. */
  datatype Answer = Answer(orders: Store, leftover: int)

  /** `POST /fulfill`: answers with the service's leftover for the given count. */
  function FulfillOrders(store: Store, priority: seq<Order>, pending: seq<Order>, availableVaccines: int)
    : (r: Answer)
    requires Listed(store, priority, pending)
    ensures r.leftover == OrderService.FulfillOrders(store, priority, pending, availableVaccines).leftover
    ensures r.orders == OrderService.FulfillOrders(store, priority, pending, availableVaccines).orders
    ensures availableVaccines >= 0 ==> 0 <= r.leftover <= availableVaccines
  {
    var f := OrderService.FulfillOrders(store, priority, pending, availableVaccines);
    Answer(f.orders, f.leftover)
  }

  /** A promoted order cannot be promoted again: it is no longer EXPIRED. */
  lemma PrioritizeOnce(store: Store, id: OrderId)
    requires PrioritizeOrder(store, id).Ok?
    ensures PrioritizeOrder(PrioritizeOrder(store, id).value.orders, id) == Err(BadRequest)
  {
  }
}
