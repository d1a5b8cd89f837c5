/** How the unguarded status endpoints of `ordering-service/.../OrderController.java` interact
    with the two automatic steps, the fulfilment pass and the expiry sweep. */
module Lifecycle {
  import opened Orders
  import opened Matcher
  import OrderService
  import opened OrderController
  import ProducerService

  /** A cancelled order is final for the automatic steps: neither a fulfilment pass nor a
      sweep on any day changes it. */
  lemma CancelIsFinal(store: Store, id: OrderId, priority: seq<Order>, pending: seq<Order>,
                      vaccineCount: int, today: Day)
    requires CancelOrder(store, id).Ok?
    requires OrderService.Listed(CancelOrder(store, id).value.orders, priority, pending)
    ensures var after := CancelOrder(store, id).value.orders;
      && OrderService.FulfillOrders(after, priority, pending, vaccineCount).orders[id] == after[id]
      && ProducerService.Sweep(after, today)[id] == after[id]
  {
  }

  /** With no guard on the status endpoint, a served order can be set back to PENDING or
      PRIORITY; owing nothing, it is skipped by every later pass and keeps that status. */
  lemma ReopenedServedOrderIsSkipped(store: Store, id: OrderId, newStatus: Status,
                                     priority: seq<Order>, pending: seq<Order>, vaccineCount: int)
    requires UpdateStatus(store, id, newStatus).Ok?
    requires store[id].fulfilledQuantity >= store[id].vaccineQuantity
    requires OrderService.Queried(UpdateStatus(store, id, newStatus).value.orders, priority, pending)
    ensures var after := UpdateStatus(store, id, newStatus).value.orders;
      OrderService.FulfillOrders(after, priority, pending, vaccineCount).orders[id] == after[id]
  {
  }
}
