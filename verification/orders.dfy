/** The vaccine order record of the ordering service and the facts about an order store
    that every service operation relies on. The JPA repository is a finite map from id to
    order; a repository query is a sequence of orders drawn from that map. */
module Orders {
  import opened Results

  type OrderId = nat

  /** A calendar date as a day number; `a < b` is `a.isBefore(b)`. */
  type Day = int

  /** One constructor per status string the services write or query. */
  datatype Status = Pending | Priority | Fulfilled | Expired | Cancelled | PartiallyFulfilled

  datatype Order = Order(
    id: OrderId,
    region: string,
    vaccineQuantity: int,
    fulfilledQuantity: int,
    status: Status,
    expectedDeliveryTime: Day)

  /** Doses still owed to the order; zero or negative once it has been served. */
  function Need(o: Order): int
  {
    o.vaccineQuantity - o.fulfilledQuantity
  }

  /** The order after the matcher has served its whole need. */
  function Fulfil(o: Order): (r: Order)
    ensures r.fulfilledQuantity == r.vaccineQuantity && r.status == Fulfilled
    ensures r.(fulfilledQuantity := o.fulfilledQuantity, status := o.status) == o
  {
    o.(fulfilledQuantity := o.fulfilledQuantity + Need(o), status := Fulfilled)
  }

  type Store = map<OrderId, Order>

  /** The id a `save` of a request entity lands on. A body may carry an id (the entity has a
      setter for it): when an order is stored under that id the save merges over it;
      otherwise the repository generates `generated`. */
  function SaveTarget<T>(store: map<OrderId, T>, carried: Option<OrderId>, generated: OrderId): (id: OrderId)
    requires generated !in store
    ensures id in store <==> carried.Some? && carried.value in store
    ensures id in store ==> id == carried.value
    ensures id !in store ==> id == generated
  {
    if carried.Some? && carried.value in store then carried.value else generated
  }

  /** What every order the services can create keeps: stored under its own id, a positive
      quantity, and `0 <= fulfilledQuantity <= vaccineQuantity`. */
  ghost predicate Valid(store: Store)
  {
    forall id :: id in store ==>
      && store[id].id == id
      && 0 < store[id].vaccineQuantity
      && 0 <= store[id].fulfilledQuantity <= store[id].vaccineQuantity
  }

  /** Every order of `l` is stored as it is, once, with one of `statuses`. */
  ghost predicate ListedIn(store: Store, statuses: set<Status>, l: seq<Order>)
  {
    && (forall i :: 0 <= i < |l| ==>
          l[i].id in store && store[l[i].id] == l[i] && l[i].status in statuses)
    && DistinctIds(l)
  }

  /** No two orders of `l` share an id. */
  ghost predicate DistinctIds(l: seq<Order>)
  {
    forall i, j :: 0 <= i < j < |l| ==> l[i].id != l[j].id
  }

  /** `l` is what `findByStatusIn(statuses)` returns on `store`: each order of the store whose
      status is one of `statuses`, once, as stored. */
  ghost predicate Lists(store: Store, statuses: set<Status>, l: seq<Order>)
  {
    && ListedIn(store, statuses, l)
    && (forall id :: id in store && store[id].status in statuses ==>
          exists i :: 0 <= i < |l| && l[i].id == id)
  }

  /** The `OrderByExpectedDeliveryTimeAsc` part of the query. */
  ghost predicate SortedByDelivery(l: seq<Order>)
  {
    forall i, j :: 0 <= i < j < |l| ==> l[i].expectedDeliveryTime <= l[j].expectedDeliveryTime
  }

  /** Two stores hold the same ids and differ at most in the order stored under `id`. */
  ghost predicate OnlyChanged(before: Store, after: Store, id: OrderId)
  {
    && after.Keys == before.Keys
    && forall k :: k in before && k != id ==> after[k] == before[k]
  }
}
