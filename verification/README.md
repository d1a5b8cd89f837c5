# Vaccine order allocation and lifecycle — a Dafny model

This project models how the vaccine-distribution services hand doses to orders and move orders through their statuses. The model follows the Java code as written. It covers:

- **The greedy budget matcher** (`fulfillOrders` / `fulfillOrderList` in the ordering service). It walks the PRIORITY orders and then the PENDING orders, each list ascending by delivery date. It serves every order whose whole outstanding need fits in the remaining dose count. It skips orders with nothing left to serve. It **stops** at the first order that does not fit. It returns the leftover count.
- **Capacity registration** (distribution revision of the producer service). The request is validated. The new capacity is saved with excess 0. All recorded excess plus the new quantity is passed to the matcher. Afterwards every capacity's excess is zeroed and the whole leftover is booked on the new capacity.
- **The expiry sweep**. PENDING and PARTIALLY_FULFILLED orders whose delivery date is strictly before today become EXPIRED.
- **The status endpoints** of the order controller: promote (EXPIRED only), cancel, set any status, and fulfil.
- **The earlier revisions**. One ordering service also rejects a non-positive case count. One producer service validates and copies the request fields but does no allocation.

Modules and files:

- `results.dfy` (`Results`): `Option`, `Result` and `Error`. Exceptions and bad-request answers become error values.
- `text.dfy` (`Text`): Java's `String.trim()` and the "null or blank" test.
- `orders.dfy` (`Orders`): `Status`, `Order`, and the order store as a map from id to order. It also states what a repository listing is (`Lists`, `SortedByDelivery`) and the store invariant `Valid`.
- `capacities.dfy` (`Capacities`): `Capacity`, the registration request, the validator shared by both producer revisions, and `TotalExcess`.
- `matcher.dfy` (`Matcher`): the walk `FulfillList`, its loop form `FulfillOrderList`, and its laws.
- `order_service.dfy` (`OrderService`), `order_controller.dfy` (`OrderController`), `producer_service.dfy` (`ProducerService`), `legacy.dfy` (`LegacyOrderService`, `LegacyProducerService`): one module per service class.
- `lifecycle.dfy` (`Lifecycle`): how the unguarded status endpoints interact with the fulfilment pass and the sweep.
- `scenarios.dfy` (`Scenarios`): concrete runs that fix the break-versus-skip behaviour.

Modelling choices:

- Dates are integer day numbers. "Today" is a parameter.
- Repository queries are parameters. Their contract is a precondition. `ListedIn(store, statuses, l)` says each order of `l` is stored exactly as listed, once, with one of those statuses. `Lists` adds that every such stored order is listed. `SortedByDelivery` adds the `OrderByExpectedDeliveryTimeAsc` ordering. `OrderService.Queried` is the whole promise for the two listings of the fulfilment pass. The pass itself and the operations that call it only need the weaker `OrderService.Listed`, so they are stated for any listing the repository could return. The lemmas that speak about every order of a status require `Queried`.
- A capacity ledger is a sequence. A new capacity is appended. Ids the repository generates are parameters, required to be unused.
- The `Order` entity has a setter for its id, so a create request body may carry one. `createOrder` saves the body as received. A carried id under which an order is stored makes the save overwrite that order (`Orders.SaveTarget`). Any other body gets the generated id.
- Quantities and counts are unbounded `int`s. A negative count passed to the fulfil endpoint is modelled: nothing is served and the count comes back unchanged.
- `productionDeadline` stays a string, as in the capacity record. The code only tests it for blankness and never parses it.
- The distribution producer service imports `org.example.service.OrderService` and `org.example.model.Order`. Those classes are not part of this model. The ordering-service `OrderService` and `Order` stand in for them.

Behaviour of the code worth knowing:

- There is no per-capacity eligibility filter and no deadline-ordered draw. The matcher spends a single pooled count.
- The walk breaks at the first order that does not fit, instead of skipping it. After a PRIORITY miss, the PENDING walk still runs on what is left. `Scenarios.PendingServedAfterPriorityMiss` shows this.
- The sweep also expires PARTIALLY_FULFILLED orders.
- A FULFILLED order can be cancelled.
- A new capacity starts with excess 0, not with its quantity. After registration its excess is the whole leftover of the pool, which can exceed its own `vaccinesQuantity`.

## Model

| member | source | states |
|---|---|---|
| `Text.BlankIffAllTrimmable` | ordering-service/src/main/java/org/example/OrderService.java:24 | a present string is rejected as blank exactly when every character is one `trim()` removes (code at most U+0020) |
| `Orders.Fulfil` | ordering-service/src/main/java/org/example/OrderService.java:83-84 | a served order has `fulfilledQuantity == vaccineQuantity` and status FULFILLED; id, region, quantity and date are unchanged |
| `Capacities.ValidateCapacityRequest` | distribution/producer-service/src/main/java/org/example/ProducerService.java:31-39 | a null or blank producer name, then a quantity ≤ 0, then a null or blank deadline is reported with the source's message, first failing check wins; a valid request yields exactly its name, quantity and deadline |
| `Matcher.FulfillList` | ordering-service/src/main/java/org/example/OrderService.java:74-93 | every order is either left as it was or served in full (only if it had a positive need); the leftover never exceeds the count and is non-negative for a non-negative count |
| `Matcher.FulfillOrderList` | ordering-service/src/main/java/org/example/OrderService.java:74-93 | the for-each loop with `continue` and `break` computes the same saved orders and leftover as the recursive walk |
| `Matcher.FulfillListConserves` | ordering-service/src/main/java/org/example/OrderService.java:82-86 | the count drops by exactly the sum of the needs of the orders the walk served |
| `Matcher.FulfillListPrefixRule` | ordering-service/src/main/java/org/example/OrderService.java:77-90 | an order is served exactly when it has positive need and the positive needs of the list up to and including it fit in the count; otherwise it is left as it was |
| `Matcher.StopsAtFirstMiss` | ordering-service/src/main/java/org/example/OrderService.java:87-89 | once an order with positive need is left unserved, every later order of the list is left unserved too |
| `Matcher.FirstMissDoesNotFit` | ordering-service/src/main/java/org/example/OrderService.java:82-89 | the first order left unserved despite a positive need needs more than the leftover the walk returns |
| `Matcher.NothingWithoutBudget` | ordering-service/src/main/java/org/example/OrderService.java:78-89 | with a count ≤ 0 the walk serves nothing and returns the count unchanged; orders with need ≤ 0 are skipped |
| `Orders.SaveTarget` | ordering-service/src/main/java/org/example/OrderService.java:37 | the save lands on the carried id exactly when an order is stored under it, and otherwise on the generated id |
| `OrderService.CreateOrder` | ordering-service/src/main/java/org/example/OrderService.java:23-40 | a blank region, then a quantity ≤ 0, then a missing date is rejected with its message and nothing is saved; otherwise one order, PENDING, with nothing fulfilled and the draft's region, quantity and date, is stored under the save target, and every other order is unchanged |
| `OrderService.ResubmittedIdReopens` | ordering-service/src/main/java/org/example/OrderService.java:34-37 | a body carrying a stored order's id overwrites that order: whatever its status, it is PENDING again, owes its whole quantity, and no order is added |
| `OrderService.GetOrder` | ordering-service/src/main/java/org/example/OrderService.java:42-45 | succeeds exactly for a stored id, with the stored order; a missing id fails with not-found; generic over the order record, so it also stands for the identical lookup at ordering_service/src/main/java/org/example/OrderService.java:56-59 |
| `OrderService.UpdateOrderStatus` | ordering-service/src/main/java/org/example/OrderService.java:95-99 | fails with not-found on a missing id; otherwise only the status of that one order changes |
| `OrderService.FulfillOrders` | ordering-service/src/main/java/org/example/OrderService.java:55-72 | each PRIORITY and PENDING order is left or served in full and stored as the pass left it; orders of any other status are untouched; no id is added or removed; `leftover ≤ count` and non-negative for a non-negative count |
| `OrderService.FulfillOrdersConserves` | ordering-service/src/main/java/org/example/OrderService.java:55-72 | count − leftover equals the needs of the PRIORITY orders served plus those of the PENDING orders served |
| `OrderService.PriorityServedFirst` | ordering-service/src/main/java/org/example/OrderService.java:58-62 | a PRIORITY order is served exactly when it has positive need and the PRIORITY needs up to it fit in the whole count, whatever the PENDING orders are |
| `OrderService.PendingServedFromRemainder` | ordering-service/src/main/java/org/example/OrderService.java:64-69 | a PENDING order is served exactly when it has positive need and the PENDING needs up to it fit in what the served PRIORITY orders left |
| `OrderService.PendingGetsWhatPriorityLeft` | ordering-service/src/main/java/org/example/OrderService.java:62-69 | the PENDING walk's outcome and the final leftover are those of a walk given exactly the PRIORITY leftover; the `remaining > 0` guard changes nothing |
| `OrderService.CreateOrderKeepsValid` | ordering-service/src/main/java/org/example/OrderService.java:34-37 | creation keeps every stored order under its id with a positive quantity and `0 ≤ fulfilled ≤ quantity` |
| `OrderService.UpdateOrderStatusKeepsValid` | ordering-service/src/main/java/org/example/OrderService.java:95-98 | a status update keeps the store invariant |
| `OrderService.FulfillOrdersKeepsValid` | ordering-service/src/main/java/org/example/OrderService.java:82-85 | a fulfilment pass keeps `0 ≤ fulfilled ≤ quantity` for every order |
| `OrderService.CreateThenGet` | ordering-service/src/main/java/org/example/OrderService.java:34-44 | a created order is read back under its id exactly as returned |
| `OrderController.PrioritizeOrder` | ordering-service/src/main/java/org/example/OrderController.java:34-42 | missing id: not-found; status other than EXPIRED: bad request, nothing changes; EXPIRED: only that order's status becomes PRIORITY |
| `OrderController.CancelOrder` | ordering-service/src/main/java/org/example/OrderController.java:44-48 | any stored order, FULFILLED included, gets status CANCELLED and nothing else changes; a missing id is not-found |
| `OrderController.UpdateStatus` | ordering-service/src/main/java/org/example/OrderController.java:50-54 | any stored order takes whatever status the caller names, with no guard; a missing id is not-found |
| `Lifecycle.CancelIsFinal` | ordering-service/src/main/java/org/example/OrderController.java:44-48 | once cancelled, an order is left as it is by every fulfilment pass and by the sweep on any day |
| `Lifecycle.ReopenedServedOrderIsSkipped` | ordering-service/src/main/java/org/example/OrderController.java:50-54 | an order that was served in full and is set back to any status, PENDING or PRIORITY included, is left as it is by every later fulfilment pass |
| `OrderController.FulfillOrders` | ordering-service/src/main/java/org/example/OrderController.java:67-71 | answers with exactly the service's leftover for the given count, between 0 and the count when the count is non-negative |
| `OrderController.PrioritizeOnce` | ordering-service/src/main/java/org/example/OrderController.java:36-41 | a promoted order is no longer EXPIRED, so a second promotion is a bad request |
| `Capacities.Rebook` | distribution/producer-service/src/main/java/org/example/ProducerService.java:59-67 | every earlier capacity is kept with excess 0, the new capacity is appended, and the ledger's total excess is the new capacity's excess |
| `ProducerService.Pool` | distribution/producer-service/src/main/java/org/example/ProducerService.java:45-53 | summing the ledger after saving the new capacity with no excess, plus the batch, gives the earlier total excess plus the batch |
| `ProducerService.RegisterProducerCapacity` | distribution/producer-service/src/main/java/org/example/ProducerService.java:29-70 | a rejected request changes nothing; otherwise the matcher runs on (recorded excess + request quantity), every earlier capacity ends with excess 0, and the new one carries the request's fields and the whole leftover |
| `ProducerService.RegisterConservesDoses` | distribution/producer-service/src/main/java/org/example/ProducerService.java:46-67 | excess after registration equals the leftover, is at most the excess before plus the request quantity, and the difference is exactly the doses handed to orders |
| `ProducerService.RegisterKeepsExcessNonNegative` | distribution/producer-service/src/main/java/org/example/ProducerService.java:54-67 | if no capacity had negative excess before, none has after |
| `ProducerService.Sweep` | distribution/producer-service/src/main/java/org/example/ProducerService.java:76-87 | a PENDING or PARTIALLY_FULFILLED order dated strictly before today becomes EXPIRED; every other order is unchanged; only the status field ever changes |
| `ProducerService.SweepIdempotent` | distribution/producer-service/src/main/java/org/example/ProducerService.java:78-86 | a second sweep with the same today changes nothing |
| `ProducerService.SweepLaterSubsumes` | distribution/producer-service/src/main/java/org/example/ProducerService.java:81-85 | sweeping on an earlier day and then a later day equals sweeping on the later day alone |
| `ProducerService.SweepKeepsValid` | distribution/producer-service/src/main/java/org/example/ProducerService.java:83 | the sweep keeps the order store invariant |
| `ProducerService.ExpireOldOrders` | distribution/producer-service/src/main/java/org/example/ProducerService.java:77-87 | the loop over the PENDING/PARTIALLY_FULFILLED listing leaves the store exactly as the sweep does |
| `LegacyOrderService.CreateOrder` | ordering_service/src/main/java/org/example/OrderService.java:23-54 | a blank region, then a case count or quantity ≤ 0, then a missing date is rejected with its message; otherwise one PENDING order with the draft's fields is stored under the save target and every other order is unchanged |
| `LegacyOrderService.LaterRevisionDropsCasesCheck` | ordering_service/src/main/java/org/example/OrderService.java:27-29 | the earlier revision accepts exactly what the later one accepts with a positive case count, and both store the order PENDING with the same region, quantity and date |
| `LegacyProducerService.RegisterProducerCapacity` | producer-service/src/main/java/org/example/ProducerService.java:16-34 | the same three rejections; otherwise exactly one capacity carrying the request's name, quantity and deadline is appended and earlier capacities are untouched |
| `LegacyProducerService.LaterRevisionAddsAllocation` | distribution/producer-service/src/main/java/org/example/ProducerService.java:31-46 | the two producer revisions reject exactly the same requests with the same error, and on success record the same producer, quantity and deadline |
| `Scenarios.PriorityBeforePending` | ordering-service/src/main/java/org/example/OrderService.java:55-72 | with 100 doses, a PRIORITY need of 50 is served, a PENDING need of 60 is not, and 50 doses are returned |
| `Scenarios.PendingServedAfterPriorityMiss` | ordering-service/src/main/java/org/example/OrderService.java:62-69 | with 5 doses, a PRIORITY need of 10 is left, a PENDING need of 3 is served, and 2 doses are returned |
| `Scenarios.BreakLeavesLaterAffordableOrder` | ordering-service/src/main/java/org/example/OrderService.java:87-89 | with 5 doses, a need of 1 behind a need of 10 is left unserved |
| `Scenarios.SweepTwice` | distribution/producer-service/src/main/java/org/example/ProducerService.java:78-86 | an order due on day 1 expires when swept on day 2 and is unchanged by a sweep on day 3 |

## Left out

- Persistence: the JPA repositories are replaced by a map of orders and a sequence of capacities. Query results are preconditions, not computed. Their sortedness is stated but no proof needs it.
- A create body carrying an id that is not stored: it is treated as carrying none, so the order gets the generated id. Persistence providers that instead reject such a merge are not modelled.
- HTTP plumbing, `ResponseEntity` wrapping, the CORS configuration, application bootstraps and `RestTemplate`: they are transport, not logic.
- The controller of the earlier producer service (`producer-service/.../ProducerController.java`): it calls a `processOrderRequest` that its service class does not declare.
- The `@Scheduled` timer and `LocalDate.now()`: "today" is a parameter of the sweep.
- The React frontend: it only displays, sorts and filters.
- `findAllOrders`, `getOrdersByRegion`, `getPendingOrders` and `getAllProducerCapacities`: each is a single repository read with no logic of its own.
- `ProducerResponse`, the producer-service `Order` and `ProducerCapacityRequest` classes: plain data holders. The request is modelled only as the validator's input.
- Parsing of deadline strings into dates: the code never parses a capacity deadline.
- Java `int` overflow: counts, needs and the pooled excess sum are unbounded integers.
- OrderController.UpdateStatus: the status is one of the six values the code uses; an arbitrary string outside them is not modelled.
- JPA entity identity: the in-place mutation of shared entity objects is modelled by the resulting store and ledger values.
- Concurrency: the services' scheduling and any interleaving of registration, fulfilment and sweep are not modelled. Each operation is one atomic step.
