/** Concrete runs of the fulfilment pass and the sweep that pin down behaviour a reader of
    the loops could misjudge. */
module Scenarios {
  import opened Orders
  import opened Matcher
  import opened OrderService
  import ProducerService

  /** A PRIORITY order needing 50 and a PENDING order needing 60, both due on day 10, with
      100 doses: the PRIORITY order is served first, the PENDING one no longer fits, and 50
      doses are returned. */
  lemma PriorityBeforePending()
    ensures var p := Order(1, "north", 50, 0, Priority, 10);
      var q := Order(2, "south", 60, 0, Pending, 10);
      var store := map[1 := p, 2 := q];
      && Queried(store, [p], [q])
      && var r := FulfillOrders(store, [p], [q], 100);
         r.orders == map[1 := Fulfil(p), 2 := q] && r.leftover == 50
  {
    var p := Order(1, "north", 50, 0, Priority, 10);
    var q := Order(2, "south", 60, 0, Pending, 10);
    var store := map[1 := p, 2 := q];
    assert [p][0].id == 1 && [q][0].id == 2;
    assert Queried(store, [p], [q]);
    assert FulfillList([p], 100) == Allocation([Fulfil(p)], 50) by {
      assert [p][1..] == [];
    }
    assert FulfillList([q], 50) == Allocation([q], 50);
    var r := FulfillOrders(store, [p], [q], 100);
    assert r.orders[1] == Fulfil(p) && r.orders[2] == q;
  }

  /** The PRIORITY walk breaks at an order needing 10 with only 5 doses, yet the PENDING walk
      still runs on those 5 and serves an order needing 3. */
  lemma PendingServedAfterPriorityMiss()
    ensures var p := Order(1, "north", 10, 0, Priority, 5);
      var q := Order(2, "south", 3, 0, Pending, 7);
      var store := map[1 := p, 2 := q];
      && Queried(store, [p], [q])
      && var r := FulfillOrders(store, [p], [q], 5);
         r.orders == map[1 := p, 2 := Fulfil(q)] && r.leftover == 2
  {
    var p := Order(1, "north", 10, 0, Priority, 5);
    var q := Order(2, "south", 3, 0, Pending, 7);
    var store := map[1 := p, 2 := q];
    assert [p][0].id == 1 && [q][0].id == 2;
    assert Queried(store, [p], [q]);
    var r := FulfillOrders(store, [p], [q], 5);
    assert r.orders[1] == p && r.orders[2] == Fulfil(q);
  }

  /** Within one list the walk breaks rather than skips: an order needing 1 behind an order
      needing 10 is left unserved although 5 doses remain. */
  lemma BreakLeavesLaterAffordableOrder()
    ensures var a := Order(1, "north", 10, 0, Pending, 3);
      var b := Order(2, "south", 1, 0, Pending, 4);
      FulfillList([a, b], 5) == Allocation([a, b], 5)
  {
  }

  /** An order due on day 1 swept on day 2 expires; sweeping it again on day 3 leaves it so. */
  lemma SweepTwice()
    ensures var o := Order(1, "north", 10, 0, Pending, 1);
      var once := ProducerService.Sweep(map[1 := o], 2);
      once[1].status == Expired && ProducerService.Sweep(once, 3) == once
  {
    var o := Order(1, "north", 10, 0, Pending, 1);
    var once := ProducerService.Sweep(map[1 := o], 2);
    assert ProducerService.Sweep(once, 3)[1] == once[1];
  }
}
