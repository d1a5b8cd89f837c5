/** The greedy budget matcher of the ordering service (`fulfillOrderList`): walk a list of
    orders in the order the repository returned it, serve each whole remaining need that the
    budget still covers, skip orders with nothing left to serve, and stop at the first order
    the budget cannot cover. */
module Matcher {
  import opened Orders

  /** The orders as saved by one walk and the doses left over. */
  datatype Allocation = Allocation(orders: seq<Order>, leftover: int)

  /** `after` is `before` with some orders served in full and every other order as it was. */
  ghost predicate Settles(before: seq<Order>, after: seq<Order>)
  {
    && |after| == |before|
    && forall i :: 0 <= i < |before| ==>
         after[i] == before[i] || (Need(before[i]) > 0 && after[i] == Fulfil(before[i]))
  }

  function FulfillList(orders: seq<Order>, available: int): (a: Allocation)
    ensures Settles(orders, a.orders)
    ensures a.leftover <= available
    ensures available >= 0 ==> a.leftover >= 0
    decreases |orders|
  {
    if |orders| == 0 then Allocation(orders, available)
    else
      var o := orders[0];
      var needed := Need(o);
      if needed <= 0 then
        var rest := FulfillList(orders[1..], available);
        Allocation([o] + rest.orders, rest.leftover)
      else if available >= needed then
        var rest := FulfillList(orders[1..], available - needed);
        Allocation([Fulfil(o)] + rest.orders, rest.leftover)
      else
        Allocation(orders, available)
  }

  /** Doses handed out between `before` and `after`: the needs of the orders that changed. */
  function Drawn(before: seq<Order>, after: seq<Order>): int
    requires |before| == |after|
  {
    if |before| == 0 then 0
    else (if after[0] != before[0] then Need(before[0]) else 0) + Drawn(before[1..], after[1..])
  }

  /** The positive needs of the first `n` orders added up. */
  function PrefixDemand(orders: seq<Order>, n: nat): int
    requires n <= |orders|
  {
    if n == 0 then 0
    else PrefixDemand(orders, n - 1) + (if Need(orders[n - 1]) > 0 then Need(orders[n - 1]) else 0)
  }

  lemma {:induction false} PrefixDemandMonotone(orders: seq<Order>, m: nat, n: nat)
    requires m <= n <= |orders|
    ensures PrefixDemand(orders, m) <= PrefixDemand(orders, n)
    decreases n
  {
    if m < n {
      PrefixDemandMonotone(orders, m, n - 1);
    }
  }

  lemma {:induction false} PrefixDemandCons(orders: seq<Order>, n: nat)
    requires 0 < n <= |orders|
    ensures PrefixDemand(orders, n) ==
      (if Need(orders[0]) > 0 then Need(orders[0]) else 0) + PrefixDemand(orders[1..], n - 1)
  {
    if n > 1 {
      PrefixDemandCons(orders, n - 1);
    }
  }

  /** Conservation: the budget goes down by exactly the needs of the orders the walk served. */
  lemma {:induction false} FulfillListConserves(orders: seq<Order>, available: int)
    ensures available - FulfillList(orders, available).leftover ==
      Drawn(orders, FulfillList(orders, available).orders)
    decreases |orders|
  {
    var a := FulfillList(orders, available);
    if |orders| > 0 {
      var needed := Need(orders[0]);
      if needed <= 0 {
        FulfillListConserves(orders[1..], available);
        assert a.orders[1..] == FulfillList(orders[1..], available).orders;
      } else if available >= needed {
        FulfillListConserves(orders[1..], available - needed);
        assert a.orders[1..] == FulfillList(orders[1..], available - needed).orders;
      } else {
        DrawnUnchanged(orders);
      }
    }
  }

  lemma {:induction false} DrawnUnchanged(orders: seq<Order>)
    ensures Drawn(orders, orders) == 0
  {
    if |orders| > 0 {
      DrawnUnchanged(orders[1..]);
    }
  }

  /** The walk agrees with a rule that needs no loop: an order is served exactly when it
      still needs doses and the positive needs up to and including it fit in the budget. */
  lemma {:induction false} FulfillListPrefixRule(orders: seq<Order>, available: int)
    ensures forall i :: 0 <= i < |orders| ==>
      FulfillList(orders, available).orders[i] ==
        if Need(orders[i]) > 0 && PrefixDemand(orders, i + 1) <= available
        then Fulfil(orders[i]) else orders[i]
    decreases |orders|
  {
    var a := FulfillList(orders, available);
    if |orders| > 0 {
      var needed := Need(orders[0]);
      var budget := if needed <= 0 then available else available - needed;
      if needed <= 0 || available >= needed {
        var rest := FulfillList(orders[1..], budget);
        FulfillListPrefixRule(orders[1..], budget);
        forall i | 0 <= i < |orders|
          ensures a.orders[i] ==
            if Need(orders[i]) > 0 && PrefixDemand(orders, i + 1) <= available
            then Fulfil(orders[i]) else orders[i]
        {
          PrefixDemandCons(orders, i + 1);
          if i > 0 {
            assert a.orders[i] == rest.orders[i - 1];
            assert orders[1..][i - 1] == orders[i];
          }
        }
      } else {
        forall i | 0 <= i < |orders| && Need(orders[i]) > 0
          ensures PrefixDemand(orders, i + 1) > available
        {
          PrefixDemandMonotone(orders, 1, i + 1);
        }
      }
    }
  }

  /** Once an order with positive need is left as it was, every later order is left too:
      the walk breaks instead of skipping. */
  lemma StopsAtFirstMiss(orders: seq<Order>, available: int)
    ensures forall i, j ::
      (0 <= i < j < |orders| && Need(orders[i]) > 0 &&
       FulfillList(orders, available).orders[i] == orders[i]) ==>
      FulfillList(orders, available).orders[j] == orders[j]
  {
    var a := FulfillList(orders, available);
    FulfillListPrefixRule(orders, available);
    forall i, j | 0 <= i < j < |orders| && Need(orders[i]) > 0 && a.orders[i] == orders[i]
      ensures a.orders[j] == orders[j]
    {
      assert Fulfil(orders[i]).fulfilledQuantity != orders[i].fulfilledQuantity;
      PrefixDemandMonotone(orders, i + 1, j + 1);
    }
  }

  /** The first order left unserved despite a positive need is one the remaining budget
      could not cover: its need exceeds what the walk returns. */
  lemma {:induction false} FirstMissDoesNotFit(orders: seq<Order>, available: int, i: nat)
    requires i < |orders| && Need(orders[i]) > 0
    requires FulfillList(orders, available).orders[i] == orders[i]
    requires forall j :: 0 <= j < i ==>
      Need(orders[j]) <= 0 || FulfillList(orders, available).orders[j] != orders[j]
    ensures FulfillList(orders, available).leftover < Need(orders[i])
    decreases i
  {
    var a := FulfillList(orders, available);
    var needed := Need(orders[0]);
    if i > 0 {
      assert needed <= 0 || a.orders[0] != orders[0];
      assert needed <= 0 || available >= needed;
      var budget := if needed <= 0 then available else available - needed;
      var rest := FulfillList(orders[1..], budget);
      var served := if needed <= 0 then orders[0] else Fulfil(orders[0]);
      assert a == Allocation([served] + rest.orders, rest.leftover);
      assert a.orders[1..] == rest.orders;
      forall j | 0 <= j < i - 1
        ensures Need(orders[1..][j]) <= 0 || rest.orders[j] != orders[1..][j]
      {
        assert a.orders[j + 1] == rest.orders[j];
      }
      FirstMissDoesNotFit(orders[1..], budget, i - 1);
    } else {
      assert Fulfil(orders[0]).fulfilledQuantity != orders[0].fulfilledQuantity;
    }
  }

  /** With no doses to give, the walk changes nothing and returns the budget untouched. */
  lemma {:induction false} NothingWithoutBudget(orders: seq<Order>, available: int)
    requires available <= 0
    ensures FulfillList(orders, available) == Allocation(orders, available)
    decreases |orders|
  {
    if |orders| > 0 && Need(orders[0]) <= 0 {
      NothingWithoutBudget(orders[1..], available);
      assert [orders[0]] + orders[1..] == orders;
    }
  }

  /** One step of the walk, for an order it does not stop at, appended to the orders
      already saved: `served` is the order as the step leaves it and `budget` the doses left
      after it. */
  lemma Advance(rest: seq<Order>, available: int, prefix: seq<Order>, served: Order, budget: int)
    requires |rest| > 0
    requires Need(rest[0]) <= 0 ==> served == rest[0] && budget == available
    requires Need(rest[0]) > 0 ==>
      available >= Need(rest[0]) && served == Fulfil(rest[0]) && budget == available - Need(rest[0])
    ensures Allocation(prefix + FulfillList(rest, available).orders,
                       FulfillList(rest, available).leftover) ==
            Allocation((prefix + [served]) + FulfillList(rest[1..], budget).orders,
                       FulfillList(rest[1..], budget).leftover)
  {
    var later := FulfillList(rest[1..], budget).orders;
    assert prefix + ([served] + later) == (prefix + [served]) + later;
  }

  /** The for-each loop of `fulfillOrderList`, with `break` at the first order that does not
      fit. `saved` collects each order as the loop leaves it; `rest` is what the loop has not
      reached yet. */
  method FulfillOrderList(orders: seq<Order>, availableVaccines: int)
    returns (saved: seq<Order>, remaining: int)
    ensures Allocation(saved, remaining) == FulfillList(orders, availableVaccines)
  {
    saved := [];
    remaining := availableVaccines;
    var rest := orders;
    while |rest| > 0
      invariant FulfillList(orders, availableVaccines) ==
        Allocation(saved + FulfillList(rest, remaining).orders, FulfillList(rest, remaining).leftover)
      decreases |rest|
    {
      var order := rest[0];
      var needed := order.vaccineQuantity - order.fulfilledQuantity;
      if needed > 0 && remaining < needed {
        break;
      }
      var served := order;
      var budget := remaining;
      if needed > 0 {
        served := Fulfil(order);
        budget := remaining - needed;
      }
      Advance(rest, remaining, saved, served, budget);
      saved := saved + [served];
      remaining := budget;
      rest := rest[1..];
    }
    saved := saved + rest;
  }
}
