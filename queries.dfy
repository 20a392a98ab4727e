/** The read side of the order table: the listings drivers and restaurants poll, the
    new-order notification count and the delivered revenue per day. Queries read one
    snapshot of the tables and change nothing. Ids are handed out below `nextId`, so
    scanning the ids below it, highest first, lists the table ordered by descending id. */
module Queries {
  import opened Orders
  import opened Lifecycle

  predicate StrictlyDescending(ids: seq<OrderId>) {
    forall i, j :: 0 <= i < j < |ids| ==> ids[i] > ids[j]
  }

  /** The ids below `hi` of the orders that satisfy `keep`, highest id first. */
  function Select(orders: map<OrderId, Order>, keep: Order -> bool, hi: nat): (r: seq<OrderId>)
    ensures StrictlyDescending(r)
    ensures forall k :: 0 <= k < |r| ==> r[k] < hi && r[k] in orders && keep(orders[r[k]])
    ensures forall id {:trigger id in r} :: id < hi && id in orders && keep(orders[id]) ==> id in r
    decreases hi
  {
    if hi == 0 then []
    else
      var rest := Select(orders, keep, hi - 1);
      if hi - 1 in orders && keep(orders[hi - 1]) then [hi - 1] + rest else rest
  }

  /** driver_get_ready_orders: the READY orders no driver has claimed, newest first. */
  function ReadyOrders(t: Tables): (r: seq<OrderId>)
    ensures StrictlyDescending(r)
    ensures forall id :: id in r <==>
      id in t.orders && id < t.nextId && t.orders[id].status == Ready && t.orders[id].driver == None
  {
    Select(t.orders, (o: Order) => o.status == Ready && o.driver == None, t.nextId)
  }

  /** restaurant_order (listing): the restaurant's orders, newest first. */
  function RestaurantOrders(t: Tables, restaurant: RestaurantId): (r: seq<OrderId>)
    ensures StrictlyDescending(r)
    ensures forall id :: id in r <==> id in t.orders && id < t.nextId && t.orders[id].restaurant == restaurant
  {
    Select(t.orders, (o: Order) => o.restaurant == restaurant, t.nextId)
  }

  /** A claimed order leaves the ready list and nothing else leaves or joins it. */
  lemma ReadyOrdersAfterPick(t: Tables, id: OrderId, driver: DriverId, now: int)
    requires PickStep(t, id, driver, now).outcome == Picked
    ensures var after := ReadyOrders(PickStep(t, id, driver, now).tables);
      forall k :: k in after <==> k in ReadyOrders(t) && k != id
  {
  }

  // ---------------------------------------------------------------------------
  // restaurant_order_notification
  // ---------------------------------------------------------------------------

  /** The restaurant's orders created after the watermark. */
  function Notified(orders: map<OrderId, Order>, restaurant: RestaurantId, watermark: int): set<OrderId> {
    set id | id in orders && orders[id].restaurant == restaurant && orders[id].createdAt > watermark
  }

  /** How many of the restaurant's orders were created after the watermark. */
  function NotificationCount(orders: map<OrderId, Order>, restaurant: RestaurantId, watermark: int): nat {
    |Notified(orders, restaurant, watermark)|
  }

  /** A later watermark never counts more orders. */
  lemma NotificationCountAntitone(orders: map<OrderId, Order>, restaurant: RestaurantId, early: int, late: int)
    requires early <= late
    ensures NotificationCount(orders, restaurant, late) <= NotificationCount(orders, restaurant, early)
  {
    var e := Notified(orders, restaurant, early);
    var l := Notified(orders, restaurant, late);
    assert e == l + (e - l);
    assert l * (e - l) == {};
  }

  /** Inserting a new row adds one to the count exactly when the row is the restaurant's
      and was created after the watermark. */
  lemma NotificationCountInsert(orders: map<OrderId, Order>, id: OrderId, o: Order, restaurant: RestaurantId, watermark: int)
    requires id !in orders
    ensures NotificationCount(orders[id := o], restaurant, watermark) ==
      NotificationCount(orders, restaurant, watermark) + Share(o.restaurant == restaurant && o.createdAt > watermark, 1)
  {
    var orders' := orders[id := o];
    var before := Notified(orders, restaurant, watermark);
    var after := Notified(orders', restaurant, watermark);
    assert id !in before;
    if o.restaurant == restaurant && o.createdAt > watermark {
      assert after == before + {id};
      assert before !! {id};
    } else {
      assert after == before;
    }
  }

  /** A placed order raises the count of its own restaurant by one when it was created
      after the watermark; no other count moves, and a refused request moves none. */
  lemma NotificationAfterAddOrder(t: Tables, customer: CustomerId, restaurant: RestaurantId, address: string,
                                  lines: seq<LineRequest>, prices: map<MealId, int>, token: string,
                                  charge: (int, string) -> bool, now: int, polled: RestaurantId, watermark: int)
    requires Invariant(t)
    ensures var s := AddOrderStep(t, customer, restaurant, address, lines, prices, token, charge, now);
      NotificationCount(s.tables.orders, polled, watermark) ==
        NotificationCount(t.orders, polled, watermark) + Share(s.outcome.Placed? && restaurant == polled && now > watermark, 1)
  {
    var s := AddOrderStep(t, customer, restaurant, address, lines, prices, token, charge, now);
    if s.outcome.Placed? {
      AddOrderPlaced(t, customer, restaurant, address, lines, prices, token, charge, now);
      var o := s.tables.orders[t.nextId];
      assert s.tables.orders == t.orders[t.nextId := o];
      NotificationCountInsert(t.orders, t.nextId, o, polled, watermark);
    }
  }

  // ---------------------------------------------------------------------------
  // Delivered revenue per day
  // ---------------------------------------------------------------------------

  /** Sum of the totals of the listed orders. */
  function SumTotals(orders: map<OrderId, Order>, ids: seq<OrderId>): int
    requires forall k :: 0 <= k < |ids| ==> ids[k] in orders
  {
    if ids == [] then 0 else orders[ids[0]].total + SumTotals(orders, ids[1..])
  }

  /** The restaurant's DELIVERED orders created on `day`; `dayOf` gives the day of a clock reading. */
  function RestaurantDelivered(restaurant: RestaurantId, day: int, dayOf: int -> int): Order -> bool {
    (o: Order) => o.restaurant == restaurant && o.status == Delivered && dayOf(o.createdAt) == day
  }

  /** The driver's DELIVERED orders created on `day`. */
  function DriverDelivered(driver: DriverId, day: int, dayOf: int -> int): Order -> bool {
    (o: Order) => o.driver == Some(driver) && o.status == Delivered && dayOf(o.createdAt) == day
  }

  /** Summed totals of the orders `keep` selects. */
  function Revenue(t: Tables, keep: Order -> bool): int {
    SumTotals(t.orders, Select(t.orders, keep, t.nextId))
  }

  /** Number of the orders `keep` selects. */
  function DeliveredCount(t: Tables, keep: Order -> bool): nat {
    |Select(t.orders, keep, t.nextId)|
  }

  /** `amount` when `b` holds, else 0. */
  function Share(b: bool, amount: int): int {
    if b then amount else 0
  }

  /** Listing one more order in front adds its total. */
  lemma SumTotalsCons(orders: map<OrderId, Order>, x: OrderId, rest: seq<OrderId>)
    requires x in orders && forall k :: 0 <= k < |rest| ==> rest[k] in orders
    ensures SumTotals(orders, [x] + rest) == orders[x].total + SumTotals(orders, rest)
  {
    assert ([x] + rest)[1..] == rest;
  }

  /** Replacing one row changes the size of a selection exactly by whether that row is
      selected before and after. */
  lemma {:induction false} SelectCountAfterUpdate(orders: map<OrderId, Order>, id: OrderId, o: Order, keep: Order -> bool, hi: nat)
    requires id in orders
    ensures var was, now := id < hi && keep(orders[id]), id < hi && keep(o);
      |Select(orders[id := o], keep, hi)| + Share(was, 1) == |Select(orders, keep, hi)| + Share(now, 1)
    decreases hi
  {
    if hi > 0 {
      SelectCountAfterUpdate(orders, id, o, keep, hi - 1);
    }
  }

  /** The summed totals of the rows below `hi` that `keep` selects, counted id by id. */
  function SelectedTotal(orders: map<OrderId, Order>, keep: Order -> bool, hi: nat): int {
    if hi == 0 then 0
    else SelectedTotal(orders, keep, hi - 1) + (if hi - 1 in orders && keep(orders[hi - 1]) then orders[hi - 1].total else 0)
  }

  /** Summing the listed selection gives the id-by-id total. */
  lemma {:induction false} SumTotalsSelect(orders: map<OrderId, Order>, keep: Order -> bool, hi: nat)
    ensures SumTotals(orders, Select(orders, keep, hi)) == SelectedTotal(orders, keep, hi)
  {
    if hi > 0 {
      SumTotalsSelect(orders, keep, hi - 1);
      if hi - 1 in orders && keep(orders[hi - 1]) {
        SumTotalsCons(orders, hi - 1, Select(orders, keep, hi - 1));
      }
    }
  }

  /** Replacing one row by one with the same total changes the selected total exactly
      by whether that row is selected before and after. */
  lemma {:induction false} SelectedTotalAfterUpdate(orders: map<OrderId, Order>, id: OrderId, o: Order, keep: Order -> bool, hi: nat)
    requires id in orders && o.total == orders[id].total
    ensures var was, now := id < hi && keep(orders[id]), id < hi && keep(o);
      SelectedTotal(orders[id := o], keep, hi) + Share(was, o.total) == SelectedTotal(orders, keep, hi) + Share(now, o.total)
  {
    if hi > 0 {
      SelectedTotalAfterUpdate(orders, id, o, keep, hi - 1);
    }
  }

  /** Completing a delivery moves the order's total into the revenue, and the order into
      the count, of every selection that picks the delivered row and not the row before
      it, and out of every selection that does the reverse; a refused completion moves
      nothing. */
  lemma RevenueAfterComplete(t: Tables, id: OrderId, driver: DriverId, keep: Order -> bool)
    requires Invariant(t)
    ensures var s := CompleteStep(t, id, driver);
      var leaves := s.outcome && keep(t.orders[id]);
      var joins := s.outcome && keep(s.tables.orders[id]);
      var total := if s.outcome then t.orders[id].total else 0;
      && Revenue(s.tables, keep) + Share(leaves, total) == Revenue(t, keep) + Share(joins, total)
      && DeliveredCount(s.tables, keep) + Share(leaves, 1) == DeliveredCount(t, keep) + Share(joins, 1)
  {
    var s := CompleteStep(t, id, driver);
    if s.outcome {
      SelectCountAfterUpdate(t.orders, id, s.tables.orders[id], keep, t.nextId);
      SumTotalsSelect(t.orders, keep, t.nextId);
      SumTotalsSelect(s.tables.orders, keep, t.nextId);
      SelectedTotalAfterUpdate(t.orders, id, s.tables.orders[id], keep, t.nextId);
    }
  }

  /** In particular, completing an ON_THE_WAY order adds its total, and one order, to the
      day it was created on in its restaurant's report, and to no other day or restaurant. */
  lemma ReportAfterComplete(t: Tables, id: OrderId, driver: DriverId, restaurant: RestaurantId, day: int, dayOf: int -> int)
    requires Invariant(t)
    requires id in t.orders && t.orders[id].driver == Some(driver) && t.orders[id].status == OnTheWay
    ensures var s := CompleteStep(t, id, driver);
      var o := t.orders[id];
      var gain := o.restaurant == restaurant && dayOf(o.createdAt) == day;
      && Revenue(s.tables, RestaurantDelivered(restaurant, day, dayOf))
           == Revenue(t, RestaurantDelivered(restaurant, day, dayOf)) + Share(gain, o.total)
      && DeliveredCount(s.tables, RestaurantDelivered(restaurant, day, dayOf))
           == DeliveredCount(t, RestaurantDelivered(restaurant, day, dayOf)) + Share(gain, 1)
  {
    var keep := RestaurantDelivered(restaurant, day, dayOf);
    var s := CompleteStep(t, id, driver);
    assert !keep(t.orders[id]);
    assert keep(s.tables.orders[id]) == (t.orders[id].restaurant == restaurant && dayOf(t.orders[id].createdAt) == day);
    RevenueAfterComplete(t, id, driver, keep);
  }

  /** driver_get_revenue: for each of the seven days from `weekStart`, the summed totals
      of the driver's orders that are DELIVERED now and were created that day (the day of
      delivery plays no part). */
  method DriverRevenue(t: Tables, driver: DriverId, weekStart: int, dayOf: int -> int) returns (revenue: map<int, int>)
    ensures forall day :: day in revenue <==> weekStart <= day < weekStart + 7
    ensures forall day :: day in revenue ==> revenue[day] == Revenue(t, DriverDelivered(driver, day, dayOf))
  {
    revenue := map[];
    for i := 0 to 7
      invariant forall day :: day in revenue <==> weekStart <= day < weekStart + i
      invariant forall day :: day in revenue ==> revenue[day] == Revenue(t, DriverDelivered(driver, day, dayOf))
    {
      var day := weekStart + i;
      var delivered := Select(t.orders, DriverDelivered(driver, day, dayOf), t.nextId);
      revenue := revenue[day := SumTotals(t.orders, delivered)];
    }
  }
}
