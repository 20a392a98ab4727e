/** The four write requests of the order lifecycle, each as a function from the tables
    before the request to the tables after it and the request's outcome, and what
    is proved about them: the invariant is kept, status only moves forward, and the
    guards of each request. */
module Lifecycle {
  import opened Orders

  /** The tables after a request, and what the request answered. */
  datatype Step<O> = Step(tables: Tables, outcome: O)

  // ---------------------------------------------------------------------------
  // customer_add_order
  // ---------------------------------------------------------------------------

  datatype AddOutcome =
    | Placed(id: OrderId)
    | ActiveOrderExists   // "Your last order must be completed."
    | AddressRequired     // "Address is required."
    | MealNotFound        // a requested meal id has no row in the meal table
    | NoOrderDetails      // empty order_details: the handler returns no response
    | ChargeFailed        // "Failed to connect to Stripe."

  /** The customer has an order in any stage other than DELIVERED. */
  predicate HasActiveOrder(orders: map<OrderId, Order>, customer: CustomerId) {
    exists id :: id in orders && orders[id].customer == customer && Active(orders[id])
  }

  /** Placing an order. `charge(amount, token)` holds when the gateway's charge of
      `amount` cents against the card token comes back with any status other than
      "failed"; `now` is the clock reading. */
  function AddOrderStep(t: Tables, customer: CustomerId, restaurant: RestaurantId, address: string,
                        lines: seq<LineRequest>, prices: map<MealId, int>, token: string,
                        charge: (int, string) -> bool, now: int): Step<AddOutcome>
  {
    if HasActiveOrder(t.orders, customer) then Step(t, ActiveOrderExists)
    else if address == "" then Step(t, AddressRequired)
    else if !AllPriced(lines, prices) then Step(t, MealNotFound)
    else if lines == [] then Step(t, NoOrderDetails)
    else if !charge(LinesTotal(lines, prices), token) then Step(t, ChargeFailed)
    else
      var id := t.nextId;
      var order := Order(customer, restaurant, None, Cooking, address, LinesTotal(lines, prices), now, None);
      Step(Tables(t.orders[id := order], t.details + DetailRows(id, lines, prices), id + 1), Placed(id))
  }

  // ---------------------------------------------------------------------------
  // restaurant_order (POST): COOKING -> READY
  // ---------------------------------------------------------------------------

  /** The outcome says whether the restaurant owns an order with that id. */
  function MarkReadyStep(t: Tables, id: OrderId, restaurant: RestaurantId): Step<bool> {
    if id !in t.orders || t.orders[id].restaurant != restaurant then Step(t, false)
    else if t.orders[id].status == Cooking then
      Step(t.(orders := t.orders[id := t.orders[id].(status := Ready)]), true)
    else Step(t, true)
  }

  // ---------------------------------------------------------------------------
  // driver_pick_order
  // ---------------------------------------------------------------------------

  datatype PickOutcome =
    | Picked
    | DriverBusy      // "You can only deliver one order at a time."
    | NotAvailable    // "This order has been picked up by another driver."

  /** The guard of driver_pick_order as written: the driver has some order whose
      status is anything but ON_THE_WAY. */
  predicate DriverBlocked(orders: map<OrderId, Order>, driver: DriverId) {
    exists id :: id in orders && orders[id].driver == Some(driver) && orders[id].status != OnTheWay
  }

  /** A driver claims an order: a conditional update matching only a READY order with no driver. */
  function PickStep(t: Tables, id: OrderId, driver: DriverId, now: int): Step<PickOutcome> {
    if DriverBlocked(t.orders, driver) then Step(t, DriverBusy)
    else if id in t.orders && t.orders[id].driver == None && t.orders[id].status == Ready then
      Step(t.(orders := t.orders[id := t.orders[id].(driver := Some(driver), status := OnTheWay, pickedUpAt := Some(now))]), Picked)
    else Step(t, NotAvailable)
  }

  // ---------------------------------------------------------------------------
  // driver_complete_order
  // ---------------------------------------------------------------------------

  /** The outcome says whether an order with that id is assigned to the driver. */
  function CompleteStep(t: Tables, id: OrderId, driver: DriverId): Step<bool> {
    if id in t.orders && t.orders[id].driver == Some(driver) then
      Step(t.(orders := t.orders[id := t.orders[id].(status := Delivered)]), true)
    else Step(t, false)
  }

  // ---------------------------------------------------------------------------
  // Moving forward
  // ---------------------------------------------------------------------------

  /** How one order row may change: its immutable columns stay, its status stays or
      moves to the next stage, and a driver or pickup stamp once set stays. */
  predicate Evolves(before: Order, after: Order) {
    && after.customer == before.customer
    && after.restaurant == before.restaurant
    && after.address == before.address
    && after.total == before.total
    && after.createdAt == before.createdAt
    && (after.status == before.status || Rank(after.status) == Rank(before.status) + 1)
    && (before.driver.Some? ==> after.driver == before.driver)
    && (before.pickedUpAt.Some? ==> after.pickedUpAt == before.pickedUpAt)
  }

  /** No row disappears, every row evolves, detail rows are only appended. */
  predicate Forward(before: Tables, after: Tables) {
    && (forall id :: id in before.orders ==> id in after.orders && Evolves(before.orders[id], after.orders[id]))
    && before.details <= after.details
    && before.nextId <= after.nextId
  }

  /** A delivered order is frozen: whatever forward steps follow leave its row as it is. */
  lemma DeliveredIsFinal(t: Tables, t': Tables, id: OrderId)
    requires Invariant(t) && Forward(t, t')
    requires id in t.orders && t.orders[id].status == Delivered
    ensures id in t'.orders && t'.orders[id] == t.orders[id]
  {
    var o, o' := t.orders[id], t'.orders[id];
    assert Assigned(o);
    assert o'.status == Delivered by {
      assert o'.status == o.status || Rank(o'.status) == 5;
    }
  }

  // ---------------------------------------------------------------------------
  // customer_add_order: properties
  // ---------------------------------------------------------------------------

  /** Every refusal leaves both tables as they were. An active order, an empty
      address, an unknown meal, an empty list and a declined charge each refuse. */
  lemma AddOrderRefusals(t: Tables, customer: CustomerId, restaurant: RestaurantId, address: string,
                         lines: seq<LineRequest>, prices: map<MealId, int>, token: string,
                         charge: (int, string) -> bool, now: int)
    ensures var s := AddOrderStep(t, customer, restaurant, address, lines, prices, token, charge, now);
      && (!s.outcome.Placed? ==> s.tables == t)
      && (HasActiveOrder(t.orders, customer) ==> s.outcome == ActiveOrderExists)
      && (address == "" ==> !s.outcome.Placed?)
      && (!AllPriced(lines, prices) ==> !s.outcome.Placed?)
      && (lines == [] ==> !s.outcome.Placed? && s.outcome != ChargeFailed)
      && (lines == [] ==> forall gateway: (int, string) -> bool ::
            AddOrderStep(t, customer, restaurant, address, lines, prices, token, gateway, now) == s)
      && (s.outcome.Placed? <==>
            && !HasActiveOrder(t.orders, customer) && address != "" && AllPriced(lines, prices) && lines != []
            && charge(LinesTotal(lines, prices), token))
  {
  }

  /** A placed order is one new COOKING row with no driver, carrying the request's
      customer, restaurant and address; its total is the sum of price times quantity
      over the lines, the amount the gateway accepted. No other
      order row changes. */
  lemma AddOrderPlaced(t: Tables, customer: CustomerId, restaurant: RestaurantId, address: string,
                       lines: seq<LineRequest>, prices: map<MealId, int>, token: string,
                       charge: (int, string) -> bool, now: int)
    requires Invariant(t)
    requires AddOrderStep(t, customer, restaurant, address, lines, prices, token, charge, now).outcome.Placed?
    ensures var s := AddOrderStep(t, customer, restaurant, address, lines, prices, token, charge, now);
      var id := s.outcome.id;
      && id !in t.orders
      && s.tables.orders.Keys == t.orders.Keys + {id}
      && (forall k :: k in t.orders ==> s.tables.orders[k] == t.orders[k])
      && var o := s.tables.orders[id];
      && o.status == Cooking && o.driver == None && o.pickedUpAt == None
      && o.customer == customer && o.restaurant == restaurant && o.address == address && o.createdAt == now
      && AllPriced(lines, prices) && o.total == LinesTotal(lines, prices)
      && charge(o.total, token)
  {
  }

  /** Placing appends one detail row per requested line, in request order, each priced
      at price times quantity; their sub-totals add up to the new order's total. */
  lemma AddOrderDetails(t: Tables, customer: CustomerId, restaurant: RestaurantId, address: string,
                        lines: seq<LineRequest>, prices: map<MealId, int>, token: string,
                        charge: (int, string) -> bool, now: int)
    requires Invariant(t)
    requires AddOrderStep(t, customer, restaurant, address, lines, prices, token, charge, now).outcome.Placed?
    ensures var s := AddOrderStep(t, customer, restaurant, address, lines, prices, token, charge, now);
      var id := s.outcome.id;
      && |s.tables.details| == |t.details| + |lines|
      && s.tables.details[..|t.details|] == t.details
      && (forall k :: 0 <= k < |lines| ==>
            var row := s.tables.details[|t.details| + k];
            row.order == id && row.meal == lines[k].meal && row.quantity == lines[k].quantity
            && row.subTotal == prices[lines[k].meal] * lines[k].quantity)
      && SubTotalSum(s.tables.details, id) == s.tables.orders[id].total
  {
    var s := AddOrderStep(t, customer, restaurant, address, lines, prices, token, charge, now);
    var id := t.nextId;
    var rows := DetailRows(id, lines, prices);
    var all := t.details + rows;
    assert s.tables.details == all;
    assert all[..|t.details|] == t.details;
    forall k | 0 <= k < |lines|
      ensures all[|t.details| + k] == rows[k]
    {
    }
    assert SubTotalSum(all, id) == LinesTotal(lines, prices) by {
      SubTotalSumAppend(t.details, rows, id);
      SubTotalSumAbsent(t.details, id);
      DetailRowsSum(id, lines, prices, id);
    }
  }

  lemma AddOrderKeepsInvariant(t: Tables, customer: CustomerId, restaurant: RestaurantId, address: string,
                               lines: seq<LineRequest>, prices: map<MealId, int>, token: string,
                               charge: (int, string) -> bool, now: int)
    requires Invariant(t)
    ensures Invariant(AddOrderStep(t, customer, restaurant, address, lines, prices, token, charge, now).tables)
  {
    var s := AddOrderStep(t, customer, restaurant, address, lines, prices, token, charge, now);
    if s.outcome.Placed? {
      var id := t.nextId;
      var rows := DetailRows(id, lines, prices);
      var t' := s.tables;
      SubTotalSumAbsent(t.details, id);
      forall k | k in t'.orders
        ensures t'.orders[k].total == SubTotalSum(t'.details, k)
      {
        SubTotalSumAppend(t.details, rows, k);
        DetailRowsSum(id, lines, prices, k);
      }
      forall i | 0 <= i < |t'.details|
        ensures t'.details[i].order in t'.orders
      {
        if i >= |t.details| {
          assert t'.details[i] == rows[i - |t.details|];
        }
      }
    }
  }

  lemma AddOrderForward(t: Tables, customer: CustomerId, restaurant: RestaurantId, address: string,
                        lines: seq<LineRequest>, prices: map<MealId, int>, token: string,
                        charge: (int, string) -> bool, now: int)
    requires Invariant(t)
    ensures Forward(t, AddOrderStep(t, customer, restaurant, address, lines, prices, token, charge, now).tables)
  {
  }

  /** Placing keeps the rule that a customer has at most one undelivered order: after a
      successful placement the new order is the customer's only active one. */
  lemma AddOrderOnlyActive(t: Tables, customer: CustomerId, restaurant: RestaurantId, address: string,
                           lines: seq<LineRequest>, prices: map<MealId, int>, token: string,
                           charge: (int, string) -> bool, now: int)
    requires Invariant(t)
    requires AddOrderStep(t, customer, restaurant, address, lines, prices, token, charge, now).outcome.Placed?
    ensures var s := AddOrderStep(t, customer, restaurant, address, lines, prices, token, charge, now);
      forall k :: k in s.tables.orders && s.tables.orders[k].customer == customer && Active(s.tables.orders[k])
        ==> k == s.outcome.id
  {
  }

  // ---------------------------------------------------------------------------
  // restaurant_order: properties
  // ---------------------------------------------------------------------------

  /** The request finds the order only when the restaurant owns it; it changes the
      status of that one order, and only from COOKING to READY; every other order,
      every other column and the detail table are untouched. */
  lemma MarkReadyEffect(t: Tables, id: OrderId, restaurant: RestaurantId)
    ensures var s := MarkReadyStep(t, id, restaurant);
      && (s.outcome <==> id in t.orders && t.orders[id].restaurant == restaurant)
      && s.tables.details == t.details && s.tables.nextId == t.nextId
      && s.tables.orders.Keys == t.orders.Keys
      && (forall k :: k in t.orders && k != id ==> s.tables.orders[k] == t.orders[k])
      && (s.tables != t <==> s.outcome && t.orders[id].status == Cooking)
      && (s.tables != t ==> s.tables.orders[id] == t.orders[id].(status := Ready))
  {
  }

  /** Marking ready twice is marking ready once. */
  lemma MarkReadyIdempotent(t: Tables, id: OrderId, restaurant: RestaurantId)
    ensures var s := MarkReadyStep(t, id, restaurant);
      MarkReadyStep(s.tables, id, restaurant) == Step(s.tables, s.outcome)
  {
  }

  lemma MarkReadyKeepsInvariant(t: Tables, id: OrderId, restaurant: RestaurantId)
    requires Invariant(t)
    ensures Invariant(MarkReadyStep(t, id, restaurant).tables)
  {
  }

  lemma MarkReadyForward(t: Tables, id: OrderId, restaurant: RestaurantId)
    ensures Forward(t, MarkReadyStep(t, id, restaurant).tables)
  {
  }

  // ---------------------------------------------------------------------------
  // driver_pick_order: properties
  // ---------------------------------------------------------------------------

  /** A claim succeeds exactly when the driver passes the guard and the order is READY
      with no driver; it then sets driver, ON_THE_WAY and the pickup stamp on that order
      alone. Any other outcome leaves the tables unchanged. */
  lemma PickEffect(t: Tables, id: OrderId, driver: DriverId, now: int)
    ensures var s := PickStep(t, id, driver, now);
      && (s.outcome == Picked <==>
            !DriverBlocked(t.orders, driver) && id in t.orders && t.orders[id].status == Ready && t.orders[id].driver == None)
      && (s.outcome == DriverBusy <==> DriverBlocked(t.orders, driver))
      && (s.outcome != Picked ==> s.tables == t)
      && (s.outcome == Picked ==>
            && s.tables.details == t.details && s.tables.nextId == t.nextId
            && s.tables.orders.Keys == t.orders.Keys
            && (forall k :: k in t.orders && k != id ==> s.tables.orders[k] == t.orders[k])
            && s.tables.orders[id] == t.orders[id].(driver := Some(driver), status := OnTheWay, pickedUpAt := Some(now)))
  {
  }

  /** Of two drivers claiming the same order one after the other, the second loses and
      the first stays the order's driver. */
  lemma ClaimRace(t: Tables, id: OrderId, first: DriverId, second: DriverId, now1: int, now2: int)
    requires PickStep(t, id, first, now1).outcome == Picked
    ensures var t1 := PickStep(t, id, first, now1).tables;
      var s := PickStep(t1, id, second, now2);
      s.outcome != Picked && s.tables == t1 && s.tables.orders[id].driver == Some(first)
  {
  }

  /** Consequence of the guard as written: a driver with a DELIVERED order, that is any
      driver who has completed a delivery, is refused every later claim. The driver column
      is never cleared, so such a driver can never claim again. */
  lemma PickRefusedAfterDelivery(t: Tables, id: OrderId, driver: DriverId, now: int, done: OrderId)
    requires done in t.orders && t.orders[done].driver == Some(driver) && t.orders[done].status == Delivered
    ensures PickStep(t, id, driver, now) == Step(t, DriverBusy)
  {
  }

  /** Consequence of the guard as written: it does not stop a driver who is already on
      the way with one order, and has no order in any other stage, from claiming a second
      READY order, so after the claim that driver holds two ON_THE_WAY orders. */
  lemma PickAllowsSecondDelivery(t: Tables, a: OrderId, id: OrderId, driver: DriverId, now: int)
    requires Invariant(t)
    requires a in t.orders && t.orders[a].driver == Some(driver) && t.orders[a].status == OnTheWay
    requires forall k :: k in t.orders && t.orders[k].driver == Some(driver) ==> t.orders[k].status == OnTheWay
    requires id in t.orders && t.orders[id].status == Ready && t.orders[id].driver == None
    ensures var s := PickStep(t, id, driver, now);
      && s.outcome == Picked
      && a != id
      && s.tables.orders[a].driver == Some(driver) && s.tables.orders[a].status == OnTheWay
      && s.tables.orders[id].driver == Some(driver) && s.tables.orders[id].status == OnTheWay
  {
  }

  lemma PickKeepsInvariant(t: Tables, id: OrderId, driver: DriverId, now: int)
    requires Invariant(t)
    ensures Invariant(PickStep(t, id, driver, now).tables)
  {
  }

  lemma PickForward(t: Tables, id: OrderId, driver: DriverId, now: int)
    requires Invariant(t)
    ensures Forward(t, PickStep(t, id, driver, now).tables)
  {
  }

  // ---------------------------------------------------------------------------
  // driver_complete_order: properties
  // ---------------------------------------------------------------------------

  /** Completion finds only an order whose driver is the caller, sets that order to
      DELIVERED and touches nothing else; when nothing is found nothing changes. */
  lemma CompleteEffect(t: Tables, id: OrderId, driver: DriverId)
    ensures var s := CompleteStep(t, id, driver);
      && (s.outcome <==> id in t.orders && t.orders[id].driver == Some(driver))
      && (!s.outcome ==> s.tables == t)
      && s.tables.details == t.details && s.tables.nextId == t.nextId
      && s.tables.orders.Keys == t.orders.Keys
      && (forall k :: k in t.orders && k != id ==> s.tables.orders[k] == t.orders[k])
      && (s.outcome ==> s.tables.orders[id] == t.orders[id].(status := Delivered))
  {
  }

  /** Under the invariant, the order a driver completes was ON_THE_WAY or already
      DELIVERED, so completion never skips a stage. */
  lemma CompleteNeverSkips(t: Tables, id: OrderId, driver: DriverId)
    requires Invariant(t)
    requires CompleteStep(t, id, driver).outcome
    ensures t.orders[id].status == OnTheWay || t.orders[id].status == Delivered
  {
    assert Assigned(t.orders[id]);
  }

  /** Completing twice is completing once. */
  lemma CompleteIdempotent(t: Tables, id: OrderId, driver: DriverId)
    ensures var s := CompleteStep(t, id, driver);
      CompleteStep(s.tables, id, driver) == Step(s.tables, s.outcome)
  {
  }

  lemma CompleteKeepsInvariant(t: Tables, id: OrderId, driver: DriverId)
    requires Invariant(t)
    ensures Invariant(CompleteStep(t, id, driver).tables)
  {
  }

  lemma CompleteForward(t: Tables, id: OrderId, driver: DriverId)
    requires Invariant(t)
    ensures Forward(t, CompleteStep(t, id, driver).tables)
  {
    if CompleteStep(t, id, driver).outcome {
      CompleteNeverSkips(t, id, driver);
    }
  }
}
