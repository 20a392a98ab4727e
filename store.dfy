/** The order and order-details tables as one object that the request handlers update
    in place. Each method does what its handler does, row by row, and is proved to end
    in the state the matching step function of Lifecycle describes. */
module Store {
  import opened Orders
  import opened Lifecycle

  class OrderStore {
    var orders: map<OrderId, Order>
    var details: seq<OrderDetail>
    var nextId: OrderId

    /** The current contents of both tables. */
    function State(): Tables
      reads this
    {
      Tables(orders, details, nextId)
    }

    ghost predicate Valid()
      reads this
    {
      Invariant(State())
    }

    /** Empty tables; the first order receives id 1. */
    constructor ()
      ensures Valid()
      ensures State() == Tables(map[], [], 1)
    {
      orders := map[];
      details := [];
      nextId := 1;
    }

    /** customer_add_order: check for an active order and an address, total the lines,
        charge, then insert the order and one detail row per line. */
    method AddOrder(customer: CustomerId, restaurant: RestaurantId, address: string,
                    lines: seq<LineRequest>, prices: map<MealId, int>, token: string,
                    charge: (int, string) -> bool, now: int) returns (outcome: AddOutcome)
      requires Valid()
      modifies this
      ensures Valid()
      ensures Step(State(), outcome) == AddOrderStep(old(State()), customer, restaurant, address, lines, prices, token, charge, now)
    {
      AddOrderKeepsInvariant(State(), customer, restaurant, address, lines, prices, token, charge, now);
      if HasActiveOrder(orders, customer) {
        return ActiveOrderExists;
      }
      if address == "" {
        return AddressRequired;
      }
      var total := 0;
      for i := 0 to |lines|
        invariant AllPriced(lines[..i], prices)
        invariant total == LinesTotal(lines[..i], prices)
      {
        if lines[i].meal !in prices {
          return MealNotFound;
        }
        assert lines[..i + 1][..i] == lines[..i];
        total := total + prices[lines[i].meal] * lines[i].quantity;
      }
      assert lines[..|lines|] == lines;
      if |lines| == 0 {
        return NoOrderDetails;
      }
      if !charge(total, token) {
        return ChargeFailed;
      }
      var id := nextId;
      orders := orders[id := Order(customer, restaurant, None, Cooking, address, total, now, None)];
      nextId := nextId + 1;
      ghost var placed, before := orders, details;
      for j := 0 to |lines|
        invariant orders == placed && nextId == id + 1
        invariant details == before + DetailRows(id, lines[..j], prices)
      {
        assert lines[..j + 1][..j] == lines[..j];
        details := details + [OrderDetail(id, lines[j].meal, lines[j].quantity, prices[lines[j].meal] * lines[j].quantity)];
      }
      outcome := Placed(id);
    }

    /** restaurant_order (POST): advance the restaurant's order from COOKING to READY;
        `found` is false when the restaurant has no order with that id. */
    method MarkReady(id: OrderId, restaurant: RestaurantId) returns (found: bool)
      requires Valid()
      modifies this
      ensures Valid()
      ensures Step(State(), found) == MarkReadyStep(old(State()), id, restaurant)
    {
      MarkReadyKeepsInvariant(State(), id, restaurant);
      if id !in orders || orders[id].restaurant != restaurant {
        return false;
      }
      var order := orders[id];
      if order.status == Cooking {
        orders := orders[id := order.(status := Ready)];
      }
      found := true;
    }

    /** driver_pick_order: refuse a busy driver, then claim the order when it is READY
        and has no driver. */
    method PickOrder(id: OrderId, driver: DriverId, now: int) returns (outcome: PickOutcome)
      requires Valid()
      modifies this
      ensures Valid()
      ensures Step(State(), outcome) == PickStep(old(State()), id, driver, now)
    {
      PickKeepsInvariant(State(), id, driver, now);
      if DriverBlocked(orders, driver) {
        return DriverBusy;
      }
      if id !in orders || orders[id].driver != None || orders[id].status != Ready {
        return NotAvailable;
      }
      var order := orders[id];
      orders := orders[id := order.(driver := Some(driver), status := OnTheWay, pickedUpAt := Some(now))];
      outcome := Picked;
    }

    /** driver_complete_order: the driver's order with that id becomes DELIVERED;
        `found` is false when the driver has no order with that id. */
    method CompleteOrder(id: OrderId, driver: DriverId) returns (found: bool)
      requires Valid()
      modifies this
      ensures Valid()
      ensures Step(State(), found) == CompleteStep(old(State()), id, driver)
    {
      CompleteKeepsInvariant(State(), id, driver);
      if id !in orders || orders[id].driver != Some(driver) {
        return false;
      }
      var order := orders[id];
      orders := orders[id := order.(status := Delivered)];
      found := true;
    }
  }
}
