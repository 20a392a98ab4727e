/** The order table of the food-delivery back end: its rows, the detail rows that
    belong to them, and the invariant every transition of the order lifecycle keeps.
    Money is integer cents throughout. */
module Orders {

  type OrderId = nat
  type CustomerId = nat
  type RestaurantId = nat
  type DriverId = nat
  type MealId = nat

  datatype Option<T> = None | Some(value: T) {
    function GetOr(default: T): T {
      if Some? then value else default
    }
  }

  /** The four stages of an order. */
  datatype Status = Cooking | Ready | OnTheWay | Delivered

  /** Position of a status in the fixed sequence COOKING, READY, ON_THE_WAY, DELIVERED. */
  function Rank(s: Status): nat {
    match s
    case Cooking => 1
    case Ready => 2
    case OnTheWay => 3
    case Delivered => 4
  }

  /** One row of the order table. `createdAt` and `pickedUpAt` are clock readings. */
  datatype Order = Order(
    customer: CustomerId,
    restaurant: RestaurantId,
    driver: Option<DriverId>,
    status: Status,
    address: string,
    total: int,
    createdAt: int,
    pickedUpAt: Option<int>)

  /** One row of the order-details table: a meal, its quantity and the price paid for the line. */
  datatype OrderDetail = OrderDetail(order: OrderId, meal: MealId, quantity: int, subTotal: int)

  /** One entry of the `order_details` list a customer submits. */
  datatype LineRequest = LineRequest(meal: MealId, quantity: int)

  /** The two tables and the id the next inserted order receives. */
  datatype Tables = Tables(orders: map<OrderId, Order>, details: seq<OrderDetail>, nextId: OrderId)

  /** An order that still counts against its customer: anything not yet delivered. */
  predicate Active(o: Order) {
    o.status != Delivered
  }

  /** A driver (and the pickup stamp that comes with it) is present exactly in the two last stages. */
  predicate Assigned(o: Order) {
    && (o.driver.Some? <==> o.status == OnTheWay || o.status == Delivered)
    && (o.pickedUpAt.Some? <==> o.driver.Some?)
  }

  /** Sum of the sub-totals of the detail rows that belong to order `id`. */
  function SubTotalSum(details: seq<OrderDetail>, id: OrderId): int {
    if details == [] then 0
    else
      var last := details[|details| - 1];
      SubTotalSum(details[..|details| - 1], id) + (if last.order == id then last.subTotal else 0)
  }

  /** What holds of the tables between any two requests. */
  predicate Invariant(t: Tables) {
    && (forall id :: id in t.orders ==> id < t.nextId)
    && (forall id :: id in t.orders ==> Assigned(t.orders[id]))
    && (forall id :: id in t.orders ==> t.orders[id].total == SubTotalSum(t.details, id))
    && (forall i :: 0 <= i < |t.details| ==> t.details[i].order in t.orders)
    && (forall a, b ::
          a in t.orders && b in t.orders && a != b && t.orders[a].customer == t.orders[b].customer
          ==> !Active(t.orders[a]) || !Active(t.orders[b]))
  }

  /** Every requested meal has a price in the meal table. */
  predicate AllPriced(lines: seq<LineRequest>, prices: map<MealId, int>) {
    forall k :: 0 <= k < |lines| ==> lines[k].meal in prices
  }

  /** Price times quantity, read at order time. */
  function LineSubTotal(line: LineRequest, prices: map<MealId, int>): int
    requires line.meal in prices
  {
    prices[line.meal] * line.quantity
  }

  /** The order total: the sum of price times quantity over the requested lines. */
  function LinesTotal(lines: seq<LineRequest>, prices: map<MealId, int>): int
    requires AllPriced(lines, prices)
  {
    if lines == [] then 0
    else LinesTotal(lines[..|lines| - 1], prices) + LineSubTotal(lines[|lines| - 1], prices)
  }

  /** The detail rows inserted for order `id`, one per requested line, in request order. */
  function DetailRows(id: OrderId, lines: seq<LineRequest>, prices: map<MealId, int>): (rows: seq<OrderDetail>)
    requires AllPriced(lines, prices)
    ensures |rows| == |lines|
    ensures forall k :: 0 <= k < |rows| ==>
      rows[k] == OrderDetail(id, lines[k].meal, lines[k].quantity, LineSubTotal(lines[k], prices))
  {
    if lines == [] then []
    else
      var last := lines[|lines| - 1];
      DetailRows(id, lines[..|lines| - 1], prices) + [OrderDetail(id, last.meal, last.quantity, LineSubTotal(last, prices))]
  }

  lemma {:induction false} SubTotalSumAppend(a: seq<OrderDetail>, b: seq<OrderDetail>, id: OrderId)
    ensures SubTotalSum(a + b, id) == SubTotalSum(a, id) + SubTotalSum(b, id)
    decreases |b|
  {
    if b == [] {
      assert a + b == a;
    } else {
      assert (a + b)[..|a + b| - 1] == a + b[..|b| - 1];
      SubTotalSumAppend(a, b[..|b| - 1], id);
    }
  }

  /** Rows that all belong to other orders contribute nothing to order `id`. */
  lemma {:induction false} SubTotalSumAbsent(details: seq<OrderDetail>, id: OrderId)
    requires forall i :: 0 <= i < |details| ==> details[i].order != id
    ensures SubTotalSum(details, id) == 0
  {
    if details != [] {
      SubTotalSumAbsent(details[..|details| - 1], id);
    }
  }

  /** The sub-totals of the rows created for an order add up to the order total, and
      those rows add nothing to any other order. */
  lemma {:induction false} DetailRowsSum(id: OrderId, lines: seq<LineRequest>, prices: map<MealId, int>, other: OrderId)
    requires AllPriced(lines, prices)
    ensures SubTotalSum(DetailRows(id, lines, prices), other) == if other == id then LinesTotal(lines, prices) else 0
  {
    if lines != [] {
      var prefix := lines[..|lines| - 1];
      var rows := DetailRows(id, lines, prices);
      assert rows[..|rows| - 1] == DetailRows(id, prefix, prices);
      DetailRowsSum(id, prefix, prices, other);
    }
  }
}
