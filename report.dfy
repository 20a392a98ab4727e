/** restaurant_report: the week's delivered revenue and order count per day, and the
    restaurant's three most ordered meals. */
module Report {
  import opened Orders
  import opened Queries

  /** For each of the seven days from `weekStart`, the summed totals and the number of
      the restaurant's orders that are DELIVERED and were created that day, in day order. */
  method RestaurantReport(t: Tables, restaurant: RestaurantId, weekStart: int, dayOf: int -> int)
    returns (revenue: seq<int>, orders: seq<nat>)
    ensures |revenue| == 7 && |orders| == 7
    ensures forall i :: 0 <= i < 7 ==> revenue[i] == Revenue(t, RestaurantDelivered(restaurant, weekStart + i, dayOf))
    ensures forall i :: 0 <= i < 7 ==> orders[i] == DeliveredCount(t, RestaurantDelivered(restaurant, weekStart + i, dayOf))
  {
    revenue, orders := [], [];
    for i := 0 to 7
      invariant |revenue| == i && |orders| == i
      invariant forall k :: 0 <= k < i ==> revenue[k] == Revenue(t, RestaurantDelivered(restaurant, weekStart + k, dayOf))
      invariant forall k :: 0 <= k < i ==> orders[k] == DeliveredCount(t, RestaurantDelivered(restaurant, weekStart + k, dayOf))
    {
      var delivered := Select(t.orders, RestaurantDelivered(restaurant, weekStart + i, dayOf), t.nextId);
      revenue := revenue + [SumTotals(t.orders, delivered)];
      orders := orders + [|delivered|];
    }
  }

  // ---------------------------------------------------------------------------
  // Top three meals
  // ---------------------------------------------------------------------------

  /** One row of the meal table, as far as the report reads it. */
  datatype Meal = Meal(id: MealId, restaurant: RestaurantId, name: string)

  /** A meal with the summed quantity of all its detail rows; None when it has none
      (the SQL sum of no rows). */
  datatype MealRank = MealRank(name: string, totalOrdered: Option<int>)

  /** Sum of the quantities ordered of `meal` over all detail rows, None when there is no such row. */
  function QuantityOrdered(details: seq<OrderDetail>, meal: MealId): Option<int> {
    if details == [] then None
    else
      var before := QuantityOrdered(details[..|details| - 1], meal);
      var last := details[|details| - 1];
      if last.meal == meal then Some(before.GetOr(0) + last.quantity) else before
  }

  /** The sum is missing exactly when no detail row names the meal. */
  lemma {:induction false} QuantityOrderedMissing(details: seq<OrderDetail>, meal: MealId)
    ensures QuantityOrdered(details, meal) == None <==> forall i :: 0 <= i < |details| ==> details[i].meal != meal
  {
    if details != [] {
      var prefix := details[..|details| - 1];
      QuantityOrderedMissing(prefix, meal);
      assert forall i :: 0 <= i < |prefix| ==> prefix[i] == details[i];
    }
  }

  /** With no negative quantity in the table, every sum is at least 0. */
  lemma {:induction false} QuantityOrderedNonNegative(details: seq<OrderDetail>, meal: MealId)
    requires forall i :: 0 <= i < |details| ==> details[i].quantity >= 0
    ensures QuantityOrdered(details, meal).GetOr(0) >= 0
  {
    if details != [] {
      QuantityOrderedNonNegative(details[..|details| - 1], meal);
    }
  }

  function RankOf(m: Meal, details: seq<OrderDetail>): MealRank {
    MealRank(m.name, QuantityOrdered(details, m.id))
  }

  /** How many rows of the meal table belong to the restaurant. */
  function MenuCount(meals: seq<Meal>, restaurant: RestaurantId): nat {
    if meals == [] then 0
    else (if meals[0].restaurant == restaurant then 1 else 0) + MenuCount(meals[1..], restaurant)
  }

  /** Dropping the first meal row from a prefix of the table. */
  lemma MenuCountPrefix(meals: seq<Meal>, restaurant: RestaurantId, i: nat)
    requires 0 < i <= |meals|
    ensures MenuCount(meals[..i], restaurant)
      == (if meals[0].restaurant == restaurant then 1 else 0) + MenuCount(meals[1..][..i - 1], restaurant)
  {
    assert meals[..i][1..] == meals[1..][..i - 1];
  }

  /** The restaurant's meals, each with its ordered quantity: one entry per meal row of
      the restaurant, so equal names and sums are not merged. */
  function MenuRanks(meals: seq<Meal>, details: seq<OrderDetail>, restaurant: RestaurantId): (r: seq<MealRank>)
    ensures |r| == MenuCount(meals, restaurant)
    ensures forall x :: x in r ==> exists m :: m in meals && m.restaurant == restaurant && x == RankOf(m, details)
    ensures forall m :: m in meals && m.restaurant == restaurant ==> RankOf(m, details) in r
  {
    if meals == [] then []
    else
      var head := if meals[0].restaurant == restaurant then [RankOf(meals[0], details)] else [];
      var rest := MenuRanks(meals[1..], details, restaurant);
      assert forall m :: m in meals ==> m == meals[0] || m in meals[1..];
      head + rest
  }

  /** MenuRanks keeps table order: the restaurant's meal row at index i is entry number
      MenuCount(meals[..i]), the count of the restaurant's rows before it. */
  lemma {:induction false} MenuRanksTableOrder(meals: seq<Meal>, details: seq<OrderDetail>, restaurant: RestaurantId)
    ensures var r := MenuRanks(meals, details, restaurant);
      forall i :: 0 <= i < |meals| && meals[i].restaurant == restaurant ==>
        MenuCount(meals[..i], restaurant) < |r| && r[MenuCount(meals[..i], restaurant)] == RankOf(meals[i], details)
  {
    if meals != [] {
      MenuRanksTableOrder(meals[1..], details, restaurant);
      var r := MenuRanks(meals, details, restaurant);
      forall i | 0 <= i < |meals| && meals[i].restaurant == restaurant
        ensures MenuCount(meals[..i], restaurant) < |r| && r[MenuCount(meals[..i], restaurant)] == RankOf(meals[i], details)
      {
        if i > 0 {
          MenuCountPrefix(meals, restaurant, i);
          assert meals[1..][i - 1] == meals[i];
        }
      }
    }
  }

  /** `a` ranks at least as high as `b`: a missing sum ranks below every present one. */
  predicate AtLeast(a: MealRank, b: MealRank) {
    b.totalOrdered.None? || (a.totalOrdered.Some? && a.totalOrdered.value >= b.totalOrdered.value)
  }

  predicate RankedDown(s: seq<MealRank>) {
    forall i, j :: 0 <= i < j < |s| ==> AtLeast(s[i], s[j])
  }

  /** Insert `x` in front of the first entry it ranks at least as high as, so that
      among equal sums the entry inserted later comes first. */
  function Insert(x: MealRank, s: seq<MealRank>): seq<MealRank> {
    if s == [] || AtLeast(x, s[0]) then [x] + s
    else [s[0]] + Insert(x, s[1..])
  }

  /** The ranking order_by("-total_order") produces; entries with equal sums keep their
      order in `s`. */
  function SortDown(s: seq<MealRank>): seq<MealRank> {
    if s == [] then [] else Insert(s[0], SortDown(s[1..]))
  }

  /** Two meals with the same sum stay in table order. */
  lemma SortDownKeepsTies()
    ensures SortDown([MealRank("first", Some(2)), MealRank("second", Some(2))])
      == [MealRank("first", Some(2)), MealRank("second", Some(2))]
  {
  }

  lemma {:induction false} InsertMultiset(x: MealRank, s: seq<MealRank>)
    ensures multiset(Insert(x, s)) == multiset(s) + multiset{x}
  {
    if s != [] && !AtLeast(x, s[0]) {
      InsertMultiset(x, s[1..]);
      assert s == [s[0]] + s[1..];
    }
  }

  /** Putting `a` in front of a ranked list keeps it ranked when `a` outranks all of it. */
  lemma RankedDownCons(a: MealRank, s: seq<MealRank>)
    requires RankedDown(s)
    requires forall j :: 0 <= j < |s| ==> AtLeast(a, s[j])
    ensures RankedDown([a] + s)
  {
    var r := [a] + s;
    forall i, j | 0 <= i < j < |r|
      ensures AtLeast(r[i], r[j])
    {
      assert r[j] == s[j - 1];
      if i > 0 {
        assert r[i] == s[i - 1];
      }
    }
  }

  lemma {:induction false} InsertRanked(x: MealRank, s: seq<MealRank>)
    requires RankedDown(s)
    ensures RankedDown(Insert(x, s))
  {
    if s == [] || AtLeast(x, s[0]) {
      RankedDownCons(x, s);
    } else {
      var tail := s[1..];
      InsertRanked(x, tail);
      var rest := Insert(x, tail);
      InsertMultiset(x, tail);
      forall j | 0 <= j < |rest|
        ensures AtLeast(s[0], rest[j])
      {
        assert rest[j] in multiset(rest);
        if rest[j] != x {
          assert rest[j] in tail;
        }
      }
      RankedDownCons(s[0], rest);
    }
  }

  lemma {:induction false} SortDownCorrect(s: seq<MealRank>)
    ensures RankedDown(SortDown(s))
    ensures multiset(SortDown(s)) == multiset(s)
  {
    if s != [] {
      SortDownCorrect(s[1..]);
      InsertRanked(s[0], SortDown(s[1..]));
      InsertMultiset(s[0], SortDown(s[1..]));
      assert s == [s[0]] + s[1..];
    }
  }

  /** A prefix of a ranked list is ranked, and holds part of the list. */
  lemma PrefixRanked(sorted: seq<MealRank>, k: nat)
    requires RankedDown(sorted) && k <= |sorted|
    ensures RankedDown(sorted[..k])
    ensures multiset(sorted[..k]) <= multiset(sorted)
  {
    assert sorted == sorted[..k] + sorted[k..];
  }

  /** In a ranked list every entry of a prefix ranks at least every entry left after it. */
  lemma PrefixOutranks(sorted: seq<MealRank>, k: nat)
    requires RankedDown(sorted) && k <= |sorted|
    ensures forall x :: x in multiset(sorted) - multiset(sorted[..k]) ==>
      forall i :: 0 <= i < k ==> AtLeast(sorted[..k][i], x)
  {
    assert sorted == sorted[..k] + sorted[k..];
    assert multiset(sorted) - multiset(sorted[..k]) == multiset(sorted[k..]);
    forall x | x in multiset(sorted) - multiset(sorted[..k])
      ensures forall i :: 0 <= i < k ==> AtLeast(sorted[..k][i], x)
    {
      assert x in sorted[k..];
      var j :| 0 <= j < |sorted[k..]| && sorted[k..][j] == x;
      assert sorted[k + j] == x;
    }
  }

  /** The first three of the restaurant's meals ranked by ordered quantity. */
  function TopMeals(meals: seq<Meal>, details: seq<OrderDetail>, restaurant: RestaurantId): (top: seq<MealRank>)
    ensures var all := MenuRanks(meals, details, restaurant);
      && |top| == (if |all| < 3 then |all| else 3)
      && RankedDown(top)
      && multiset(top) <= multiset(all)
      && (forall x :: x in multiset(all) - multiset(top) ==> forall i :: 0 <= i < |top| ==> AtLeast(top[i], x))
  {
    var all := MenuRanks(meals, details, restaurant);
    var sorted := SortDown(all);
    SortDownCorrect(all);
    var k := if |sorted| < 3 then |sorted| else 3;
    PrefixRanked(sorted, k);
    PrefixOutranks(sorted, k);
    sorted[..k]
  }

  /** The chart the report draws: meal names and their quantities, a missing sum shown as 0. */
  datatype Chart = Chart(labels: seq<string>, data: seq<int>)

  /** The chart shows `r`: some column carries its name and its sum read as 0 when NULL. */
  predicate Charted(c: Chart, r: MealRank) {
    exists j :: 0 <= j < |c.labels| && j < |c.data| && c.labels[j] == r.name && c.data[j] == r.totalOrdered.GetOr(0)
  }

  /** The chart drawn from a ranked list: one column per entry, NULL shown as 0. */
  function ChartOf(top: seq<MealRank>): (c: Chart)
    ensures |c.labels| == |top| == |c.data|
    ensures forall i :: 0 <= i < |top| ==> c.labels[i] == top[i].name && c.data[i] == top[i].totalOrdered.GetOr(0)
  {
    Chart(seq(|top|, i requires 0 <= i < |top| => top[i].name),
          seq(|top|, i requires 0 <= i < |top| => top[i].totalOrdered.GetOr(0)))
  }

  /** The chart has min(3, number of the restaurant's meals) columns; each column is the
      name and summed quantity of one of the restaurant's meals; every meal with a sum
      whose (name, sum) pair the chart does not show was ordered no more than any charted
      meal; and the columns show, in rank order, entries drawn without repetition from
      the restaurant's ranked meals that outrank every entry left out, duplicates
      included. */
  function MealChart(meals: seq<Meal>, details: seq<OrderDetail>, restaurant: RestaurantId): (c: Chart)
    ensures |c.labels| == |c.data| == (if MenuCount(meals, restaurant) < 3 then MenuCount(meals, restaurant) else 3)
    ensures forall i :: 0 <= i < |c.data| ==>
      exists m :: m in meals && m.restaurant == restaurant && c.labels[i] == m.name && c.data[i] == QuantityOrdered(details, m.id).GetOr(0)
    ensures forall i, m ::
      (0 <= i < |c.data| && m in meals && m.restaurant == restaurant && !Charted(c, RankOf(m, details)) && QuantityOrdered(details, m.id).Some?)
      ==> c.data[i] >= QuantityOrdered(details, m.id).value
    ensures exists top: seq<MealRank> :: ShowsTop(c, MenuRanks(meals, details, restaurant), top)
  {
    ChartColumnsAreMeals(meals, details, restaurant);
    ChartLeftoverBelow(meals, details, restaurant);
    ChartTop(meals, details, restaurant);
    ChartOf(TopMeals(meals, details, restaurant))
  }

  /** The chart's columns are, in order, the entries of `top`: a ranked sub-multiset of
      `all` that ranks at least as high as every entry of `all` it leaves out. */
  predicate ShowsTop(c: Chart, all: seq<MealRank>, top: seq<MealRank>) {
    && |top| == |c.labels| == |c.data|
    && RankedDown(top)
    && multiset(top) <= multiset(all)
    && (forall x :: x in multiset(all) - multiset(top) ==> forall i :: 0 <= i < |top| ==> AtLeast(top[i], x))
    && (forall i :: 0 <= i < |top| ==> c.labels[i] == top[i].name && c.data[i] == top[i].totalOrdered.GetOr(0))
  }

  /** The chart shows exactly the top entries that TopMeals picks. */
  lemma ChartTop(meals: seq<Meal>, details: seq<OrderDetail>, restaurant: RestaurantId)
    ensures ShowsTop(ChartOf(TopMeals(meals, details, restaurant)), MenuRanks(meals, details, restaurant), TopMeals(meals, details, restaurant))
  {
  }

  /** Every charted column is one of the restaurant's meals. */
  lemma ChartColumnsAreMeals(meals: seq<Meal>, details: seq<OrderDetail>, restaurant: RestaurantId)
    ensures var c := ChartOf(TopMeals(meals, details, restaurant));
      forall i :: 0 <= i < |c.data| ==>
        exists m :: m in meals && m.restaurant == restaurant && c.labels[i] == m.name && c.data[i] == QuantityOrdered(details, m.id).GetOr(0)
  {
    var top := TopMeals(meals, details, restaurant);
    var c := ChartOf(top);
    var all := MenuRanks(meals, details, restaurant);
    forall i | 0 <= i < |c.data|
      ensures exists m :: m in meals && m.restaurant == restaurant && c.labels[i] == m.name && c.data[i] == QuantityOrdered(details, m.id).GetOr(0)
    {
      var x := top[i];
      assert x in multiset(top);
      assert x in multiset(all);
      assert x in all;
      var m :| m in meals && m.restaurant == restaurant && x == RankOf(m, details);
    }
  }

  /** A meal of the restaurant that the chart does not show, and that has a sum, was
      ordered no more than any charted meal. */
  lemma ChartLeftoverBelow(meals: seq<Meal>, details: seq<OrderDetail>, restaurant: RestaurantId)
    ensures var c := ChartOf(TopMeals(meals, details, restaurant));
      forall i, m ::
        (0 <= i < |c.data| && m in meals && m.restaurant == restaurant && !Charted(c, RankOf(m, details)) && QuantityOrdered(details, m.id).Some?)
        ==> c.data[i] >= QuantityOrdered(details, m.id).value
  {
    var top := TopMeals(meals, details, restaurant);
    var c := ChartOf(top);
    var all := MenuRanks(meals, details, restaurant);
    forall j | 0 <= j < |top|
      ensures Charted(c, top[j])
    {
      assert c.labels[j] == top[j].name && c.data[j] == top[j].totalOrdered.GetOr(0);
    }
    forall i, m | 0 <= i < |c.data| && m in meals && m.restaurant == restaurant && !Charted(c, RankOf(m, details))
      ensures AtLeast(top[i], RankOf(m, details))
    {
      var x := RankOf(m, details);
      assert x !in top;
      assert x in all;
      assert x in multiset(all) - multiset(top);
    }
  }

  /** When no detail row has a negative quantity, the chart's numbers never increase
      from left to right. */
  lemma ChartNonIncreasing(meals: seq<Meal>, details: seq<OrderDetail>, restaurant: RestaurantId)
    requires forall i :: 0 <= i < |details| ==> details[i].quantity >= 0
    ensures var c := MealChart(meals, details, restaurant);
      forall i, j :: 0 <= i < j < |c.data| ==> c.data[i] >= c.data[j]
  {
    var c := MealChart(meals, details, restaurant);
    var top := TopMeals(meals, details, restaurant);
    var all := MenuRanks(meals, details, restaurant);
    forall i | 0 <= i < |top|
      ensures c.data[i] >= 0
    {
      var x := top[i];
      assert x in multiset(top);
      assert x in multiset(all);
      assert x in all;
      var m :| m in meals && m.restaurant == restaurant && x == RankOf(m, details);
      QuantityOrderedNonNegative(details, m.id);
    }
  }
}
