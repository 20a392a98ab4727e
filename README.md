# FoodTasker order lifecycle in Dafny

FoodTasker is a food-delivery back end. Customers place orders with restaurants,
restaurants cook them, and drivers pick them up and deliver them. An order passes
through four stages: COOKING, READY, ON_THE_WAY and DELIVERED. This project models
the order table and the order-details table, the four requests that write them, and
the queries that read them:

- `customer_add_order` places an order.
- `restaurant_order` moves an order from COOKING to READY and lists the restaurant's orders.
- `driver_pick_order` lets a driver claim a READY order.
- `driver_complete_order` marks an order as DELIVERED.
- The read side covers the ready list, the new-order notification count, the drivers' and restaurants' revenue per day, and the top three meals.

The model has five modules:

- `Orders` (orders.dfy) defines the rows and the invariant that holds between requests:
  - every id lies below the next id to hand out;
  - a driver, with its pickup stamp, is set exactly when the status is ON_THE_WAY or DELIVERED;
  - an order's total is the sum of its detail sub-totals;
  - every detail row belongs to an order;
  - no customer has two undelivered orders.
- `Lifecycle` (lifecycle.dfy) writes each request as a pure step function. The function returns the new tables and the request's answer. Lemmas state each request's effect, its refusals, preservation of the invariant, and that status only moves forward.
- `Store` (store.dfy) is the class `OrderStore`. Its fields are the two tables, and its methods update them in place as the handlers do: with loops over the requested lines and with field-by-field updates. Each method is proved to end in exactly the state its step function gives, and to keep the invariant.
- `Queries` (queries.dfy) covers the listings, the notification count, the revenue per day and the driver's weekly revenue loop.
- `Report` (report.dfy) covers the restaurant report's weekly loop and the top-three-meals ranking.

Conventions:

- **Money.** All money is integer cents. The handler computes the total in the meal table's price unit and multiplies it by 100 to send cents to the payment gateway. With prices already in cents, the amount charged is the total itself, so the model gives the gateway the order total.
- **Payment gateway.** It is a parameter `charge: (int, string) -> bool`. It holds when the gateway's charge of that many cents against that card token comes back with any status other than "failed". The handler tests only `status != "failed"`, so a pending charge also places the order.
- **Clock.** The clock reading is a parameter `now`.
- **Days.** `dayOf: int -> int` maps a clock reading to a day number. The week is the seven days from `weekStart`.
- **Ids.** They come from a counter `nextId` that starts at 1. Ordering by descending id (`order_by("-id")`) is a scan of the ids below `nextId`, highest first.

**The driver guard as written.** At foodtaskerapp/apis.py:174 the guard refuses a driver who has any order whose status is not ON_THE_WAY. The comment above it (foodtaskerapp/apis.py:173) says the check makes sure the driver has only one order, and the error it returns (foodtaskerapp/apis.py:175) says a driver can deliver only one order at a time. The model follows the code. Two lemmas state what the code does instead:

- `PickRefusedAfterDelivery`: a driver who has delivered an order is refused every later claim. The driver column is never cleared.
- `PickAllowsSecondDelivery`: a driver who is on the way with one order can claim a second.

**Empty order list.** When `order_details` is empty, `customer_add_order` falls off its `if` at foodtaskerapp/apis.py:80 and returns no response. The model calls this outcome `NoOrderDetails`. There is no charge and no change.

**Unknown meal.** A requested meal missing from the meal table raises an exception while the total is computed, before any charge or write. The model calls this outcome `MealNotFound`.

**Top meals.** `Sum('orderdetails__quantity')` is NULL for a meal with no detail rows, and the chart shows NULL as 0. With NULL ranked last, as explained under "## Left out", the chart's numbers never increase from left to right as long as no quantity is negative; `ChartNonIncreasing` proves this.

## Model

| member | source | states |
|---|---|---|
| Orders.DetailRows | foodtaskerapp/apis.py:99-106 | one detail row per requested line, in request order, carrying the new order's id, the line's meal and quantity, and price times quantity as sub-total |
| Orders.DetailRowsSum | foodtaskerapp/apis.py:76-106 | the sub-totals of the rows created for an order add up to the total computed from the same lines, and add nothing to any other order |
| Lifecycle.DeliveredIsFinal | foodtaskerapp/apis.py:215-217 | under the invariant, a forward step leaves the row of a DELIVERED order unchanged |
| Lifecycle.AddOrderRefusals | foodtaskerapp/apis.py:65-110 | the order is placed iff the customer has no undelivered order, the address is non-empty, every meal exists, the list is non-empty and the charge does not come back "failed"; an active order answers "last order must be completed"; with an empty list the gateway plays no part (any gateway gives the same tables and answer); every refusal leaves both tables unchanged |
| Lifecycle.AddOrderPlaced | foodtaskerapp/apis.py:89-97 | a placement adds exactly one fresh order id and leaves all other rows as they were; the new row is COOKING with no driver or pickup stamp and has the request's customer, restaurant and address and the clock reading; its total is the sum of price times quantity over the lines, and the gateway accepted a charge of exactly that amount |
| Lifecycle.AddOrderDetails | foodtaskerapp/apis.py:99-106 | a placement keeps the existing detail rows as a prefix and appends one row per line, with the new id, the line's meal and quantity and price times quantity; the new rows' sub-totals add up to the new order's total |
| Lifecycle.AddOrderKeepsInvariant | foodtaskerapp/apis.py:65-106 | placing an order, or refusing to, keeps the table invariant: driver iff ON_THE_WAY/DELIVERED, total equals the sum of sub-totals, at most one active order per customer |
| Lifecycle.AddOrderForward | foodtaskerapp/apis.py:91-106 | placing is a forward step: no order row disappears; each keeps its customer, restaurant, address, total and creation stamp; its status stays or moves one stage forward; a driver or pickup stamp once set is never replaced; detail rows are only appended; the next id never decreases |
| Lifecycle.AddOrderOnlyActive | foodtaskerapp/apis.py:65-67 | after a placement the new order is the customer's only undelivered order |
| Lifecycle.MarkReadyEffect | foodtaskerapp/views.py:76-80 | the order is found iff it belongs to the restaurant; the tables change iff it is found and COOKING, and then only its status becomes READY; every other row, every other column and the detail table stay the same |
| Lifecycle.MarkReadyIdempotent | foodtaskerapp/views.py:78-80 | repeating the request changes nothing and gives the same answer |
| Lifecycle.MarkReadyKeepsInvariant | foodtaskerapp/views.py:77-80 | advancing to READY keeps the table invariant |
| Lifecycle.MarkReadyForward | foodtaskerapp/views.py:78-79 | advancing is a forward step: no order row disappears; each keeps its customer, restaurant, address, total and creation stamp; its status stays or moves one stage forward; a driver or pickup stamp once set is never replaced; detail rows are only appended; the next id never decreases |
| Lifecycle.PickEffect | foodtaskerapp/apis.py:173-189 | the claim succeeds iff the driver passes the guard and the order is READY with no driver, and then sets driver, ON_THE_WAY and the pickup stamp on that order alone; the driver is refused iff the guard holds; every failure leaves the tables unchanged |
| Lifecycle.ClaimRace | foodtaskerapp/apis.py:177-189 | of two claims on one order in sequence the second fails, changes nothing, and the first driver stays assigned |
| Lifecycle.PickRefusedAfterDelivery | foodtaskerapp/apis.py:173-175 | a driver who has a DELIVERED order is refused every claim, with no change |
| Lifecycle.PickAllowsSecondDelivery | foodtaskerapp/apis.py:173-175 | in every valid state, a driver whose orders are all ON_THE_WAY, at least one of them, claims any READY order with no driver and then holds two ON_THE_WAY orders |
| Lifecycle.PickKeepsInvariant | foodtaskerapp/apis.py:183-186 | claiming keeps the table invariant |
| Lifecycle.PickForward | foodtaskerapp/apis.py:178-186 | claiming keeps every row, moves status at most one stage forward, keeps the immutable columns and never replaces a set driver or stamp |
| Lifecycle.CompleteEffect | foodtaskerapp/apis.py:215-217 | completion finds the order iff its driver is the caller, then sets only its status to DELIVERED; nothing else changes, and nothing at all when it is not found |
| Lifecycle.CompleteNeverSkips | foodtaskerapp/apis.py:215-216 | under the invariant, a completed order was ON_THE_WAY or already DELIVERED |
| Lifecycle.CompleteIdempotent | foodtaskerapp/apis.py:215-217 | repeating a completion changes nothing and gives the same answer |
| Lifecycle.CompleteKeepsInvariant | foodtaskerapp/apis.py:215-217 | completion keeps the table invariant |
| Lifecycle.CompleteForward | foodtaskerapp/apis.py:215-217 | completion is a forward step: no order row disappears; each keeps its customer, restaurant, address, total and creation stamp; its status stays or moves one stage forward; a driver or pickup stamp once set is never replaced; detail rows are only appended; the next id never decreases |
| Store.OrderStore.AddOrder | foodtaskerapp/apis.py:40-110 | the in-place handler, with its total loop and detail-row loop, ends in exactly the tables and answer of `AddOrderStep` and keeps the invariant |
| Store.OrderStore.MarkReady | foodtaskerapp/views.py:74-80 | the in-place update ends in exactly the tables and answer of `MarkReadyStep` and keeps the invariant |
| Store.OrderStore.PickOrder | foodtaskerapp/apis.py:163-189 | the in-place claim ends in exactly the tables and answer of `PickStep` and keeps the invariant |
| Store.OrderStore.CompleteOrder | foodtaskerapp/apis.py:209-219 | the in-place completion ends in exactly the tables and answer of `CompleteStep` and keeps the invariant |
| Queries.Select | foodtaskerapp/apis.py:154 | a filtered listing is strictly descending by id and holds exactly the ids below the bound that are in the table and pass the filter |
| Queries.ReadyOrders | foodtaskerapp/apis.py:152-158 | the ready list is strictly descending by id and holds an id iff it is below the next id and that order is READY with no driver (under the table invariant every order id is below the next id) |
| Queries.RestaurantOrders | foodtaskerapp/views.py:82 | the restaurant's listing is strictly descending by id and holds an id iff it is below the next id and that order belongs to the restaurant (under the table invariant every order id is below the next id) |
| Queries.ReadyOrdersAfterPick | foodtaskerapp/apis.py:152-186 | after a successful claim the ready list is the old one without the claimed order |
| Queries.NotificationCountAntitone | foodtaskerapp/apis.py:142-146 | a later watermark never yields a larger notification count |
| Queries.NotificationCountInsert | foodtaskerapp/apis.py:143-144 | inserting a row raises the count by one iff the row is the restaurant's and created after the watermark, else leaves it |
| Queries.NotificationAfterAddOrder | foodtaskerapp/apis.py:142-146 | a placement raises the polled restaurant's count by one iff it is that restaurant's order and the clock is past the watermark; refusals and other restaurants' orders leave it |
| Queries.RevenueAfterComplete | foodtaskerapp/views.py:97-106 | a completion moves the order's total and one order into every per-day selection it newly satisfies and out of every one it leaves; a refused completion moves nothing |
| Queries.ReportAfterComplete | foodtaskerapp/views.py:97-106 | completing an ON_THE_WAY order adds its total and one order to its own restaurant's report for the day it was created, and leaves every other day and restaurant unchanged |
| Queries.DriverRevenue | foodtaskerapp/apis.py:230-243 | the revenue map has exactly the seven days of the week as keys, each mapped to the summed totals of the driver's DELIVERED orders created that day |
| Report.RestaurantReport | foodtaskerapp/views.py:97-106 | seven revenue and seven count entries in day order; entry i is the summed totals and the number of the restaurant's DELIVERED orders created on day i of the week |
| Report.QuantityOrderedMissing | foodtaskerapp/views.py:110 | a meal's summed quantity is missing (NULL) iff no detail row names the meal |
| Report.QuantityOrderedNonNegative | foodtaskerapp/views.py:110 | with no negative quantity in the table, every summed quantity, NULL read as 0, is at least 0 |
| Report.MenuRanks | foodtaskerapp/views.py:109-110 | one annotated entry per meal row of the restaurant (as many entries as the restaurant has meal rows), each carrying that meal's name and summed quantity; every entry comes from such a row and every such row's entry is present |
| Report.MenuRanksTableOrder | foodtaskerapp/views.py:109-110 | the entries are in table order: the restaurant's meal row at index i is entry number (count of the restaurant's rows before i) |
| Report.SortDownCorrect | foodtaskerapp/views.py:111 | ordering by descending summed quantity yields a ranked permutation of its input, with NULL last |
| Report.TopMeals | foodtaskerapp/views.py:109-111 | the top list has min(3, number of the restaurant's meal rows) entries, is ranked, is a sub-multiset of the restaurant's annotated meals, and ranks at least as high as every entry left out |
| Report.MealChart | foodtaskerapp/views.py:109-116 | the chart has min(3, number of the restaurant's meal rows) columns; each column holds the name of one of the restaurant's meals and that meal's summed quantity, NULL shown as 0; the columns show, in rank order, a sub-multiset of the restaurant's annotated meals that ranks at least as high as every annotated meal left out, counting duplicate rows, so no meal row fills two columns and a skipped duplicate is never passed over for a lower one; every restaurant meal with a sum whose (name, sum) pair appears in no column was ordered no more than any charted meal |
| Report.ChartTop | foodtaskerapp/views.py:109-116 | the chart's columns are exactly the entries TopMeals picks, in order: a ranked sub-multiset of the restaurant's annotated meals that ranks at least as high as each entry left out |
| Report.ChartNonIncreasing | foodtaskerapp/views.py:109-116 | when no quantity is negative, the chart's numbers never increase from left to right |

## Left out

- Authentication: the access-token lookups, and mapping a user to a customer, driver or restaurant. The acting customer, driver or restaurant is an id parameter.
- The Stripe SDK call itself. Only its accept or decline verdict is modelled, as the `charge` parameter. An exception raised by the SDK is not modelled.
- JSON parsing of `order_details`, `JsonResponse`, the serializers, `csrf_exempt`, template rendering and the empty responses to non-POST requests. These are I/O and presentation.
- The `restaurant_id` of a new order is taken as given. Whether it names an existing restaurant is the database's foreign-key check, which is not modelled.
- A missing order in `restaurant_order` or `driver_complete_order` raises `DoesNotExist` in the source. The model returns `false` and changes nothing, which is how the request ends for the tables.
- Calendar arithmetic: weekday computation, `timedelta`, the `strftime("%a")` labels, and extracting the day from a timestamp. Days are abstract integers given by `dayOf`, and the driver's revenue map is keyed by day number instead of weekday name.
- The top-three-drivers aggregation in `restaurant_report` and `get_full_name`. These aggregate over the driver and user tables, which are not part of this model.
- Report.TopMeals: fixes no order among meals with equal summed quantities, because the database gives none; the model's own sort keeps table order among them (`SortDownKeepsTies` shows one case).
- Report.SortDownCorrect: ranks a NULL sum below every number, as SQLite orders a descending sort. PostgreSQL puts NULL first in a descending sort, and under it the chart would start with the 0 of a meal nobody ordered. The database engine is not part of this model.
- The meal table appears twice: as the price map `prices` from meal id to price in cents that `customer_add_order` reads, and as the list of `Meal` rows that the report reads. The model does not tie the two together, because no modelled operation reads both.
- The model takes the meal table's prices as a map from meal id to price in cents. It does not model price edits between the total loop and the detail-row loop, because the model is sequential.
- Forms, sign-up, login, account editing and meal CRUD in views.py. These are user-interface glue.
- `customer_get_restaurants`, `customer_get_meals`, `customer_get_latest_order`, `driver_get_latest_order`, and reading and updating the driver's location. These are single-table reads or a last-write-wins field outside the order lifecycle.
- Concurrency: the model is sequential. `ClaimRace` covers two claims one after the other, not two interleaved transactions.
