# Restaurant orders: the order aggregate and its status lifecycle

This project is a Dafny model of the core of a restaurant-order backend (a
Django REST service). Restaurants offer menu items. A customer's order holds
line items, and each line item copies the price of its menu item. Staff move
an order through the statuses pending, in progress, done and cancelled. The
model covers:

- **Records** (`models.dfy`, module `Models`) cover `orders/models.py`. They are
  the `Status` enumeration with its stored strings, the `Restaurant` value, and
  the classes `MenuItem`, `Order` and `OrderItem`. Their fields change in place.
  An `OrderItem.Save` copies the menu item's current price, recomputes the
  subtotal, inserts or updates the line item under the (order, menu item)
  uniqueness constraint, and recomputes the order's total. `Order.Valid()` is
  the aggregate's invariant: every line item belongs to the order and carries a
  valid price snapshot, no menu item appears twice, and the total is the sum of
  the subtotals. The class methods keep it.
- **Validation and creation** (`serializers.dfy`, module `Serializers`) cover
  `orders/serializers.py`. They are the line-item checks, the non-empty check
  on an order request, the status transition table, and `CreateOrder`. That
  method creates the order, then creates and saves one line item per entry.
- **Request handlers** (`views.dfy`, module `Views`) cover `orders/views.py`.
  They are order creation, the status-only update, the lists of a
  restaurant's orders (also by query parameter) and its available menu, and
  the order statistics.
- **Scenarios** (`scenarios.dfy`) prove two worked examples about the
  operations above. The first is an order of two Margherita pizzas at 15.99
  from creation to done. The second is the statistics of four orders.

Money is counted in integer cents, so 0.01 is 1 and 15.99 is 1599. Query
parameters are `Option`s, where `None` stands for a parameter that is absent
or empty; both count as false in the source's `if` tests. An id parameter
arrives already converted to a number. A non-numeric id is listed under
"## Left out". The menu item of a
line-item entry arrives already resolved from its id (`ItemData.menuItem`).

Where the code's behaviour may surprise a reader, the model follows the code
as written:

- Cross-restaurant items are not rejected at creation. The menu-item check in
  `OrderItemCreateSerializer.validate` runs only when that serializer has its
  own input data and an order in its context. The nested entries of a
  creation request have neither, so `ValidateOrderRequest` accepts menu items
  of any restaurant.
- No validation step catches a repeated menu item. The second insert violates
  the database's (order, menu item) constraint. No transaction is open, so
  the order and the line items saved before the failure remain.
  `CreateOrder` and `SubmitOrder` return that partial order together with
  the failure.
- The price snapshot is retaken on every save of a line item, not only when
  it is created. A menu-item price change reaches an existing line item only
  when that line item is saved again (`RepriceMenuItem`, `OrderItem.Save`).
- Nothing blocks line-item changes by status, and no rounding is applied to
  totals. Totals are exact sums of cents.
- A status that is not one of the four choices is refused by the field's
  choice check before the transition table is consulted. That refusal is an
  `InvalidChoice` error, not an `IllegalTransition`.

## Model

| member | source | states |
|---|---|---|
| `Common.Message` | orders/serializers.py:36-126 | the texts the caller sees. They are the source's own texts for an empty order (serializers.py:85), a cross-restaurant item (:43), an illegal move (:124) and a missing `restaurant_id` (views.py:113), plus the framework's validator and choice texts. The database's uniqueness errors and the 404 have no text in the model, because their wording depends on the backend and the framework version. The raising members pin these texts in their own contracts |
| `Models.ParseStatus` | orders/models.py:42-47 | a stored string names a status exactly when it is one of the four choices, and then names the status whose code it is |
| `Models.StatusChoicesComplete` | orders/models.py:42-52 | every status is among the declared choices and its stored string names it and no other status |
| `Models.AddRestaurant` | orders/models.py:8 | a restaurant is inserted exactly when no restaurant has its name; insertion keeps names unique |
| `Models.AddMenuItem` | orders/models.py:32-34 | a menu item is inserted exactly when its restaurant has no item of that name; insertion keeps (restaurant, name) unique |
| `Models.MenuItem.constructor` | orders/models.py:21-30 | a new menu item carries the given fields and a price that satisfies the 0.01 minimum |
| `Models.MenuItem.SetPrice` | orders/models.py:26 | a price change is accepted exactly when the price is at least 0.01, else refused with the price left as it was |
| `Models.SumSubtotalsNonNegative` | orders/models.py:64-68 | the sum of the subtotals of priced line items is never negative |
| `Models.Order.constructor` | orders/models.py:49-56 | a new order is pending, totals 0.00, has no line items and is consistent |
| `Models.Order.CalculateTotal` | orders/models.py:64-68 | the order's total becomes the sum of its line items' subtotals, and that sum is returned |
| `Models.Order.TotalNonNegative` | orders/models.py:53 | a consistent order's total is never negative |
| `Models.OrderItem.SubtotalNonNegative` | orders/models.py:75-77 | a priced line item's subtotal is non-negative, and at least its unit price when the quantity is at least 1 |
| `Models.OrderItem.constructor` | orders/models.py:71-78 | a new line item references its order and menu item with the given quantity, and is not yet priced |
| `Models.OrderItem.Save` | orders/models.py:86-93 | the unit price becomes the menu item's current price and the subtotal unit price times quantity. A save fails exactly when a different line item of the order already has that menu item, and then the order is unchanged. Otherwise the line item is in the order's items (appended if new) and the total is the sum of all subtotals. The order stays consistent either way |
| `Models.RepriceMenuItem` | orders/models.py:86-90 | changing a menu item's price leaves every saved unit price, subtotal and total of an order unchanged, and the order consistent |
| `Serializers.ValidateItemFields` | orders/models.py:75 | a line-item entry passes its field validators exactly when its quantity is at least 1, and is otherwise refused naming that quantity; the backend's upper bound is left out |
| `Serializers.ValidateOrderItem` | orders/serializers.py:36-45 | an entry is refused as cross-restaurant exactly when the check is bound to data, an order is in its context, and the menu item's restaurant differs from the order's; otherwise it is returned unchanged |
| `Serializers.ValidateOrderItems` | orders/serializers.py:82-86 | an entry list is refused exactly when it is empty, with "Order must contain at least one item.", and is otherwise returned unchanged |
| `Serializers.ValidateOrderRequest` | orders/serializers.py:60-66 | a creation request is accepted exactly when it has at least one entry and every quantity is at least 1; the menu items' restaurants play no part. A refused non-empty request reports the quantity of its first entry below 1 |
| `Serializers.SumOfSavedItems` | orders/serializers.py:73-78 | line items saved one for one from entries have subtotals summing to the entries' price-times-quantity value |
| `Serializers.AddLine` | orders/serializers.py:74 | creating and saving one line item fails exactly when the order already has its menu item; on success exactly that new item is appended, priced from the entry |
| `Serializers.AddEntry` | orders/serializers.py:73-74 | saving the line item of the next entry fails exactly when an earlier entry has its menu item, changing nothing; otherwise the saved line items grow by that one, priced from the entry |
| `Serializers.SaveEntries` | orders/serializers.py:73-74 | one line item is saved per entry in turn, and saving stops at the first entry whose menu item an earlier entry has, keeping the line items before it; all of them are saved exactly when no menu item repeats |
| `Serializers.CreateOrder` | orders/serializers.py:68-80 | the new order is pending and consistent, with the request's restaurant, customer, table and notes. Creation succeeds exactly when the entries repeat no menu item; then there is one line item per entry, in order, and the total is the sum of price times quantity. On failure the order keeps the line items before the first repeated menu item, with their total |
| `Serializers.ValidateStatus` | orders/serializers.py:110-126 | without an order the value passes; with one, a value passes exactly when both strings name statuses related by the lifecycle's four legal moves, and is otherwise refused naming both statuses |
| `Serializers.ValidTransitionPairs` | orders/serializers.py:115-122 | exactly the pairs pending→in_progress, pending→cancelled, in_progress→done and in_progress→cancelled pass |
| `Serializers.RejectedTransitions` | orders/serializers.py:116-124 | a request for the current status, any request out of done or cancelled, and any request from an unrecognised status are refused |
| `Serializers.TerminalMeansNoSuccessor` | orders/serializers.py:118-119 | done and cancelled are exactly the statuses with no legal successor, and no status succeeds itself |
| `Views.OfRestaurant` | orders/views.py:118 | the result holds exactly the orders of the given restaurant |
| `Views.OfRestaurantCounts` | orders/views.py:118 | the restaurant's orders keep each of its orders as often as the input holds it, and no other order |
| `Views.WithStatusCode` | orders/views.py:123 | the result holds exactly the orders whose stored status is the given string, and nothing for a string that is not a choice |
| `Views.WithStatusCodeCounts` | orders/views.py:123 | filtering on a stored status string keeps each matching order as often as the input holds it, and no other order |
| `Views.FilterByStatusParam` | orders/views.py:121-123 | a present, non-empty status parameter keeps exactly the orders in that status; otherwise nothing is removed |
| `Views.FilterByStatusParamCounts` | orders/views.py:121-123 | the status parameter keeps each order it admits as often as the input holds it, and no other order |
| `Views.RestaurantOrders` | orders/views.py:36-48 | not found exactly when no restaurant has the id; otherwise exactly that restaurant's orders, each as often as in the input, restricted to the given status if one is present |
| `Views.ByRestaurant` | orders/views.py:107-132 | an error exactly when `restaurant_id` is missing, not found exactly when no restaurant has it, and success exactly when it names an existing restaurant. The result is then exactly that restaurant's orders, each as often as in the input, restricted to the given status if one is present |
| `Views.AvailableItems` | orders/views.py:32 | the result holds exactly the restaurant's menu items that are available |
| `Views.AvailableItemsCounts` | orders/views.py:32 | the restaurant's available menu items are kept as often as the input holds them, and no other item |
| `Views.Menu` | orders/views.py:28-34 | not found exactly when no restaurant has the id; otherwise exactly that restaurant's available menu items, each as often as in the input |
| `Views.Scope` | orders/views.py:137-141 | the orders covered are all orders, or exactly those of the requested restaurant |
| `Views.ScopeCounts` | orders/views.py:137-141 | the orders in scope keep each covered order as often as the input holds it, and no other, so their number is the restaurant's number of orders |
| `Views.FilterThenCount` | orders/views.py:144-152 | counting the orders filtered by a status's stored string counts the orders in that status, and summing the totals of the orders filtered by "done" is the done orders' revenue |
| `Views.CountsPartition` | orders/views.py:143-147 | the four per-status counts add up to the number of orders |
| `Views.CountByCode` | orders/views.py:144-147 | counting after filtering on a status's stored string gives the number of orders in that status |
| `Views.RevenueByCode` | orders/views.py:149-152 | summing the totals after filtering on "done" gives the revenue of the done orders |
| `Views.Summarize` | orders/views.py:143-152 | the summary's count is the number of orders, each status count is the number in that status, the counts add up to the total, and the revenue is the sum over done orders only |
| `Views.OrderStatistics` | orders/views.py:134-161 | over the orders in scope: their number, each status's count, counts adding up to that number, and the revenue of the done orders only |
| `Views.NoDoneNoRevenue` | orders/views.py:149-152 | with no done order the revenue is 0 |
| `Views.RevenueNonNegative` | orders/views.py:149-152 | the revenue of consistent orders is never negative |
| `Views.StatisticsAppend` | orders/views.py:140-152 | one more order adds one to its own status's count and nothing to the others, adds its total to the revenue only when done, and leaves other restaurants' order lists unchanged |
| `Views.OtherRestaurantIgnored` | orders/views.py:140-141 | with a restaurant id, an order of another restaurant does not change the statistics |
| `Views.SubmitOrder` | orders/views.py:85-93 | an order is created exactly when the request validates, and creation succeeds exactly when the request also repeats no menu item. An empty request is refused with the empty-order error and creates nothing. A created order is fresh, pending and consistent, carries the request's fields and holds line items saved from the entries in turn. On success there is one per entry and the total is the sum of price times quantity. After a repeated menu item the order keeps the line items before it, with their total |
| `Views.NextStatus` | orders/views.py:95-101 | with no status given the order keeps its status; a given string moves it exactly when it names a status the lifecycle allows next, and the error otherwise says whether the string is not a choice or the move is illegal |
| `Views.UpdateStatus` | orders/views.py:95-105 | only the status changes, to the next status; a refused request leaves the order untouched; the total and line items never change |
| `Scenarios.MargheritaScenario` | orders/views.py:85-105 | two pizzas at 15.99 total 31.98. The order moves to in progress, is refused a move back to pending, and moves to done. A later price change leaves the snapshot at 15.99 |
| `Scenarios.FourOrderCounts` | orders/views.py:143-152 | two pending orders, one done of 20.00 and one cancelled count two pending, none in progress, one done and one cancelled, with a revenue of 20.00 |
| `Scenarios.FourOrderStatistics` | orders/views.py:143-152 | two pending, one done of 20.00 and one cancelled order give four orders, two pending, one done, one cancelled and a revenue of 20.00 |
| `Scenarios.StatisticsScenario` | orders/views.py:134-161 | the same statistics for four orders built through creation and status updates |

## Left out

- HTTP routing, response shapes and status codes, authentication, and the admin UI are not modelled. The admin's recompute-after-save only calls `calculate_total`, which is modelled.
- The data seeding, export and setup scripts are not modelled. They are database and file I/O.
- Persistence is modelled only as object fields. That covers the ORM, the `save()` calls that write an order row, cascade deletes and the timestamp fields. The `items` field of an order stands for its saved line items, in the order they were first saved.
- Search, ordering and pagination backends are not modelled. The lists keep the order of their input rather than the records' declared orderings.
- Decimal formatting of the revenue (`str(total_revenue)`) is not modelled.
- The decimal bounds (8 and 10 digits) are not modelled: money is an unbounded integer number of cents.
- The framework's field conversion happens before the model's input: the id lookups of menu items and restaurants, and the required-field and length checks on customer name, table number and notes. Line-item entries arrive with their menu item resolved.
- Serializers.ValidateOrderRequest: reports the first failing entry only, whereas the framework collects the errors of every field and entry. It also omits the quantity's upper bound, as for ValidateItemFields below.
- Serializers.ValidateItemFields: checks only the lower bound of 1. The framework also gives `quantity` an upper bound, taken from the database backend's range for a positive integer column (2147483647 on several backends). The database settings are not part of this model, so that bound is left out.
- Views.Menu: not found exactly when no restaurant has the id, but only without query parameters. The detail lookup also applies the restaurant list's filter and search parameters, so `?is_active=` or `?search=` can make an existing restaurant not found. The filter backends are not part of this model.
- Views.RestaurantOrders: the same applies to the detail lookup of the restaurant's orders list.
- Views.UpdateStatus: takes the order once it has been found. The lookup, with its not-found answer, is not modelled, nor the order list's filter and search parameters (`?status=`, `?restaurant=`, `?search=`) that the lookup applies and that can make an existing order not found.
- Views.ByRestaurant and Views.OrderStatistics: the `restaurant_id` parameter is taken as an already converted number. A present but non-numeric value such as `?restaurant_id=abc` makes the source raise a server error: the id conversion fails inside `get_object_or_404` or `filter`, and the error is neither the 400 nor the 404. The model does not represent that case.
- Models.Order and Views.UpdateStatus: the restaurant, customer name, table number and notes of an order are constants in the model, and its status changes only through the status-update action. The order API's generic update uses the full order serializer, where `status` and `restaurant` are writable. That write path is not modelled: it can set any status, including moving a done or cancelled order back to pending, and can change those fields. The lifecycle lemmas (Serializers.TerminalMeansNoSuccessor, Serializers.RejectedTransitions) describe the status-update action only.
- The line-item quantity and the menu item's fields other than its price are fixed once the record is constructed. The line-item and menu-item paths modelled here never change them.
- Restaurant, menu-item and order detail listings are not modelled, nor the menu-item count of a restaurant. They are plain reads with no rule of their own.
- Concurrency is not modelled: the code takes no lock or transaction around a status update or a creation.
