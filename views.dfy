/** The request handlers over orders and menus: order creation, status
    updates, the per-restaurant order and menu lists, and the order
    statistics. Query parameters arrive as `Option`s; a `None` stands for a
    parameter that is absent or empty. */
module Views {
  import opened Common
  import opened Models
  import opened Serializers

  // ---------------------------------------------------------------------
  // Filters

  /** The orders of one restaurant, in their original order. */
  function OfRestaurant(orders: seq<Order>, restaurantId: nat): (r: seq<Order>)
    ensures forall o <- r :: o in orders && o.restaurantId == restaurantId
    ensures forall o <- orders :: o.restaurantId == restaurantId ==> o in r
    ensures |r| <= |orders|
    decreases |orders|
  {
    if orders == [] then []
    else
      var rest := OfRestaurant(orders[1..], restaurantId);
      if orders[0].restaurantId == restaurantId then [orders[0]] + rest else rest
  }

  /** The orders whose stored status string is `code`; none when `code` is
      not one of the choices. */
  function WithStatusCode(orders: seq<Order>, code: string): (r: seq<Order>)
    reads orders
    ensures forall o <- r :: o in orders && Code(o.status) == code
    ensures forall o <- orders :: Code(o.status) == code ==> o in r
    ensures |r| <= |orders|
    ensures ParseStatus(code).None? ==> r == []
    decreases |orders|
  {
    if orders == [] then []
    else
      var rest := WithStatusCode(orders[1..], code);
      if Code(orders[0].status) == code then [orders[0]] + rest else rest
  }

  /** The optional `status` query parameter: applied only when present and
      not empty. */
  function FilterByStatusParam(orders: seq<Order>, status: Option<string>): (r: seq<Order>)
    reads orders
    ensures forall o <- r ::
      o in orders && (status.Some? && status.value != "" ==> Code(o.status) == status.value)
    ensures forall o <- orders ::
      (status.Some? && status.value != "" ==> Code(o.status) == status.value) ==> o in r
  {
    if status.Some? && status.value != "" then WithStatusCode(orders, status.value) else orders
  }

  /** A restaurant's orders keep each of its orders as often as the input
      holds it, and no other order. */
  lemma {:induction false} OfRestaurantCounts(orders: seq<Order>, restaurantId: nat)
    ensures multiset(OfRestaurant(orders, restaurantId)) <= multiset(orders)
    ensures
      forall o <- orders :: multiset(OfRestaurant(orders, restaurantId))[o] ==
        (if o.restaurantId == restaurantId then multiset(orders)[o] else 0)
    decreases |orders|
  {
    if orders != [] {
      OfRestaurantCounts(orders[1..], restaurantId);
      assert orders == [orders[0]] + orders[1..];
    }
  }

  /** Filtering on a stored status string keeps each matching order as
      often as the input holds it, and no other order. */
  lemma {:induction false} WithStatusCodeCounts(orders: seq<Order>, code: string)
    ensures multiset(WithStatusCode(orders, code)) <= multiset(orders)
    ensures
      forall o <- orders :: multiset(WithStatusCode(orders, code))[o] ==
        (if Code(o.status) == code then multiset(orders)[o] else 0)
    decreases |orders|
  {
    if orders != [] {
      var rest := orders[1..];
      WithStatusCodeCounts(rest, code);
      assert multiset(orders) == multiset{orders[0]} + multiset(rest) by {
        assert orders == [orders[0]] + rest;
      }
      var kept := if Code(orders[0].status) == code then multiset{orders[0]} else multiset{};
      assert multiset(WithStatusCode(orders, code)) == kept + multiset(WithStatusCode(rest, code));
    }
  }

  /** The status parameter keeps each order it admits as often as the input
      holds it, and no other order. */
  lemma FilterByStatusParamCounts(orders: seq<Order>, status: Option<string>)
    ensures multiset(FilterByStatusParam(orders, status)) <= multiset(orders)
    ensures
      forall o <- orders :: multiset(FilterByStatusParam(orders, status))[o] ==
        (if status.Some? && status.value != "" ==> Code(o.status) == status.value then multiset(orders)[o] else 0)
  {
    if status.Some? && status.value != "" {
      WithStatusCodeCounts(orders, status.value);
    }
  }

  /** Some restaurant carries the id `id`. */
  predicate RestaurantExists(restaurants: seq<Restaurant>, id: nat)
  {
    exists i :: 0 <= i < |restaurants| && restaurants[i].id == id
  }

  // ---------------------------------------------------------------------
  // Per-restaurant lists

  /** The orders of restaurant `pk`, optionally restricted to one status;
      not found when no restaurant has that id. */
  function RestaurantOrders(orders: seq<Order>, restaurants: seq<Restaurant>, pk: nat,
                            status: Option<string>): (r: Result<seq<Order>>)
    reads orders
    ensures r.Failure? <==> !RestaurantExists(restaurants, pk)
    ensures r.Failure? ==> r.error == NotFound
    ensures r.Success? ==> forall o <- r.value ::
      && o in orders
      && o.restaurantId == pk
      && (status.Some? && status.value != "" ==> Code(o.status) == status.value)
    ensures r.Success? ==> forall o <- orders ::
      && o.restaurantId == pk
      && (status.Some? && status.value != "" ==> Code(o.status) == status.value)
      ==> o in r.value
    ensures r.Success? ==> multiset(r.value) <= multiset(orders)
    ensures r.Success? ==>
      forall o <- orders :: multiset(r.value)[o] ==
        (if o.restaurantId == pk && (status.Some? && status.value != "" ==> Code(o.status) == status.value)
        then multiset(orders)[o] else 0)
  {
    if !RestaurantExists(restaurants, pk) then Failure(NotFound)
    else
      var mine := OfRestaurant(orders, pk);
      assert forall i :: 0 <= i < |mine| ==> mine[i] in orders;
      OfRestaurantCounts(orders, pk);
      FilterByStatusParamCounts(mine, status);
      Success(FilterByStatusParam(mine, status))
  }

  /** The order list for a `restaurant_id` query parameter, which must be
      given; otherwise as for one restaurant's orders. */
  function ByRestaurant(orders: seq<Order>, restaurants: seq<Restaurant>, restaurantId: Option<nat>,
                        status: Option<string>): (r: Result<seq<Order>>)
    reads orders
    ensures restaurantId.None? <==> r == Failure(MissingRestaurantId)
    ensures restaurantId.None? ==> Message(r.error) == Some("restaurant_id parameter is required")
    ensures r == Failure(NotFound) <==> restaurantId.Some? && !RestaurantExists(restaurants, restaurantId.value)
    ensures r.Failure? <==> restaurantId.None? || !RestaurantExists(restaurants, restaurantId.value)
    ensures r.Success? ==> forall o <- r.value ::
      && o in orders
      && o.restaurantId == restaurantId.value
      && (status.Some? && status.value != "" ==> Code(o.status) == status.value)
    ensures r.Success? ==> forall o <- orders ::
      && o.restaurantId == restaurantId.value
      && (status.Some? && status.value != "" ==> Code(o.status) == status.value)
      ==> o in r.value
    ensures r.Success? ==> multiset(r.value) <= multiset(orders)
    ensures r.Success? ==>
      forall o <- orders :: multiset(r.value)[o] ==
        (if o.restaurantId == restaurantId.value && (status.Some? && status.value != "" ==> Code(o.status) == status.value)
        then multiset(orders)[o] else 0)
  {
    match restaurantId
    case None => Failure(MissingRestaurantId)
    case Some(id) => RestaurantOrders(orders, restaurants, id, status)
  }

  /** The available menu items of one restaurant, in their original order. */
  function AvailableItems(items: seq<MenuItem>, restaurantId: nat): (r: seq<MenuItem>)
    ensures forall m <- r :: m in items && m.restaurantId == restaurantId && m.isAvailable
    ensures forall m <- items :: m.restaurantId == restaurantId && m.isAvailable ==> m in r
    decreases |items|
  {
    if items == [] then []
    else
      var rest := AvailableItems(items[1..], restaurantId);
      if items[0].restaurantId == restaurantId && items[0].isAvailable then [items[0]] + rest else rest
  }

  /** A restaurant's available items keep each such item as often as the
      input holds it, and no other item. */
  lemma {:induction false} AvailableItemsCounts(items: seq<MenuItem>, restaurantId: nat)
    ensures multiset(AvailableItems(items, restaurantId)) <= multiset(items)
    ensures
      forall m <- items :: multiset(AvailableItems(items, restaurantId))[m] ==
        (if m.restaurantId == restaurantId && m.isAvailable then multiset(items)[m] else 0)
    decreases |items|
  {
    if items != [] {
      AvailableItemsCounts(items[1..], restaurantId);
      assert items == [items[0]] + items[1..];
    }
  }

  /** The menu of restaurant `pk`: its menu items that are available; not
      found when no restaurant has that id. */
  function Menu(items: seq<MenuItem>, restaurants: seq<Restaurant>, pk: nat): (r: Result<seq<MenuItem>>)
    ensures r.Failure? <==> !RestaurantExists(restaurants, pk)
    ensures r.Failure? ==> r.error == NotFound
    ensures r.Success? ==> forall m <- r.value :: m in items && m.restaurantId == pk && m.isAvailable
    ensures r.Success? ==> forall m <- items :: m.restaurantId == pk && m.isAvailable ==> m in r.value
    ensures r.Success? ==> multiset(r.value) <= multiset(items)
    ensures r.Success? ==>
      forall m <- items :: multiset(r.value)[m] ==
        (if m.restaurantId == pk && m.isAvailable then multiset(items)[m] else 0)
  {
    if !RestaurantExists(restaurants, pk) then Failure(NotFound)
    else
      AvailableItemsCounts(items, pk);
      Success(AvailableItems(items, pk))
  }

  // ---------------------------------------------------------------------
  // Statistics

  datatype Statistics = Statistics(
    totalOrders: nat,
    pendingOrders: nat,
    inProgressOrders: nat,
    doneOrders: nat,
    cancelledOrders: nat,
    totalRevenue: int)

  /** The orders a statistics request covers: all of them, or those of one
      restaurant. */
  function Scope(orders: seq<Order>, restaurantId: Option<nat>): (r: seq<Order>)
    ensures forall o <- r :: o in orders && (restaurantId.Some? ==> o.restaurantId == restaurantId.value)
    ensures forall o <- orders :: (restaurantId.Some? ==> o.restaurantId == restaurantId.value) ==> o in r
  {
    if restaurantId.Some? then OfRestaurant(orders, restaurantId.value) else orders
  }
  /** The orders in scope are each order of the requested restaurant (or
      every order) as often as the input holds it, and no other order; so
      their number is that restaurant's number of orders. */
  lemma ScopeCounts(orders: seq<Order>, restaurantId: Option<nat>)
    ensures multiset(Scope(orders, restaurantId)) <= multiset(orders)
    ensures
      forall o <- orders :: multiset(Scope(orders, restaurantId))[o] ==
        (if restaurantId.None? || o.restaurantId == restaurantId.value then multiset(orders)[o] else 0)
  {
    if restaurantId.Some? {
      OfRestaurantCounts(orders, restaurantId.value);
    }
  }


  /** The number of positions of `orders` holding an order in status `s`. */
  function CountStatus(orders: seq<Order>, s: Status): nat
    reads orders
    decreases |orders|
  {
    if orders == [] then 0
    else (if orders[0].status == s then 1 else 0) + CountStatus(orders[1..], s)
  }

  /** The sum of the totals of `orders`. */
  function SumTotals(orders: seq<Order>): int
    reads orders
    decreases |orders|
  {
    if orders == [] then 0 else orders[0].totalAmount + SumTotals(orders[1..])
  }

  /** The sum of the totals of the done orders among `orders`; the others
      add nothing. */
  function DoneRevenue(orders: seq<Order>): int
    reads orders
    decreases |orders|
  {
    if orders == [] then 0
    else (if orders[0].status == Done then orders[0].totalAmount else 0) + DoneRevenue(orders[1..])
  }

  /** Filtering by a status's stored string and counting is counting the
      orders in that status; summing the done orders' totals is the done
      revenue. */
  lemma {:induction false} FilterThenCount(orders: seq<Order>, s: Status)
    ensures |WithStatusCode(orders, Code(s))| == CountStatus(orders, s)
    ensures s == Done ==> SumTotals(WithStatusCode(orders, Code(s))) == DoneRevenue(orders)
    decreases |orders|
  {
    if orders != [] {
      FilterThenCount(orders[1..], s);
      StatusChoicesComplete(s);
      var rest := WithStatusCode(orders[1..], Code(s));
      if Code(orders[0].status) == Code(s) {
        assert SumTotals([orders[0]] + rest) == orders[0].totalAmount + SumTotals(rest) by {
          assert ([orders[0]] + rest)[1..] == rest;
        }
      }
    }
  }

  /** Every order is in exactly one of the four statuses. */
  lemma {:induction false} CountsPartition(orders: seq<Order>)
    ensures CountStatus(orders, Pending) + CountStatus(orders, InProgress)
      + CountStatus(orders, Done) + CountStatus(orders, Cancelled) == |orders|
    decreases |orders|
  {
    if orders != [] {
      CountsPartition(orders[1..]);
    }
  }

  /** The number of orders stored with status `s`, counted as the source
      counts it: filter on the stored string, then take the length. */
  function CountByCode(qs: seq<Order>, s: Status): (n: nat)
    reads qs
    ensures n == CountStatus(qs, s)
  {
    FilterThenCount(qs, s);
    |WithStatusCode(qs, Code(s))|
  }

  /** The revenue as the source sums it: the totals of the orders left by
      filtering on the stored string "done". */
  function RevenueByCode(qs: seq<Order>): (v: int)
    reads qs
    ensures v == DoneRevenue(qs)
  {
    FilterThenCount(qs, Done);
    var done := WithStatusCode(qs, Code(Done));
    assert forall i :: 0 <= i < |done| ==> done[i] in qs;
    SumTotals(done)
  }

  /** The statistics over `qs`, as the source computes them: the count of
      all, the count of each status by filtering on its stored string, and
      the sum of the totals of the done ones. */
  function Summarize(qs: seq<Order>): (st: Statistics)
    reads qs
    ensures st.totalOrders == |qs|
    ensures st.pendingOrders == CountStatus(qs, Pending)
    ensures st.inProgressOrders == CountStatus(qs, InProgress)
    ensures st.doneOrders == CountStatus(qs, Done)
    ensures st.cancelledOrders == CountStatus(qs, Cancelled)
    ensures st.pendingOrders + st.inProgressOrders + st.doneOrders + st.cancelledOrders == st.totalOrders
    ensures st.totalRevenue == DoneRevenue(qs)
  {
    CountsPartition(qs);
    Statistics(
      |qs|,
      CountByCode(qs, Pending),
      CountByCode(qs, InProgress),
      CountByCode(qs, Done),
      CountByCode(qs, Cancelled),
      RevenueByCode(qs))
  }

  /** The statistics request: the summary of all orders, or of one
      restaurant's orders when `restaurantId` is given. */
  function OrderStatistics(orders: seq<Order>, restaurantId: Option<nat>): (st: Statistics)
    reads orders
    ensures st.totalOrders == |Scope(orders, restaurantId)|
    ensures st.pendingOrders + st.inProgressOrders + st.doneOrders + st.cancelledOrders == st.totalOrders
    ensures st.pendingOrders == CountStatus(Scope(orders, restaurantId), Pending)
    ensures st.inProgressOrders == CountStatus(Scope(orders, restaurantId), InProgress)
    ensures st.doneOrders == CountStatus(Scope(orders, restaurantId), Done)
    ensures st.cancelledOrders == CountStatus(Scope(orders, restaurantId), Cancelled)
    ensures st.totalRevenue == DoneRevenue(Scope(orders, restaurantId))
  {
    var qs := Scope(orders, restaurantId);
    assert forall i :: 0 <= i < |qs| ==> qs[i] in orders;
    Summarize(qs)
  }

  /** With no done order there is no revenue. */
  lemma {:induction false} NoDoneNoRevenue(orders: seq<Order>)
    requires CountStatus(orders, Done) == 0
    ensures DoneRevenue(orders) == 0
    decreases |orders|
  {
    if orders != [] {
      NoDoneNoRevenue(orders[1..]);
    }
  }

  /** The revenue of consistent orders is never negative. */
  lemma {:induction false} RevenueNonNegative(orders: seq<Order>)
    requires forall i :: 0 <= i < |orders| ==> orders[i].Valid()
    ensures DoneRevenue(orders) >= 0
    decreases |orders|
  {
    if orders != [] {
      orders[0].TotalNonNegative();
      RevenueNonNegative(orders[1..]);
    }
  }

  /** One more order adds one to its status's count and, when it is done,
      its total to the revenue; an order of another restaurant changes
      nothing in that restaurant's statistics. */
  lemma {:induction false} StatisticsAppend(orders: seq<Order>, o: Order)
    ensures CountStatus(orders + [o], o.status) == CountStatus(orders, o.status) + 1
    ensures forall s: Status :: s != o.status ==> CountStatus(orders + [o], s) == CountStatus(orders, s)
    ensures DoneRevenue(orders + [o]) == DoneRevenue(orders) + if o.status == Done then o.totalAmount else 0
    ensures forall rid: nat :: rid != o.restaurantId ==> OfRestaurant(orders + [o], rid) == OfRestaurant(orders, rid)
    decreases |orders|
  {
    if orders == [] {
      assert orders + [o] == [o];
    } else {
      StatisticsAppend(orders[1..], o);
      assert (orders + [o])[1..] == orders[1..] + [o];
    }
  }

  lemma OtherRestaurantIgnored(orders: seq<Order>, o: Order, rid: nat)
    requires o.restaurantId != rid
    ensures OrderStatistics(orders + [o], Some(rid)) == OrderStatistics(orders, Some(rid))
  {
    StatisticsAppend(orders, o);
  }

  // ---------------------------------------------------------------------
  // Order creation and status updates

  /** Creating an order from a request: the request is validated, and only
      then is the order created with its line items. A repeated menu item
      fails at the database after the order and the line items before it
      were saved, so that order exists whatever the outcome. */
  method SubmitOrder(req: OrderRequest) returns (outcome: Outcome, order: Option<Order>)
    requires forall j :: 0 <= j < |req.orderItems| ==> req.orderItems[j].menuItem.Valid()
    ensures order.Some? <==> ValidateOrderRequest(req).Success?
    ensures outcome.Pass? <==> ValidateOrderRequest(req).Success? && !HasDuplicateMenuItem(req.orderItems)
    ensures req.orderItems == [] ==> outcome == Fail(EmptyOrder)
    ensures ValidateOrderRequest(req).Failure? ==> outcome == Fail(ValidateOrderRequest(req).error)
    ensures order.Some? && outcome.Fail? ==> outcome.error == DuplicateLineItem
    ensures order.Some? ==> fresh(order.value) && order.value.Valid()
    ensures order.Some? ==>
      && order.value.status == DefaultStatus
      && order.value.restaurantId == req.restaurantId
      && order.value.customerName == req.customerName
      && order.value.tableNumber == req.tableNumber
      && order.value.notes == req.notes
    ensures order.Some? ==> |order.value.items| <= |req.orderItems|
    ensures order.Some? ==>
      forall j :: 0 <= j < |order.value.items| ==>
        fresh(order.value.items[j]) && SavedFrom(order.value.items[j], req.orderItems[j])
    ensures order.Some? && outcome.Pass? ==>
      |order.value.items| == |req.orderItems| && order.value.totalAmount == OrderValue(req.orderItems)
    ensures order.Some? && outcome.Fail? ==>
      var k := |order.value.items|;
      && k < |req.orderItems|
      && !HasDuplicateMenuItem(req.orderItems[..k])
      && HasMenuItem(order.value.items, req.orderItems[k].menuItem)
      && order.value.totalAmount == OrderValue(req.orderItems[..k])
  {
    var valid := ValidateOrderRequest(req);
    if valid.Failure? {
      return Fail(valid.error), None;
    }
    var created;
    created, outcome := CreateOrder(req);
    order := Some(created);
  }

  /** The status an order moves to on a status-update request: an absent
      status changes nothing; a value that is not one of the choices is
      refused; otherwise the transition table decides. */
  function NextStatus(current: Status, requested: Option<string>): (r: Result<Status>)
    ensures requested.None? ==> r == Success(current)
    ensures requested.Some? ==> (r.Success? <==>
      ParseStatus(requested.value).Some? && CanTransition(current, ParseStatus(requested.value).value))
    ensures requested.Some? && r.Success? ==> Code(r.value) == requested.value
    ensures requested.Some? && r.Failure? ==>
      r.error == (if ParseStatus(requested.value).None? then InvalidChoice(requested.value)
                  else IllegalTransition(Code(current), requested.value))
    ensures requested.Some? && r.Failure? && ParseStatus(requested.value).Some? ==>
      Message(r.error) == Some("Cannot change status from '" + Code(current) + "' to '" + requested.value + "'")
  {
    match requested
    case None => Success(current)
    case Some(v) =>
      match ParseStatus(v)
      case None => Failure(InvalidChoice(v))
      case Some(s) =>
        StatusChoicesComplete(current);
        match ValidateStatus(Some(Code(current)), v)
        case Failure(e) => Failure(e)
        case Success(_) => Success(s)
  }

  /** The status-update request: only the status changes, to the next
      status, and a refused request leaves the order untouched. */
  method UpdateStatus(order: Order, requested: Option<string>) returns (r: Result<Status>)
    requires order.Valid()
    modifies order`status
    ensures r == NextStatus(old(order.status), requested)
    ensures order.status == if r.Success? then r.value else old(order.status)
    ensures order.totalAmount == old(order.totalAmount) && order.items == old(order.items)
    ensures order.Valid()
  {
    r := NextStatus(order.status, requested);
    if r.Success? {
      order.status := r.value;
    }
  }
}
