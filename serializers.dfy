/** Input validation and order creation: the checks applied to a line-item
    entry and to an order request, the status transition table, and the
    creation of an order together with its line items. */
module Serializers {
  import opened Common
  import opened Models

  // ---------------------------------------------------------------------
  // Line-item entries

  /** One line-item entry of an order request, with its menu item already
      resolved from the submitted id. */
  datatype ItemData = ItemData(menuItem: MenuItem, quantity: int, specialInstructions: string)

  /** The field validators of a line-item entry: the quantity is at least 1. */
  function ValidateItemFields(d: ItemData): (r: Result<ItemData>)
    ensures r.Success? <==> d.quantity >= MinQuantity
    ensures r.Success? ==> r.value == d
    ensures r.Failure? ==> r.error == InvalidQuantity(d.quantity)
  {
    if d.quantity < MinQuantity then Failure(InvalidQuantity(d.quantity)) else Success(d)
  }

  /** The object-level check of a line-item entry. It runs only when the
      entry's validator was given input data (`bound`) and an order in its
      context (`contextOrder`, that order's restaurant); then a menu item of
      another restaurant is refused. Otherwise the entry passes unchanged. */
  function ValidateOrderItem(d: ItemData, bound: bool, contextOrder: Option<nat>): (r: Result<ItemData>)
    ensures r.Failure? <==>
      bound && contextOrder.Some? && d.menuItem.restaurantId != contextOrder.value
    ensures r.Success? ==> r.value == d
    ensures r.Failure? ==> r.error == CrossRestaurantItem
    ensures r.Failure? ==> Message(r.error) == Some("Menu item must belong to the same restaurant as the order.")
  {
    if bound && contextOrder.Some? && d.menuItem.restaurantId != contextOrder.value
    then Failure(CrossRestaurantItem)
    else Success(d)
  }

  /** An order request must contain at least one line item. */
  function ValidateOrderItems(entries: seq<ItemData>): (r: Result<seq<ItemData>>)
    ensures r.Failure? <==> entries == []
    ensures r.Success? ==> r.value == entries
    ensures r.Failure? ==> r.error == EmptyOrder
    ensures r.Failure? ==> Message(r.error) == Some("Order must contain at least one item.")
  {
    if entries == [] then Failure(EmptyOrder) else Success(entries)
  }

  // ---------------------------------------------------------------------
  // Order requests

  datatype OrderRequest = OrderRequest(
    restaurantId: nat,
    customerName: string,
    tableNumber: Option<string>,
    notes: string,
    orderItems: seq<ItemData>)

  /** Position of the first entry that fails its field validators. */
  function FirstInvalidEntry(entries: seq<ItemData>): (k: nat)
    ensures k <= |entries|
    ensures forall j :: 0 <= j < k ==> entries[j].quantity >= MinQuantity
    ensures k < |entries| ==> entries[k].quantity < MinQuantity
    decreases |entries|
  {
    if entries == [] then 0
    else if entries[0].quantity < MinQuantity then 0
    else 1 + FirstInvalidEntry(entries[1..])
  }

  /** The validation an order request goes through before it is created:
      each entry through its field validators and its object-level check
      (bound to no data of its own and without an order in its context, as
      the nested entries of a creation request are), then the non-empty
      check on the entries. The entries' menu items are therefore never
      compared with the order's restaurant. */
  function ValidateOrderRequest(req: OrderRequest): (r: Result<OrderRequest>)
    ensures r.Success? <==>
      req.orderItems != [] && forall j :: 0 <= j < |req.orderItems| ==> req.orderItems[j].quantity >= MinQuantity
    ensures r.Success? ==> r.value == req
    ensures r.Failure? && req.orderItems == [] ==> r.error == EmptyOrder
    ensures r.Failure? && req.orderItems != [] ==>
      var k := FirstInvalidEntry(req.orderItems);
      k < |req.orderItems| && r.error == InvalidQuantity(req.orderItems[k].quantity)
  {
    var k := FirstInvalidEntry(req.orderItems);
    if k < |req.orderItems| then
      Failure(ValidateItemFields(req.orderItems[k]).error)
    else
      assert forall j :: 0 <= j < |req.orderItems| ==>
        ValidateOrderItem(req.orderItems[j], false, None) == Success(req.orderItems[j]);
      match ValidateOrderItems(req.orderItems)
      case Failure(e) => Failure(e)
      case Success(_) => Success(req)
  }

  // ---------------------------------------------------------------------
  // Order creation

  /** Two entries of `entries` reference the same menu item. */
  predicate HasDuplicateMenuItem(entries: seq<ItemData>)
  {
    exists i, j :: 0 <= i < j < |entries| && entries[i].menuItem == entries[j].menuItem
  }

  /** Extending a duplicate-free prefix by an entry whose menu item none of
      the prefix's entries references keeps it duplicate-free. */
  lemma NoDuplicateExtend(entries: seq<ItemData>, k: nat, items: seq<OrderItem>)
    requires k < |entries| && |items| == k
    requires !HasDuplicateMenuItem(entries[..k])
    requires forall j :: 0 <= j < k ==> items[j].menuItem == entries[j].menuItem
    requires !HasMenuItem(items, entries[k].menuItem)
    ensures !HasDuplicateMenuItem(entries[..k + 1])
  {
    assert forall j :: 0 <= j < k ==> entries[j].menuItem != entries[k].menuItem by {
      forall j | 0 <= j < k ensures entries[j].menuItem != entries[k].menuItem {
        assert items[j].menuItem == entries[j].menuItem;
      }
    }
    assert forall j :: 0 <= j < k ==> entries[..k + 1][j] == entries[..k][j];
  }

  /** The value of the entries at the menu items' current prices. */
  function OrderValue(entries: seq<ItemData>): int
    reads set j | 0 <= j < |entries| :: entries[j].menuItem
    decreases |entries|
  {
    if entries == [] then 0
    else
      var last := entries[|entries| - 1];
      OrderValue(entries[..|entries| - 1]) + last.menuItem.price * last.quantity
  }

  /** Line item `i` was saved from entry `d`. */
  ghost predicate SavedFrom(i: OrderItem, d: ItemData)
    reads i, d.menuItem
  {
    && i.menuItem == d.menuItem
    && i.quantity == d.quantity
    && i.specialInstructions == d.specialInstructions
    && i.unitPrice == d.menuItem.price
    && i.subtotal == d.menuItem.price * d.quantity
  }

  /** Line items saved one for one from entries sum to the entries' value. */
  lemma {:induction false} SumOfSavedItems(items: seq<OrderItem>, entries: seq<ItemData>)
    requires |items| == |entries|
    requires forall j :: 0 <= j < |items| ==> SavedFrom(items[j], entries[j])
    ensures SumSubtotals(items) == OrderValue(entries)
  {
    if items != [] {
      var n := |items| - 1;
      SumOfSavedItems(items[..n], entries[..n]);
    }
  }

  /** Line items saved one for one from the first entries sum to the value
      of those entries. */
  lemma SumOfSavedPrefix(items: seq<OrderItem>, entries: seq<ItemData>)
    requires |items| <= |entries|
    requires forall j :: 0 <= j < |items| ==> SavedFrom(items[j], entries[j])
    ensures SumSubtotals(items) == OrderValue(entries[..|items|])
  {
    SumOfSavedItems(items, entries[..|items|]);
  }

  /** Creating one line item of `order` from entry `d` and saving it. */
  method AddLine(order: Order, d: ItemData) returns (saved: Outcome)
    requires order.Valid() && d.menuItem.Valid() && d.quantity >= MinQuantity
    modifies order`items, order`totalAmount
    ensures order.Valid()
    ensures saved.Fail? <==> HasMenuItem(old(order.items), d.menuItem)
    ensures saved.Fail? ==> saved.error == DuplicateLineItem
    ensures saved.Fail? ==> order.items == old(order.items) && order.totalAmount == old(order.totalAmount)
    ensures saved.Pass? ==> |order.items| == |old(order.items)| + 1
    ensures saved.Pass? ==> order.items[..|old(order.items)|] == old(order.items)
    ensures saved.Pass? ==> var item := order.items[|old(order.items)|]; fresh(item) && SavedFrom(item, d)
  {
    var item := new OrderItem(order, d.menuItem, d.quantity as nat, d.specialInstructions);
    saved := item.Save();
  }

  /** Creating and saving the line item of entry `k` once the entries
      before it are saved: it fails exactly when an earlier entry has the
      same menu item, and otherwise extends the saved line items by one. */
  method AddEntry(order: Order, entries: seq<ItemData>, k: nat) returns (saved: Outcome)
    requires k < |entries| && order.Valid()
    requires entries[k].quantity >= MinQuantity && entries[k].menuItem.Valid()
    requires |order.items| == k
    requires forall j :: 0 <= j < k ==> order.items[j].menuItem == entries[j].menuItem
    requires !HasDuplicateMenuItem(entries[..k])
    modifies order`items, order`totalAmount
    ensures order.Valid()
    ensures saved.Fail? ==> saved.error == DuplicateLineItem && HasDuplicateMenuItem(entries)
    ensures saved.Fail? ==> HasMenuItem(order.items, entries[k].menuItem)
    ensures saved.Fail? ==> order.items == old(order.items) && order.totalAmount == old(order.totalAmount)
    ensures saved.Pass? ==> |order.items| == k + 1 && order.items[..k] == old(order.items)
    ensures saved.Pass? ==> fresh(order.items[k]) && SavedFrom(order.items[k], entries[k])
    ensures saved.Pass? ==> order.items[k].menuItem == entries[k].menuItem
    ensures saved.Pass? ==> !HasDuplicateMenuItem(entries[..k + 1])
  {
    ghost var before := order.items;
    saved := AddLine(order, entries[k]);
    if saved.Pass? {
      NoDuplicateExtend(entries, k, before);
    } else {
      ghost var j :| 0 <= j < k && before[j].menuItem == entries[k].menuItem;
      assert entries[j].menuItem == entries[k].menuItem;
    }
  }

  /** Creating an order from validated data: the order is created with the
      default status and total, a line item is created and saved for each
      entry in turn, and the total is recomputed. No transaction surrounds
      this: when an entry repeats the menu item of an earlier entry its save
      fails, creation stops, and the order keeps the line items saved
      before it. */
  method CreateOrder(req: OrderRequest) returns (order: Order, outcome: Outcome)
    requires forall j :: 0 <= j < |req.orderItems| ==>
      req.orderItems[j].quantity >= MinQuantity && req.orderItems[j].menuItem.Valid()
    ensures fresh(order) && order.Valid()
    ensures order.restaurantId == req.restaurantId && order.customerName == req.customerName
    ensures order.tableNumber == req.tableNumber && order.notes == req.notes
    ensures order.status == DefaultStatus
    ensures outcome.Pass? <==> !HasDuplicateMenuItem(req.orderItems)
    ensures outcome.Fail? ==> outcome.error == DuplicateLineItem
    ensures forall j :: 0 <= j < |order.items| ==> fresh(order.items[j])
    ensures |order.items| <= |req.orderItems|
    ensures forall j :: 0 <= j < |order.items| ==> SavedFrom(order.items[j], req.orderItems[j])
    ensures outcome.Pass? ==> |order.items| == |req.orderItems|
    ensures outcome.Pass? ==> order.totalAmount == OrderValue(req.orderItems)
    ensures outcome.Fail? ==>
      var k := |order.items|;
      && k < |req.orderItems|
      && !HasDuplicateMenuItem(req.orderItems[..k])
      && HasMenuItem(order.items, req.orderItems[k].menuItem)
      && order.totalAmount == OrderValue(req.orderItems[..k])
  {
    var entries := req.orderItems;
    order := new Order(req.restaurantId, req.customerName, req.tableNumber, req.notes);
    outcome := SaveEntries(order, entries);
    SumOfSavedPrefix(order.items, entries);
    if outcome.Pass? {
      assert entries[..|order.items|] == entries;
      var _ := order.CalculateTotal();
    }
  }

  /** The loop of order creation: a line item is created and saved for
      each entry in turn, stopping at the first entry whose menu item an
      earlier entry already has. */
  method SaveEntries(order: Order, entries: seq<ItemData>) returns (outcome: Outcome)
    requires order.Valid() && order.items == []
    requires forall j :: 0 <= j < |entries| ==>
      entries[j].quantity >= MinQuantity && entries[j].menuItem.Valid()
    modifies order`items, order`totalAmount
    ensures order.Valid()
    ensures outcome.Pass? <==> !HasDuplicateMenuItem(entries)
    ensures outcome.Fail? ==> outcome.error == DuplicateLineItem
    ensures forall j :: 0 <= j < |order.items| ==> fresh(order.items[j])
    ensures |order.items| <= |entries|
    ensures forall j :: 0 <= j < |order.items| ==> SavedFrom(order.items[j], entries[j])
    ensures outcome.Pass? ==> |order.items| == |entries|
    ensures outcome.Fail? ==>
      var k := |order.items|;
      && k < |entries|
      && !HasDuplicateMenuItem(entries[..k])
      && HasMenuItem(order.items, entries[k].menuItem)
  {
    var k := 0;
    while k < |entries|
      invariant 0 <= k <= |entries|
      invariant order.Valid()
      invariant |order.items| == k
      invariant forall j :: 0 <= j < k ==> fresh(order.items[j])
      invariant forall j :: 0 <= j < k ==> SavedFrom(order.items[j], entries[j])
      invariant forall j :: 0 <= j < k ==> order.items[j].menuItem == entries[j].menuItem
      invariant !HasDuplicateMenuItem(entries[..k])
    {
      outcome := AddEntry(order, entries, k);
      if outcome.Fail? {
        return;
      }
      k := k + 1;
    }
    assert entries[..k] == entries;
    outcome := Pass;
  }


  // ---------------------------------------------------------------------
  // Status transitions

  /** The allowed successors of each status, keyed by stored string. */
  const AllowedTransitions: map<string, seq<string>> := map[
    "pending" := ["in_progress", "cancelled"],
    "in_progress" := ["done", "cancelled"],
    "done" := [],
    "cancelled" := []
  ]

  /** The allowed successors of `current`; none for a string the table does
      not know. */
  function Successors(current: string): seq<string>
  {
    if current in AllowedTransitions then AllowedTransitions[current] else []
  }

  /** The lifecycle as a relation on statuses: the four legal moves. */
  predicate CanTransition(from: Status, to: Status)
  {
    match (from, to)
    case (Pending, InProgress) => true
    case (Pending, Cancelled) => true
    case (InProgress, Done) => true
    case (InProgress, Cancelled) => true
    case _ => false
  }

  /** A status with no legal successor. */
  predicate IsTerminal(s: Status)
  {
    s == Done || s == Cancelled
  }

  /** Validating a requested status against the order's current one
      (`current` is None when no order is being updated). The result is the
      lifecycle relation read through the stored strings. */
  function ValidateStatus(current: Option<string>, value: string): (r: Result<string>)
    ensures current.None? ==> r == Success(value)
    ensures r.Success? ==> r.value == value
    ensures current.Some? ==> (r.Success? <==>
      ParseStatus(current.value).Some? && ParseStatus(value).Some? &&
      CanTransition(ParseStatus(current.value).value, ParseStatus(value).value))
    ensures r.Failure? ==> current.Some? && r.error == IllegalTransition(current.value, value)
    ensures r.Failure? ==>
      Message(r.error) == Some("Cannot change status from '" + current.value + "' to '" + value + "'")
  {
    if current.None? then Success(value)
    else if value in Successors(current.value) then Success(value)
    else Failure(IllegalTransition(current.value, value))
  }

  /** Exactly four pairs of stored strings pass the transition check. */
  lemma ValidTransitionPairs(current: string, value: string)
    ensures ValidateStatus(Some(current), value).Success? <==>
      (current, value) in {("pending", "in_progress"), ("pending", "cancelled"),
                           ("in_progress", "done"), ("in_progress", "cancelled")}
  {
  }

  /** No status may be requested again, and nothing leaves a terminal
      status; a status may also not be reached from an unknown string. */
  lemma RejectedTransitions(current: string, value: string)
    ensures value == current ==> ValidateStatus(Some(current), value).Failure?
    ensures current == "done" || current == "cancelled" ==> ValidateStatus(Some(current), value).Failure?
    ensures ParseStatus(current).None? ==> ValidateStatus(Some(current), value).Failure?
  {
  }

  /** The terminal statuses are exactly those with no legal successor, and
      no status is its own successor. */
  lemma TerminalMeansNoSuccessor(s: Status)
    ensures IsTerminal(s) <==> forall t: Status :: !CanTransition(s, t)
    ensures !CanTransition(s, s)
  {
    if !IsTerminal(s) {
      assert CanTransition(s, Cancelled);
    }
  }
}
