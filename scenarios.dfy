/** Two worked examples of the order service, proved about the modelled
    operations: an order's life from creation to done, and the statistics
    of a handful of orders. */
module Scenarios {
  import opened Common
  import opened Models
  import opened Serializers
  import opened Views

  /** A restaurant sells a Margherita pizza at 15.99. An order of two costs
      31.98 and starts pending; it may move to in progress, not back to
      pending, and then to done. A later price change leaves the order's
      price snapshot and total as they were. */
  method MargheritaScenario()
    returns (total: int, unitPrice: int, updates: seq<Result<Status>>, finalStatus: Status)
    ensures total == 3198 && unitPrice == 1599
    ensures updates == [Success(InProgress), Failure(IllegalTransition("in_progress", "pending")), Success(Done)]
    ensures finalStatus == Done
  {
    var pizza := new MenuItem(1, "Margherita Pizza", "", 1599, true, "Main");
    var entry := ItemData(pizza, 2, "");
    var req := OrderRequest(1, "Ana", Some("5"), "", [entry]);
    assert !HasDuplicateMenuItem(req.orderItems);
    assert OrderValue([entry]) == 3198 by {
      assert [entry][..0] == [];
    }
    var submitted, created := SubmitOrder(req);
    var order := created.value;
    assert order.status == Pending;
    var first := UpdateStatus(order, Some("in_progress"));
    var second := UpdateStatus(order, Some("pending"));
    var third := UpdateStatus(order, Some("done"));
    var _ := RepriceMenuItem(order, pizza, 1799);
    total := order.totalAmount;
    unitPrice := order.items[0].unitPrice;
    updates := [first, second, third];
    finalStatus := order.status;
  }

  /** The counts and the revenue of a single order. */
  lemma SingleOrderCounts(x: Order)
    ensures forall s: Status :: CountStatus([x], s) == if x.status == s then 1 else 0
    ensures DoneRevenue([x]) == if x.status == Done then x.totalAmount else 0
  {
    assert [x][1..] == [];
  }

  /** The counts and the revenue of an order in front of others. */
  lemma PrependOrderCounts(x: Order, rest: seq<Order>)
    ensures forall s: Status :: CountStatus([x] + rest, s) == (if x.status == s then 1 else 0) + CountStatus(rest, s)
    ensures DoneRevenue([x] + rest) == (if x.status == Done then x.totalAmount else 0) + DoneRevenue(rest)
  {
    assert ([x] + rest)[1..] == rest;
  }

  /** The per-status counts and the revenue of two pending orders, one
      done order of 20.00 and one cancelled order. */
  lemma FourOrderCounts(orders: seq<Order>)
    requires |orders| == 4
    requires orders[0].status == Pending && orders[1].status == Pending
    requires orders[2].status == Done && orders[3].status == Cancelled
    requires orders[2].totalAmount == 2000
    ensures CountStatus(orders, Pending) == 2 && CountStatus(orders, InProgress) == 0
    ensures CountStatus(orders, Done) == 1 && CountStatus(orders, Cancelled) == 1
    ensures DoneRevenue(orders) == 2000
  {
    var a, b, c, d := orders[0], orders[1], orders[2], orders[3];
    SingleOrderCounts(d);
    PrependOrderCounts(c, [d]);
    PrependOrderCounts(b, [c, d]);
    PrependOrderCounts(a, [b, c, d]);
    assert [c] + [d] == [c, d] && [b] + [c, d] == [b, c, d] && [a] + [b, c, d] == orders;
  }

  /** Two pending orders, one done order of 20.00 and one cancelled order:
      four orders, two pending, one done, and a revenue of 20.00. */
  lemma FourOrderStatistics(orders: seq<Order>)
    requires |orders| == 4
    requires orders[0].status == Pending && orders[1].status == Pending
    requires orders[2].status == Done && orders[3].status == Cancelled
    requires orders[2].totalAmount == 2000
    ensures OrderStatistics(orders, None) == Statistics(4, 2, 0, 1, 1, 2000)
  {
    FourOrderCounts(orders);
    assert Scope(orders, None) == orders;
  }

  /** An order of one salad at 20.00, created and then taken through in
      progress to done. */
  method DoneSaladOrder() returns (c: Order)
    ensures c.status == Done && c.totalAmount == 2000
  {
    var salad := new MenuItem(7, "Salad", "", 2000, true, "Main");
    var entry := ItemData(salad, 1, "");
    var req := OrderRequest(7, "Cleo", None, "", [entry]);
    assert !HasDuplicateMenuItem(req.orderItems);
    assert OrderValue([entry]) == 2000 by {
      assert [entry][..0] == [];
    }
    var submitted, created := SubmitOrder(req);
    c := created.value;
    var started := UpdateStatus(c, Some("in_progress"));
    var finished := UpdateStatus(c, Some("done"));
  }

  /** A new order that is cancelled straight away. */
  method CancelledOrder() returns (d: Order)
    ensures d.status == Cancelled
  {
    d := new Order(7, "Dan", None, "");
    var cancelled := UpdateStatus(d, Some("cancelled"));
  }

  /** Four orders of one restaurant, built through the modelled operations:
      two left pending, one of 20.00 taken to done, one cancelled. */
  method FourOrders() returns (orders: seq<Order>)
    ensures |orders| == 4
    ensures orders[0].status == Pending && orders[1].status == Pending
    ensures orders[2].status == Done && orders[3].status == Cancelled
    ensures orders[2].totalAmount == 2000
  {
    var c := DoneSaladOrder();
    var d := CancelledOrder();
    var a := new Order(7, "Ana", None, "");
    var b := new Order(7, "Ben", None, "");
    orders := [a, b, c, d];
  }

  /** The statistics of those four orders. */
  method StatisticsScenario() returns (st: Statistics)
    ensures st == Statistics(4, 2, 0, 1, 1, 2000)
  {
    var orders := FourOrders();
    FourOrderStatistics(orders);
    st := OrderStatistics(orders, None);
  }
}
