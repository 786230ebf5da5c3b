/** The records of the order service: restaurants, their menu items, orders
    and the line items of an order, with the field constraints the records
    declare. Money is counted in integer cents. */
module Models {
  import opened Common

  /** The smallest price a menu item may carry: 0.01. */
  const MinPrice: int := 1

  /** The smallest quantity a line item may carry. */
  const MinQuantity: int := 1

  /** The total of an order that has no line items yet: 0.00. */
  const DefaultTotal: int := 0

  // ---------------------------------------------------------------------
  // Order status

  datatype Status = Pending | InProgress | Done | Cancelled

  /** The status every new order starts in. */
  const DefaultStatus: Status := Pending

  /** The four status choices, in their declared order. */
  const StatusChoices: seq<Status> := [Pending, InProgress, Done, Cancelled]

  /** The string a status is stored as. */
  function Code(s: Status): string
  {
    match s
    case Pending => "pending"
    case InProgress => "in_progress"
    case Done => "done"
    case Cancelled => "cancelled"
  }

  /** The status stored as `code`, if `code` is one of the four choices. */
  function ParseStatus(code: string): (r: Option<Status>)
    ensures r.Some? ==> Code(r.value) == code
    ensures r.None? ==> forall s: Status :: Code(s) != code
  {
    if code == "pending" then Some(Pending)
    else if code == "in_progress" then Some(InProgress)
    else if code == "done" then Some(Done)
    else if code == "cancelled" then Some(Cancelled)
    else None
  }

  /** Every status is one of the declared choices, and the stored strings of
      the choices are pairwise distinct, so a stored string names one status. */
  lemma StatusChoicesComplete(s: Status)
    ensures s in StatusChoices
    ensures ParseStatus(Code(s)) == Some(s)
    ensures forall t: Status :: Code(t) == Code(s) ==> t == s
  {
  }

  // ---------------------------------------------------------------------
  // Restaurants

  datatype Restaurant = Restaurant(id: nat, name: string, description: string, isActive: bool)

  /** No two restaurants share a name. */
  predicate UniqueRestaurantNames(rs: seq<Restaurant>)
  {
    forall i, j :: 0 <= i < j < |rs| ==> rs[i].name != rs[j].name
  }

  /** Inserting a restaurant: refused when its name is taken. */
  function AddRestaurant(rs: seq<Restaurant>, r: Restaurant): (result: Result<seq<Restaurant>>)
    ensures result.Success? <==> forall i :: 0 <= i < |rs| ==> rs[i].name != r.name
    ensures result.Success? ==> result.value == rs + [r]
    ensures result.Failure? ==> result.error == DuplicateName
    ensures UniqueRestaurantNames(rs) && result.Success? ==> UniqueRestaurantNames(result.value)
  {
    if exists i :: 0 <= i < |rs| && rs[i].name == r.name then Failure(DuplicateName)
    else Success(rs + [r])
  }

  // ---------------------------------------------------------------------
  // Menu items

  /** A dish offered by one restaurant. Only its price is ever changed. */
  class MenuItem {
    const restaurantId: nat
    const name: string
    const description: string
    var price: int
    const isAvailable: bool
    const category: string

    /** The price satisfies its validator. */
    ghost predicate Valid()
      reads this
    {
      price >= MinPrice
    }

    constructor (restaurantId: nat, name: string, description: string, price: int,
                 isAvailable: bool, category: string)
      requires price >= MinPrice
      ensures Valid()
      ensures this.restaurantId == restaurantId && this.name == name
      ensures this.description == description && this.price == price
      ensures this.isAvailable == isAvailable && this.category == category
    {
      this.restaurantId := restaurantId;
      this.name := name;
      this.description := description;
      this.price := price;
      this.isAvailable := isAvailable;
      this.category := category;
    }

    /** Editing the price, through its validator. */
    method SetPrice(p: int) returns (outcome: Outcome)
      requires Valid()
      modifies this`price
      ensures outcome == if p >= MinPrice then Pass else Fail(InvalidPrice(p))
      ensures price == if outcome.Pass? then p else old(price)
      ensures Valid()
    {
      if p < MinPrice {
        return Fail(InvalidPrice(p));
      }
      price := p;
      outcome := Pass;
    }
  }

  /** No two menu items of one restaurant share a name. */
  predicate UniqueMenuItemNames(ms: seq<MenuItem>)
  {
    forall i, j :: 0 <= i < j < |ms| ==>
      ms[i].restaurantId != ms[j].restaurantId || ms[i].name != ms[j].name
  }

  /** Inserting a menu item: refused when its restaurant already has an item
      of that name. */
  function AddMenuItem(ms: seq<MenuItem>, m: MenuItem): (result: Result<seq<MenuItem>>)
    ensures result.Success? <==>
      forall i :: 0 <= i < |ms| ==> ms[i].restaurantId != m.restaurantId || ms[i].name != m.name
    ensures result.Success? ==> result.value == ms + [m]
    ensures result.Failure? ==> result.error == DuplicateName
    ensures UniqueMenuItemNames(ms) && result.Success? ==> UniqueMenuItemNames(result.value)
  {
    if exists i :: 0 <= i < |ms| && ms[i].restaurantId == m.restaurantId && ms[i].name == m.name
    then Failure(DuplicateName)
    else Success(ms + [m])
  }

  // ---------------------------------------------------------------------
  // Orders and their line items

  /** The sum of the subtotals of `items`, as an order sums its line items. */
  function SumSubtotals(items: seq<OrderItem>): int
    reads items
    decreases |items|
  {
    if items == [] then 0 else SumSubtotals(items[..|items| - 1]) + items[|items| - 1].subtotal
  }

  /** The line items all lie at or above the minimum price (the price
      validator), so the sum of their subtotals is never negative. */
  lemma {:induction false} SumSubtotalsNonNegative(items: seq<OrderItem>)
    requires forall i :: 0 <= i < |items| ==> items[i].Priced()
    ensures SumSubtotals(items) >= 0
  {
    if items != [] {
      var last := items[|items| - 1];
      SumSubtotalsNonNegative(items[..|items| - 1]);
      last.SubtotalNonNegative();
    }
  }

  /** No two line items reference the same menu item. */
  predicate DistinctMenuItems(items: seq<OrderItem>)
  {
    forall i, j :: 0 <= i < j < |items| ==> items[i].menuItem != items[j].menuItem
  }

  /** Some line item of `items` references `m`. */
  predicate HasMenuItem(items: seq<OrderItem>, m: MenuItem)
  {
    exists j :: 0 <= j < |items| && items[j].menuItem == m
  }

  /** A customer's order at one restaurant. `items` is the set of its saved
      line items, in the order they were first saved. */
  class Order {
    const restaurantId: nat
    const customerName: string
    const tableNumber: Option<string>
    const notes: string
    var status: Status
    var totalAmount: int
    var items: seq<OrderItem>

    /** Every line item belongs to this order and is priced, no menu item
        appears twice, and the total is the sum of the subtotals. */
    ghost predicate Valid()
      reads this, items
    {
      && (forall i :: 0 <= i < |items| ==> items[i].order == this && items[i].Priced())
      && DistinctMenuItems(items)
      && totalAmount == SumSubtotals(items)
    }

    constructor (restaurantId: nat, customerName: string, tableNumber: Option<string>, notes: string)
      ensures Valid()
      ensures this.restaurantId == restaurantId && this.customerName == customerName
      ensures this.tableNumber == tableNumber && this.notes == notes
      ensures status == DefaultStatus && totalAmount == DefaultTotal && items == []
    {
      this.restaurantId := restaurantId;
      this.customerName := customerName;
      this.tableNumber := tableNumber;
      this.notes := notes;
      status := DefaultStatus;
      totalAmount := DefaultTotal;
      items := [];
    }

    /** Recomputes the total from the saved line items and returns it. */
    method CalculateTotal() returns (total: int)
      modifies this`totalAmount
      ensures totalAmount == total
      ensures total == SumSubtotals(items)
      ensures old(Valid()) ==> Valid() && totalAmount == old(totalAmount)
    {
      total := SumSubtotals(items);
      totalAmount := total;
    }

    /** The total of a consistent order is never negative. */
    lemma TotalNonNegative()
      requires Valid()
      ensures totalAmount >= 0
    {
      SumSubtotalsNonNegative(items);
    }
  }

  /** A quantity of one menu item within one order. `unitPrice` and
      `subtotal` are 0 until the line item is first saved. */
  class OrderItem {
    const order: Order
    const menuItem: MenuItem
    const quantity: nat
    const specialInstructions: string
    var unitPrice: int
    var subtotal: int

    /** The price snapshot satisfies the price validator and the subtotal is
        unit price times quantity. */
    ghost predicate Priced()
      reads this
    {
      unitPrice >= MinPrice && subtotal == unitPrice * quantity
    }

    lemma SubtotalNonNegative()
      requires Priced()
      ensures subtotal >= 0
      ensures quantity >= MinQuantity ==> subtotal >= unitPrice
    {
      if quantity >= MinQuantity {
        assert unitPrice * quantity == unitPrice + unitPrice * (quantity - 1);
      }
    }

    constructor (order: Order, menuItem: MenuItem, quantity: nat, specialInstructions: string)
      ensures this.order == order && this.menuItem == menuItem
      ensures this.quantity == quantity && this.specialInstructions == specialInstructions
      ensures unitPrice == 0 && subtotal == 0
    {
      this.order := order;
      this.menuItem := menuItem;
      this.quantity := quantity;
      this.specialInstructions := specialInstructions;
      unitPrice := 0;
      subtotal := 0;
    }

    /** Saving a line item: the menu item's current price is copied into
        `unitPrice` (on every save), the subtotal is recomputed, the row is
        inserted or updated, and the order's total is recomputed. Inserting a
        second line item for the same menu item violates the (order, menu
        item) uniqueness constraint: the save fails after the in-memory price
        and subtotal were already assigned, and the order is untouched. */
    method Save() returns (outcome: Outcome)
      requires order.Valid() && menuItem.Valid()
      modifies this`unitPrice, this`subtotal, order`items, order`totalAmount
      ensures unitPrice == menuItem.price && subtotal == unitPrice * quantity
      ensures outcome.Fail? <==> this !in old(order.items) && HasMenuItem(old(order.items), menuItem)
      ensures outcome.Fail? ==> outcome.error == DuplicateLineItem
      ensures outcome.Fail? ==> order.items == old(order.items) && order.totalAmount == old(order.totalAmount)
      ensures outcome.Pass? ==>
        order.items == if this in old(order.items) then old(order.items) else old(order.items) + [this]
      ensures outcome.Pass? ==> order.totalAmount == SumSubtotals(order.items)
      ensures order.Valid()
    {
      unitPrice := menuItem.price;
      subtotal := unitPrice * quantity;
      if this !in order.items {
        if HasMenuItem(order.items, menuItem) {
          return Fail(DuplicateLineItem);
        }
        order.items := order.items + [this];
      }
      var _ := order.CalculateTotal();
      outcome := Pass;
    }
  }

  /** Changing a menu item's price alters no saved line item: the price
      snapshots, the subtotals and the order's total stay as they were, and
      the order stays consistent. */
  method RepriceMenuItem(order: Order, m: MenuItem, p: int) returns (outcome: Outcome)
    requires order.Valid() && m.Valid()
    modifies m`price
    ensures outcome.Pass? <==> p >= MinPrice
    ensures m.price == if outcome.Pass? then p else old(m.price)
    ensures order.Valid()
    ensures order.items == old(order.items) && order.totalAmount == old(order.totalAmount)
    ensures forall i :: 0 <= i < |order.items| ==>
      order.items[i].unitPrice == old(order.items[i].unitPrice) &&
      order.items[i].subtotal == old(order.items[i].subtotal)
  {
    outcome := m.SetPrice(p);
  }
}
