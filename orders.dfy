/**
 * src/resolvers/orderResolver.ts: turning a customer's cart into an order,
 * listing orders and cancelling a pending order.
 */
module Orders {
  import opened Wrappers
  import opened Schema
  import opened Jwt
  import Tables
  import Sorting
  import Cart

  /** `getRestaurantIdFromFood`: the food's restaurant, or the empty string when the food is gone. */
  function GetRestaurantIdFromFood(foods: seq<Food>, foodId: string): (r: string)
    ensures FindFood(foods, foodId).Some? ==> r == foods[FindFood(foods, foodId).value].restaurantId
    ensures FindFood(foods, foodId).None? ==> r == ""
  {
    match FindFood(foods, foodId)
    case None => ""
    case Some(i) => foods[i].restaurantId
  }

  /** The `reduce` over the cart: the sum of the lines' totals. */
  function CartTotal(items: seq<CartLine>): int {
    if items == [] then 0 else CartTotal(items[..|items| - 1]) + items[|items| - 1].totalPrice
  }

  /** The total of a cart split in two is the sum of the two parts' totals. */
  lemma {:induction false} CartTotalAppend(a: seq<CartLine>, b: seq<CartLine>)
    ensures CartTotal(a + b) == CartTotal(a) + CartTotal(b)
  {
    if b == [] {
      assert a + b == a;
    } else {
      var ab := a + b;
      assert ab[..|ab| - 1] == a + b[..|b| - 1];
      assert ab[|ab| - 1] == b[|b| - 1];
      CartTotalAppend(a, b[..|b| - 1]);
    }
  }

  /** The quantity of `foodId` over all the lines. */
  function QuantityFor(items: seq<CartLine>, foodId: string): int {
    if items == [] then 0
    else
      var last := items[|items| - 1];
      QuantityFor(items[..|items| - 1], foodId) + (if last.foodId == foodId then last.quantity else 0)
  }

  /** Every line's food still exists, so every `food.update` of `placeOrder` succeeds. */
  predicate AllFoodsExist(foods: seq<Food>, items: seq<CartLine>) {
    forall i :: 0 <= i < |items| ==> FindFood(foods, items[i].foodId).Some?
  }

  /** Some `food.update` of the lines, taken in order, finds no food. */
  predicate AnyFoodMissing(foods: seq<Food>, items: seq<CartLine>) {
    items != [] && (AnyFoodMissing(foods, items[..|items| - 1]) || FindFood(foods, items[|items| - 1].foodId).None?)
  }

  lemma {:induction false} AnyFoodMissingMeans(foods: seq<Food>, items: seq<CartLine>)
    ensures AnyFoodMissing(foods, items) <==> !AllFoodsExist(foods, items)
  {
    if items != [] {
      var init := items[..|items| - 1];
      AnyFoodMissingMeans(foods, init);
      assert forall i :: 0 <= i < |init| ==> init[i] == items[i];
    }
  }

  // ---------------------------------------------------------------------------
  // The order counters
  // ---------------------------------------------------------------------------

  /** One `food.update({ orderCount: { increment } })`; a missing food is left as it is. */
  function BumpOne(foods: seq<Food>, item: CartLine): (r: seq<Food>)
    ensures SameFoodIds(foods, r)
    ensures forall j :: 0 <= j < |r| ==> r[j] == foods[j].(orderCount := r[j].orderCount)
  {
    match FindFood(foods, item.foodId)
    case None => foods
    case Some(k) => foods[k := foods[k].(orderCount := foods[k].orderCount + item.quantity)]
  }

  /** The food table after the increments for all the lines, in line order. */
  function BumpOrderCounts(foods: seq<Food>, items: seq<CartLine>): (r: seq<Food>)
    ensures SameFoodIds(foods, r)
  {
    if items == [] then foods
    else BumpOne(BumpOrderCounts(foods, items[..|items| - 1]), items[|items| - 1])
  }

  /** The increments change nothing but order counts. */
  lemma {:induction false} BumpOrderCountsTouchesOnlyCounts(foods: seq<Food>, items: seq<CartLine>, j: nat)
    requires j < |foods|
    ensures BumpOrderCounts(foods, items)[j] == foods[j].(orderCount := BumpOrderCounts(foods, items)[j].orderCount)
  {
    if items != [] {
      BumpOrderCountsTouchesOnlyCounts(foods, items[..|items| - 1], j);
    }
  }

  /**
   * With unique food ids, each food's order count grows by exactly the
   * quantity of that food over all the lines.
   */
  lemma {:induction false} BumpOrderCountsAdds(foods: seq<Food>, items: seq<CartLine>, j: nat)
    requires FoodsKeyed(foods) && j < |foods|
    ensures BumpOrderCounts(foods, items)[j].orderCount == foods[j].orderCount + QuantityFor(items, foods[j].id)
  {
    if items != [] {
      var init := items[..|items| - 1];
      var last := items[|items| - 1];
      var prev := BumpOrderCounts(foods, init);
      BumpOrderCountsAdds(foods, init, j);
      SameFoodIdsKeyed(foods, prev);
      assert prev[j].id == foods[j].id;
      if last.foodId == foods[j].id {
        FoundFoodIsUnique(prev, last.foodId, j);
      } else {
        var found := FindFood(prev, last.foodId);
        assert found.Some? ==> found.value != j;
      }
    }
  }

  // ---------------------------------------------------------------------------
  // placeOrder
  // ---------------------------------------------------------------------------

  /** The lines `deleteMany({ where: { customerId } })` keeps, as a condition. */
  function Others(customerId: string): CartLine -> bool {
    (l: CartLine) => !Cart.OwnedBy(l, customerId)
  }

  /** `deleteMany({ where: { customerId } })`: the lines of every other customer, each as often as before. */
  function DrainCart(cart: seq<CartLine>, customerId: string): (r: seq<CartLine>)
    ensures forall i :: 0 <= i < |r| ==> r[i].customerId != customerId && r[i] in cart
    ensures forall i :: 0 <= i < |cart| && cart[i].customerId != customerId ==> cart[i] in r
    ensures forall x :: multiset(r)[x] == if x.customerId != customerId then multiset(cart)[x] else 0
  {
    Tables.Filter(cart, Others(customerId))
  }

  /** Draining one customer's cart empties it and leaves every other customer's cart exactly as it was. */
  lemma DrainCartKeepsOtherCarts(cart: seq<CartLine>, customerId: string, other: string)
    ensures Cart.FetchCart(DrainCart(cart, customerId), customerId) == []
    ensures other != customerId ==> Cart.FetchCart(DrainCart(cart, customerId), other) == Cart.FetchCart(cart, other)
  {
    if other != customerId {
      Tables.FilterNarrowed(cart, Others(customerId), Cart.Owns(other));
    }
  }

  /** One more line: one more increment, and one more food that may be missing. */
  lemma IncrementStep(foods: seq<Food>, items: seq<CartLine>, k: nat)
    requires k < |items|
    ensures BumpOrderCounts(foods, items[..k + 1]) == BumpOne(BumpOrderCounts(foods, items[..k]), items[k])
    ensures AnyFoodMissing(foods, items[..k + 1])
      == (AnyFoodMissing(foods, items[..k]) || FindFood(BumpOrderCounts(foods, items[..k]), items[k].foodId).None?)
  {
    var prefix := items[..k + 1];
    assert prefix[..k] == items[..k] && prefix[k] == items[k];
    SameFoodIdsLookup(foods, BumpOrderCounts(foods, items[..k]), items[k].foodId);
  }

  /** An order numbered with the next autoincrement value keeps the order ids unique. */
  lemma NewOrderKeepsKeys(orders: seq<Order>, nextOrderId: int, o: Order)
    requires OrdersKeyed(orders, nextOrderId) && o.id == nextOrderId
    ensures OrdersKeyed(orders + [o], nextOrderId + 1)
  {
  }

  /**
   * The `Promise.all` of `food.update` calls: every increment is issued, in
   * line order, and the call fails afterwards when some food was missing.
   */
  method IncrementOrderCounts(st: Store, items: seq<CartLine>) returns (missing: bool)
    modifies st`foods
    ensures st.foods == BumpOrderCounts(old(st.foods), items)
    ensures missing == AnyFoodMissing(old(st.foods), items)
  {
    var original := st.foods;
    var foods := original;
    missing := false;
    var k := 0;
    assert items[..k] == [];
    while k < |items|
      invariant 0 <= k <= |items|
      invariant foods == BumpOrderCounts(original, items[..k])
      invariant missing == AnyFoodMissing(original, items[..k])
    {
      IncrementStep(original, items, k);
      // `food.update` by id rejects (P2025) when the food is gone.
      if FindFood(foods, items[k].foodId).None? {
        missing := true;
      }
      foods := BumpOne(foods, items[k]);
      k := k + 1;
    }
    assert items[..k] == items;
    st.foods := foods;
  }

  /**
   * `order.create` followed by `orderItemCart.deleteMany`: the pending order
   * takes the next id and the lines' snapshot, and the caller's lines go.
   */
  method CreateOrder(st: Store, caller: Claims, deliveryAddress: string, items: seq<CartLine>, totalPrice: int, now: int)
    returns (order: Order)
    requires items != []
    requires OrdersKeyed(st.orders, st.nextOrderId)
    modifies st`orders, st`nextOrderId, st`cart
    ensures OrdersKeyed(st.orders, st.nextOrderId)
    ensures order == Order(old(st.nextOrderId), caller.id, GetRestaurantIdFromFood(st.foods, items[0].foodId),
                           deliveryAddress, totalPrice, Pending, None, None, false, items, now)
    ensures st.orders == old(st.orders) + [order] && st.nextOrderId == old(st.nextOrderId) + 1
    ensures st.cart == DrainCart(old(st.cart), caller.id)
  {
    order := Order(st.nextOrderId, caller.id, GetRestaurantIdFromFood(st.foods, items[0].foodId),
                   deliveryAddress, totalPrice, Pending, None, None, false, items, now);
    NewOrderKeepsKeys(st.orders, st.nextOrderId, order);
    st.orders := st.orders + [order];
    st.nextOrderId := st.nextOrderId + 1;
    st.cart := DrainCart(st.cart, caller.id);
  }

  /**
   * The part of `placeOrder` after its checks: sum the lines, bump the
   * counters, then record the order and drain the cart unless a food was
   * missing.
   */
  method Checkout(st: Store, caller: Claims, deliveryAddress: string, items: seq<CartLine>, now: int)
    returns (r: Result<Order>)
    requires items != []
    requires st.Valid()
    modifies st`foods, st`orders, st`nextOrderId, st`cart
    ensures st.Valid()
    ensures st.foods == BumpOrderCounts(old(st.foods), items)
    ensures r.Ok? <==> !AnyFoodMissing(old(st.foods), items)
    ensures r.Err? ==> r == Err(RecordNotFound)
    ensures r.Err? ==> st.orders == old(st.orders) && st.nextOrderId == old(st.nextOrderId) && st.cart == old(st.cart)
    ensures r.Ok? ==>
      && r.value == Order(old(st.nextOrderId), caller.id, GetRestaurantIdFromFood(st.foods, items[0].foodId),
                          deliveryAddress, CartTotal(items), Pending, None, None, false, items, now)
      && st.orders == old(st.orders) + [r.value]
      && st.nextOrderId == old(st.nextOrderId) + 1
      && st.cart == DrainCart(old(st.cart), caller.id)
  {
    var totalPrice := CartTotal(items);
    ghost var users := st.users;
    var missing := IncrementOrderCounts(st, items);
    assert st.users == users;
    SameFoodIdsKeyed(old(st.foods), st.foods);
    if missing {
      return Err(RecordNotFound);
    }
    var order := CreateOrder(st, caller, deliveryAddress, items, totalPrice, now);
    assert st.users == users;
    r := Ok(order);
  }

  method PlaceOrder(st: Store, caller: Claims, deliveryAddress: string, now: int) returns (r: Result<Order>)
    requires st.Valid()
    modifies st`foods, st`orders, st`nextOrderId, st`cart
    ensures st.Valid()
    ensures deliveryAddress == "" ==> r == Err("Delivery address is required")
    ensures deliveryAddress != "" && Cart.FetchCart(old(st.cart), caller.id) == [] ==> r == Err("Cart is empty.")
    ensures deliveryAddress == "" || Cart.FetchCart(old(st.cart), caller.id) == [] ==> st.foods == old(st.foods)
    ensures deliveryAddress != "" && Cart.FetchCart(old(st.cart), caller.id) != [] ==>
      st.foods == BumpOrderCounts(old(st.foods), Cart.FetchCart(old(st.cart), caller.id))
    ensures r.Ok? <==> (deliveryAddress != "" && Cart.FetchCart(old(st.cart), caller.id) != []
                        && !AnyFoodMissing(old(st.foods), Cart.FetchCart(old(st.cart), caller.id)))
    ensures (deliveryAddress != "" && Cart.FetchCart(old(st.cart), caller.id) != []
             && AnyFoodMissing(old(st.foods), Cart.FetchCart(old(st.cart), caller.id))) ==> r == Err(RecordNotFound)
    ensures r.Err? ==> st.orders == old(st.orders) && st.nextOrderId == old(st.nextOrderId) && st.cart == old(st.cart)
    ensures r.Ok? ==>
      var items := Cart.FetchCart(old(st.cart), caller.id);
      && r.value == Order(old(st.nextOrderId), caller.id, GetRestaurantIdFromFood(st.foods, items[0].foodId),
                          deliveryAddress, CartTotal(items), Pending, None, None, false, items, now)
      && st.orders == old(st.orders) + [r.value]
      && st.nextOrderId == old(st.nextOrderId) + 1
      && st.cart == DrainCart(old(st.cart), caller.id)
  {
    if deliveryAddress == "" {
      return Err("Delivery address is required");
    }
    var items := Cart.FetchCart(st.cart, caller.id);
    if |items| == 0 {
      return Err("Cart is empty.");
    }
    r := Checkout(st, caller, deliveryAddress, items, now);
  }

  // ---------------------------------------------------------------------------
  // fetchOrders
  // ---------------------------------------------------------------------------

  /** The caller is the order's customer or its restaurant. */
  predicate Involves(o: Order, userId: string) {
    o.customerId == userId || o.restaurantId == userId
  }

  /** The `where` of `fetchOrders` as written: a status filter replaces the ownership filter. */
  predicate FetchOrdersWhere(o: Order, userId: string, status: Option<OrderStatus>) {
    match status
    case Some(s) => o.status == s
    case None => Involves(o, userId)
  }

  function CreatedAt(o: Order): int {
    o.createdAt
  }

  /** `fetchOrders`, newest first. */
  function FetchOrders(orders: seq<Order>, userId: string, status: Option<OrderStatus>): (r: seq<Order>)
    ensures forall i :: 0 <= i < |r| ==> r[i] in orders && FetchOrdersWhere(r[i], userId, status)
    ensures forall i :: 0 <= i < |orders| && FetchOrdersWhere(orders[i], userId, status) ==> orders[i] in r
    ensures forall x :: multiset(r)[x] == if FetchOrdersWhere(x, userId, status) then multiset(orders)[x] else 0
    ensures forall i, j :: 0 <= i < j < |r| ==> r[i].createdAt >= r[j].createdAt
  {
    var selected := Tables.Filter(orders, (o: Order) => FetchOrdersWhere(o, userId, status));
    var r := Sorting.SortDesc(selected, CreatedAt);
    Sorting.SortDescMembers(selected, CreatedAt);
    r
  }

  /** With a status, another customer's order reaches a caller who is neither its customer nor its restaurant. */
  lemma FetchOrdersLeaksOtherUsersOrders()
    ensures var o := Order(1, "alice", "pizzeria", "1 Main St", 500, Pending, None, None, false, [], 0);
      o in FetchOrders([o], "bob", Some(Pending)) && !Involves(o, "bob")
  {
    var o := Order(1, "alice", "pizzeria", "1 Main St", 500, Pending, None, None, false, [], 0);
    assert FetchOrdersWhere([o][0], "bob", Some(Pending));
  }

  /** The evidently intended `where`: the ownership filter, narrowed by the status when one is given. */
  predicate FetchOwnOrdersWhere(o: Order, userId: string, status: Option<OrderStatus>) {
    Involves(o, userId) && (status.None? || o.status == status.value)
  }

  /** `fetchOrders` as intended: only orders the caller is party to, newest first. */
  function FetchOwnOrders(orders: seq<Order>, userId: string, status: Option<OrderStatus>): (r: seq<Order>)
    ensures forall i :: 0 <= i < |r| ==> r[i] in orders && Involves(r[i], userId)
    ensures forall i :: 0 <= i < |r| ==> status.Some? ==> r[i].status == status.value
    ensures forall i :: 0 <= i < |orders| && FetchOwnOrdersWhere(orders[i], userId, status) ==> orders[i] in r
    ensures forall x :: multiset(r)[x] == if FetchOwnOrdersWhere(x, userId, status) then multiset(orders)[x] else 0
    ensures forall i, j :: 0 <= i < j < |r| ==> r[i].createdAt >= r[j].createdAt
  {
    var selected := Tables.Filter(orders, (o: Order) => FetchOwnOrdersWhere(o, userId, status));
    var r := Sorting.SortDesc(selected, CreatedAt);
    Sorting.SortDescMembers(selected, CreatedAt);
    r
  }

  // ---------------------------------------------------------------------------
  // cancelOrder
  // ---------------------------------------------------------------------------

  method CancelOrder(st: Store, caller: Claims, orderId: int) returns (r: Result<bool>)
    requires st.Valid()
    modifies st`orders
    ensures st.Valid()
    ensures FindOrder(old(st.orders), orderId).None? ==> r == Err(RecordNotFound)
    ensures FindOrder(old(st.orders), orderId).Some? ==>
      var o := old(st.orders)[FindOrder(old(st.orders), orderId).value];
      && (o.customerId != caller.id ==> r == Err("You are not authorized to cancel this order"))
      && (o.customerId == caller.id && o.status == Delivered ==> r == Err("Order has been already delivered"))
      && (o.customerId == caller.id && o.status == Canceled ==> r == Err("Order has been canceled already"))
      && (o.customerId == caller.id && o.status in {Assigned, OutForDelivery} ==>
            r == Err("Order is being prepared you cannot cancel it now"))
      && (r.Ok? <==> o.customerId == caller.id && o.status == Pending)
    ensures r.Err? ==> st.orders == old(st.orders)
    ensures r.Ok? ==> (r == Ok(true) &&
      var i := FindOrder(old(st.orders), orderId).value;
      st.orders == old(st.orders)[i := old(st.orders)[i].(status := Canceled)])
  {
    var found := FindOrder(st.orders, orderId);
    if found.None? {
      return Err(RecordNotFound);
    }
    var i := found.value;
    var order := st.orders[i];
    if order.customerId != caller.id {
      return Err("You are not authorized to cancel this order");
    }
    if order.status == Delivered {
      return Err("Order has been already delivered");
    }
    if order.status == Canceled {
      return Err("Order has been canceled already");
    }
    if order.status != Pending {
      return Err("Order is being prepared you cannot cancel it now");
    }
    var canceled := order.(status := Canceled);
    OrderUpdateKeepsKeys(st.orders, st.nextOrderId, i, canceled);
    st.orders := st.orders[i := canceled];
    r := Ok(true);
  }
}
