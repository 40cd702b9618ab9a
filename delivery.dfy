/**
 * src/resolvers/deliveryResolver.ts: assigning a delivery person and moving
 * an order along. Neither mutation looks at the caller or at the order's
 * current status: any authenticated caller may set any order to any status.
 */
module Delivery {
  import opened Wrappers
  import opened Schema

  /** The row after `assignDeliveryPerson`. */
  function WithDeliveryPerson(o: Order, deliveryPerson: string): (u: Order)
    ensures u.deliveryPerson == Some(deliveryPerson) && u.status == Assigned
    ensures u.(deliveryPerson := o.deliveryPerson, status := o.status) == o
  {
    o.(deliveryPerson := Some(deliveryPerson), status := Assigned)
  }

  /**
   * The row after `updateDeliveryStatus`: a delivered order keeps the given
   * delivery time or, when none is given, gets the current time; any other
   * status clears the delivery time.
   */
  function WithDeliveryStatus(o: Order, status: OrderStatus, deliveryTime: Option<int>, now: int): (u: Order)
    ensures u.status == status
    ensures u.deliveryTime.Some? <==> status == Delivered
    ensures status == Delivered && deliveryTime.Some? ==> u.deliveryTime == deliveryTime
    ensures status == Delivered && deliveryTime.None? ==> u.deliveryTime == Some(now)
    ensures u.(status := o.status, deliveryTime := o.deliveryTime) == o
  {
    o.(status := status, deliveryTime := if status == Delivered then Some(deliveryTime.GetOr(now)) else None)
  }

  method AssignDeliveryPerson(st: Store, orderId: int, deliveryPerson: string) returns (r: Result<Order>)
    requires st.Valid()
    modifies st`orders
    ensures st.Valid()
    ensures r.Ok? <==> FindOrder(old(st.orders), orderId).Some?
    ensures r.Err? ==> r == Err(RecordNotFound) && st.orders == old(st.orders)
    ensures r.Ok? ==>
      var i := FindOrder(old(st.orders), orderId).value;
      && r.value == WithDeliveryPerson(old(st.orders)[i], deliveryPerson)
      && st.orders == old(st.orders)[i := r.value]
  {
    var found := FindOrder(st.orders, orderId);
    if found.None? {
      return Err(RecordNotFound);
    }
    var i := found.value;
    var order := st.orders[i].(deliveryPerson := Some(deliveryPerson), status := Assigned);
    OrderUpdateKeepsKeys(st.orders, st.nextOrderId, i, order);
    st.orders := st.orders[i := order];
    r := Ok(order);
  }

  method UpdateDeliveryStatus(st: Store, orderId: int, status: OrderStatus, deliveryTime: Option<int>, now: int)
    returns (r: Result<Order>)
    requires st.Valid()
    modifies st`orders
    ensures st.Valid()
    ensures r.Ok? <==> FindOrder(old(st.orders), orderId).Some?
    ensures r.Err? ==> r == Err(RecordNotFound) && st.orders == old(st.orders)
    ensures r.Ok? ==>
      var i := FindOrder(old(st.orders), orderId).value;
      && r.value == WithDeliveryStatus(old(st.orders)[i], status, deliveryTime, now)
      && st.orders == old(st.orders)[i := r.value]
  {
    var found := FindOrder(st.orders, orderId);
    if found.None? {
      return Err(RecordNotFound);
    }
    var i := found.value;
    var time: Option<int> := if status == Delivered then Some(deliveryTime.GetOr(now)) else None;
    var order := st.orders[i].(status := status, deliveryTime := time);
    OrderUpdateKeepsKeys(st.orders, st.nextOrderId, i, order);
    st.orders := st.orders[i := order];
    r := Ok(order);
  }
}
