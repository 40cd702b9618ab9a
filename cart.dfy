/**
 * src/resolvers/cartResolver.ts: a customer's pending cart lines, one per
 * food, each with its quantity and the price paid for that quantity.
 */
module Cart {
  import opened Wrappers
  import opened Schema
  import opened Jwt
  import Tables

  /** `calculatePrice`: the food's unit price times the quantity, or 0 when the food is gone. */
  function CalculatePrice(foods: seq<Food>, foodId: string, quantity: int): (p: int)
    ensures FindFood(foods, foodId).None? ==> p == 0
    ensures FindFood(foods, foodId).Some? ==> p == foods[FindFood(foods, foodId).value].price * quantity
  {
    match FindFood(foods, foodId)
    case None => 0
    case Some(i) => foods[i].price * quantity
  }

  /** Pricing two quantities separately costs the same as pricing their sum. */
  lemma CalculatePriceAdds(foods: seq<Food>, foodId: string, a: int, b: int)
    ensures CalculatePrice(foods, foodId, a) + CalculatePrice(foods, foodId, b) == CalculatePrice(foods, foodId, a + b)
  {
    if FindFood(foods, foodId).Some? {
      var price := foods[FindFood(foods, foodId).value].price;
      assert price * a + price * b == price * (a + b);
    }
  }

  // ---------------------------------------------------------------------------
  // Properties of a cart
  // ---------------------------------------------------------------------------

  /** This line's contribution to `customerId`'s quantity of `foodId`. */
  function LineQuantity(l: CartLine, customerId: string, foodId: string): int {
    if l.customerId == customerId && l.foodId == foodId then l.quantity else 0
  }

  /** How many of `foodId` the customer has in the cart, over all lines. */
  function CartQuantity(cart: seq<CartLine>, customerId: string, foodId: string): int {
    if cart == [] then 0 else LineQuantity(cart[0], customerId, foodId) + CartQuantity(cart[1..], customerId, foodId)
  }

  /** At most one line per customer and food. */
  ghost predicate UniqueLines(cart: seq<CartLine>) {
    forall i, j :: 0 <= i < j < |cart| ==>
      !(cart[i].customerId == cart[j].customerId && cart[i].foodId == cart[j].foodId)
  }

  /** Every line's total is its food's current price times its quantity. */
  ghost predicate Priced(cart: seq<CartLine>, foods: seq<Food>) {
    forall i :: 0 <= i < |cart| ==> cart[i].totalPrice == CalculatePrice(foods, cart[i].foodId, cart[i].quantity)
  }

  lemma {:induction false} CartQuantityAppend(a: seq<CartLine>, b: seq<CartLine>, customerId: string, foodId: string)
    ensures CartQuantity(a + b, customerId, foodId) == CartQuantity(a, customerId, foodId) + CartQuantity(b, customerId, foodId)
  {
    if a == [] {
      assert a + b == b;
    } else {
      assert (a + b)[1..] == a[1..] + b;
      CartQuantityAppend(a[1..], b, customerId, foodId);
    }
  }

  /** The customer has no line for the food. */
  ghost predicate NoLineFor(cart: seq<CartLine>, customerId: string, foodId: string) {
    forall j :: 0 <= j < |cart| ==> !(cart[j].customerId == customerId && cart[j].foodId == foodId)
  }

  lemma {:induction false} CartQuantityNoLine(cart: seq<CartLine>, customerId: string, foodId: string)
    requires NoLineFor(cart, customerId, foodId)
    ensures CartQuantity(cart, customerId, foodId) == 0
  {
    if cart != [] {
      CartQuantityNoLine(cart[1..], customerId, foodId);
    }
  }

  /** Replacing line `i` changes the quantity by exactly that line's change. */
  lemma CartQuantityReplace(cart: seq<CartLine>, i: nat, l: CartLine, customerId: string, foodId: string)
    requires i < |cart|
    ensures CartQuantity(cart[i := l], customerId, foodId)
      == CartQuantity(cart, customerId, foodId) - LineQuantity(cart[i], customerId, foodId) + LineQuantity(l, customerId, foodId)
  {
    assert cart == cart[..i] + [cart[i]] + cart[i + 1..];
    assert cart[i := l] == cart[..i] + [l] + cart[i + 1..];
    CartQuantityAppend(cart[..i] + [cart[i]], cart[i + 1..], customerId, foodId);
    CartQuantityAppend(cart[..i], [cart[i]], customerId, foodId);
    CartQuantityAppend(cart[..i] + [l], cart[i + 1..], customerId, foodId);
    CartQuantityAppend(cart[..i], [l], customerId, foodId);
  }

  // ---------------------------------------------------------------------------
  // addToCart
  // ---------------------------------------------------------------------------

  /**
   * The cart after a customer adds `quantity` of `foodId`: the first line
   * they have for that food grows by the quantity and its price, otherwise a
   * new line is appended.
   */
  function Upsert(cart: seq<CartLine>, foods: seq<Food>, customerId: string, foodId: string, quantity: int): seq<CartLine> {
    var price := CalculatePrice(foods, foodId, quantity);
    match FindCartLine(cart, customerId, foodId)
    case Some(i) => cart[i := cart[i].(quantity := cart[i].quantity + quantity, totalPrice := cart[i].totalPrice + price)]
    case None => cart + [CartLine(customerId, foodId, quantity, price)]
  }

  method AddToCart(st: Store, caller: Claims, foodId: string, quantity: int) returns (r: Result<bool>)
    modifies st`cart
    ensures caller.role == Restaurant ==> r == Err("make customer account to place order")
    ensures caller.role == Customer && FindFood(st.foods, foodId).None? ==> r == Err(RecordNotFound)
    ensures r.Ok? <==> caller.role == Customer && FindFood(st.foods, foodId).Some?
    ensures r.Err? ==> st.cart == old(st.cart)
    ensures r.Ok? ==> r == Ok(true) && st.cart == Upsert(old(st.cart), st.foods, caller.id, foodId, quantity)
  {
    if caller.role == Restaurant {
      return Err("make customer account to place order");
    }
    var customerId := caller.id;
    if FindFood(st.foods, foodId).None? {
      return Err(RecordNotFound);
    }
    var found := FindCartLine(st.cart, customerId, foodId);
    if found.Some? {
      var i := found.value;
      var line := st.cart[i];
      st.cart := st.cart[i := line.(quantity := line.quantity + quantity,
                                    totalPrice := line.totalPrice + CalculatePrice(st.foods, foodId, quantity))];
    } else {
      st.cart := st.cart + [CartLine(customerId, foodId, quantity, CalculatePrice(st.foods, foodId, quantity))];
    }
    r := Ok(true);
  }

  /** Adding accumulates: the customer's quantity of that food grows by `quantity`; no other quantity changes. */
  lemma AddToCartAccumulates(cart: seq<CartLine>, foods: seq<Food>, customerId: string, foodId: string, quantity: int,
                             c: string, f: string)
    ensures CartQuantity(Upsert(cart, foods, customerId, foodId, quantity), c, f)
      == CartQuantity(cart, c, f) + (if c == customerId && f == foodId then quantity else 0)
  {
    var price := CalculatePrice(foods, foodId, quantity);
    var found := FindCartLine(cart, customerId, foodId);
    if found.Some? {
      var i := found.value;
      GrownLineAccumulates(cart, i, quantity, price, c, f);
    } else {
      NewLineAccumulates(cart, CartLine(customerId, foodId, quantity, price), c, f);
    }
  }

  lemma GrownLineAccumulates(cart: seq<CartLine>, i: nat, quantity: int, price: int, c: string, f: string)
    requires i < |cart|
    ensures var l := cart[i];
      CartQuantity(cart[i := l.(quantity := l.quantity + quantity, totalPrice := l.totalPrice + price)], c, f)
        == CartQuantity(cart, c, f) + (if c == l.customerId && f == l.foodId then quantity else 0)
  {
    var l := cart[i];
    CartQuantityReplace(cart, i, l.(quantity := l.quantity + quantity, totalPrice := l.totalPrice + price), c, f);
  }

  lemma NewLineAccumulates(cart: seq<CartLine>, l: CartLine, c: string, f: string)
    ensures CartQuantity(cart + [l], c, f) == CartQuantity(cart, c, f) + LineQuantity(l, c, f)
  {
    CartQuantityAppend(cart, [l], c, f);
    assert [l][1..] == [];
  }

  /** Adding never creates a second line for the same customer and food. */
  lemma AddToCartKeepsLinesUnique(cart: seq<CartLine>, foods: seq<Food>, customerId: string, foodId: string, quantity: int)
    requires UniqueLines(cart)
    ensures UniqueLines(Upsert(cart, foods, customerId, foodId, quantity))
  {
  }

  /** Adding keeps every line's total equal to price times quantity. */
  lemma AddToCartKeepsPriced(cart: seq<CartLine>, foods: seq<Food>, customerId: string, foodId: string, quantity: int)
    requires Priced(cart, foods)
    ensures Priced(Upsert(cart, foods, customerId, foodId, quantity), foods)
  {
    match FindCartLine(cart, customerId, foodId)
    case Some(i) =>
      CalculatePriceAdds(foods, foodId, cart[i].quantity, quantity);
    case None =>
  }

  // ---------------------------------------------------------------------------
  // removeFromCart, fetchCart
  // ---------------------------------------------------------------------------

  method RemoveFromCart(st: Store, caller: Claims, foodId: string) returns (r: Result<bool>)
    modifies st`cart
    ensures r.Ok? <==> FindCartLine(old(st.cart), caller.id, foodId).Some?
    ensures r.Err? ==> r == Err("item not found in the cart") && st.cart == old(st.cart)
    ensures r.Ok? ==> (r == Ok(true) &&
      var i := FindCartLine(old(st.cart), caller.id, foodId).value;
      st.cart == old(st.cart)[..i] + old(st.cart)[i + 1..])
  {
    var found := FindCartLine(st.cart, caller.id, foodId);
    if found.None? {
      return Err("item not found in the cart");
    }
    var i := found.value;
    st.cart := st.cart[..i] + st.cart[i + 1..];
    r := Ok(true);
  }

  /**
   * With one line per customer and food, removing a line leaves the caller
   * none of that food, leaves every other quantity alone and keeps the lines
   * unique.
   */
  lemma RemoveFromCartEmptiesLine(cart: seq<CartLine>, customerId: string, foodId: string, c: string, f: string)
    requires UniqueLines(cart)
    requires FindCartLine(cart, customerId, foodId).Some?
    ensures var i := FindCartLine(cart, customerId, foodId).value;
      && UniqueLines(cart[..i] + cart[i + 1..])
      && CartQuantity(cart[..i] + cart[i + 1..], c, f)
         == if c == customerId && f == foodId then 0 else CartQuantity(cart, c, f)
  {
    var i := FindCartLine(cart, customerId, foodId).value;
    RemovalKeepsLinesUnique(cart, i);
    RemovalSubtractsLine(cart, i, c, f);
    if c == customerId && f == foodId {
      CartQuantityNoLine(cart[..i] + cart[i + 1..], c, f);
    }
  }

  lemma RemovalKeepsLinesUnique(cart: seq<CartLine>, i: nat)
    requires UniqueLines(cart) && i < |cart|
    ensures UniqueLines(cart[..i] + cart[i + 1..])
    ensures NoLineFor(cart[..i] + cart[i + 1..], cart[i].customerId, cart[i].foodId)
  {
    var rest := cart[..i] + cart[i + 1..];
    forall a | 0 <= a < |rest|
      ensures rest[a] == cart[if a < i then a else a + 1]
    {
    }
  }

  lemma RemovalSubtractsLine(cart: seq<CartLine>, i: nat, c: string, f: string)
    requires i < |cart|
    ensures CartQuantity(cart[..i] + cart[i + 1..], c, f) == CartQuantity(cart, c, f) - LineQuantity(cart[i], c, f)
  {
    assert cart == cart[..i] + [cart[i]] + cart[i + 1..];
    CartQuantityAppend(cart[..i] + [cart[i]], cart[i + 1..], c, f);
    NewLineAccumulates(cart[..i], cart[i], c, f);
    CartQuantityAppend(cart[..i], cart[i + 1..], c, f);
  }

  /** A line belongs to this customer. */
  predicate OwnedBy(l: CartLine, customerId: string) {
    l.customerId == customerId
  }

  /** The `where: { customerId }` condition as a value. */
  function Owns(customerId: string): CartLine -> bool {
    (l: CartLine) => OwnedBy(l, customerId)
  }

  /** `fetchCart`: the caller's lines, in table order, each as often as in the table. */
  function FetchCart(cart: seq<CartLine>, customerId: string): (r: seq<CartLine>)
    ensures forall i :: 0 <= i < |r| ==> r[i].customerId == customerId && r[i] in cart
    ensures forall i :: 0 <= i < |cart| && cart[i].customerId == customerId ==> cart[i] in r
    ensures forall x :: multiset(r)[x] == if x.customerId == customerId then multiset(cart)[x] else 0
  {
    Tables.Filter(cart, Owns(customerId))
  }
}
