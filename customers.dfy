/**
 * src/resolvers/customerResolver.ts: a customer's saved addresses, reviews
 * of the foods of one of their orders (whatever its status), and profile
 * updates.
 */
module Customers {
  import opened Wrappers
  import opened Schema
  import opened Jwt
  import Tables

  // ---------------------------------------------------------------------------
  // Addresses
  // ---------------------------------------------------------------------------

  /** `getCustomerAddress`: the caller's address list; no customer row is Prisma's not-found error. */
  function GetCustomerAddress(customers: map<string, CustomerProfile>, caller: Claims): (r: Result<seq<Address>>)
    ensures r.Ok? <==> caller.id in customers
    ensures r.Err? ==> r.message == RecordNotFound
    ensures r.Ok? ==> r.value == customers[caller.id].address
  {
    if caller.id in customers then Ok(customers[caller.id].address) else Err(RecordNotFound)
  }

  method AddCustomerAddress(st: Store, caller: Claims, name: string, address: string, freshId: string)
    returns (r: Result<seq<Address>>)
    modifies st`customers
    ensures r.Ok? <==> caller.id in old(st.customers)
    ensures r.Err? ==> r == Err("Customer not found") && st.customers == old(st.customers)
    ensures r.Ok? ==>
      && r.value == old(st.customers)[caller.id].address + [Address(freshId, name, address)]
      && st.customers == old(st.customers)[caller.id := old(st.customers)[caller.id].(address := r.value)]
  {
    if caller.id !in st.customers {
      return Err("Customer not found");
    }
    var newAddress := Address(freshId, name, address);
    var profile := st.customers[caller.id];
    var addresses := profile.address + [newAddress];
    st.customers := st.customers[caller.id := profile.(address := addresses)];
    r := Ok(addresses);
  }

  /** The condition `(addr) => addr.id !== addressId` as a value. */
  function OtherAddress(addressId: string): Address -> bool {
    (a: Address) => a.id != addressId
  }

  /**
   * `addresses.filter((addr) => addr.id !== addressId)`: the addresses with
   * another id, in their order, each as often as before.
   */
  function WithoutAddress(addresses: seq<Address>, addressId: string): (r: seq<Address>)
    ensures |r| <= |addresses|
    ensures forall i :: 0 <= i < |r| ==> r[i].id != addressId && r[i] in addresses
    ensures forall i :: 0 <= i < |addresses| && addresses[i].id != addressId ==> addresses[i] in r
    ensures forall x :: multiset(r)[x] == if x.id != addressId then multiset(addresses)[x] else 0
  {
    Tables.Filter(addresses, OtherAddress(addressId))
  }

  /** Deleting from a concatenation deletes from each part and keeps the parts' order. */
  lemma WithoutAddressAppend(a: seq<Address>, b: seq<Address>, addressId: string)
    ensures WithoutAddress(a + b, addressId) == WithoutAddress(a, addressId) + WithoutAddress(b, addressId)
  {
    Tables.FilterAppend(a, b, OtherAddress(addressId));
  }

  /** Deleting an address just added under a fresh id restores the list. */
  lemma AddThenDeleteAddress(addresses: seq<Address>, freshId: string, name: string, address: string)
    requires forall i :: 0 <= i < |addresses| ==> addresses[i].id != freshId
    ensures WithoutAddress(addresses + [Address(freshId, name, address)], freshId) == addresses
  {
    WithoutAddressAppend(addresses, [Address(freshId, name, address)], freshId);
    Tables.FilterKeepsAll(addresses, OtherAddress(freshId));
    assert WithoutAddress([Address(freshId, name, address)], freshId) == [];
  }

  predicate HasAddress(addresses: seq<Address>, addressId: string) {
    exists i :: 0 <= i < |addresses| && addresses[i].id == addressId
  }

  method DeleteCustomerAddress(st: Store, caller: Claims, addressId: string) returns (r: Result<bool>)
    modifies st`customers
    ensures caller.id !in old(st.customers) ==> r == Err(RecordNotFound)
    ensures caller.id in old(st.customers) && !HasAddress(old(st.customers)[caller.id].address, addressId) ==>
      r == Err("Address not found")
    ensures r.Ok? <==> caller.id in old(st.customers) && HasAddress(old(st.customers)[caller.id].address, addressId)
    ensures r.Err? ==> st.customers == old(st.customers)
    ensures r.Ok? ==> (r == Ok(true) &&
      var profile := old(st.customers)[caller.id];
      st.customers == old(st.customers)[caller.id := profile.(address := WithoutAddress(profile.address, addressId))])
  {
    if caller.id !in st.customers {
      return Err(RecordNotFound);
    }
    var profile := st.customers[caller.id];
    var addresses := profile.address;
    if !HasAddress(addresses, addressId) {
      return Err("Address not found");
    }
    var updatedAddresses := WithoutAddress(addresses, addressId);
    st.customers := st.customers[caller.id := profile.(address := updatedAddresses)];
    r := Ok(true);
  }

  // ---------------------------------------------------------------------------
  // Ratings
  // ---------------------------------------------------------------------------

  /** `Math.max(1, Math.min(rating, 5))`. */
  function ClampRating(rating: int): (c: int)
    ensures 1 <= c <= 5
    ensures 1 <= rating <= 5 ==> c == rating
    ensures rating < 1 ==> c == 1
    ensures rating > 5 ==> c == 5
  {
    if rating > 5 then 5 else if rating < 1 then 1 else rating
  }

  /** `num / den` rounded to the nearest integer, halves away from zero, as `toFixed` does. */
  function RoundedQuotient(num: int, den: int): int
    requires den > 0
  {
    if num >= 0 then (2 * num + den) / (2 * den) else -((2 * -num + den) / (2 * den))
  }

  /**
   * The new average in tenths of a star: `(average * count + rating) / (count + 1)`
   * rounded to one decimal, with `average` given in tenths.
   */
  function NewAverageTenths(averageTenths: int, count: nat, rating: int): int {
    RoundedQuotient(averageTenths * count + 10 * rating, count + 1)
  }

  /** An average of 4.0 over three ratings and a new 5 give 4.3 (4.25 rounded up). */
  lemma NewAverageExample()
    ensures NewAverageTenths(40, 3, 5) == 43
  {
  }

  lemma PositiveFactor(x: int, d: int)
    requires d > 0 && x * d > 0
    ensures x > 0
  {
  }

  lemma QuotientAtLeast(n: int, d: int, k: int)
    requires d > 0 && k * d <= n
    ensures k <= n / d
  {
    var q, m := n / d, n % d;
    assert n == q * d + m && 0 <= m < d;
    assert (q - k + 1) * d == q * d - k * d + d;
    PositiveFactor(q - k + 1, d);
  }

  lemma QuotientAtMost(n: int, d: int, k: int)
    requires d > 0 && n < (k + 1) * d
    ensures n / d <= k
  {
    var q, m := n / d, n % d;
    assert n == q * d + m && 0 <= m < d;
    assert (k + 1 - q) * d == (k + 1) * d - q * d;
    PositiveFactor(k + 1 - q, d);
  }

  /** A rounded quotient of a value between `lo * den` and `hi * den` lies between `lo` and `hi`. */
  lemma RoundedQuotientBetween(num: int, den: int, lo: int, hi: int)
    requires den > 0 && 0 <= lo && lo * den <= num <= hi * den
    ensures lo <= RoundedQuotient(num, den) <= hi
  {
    assert num >= 0;
    QuotientAtLeast(2 * num + den, 2 * den, lo);
    QuotientAtMost(2 * num + den, 2 * den, hi);
  }

  lemma MulMonotone(a: int, b: int, c: nat)
    requires a <= b
    ensures a * c <= b * c
  {
    assert b * c - a * c == (b - a) * c;
  }

  /**
   * The new average lies between the old average and the new rating: ratings
   * stay within the 1 to 5 star range once they start there.
   */
  lemma NewAverageBetween(averageTenths: int, count: nat, rating: int)
    requires 0 <= averageTenths && 0 <= rating
    ensures var lo := if averageTenths <= 10 * rating then averageTenths else 10 * rating;
      var hi := if averageTenths <= 10 * rating then 10 * rating else averageTenths;
      lo <= NewAverageTenths(averageTenths, count, rating) <= hi
  {
    var lo := if averageTenths <= 10 * rating then averageTenths else 10 * rating;
    var hi := if averageTenths <= 10 * rating then 10 * rating else averageTenths;
    var num := averageTenths * count + 10 * rating;
    MulMonotone(lo, averageTenths, count);
    MulMonotone(averageTenths, hi, count);
    assert lo * (count + 1) == lo * count + lo;
    assert hi * (count + 1) == hi * count + hi;
    RoundedQuotientBetween(num, count + 1, lo, hi);
  }

  /** The first rating of a food becomes its average. */
  lemma FirstRatingIsAverage(averageTenths: int, rating: int)
    requires 1 <= rating <= 5
    ensures NewAverageTenths(averageTenths, 0, rating) == 10 * rating
  {
  }

  // ---------------------------------------------------------------------------
  // addReview
  // ---------------------------------------------------------------------------

  /** One entry of the `reviews` argument. */
  datatype ReviewInput = ReviewInput(foodId: string, rating: int, comment: Option<string>)

  /** The food row after one more (clamped) rating. */
  function Rated(f: Food, rating: int): Food {
    f.(averageRating := NewAverageTenths(f.averageRating, f.totalRatingsCount, rating),
       totalRatingsCount := f.totalRatingsCount + 1)
  }

  /** The `food.update` of one entry; an entry whose food is gone changes nothing. */
  function RateOne(foods: seq<Food>, item: ReviewInput): (r: seq<Food>)
    ensures SameFoodIds(foods, r)
    ensures forall j :: 0 <= j < |r| ==>
      r[j] == foods[j].(averageRating := r[j].averageRating, totalRatingsCount := r[j].totalRatingsCount)
    ensures FindFood(foods, item.foodId).None? ==> r == foods
    ensures FindFood(foods, item.foodId).Some? ==>
      var k := FindFood(foods, item.foodId).value;
      && r[k].totalRatingsCount == foods[k].totalRatingsCount + 1
      && r[k].averageRating == NewAverageTenths(foods[k].averageRating, foods[k].totalRatingsCount, ClampRating(item.rating))
      && (forall j :: 0 <= j < |r| && j != k ==> r[j] == foods[j])
  {
    match FindFood(foods, item.foodId)
    case None => foods
    case Some(k) => foods[k := Rated(foods[k], ClampRating(item.rating))]
  }

  /** The food table after all the entries, in entry order. */
  function RateAll(foods: seq<Food>, items: seq<ReviewInput>): (r: seq<Food>)
    ensures SameFoodIds(foods, r)
  {
    if items == [] then foods
    else RateOne(RateAll(foods, items[..|items| - 1]), items[|items| - 1])
  }

  /** Every entry names a food that exists. */
  predicate AllReviewedFoodsExist(foods: seq<Food>, items: seq<ReviewInput>) {
    forall i :: 0 <= i < |items| ==> FindFood(foods, items[i].foodId).Some?
  }

  /** The review rows created: one per entry whose food exists, with the clamped rating. */
  function ReviewRows(foods: seq<Food>, items: seq<ReviewInput>, customerId: string): (r: seq<Review>)
    ensures |r| <= |items|
    ensures forall i :: 0 <= i < |r| ==> 1 <= r[i].rating <= 5 && r[i].customerId == customerId
    ensures AllReviewedFoodsExist(foods, items) ==>
      && |r| == |items|
      && forall i :: 0 <= i < |r| ==>
           r[i] == Review(items[i].foodId, customerId, ClampRating(items[i].rating), items[i].comment)
  {
    if items == [] then []
    else
      var last := items[|items| - 1];
      var rows := ReviewRows(foods, items[..|items| - 1], customerId);
      if FindFood(foods, last.foodId).Some?
      then rows + [Review(last.foodId, customerId, ClampRating(last.rating), last.comment)]
      else rows
  }

  /** Some entry, taken in order, names a food that does not exist. */
  predicate AnyReviewedFoodMissing(foods: seq<Food>, items: seq<ReviewInput>) {
    items != [] && (AnyReviewedFoodMissing(foods, items[..|items| - 1]) || FindFood(foods, items[|items| - 1].foodId).None?)
  }

  /** How many entries rate `foodId`. */
  function RatingsFor(items: seq<ReviewInput>, foodId: string): nat {
    if items == [] then 0
    else RatingsFor(items[..|items| - 1], foodId) + (if items[|items| - 1].foodId == foodId then 1 else 0)
  }

  /** With unique food ids, each food's rating count grows by the number of entries for it. */
  lemma {:induction false} RateAllCounts(foods: seq<Food>, items: seq<ReviewInput>, j: nat)
    requires FoodsKeyed(foods) && j < |foods|
    ensures RateAll(foods, items)[j].totalRatingsCount == foods[j].totalRatingsCount + RatingsFor(items, foods[j].id)
  {
    if items != [] {
      var init := items[..|items| - 1];
      var last := items[|items| - 1];
      var prev := RateAll(foods, init);
      RateAllCounts(foods, init, j);
      SameFoodIdsKeyed(foods, prev);
      if last.foodId == foods[j].id {
        FoundFoodIsUnique(prev, last.foodId, j);
      } else {
        var found := FindFood(prev, last.foodId);
        assert found.Some? ==> found.value != j;
      }
    }
  }

  /** Every average between 0 and 5 stars stays there, whatever the entries. */
  ghost predicate AveragesInRange(foods: seq<Food>) {
    forall j :: 0 <= j < |foods| ==> 0 <= foods[j].averageRating <= 50
  }

  lemma {:induction false} RateAllKeepsAveragesInRange(foods: seq<Food>, items: seq<ReviewInput>)
    requires AveragesInRange(foods)
    ensures AveragesInRange(RateAll(foods, items))
  {
    if items != [] {
      var prev := RateAll(foods, items[..|items| - 1]);
      var last := items[|items| - 1];
      RateAllKeepsAveragesInRange(foods, items[..|items| - 1]);
      match FindFood(prev, last.foodId)
      case None =>
      case Some(k) =>
        NewAverageBetween(prev[k].averageRating, prev[k].totalRatingsCount, ClampRating(last.rating));
    }
  }

  /** One more entry: one more food update, one more possible row, one more possibly missing food. */
  lemma ReviewStep(foods: seq<Food>, items: seq<ReviewInput>, customerId: string, k: nat)
    requires k < |items|
    ensures RateAll(foods, items[..k + 1]) == RateOne(RateAll(foods, items[..k]), items[k])
    ensures AnyReviewedFoodMissing(foods, items[..k + 1])
      == (AnyReviewedFoodMissing(foods, items[..k]) || FindFood(RateAll(foods, items[..k]), items[k].foodId).None?)
    ensures FindFood(RateAll(foods, items[..k]), items[k].foodId).Some? ==>
      ReviewRows(foods, items[..k + 1], customerId) == ReviewRows(foods, items[..k], customerId)
        + [Review(items[k].foodId, customerId, ClampRating(items[k].rating), items[k].comment)]
    ensures FindFood(RateAll(foods, items[..k]), items[k].foodId).None? ==>
      ReviewRows(foods, items[..k + 1], customerId) == ReviewRows(foods, items[..k], customerId)
  {
    var prefix := items[..k + 1];
    assert prefix[..k] == items[..k] && prefix[k] == items[k];
    SameFoodIdsLookup(foods, RateAll(foods, items[..k]), items[k].foodId);
  }

  lemma AppendOne<T>(a: seq<T>, b: seq<T>, x: T)
    ensures (a + b) + [x] == a + (b + [x])
  {
  }

  /**
   * The `Promise.all` over the entries: each entry whose food exists creates
   * its review row and updates its food; the call fails afterwards when some
   * food was missing.
   */
  method ApplyReviews(st: Store, customerId: string, items: seq<ReviewInput>) returns (missing: bool)
    modifies st`foods, st`reviews
    ensures st.foods == RateAll(old(st.foods), items)
    ensures st.reviews == old(st.reviews) + ReviewRows(old(st.foods), items, customerId)
    ensures missing == AnyReviewedFoodMissing(old(st.foods), items)
  {
    var original := st.foods;
    var foods := original;
    var reviews := st.reviews;
    ghost var rows: seq<Review> := [];
    missing := false;
    var k := 0;
    assert items[..k] == [];
    while k < |items|
      invariant 0 <= k <= |items|
      invariant foods == RateAll(original, items[..k])
      invariant rows == ReviewRows(original, items[..k], customerId)
      invariant reviews == old(st.reviews) + rows
      invariant missing == AnyReviewedFoodMissing(original, items[..k])
    {
      ReviewStep(original, items, customerId, k);
      var item := items[k];
      if FindFood(foods, item.foodId).None? {
        // `findUniqueOrThrow` rejects: this entry writes nothing.
        missing := true;
      } else {
        var row := Review(item.foodId, customerId, ClampRating(item.rating), item.comment);
        AppendOne(old(st.reviews), rows, row);
        reviews := reviews + [row];
        rows := rows + [row];
      }
      foods := RateOne(foods, item);
      k := k + 1;
    }
    assert items[..k] == items;
    st.foods := foods;
    st.reviews := reviews;
  }

  /** `findUniqueOrThrow({ where: { id: orderId, customerId } })`. */
  function FindOwnOrder(orders: seq<Order>, orderId: int, customerId: string): (r: Option<nat>)
    ensures r.Some? ==> r.value < |orders| && orders[r.value].id == orderId && orders[r.value].customerId == customerId
    ensures r.None? && (forall i, j :: 0 <= i < j < |orders| ==> orders[i].id != orders[j].id) ==>
      forall j :: 0 <= j < |orders| && orders[j].id == orderId ==> orders[j].customerId != customerId
  {
    match FindOrder(orders, orderId)
    case None => None
    case Some(i) => if orders[i].customerId == customerId then Some(i) else None
  }

  method AddReview(st: Store, caller: Claims, orderId: int, items: seq<ReviewInput>) returns (r: Result<bool>)
    requires st.Valid()
    modifies st`foods, st`reviews, st`orders
    ensures st.Valid()
    ensures FindOwnOrder(old(st.orders), orderId, caller.id).None? ==> r == Err(RecordNotFound)
    ensures (FindOwnOrder(old(st.orders), orderId, caller.id).Some? &&
             old(st.orders)[FindOwnOrder(old(st.orders), orderId, caller.id).value].isReviewed) ==>
      r == Err("You have already given a review for this order")
    ensures r.Ok? <==>
      && FindOwnOrder(old(st.orders), orderId, caller.id).Some?
      && !old(st.orders)[FindOwnOrder(old(st.orders), orderId, caller.id).value].isReviewed
      && !AnyReviewedFoodMissing(old(st.foods), items)
    ensures r.Ok? ==> r == Ok(true)
    ensures (FindOwnOrder(old(st.orders), orderId, caller.id).None? ||
             old(st.orders)[FindOwnOrder(old(st.orders), orderId, caller.id).value].isReviewed) ==>
      st.foods == old(st.foods) && st.reviews == old(st.reviews) && st.orders == old(st.orders)
    ensures (FindOwnOrder(old(st.orders), orderId, caller.id).Some? &&
             !old(st.orders)[FindOwnOrder(old(st.orders), orderId, caller.id).value].isReviewed) ==>
      && st.foods == RateAll(old(st.foods), items)
      && st.reviews == old(st.reviews) + ReviewRows(old(st.foods), items, caller.id)
    ensures r.Err? ==> st.orders == old(st.orders)
    ensures r.Ok? ==>
      var i := FindOwnOrder(old(st.orders), orderId, caller.id).value;
      st.orders == old(st.orders)[i := old(st.orders)[i].(isReviewed := true)]
  {
    var found := FindOwnOrder(st.orders, orderId, caller.id);
    if found.None? {
      return Err(RecordNotFound);
    }
    var i := found.value;
    if st.orders[i].isReviewed {
      return Err("You have already given a review for this order");
    }
    ghost var users := st.users;
    var missing := ApplyReviews(st, caller.id, items);
    assert st.users == users;
    SameFoodIdsKeyed(old(st.foods), st.foods);
    if missing {
      return Err(RecordNotFound);
    }
    var reviewed := st.orders[i].(isReviewed := true);
    OrderUpdateKeepsKeys(st.orders, st.nextOrderId, i, reviewed);
    st.orders := st.orders[i := reviewed];
    r := Ok(true);
  }

  /** A second review of the same order is refused. */
  method AddReviewIsOneShot(st: Store, caller: Claims, orderId: int, items: seq<ReviewInput>, more: seq<ReviewInput>)
    returns (first: Result<bool>, second: Result<bool>)
    requires st.Valid()
    modifies st`foods, st`reviews, st`orders
    ensures first.Ok? ==> second == Err("You have already given a review for this order")
  {
    first := AddReview(st, caller, orderId, items);
    if first.Ok? {
      ghost var i := FindOwnOrder(old(st.orders), orderId, caller.id).value;
      assert st.orders[i].id == orderId && st.orders[i].customerId == caller.id;
      assert FindOwnOrder(st.orders, orderId, caller.id) == Some(i);
    }
    second := AddReview(st, caller, orderId, more);
  }

  // ---------------------------------------------------------------------------
  // updateCustomer
  // ---------------------------------------------------------------------------

  /** A nullable string argument is applied only when it is given and non-empty (truthy). */
  function Patch(arg: Option<string>, current: string): (r: string)
    ensures arg.Some? && arg.value != "" ==> r == arg.value
    ensures arg.None? || arg.value == "" ==> r == current
  {
    if arg.Some? && arg.value != "" then arg.value else current
  }

  /** The user row after `updateCustomer`: only supplied fields change. */
  function PatchedUser(u: User, name: Option<string>, phone: Option<string>, dateOfBirth: Option<int>): (r: User)
    ensures r.name == Patch(name, u.name) && r.phone == Patch(phone, u.phone)
    ensures r.dateOfBirth == if dateOfBirth.Some? then dateOfBirth.value else u.dateOfBirth
    ensures r.(name := u.name, phone := u.phone, dateOfBirth := u.dateOfBirth) == u
  {
    u.(name := Patch(name, u.name), phone := Patch(phone, u.phone), dateOfBirth := dateOfBirth.GetOr(u.dateOfBirth))
  }

  /** Updating a customer twice with the same arguments is the same as once. */
  lemma PatchedUserIdempotent(u: User, name: Option<string>, phone: Option<string>, dateOfBirth: Option<int>)
    ensures PatchedUser(PatchedUser(u, name, phone, dateOfBirth), name, phone, dateOfBirth)
      == PatchedUser(u, name, phone, dateOfBirth)
  {
  }

  method UpdateCustomer(st: Store, caller: Claims, name: Option<string>, phone: Option<string>,
                        dateOfBirth: Option<int>, picture: Option<string>)
    returns (r: Result<User>)
    requires st.Valid()
    modifies st`users, st`customers
    ensures st.Valid()
    ensures r.Ok? <==> caller.id in old(st.customers) && FindUserById(old(st.users), caller.id).Some?
    ensures r.Err? ==> r == Err(RecordNotFound) && st.users == old(st.users) && st.customers == old(st.customers)
    ensures r.Ok? ==>
      var i := FindUserById(old(st.users), caller.id).value;
      var profile := old(st.customers)[caller.id];
      && r.value == PatchedUser(old(st.users)[i], name, phone, dateOfBirth)
      && st.users == old(st.users)[i := r.value]
      && st.customers == old(st.customers)[caller.id := profile.(
           picture := if picture.Some? && picture.value != "" then picture else profile.picture)]
  {
    if caller.id !in st.customers {
      return Err(RecordNotFound);
    }
    var found := FindUserById(st.users, caller.id);
    if found.None? {
      return Err(RecordNotFound);
    }
    var i := found.value;
    var user := PatchedUser(st.users[i], name, phone, dateOfBirth);
    if picture.Some? && picture.value != "" {
      var profile := st.customers[caller.id];
      st.customers := st.customers[caller.id := profile.(picture := picture)];
    }
    UserUpdateKeepsKeys(st.users, i, user);
    st.users := st.users[i := user];
    r := Ok(user);
  }
}
