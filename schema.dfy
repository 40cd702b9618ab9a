/**
 * The records the resolvers read and write (the Prisma models User, Customer,
 * Restaurant, Food, OrderItemCart, Order and Review) and the store that holds
 * them. Each table is a sequence of rows in insertion order; the customer
 * profiles are a map from the customer's id (which is the user's id) and the
 * restaurants a set of ids, since nothing ever lists them.
 *
 * Money is held in integer minor units and `averageRating` in integer tenths.
 * Times are milliseconds since the epoch.
 */
module Schema {
  import opened Wrappers
  import opened Bcrypt
  import Tables

  datatype Role = Customer | Restaurant

  datatype User = User(
    id: string,
    email: string,
    name: string,
    password: PasswordHash,
    role: Role,
    dateOfBirth: int,
    phone: string,
    verification: bool,
    verificationOtp: Option<string>,
    verificationOtpExpiry: Option<int>,
    resetPassOtp: Option<string>,
    resetPassOtpExpiry: Option<int>)

  /** `CustomerAddressType`: one saved delivery address. */
  datatype Address = Address(id: string, name: string, address: string)

  /** The Customer row: its picture and its address list (a JSON array column). */
  datatype CustomerProfile = CustomerProfile(picture: Option<string>, address: seq<Address>)

  datatype Food = Food(
    id: string,
    restaurantId: string,
    name: string,
    category: string,
    price: int,
    averageRating: int,
    totalRatingsCount: nat,
    orderCount: int)

  /** An OrderItemCart row: one customer's pending quantity of one food. */
  datatype CartLine = CartLine(customerId: string, foodId: string, quantity: int, totalPrice: int)

  datatype OrderStatus = Pending | Assigned | OutForDelivery | Delivered | Canceled

  datatype Order = Order(
    id: int,
    customerId: string,
    restaurantId: string,
    deliveryAddress: string,
    totalPrice: int,
    status: OrderStatus,
    deliveryPerson: Option<string>,
    deliveryTime: Option<int>,
    isReviewed: bool,
    foods: seq<CartLine>,
    createdAt: int)

  datatype Review = Review(foodId: string, customerId: string, rating: int, comment: Option<string>)

  /**
   * The message of the error Prisma throws when `findUniqueOrThrow` finds no
   * row or `update` has no row to update (code P2025).
   */
  const RecordNotFound := "No record found"

  // ---------------------------------------------------------------------------
  // Unique keys (the schema's @id and @unique constraints)
  // ---------------------------------------------------------------------------

  ghost predicate UsersKeyed(users: seq<User>) {
    forall i, j :: 0 <= i < j < |users| ==> users[i].id != users[j].id && users[i].email != users[j].email
  }

  /** Rewriting a user row that keeps its id and email keeps both unique. */
  lemma UserUpdateKeepsKeys(users: seq<User>, i: nat, u: User)
    requires UsersKeyed(users) && i < |users| && u.id == users[i].id && u.email == users[i].email
    ensures UsersKeyed(users[i := u])
  {
  }

  /** Appending a user whose id and email are both new keeps them unique. */
  lemma NewUserKeepsKeys(users: seq<User>, u: User)
    requires UsersKeyed(users)
    requires forall i :: 0 <= i < |users| ==> users[i].id != u.id && users[i].email != u.email
    ensures UsersKeyed(users + [u])
  {
  }

  ghost predicate FoodsKeyed(foods: seq<Food>) {
    forall i, j :: 0 <= i < j < |foods| ==> foods[i].id != foods[j].id
  }

  /** Order ids are distinct and below the next autoincrement value. */
  ghost predicate OrdersKeyed(orders: seq<Order>, nextOrderId: int) {
    && (forall i :: 0 <= i < |orders| ==> orders[i].id < nextOrderId)
    && (forall i, j :: 0 <= i < j < |orders| ==> orders[i].id != orders[j].id)
  }

  /** Rewriting an order row that keeps its id keeps the ids unique and below the counter. */
  lemma OrderUpdateKeepsKeys(orders: seq<Order>, nextOrderId: int, i: nat, u: Order)
    requires OrdersKeyed(orders, nextOrderId) && i < |orders| && u.id == orders[i].id
    ensures OrdersKeyed(orders[i := u], nextOrderId)
  {
  }

  // ---------------------------------------------------------------------------
  // Lookups: `findUnique` / `findFirst` by the columns the resolvers use
  // ---------------------------------------------------------------------------

  function FindUserByEmail(users: seq<User>, email: string): (r: Option<nat>)
    ensures r.Some? ==> r.value < |users| && users[r.value].email == email
    ensures r.None? <==> forall j :: 0 <= j < |users| ==> users[j].email != email
  {
    Tables.FirstIndex(users, (u: User) => u.email == email)
  }

  function FindUserById(users: seq<User>, id: string): (r: Option<nat>)
    ensures r.Some? ==> r.value < |users| && users[r.value].id == id
    ensures r.None? <==> forall j :: 0 <= j < |users| ==> users[j].id != id
  {
    Tables.FirstIndex(users, (u: User) => u.id == id)
  }

  function FindFood(foods: seq<Food>, id: string): (r: Option<nat>)
    ensures r.Some? ==> r.value < |foods| && foods[r.value].id == id
    ensures r.None? <==> forall j :: 0 <= j < |foods| ==> foods[j].id != id
  {
    Tables.FirstIndex(foods, (f: Food) => f.id == id)
  }

  /** `orderItemCart.findFirst({ where: { customerId, foodId } })`. */
  function FindCartLine(cart: seq<CartLine>, customerId: string, foodId: string): (r: Option<nat>)
    ensures r.Some? ==> r.value < |cart| && cart[r.value].customerId == customerId && cart[r.value].foodId == foodId
    ensures r.Some? ==> forall j :: 0 <= j < r.value ==> !(cart[j].customerId == customerId && cart[j].foodId == foodId)
    ensures r.None? <==> forall j :: 0 <= j < |cart| ==> !(cart[j].customerId == customerId && cart[j].foodId == foodId)
  {
    Tables.FirstIndex(cart, (l: CartLine) => l.customerId == customerId && l.foodId == foodId)
  }

  function FindOrder(orders: seq<Order>, id: int): (r: Option<nat>)
    ensures r.Some? ==> r.value < |orders| && orders[r.value].id == id
    ensures r.None? <==> forall j :: 0 <= j < |orders| ==> orders[j].id != id
  {
    Tables.FirstIndex(orders, (o: Order) => o.id == id)
  }

  /** With unique ids, the row found is the only row with that id. */
  lemma FoundFoodIsUnique(foods: seq<Food>, id: string, k: nat)
    requires FoodsKeyed(foods) && k < |foods| && foods[k].id == id
    ensures FindFood(foods, id) == Some(k)
  {
  }

  /** Two versions of the food table with the same ids in the same places (only counters changed). */
  ghost predicate SameFoodIds(a: seq<Food>, b: seq<Food>) {
    |a| == |b| && forall j :: 0 <= j < |a| ==> a[j].id == b[j].id
  }

  /** Changing counters changes no lookup: a food is found in one version exactly when in the other. */
  lemma SameFoodIdsLookup(a: seq<Food>, b: seq<Food>, id: string)
    requires SameFoodIds(a, b)
    ensures FindFood(a, id).Some? <==> FindFood(b, id).Some?
  {
    if FindFood(a, id).Some? {
      assert b[FindFood(a, id).value].id == id;
    }
    if FindFood(b, id).Some? {
      assert a[FindFood(b, id).value].id == id;
    }
  }

  lemma SameFoodIdsKeyed(a: seq<Food>, b: seq<Food>)
    requires SameFoodIds(a, b) && FoodsKeyed(a)
    ensures FoodsKeyed(b)
  {
    forall i, j | 0 <= i < j < |b|
      ensures b[i].id != b[j].id
    {
      assert b[i].id == a[i].id && b[j].id == a[j].id;
    }
  }

  // ---------------------------------------------------------------------------
  // The store
  // ---------------------------------------------------------------------------

  class Store {
    var users: seq<User>
    var customers: map<string, CustomerProfile>
    var restaurants: set<string>
    var foods: seq<Food>
    var cart: seq<CartLine>
    var orders: seq<Order>
    var nextOrderId: int
    var reviews: seq<Review>

    /** The unique constraints of the schema. */
    ghost predicate Valid()
      reads this
    {
      UsersKeyed(users) && FoodsKeyed(foods) && OrdersKeyed(orders, nextOrderId)
    }

    /** An empty database; order ids autoincrement from 1. */
    constructor ()
      ensures Valid()
      ensures users == [] && customers == map[] && restaurants == {} && foods == []
      ensures cart == [] && orders == [] && reviews == [] && nextOrderId == 1
    {
      users, customers, restaurants, foods := [], map[], {}, [];
      cart, orders, reviews, nextOrderId := [], [], [], 1;
    }
  }
}
