/**
 * src/resolvers/restaurantResolver.ts: a restaurant's menu (adding, patching
 * and removing its own foods) and the public food listings.
 */
module Restaurants {
  import opened Wrappers
  import opened Schema
  import opened Jwt
  import Tables
  import Sorting

  // ---------------------------------------------------------------------------
  // addFoodItem
  // ---------------------------------------------------------------------------

  /**
   * `FoodCreateWithoutRestaurantInput`: the menu fields, and the counters a
   * client may set on creation (zero when left out).
   */
  datatype FoodInput = FoodInput(
    name: string,
    category: string,
    price: int,
    averageRating: Option<int>,
    totalRatingsCount: Option<nat>,
    orderCount: Option<int>)

  /** The row `createOneFood` inserts, connected to the calling restaurant. */
  function NewFood(id: string, restaurantId: string, data: FoodInput): (f: Food)
    ensures f.id == id && f.restaurantId == restaurantId
    ensures f.name == data.name && f.category == data.category && f.price == data.price
    ensures data.orderCount.None? ==> f.orderCount == 0
    ensures data.totalRatingsCount.None? ==> f.totalRatingsCount == 0
    ensures data.averageRating.None? ==> f.averageRating == 0
  {
    Food(id, restaurantId, data.name, data.category, data.price,
         data.averageRating.GetOr(0), data.totalRatingsCount.GetOr(0), data.orderCount.GetOr(0))
  }

  lemma AppendFreshKeepsKeys(foods: seq<Food>, f: Food)
    requires FoodsKeyed(foods) && FindFood(foods, f.id).None?
    ensures FoodsKeyed(foods + [f])
  {
  }

  /** `freshId` is the id the database generates for the row: no food has it yet. */
  method AddFoodItem(st: Store, caller: Claims, data: FoodInput, freshId: string) returns (r: Result<bool>)
    requires st.Valid()
    requires FindFood(st.foods, freshId).None?
    modifies st`foods
    ensures st.Valid()
    ensures r.Ok? <==> caller.id in st.restaurants
    ensures r.Err? ==> r == Err("error in add food item " + RecordNotFound) && st.foods == old(st.foods)
    ensures r.Ok? ==> r == Ok(true) && st.foods == old(st.foods) + [NewFood(freshId, caller.id, data)]
  {
    if caller.id !in st.restaurants {
      return Err("error in add food item " + RecordNotFound);
    }
    var food := NewFood(freshId, caller.id, data);
    AppendFreshKeepsKeys(st.foods, food);
    st.foods := st.foods + [food];
    r := Ok(true);
  }

  /** The added food is the one found under its id, and it belongs to the restaurant that added it. */
  lemma AddedFoodIsOwned(foods: seq<Food>, freshId: string, restaurantId: string, data: FoodInput)
    requires FindFood(foods, freshId).None?
    ensures var added := foods + [NewFood(freshId, restaurantId, data)];
      && FindFood(added, freshId) == Some(|foods|)
      && FindOwnedFood(added, freshId, restaurantId).Some?
  {
    var added := foods + [NewFood(freshId, restaurantId, data)];
    assert added[|foods|].id == freshId;
  }

  // ---------------------------------------------------------------------------
  // updateFoodItem
  // ---------------------------------------------------------------------------

  /**
   * `FoodUpdateWithoutCartsInput`: the fields to overwrite; absent ones keep
   * their value. Besides the menu fields and counters it may set the food's
   * id and, through the `restaurant` relation, its owner.
   */
  datatype FoodPatch = FoodPatch(
    id: Option<string>,
    restaurantId: Option<string>,
    name: Option<string>,
    category: Option<string>,
    price: Option<int>,
    averageRating: Option<int>,
    totalRatingsCount: Option<nat>,
    orderCount: Option<int>)

  function Patched(f: Food, p: FoodPatch): (g: Food)
    ensures p.id.Some? ==> g.id == p.id.value
    ensures p.id.None? ==> g.id == f.id
    ensures p.restaurantId.Some? ==> g.restaurantId == p.restaurantId.value
    ensures p.restaurantId.None? ==> g.restaurantId == f.restaurantId
    ensures p.name.Some? ==> g.name == p.name.value
    ensures p.name.None? ==> g.name == f.name
    ensures p.category.Some? ==> g.category == p.category.value
    ensures p.category.None? ==> g.category == f.category
    ensures p.price.Some? ==> g.price == p.price.value
    ensures p.price.None? ==> g.price == f.price
    ensures p.averageRating.Some? ==> g.averageRating == p.averageRating.value
    ensures p.averageRating.None? ==> g.averageRating == f.averageRating
    ensures p.totalRatingsCount.Some? ==> g.totalRatingsCount == p.totalRatingsCount.value
    ensures p.totalRatingsCount.None? ==> g.totalRatingsCount == f.totalRatingsCount
    ensures p.orderCount.Some? ==> g.orderCount == p.orderCount.value
    ensures p.orderCount.None? ==> g.orderCount == f.orderCount
  {
    Food(p.id.GetOr(f.id),
         p.restaurantId.GetOr(f.restaurantId),
         p.name.GetOr(f.name),
         p.category.GetOr(f.category),
         p.price.GetOr(f.price),
         p.averageRating.GetOr(f.averageRating),
         p.totalRatingsCount.GetOr(f.totalRatingsCount),
         p.orderCount.GetOr(f.orderCount))
  }

  /** Applying the same patch twice is the same as once. */
  lemma PatchedIdempotent(f: Food, p: FoodPatch)
    ensures Patched(Patched(f, p), p) == Patched(f, p)
  {
  }

  /** An empty patch changes nothing. */
  lemma EmptyPatchIsIdentity(f: Food)
    ensures Patched(f, FoodPatch(None, None, None, None, None, None, None, None)) == f
  {
  }

  /** `findUniqueOrThrow({ where: { id: foodId, restaurant: { id: userId } } })`. */
  function FindOwnedFood(foods: seq<Food>, foodId: string, restaurantId: string): (r: Option<nat>)
    ensures r.Some? ==> r.value < |foods| && foods[r.value].id == foodId && foods[r.value].restaurantId == restaurantId
    ensures r.None? && FoodsKeyed(foods) ==>
      forall j :: 0 <= j < |foods| && foods[j].id == foodId ==> foods[j].restaurantId != restaurantId
  {
    match FindFood(foods, foodId)
    case None => None
    case Some(i) =>
      assert FoodsKeyed(foods) ==> forall j :: 0 <= j < |foods| && foods[j].id == foodId ==> j == i;
      if foods[i].restaurantId == restaurantId then Some(i) else None
  }

  /**
   * The database accepts the patch of row `i`: a new id must not be taken by
   * another food, and a new owner must be an existing restaurant.
   */
  predicate PatchAccepted(foods: seq<Food>, restaurants: set<string>, i: nat, p: FoodPatch)
    requires i < |foods|
  {
    && (p.id.None? || p.id.value == foods[i].id || FindFood(foods, p.id.value).None?)
    && (p.restaurantId.None? || p.restaurantId.value in restaurants)
  }

  /** Rewriting a row keeps the ids unique when its id stays or becomes one no other row has. */
  lemma RewriteKeepsKeys(foods: seq<Food>, i: nat, g: Food)
    requires FoodsKeyed(foods) && i < |foods|
    requires g.id == foods[i].id || FindFood(foods, g.id).None?
    ensures FoodsKeyed(foods[i := g])
  {
  }

  /**
   * Only the owning restaurant may patch a food. The update itself is not
   * awaited: the mutation reports success once the ownership check passes,
   * and an update the database refuses is lost without a trace.
   */
  method UpdateFoodItem(st: Store, caller: Claims, foodId: string, data: FoodPatch) returns (r: Result<bool>)
    requires st.Valid()
    modifies st`foods
    ensures st.Valid()
    ensures r.Ok? <==> FindOwnedFood(old(st.foods), foodId, caller.id).Some?
    ensures r.Err? ==> r == Err("error in update food item " + RecordNotFound) && st.foods == old(st.foods)
    ensures r.Ok? ==> r == Ok(true)
    ensures r.Ok? ==>
      var i := FindOwnedFood(old(st.foods), foodId, caller.id).value;
      && (PatchAccepted(old(st.foods), st.restaurants, i, data) ==>
            st.foods == old(st.foods)[i := Patched(old(st.foods)[i], data)])
      && (!PatchAccepted(old(st.foods), st.restaurants, i, data) ==> st.foods == old(st.foods))
  {
    var found := FindOwnedFood(st.foods, foodId, caller.id);
    if found.None? {
      return Err("error in update food item " + RecordNotFound);
    }
    var i := found.value;
    if PatchAccepted(st.foods, st.restaurants, i, data) {
      var food := Patched(st.foods[i], data);
      RewriteKeepsKeys(st.foods, i, food);
      st.foods := st.foods[i := food];
    }
    r := Ok(true);
  }

  // ---------------------------------------------------------------------------
  // removeFoodItem
  // ---------------------------------------------------------------------------

  lemma RemovalKeepsKeys(foods: seq<Food>, i: nat)
    requires FoodsKeyed(foods) && i < |foods|
    ensures FoodsKeyed(foods[..i] + foods[i + 1..])
    ensures FindFood(foods[..i] + foods[i + 1..], foods[i].id).None?
  {
    var rest := foods[..i] + foods[i + 1..];
    forall a | 0 <= a < |rest|
      ensures rest[a] == foods[if a < i then a else a + 1]
    {
    }
  }

  method RemoveFoodItem(st: Store, caller: Claims, foodId: string) returns (r: Result<bool>)
    requires st.Valid()
    modifies st`foods
    ensures st.Valid()
    ensures FindFood(old(st.foods), foodId).None? ==> r == Err("error in delete food item " + RecordNotFound)
    ensures (FindFood(old(st.foods), foodId).Some? &&
             old(st.foods)[FindFood(old(st.foods), foodId).value].restaurantId != caller.id) ==>
      r == Err("error in delete food item Not Authorized")
    ensures r.Ok? <==> FindOwnedFood(old(st.foods), foodId, caller.id).Some?
    ensures r.Err? ==> st.foods == old(st.foods)
    ensures r.Ok? ==> (r == Ok(true) && FindFood(st.foods, foodId).None? &&
      var i := FindFood(old(st.foods), foodId).value;
      st.foods == old(st.foods)[..i] + old(st.foods)[i + 1..])
  {
    var found := FindFood(st.foods, foodId);
    if found.None? {
      return Err("error in delete food item " + RecordNotFound);
    }
    var i := found.value;
    if st.foods[i].restaurantId != caller.id {
      return Err("error in delete food item Not Authorized");
    }
    RemovalKeepsKeys(st.foods, i);
    st.foods := st.foods[..i] + st.foods[i + 1..];
    r := Ok(true);
  }

  // ---------------------------------------------------------------------------
  // Listings
  // ---------------------------------------------------------------------------

  /** The `where` of `fetchFoods`: a category narrows the listing; none lists every food. */
  predicate InCategory(f: Food, category: Option<string>) {
    category.None? || f.category == category.value
  }

  function CategoryFoods(foods: seq<Food>, category: Option<string>): (r: seq<Food>)
    ensures forall i :: 0 <= i < |r| ==> r[i] in foods && InCategory(r[i], category)
    ensures forall i :: 0 <= i < |foods| && InCategory(foods[i], category) ==> foods[i] in r
    ensures forall x :: multiset(r)[x] == if InCategory(x, category) then multiset(foods)[x] else 0
  {
    Tables.Filter(foods, (f: Food) => InCategory(f, category))
  }

  /** `fetchFoods`: the foods of the category (all foods without one), skipping `offset` and taking `limit`. */
  function FetchFoods(foods: seq<Food>, category: Option<string>, limit: nat, offset: nat): (r: seq<Food>)
    ensures |r| <= limit
    ensures var n := |CategoryFoods(foods, category)|;
      |r| == if offset >= n then 0 else if n - offset < limit then n - offset else limit
    ensures forall i :: 0 <= i < |r| ==> r[i] in foods && InCategory(r[i], category)
    ensures forall i :: 0 <= i < |r| ==>
      offset + i < |CategoryFoods(foods, category)| && r[i] == CategoryFoods(foods, category)[offset + i]
  {
    Tables.Page(CategoryFoods(foods, category), offset, limit)
  }

  /** Paging through a listing: two consecutive pages are one larger page, so none is skipped or repeated. */
  lemma FetchFoodsPagesAdjoin(foods: seq<Food>, category: Option<string>, offset: nat, a: nat, b: nat)
    ensures FetchFoods(foods, category, a, offset) + FetchFoods(foods, category, b, offset + a)
      == FetchFoods(foods, category, a + b, offset)
  {
    Tables.PagesAdjoin(CategoryFoods(foods, category), offset, a, b);
  }

  /** A first page as large as the listing holds every food of the category. */
  lemma FetchFoodsCovers(foods: seq<Food>, category: Option<string>, limit: nat)
    requires limit >= |foods|
    ensures forall i :: 0 <= i < |foods| && InCategory(foods[i], category) ==>
      foods[i] in FetchFoods(foods, category, limit, 0)
  {
    var matching := CategoryFoods(foods, category);
    var r := FetchFoods(foods, category, limit, 0);
    assert |matching| <= |foods|;
    assert |r| == |matching|;
    assert r == matching;
  }

  function OrderCount(f: Food): int {
    f.orderCount
  }

  function AverageRating(f: Food): int {
    f.averageRating
  }

  /** `getBestSellers`: the `limit` most ordered foods, most ordered first; a negative `limit` gives the least ordered ones, in the same order. */
  function GetBestSellers(foods: seq<Food>, limit: int): (r: seq<Food>)
    ensures |r| == if limit >= 0 then (if |foods| < limit then |foods| else limit)
                   else (if |foods| < -limit then |foods| else -limit)
    ensures Sorting.NonIncreasing(r, OrderCount)
    ensures multiset(r) <= multiset(foods)
    ensures limit >= 0 ==> forall f, i :: f in foods && f !in r && 0 <= i < |r| ==> OrderCount(r[i]) >= OrderCount(f)
    ensures limit < 0 ==> forall f, i :: f in foods && f !in r && 0 <= i < |r| ==> OrderCount(r[i]) <= OrderCount(f)
  {
    Sorting.Take(foods, OrderCount, limit)
  }

  /** `getSuggestion`: the `limit` best rated foods, best rated first; a negative `limit` gives the worst rated ones, in the same order. */
  function GetSuggestion(foods: seq<Food>, limit: int): (r: seq<Food>)
    ensures |r| == if limit >= 0 then (if |foods| < limit then |foods| else limit)
                   else (if |foods| < -limit then |foods| else -limit)
    ensures Sorting.NonIncreasing(r, AverageRating)
    ensures multiset(r) <= multiset(foods)
    ensures limit >= 0 ==> forall f, i :: f in foods && f !in r && 0 <= i < |r| ==> AverageRating(r[i]) >= AverageRating(f)
    ensures limit < 0 ==> forall f, i :: f in foods && f !in r && 0 <= i < |r| ==> AverageRating(r[i]) <= AverageRating(f)
  {
    Sorting.Take(foods, AverageRating, limit)
  }
}
