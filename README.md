# Restaurant backend: a verified model of its resolvers

This project models the GraphQL server of a food-ordering service. Customers
sign up with an e-mailed one-time code and keep saved delivery addresses. They
fill a cart with restaurants' foods, turn the cart into an order, cancel it
while it is pending and review its foods (whatever the order's status). Restaurants manage
their own menu. Any signed-in caller may list foods, best-sellers and suggestions. Delivery
mutations assign a courier and move an order through its statuses.

The database is one `Schema.Store` object. It holds one field per table:

- users, foods, cart lines, orders and reviews are sequences of rows in insertion order;
- customer profiles are a map keyed by the user id;
- restaurants are a set of ids;
- the order-id counter is an integer.

Each resolver mutation is a method on that store. Its `modifies` clause names
exactly the tables the mutation writes. `Store.Valid()` is the schema's unique
constraints: user ids and e-mails, food ids and order ids. Every mutation
preserves it. Queries are functions over the tables.

Prisma's "record not found" error (code P2025) is the one message
`Schema.RecordNotFound`. It stands for every `findUniqueOrThrow` that finds
nothing and every `update` with no row to update.

Money is held in integer minor units. A food's average rating is held in
integer tenths of a star, which is what `toFixed(1)` keeps. Times are
milliseconds. Anything the server gets from outside is a parameter:

- the clock (`now`);
- the draw of `crypto.randomInt`;
- the ids the database generates;
- whether the OTP e-mail was sent.

`bcrypt` and `jsonwebtoken` are symbolic. A digest matches exactly the
password it hashed. A token records its payload, its key and its expiry.

Modules follow the source files:

| module | source |
|---|---|
| `Utils` | `src/utils/utils.ts` |
| `Middleware` | `src/middleware/middleware.ts` |
| `Auth` | `src/resolvers/authResolver.ts` |
| `Cart` | `src/resolvers/cartResolver.ts` |
| `Orders` | `src/resolvers/orderResolver.ts` |
| `Delivery` | `src/resolvers/deliveryResolver.ts` |
| `Customers` | `src/resolvers/customerResolver.ts` |
| `Restaurants` | `src/resolvers/restaurantResolver.ts` |

`Schema`, `Tables`, `Sorting`, `Bcrypt`, `Jwt` and `Wrappers` support those modules.

The model follows the code as written, including where it does less than its
descriptions suggest:

- Either delivery mutation may be called by any authenticated caller, on any order, from any status.
- `addToCart` never removes a line, whatever the quantity.
- `fetchOrders` with a status argument drops the ownership filter; see Findings.
- The one-time code is drawn from `[100000, 999999)`: `crypto.randomInt`'s upper bound is exclusive, so 999999 is never issued.
- A code is still accepted at the very millisecond it expires, because the check is `expiry < now`.

## Model

| member | source | states |
|---|---|---|
| Utils.IsEmailValidMatchesPattern | src/utils/utils.ts:3-6 | the first-`@` split accepts an address exactly when it matches `^[^\s@]+@[^\s@]+\.[^\s@]+$` read as a pattern (both directions) |
| Utils.ValidEmailHasOneAt | src/utils/utils.ts:3-6 | every accepted address contains exactly one `@` |
| Utils.WhitespaceRejected | src/utils/utils.ts:4 | a JavaScript white-space character anywhere makes the address invalid |
| Utils.DecimalRoundTrip | src/utils/utils.ts:9 | reading back the decimal rendering of a number gives the number |
| Utils.DecimalLength | src/utils/utils.ts:9 | a number in `[10^k, 10^(k+1))` renders as exactly `k + 1` digits |
| Utils.GenerateOtp | src/utils/utils.ts:8-10 | the code is six decimal digits, has no leading zero and reads back as the drawn number |
| Bcrypt.HashAcceptsOnlyItsPassword | src/resolvers/authResolver.ts:54 | a digest accepts its own password and no other |
| Jwt.SignThenVerify | src/resolvers/authResolver.ts:257-267 | a signed token verifies, and yields its payload, exactly with its own key and before it expires |
| Middleware.IsAuth | src/middleware/middleware.ts:4-18 | a missing or empty header gives "Authorization header is  missing"; otherwise the guard passes exactly when the token verifies with the access key, and any failure is "Authorization failed"; on success the result is the token's own payload, which becomes the caller |
| Middleware.RefreshTokenIsNotAccess | src/middleware/middleware.ts:10-15 | a refresh token never passes the guard |
| Auth.IssuedOtpWindow | src/resolvers/authResolver.ts:66 | a freshly issued code is accepted exactly for itself and up to and including ten minutes after issue |
| Auth.ClearedOtpRejected | src/resolvers/authResolver.ts:106-111 | a consumed (cleared) code accepts nothing at any time |
| Auth.SignUp | src/resolvers/authResolver.ts:32-94 | each of the four checks gives its own message, in source order; the password length is counted in UTF-16 code units, as JavaScript's `length` does; a failed mail aborts with the mailer's message; success happens exactly when all checks pass and the mail is sent; it appends the unverified user with a ten-minute verification code and a customer profile or restaurant id for the role; a failure writes nothing; ids and e-mails stay unique |
| Auth.VerifyAccount | src/resolvers/authResolver.ts:97-123 | success happens exactly when the user exists and its code accepts the one supplied; the user is then verified and the code cleared; otherwise "Invalid or expired OTP" and nothing changes |
| Auth.ResetPassword | src/resolvers/authResolver.ts:126-155 | an unknown e-mail gives "No user found"; success happens exactly when the reset code accepts the one supplied; the password becomes the new hash and the reset code is cleared |
| Auth.ChangePassword | src/resolvers/authResolver.ts:159-186 | unknown caller, wrong old password and too-short new password each give their message; success happens exactly when the old password matches and the new one has at least 8 UTF-16 code units; only the password hash changes |
| Auth.WithIssuedOtp | src/resolvers/authResolver.ts:202-218 | the type "Verify" sets the verification pair; any other type sets the reset pair; each expires ten minutes from now |
| Auth.RequestOtp | src/resolvers/authResolver.ts:189-221 | an unknown e-mail gives "User does not exists"; a failed mail aborts; success happens exactly when the user exists and the mail is sent, and it writes the pair for the requested type |
| Auth.Utf16LengthOfBmp | src/resolvers/authResolver.ts:51 | for passwords of Basic Multilingual Plane characters, the length checked is the number of characters |
| Auth.FourEmojiAreLongEnough | src/resolvers/authResolver.ts:51 | four emoji are exactly the minimum password length, since each counts as two code units |
| Auth.GetCurrentUser | src/resolvers/authResolver.ts:225-239 | the result is present exactly when a row has the caller's id, and it is that row |
| Auth.SignIn | src/resolvers/authResolver.ts:242-274 | unknown e-mail, wrong password and unverified account each give their message; for an existing user, success happens exactly when the password matches and the account is verified; on success the user matches the password, is verified, and gets a 15-minute access token and a 7-day refresh token carrying its id and role |
| Auth.RefreshToken | src/resolvers/authResolver.ts:277-305 | success happens exactly when the token verifies with the refresh key, carries claims, and names an existing user; it then returns a 15-minute access token for that user; every failure has the one message |
| Auth.SignInTokensAuthorize | src/resolvers/authResolver.ts:257-267 | the access token from sign-in passes `isAuth` with the user's claims for exactly fifteen minutes of the model's clock; the refresh token never does |
| Auth.RefreshAfterSignIn | src/resolvers/authResolver.ts:263-267 | while the user table is unchanged, the sign-in refresh token buys a new access token with the same claims at any time within seven days |
| Auth.VerifyAccountIsOneShot | src/resolvers/authResolver.ts:106-120 | a verification code that succeeded once fails when submitted again |
| Auth.SignUpVerifySignIn | src/resolvers/authResolver.ts:32-123 | after a valid sign-up, sign-in is refused until the mailed code is submitted; afterwards it succeeds with both tokens |
| Cart.CalculatePrice | src/resolvers/cartResolver.ts:102-108 | the food's price times the quantity, or 0 when the food is gone |
| Cart.CalculatePriceAdds | src/resolvers/cartResolver.ts:41-46 | pricing two quantities separately costs the same as pricing their sum |
| Cart.AddToCart | src/resolvers/cartResolver.ts:24-66 | a restaurant is refused with its message; a missing food is not found; success happens exactly for a customer and an existing food; the cart then grows or gains a line; failures change nothing |
| Cart.AddToCartAccumulates | src/resolvers/cartResolver.ts:39-64 | the caller's quantity of that food grows by exactly the amount added; every other customer's and food's quantity is unchanged |
| Cart.AddToCartKeepsLinesUnique | src/resolvers/cartResolver.ts:34-64 | adding never creates a second line for the same customer and food |
| Cart.AddToCartKeepsPriced | src/resolvers/cartResolver.ts:41-46 | adding keeps every line's total equal to the food's price times its quantity |
| Cart.RemoveFromCart | src/resolvers/cartResolver.ts:68-86 | success happens exactly when the caller has a line for the food, and that line is deleted; otherwise "item not found in the cart" and nothing changes |
| Cart.RemoveFromCartEmptiesLine | src/resolvers/cartResolver.ts:68-86 | with one line per customer and food, removal leaves the caller none of that food, leaves every other quantity alone and keeps lines unique |
| Cart.FetchCart | src/resolvers/cartResolver.ts:88-100 | exactly the caller's lines, taken from the cart, each as many times as the cart holds it |
| Orders.GetRestaurantIdFromFood | src/resolvers/orderResolver.ts:149-152 | the food's restaurant, or the empty string when the food is gone |
| Orders.CartTotalAppend | src/resolvers/orderResolver.ts:42-45 | the total of a cart split in two is the sum of the parts' totals |
| Orders.AnyFoodMissingMeans | src/resolvers/orderResolver.ts:47-54 | the in-order failure check fails exactly when some line's food does not exist |
| Orders.BumpOne | src/resolvers/orderResolver.ts:49-52 | one increment keeps the food ids in place and changes nothing but order counts |
| Orders.BumpOrderCountsTouchesOnlyCounts | src/resolvers/orderResolver.ts:47-54 | the increments for all lines change nothing but order counts |
| Orders.BumpOrderCountsAdds | src/resolvers/orderResolver.ts:47-54 | with unique food ids, each food's order count grows by exactly the total quantity of that food over the lines |
| Orders.DrainCart | src/resolvers/orderResolver.ts:72-74 | exactly the lines of every other customer remain, each as many times as before |
| Orders.DrainCartKeepsOtherCarts | src/resolvers/orderResolver.ts:72-74 | after the drain the customer's cart is empty and every other customer's cart is exactly what it was |
| Orders.IncrementOrderCounts | src/resolvers/orderResolver.ts:47-54 | every increment is applied in line order; failure is reported exactly when some line's food is missing |
| Orders.CreateOrder | src/resolvers/orderResolver.ts:56-74 | the pending order takes the next id, the first food's restaurant and the caller's cart lines; the counter advances; the caller's lines are drained; order ids stay unique |
| Orders.Checkout | src/resolvers/orderResolver.ts:42-76 | the order counts are always bumped; success happens exactly when every food exists; the order's total is the sum of the lines; on failure no order is written and the cart is untouched |
| Orders.PlaceOrder | src/resolvers/orderResolver.ts:25-77 | an empty address and an empty cart each give their message and change nothing; otherwise as `Checkout` over the caller's lines |
| Orders.FetchOrders | src/resolvers/orderResolver.ts:80-110 | exactly the orders meeting the `where` as written, each as many times as the table holds it, newest first |
| Orders.FetchOrdersLeaksOtherUsersOrders | src/resolvers/orderResolver.ts:95-99 | with a status, another customer's order reaches a caller who is neither its customer nor its restaurant |
| Orders.FetchOwnOrders | src/resolvers/orderResolver.ts:89-104 | only orders the caller is party to, narrowed by the status when one is given; every such order is included, as many times as the table holds it; newest first |
| Orders.CancelOrder | src/resolvers/orderResolver.ts:113-148 | not found, not the owner, delivered, already canceled and in progress each give their message; success happens exactly for the owner's pending order, which becomes canceled; failures change nothing |
| Delivery.WithDeliveryPerson | src/resolvers/deliveryResolver.ts:25-31 | the order gets the courier and the status "assigned"; nothing else changes |
| Delivery.WithDeliveryStatus | src/resolvers/deliveryResolver.ts:43-50 | the status is set; a delivery time is present exactly for "delivered" (the given one, else now); nothing else changes |
| Delivery.AssignDeliveryPerson | src/resolvers/deliveryResolver.ts:20-34 | success happens exactly when the order exists, whoever calls and whatever its status; only that row changes |
| Delivery.UpdateDeliveryStatus | src/resolvers/deliveryResolver.ts:37-53 | success happens exactly when the order exists, with any status change allowed; only that row changes |
| Customers.GetCustomerAddress | src/resolvers/customerResolver.ts:29-41 | success happens exactly when the caller has a customer profile, and it returns that profile's addresses; otherwise not found |
| Customers.AddCustomerAddress | src/resolvers/customerResolver.ts:43-72 | success happens exactly when the caller has a profile; the new address is appended and the whole list returned; otherwise "Customer not found" |
| Customers.WithoutAddress | src/resolvers/customerResolver.ts:91-93 | exactly the addresses with another id remain, each as many times as before |
| Customers.WithoutAddressAppend | src/resolvers/customerResolver.ts:91-93 | deleting from two lists joined end to end deletes from each and keeps them in their order |
| Customers.AddThenDeleteAddress | src/resolvers/customerResolver.ts:43-107 | deleting an address just added under a fresh id restores the list |
| Customers.DeleteCustomerAddress | src/resolvers/customerResolver.ts:75-107 | no profile is not found; an absent id gives "Address not found"; success happens exactly when the id is present, and entries with it are removed |
| Customers.ClampRating | src/resolvers/customerResolver.ts:132 | the rating lies in 1..5 and is unchanged when already there |
| Customers.NewAverageExample | src/resolvers/customerResolver.ts:134-139 | an average of 4.0 over three ratings and a new 5 becomes 4.3 |
| Customers.NewAverageBetween | src/resolvers/customerResolver.ts:133-139 | the new average lies between the old average and the new rating |
| Customers.FirstRatingIsAverage | src/resolvers/customerResolver.ts:133-139 | a food's first rating becomes its average |
| Customers.RateOne | src/resolvers/customerResolver.ts:128-155 | a missing food leaves the table as it is; otherwise that food's rating count grows by one and its average becomes the rounded new average of the clamped rating; every other food and every other field is unchanged |
| Customers.ReviewRows | src/resolvers/customerResolver.ts:140-147 | at most one row per entry, each with a rating in 1..5 and the caller as customer; when every entry's food exists, row `i` is entry `i`'s food, clamped rating and comment |
| Customers.RateAllCounts | src/resolvers/customerResolver.ts:126-157 | with unique food ids, each food's rating count grows by the number of entries for it |
| Customers.RateAllKeepsAveragesInRange | src/resolvers/customerResolver.ts:126-157 | averages between 0 and 5 stars stay there, whatever the entries |
| Customers.ApplyReviews | src/resolvers/customerResolver.ts:126-157 | every entry whose food exists creates its row and updates its food, in entry order; failure is reported exactly when some food is missing |
| Customers.FindOwnOrder | src/resolvers/customerResolver.ts:117-120 | a found order has the id and the caller as customer; with unique ids, none found means no such order of the caller exists |
| Customers.AddReview | src/resolvers/customerResolver.ts:110-164 | not the caller's order is not found; an already reviewed order is refused and nothing changes; otherwise the entries are applied; the order is marked reviewed exactly when every food existed |
| Customers.AddReviewIsOneShot | src/resolvers/customerResolver.ts:122-124 | once a review has succeeded, a second review of the same order is refused |
| Customers.Patch | src/resolvers/customerResolver.ts:185-193 | a non-empty argument replaces the field; an absent or empty one keeps it |
| Customers.PatchedUser | src/resolvers/customerResolver.ts:180-193 | name, phone and date of birth change as supplied; nothing else in the row changes |
| Customers.PatchedUserIdempotent | src/resolvers/customerResolver.ts:180-200 | updating twice with the same arguments equals updating once |
| Customers.UpdateCustomer | src/resolvers/customerResolver.ts:167-205 | success happens exactly when the caller has a customer profile and a user row; the row is patched; a non-empty picture replaces the profile picture; failures change nothing |
| Restaurants.NewFood | src/resolvers/restaurantResolver.ts:44-47 | the new food has the given id and menu fields and belongs to the caller; counters left out start at 0 |
| Restaurants.AddFoodItem | src/resolvers/restaurantResolver.ts:33-52 | success happens exactly when the caller is a restaurant, and the food is appended; otherwise the wrapped not-found message and nothing changes; food ids stay unique |
| Restaurants.AddedFoodIsOwned | src/resolvers/restaurantResolver.ts:33-76 | the added food is found under its id and is the adding restaurant's to update |
| Restaurants.Patched | src/resolvers/restaurantResolver.ts:66-70 | each of the eight fields, id and owner included, is overwritten when supplied and kept when absent |
| Restaurants.PatchedIdempotent | src/resolvers/restaurantResolver.ts:66-70 | applying a patch twice equals applying it once |
| Restaurants.EmptyPatchIsIdentity | src/resolvers/restaurantResolver.ts:66-70 | an empty patch changes nothing |
| Restaurants.FindOwnedFood | src/resolvers/restaurantResolver.ts:62-64 | a found food has the id and the caller as owner; with unique ids, none found means the caller owns no food with that id |
| Restaurants.UpdateFoodItem | src/resolvers/restaurantResolver.ts:54-76 | success happens exactly when the caller owns the food; the row is then patched if the database accepts the patch (a new id is not taken, a new owner exists), otherwise the table is unchanged but success is still reported; a non-owner gets the wrapped not-found message and nothing changes; food ids stay unique |
| Restaurants.RemoveFoodItem | src/resolvers/restaurantResolver.ts:78-98 | a missing food is not found; another restaurant's food gives "Not Authorized"; success happens exactly for an owned food, which then no longer exists |
| Restaurants.CategoryFoods | src/resolvers/restaurantResolver.ts:108-110 | exactly the foods of the category, or all foods without one, each as many times as the table holds it |
| Restaurants.FetchFoods | src/resolvers/restaurantResolver.ts:101-118 | the foods of the category, the consecutive ones starting at `offset`, exactly `limit` of them or as many as remain after `offset` |
| Restaurants.FetchFoodsPagesAdjoin | src/resolvers/restaurantResolver.ts:109-113 | over one unchanged table in insertion order, two consecutive pages are one larger page: paging skips and repeats nothing |
| Restaurants.FetchFoodsCovers | src/resolvers/restaurantResolver.ts:109-113 | a first page at least as large as the table holds every food of the category |
| Restaurants.GetBestSellers | src/resolvers/restaurantResolver.ts:155-169 | as many foods as the smaller of the table size and the size of `limit`, taken from the table, most ordered first; a non-negative limit keeps foods none ranking below a food left out, a negative one foods none ranking above a food left out |
| Restaurants.GetSuggestion | src/resolvers/restaurantResolver.ts:172-186 | as many foods as the smaller of the table size and the size of `limit`, taken from the table, best rated first; a non-negative limit keeps foods none ranking below a food left out, a negative one foods none ranking above a food left out |
| Sorting.SortDesc | src/resolvers/orderResolver.ts:100-104 | the result is in non-increasing key order and is a permutation of the input |
| Sorting.Top | src/resolvers/restaurantResolver.ts:159-163 | the first `limit` rows by key: sorted, drawn from the input, and none ranking below a row left out |
| Sorting.Bottom | src/resolvers/restaurantResolver.ts:159-163 | the last `n` rows by key, as a negative `take` returns them: sorted, drawn from the input, and none ranking above a row left out |
| Sorting.Take | src/resolvers/restaurantResolver.ts:159-163 | `take` of either sign: as many rows as the smaller of the input size and the size of `take`, sorted and drawn from the input, the highest ranked for a non-negative `take` and the lowest for a negative one |
| Tables.Page | src/resolvers/restaurantResolver.ts:111-112 | at most `limit` consecutive rows starting at `offset` |
| Tables.FilterNarrowed | src/resolvers/orderResolver.ts:72-74 | filtering by a narrower condition after a wider one equals filtering by the narrower one alone |
| Tables.PagesAdjoin | src/resolvers/restaurantResolver.ts:111-112 | consecutive pages of one fixed sequence concatenate to the page of their combined size |
| Tables.FilterAppend | src/resolvers/customerResolver.ts:91-93 | filtering keeps row order: it distributes over concatenation |
| Tables.FilterKeepsAll | src/resolvers/customerResolver.ts:91-93 | a condition every row meets keeps the whole sequence unchanged |

## Left out

- Sending mail (`src/utils/mailer.ts`) and notifications (`src/utils/notifications.ts`): the mail outcome is a parameter of `Auth.SignUp` and `Auth.RequestOtp`; notifications are not part of this model.
- Server start-up and context construction (`src/index.ts`) are not part of this model; the caller's claims are passed to each resolver.
- `bcrypt` and `jsonwebtoken` are symbolic. Salts, digests and signatures are not modelled, and neither is a forged token. `jwt.verify` reports only malformed, bad signature or expired.
- `Promise.all` runs its callbacks concurrently. The model runs them one at a time in list order. Concurrent reads of the same food row, which in the source can lose an update when two entries name the same food, are not modelled.
- Customers.RoundedQuotient: the average is computed in exact integer tenths, rounding halves away from zero. The source's binary floating point and `toFixed` can round a few exact halves the other way.
- Apart from a food's new owner in `Restaurants.UpdateFoodItem`, Prisma relation `connect` and foreign-key failures are not modelled. A review or order that names a missing customer is not modelled, and neither is deleting a food that an order or cart line still references.
- `fetchFood`, `searchFoods` and `updateRestaurant` in `restaurantResolver.ts` are not modelled; they are a single read, a text search and a profile patch outside the menu and order flows.
- Restaurants.UpdateFoodItem: the source does not await the update, so an error in it is lost and success is reported anyway. The model does not capture that an unhandled promise rejection can end the Node.js process.
- Restaurants.UpdateFoodItem: a patched food id does not follow into the cart lines, orders and reviews that refer to the old id. The model does not capture the database's referential actions.
- Restaurants.AddFoodItem: the new food's id is a parameter, required to be unused. A client-supplied id that collides is not modelled.
- Restaurants.FetchFoods, Restaurants.GetBestSellers and Restaurants.GetSuggestion take the `limit` and `offset` the resolver receives. The GraphQL argument defaults (15, 8 and 0) are applied before the resolver runs, so the model has no constants for them.
- Restaurants.FetchFoods: `limit` and `offset` are natural numbers. A negative `offset`, which Prisma refuses with an error, is not modelled. A negative `limit`, which Prisma accepts and counts back from the end of the listing, is not modelled either.
- Numeric arguments: `quantity` in `addToCart` and `orderId` in the order, delivery and review mutations are declared as TypeScript `number` without a type hint, so GraphQL accepts a `Float`. The model takes integers; a fractional quantity or order id is not modelled.
- Schema defaults: counters omitted on creation start at 0, and order ids autoincrement from 1.
- Customers.UpdateCustomer: a `Date` argument is always truthy, so any supplied date of birth is applied.
- Auth.SignInTokensAuthorize: the model's clock is in milliseconds. `jsonwebtoken` stores the issue and expiry times in whole seconds, so the real window can differ from fifteen minutes by up to a second.
- Bcrypt.HashAcceptsOnlyItsPassword: real bcrypt reads only the first 72 bytes of a password. Two longer passwords that share those bytes match the same digest, and the model does not capture this.
- Orders.CreateOrder: each line stored on the order also carries the food row fetched with `include: { food: true }`. The model keeps the cart line only.
- Restaurants.FetchFoods, Restaurants.FetchFoodsPagesAdjoin, Cart.FetchCart and Orders.CreateOrder: the `findMany` calls behind `fetchFoods` and the cart read of `placeOrder` have no `orderBy`, so the database leaves the order of their rows unspecified and may return it differently on each call. The model returns rows in insertion order. Page adjacency therefore holds only under that assumption and over a table nobody changes between the two fetches; an `orderCount` bump from `placeOrder` between them can make real paging repeat or skip a food. Likewise, which cart line is `cartItems[0]`, and so which restaurant an order from a mixed cart goes to, is the first in insertion order only in the model.

## Findings

| source | as written | input that shows it | evidently intended | confidence | as-written member | corrected member |
|---|---|---|---|---|---|---|
| src/resolvers/orderResolver.ts:95-99 | a `status` argument replaces the `where` clause, dropping the filter on the caller's customer or restaurant id | caller "bob" asks for `PENDING` orders while "alice" has a pending order at "pizzeria": bob receives alice's order | the status narrows the caller's own orders | not executed | Orders.FetchOrdersLeaksOtherUsersOrders | Orders.FetchOwnOrders |
