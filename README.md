# FoodHub order, review and access core in Dafny

This project models the server side of FoodHub, a food-ordering service. There are three roles: customers, providers (restaurants) and admins. The modules follow the services of the TypeScript source:

- **Lifecycle**, **Providers**: the order state machine. Its transition table is `ORDER_TRANSITIONS`. A provider advances an order with `updateOrderStatus`, which stamps one timestamp column. On DELIVERED it also raises the provider's `totalOrders` counter in the same step. This module also holds the provider page (`getById`) and the provider listing (`getAll`).
- **Orders**: a customer places an order. The model covers the meal lookup, the availability check, the price and name snapshot on each line, and the total. It also covers who may view an order and the customer's cancel.
- **LegacyOrders**: the older order service in `src/services/order.service.ts`. Its lifecycle is weaker, and the model proves so against the table.
- **Ratings**, **Reviews**: who may review, edit and delete. After every review change the rating cache on the meal (`rating`, `totalReviews`) is recomputed. The rating is kept in integer tenths of a star.
- **Categories**, **Slug**: the admin category operations and `slugify`.
- **Admin**: the self/admin protection on user status changes and deletion, and the provider verification flag.
- **Meals**: sort normalisation, the availability filter of the listing, the provider ownership ladder, and the create, update, toggle and delete operations.
- **Auth**: the `requireAuth`, `optionalAuth` and `requireRole` middleware.
- **Pagination**: `getPaginationParams`.
- **Domain**, **Store**: the shared entities, failures and status codes.

The Prisma tables become maps in one `Store.Db` object, and each service method changes only the fields it names in `modifies`. The store invariant `Store.Consistent` holds before and after every operation. It states:

- every meal's category is stored;
- every review is backed by a delivered order that holds the meal;
- there is at most one review per (customer, meal) pair;
- every meal's cached `rating` and `totalReviews` equal the ones recomputed from the review table.

Every state-changing method is stated against a pure guard function, such as `CheckStatusUpdate`, `CheckCancel`, `CheckCreate` or `TargetGuard`. The guard's contract lists each error case and the order in which the errors are tried. The method then promises one of two outcomes. On an error nothing changes. On success the new state is exactly the one the guard's result describes.

Money is in integer cents. Identifiers are natural numbers. The clock (`now`), the session lookup and the store are parameters.

In several places the code behaves differently from what the rest of the system suggests. The model follows the code:

- Cancelling looks like a customer action: `orders.service.ts` offers it to the owning customer only. The code's transition table also lets a provider who owns a line cancel a PLACED order through `updateOrderStatus`. `Lifecycle.LegalEdges` and `Orders.CancelIsATableEdge` state this.
- For a non-PLACED order, the customer cancel failure is not the transition table's invalid-transition error. The code answers with its own 400 message, modelled as `NotCancellable` with status code 400.
- The legacy service does not consult the transition table. It accepts backward moves such as READY→PREPARING (`LegacyOrders.AcceptsMovesTheTableRefuses`).
- The legacy service's schema admits an empty item list. In that case `meals[0]` is undefined and the service throws (`LegacyOrders.EmptyOrderThrows`).
- The review's role check comes from the review controller, which refuses any role but CUSTOMER with 403. It is modelled as the first rung of `Reviews.CheckCreate`.

## Model

| member | source | states |
|---|---|---|
| Domain.StatusCode | src/modules/reviews/reviews.service.ts:46-66 | each failure's HTTP code: 404 for missing rows, 403 for forbidden or suspended, 401, 409, 500, and 400 for the remaining rule violations |
| Domain.MinId | src/services/order.service.ts:32 | the least key of a non-empty key set is in the set and below every other key; it fixes which returned row counts as "first" |
| Pagination.GetPaginationParams | src/utils/response.ts:32-37 | page ≥ 1, 1 ≤ limit ≤ 100, an absent page is 1 and an absent limit 10, in-range values are kept, a page or limit below 1 becomes 1, a limit above 100 becomes 100, skip = (page − 1)·limit |
| Pagination.SkipIsPageOffset | src/utils/response.ts:35 | skip is non-negative and a multiple of limit |
| Pagination.ClampingIsIdempotent | src/utils/response.ts:33-35 | feeding the returned page and limit back in gives the same parameters |
| Slug.SlugAlphabet | src/modules/categories/categories.service.ts:9-10 | every character of a slug is a word character or "-", and for ASCII input lies in [a-z0-9_-] |
| Slug.SlugCharIsNotSpace | src/modules/categories/categories.service.ts:10 | no slug character is whitespace in the sense of JavaScript's `\s`, so a slug holds no whitespace |
| Slug.SlugNeverLonger | src/modules/categories/categories.service.ts:9-10 | a slug is never longer than the name it came from |
| Slug.CollapseRun | src/modules/categories/categories.service.ts:10 | a maximal run of whitespace becomes exactly one "-" and the text on both sides is collapsed independently |
| Slug.CollapseSplit | src/modules/categories/categories.service.ts:10 | collapsing distributes over a concatenation whose cut does not split a whitespace run |
| Slug.SlugifyIsIdempotent | src/modules/categories/categories.service.ts:9-10 | slugifying a slug gives the same slug |
| Slug.TwoWordsAreJoined | src/modules/categories/categories.service.ts:9-10 | two words separated by one blank become their lower-case forms joined by one hyphen |
| Slug.HyphensAreKept | src/modules/categories/categories.service.ts:10 | existing hyphens are kept: "a - b" becomes "a---b" |
| Lifecycle.LegalEdges | src/modules/providers/providers.service.ts:16-20 | an edge is legal iff it is PLACED→PREPARING, PLACED→CANCELLED, PREPARING→READY or READY→DELIVERED |
| Lifecycle.NoSelfLoopNoReturn | src/modules/providers/providers.service.ts:16-20 | no edge keeps the status, and none leads back to PLACED |
| Lifecycle.FinalStatuses | src/modules/providers/providers.service.ts:16-20 | exactly DELIVERED and CANCELLED have no table entry |
| Lifecycle.Rank | src/modules/providers/providers.service.ts:16-20 | a lifecycle position at most 3 that is 0 exactly for PLACED |
| Lifecycle.TransitionAdvancesRank | src/modules/providers/providers.service.ts:16-20 | every legal edge moves strictly forward |
| Lifecycle.RunRaisesRank | src/modules/providers/providers.service.ts:16-20 | along a run of legal edges the position rises by at least one per step |
| Lifecycle.RunsAreShort | src/modules/providers/providers.service.ts:16-20 | a run of legal edges visits at most four statuses, and a run of four starts at PLACED and ends final |
| Lifecycle.FieldFor | src/modules/providers/providers.service.ts:193-198 | the timestamp column of a status, none exactly for PLACED |
| Lifecycle.FieldForIsInjective | src/modules/providers/providers.service.ts:193-198 | distinct statuses are stamped in distinct columns |
| Lifecycle.Advance | src/modules/providers/providers.service.ts:200-206 | the row update sets the new status and only the column mapped to it, to `now`; every other field is kept |
| Lifecycle.FreshOrderIsWellStamped | src/modules/orders/orders.service.ts:50-59 | a new PLACED order without timestamps carries exactly the stamps of its path |
| Lifecycle.AdvanceKeepsWellStamped | src/modules/providers/providers.service.ts:185-206 | after a legal step an order carries exactly the timestamps of the statuses on its path |
| Lifecycle.AdvanceKeepsChronology | src/modules/providers/providers.service.ts:193-206 | with a clock that does not run backwards, the stamps stay in lifecycle order |
| Providers.CheckStatusUpdate | src/modules/providers/providers.service.ts:172-191 | success means the caller's profile exists, the order exists, the caller owns a line, and the table allows the edge; failures are 400, 403 or 404 |
| Providers.StatusUpdateErrorOrder | src/modules/providers/providers.service.ts:172-191 | the failures come in order: missing profile 404, missing order 404, no owned line 403, edge not in the table 400 naming the allowed targets |
| Providers.NoMoveFromFinalOrSameStatus | src/modules/providers/providers.service.ts:185-191 | a same-status request and any request on a DELIVERED or CANCELLED order fail; when the caller's profile owns a line, the failure is the 400 invalid transition naming the allowed targets |
| Providers.PlacedToReadyIsRefused | src/modules/providers/providers.service.ts:185-191 | PLACED→READY fails with allowed targets [PREPARING, CANCELLED] |
| Providers.AnyOwnerMayAdvance | src/modules/providers/providers.service.ts:182-183 | two providers that each own a line get the same verdict |
| Providers.CountDelivery | src/modules/providers/providers.service.ts:212-214 | the caller's `totalOrders` rises by one iff the new status is DELIVERED, and no other profile or field changes |
| Providers.UpdateOrderStatus | src/modules/providers/providers.service.ts:171-218 | on failure neither orders nor profiles change; on success the order is advanced and stamped and the counter is updated in the same step; the store invariant is kept |
| Providers.GetProviderById | src/modules/providers/providers.service.ts:65-85 | 404 exactly for an unknown id, 403 for a suspended user, otherwise the profile of an active user with exactly its available meals |
| Providers.ListProviders | src/modules/providers/providers.service.ts:36-62 | the listed providers are exactly those whose user is active; `total` counts every profile |
| Providers.ListedNeverExceedTotal | src/modules/providers/providers.service.ts:58-62 | the list never exceeds `total`, and equals it iff no profile's user is suspended or missing |
| Store.Db.NewId | src/modules/orders/orders.service.ts:50 | a key that no stored category, meal, order or review has, and that no review names as its meal |
| Store.ProfileOf | src/modules/providers/providers.service.ts:172-173 | the lookup by `userId` finds a profile of that user, or there is none |
| Store.ProfileOfIsTheProfile | src/modules/providers/providers.service.ts:172-173 | with `userId` unique, the lookup finds exactly that user's profile |
| Store.BackingSurvivesOrderWrite | src/modules/reviews/reviews.service.ts:48-61 | rewriting an order that was not delivered keeps every review backed by a delivered order |
| Store.BackingSurvivesReviewWrite | src/modules/reviews/reviews.service.ts:82-86 | a review whose author and meal stay the same stays backed |
| Orders.MealIds | src/modules/orders/orders.service.ts:21 | the requested ids, one per item, in item order |
| Orders.Found | src/modules/orders/orders.service.ts:22 | exactly the stored meals among the requested ids |
| Orders.Missing | src/modules/orders/orders.service.ts:25-26 | the requested ids not stored, in request order |
| Orders.Snapshot | src/modules/orders/orders.service.ts:38-46 | one line per item in item order, with its quantity and the meal's price and name at creation |
| Orders.PlaceOrder | src/modules/orders/orders.service.ts:18-66 | 404 with the missing ids when fewer distinct meals are found than items, else 400 with the unavailable names, else a PLACED order whose lines are the snapshot and whose total is Σ price·quantity |
| Orders.PlaceOrderOutcome | src/modules/orders/orders.service.ts:21-36 | an order is placed iff every item's meal is stored and available and no meal repeats; a missing or repeated meal gives the 404 with the missing ids in request order; with all meals stored and distinct, an unavailable one gives the 400 with the unavailable names |
| Orders.FoundCount | src/modules/orders/orders.service.ts:24 | the count test passes iff every id is stored and no id repeats |
| Orders.NoneMissing | src/modules/orders/orders.service.ts:25-26 | with every id stored the missing list is empty |
| Orders.NothingUnavailable | src/modules/orders/orders.service.ts:30-36 | with no unavailable name, every item's meal exists and is available |
| Orders.RepeatedMealIsRefused | src/modules/orders/orders.service.ts:21-28 | an item list naming one meal twice is refused with 404 and an empty missing list |
| Orders.UnavailableMealIsRefused | src/modules/orders/orders.service.ts:30-36 | one found but unavailable meal gives 400 naming it |
| Orders.TwoLineTotal | src/modules/orders/orders.service.ts:48 | two meals at 10.00 and 5.50, ordered two and one times, total 25.50 |
| Orders.Create | src/modules/orders/orders.service.ts:18-66 | a refused order stores nothing; an accepted one is stored under a fresh key; the invariant is kept |
| Orders.ViewOrder | src/modules/orders/orders.service.ts:95-122 | 404 if absent, the order iff the requester placed it or is an admin, else 403 |
| Orders.CheckCancel | src/modules/orders/orders.service.ts:124-135 | 404, then 403 for another customer's order, then 400 unless PLACED |
| Orders.CancelIsATableEdge | src/modules/orders/orders.service.ts:130-140 | an accepted cancel is the table's PLACED→CANCELLED edge and sets only status and `cancelledAt` |
| Orders.CancelOrder | src/modules/orders/orders.service.ts:124-141 | a refused cancel changes nothing; an accepted one writes exactly the advanced order |
| LegacyOrders.MealIds | src/services/order.service.ts:19 | the requested ids in item order |
| LegacyOrders.AvailableFound | src/services/order.service.ts:20-23 | exactly the stored and available meals among the requested ids |
| LegacyOrders.Lines | src/services/order.service.ts:40-46 | one line per item with its quantity and the meal's current price |
| LegacyOrders.ServableWhenAllFound | src/services/order.service.ts:25 | when the count test passes, every item's meal exists and is available and no id repeats |
| LegacyOrders.CreateSucceedsIff | src/services/order.service.ts:16-50 | an order is created iff the input parses, there is at least one item, and every item's meal is stored and available with no repeats |
| LegacyOrders.TotalMatchesLines | src/services/order.service.ts:27-30 | `totalPrice` equals the sum of price·quantity over the stored lines |
| LegacyOrders.CreatedOrderShape | src/services/order.service.ts:32-46 | a created order is PLACED, carries the given customer and address, copies each meal's current price into its line, totals its lines, and is attributed to the provider of the ordered meal with the smallest id |
| LegacyOrders.SingleProviderAttribution | src/services/order.service.ts:32 | the order's provider is the provider of the first returned meal (the smallest ordered id), whoever provides the other lines; when all meals share a provider it is that one |
| LegacyOrders.MixedOrderGoesToFirstMeal | src/services/order.service.ts:27-46 | meals 1 (provider 7, 500 cents) and 2 (provider 8, 300 cents) ordered as [2, 1] give one order of provider 7 whose total 800 includes provider 8's line |
| LegacyOrders.OneErrorForEveryLookupProblem | src/services/order.service.ts:20-25 | a missing meal and an unavailable one give the same error |
| LegacyOrders.EmptyOrderThrows | src/services/order.service.ts:25-32 | an empty item list passes the count test and then throws at `meals[0]` |
| LegacyOrders.ParseStatus | src/services/order.service.ts:75-76 | the whitelist never yields PLACED |
| LegacyOrders.ParseStatusRoundTrip | src/services/order.service.ts:75-76 | the whitelist admits every status name except PLACED's, and only those names |
| LegacyOrders.CheckStatus | src/services/order.service.ts:74-92 | an unknown status first, then not found, then another provider's order, then a final current status; otherwise any whitelisted target |
| LegacyOrders.AcceptsEveryTableEdge | src/services/order.service.ts:74-92 | every edge the transition table allows is accepted here too |
| LegacyOrders.AcceptsMovesTheTableRefuses | src/services/order.service.ts:84-91 | READY→PREPARING, PREPARING→PREPARING and PLACED→DELIVERED are accepted though the table refuses them |
| LegacyOrders.FinalStaysFinal | src/services/order.service.ts:84-86 | a final order is never changed, and no accepted target is PLACED |
| LegacyOrders.LegacyDb.constructor | src/services/order.service.ts:4 | an empty order table over the given meals satisfies the invariant |
| LegacyOrders.CreateOrder | src/services/order.service.ts:16-50 | a refused order stores nothing; an accepted one is stored under a fresh key |
| LegacyOrders.UpdateOrderStatus | src/services/order.service.ts:74-92 | on success only `status` changes; on failure nothing does |
| Ratings.RatingTenths | src/modules/reviews/reviews.service.ts:114-115 | 0 with no reviews; otherwise ⌊(20·S + C)/(2·C)⌋ tenths, that is `Math.round(10·S/C)` |
| Ratings.NearestTenthIsUnique | src/modules/reviews/reviews.service.ts:114 | the stored value is the one integer within half a tenth of the mean, ties going up |
| Ratings.RatingInStarRange | src/modules/reviews/reviews.service.ts:114 | ratings between 1 and 5 give a value between 10 and 50 tenths |
| Ratings.WorkedExample | src/modules/reviews/reviews.service.ts:114 | [5, 4, 5] gives 47 tenths and [5, 5] gives 50 |
| Ratings.MealReviews | src/modules/reviews/reviews.service.ts:105-106 | exactly the ids of the reviews of the meal |
| Ratings.Recalc | src/modules/reviews/reviews.service.ts:104-117 | the meal's `rating` and `totalReviews` are recomputed from its reviews; every other field and every other meal is kept |
| Ratings.RecalcRestoresCache | src/modules/reviews/reviews.service.ts:104-117 | recomputing the one meal whose reviews changed makes the whole cache consistent again |
| Ratings.NoReviewsMeansZero | src/modules/reviews/reviews.service.ts:114-115 | a meal without reviews has rating 0 and count 0 |
| Ratings.MealRatingInRange | src/modules/reviews/reviews.service.ts:114 | with every rating in 1..5, a reviewed meal's rating is 1.0..5.0 |
| Ratings.OtherMealsUnaffected | src/modules/reviews/reviews.service.ts:104-117 | a change to one meal's reviews leaves every other meal's aggregate unchanged |
| Ratings.CacheSurvivesOffMeal | src/modules/reviews/reviews.service.ts:104-117 | so the cache stays consistent on every other meal |
| Ratings.InsertReview | src/modules/reviews/reviews.service.ts:68-73 | a new review adds one to its meal's count and its rating to the sum |
| Ratings.RemoveReview | src/modules/reviews/reviews.service.ts:100-101 | a deleted review takes one from the count and its rating from the sum |
| Ratings.ReplaceReview | src/modules/reviews/reviews.service.ts:82-88 | an edited review keeps the count and changes the sum by the rating difference |
| Reviews.CheckCreate | src/modules/reviews/reviews.service.ts:42-66 | allowed iff a customer reviews a stored meal from one of their delivered orders for the first time; otherwise 403, 404, 400 and 409 in that order |
| Reviews.SecondReviewConflicts | src/modules/reviews/reviews.service.ts:63-66 | an eligible customer's second review of a meal is the 409 conflict |
| Reviews.NewPairKeepsOnePerPair | src/modules/reviews/reviews.service.ts:63-69 | a review of a pair not yet reviewed keeps one review per pair |
| Reviews.ReviewWriteKeepsConsistent | src/modules/reviews/reviews.service.ts:104-117 | a write to one meal's reviews followed by its recalculation keeps the store invariant |
| Reviews.RecalculateMealRating | src/modules/reviews/reviews.service.ts:104-117 | the meals table becomes the recomputed one; a missing meal fails and changes nothing |
| Reviews.Create | src/modules/reviews/reviews.service.ts:42-75 | a refused review changes nothing; an admitted one is stored under a fresh key and its meal recomputed; the invariant is kept |
| Reviews.CreateKeepsConsistent | src/modules/reviews/reviews.service.ts:68-73 | storing an admitted review and recomputing its meal keeps the invariant |
| Reviews.Patch | src/modules/reviews/reviews.service.ts:82-86 | a supplied rating or comment replaces the stored one; author and meal are kept |
| Reviews.PatchLaws | src/modules/reviews/reviews.service.ts:82-86 | an empty patch changes nothing and patching twice is patching once |
| Reviews.CheckUpdate | src/modules/reviews/reviews.service.ts:78-80 | 404, then 403 unless the caller wrote the review |
| Reviews.Update | src/modules/reviews/reviews.service.ts:77-90 | only the author's review changes and its meal is recomputed; a refused edit changes nothing |
| Reviews.UpdateKeepsConsistent | src/modules/reviews/reviews.service.ts:82-88 | rewriting a review and recomputing its meal keeps the invariant |
| Reviews.SamePairKeepsOnePerPair | src/modules/reviews/reviews.service.ts:82-86 | an edit keeps one review per pair |
| Reviews.CheckDelete | src/modules/reviews/reviews.service.ts:93-98 | 404, then 403 unless the caller is the author or an admin |
| Reviews.Delete | src/modules/reviews/reviews.service.ts:92-102 | only that review goes and its meal is recomputed; a refused delete changes nothing |
| Reviews.DeleteKeepsConsistent | src/modules/reviews/reviews.service.ts:100-101 | removing a review and recomputing its meal keeps the invariant |
| Reviews.MealSummary | src/modules/reviews/reviews.service.ts:23-38 | the average and count a meal page shows, by the same formula as the stored rating |
| Reviews.SummaryMatchesCache | src/modules/reviews/reviews.service.ts:30-38 | in a consistent store the page shows the cached rating and count, 1.0..5.0 stars once reviewed, and 0 when there are none |
| Reviews.DeletingTheFourRaisesTheMean | src/modules/reviews/reviews.service.ts:92-117 | a meal rated 5, 4 and 5 shows 4.7, and 5.0 after the 4 is deleted |
| Categories.NewCategory | src/modules/categories/categories.service.ts:50-52 | the row holds the input and the slug of its name, and is active |
| Categories.CreateCategory | src/modules/categories/categories.service.ts:46-53 | 409 when the name is taken, else the new row under a fresh key |
| Categories.Patch | src/modules/categories/categories.service.ts:59-62 | supplied fields replace the stored ones; the slug is recomputed only when a name is supplied |
| Categories.PatchKeepsSlug | src/modules/categories/categories.service.ts:59-62 | the slug keeps following the name across updates, and an empty update changes nothing |
| Categories.RenamedSlugShape | src/modules/categories/categories.service.ts:60 | a renamed category's slug holds only slug characters and no whitespace |
| Categories.UpdateCategory | src/modules/categories/categories.service.ts:55-63 | 404, else exactly the patched row |
| Categories.Toggle | src/modules/categories/categories.service.ts:69-72 | `isActive` flips and nothing else changes |
| Categories.ToggleIsAnInvolution | src/modules/categories/categories.service.ts:69-72 | toggling twice restores the category |
| Categories.ToggleActive | src/modules/categories/categories.service.ts:65-73 | 404, else the toggled row |
| Categories.MealsIn | src/modules/categories/categories.service.ts:79 | exactly the meals filed under the category |
| Categories.DeleteCategory | src/modules/categories/categories.service.ts:75-85 | 404, then 400 with the meal count while any meal uses it, else only that row goes |
| Categories.DeleteKeepsMealsCategorised | src/modules/categories/categories.service.ts:79-84 | deleting an unused category keeps every meal's category stored |
| Categories.InUseIsRefused | src/modules/categories/categories.service.ts:79-82 | deleting a category in use would orphan a meal, so the guard is needed |
| Admin.TargetGuard | src/modules/admin/admin.service.ts:135-158 | allowed iff the target is another, stored, non-admin user; otherwise 400 for self, then 404, then 403 |
| Admin.AdminsAreProtected | src/modules/admin/admin.service.ts:142 | no admin account can be changed or deleted, and only 400, 403 and 404 are answered |
| Admin.UpdateUserStatus | src/modules/admin/admin.service.ts:135-149 | on success only the target's `status` changes; on failure nothing changes |
| Admin.StatusWriteIsIdempotent | src/modules/admin/admin.service.ts:144-148 | setting a status twice is setting it once, and setting the current status changes nothing |
| Admin.DeleteUser | src/modules/admin/admin.service.ts:151-161 | on success only the target's row goes |
| Admin.DeleteSparesAdmins | src/modules/admin/admin.service.ts:152-158 | the admin's own account and every admin survive |
| Admin.ToggleVerified | src/modules/admin/admin.service.ts:220-223 | `isVerified` flips and nothing else changes |
| Admin.ToggleVerifiedIsAnInvolution | src/modules/admin/admin.service.ts:220-223 | toggling twice restores the profile |
| Admin.ToggleProviderVerification | src/modules/admin/admin.service.ts:216-224 | 404 for an unknown profile, else the toggled profile and nothing else changes |
| Admin.KeepsUniqueProfileUsers | src/modules/admin/admin.service.ts:220-223 | a profile rewrite that keeps its user keeps `userId` unique |
| Meals.NormalizeSortField | src/modules/meals/meals.service.ts:38-60 | the given column when it is price, rating, createdAt or name, else createdAt |
| Meals.NormalizeSortOrder | src/modules/meals/meals.service.ts:38-61 | ascending iff the order is exactly "asc" |
| Meals.SortFieldRoundTrip | src/modules/meals/meals.service.ts:59-60 | feeding the chosen column's name back in gives the same column |
| Meals.ListMeals | src/modules/meals/meals.service.ts:41-57 | exactly the available meals matching the category, provider and diet filters |
| Meals.ListingShowsOnlyAvailable | src/modules/meals/meals.service.ts:41-57 | no switched-off meal is listed, and a diet flag other than "true" filters nothing |
| Meals.CheckOwnership | src/modules/meals/meals.service.ts:162-166 | no profile 404, then unknown meal 404, then another provider's meal 403, else the caller's profile |
| Meals.OwnerOnly | src/modules/meals/meals.service.ts:162-166 | a provider may act exactly on the meals under their own profile |
| Meals.NewMeal | src/modules/meals/meals.service.ts:152-153 | the input under the caller's profile with a zero rating and count; available unless `isAvailable` is false, and each diet flag set only when given as true |
| Meals.CheckCreate | src/modules/meals/meals.service.ts:146-150 | no profile 404, then unknown category 404, then inactive category 400 |
| Meals.CreateMeal | src/modules/meals/meals.service.ts:145-159 | a refused create changes nothing; otherwise the new row is stored under a fresh key |
| Meals.NewMealKeepsConsistent | src/modules/meals/meals.service.ts:152-153 | a new meal with a zero aggregate in a stored category keeps the invariant |
| Meals.Patch | src/modules/meals/meals.service.ts:173-177 | each supplied field (name, description, price, category, availability, the three diet flags) replaces the stored one; provider, rating and count are kept |
| Meals.PatchLaws | src/modules/meals/meals.service.ts:173-177 | an empty patch changes nothing and a patch applied twice is applied once |
| Meals.CheckUpdate | src/modules/meals/meals.service.ts:161-171 | the ownership ladder, then 404 for a named category that does not exist |
| Meals.InactiveCategoryOnlyRefusedOnCreate | src/modules/meals/meals.service.ts:148-150 | `update` accepts an inactive category that `create` refuses |
| Meals.UpdateMeal | src/modules/meals/meals.service.ts:161-178 | only the owner's meal, and only the supplied fields, change |
| Meals.RewriteKeepsConsistent | src/modules/meals/meals.service.ts:173-177 | rewriting a meal's own fields in a stored category keeps the invariant |
| Meals.ToggleAvailable | src/modules/meals/meals.service.ts:187-190 | `isAvailable` flips and nothing else changes |
| Meals.ToggleAvailableIsAnInvolution | src/modules/meals/meals.service.ts:187-190 | toggling twice restores the meal |
| Meals.ToggleAvailability | src/modules/meals/meals.service.ts:180-191 | only the owner's meal, with `isAvailable` flipped |
| Meals.DeleteMeal | src/modules/meals/meals.service.ts:193-201 | only the owner's meal goes |
| Meals.RemovalKeepsConsistent | src/modules/meals/meals.service.ts:200 | removing any meal keeps the invariant (reviews and order lines that name it are not part of it) |
| Auth.Request.constructor | src/middleware/auth.middleware.ts:9-13 | a request starts with no user attached |
| Auth.AuthVerdict | src/middleware/auth.middleware.ts:14-52 | `next` iff the session names a stored active user; 403 iff that user is suspended; every other rejection is 401 |
| Auth.RequireAuth | src/middleware/auth.middleware.ts:9-53 | on `next` the session's user is attached; on a rejection the request is left as it was |
| Auth.OptionalUser | src/middleware/auth.middleware.ts:82-88 | only an active user is ever attached |
| Auth.OptionalAuth | src/middleware/auth.middleware.ts:75-92 | always `next`; attaches the session's user only when it is active |
| Auth.OptionalAgreesWithRequired | src/middleware/auth.middleware.ts:43-48 | `optionalAuth` attaches a user exactly when `requireAuth` would let the request through, and the same user |
| Auth.RoleVerdict | src/middleware/auth.middleware.ts:55-69 | 401 without a user, 403 for an unlisted role, `next` iff the role is listed |
| Auth.FixedGuards | src/middleware/auth.middleware.ts:71-73 | `requireAdmin` admits only admins, `requireProvider` providers and admins, `requireCustomer` customers and admins |
| Auth.RequireAuthThenRole | src/middleware/auth.middleware.ts:9-69 | behind `requireAuth` the role guard judges an attached active user, so it never answers 401 |

## Left out

- Floating point: prices and totals are integer cents and the rating is integer tenths. JavaScript's binary rounding of `avg * 10` is not modelled.
- `parseInt` on non-numeric page or limit gives NaN, which then passes through `Math.max`; the model takes integer inputs.
- `slugify` lower-cases ASCII letters only. Unicode case mapping is not modelled, and neither are the `u`-flag semantics of `\w`.
- Prisma projections (`include`/`select`), `orderBy`, `skip`/`take`, and the `Promise.all` fan-out.
- Listing results are sets of keys; their order and paging are left out.
- Case-insensitive `contains` search, the city filter of `getAll`, and the `minPrice`/`maxPrice` filters: they rely on database collation and on `parseFloat`.
- Providers.ListProviders: filters before paging, so it states the set of active providers, while the source filters a single page.
- `getFeatured`, meal `getById`, `getProviderMeals`, `getProviderOrders`, `getCustomerOrders`, the legacy `getCustomerOrders`/`getProviderOrders`, the category listings and `getById`, `updateProfile`, and the admin listings. These are read-only queries made only of projections, ordering and paging.
- Dashboards: provider `getDashboardStats` and admin `getDashboardStats` are aggregate queries.
- Admin.DeleteUser and Meals.DeleteMeal remove one row. The database's cascades and foreign-key refusals are not modelled, so the reviews and order lines that name a deleted meal are kept.
- Categories.UpdateCategory does not check that a new name is unused, just like the source; the database's unique constraint is not modelled.
- Domain.MinId stands for the order in which Prisma returns rows. The legacy "first returned meal" is the meal with the least key.
- The stored `isActive` and `isAvailable` defaults of new rows are taken as true, the schema's column defaults.
- Concurrency and transactions: every service method is one atomic step. Review writes and the recalculation are two statements in the source, and Reviews.Update models a missing meal as failing after the review write.
- The session library (better-auth) and the user lookup are a parameter: `Auth.Session` yields no session, a user id, or a lookup that throws.
- The HTTP layer: controllers, routes, response envelopes and the error middleware. The route schemas and controller whitelists the services rely on are preconditions: item and rating ranges, comment and note lengths, the provider status whitelist, and the admin status whitelist.
- LegacyOrders.CheckCreate: a zod parse of a non-numeric JSON field is modelled as integer inputs that must be positive.
- The clock `new Date()` is the `now` parameter.
- Orders.UnavailableNames: the 400 message joins the unavailable meals' names in the order the rows come back, repeats included; the model gives the set of names, so it loses that order and merges two meals with the same name.
