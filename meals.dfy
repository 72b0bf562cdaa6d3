/** The meal service: the listing's filter and sort normalisation, and the
    provider-only create, update, toggle and delete with their ownership
    guards. */
module Meals {
  import opened Domain
  import opened Ratings
  import opened Store

  datatype SortField = ByPrice | ByRating | ByCreatedAt | ByName

  datatype SortOrder = Asc | Desc

  /** The column name the query sorts on. */
  function FieldName(f: SortField): string {
    match f
    case ByPrice => "price"
    case ByRating => "rating"
    case ByCreatedAt => "createdAt"
    case ByName => "name"
  }

  /** `sortBy` defaults to "createdAt" when absent, and anything outside
      the four sortable columns falls back to it too. */
  function NormalizeSortField(sortBy: Option<string>): (f: SortField)
    ensures sortBy.Some? && sortBy.value in ["price", "rating", "createdAt", "name"] ==> FieldName(f) == sortBy.value
    ensures sortBy.None? || sortBy.value !in ["price", "rating", "createdAt", "name"] ==> f == ByCreatedAt
  {
    match sortBy
    case None => ByCreatedAt
    case Some(s) =>
      if s == "price" then ByPrice
      else if s == "rating" then ByRating
      else if s == "name" then ByName
      else ByCreatedAt
  }

  /** Ascending only for exactly "asc"; absent or anything else sorts
      descending. */
  function NormalizeSortOrder(order: Option<string>): (o: SortOrder)
    ensures o == Asc <==> order == Some("asc")
  {
    if order == Some("asc") then Asc else Desc
  }

  /** Feeding the normalised column back in gives the same column. */
  lemma SortFieldRoundTrip(f: SortField, sortBy: Option<string>)
    ensures NormalizeSortField(Some(FieldName(f))) == f
    ensures NormalizeSortField(Some(FieldName(NormalizeSortField(sortBy)))) == NormalizeSortField(sortBy)
  {
  }

  /** The listing filters the model keeps: category, provider and the three
      diet flags, each of which applies only when given as "true". */
  datatype MealFilter = MealFilter(
    category: Option<Id>,
    providerId: Option<Id>,
    isVegetarian: Option<string>,
    isVegan: Option<string>,
    isGlutenFree: Option<string>)

  /** The `where` object `getAll` builds. */
  predicate Matches(m: Meal, f: MealFilter) {
    && m.isAvailable
    && (f.category.Some? ==> m.categoryId == f.category.value)
    && (f.providerId.Some? ==> m.providerId == f.providerId.value)
    && (f.isVegetarian == Some("true") ==> m.isVegetarian)
    && (f.isVegan == Some("true") ==> m.isVegan)
    && (f.isGlutenFree == Some("true") ==> m.isGlutenFree)
  }

  /** The meals `getAll` can return, before paging. */
  function ListMeals(meals: map<Id, Meal>, f: MealFilter): (r: set<Id>)
    ensures r <= meals.Keys
    ensures forall k :: k in r <==> k in meals && Matches(meals[k], f)
  {
    set k | k in meals && Matches(meals[k], f)
  }

  /** The listing never shows a switched-off meal, whatever the filter, and
      a diet flag given as anything but "true" filters nothing. */
  lemma ListingShowsOnlyAvailable(meals: map<Id, Meal>, f: MealFilter, k: Id)
    ensures k in ListMeals(meals, f) ==> meals[k].isAvailable
    ensures f.isVegetarian != Some("true") ==>
      ListMeals(meals, f) == ListMeals(meals, f.(isVegetarian := None))
  {
    assert k in ListMeals(meals, f) ==> Matches(meals[k], f);
  }

  /** `_getProviderProfile`, then the meal lookup and the ownership test
      that `update`, `toggleAvailability` and `delete` share. */
  function CheckOwnership(profiles: map<Id, ProviderProfile>, meals: map<Id, Meal>, userId: Id, mealId: Id)
    : (r: Outcome<Id>)
    ensures r.Ok? <==>
      ProfileOf(profiles, userId).Some? && mealId in meals && meals[mealId].providerId == ProfileOf(profiles, userId).value
    ensures r.Ok? ==> r.value in profiles && profiles[r.value].userId == userId && meals[mealId].providerId == r.value
    ensures ProfileOf(profiles, userId).None? ==> r == Err(NotFound(ProfileEntity))
    ensures ProfileOf(profiles, userId).Some? && mealId !in meals ==> r == Err(NotFound(MealEntity))
    ensures r.Err? ==> StatusCode(r.error) in {403, 404}
  {
    match ProfileOf(profiles, userId)
    case None => Err(NotFound(ProfileEntity))
    case Some(pid) =>
      if mealId !in meals then Err(NotFound(MealEntity))
      else if meals[mealId].providerId != pid then Err(Forbidden)
      else Ok(pid)
  }

  /** With `userId` unique among profiles, a provider may act exactly on the
      meals filed under their own profile, and on no other provider's. */
  lemma OwnerOnly(profiles: map<Id, ProviderProfile>, meals: map<Id, Meal>, userId: Id, pid: Id, mealId: Id)
    requires UniqueProfileUsers(profiles) && pid in profiles && profiles[pid].userId == userId
    requires mealId in meals
    ensures CheckOwnership(profiles, meals, userId, mealId).Ok? <==> meals[mealId].providerId == pid
    ensures meals[mealId].providerId != pid ==> CheckOwnership(profiles, meals, userId, mealId) == Err(Forbidden)
  {
    ProfileOfIsTheProfile(profiles, userId, pid);
  }

  /** The fields `create` takes from the request; the flags not given fall
      to their column defaults. */
  datatype MealInput = MealInput(
    name: string,
    description: string,
    price: int,
    categoryId: Id,
    isAvailable: Option<bool>,
    isVegetarian: Option<bool>,
    isVegan: Option<bool>,
    isGlutenFree: Option<bool>)

  function OrElse(b: Option<bool>, d: bool): bool {
    if b.Some? then b.value else d
  }

  /** The row `create` writes: the input under the caller's profile, with no
      reviews counted yet. */
  function NewMeal(pid: Id, input: MealInput): (m: Meal)
    ensures m.providerId == pid && m.categoryId == input.categoryId
    ensures m.name == input.name && m.description == input.description && m.price == input.price
    ensures m.rating == 0 && m.totalReviews == 0
    ensures m.isAvailable == (input.isAvailable != Some(false))
    ensures m.isVegetarian == (input.isVegetarian == Some(true))
    ensures m.isVegan == (input.isVegan == Some(true))
    ensures m.isGlutenFree == (input.isGlutenFree == Some(true))
  {
    Meal(pid, input.categoryId, input.name, input.description, input.price,
      OrElse(input.isAvailable, true), OrElse(input.isVegetarian, false), OrElse(input.isVegan, false),
      OrElse(input.isGlutenFree, false), 0, 0)
  }

  /** `create`'s guard ladder: no profile (404), unknown category (404),
      inactive category (400). */
  function CheckCreate(profiles: map<Id, ProviderProfile>, categories: map<Id, Category>, userId: Id, categoryId: Id)
    : (r: Outcome<Id>)
    ensures r.Ok? <==>
      ProfileOf(profiles, userId).Some? && categoryId in categories && categories[categoryId].isActive
    ensures r.Ok? ==> r == Ok(ProfileOf(profiles, userId).value)
    ensures ProfileOf(profiles, userId).None? ==> r == Err(NotFound(ProfileEntity))
    ensures ProfileOf(profiles, userId).Some? && categoryId in categories && !categories[categoryId].isActive
      ==> r == Err(CategoryInactive)
    ensures ProfileOf(profiles, userId).Some? && categoryId !in categories ==> r == Err(NotFound(CategoryEntity))
  {
    match ProfileOf(profiles, userId)
    case None => Err(NotFound(ProfileEntity))
    case Some(pid) =>
      if categoryId !in categories then Err(NotFound(CategoryEntity))
      else if !categories[categoryId].isActive then Err(CategoryInactive)
      else Ok(pid)
  }

  /** `create`: the new meal is stored under a fresh key. */
  method CreateMeal(db: Db, userId: Id, input: MealInput) returns (r: Outcome<(Id, Meal)>)
    requires db.Valid()
    modifies db`meals, db`nextId
    ensures db.Valid()
    ensures match CheckCreate(old(db.profiles), old(db.categories), userId, input.categoryId)
      case Err(f) => r == Err(f) && db.meals == old(db.meals) && db.nextId == old(db.nextId)
      case Ok(pid) =>
        var m := NewMeal(pid, input);
        r == Ok((old(db.nextId), m)) && db.meals == old(db.meals)[old(db.nextId) := m]
  {
    var c := CheckCreate(db.profiles, db.categories, userId, input.categoryId);
    if c.Err? {
      return Err(c.error);
    }
    var m := NewMeal(c.value, input);
    var id := db.NewId();
    NewMealKeepsConsistent(db.profiles, db.categories, db.meals, db.orders, db.reviews, id, m, db.nextId);
    var ms := db.meals[id := m];
    db.meals := ms;
    assert Consistent(db.profiles, db.categories, db.meals, db.orders, db.reviews, db.nextId);
    r := Ok((id, m));
  }

  /** A meal stored under a key no review names, with a zero aggregate and
      an existing category, keeps the invariant. */
  lemma NewMealKeepsConsistent(
    profiles: map<Id, ProviderProfile>, categories: map<Id, Category>, meals: map<Id, Meal>,
    orders: map<Id, Order>, reviews: map<Id, Review>, id: Id, m: Meal, n: Id)
    requires Consistent(profiles, categories, meals, orders, reviews, n)
    requires id < n && forall k :: k in reviews ==> reviews[k].mealId != id
    requires m.rating == 0 && m.totalReviews == 0 && m.categoryId in categories
    ensures Consistent(profiles, categories, meals[id := m], orders, reviews, n)
  {
    NoReviewsMeansZero(reviews, id);
    var ms := meals[id := m];
    forall k | k in ms ensures FreshAggregate(ms[k], reviews, k) {
      if k != id {
        assert FreshAggregate(meals[k], reviews, k);
      }
    }
  }

  /** The fields `update` may change; the rating cache is not among them. */
  datatype MealPatch = MealPatch(
    name: Option<string>,
    description: Option<string>,
    price: Option<int>,
    categoryId: Option<Id>,
    isAvailable: Option<bool>,
    isVegetarian: Option<bool>,
    isVegan: Option<bool>,
    isGlutenFree: Option<bool>)

  function Patch(m: Meal, p: MealPatch): (r: Meal)
    ensures r.providerId == m.providerId && r.rating == m.rating && r.totalReviews == m.totalReviews
    ensures r.categoryId == (if p.categoryId.Some? then p.categoryId.value else m.categoryId)
    ensures r.name == (if p.name.Some? then p.name.value else m.name)
    ensures r.description == (if p.description.Some? then p.description.value else m.description)
    ensures r.price == (if p.price.Some? then p.price.value else m.price)
    ensures r.isAvailable == OrElse(p.isAvailable, m.isAvailable)
    ensures r.isVegetarian == OrElse(p.isVegetarian, m.isVegetarian)
    ensures r.isVegan == OrElse(p.isVegan, m.isVegan)
    ensures r.isGlutenFree == OrElse(p.isGlutenFree, m.isGlutenFree)
  {
    Meal(m.providerId,
      if p.categoryId.Some? then p.categoryId.value else m.categoryId,
      if p.name.Some? then p.name.value else m.name,
      if p.description.Some? then p.description.value else m.description,
      if p.price.Some? then p.price.value else m.price,
      OrElse(p.isAvailable, m.isAvailable),
      OrElse(p.isVegetarian, m.isVegetarian),
      OrElse(p.isVegan, m.isVegan),
      OrElse(p.isGlutenFree, m.isGlutenFree),
      m.rating, m.totalReviews)
  }

  /** An empty patch changes nothing, and a patch applied twice is applied
      once. */
  lemma PatchLaws(m: Meal, p: MealPatch)
    ensures Patch(m, MealPatch(None, None, None, None, None, None, None, None)) == m
    ensures Patch(Patch(m, p), p) == Patch(m, p)
  {
  }

  /** `update`'s guard ladder: the ownership checks, then 404 for a named
      category that does not exist. Whether it is active is not asked. */
  function CheckUpdate(
    profiles: map<Id, ProviderProfile>, categories: map<Id, Category>, meals: map<Id, Meal>,
    userId: Id, mealId: Id, p: MealPatch): (r: Outcome<Id>)
    ensures r.Ok? <==>
      && CheckOwnership(profiles, meals, userId, mealId).Ok?
      && (p.categoryId.Some? ==> p.categoryId.value in categories)
    ensures CheckOwnership(profiles, meals, userId, mealId).Err? ==> r == CheckOwnership(profiles, meals, userId, mealId)
    ensures CheckOwnership(profiles, meals, userId, mealId).Ok? && p.categoryId.Some? && p.categoryId.value !in categories
      ==> r == Err(NotFound(CategoryEntity))
    ensures r.Ok? ==> r == CheckOwnership(profiles, meals, userId, mealId)
  {
    var own := CheckOwnership(profiles, meals, userId, mealId);
    if own.Err? then own
    else if p.categoryId.Some? && p.categoryId.value !in categories then Err(NotFound(CategoryEntity))
    else own
  }

  /** So a meal can be moved into an inactive category by `update`, though
      `create` refuses one. */
  lemma InactiveCategoryOnlyRefusedOnCreate(
    profiles: map<Id, ProviderProfile>, categories: map<Id, Category>, meals: map<Id, Meal>,
    userId: Id, mealId: Id, cid: Id)
    requires cid in categories && !categories[cid].isActive
    requires CheckOwnership(profiles, meals, userId, mealId).Ok?
    ensures CheckUpdate(profiles, categories, meals, userId, mealId,
      MealPatch(None, None, None, Some(cid), None, None, None, None)).Ok?
    ensures CheckCreate(profiles, categories, userId, cid) == Err(CategoryInactive)
  {
  }

  /** `update`: only the owner's meal, and only the supplied fields. */
  method UpdateMeal(db: Db, userId: Id, mealId: Id, p: MealPatch) returns (r: Outcome<Meal>)
    requires db.Valid()
    modifies db`meals
    ensures db.Valid()
    ensures match CheckUpdate(old(db.profiles), old(db.categories), old(db.meals), userId, mealId, p)
      case Err(f) => r == Err(f) && db.meals == old(db.meals)
      case Ok(_) =>
        var m := Patch(old(db.meals)[mealId], p);
        r == Ok(m) && db.meals == old(db.meals)[mealId := m]
  {
    var c := CheckUpdate(db.profiles, db.categories, db.meals, userId, mealId, p);
    if c.Err? {
      return Err(c.error);
    }
    var m := Patch(db.meals[mealId], p);
    RewriteKeepsConsistent(db.profiles, db.categories, db.meals, db.orders, db.reviews, mealId, m, db.nextId);
    var ms := db.meals[mealId := m];
    db.meals := ms;
    assert Consistent(db.profiles, db.categories, db.meals, db.orders, db.reviews, db.nextId);
    r := Ok(m);
  }

  /** Rewriting a meal's own fields, keeping its aggregate, in an existing
      category, keeps the invariant. */
  lemma RewriteKeepsConsistent(
    profiles: map<Id, ProviderProfile>, categories: map<Id, Category>, meals: map<Id, Meal>,
    orders: map<Id, Order>, reviews: map<Id, Review>, id: Id, m: Meal, n: Id)
    requires Consistent(profiles, categories, meals, orders, reviews, n) && id in meals
    requires m.rating == meals[id].rating && m.totalReviews == meals[id].totalReviews
    requires m.categoryId in categories
    ensures Consistent(profiles, categories, meals[id := m], orders, reviews, n)
  {
    var ms := meals[id := m];
    forall k | k in ms ensures FreshAggregate(ms[k], reviews, k) {
      assert FreshAggregate(meals[k], reviews, k);
    }
  }

  function ToggleAvailable(m: Meal): (r: Meal)
    ensures r.isAvailable == !m.isAvailable
    ensures r.(isAvailable := m.isAvailable) == m
  {
    m.(isAvailable := !m.isAvailable)
  }

  /** Toggling twice restores the meal. */
  lemma ToggleAvailableIsAnInvolution(m: Meal)
    ensures ToggleAvailable(ToggleAvailable(m)) == m
  {
  }

  /** `toggleAvailability`: only the owner's meal; `isAvailable` flips and
      nothing else changes. */
  method ToggleAvailability(db: Db, userId: Id, mealId: Id) returns (r: Outcome<Meal>)
    requires db.Valid()
    modifies db`meals
    ensures db.Valid()
    ensures match CheckOwnership(old(db.profiles), old(db.meals), userId, mealId)
      case Err(f) => r == Err(f) && db.meals == old(db.meals)
      case Ok(_) =>
        var m := ToggleAvailable(old(db.meals)[mealId]);
        r == Ok(m) && db.meals == old(db.meals)[mealId := m]
  {
    var c := CheckOwnership(db.profiles, db.meals, userId, mealId);
    if c.Err? {
      return Err(c.error);
    }
    var m := ToggleAvailable(db.meals[mealId]);
    RewriteKeepsConsistent(db.profiles, db.categories, db.meals, db.orders, db.reviews, mealId, m, db.nextId);
    var ms := db.meals[mealId := m];
    db.meals := ms;
    assert Consistent(db.profiles, db.categories, db.meals, db.orders, db.reviews, db.nextId);
    r := Ok(m);
  }

  /** `delete`: only the owner's meal, and only that row. */
  method DeleteMeal(db: Db, userId: Id, mealId: Id) returns (r: Outcome<()>)
    requires db.Valid()
    modifies db`meals
    ensures db.Valid()
    ensures match CheckOwnership(old(db.profiles), old(db.meals), userId, mealId)
      case Err(f) => r == Err(f) && db.meals == old(db.meals)
      case Ok(_) => r == Ok(()) && db.meals == old(db.meals) - {mealId}
  {
    var c := CheckOwnership(db.profiles, db.meals, userId, mealId);
    if c.Err? {
      return Err(c.error);
    }
    RemovalKeepsConsistent(db.profiles, db.categories, db.meals, db.orders, db.reviews, mealId, db.nextId);
    var ms := db.meals - {mealId};
    db.meals := ms;
    assert Consistent(db.profiles, db.categories, db.meals, db.orders, db.reviews, db.nextId);
    r := Ok(());
  }

  lemma RemovalKeepsConsistent(
    profiles: map<Id, ProviderProfile>, categories: map<Id, Category>, meals: map<Id, Meal>,
    orders: map<Id, Order>, reviews: map<Id, Review>, id: Id, n: Id)
    requires Consistent(profiles, categories, meals, orders, reviews, n)
    ensures Consistent(profiles, categories, meals - {id}, orders, reviews, n)
  {
    var ms := meals - {id};
    forall k | k in ms ensures FreshAggregate(ms[k], reviews, k) {
      assert FreshAggregate(meals[k], reviews, k);
    }
  }
}
