/** The database: one map per table, keyed by primary key, and the counter
    fresh keys are drawn from. `Valid` collects what every service operation
    preserves — fresh keys, the unique constraints, the rating cache, the
    order timestamps and the review eligibility rule. */
module Store {
  import opened Domain
  import opened Lifecycle
  import opened Ratings

  predicate IdsBelow(keys: set<Id>, n: Id) {
    forall k :: k in keys ==> k < n
  }

  /** `userId` is unique among provider profiles. */
  predicate UniqueProfileUsers(profiles: map<Id, ProviderProfile>) {
    forall p, q :: p in profiles && q in profiles && profiles[p].userId == profiles[q].userId ==> p == q
  }

  /** The `customerId_mealId` unique constraint. */
  predicate OneReviewPerPair(reviews: map<Id, Review>) {
    forall i, j :: i in reviews && j in reviews
      && reviews[i].customerId == reviews[j].customerId && reviews[i].mealId == reviews[j].mealId
      ==> i == j
  }

  predicate HasLineFor(o: Order, m: Id) {
    exists i :: 0 <= i < |o.lines| && o.lines[i].mealId == m
  }

  /** `order.findFirst({ customerId, status: "DELIVERED", items: { some: { mealId } } })`. */
  predicate HasDeliveredOrder(orders: map<Id, Order>, c: Id, m: Id) {
    exists oid :: oid in orders && orders[oid].customerId == c && orders[oid].status == Delivered && HasLineFor(orders[oid], m)
  }

  /** Every review's author has a delivered order containing the meal. */
  predicate ReviewsBacked(orders: map<Id, Order>, reviews: map<Id, Review>) {
    forall id {:trigger HasDeliveredOrder(orders, reviews[id].customerId, reviews[id].mealId)} ::
      id in reviews ==> HasDeliveredOrder(orders, reviews[id].customerId, reviews[id].mealId)
  }

  /** The route schema admits whole ratings from 1 to 5 only. */
  predicate RatingsInRange(reviews: map<Id, Review>) {
    forall k :: k in reviews ==> 1 <= reviews[k].rating <= 5
  }

  /** Every meal's category exists (the foreign key `delete` guards). */
  predicate MealsCategorised(meals: map<Id, Meal>, categories: map<Id, Category>) {
    forall k :: k in meals ==> meals[k].categoryId in categories
  }

  predicate OrderRowValid(o: Order) {
    WellStamped(o) && o.totalAmount == LinesTotal(o.lines)
  }

  /** Rewriting an order that was not delivered keeps every review backed. */
  lemma BackingSurvivesOrderWrite(orders: map<Id, Order>, reviews: map<Id, Review>, oid: Id, o: Order)
    requires ReviewsBacked(orders, reviews)
    requires oid in orders ==> orders[oid].status != Delivered
    ensures ReviewsBacked(orders[oid := o], reviews)
  {
    var orders' := orders[oid := o];
    forall id | id in reviews
      ensures HasDeliveredOrder(orders', reviews[id].customerId, reviews[id].mealId)
    {
      var c, m := reviews[id].customerId, reviews[id].mealId;
      assert HasDeliveredOrder(orders, c, m);
      var w :| w in orders && orders[w].customerId == c && orders[w].status == Delivered && HasLineFor(orders[w], m);
      assert w != oid;
      assert orders'[w] == orders[w];
    }
  }

  /** A review whose author and meal are unchanged stays backed. */
  lemma BackingSurvivesReviewWrite(orders: map<Id, Order>, reviews: map<Id, Review>, id: Id, rv: Review)
    requires ReviewsBacked(orders, reviews)
    requires HasDeliveredOrder(orders, rv.customerId, rv.mealId)
    ensures ReviewsBacked(orders, reviews[id := rv])
  {
  }

  /** The invariant every service operation keeps, stated on the tables. */
  ghost predicate Consistent(
    profiles: map<Id, ProviderProfile>, categories: map<Id, Category>, meals: map<Id, Meal>,
    orders: map<Id, Order>, reviews: map<Id, Review>, nextId: Id)
  {
    && IdsBelow(categories.Keys, nextId)
    && IdsBelow(meals.Keys, nextId)
    && IdsBelow(orders.Keys, nextId)
    && IdsBelow(reviews.Keys, nextId)
    && (forall k :: k in reviews ==> reviews[k].mealId < nextId)
    && RatingsInRange(reviews)
    && MealsCategorised(meals, categories)
    && UniqueProfileUsers(profiles)
    && OneReviewPerPair(reviews)
    && CacheConsistent(meals, reviews)
    && (forall k :: k in orders ==> OrderRowValid(orders[k]))
    && ReviewsBacked(orders, reviews)
  }

  class Db {
    var users: map<Id, User>
    var profiles: map<Id, ProviderProfile>
    var categories: map<Id, Category>
    var meals: map<Id, Meal>
    var orders: map<Id, Order>
    var reviews: map<Id, Review>
    var nextId: Id

    ghost predicate Valid()
      reads this
    {
      Consistent(profiles, categories, meals, orders, reviews, nextId)
    }

    /** An empty database with the given users and provider profiles. */
    constructor (users: map<Id, User>, profiles: map<Id, ProviderProfile>)
      requires UniqueProfileUsers(profiles)
      ensures Valid()
      ensures this.users == users && this.profiles == profiles
      ensures categories == map[] && meals == map[] && orders == map[] && reviews == map[]
    {
      this.users := users;
      this.profiles := profiles;
      categories := map[];
      meals := map[];
      orders := map[];
      reviews := map[];
      nextId := 0;
    }

    /** Draws a key no row of the insertable tables has. */
    method NewId() returns (id: Id)
      requires Valid()
      modifies this`nextId
      ensures Valid()
      ensures id == old(nextId) && nextId == id + 1
      ensures id !in categories && id !in meals && id !in orders && id !in reviews
      ensures forall k :: k in reviews ==> reviews[k].mealId != id
    {
      id := nextId;
      nextId := nextId + 1;
    }
  }

  /** `providerProfile.findUnique({ where: { userId } })`. */
  function ProfileOf(profiles: map<Id, ProviderProfile>, userId: Id): (r: Option<Id>)
    ensures r.Some? ==> r.value in profiles && profiles[r.value].userId == userId
    ensures r.None? <==> forall p :: p in profiles ==> profiles[p].userId != userId
  {
    var ps := set p | p in profiles && profiles[p].userId == userId;
    if ps == {} then
      assert forall p :: p in profiles ==> p !in ps ==> profiles[p].userId != userId;
      None
    else Some(MinId(ps))
  }

  /** With `userId` unique, the lookup finds the one profile of that user. */
  lemma ProfileOfIsTheProfile(profiles: map<Id, ProviderProfile>, userId: Id, p: Id)
    requires UniqueProfileUsers(profiles)
    requires p in profiles && profiles[p].userId == userId
    ensures ProfileOf(profiles, userId) == Some(p)
  {
  }
}
