/** The review service: who may review, edit and delete, and the rating
    recalculation that follows every change. */
module Reviews {
  import opened Domain
  import opened Ratings
  import opened Store

  /** A review of meal `m` by customer `c` exists. */
  predicate HasReview(reviews: map<Id, Review>, c: Id, m: Id) {
    exists id :: id in reviews && reviews[id].customerId == c && reviews[id].mealId == m
  }

  /** The guard ladder of submitting a review: only customers (the controller
      check), then 404 for an unknown meal, then 400 without a delivered order
      holding the meal, then 409 for a second review of the same meal. */
  function CheckCreate(
    meals: map<Id, Meal>, orders: map<Id, Order>, reviews: map<Id, Review>,
    customerId: Id, role: Role, mealId: Id): (r: Option<Failure>)
    ensures r.None? <==>
      role == Customer && mealId in meals && HasDeliveredOrder(orders, customerId, mealId)
      && !HasReview(reviews, customerId, mealId)
    ensures role != Customer ==> r == Some(Forbidden)
    ensures role == Customer && mealId !in meals ==> r == Some(NotFound(MealEntity))
    ensures role == Customer && mealId in meals && !HasDeliveredOrder(orders, customerId, mealId)
      ==> r == Some(NotEligible)
  {
    if role != Customer then Some(Forbidden)
    else if mealId !in meals then Some(NotFound(MealEntity))
    else if !HasDeliveredOrder(orders, customerId, mealId) then Some(NotEligible)
    else if HasReview(reviews, customerId, mealId) then Some(Conflict)
    else None
  }

  /** An eligible customer's second review of a meal is the conflict. */
  lemma SecondReviewConflicts(
    meals: map<Id, Meal>, orders: map<Id, Order>, reviews: map<Id, Review>, id: Id, mealId: Id)
    requires id in reviews && reviews[id].mealId == mealId && mealId in meals
    requires HasDeliveredOrder(orders, reviews[id].customerId, mealId)
    ensures CheckCreate(meals, orders, reviews, reviews[id].customerId, Customer, mealId) == Some(Conflict)
  {
  }

  /** A write to the reviews of meal `m` alone, followed by its
      recalculation, keeps the store invariant. */
  lemma ReviewWriteKeepsConsistent(
    profiles: map<Id, ProviderProfile>, categories: map<Id, Category>, meals: map<Id, Meal>,
    orders: map<Id, Order>, reviews: map<Id, Review>, reviews': map<Id, Review>, m: Id, n: Id)
    requires Consistent(profiles, categories, meals, orders, reviews, n)
    requires IdsBelow(reviews'.Keys, n) && (forall k :: k in reviews' ==> reviews'[k].mealId < n)
    requires RatingsInRange(reviews') && OneReviewPerPair(reviews') && ReviewsBacked(orders, reviews')
    requires AgreeOffMeal(reviews, reviews', m)
    ensures m in meals ==> Consistent(profiles, categories, Recalc(meals, reviews', m), orders, reviews', n)
    ensures m !in meals ==> Consistent(profiles, categories, meals, orders, reviews', n)
  {
    CacheSurvivesOffMeal(meals, reviews, reviews', m);
    if m in meals {
      RecalcRestoresCache(meals, reviews', m);
    } else {
      ConsistentWithoutMeal(meals, reviews', m);
    }
  }

  /** `_recalculateMealRating`: the meal's rating and count are rewritten
      from the current reviews; a meal that is gone makes the update fail. */
  method RecalculateMealRating(db: Db, mealId: Id) returns (r: Outcome<()>)
    modifies db`meals
    ensures mealId in old(db.meals) ==> r == Ok(()) && db.meals == Recalc(old(db.meals), db.reviews, mealId)
    ensures mealId !in old(db.meals) ==> r == Err(StoreError) && db.meals == old(db.meals)
  {
    if mealId !in db.meals {
      return Err(StoreError);
    }
    db.meals := Recalc(db.meals, db.reviews, mealId);
    r := Ok(());
  }

  /** `create`: the review is stored under a fresh id and its meal's
      aggregate is recomputed; a refused review changes nothing. */
  method Create(db: Db, customerId: Id, role: Role, mealId: Id, rating: int, comment: Option<string>)
    returns (r: Outcome<(Id, Review)>)
    requires db.Valid()
    requires 1 <= rating <= 5 && (comment.Some? ==> |comment.value| <= 500)
    modifies db`reviews, db`meals, db`nextId
    ensures db.Valid()
    ensures var c := CheckCreate(old(db.meals), old(db.orders), old(db.reviews), customerId, role, mealId);
      match c
      case Some(f) =>
        r == Err(f) && db.reviews == old(db.reviews) && db.meals == old(db.meals) && db.nextId == old(db.nextId)
      case None =>
        var rv := Review(customerId, mealId, rating, comment);
        && r == Ok((old(db.nextId), rv))
        && db.reviews == old(db.reviews)[old(db.nextId) := rv]
        && db.meals == Recalc(old(db.meals), db.reviews, mealId)
  {
    var c := CheckCreate(db.meals, db.orders, db.reviews, customerId, role, mealId);
    if c.Some? {
      return Err(c.value);
    }
    var rv := Review(customerId, mealId, rating, comment);
    var id := db.NewId();
    CreateKeepsConsistent(db.profiles, db.categories, db.meals, db.orders, db.reviews, id, rv, db.nextId);
    var rs := db.reviews[id := rv];
    db.reviews := rs;
    var _ := RecalculateMealRating(db, mealId);
    r := Ok((id, rv));
  }

  /** Storing an admitted review under a fresh id and recalculating its meal
      keeps the invariant. */
  lemma CreateKeepsConsistent(
    profiles: map<Id, ProviderProfile>, categories: map<Id, Category>, meals: map<Id, Meal>,
    orders: map<Id, Order>, reviews: map<Id, Review>, id: Id, rv: Review, n: Id)
    requires Consistent(profiles, categories, meals, orders, reviews, n)
    requires id < n && id !in reviews && rv.mealId in meals && 1 <= rv.rating <= 5
    requires HasDeliveredOrder(orders, rv.customerId, rv.mealId) && !HasReview(reviews, rv.customerId, rv.mealId)
    ensures Consistent(profiles, categories, Recalc(meals, reviews[id := rv], rv.mealId), orders, reviews[id := rv], n)
  {
    InsertReview(reviews, id, rv);
    BackingSurvivesReviewWrite(orders, reviews, id, rv);
    NewPairKeepsOnePerPair(reviews, id, rv);
    ReviewWriteKeepsConsistent(profiles, categories, meals, orders, reviews, reviews[id := rv], rv.mealId, n);
  }

  lemma NewPairKeepsOnePerPair(reviews: map<Id, Review>, id: Id, rv: Review)
    requires OneReviewPerPair(reviews) && id !in reviews
    requires !HasReview(reviews, rv.customerId, rv.mealId)
    ensures OneReviewPerPair(reviews[id := rv])
  {
  }

  /** `update`'s write: the supplied fields replace the old ones, the rest is
      kept. */
  function Patch(rv: Review, rating: Option<int>, comment: Option<string>): (r: Review)
    ensures r.customerId == rv.customerId && r.mealId == rv.mealId
    ensures r.rating == (if rating.Some? then rating.value else rv.rating)
    ensures r.comment == (if comment.Some? then comment else rv.comment)
  {
    Review(rv.customerId, rv.mealId,
      match rating case Some(x) => x case None => rv.rating,
      match comment case Some(_) => comment case None => rv.comment)
  }

  /** An empty patch changes nothing, and patching twice with the same fields
      is patching once. */
  lemma PatchLaws(rv: Review, rating: Option<int>, comment: Option<string>)
    ensures Patch(rv, None, None) == rv
    ensures Patch(Patch(rv, rating, comment), rating, comment) == Patch(rv, rating, comment)
  {
  }

  /** The guard ladder of `update`: 404, then 403 unless the caller wrote the
      review. */
  function CheckUpdate(reviews: map<Id, Review>, customerId: Id, reviewId: Id): (r: Option<Failure>)
    ensures r.None? <==> reviewId in reviews && reviews[reviewId].customerId == customerId
    ensures reviewId !in reviews ==> r == Some(NotFound(ReviewEntity))
    ensures reviewId in reviews && r.Some? ==> r == Some(Forbidden)
  {
    if reviewId !in reviews then Some(NotFound(ReviewEntity))
    else if reviews[reviewId].customerId != customerId then Some(Forbidden)
    else None
  }

  /** `update`: only the author may edit; the patched review is written and
      its meal recomputed. If the meal is gone the recomputation fails after
      the review was written, as the two statements are not one transaction. */
  method Update(db: Db, customerId: Id, reviewId: Id, rating: Option<int>, comment: Option<string>)
    returns (r: Outcome<Review>)
    requires db.Valid()
    requires rating.Some? ==> 1 <= rating.value <= 5
    requires comment.Some? ==> |comment.value| <= 500
    modifies db`reviews, db`meals
    ensures db.Valid()
    ensures var c := CheckUpdate(old(db.reviews), customerId, reviewId);
      match c
      case Some(f) => r == Err(f) && db.reviews == old(db.reviews) && db.meals == old(db.meals)
      case None =>
        var rv := Patch(old(db.reviews)[reviewId], rating, comment);
        var m := rv.mealId;
        && db.reviews == old(db.reviews)[reviewId := rv]
        && (m in old(db.meals) ==> r == Ok(rv) && db.meals == Recalc(old(db.meals), db.reviews, m))
        && (m !in old(db.meals) ==> r == Err(StoreError) && db.meals == old(db.meals))
  {
    var c := CheckUpdate(db.reviews, customerId, reviewId);
    if c.Some? {
      return Err(c.value);
    }
    var rv := Patch(db.reviews[reviewId], rating, comment);
    var m := rv.mealId;
    UpdateKeepsConsistent(db.profiles, db.categories, db.meals, db.orders, db.reviews, reviewId, rv, db.nextId);
    var rs := db.reviews[reviewId := rv];
    db.reviews := rs;
    var w := RecalculateMealRating(db, m);
    if w.Err? {
      return Err(StoreError);
    }
    r := Ok(rv);
  }

  /** Rewriting a review in place and recalculating its meal keeps the
      invariant. */
  lemma UpdateKeepsConsistent(
    profiles: map<Id, ProviderProfile>, categories: map<Id, Category>, meals: map<Id, Meal>,
    orders: map<Id, Order>, reviews: map<Id, Review>, id: Id, rv: Review, n: Id)
    requires Consistent(profiles, categories, meals, orders, reviews, n) && id in reviews
    requires rv.customerId == reviews[id].customerId && rv.mealId == reviews[id].mealId
    requires 1 <= rv.rating <= 5
    ensures rv.mealId in meals ==>
      Consistent(profiles, categories, Recalc(meals, reviews[id := rv], rv.mealId), orders, reviews[id := rv], n)
    ensures rv.mealId !in meals ==> Consistent(profiles, categories, meals, orders, reviews[id := rv], n)
  {
    ReplaceReview(reviews, id, rv);
    BackingSurvivesReviewWrite(orders, reviews, id, rv);
    SamePairKeepsOnePerPair(reviews, id, rv);
    ReviewWriteKeepsConsistent(profiles, categories, meals, orders, reviews, reviews[id := rv], rv.mealId, n);
  }

  lemma SamePairKeepsOnePerPair(reviews: map<Id, Review>, id: Id, rv: Review)
    requires OneReviewPerPair(reviews) && id in reviews
    requires rv.customerId == reviews[id].customerId && rv.mealId == reviews[id].mealId
    ensures OneReviewPerPair(reviews[id := rv])
  {
  }

  /** The guard ladder of `delete`: 404, then 403 unless the caller wrote the
      review or is an admin. */
  function CheckDelete(reviews: map<Id, Review>, requesterId: Id, role: Role, reviewId: Id): (r: Option<Failure>)
    ensures r.None? <==> reviewId in reviews && (reviews[reviewId].customerId == requesterId || role == Admin)
    ensures reviewId !in reviews ==> r == Some(NotFound(ReviewEntity))
    ensures reviewId in reviews && r.Some? ==> r == Some(Forbidden)
  {
    if reviewId !in reviews then Some(NotFound(ReviewEntity))
    else if reviews[reviewId].customerId != requesterId && role != Admin then Some(Forbidden)
    else None
  }

  /** Deleting one review and recalculating its meal keeps the invariant. */
  lemma DeleteKeepsConsistent(
    profiles: map<Id, ProviderProfile>, categories: map<Id, Category>, meals: map<Id, Meal>,
    orders: map<Id, Order>, reviews: map<Id, Review>, id: Id, n: Id)
    requires Consistent(profiles, categories, meals, orders, reviews, n) && id in reviews
    ensures var m := reviews[id].mealId;
      && (m in meals ==> Consistent(profiles, categories, Recalc(meals, reviews - {id}, m), orders, reviews - {id}, n))
      && (m !in meals ==> Consistent(profiles, categories, meals, orders, reviews - {id}, n))
  {
    RemoveReview(reviews, id);
    ReviewWriteKeepsConsistent(profiles, categories, meals, orders, reviews, reviews - {id}, reviews[id].mealId, n);
  }

  /** `delete`: only that review goes, and its meal is recomputed. */
  method Delete(db: Db, requesterId: Id, role: Role, reviewId: Id) returns (r: Outcome<()>)
    requires db.Valid()
    modifies db`reviews, db`meals
    ensures db.Valid()
    ensures var c := CheckDelete(old(db.reviews), requesterId, role, reviewId);
      match c
      case Some(f) => r == Err(f) && db.reviews == old(db.reviews) && db.meals == old(db.meals)
      case None =>
        var m := old(db.reviews)[reviewId].mealId;
        && db.reviews == old(db.reviews) - {reviewId}
        && (m in old(db.meals) ==> r == Ok(()) && db.meals == Recalc(old(db.meals), db.reviews, m))
        && (m !in old(db.meals) ==> r == Err(StoreError) && db.meals == old(db.meals))
  {
    var c := CheckDelete(db.reviews, requesterId, role, reviewId);
    if c.Some? {
      return Err(c.value);
    }
    var m := db.reviews[reviewId].mealId;
    DeleteKeepsConsistent(db.profiles, db.categories, db.meals, db.orders, db.reviews, reviewId, db.nextId);
    var rs := db.reviews - {reviewId};
    db.reviews := rs;
    r := RecalculateMealRating(db, m);
    assert Consistent(db.profiles, db.categories, db.meals, db.orders, db.reviews, db.nextId);
  }

  /** `getByMeal`'s `averageRating` and `totalReviews`. */
  function MealSummary(reviews: map<Id, Review>, mealId: Id): (r: (int, nat))
    ensures r.1 == |MealReviews(reviews, mealId)|
    ensures r.1 == 0 ==> r.0 == 0
  {
    (MealRating(reviews, mealId), ReviewCount(reviews, mealId))
  }

  /** In a consistent store the summary a meal page shows is the meal's
      cached rating and count, and a reviewed meal shows between 1.0 and 5.0
      stars. */
  lemma SummaryMatchesCache(db: Db, mealId: Id)
    requires db.Valid() && mealId in db.meals
    ensures MealSummary(db.reviews, mealId) == (db.meals[mealId].rating, db.meals[mealId].totalReviews)
    ensures db.meals[mealId].totalReviews > 0 ==> 10 <= db.meals[mealId].rating <= 50
    ensures db.meals[mealId].totalReviews == 0 ==> db.meals[mealId].rating == 0
  {
    assert FreshAggregate(db.meals[mealId], db.reviews, mealId);
    if db.meals[mealId].totalReviews > 0 {
      MealRatingInRange(db.reviews, mealId);
    }
  }

  /** The worked example on a review table: a meal rated 5, 4 and 5 shows
      4.7, and after the 4 is deleted it shows 5.0. */
  lemma DeletingTheFourRaisesTheMean(reviews: map<Id, Review>, m: Id, a: Id, b: Id, c: Id)
    requires MealReviews(reviews, m) == {a, b, c} && a != b && b != c && a != c
    requires reviews[a].rating == 5 && reviews[b].rating == 4 && reviews[c].rating == 5
    ensures MealRating(reviews, m) == 47
    ensures MealRating(reviews - {b}, m) == 50
  {
    var ids := {a, b, c};
    SumRemove(reviews, ids, b);
    assert ids - {b} == {a, c};
    SumRemove(reviews, {a, c}, a);
    assert {a, c} - {a} == {c};
    SumRemove(reviews, {c}, c);
    assert {c} - {c} == {};
    WorkedExample();
    RemoveReview(reviews, b);
    assert MealReviews(reviews - {b}, m) == {a, c};
    SumAgree(reviews, reviews - {b}, {a, c});
  }
}
