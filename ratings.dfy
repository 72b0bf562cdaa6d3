/** The rating aggregate of the review service: a meal's cached `rating` is the
    mean of its reviews' ratings rounded half up to one decimal, held here in
    integer tenths, and `totalReviews` is their number. */
module Ratings {
  import opened Domain

  /** `Math.round(avg * 10)` for the mean `sum / count`, in tenths; 0 when
      there are no reviews (`_avg.rating` is null then). */
  function RatingTenths(sum: int, count: nat): (t: int)
    ensures count == 0 ==> t == 0
    ensures count > 0 ==> 2 * count * t <= 20 * sum + count < 2 * count * t + 2 * count
  {
    if count == 0 then 0
    else
      var d, a := 2 * count, 20 * sum + count;
      var q := a / d;
      assert a == d * q + a % d;
      q
  }

  /** The rounding is the nearest tenth with ties going up: exactly one
      integer t has 10·sum/count − 1/2 ≤ t < 10·sum/count + 1/2. */
  lemma NearestTenthIsUnique(sum: int, count: nat, t: int)
    requires count > 0
    requires 2 * count * t <= 20 * sum + count < 2 * count * t + 2 * count
    ensures t == RatingTenths(sum, count)
  {
    var u := RatingTenths(sum, count);
    if t < u {
      MulMonotone(2 * count, t + 1, u);
    } else if u < t {
      MulMonotone(2 * count, u + 1, t);
    }
  }

  lemma MulMonotone(c: nat, x: int, y: int)
    requires x <= y
    ensures c * x <= c * y
  {
  }

  /** Ratings between 1 and 5 give a cached rating between 1.0 and 5.0. */
  lemma RatingInStarRange(sum: int, count: nat)
    requires count > 0 && count <= sum <= 5 * count
    ensures 10 <= RatingTenths(sum, count) <= 50
  {
    var t := RatingTenths(sum, count);
    if t > 50 {
      MulMonotone(2 * count, 51, t);
    }
    if t < 10 {
      MulMonotone(2 * count, t + 1, 10);
    }
  }

  /** The worked figures: ratings [5, 4, 5] give 4.7, and [5, 5] give 5.0. */
  lemma WorkedExample()
    ensures RatingTenths(5 + 4 + 5, 3) == 47
    ensures RatingTenths(5 + 5, 2) == 50
  {
    NearestTenthIsUnique(14, 3, 47);
    NearestTenthIsUnique(10, 2, 50);
  }

  /** The ids of a meal's reviews: `where: { mealId }`. */
  function MealReviews(reviews: map<Id, Review>, m: Id): (ids: set<Id>)
    ensures ids <= reviews.Keys
  {
    set id | id in reviews && reviews[id].mealId == m
  }

  /** The sum of the ratings of some reviews, taken smallest id first. */
  function SumRatings(reviews: map<Id, Review>, ids: set<Id>): int
    requires ids <= reviews.Keys
    decreases ids
  {
    if ids == {} then 0
    else
      var k := MinId(ids);
      reviews[k].rating + SumRatings(reviews, ids - {k})
  }

  /** The rating `_recalculateMealRating` stores for meal `m`. */
  function MealRating(reviews: map<Id, Review>, m: Id): int {
    var ids := MealReviews(reviews, m);
    RatingTenths(SumRatings(reviews, ids), |ids|)
  }

  /** The review count it stores. */
  function ReviewCount(reviews: map<Id, Review>, m: Id): nat {
    |MealReviews(reviews, m)|
  }

  /** Every meal's cached aggregate agrees with its reviews. */
  predicate CacheConsistent(meals: map<Id, Meal>, reviews: map<Id, Review>) {
    forall m {:trigger FreshAggregate(meals[m], reviews, m)} :: m in meals ==> FreshAggregate(meals[m], reviews, m)
  }

  predicate FreshAggregate(meal: Meal, reviews: map<Id, Review>, m: Id) {
    meal.rating == MealRating(reviews, m) && meal.totalReviews == ReviewCount(reviews, m)
  }

  /** The cache agrees for every meal except possibly `m`. */
  predicate ConsistentExcept(meals: map<Id, Meal>, reviews: map<Id, Review>, m: Id) {
    forall k :: k in meals && k != m ==> FreshAggregate(meals[k], reviews, k)
  }

  /** The meals table after `_recalculateMealRating(m)`: meal `m`'s rating and
      count are rewritten, every other field and every other meal is kept. */
  function Recalc(meals: map<Id, Meal>, reviews: map<Id, Review>, m: Id): (r: map<Id, Meal>)
    requires m in meals
    ensures r.Keys == meals.Keys
    ensures FreshAggregate(r[m], reviews, m)
    ensures r[m] == meals[m].(rating := r[m].rating, totalReviews := r[m].totalReviews)
    ensures forall k :: k in meals && k != m ==> r[k] == meals[k]
  {
    meals[m := meals[m].(rating := MealRating(reviews, m), totalReviews := ReviewCount(reviews, m))]
  }

  /** Recalculating the one meal whose reviews changed restores the cache. */
  lemma RecalcRestoresCache(meals: map<Id, Meal>, reviews: map<Id, Review>, m: Id)
    requires m in meals && ConsistentExcept(meals, reviews, m)
    ensures CacheConsistent(Recalc(meals, reviews, m), reviews)
  {
    var r := Recalc(meals, reviews, m);
    forall k | k in r ensures FreshAggregate(r[k], reviews, k) {
      if k != m {
        assert r[k] == meals[k];
      }
    }
  }

  /** A recalculation of a meal that is gone is not needed. */
  lemma ConsistentWithoutMeal(meals: map<Id, Meal>, reviews: map<Id, Review>, m: Id)
    requires m !in meals && ConsistentExcept(meals, reviews, m)
    ensures CacheConsistent(meals, reviews)
  {
  }

  /** A meal without reviews has rating 0 and count 0. */
  lemma NoReviewsMeansZero(reviews: map<Id, Review>, m: Id)
    requires forall id :: id in reviews ==> reviews[id].mealId != m
    ensures MealRating(reviews, m) == 0 && ReviewCount(reviews, m) == 0
  {
    assert MealReviews(reviews, m) == {};
  }

  /** The sum does not depend on which review is taken first. */
  lemma {:induction false} SumRemove(reviews: map<Id, Review>, ids: set<Id>, x: Id)
    requires ids <= reviews.Keys && x in ids
    ensures SumRatings(reviews, ids) == reviews[x].rating + SumRatings(reviews, ids - {x})
    decreases ids
  {
    var k := MinId(ids);
    if k != x {
      var rest := ids - {k};
      SumRemove(reviews, rest, x);
      var restX := ids - {x};
      assert k in restX;
      assert MinId(restX) == k by {
        var k' := MinId(restX);
        assert k <= k' && k' <= k;
      }
      assert restX - {k} == rest - {x};
    }
  }

  /** Sums over the same ids agree when the ratings there agree. */
  lemma {:induction false} SumAgree(r1: map<Id, Review>, r2: map<Id, Review>, ids: set<Id>)
    requires ids <= r1.Keys && ids <= r2.Keys
    requires forall id :: id in ids ==> r1[id].rating == r2[id].rating
    ensures SumRatings(r1, ids) == SumRatings(r2, ids)
    decreases ids
  {
    if ids != {} {
      SumAgree(r1, r2, ids - {MinId(ids)});
    }
  }

  /** Ratings between 1 and 5 sum to between |ids| and 5·|ids|. */
  lemma {:induction false} SumInRange(reviews: map<Id, Review>, ids: set<Id>)
    requires ids <= reviews.Keys
    requires forall id :: id in ids ==> 1 <= reviews[id].rating <= 5
    ensures |ids| <= SumRatings(reviews, ids) <= 5 * |ids|
    decreases ids
  {
    if ids != {} {
      SumInRange(reviews, ids - {MinId(ids)});
    }
  }

  /** Reviews that all rate between 1 and 5 keep every reviewed meal's cached
      rating between 1.0 and 5.0. */
  lemma MealRatingInRange(reviews: map<Id, Review>, m: Id)
    requires forall id :: id in reviews ==> 1 <= reviews[id].rating <= 5
    requires ReviewCount(reviews, m) > 0
    ensures 10 <= MealRating(reviews, m) <= 50
  {
    var ids := MealReviews(reviews, m);
    SumInRange(reviews, ids);
    RatingInStarRange(SumRatings(reviews, ids), |ids|);
  }

  /** Two review tables that hold the same reviews for every meal other than
      `m`. */
  predicate AgreeOffMeal(r1: map<Id, Review>, r2: map<Id, Review>, m: Id) {
    && (forall id :: id in r1 && r1[id].mealId != m ==> id in r2 && r2[id] == r1[id])
    && (forall id :: id in r2 && r2[id].mealId != m ==> id in r1 && r1[id] == r2[id])
  }

  /** A change to the reviews of meal `m` leaves every other meal's aggregate
      where it was. */
  lemma OtherMealsUnaffected(r1: map<Id, Review>, r2: map<Id, Review>, m: Id, k: Id)
    requires AgreeOffMeal(r1, r2, m) && k != m
    ensures MealRating(r2, k) == MealRating(r1, k) && ReviewCount(r2, k) == ReviewCount(r1, k)
  {
    var ids := MealReviews(r1, k);
    assert MealReviews(r2, k) == ids;
    SumAgree(r1, r2, ids);
  }

  /** So a consistent cache stays consistent off meal `m` when only meal `m`'s
      reviews change. */
  lemma CacheSurvivesOffMeal(meals: map<Id, Meal>, r1: map<Id, Review>, r2: map<Id, Review>, m: Id)
    requires CacheConsistent(meals, r1) && AgreeOffMeal(r1, r2, m)
    ensures ConsistentExcept(meals, r2, m)
  {
    forall k | k in meals && k != m ensures FreshAggregate(meals[k], r2, k) {
      assert FreshAggregate(meals[k], r1, k);
      OtherMealsUnaffected(r1, r2, m, k);
    }
  }

  /** Adding a review of meal `m` adds one to its count and the rating to its
      sum. */
  lemma InsertReview(reviews: map<Id, Review>, id: Id, rv: Review)
    requires id !in reviews
    ensures var r2 := reviews[id := rv];
      && MealReviews(r2, rv.mealId) == MealReviews(reviews, rv.mealId) + {id}
      && SumRatings(r2, MealReviews(r2, rv.mealId)) == SumRatings(reviews, MealReviews(reviews, rv.mealId)) + rv.rating
      && AgreeOffMeal(reviews, r2, rv.mealId)
  {
    var r2 := reviews[id := rv];
    var old_ := MealReviews(reviews, rv.mealId);
    var new_ := MealReviews(r2, rv.mealId);
    assert new_ == old_ + {id};
    SumRemove(r2, new_, id);
    assert new_ - {id} == old_;
    SumAgree(reviews, r2, old_);
  }

  /** Removing a review of meal `m` takes one from its count and the rating
      from its sum. */
  lemma RemoveReview(reviews: map<Id, Review>, id: Id)
    requires id in reviews
    ensures var r2 := reviews - {id}; var m := reviews[id].mealId;
      && MealReviews(r2, m) == MealReviews(reviews, m) - {id}
      && SumRatings(r2, MealReviews(r2, m)) == SumRatings(reviews, MealReviews(reviews, m)) - reviews[id].rating
      && AgreeOffMeal(reviews, r2, m)
  {
    var r2 := reviews - {id};
    var m := reviews[id].mealId;
    var old_ := MealReviews(reviews, m);
    var new_ := MealReviews(r2, m);
    assert new_ == old_ - {id};
    SumRemove(reviews, old_, id);
    SumAgree(reviews, r2, new_);
  }

  /** Rewriting a review without moving it to another meal changes its meal's
      sum by the difference of the ratings and keeps its count. */
  lemma ReplaceReview(reviews: map<Id, Review>, id: Id, rv: Review)
    requires id in reviews && rv.mealId == reviews[id].mealId
    ensures var r2 := reviews[id := rv]; var m := rv.mealId;
      && MealReviews(r2, m) == MealReviews(reviews, m)
      && SumRatings(r2, MealReviews(r2, m)) == SumRatings(reviews, MealReviews(reviews, m)) - reviews[id].rating + rv.rating
      && AgreeOffMeal(reviews, r2, m)
  {
    var r2 := reviews[id := rv];
    var m := rv.mealId;
    var ids := MealReviews(reviews, m);
    assert MealReviews(r2, m) == ids;
    SumRemove(reviews, ids, id);
    SumRemove(r2, ids, id);
    SumAgree(reviews, r2, ids - {id});
  }
}
