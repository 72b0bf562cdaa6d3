/** Entities, enumerations and the error taxonomy shared by every service of the
    food-ordering marketplace. Store rows are values; the tables that hold them
    live in module Store. Money is integer cents, ratings are integer tenths and
    time is an integer clock reading supplied by the caller. */
module Domain {

  /** Primary keys. The store hands out fresh ones and never reuses them. */
  type Id = nat

  /** A clock reading (milliseconds); `new Date()` becomes a parameter. */
  type Time = int

  datatype Option<+T> = None | Some(value: T)

  datatype Result<+T, +E> = Ok(value: T) | Err(error: E)

  datatype Role = Customer | Provider | Admin

  datatype UserStatus = Active | Suspended

  datatype OrderStatus = Placed | Preparing | Ready | Delivered | Cancelled

  /** The tables a not-found error can be about. */
  datatype Entity =
    | UserEntity | ProfileEntity | ProviderEntity | CategoryEntity
    | MealEntity | OrderEntity | ReviewEntity

  /** The `{ statusCode, message }` objects the services throw, as a closed set
      of variants carrying the data their messages interpolate. */
  datatype Failure =
    | NotFound(entity: Entity)
    | MealsNotFound(missing: seq<Id>)
    | Unauthorized
    | AccountSuspended
    | Forbidden
    | InvalidTransition(from: OrderStatus, requested: OrderStatus, allowed: seq<OrderStatus>)
    | NotCancellable(status: OrderStatus)
    | MealsUnavailable(names: set<string>)
    | NotEligible
    | SelfModification
    | CategoryInactive
    | CategoryInUse(mealCount: nat)
    | Conflict
    | StoreError

  type Outcome<T> = Result<T, Failure>

  /** The HTTP status each failure is reported with. A store error carries no
      status code of its own, so the controllers answer 500. */
  function StatusCode(f: Failure): (code: nat)
    ensures 400 <= code < 600
    ensures code == 404 <==> f.NotFound? || f.MealsNotFound?
    ensures code == 403 <==> f.AccountSuspended? || f.Forbidden?
  {
    match f
    case NotFound(_) => 404
    case MealsNotFound(_) => 404
    case Unauthorized => 401
    case AccountSuspended => 403
    case Forbidden => 403
    case InvalidTransition(_, _, _) => 400
    case NotCancellable(_) => 400
    case MealsUnavailable(_) => 400
    case NotEligible => 400
    case SelfModification => 400
    case CategoryInactive => 400
    case CategoryInUse(_) => 400
    case Conflict => 409
    case StoreError => 500
  }

  datatype User = User(name: string, email: string, role: Role, status: UserStatus)

  datatype ProviderProfile = ProviderProfile(
    userId: Id,
    restaurantName: string,
    totalOrders: nat,
    isVerified: bool)

  datatype Category = Category(
    name: string,
    slug: string,
    description: Option<string>,
    image: Option<string>,
    isActive: bool)

  /** `rating` is the cached average in tenths of a star (47 stands for 4.7). */
  datatype Meal = Meal(
    providerId: Id,
    categoryId: Id,
    name: string,
    description: string,
    price: int,
    isAvailable: bool,
    isVegetarian: bool,
    isVegan: bool,
    isGlutenFree: bool,
    rating: int,
    totalReviews: nat)

  /** One line of an order: the price and the name are copies taken when the
      order was placed, not references to the live meal. */
  datatype OrderLine = OrderLine(mealId: Id, quantity: nat, price: int, name: string)

  datatype Order = Order(
    customerId: Id,
    totalAmount: int,
    status: OrderStatus,
    deliveryAddress: string,
    deliveryCity: string,
    deliveryPhone: string,
    note: Option<string>,
    lines: seq<OrderLine>,
    createdAt: Time,
    preparingAt: Option<Time>,
    readyAt: Option<Time>,
    deliveredAt: Option<Time>,
    cancelledAt: Option<Time>)

  /** The sum of price × quantity over an order's lines. */
  function LinesTotal(lines: seq<OrderLine>): int {
    if lines == [] then 0
    else LinesTotal(lines[..|lines| - 1]) + lines[|lines| - 1].price * lines[|lines| - 1].quantity
  }

  datatype Review = Review(customerId: Id, mealId: Id, rating: int, comment: Option<string>)

  /** A subset is no larger than its superset. */
  lemma SubsetCard(a: set<Id>, b: set<Id>)
    requires a <= b
    ensures |a| <= |b|
  {
    assert b == a + (b - a);
  }

  /** `k` is in `ids` and no key of `ids` is smaller. */
  predicate IsLeast(k: Id, ids: set<Id>) {
    k in ids && forall j :: j in ids ==> k <= j
  }

  lemma {:induction false} MinExists(ids: set<Id>)
    requires ids != {}
    ensures exists k :: IsLeast(k, ids)
    decreases ids
  {
    var x :| x in ids;
    var rest := ids - {x};
    if rest == {} {
      forall j | j in ids ensures x <= j {
        assert j !in rest;
      }
      assert IsLeast(x, ids);
    } else {
      MinExists(rest);
      var m :| IsLeast(m, rest);
      var k := if x < m then x else m;
      forall j | j in ids ensures k <= j {
        if j != x { assert j in rest; }
      }
      assert IsLeast(k, ids);
    }
  }

  /** The smallest key of a non-empty key set; gives a deterministic order in
      which to fold over a table. */
  function MinId(ids: set<Id>): (k: Id)
    requires ids != {}
    ensures k in ids
    ensures forall j :: j in ids ==> k <= j
  {
    MinExists(ids);
    var k :| IsLeast(k, ids);
    k
  }
}
