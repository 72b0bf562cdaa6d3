/** The provider service: advancing an order along the transition table, the
    public provider page and the provider listing. */
module Providers {
  import opened Domain
  import opened Lifecycle
  import opened Ratings
  import opened Store

  /** `order.items.some(item => item.meal.providerId === profile.id)`: the
      ownership test looks at the live meal behind each line. */
  predicate OwnsALine(meals: map<Id, Meal>, o: Order, pid: Id) {
    exists i :: 0 <= i < |o.lines| && o.lines[i].mealId in meals && meals[o.lines[i].mealId].providerId == pid
  }

  /** The guard ladder of `updateOrderStatus`; on success, the caller's
      profile id. */
  function CheckStatusUpdate(
    profiles: map<Id, ProviderProfile>, meals: map<Id, Meal>, orders: map<Id, Order>,
    userId: Id, orderId: Id, newStatus: OrderStatus): (r: Outcome<Id>)
    ensures r.Ok? ==>
      && r.value in profiles && profiles[r.value].userId == userId
      && orderId in orders
      && OwnsALine(meals, orders[orderId], r.value)
      && CanTransition(orders[orderId].status, newStatus)
    ensures r.Err? ==> StatusCode(r.error) in {400, 403, 404}
  {
    match ProfileOf(profiles, userId)
    case None => Err(NotFound(ProfileEntity))
    case Some(pid) =>
      if orderId !in orders then Err(NotFound(OrderEntity))
      else
        var from := orders[orderId].status;
        if !OwnsALine(meals, orders[orderId], pid) then Err(Forbidden)
        else if !CanTransition(from, newStatus) then Err(InvalidTransition(from, newStatus, Allowed(from)))
        else Ok(pid)
  }

  /** The failures come in a fixed order: no profile (404), then no order
      (404), then no line of the caller's (403), then an edge the table
      lacks (400, naming the allowed targets). */
  lemma StatusUpdateErrorOrder(
    profiles: map<Id, ProviderProfile>, meals: map<Id, Meal>, orders: map<Id, Order>,
    userId: Id, orderId: Id, s: OrderStatus, pid: Id)
    requires UniqueProfileUsers(profiles)
    ensures (forall p :: p in profiles ==> profiles[p].userId != userId) ==>
      CheckStatusUpdate(profiles, meals, orders, userId, orderId, s) == Err(NotFound(ProfileEntity))
    ensures pid in profiles && profiles[pid].userId == userId ==>
      var r := CheckStatusUpdate(profiles, meals, orders, userId, orderId, s);
      && (orderId !in orders ==> r == Err(NotFound(OrderEntity)))
      && (orderId in orders && !OwnsALine(meals, orders[orderId], pid) ==> r == Err(Forbidden))
      && (orderId in orders && OwnsALine(meals, orders[orderId], pid) ==>
            var from := orders[orderId].status;
            r == if CanTransition(from, s) then Ok(pid) else Err(InvalidTransition(from, s, Allowed(from))))
  {
    if pid in profiles && profiles[pid].userId == userId {
      ProfileOfIsTheProfile(profiles, userId, pid);
    }
  }

  /** Asking for the status an order already has always fails, and so does
      asking anything of a delivered or cancelled order; once the caller owns
      a line, the failure is the 400 naming the allowed targets. */
  lemma NoMoveFromFinalOrSameStatus(
    profiles: map<Id, ProviderProfile>, meals: map<Id, Meal>, orders: map<Id, Order>,
    userId: Id, orderId: Id, s: OrderStatus)
    requires orderId in orders
    requires s == orders[orderId].status || IsFinal(orders[orderId].status)
    ensures CheckStatusUpdate(profiles, meals, orders, userId, orderId, s).Err?
    ensures forall pid :: ProfileOf(profiles, userId) == Some(pid) && OwnsALine(meals, orders[orderId], pid) ==>
      var from := orders[orderId].status;
      && CheckStatusUpdate(profiles, meals, orders, userId, orderId, s) == Err(InvalidTransition(from, s, Allowed(from)))
      && StatusCode(InvalidTransition(from, s, Allowed(from))) == 400
  {
    NoSelfLoopNoReturn(s, s);
  }

  /** A provider asking to move a PLACED order straight to READY is told the
      allowed targets are PREPARING and CANCELLED. */
  lemma PlacedToReadyIsRefused(
    profiles: map<Id, ProviderProfile>, meals: map<Id, Meal>, orders: map<Id, Order>,
    userId: Id, orderId: Id, pid: Id)
    requires UniqueProfileUsers(profiles)
    requires pid in profiles && profiles[pid].userId == userId
    requires orderId in orders && orders[orderId].status == Placed
    requires OwnsALine(meals, orders[orderId], pid)
    ensures CheckStatusUpdate(profiles, meals, orders, userId, orderId, Ready)
      == Err(InvalidTransition(Placed, Ready, [Preparing, Cancelled]))
  {
    ProfileOfIsTheProfile(profiles, userId, pid);
  }

  /** Any provider with one line in the order may move the whole order: two
      owners get the same verdict. */
  lemma AnyOwnerMayAdvance(
    profiles: map<Id, ProviderProfile>, meals: map<Id, Meal>, orders: map<Id, Order>,
    u1: Id, p1: Id, u2: Id, p2: Id, orderId: Id, s: OrderStatus)
    requires UniqueProfileUsers(profiles)
    requires p1 in profiles && profiles[p1].userId == u1
    requires p2 in profiles && profiles[p2].userId == u2
    requires orderId in orders
    requires OwnsALine(meals, orders[orderId], p1) && OwnsALine(meals, orders[orderId], p2)
    ensures CheckStatusUpdate(profiles, meals, orders, u1, orderId, s).Ok?
      <==> CheckStatusUpdate(profiles, meals, orders, u2, orderId, s).Ok?
  {
    ProfileOfIsTheProfile(profiles, u1, p1);
    ProfileOfIsTheProfile(profiles, u2, p2);
  }

  /** The counter half of the transaction: the caller's `totalOrders` goes up
      by one on DELIVERED and nothing else in the profiles table changes. */
  function CountDelivery(profiles: map<Id, ProviderProfile>, pid: Id, s: OrderStatus): (r: map<Id, ProviderProfile>)
    requires pid in profiles
    ensures r.Keys == profiles.Keys
    ensures forall p :: p in profiles ==>
      r[p] == profiles[p].(totalOrders := r[p].totalOrders)
      && r[p].totalOrders == profiles[p].totalOrders + (if p == pid && s == Delivered then 1 else 0)
  {
    if s == Delivered then profiles[pid := profiles[pid].(totalOrders := profiles[pid].totalOrders + 1)]
    else profiles
  }

  /** `updateOrderStatus`: on success the order gets the new status and its
      timestamp, and on DELIVERED the caller's counter goes up in the same
      step; on failure nothing changes. */
  method UpdateOrderStatus(db: Db, userId: Id, orderId: Id, newStatus: OrderStatus, now: Time)
    returns (r: Outcome<Order>)
    requires db.Valid()
    modifies db`orders, db`profiles
    ensures db.Valid()
    ensures var c := CheckStatusUpdate(old(db.profiles), old(db.meals), old(db.orders), userId, orderId, newStatus);
      match c
      case Err(f) => r == Err(f) && db.orders == old(db.orders) && db.profiles == old(db.profiles)
      case Ok(pid) =>
        var o := Advance(old(db.orders)[orderId], newStatus, now);
        && r == Ok(o)
        && db.orders == old(db.orders)[orderId := o]
        && db.profiles == CountDelivery(old(db.profiles), pid, newStatus)
  {
    var c := CheckStatusUpdate(db.profiles, db.meals, db.orders, userId, orderId, newStatus);
    if c.Err? {
      return Err(c.error);
    }
    var pid := c.value;
    var old_ := db.orders[orderId];
    var o := Advance(old_, newStatus, now);
    AdvanceKeepsWellStamped(old_, newStatus, now);
    FinalStatuses(old_.status);
    BackingSurvivesOrderWrite(db.orders, db.reviews, orderId, o);
    db.orders := db.orders[orderId := o];
    db.profiles := CountDelivery(db.profiles, pid, newStatus);
    r := Ok(o);
  }

  /** `getById`: 404 for an unknown profile, 403 while its user is suspended,
      else the profile with its available meals. */
  function GetProviderById(profiles: map<Id, ProviderProfile>, users: map<Id, User>, meals: map<Id, Meal>, id: Id)
    : (r: Outcome<(ProviderProfile, set<Id>)>)
    ensures r == Err(NotFound(ProviderEntity)) <==> id !in profiles
    ensures r.Ok? ==>
      && id in profiles && r.value.0 == profiles[id]
      && profiles[id].userId in users && users[profiles[id].userId].status == Active
    ensures r.Ok? ==> forall m :: m in r.value.1 <==> m in meals && meals[m].providerId == id && meals[m].isAvailable
    ensures id in profiles && profiles[id].userId in users && users[profiles[id].userId].status == Suspended
      ==> r == Err(AccountSuspended)
  {
    if id !in profiles then Err(NotFound(ProviderEntity))
    else
      var p := profiles[id];
      if p.userId !in users then Err(StoreError)
      else if users[p.userId].status == Suspended then Err(AccountSuspended)
      else
        assert users[p.userId].status == Active;
        Ok((p, set m | m in meals && meals[m].providerId == id && meals[m].isAvailable))
  }

  /** `getAll`: the providers whose user is active, and `total`, which counts
      every profile before that filter. */
  function ListProviders(profiles: map<Id, ProviderProfile>, users: map<Id, User>): (r: (set<Id>, nat))
    ensures r.0 <= profiles.Keys && r.1 == |profiles|
    ensures forall p :: p in r.0 <==> p in profiles && profiles[p].userId in users && users[profiles[p].userId].status == Active
  {
    (set p | p in profiles && profiles[p].userId in users && users[profiles[p].userId].status == Active, |profiles|)
  }

  /** So the count can exceed the providers listed, and equals it exactly
      when no provider's user is suspended or missing. */
  lemma ListedNeverExceedTotal(profiles: map<Id, ProviderProfile>, users: map<Id, User>)
    ensures |ListProviders(profiles, users).0| <= ListProviders(profiles, users).1
    ensures |ListProviders(profiles, users).0| == ListProviders(profiles, users).1 <==>
      forall p :: p in profiles ==> profiles[p].userId in users && users[profiles[p].userId].status == Active
  {
    var r := ListProviders(profiles, users);
    assert |r.0| <= |profiles.Keys| by { SubsetCard(r.0, profiles.Keys); }
    if |r.0| == r.1 {
      if r.0 != profiles.Keys {
        var q :| q in profiles.Keys && q !in r.0;
        SubsetCard(r.0, profiles.Keys - {q});
      }
    } else {
      assert r.0 != profiles.Keys;
    }
  }
}
