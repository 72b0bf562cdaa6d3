/** The older order service under `src/services`: an order row names one
    provider, the total is taken from live meal prices, and status changes
    are checked against a whitelist instead of the transition table. It
    keeps its own tables, since its rows have a shape of their own. */
module LegacyOrders {
  import opened Domain
  import opened Lifecycle
  import Orders

  datatype LegacyMeal = LegacyMeal(providerId: Id, price: int, isAvailable: bool)

  datatype LegacyLine = LegacyLine(mealId: Id, quantity: nat, priceAtOrder: int)

  datatype LegacyOrder = LegacyOrder(
    customerId: Id,
    providerId: Id,
    totalPrice: int,
    deliveryAddress: string,
    status: OrderStatus,
    lines: seq<LegacyLine>)

  /** Each way the service can throw; the controller answers every one of
      them with 400 and the message. */
  datatype LegacyError =
    | InvalidInput             // the schema parse fails
    | MealsMissingOrUnavailable
    | NoMealReturned           // `meals[0]` is undefined
    | InvalidStatus
    | OrderNotFound
    | NotYourOrder
    | FinalStatus

  /** An item as the request body gives it, before the schema checks it. */
  datatype Item = Item(mealId: int, quantity: int)

  /** The service's own schema: positive whole meal ids and quantities and an
      address of five characters or more. It admits an empty item list. */
  predicate ValidInput(items: seq<Item>, deliveryAddress: string) {
    && (forall i :: 0 <= i < |items| ==> items[i].mealId >= 1 && items[i].quantity >= 1)
    && |deliveryAddress| >= 5
  }

  function MealIds(items: seq<Item>): (ids: seq<Id>)
    requires forall i :: 0 <= i < |items| ==> items[i].mealId >= 0
    ensures |ids| == |items| && forall i :: 0 <= i < |items| ==> ids[i] == items[i].mealId
  {
    seq(|items|, i requires 0 <= i < |items| => items[i].mealId as Id)
  }

  /** `findMany({ where: { id: { in: mealIds }, isAvailable: true } })`:
      the requested meals that exist and are switched on, once each. */
  function AvailableFound(meals: map<Id, LegacyMeal>, ids: seq<Id>): (found: set<Id>)
    ensures found <= Orders.Elems(ids) && found <= meals.Keys
  {
    set id | id in ids && id in meals && meals[id].isAvailable
  }

  predicate AllServable(meals: map<Id, LegacyMeal>, items: seq<Item>) {
    forall i :: 0 <= i < |items| ==> items[i].mealId >= 0 && items[i].mealId as Id in meals
  }

  /** The `reduce`: the running sum of price times quantity, item by item. */
  function ItemsTotal(meals: map<Id, LegacyMeal>, items: seq<Item>): int
    requires AllServable(meals, items)
  {
    if items == [] then 0
    else
      var last := items[|items| - 1];
      ItemsTotal(meals, items[..|items| - 1]) + meals[last.mealId as Id].price * last.quantity
  }

  /** The line rows: each item with the meal's current price. */
  function Lines(meals: map<Id, LegacyMeal>, items: seq<Item>): (lines: seq<LegacyLine>)
    requires AllServable(meals, items)
    requires forall i :: 0 <= i < |items| ==> items[i].quantity >= 0
    ensures |lines| == |items|
    ensures forall i :: 0 <= i < |items| ==>
      lines[i] == LegacyLine(items[i].mealId as Id, items[i].quantity, meals[items[i].mealId as Id].price)
  {
    seq(|items|, i requires 0 <= i < |items| =>
      LegacyLine(items[i].mealId as Id, items[i].quantity, meals[items[i].mealId as Id].price))
  }

  /** What the stored lines add up to. */
  function RowTotal(lines: seq<LegacyLine>): int {
    if lines == [] then 0
    else RowTotal(lines[..|lines| - 1]) + lines[|lines| - 1].priceAtOrder * lines[|lines| - 1].quantity
  }

  /** `createOrder` up to the insert. The provider is taken from the first
      meal the query returns; the query names no order, so the model takes
      the smallest id. */
  function CheckCreate(meals: map<Id, LegacyMeal>, customerId: Id, items: seq<Item>, deliveryAddress: string)
    : (r: Result<LegacyOrder, LegacyError>)
  {
    if !ValidInput(items, deliveryAddress) then Err(InvalidInput)
    else
      var ids := MealIds(items);
      var found := AvailableFound(meals, ids);
      if |found| != |ids| then Err(MealsMissingOrUnavailable)
      else if found == {} then Err(NoMealReturned)
      else
        ServableWhenAllFound(meals, items);
        var first := MinId(found);
        Ok(LegacyOrder(customerId, meals[first].providerId, ItemsTotal(meals, items),
          deliveryAddress, Placed, Lines(meals, items)))
  }

  /** When the count matches, every item's meal exists and is switched on,
      and no meal is asked for twice. */
  lemma ServableWhenAllFound(meals: map<Id, LegacyMeal>, items: seq<Item>)
    requires forall i :: 0 <= i < |items| ==> items[i].mealId >= 0
    ensures var ids := MealIds(items);
      |AvailableFound(meals, ids)| == |ids| <==>
        (forall i :: 0 <= i < |items| ==> ids[i] in meals && meals[ids[i]].isAvailable) && Orders.Distinct(ids)
    ensures var ids := MealIds(items);
      |AvailableFound(meals, ids)| == |ids| ==> AllServable(meals, items)
  {
    var ids := MealIds(items);
    var found := AvailableFound(meals, ids);
    Orders.SelectionCount(ids, found);
    if found == Orders.Elems(ids) {
      forall i | 0 <= i < |items| ensures ids[i] in meals && meals[ids[i]].isAvailable {
        assert ids[i] in Orders.Elems(ids);
      }
    }
    if forall i :: 0 <= i < |items| ==> ids[i] in meals && meals[ids[i]].isAvailable {
      forall x | x in Orders.Elems(ids) ensures x in found {
        var i :| 0 <= i < |ids| && ids[i] == x;
      }
    }
  }

  /** An order is created exactly when the input parses, names at least one
      meal, names no meal twice, and every meal it names exists and is
      switched on. */
  lemma CreateSucceedsIff(meals: map<Id, LegacyMeal>, customerId: Id, items: seq<Item>, deliveryAddress: string)
    ensures CheckCreate(meals, customerId, items, deliveryAddress).Ok? <==>
      && ValidInput(items, deliveryAddress)
      && |items| >= 1
      && Orders.Distinct(MealIds(items))
      && (forall i :: 0 <= i < |items| ==> items[i].mealId as Id in meals && meals[items[i].mealId as Id].isAvailable)
  {
    if ValidInput(items, deliveryAddress) {
      var ids := MealIds(items);
      ServableWhenAllFound(meals, items);
      if |items| >= 1 && |AvailableFound(meals, ids)| == |ids| {
        assert |ids| >= 1;
      }
      if |items| >= 1 && (forall i :: 0 <= i < |items| ==> items[i].mealId as Id in meals && meals[items[i].mealId as Id].isAvailable) {
        assert ids[0] in AvailableFound(meals, ids);
      }
    }
  }

  /** The running sum equals the sum over the stored lines, so `totalPrice`
      agrees with the `priceAtOrder` rows written beside it. */
  lemma {:induction false} TotalMatchesLines(meals: map<Id, LegacyMeal>, items: seq<Item>)
    requires AllServable(meals, items)
    requires forall i :: 0 <= i < |items| ==> items[i].quantity >= 0
    ensures ItemsTotal(meals, items) == RowTotal(Lines(meals, items))
  {
    if items != [] {
      var init := items[..|items| - 1];
      TotalMatchesLines(meals, init);
      assert Lines(meals, items)[..|items| - 1] == Lines(meals, init);
    }
  }

  /** A created order is PLACED, copies each current price into its line,
      and carries the total of its lines; its provider is the provider of
      the ordered meal that comes first (the smallest id), whoever provides
      the others. */
  lemma CreatedOrderShape(meals: map<Id, LegacyMeal>, customerId: Id, items: seq<Item>, deliveryAddress: string)
    requires CheckCreate(meals, customerId, items, deliveryAddress).Ok?
    ensures var o := CheckCreate(meals, customerId, items, deliveryAddress).value;
      && o.status == Placed && o.customerId == customerId && o.deliveryAddress == deliveryAddress
      && |o.lines| == |items|
      && (forall i :: 0 <= i < |items| ==>
            o.lines[i].mealId in meals && o.lines[i].priceAtOrder == meals[o.lines[i].mealId].price
            && o.lines[i].quantity == items[i].quantity)
      && o.totalPrice == RowTotal(o.lines)
      && exists i :: 0 <= i < |items| && o.providerId == meals[o.lines[i].mealId].providerId
           && forall j :: 0 <= j < |items| ==> o.lines[i].mealId <= o.lines[j].mealId
  {
    var ids := MealIds(items);
    ServableWhenAllFound(meals, items);
    TotalMatchesLines(meals, items);
    var found := AvailableFound(meals, ids);
    var first := MinId(found);
    var i :| 0 <= i < |ids| && ids[i] == first;
    var o := CheckCreate(meals, customerId, items, deliveryAddress).value;
    assert o.lines[i].mealId == first;
    forall j | 0 <= j < |items| ensures o.lines[i].mealId <= o.lines[j].mealId {
      assert ids[j] in found;
    }
  }

  /** The provider is read off the first meal alone: every line of the
      order, whoever provides it, is attributed to the provider of the
      smallest ordered meal id, and when all meals share one provider that
      is the one. */
  lemma SingleProviderAttribution(
    meals: map<Id, LegacyMeal>, customerId: Id, items: seq<Item>, deliveryAddress: string, i: nat, p: Id)
    requires CheckCreate(meals, customerId, items, deliveryAddress).Ok?
    requires i < |items| && forall j :: 0 <= j < |items| ==> items[i].mealId <= items[j].mealId
    ensures items[i].mealId as Id in meals
    ensures CheckCreate(meals, customerId, items, deliveryAddress).value.providerId
      == meals[items[i].mealId as Id].providerId
    ensures (forall j :: 0 <= j < |items| ==> items[j].mealId as Id in meals && meals[items[j].mealId as Id].providerId == p)
      ==> CheckCreate(meals, customerId, items, deliveryAddress).value.providerId == p
  {
    CreatedOrderShape(meals, customerId, items, deliveryAddress);
    var o := CheckCreate(meals, customerId, items, deliveryAddress).value;
    var k :| 0 <= k < |items| && o.providerId == meals[o.lines[k].mealId].providerId
      && forall j :: 0 <= j < |items| ==> o.lines[k].mealId <= o.lines[j].mealId;
    assert o.lines[k].mealId == o.lines[i].mealId;
  }

  /** A worked mixed order: meal 1 of provider 7 and meal 2 of provider 8,
      listed 2 first. The whole order, both lines and the full 800-cent
      total, goes to provider 7. */
  lemma MixedOrderGoesToFirstMeal(customerId: Id)
    ensures var meals := map[1 := LegacyMeal(7, 500, true), 2 := LegacyMeal(8, 300, true)];
      CheckCreate(meals, customerId, [Item(2, 1), Item(1, 1)], "12 Main St")
        == Ok(LegacyOrder(customerId, 7, 800, "12 Main St", Placed,
             [LegacyLine(2, 1, 300), LegacyLine(1, 1, 500)]))
  {
    var meals := map[1 := LegacyMeal(7, 500, true), 2 := LegacyMeal(8, 300, true)];
    var items := [Item(2, 1), Item(1, 1)];
    var ids := MealIds(items);
    assert ids == [2, 1];
    assert AvailableFound(meals, ids) == {1, 2};
    assert MinId({1, 2}) == 1;
    assert Lines(meals, items) == [LegacyLine(2, 1, 300), LegacyLine(1, 1, 500)];
    assert ValidInput(items, "12 Main St");
    assert items[..1] == [Item(2, 1)];
    assert ItemsTotal(meals, items[..1]) == 300;
    assert ItemsTotal(meals, items) == 800;
  }

  /** A missing meal and an unavailable one get the same answer, and so
      does a meal listed twice. */
  lemma OneErrorForEveryLookupProblem(
    meals: map<Id, LegacyMeal>, customerId: Id, items: seq<Item>, deliveryAddress: string, i: nat, j: nat)
    requires ValidInput(items, deliveryAddress) && i < |items| && j < |items|
    requires (items[i].mealId as Id !in meals || !meals[items[i].mealId as Id].isAvailable)
      || (i != j && items[i].mealId == items[j].mealId)
    ensures CheckCreate(meals, customerId, items, deliveryAddress) == Err(MealsMissingOrUnavailable)
  {
    ServableWhenAllFound(meals, items);
  }

  /** The schema admits an empty item list; the count test passes with zero
      meals found, and reading the provider of the missing first meal
      throws. */
  lemma EmptyOrderThrows(meals: map<Id, LegacyMeal>, customerId: Id, deliveryAddress: string)
    requires |deliveryAddress| >= 5
    ensures CheckCreate(meals, customerId, [], deliveryAddress) == Err(NoMealReturned)
  {
    assert AvailableFound(meals, MealIds([])) == {};
  }

  /** The whitelist `['PREPARING', 'READY', 'DELIVERED', 'CANCELLED']`. */
  function ParseStatus(s: string): (r: Option<OrderStatus>)
    ensures r != Some(Placed)
  {
    if s == "PREPARING" then Some(Preparing)
    else if s == "READY" then Some(Ready)
    else if s == "DELIVERED" then Some(Delivered)
    else if s == "CANCELLED" then Some(Cancelled)
    else None
  }

  /** The enum's wire name. */
  function StatusName(s: OrderStatus): string {
    match s
    case Placed => "PLACED"
    case Preparing => "PREPARING"
    case Ready => "READY"
    case Delivered => "DELIVERED"
    case Cancelled => "CANCELLED"
  }

  /** The whitelist admits every status's own name except PLACED's, and
      nothing else. */
  lemma ParseStatusRoundTrip(s: OrderStatus, t: string)
    ensures ParseStatus(StatusName(s)) == if s == Placed then None else Some(s)
    ensures ParseStatus(t).Some? ==> StatusName(ParseStatus(t).value) == t
  {
  }

  /** `updateOrderStatus`'s guard ladder: the whitelist before any lookup,
      then not found, then another provider's order, then a final status. */
  function CheckStatus(orders: map<Id, LegacyOrder>, orderId: Id, providerId: Id, status: string)
    : (r: Result<OrderStatus, LegacyError>)
    ensures ParseStatus(status).None? ==> r == Err(InvalidStatus)
    ensures r.Ok? <==>
      && ParseStatus(status).Some?
      && orderId in orders && orders[orderId].providerId == providerId
      && !IsFinal(orders[orderId].status)
    ensures r.Ok? ==> ParseStatus(status) == Some(r.value)
    ensures ParseStatus(status).Some? && orderId !in orders ==> r == Err(OrderNotFound)
    ensures ParseStatus(status).Some? && orderId in orders && orders[orderId].providerId != providerId
      ==> r == Err(NotYourOrder)
    ensures ParseStatus(status).Some? && orderId in orders && orders[orderId].providerId == providerId
      && IsFinal(orders[orderId].status)
      ==> r == Err(FinalStatus)
  {
    match ParseStatus(status)
    case None => Err(InvalidStatus)
    case Some(s) =>
      if orderId !in orders then Err(OrderNotFound)
      else if orders[orderId].providerId != providerId then Err(NotYourOrder)
      else if IsFinal(orders[orderId].status) then Err(FinalStatus)
      else Ok(s)
  }

  /** Every edge of the transition table is accepted here too. */
  lemma AcceptsEveryTableEdge(orders: map<Id, LegacyOrder>, orderId: Id, to: OrderStatus)
    requires orderId in orders && CanTransition(orders[orderId].status, to)
    ensures CheckStatus(orders, orderId, orders[orderId].providerId, StatusName(to)) == Ok(to)
  {
    LegalEdges(orders[orderId].status, to);
  }

  /** But the whitelist is weaker than the table: a READY order can go back
      to PREPARING, an order can be set to the status it has, and a PLACED
      order can jump to DELIVERED, none of which the table allows. */
  lemma AcceptsMovesTheTableRefuses(orders: map<Id, LegacyOrder>, orderId: Id)
    requires orderId in orders
    ensures orders[orderId].status == Ready ==>
      CheckStatus(orders, orderId, orders[orderId].providerId, "PREPARING") == Ok(Preparing)
      && !CanTransition(Ready, Preparing)
    ensures orders[orderId].status == Preparing ==>
      CheckStatus(orders, orderId, orders[orderId].providerId, "PREPARING") == Ok(Preparing)
      && !CanTransition(Preparing, Preparing)
    ensures orders[orderId].status == Placed ==>
      CheckStatus(orders, orderId, orders[orderId].providerId, "DELIVERED") == Ok(Delivered)
      && !CanTransition(Placed, Delivered)
  {
    LegalEdges(Ready, Preparing);
    LegalEdges(Preparing, Preparing);
    LegalEdges(Placed, Delivered);
  }

  /** The final statuses stay final, and nothing goes back to PLACED. */
  lemma FinalStaysFinal(orders: map<Id, LegacyOrder>, orderId: Id, providerId: Id, status: string)
    ensures orderId in orders && IsFinal(orders[orderId].status) ==>
      CheckStatus(orders, orderId, providerId, status).Err?
    ensures CheckStatus(orders, orderId, providerId, status).Ok? ==>
      CheckStatus(orders, orderId, providerId, status).value != Placed
  {
  }

  /** The service's tables. */
  class LegacyDb {
    var meals: map<Id, LegacyMeal>
    var orders: map<Id, LegacyOrder>
    var nextId: Id

    /** Keys are drawn below `nextId`, and every row's total is the sum of
        its lines. */
    ghost predicate Valid()
      reads this
    {
      && (forall k :: k in orders ==> k < nextId)
      && (forall k :: k in orders ==> orders[k].totalPrice == RowTotal(orders[k].lines))
    }

    constructor (meals: map<Id, LegacyMeal>)
      ensures Valid()
      ensures this.meals == meals && orders == map[]
    {
      this.meals := meals;
      orders := map[];
      nextId := 0;
    }
  }

  /** `createOrder`: the row is inserted under a fresh key when the checks
      pass; otherwise nothing is written. */
  method CreateOrder(db: LegacyDb, customerId: Id, items: seq<Item>, deliveryAddress: string)
    returns (r: Result<(Id, LegacyOrder), LegacyError>)
    requires db.Valid()
    modifies db`orders, db`nextId
    ensures db.Valid()
    ensures match CheckCreate(old(db.meals), customerId, items, deliveryAddress)
      case Err(e) => r == Err(e) && db.orders == old(db.orders) && db.nextId == old(db.nextId)
      case Ok(o) =>
        && r == Ok((old(db.nextId), o))
        && db.orders == old(db.orders)[old(db.nextId) := o]
        && db.nextId == old(db.nextId) + 1
  {
    var c := CheckCreate(db.meals, customerId, items, deliveryAddress);
    if c.Err? {
      return Err(c.error);
    }
    CreatedOrderShape(db.meals, customerId, items, deliveryAddress);
    var id := db.nextId;
    db.nextId := db.nextId + 1;
    db.orders := db.orders[id := c.value];
    r := Ok((id, c.value));
  }

  /** `updateOrderStatus`: only `status` is written. */
  method UpdateOrderStatus(db: LegacyDb, orderId: Id, providerId: Id, status: string)
    returns (r: Result<LegacyOrder, LegacyError>)
    requires db.Valid()
    modifies db`orders
    ensures db.Valid()
    ensures match CheckStatus(old(db.orders), orderId, providerId, status)
      case Err(e) => r == Err(e) && db.orders == old(db.orders)
      case Ok(s) =>
        var o := old(db.orders)[orderId].(status := s);
        r == Ok(o) && db.orders == old(db.orders)[orderId := o]
  {
    var c := CheckStatus(db.orders, orderId, providerId, status);
    if c.Err? {
      return Err(c.error);
    }
    var o := db.orders[orderId].(status := c.value);
    db.orders := db.orders[orderId := o];
    r := Ok(o);
  }
}
