/** The customer order service: placing an order (meal lookup, availability,
    price and name snapshot, total), viewing one, and cancelling one. */
module Orders {
  import opened Domain
  import opened Lifecycle
  import opened Ratings
  import opened Store

  datatype ItemInput = ItemInput(mealId: Id, quantity: int)

  datatype OrderInput = OrderInput(
    items: seq<ItemInput>,
    deliveryAddress: string,
    deliveryCity: string,
    deliveryPhone: string,
    note: Option<string>)

  /** `createOrderSchema`, which the route checks before the service runs. */
  predicate ValidOrderInput(input: OrderInput) {
    && |input.items| >= 1
    && (forall i :: 0 <= i < |input.items| ==> input.items[i].quantity >= 1)
    && |input.deliveryAddress| >= 5
    && |input.deliveryCity| >= 2
    && |input.deliveryPhone| >= 7
    && (input.note.Some? ==> |input.note.value| <= 300)
  }

  /** `items.map((i) => i.mealId)`. */
  function MealIds(items: seq<ItemInput>): (ids: seq<Id>)
    ensures |ids| == |items| && forall i :: 0 <= i < |items| ==> ids[i] == items[i].mealId
  {
    seq(|items|, i requires 0 <= i < |items| => items[i].mealId)
  }

  /** `meal.findMany({ where: { id: { in: mealIds } } })`: every stored meal
      that was asked for, once. */
  function Found(meals: map<Id, Meal>, ids: seq<Id>): (found: set<Id>)
    ensures found <= meals.Keys
  {
    set id | id in ids && id in meals
  }

  /** `mealIds.filter((id) => !foundIds.includes(id))`, in request order. */
  function Missing(meals: map<Id, Meal>, ids: seq<Id>): (r: seq<Id>)
    ensures |r| <= |ids|
    ensures forall x :: x in r <==> x in ids && x !in meals
  {
    if ids == [] then []
    else (if ids[0] in meals then [] else [ids[0]]) + Missing(meals, ids[1..])
  }

  /** The names of the requested meals that are switched off. */
  function UnavailableNames(meals: map<Id, Meal>, found: set<Id>): set<string>
    requires found <= meals.Keys
  {
    set m | m in found && !meals[m].isAvailable :: meals[m].name
  }

  predicate Distinct(ids: seq<Id>) {
    forall i, j :: 0 <= i < j < |ids| ==> ids[i] != ids[j]
  }

  /** One line per item, in item order: the item's meal and quantity and the
      meal's current price and name. */
  function Snapshot(meals: map<Id, Meal>, items: seq<ItemInput>): (lines: seq<OrderLine>)
    requires forall i :: 0 <= i < |items| ==> items[i].mealId in meals && items[i].quantity >= 0
    ensures |lines| == |items|
    ensures forall i :: 0 <= i < |items| ==>
      var m := meals[items[i].mealId];
      lines[i] == OrderLine(items[i].mealId, items[i].quantity, m.price, m.name)
  {
    seq(|items|, i requires 0 <= i < |items| =>
      var m := meals[items[i].mealId];
      OrderLine(items[i].mealId, items[i].quantity, m.price, m.name))
  }

  /** `create` up to the insert: 404 listing the missing ids when fewer
      distinct meals were found than items were sent, then 400 naming the
      unavailable meals, else the new row (the status is the column default,
      PLACED). */
  function PlaceOrder(meals: map<Id, Meal>, customerId: Id, input: OrderInput, now: Time): (r: Outcome<Order>)
    requires ValidOrderInput(input)
    ensures r.Err? ==> r.error.MealsNotFound? || r.error.MealsUnavailable?
    ensures r.Ok? ==>
      var o := r.value;
      && (forall i :: 0 <= i < |input.items| ==> input.items[i].mealId in meals && meals[input.items[i].mealId].isAvailable)
      && |o.lines| == |input.items|
      && (forall i :: 0 <= i < |input.items| ==>
            var m := meals[input.items[i].mealId];
            o.lines[i] == OrderLine(input.items[i].mealId, input.items[i].quantity, m.price, m.name))
      && o.totalAmount == LinesTotal(o.lines)
      && o.status == Placed && o.customerId == customerId && o.createdAt == now
      && o.deliveryAddress == input.deliveryAddress && o.deliveryCity == input.deliveryCity
      && o.deliveryPhone == input.deliveryPhone && o.note == input.note
      && o.preparingAt.None? && o.readyAt.None? && o.deliveredAt.None? && o.cancelledAt.None?
  {
    var ids := MealIds(input.items);
    var found := Found(meals, ids);
    if |found| != |ids| then Err(MealsNotFound(Missing(meals, ids)))
    else
      var bad := UnavailableNames(meals, found);
      if bad != {} then Err(MealsUnavailable(bad))
      else
        FoundCount(meals, ids);
        NothingUnavailable(meals, ids);
        var lines := Snapshot(meals, input.items);
        Ok(Order(customerId, LinesTotal(lines), Placed,
          input.deliveryAddress, input.deliveryCity, input.deliveryPhone, input.note,
          lines, now, None, None, None, None))
  }

  /** With every id stored and none switched off, every item can be served. */
  lemma NothingUnavailable(meals: map<Id, Meal>, ids: seq<Id>)
    requires forall i :: 0 <= i < |ids| ==> ids[i] in meals
    requires UnavailableNames(meals, Found(meals, ids)) == {}
    ensures forall i :: 0 <= i < |ids| ==> meals[ids[i]].isAvailable
  {
    forall i | 0 <= i < |ids| ensures meals[ids[i]].isAvailable {
      var m := ids[i];
      assert m in Found(meals, ids);
      UnavailableNamed(meals, Found(meals, ids), m);
    }
  }

  lemma UnavailableNamed(meals: map<Id, Meal>, found: set<Id>, m: Id)
    requires found <= meals.Keys && m in found
    ensures !meals[m].isAvailable ==> meals[m].name in UnavailableNames(meals, found)
  {
  }

  function Elems(ids: seq<Id>): set<Id> {
    set x | x in ids
  }

  lemma {:induction false} ElemsCount(ids: seq<Id>)
    ensures |Elems(ids)| <= |ids|
    ensures |Elems(ids)| == |ids| <==> Distinct(ids)
  {
    if ids != [] {
      var t := ids[1..];
      ElemsCount(t);
      assert Elems(ids) == {ids[0]} + Elems(t);
      if ids[0] in t {
        assert ids[0] in Elems(t);
        assert Elems(ids) == Elems(t);
        var k :| 0 <= k < |t| && t[k] == ids[0];
        assert ids[0] == ids[k + 1];
      } else {
        assert ids[0] !in Elems(t);
        assert |Elems(ids)| == |Elems(t)| + 1;
        DistinctCons(ids);
      }
    }
  }

  lemma DistinctCons(ids: seq<Id>)
    requires ids != [] && ids[0] !in ids[1..]
    ensures Distinct(ids) <==> Distinct(ids[1..])
  {
    var t := ids[1..];
    if Distinct(t) {
      forall i, j | 0 <= i < j < |ids| ensures ids[i] != ids[j] {
        assert ids[j] == t[j - 1];
        if i > 0 { assert ids[i] == t[i - 1]; }
      }
    }
    if Distinct(ids) {
      forall i, j | 0 <= i < j < |t| ensures t[i] != t[j] {
        assert t[i] == ids[i + 1] && t[j] == ids[j + 1];
      }
    }
  }

  /** A set drawn from a list of ids has as many members as the list has
      entries exactly when it is every listed id and none is repeated. */
  lemma SelectionCount(ids: seq<Id>, sel: set<Id>)
    requires sel <= Elems(ids)
    ensures |sel| <= |ids|
    ensures |sel| == |ids| <==> sel == Elems(ids) && Distinct(ids)
  {
    var elems := Elems(ids);
    ElemsCount(ids);
    SubsetCard(sel, elems);
    if |sel| == |ids| && sel != elems {
      var x :| x in elems && x !in sel;
      SubsetCard(sel, elems - {x});
      assert false;
    }
  }

  /** The found-count test of `create` succeeds exactly when every id is
      stored and no id is repeated. */
  lemma FoundCount(meals: map<Id, Meal>, ids: seq<Id>)
    ensures |Found(meals, ids)| <= |ids|
    ensures |Found(meals, ids)| == |ids| <==> (forall i :: 0 <= i < |ids| ==> ids[i] in meals) && Distinct(ids)
  {
    var elems := Elems(ids);
    var found := Found(meals, ids);
    SelectionCount(ids, found);
    if found == elems {
      forall i | 0 <= i < |ids| ensures ids[i] in meals {
        assert ids[i] in elems;
      }
    }
    if forall i :: 0 <= i < |ids| ==> ids[i] in meals {
      forall x | x in elems ensures x in found {
        var i :| 0 <= i < |ids| && ids[i] == x;
      }
    }
  }

  lemma {:induction false} NoneMissing(meals: map<Id, Meal>, ids: seq<Id>)
    requires forall i :: 0 <= i < |ids| ==> ids[i] in meals
    ensures Missing(meals, ids) == []
  {
    if ids != [] {
      NoneMissing(meals, ids[1..]);
    }
  }

  /** An item list that names one meal twice is refused with 404 even though
      every meal exists, and the error lists no missing id. */
  lemma RepeatedMealIsRefused(meals: map<Id, Meal>, customerId: Id, input: OrderInput, now: Time, i: nat, j: nat)
    requires ValidOrderInput(input)
    requires forall k :: 0 <= k < |input.items| ==> input.items[k].mealId in meals
    requires i < j < |input.items| && input.items[i].mealId == input.items[j].mealId
    ensures PlaceOrder(meals, customerId, input, now) == Err(MealsNotFound([]))
  {
    var ids := MealIds(input.items);
    FoundCount(meals, ids);
    assert ids[i] == ids[j];
    NoneMissing(meals, ids);
  }

  /** The outcome of `create`: an order exactly when every item's meal is
      stored and switched on and no meal is named twice; a missing or
      repeated meal gives the 404 listing the missing ids; with all meals
      stored and distinct, a switched-off one gives the 400 naming the
      switched-off meals. */
  lemma PlaceOrderOutcome(meals: map<Id, Meal>, customerId: Id, input: OrderInput, now: Time)
    requires ValidOrderInput(input)
    ensures PlaceOrder(meals, customerId, input, now).Ok? <==>
      && (forall i :: 0 <= i < |input.items| ==> input.items[i].mealId in meals && meals[input.items[i].mealId].isAvailable)
      && Distinct(MealIds(input.items))
    ensures !((forall i :: 0 <= i < |input.items| ==> input.items[i].mealId in meals) && Distinct(MealIds(input.items))) ==>
      PlaceOrder(meals, customerId, input, now) == Err(MealsNotFound(Missing(meals, MealIds(input.items))))
    ensures (forall i :: 0 <= i < |input.items| ==> input.items[i].mealId in meals) && Distinct(MealIds(input.items)) ==>
      (exists i :: 0 <= i < |input.items| && !meals[input.items[i].mealId].isAvailable) ==>
      PlaceOrder(meals, customerId, input, now) == Err(MealsUnavailable(UnavailableNames(meals, Found(meals, MealIds(input.items)))))
  {
    var ids := MealIds(input.items);
    FoundCount(meals, ids);
    if (forall i :: 0 <= i < |ids| ==> ids[i] in meals && meals[ids[i]].isAvailable) {
      forall m | m in Found(meals, ids) ensures meals[m].isAvailable {
        var i :| 0 <= i < |ids| && ids[i] == m;
      }
      assert UnavailableNames(meals, Found(meals, ids)) == {};
    }
    if exists i :: 0 <= i < |ids| && ids[i] in meals && !meals[ids[i]].isAvailable {
      var i :| 0 <= i < |ids| && ids[i] in meals && !meals[ids[i]].isAvailable;
      assert ids[i] in Found(meals, ids);
      UnavailableNamed(meals, Found(meals, ids), ids[i]);
    }
  }

  /** Every meal found but one switched off: 400, and no order. */
  lemma UnavailableMealIsRefused(meals: map<Id, Meal>, customerId: Id, input: OrderInput, now: Time, i: nat)
    requires ValidOrderInput(input)
    requires forall k :: 0 <= k < |input.items| ==> input.items[k].mealId in meals
    requires Distinct(MealIds(input.items))
    requires i < |input.items| && !meals[input.items[i].mealId].isAvailable
    ensures PlaceOrder(meals, customerId, input, now).Err?
    ensures PlaceOrder(meals, customerId, input, now).error.MealsUnavailable?
    ensures meals[input.items[i].mealId].name in PlaceOrder(meals, customerId, input, now).error.names
  {
    var ids := MealIds(input.items);
    FoundCount(meals, ids);
    assert ids[i] in Found(meals, ids);
  }

  /** Two meals at 10.00 and 5.50, ordered two and one times: 25.50. */
  lemma TwoLineTotal(a: Meal, b: Meal, ma: Id, mb: Id, customerId: Id, now: Time)
    requires ma != mb && a.price == 1000 && b.price == 550 && a.isAvailable && b.isAvailable
    ensures var meals := map[ma := a, mb := b];
      var input := OrderInput([ItemInput(ma, 2), ItemInput(mb, 1)], "1 Main St", "York", "5550100", None);
      var r := PlaceOrder(meals, customerId, input, now);
      r.Ok? && r.value.totalAmount == 2550 && r.value.status == Placed
  {
    var meals := map[ma := a, mb := b];
    var input := OrderInput([ItemInput(ma, 2), ItemInput(mb, 1)], "1 Main St", "York", "5550100", None);
    var ids := MealIds(input.items);
    assert ids == [ma, mb];
    FoundCount(meals, ids);
    assert UnavailableNames(meals, Found(meals, ids)) == {};
    assert forall i :: 0 <= i < |ids| ==> ids[i] in meals;
    assert Distinct(ids);
    assert |Found(meals, ids)| == |ids|;
    var r := PlaceOrder(meals, customerId, input, now);
    assert r.Ok?;
    var lines := r.value.lines;
    assert lines == [OrderLine(ma, 2, 1000, a.name), OrderLine(mb, 1, 550, b.name)];
    assert lines[..1] == [OrderLine(ma, 2, 1000, a.name)];
    assert lines[..1][..0] == [];
    assert LinesTotal(lines[..1]) == 2000;
    assert LinesTotal(lines) == 2550;
  }

  /** `create`: the order is stored under a fresh id; a refused order stores
      nothing. */
  method Create(db: Db, customerId: Id, input: OrderInput, now: Time) returns (r: Outcome<(Id, Order)>)
    requires db.Valid() && ValidOrderInput(input)
    modifies db`orders, db`nextId
    ensures db.Valid()
    ensures var p := PlaceOrder(old(db.meals), customerId, input, now);
      match p
      case Err(f) => r == Err(f) && db.orders == old(db.orders) && db.nextId == old(db.nextId)
      case Ok(o) =>
        && r == Ok((old(db.nextId), o))
        && old(db.nextId) !in old(db.orders)
        && db.orders == old(db.orders)[old(db.nextId) := o]
  {
    var p := PlaceOrder(db.meals, customerId, input, now);
    if p.Err? {
      return Err(p.error);
    }
    var o := p.value;
    FreshOrderIsWellStamped(o);
    var id := db.NewId();
    BackingSurvivesOrderWrite(db.orders, db.reviews, id, o);
    db.orders := db.orders[id := o];
    r := Ok((id, o));
  }

  /** `getOrderById`: the customer who placed the order and admins may see
      it; nobody else, providers included. */
  function ViewOrder(orders: map<Id, Order>, orderId: Id, requesterId: Id, role: Role): (r: Outcome<Order>)
    ensures r.Ok? <==> orderId in orders && (orders[orderId].customerId == requesterId || role == Admin)
    ensures r.Ok? ==> r.value == orders[orderId]
    ensures orderId !in orders ==> r == Err(NotFound(OrderEntity))
    ensures orderId in orders && r.Err? ==> r == Err(Forbidden)
  {
    if orderId !in orders then Err(NotFound(OrderEntity))
    else if orders[orderId].customerId != requesterId && role != Admin then Err(Forbidden)
    else Ok(orders[orderId])
  }

  /** The guard ladder of `cancelOrder`: 404, then 403 for another customer's
      order, then 400 unless the order is still PLACED. */
  function CheckCancel(orders: map<Id, Order>, orderId: Id, customerId: Id): (r: Outcome<Order>)
    ensures r.Ok? <==> orderId in orders && orders[orderId].customerId == customerId && orders[orderId].status == Placed
    ensures r.Ok? ==> r.value == orders[orderId]
    ensures orderId !in orders ==> r == Err(NotFound(OrderEntity))
    ensures orderId in orders && orders[orderId].customerId != customerId ==> r == Err(Forbidden)
    ensures orderId in orders && orders[orderId].customerId == customerId && orders[orderId].status != Placed
      ==> r == Err(NotCancellable(orders[orderId].status))
  {
    if orderId !in orders then Err(NotFound(OrderEntity))
    else if orders[orderId].customerId != customerId then Err(Forbidden)
    else if orders[orderId].status != Placed then Err(NotCancellable(orders[orderId].status))
    else Ok(orders[orderId])
  }

  /** The customer's cancel is the table's PLACED → CANCELLED edge: it keeps
      the order well stamped and changes only the status and `cancelledAt`. */
  lemma CancelIsATableEdge(orders: map<Id, Order>, orderId: Id, customerId: Id, now: Time)
    requires CheckCancel(orders, orderId, customerId).Ok?
    requires WellStamped(orders[orderId])
    ensures CanTransition(orders[orderId].status, Cancelled)
    ensures var c := Advance(orders[orderId], Cancelled, now);
      && WellStamped(c) && c.status == Cancelled && c.cancelledAt == Some(now)
      && c == orders[orderId].(status := Cancelled, cancelledAt := Some(now))
  {
    AdvanceKeepsWellStamped(orders[orderId], Cancelled, now);
  }

  /** `cancelOrder`. */
  method CancelOrder(db: Db, orderId: Id, customerId: Id, now: Time) returns (r: Outcome<Order>)
    requires db.Valid()
    modifies db`orders
    ensures db.Valid()
    ensures var c := CheckCancel(old(db.orders), orderId, customerId);
      match c
      case Err(f) => r == Err(f) && db.orders == old(db.orders)
      case Ok(o) =>
        var o' := Advance(o, Cancelled, now);
        r == Ok(o') && db.orders == old(db.orders)[orderId := o']
  {
    var c := CheckCancel(db.orders, orderId, customerId);
    if c.Err? {
      return Err(c.error);
    }
    var o' := Advance(c.value, Cancelled, now);
    CancelIsATableEdge(db.orders, orderId, customerId, now);
    BackingSurvivesOrderWrite(db.orders, db.reviews, orderId, o');
    db.orders := db.orders[orderId := o'];
    r := Ok(o');
  }
}
