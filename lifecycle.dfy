/** The order state machine of the provider service: the transition table,
    the timestamp each status is stamped with, and the pure effect of one
    status change on an order row. */
module Lifecycle {
  import opened Domain

  /** `ORDER_TRANSITIONS`: the statuses a provider may move an order to. The
      final statuses DELIVERED and CANCELLED have no entry. */
  const OrderTransitions: map<OrderStatus, seq<OrderStatus>> := map[
    Placed := [Preparing, Cancelled],
    Preparing := [Ready],
    Ready := [Delivered]]

  /** `ORDER_TRANSITIONS[s] || []`: the allowed targets, empty for a status
      without an entry. */
  function Allowed(from: OrderStatus): seq<OrderStatus> {
    if from in OrderTransitions then OrderTransitions[from] else []
  }

  predicate CanTransition(from: OrderStatus, to: OrderStatus) {
    to in Allowed(from)
  }

  predicate IsFinal(s: OrderStatus) {
    Allowed(s) == []
  }

  /** The table holds exactly four edges. */
  lemma LegalEdges(from: OrderStatus, to: OrderStatus)
    ensures CanTransition(from, to) <==>
      || (from == Placed && to == Preparing)
      || (from == Placed && to == Cancelled)
      || (from == Preparing && to == Ready)
      || (from == Ready && to == Delivered)
  {
  }

  /** No edge stays put and no edge leads back to PLACED, so a same-status
      request is always refused. */
  lemma NoSelfLoopNoReturn(s: OrderStatus, from: OrderStatus)
    ensures !CanTransition(s, s)
    ensures !CanTransition(from, Placed)
  {
  }

  /** Exactly DELIVERED and CANCELLED are final. */
  lemma FinalStatuses(s: OrderStatus)
    ensures IsFinal(s) <==> s == Delivered || s == Cancelled
  {
  }

  /** How far along the lifecycle a status is. */
  function Rank(s: OrderStatus): (k: nat)
    ensures k <= 3
    ensures k == 0 <==> s == Placed
  {
    match s
    case Placed => 0
    case Preparing => 1
    case Ready => 2
    case Delivered => 3
    case Cancelled => 3
  }

  /** Every legal edge moves strictly forward. */
  lemma TransitionAdvancesRank(from: OrderStatus, to: OrderStatus)
    requires CanTransition(from, to)
    ensures Rank(from) < Rank(to)
  {
  }

  /** A run of status changes each of which the table allows. */
  predicate IsRun(p: seq<OrderStatus>) {
    forall i :: 0 <= i < |p| - 1 ==> CanTransition(p[i], p[i + 1])
  }

  lemma {:induction false} RunRaisesRank(p: seq<OrderStatus>)
    requires p != [] && IsRun(p)
    ensures Rank(p[0]) + |p| - 1 <= Rank(p[|p| - 1])
  {
    if |p| > 1 {
      var q := p[1..];
      assert IsRun(q) by {
        forall i | 0 <= i < |q| - 1 ensures CanTransition(q[i], q[i + 1]) {
          assert q[i] == p[i + 1] && q[i + 1] == p[i + 2];
        }
      }
      RunRaisesRank(q);
      TransitionAdvancesRank(p[0], p[1]);
    }
  }

  /** The lifecycle terminates: an order passes through at most four statuses,
      and a run starting at PLACED reaches a final status within three steps. */
  lemma RunsAreShort(p: seq<OrderStatus>)
    requires p != [] && IsRun(p)
    ensures |p| <= 4
    ensures |p| == 4 ==> p[0] == Placed && IsFinal(p[3])
  {
    RunRaisesRank(p);
    if |p| == 4 {
      FinalStatuses(p[3]);
    }
  }

  /** The four timestamp columns of an order. */
  datatype StampField = PreparingAt | ReadyAt | DeliveredAt | CancelledAt

  /** `timestampField`: the column a status is stamped in, none for PLACED. */
  function FieldFor(s: OrderStatus): (f: Option<StampField>)
    ensures f.None? <==> s == Placed
  {
    match s
    case Placed => None
    case Preparing => Some(PreparingAt)
    case Ready => Some(ReadyAt)
    case Delivered => Some(DeliveredAt)
    case Cancelled => Some(CancelledAt)
  }

  /** Distinct statuses are stamped in distinct columns. */
  lemma FieldForIsInjective(s: OrderStatus, t: OrderStatus)
    requires FieldFor(s).Some? && FieldFor(s) == FieldFor(t)
    ensures s == t
  {
  }

  function StampOf(o: Order, f: StampField): Option<Time> {
    match f
    case PreparingAt => o.preparingAt
    case ReadyAt => o.readyAt
    case DeliveredAt => o.deliveredAt
    case CancelledAt => o.cancelledAt
  }

  /** Everything of an order except its status and its timestamps. */
  predicate SameContent(o: Order, r: Order) {
    && r.customerId == o.customerId
    && r.totalAmount == o.totalAmount
    && r.deliveryAddress == o.deliveryAddress
    && r.deliveryCity == o.deliveryCity
    && r.deliveryPhone == o.deliveryPhone
    && r.note == o.note
    && r.lines == o.lines
    && r.createdAt == o.createdAt
  }

  /** The row update: the new status, and the column `timestampField` maps it
      to set to the current time. */
  function Advance(o: Order, s: OrderStatus, now: Time): (r: Order)
    ensures r.status == s
    ensures forall f :: StampOf(r, f) == (if FieldFor(s) == Some(f) then Some(now) else StampOf(o, f))
    ensures SameContent(o, r)
  {
    match s
    case Placed => o.(status := s)
    case Preparing => o.(status := s, preparingAt := Some(now))
    case Ready => o.(status := s, readyAt := Some(now))
    case Delivered => o.(status := s, deliveredAt := Some(now))
    case Cancelled => o.(status := s, cancelledAt := Some(now))
  }

  /** The statuses an order has been stamped for on its way to `s`. */
  function StampedOnWayTo(s: OrderStatus): set<StampField> {
    match s
    case Placed => {}
    case Preparing => {PreparingAt}
    case Ready => {PreparingAt, ReadyAt}
    case Delivered => {PreparingAt, ReadyAt, DeliveredAt}
    case Cancelled => {CancelledAt}
  }

  /** An order carries exactly the timestamps of the statuses it went
      through: a cancelled order was never prepared, a delivered one was
      prepared and made ready first. */
  predicate WellStamped(o: Order) {
    forall f :: StampOf(o, f).Some? <==> f in StampedOnWayTo(o.status)
  }

  /** A fresh order (status PLACED, no timestamps) is well stamped. */
  lemma FreshOrderIsWellStamped(o: Order)
    requires o.status == Placed
    requires o.preparingAt.None? && o.readyAt.None? && o.deliveredAt.None? && o.cancelledAt.None?
    ensures WellStamped(o)
  {
    forall f ensures StampOf(o, f).Some? <==> f in StampedOnWayTo(o.status) {
      match f
      case PreparingAt =>
      case ReadyAt =>
      case DeliveredAt =>
      case CancelledAt =>
    }
  }

  /** Advancing along a legal edge keeps the timestamps in step with the
      status. */
  lemma AdvanceKeepsWellStamped(o: Order, s: OrderStatus, now: Time)
    requires WellStamped(o) && CanTransition(o.status, s)
    ensures WellStamped(Advance(o, s, now))
  {
    var r := Advance(o, s, now);
    LegalEdges(o.status, s);
    forall f ensures StampOf(r, f).Some? <==> f in StampedOnWayTo(r.status) {
      assert StampOf(o, f).Some? <==> f in StampedOnWayTo(o.status);
    }
  }

  /** The timestamps a well-stamped order carries appear in lifecycle order
      and none precedes creation. */
  predicate Chronological(o: Order) {
    && (o.preparingAt.Some? ==> o.createdAt <= o.preparingAt.value)
    && (o.readyAt.Some? && o.preparingAt.Some? ==> o.preparingAt.value <= o.readyAt.value)
    && (o.deliveredAt.Some? && o.readyAt.Some? ==> o.readyAt.value <= o.deliveredAt.value)
    && (o.cancelledAt.Some? ==> o.createdAt <= o.cancelledAt.value)
  }

  /** The latest time the order was stamped with. */
  function LastStamp(o: Order): Time {
    if o.deliveredAt.Some? then o.deliveredAt.value
    else if o.readyAt.Some? then o.readyAt.value
    else if o.preparingAt.Some? then o.preparingAt.value
    else if o.cancelledAt.Some? then o.cancelledAt.value
    else o.createdAt
  }

  /** With a clock that does not run backwards, a legal step keeps the
      timestamps in lifecycle order. */
  lemma AdvanceKeepsChronology(o: Order, s: OrderStatus, now: Time)
    requires WellStamped(o) && Chronological(o) && CanTransition(o.status, s)
    requires LastStamp(o) <= now
    ensures Chronological(Advance(o, s, now))
  {
    LegalEdges(o.status, s);
    assert StampOf(o, PreparingAt).Some? <==> PreparingAt in StampedOnWayTo(o.status);
    assert StampOf(o, ReadyAt).Some? <==> ReadyAt in StampedOnWayTo(o.status);
    assert StampOf(o, DeliveredAt).Some? <==> DeliveredAt in StampedOnWayTo(o.status);
    assert StampOf(o, CancelledAt).Some? <==> CancelledAt in StampedOnWayTo(o.status);
  }
}
