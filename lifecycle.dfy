/**
 * The booking lifecycle as the booking details screen drives it
 * (frontend/src/components/bookings/BookingDetails.tsx): which actions its buttons offer in
 * each booking status, and the booking and unit statuses an action leaves behind when it succeeds.
 */
module Lifecycle {

  // Booking statuses.
  const PENDING_DEPOSIT := "pending_deposit"
  const CONFIRMED := "confirmed"
  const CHECKED_IN := "checked_in"
  const CHECKED_OUT := "checked_out"
  const CANCELLED := "cancelled"

  // Unit statuses the screen writes.
  const OCCUPIED := "occupied"
  const CLEANING := "cleaning"

  /** The cancel button is shown for a confirmed, pending or checked-in booking. */
  predicate CanCancel(status: string) {
    status in [CONFIRMED, PENDING_DEPOSIT, CHECKED_IN]
  }

  /** The check-in button is shown for a confirmed booking only. */
  predicate CanCheckIn(status: string) {
    status == CONFIRMED
  }

  /** The check-out button is shown for a checked-in booking only. */
  predicate CanCheckOut(status: string) {
    status == CHECKED_IN
  }

  datatype Action = Cancel | CheckIn | CheckOut | RecordPayment(amount: real)

  /** The screen offers the action in this status; recording a payment is always offered. */
  predicate Offered(status: string, a: Action) {
    match a
    case Cancel => CanCancel(status)
    case CheckIn => CanCheckIn(status)
    case CheckOut => CanCheckOut(status)
    case RecordPayment(_) => true
  }

  /** The booking status after the action succeeds. */
  function StatusAfter(status: string, a: Action): string {
    match a
    case Cancel => CANCELLED
    case CheckIn => CHECKED_IN
    case CheckOut => CHECKED_OUT
    case RecordPayment(amount) => if status == PENDING_DEPOSIT && amount > 0.0 then CONFIRMED else status
  }

  /** The status of the booked unit after the action succeeds. */
  function UnitStatusAfter(unitStatus: string, a: Action): string {
    match a
    case CheckIn => OCCUPIED
    case CheckOut => CLEANING
    case _ => unitStatus
  }

  /** The lifecycle graph: deposit, check-in, check-out, and cancellation from any open status. */
  predicate Edge(from: string, to: string) {
    || (from == PENDING_DEPOSIT && (to == CONFIRMED || to == CANCELLED))
    || (from == CONFIRMED && (to == CHECKED_IN || to == CANCELLED))
    || (from == CHECKED_IN && (to == CHECKED_OUT || to == CANCELLED))
  }

  predicate Terminal(status: string) {
    status == CHECKED_OUT || status == CANCELLED
  }

  /** How far along the lifecycle a status is. */
  function Rank(status: string): nat {
    if status == CONFIRMED then 1
    else if status == CHECKED_IN then 2
    else if Terminal(status) then 3
    else 0
  }

  /** Every offered action either keeps the status or follows an edge of the lifecycle graph. */
  lemma OfferedFollowsLifecycle(status: string, a: Action)
    requires Offered(status, a)
    ensures StatusAfter(status, a) == status || Edge(status, StatusAfter(status, a))
  {
  }

  /** The unit only changes at check-in and check-out. */
  lemma UnitChangesOnlyAtStay(unitStatus: string, a: Action)
    ensures UnitStatusAfter(unitStatus, a) != unitStatus ==> a == CheckIn || a == CheckOut
  {
  }

  /** The statuses after a run of actions. */
  function Run(status: string, actions: seq<Action>): string
    decreases |actions|
  {
    if actions == [] then status else Run(StatusAfter(status, actions[0]), actions[1..])
  }

  /** Each action of the run is offered in the status it meets. */
  predicate Feasible(status: string, actions: seq<Action>)
    decreases |actions|
  {
    actions == [] || (Offered(status, actions[0]) && Feasible(StatusAfter(status, actions[0]), actions[1..]))
  }

  /** A run of offered actions never moves a booking back, and never leaves a terminal status. */
  lemma {:induction false} RunNeverGoesBack(status: string, actions: seq<Action>)
    requires Feasible(status, actions)
    ensures Rank(Run(status, actions)) >= Rank(status)
    ensures Terminal(status) ==> Run(status, actions) == status
    decreases |actions|
  {
    if actions != [] {
      OfferedFollowsLifecycle(status, actions[0]);
      RunNeverGoesBack(StatusAfter(status, actions[0]), actions[1..]);
    }
  }

  /** A pending booking reaches check-in only through a status change that a payment makes. */
  lemma {:induction false} CheckInNeedsDeposit(actions: seq<Action>)
    requires Feasible(PENDING_DEPOSIT, actions)
    requires forall i :: 0 <= i < |actions| ==> !actions[i].RecordPayment?
    ensures Run(PENDING_DEPOSIT, actions) in {PENDING_DEPOSIT, CANCELLED}
  {
    if actions != [] {
      var next := StatusAfter(PENDING_DEPOSIT, actions[0]);
      assert next == CANCELLED;
      RunNeverGoesBack(next, actions[1..]);
    }
  }
}
