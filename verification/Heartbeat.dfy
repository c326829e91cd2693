/** The lease heartbeat around one broker emission
    (libs/cap-core/src/utils/active-lease-heartbeat.util.ts).

    JavaScript callbacks run one at a time, so one run of the helper is a sequence of
    events: the timer fires and a renewal call goes out, that call settles, or the
    wrapped operation settles.  The functions below give the effect of each event on the
    captured variables, class `ActiveLease` performs the same updates in place, and the
    lemmas talk about every possible schedule of events. */
module Heartbeat {
  import opened Basics

  datatype Outcome = Fulfilled | Rejected

  /** How one renewal promise settles. */
  datatype Renewal = Kept | Refused | Threw

  datatype Event = TimerFires | RenewalSettles(renewal: Renewal) | OperationSettles(outcome: Outcome)

  datatype State = State(
    renews: bool,                // options.renew is present
    ownershipLost: bool,
    stopped: bool,
    timerArmed: bool,
    inFlight: bool,
    operation: Option<Outcome>)
  {
    /** The helper's promise has settled: nothing is left to wait for. */
    predicate Returned() {
      stopped && !inFlight
    }
  }

  function ScheduleRenewal(s: State): State {
    if s.stopped || s.ownershipLost || !s.renews then s else s.(timerArmed := true)
  }

  function Begin(renews: bool): State {
    ScheduleRenewal(State(renews, false, false, false, false, None))
  }

  predicate Enabled(s: State, e: Event) {
    match e
    case TimerFires => s.timerArmed
    case RenewalSettles(_) => s.inFlight
    case OperationSettles(_) => !s.stopped
  }

  function Next(s: State, e: Event): State
    requires Enabled(s, e)
  {
    match e
    case TimerFires => s.(timerArmed := false, inFlight := true)
    case RenewalSettles(r) =>
      ScheduleRenewal(s.(ownershipLost := s.ownershipLost || r != Kept, inFlight := false))
    case OperationSettles(o) => s.(stopped := true, timerArmed := false, operation := Some(o))
  }

  /** `events` can happen in this order, starting from a fresh call. */
  ghost predicate Schedule(renews: bool, events: seq<Event>)
    decreases |events|, 0
  {
    |events| == 0 ||
    (Schedule(renews, events[..|events| - 1]) &&
     Enabled(After(renews, events[..|events| - 1]), events[|events| - 1]))
  }

  ghost function After(renews: bool, events: seq<Event>): State
    requires Schedule(renews, events)
    decreases |events|, 1
  {
    if |events| == 0 then Begin(renews)
    else Next(After(renews, events[..|events| - 1]), events[|events| - 1])
  }

  predicate LosesOwnership(e: Event) {
    e.RenewalSettles? && e.renewal != Kept
  }

  function Count(events: seq<Event>, kind: Event -> bool): nat
    decreases |events|
  {
    if |events| == 0 then 0
    else Count(events[..|events| - 1], kind) + if kind(events[|events| - 1]) then 1 else 0
  }

  /** The state is a function of what has happened: ownership is lost exactly when some
      renewal was refused or threw, renewals in flight are those sent and not settled, and
      the timer is armed exactly while a new renewal may still be needed. */
  lemma {:induction false} StateReflectsSchedule(renews: bool, events: seq<Event>)
    requires Schedule(renews, events)
    ensures var s := After(renews, events);
      && s.renews == renews
      && (s.ownershipLost <==> exists i :: 0 <= i < |events| && LosesOwnership(events[i]))
      && (s.stopped <==> exists i :: 0 <= i < |events| && events[i].OperationSettles?)
      && (s.operation.None? <==> !s.stopped)
      && Count(events, (e: Event) => e.TimerFires?)
         == Count(events, (e: Event) => e.RenewalSettles?) + (if s.inFlight then 1 else 0)
      && (s.timerArmed <==> s.renews && !s.stopped && !s.ownershipLost && !s.inFlight)
      && (s.inFlight ==> s.renews && !s.ownershipLost)
    decreases |events|
  {
    if |events| > 0 {
      var before := events[..|events| - 1];
      StateReflectsSchedule(renews, before);
      forall i | 0 <= i < |before| ensures events[i] == before[i] {}
      var last := |events| - 1;
      assert LosesOwnership(events[last]) ==> After(renews, events).ownershipLost;
      assert events[last].OperationSettles? ==> After(renews, events).stopped;
    }
  }

  lemma {:induction false} PrefixIsSchedule(renews: bool, events: seq<Event>, n: nat)
    requires Schedule(renews, events) && n <= |events|
    ensures Schedule(renews, events[..n])
    decreases |events|
  {
    if n == |events| {
      assert events[..n] == events;
    } else {
      PrefixIsSchedule(renews, events[..|events| - 1], n);
      assert events[..|events| - 1][..n] == events[..n];
    }
  }

  /** Renewal calls never overlap, and none is started after one has failed or after the
      operation has settled. */
  lemma NoRenewalAfterLossOrSettlement(renews: bool, events: seq<Event>, i: nat, j: nat)
    requires Schedule(renews, events) && i < j < |events|
    requires events[j].TimerFires?
    ensures !LosesOwnership(events[i]) && !events[i].OperationSettles?
    ensures events[i].TimerFires? ==> exists k :: i < k < j && events[k].RenewalSettles?
  {
    PrefixIsSchedule(renews, events, j + 1);
    var upto := events[..j + 1];
    assert upto[..|upto| - 1] == events[..j];
    StateReflectsSchedule(renews, events[..j]);
    assert events[..j][i] == events[i];
    if events[i].TimerFires? && forall k :: i < k < j ==> !events[k].RenewalSettles? {
      StaysInFlight(renews, events[..j], i);
      assert false;
    }
  }

  lemma {:induction false} StaysInFlight(renews: bool, events: seq<Event>, i: nat)
    requires Schedule(renews, events) && i < |events| && events[i].TimerFires?
    requires forall k :: i < k < |events| ==> !events[k].RenewalSettles?
    ensures After(renews, events).inFlight
    decreases |events|
  {
    var before := events[..|events| - 1];
    if i < |before| {
      assert before[i] == events[i];
      forall k | i < k < |before| ensures !before[k].RenewalSettles? {
        assert before[k] == events[k];
      }
      StaysInFlight(renews, before, i);
    }
  }

  /** Once the operation has settled the helper returns after at most one more event, the
      settling of a renewal that was already in flight; on return no timer and no renewal
      is pending, so the caller's completion write cannot race its own renewal. */
  lemma ReturnsQuietly(renews: bool, events: seq<Event>, e: Event)
    requires Schedule(renews, events) && After(renews, events).stopped
    ensures var s := After(renews, events);
      && (s.Returned() ==> !s.timerArmed && !s.inFlight && !Enabled(s, e) && s.operation.Some?)
      && (!s.Returned() && Enabled(s, e) ==> e.RenewalSettles? && Next(s, e).Returned())
      && (!s.Returned() ==> Enabled(s, RenewalSettles(Kept)))
  {
    StateReflectsSchedule(renews, events);
  }

  /** The captured variables of one `runWithActiveLeaseHeartbeat` call. */
  class ActiveLease {
    const renews: bool
    var ownershipLost: bool
    var stopped: bool
    var timerArmed: bool
    var inFlightRenewal: bool
    var operation: Option<Outcome>

    ghost function View(): State
      reads this
    {
      State(renews, ownershipLost, stopped, timerArmed, inFlightRenewal, operation)
    }

    constructor (renews: bool)
      ensures View() == Begin(renews)
    {
      this.renews := renews;
      ownershipLost, stopped, inFlightRenewal, operation := false, false, false, None;
      timerArmed := false;
      new;
      ArmTimer();
    }

    method ArmTimer()
      modifies this
      ensures View() == ScheduleRenewal(old(View()))
    {
      if stopped || ownershipLost || !renews { return; }
      timerArmed := true;
    }

    method OnTimer()
      requires timerArmed
      modifies this
      ensures View() == Next(old(View()), TimerFires)
    {
      timerArmed := false;
      inFlightRenewal := true;
    }

    method OnRenewalSettled(renewal: Renewal)
      requires inFlightRenewal
      modifies this
      ensures View() == Next(old(View()), RenewalSettles(renewal))
    {
      if renewal != Kept { ownershipLost := true; }
      inFlightRenewal := false;
      ArmTimer();
    }

    method OnOperationSettled(outcome: Outcome)
      requires !stopped
      modifies this
      ensures View() == Next(old(View()), OperationSettles(outcome))
    {
      operation := Some(outcome);
      stopped := true;
      timerArmed := false;
    }
  }
}
