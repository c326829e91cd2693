/** The lifecycle fields of `CapEngine` and the code between two awaits, updated in place.
    Every method is proved to perform one step of module `Lifecycle`. */
module LifecycleEngine {
  import opened Basics
  import opened Lifecycle

  class CapEngine {
    const hasClose: bool
    var subscriptions: seq<Subscription>
    var lifecycle: Phase
    var unattached: seq<nat>          // what is left of the startup loop; empty when no startup is in flight
    var stopPromise: Stop
    var stopRequested: bool
    var shutdownIncomplete: bool
    var startsAfterStop: nat
    ghost var calls: History

    ghost function View(): Engine
      reads this
    {
      Engine(hasClose, subscriptions, lifecycle, unattached, stopPromise, stopRequested, shutdownIncomplete,
             startsAfterStop, calls)
    }

    constructor (hasClose: bool)
      ensures View() == Initial(hasClose) && Inv(View())
    {
      this.hasClose := hasClose;
      subscriptions, unattached, lifecycle, stopPromise := [], [], Idle, NoStop;
      stopRequested, shutdownIncomplete, startsAfterStop := false, false, 0;
      calls := Start;
    }

    method RegisterSubscription(topic: string, group: string) returns (answer: Answer)
      modifies this
      ensures (View(), answer) == Registered(old(View()), topic, group)
      ensures answer == Accepted <==>
        topic != "" && old(lifecycle) !in {Starting, Stopping, Ready} && !HasKey(old(subscriptions), JoinKey(topic, group))
      ensures subscriptions == old(subscriptions) + if answer == Accepted then [Subscription(topic + "|" + group, false)] else []
    {
      if topic == "" { return Refused; }
      if lifecycle == Starting || lifecycle == Stopping || lifecycle == Ready { return Refused; }
      var key := JoinKey(topic, group);
      if HasKey(subscriptions, key) { return Refused; }
      subscriptions := subscriptions + [Subscription(key, false)];
      return Accepted;
    }

    /** Collect the registrations still to attach, in registration order. */
    method CollectUnattached() returns (todo: seq<nat>)
      ensures todo == Unattached(subscriptions, 0)
    {
      todo := [];
      var i := |subscriptions|;
      while i > 0
        invariant 0 <= i <= |subscriptions|
        invariant todo == Unattached(subscriptions, i)
      {
        i := i - 1;
        if !subscriptions[i].attached { todo := [i] + todo; }
      }
    }

    method StartSubscriptions()
      requires Inv(View())
      modifies this
      ensures View() == Next(old(View()), StartCall) && Inv(View())
      ensures StartLaw(old(View()), View())
    {
      ghost var was := View();
      StepKeeps(was, StartCall);
      StartObeysLaw(was);
      hide StartLaw;
      if lifecycle == Ready { return; }
      if lifecycle == Stopping { startsAfterStop := startsAfterStop + 1; return; }
      if shutdownIncomplete { return; }
      if |unattached| > 0 { return; }
      stopRequested := false;
      lifecycle := Starting;
      var todo := CollectUnattached();
      unattached := todo;
      if |todo| == 0 {
        lifecycle := Ready;
        return;
      }
      calls := Then(calls, ConsumeIssued(subscriptions[todo[0]].key));
    }

    /** The outstanding consume has resolved: mark the registration, then go on with the
        loop, or give way to a stop that was asked for meanwhile. */
    method OnConsumeResolved()
      requires Inv(View()) && Enabled(View(), ConsumeResolves)
      modifies this
      ensures View() == Attached(old(View())) && Inv(View())
    {
      StepKeeps(View(), ConsumeResolves);
      var i := unattached[0];
      calls := Then(calls, ConsumeSucceeded(subscriptions[i].key));
      subscriptions := subscriptions[i := subscriptions[i].(attached := true)];
      unattached := unattached[1..];
      if stopRequested {
        unattached := [];
        ResumeStop();
        return;
      }
      if |unattached| == 0 {
        lifecycle := Ready;
        ResumeStop();
        return;
      }
      calls := Then(calls, ConsumeIssued(subscriptions[unattached[0]].key));
    }

    method OnConsumeRejected()
      requires Inv(View()) && Enabled(View(), ConsumeRejects)
      modifies this
      ensures View() == AttachBroken(old(View())) && Inv(View())
    {
      StepKeeps(View(), ConsumeRejects);
      calls := Then(calls, ConsumeFailed(subscriptions[unattached[0]].key));
      lifecycle := Failed;
      unattached := [];
      ResumeStop();
    }

    /** A stop waiting for the startup to settle goes on to close the subscriber. */
    method ResumeStop()
      requires |unattached| == 0
      modifies this
      ensures View() == StartupOver(old(View()))
    {
      if stopPromise == AwaitingStart { CloseSubscriber(); }
    }

    method StopSubscriptions()
      requires Inv(View())
      modifies this
      ensures View() == StopAsked(old(View())) && Inv(View())
      ensures StopLaw(old(View()), View())
    {
      StepKeeps(View(), StopCall);
      StopObeysLaw(View());
      hide StopLaw;
      if lifecycle == Stopped { return; }
      if stopPromise != NoStop { return; }
      stopRequested := true;
      if |unattached| > 0 {
        stopPromise := AwaitingStart;
        return;
      }
      CloseSubscriber();
    }

    method CloseSubscriber()
      modifies this
      ensures View() == BeginClose(old(View()))
    {
      if hasClose {
        lifecycle := Stopping;
        stopPromise := Closing;
      } else {
        FinishStop();
      }
    }

    method FinishStop()
      modifies this
      ensures View() == Closed(old(View()))
    {
      ghost var was := subscriptions;
      var i := 0;
      while i < |subscriptions|
        invariant i <= |subscriptions| == |was|
        invariant forall k :: 0 <= k < |was| ==>
          subscriptions[k] == if k < i then was[k].(attached := false) else was[k]
        invariant View().(subscriptions := was) == old(View())
      {
        subscriptions := subscriptions[i := subscriptions[i].(attached := false)];
        i := i + 1;
      }
      shutdownIncomplete := false;
      lifecycle := Stopped;
      stopPromise := NoStop;
      stopRequested := false;
      calls := Then(calls, CloseSucceeded);
    }

    method OnCloseResolved()
      requires Inv(View()) && Enabled(View(), CloseResolves)
      modifies this
      ensures View() == Closed(old(View())) && Inv(View())
    {
      StepKeeps(View(), CloseResolves);
      FinishStop();
    }

    method OnCloseRejected()
      requires Inv(View()) && Enabled(View(), CloseRejects)
      modifies this
      ensures View() == CloseBroken(old(View())) && Inv(View())
    {
      StepKeeps(View(), CloseRejects);
      shutdownIncomplete := true;
      lifecycle := Failed;
      stopPromise := NoStop;
      stopRequested := false;
      calls := Then(calls, CloseFailed);
    }
  }
}
