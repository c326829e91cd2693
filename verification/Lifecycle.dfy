/** The subscription lifecycle of the engine (libs/cap-core/src/engine/cap-engine.ts:
    237-423): registering, starting and stopping, all asynchronous, with attach and close
    calls that may fail.

    A step is one call of the public interface or one settling of a broker call, followed by
    everything JavaScript runs before it takes the next such event.  In particular an
    aborted startup and the stop that waits for it proceed together. */
module Lifecycle {
  import opened Basics

  datatype Phase = Idle | Starting | Ready | Failed | Stopping | Stopped

  datatype Subscription = Subscription(key: string, attached: bool)

  datatype Stop = NoStop | AwaitingStart | Closing

  /** Calls to the subscriber port and their results, oldest first. */
  datatype Event =
    | ConsumeIssued(key: string) | ConsumeSucceeded(key: string) | ConsumeFailed(key: string)
    | CloseSucceeded | CloseFailed

  datatype History = Start | Then(past: History, last: Event)

  /** `attaching` holds the positions still to attach while a startup is in flight; the
      first is the one whose consume call is outstanding. */
  datatype Engine = Engine(
    hasClose: bool,
    subscriptions: seq<Subscription>,
    phase: Phase,
    attaching: seq<nat>,
    stop: Stop,
    stopRequested: bool,
    shutdownIncomplete: bool,
    queuedStarts: nat,
    history: History)

  datatype Step =
    | Register(topic: string, group: string)
    | StartCall
    | StopCall
    | ConsumeResolves
    | ConsumeRejects
    | CloseResolves
    | CloseRejects
    | QueuedStartRuns

  datatype Answer = Accepted | Refused

  function Initial(hasClose: bool): Engine {
    Engine(hasClose, [], Idle, [], NoStop, false, false, 0, Start)
  }

  predicate HasKey(subs: seq<Subscription>, key: string) {
    exists i :: 0 <= i < |subs| && subs[i].key == key
  }

  function Unattached(subs: seq<Subscription>, from: nat): (todo: seq<nat>)
    requires from <= |subs|
    ensures forall k :: 0 <= k < |todo| ==> from <= todo[k] < |subs| && !subs[todo[k]].attached
    decreases |subs| - from
  {
    if from == |subs| then []
    else if subs[from].attached then Unattached(subs, from + 1)
    else [from] + Unattached(subs, from + 1)
  }

  function Detached(subs: seq<Subscription>): seq<Subscription> {
    seq(|subs|, i requires 0 <= i < |subs| => subs[i].(attached := false))
  }

  function Registered(e: Engine, topic: string, group: string): (Engine, Answer) {
    if topic == "" || e.phase in {Starting, Stopping, Ready} || HasKey(e.subscriptions, JoinKey(topic, group)) then (e, Refused)
    else (e.(subscriptions := e.subscriptions + [Subscription(JoinKey(topic, group), false)]), Accepted)
  }

  function IssueFirst(e: Engine): Engine
    requires |e.attaching| > 0 && e.attaching[0] < |e.subscriptions|
  {
    e.(history := Then(e.history, ConsumeIssued(e.subscriptions[e.attaching[0]].key)))
  }

  function Started(e: Engine): Engine {
    if e.phase == Ready then e
    else if e.phase == Stopping then e.(queuedStarts := e.queuedStarts + 1)
    else if e.shutdownIncomplete then e
    else if |e.attaching| > 0 then e
    else
      var todo := Unattached(e.subscriptions, 0);
      var e' := e.(stopRequested := false, phase := if |todo| == 0 then Ready else Starting, attaching := todo);
      if |todo| == 0 then e' else IssueFirst(e')
  }

  function Closed(e: Engine): Engine {
    e.(subscriptions := Detached(e.subscriptions), phase := Stopped, stop := NoStop, stopRequested := false,
       shutdownIncomplete := false, history := Then(e.history, CloseSucceeded))
  }

  function CloseBroken(e: Engine): Engine {
    e.(phase := Failed, stop := NoStop, stopRequested := false, shutdownIncomplete := true,
       history := Then(e.history, CloseFailed))
  }

  function BeginClose(e: Engine): Engine {
    if e.hasClose then e.(phase := Stopping, stop := Closing) else Closed(e)
  }

  function StopAsked(e: Engine): Engine {
    if e.phase == Stopped || e.stop != NoStop then e
    else if |e.attaching| > 0 then e.(stopRequested := true, stop := AwaitingStart)
    else BeginClose(e.(stopRequested := true))
  }

  /** The startup is over; a stop that waited for it goes on. */
  function StartupOver(e: Engine): Engine {
    var e' := e.(attaching := []);
    if e.stop == AwaitingStart then BeginClose(e') else e'
  }

  function Attached(e: Engine): Engine
    requires |e.attaching| > 0 && forall i :: 0 <= i < |e.attaching| ==> e.attaching[i] < |e.subscriptions|
  {
    var i := e.attaching[0];
    var e' := e.(subscriptions := e.subscriptions[i := e.subscriptions[i].(attached := true)],
                 attaching := e.attaching[1..],
                 history := Then(e.history, ConsumeSucceeded(e.subscriptions[i].key)));
    if e.stopRequested then StartupOver(e')
    else if |e'.attaching| == 0 then StartupOver(e'.(phase := Ready))
    else IssueFirst(e')
  }

  function AttachBroken(e: Engine): Engine
    requires |e.attaching| > 0 && e.attaching[0] < |e.subscriptions|
  {
    StartupOver(e.(phase := Failed,
                   history := Then(e.history, ConsumeFailed(e.subscriptions[e.attaching[0]].key))))
  }

  predicate Enabled(e: Engine, step: Step) {
    match step
    case ConsumeResolves => |e.attaching| > 0
    case ConsumeRejects => |e.attaching| > 0
    case CloseResolves => e.stop == Closing
    case CloseRejects => e.stop == Closing
    case QueuedStartRuns => e.queuedStarts > 0 && e.stop == NoStop
    case _ => true
  }

  function Next(e: Engine, step: Step): Engine
    requires Enabled(e, step)
    requires forall i :: 0 <= i < |e.attaching| ==> e.attaching[i] < |e.subscriptions|
  {
    match step
    case Register(topic, group) => Registered(e, topic, group).0
    case StartCall => Started(e)
    case StopCall => StopAsked(e)
    case ConsumeResolves => Attached(e)
    case ConsumeRejects => AttachBroken(e)
    case CloseResolves => Closed(e)
    case CloseRejects => CloseBroken(e)
    case QueuedStartRuns => Started(e.(queuedStarts := e.queuedStarts - 1))
  }

  // ----- what the history says -----

  /** The registration has been consumed successfully since the last successful close. */
  predicate ConsumedIn(h: History, key: string) {
    match h
    case Start => false
    case Then(past, ConsumeSucceeded(k)) => k == key || ConsumedIn(past, key)
    case Then(past, CloseSucceeded) => false
    case Then(past, _) => ConsumedIn(past, key)
  }

  /** The last close call failed. */
  predicate IncompleteIn(h: History) {
    match h
    case Start => false
    case Then(past, CloseFailed) => true
    case Then(past, CloseSucceeded) => false
    case Then(past, _) => IncompleteIn(past)
  }

  function IssuedCount(h: History): nat {
    if h.Start? then 0 else IssuedCount(h.past) + if h.last.ConsumeIssued? then 1 else 0
  }

  /** A consume is only issued after every failed close has been made good, and only for a
      registration not consumed since the last close; so between two closes each
      registration is consumed successfully at most once. */
  ghost predicate Orderly(h: History) {
    match h
    case Start => true
    case Then(past, ConsumeIssued(k)) => Orderly(past) && !IncompleteIn(past) && !ConsumedIn(past, k)
    case Then(past, ConsumeSucceeded(k)) => Orderly(past) && !IncompleteIn(past) && !ConsumedIn(past, k)
    case Then(past, _) => Orderly(past)
  }

  // ----- the invariant -----

  ghost predicate Inv(e: Engine) {
    var subs := e.subscriptions;
    && (forall i, j :: 0 <= i < j < |subs| ==> subs[i].key != subs[j].key)
    && (forall i :: 0 <= i < |subs| ==> (subs[i].attached <==> ConsumedIn(e.history, subs[i].key)))
    && (forall k :: ConsumedIn(e.history, k) ==> HasKey(subs, k))
    && (e.phase == Starting <==> |e.attaching| > 0)
    && (|e.attaching| > 0 ==> e.attaching == Unattached(subs, 0))
    && (e.stop == Closing <==> e.phase == Stopping)
    && (e.stop == Closing ==> e.hasClose)
    && (e.stop == AwaitingStart ==> |e.attaching| > 0)
    && (e.stopRequested <==> e.stop != NoStop)
    && (e.phase == Ready ==> forall i :: 0 <= i < |subs| ==> subs[i].attached)
    && (e.phase in {Idle, Stopped} ==> forall i :: 0 <= i < |subs| ==> !subs[i].attached)
    && (e.shutdownIncomplete ==> e.phase in {Failed, Stopping})
    && (e.shutdownIncomplete <==> IncompleteIn(e.history))
    && Orderly(e.history)
  }

  lemma {:induction false} UnattachedMeaning(subs: seq<Subscription>, from: nat)
    requires from <= |subs|
    ensures var todo := Unattached(subs, from);
      && (forall i :: from <= i < |subs| && !subs[i].attached ==> i in todo)
      && (forall j, k :: 0 <= j < k < |todo| ==> todo[j] < todo[k])
    decreases |subs| - from
  {
    if from < |subs| {
      UnattachedMeaning(subs, from + 1);
      var rest := Unattached(subs, from + 1);
      assert !subs[from].attached ==> Unattached(subs, from) == [from] + rest;
      assert forall i :: from + 1 <= i < |subs| && !subs[i].attached ==> i in rest;
    }
  }

  /** Attaching the first unattached subscription leaves the rest of the list. */
  lemma {:induction false} UnattachedAfterFirst(subs: seq<Subscription>, from: nat)
    requires from <= |subs| && |Unattached(subs, from)| > 0
    ensures var todo := Unattached(subs, from);
      && from <= todo[0] < |subs|
      && Unattached(subs[todo[0] := subs[todo[0]].(attached := true)], from) == todo[1..]
    decreases |subs| - from
  {
    if subs[from].attached {
      UnattachedAfterFirst(subs, from + 1);
    } else {
      UnattachedMeaning(subs, from + 1);
      UnattachedSuffix(subs, subs[from := subs[from].(attached := true)], from + 1);
    }
  }

  lemma {:induction false} UnattachedSuffix(subs: seq<Subscription>, subs': seq<Subscription>, from: nat)
    requires from <= |subs| == |subs'|
    requires forall i :: from <= i < |subs| ==> subs[i] == subs'[i]
    ensures Unattached(subs, from) == Unattached(subs', from)
    decreases |subs| - from
  {
    if from < |subs| {
      UnattachedSuffix(subs, subs', from + 1);
    }
  }

  lemma QueueInRange(e: Engine)
    requires Inv(e)
    ensures forall i :: 0 <= i < |e.attaching| ==> e.attaching[i] < |e.subscriptions| && !e.subscriptions[e.attaching[i]].attached
  {
    UnattachedMeaning(e.subscriptions, 0);
  }

  lemma RegisterKeeps(e: Engine, topic: string, group: string)
    requires Inv(e)
    ensures Inv(Registered(e, topic, group).0)
  {
    var e' := Registered(e, topic, group).0;
    forall k | ConsumedIn(e'.history, k) ensures HasKey(e'.subscriptions, k) {
      var i :| 0 <= i < |e.subscriptions| && e.subscriptions[i].key == k;
      assert e'.subscriptions[i].key == k;
    }
  }

  lemma StartKeeps(e: Engine)
    requires Inv(e)
    ensures Inv(Started(e))
  {
    var e' := Started(e);
    UnattachedMeaning(e.subscriptions, 0);
    assert forall k :: ConsumedIn(e'.history, k) == ConsumedIn(e.history, k);
  }

  lemma CloseKeeps(e: Engine)
    requires Inv(e) && |e.attaching| == 0
    ensures Inv(Closed(e)) && (e.stop == Closing ==> Inv(CloseBroken(e)))
  {
  }

  lemma StopKeeps(e: Engine)
    requires Inv(e)
    ensures Inv(StopAsked(e))
  {
    if e.stop == NoStop && |e.attaching| == 0 && !e.hasClose {
      CloseKeeps(e);
    }
  }

  /** The invariant apart from the clauses that tie phase, queue and stop together. */
  ghost predicate Facts(e: Engine) {
    var subs := e.subscriptions;
    && (forall i, j :: 0 <= i < j < |subs| ==> subs[i].key != subs[j].key)
    && (forall i :: 0 <= i < |subs| ==> (subs[i].attached <==> ConsumedIn(e.history, subs[i].key)))
    && (forall k :: ConsumedIn(e.history, k) ==> HasKey(subs, k))
    && (e.shutdownIncomplete <==> IncompleteIn(e.history))
    && Orderly(e.history)
  }

  lemma AttachedFacts(e: Engine)
    requires Inv(e) && |e.attaching| > 0 && e.attaching[0] < |e.subscriptions|
    requires !e.subscriptions[e.attaching[0]].attached
    ensures var i := e.attaching[0];
      Facts(e.(subscriptions := e.subscriptions[i := e.subscriptions[i].(attached := true)],
               history := Then(e.history, ConsumeSucceeded(e.subscriptions[i].key))))
  {
    var i := e.attaching[0];
    var e' := e.(subscriptions := e.subscriptions[i := e.subscriptions[i].(attached := true)],
                 history := Then(e.history, ConsumeSucceeded(e.subscriptions[i].key)));
    assert forall j :: 0 <= j < |e.subscriptions| ==> e'.subscriptions[j].key == e.subscriptions[j].key;
    forall k | ConsumedIn(e'.history, k) ensures HasKey(e'.subscriptions, k) {
      if k != e.subscriptions[i].key {
        assert ConsumedIn(e.history, k);
        var j :| 0 <= j < |e.subscriptions| && e.subscriptions[j].key == k;
        assert e'.subscriptions[j].key == k;
      } else {
        assert e'.subscriptions[i].key == k;
      }
    }
  }

  /** A startup that is over leaves a state in which the invariant holds, whether or not a
      stop was waiting for it. */
  lemma StartupOverKeeps(e: Engine)
    requires Facts(e) && e.phase in {Starting, Ready, Failed} && !e.shutdownIncomplete
    requires e.stop != Closing && (e.stopRequested <==> e.stop != NoStop)
    requires e.stop == NoStop ==> e.phase != Starting
    requires e.phase == Ready ==> forall i :: 0 <= i < |e.subscriptions| ==> e.subscriptions[i].attached
    ensures Inv(StartupOver(e))
  {
    var e' := StartupOver(e);
  }

  lemma ConsumedKeeps(e: Engine)
    requires Inv(e) && |e.attaching| > 0 && e.attaching == Unattached(e.subscriptions, 0)
    requires forall i :: 0 <= i < |e.attaching| ==> e.attaching[i] < |e.subscriptions| && !e.subscriptions[e.attaching[i]].attached
    ensures Inv(Attached(e))
  {
    AttachedFacts(e);
    UnattachedAfterFirst(e.subscriptions, 0);
    var i := e.attaching[0];
    var e1 := e.(subscriptions := e.subscriptions[i := e.subscriptions[i].(attached := true)],
                 attaching := e.attaching[1..],
                 history := Then(e.history, ConsumeSucceeded(e.subscriptions[i].key)));
    UnattachedMeaning(e1.subscriptions, 0);
    if e.stopRequested {
      StartupOverKeeps(e1);
    } else if |e1.attaching| == 0 {
      StartupOverKeeps(e1.(phase := Ready));
    } else {
      IssueFirstKeeps(e1);
    }
  }

  /** Issuing the consume of the next unattached subscription. */
  lemma IssueFirstKeeps(e: Engine)
    requires Facts(e) && e.phase == Starting && e.stop == NoStop && !e.stopRequested && !e.shutdownIncomplete
    requires |e.attaching| > 0 && e.attaching == Unattached(e.subscriptions, 0)
    requires e.attaching[0] < |e.subscriptions| && !e.subscriptions[e.attaching[0]].attached
    ensures Inv(IssueFirst(e))
  {
  }

  lemma ConsumeFailedKeeps(e: Engine)
    requires Inv(e) && |e.attaching| > 0 && e.attaching[0] < |e.subscriptions|
    ensures Inv(AttachBroken(e))
  {
    var key := e.subscriptions[e.attaching[0]].key;
    StartupOverKeeps(e.(phase := Failed, history := Then(e.history, ConsumeFailed(key))));
  }

  /** Every step keeps the invariant. */
  lemma StepKeeps(e: Engine, step: Step)
    requires Inv(e) && Enabled(e, step)
    ensures forall i :: 0 <= i < |e.attaching| ==> e.attaching[i] < |e.subscriptions|
    ensures Inv(Next(e, step))
  {
    QueueInRange(e);
    match step
    case Register(topic, group) => RegisterKeeps(e, topic, group);
    case StartCall => StartKeeps(e);
    case QueuedStartRuns =>
      var e' := e.(queuedStarts := e.queuedStarts - 1);
        StartKeeps(e');
    case StopCall => StopKeeps(e);
    case ConsumeResolves => ConsumedKeeps(e);
    case ConsumeRejects => ConsumeFailedKeeps(e);
    case CloseResolves => CloseKeeps(e);
    case CloseRejects => CloseKeeps(e);
  }

  // ----- every run -----

  /** A run of the engine: from construction, one step after another. */
  datatype Run = New(hasClose: bool) | After(run: Run, step: Step)

  ghost predicate Legal(run: Run)
    decreases run, 0
  {
    run.New? || (Legal(run.run) && Inv(End(run.run)) && Enabled(End(run.run), run.step))
  }

  ghost function End(run: Run): Engine
    requires Legal(run)
    decreases run, 1
  {
    match run
    case New(hasClose) => Initial(hasClose)
    case After(before, step) => StepKeeps(End(before), step); Next(End(before), step)
  }

  lemma {:induction false} RunKeeps(run: Run)
    requires Legal(run)
    ensures Inv(End(run))
  {
    if run.After? {
      RunKeeps(run.run);
      StepKeeps(End(run.run), run.step);
    }
  }

  predicate AtRest(e: Engine) {
    |e.attaching| == 0 && e.stop == NoStop
  }

  /** Whatever the order of calls and whichever broker calls fail: at rest, `ready` means
      every registration is attached and `stopped` that none is; an incomplete shutdown shows
      as `failed`, or as `stopping` while it is being retried; a registration is attached
      exactly when it was consumed successfully since the last successful close; and no two
      registrations share a key. */
  lemma LifecycleSafety(run: Run)
    requires Legal(run)
    ensures var e := End(run); var subs := e.subscriptions;
      && (AtRest(e) ==> e.phase in {Idle, Ready, Failed, Stopped})
      && (e.phase == Ready ==> AtRest(e) && forall i :: 0 <= i < |subs| ==> subs[i].attached)
      && (e.phase == Stopped ==> AtRest(e) && forall i :: 0 <= i < |subs| ==> !subs[i].attached)
      && (AtRest(e) && e.shutdownIncomplete ==> e.phase == Failed)
      && (e.shutdownIncomplete <==> IncompleteIn(e.history))
      && (forall i :: 0 <= i < |subs| ==> (subs[i].attached <==> ConsumedIn(e.history, subs[i].key)))
      && (forall i, j :: 0 <= i < j < |subs| ==> subs[i].key != subs[j].key)
  {
    RunKeeps(run);
  }

  ghost predicate Moment(p: History, h: History) {
    p == h || (h.Then? && Moment(p, h.past))
  }

  /** No consume is issued between a failed close and the next successful one, and between
      two successful closes each registration is consumed successfully at most once. */
  lemma {:induction false} ConsumesAreOrderly(run: Run, m: History)
    requires Legal(run) && Moment(m, End(run).history) && m.Then?
    ensures m.last.ConsumeIssued? ==> !IncompleteIn(m.past) && !ConsumedIn(m.past, m.last.key)
    ensures m.last.ConsumeSucceeded? ==> !ConsumedIn(m.past, m.last.key)
  {
    RunKeeps(run);
    OrderlyMoment(End(run).history, m);
  }

  lemma {:induction false} OrderlyMoment(h: History, m: History)
    requires Orderly(h) && Moment(m, h)
    ensures Orderly(m)
  {
    if m != h { OrderlyMoment(h.past, m); }
  }

  // ----- a stop wins -----

  function Remaining(e: Engine): nat {
    match e.stop case NoStop => 0 case Closing => 1 case AwaitingStart => 2
  }

  predicate BrokerAnswers(step: Step) {
    step in {ConsumeResolves, ConsumeRejects, CloseResolves, CloseRejects}
  }

  /** While a stop is pending nothing new is consumed and the registrations stay as they
      are; each answer of the broker brings the stop closer to its end, and nothing else
      moves it; an answer is always outstanding.  The stop ends in `stopped` with nothing
      attached, or in `failed` with the attachment flags preserved. */
  lemma PendingStopStep(e: Engine, step: Step)
    requires Inv(e) && Enabled(e, step) && e.stop != NoStop
    ensures forall i :: 0 <= i < |e.attaching| ==> e.attaching[i] < |e.subscriptions|
    ensures var e' := Next(e, step);
      && IssuedCount(e'.history) == IssuedCount(e.history)
      && |e'.subscriptions| == |e.subscriptions|
      && (if BrokerAnswers(step) then Remaining(e') < Remaining(e)
          else e'.(queuedStarts := e.queuedStarts) == e)
      && (Enabled(e, ConsumeResolves) || Enabled(e, CloseResolves))
      && (e'.stop == NoStop ==>
            || (e'.phase == Stopped && !e'.shutdownIncomplete
                && forall i :: 0 <= i < |e'.subscriptions| ==> !e'.subscriptions[i].attached)
            || (e'.phase == Failed && e'.shutdownIncomplete && e'.subscriptions == e.subscriptions))
  {
    QueueInRange(e);
  }

  /** `later` continues `earlier`, with the stop pending until its last step. */
  ghost predicate WhileStopping(earlier: Run, later: Run) {
    later == earlier
    || (later.After? && Legal(later.run) && End(later.run).stop != NoStop && WhileStopping(earlier, later.run))
  }

  function Answers(earlier: Run, later: Run): nat {
    if later == earlier || later.New? then 0
    else Answers(earlier, later.run) + if BrokerAnswers(later.step) then 1 else 0
  }

  /** Once a stop has been asked for, no consume is issued any more until it settles, which
      it does after at most two answers of the broker: the one outstanding consume and the
      close. */
  lemma {:induction false} StopWins(earlier: Run, later: Run)
    requires Legal(earlier) && Legal(later) && WhileStopping(earlier, later)
    ensures IssuedCount(End(later).history) == IssuedCount(End(earlier).history)
    ensures Answers(earlier, later) + Remaining(End(later)) <= Remaining(End(earlier)) <= 2
  {
    if later != earlier {
      RunKeeps(later.run);
      StopWins(earlier, later.run);
      PendingStopStep(End(later.run), later.step);
    }
  }

  /** Without a stop, each resolved consume leaves one registration fewer to attach, and the
      last one makes the engine ready. */
  lemma AttachLoopEnds(e: Engine)
    requires Inv(e) && |e.attaching| > 0 && e.stop == NoStop
    ensures forall i :: 0 <= i < |e.attaching| ==> e.attaching[i] < |e.subscriptions|
    ensures var e' := Next(e, ConsumeResolves);
      && |Unattached(e'.subscriptions, 0)| == |Unattached(e.subscriptions, 0)| - 1
      && (if |Unattached(e.subscriptions, 0)| == 1 then e'.phase == Ready && AtRest(e')
          else e'.attaching == e.attaching[1..] && IssuedCount(e'.history) == IssuedCount(e.history) + 1)
  {
    QueueInRange(e);
    UnattachedAfterFirst(e.subscriptions, 0);
  }

  // ----- what each call and each answer brings about -----

  ghost predicate IsFirstUnattached(subs: seq<Subscription>, i: nat) {
    i < |subs| && !subs[i].attached && forall j :: 0 <= j < i ==> subs[j].attached
  }

  ghost predicate AllAttached(subs: seq<Subscription>) {
    forall i :: 0 <= i < |subs| ==> subs[i].attached
  }

  /** Nothing but the phase, what is outstanding and the history differ. */
  predicate SameOtherwise(e: Engine, e': Engine) {
    && e'.hasClose == e.hasClose && e'.subscriptions == e.subscriptions
    && e'.shutdownIncomplete == e.shutdownIncomplete && e'.queuedStarts == e.queuedStarts
  }

  /** A start at rest makes an engine with nothing to attach ready; otherwise it issues one
      consume, for the first unattached registration. A start while stopping waits for the
      stop; one while ready, while starting, or before an incomplete shutdown was made good
      changes nothing. */
  ghost predicate StartLaw(e: Engine, e': Engine) {
    match e.phase
    case Ready => e' == e
    case Starting => e' == e
    case Stopping => e'.queuedStarts == e.queuedStarts + 1 && e'.(queuedStarts := e.queuedStarts) == e
    case _ =>
      if e.shutdownIncomplete then e' == e
      else
        && SameOtherwise(e, e') && e'.stop == NoStop && !e'.stopRequested
        && (if AllAttached(e.subscriptions) then e'.phase == Ready && e'.history == e.history && e'.attaching == []
            else e'.phase == Starting && e'.attaching != [] && IsFirstUnattached(e.subscriptions, e'.attaching[0])
                 && e'.history == Then(e.history, ConsumeIssued(e.subscriptions[e'.attaching[0]].key)))
  }

  lemma StartObeysLaw(e: Engine)
    requires Inv(e)
    ensures StartLaw(e, Next(e, StartCall))
  {
    UnattachedMeaning(e.subscriptions, 0);
    FirstOfUnattached(e.subscriptions);
  }

  lemma FirstOfUnattached(subs: seq<Subscription>)
    ensures Unattached(subs, 0) == [] <==> AllAttached(subs)
    ensures Unattached(subs, 0) != [] ==> IsFirstUnattached(subs, Unattached(subs, 0)[0])
  {
    FirstFrom(subs, 0);
  }

  lemma {:induction false} FirstFrom(subs: seq<Subscription>, from: nat)
    requires from <= |subs|
    ensures var todo := Unattached(subs, from);
      if todo == [] then forall i :: from <= i < |subs| ==> subs[i].attached
      else !subs[todo[0]].attached && forall j :: from <= j < todo[0] ==> subs[j].attached
    decreases |subs| - from
  {
    if from < |subs| { FirstFrom(subs, from + 1); }
  }

  /** A start that waited for a stop is a start like any other. */
  lemma QueuedStartObeysLaw(e: Engine)
    requires Inv(e) && Enabled(e, QueuedStartRuns)
    ensures StartLaw(e.(queuedStarts := e.queuedStarts - 1), Next(e, QueuedStartRuns))
  {
    var e' := e.(queuedStarts := e.queuedStarts - 1);
    assert Inv(e');
    StartObeysLaw(e');
  }

  /** A start asked for while stopping does not run before the stop has settled, and then can: the
      engine starts afresh when the close succeeded, and stays as it is when it failed. */
  lemma QueuedStartFollowsStop(e: Engine)
    requires Inv(e) && e.stop == Closing && e.queuedStarts > 0
    ensures !Enabled(e, QueuedStartRuns)
    ensures forall answer :: answer in {CloseResolves, CloseRejects} ==> Enabled(Next(e, answer), QueuedStartRuns)
    ensures Inv(Next(e, CloseResolves)) && Inv(Next(e, CloseRejects))
    ensures Next(Next(e, CloseResolves), QueuedStartRuns).phase == if |e.subscriptions| == 0 then Ready else Starting
    ensures Next(Next(e, CloseRejects), QueuedStartRuns) == Next(e, CloseRejects).(queuedStarts := e.queuedStarts - 1)
  {
    StepKeeps(e, CloseResolves);
    StepKeeps(e, CloseRejects);
    QueuedStartObeysLaw(Next(e, CloseResolves));
    QueuedStartObeysLaw(Next(e, CloseRejects));
    if |e.subscriptions| > 0 { assert !Next(e, CloseResolves).subscriptions[0].attached; }
  }

  /** While nobody stops it, a resolved consume attaches the first unattached registration; the
      next consume is issued for the first one left, and without one the engine is ready. */
  lemma ResolvedConsumeAttaches(e: Engine)
    requires Inv(e) && e.attaching != [] && e.stop == NoStop
    ensures forall k :: 0 <= k < |e.attaching| ==> e.attaching[k] < |e.subscriptions|
    ensures var i, e' := e.attaching[0], Next(e, ConsumeResolves);
      && IsFirstUnattached(e.subscriptions, i)
      && e'.subscriptions == e.subscriptions[i := e.subscriptions[i].(attached := true)] && e'.stop == NoStop
      && var attached := Then(e.history, ConsumeSucceeded(e.subscriptions[i].key));
      (if AllAttached(e'.subscriptions) then e'.phase == Ready && e'.attaching == [] && e'.history == attached
       else e'.phase == Starting && e'.attaching != [] && IsFirstUnattached(e'.subscriptions, e'.attaching[0])
            && e'.history == Then(attached, ConsumeIssued(e'.subscriptions[e'.attaching[0]].key)))
  {
    QueueInRange(e);
    FirstOfUnattached(e.subscriptions);
    UnattachedAfterFirst(e.subscriptions, 0);
    var i := e.attaching[0];
    FirstOfUnattached(e.subscriptions[i := e.subscriptions[i].(attached := true)]);
  }

  /** A rejected consume fails the startup and keeps the attachments made so far. */
  lemma RejectedConsumeFails(e: Engine)
    requires Inv(e) && e.attaching != [] && e.stop == NoStop
    ensures forall k :: 0 <= k < |e.attaching| ==> e.attaching[k] < |e.subscriptions|
    ensures var e' := Next(e, ConsumeRejects);
      && SameOtherwise(e, e') && e'.phase == Failed && e'.attaching == [] && e'.stop == NoStop
      && e'.history == Then(e.history, ConsumeFailed(e.subscriptions[e.attaching[0]].key))
  {
    QueueInRange(e);
  }

  /** A stop asked for at rest begins a close, or without a close function has already stopped
      with nothing attached; asked for during a startup it waits for the outstanding consume;
      when stopped, or with another stop pending, it changes nothing. */
  ghost predicate StopLaw(e: Engine, e': Engine) {
    if e.phase == Stopped || e.stop != NoStop then e' == e
    else if e.attaching != [] then
      SameOtherwise(e, e') && e'.stop == AwaitingStart && e'.stopRequested && e'.phase == e.phase
      && e'.attaching == e.attaching && e'.history == e.history
    else if e.hasClose then
      SameOtherwise(e, e') && e'.stop == Closing && e'.stopRequested && e'.phase == Stopping
      && e'.attaching == [] && e'.history == e.history
    else StoppedClean(e, e')
  }

  ghost predicate StoppedClean(e: Engine, e': Engine) {
    && e'.phase == Stopped && e'.stop == NoStop && !e'.stopRequested && !e'.shutdownIncomplete && e'.attaching == []
    && e'.history == Then(e.history, CloseSucceeded) && e'.queuedStarts == e.queuedStarts
    && |e'.subscriptions| == |e.subscriptions|
    && forall i :: 0 <= i < |e.subscriptions| ==> e'.subscriptions[i] == e.subscriptions[i].(attached := false)
  }

  lemma StopObeysLaw(e: Engine)
    requires Inv(e)
    ensures StopLaw(e, Next(e, StopCall))
  {
  }

  /** A stop asked for at rest ends as the close does; one that waited for a startup goes on to
      the close when the outstanding consume is answered, either way. */
  lemma StopEnds(e: Engine)
    requires Inv(e) && e.stop != NoStop
    ensures forall k :: 0 <= k < |e.attaching| ==> e.attaching[k] < |e.subscriptions|
    ensures e.stop == Closing ==>
      && StoppedClean(e, Next(e, CloseResolves))
      && var e' := Next(e, CloseRejects);
         e'.phase == Failed && e'.shutdownIncomplete && e'.stop == NoStop && e'.subscriptions == e.subscriptions
         && e'.history == Then(e.history, CloseFailed)
    ensures e.stop == AwaitingStart ==>
      forall answer :: answer in {ConsumeResolves, ConsumeRejects} ==>
        var e' := Next(e, answer);
        if e.hasClose then e'.stop == Closing && e'.phase == Stopping && e'.attaching == []
        else e'.stop == NoStop && e'.phase == Stopped && forall i :: 0 <= i < |e'.subscriptions| ==> !e'.subscriptions[i].attached
  {
    QueueInRange(e);
    assert e.stop == AwaitingStart ==> e.attaching != [];
  }

  /** A registration is accepted exactly for a topic that is not empty, in a phase without
      transitions and consumers, under a new key; it then comes last and is not attached. */
  lemma RegisterLaw(e: Engine, topic: string, group: string)
    ensures var (e', answer) := Registered(e, topic, group); var key := topic + "|" + group;
      && (answer == Accepted <==> topic != "" && e.phase in {Idle, Failed, Stopped}
                                  && forall i :: 0 <= i < |e.subscriptions| ==> e.subscriptions[i].key != key)
      && e' == e.(subscriptions := e.subscriptions + if answer == Accepted then [Subscription(key, false)] else [])
  {
    assert e.subscriptions + [] == e.subscriptions;
    assert e.phase.Idle? || e.phase.Failed? || e.phase.Stopped? || e.phase in {Starting, Stopping, Ready};
  }

  // ----- a startup that nothing stops attaches everything -----

  function UnattachedSet(subs: seq<Subscription>): set<nat> {
    set i: nat | i < |subs| && !subs[i].attached
  }

  /** `later` continues `earlier` with any calls but a stop, and no rejected consume. */
  ghost predicate Undisturbed(earlier: Run, later: Run) {
    later == earlier
    || (later.After? && later.step !in {StopCall, ConsumeRejects} && Undisturbed(earlier, later.run))
  }

  function Resolved(earlier: Run, later: Run): nat {
    if later == earlier || later.New? then 0
    else Resolved(earlier, later.run) + if later.step == ConsumeResolves then 1 else 0
  }

  /** From a startup on, every resolved consume leaves one registration fewer unattached, and the
      engine is ready exactly when none is left: after as many answers as there were
      unattached ones. */
  lemma {:induction false} StartupCompletes(earlier: Run, later: Run)
    requires Legal(earlier) && Legal(later) && Undisturbed(earlier, later)
    requires End(earlier).phase == Starting && End(earlier).stop == NoStop
    ensures var e, n := End(later), |UnattachedSet(End(earlier).subscriptions)|;
      && Resolved(earlier, later) + |UnattachedSet(e.subscriptions)| == n
      && e.stop == NoStop && |e.subscriptions| == |End(earlier).subscriptions|
      && (if Resolved(earlier, later) == n then e.phase == Ready && AllAttached(e.subscriptions) else e.phase == Starting)
  {
    RunKeeps(later);
    if later == earlier {
      SomeUnattached(End(earlier));
    } else {
      RunKeeps(later.run);
      StartupCompletes(earlier, later.run);
      StartupStep(End(later.run), later.step);
    }
  }

  lemma SomeUnattached(e: Engine)
    requires Inv(e) && e.phase == Starting
    ensures |UnattachedSet(e.subscriptions)| > 0
  {
    QueueInRange(e);
    assert e.attaching[0] in UnattachedSet(e.subscriptions);
  }

  lemma NoneUnattached(subs: seq<Subscription>)
    ensures UnattachedSet(subs) == {} <==> AllAttached(subs)
  {
    assert forall i: nat :: i < |subs| && !subs[i].attached ==> i in UnattachedSet(subs);
  }

  lemma StartupStep(e: Engine, step: Step)
    requires Inv(e) && Enabled(e, step) && step !in {StopCall, ConsumeRejects} && e.stop == NoStop && e.phase in {Starting, Ready}
    ensures forall k :: 0 <= k < |e.attaching| ==> e.attaching[k] < |e.subscriptions|
    ensures var e' := Next(e, step);
      && e'.stop == NoStop && |e'.subscriptions| == |e.subscriptions|
      && |UnattachedSet(e'.subscriptions)| == |UnattachedSet(e.subscriptions)| - (if step == ConsumeResolves then 1 else 0)
      && (if UnattachedSet(e'.subscriptions) == {} then e'.phase == Ready && AllAttached(e'.subscriptions) else e'.phase == Starting)
  {
    QueueInRange(e);
    NoneUnattached(e.subscriptions);
    NoneUnattached(Next(e, step).subscriptions);
    if step == ConsumeResolves {
      ResolvedConsumeAttaches(e);
      var i, e' := e.attaching[0], Next(e, step);
      assert UnattachedSet(e'.subscriptions) == UnattachedSet(e.subscriptions) - {i};
    } else {
      FirstOfUnattached(e.subscriptions);
    }
  }

  /** A start at rest with something to attach leads there. */
  lemma StartReachesReady(run: Run, later: Run)
    requires Legal(run) && End(run).phase in {Idle, Failed, Stopped} && End(run).stop == NoStop && !End(run).shutdownIncomplete
    requires !AllAttached(End(run).subscriptions)
    requires Legal(later) && Undisturbed(After(run, StartCall), later)
    requires Resolved(After(run, StartCall), later) == |UnattachedSet(End(run).subscriptions)|
    ensures End(later).phase == Ready && AllAttached(End(later).subscriptions)
    ensures |End(later).subscriptions| == |End(run).subscriptions|
  {
    RunKeeps(run);
    StartObeysLaw(End(run));
    var begun := After(run, StartCall);
    assert Legal(begun);
    StartupCompletes(begun, later);
  }
}
