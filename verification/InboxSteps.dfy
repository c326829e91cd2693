/** The engine's methods in place, each taken by itself, are runs of the system's steps: a
    delivery, a manual retry and a whole retry batch. */
module InboxSteps {
  import opened Basics
  import opened InboxTable
  import opened InboxEngine
  import opened InboxRuns
  import opened InboxGuarantees

  function DeedSteps(deeds: seq<Deed>): seq<Step> {
    if deeds == [] then []
    else [match deeds[0] case Requeues(id, now) => RequeueRow(id, now) case Marks(id, at) => MarkByHand(id, at)] + DeedSteps(deeds[1..])
  }

  /** The same job, except that its row may have been requeued. */
  predicate SameWork(t: Job, t': Job) {
    || t' == t
    || (t.phase.Assigning? && t' == t.(phase := t.phase.(requeued := true)))
  }

  lemma OneDeed(s: System, deed: Deed, k: nat, lim: Limits)
    requires Inv(s, lim) && lim.Valid() && k in s.jobs
    ensures var s' := After(s, DeedSteps([deed])[0]);
      && Inv(s', lim) && s'.inbox == Done(s.inbox, [deed]) && CanStep(s, DeedSteps([deed])[0], lim)
      && k in s'.jobs && SameWork(s.jobs[k], s'.jobs[k])
  {
    StepKeeps(s, DeedSteps([deed])[0], lim);
    match deed
    case Requeues(id, now) => hide Inv, AsRequeued;
    case Marks(id, at) => assert id in s.ledgers <==> id in s.inbox.rows; hide Inv, AsProcessed;
  }

  lemma {:induction false} DeedsAreSteps(s: System, deeds: seq<Deed>, k: nat, lim: Limits)
    requires Inv(s, lim) && lim.Valid() && k in s.jobs
    ensures CanFollow(s, DeedSteps(deeds), lim)
    ensures var s' := Follow(s, DeedSteps(deeds));
      && Inv(s', lim) && s'.inbox == Done(s.inbox, deeds)
      && k in s'.jobs && SameWork(s.jobs[k], s'.jobs[k])
    decreases |deeds|
  {
    hide Inv, CanStep, After, Requeue, MarkHandled;
    if deeds != [] {
      OneDeed(s, deeds[0], k, lim);
      var step := DeedSteps([deeds[0]])[0];
      assert [deeds[0]][1..] == [] && DeedSteps(deeds) == [step] + DeedSteps(deeds[1..]);
      assert Done(s.inbox, deeds) == Done(Done(s.inbox, [deeds[0]]), deeds[1..]);
      DeedsAreSteps(After(s, step), deeds[1..], k, lim);
      assert DeedSteps(deeds)[1..] == DeedSteps(deeds[1..]);
    }
  }

  // ---------------------------------------------------------------- one handling

  function CallSteps(k: nat, h: Handling): seq<Step> {
    [EndHandler(k, h.attempt)] + if Caught(h.attempt).Some? then [WriteFailure(k, h.write)] else []
  }

  /** What comes after the last call is answered. */
  function LateSteps(k: nat, deeds: seq<Deed>, stored: bool): seq<Step> {
    DeedSteps(deeds) + if stored then [AssignRecord(k)] else []
  }

  function OwnSteps(k: nat, h: Handling, stored: bool): seq<Step> {
    CallSteps(k, h) + if Completes(h) then LateSteps(k, h.meanwhile, stored) else []
  }

  lemma AttemptIsStep(s: System, k: nat, a: Attempt, lim: Limits)
    requires Inv(s, lim) && lim.Valid() && k in s.jobs && s.jobs[k].phase.Running?
    ensures var s' := After(s, EndHandler(k, a));
      && Inv(s', lim) && s'.inbox == Attempted(s.inbox, s.jobs[k].phase.id, a)
      && s'.jobs == Moved(s.jobs, k, AfterHandler(s.jobs[k], a))
      && s.jobs[k].phase.id in s'.inbox.rows
      && s'.inbox.rows[s.jobs[k].phase.id].retryCount == s.inbox.rows[s.jobs[k].phase.id].retryCount
  {
    StepKeeps(s, EndHandler(k, a), lim);
    JobAt(s, k, lim);
    hide Inv;
    var id := s.jobs[k].phase.id;
    assert s.inbox.rows[id := s.inbox.rows[id]] == s.inbox.rows;
  }

  lemma WriteIsStep(s: System, k: nat, w: Write, lim: Limits)
    requires Inv(s, lim) && lim.Valid() && k in s.jobs && s.jobs[k].phase.Catching?
    ensures Sound(s, k)
    ensures var s', t := After(s, WriteFailure(k, w)), s.jobs[k];
      && Inv(s', lim) && s'.inbox == Recorded(s.inbox, t.phase.id, t.phase.error, w, t.maxRetries)
      && s'.jobs == Moved(s.jobs, k, AfterWrite(t, s.inbox.rows[t.phase.id], w))
  {
    StepKeeps(s, WriteFailure(k, w), lim);
    JobAt(s, k, lim);
    hide Inv, AsFailed;
    var id := s.jobs[k].phase.id;
    assert s.inbox.rows[id := s.inbox.rows[id]] == s.inbox.rows;
  }

  function PhaseAfterCalls(id: string, stored: bool, to: Assignments): Phase {
    if stored then Assigning(id, to, false) else Between
  }

  ghost predicate CallsMade(s: System, s': System, k: nat, h: Handling, lim: Limits)
    requires Sound(s, k) && s.jobs[k].phase.Running?
  {
    var t := s.jobs[k];
    && Inv(s', lim) && s'.inbox == Called(s.inbox, t.phase.id, h, t.maxRetries)
    && (Completes(h) ==>
          k in s'.jobs && s'.jobs[k] == t.(phase := PhaseAfterCalls(t.phase.id, t.phase.stored, Following(h, t.maxRetries))))
  }

  lemma MarkOnly(s: System, k: nat, h: Handling, lim: Limits)
    requires Inv(s, lim) && lim.Valid() && Sound(s, k) && s.jobs[k].phase.Running? && Caught(h.attempt).None?
    ensures CallsMade(s, After(s, EndHandler(k, h.attempt)), k, h, lim)
  {
    AttemptIsStep(s, k, h.attempt, lim);
    hide Inv, After, Attempted;
  }

  lemma CaughtInCatch(s: System, k: nat, a: Attempt, lim: Limits)
    requires Inv(s, lim) && lim.Valid() && Sound(s, k) && s.jobs[k].phase.Running? && Caught(a).Some?
    ensures var s', t := After(s, EndHandler(k, a)), s.jobs[k];
      && Inv(s', lim) && s'.inbox == Attempted(s.inbox, t.phase.id, a) && k in s'.jobs
      && s'.jobs[k] == t.(phase := Catching(t.phase.id, t.phase.stored, Caught(a).value, a.outcome.Throws?))
      && t.phase.id in s'.inbox.rows && s'.inbox.rows[t.phase.id].retryCount == s.inbox.rows[t.phase.id].retryCount
  {
    AttemptIsStep(s, k, a, lim);
    hide Inv, After, Attempted;
  }

  lemma WrittenThenAssigning(s: System, k: nat, w: Write, lim: Limits)
    requires Inv(s, lim) && lim.Valid() && k in s.jobs && s.jobs[k].phase.Catching?
    ensures Sound(s, k)
    ensures var s', t := After(s, WriteFailure(k, w)), s.jobs[k];
      var to := ToFailed(s.inbox.rows[t.phase.id].retryCount + 1, t.phase.error, t.maxRetries, w.at + w.delay);
      && Inv(s', lim) && s'.inbox == Recorded(s.inbox, t.phase.id, t.phase.error, w, t.maxRetries)
      && (w.call.Answered? ==> k in s'.jobs && s'.jobs[k] == t.(phase := PhaseAfterCalls(t.phase.id, t.phase.stored, to)))
  {
    WriteIsStep(s, k, w, lim);
    hide Inv, After, Recorded;
  }

  lemma AssigningAfterWrite(t: Job, t1: Job, count: nat, h: Handling)
    requires t.phase.Running? && Caught(h.attempt).Some? && (t.phase.stored ==> count == h.shown)
    requires t1 == t.(phase := Catching(t.phase.id, t.phase.stored, Caught(h.attempt).value, h.attempt.outcome.Throws?))
    ensures var to := ToFailed(count + 1, t1.phase.error, t1.maxRetries, h.write.at + h.write.delay);
      && t1.(phase := PhaseAfterCalls(t1.phase.id, t1.phase.stored, to))
         == t.(phase := PhaseAfterCalls(t.phase.id, t.phase.stored, Following(h, t.maxRetries)))
      && Completes(h) == h.write.call.Answered?
  {
  }

  lemma MarkAndWrite(s: System, k: nat, h: Handling, lim: Limits)
    requires Inv(s, lim) && lim.Valid() && Sound(s, k) && s.jobs[k].phase.Running? && Caught(h.attempt).Some?
    requires s.jobs[k].phase.stored ==> h.shown == s.inbox.rows[s.jobs[k].phase.id].retryCount
    ensures var s1 := After(s, EndHandler(k, h.attempt));
      && CanStep(s1, WriteFailure(k, h.write), lim)
      && CallsMade(s, After(s1, WriteFailure(k, h.write)), k, h, lim)
  {
    hide Inv, After, Attempted, Recorded, Completes;
    var s1 := After(s, EndHandler(k, h.attempt));
    CaughtInCatch(s, k, h.attempt, lim);
    WrittenThenAssigning(s1, k, h.write, lim);
    AssigningAfterWrite(s.jobs[k], s1.jobs[k], s1.inbox.rows[s.jobs[k].phase.id].retryCount, h);
  }

  lemma FollowTwo(s: System, a: Step, b: Step, lim: Limits)
    requires CanStep(s, a, lim) && CanStep(After(s, a), b, lim)
    ensures CanFollow(s, [a] + [b], lim) && Follow(s, [a] + [b]) == After(After(s, a), b)
  {
    FollowOne(s, a, lim);
    FollowOne(After(s, a), b, lim);
    hide CanStep, After;
    FollowOn(s, [a], [b], lim);
  }

  /** The storage calls of a handling. */
  lemma CallsAreSteps(s: System, k: nat, h: Handling, lim: Limits)
    requires Inv(s, lim) && lim.Valid() && Sound(s, k) && s.jobs[k].phase.Running?
    requires s.jobs[k].phase.stored ==> h.shown == s.inbox.rows[s.jobs[k].phase.id].retryCount
    ensures CanFollow(s, CallSteps(k, h), lim)
    ensures CallsMade(s, Follow(s, CallSteps(k, h)), k, h, lim)
  {
    hide Inv, After, CallsMade, CanFollow, Follow;
    if Caught(h.attempt).Some? {
      MarkAndWrite(s, k, h, lim);
      FollowTwo(s, EndHandler(k, h.attempt), WriteFailure(k, h.write), lim);
    } else {
      MarkOnly(s, k, h, lim);
      FollowOne(s, EndHandler(k, h.attempt), lim);
      assert CallSteps(k, h) == [EndHandler(k, h.attempt)];
    }
  }

  lemma AssignIsStep(s: System, k: nat, lim: Limits)
    requires Inv(s, lim) && lim.Valid() && k in s.jobs && s.jobs[k].phase.Assigning?
    ensures CanStep(s, AssignRecord(k), lim)
    ensures var s', t := After(s, AssignRecord(k)), s.jobs[k];
      && Inv(s', lim) && s'.inbox == Assigned(s.inbox, t.phase.id, t.phase.to, true)
      && k in s'.jobs && s'.jobs[k] == t.(phase := Between)
  {
    StepKeeps(s, AssignRecord(k), lim);
    JobAt(s, k, lim);
    hide Inv, Assign;
  }

  lemma NotReached(s: Inbox, id: string, to: Assignments)
    ensures Assigned(s, id, to, false) == s
  {
  }

  lemma LateAreSteps(s: System, k: nat, deeds: seq<Deed>, id: string, stored: bool, to: Assignments, lim: Limits)
    requires Inv(s, lim) && lim.Valid() && k in s.jobs && s.jobs[k].phase == PhaseAfterCalls(id, stored, to)
    ensures CanFollow(s, LateSteps(k, deeds, stored), lim)
    ensures var s' := Follow(s, LateSteps(k, deeds, stored));
      && Inv(s', lim) && s'.inbox == Assigned(Done(s.inbox, deeds), id, to, stored)
      && k in s'.jobs && s'.jobs[k] == s.jobs[k].(phase := Between)
  {
    DeedsAreSteps(s, deeds, k, lim);
    hide Inv, After, CanStep, CanFollow, Follow, Assigned, Done, DeedSteps;
    var s1 := Follow(s, DeedSteps(deeds));
    if stored {
      AssignIsStep(s1, k, lim);
      FollowOne(s1, AssignRecord(k), lim);
      FollowOn(s, DeedSteps(deeds), [AssignRecord(k)], lim);
    } else {
      assert LateSteps(k, deeds, stored) == DeedSteps(deeds);
      NotReached(Done(s.inbox, deeds), id, to);
    }
  }

  /** One handling alone, with what administrators do before its assignments. */
  lemma HandlingIsSteps(s: System, k: nat, h: Handling, lim: Limits)
    requires Inv(s, lim) && lim.Valid() && Sound(s, k) && s.jobs[k].phase.Running?
    requires s.jobs[k].phase.stored ==> h.shown == s.inbox.rows[s.jobs[k].phase.id].retryCount
    ensures var t := s.jobs[k]; var own := OwnSteps(k, h, t.phase.stored);
      && CanFollow(s, own, lim)
      && var s' := Follow(s, own);
      && Inv(s', lim) && s'.inbox == Handle(s.inbox, t.phase.id, h, t.maxRetries, t.phase.stored)
      && (Completes(h) ==> k in s'.jobs && s'.jobs[k] == t.(phase := Between))
  {
    var t := s.jobs[k];
    CallsAreSteps(s, k, h, lim);
    hide Inv, After, CanFollow, Follow, Called, CallSteps, LateSteps, Assigned, Done, Completes, Following, PhaseAfterCalls;
    var s1 := Follow(s, CallSteps(k, h));
    if Completes(h) {
      LateAreSteps(s1, k, h.meanwhile, t.phase.id, t.phase.stored, Following(h, t.maxRetries), lim);
      FollowOn(s, CallSteps(k, h), LateSteps(k, h.meanwhile, t.phase.stored), lim);
    } else {
      assert OwnSteps(k, h, t.phase.stored) == CallSteps(k, h);
    }
  }

  // ---------------------------------------------------------------- the engine's methods

  function DeliverySteps(s: Inbox, k: nat, row: Row, h: Handling, maxRetries: int): seq<Step> {
    [Deliver(k, row, true, maxRetries)] + if TrySave(s, row).1.inserted then OwnSteps(k, h, true) else []
  }

  /** A delivery in place is a run of steps: saving, and for a new record its handling. */
  lemma DeliveryIsSteps(s: System, k: nat, row: Row, h: Handling, maxRetries: int, lim: Limits)
    requires Inv(s, lim) && lim.Valid() && CanStep(s, Deliver(k, row, true, maxRetries), lim) && h.shown == row.retryCount
    ensures var steps, saved := DeliverySteps(s.inbox, k, row, h, maxRetries), TrySave(s.inbox, row);
      && CanFollow(s, steps, lim)
      && Follow(s, steps).inbox == if saved.1.inserted then Handle(saved.0, row.id, h, maxRetries, true) else saved.0
  {
    var deliver := Deliver(k, row, true, maxRetries);
    var s1 := After(s, deliver);
    StepKeeps(s, deliver, lim);
    FollowOne(s, deliver, lim);
    if TrySave(s.inbox, row).1.inserted {
      hide Inv, Handle, OwnSteps;
      HandlingIsSteps(s1, k, h, lim);
      FollowOn(s, [deliver], OwnSteps(k, h, true), lim);
    } else {
      assert DeliverySteps(s.inbox, k, row, h, maxRetries) == [deliver];
    }
  }

  /** So is a manual retry of a stored row, through the stored object or through a copy. */
  lemma RetryIsSteps(s: System, k: nat, id: string, stored: bool, h: Handling, maxRetries: int, lim: Limits)
    requires Inv(s, lim) && lim.Valid() && CanStep(s, RetryByHand(k, id, stored, maxRetries), lim)
    requires stored ==> h.shown == s.inbox.rows[id].retryCount
    ensures var steps := [RetryByHand(k, id, stored, maxRetries)] + OwnSteps(k, h, stored);
      && CanFollow(s, steps, lim)
      && Follow(s, steps).inbox == Handle(s.inbox, id, h, maxRetries, stored)
  {
    var retry := RetryByHand(k, id, stored, maxRetries);
    var s1 := After(s, retry);
    StepKeeps(s, retry, lim);
    FollowOne(s, retry, lim);
    JobAt(s1, k, lim);
    hide Inv, Handle, OwnSteps;
    HandlingIsSteps(s1, k, h, lim);
    FollowOn(s, [retry], OwnSteps(k, h, stored), lim);
  }

  /** The steps of a batch whose handlings end as given. */
  function BatchSteps(k: nat, batch: seq<Row>, ends: seq<Option<Ending>>): seq<Step>
    requires |ends| >= |batch| && Drawn(ends)
    decreases |batch|
  {
    if batch == [] then []
    else if ends[0].None? then [TakeNext(k, false)] + BatchSteps(k, batch[1..], ends[1..])
    else
      var h := HandlingOf(ends[0].value, batch[0].retryCount);
      RecordSteps(k, h) + if Completes(h) then BatchSteps(k, batch[1..], ends[1..]) else []
  }

  function RecordSteps(k: nat, h: Handling): seq<Step> {
    [TakeNext(k, true)] + OwnSteps(k, h, false)
  }

  lemma RecordIsSteps(s: System, k: nat, h: Handling, lim: Limits)
    requires Inv(s, lim) && lim.Valid() && CanStep(s, TakeNext(k, true), lim)
    ensures CanFollow(s, RecordSteps(k, h), lim)
    ensures var s', t := Follow(s, RecordSteps(k, h)), s.jobs[k];
      && Inv(s', lim) && s'.inbox == Handle(s.inbox, t.rest[0].id, h, t.maxRetries, false)
      && (Completes(h) ==> k in s'.jobs && s'.jobs[k] == Job(Between, t.rest[1..], t.maxRetries))
  {
    var s1 := After(s, TakeNext(k, true));
    StepKeeps(s, TakeNext(k, true), lim);
    FollowOne(s, TakeNext(k, true), lim);
    JobAt(s1, k, lim);
    hide Inv, Handle, OwnSteps;
    HandlingIsSteps(s1, k, h, lim);
    FollowOn(s, [TakeNext(k, true)], OwnSteps(k, h, false), lim);
  }

  lemma SkipIsStep(s: System, k: nat, lim: Limits)
    requires Inv(s, lim) && lim.Valid() && CanStep(s, TakeNext(k, false), lim)
    ensures CanFollow(s, [TakeNext(k, false)], lim)
    ensures var s', t := Follow(s, [TakeNext(k, false)]), s.jobs[k];
      && s' == s.(jobs := s.jobs[k := Job(Between, t.rest[1..], t.maxRetries)]) && Inv(s', lim)
  {
    FollowOne(s, TakeNext(k, false), lim);
    StepKeeps(s, TakeNext(k, false), lim);
    hide Inv;
  }

  /** A whole retry batch in place is a run of steps. */
  lemma {:induction false} BatchIsSteps(s: System, k: nat, ends: seq<Option<Ending>>, lim: Limits)
    requires Inv(s, lim) && lim.Valid() && k in s.jobs && s.jobs[k].phase.Between?
    requires |ends| >= |s.jobs[k].rest| && Drawn(ends)
    ensures CanFollow(s, BatchSteps(k, s.jobs[k].rest, ends), lim)
    ensures Follow(s, BatchSteps(k, s.jobs[k].rest, ends)).inbox == HandleAll(s.inbox, s.jobs[k].rest, ends, s.jobs[k].maxRetries)
    decreases |s.jobs[k].rest|
  {
    hide Inv, Handle, Completes, HandlingOf, After, RecordSteps, CanFollow, Follow;
    var rest := s.jobs[k].rest;
    if rest == [] {
      EmptyBatch(s, k, ends, lim);
    } else if ends[0].None? {
      SkipIsStep(s, k, lim);
      var next := Follow(s, [TakeNext(k, false)]);
      BatchIsSteps(next, k, ends[1..], lim);
      FollowOn(s, [TakeNext(k, false)], BatchSteps(k, rest[1..], ends[1..]), lim);
    } else {
      var h := HandlingOf(ends[0].value, rest[0].retryCount);
      RecordIsSteps(s, k, h, lim);
      var next := Follow(s, RecordSteps(k, h));
      if Completes(h) {
        BatchIsSteps(next, k, ends[1..], lim);
        FollowOn(s, RecordSteps(k, h), BatchSteps(k, rest[1..], ends[1..]), lim);
      } else {
        assert RecordSteps(k, h) + [] == RecordSteps(k, h);
      }
    }
  }

  lemma EmptyBatch(s: System, k: nat, ends: seq<Option<Ending>>, lim: Limits)
    requires k in s.jobs && s.jobs[k].rest == [] && Drawn(ends)
    ensures CanFollow(s, BatchSteps(k, [], ends), lim) && Follow(s, BatchSteps(k, [], ends)).inbox == s.inbox
  {
  }
}
