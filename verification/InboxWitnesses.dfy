/** Concrete inbox runs: what the guarantees do not rule out. */
module InboxWitnesses {
  import opened Basics
  import opened InboxTable
  import opened RetrySelection
  import opened InboxEngine
  import opened InboxRuns
  import opened InboxGuarantees
  import opened InboxAlone

  function Message(): Row {
    Row("1", "topic", "group", "key", 0, "payload", 0, Pending, false, None, None, None)
  }

  function Key(): string {
    Identity(Message())
  }

  const SUCCESS := Attempt(Succeeds, 0, Answered)
  const UNMARKED := Attempt(Succeeds, 0, RequestLost("timeout"))
  const FAILURE := Attempt(Throws("timeout"), 0, Answered)
  const WRITTEN := Write(0, 0, Answered)

  /** A system with the one message; `n` successes, of which so many were lost and repeated. */
  function Only(row: Row, jobs: map<nat, Job>, l: Ledger, n: nat, lost: nat, repeated: nat): System {
    System(Inbox(map["1" := row], map[Key() := "1"]), jobs, map["1" := l],
           multiset{}[Key() := n], multiset{}[Key() := lost], multiset{}[Key() := repeated], multiset{})
  }

  ghost predicate Goes(s: System, step: Step, s': System, lim: Limits) {
    CanStep(s, step, lim) && After(s, step) == s'
  }

  ghost predicate GoesAlong(states: seq<System>, steps: seq<Step>, lim: Limits) {
    |states| == |steps| + 1 && forall i :: 0 <= i < |steps| ==> Goes(states[i], steps[i], states[i + 1], lim)
  }

  /** A run given by its states. */
  lemma {:induction false} Along(states: seq<System>, steps: seq<Step>, lim: Limits)
    requires GoesAlong(states, steps, lim)
    ensures CanFollow(states[0], steps, lim) && Follow(states[0], steps) == states[|steps|]
    decreases |steps|
  {
    hide CanStep, After;
    if steps != [] {
      assert Goes(states[0], steps[0], states[1], lim);
      forall i | 0 <= i < |steps[1..]| ensures Goes(states[1..][i], steps[1..][i], states[1..][i + 1], lim) {
        assert Goes(states[i + 1], steps[i + 1], states[i + 2], lim);
      }
      Along(states[1..], steps[1..], lim);
    }
  }

  // ---------------------------------------------------------------- the steps of such a system

  lemma DeliversIt(k: nat, stored: bool, maxRetries: int)
    ensures After(Empty(), Deliver(k, Message(), stored, maxRetries))
         == Only(Message(), map[k := Job(Running("1", stored), [], maxRetries)], NO_FAILURES, 0, 0, 0)
  {
    var s' := After(Empty(), Deliver(k, Message(), stored, maxRetries));
    assert s'.inbox == Inbox(map["1" := Message()], map[Key() := "1"]);
    assert s'.jobs == map[k := Job(Running("1", stored), [], maxRetries)];
    assert s'.ledgers == map["1" := NO_FAILURES];
  }

  ghost predicate WorksOnIt(row: Row, jobs: map<nat, Job>, k: nat) {
    SameIdentity(row, Message()) && k in jobs && !jobs[k].phase.Between? && jobs[k].phase.id == "1"
  }

  lemma SameKey(row: Row)
    requires SameIdentity(row, Message())
    ensures Identity(row) == Key()
  {
  }

  lemma CountUp(n: nat, b: bool)
    ensures multiset{}[Key() := n] + One(Key(), b) == multiset{}[Key() := n + Unit(b)]
  {
  }

  lemma EndsIt(row: Row, jobs: map<nat, Job>, k: nat, a: Attempt, l: Ledger, n: nat, lost: nat, repeated: nat)
    requires WorksOnIt(row, jobs, k) && jobs[k].phase.Running?
    ensures var success := a.outcome.Succeeds?;
      After(Only(row, jobs, l, n, lost, repeated), EndHandler(k, a))
      == Only(AttemptedRow(row, a), Moved(jobs, k, AfterHandler(jobs[k], a)), l, n + Unit(success),
              lost + Unit(success && !Reaches(a.mark)), repeated + Unit(success && Reaches(a.mark) && row.status == Processed))
  {
    var s := Only(row, jobs, l, n, lost, repeated);
    EndsRow(s, row, k, a);
    EndsCounts(s, row, k, a, n, lost, repeated);
    hide After, HandlerEnded, AttemptedRow, AfterHandler, Key, Moved, Identity, Message;
  }

  lemma EndsRow(s: System, row: Row, k: nat, a: Attempt)
    requires s.inbox == Inbox(map["1" := row], map[Key() := "1"]) && "1" in s.ledgers && s.ledgers == map["1" := s.ledgers["1"]]
    requires WorksOnIt(row, s.jobs, k) && s.jobs[k].phase.Running?
    ensures var s' := After(s, EndHandler(k, a));
      && s' == HandlerEnded(s, k, a) && s'.ledgers == s.ledgers && s'.granted == s.granted
      && s'.inbox == Inbox(map["1" := AttemptedRow(row, a)], map[Key() := "1"])
      && s'.jobs == Moved(s.jobs, k, AfterHandler(s.jobs[k], a))
  {
    OnlyEntry(row, AttemptedRow(row, a));
    OnlyEntry(s.ledgers["1"], s.ledgers["1"]);
    hide AttemptedRow, AfterHandler, Key, Moved, Identity, Message, One;
  }

  lemma EndsCounts(s: System, row: Row, k: nat, a: Attempt, n: nat, lost: nat, repeated: nat)
    requires s.inbox.rows == map["1" := row] && "1" in s.ledgers
    requires WorksOnIt(row, s.jobs, k) && s.jobs[k].phase.Running?
    requires s.successes == multiset{}[Key() := n] && s.lost == multiset{}[Key() := lost] && s.repeated == multiset{}[Key() := repeated]
    ensures var s', success := HandlerEnded(s, k, a), a.outcome.Succeeds?;
      && s'.successes == multiset{}[Key() := n + Unit(success)]
      && s'.lost == multiset{}[Key() := lost + Unit(success && !Reaches(a.mark))]
      && s'.repeated == multiset{}[Key() := repeated + Unit(success && Reaches(a.mark) && row.status == Processed)]
  {
    SameKey(row);
    CountUp(n, a.outcome.Succeeds?);
    CountUp(lost, a.outcome.Succeeds? && !Reaches(a.mark));
    CountUp(repeated, a.outcome.Succeeds? && Reaches(a.mark) && row.status == Processed);
    hide AttemptedRow, AfterHandler, Key, Moved, Identity, Message, One;
  }

  lemma OnlyEntry<T>(x: T, y: T)
    ensures map["1" := x]["1" := y] == map["1" := y]
  {
  }

  lemma WritesIt(row: Row, jobs: map<nat, Job>, k: nat, l: Ledger, n: nat, lost: nat, repeated: nat)
    requires WorksOnIt(row, jobs, k) && jobs[k].phase.Catching? && row.status != Processed
    ensures var t := jobs[k];
      After(Only(row, jobs, l, n, lost, repeated), WriteFailure(k, WRITTEN))
      == Only(AsFailed(row, t.phase.error, t.maxRetries, 0), Moved(jobs, k, AfterWrite(t, row, WRITTEN)),
              Booked(l, t.phase.handlerThrew, true), n, lost, repeated)
  {
    hide AsFailed, AfterWrite;
    var row', l' := AsFailed(row, jobs[k].phase.error, jobs[k].maxRetries, 0), Booked(l, jobs[k].phase.handlerThrew, true);
    assert map["1" := row]["1" := row'] == map["1" := row'] && map["1" := l]["1" := l'] == map["1" := l'];
  }

  lemma AssignsIt(row: Row, jobs: map<nat, Job>, k: nat, l: Ledger, n: nat, lost: nat, repeated: nat)
    requires WorksOnIt(row, jobs, k) && jobs[k].phase.Assigning? && jobs[k].phase.to.ToFailed? && row.status != Processed
    ensures var p := jobs[k].phase;
      After(Only(row, jobs, l, n, lost, repeated), AssignRecord(k))
      == Only(Assign(row, p.to), jobs[k := jobs[k].(phase := Between)], Drifted(l, row, p.to, p.requeued), n, lost, repeated)
  {
    hide Assign, Drifted;
    var p := jobs[k].phase;
    var row', l' := Assign(row, p.to), Drifted(l, row, p.to, p.requeued);
    assert map["1" := row]["1" := row'] == map["1" := row'] && map["1" := l]["1" := l'] == map["1" := l'];
  }

  lemma RequeuesIt(row: Row, jobs: map<nat, Job>, now: Time, l: Ledger, n: nat, lost: nat, repeated: nat)
    requires SameIdentity(row, Message()) && CanRequeue(row)
    ensures After(Only(row, jobs, l, n, lost, repeated), RequeueRow("1", now))
         == Only(AsRequeued(row, now), Flagged(jobs, "1"), NO_FAILURES, n, lost, repeated)
  {
    hide AsRequeued, Flagged;
    var row' := AsRequeued(row, now);
    assert map["1" := row]["1" := row'] == map["1" := row'] && map["1" := l]["1" := NO_FAILURES] == map["1" := NO_FAILURES];
  }

  // ---------------------------------------------------------------- a requeue is undone

  /** The first delivery, with a maximum of one, up to the answer of its failure write. */
  function InHandler(stored: bool, maxRetries: int): System {
    Only(Message(), map[0 := Job(Running("1", stored), [], maxRetries)], NO_FAILURES, 0, 0, 0)
  }

  function InCatch(stored: bool): System {
    Only(Message(), map[0 := JobCatching(stored)], NO_FAILURES, 0, 0, 0)
  }

  function Dead(): Row {
    Message().(retryCount := 1, status := DeadLetter, lastError := Some("timeout"))
  }

  function ToAssign(requeued: bool): map<nat, Job> {
    map[0 := Job(Assigning("1", ToFailed(1, "timeout", 1, 0), requeued), [], 1)]
  }

  function Idle(): map<nat, Job> {
    map[0 := Job(Between, [], 1)]
  }

  function JobWritten(stored: bool): Job {
    Job(if stored then Assigning("1", ToFailed(1, "timeout", 1, 0), false) else Between, [], 1)
  }

  function Written(stored: bool): System {
    Only(Dead(), map[0 := JobWritten(stored)], Ledger(1, 0, 0, 0, 0), 0, 0, 0)
  }

  const FIRST := Limits(1, 1)

  lemma IsDelivered(stored: bool)
    ensures Goes(Empty(), Deliver(0, Message(), stored, 1), InHandler(stored, 1), FIRST)
  {
    DeliversIt(0, stored, 1);
    hide After, Only;
  }

  lemma IsCaught(stored: bool)
    ensures Goes(InHandler(stored, 1), EndHandler(0, FAILURE), InCatch(stored), FIRST)
  {
    var running, catching := InHandler(stored, 1).jobs, InCatch(stored).jobs;
    EndsIt(Message(), running, 0, FAILURE, NO_FAILURES, 0, 0, 0);
    assert Moved(running, 0, AfterHandler(running[0], FAILURE)) == catching;
    hide After;
  }

  function JobCatching(stored: bool): Job {
    Job(Catching("1", stored, "timeout", true), [], 1)
  }

  lemma IsWritten(stored: bool)
    ensures Goes(InCatch(stored), WriteFailure(0, WRITTEN), Written(stored), FIRST)
  {
    WritesIt(Message(), map[0 := JobCatching(stored)], 0, NO_FAILURES, 0, 0, 0);
    JobAfterWrite(stored, Message());
    FailedIsDead();
    hide After, AfterWrite, AsFailed, Dead, JobWritten, Only;
    assert map[0 := JobCatching(stored)][0 := JobWritten(stored)] == map[0 := JobWritten(stored)];
  }

  lemma FailedIsDead()
    ensures AsFailed(Message(), "timeout", 1, 0) == Dead()
  {
  }

  lemma JobAfterWrite(stored: bool, row: Row)
    requires row.retryCount == 0
    ensures AfterWrite(JobCatching(stored), row, WRITTEN) == Some(JobWritten(stored))
  {
  }

  function Revived(): System {
    Only(AsRequeued(Dead(), 5), ToAssign(true), NO_FAILURES, 0, 0, 0)
  }

  lemma IsRevived()
    ensures Goes(Written(true), RequeueRow("1", 5), Revived(), FIRST)
  {
    RequeuesIt(Dead(), ToAssign(false), 5, Ledger(1, 0, 0, 0, 0), 0, 0, 0);
    assert Flagged(ToAssign(false), "1") == ToAssign(true);
    hide After;
  }

  function Undone(): System {
    Only(Dead(), Idle(), Ledger(0, 0, 0, 1, 1), 0, 0, 0)
  }

  lemma IsUndone()
    ensures Goes(Revived(), AssignRecord(0), Undone(), FIRST)
  {
    AssignsIt(AsRequeued(Dead(), 5), ToAssign(true), 0, NO_FAILURES, 0, 0, 0);
    assert Assign(AsRequeued(Dead(), 5), ToFailed(1, "timeout", 1, 0)) == Dead();
    assert ToAssign(true)[0 := Job(Between, [], 1)] == Idle();
    hide After;
  }

  /** With a maximum of one, a requeue that falls between the failure write and the assignments
      of a first delivery is answered as done and then undone: the row is dead-lettered with a
      count of one, although nothing has failed since. */
  lemma RequeueUndone() returns (steps: seq<Step>)
    ensures steps == [Deliver(0, Message(), true, 1), EndHandler(0, FAILURE), WriteFailure(0, WRITTEN), RequeueRow("1", 5), AssignRecord(0)]
    ensures IsRun(steps, Limits(1, 1)) && AllAlone(Empty(), steps)
    ensures var s := End(steps); "1" in s.inbox.rows && s.inbox.rows["1"].status == DeadLetter && s.inbox.rows["1"].retryCount == 1
    ensures End(steps).ledgers == map["1" := Ledger(0, 0, 0, 1, 1)]
  {
    hide Goes, Follow, CanFollow, Empty;
    IsDelivered(true);
    IsCaught(true);
    IsWritten(true);
    IsRevived();
    IsUndone();
    steps := [Deliver(0, Message(), true, 1), EndHandler(0, FAILURE), WriteFailure(0, WRITTEN), RequeueRow("1", 5), AssignRecord(0)];
    var states := [Empty(), InHandler(true, 1), InCatch(true), Written(true), Revived(), Undone()];
    Along(states, steps, FIRST);
    AlongAlone(states, steps, FIRST);
  }

  // ---------------------------------------------------------------- a dead-lettered row is handled by hand

  function RetriedByHand(): System {
    Only(Dead(), Idle()[1 := Job(Running("1", false), [], 1)], Ledger(1, 0, 0, 0, 0), 0, 0, 0)
  }

  lemma IsRetried()
    ensures Goes(Written(false), RetryByHand(1, "1", false, 1), RetriedByHand(), FIRST)
  {
  }

  function HandledByHand(): System {
    Only(AsProcessed(Dead(), 0), Idle()[1 := Job(Between, [], 1)], Ledger(1, 0, 0, 0, 0), 1, 0, 0)
  }

  lemma IsHandled()
    ensures Goes(RetriedByHand(), EndHandler(1, SUCCESS), HandledByHand(), FIRST)
  {
    var busy := RetriedByHand().jobs;
    EndsIt(Dead(), busy, 1, SUCCESS, Ledger(1, 0, 0, 0, 0), 0, 0, 0);
    assert Moved(busy, 1, AfterHandler(busy[1], SUCCESS)) == HandledByHand().jobs;
    hide After;
  }

  /** A manual retry handles a dead-lettered row, which is then processed at the maximum. */
  lemma DeadLetterHandledByHand() returns (steps: seq<Step>)
    ensures steps == [Deliver(0, Message(), false, 1), EndHandler(0, FAILURE), WriteFailure(0, WRITTEN), RetryByHand(1, "1", false, 1), EndHandler(1, SUCCESS)]
    ensures IsRun(steps, Limits(1, 1))
    ensures var s := End(steps); "1" in s.inbox.rows && s.inbox.rows["1"].status == Processed && s.inbox.rows["1"].retryCount == 1
  {
    hide Goes, Follow, CanFollow, Empty;
    IsDelivered(false);
    IsCaught(false);
    IsWritten(false);
    IsRetried();
    IsHandled();
    steps := [Deliver(0, Message(), false, 1), EndHandler(0, FAILURE), WriteFailure(0, WRITTEN), RetryByHand(1, "1", false, 1), EndHandler(1, SUCCESS)];
    Along([Empty(), InHandler(false, 1), InCatch(false), Written(false), RetriedByHand(), HandledByHand()], steps, FIRST);
  }

  // ---------------------------------------------------------------- a handler succeeds twice

  /** A batch of the one row, taken by a second job. */
  lemma BatchOpens(row: Row, other: Job, l: Ledger, n: nat, lost: nat, maxRetries: int)
    requires SameIdentity(row, Message()) && IsDue(row, 0, Some(0)) && maxRetries >= 1
    ensures Goes(Only(row, map[0 := other], l, n, lost, 0), OpenBatch(1, Less, [row], 1, 0, Some(0), maxRetries),
                 Only(row, map[0 := other, 1 := Job(Between, [row], maxRetries)], l, n, lost, 0), Limits(maxRetries, maxRetries))
  {
    CodeUnitsAreStrictTotal({"1"});
    assert map["1" := row].Keys == {"1"};
    OnlyRowIsSelected(row);
    assert map[0 := other][1 := Job(Between, [row], maxRetries)] == map[0 := other, 1 := Job(Between, [row], maxRetries)];
    hide IsSelection, StrictTotal, Message, Key;
  }

  lemma OnlyRowIsSelected(row: Row)
    requires row.id == "1" && IsDue(row, 0, Some(0))
    ensures IsSelection(Less, map["1" := row], 1, 0, Some(0), [row])
  {
  }

  lemma RecordTaken(row: Row, other: Job, l: Ledger, n: nat, lost: nat, maxRetries: int)
    requires SameIdentity(row, Message())
    ensures Goes(Only(row, map[0 := other, 1 := Job(Between, [row], maxRetries)], l, n, lost, 0), TakeNext(1, true),
                 Only(row, map[0 := other, 1 := Job(Running("1", false), [], maxRetries)], l, n, lost, 0), Limits(maxRetries, maxRetries))
  {
    assert map[0 := other, 1 := Job(Between, [row], maxRetries)][1 := Job(Running("1", false), [], maxRetries)]
        == map[0 := other, 1 := Job(Running("1", false), [], maxRetries)];
    assert [row][1..] == [] && row.id == "1";
    hide Key;
  }

  lemma RecordHandled(row: Row, other: Job, l: Ledger, n: nat, lost: nat, maxRetries: int)
    requires SameIdentity(row, Message()) && row.status != Processed
    ensures Goes(Only(row, map[0 := other, 1 := Job(Running("1", false), [], maxRetries)], l, n, lost, 0), EndHandler(1, SUCCESS),
                 Only(AsProcessed(row, 0), map[0 := other, 1 := Job(Between, [], maxRetries)], l, n + 1, lost, 0), Limits(maxRetries, maxRetries))
  {
    var running := map[0 := other, 1 := Job(Running("1", false), [], maxRetries)];
    EndsIt(row, running, 1, SUCCESS, l, n, lost, 0);
    assert AfterHandler(running[1], SUCCESS) == Some(Job(Between, [], maxRetries));
    assert running[1 := Job(Between, [], maxRetries)] == map[0 := other, 1 := Job(Between, [], maxRetries)];
    hide After, Only, AfterHandler;
  }

  function Unmarked(maxRetries: int): System {
    Only(Message(), map[0 := Job(Catching("1", false, "timeout", false), [], maxRetries)], NO_FAILURES, 1, 1, 0)
  }

  lemma MarkIsRejected(maxRetries: int)
    ensures Goes(InHandler(false, maxRetries), EndHandler(0, UNMARKED), Unmarked(maxRetries), Limits(maxRetries, maxRetries))
  {
    var running := Job(Running("1", false), [], maxRetries);
    var catching := Job(Catching("1", false, "timeout", false), [], maxRetries);
    EndsIt(Message(), map[0 := running], 0, UNMARKED, NO_FAILURES, 0, 0, 0);
    assert AfterHandler(running, UNMARKED) == Some(catching);
    assert map[0 := running][0 := catching] == map[0 := catching];
    hide After, Only, AfterHandler;
  }

  function Miscounted(): Row {
    Message().(retryCount := 1, status := Failed, lastError := Some("timeout"), nextRetry := Some(0))
  }

  const UNANSWERED := Ledger(0, 1, 0, 0, 0)

  lemma SuccessIsMiscounted(maxRetries: int)
    requires maxRetries >= 2
    ensures Goes(Unmarked(maxRetries), WriteFailure(0, WRITTEN), Only(Miscounted(), map[0 := Job(Between, [], maxRetries)], UNANSWERED, 1, 1, 0),
                 Limits(maxRetries, maxRetries))
  {
    var catching, idle := Job(Catching("1", false, "timeout", false), [], maxRetries), Job(Between, [], maxRetries);
    WritesIt(Message(), map[0 := catching], 0, NO_FAILURES, 1, 1, 0);
    MiscountedRow(maxRetries);
    assert AfterWrite(catching, Message(), WRITTEN) == Some(idle);
    assert map[0 := catching][0 := idle] == map[0 := idle];
    hide After, Only, AfterWrite, AsFailed, Message;
  }

  lemma MiscountedRow(maxRetries: int)
    requires maxRetries >= 2
    ensures AsFailed(Message(), "timeout", maxRetries, 0) == Miscounted()
  {
  }

  function TwiceSteps(maxRetries: int): seq<Step> {
    [Deliver(0, Message(), false, maxRetries), EndHandler(0, UNMARKED), WriteFailure(0, WRITTEN),
     OpenBatch(1, Less, [Miscounted()], 1, 0, Some(0), maxRetries), TakeNext(1, true), EndHandler(1, SUCCESS)]
  }

  /** The states after the failure write, while a second job handles the row. */
  function TwiceState(second: Phase, rest: seq<Row>, maxRetries: int): System {
    Only(Miscounted(), map[0 := Job(Between, [], maxRetries), 1 := Job(second, rest, maxRetries)], UNANSWERED, 1, 1, 0)
  }

  function TwiceStates(maxRetries: int): seq<System> {
    var idle := Job(Between, [], maxRetries);
    [Empty(), InHandler(false, maxRetries), Unmarked(maxRetries), Only(Miscounted(), map[0 := idle], UNANSWERED, 1, 1, 0),
     TwiceState(Between, [Miscounted()], maxRetries), TwiceState(Running("1", false), [], maxRetries),
     Only(AsProcessed(Miscounted(), 0), map[0 := idle, 1 := idle], UNANSWERED, 2, 1, 0)]
  }

  lemma TwiceGoes(maxRetries: int)
    requires maxRetries >= 2
    ensures GoesAlong(TwiceStates(maxRetries), TwiceSteps(maxRetries), Limits(maxRetries, maxRetries))
  {
    var idle, row := Job(Between, [], maxRetries), Miscounted();
    hide Goes, Empty, Only, After, InHandler, Unmarked, Message, Miscounted;
    FirstDelivery(maxRetries);
    MarkIsRejected(maxRetries);
    SuccessIsMiscounted(maxRetries);
    MiscountedIsDue();
    BatchOpens(row, idle, UNANSWERED, 1, 1, maxRetries);
    RecordTaken(row, idle, UNANSWERED, 1, 1, maxRetries);
    RecordHandled(row, idle, UNANSWERED, 1, 1, maxRetries);
  }

  lemma FirstDelivery(maxRetries: int)
    requires maxRetries >= 1
    ensures Goes(Empty(), Deliver(0, Message(), false, maxRetries), InHandler(false, maxRetries), Limits(maxRetries, maxRetries))
  {
    DeliversIt(0, false, maxRetries);
    hide After, Only;
  }

  lemma MiscountedIsDue()
    ensures SameIdentity(Miscounted(), Message()) && IsDue(Miscounted(), 0, Some(0)) && Miscounted().status != Processed
  {
  }

  /** The handler succeeds, its mark is rejected, and the failure write records the success as
      a failure; a retry batch then runs the handler to success a second time, with nothing
      done by hand and no record held twice. */
  lemma HandlerSucceedsTwice(maxRetries: int) returns (steps: seq<Step>)
    requires maxRetries >= 2
    ensures steps == [Deliver(0, Message(), false, maxRetries), EndHandler(0, UNMARKED), WriteFailure(0, WRITTEN),
                      OpenBatch(1, Less, [Miscounted()], 1, 0, Some(0), maxRetries), TakeNext(1, true), EndHandler(1, SUCCESS)]
    ensures IsRun(steps, Limits(maxRetries, maxRetries)) && NoneByHand(steps) && AllAlone(Empty(), steps)
    ensures End(steps).successes[Key()] == 2 && End(steps).lost[Key()] == 1
  {
    steps := TwiceSteps(maxRetries);
    var states := TwiceStates(maxRetries);
    assert BeginsAlone(states[3], steps[3]);
    hide Goes, GoesAlong, Follow, CanFollow, Empty, InHandler, Unmarked, Message, BeginsAlone, Miscounted;
    TwiceGoes(maxRetries);
    Along(states, steps, Limits(maxRetries, maxRetries));
    forall i | 0 <= i < |steps| ensures BeginsAlone(states[i], steps[i]) {
      if i != 3 { BeginsNothing(states[i], steps[i]); }
    }
    AlongAlone(states, steps, Limits(maxRetries, maxRetries));
  }

  lemma BeginsNothing(s: System, step: Step)
    requires !step.OpenBatch? && !step.RetryByHand?
    ensures BeginsAlone(s, step)
  {
  }

  lemma {:induction false} AlongAlone(states: seq<System>, steps: seq<Step>, lim: Limits)
    requires GoesAlong(states, steps, lim) && forall i :: 0 <= i < |steps| ==> BeginsAlone(states[i], steps[i])
    ensures AllAlone(states[0], steps)
    decreases |steps|
  {
    hide CanStep, After, BeginsAlone;
    if steps != [] {
      assert Goes(states[0], steps[0], states[1], lim);
      forall i | 0 <= i < |steps[1..]| ensures Goes(states[1..][i], steps[1..][i], states[1..][i + 1], lim) {
        assert Goes(states[i + 1], steps[i + 1], states[i + 2], lim);
      }
      AlongAlone(states[1..], steps[1..], lim);
    }
  }

  /** A handler that runs longer than the fallback window: a retry batch takes the row as stale
      and handles it as well, and both handlers succeed without any lost mark. */
  lemma SlowHandlerOvertaken(maxRetries: int) returns (steps: seq<Step>)
    requires maxRetries >= 1
    ensures steps == [Deliver(0, Message(), true, maxRetries), OpenBatch(1, Less, [Message()], 1, 0, Some(0), maxRetries),
                      TakeNext(1, true), EndHandler(1, SUCCESS), EndHandler(0, SUCCESS)]
    ensures IsRun(steps, Limits(maxRetries, maxRetries)) && NoneByHand(steps)
    ensures End(steps).successes[Key()] == 2 && End(steps).lost[Key()] == 0 && End(steps).repeated[Key()] == 1
  {
    var running, lim := Job(Running("1", true), [], maxRetries), Limits(maxRetries, maxRetries);
    var s2 := Only(Message(), map[0 := running, 1 := Job(Between, [Message()], maxRetries)], NO_FAILURES, 0, 0, 0);
    var s3 := Only(Message(), map[0 := running, 1 := Job(Running("1", false), [], maxRetries)], NO_FAILURES, 0, 0, 0);
    var s4 := Only(AsProcessed(Message(), 0), map[0 := running, 1 := Job(Between, [], maxRetries)], NO_FAILURES, 1, 0, 0);
    var s5 := After(s4, EndHandler(0, SUCCESS));
    steps := [Deliver(0, Message(), true, maxRetries), OpenBatch(1, Less, [Message()], 1, 0, Some(0), maxRetries),
              TakeNext(1, true), EndHandler(1, SUCCESS), EndHandler(0, SUCCESS)];
    DeliversIt(0, true, maxRetries);
    assert Goes(Empty(), steps[0], InHandler(true, maxRetries), lim);
    EndsIt(AsProcessed(Message(), 0), s4.jobs, 0, SUCCESS, NO_FAILURES, 1, 0, 0);
    assert Goes(s4, steps[4], s5, lim);
    hide Goes, Follow, CanFollow, Empty, Only, After;
    BatchOpens(Message(), running, NO_FAILURES, 0, 0, maxRetries);
    RecordTaken(Message(), running, NO_FAILURES, 0, 0, maxRetries);
    RecordHandled(Message(), running, NO_FAILURES, 0, 0, maxRetries);
    Along([Empty(), InHandler(true, maxRetries), s2, s3, s4, s5], steps, lim);
  }
}
