/** Inbox runs in which no handling begins for a record that another job still holds: when late
    assignments undo a requeue, and how often a handler succeeds. */
module InboxAlone {
  import opened Basics
  import opened InboxTable
  import opened RetrySelection
  import opened InboxEngine
  import opened InboxRuns
  import opened InboxGuarantees

  /** The job works on the record or has it waiting in its batch. */
  predicate Holds(t: Job, id: string) {
    (!t.phase.Between? && t.phase.id == id) || id in Waiting(t)
  }

  ghost predicate Unheld(jobs: map<nat, Job>, id: string) {
    forall k <- jobs :: !Holds(jobs[k], id)
  }

  /** A batch or a manual retry takes no record that a job still holds. */
  ghost predicate BeginsAlone(s: System, step: Step) {
    match step
    case OpenBatch(_, _, batch, _, _, _, _) => forall x <- batch :: Unheld(s.jobs, x.id)
    case RetryByHand(_, id, _, _) => Unheld(s.jobs, id)
    case _ => true
  }

  ghost predicate AllAlone(s: System, steps: seq<Step>)
    decreases |steps|
  {
    steps == [] || (BeginsAlone(s, steps[0]) && AllAlone(After(s, steps[0]), steps[1..]))
  }

  // ---------------------------------------------------------------- no record is held twice

  predicate HoldsOnce(t: Job) {
    && (forall i, j :: 0 <= i < j < |t.rest| ==> t.rest[i].id != t.rest[j].id)
    && (!t.phase.Between? ==> t.phase.id !in Waiting(t))
  }

  ghost predicate Exclusive(jobs: map<nat, Job>) {
    && (forall k <- jobs :: HoldsOnce(jobs[k]))
    && forall k <- jobs, j <- jobs, id :: k != j && Holds(jobs[k], id) ==> !Holds(jobs[j], id)
  }

  /** The count that assignments to come will write is the one in the row, unless the row was
      requeued. */
  predicate CountMatches(rows: map<string, Row>, t: Job) {
    t.phase.Assigning? && t.phase.to.ToFailed? && t.phase.id in rows ==>
      t.phase.to.count >= 1 && rows[t.phase.id].retryCount == if t.phase.requeued then 0 else t.phase.to.count
  }

  predicate DriftIsUndone(l: Ledger) {
    if l.undone == 0 then l.drift == 0 else l.drift > 0
  }

  ghost predicate Alone(s: System) {
    && Exclusive(s.jobs) && (forall k <- s.jobs :: CountMatches(s.inbox.rows, s.jobs[k]))
    && forall id <- s.ledgers :: DriftIsUndone(s.ledgers[id])
  }

  ghost predicate HoldsLess(t: Option<Job>, before: Job) {
    t.Some? ==> HoldsOnce(t.value) && forall id :: Holds(t.value, id) ==> Holds(before, id)
  }

  lemma MovedStaysExclusive(jobs: map<nat, Job>, k: nat, t: Option<Job>)
    requires Exclusive(jobs) && k in jobs && HoldsLess(t, jobs[k])
    ensures Exclusive(Moved(jobs, k, t))
  {
    hide HoldsOnce, Holds;
  }

  lemma AddedStaysExclusive(jobs: map<nat, Job>, k: nat, t: Job)
    requires Exclusive(jobs) && k !in jobs && HoldsOnce(t) && forall id :: Holds(t, id) ==> Unheld(jobs, id)
    ensures Exclusive(jobs[k := t])
  {
    hide HoldsOnce, Holds;
  }

  /** A job that moves on with its own row leaves every other job alone. */
  lemma MoveKeepsAlone(s: System, s': System, k: nat, row: Row, t: Option<Job>, l: Ledger)
    requires Alone(s) && k in s.jobs && !s.jobs[k].phase.Between?
    requires var id := s.jobs[k].phase.id;
      && s'.inbox == Replace(s.inbox, id, row) && s'.jobs == Moved(s.jobs, k, t) && s'.ledgers == s.ledgers[id := l]
    requires HoldsLess(t, s.jobs[k]) && DriftIsUndone(l) && (t.Some? ==> CountMatches(s'.inbox.rows, t.value))
    ensures Alone(s')
  {
    var id := s.jobs[k].phase.id;
    MovedStaysExclusive(s.jobs, k, t);
    assert Holds(s.jobs[k], id);
    forall j <- s'.jobs ensures CountMatches(s'.inbox.rows, s'.jobs[j]) {
      if j != k {
        assert !Holds(s.jobs[j], id) && CountMatches(s.inbox.rows, s.jobs[j]);
      }
    }
    hide Exclusive, DriftIsUndone;
  }

  lemma StaysWithRecord(before: Job, phase: Phase)
    requires HoldsOnce(before) && !before.phase.Between? && (!phase.Between? ==> phase.id == before.phase.id)
    ensures HoldsLess(Some(before.(phase := phase)), before)
  {
  }

  lemma HandlerEndedAlone(s: System, k: nat, a: Attempt)
    requires Alone(s) && Sound(s, k) && s.jobs[k].phase.Running?
    ensures Alone(HandlerEnded(s, k, a))
  {
    var t, id, s' := s.jobs[k], s.jobs[k].phase.id, HandlerEnded(s, k, a);
    var next := AfterHandler(t, a);
    assert HoldsOnce(t) && DriftIsUndone(s.ledgers[id]);
    if next.Some? { StaysWithRecord(t, next.value.phase); }
    hide Alone, HoldsLess, Holds, HoldsOnce, AttemptedRow;
    MoveKeepsAlone(s, s', k, AttemptedRow(s.inbox.rows[id], a), next, s.ledgers[id]);
  }

  lemma FailureWrittenAlone(s: System, k: nat, w: Write)
    requires Alone(s) && Sound(s, k) && s.jobs[k].phase.Catching?
    ensures Alone(FailureWritten(s, k, w))
  {
    var t, s' := s.jobs[k], FailureWritten(s, k, w);
    var row, l := s.inbox.rows[t.phase.id], s.ledgers[t.phase.id];
    var next := AfterWrite(t, row, w);
    assert HoldsOnce(t) && DriftIsUndone(l);
    if next.Some? { StaysWithRecord(t, next.value.phase); }
    hide Alone, HoldsLess, Holds, HoldsOnce;
    MoveKeepsAlone(s, s', k, RecordedRow(row, t.phase.error, w, t.maxRetries), next, Booked(l, t.phase.handlerThrew, Reaches(w.call)));
  }

  lemma RecordAssignedAlone(s: System, k: nat)
    requires Alone(s) && Sound(s, k) && s.jobs[k].phase.Assigning?
    ensures Alone(RecordAssigned(s, k))
  {
    var t, s' := s.jobs[k], RecordAssigned(s, k);
    var row, l := s.inbox.rows[t.phase.id], s.ledgers[t.phase.id];
    assert HoldsOnce(t) && DriftIsUndone(l) && CountMatches(s.inbox.rows, t);
    StaysWithRecord(t, Between);
    hide Alone, HoldsLess, Holds, HoldsOnce, Assign;
    MoveKeepsAlone(s, s', k, Assign(row, t.phase.to), Some(t.(phase := Between)), Drifted(l, row, t.phase.to, t.phase.requeued));
  }

  lemma NextTakenAlone(s: System, k: nat, subscribed: bool)
    requires Alone(s) && k in s.jobs && s.jobs[k].phase.Between? && s.jobs[k].rest != []
    ensures Alone(NextTaken(s, k, subscribed))
  {
    var t, s' := s.jobs[k], NextTaken(s, k, subscribed);
    var t' := s'.jobs[k];
    assert HoldsOnce(t);
    RestHoldsLess(t, t');
    MovedStaysExclusive(s.jobs, k, Some(t'));
    hide Exclusive, DriftIsUndone, HoldsOnce, Holds, HoldsLess;
  }

  lemma RestHoldsLess(t: Job, t': Job)
    requires HoldsOnce(t) && t.rest != [] && t'.rest == t.rest[1..]
    requires t'.phase.Between? || t'.phase == Running(t.rest[0].id, false)
    ensures HoldsLess(Some(t'), t)
  {
    forall id | id in Waiting(t') ensures id in Waiting(t) && id != t.rest[0].id {
      var i :| 0 <= i < |t'.rest| && t'.rest[i].id == id;
      assert t.rest[i + 1] in t.rest && t.rest[0].id != t.rest[i + 1].id;
    }
    assert t.rest[0] in t.rest && t.rest[0].id in Waiting(t);
  }

  lemma RequeuedAlone(s: System, id: string, now: Time)
    requires Alone(s)
    ensures Alone(Requeued(s, id, now))
  {
    var s' := Requeued(s, id, now);
    if id in s.inbox.rows && CanRequeue(s.inbox.rows[id]) {
      forall k <- s'.jobs ensures k in s.jobs && s'.jobs[k].rest == s.jobs[k].rest && HoldsOnce(s'.jobs[k])
                                   && forall i :: Holds(s'.jobs[k], i) <==> Holds(s.jobs[k], i) {
        assert HoldsOnce(s.jobs[k]);
      }
      forall k <- s'.jobs ensures CountMatches(s'.inbox.rows, s'.jobs[k]) {
        assert CountMatches(s.inbox.rows, s.jobs[k]);
      }
      hide HoldsOnce, Holds, CountMatches, Flagged;
    }
  }

  lemma MarkedByHandAlone(s: System, id: string, at: Time)
    requires Alone(s)
    ensures Alone(MarkedByHand(s, id, at))
  {
    var s' := MarkedByHand(s, id, at);
    forall k <- s'.jobs ensures CountMatches(s'.inbox.rows, s'.jobs[k]) {
      assert CountMatches(s.inbox.rows, s.jobs[k]);
    }
    hide Exclusive, CountMatches, DriftIsUndone;
  }

  /** A new job keeps the invariant if nobody holds its records. */
  lemma AddedAlone(s: System, s': System, k: nat, t: Job)
    requires Alone(s) && k !in s.jobs && s' == s.(jobs := s.jobs[k := t])
    requires !t.phase.Assigning? && HoldsOnce(t) && forall id :: Holds(t, id) ==> Unheld(s.jobs, id)
    ensures Alone(s')
  {
    AddedStaysExclusive(s.jobs, k, t);
    hide Exclusive, HoldsOnce, Holds, DriftIsUndone;
  }

  lemma DeliveredAlone(s: System, k: nat, row: Row, stored: bool, maxRetries: int, lim: Limits)
    requires Alone(s) && Inv(s, lim) && k !in s.jobs && row.id !in s.inbox.rows
    ensures Alone(Delivered(s, k, row, stored, maxRetries))
  {
    var t := Job(Running(row.id, stored), [], maxRetries);
    NotHeld(s, row.id, lim);
    assert forall id :: Holds(t, id) ==> id == row.id;
    hide Inv, Exclusive, Holds, CountMatches, Identity, DriftIsUndone, HoldsOnce;
    AddedStaysExclusive(s.jobs, k, t);
    CountsStay(s.inbox.rows, s.jobs, row);
  }

  lemma CountsStay(rows: map<string, Row>, jobs: map<nat, Job>, row: Row)
    requires (forall k <- jobs :: CountMatches(rows, jobs[k])) && Unheld(jobs, row.id)
    ensures forall k <- jobs :: CountMatches(rows[row.id := row], jobs[k])
  {
    forall k <- jobs ensures CountMatches(rows[row.id := row], jobs[k]) {
      assert CountMatches(rows, jobs[k]) && !Holds(jobs[k], row.id);
    }
  }

  /** Jobs hold stored records only. */
  lemma NotHeld(s: System, id: string, lim: Limits)
    requires Inv(s, lim) && id !in s.inbox.rows
    ensures Unheld(s.jobs, id)
  {
    forall k <- s.jobs ensures !Holds(s.jobs[k], id) {
      JobAt(s, k, lim);
    }
  }

  lemma SelectionHoldsOnce(less: IdOrder, rows: map<string, Row>, limit: nat, now: Time, pendingBefore: Option<Time>, batch: seq<Row>, maxRetries: int)
    requires StrictTotal(less, rows.Keys) && IsSelection(less, rows, limit, now, pendingBefore, batch)
    ensures HoldsOnce(Job(Between, batch, maxRetries))
    ensures forall id :: Holds(Job(Between, batch, maxRetries), id) ==> exists x :: x in batch && x.id == id
  {
    forall i, j | 0 <= i < j < |batch| ensures batch[i].id != batch[j].id {
      assert batch[i] in batch && batch[j] in batch;
      assert Before(less, batch[i], batch[j]);
    }
  }

  lemma StepKeepsAlone(s: System, step: Step, lim: Limits)
    requires Alone(s) && Inv(s, lim) && CanStep(s, step, lim) && BeginsAlone(s, step)
    ensures Alone(After(s, step))
  {
    match step
    case Deliver(k, row, stored, maxRetries) => DeliveredAlone(s, k, row, stored, maxRetries, lim);
    case OpenBatch(k, less, batch, limit, now, pendingBefore, maxRetries) =>
      SelectionHoldsOnce(less, s.inbox.rows, limit, now, pendingBefore, batch, maxRetries);
      hide Alone, IsSelection, HoldsOnce, Holds;
      AddedAlone(s, After(s, step), k, Job(Between, batch, maxRetries));
    case TakeNext(k, subscribed) => NextTakenAlone(s, k, subscribed);
    case RetryByHand(k, id, stored, maxRetries) => AddedAlone(s, After(s, step), k, Job(Running(id, stored), [], maxRetries));
    case EndHandler(k, a) => JobAt(s, k, lim); HandlerEndedAlone(s, k, a);
    case WriteFailure(k, w) => JobAt(s, k, lim); FailureWrittenAlone(s, k, w);
    case AssignRecord(k) => JobAt(s, k, lim); RecordAssignedAlone(s, k);
    case RequeueRow(id, now) => RequeuedAlone(s, id, now);
    case MarkByHand(id, at) => MarkedByHandAlone(s, id, at);
    case Die(jobs) =>
  }

  lemma {:induction false} FollowKeepsAlone(s: System, steps: seq<Step>, lim: Limits)
    requires Alone(s) && Inv(s, lim) && CanFollow(s, steps, lim) && AllAlone(s, steps) && lim.Valid()
    ensures Alone(Follow(s, steps))
    decreases |steps|
  {
    hide Inv, Alone, CanStep, BeginsAlone, After;
    if steps != [] {
      StepKeeps(s, steps[0], lim);
      StepKeepsAlone(s, steps[0], lim);
      FollowKeepsAlone(After(s, steps[0]), steps[1..], lim);
    }
  }

  /** In a run in which no handling begins for a held record, the stored retry count and the lost
      failure writes add up to what the `catch` blocks caught exactly when no requeue since
      the row was saved or last requeued was undone: that happens when it falls between a
      failure write and the assignments to the stored object that follow it. */
  lemma BalancedIffNoneUndone(steps: seq<Step>, lim: Limits, id: string)
    requires IsRun(steps, lim) && AllAlone(Empty(), steps) && id in End(steps).inbox.rows
    ensures var s := End(steps);
      && id in s.ledgers
      && var row, l := s.inbox.rows[id], s.ledgers[id];
         row.retryCount + l.unrecorded == l.thrown + l.unanswered <==> l.undone == 0
  {
    RetryCountsBalance(steps, lim, id);
    FollowKeepsAlone(Empty(), steps, lim);
    assert DriftIsUndone(End(steps).ledgers[id]);
  }

  // ---------------------------------------------------------------- runs without manual handling

  predicate ByHand(step: Step) {
    step.RetryByHand? || step.MarkByHand?
  }

  ghost predicate NoneByHand(steps: seq<Step>) {
    forall step <- steps :: !ByHand(step)
  }

  /** The rows of held records: open until they are handled, processed before assignments that
      say so, and not processed before the others. */
  predicate Calm(rows: map<string, Row>, t: Job) {
    && (forall x <- t.rest :: x.id in rows && IsOpen(rows[x.id]))
    && (!t.phase.Between? ==> t.phase.id in rows && CalmPhase(t.phase, rows[t.phase.id]))
  }

  predicate CalmPhase(p: Phase, row: Row)
    requires !p.Between?
  {
    match p
    case Running(_, _) => IsOpen(row)
    case Catching(_, _, _, _) => IsOpen(row) || row.status == Processed
    case Assigning(_, to, _) => to.ToProcessed? <==> row.status == Processed
  }

  ghost predicate Free(s: System) {
    && Alone(s) && (forall k <- s.jobs :: Calm(s.inbox.rows, s.jobs[k]))
    && s.repeated == multiset{} && s.granted == multiset{}
  }

  /** A job that moves on with its own row leaves the rows of the others alone. */
  lemma MoveKeepsCalm(s: System, k: nat, row: Row, t: Option<Job>)
    requires Free(s) && Sound(s, k)
    requires t.Some? ==> t.value.rest == s.jobs[k].rest && (t.value.phase.Between? || (t.value.phase.id == s.jobs[k].phase.id && CalmPhase(t.value.phase, row)))
    ensures var rows := s.inbox.rows[s.jobs[k].phase.id := row];
      forall j <- Moved(s.jobs, k, t) :: Calm(rows, Moved(s.jobs, k, t)[j])
  {
    var id := s.jobs[k].phase.id;
    var rows, moved := s.inbox.rows[id := row], Moved(s.jobs, k, t);
    assert Holds(s.jobs[k], id) && HoldsOnce(s.jobs[k]);
    forall j <- moved ensures Calm(rows, moved[j]) {
      assert Calm(s.inbox.rows, s.jobs[j]);
      assert j != k ==> !Holds(s.jobs[j], id);
      CalmWithout(s.inbox.rows, id, row, if j == k then t.value else s.jobs[j], s.jobs[j]);
    }
  }

  lemma CalmWithout(rows: map<string, Row>, id: string, row: Row, t: Job, before: Job)
    requires Calm(rows, before) && id in rows && id !in Waiting(t) && t.rest == before.rest
    requires !t.phase.Between? ==> if t.phase.id == id then CalmPhase(t.phase, row) else t.phase == before.phase
    ensures Calm(rows[id := row], t)
  {
    assert forall x <- t.rest :: x.id in Waiting(t);
  }

  lemma HandlerEndedFree(s: System, k: nat, a: Attempt)
    requires Free(s) && Sound(s, k) && s.jobs[k].phase.Running?
    ensures Free(HandlerEnded(s, k, a))
  {
    var id := s.jobs[k].phase.id;
    HandlerEndedAlone(s, k, a);
    assert Calm(s.inbox.rows, s.jobs[k]);
    MoveKeepsCalm(s, k, AttemptedRow(s.inbox.rows[id], a), AfterHandler(s.jobs[k], a));
    hide Alone, Calm, AttemptedRow, AfterHandler;
  }

  lemma FailureWrittenFree(s: System, k: nat, w: Write)
    requires Free(s) && Sound(s, k) && s.jobs[k].phase.Catching?
    ensures Free(FailureWritten(s, k, w))
  {
    var t, row := s.jobs[k], s.inbox.rows[s.jobs[k].phase.id];
    FailureWrittenAlone(s, k, w);
    MoveKeepsCalm(s, k, RecordedRow(row, t.phase.error, w, t.maxRetries), AfterWrite(t, row, w));
    hide Alone, Calm, RecordedRow, AfterWrite;
  }

  lemma RecordAssignedFree(s: System, k: nat)
    requires Free(s) && Sound(s, k) && s.jobs[k].phase.Assigning?
    ensures Free(RecordAssigned(s, k))
  {
    var t, row := s.jobs[k], s.inbox.rows[s.jobs[k].phase.id];
    RecordAssignedAlone(s, k);
    assert Calm(s.inbox.rows, t);
    MoveKeepsCalm(s, k, Assign(row, t.phase.to), Some(t.(phase := Between)));
    assert RecordAssigned(s, k).jobs == Moved(s.jobs, k, Some(t.(phase := Between)));
    hide Alone, Assign;
  }

  lemma RequeuedFree(s: System, id: string, now: Time)
    requires Free(s)
    ensures Free(Requeued(s, id, now))
  {
    RequeuedAlone(s, id, now);
    var s' := Requeued(s, id, now);
    forall k <- s'.jobs ensures Calm(s'.inbox.rows, s'.jobs[k]) {
      assert Calm(s.inbox.rows, s.jobs[k]);
    }
    hide Alone, Calm;
  }

  lemma DeliveredFree(s: System, k: nat, row: Row, stored: bool, maxRetries: int, lim: Limits)
    requires Free(s) && Inv(s, lim) && k !in s.jobs && row.id !in s.inbox.rows && IsNewRecord(row)
    ensures Free(Delivered(s, k, row, stored, maxRetries))
  {
    DeliveredAlone(s, k, row, stored, maxRetries, lim);
    CalmStays(s.inbox.rows, s.jobs, row);
    assert Calm(s.inbox.rows[row.id := row], Job(Running(row.id, stored), [], maxRetries));
    hide Alone, Inv, Identity, Calm, IsNewRecord;
  }

  lemma CalmStays(rows: map<string, Row>, jobs: map<nat, Job>, row: Row)
    requires (forall k <- jobs :: Calm(rows, jobs[k])) && row.id !in rows
    ensures forall k <- jobs :: Calm(rows[row.id := row], jobs[k])
  {
    forall k <- jobs ensures Calm(rows[row.id := row], jobs[k]) {
      assert Calm(rows, jobs[k]);
    }
  }

  lemma NextTakenFree(s: System, k: nat, subscribed: bool)
    requires Free(s) && k in s.jobs && s.jobs[k].phase.Between? && s.jobs[k].rest != []
    ensures Free(NextTaken(s, k, subscribed))
  {
    NextTakenAlone(s, k, subscribed);
    var t := s.jobs[k];
    assert Calm(s.inbox.rows, t) && t.rest[0] in t.rest && forall x <- t.rest[1..] :: x in t.rest;
    hide Alone;
  }

  lemma StepKeepsFree(s: System, step: Step, lim: Limits)
    requires Free(s) && Inv(s, lim) && CanStep(s, step, lim) && BeginsAlone(s, step) && !ByHand(step)
    ensures Free(After(s, step))
  {
    match step
    case Deliver(k, row, stored, maxRetries) => DeliveredFree(s, k, row, stored, maxRetries, lim);
    case OpenBatch(k, less, batch, limit, now, pendingBefore, maxRetries) =>
      StepKeepsAlone(s, step, lim);
      assert Calm(s.inbox.rows, Job(Between, batch, maxRetries));
      hide Alone, Inv, Calm;
    case TakeNext(k, subscribed) => NextTakenFree(s, k, subscribed);
    case EndHandler(k, a) => JobAt(s, k, lim); HandlerEndedFree(s, k, a);
    case WriteFailure(k, w) => JobAt(s, k, lim); FailureWrittenFree(s, k, w);
    case AssignRecord(k) => JobAt(s, k, lim); RecordAssignedFree(s, k);
    case RequeueRow(id, now) => RequeuedFree(s, id, now);
    case Die(jobs) => StepKeepsAlone(s, step, lim); hide Alone, Inv, Calm;
  }

  lemma {:induction false} FollowKeepsFree(s: System, steps: seq<Step>, lim: Limits)
    requires Free(s) && Inv(s, lim) && CanFollow(s, steps, lim) && AllAlone(s, steps) && NoneByHand(steps) && lim.Valid()
    ensures Free(Follow(s, steps))
    decreases |steps|
  {
    hide Inv, Free, CanStep, BeginsAlone, After, ByHand;
    if steps != [] {
      assert !ByHand(steps[0]) && forall step <- steps[1..] :: step in steps;
      StepKeeps(s, steps[0], lim);
      StepKeepsFree(s, steps[0], lim);
      FollowKeepsFree(After(s, steps[0]), steps[1..], lim);
    }
  }

  /** Without manual retries and marks, and as long as no batch selects a record that is still
      held, a message's handler succeeded exactly once for each lost mark, and once more if its
      row is processed: at most once when every mark lasted. */
  lemma SuccessesWithoutHands(steps: seq<Step>, lim: Limits, key: string)
    requires IsRun(steps, lim) && AllAlone(Empty(), steps) && NoneByHand(steps)
    ensures End(steps).successes[key] == End(steps).lost[key] + Unit(IsProcessed(End(steps).inbox, key))
  {
    SuccessesAreCounted(steps, lim, key);
    FollowKeepsFree(Empty(), steps, lim);
  }
}
