/** Handling received messages (`attachSubscription`, `tryHandle`, `retryInboxBatch`,
    libs/cap-core/src/engine/cap-engine.ts) on the shared event objects. A storage call may
    fail before or after it took effect, and the process may die around it. */
module InboxEngine {
  import opened Basics
  import opened Backoff
  import opened InboxTable
  import opened RetrySelection
  import opened InboxStore

  datatype Outcome = Succeeds | Throws(error: string)

  /** How a storage call goes: answered; rejected before or after it took effect; or never
      answered, because the process died before or after it took effect. */
  datatype Call = Answered | RequestLost(error: string) | ReplyLost(error: string) | DiedBefore | DiedAfter

  predicate Reaches(c: Call) {
    c.Answered? || c.ReplyLost? || c.DiedAfter?
  }

  predicate Rejects(c: Call) {
    c.RequestLost? || c.ReplyLost?
  }

  /** The `try` block: what the handler did and, if it succeeded, how the mark went. */
  datatype Attempt = Attempt(outcome: Outcome, at: Time, mark: Call)

  /** The failure write of the `catch` block, if it comes to that. */
  datatype Write = Write(at: Time, delay: nat, call: Call)

  /** What administrators do to rows between the answer of the last storage call and the
      assignments to the record, which run in a later microtask. */
  datatype Deed = Requeues(id: string, now: Time) | Marks(id: string, at: Time)

  /** `shown` is the retry count that the record shows. */
  datatype Handling = Handling(shown: nat, attempt: Attempt, write: Write, meanwhile: seq<Deed>)

  /** The same as the caller provides it, with the random draw of the delay. */
  datatype Ending = Ending(attempt: Attempt, at: Time, draw: nat, call: Call, meanwhile: seq<Deed>)

  const BASE_MS := 1000
  const MAX_MS := 300000

  /** The delay grows with the retry count. */
  function HandlingOf(e: Ending, shown: nat): Handling
    requires e.draw < BASE_MS
  {
    Handling(shown, e.attempt, Write(e.at, ExpJitter(shown, BASE_MS, MAX_MS, e.draw), e.call), e.meanwhile)
  }

  // ---------------------------------------------------------------- one handling, on tables

  /** What the `catch` block catches: the handler's error, or the error of its mark. */
  function Caught(a: Attempt): Option<string> {
    match a.outcome
    case Throws(error) => Some(error)
    case Succeeds => if Rejects(a.mark) then Some(a.mark.error) else None
  }

  function Attempted(s: Inbox, id: string, a: Attempt): Inbox {
    if a.outcome.Succeeds? && Reaches(a.mark) then MarkHandled(s, id, a.at) else s
  }

  function Recorded(s: Inbox, id: string, error: string, w: Write, maxRetries: int): Inbox {
    if Reaches(w.call) then MarkFailed(s, id, error, maxRetries, w.at + w.delay) else s
  }

  function Done(s: Inbox, deeds: seq<Deed>): Inbox
    decreases |deeds|
  {
    if deeds == [] then s
    else
      match deeds[0]
      case Requeues(id, now) => Done(Requeue(s, id, now), deeds[1..])
      case Marks(id, at) => Done(MarkHandled(s, id, at), deeds[1..])
  }

  /** The assignments to the record after the answer: they repeat what the store has done. */
  datatype Assignments =
    | ToProcessed(at: Time)
    | ToFailed(count: nat, error: string, maxRetries: int, nextRetryAt: Time)

  function Assign(row: Row, to: Assignments): Row {
    match to
    case ToProcessed(at) => AsProcessed(row, at)
    case ToFailed(count, error, maxRetries, nextRetryAt) => AsCounted(row, count, error, maxRetries, nextRetryAt)
  }

  /** They reach the table only if the record is the stored object itself. */
  function Assigned(s: Inbox, id: string, to: Assignments, stored: bool): Inbox {
    if stored && id in s.rows then Replace(s, id, Assign(s.rows[id], to)) else s
  }

  /** The assignments to come when the last call of a handling is answered. */
  function Following(h: Handling, maxRetries: int): Assignments {
    match Caught(h.attempt)
    case None => ToProcessed(h.attempt.at)
    case Some(error) => ToFailed(h.shown + 1, error, maxRetries, h.write.at + h.write.delay)
  }

  /** The storage calls of a handling. */
  function Called(s: Inbox, id: string, h: Handling, maxRetries: int): Inbox {
    match Caught(h.attempt)
    case None => Attempted(s, id, h.attempt)
    case Some(error) => Recorded(Attempted(s, id, h.attempt), id, error, h.write, maxRetries)
  }

  /** Whether the promise of `tryHandle` is fulfilled. */
  predicate Completes(h: Handling) {
    if Caught(h.attempt).Some? then h.write.call.Answered? else h.attempt.mark.Answered?
  }

  function Handle(s: Inbox, id: string, h: Handling, maxRetries: int, stored: bool): Inbox {
    var called := Called(s, id, h, maxRetries);
    if Completes(h) then Assigned(Done(called, h.meanwhile), id, Following(h, maxRetries), stored) else called
  }

  /** With nothing in between, the assignments change nothing that the store has not done. */
  lemma AssignmentsRepeat(s: Inbox, id: string, h: Handling, maxRetries: int, stored: bool)
    requires h.meanwhile == [] && (id in s.rows ==> h.shown == s.rows[id].retryCount)
    ensures Handle(s, id, h, maxRetries, stored) == Called(s, id, h, maxRetries)
  {
    var called := Called(s, id, h, maxRetries);
    if Completes(h) && stored && id in s.rows {
      assert Assign(called.rows[id], Following(h, maxRetries)) == called.rows[id];
      assert called.rows[id := called.rows[id]] == called.rows;
    }
  }

  /** The error that sends a handling to the `catch` block: the handler's own, or that of the
      mark after a success. */
  predicate CatchesError(a: Attempt, error: string) {
    || a.outcome == Throws(error)
    || (a.outcome == Succeeds && (a.mark == RequestLost(error) || a.mark == ReplyLost(error)))
  }

  /** A handling that fails, when its failure write is answered and nothing happens meanwhile:
      the failure is counted and its error recorded. Below the maximum the row is failed, and
      due again after a delay of the base doubled for every failure shown, plus less than
      another base, up to the cap; at the maximum it is dead-lettered. */
  lemma FailedHandlingWaits(s: Inbox, id: string, e: Ending, shown: nat, error: string, maxRetries: int, stored: bool, powers: seq<nat>)
    requires id in s.rows && CatchesError(e.attempt, error) && e.call == Answered && e.meanwhile == [] && e.draw < 1000
    requires stored ==> shown == s.rows[id].retryCount
    requires Doubling(powers) && shown < |powers|
    ensures var s', row := Handle(s, id, HandlingOf(e, shown), maxRetries, stored), s.rows[id];
      && OnlyDiffersAt(s, s', id)
      && var row' := s'.rows[id];
      && row'.retryCount == row.retryCount + 1 && row'.lastError == Some(error)
      && (row.retryCount + 1 >= maxRetries ==> row'.status == DeadLetter && row'.nextRetry == None)
      && (row.retryCount + 1 < maxRetries ==>
            && row'.status == Failed && row'.nextRetry.Some?
            && Min(1000 * powers[shown], 300000) <= row'.nextRetry.value - e.at <= Min(1000 * powers[shown] + 999, 300000))
  {
    var h := HandlingOf(e, shown);
    DelayLaw(shown, BASE_MS, MAX_MS, e.draw, powers);
    if stored { AssignmentsRepeat(s, id, h, maxRetries, stored); }
    var attempted := Attempted(s, id, e.attempt);
    MarkLaw(s, id, e.attempt.at);
    FailureLaw(attempted, id, error, maxRetries, e.at + h.write.delay);
  }

  /** A handling that succeeds, when its mark is answered and nothing happens meanwhile: the row
      is processed at the time of the mark. */
  lemma SuccessfulHandlingMarks(s: Inbox, id: string, e: Ending, shown: nat, maxRetries: int, stored: bool)
    requires id in s.rows && e.attempt.outcome == Succeeds && e.attempt.mark == Answered && e.meanwhile == [] && e.draw < 1000
    requires stored ==> shown == s.rows[id].retryCount
    ensures var s' := Handle(s, id, HandlingOf(e, shown), maxRetries, stored);
      && OnlyDiffersAt(s, s', id)
      && var row' := s'.rows[id];
      && row'.status == Processed && row'.processed && row'.processedAt == Some(e.attempt.at) && row'.nextRetry == None
      && row'.retryCount == s.rows[id].retryCount && row'.lastError == s.rows[id].lastError
  {
    if stored { AssignmentsRepeat(s, id, HandlingOf(e, shown), maxRetries, stored); }
    MarkLaw(s, id, e.attempt.at);
  }

  // ---------------------------------------------------------------- one handling, in place

  /** `tryHandle`. The record may be the stored object itself (first delivery) or a copy of it
      (retry). The assignments go to the record, whatever has become of its row meanwhile. */
  method TryHandle(storage: InMemoryReceivedStorage, rec: ReceivedEvent, end: Ending, maxRetries: int) returns (completed: bool)
    requires storage.Valid() && end.draw < BASE_MS
    modifies storage.Objects(), rec
    ensures storage.Valid() && storage.store == old(storage.store)
    ensures var h := HandlingOf(end, old(rec.retryCount));
      && storage.Contents() == Handle(old(storage.Contents()), rec.id, h, maxRetries, old(rec in storage.Objects()))
      && completed == Completes(h)
      && (old(rec !in storage.Objects()) ==>
            rec.Snapshot() == if completed then Assign(old(rec.Snapshot()), Following(h, maxRetries)) else old(rec.Snapshot()))
  {
    hide Agrees, MarkHandled, MarkFailed, AsCounted, ExpJitter, Done, Assigned;
    var caught: string;
    match end.attempt.outcome {
      case Succeeds =>
        CallMarkProcessed(storage, rec, end.attempt.at, end.attempt.mark, end.meanwhile);
        if !Rejects(end.attempt.mark) { return end.attempt.mark.Answered?; }
        caught := end.attempt.mark.error;
      case Throws(error) =>
        caught := error;
    }
    var nextTime := end.at + ExpJitter(rec.retryCount, BASE_MS, MAX_MS, end.draw);
    CallMarkFailed(storage, rec, caught, nextTime, maxRetries, end.call, end.meanwhile);
    completed := end.call.Answered?;
  }

  /** `await markProcessed(...)` and, once it is answered, the assignments to the record. */
  method CallMarkProcessed(storage: InMemoryReceivedStorage, rec: ReceivedEvent, at: Time, call: Call, meanwhile: seq<Deed>)
    requires storage.Valid()
    modifies storage.Objects(), rec
    ensures storage.Valid() && storage.store == old(storage.store)
    ensures var s := old(storage.Contents()); var called := if Reaches(call) then MarkHandled(s, rec.id, at) else s;
      storage.Contents() == if call.Answered? then Assigned(Done(called, meanwhile), rec.id, ToProcessed(at), old(rec in storage.Objects()))
                            else called
    ensures !call.Answered? ==> rec.retryCount == old(rec.retryCount)
    ensures old(rec !in storage.Objects()) ==>
              rec.Snapshot() == if call.Answered? then AsProcessed(old(rec.Snapshot()), at) else old(rec.Snapshot())
  {
    hide Agrees, Done;
    if rec in storage.Objects() { storage.StoredUnderOwnId(rec); }
    if Reaches(call) { storage.MarkProcessed(rec.id, at); }
    assert rec in storage.Objects() ==> storage.Rows()[rec.id] == rec.Snapshot();
    if call.Answered? {
      Administer(storage, meanwhile);
      Reflect(storage, rec, ToProcessed(at));
    }
  }

  /** `await markReceivedFailed(...)` and, once it is answered, the assignments to the record. */
  method CallMarkFailed(storage: InMemoryReceivedStorage, rec: ReceivedEvent, error: string, nextTime: Time, maxRetries: int,
                        call: Call, meanwhile: seq<Deed>)
    requires storage.Valid()
    modifies storage.Objects(), rec
    ensures storage.Valid() && storage.store == old(storage.store)
    ensures var s, to := old(storage.Contents()), ToFailed(old(rec.retryCount) + 1, error, maxRetries, nextTime);
      var called := if Reaches(call) then MarkFailed(s, rec.id, error, maxRetries, nextTime) else s;
      && storage.Contents() == (if call.Answered? then Assigned(Done(called, meanwhile), rec.id, to, old(rec in storage.Objects())) else called)
      && (old(rec !in storage.Objects()) ==>
            rec.Snapshot() == if call.Answered? then Assign(old(rec.Snapshot()), to) else old(rec.Snapshot()))
  {
    hide Agrees, Done, Assign;
    var nextRetryCount := rec.retryCount + 1;
    if Reaches(call) { storage.MarkReceivedFailed(rec.id, error, maxRetries, nextTime); }
    if call.Answered? {
      Administer(storage, meanwhile);
      Reflect(storage, rec, ToFailed(nextRetryCount, error, maxRetries, nextTime));
    }
  }

  method Administer(storage: InMemoryReceivedStorage, deeds: seq<Deed>)
    requires storage.Valid()
    modifies storage.Objects()
    ensures storage.Valid() && storage.store == old(storage.store)
    ensures storage.Contents() == Done(old(storage.Contents()), deeds)
  {
    hide Agrees, Requeue, MarkHandled;
    ghost var all := Done(storage.Contents(), deeds);
    assert deeds[0..] == deeds;
    for i := 0 to |deeds|
      invariant storage.Valid() && storage.store == old(storage.store)
      invariant all == Done(storage.Contents(), deeds[i..])
    {
      assert deeds[i..][0] == deeds[i] && deeds[i..][1..] == deeds[i + 1..];
      match deeds[i] {
        case Requeues(id, now) => var _, _ := storage.RequeueReceived(id, now);
        case Marks(id, at) => storage.MarkProcessed(id, at);
      }
    }
  }

  method AssignFields(rec: ReceivedEvent, to: Assignments)
    modifies rec
    ensures rec.Snapshot() == Assign(old(rec.Snapshot()), to)
  {
    match to {
      case ToProcessed(at) =>
        rec.status := Processed;
        rec.processed := true;
        rec.processedAt := Some(at);
        rec.nextRetry := None;
      case ToFailed(count, error, maxRetries, nextTime) =>
        rec.retryCount := count;
        rec.status := if rec.retryCount >= maxRetries then DeadLetter else Failed;
        rec.nextRetry := if rec.status == DeadLetter then None else Some(nextTime);
        rec.lastError := Some(error);
    }
  }

  /** The assignments to the record: they are assignments to the stored row if the record is
      the stored object, and do not reach the store otherwise. */
  method Reflect(storage: InMemoryReceivedStorage, rec: ReceivedEvent, to: Assignments)
    requires storage.Valid()
    modifies rec
    ensures storage.Valid() && storage.store == old(storage.store)
    ensures storage.Contents() == Assigned(old(storage.Contents()), rec.id, to, rec in storage.Objects())
    ensures rec.Snapshot() == Assign(old(rec.Snapshot()), to)
  {
    hide Agrees;
    ghost var s, row := storage.Contents(), rec.Snapshot();
    ghost var stored := rec in storage.Objects();
    if stored {
      storage.StoredUnderOwnId(rec);
      storage.SeparateRows(rec.id);
    }
    AssignFields(rec, to);
    if stored {
      OnlyRowChanged(s, storage.Contents(), rec.id, Assign(row, to));
    } else {
      assert storage.Rows() == s.rows;
    }
  }

  /** The callback of `attachSubscription`: a duplicate is skipped, a new record is handled
      through the very object the store now holds. */
  method OnDelivery(storage: InMemoryReceivedStorage, event: ReceivedEvent, end: Ending, maxRetries: int)
    returns (inserted: bool, completed: bool)
    requires storage.Valid() && event.id != "" && event.id !in storage.store && end.draw < BASE_MS
    modifies storage, storage.Objects(), event
    ensures storage.Valid()
    ensures var (saved, result) := TrySave(old(storage.Contents()), old(event.Snapshot()));
      var h := HandlingOf(end, old(event.retryCount));
      && inserted == result.inserted && completed == (!inserted || Completes(h))
      && storage.Contents() == if inserted then Handle(saved, event.id, h, maxRetries, true) else saved
  {
    hide Agrees, Handle;
    var saved, stored := storage.TrySaveReceived(event);
    inserted, completed := saved.inserted, true;
    if inserted { completed := TryHandle(storage, stored, end, maxRetries); }
  }

  /** `retryReceived`, which a retry batch and the dashboard call with a copy, and any caller
      may call with a record of its own; without a subscription nothing happens. */
  method RetryReceived(storage: InMemoryReceivedStorage, rec: ReceivedEvent, end: Option<Ending>, maxRetries: int) returns (completed: bool)
    requires storage.Valid() && (end.Some? ==> end.value.draw < BASE_MS)
    modifies storage.Objects(), rec
    ensures storage.Valid() && storage.store == old(storage.store)
    ensures end.None? ==> completed && storage.Contents() == old(storage.Contents())
    ensures end.Some? ==> var h := HandlingOf(end.value, old(rec.retryCount));
              && storage.Contents() == Handle(old(storage.Contents()), rec.id, h, maxRetries, old(rec in storage.Objects()))
              && completed == Completes(h)
  {
    hide Agrees, Handle;
    completed := true;
    if end.Some? { completed := TryHandle(storage, rec, end.value, maxRetries); }
  }

  // ---------------------------------------------------------------- a batch

  predicate Drawn(ends: seq<Option<Ending>>) {
    forall i :: 0 <= i < |ends| && ends[i].Some? ==> ends[i].value.draw < BASE_MS
  }

  /** The rows of a batch handled in turn, up to the first handling that does not complete;
      records without a subscription have no ending. */
  function HandleAll(s: Inbox, batch: seq<Row>, ends: seq<Option<Ending>>, maxRetries: int): Inbox
    requires |ends| >= |batch| && Drawn(ends)
    decreases |batch|
  {
    if batch == [] then s
    else if ends[0].None? then HandleAll(s, batch[1..], ends[1..], maxRetries)
    else
      var h := HandlingOf(ends[0].value, batch[0].retryCount);
      var after := Handle(s, batch[0].id, h, maxRetries, false);
      if Completes(h) then HandleAll(after, batch[1..], ends[1..], maxRetries) else after
  }

  /** `retryInboxBatch`, with how each handling ends as a parameter. */
  method RetryInboxBatch(storage: InMemoryReceivedStorage, less: IdOrder, limit: nat, now: Time, window: Time,
                         ends: seq<Option<Ending>>, maxRetries: int) returns (ghost rows: seq<Row>)
    requires storage.Valid() && StrictTotal(less, storage.store.Keys) && |ends| >= limit && Drawn(ends)
    modifies storage.Objects()
    ensures storage.Valid()
    ensures IsSelection(less, old(storage.Rows()), limit, now, Some(now - window), rows)
    ensures IsBatch(less, old(storage.Rows()), limit, now, Some(now - window), rows)
    ensures |rows| <= limit && storage.Contents() == HandleAll(old(storage.Contents()), rows, ends, maxRetries)
  {
    hide Agrees, IsSelection, IsBatch;
    var batch := storage.GetRetryDue(less, limit, now, Some(now - window));
    rows := Snapshots(batch);
    AtMostLimit(less, storage.Rows(), limit, now, Some(now - window), rows);
    HandleBatch(storage, batch, ends, maxRetries);
  }

  /** The loop over the copies of a batch; a rejected handling ends it. */
  method HandleBatch(storage: InMemoryReceivedStorage, batch: seq<ReceivedEvent>, ends: seq<Option<Ending>>, maxRetries: int)
    requires storage.Valid() && |ends| >= |batch| && Drawn(ends)
    requires Separate(batch) && forall e <- batch :: e !in storage.Objects()
    modifies storage.Objects(), set e | e in batch
    ensures storage.Valid() && storage.store == old(storage.store)
    ensures storage.Contents() == HandleAll(old(storage.Contents()), old(Snapshots(batch)), ends, maxRetries)
  {
    hide Agrees, Handle, Completes;
    ghost var rows := Snapshots(batch);
    ghost var all := HandleAll(storage.Contents(), rows, ends, maxRetries);
    assert rows[0..] == rows && ends[0..] == ends;
    for i := 0 to |batch|
      invariant storage.Valid() && storage.store == old(storage.store)
      invariant all == HandleAll(storage.Contents(), rows[i..], ends[i..], maxRetries)
      invariant forall k :: i <= k < |batch| ==> batch[k].Snapshot() == rows[k]
    {
      assert batch[i] in batch && batch[i].id == rows[i].id && batch[i].retryCount == rows[i].retryCount;
      assert rows[i..][0] == rows[i] && ends[i..][0] == ends[i];
      assert rows[i..][1..] == rows[i + 1..] && ends[i..][1..] == ends[i + 1..];
      var completed := RetryReceived(storage, batch[i], ends[i], maxRetries);
      if !completed { return; }
      assert forall k :: i < k < |batch| ==> batch[k] in batch && batch[k] != batch[i];
    }
  }

  lemma AtMostLimit(less: IdOrder, table: map<string, Row>, limit: nat, now: Time, pendingBefore: Option<Time>, r: seq<Row>)
    requires IsSelection(less, table, limit, now, pendingBefore, r)
    ensures |r| <= limit
  {
  }
}
