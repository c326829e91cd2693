/** What the inbox guarantees over every run: one row for a message, a retry count that adds up,
    open rows that become due, and when a handler's success is the last one of its message. */
module InboxGuarantees {
  import opened Basics
  import opened InboxTable
  import opened RetrySelection
  import opened InboxEngine
  import opened InboxRuns

  function Empty(): System {
    System(Inbox(map[], map[]), map[], map[], multiset{}, multiset{}, multiset{}, multiset{})
  }

  ghost predicate CanFollow(s: System, steps: seq<Step>, lim: Limits)
    decreases |steps|
  {
    steps == [] || (CanStep(s, steps[0], lim) && CanFollow(After(s, steps[0]), steps[1..], lim))
  }

  function Follow(s: System, steps: seq<Step>): System
    decreases |steps|
  {
    if steps == [] then s else Follow(After(s, steps[0]), steps[1..])
  }

  /** A run from an empty inbox, with engines whose maxima lie within the limits. */
  ghost predicate IsRun(steps: seq<Step>, lim: Limits) {
    lim.Valid() && CanFollow(Empty(), steps, lim)
  }

  function End(steps: seq<Step>): System {
    Follow(Empty(), steps)
  }

  lemma {:induction false} FollowKeeps(s: System, steps: seq<Step>, lim: Limits)
    requires Inv(s, lim) && CanFollow(s, steps, lim) && lim.Valid()
    ensures Inv(Follow(s, steps), lim)
    decreases |steps|
  {
    hide Inv, CanStep, After;
    if steps != [] {
      StepKeeps(s, steps[0], lim);
      FollowKeeps(After(s, steps[0]), steps[1..], lim);
    }
  }

  lemma RunKeeps(steps: seq<Step>, lim: Limits)
    requires IsRun(steps, lim)
    ensures Inv(End(steps), lim)
  {
    FollowKeeps(Empty(), steps, lim);
  }

  lemma {:induction false} FollowOn(s: System, first: seq<Step>, next: seq<Step>, lim: Limits)
    requires CanFollow(s, first, lim) && CanFollow(Follow(s, first), next, lim)
    ensures CanFollow(s, first + next, lim)
    ensures Follow(s, first + next) == Follow(Follow(s, first), next)
    decreases |first|
  {
    hide CanStep, After;
    if first == [] {
      assert first + next == next;
    } else {
      assert (first + next)[1..] == first[1..] + next;
      FollowOn(After(s, first[0]), first[1..], next, lim);
    }
  }

  lemma FollowOne(s: System, step: Step, lim: Limits)
    ensures CanFollow(s, [step], lim) <==> CanStep(s, step, lim)
    ensures Follow(s, [step]) == After(s, step)
  {
    hide CanStep, After;
    assert [step][1..] == [];
  }

  // ---------------------------------------------------------------- rows

  /** Over every run there is at most one row of a group and dedupe key, and of a joined key. */
  lemma OneRowPerPair(steps: seq<Step>, lim: Limits, a: string, b: string)
    requires IsRun(steps, lim) && a in End(steps).inbox.rows && b in End(steps).inbox.rows
    requires var rows := End(steps).inbox.rows;
      Identity(rows[a]) == Identity(rows[b]) || (rows[a].group == rows[b].group && rows[a].dedupeKey == rows[b].dedupeKey)
    ensures a == b
  {
    RunKeeps(steps, lim);
  }

  /** Over every run the stored retry count and the failure writes that never took effect add
      up to what the `catch` blocks caught and what assignments to the stored object added, and
      nothing else. A dead-lettered row has reached the least maximum in use; a row that has
      reached the greatest is dead-lettered or processed. */
  lemma RetryCountsBalance(steps: seq<Step>, lim: Limits, id: string)
    requires IsRun(steps, lim) && id in End(steps).inbox.rows
    ensures var s := End(steps);
      && id in s.ledgers
      && var row, l := s.inbox.rows[id], s.ledgers[id];
      && row.retryCount + l.unrecorded == l.thrown + l.unanswered + l.drift
      && (row.retryCount == l.thrown <==> l.unanswered + l.drift == l.unrecorded)
      && (row.status == DeadLetter ==> row.retryCount >= lim.least)
      && (row.retryCount >= lim.greatest ==> row.status == DeadLetter || row.status == Processed)
  {
    RunKeeps(steps, lim);
    RowAt(End(steps), id, lim);
  }

  /** Over every run an open row has a time from which retry batches see it as due: its retry
      time when it failed, the end of the fallback window when nothing was written. */
  lemma OpenRowsBecomeDue(steps: seq<Step>, lim: Limits, id: string, window: nat, now: Time)
    requires IsRun(steps, lim) && id in End(steps).inbox.rows
    ensures var row := End(steps).inbox.rows[id];
      var from := if row.nextRetry.Some? then row.nextRetry.value else row.occurredAt + window;
      IsDue(row, now, Some(now - window)) <==> IsOpen(row) && from <= now
  {
    RunKeeps(steps, lim);
    RowAt(End(steps), id, lim);
  }

  /** The failure write of a job on the row, or the assignments that repeat one. */
  predicate Overwrites(s: System, step: Step, id: string) {
    match step
    case WriteFailure(k, w) => Sound(s, k) && s.jobs[k].phase.Catching? && s.jobs[k].phase.id == id && Reaches(w.call)
    case AssignRecord(k) => Sound(s, k) && s.jobs[k].phase.id == id && s.jobs[k].phase.Assigning? && s.jobs[k].phase.to.ToFailed?
    case _ => false
  }

  /** What a step makes of one row. */
  function RowAfter(s: System, step: Step, id: string): Row
    requires id in s.inbox.rows
  {
    var row := s.inbox.rows[id];
    match step
    case EndHandler(k, a) => if Sound(s, k) && s.jobs[k].phase.Running? && s.jobs[k].phase.id == id then AttemptedRow(row, a) else row
    case WriteFailure(k, w) =>
      if Sound(s, k) && s.jobs[k].phase.Catching? && s.jobs[k].phase.id == id
      then RecordedRow(row, s.jobs[k].phase.error, w, s.jobs[k].maxRetries) else row
    case AssignRecord(k) =>
      if Sound(s, k) && s.jobs[k].phase.Assigning? && s.jobs[k].phase.id == id then Assign(row, s.jobs[k].phase.to) else row
    case RequeueRow(i, now) => if i == id && CanRequeue(row) then AsRequeued(row, now) else row
    case MarkByHand(i, at) => if i == id then AsProcessed(row, at) else row
    case _ => row
  }

  lemma StepMakesRow(s: System, step: Step, lim: Limits, id: string)
    requires s.ledgers.Keys == s.inbox.rows.Keys && CanStep(s, step, lim) && id in s.inbox.rows
    ensures id in After(s, step).inbox.rows && After(s, step).inbox.rows[id] == RowAfter(s, step, id)
  {
    hide AttemptedRow, RecordedRow, Assign, IsSelection, StrictTotal, AfterHandler, AfterWrite, One, Drifted, Flagged, Moved, Identity, IsNewRecord;
    hide Booked, AsRequeued, AsProcessed;
  }

  /** No row is ever removed, and none changes its identity. A processed row stops being
      processed exactly by a failure write on it that takes effect, or by the late assignments
      of one. */
  lemma ProcessedEndsIff(s: System, step: Step, lim: Limits, id: string)
    requires Inv(s, lim) && CanStep(s, step, lim) && lim.Valid() && id in s.inbox.rows
    ensures id in After(s, step).inbox.rows && SameIdentity(s.inbox.rows[id], After(s, step).inbox.rows[id])
    ensures s.inbox.rows[id].status == Processed ==>
              (After(s, step).inbox.rows[id].status != Processed <==> Overwrites(s, step, id))
  {
    StepMakesRow(s, step, lim, id);
    hide Inv, After;
  }

  // ---------------------------------------------------------------- when a success is the last one

  /** Over every run each success of a message's handler, and each status granted without one,
      was lost, was repeated on a processed row, or shows in the row. */
  lemma SuccessesAreCounted(steps: seq<Step>, lim: Limits, key: string)
    requires IsRun(steps, lim)
    ensures var s := End(steps);
      s.successes[key] + s.granted[key] == s.lost[key] + s.repeated[key] + Unit(IsProcessed(s.inbox, key))
  {
    RunKeeps(steps, lim);
  }

  /** The job has a handler of the record to end, or may take its row out of the processed
      state. */
  predicate Threatens(t: Job, id: string) {
    || id in Waiting(t)
    || (!t.phase.Between? && t.phase.id == id && (t.phase.Assigning? ==> t.phase.to.ToFailed?))
  }

  function Waiting(t: Job): set<string> {
    set x | x in t.rest :: x.id
  }

  ghost predicate Quiet(jobs: map<nat, Job>, id: string) {
    forall k <- jobs :: !Threatens(jobs[k], id)
  }

  /** The row of the message is processed, and no job threatens it. */
  ghost predicate Settled(s: System, key: string) {
    IsProcessed(s.inbox, key) && Quiet(s.jobs, s.inbox.dedupe[key])
  }

  predicate RetriesByHand(step: Step, id: string) {
    step.RetryByHand? && step.id == id
  }

  /** The jobs stay quiet about a processed row unless a manual retry of it begins. */
  lemma StaysQuiet(s: System, step: Step, lim: Limits, id: string)
    requires Inv(s, lim) && CanStep(s, step, lim) && !RetriesByHand(step, id)
    requires id in s.inbox.rows && s.inbox.rows[id].status == Processed && Quiet(s.jobs, id)
    ensures Quiet(After(s, step).jobs, id)
  {
    match step
    case OpenBatch(k, less, batch, limit, now, pendingBefore, maxRetries) =>
      NotSelected(s.inbox.rows, less, batch, limit, now, pendingBefore, id);
    case TakeNext(k, subscribed) => NextStaysQuiet(s, k, subscribed, id); hide Threatens, Inv;
    case EndHandler(k, a) => JobStaysQuiet(s, k, lim, AfterHandler(s.jobs[k], a), id); hide Threatens, Inv;
    case WriteFailure(k, w) => JobStaysQuiet(s, k, lim, AfterWrite(s.jobs[k], s.inbox.rows[s.jobs[k].phase.id], w), id); hide Threatens, Inv;
    case AssignRecord(k) => JobStaysQuiet(s, k, lim, Some(s.jobs[k].(phase := Between)), id); hide Threatens, Inv;
    case RequeueRow(other, _) => FlagsStayQuiet(s.jobs, other, id); hide Inv;
    case _ => hide Inv;
  }

  lemma NextStaysQuiet(s: System, k: nat, subscribed: bool, id: string)
    requires Quiet(s.jobs, id) && k in s.jobs && s.jobs[k].phase.Between? && s.jobs[k].rest != []
    ensures Quiet(NextTaken(s, k, subscribed).jobs, id)
  {
    var rest := s.jobs[k].rest;
    assert !Threatens(s.jobs[k], id) && rest[0] in rest && forall x <- rest[1..] :: x in rest;
  }

  lemma NotSelected(rows: map<string, Row>, less: IdOrder, batch: seq<Row>, limit: nat, now: Time, pendingBefore: Option<Time>, id: string)
    requires IsSelection(less, rows, limit, now, pendingBefore, batch) && id in rows && rows[id].status == Processed
    ensures forall x <- batch :: x.id != id
  {
    assert forall x <- batch :: IsDue(rows[x.id], now, pendingBefore);
  }

  lemma JobStaysQuiet(s: System, k: nat, lim: Limits, t: Option<Job>, id: string)
    requires Quiet(s.jobs, id) && k in s.jobs && !s.jobs[k].phase.Between?
    requires t.Some? ==> t.value.rest == s.jobs[k].rest && (t.value.phase.Between? || t.value.phase.id == s.jobs[k].phase.id)
    requires s.jobs[k].phase.Running? || s.jobs[k].phase.Catching? || (t.Some? ==> t.value.phase.Between?)
    ensures Quiet(Moved(s.jobs, k, t), id)
  {
    assert !Threatens(s.jobs[k], id);
  }

  lemma FlagsStayQuiet(jobs: map<nat, Job>, other: string, id: string)
    requires Quiet(jobs, id)
    ensures Quiet(Flagged(jobs, other), id)
  {
  }

  /** A settled message stays settled and is never handled again, unless by hand. */
  lemma SettledStays(s: System, step: Step, lim: Limits, key: string)
    requires Inv(s, lim) && CanStep(s, step, lim) && lim.Valid() && Settled(s, key)
    requires !RetriesByHand(step, s.inbox.dedupe[key])
    ensures Settled(After(s, step), key) && After(s, step).inbox.dedupe[key] == s.inbox.dedupe[key]
    ensures After(s, step).successes[key] == s.successes[key]
  {
    var id := s.inbox.dedupe[key];
    ProcessedEndsIff(s, step, lim, id);
    StaysQuiet(s, step, lim, id);
    NoSuccessWhenQuiet(s, step, lim, id);
    NotOverwritten(s, step, id);
    KeepsEntry(s, step, lim, key);
    hide Inv, CanStep, After, Overwrites, Quiet;
  }

  lemma KeepsEntry(s: System, step: Step, lim: Limits, key: string)
    requires Agrees(s.inbox) && CanStep(s, step, lim) && key in s.inbox.dedupe
    ensures key in After(s, step).inbox.dedupe && After(s, step).inbox.dedupe[key] == s.inbox.dedupe[key]
  {
    hide AttemptedRow, RecordedRow, Assign, IsSelection, StrictTotal, AfterHandler, AfterWrite, One, Drifted, Flagged, Moved, IsNewRecord;
    if step.Deliver? { assert s.inbox.dedupe[key] != ""; }
  }

  lemma NotOverwritten(s: System, step: Step, id: string)
    requires Quiet(s.jobs, id)
    ensures !Overwrites(s, step, id)
  {
    if step.WriteFailure? && Sound(s, step.job) { assert !Threatens(s.jobs[step.job], id); }
    if step.AssignRecord? && Sound(s, step.job) { assert !Threatens(s.jobs[step.job], id); }
  }

  lemma NoSuccessWhenQuiet(s: System, step: Step, lim: Limits, id: string)
    requires Inv(s, lim) && CanStep(s, step, lim) && id in s.inbox.rows && Quiet(s.jobs, id)
    ensures After(s, step).successes[Identity(s.inbox.rows[id])] == s.successes[Identity(s.inbox.rows[id])]
  {
    if step.EndHandler? {
      JobAt(s, step.job, lim);
      assert !Threatens(s.jobs[step.job], id);
      SuccessOfAnother(s, step.job, step.attempt, id);
    }
  }

  lemma SuccessOfAnother(s: System, k: nat, a: Attempt, id: string)
    requires Agrees(s.inbox) && Sound(s, k) && s.jobs[k].phase.Running? && s.jobs[k].phase.id != id && id in s.inbox.rows
    ensures HandlerEnded(s, k, a).successes[Identity(s.inbox.rows[id])] == s.successes[Identity(s.inbox.rows[id])]
  {
    assert Identity(s.inbox.rows[id]) != Identity(s.inbox.rows[s.jobs[k].phase.id]);
  }

  /** No step of the continuation begins a manual retry of the row. */
  ghost predicate Spares(steps: seq<Step>, id: string) {
    forall step <- steps :: !RetriesByHand(step, id)
  }

  lemma {:induction false} SettledForGood(s: System, steps: seq<Step>, lim: Limits, key: string)
    requires Inv(s, lim) && CanFollow(s, steps, lim) && lim.Valid() && Settled(s, key) && Spares(steps, s.inbox.dedupe[key])
    ensures Follow(s, steps).successes[key] == s.successes[key]
    decreases |steps|
  {
    hide Inv, CanStep, After;
    if steps != [] {
      assert !RetriesByHand(steps[0], s.inbox.dedupe[key]);
      SettledStays(s, steps[0], lim, key);
      StepKeeps(s, steps[0], lim);
      assert forall step <- steps[1..] :: step in steps;
      SettledForGood(After(s, steps[0]), steps[1..], lim, key);
    }
  }

  // ---------------------------------------------------------------- whether a success settles

  /** The mark took effect or was not needed, the engine does not go on to the `catch` block, and
      the record does not come again in the same batch. */
  predicate MarkHolds(s: System, k: nat, a: Attempt)
    requires Sound(s, k)
  {
    match a.mark
    case Answered => s.jobs[k].phase.id !in Waiting(s.jobs[k])
    case DiedAfter => true
    case DiedBefore => s.inbox.rows[s.jobs[k].phase.id].status == Processed
    case _ => false
  }

  /** Right after a success the message is settled exactly when its mark holds and no
      other job threatens it. If only the reply was lost, it is settled once the failure write of
      the `catch` block fails to take effect. */
  lemma SuccessSettlesIff(s: System, k: nat, a: Attempt, lim: Limits)
    requires Inv(s, lim) && k in s.jobs && s.jobs[k].phase.Running? && a.outcome.Succeeds? && lim.Valid()
    ensures Sound(s, k) && CanStep(s, EndHandler(k, a), lim)
    ensures var s', id := After(s, EndHandler(k, a)), s.jobs[k].phase.id; var key := Identity(s.inbox.rows[id]);
      && s'.successes[key] == s.successes[key] + 1
      && (Settled(s', key) <==> MarkHolds(s, k, a) && Quiet(s.jobs - {k}, id))
      && (a.mark.ReplyLost? ==> SettledUnlessWritten(s', k, key, Quiet(s.jobs - {k}, id)))
  {
    JobAt(s, k, lim);
    SettledAfterHandler(s, k, a, lim);
    if a.mark.ReplyLost? {
      var s', id := After(s, EndHandler(k, a)), s.jobs[k].phase.id;
      ProcessedAfterSuccess(s, k, a, lim);
      StepKeeps(s, EndHandler(k, a), lim);
      assert s'.jobs - {k} == s.jobs - {k};
      hide Inv, IsProcessed, Quiet, RowInv;
      WriteSettlesIff(s', k, Identity(s.inbox.rows[id]), lim);
    }
    hide Inv, IsProcessed, Quiet, SettledUnlessWritten, Settled, RowInv;
  }

  lemma SettledAfterHandler(s: System, k: nat, a: Attempt, lim: Limits)
    requires Inv(s, lim) && Sound(s, k) && s.jobs[k].phase.Running? && a.outcome.Succeeds? && lim.Valid()
    ensures var id := s.jobs[k].phase.id;
      Settled(HandlerEnded(s, k, a), Identity(s.inbox.rows[id])) <==> MarkHolds(s, k, a) && Quiet(s.jobs - {k}, id)
  {
    ProcessedAfterSuccess(s, k, a, lim);
    QuietAfterMove(s.jobs, k, AfterHandler(s.jobs[k], a), s.jobs[k].phase.id);
    AfterHandlerThreatens(s.jobs[k], a);
    hide Inv, AttemptedRow, IsProcessed, Quiet, Threatens, AfterHandler, Identity, Replace, Moved, Waiting;
  }

  lemma AfterHandlerThreatens(t: Job, a: Attempt)
    requires t.phase.Running? && a.outcome.Succeeds?
    ensures (AfterHandler(t, a).Some? ==> !Threatens(AfterHandler(t, a).value, t.phase.id))
       <==> !Rejects(a.mark) && (a.mark.Answered? ==> t.phase.id !in Waiting(t))
  {
  }

  lemma ProcessedAfterSuccess(s: System, k: nat, a: Attempt, lim: Limits)
    requires Inv(s, lim) && Sound(s, k) && s.jobs[k].phase.Running? && a.outcome.Succeeds? && lim.Valid()
    ensures var s', id := HandlerEnded(s, k, a), s.jobs[k].phase.id; var key := Identity(s.inbox.rows[id]);
      && key in s'.inbox.dedupe && s'.inbox.dedupe[key] == id && id in s'.inbox.rows
      && s'.inbox.rows[id] == AttemptedRow(s.inbox.rows[id], a)
      && Identity(s'.inbox.rows[id]) == key
      && (IsProcessed(s'.inbox, key) <==> s.inbox.rows[id].status == Processed || Reaches(a.mark))
  {
    var id := s.jobs[k].phase.id;
    RowAt(s, id, lim);
    AttemptedRowKeeps(s.inbox.rows[id], s.ledgers[id], a, lim);
    EntryOf(s.inbox, id);
  }

  lemma EntryOf(inbox: Inbox, id: string)
    requires Agrees(inbox) && id in inbox.rows
    ensures Identity(inbox.rows[id]) in inbox.dedupe && inbox.dedupe[Identity(inbox.rows[id])] == id
  {
  }

  lemma QuietAfterMove(jobs: map<nat, Job>, k: nat, t: Option<Job>, id: string)
    ensures Quiet(Moved(jobs, k, t), id) <==> Quiet(jobs - {k}, id) && (t.Some? ==> !Threatens(t.value, id))
  {
    hide Threatens;
    var moved := Moved(jobs, k, t);
    if t.Some? {
      assert k in moved && moved[k] == t.value;
      assert forall i <- jobs - {k} :: i in moved && moved[i] == jobs[i];
    } else {
      assert moved == jobs - {k};
    }
  }

  /** The failure write to come decides whether the message is settled. */
  ghost predicate SettledUnlessWritten(s: System, k: nat, key: string, othersQuiet: bool) {
    && Sound(s, k) && s.jobs[k].phase.Catching?
    && forall w :: Settled(FailureWritten(s, k, w), key) <==> !Reaches(w.call) && othersQuiet
  }

  lemma WriteSettlesIff(s: System, k: nat, key: string, lim: Limits)
    requires Inv(s, lim) && Sound(s, k) && s.jobs[k].phase.Catching? && lim.Valid()
    requires var row := s.inbox.rows[s.jobs[k].phase.id]; row.status == Processed && key == Identity(row)
    ensures SettledUnlessWritten(s, k, key, Quiet(s.jobs - {k}, s.jobs[k].phase.id))
  {
    var t := s.jobs[k];
    var id := t.phase.id;
    var row := s.inbox.rows[id];
    JobAt(s, k, lim);
    assert Agrees(s.inbox) && s.inbox.dedupe[key] == id;
    forall w ensures Settled(FailureWritten(s, k, w), key) <==> !Reaches(w.call) && Quiet(s.jobs - {k}, id) {
      RecordedRowKeeps(row, s.ledgers[id], t.phase.handlerThrew, t.phase.error, w, t.maxRetries, lim);
      ReplaceProcessed(s.inbox, id, RecordedRow(row, t.phase.error, w, t.maxRetries), key);
      QuietAfterMove(s.jobs, k, AfterWrite(t, row, w), id);
      hide Inv, RecordedRow, IsProcessed, Quiet;
    }
  }
}
