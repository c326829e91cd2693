/** The inbox over whole runs: any number of deliveries, retry batches and manual retries at the
    same time, each of them interrupted at every `await`, with storage calls that fail or are
    never answered, and requeues and marks by administrators at any moment
    (libs/cap-core/src/engine/cap-engine.ts). */
module InboxRuns {
  import opened Basics
  import opened InboxTable
  import opened RetrySelection
  import opened InboxEngine

  // ---------------------------------------------------------------- the system

  /** Where a job stands: between two records of a batch (or done); in a handler; in the
      `catch` block, with the failure write to come; or after the answer of its last storage
      call, with assignments to a record to come that is the stored object itself. `requeued`
      tells whether the row was requeued since that call. */
  datatype Phase =
    | Between
    | Running(id: string, stored: bool)
    | Catching(id: string, stored: bool, error: string, handlerThrew: bool)
    | Assigning(id: string, to: Assignments, requeued: bool)

  /** A delivery, a retry batch with the copies still to handle, or a manual retry; the maximum
      is that of its engine. */
  datatype Job = Job(phase: Phase, rest: seq<Row>, maxRetries: int)

  /** What happened to the retry count of a row since it was saved or requeued: handler errors
      and unanswered marks caught, failure writes that never took effect, and what assignments
      to the stored object added to the count. `undone` counts those assignments that came
      after a requeue and undid it. */
  datatype Ledger = Ledger(thrown: nat, unanswered: nat, unrecorded: nat, drift: int, undone: nat)

  const NO_FAILURES := Ledger(0, 0, 0, 0, 0)

  /** By identity: `successes` of the handler; marks that were `lost` (they did not take effect,
      or were overwritten); successes `repeated` on a row already processed; and rows `granted`
      the status without a success, by hand or by late assignments. */
  datatype System = System(
    inbox: Inbox, jobs: map<nat, Job>, ledgers: map<string, Ledger>,
    successes: multiset<string>, lost: multiset<string>, repeated: multiset<string>, granted: multiset<string>)

  datatype Step =
    | Deliver(job: nat, row: Row, stored: bool, maxRetries: int)
    | OpenBatch(job: nat, less: IdOrder, batch: seq<Row>, limit: nat, now: Time, pendingBefore: Option<Time>, maxRetries: int)
    /** The next record of a batch, which is passed over without a subscription. */
    | TakeNext(job: nat, subscribed: bool)
    | RetryByHand(job: nat, id: string, stored: bool, maxRetries: int)
    | EndHandler(job: nat, attempt: Attempt)
    | WriteFailure(job: nat, write: Write)
    | AssignRecord(job: nat)
    /** A process dies with its jobs. */
    | Die(jobs: set<nat>)
    | RequeueRow(id: string, now: Time)
    | MarkByHand(id: string, at: Time)

  /** The record `persistReceived` builds. */
  ghost predicate IsNewRecord(row: Row) {
    && row.id != "" && row.status == Pending && row.retryCount == 0 && !row.processed
    && row.processedAt.None? && row.nextRetry.None?
  }

  ghost predicate CanStep(s: System, step: Step, lim: Limits) {
    match step
    case Deliver(k, row, _, maxRetries) =>
      k !in s.jobs && lim.Has(maxRetries) && IsNewRecord(row) && row.id !in s.inbox.rows
    case OpenBatch(k, less, batch, limit, now, pendingBefore, maxRetries) =>
      && k !in s.jobs && lim.Has(maxRetries) && StrictTotal(less, s.inbox.rows.Keys)
      && IsSelection(less, s.inbox.rows, limit, now, pendingBefore, batch)
    case TakeNext(k, _) => k in s.jobs && s.jobs[k].phase.Between? && s.jobs[k].rest != []
    case RetryByHand(k, id, _, maxRetries) => k !in s.jobs && lim.Has(maxRetries) && id in s.inbox.rows
    case EndHandler(k, _) => k in s.jobs && s.jobs[k].phase.Running?
    case WriteFailure(k, _) => k in s.jobs && s.jobs[k].phase.Catching?
    case AssignRecord(k) => k in s.jobs && s.jobs[k].phase.Assigning?
    case _ => true
  }

  function One(key: string, when: bool): multiset<string> {
    if when then multiset{key} else multiset{}
  }

  function Put(s: System, id: string, row: Row, l: Ledger): System {
    s.(inbox := Replace(s.inbox, id, row), ledgers := s.ledgers[id := l])
  }

  /** A job whose call was not answered, or that rejects, is gone, and its batch with it. */
  function Moved(jobs: map<nat, Job>, k: nat, t: Option<Job>): map<nat, Job> {
    if t.Some? then jobs[k := t.value] else jobs - {k}
  }

  function AttemptedRow(row: Row, a: Attempt): Row {
    if a.outcome.Succeeds? && Reaches(a.mark) then AsProcessed(row, a.at) else row
  }

  function AfterHandler(t: Job, a: Attempt): Option<Job>
    requires t.phase.Running?
  {
    var id, stored := t.phase.id, t.phase.stored;
    if Caught(a).Some? then Some(t.(phase := Catching(id, stored, Caught(a).value, a.outcome.Throws?)))
    else if !a.mark.Answered? then None
    else Some(t.(phase := if stored then Assigning(id, ToProcessed(a.at), false) else Between))
  }

  /** The end of a handler and, if it succeeded, its mark. */
  function HandlerEnded(s: System, k: nat, a: Attempt): System
    requires k in s.jobs && s.jobs[k].phase.Running?
    requires s.jobs[k].phase.id in s.inbox.rows && s.jobs[k].phase.id in s.ledgers
  {
    var id := s.jobs[k].phase.id;
    var row, success := s.inbox.rows[id], a.outcome.Succeeds?;
    var key := Identity(row);
    Put(s, id, AttemptedRow(row, a), s.ledgers[id]).(
      jobs := Moved(s.jobs, k, AfterHandler(s.jobs[k], a)),
      successes := s.successes + One(key, success),
      lost := s.lost + One(key, success && !Reaches(a.mark)),
      repeated := s.repeated + One(key, success && Reaches(a.mark) && row.status == Processed))
  }

  function RecordedRow(row: Row, error: string, w: Write, maxRetries: int): Row {
    if Reaches(w.call) then AsFailed(row, error, maxRetries, w.at + w.delay) else row
  }

  function Booked(l: Ledger, threw: bool, reached: bool): Ledger {
    l.(thrown := l.thrown + (if threw then 1 else 0), unanswered := l.unanswered + (if threw then 0 else 1),
       unrecorded := l.unrecorded + (if reached then 0 else 1))
  }

  function AfterWrite(t: Job, row: Row, w: Write): Option<Job>
    requires t.phase.Catching?
  {
    var to := ToFailed(row.retryCount + 1, t.phase.error, t.maxRetries, w.at + w.delay);
    if !w.call.Answered? then None
    else Some(t.(phase := if t.phase.stored then Assigning(t.phase.id, to, false) else Between))
  }

  /** The failure write of the `catch` block. */
  function FailureWritten(s: System, k: nat, w: Write): System
    requires k in s.jobs && s.jobs[k].phase.Catching?
    requires s.jobs[k].phase.id in s.inbox.rows && s.jobs[k].phase.id in s.ledgers
  {
    var t := s.jobs[k];
    var row := s.inbox.rows[t.phase.id];
    Put(s, t.phase.id, RecordedRow(row, t.phase.error, w, t.maxRetries), Booked(s.ledgers[t.phase.id], t.phase.handlerThrew, Reaches(w.call))).(
      jobs := Moved(s.jobs, k, AfterWrite(t, row, w)),
      lost := s.lost + One(Identity(row), Reaches(w.call) && row.status == Processed))
  }

  function Drifted(l: Ledger, row: Row, to: Assignments, requeued: bool): Ledger {
    if to.ToFailed? then l.(drift := l.drift + to.count - row.retryCount, undone := l.undone + if requeued then 1 else 0) else l
  }

  /** The assignments to a record that is the stored object itself. */
  function RecordAssigned(s: System, k: nat): System
    requires k in s.jobs && s.jobs[k].phase.Assigning?
    requires s.jobs[k].phase.id in s.inbox.rows && s.jobs[k].phase.id in s.ledgers
  {
    var p := s.jobs[k].phase;
    var row := s.inbox.rows[p.id];
    Put(s, p.id, Assign(row, p.to), Drifted(s.ledgers[p.id], row, p.to, p.requeued)).(
      jobs := s.jobs[k := s.jobs[k].(phase := Between)],
      lost := s.lost + One(Identity(row), p.to.ToFailed? && row.status == Processed),
      granted := s.granted + One(Identity(row), p.to.ToProcessed? && row.status != Processed))
  }

  function Delivered(s: System, k: nat, row: Row, stored: bool, maxRetries: int): System {
    if !TrySave(s.inbox, row).1.inserted then s
    else s.(inbox := TrySave(s.inbox, row).0,
            jobs := s.jobs[k := Job(Running(row.id, stored), [], maxRetries)],
            ledgers := s.ledgers[row.id := NO_FAILURES])
  }

  function NextTaken(s: System, k: nat, subscribed: bool): System
    requires k in s.jobs && s.jobs[k].rest != []
  {
    var t := s.jobs[k];
    s.(jobs := s.jobs[k := t.(phase := if subscribed then Running(t.rest[0].id, false) else Between, rest := t.rest[1..])])
  }

  function Flagged(jobs: map<nat, Job>, id: string): map<nat, Job> {
    map k | k in jobs :: FlaggedJob(jobs[k], id)
  }

  function FlaggedJob(t: Job, id: string): Job {
    if t.phase.Assigning? && t.phase.id == id then t.(phase := t.phase.(requeued := true)) else t
  }

  function Requeued(s: System, id: string, now: Time): System {
    if id in s.inbox.rows && CanRequeue(s.inbox.rows[id])
    then Put(s, id, AsRequeued(s.inbox.rows[id], now), NO_FAILURES).(jobs := Flagged(s.jobs, id))
    else s
  }

  function MarkedByHand(s: System, id: string, at: Time): System {
    if id !in s.inbox.rows || id !in s.ledgers then s
    else
      var row := s.inbox.rows[id];
      Put(s, id, AsProcessed(row, at), s.ledgers[id]).(
        granted := s.granted + One(Identity(row), row.status != Processed))
  }

  /** The row that a job is working on exists. */
  predicate Sound(s: System, k: nat) {
    k in s.jobs && !s.jobs[k].phase.Between? && s.jobs[k].phase.id in s.inbox.rows && s.jobs[k].phase.id in s.ledgers
  }

  function After(s: System, step: Step): System {
    match step
    case Deliver(k, row, stored, maxRetries) => Delivered(s, k, row, stored, maxRetries)
    case OpenBatch(k, _, batch, _, _, _, maxRetries) => s.(jobs := s.jobs[k := Job(Between, batch, maxRetries)])
    case TakeNext(k, subscribed) => if k in s.jobs && s.jobs[k].rest != [] then NextTaken(s, k, subscribed) else s
    case RetryByHand(k, id, stored, maxRetries) => s.(jobs := s.jobs[k := Job(Running(id, stored), [], maxRetries)])
    case EndHandler(k, a) => if Sound(s, k) && s.jobs[k].phase.Running? then HandlerEnded(s, k, a) else s
    case WriteFailure(k, w) => if Sound(s, k) && s.jobs[k].phase.Catching? then FailureWritten(s, k, w) else s
    case AssignRecord(k) => if Sound(s, k) && s.jobs[k].phase.Assigning? then RecordAssigned(s, k) else s
    case Die(jobs) => s.(jobs := s.jobs - jobs)
    case RequeueRow(id, now) => Requeued(s, id, now)
    case MarkByHand(id, at) => MarkedByHand(s, id, at)
  }

  // ---------------------------------------------------------------- the invariant

  /** Rows that wait for a first or another attempt. */
  predicate IsOpen(row: Row) {
    row.status == Pending || row.status == Failed
  }

  /** What the fields of a row say about each other and about the ledger. */
  predicate RowInv(row: Row, l: Ledger, lim: Limits) {
    && row.retryCount + l.unrecorded == l.thrown + l.unanswered + l.drift
    && (row.status == Processed ==> row.processed) && (row.processedAt.Some? <==> row.processed)
    && (row.nextRetry.Some? <==> row.status == Failed)
    && match row.status
       case Pending => row.retryCount == 0
       case Failed => row.retryCount < lim.greatest
       case DeadLetter => row.retryCount >= lim.least
       case Processed => true
       case Processing => false
  }

  ghost predicate RowsInv(inbox: Inbox, ledgers: map<string, Ledger>, lim: Limits) {
    && ledgers.Keys == inbox.rows.Keys
    && forall id <- inbox.rows :: RowInv(inbox.rows[id], ledgers[id], lim)
  }

  ghost predicate IsProcessed(s: Inbox, key: string) {
    key in s.dedupe && s.dedupe[key] in s.rows && s.rows[s.dedupe[key]].status == Processed
  }

  function Unit(b: bool): nat {
    if b then 1 else 0
  }

  /** Every success, and every status granted without one, was lost, was a repetition, or shows
      in the row. */
  ghost predicate CountsSuccesses(s: System) {
    forall key :: s.successes[key] + s.granted[key] == s.lost[key] + s.repeated[key] + Unit(IsProcessed(s.inbox, key))
  }

  ghost predicate JobInv(ids: set<string>, t: Job, lim: Limits) {
    && lim.Has(t.maxRetries) && (!t.phase.Between? ==> t.phase.id in ids)
    && (t.phase.Assigning? && t.phase.to.ToFailed? ==> lim.Has(t.phase.to.maxRetries))
    && forall x <- t.rest :: x.id in ids
  }

  ghost predicate JobsInv(ids: set<string>, jobs: map<nat, Job>, lim: Limits) {
    forall k <- jobs :: JobInv(ids, jobs[k], lim)
  }

  ghost predicate Inv(s: System, lim: Limits) {
    && Agrees(s.inbox) && RowsInv(s.inbox, s.ledgers, lim) && CountsSuccesses(s)
    && JobsInv(s.inbox.rows.Keys, s.jobs, lim)
  }

  // ---------------------------------------------------------------- changing one row

  /** Replacing a row changes whether its own identity is processed, and no other. */
  lemma ReplaceProcessed(inbox: Inbox, id: string, row: Row, key: string)
    requires Agrees(inbox) && id in inbox.rows && SameIdentity(inbox.rows[id], row)
    ensures Agrees(Replace(inbox, id, row))
    ensures IsProcessed(Replace(inbox, id, row), key)
       <==> if key == Identity(row) then row.status == Processed else IsProcessed(inbox, key)
    ensures IsProcessed(inbox, Identity(row)) <==> inbox.rows[id].status == Processed
  {
    ReplaceKeepsAgreement(inbox, id, row);
  }

  /** How the counters of the row's identity go up in one step. */
  datatype Counted = Counted(success: bool, lost: bool, repeated: bool, granted: bool)

  /** `s'` is `s` with one row replaced, its ledger and its counters. */
  ghost predicate OneRowChanged(s: System, s': System, id: string, row: Row, l: Ledger, n: Counted) {
    && s'.inbox == Replace(s.inbox, id, row) && s'.ledgers == s.ledgers[id := l]
    && s'.successes == s.successes + One(Identity(row), n.success) && s'.lost == s.lost + One(Identity(row), n.lost)
    && s'.repeated == s.repeated + One(Identity(row), n.repeated) && s'.granted == s.granted + One(Identity(row), n.granted)
  }

  predicate Balanced(before: Row, row: Row, n: Counted) {
    Unit(n.success) + Unit(n.granted) + Unit(before.status == Processed)
    == Unit(n.lost) + Unit(n.repeated) + Unit(row.status == Processed)
  }

  lemma CountsKept(s: System, s': System, id: string, row: Row, l: Ledger, n: Counted)
    requires Agrees(s.inbox) && CountsSuccesses(s) && id in s.inbox.rows && SameIdentity(s.inbox.rows[id], row)
    requires OneRowChanged(s, s', id, row, l, n) && Balanced(s.inbox.rows[id], row, n)
    ensures CountsSuccesses(s')
  {
    hide IsProcessed, Agrees;
    forall key ensures s'.successes[key] + s'.granted[key] == s'.lost[key] + s'.repeated[key] + Unit(IsProcessed(s'.inbox, key)) {
      ReplaceProcessed(s.inbox, id, row, key);
      assert s.successes[key] + s.granted[key] == s.lost[key] + s.repeated[key] + Unit(IsProcessed(s.inbox, key));
    }
  }

  lemma RowsKept(inbox: Inbox, ledgers: map<string, Ledger>, id: string, row: Row, l: Ledger, lim: Limits)
    requires RowsInv(inbox, ledgers, lim) && id in inbox.rows && RowInv(row, l, lim)
    ensures RowsInv(Replace(inbox, id, row), ledgers[id := l], lim)
  {
    hide RowInv;
  }

  lemma OneRowKeeps(s: System, s': System, id: string, row: Row, l: Ledger, n: Counted, lim: Limits)
    requires Inv(s, lim) && id in s.inbox.rows && SameIdentity(s.inbox.rows[id], row) && RowInv(row, l, lim)
    requires OneRowChanged(s, s', id, row, l, n) && Balanced(s.inbox.rows[id], row, n)
    requires JobsInv(s.inbox.rows.Keys, s'.jobs, lim)
    ensures Inv(s', lim)
  {
    hide CountsSuccesses, RowInv, Agrees, Balanced, JobInv, Identity;
    CountsKept(s, s', id, row, l, n);
    ReplaceKeepsAgreement(s.inbox, id, row);
    RowsKept(s.inbox, s.ledgers, id, row, l, lim);
    assert s'.inbox.rows.Keys == s.inbox.rows.Keys;
  }

  // ---------------------------------------------------------------- every step keeps it

  lemma RowAt(s: System, id: string, lim: Limits)
    requires Inv(s, lim) && id in s.inbox.rows
    ensures id in s.ledgers && RowInv(s.inbox.rows[id], s.ledgers[id], lim)
  {
  }

  lemma JobAt(s: System, k: nat, lim: Limits)
    requires Inv(s, lim) && k in s.jobs
    ensures JobInv(s.inbox.rows.Keys, s.jobs[k], lim)
    ensures !s.jobs[k].phase.Between? ==> Sound(s, k) && RowInv(s.inbox.rows[s.jobs[k].phase.id], s.ledgers[s.jobs[k].phase.id], lim)
  {
    assert JobInv(s.inbox.rows.Keys, s.jobs[k], lim);
    if !s.jobs[k].phase.Between? { RowAt(s, s.jobs[k].phase.id, lim); }
  }

  lemma JobsKept(s: System, k: nat, t: Option<Job>, lim: Limits)
    requires Inv(s, lim) && (t.Some? ==> JobInv(s.inbox.rows.Keys, t.value, lim))
    ensures JobsInv(s.inbox.rows.Keys, Moved(s.jobs, k, t), lim)
  {
    hide JobInv;
  }

  lemma AttemptedRowKeeps(row: Row, l: Ledger, a: Attempt, lim: Limits)
    requires RowInv(row, l, lim)
    ensures RowInv(AttemptedRow(row, a), l, lim) && SameIdentity(row, AttemptedRow(row, a))
    ensures AttemptedRow(row, a).status == Processed <==> row.status == Processed || (a.outcome.Succeeds? && Reaches(a.mark))
  {
  }

  lemma HandlerEndedKeeps(s: System, k: nat, a: Attempt, lim: Limits)
    requires Inv(s, lim) && k in s.jobs && s.jobs[k].phase.Running?
    ensures Sound(s, k) && Inv(HandlerEnded(s, k, a), lim)
  {
    JobAt(s, k, lim);
    var id := s.jobs[k].phase.id;
    var row, s', success := s.inbox.rows[id], HandlerEnded(s, k, a), a.outcome.Succeeds?;
    AttemptedRowKeeps(row, s.ledgers[id], a, lim);
    JobsKept(s, k, AfterHandler(s.jobs[k], a), lim);
    hide Inv, RowInv, AttemptedRow, JobsInv, Moved;
    var n := Counted(success, success && !Reaches(a.mark), success && Reaches(a.mark) && row.status == Processed, false);
    OneRowKeeps(s, s', id, AttemptedRow(row, a), s.ledgers[id], n, lim);
  }

  lemma RecordedRowKeeps(row: Row, l: Ledger, threw: bool, error: string, w: Write, maxRetries: int, lim: Limits)
    requires RowInv(row, l, lim) && lim.Valid() && lim.Has(maxRetries)
    ensures RowInv(RecordedRow(row, error, w, maxRetries), Booked(l, threw, Reaches(w.call)), lim)
    ensures SameIdentity(row, RecordedRow(row, error, w, maxRetries))
    ensures RecordedRow(row, error, w, maxRetries).status == Processed <==> row.status == Processed && !Reaches(w.call)
  {
  }

  lemma FailureWrittenKeeps(s: System, k: nat, w: Write, lim: Limits)
    requires Inv(s, lim) && k in s.jobs && s.jobs[k].phase.Catching? && lim.Valid()
    ensures Sound(s, k) && Inv(FailureWritten(s, k, w), lim)
  {
    JobAt(s, k, lim);
    var t := s.jobs[k];
    var id := t.phase.id;
    var row, l, s' := s.inbox.rows[id], s.ledgers[id], FailureWritten(s, k, w);
    RecordedRowKeeps(row, l, t.phase.handlerThrew, t.phase.error, w, t.maxRetries, lim);
    JobsKept(s, k, AfterWrite(t, row, w), lim);
    hide Inv, RowInv, RecordedRow, JobsInv, Moved, AfterWrite;
    var l' := Booked(l, t.phase.handlerThrew, Reaches(w.call));
    var n := Counted(false, Reaches(w.call) && row.status == Processed, false, false);
    OneRowKeeps(s, s', id, RecordedRow(row, t.phase.error, w, t.maxRetries), l', n, lim);
  }

  lemma AssignedRowKeeps(row: Row, l: Ledger, to: Assignments, requeued: bool, lim: Limits)
    requires RowInv(row, l, lim) && lim.Valid() && (to.ToFailed? ==> lim.Has(to.maxRetries))
    ensures RowInv(Assign(row, to), Drifted(l, row, to, requeued), lim) && SameIdentity(row, Assign(row, to))
    ensures Assign(row, to).status == Processed <==> to.ToProcessed?
  {
  }

  lemma RecordAssignedKeeps(s: System, k: nat, lim: Limits)
    requires Inv(s, lim) && k in s.jobs && s.jobs[k].phase.Assigning? && lim.Valid()
    ensures Sound(s, k) && Inv(RecordAssigned(s, k), lim)
  {
    JobAt(s, k, lim);
    var p := s.jobs[k].phase;
    var row, l, s' := s.inbox.rows[p.id], s.ledgers[p.id], RecordAssigned(s, k);
    AssignedRowKeeps(row, l, p.to, p.requeued, lim);
    JobsKept(s, k, Some(s.jobs[k].(phase := Between)), lim);
    hide Inv, RowInv, Assign, Drifted, JobsInv;
    var n := Counted(false, p.to.ToFailed? && row.status == Processed, false, p.to.ToProcessed? && row.status != Processed);
    OneRowKeeps(s, s', p.id, Assign(row, p.to), Drifted(l, row, p.to, p.requeued), n, lim);
  }

  lemma RequeuedKeeps(s: System, id: string, now: Time, lim: Limits)
    requires Inv(s, lim) && lim.Valid()
    ensures Inv(Requeued(s, id, now), lim)
  {
    if id in s.inbox.rows && CanRequeue(s.inbox.rows[id]) {
      var row, s' := s.inbox.rows[id], Requeued(s, id, now);
      forall k <- s'.jobs ensures JobInv(s.inbox.rows.Keys, s'.jobs[k], lim) {
        JobAt(s, k, lim);
      }
      hide Inv;
      OneRowKeeps(s, s', id, AsRequeued(row, now), NO_FAILURES, Counted(false, false, false, false), lim);
    }
  }

  lemma MarkedByHandKeeps(s: System, id: string, at: Time, lim: Limits)
    requires Inv(s, lim)
    ensures Inv(MarkedByHand(s, id, at), lim)
  {
    if id in s.inbox.rows {
      var row, s' := s.inbox.rows[id], MarkedByHand(s, id, at);
      RowAt(s, id, lim);
      hide RowsInv, CountsSuccesses, Agrees;
      OneRowKeeps(s, s', id, AsProcessed(row, at), s.ledgers[id], Counted(false, false, false, row.status != Processed), lim);
    }
  }

  lemma DeliveredKeeps(s: System, k: nat, row: Row, stored: bool, maxRetries: int, lim: Limits)
    requires Inv(s, lim) && lim.Valid() && lim.Has(maxRetries) && IsNewRecord(row) && row.id !in s.inbox.rows
    ensures Inv(Delivered(s, k, row, stored, maxRetries), lim)
  {
    DeliveredRows(s, k, row, stored, maxRetries, lim);
    DeliveredCounts(s, k, row, stored, maxRetries);
    DeliveredJobs(s, k, row, stored, maxRetries, lim);
    hide RowsInv, CountsSuccesses, JobsInv, Agrees, Delivered;
  }

  lemma DeliveredRows(s: System, k: nat, row: Row, stored: bool, maxRetries: int, lim: Limits)
    requires Agrees(s.inbox) && RowsInv(s.inbox, s.ledgers, lim) && IsNewRecord(row) && row.id !in s.inbox.rows
    ensures var s' := Delivered(s, k, row, stored, maxRetries); Agrees(s'.inbox) && RowsInv(s'.inbox, s'.ledgers, lim)
  {
    TrySaveDeduplicates(s.inbox, row);
    assert RowInv(row, NO_FAILURES, lim);
    hide RowInv, Agrees, Identity;
  }

  lemma DeliveredJobs(s: System, k: nat, row: Row, stored: bool, maxRetries: int, lim: Limits)
    requires JobsInv(s.inbox.rows.Keys, s.jobs, lim) && lim.Has(maxRetries)
    ensures var s' := Delivered(s, k, row, stored, maxRetries); JobsInv(s'.inbox.rows.Keys, s'.jobs, lim)
  {
    hide Identity;
    var s' := Delivered(s, k, row, stored, maxRetries);
    forall i <- s'.jobs ensures JobInv(s'.inbox.rows.Keys, s'.jobs[i], lim) {
      if i in s.jobs { assert JobInv(s.inbox.rows.Keys, s.jobs[i], lim); }
    }
  }

  lemma DeliveredCounts(s: System, k: nat, row: Row, stored: bool, maxRetries: int)
    requires Agrees(s.inbox) && CountsSuccesses(s) && IsNewRecord(row) && row.id !in s.inbox.rows
    ensures CountsSuccesses(Delivered(s, k, row, stored, maxRetries))
  {
    var s' := Delivered(s, k, row, stored, maxRetries);
    forall key ensures IsProcessed(s'.inbox, key) <==> IsProcessed(s.inbox, key) {
    }
  }

  lemma SelectionIsJob(s: System, less: IdOrder, batch: seq<Row>, limit: nat, now: Time, pendingBefore: Option<Time>,
                        maxRetries: int, lim: Limits)
    requires IsSelection(less, s.inbox.rows, limit, now, pendingBefore, batch) && lim.Has(maxRetries)
    ensures JobInv(s.inbox.rows.Keys, Job(Between, batch, maxRetries), lim)
  {
  }

  lemma NextTakenKeeps(s: System, k: nat, subscribed: bool, lim: Limits)
    requires Inv(s, lim) && k in s.jobs && s.jobs[k].phase.Between? && s.jobs[k].rest != []
    ensures Inv(NextTaken(s, k, subscribed), lim)
  {
    var t := s.jobs[k];
    assert JobInv(s.inbox.rows.Keys, t, lim) && t.rest[0] in t.rest && forall x <- t.rest[1..] :: x in t.rest;
    hide RowsInv, CountsSuccesses, Agrees;
  }

  /** Every step keeps the invariant. */
  lemma StepKeeps(s: System, step: Step, lim: Limits)
    requires Inv(s, lim) && CanStep(s, step, lim) && lim.Valid()
    ensures Inv(After(s, step), lim)
  {
    match step
    case Deliver(k, row, stored, maxRetries) => DeliveredKeeps(s, k, row, stored, maxRetries, lim);
    case OpenBatch(k, less, batch, limit, now, pendingBefore, maxRetries) =>
      SelectionIsJob(s, less, batch, limit, now, pendingBefore, maxRetries, lim);
    case TakeNext(k, subscribed) => NextTakenKeeps(s, k, subscribed, lim);
    case EndHandler(k, a) => HandlerEndedKeeps(s, k, a, lim);
    case WriteFailure(k, w) => FailureWrittenKeeps(s, k, w, lim);
    case AssignRecord(k) => RecordAssignedKeeps(s, k, lim);
    case RequeueRow(id, now) => RequeuedKeeps(s, id, now, lim);
    case MarkByHand(id, at) => MarkedByHandKeeps(s, id, at, lim);
    case _ =>
  }
}
