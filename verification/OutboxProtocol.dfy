/** Any number of claimants, scheduler instances running `dispatchOutboxBatch` and
    dashboards running `flushOutbox`, sharing one outbox with immediate publishes and manual
    requeues (libs/cap-core/src/engine/cap-engine.ts:675-976,
    libs/cap-dashboard-core/src/dashboard.service.ts:233-379).

    A claimant is a small program.  Between any two of its steps the clock may advance and
    every other actor may act; it samples the clock before it makes the call that uses the
    sample; a storage call may fail before or after it took effect; and a claimant may stop
    for good at any point. */
module OutboxProtocol {
  import opened Basics
  import opened OutboxStore
  import opened OutboxHistory
  import opened OutboxCore
  import H = Heartbeat

  /** One claimant's settings; engines and dashboards differ only in these. Each has its own
      maximum: an engine that of its scheduler options, a dashboard 3 unless it is given one. */
  datatype Claimant = Claimant(leaseMs: nat, limit: int, maxRetries: int)

  /** The claimants, and bounds of everybody's maximum. */
  datatype Config = Config(claimants: map<nat, Claimant>, limits: Limits)
  {
    ghost predicate Valid() {
      limits.Valid() && forall w <- claimants :: limits.Has(claimants[w].maxRetries)
    }
  }

  datatype Call = NoCall | Sent(now: Time) | Answered(renewal: H.Renewal)

  /** Progress on the first row still to do. */
  datatype Item =
    | NotBegun
    | Renewing(now: Time)
    | Granted(deadline: Time)
    | Emitting(beat: H.State, call: Call)
    | Finished(outcome: H.Outcome)
    | Writing(outcome: H.Outcome, now: Time)

  datatype Phase =
    | Idle
    | Sampled(now: Time)
    | ExpiredReleased(now: Time)
    | Batch(token: string, since: Time, todo: seq<Row>, item: Item)

  datatype State = State(core: Core, phases: map<nat, Phase>)

  datatype Action =
    | BeginRound
    | ReleaseExpired
    | ClaimBatch(token: string)
    | BeginItem
    | RenewFirst(fault: Fault)
    | StartEmit
    | BeatFires
    | BeatRenews(fault: Fault)
    | BeatSettles
    | EmitSettles(outcome: H.Outcome)
    | BeginWrite
    | FencedWrite(error: string, nextRetryAt: Time, fault: Fault)
    | Crash

  datatype Step =
    | Tick(to: Time)
    | Publish(id: string, topic: string, payload: string)
    | UnfencedWrite(id: string, write: Completion, maxRetries: int)
    | ManualRequeue(id: string, now: Time)
    | Act(w: nat, action: Action)

  predicate AtItem(p: Phase) {
    p.Batch? && |p.todo| > 0
  }

  predicate CanAct(c: Core, p: Phase, a: Action) {
    match a
    case BeginRound => p.Idle?
    case ReleaseExpired => p.Sampled?
    case ClaimBatch(token) => p.ExpiredReleased? && token !in c.tokens
    case BeginItem => p.Batch? && p.item.NotBegun?
    case RenewFirst(_) => AtItem(p) && p.item.Renewing?
    case StartEmit => AtItem(p) && p.item.Granted?
    case BeatFires => AtItem(p) && p.item.Emitting? && H.Enabled(p.item.beat, H.TimerFires)
    case BeatRenews(_) => AtItem(p) && p.item.Emitting? && p.item.call.Sent?
    case BeatSettles => AtItem(p) && p.item.Emitting? && p.item.call.Answered? && p.item.beat.inFlight
    case EmitSettles(o) => AtItem(p) && p.item.Emitting? && H.Enabled(p.item.beat, H.OperationSettles(o))
    case BeginWrite => AtItem(p) && p.item.Finished?
    case FencedWrite(_, _, _) => AtItem(p) && p.item.Writing?
    case Crash => true
  }

  predicate Enabled(cfg: Config, s: State, step: Step) {
    match step
    case Tick(to) => s.core.clock <= to
    case Publish(id, _, _) => id !in s.core.table.rows
    case UnfencedWrite(_, _, maxRetries) => cfg.limits.Has(maxRetries)
    case ManualRequeue(_, _) => true
    case Act(w, a) => w in cfg.claimants && w in s.phases && CanAct(s.core, s.phases[w], a)
  }

  /** A renewal call: what the store does, and what the caller is told. */
  function RenewCall(c: Core, id: string, token: string, now: Time, until: Time, fault: Fault): (Core, H.Renewal) {
    var (after, renewed) := RenewFor(c, id, token, now, until);
    match fault
    case Healthy => (after, if renewed then H.Kept else H.Refused)
    case RequestLost => (c, H.Threw)
    case ReplyLost => (after, H.Threw)
  }

  function CompletionFor(outcome: H.Outcome, now: Time, error: string, nextRetryAt: Time): Completion {
    if outcome == H.Fulfilled then Success(now) else Failure(error, nextRetryAt)
  }

  /** What a claimant's action does to the store and to the record of events. */
  function Effect(me: Claimant, c: Core, p: Phase, a: Action): Core
    requires c.table.Valid() && CanAct(c, p, a)
  {
    match a
    case ReleaseExpired => ReleaseAt(c, p.now)
    case ClaimBatch(token) => ClaimFor(c, p.now, me.limit, token, p.now + me.leaseMs)
    case RenewFirst(fault) =>
      RenewCall(c, p.todo[0].id, p.token, p.item.now, p.item.now + me.leaseMs, fault).0
    case StartEmit => Record(c, EmitStarted(p.todo[0].id, p.token, c.clock, p.item.deadline))
    case BeatRenews(fault) =>
      RenewCall(c, p.todo[0].id, p.token, p.item.call.now, p.item.call.now + me.leaseMs, fault).0
    case EmitSettles(o) => if o == H.Fulfilled then Record(c, EmitFulfilled(p.todo[0].id, p.token)) else c
    case FencedWrite(error, retryAt, fault) =>
      if fault == RequestLost then c
      else SettleFor(c, p.todo[0], p.token, CompletionFor(p.item.outcome, p.item.now, error, retryAt), me.maxRetries).0
    case _ => c
  }

  /** Go on to the next row of the batch. */
  function Advance(p: Phase): Phase
    requires p.Batch? && |p.todo| > 0
  {
    p.(todo := p.todo[1..], item := NotBegun)
  }

  /** The heartbeat has reached `beat`: when it has returned, a lost lease skips the
      completion write. */
  function AfterBeat(p: Phase, beat: H.State, call: Call): Phase
    requires p.Batch? && |p.todo| > 0
  {
    if !beat.Returned() then p.(item := Emitting(beat, call))
    else if beat.ownershipLost || beat.operation.None? then Advance(p)
    else p.(item := Finished(beat.operation.value))
  }

  /** Where the action leaves the claimant. */
  function Progress(me: Claimant, c: Core, p: Phase, a: Action): Phase
    requires c.table.Valid() && CanAct(c, p, a)
  {
    match a
    case BeginRound => Sampled(c.clock)
    case ReleaseExpired => ExpiredReleased(p.now)
    case ClaimBatch(token) =>
      Batch(token, p.now, Claim(c.table, p.now, me.limit, token, p.now + me.leaseMs).1, NotBegun)
    case BeginItem =>
      if |p.todo| == 0 then Idle
      else if p.todo[0].lockedBy != Some(p.token) then Advance(p)
      else p.(item := Renewing(c.clock))
    case RenewFirst(fault) =>
      var until := p.item.now + me.leaseMs;
      if RenewCall(c, p.todo[0].id, p.token, p.item.now, until, fault).1 == H.Kept
      then p.(item := Granted(until)) else Advance(p)
    case StartEmit => p.(item := Emitting(H.Begin(true), NoCall))
    case BeatFires => p.(item := Emitting(H.Next(p.item.beat, H.TimerFires), Sent(c.clock)))
    case BeatRenews(fault) =>
      var answer := RenewCall(c, p.todo[0].id, p.token, p.item.call.now, p.item.call.now + me.leaseMs, fault).1;
      p.(item := Emitting(p.item.beat, Answered(answer)))
    case BeatSettles => AfterBeat(p, H.Next(p.item.beat, H.RenewalSettles(p.item.call.renewal)), NoCall)
    case EmitSettles(o) => AfterBeat(p, H.Next(p.item.beat, H.OperationSettles(o)), p.item.call)
    case BeginWrite => p.(item := Writing(p.item.outcome, c.clock))
    case FencedWrite(_, _, fault) => if fault == Healthy then Advance(p) else Idle
    case Crash => Idle
  }

  function Next(cfg: Config, s: State, step: Step): State
    requires s.core.table.Valid() && Enabled(cfg, s, step)
  {
    var c := s.core;
    match step
    case Tick(to) => s.(core := c.(clock := to))
    case Publish(id, topic, payload) => s.(core := SaveNew(c, id, topic, payload))
    case UnfencedWrite(id, w, maxRetries) => s.(core := Overwrite(c, id, w, maxRetries))
    case ManualRequeue(id, now) => s.(core := RequeueNow(c, id, now))
    case Act(w, a) =>
      State(Effect(cfg.claimants[w], c, s.phases[w], a),
            s.phases[w := Progress(cfg.claimants[w], c, s.phases[w], a)])
  }

  // ----- the invariant -----

  ghost predicate ItemInv(c: Core, b: Phase)
    requires b.Batch? && |b.todo| > 0
  {
    var id, h := b.todo[0].id, c.history;
    match b.item
    case NotBegun => true
    case Renewing(now) => b.since <= now <= c.clock
    case Granted(deadline) => Deadline(h, id, b.token) == Some(deadline)
    case Emitting(beat, call) =>
      && !beat.Returned()
      && (call.NoCall? <==> !beat.inFlight)
      && (call.Sent? ==> b.since <= call.now <= c.clock)
      && (beat.operation == Some(H.Fulfilled) ==> FulfilledIn(h, id, b.token))
      && (beat.operation.None? <==> !beat.stopped)
    case Finished(outcome) => outcome == H.Fulfilled ==> FulfilledIn(h, id, b.token)
    case Writing(outcome, now) => now <= c.clock && (outcome == H.Fulfilled ==> FulfilledIn(h, id, b.token))
  }

  predicate EmitBegun(item: Item) {
    item.Emitting? || item.Finished? || item.Writing?
  }

  /** The rows a claimant still has to do are its own claims, not yet settled, and only the
      first of them may have been emitted. */
  ghost predicate TodoInv(c: Core, b: Phase, k: nat)
    requires b.Batch? && k < |b.todo|
  {
    var copy, h := b.todo[k], c.history;
    && ClaimCopy(h, copy.id, b.token) == Some(copy)
    && DueBy(copy, b.since)
    && !SettledIn(h, copy.id, b.token)
    && (StartedIn(h, copy.id, b.token) <==> k == 0 && EmitBegun(b.item))
  }

  ghost predicate PhaseInv(c: Core, p: Phase) {
    match p
    case Idle => true
    case Sampled(now) => now <= c.clock
    case ExpiredReleased(now) => now <= c.clock
    case Batch(token, since, todo, item) =>
      && token in c.tokens && since <= c.clock
      && (forall k :: 0 <= k < |todo| ==> TodoInv(c, p, k))
      && (forall j, k :: 0 <= j < k < |todo| ==> todo[j].id != todo[k].id)
      && (if |todo| == 0 then item.NotBegun? else ItemInv(c, p))
  }

  ghost predicate StateInv(cfg: Config, s: State) {
    && Inv(s.core, cfg.limits)
    && (forall w :: w in s.phases ==> PhaseInv(s.core, s.phases[w]))
    && (forall v, w :: IsBatch(s, v) && IsBatch(s, w) && v != w ==> s.phases[v].token != s.phases[w].token)
  }

  predicate IsBatch(s: State, w: nat) {
    w in s.phases && s.phases[w].Batch?
  }

  /** What one actor's write means for another claimant: nothing it relies on changes. */
  ghost predicate Undisturbed(c: Core, c': Core, token: string) {
    && c.clock <= c'.clock && c.tokens <= c'.tokens
    && (forall id ::
          && ClaimCopy(c'.history, id, token) == ClaimCopy(c.history, id, token)
          && Deadline(c'.history, id, token) == Deadline(c.history, id, token)
          && SettledIn(c'.history, id, token) == SettledIn(c.history, id, token)
          && StartedIn(c'.history, id, token) == StartedIn(c.history, id, token)
          && FulfilledIn(c'.history, id, token) == FulfilledIn(c.history, id, token))
  }

  lemma OthersKeep(c: Core, c': Core, p: Phase)
    requires PhaseInv(c, p) && c.clock <= c'.clock
    requires p.Batch? ==> Undisturbed(c, c', p.token)
    ensures PhaseInv(c', p)
  {
    if p.Batch? {
      forall k | 0 <= k < |p.todo| ensures TodoInv(c', p, k) {
        assert TodoInv(c, p, k);
      }
    }
  }

  // ----- one step keeps the invariant -----

  lemma RenewCallKeeps(c: Core, id: string, token: string, now: Time, until: Time, fault: Fault, lim: Limits)
    requires Inv(c, lim)
    requires ClaimCopy(c.history, id, token).Some? ==> DueBy(ClaimCopy(c.history, id, token).value, until)
    ensures var (after, answer) := RenewCall(c, id, token, now, until, fault);
      && Inv(after, lim)
      && (answer == H.Kept ==> Deadline(after.history, id, token) == Some(until))
  {
    RenewKeeps(c, id, token, now, until, lim);
  }

  lemma RenewalEffectKeeps(lim: Limits, me: Claimant, c: Core, p: Phase, a: Action)
    requires Inv(c, lim) && c.table.Valid() && CanAct(c, p, a) && (a.RenewFirst? || a.BeatRenews?)
    requires TodoInv(c, p, 0) && ItemInv(c, p)
    ensures Inv(Effect(me, c, p, a), lim)
  {
    hide Inv;
    var now := if a.RenewFirst? then p.item.now else p.item.call.now;
    RenewCallKeeps(c, p.todo[0].id, p.token, now, now + me.leaseMs, a.fault, lim);
  }

  lemma EmissionEffectKeeps(lim: Limits, me: Claimant, c: Core, p: Phase, a: Action)
    requires Inv(c, lim) && c.table.Valid() && CanAct(c, p, a) && (a.StartEmit? || a.EmitSettles?)
    requires TodoInv(c, p, 0)
    ensures Inv(Effect(me, c, p, a), lim)
  {
    hide Inv;
    if a.StartEmit? {
      NoteKeeps(c, EmitStarted(p.todo[0].id, p.token, c.clock, p.item.deadline), lim);
    } else {
      NoteKeeps(c, EmitFulfilled(p.todo[0].id, p.token), lim);
    }
  }

  lemma WriteEffectKeeps(lim: Limits, me: Claimant, c: Core, p: Phase, a: Action)
    requires lim.Valid() && lim.Has(me.maxRetries) && Inv(c, lim) && c.table.Valid() && CanAct(c, p, a) && a.FencedWrite?
    requires TodoInv(c, p, 0)
    ensures Inv(Effect(me, c, p, a), lim)
  {
    hide Inv;
    SettleKeeps(c, p.todo[0], p.token, CompletionFor(p.item.outcome, p.item.now, a.error, a.nextRetryAt), me.maxRetries, lim);
  }

  lemma RoundEffectKeeps(lim: Limits, me: Claimant, c: Core, p: Phase, a: Action)
    requires Inv(c, lim) && c.table.Valid() && CanAct(c, p, a) && PhaseInv(c, p)
    requires a.ReleaseExpired? || a.ClaimBatch?
    ensures Inv(Effect(me, c, p, a), lim)
  {
    hide Inv;
    if a.ReleaseExpired? {
      ReleaseKeeps(c, p.now, lim);
    } else {
      ClaimKeeps(c, p.now, me.limit, a.token, p.now + me.leaseMs, lim);
    }
  }

  lemma FirstItem(c: Core, p: Phase)
    requires PhaseInv(c, p) && AtItem(p)
    ensures TodoInv(c, p, 0) && ItemInv(c, p)
  {
  }

  lemma EffectKeeps(lim: Limits, me: Claimant, c: Core, p: Phase, a: Action)
    requires lim.Valid() && lim.Has(me.maxRetries) && Inv(c, lim) && PhaseInv(c, p) && CanAct(c, p, a)
    ensures Inv(Effect(me, c, p, a), lim)
  {
    assert c.table.Valid();
    hide Inv, PhaseInv, TodoInv, ItemInv, CanAct;
    if AtItem(p) { FirstItem(c, p); }
    if a.ReleaseExpired? || a.ClaimBatch? {
      RoundEffectKeeps(lim, me, c, p, a);
    } else if a.RenewFirst? || a.BeatRenews? {
      RenewalEffectKeeps(lim, me, c, p, a);
    } else if a.StartEmit? || a.EmitSettles? {
      EmissionEffectKeeps(lim, me, c, p, a);
    } else if a.FencedWrite? {
      WriteEffectKeeps(lim, me, c, p, a);
    }
  }

  /** The token an action writes under. */
  function Writer(p: Phase, a: Action): Option<string> {
    if a.ClaimBatch? then Some(a.token) else if p.Batch? then Some(p.token) else None
  }

  lemma EffectDisturbsOnlyWriter(lim: Limits, me: Claimant, c: Core, p: Phase, a: Action, token: string)
    requires c.table.Valid() && CanAct(c, p, a) && Writer(p, a) != Some(token)
    ensures Undisturbed(c, Effect(me, c, p, a), token)
  {
  }

  /** The effect of an action on the claims of the claimant that takes it: only the row it
      is working on can become started, fulfilled or settled, and settling ends the item. */
  ghost predicate OwnEffect(c: Core, c': Core, p: Phase, p': Phase)
    requires AtItem(p)
  {
    var id, t := p.todo[0].id, p.token;
    && c.clock == c'.clock && c.tokens == c'.tokens
    && (forall i :: ClaimCopy(c'.history, i, t) == ClaimCopy(c.history, i, t))
    && (forall i :: i != id ==>
          && SettledIn(c'.history, i, t) == SettledIn(c.history, i, t)
          && StartedIn(c'.history, i, t) == StartedIn(c.history, i, t))
    && (p'.Batch? ==>
          && p'.token == t && p'.since == p.since
          && ((p'.todo == p.todo[1..] && p'.item.NotBegun?)
              || (p'.todo == p.todo && SettledIn(c'.history, id, t) == SettledIn(c.history, id, t)
                  && (StartedIn(c'.history, id, t) <==> EmitBegun(p'.item)))))
  }

  lemma ActionOwnEffect(lim: Limits, me: Claimant, c: Core, p: Phase, a: Action)
    requires c.table.Valid() && CanAct(c, p, a) && !a.ClaimBatch?
    requires AtItem(p) && TodoInv(c, p, 0)
    ensures OwnEffect(c, Effect(me, c, p, a), p, Progress(me, c, p, a))
  {
    if a.RenewFirst? || a.BeatRenews? {
      RenewalOwnEffect(lim, me, c, p, a);
    } else if a.FencedWrite? {
      WriteOwnEffect(lim, me, c, p, a);
    }
  }

  lemma RenewalOwnEffect(lim: Limits, me: Claimant, c: Core, p: Phase, a: Action)
    requires c.table.Valid() && CanAct(c, p, a) && (a.RenewFirst? || a.BeatRenews?)
    requires AtItem(p) && TodoInv(c, p, 0)
    ensures OwnEffect(c, Effect(me, c, p, a), p, Progress(me, c, p, a))
  {
  }

  lemma WriteOwnEffect(lim: Limits, me: Claimant, c: Core, p: Phase, a: Action)
    requires c.table.Valid() && CanAct(c, p, a) && a.FencedWrite?
    requires AtItem(p) && TodoInv(c, p, 0)
    ensures OwnEffect(c, Effect(me, c, p, a), p, Progress(me, c, p, a))
  {
  }

  lemma TodoKeeps(c: Core, c': Core, p: Phase, p': Phase)
    requires AtItem(p) && PhaseInv(c, p) && OwnEffect(c, c', p, p')
    requires p'.Batch? && (AtItem(p') ==> ItemInv(c', p'))
    ensures PhaseInv(c', p')
  {
    forall k | 0 <= k < |p'.todo| ensures TodoInv(c', p', k) {
      assert TodoInv(c, p, if |p'.todo| == |p.todo| then k else k + 1);
      assert p.todo[0].id != p'.todo[k].id || |p'.todo| == |p.todo|;
    }
  }

  lemma ItemKeeps(lim: Limits, me: Claimant, c: Core, p: Phase, a: Action)
    requires Inv(c, lim) && CanAct(c, p, a) && !a.ClaimBatch?
    requires AtItem(p) && TodoInv(c, p, 0) && ItemInv(c, p) && p.since <= c.clock
    requires AtItem(Progress(me, c, p, a))
    ensures ItemInv(Effect(me, c, p, a), Progress(me, c, p, a))
  {
    if a.RenewFirst? {
      RenewCallKeeps(c, p.todo[0].id, p.token, p.item.now, p.item.now + me.leaseMs, a.fault, lim);
      hide Inv;
    } else if a.BeatRenews? || a.BeatSettles? || a.BeatFires? || a.EmitSettles? {
      assert c.table.Valid();
      BeatItemKeeps(lim, me, c, p, a);
    }
  }

  /** The events of the heartbeat during an emission. */
  lemma BeatItemKeeps(lim: Limits, me: Claimant, c: Core, p: Phase, a: Action)
    requires c.table.Valid() && CanAct(c, p, a) && (a.BeatRenews? || a.BeatSettles? || a.BeatFires? || a.EmitSettles?)
    requires AtItem(p) && TodoInv(c, p, 0) && ItemInv(c, p) && p.since <= c.clock
    requires AtItem(Progress(me, c, p, a))
    ensures ItemInv(Effect(me, c, p, a), Progress(me, c, p, a))
  {
  }

  lemma ProgressKeeps(lim: Limits, me: Claimant, c: Core, p: Phase, a: Action)
    requires lim.Valid() && lim.Has(me.maxRetries) && Inv(c, lim) && PhaseInv(c, p) && CanAct(c, p, a)
    ensures PhaseInv(Effect(me, c, p, a), Progress(me, c, p, a))
  {
    InvIsValid(c, lim);
    hide Inv, PhaseInv, Effect, Progress, CanAct;
    if a.ClaimBatch? {
      ClaimProgressKeeps(lim, me, c, p, a);
    } else if AtItem(p) {
      ItemProgressKeeps(lim, me, c, p, a);
    } else {
      IdleProgressKeeps(lim, me, c, p, a);
    }
  }

  lemma InvIsValid(c: Core, lim: Limits)
    requires Inv(c, lim)
    ensures c.table.Valid()
  {
  }

  lemma ClaimProgressKeeps(lim: Limits, me: Claimant, c: Core, p: Phase, a: Action)
    requires Inv(c, lim) && c.table.Valid() && PhaseInv(c, p) && CanAct(c, p, a) && a.ClaimBatch?
    ensures PhaseInv(Effect(me, c, p, a), Progress(me, c, p, a))
  {
    assert p.now <= c.clock;
    NewBatch(lim, me, c, p.now, a.token);
    hide Inv, Claim, ClaimFor, PhaseInv;
  }

  lemma NewBatch(lim: Limits, me: Claimant, c: Core, now: Time, token: string)
    requires Inv(c, lim) && c.table.Valid() && now <= c.clock && token !in c.tokens
    ensures var until := now + me.leaseMs;
      PhaseInv(ClaimFor(c, now, me.limit, token, until), Batch(token, now, Claim(c.table, now, me.limit, token, until).1, NotBegun))
  {
    ClaimCopies(c, now, me.limit, token, now + me.leaseMs, lim);
    ClaimedTodo(lim, me, c, now, token);
    hide Inv, Claim, DueBy, TodoInv;
  }

  lemma ClaimedTodo(lim: Limits, me: Claimant, c: Core, now: Time, token: string)
    requires Inv(c, lim) && c.table.Valid() && now <= c.clock && token !in c.tokens
    ensures var until := now + me.leaseMs; var b := Batch(token, now, Claim(c.table, now, me.limit, token, until).1, NotBegun);
      forall k :: 0 <= k < |b.todo| ==> TodoInv(ClaimFor(c, now, me.limit, token, until), b, k)
  {
    ClaimCopies(c, now, me.limit, token, now + me.leaseMs, lim);
    hide Inv, Claim, DueBy, ClaimCopy;
  }

  /** A claimant between rounds or between rows. */
  lemma IdleProgressKeeps(lim: Limits, me: Claimant, c: Core, p: Phase, a: Action)
    requires c.table.Valid() && PhaseInv(c, p) && CanAct(c, p, a) && !a.ClaimBatch? && !AtItem(p)
    ensures PhaseInv(Effect(me, c, p, a), Progress(me, c, p, a))
  {
  }

  /** A claimant that is working on a row. */
  lemma ItemProgressKeeps(lim: Limits, me: Claimant, c: Core, p: Phase, a: Action)
    requires Inv(c, lim) && c.table.Valid() && PhaseInv(c, p) && CanAct(c, p, a) && !a.ClaimBatch? && AtItem(p)
    ensures PhaseInv(Effect(me, c, p, a), Progress(me, c, p, a))
  {
    hide Inv, Effect, Progress, CanAct;
    var c', p' := Effect(me, c, p, a), Progress(me, c, p, a);
    FirstItem(c, p);
    ItemThenIdleOrBatch(me, c, p, a);
    if p'.Batch? {
      ActionOwnEffect(lim, me, c, p, a);
      if AtItem(p') { ItemKeeps(lim, me, c, p, a); }
      hide PhaseInv, OwnEffect, ItemInv;
      TodoKeeps(c, c', p, p');
    }
  }

  lemma ItemThenIdleOrBatch(me: Claimant, c: Core, p: Phase, a: Action)
    requires c.table.Valid() && CanAct(c, p, a) && !a.ClaimBatch? && AtItem(p)
    ensures Progress(me, c, p, a).Idle? || Progress(me, c, p, a).Batch?
  {
  }

  lemma CoreKeeps(cfg: Config, s: State, step: Step)
    requires cfg.Valid() && StateInv(cfg, s) && Enabled(cfg, s, step)
    ensures Inv(Next(cfg, s, step).core, cfg.limits)
  {
    assert s.core.table.Valid();
    hide Inv;
    match step
    case Tick(to) => TickKeeps(s.core, to, cfg.limits);
    case Publish(id, topic, payload) => SaveKeeps(s.core, id, topic, payload, cfg.limits);
    case UnfencedWrite(id, w, maxRetries) => OverwriteKeeps(s.core, id, w, maxRetries, cfg.limits);
    case ManualRequeue(id, now) => RequeueKeeps(s.core, id, now, cfg.limits);
    case Act(w, a) => EffectKeeps(cfg.limits, cfg.claimants[w], s.core, s.phases[w], a);
  }

  lemma PhaseKeeps(cfg: Config, s: State, step: Step, v: nat)
    requires cfg.Valid() && StateInv(cfg, s) && Enabled(cfg, s, step) && v in s.phases
    ensures PhaseInv(Next(cfg, s, step).core, Next(cfg, s, step).phases[v])
  {
    var c, p := s.core, s.phases[v];
    assert c.table.Valid() && PhaseInv(c, p);
    hide Inv, PhaseInv;
    if step.Act? && step.w == v {
      ProgressKeeps(cfg.limits, cfg.claimants[v], c, p, step.action);
    } else {
      if p.Batch? { DisturbsOnlyOwnToken(cfg, s, step, v); }
      OthersKeep(c, Next(cfg, s, step).core, p);
    }
  }

  lemma DisturbsOnlyOwnToken(cfg: Config, s: State, step: Step, v: nat)
    requires StateInv(cfg, s) && Enabled(cfg, s, step) && IsBatch(s, v)
    requires step.Act? ==> step.w != v
    ensures Undisturbed(s.core, Next(cfg, s, step).core, s.phases[v].token)
  {
    assert PhaseInv(s.core, s.phases[v]) && s.core.table.Valid();
    var token := s.phases[v].token;
    assert token in s.core.tokens;
    assert step.Act? && IsBatch(s, step.w) ==> s.phases[step.w].token != token;
    hide Inv, PhaseInv;
    if step.Act? {
      EffectDisturbsOnlyWriter(cfg.limits, cfg.claimants[step.w], s.core, s.phases[step.w], step.action, token);
    }
  }

  lemma TokensStayApart(cfg: Config, s: State, step: Step, v: nat, w: nat)
    requires StateInv(cfg, s) && Enabled(cfg, s, step) && v != w
    requires IsBatch(Next(cfg, s, step), v) && IsBatch(Next(cfg, s, step), w)
    ensures Next(cfg, s, step).phases[v].token != Next(cfg, s, step).phases[w].token
  {
    assert s.core.table.Valid();
    assert v in s.phases && w in s.phases;
    assert PhaseInv(s.core, s.phases[v]) && PhaseInv(s.core, s.phases[w]);
    TokenKeptOrFresh(cfg, s, step, v);
    TokenKeptOrFresh(cfg, s, step, w);
    hide Inv, Next, Enabled;
  }

  /** A claimant in the middle of a batch keeps its token; only a claim brings a new one, which
      nobody has used before. */
  lemma TokenKeptOrFresh(cfg: Config, s: State, step: Step, v: nat)
    requires s.core.table.Valid() && Enabled(cfg, s, step) && IsBatch(Next(cfg, s, step), v)
    ensures v in s.phases
    ensures var token := Next(cfg, s, step).phases[v].token;
      || (IsBatch(s, v) && s.phases[v].token == token)
      || (step.Act? && step.w == v && token !in s.core.tokens)
  {
    hide Effect;
  }

  /** The invariant holds after every step of every actor. */
  lemma StepKeeps(cfg: Config, s: State, step: Step)
    requires cfg.Valid() && StateInv(cfg, s) && Enabled(cfg, s, step)
    ensures StateInv(cfg, Next(cfg, s, step))
  {
    CoreKeeps(cfg, s, step);
    var s' := Next(cfg, s, step);
    assert s'.phases.Keys == s.phases.Keys;
    forall v | v in s'.phases ensures PhaseInv(s'.core, s'.phases[v]) {
      PhaseKeeps(cfg, s, step, v);
    }
    forall v, w | IsBatch(s', v) && IsBatch(s', w) && v != w ensures s'.phases[v].token != s'.phases[w].token {
      TokensStayApart(cfg, s, step, v, w);
    }
  }
}
