/** What the outbox protocol guarantees, over every run of any number of claimants. */
module OutboxGuarantees {
  import opened Basics
  import opened OutboxStore
  import opened OutboxHistory
  import opened OutboxCore
  import opened OutboxProtocol

  /** A run: from an empty outbox, one step after another. */
  datatype Run = Empty(clock: Time) | After(run: Run, step: Step)

  ghost predicate Legal(cfg: Config, run: Run)
    decreases run, 0
  {
    match run
    case Empty(_) => cfg.Valid()
    case After(before, step) =>
      Legal(cfg, before) && End(cfg, before).core.table.Valid() && Enabled(cfg, End(cfg, before), step)
  }

  ghost function End(cfg: Config, run: Run): State
    requires Legal(cfg, run)
    decreases run, 1
  {
    match run
    case Empty(clock) =>
      State(Core(clock, Table(map[], []), Start, {}), map w | w in cfg.claimants :: Idle)
    case After(before, step) => Next(cfg, End(cfg, before), step)
  }

  lemma {:induction false} RunKeeps(cfg: Config, run: Run)
    requires Legal(cfg, run)
    ensures cfg.Valid() && StateInv(cfg, End(cfg, run))
  {
    if run.After? {
      RunKeeps(cfg, run.run);
      StepKeeps(cfg, End(cfg, run.run), run.step);
    }
  }

  /** A step records at most one event, and only one kind of action starts an emission or
      settles a claim. */
  lemma OneEventPerStep(cfg: Config, s: State, step: Step)
    requires s.core.table.Valid() && Enabled(cfg, s, step)
    ensures var h, h' := s.core.history, Next(cfg, s, step).core.history;
      && (h' == h || (h'.Then? && h'.past == h))
      && (h' != h && h'.last.EmitStarted? ==> step.Act? && step.action.StartEmit?)
      && (h' != h && h'.last.Settled? ==> step.Act? && step.action.FencedWrite?)
  {
  }

  /** Every event of a run's history was recorded by one of its steps. */
  lemma {:induction false} EventComesFromStep(cfg: Config, run: Run, m: History) returns (before: Run, step: Step)
    requires Legal(cfg, run) && m.Then? && Moment(m, End(cfg, run).core.history)
    ensures Legal(cfg, before) && StateInv(cfg, End(cfg, before)) && Enabled(cfg, End(cfg, before), step)
    ensures End(cfg, before).core.history == m.past && Next(cfg, End(cfg, before), step).core.history == m
    ensures m != m.past
  {
    var s := End(cfg, run.run);
    OneEventPerStep(cfg, s, run.step);
    if Moment(m, s.core.history) {
      before, step := EventComesFromStep(cfg, run.run, m);
    } else {
      before, step := run.run, run.step;
      RunKeeps(cfg, before);
    }
  }

  // ----- lease exclusion -----

  /** Each claim starts at most one emission, and only under the deadline it was last
      granted.  If the emission starts before that deadline and no unfenced write has hit
      the row since the claims were made, then every other claim whose emission of this row
      has started is over: settled, or past its own deadline. */
  lemma LeaseExclusion(cfg: Config, run: Run, m: History, other: string)
    requires Legal(cfg, run) && Moment(m, End(cfg, run).core.history)
    requires m.Then? && m.last.EmitStarted?
    ensures var (e, p) := (m.last, m.past);
      && !StartedIn(p, e.id, e.token) && !SettledIn(p, e.id, e.token)
      && Deadline(p, e.id, e.token) == Some(e.deadline)
      && (other != e.token && StartedIn(p, e.id, other) && e.at < e.deadline
          && Intact(p, e.id, e.token) && Intact(p, e.id, other) ==>
            SettledIn(p, e.id, other)
            || (Deadline(p, e.id, other).Some? && Deadline(p, e.id, other).value <= e.at))
  {
    var before, step := EventComesFromStep(cfg, run, m);
    var c := End(cfg, before).core;
    OneEventPerStep(cfg, End(cfg, before), step);
    var b := End(cfg, before).phases[step.w];
    var id := b.todo[0].id;
    assert PhaseInv(c, b) && TodoInv(c, b, 0) && ItemInv(c, b);
    assert ClaimInv(c, id, b.token);
    if StartedIn(c.history, id, other) {
      assert ClaimCopy(c.history, id, other).Some?;
      assert ClaimInv(c, id, other);
    }
  }

  /** At the moment a claimant may start its emission it owns the row under an unexpired
      lease exactly when the clock is before the deadline it was granted and no unfenced
      write has come between.  The deadline can pass between the two: the renewal and the
      start of the emission are separate moments. */
  lemma EmissionUnderOwnLease(cfg: Config, run: Run, w: nat)
    requires Legal(cfg, run)
    requires var s := End(cfg, run); w in s.phases && AtItem(s.phases[w]) && s.phases[w].item.Granted?
    ensures var s := End(cfg, run); var b := s.phases[w]; var id := b.todo[0].id;
      && id in s.core.table.rows
      && ((var row := s.core.table.rows[id];
           OwnsClaim(row, Some(b.token)) && row.lockedUntil.Some? && row.lockedUntil.value > s.core.clock)
          <==> s.core.clock < b.item.deadline && Intact(s.core.history, id, b.token))
  {
    RunKeeps(cfg, run);
    var s := End(cfg, run);
    var b := s.phases[w];
    var id := b.todo[0].id;
    assert PhaseInv(s.core, b) && TodoInv(s.core, b, 0) && ItemInv(s.core, b);
    assert ClaimInv(s.core, id, b.token);
    var row := s.core.table.rows[id];
    assert RowInv(row, Failures(s.core.history, id), cfg.limits);
    assert row.lockedBy == Some(b.token) ==> HeldInv(row, s.core, b.token);
  }

  // ----- fencing -----

  /** A fenced completion that was written found the row exactly as its token claimed it,
      lease renewals apart; it was that claim's first; its emission had started, and had
      been fulfilled if the row became published; and what the diagnostic reports from the
      claimant's own copy, under its own maximum, is what was stored. */
  lemma FencedCompletion(cfg: Config, run: Run, m: History)
    requires Legal(cfg, run) && Moment(m, End(cfg, run).core.history)
    requires m.Then? && m.last.Settled?
    ensures var (e, p) := (m.last, m.past);
      && ClaimCopy(p, e.id, e.token).Some?
      && e.before == ClaimCopy(p, e.id, e.token).value.(lockedUntil := Deadline(p, e.id, e.token))
      && Intact(p, e.id, e.token) && !SettledIn(p, e.id, e.token) && StartedIn(p, e.id, e.token)
      && cfg.limits.Has(e.maxRetries)
      && (exists w <- cfg.claimants :: cfg.claimants[w].maxRetries == e.maxRetries)
      && (e.published ==>
            && FulfilledIn(p, e.id, e.token)
            && e.after.status == Published && e.report == PublishedReport(e.after.retryCount))
      && (!e.published ==>
            && e.after.status == (if e.after.retryCount >= e.maxRetries then DeadLetter else Failed)
            && e.report == FailureReport(e.after.retryCount, e.after.status == DeadLetter))
  {
    var before, step := EventComesFromStep(cfg, run, m);
    var s := End(cfg, before);
    RunKeeps(cfg, before);
    OneEventPerStep(cfg, s, step);
    WriterFacts(cfg, s, step);
    hide Inv, PhaseInv, Legal, StateInv, TodoInv, ItemInv;
    CompletionFacts(cfg, s, step);
  }

  lemma WriterFacts(cfg: Config, s: State, step: Step)
    requires cfg.Valid() && StateInv(cfg, s) && Enabled(cfg, s, step) && step.Act? && step.action.FencedWrite?
    ensures s.core.table.Valid() && Inv(s.core, cfg.limits) && cfg.limits.Has(cfg.claimants[step.w].maxRetries)
    ensures AtItem(s.phases[step.w]) && TodoInv(s.core, s.phases[step.w], 0) && ItemInv(s.core, s.phases[step.w])
  {
    assert PhaseInv(s.core, s.phases[step.w]);
  }

  lemma CompletionFacts(cfg: Config, s: State, step: Step)
    requires s.core.table.Valid() && Inv(s.core, cfg.limits) && Enabled(cfg, s, step) && step.Act? && step.action.FencedWrite?
    requires AtItem(s.phases[step.w]) && TodoInv(s.core, s.phases[step.w], 0) && ItemInv(s.core, s.phases[step.w])
    requires Next(cfg, s, step).core.history != s.core.history
    ensures var (h, p) := (Next(cfg, s, step).core.history, s.core.history);
      && h.Then? && h.past == p && h.last.Settled?
      && var e := h.last;
      && ClaimCopy(p, e.id, e.token).Some?
      && e.before == ClaimCopy(p, e.id, e.token).value.(lockedUntil := Deadline(p, e.id, e.token))
      && Intact(p, e.id, e.token) && !SettledIn(p, e.id, e.token) && StartedIn(p, e.id, e.token)
      && e.maxRetries == cfg.claimants[step.w].maxRetries
      && (e.published ==>
            && FulfilledIn(p, e.id, e.token)
            && e.after.status == Published && e.report == PublishedReport(e.after.retryCount))
      && (!e.published ==>
            && e.after.status == (if e.after.retryCount >= e.maxRetries then DeadLetter else Failed)
            && e.report == FailureReport(e.after.retryCount, e.after.status == DeadLetter))
  {
    SettledEvent(cfg.claimants[step.w].maxRetries, cfg.limits, s.core, s.phases[step.w], step.action);
  }

  lemma SettledEvent(maxRetries: int, lim: Limits, c: Core, b: Phase, a: Action)
    requires Inv(c, lim) && AtItem(b) && b.item.Writing? && a.FencedWrite?
    requires TodoInv(c, b, 0) && ItemInv(c, b)
    requires var copy, w := b.todo[0], CompletionFor(b.item.outcome, b.item.now, a.error, a.nextRetryAt);
      SettleFor(c, copy, b.token, w, maxRetries).1
    ensures var copy, w := b.todo[0], CompletionFor(b.item.outcome, b.item.now, a.error, a.nextRetryAt);
      var h := SettleFor(c, copy, b.token, w, maxRetries).0.history;
      && h.Then? && h.last.Settled? && h.last.maxRetries == maxRetries
      && h.last.before == copy.(lockedUntil := Deadline(c.history, copy.id, b.token))
      && Intact(c.history, copy.id, b.token)
      && (h.last.published ==> FulfilledIn(c.history, copy.id, b.token) && h.last.after.status == Published
                               && h.last.report == PublishedReport(h.last.after.retryCount))
      && (!h.last.published ==>
            && h.last.after.status == (if h.last.after.retryCount >= maxRetries then DeadLetter else Failed)
            && h.last.report == FailureReport(h.last.after.retryCount, h.last.after.status == DeadLetter))
  {
    var id := b.todo[0].id;
    assert HeldInv(c.table.rows[id], c, b.token);
    hide Inv;
  }

  /** A fenced completion is refused exactly when the claim no longer holds the row, and a
      refused one changes nothing. */
  lemma RefusedWriteChangesNothing(cfg: Config, run: Run, w: nat, error: string, retryAt: Time, maxRetries: int)
    requires Legal(cfg, run)
    requires var s := End(cfg, run); w in s.phases && AtItem(s.phases[w]) && s.phases[w].item.Writing?
    ensures var s := End(cfg, run); var b := s.phases[w]; var c, id := s.core, b.todo[0].id;
      var (after, updated) :=
        SettleFor(c, b.todo[0], b.token, CompletionFor(b.item.outcome, b.item.now, error, retryAt), maxRetries);
      && id in c.table.rows
      && (updated <==> c.table.rows[id].lockedBy == Some(b.token))
      && (!updated ==> after == c)
      && (updated || !Intact(c.history, id, b.token)
          || (Deadline(c.history, id, b.token).Some? && Deadline(c.history, id, b.token).value <= c.clock))
  {
    RunKeeps(cfg, run);
    var s := End(cfg, run);
    var b := s.phases[w];
    assert PhaseInv(s.core, b) && TodoInv(s.core, b, 0);
    assert ClaimInv(s.core, b.todo[0].id, b.token);
    assert RowInv(s.core.table.rows[b.todo[0].id], Failures(s.core.history, b.todo[0].id), cfg.limits);
  }

  // ----- nothing is lost or stuck -----

  /** From when on the row can be claimed, if it is left alone; `None` means always. */
  function ReadyFrom(row: Row): Option<Time>
    requires row.status !in {Published, DeadLetter}
  {
    match row.status
    case Pending => None
    case Failed => row.nextRetryAt
    case _ => row.lockedUntil
  }

  /** A row is locked exactly while it is being processed; its retry count is the number of
      failures recorded since it was saved or requeued; it is dead-lettered only once they reach
      the least maximum, and live only below the greatest; and until it is published or
      dead-lettered there is a time from which on every claim can take it. A row at the greatest
      maximum is dead-lettered or, after a late unfenced success, published. */
  lemma NothingLostOrStuck(cfg: Config, run: Run, id: string, now: Time)
    requires Legal(cfg, run) && id in End(cfg, run).core.table.rows
    ensures var s := End(cfg, run); var row := s.core.table.rows[id];
      && (row.status == Processing <==> row.lockedBy.Some?) && (row.lockedBy.Some? <==> row.lockedUntil.Some?)
      && row.retryCount == Failures(s.core.history, id)
      && (row.status == DeadLetter ==> row.retryCount >= cfg.limits.least)
      && (row.status in {Pending, Processing, Failed} ==> row.retryCount < cfg.limits.greatest)
      && (row.retryCount >= cfg.limits.greatest ==> row.status == DeadLetter || row.status == Published)
      && (row.status !in {Published, DeadLetter} ==>
            (IsClaimable(row, now) <==> ReadyFrom(row).None? || ReadyFrom(row).value <= now))
  {
    RunKeeps(cfg, run);
    assert RowInv(End(cfg, run).core.table.rows[id], Failures(End(cfg, run).core.history, id), cfg.limits);
  }

  /** One maximum for everybody: dead-lettered means at the maximum, live means below it. */
  ghost predicate OneMaximum(cfg: Config, maxRetries: int) {
    forall run :: Legal(cfg, run) ==> SplitsAt(End(cfg, run).core.table, maxRetries)
  }

  ghost predicate SplitsAt(t: Table, maxRetries: int) {
    forall id <- t.rows :: if t.rows[id].retryCount >= maxRetries then t.rows[id].status in {DeadLetter, Published}
                           else t.rows[id].status != DeadLetter
  }

  /** So it is when all maxima agree. */
  lemma AgreedMaximumSplits(cfg: Config)
    requires cfg.Valid() && cfg.limits.least == cfg.limits.greatest
    ensures OneMaximum(cfg, cfg.limits.greatest)
  {
    forall run | Legal(cfg, run) ensures SplitsAt(End(cfg, run).core.table, cfg.limits.greatest) {
      var t := End(cfg, run).core.table;
      forall id <- t.rows
        ensures if t.rows[id].retryCount >= cfg.limits.greatest then t.rows[id].status in {DeadLetter, Published}
                else t.rows[id].status != DeadLetter
      {
        NothingLostOrStuck(cfg, run, id, 0);
      }
    }
  }

  /** In every reachable store, releasing expired claims first does not change what a claim
      returns. */
  lemma ReleaseFirstIsHarmless(cfg: Config, run: Run, now: Time, limit: int, owner: string, until: Time)
    requires Legal(cfg, run)
    ensures var t := End(cfg, run).core.table;
      && t.Valid() && RetryTimePrecedesLease(t)
      && Claim(Release(t, now), now, limit, owner, until).1 == Claim(t, now, limit, owner, until).1
  {
    RunKeeps(cfg, run);
    var s := End(cfg, run);
    forall id | id in s.core.table.rows && s.core.table.rows[id].status == Processing
      ensures DueBy(s.core.table.rows[id], s.core.table.rows[id].lockedUntil.value)
    {
      assert RowInv(s.core.table.rows[id], Failures(s.core.history, id), cfg.limits);
    }
    ReleaseThenClaimCopies(s.core.table, now, limit, owner, until);
  }

  // ----- the number of completions is bounded -----

  function AttemptsLeft(row: Row, maxRetries: int): nat {
    if row.status in {Published, DeadLetter} || row.retryCount >= maxRetries then 0
    else maxRetries - row.retryCount
  }

  function TotalAttempts(rows: map<string, Row>, order: seq<string>, maxRetries: int): nat
    requires forall id :: id in order ==> id in rows
  {
    if |order| == 0 then 0
    else AttemptsLeft(rows[order[0]], maxRetries) + TotalAttempts(rows, order[1..], maxRetries)
  }

  lemma {:induction false} AttemptsNeverGrow(rows: map<string, Row>, rows': map<string, Row>, order: seq<string>,
                                             maxRetries: int, id: string)
    requires forall i :: i in order ==> i in rows && i in rows'
    requires forall i :: i in order ==> AttemptsLeft(rows'[i], maxRetries) <= AttemptsLeft(rows[i], maxRetries)
    ensures TotalAttempts(rows', order, maxRetries) <= TotalAttempts(rows, order, maxRetries)
    ensures id in order && AttemptsLeft(rows'[id], maxRetries) < AttemptsLeft(rows[id], maxRetries) ==>
      TotalAttempts(rows', order, maxRetries) < TotalAttempts(rows, order, maxRetries)
  {
    if |order| > 0 {
      assert order[0] in order && forall i :: i in order[1..] ==> i in order;
      assert id in order ==> id == order[0] || id in order[1..];
      AttemptsNeverGrow(rows, rows', order[1..], maxRetries, id);
    }
  }

  /** An immediate publish records its failure on a row that was published or dead-lettered
      meanwhile, and under its own maximum the row may be tried again. */
  predicate Revives(t: Table, id: string, w: Completion, maxRetries: int) {
    w.Failure? && id in t.rows && t.rows[id].status in {Published, DeadLetter} && t.rows[id].retryCount + 1 < maxRetries
  }

  /** New publishes, requeues, and unfenced failures that revive a row. */
  predicate AddsWork(t: Table, step: Step) {
    step.Publish? || step.ManualRequeue? || (step.UnfencedWrite? && Revives(t, step.id, step.write, step.maxRetries))
  }

  /** `later` continues `earlier` without such steps. */
  ghost predicate Continues(cfg: Config, earlier: Run, later: Run)
    requires Legal(cfg, later)
  {
    later == earlier
    || (later.After? && !AddsWork(End(cfg, later.run).core.table, later.step) && Continues(cfg, earlier, later.run))
  }

  /** An unfenced write gives a row more attempts, counted under the greatest maximum, exactly
      if it revives it; under one's own maximum only a published row can be revived. */
  lemma UnfencedWriteRevivesIff(c: Core, id: string, w: Completion, maxRetries: int, lim: Limits)
    requires Inv(c, lim) && id in c.table.rows && lim.Has(maxRetries)
    ensures id in Overwrite(c, id, w, maxRetries).table.rows
    ensures AttemptsLeft(Overwrite(c, id, w, maxRetries).table.rows[id], lim.greatest) > AttemptsLeft(c.table.rows[id], lim.greatest)
       <==> Revives(c.table, id, w, maxRetries)
    ensures lim.least == lim.greatest && Revives(c.table, id, w, maxRetries) ==> c.table.rows[id].status == Published
  {
    assert RowInv(c.table.rows[id], Failures(c.history, id), lim);
    hide Inv;
  }

  lemma StepUsesAttempts(cfg: Config, s: State, step: Step)
    requires cfg.Valid() && StateInv(cfg, s) && Enabled(cfg, s, step) && !AddsWork(s.core.table, step)
    ensures var (t, t') := (s.core.table, Next(cfg, s, step).core.table);
      && t'.order == t.order && t'.rows.Keys == t.rows.Keys
      && Completions(Next(cfg, s, step).core.history) + TotalAttempts(t'.rows, t'.order, cfg.limits.greatest)
         <= Completions(s.core.history) + TotalAttempts(t.rows, t.order, cfg.limits.greatest)
  {
    var c, c', m := s.core, Next(cfg, s, step).core, cfg.limits.greatest;
    StepRows(cfg, s, step);
    AttemptsNeverGrow(c.table.rows, c'.table.rows, c.table.order, m, SettledRow(c, c'));
    OneEventPerStep(cfg, s, step);
  }

  function SettledRow(c: Core, c': Core): string {
    if c'.history.Then? && c'.history.last.Settled? then c'.history.last.id else ""
  }

  /** No step of a claimant gives a row more attempts, and a completion uses one up. */
  ghost predicate UsesAttempts(c: Core, c': Core, maxRetries: int) {
    && c'.table.order == c.table.order && c'.table.rows.Keys == c.table.rows.Keys
    && (forall id :: id in c.table.rows ==>
          AttemptsLeft(c'.table.rows[id], maxRetries) <= AttemptsLeft(c.table.rows[id], maxRetries))
    && (c'.history != c.history && c'.history.Then? && c'.history.last.Settled? ==>
          var id := c'.history.last.id;
          id in c.table.rows && AttemptsLeft(c'.table.rows[id], maxRetries) < AttemptsLeft(c.table.rows[id], maxRetries))
  }

  lemma StepRows(cfg: Config, s: State, step: Step)
    requires cfg.Valid() && StateInv(cfg, s) && Enabled(cfg, s, step) && !AddsWork(s.core.table, step)
    ensures UsesAttempts(s.core, Next(cfg, s, step).core, cfg.limits.greatest)
  {
    if step.Act? {
      var p, a := s.phases[step.w], step.action;
      assert PhaseInv(s.core, p);
      if a.FencedWrite? {
        WriteUsesAttempt(cfg.limits, cfg.claimants[step.w], s.core, p, a);
      } else {
        ActionRows(cfg.limits, cfg.claimants[step.w], s.core, p, a);
      }
    } else if step.UnfencedWrite? {
      UnfencedRows(s.core, step.id, step.write, step.maxRetries, cfg.limits);
    }
  }

  lemma UnfencedRows(c: Core, id: string, w: Completion, maxRetries: int, lim: Limits)
    requires Inv(c, lim) && lim.Has(maxRetries) && !Revives(c.table, id, w, maxRetries)
    ensures UsesAttempts(c, Overwrite(c, id, w, maxRetries), lim.greatest)
  {
    if id in c.table.rows { UnfencedWriteRevivesIff(c, id, w, maxRetries, lim); }
    hide Inv, AttemptsLeft;
  }

  lemma ActionRows(lim: Limits, me: Claimant, c: Core, p: Phase, a: Action)
    requires Inv(c, lim) && PhaseInv(c, p) && CanAct(c, p, a) && !a.FencedWrite?
    ensures UsesAttempts(c, Effect(me, c, p, a), lim.greatest)
  {
    assert c.table.Valid();
    if a.ClaimBatch? {
      ClaimAttempts(c, p.now, me.limit, a.token, p.now + me.leaseMs, lim);
    } else if a.RenewFirst? || a.BeatRenews? {
      hide Inv, PhaseInv;
      RenewalRows(lim, me, c, p, a);
    } else {
      hide Inv, PhaseInv;
    }
  }

  lemma RenewalRows(lim: Limits, me: Claimant, c: Core, p: Phase, a: Action)
    requires c.table.Valid() && CanAct(c, p, a) && (a.RenewFirst? || a.BeatRenews?)
    ensures UsesAttempts(c, Effect(me, c, p, a), lim.greatest)
  {
  }

  lemma WriteUsesAttempt(lim: Limits, me: Claimant, c: Core, p: Phase, a: Action)
    requires Inv(c, lim) && lim.Has(me.maxRetries) && PhaseInv(c, p) && CanAct(c, p, a) && a.FencedWrite?
    ensures UsesAttempts(c, Effect(me, c, p, a), lim.greatest)
  {
    var id := p.todo[0].id;
    assert c.table.Valid();
    assert id in c.table.rows ==> RowInv(c.table.rows[id], Failures(c.history, id), lim);
    hide Inv;
  }

  lemma ClaimAttempts(c: Core, now: Time, limit: int, token: string, until: Time, lim: Limits)
    requires Inv(c, lim)
    ensures var t' := Claim(c.table, now, limit, token, until).0;
      && t'.order == c.table.order && t'.rows.Keys == c.table.rows.Keys
      && forall id :: id in c.table.rows ==>
        AttemptsLeft(t'.rows[id], lim.greatest) <= AttemptsLeft(c.table.rows[id], lim.greatest)
  {
    ClaimMeaning(c.table, now, limit, token, until);
    ClaimIdsMeaning(c.table, now, limit);
  }

  /** Without new publishes, requeues, and failures that revive a row, the fenced completions
      still to come are at most the attempts the live rows have left under the greatest
      maximum. */
  lemma {:induction false} CompletionsAreBounded(cfg: Config, earlier: Run, later: Run)
    requires Legal(cfg, later) && Continues(cfg, earlier, later)
    ensures Legal(cfg, earlier) && End(cfg, earlier).core.table.Valid() && End(cfg, later).core.table.Valid()
    ensures var s, s' := End(cfg, earlier).core, End(cfg, later).core;
      Completions(s'.history) - Completions(s.history)
        <= TotalAttempts(s.table.rows, s.table.order, cfg.limits.greatest)
           - TotalAttempts(s'.table.rows, s'.table.order, cfg.limits.greatest)
  {
    RunKeeps(cfg, later);
    if later != earlier {
      CompletionsAreBounded(cfg, earlier, later.run);
      RunKeeps(cfg, later.run);
      StepUsesAttempts(cfg, End(cfg, later.run), later.step);
    }
  }
}
