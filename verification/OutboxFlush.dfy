/** A flush with nobody else at work (`OutboxRound`) is a run of one claimant's steps in the
    system of `OutboxProtocol`, so the guarantees over all runs hold for it. */
module OutboxFlush {
  import opened Basics
  import opened OutboxStore
  import opened OutboxHistory
  import opened OutboxCore
  import opened OutboxProtocol
  import opened OutboxGuarantees
  import H = Heartbeat
  import R = OutboxRound

  /** `more` continues `run` with the passing of time and with steps of claimant `w` only. */
  predicate Continues(run: Run, more: Run, w: nat) {
    || more == run
    || (more.After? && Continues(run, more.run, w) && (more.step.Tick? || (more.step.Act? && more.step.w == w)))
  }

  /** The run has come to this store, with the claimant at this point. */
  ghost predicate At(cfg: Config, first: Run, run: Run, w: nat, c: Core, p: Phase) {
    && Legal(cfg, run) && Continues(first, run, w) && w in cfg.claimants && w in End(cfg, run).phases
    && End(cfg, run).core == c && End(cfg, run).phases[w] == p
  }

  lemma Acts(cfg: Config, first: Run, run: Run, w: nat, c: Core, p: Phase, a: Action) returns (more: Run)
    requires At(cfg, first, run, w, c, p) && CanAct(c, p, a)
    ensures c.table.Valid() && w in cfg.claimants
    ensures At(cfg, first, more, w, Effect(cfg.claimants[w], c, p, a), Progress(cfg.claimants[w], c, p, a))
  {
    RunKeeps(cfg, run);
    InvIsValid(c, cfg.limits);
    more := After(run, Act(w, a));
    hide StateInv, Effect, Progress, CanAct;
  }

  lemma Waits(cfg: Config, first: Run, run: Run, w: nat, c: Core, p: Phase, to: Time) returns (more: Run)
    requires At(cfg, first, run, w, c, p) && c.clock <= to
    ensures At(cfg, first, more, w, c.(clock := to), p) && c.table.Valid()
  {
    RunKeeps(cfg, run);
    InvIsValid(c, cfg.limits);
    more := After(run, Tick(to));
    hide StateInv;
  }

  // ---------------------------------------------------------------- one row's turn

  /** A renewal sends the same call to the same store and is told the same. */
  lemma RenewalsAgree(c: Core, id: string, token: string, leaseMs: nat, r: R.Renewal)
    ensures var (c', answer) := RenewCall(c, id, token, r.at, r.at + leaseMs, r.fault);
      && (c'.table, answer == H.Kept) == R.RenewWith(c.table, id, token, leaseMs, r)
      && c'.clock == c.clock
  {
  }

  predicate BeatsAfter(from: Time, beats: seq<R.Renewal>, to: Time)
    decreases |beats|
  {
    if beats == [] then from <= to else from <= beats[0].at && BeatsAfter(beats[0].at, beats[1..], to)
  }

  /** The clock does not run backwards during the turn. */
  predicate TurnAfter(from: Time, turn: R.Turn) {
    from <= turn.first.at && BeatsAfter(turn.first.at, turn.beats, turn.at)
  }

  lemma {:induction false} BeatsTakeTime(from: Time, beats: seq<R.Renewal>, to: Time)
    requires BeatsAfter(from, beats, to)
    ensures from <= to
    decreases |beats|
  {
    if beats != [] { BeatsTakeTime(beats[0].at, beats[1..], to); }
  }

  /** The heartbeat while it may renew, and after its lease is lost. */
  function Beating(lost: bool): H.State {
    if lost then H.Begin(true).(ownershipLost := true, timerArmed := false) else H.Begin(true)
  }

  lemma OneBeat(cfg: Config, first: Run, run: Run, w: nat, c: Core, p: Phase, r: R.Renewal) returns (more: Run, c': Core)
    requires At(cfg, first, run, w, c, p) && AtItem(p) && p.item == Emitting(Beating(false), NoCall) && c.clock <= r.at
    ensures w in cfg.claimants
    ensures var (table, kept) := R.RenewWith(c.table, p.todo[0].id, p.token, cfg.claimants[w].leaseMs, r);
      && At(cfg, first, more, w, c', p.(item := Emitting(Beating(!kept), NoCall)))
      && c'.table == table && c'.clock == r.at
  {
    hide At;
    more := Waits(cfg, first, run, w, c, p, r.at);
    var c1 := c.(clock := r.at);
    more := Acts(cfg, first, more, w, c1, p, BeatFires);
    var p2 := Progress(cfg.claimants[w], c1, p, BeatFires);
    more := Acts(cfg, first, more, w, c1, p2, BeatRenews(r.fault));
    c' := Effect(cfg.claimants[w], c1, p2, BeatRenews(r.fault));
    var p3 := Progress(cfg.claimants[w], c1, p2, BeatRenews(r.fault));
    RenewalsAgree(c1, p.todo[0].id, p.token, cfg.claimants[w].leaseMs, r);
    more := Acts(cfg, first, more, w, c', p3, BeatSettles);
  }

  lemma {:induction false} BeatsAreSteps(cfg: Config, first: Run, run: Run, w: nat, c: Core, p: Phase, beats: seq<R.Renewal>, to: Time)
    returns (more: Run, c': Core)
    requires At(cfg, first, run, w, c, p) && AtItem(p) && p.item == Emitting(Beating(false), NoCall) && BeatsAfter(c.clock, beats, to)
    ensures w in cfg.claimants
    ensures var (table, kept) := R.Beat(c.table, p.todo[0].id, p.token, cfg.claimants[w].leaseMs, beats);
      && At(cfg, first, more, w, c', p.(item := Emitting(Beating(!kept), NoCall)))
      && c'.table == table && c'.clock <= to
    decreases |beats|
  {
    hide At, R.RenewWith;
    if beats == [] {
      more, c' := run, c;
      assert w in cfg.claimants by { AtClaimant(cfg, first, run, w, c, p); }
    } else {
      more, c' := OneBeat(cfg, first, run, w, c, p, beats[0]);
      BeatsTakeTime(beats[0].at, beats[1..], to);
      if R.RenewWith(c.table, p.todo[0].id, p.token, cfg.claimants[w].leaseMs, beats[0]).1 {
        more, c' := BeatsAreSteps(cfg, first, more, w, c', p, beats[1..], to);
      }
    }
  }

  lemma AtClaimant(cfg: Config, first: Run, run: Run, w: nat, c: Core, p: Phase)
    requires At(cfg, first, run, w, c, p)
    ensures w in cfg.claimants && c.table.Valid()
  {
    RunKeeps(cfg, run);
    InvIsValid(c, cfg.limits);
    hide StateInv;
  }

  /** The renewal before the emission, and the start of the emission. */
  lemma FirstRenewal(cfg: Config, first: Run, run: Run, w: nat, c: Core, p: Phase, r: R.Renewal) returns (more: Run, c': Core)
    requires At(cfg, first, run, w, c, p) && AtItem(p) && p.item.NotBegun? && p.todo[0].lockedBy == Some(p.token) && c.clock <= r.at
    ensures w in cfg.claimants
    ensures var (table, granted) := R.RenewWith(c.table, p.todo[0].id, p.token, cfg.claimants[w].leaseMs, r);
      && At(cfg, first, more, w, c', if granted then p.(item := Emitting(Beating(false), NoCall)) else Advance(p))
      && c'.table == table && c'.clock == r.at
  {
    hide At;
    more := Waits(cfg, first, run, w, c, p, r.at);
    var c1 := c.(clock := r.at);
    more := Acts(cfg, first, more, w, c1, p, BeginItem);
    var me, p1 := cfg.claimants[w], p.(item := Renewing(r.at));
    RenewalsAgree(c1, p.todo[0].id, p.token, me.leaseMs, r);
    more := Acts(cfg, first, more, w, c1, p1, RenewFirst(r.fault));
    c' := Effect(me, c1, p1, RenewFirst(r.fault));
    if R.RenewWith(c.table, p.todo[0].id, p.token, me.leaseMs, r).1 {
      var p2 := p.(item := Granted(r.at + me.leaseMs));
      more := Acts(cfg, first, more, w, c', p2, StartEmit);
      c' := Effect(me, c', p2, StartEmit);
    }
  }

  function OutcomeOf(ending: R.Ending): H.Outcome {
    if ending.Fulfilled? then H.Fulfilled else H.Rejected
  }

  lemma EmissionSettles(cfg: Config, first: Run, run: Run, w: nat, c: Core, p: Phase, lost: bool, o: H.Outcome) returns (more: Run, c': Core)
    requires At(cfg, first, run, w, c, p) && AtItem(p) && p.item == Emitting(Beating(lost), NoCall)
    ensures At(cfg, first, more, w, c', if lost then Advance(p) else p.(item := Finished(o)))
    ensures c'.table == c.table && c'.clock == c.clock
  {
    hide At;
    more := Acts(cfg, first, run, w, c, p, EmitSettles(o));
    c' := Effect(cfg.claimants[w], c, p, EmitSettles(o));
  }

  function ErrorOf(ending: R.Ending): string {
    match ending case Fulfilled => "" case Rejected(error) => error
  }

  /** A fenced write does to the table what the completion of the turn does. */
  lemma WritesAgree(c: Core, copy: Row, token: string, turn: R.Turn, maxRetries: int)
    ensures var w := CompletionFor(OutcomeOf(turn.ending), turn.at, ErrorOf(turn.ending), turn.retryAt);
      SettleFor(c, copy, token, w, maxRetries).0.table == R.Completed(c.table, copy.id, token, turn, maxRetries).0
      && SettleFor(c, copy, token, w, maxRetries).0.clock == c.clock
  {
  }

  lemma CompletionIsWritten(cfg: Config, first: Run, run: Run, w: nat, c: Core, p: Phase, turn: R.Turn) returns (more: Run, c': Core)
    requires At(cfg, first, run, w, c, p) && AtItem(p) && p.item == Finished(OutcomeOf(turn.ending)) && c.clock <= turn.at
    ensures w in cfg.claimants
    ensures var (table, end) := R.Finish(c.table, p.todo[0].id, p.token, turn, cfg.claimants[w].maxRetries);
      && At(cfg, first, more, w, c', if end.Threw? then Idle else Advance(p))
      && c'.table == table && c'.clock == turn.at
  {
    hide At;
    more := Waits(cfg, first, run, w, c, p, turn.at);
    var c1, o := c.(clock := turn.at), OutcomeOf(turn.ending);
    more := Acts(cfg, first, more, w, c1, p, BeginWrite);
    var p1, a := p.(item := Writing(o, turn.at)), FencedWrite(ErrorOf(turn.ending), turn.retryAt, turn.write);
    WritesAgree(c1, p.todo[0], p.token, turn, cfg.claimants[w].maxRetries);
    more := Acts(cfg, first, more, w, c1, p1, a);
    c' := Effect(cfg.claimants[w], c1, p1, a);
    hide SettleFor, R.Completed;
  }

  /** A row's turn is a run of the claimant's steps on that row. */
  lemma TurnIsSteps(cfg: Config, first: Run, run: Run, w: nat, c: Core, p: Phase, turn: R.Turn) returns (more: Run, c': Core)
    requires At(cfg, first, run, w, c, p) && AtItem(p) && p.item.NotBegun? && p.todo[0].lockedBy == Some(p.token)
    requires TurnAfter(c.clock, turn)
    ensures w in cfg.claimants
    ensures var me := cfg.claimants[w]; var (table, end) := R.TakeTurn(c.table, p.todo[0].id, p.token, me.leaseMs, turn, me.maxRetries);
      && At(cfg, first, more, w, c', if end.Threw? then Idle else Advance(p))
      && c'.table == table && c'.clock <= turn.at
  {
    hide At, R.RenewWith, R.Beat, R.Finish;
    BeatsTakeTime(turn.first.at, turn.beats, turn.at);
    more, c' := FirstRenewal(cfg, first, run, w, c, p, turn.first);
    var me, id := cfg.claimants[w], p.todo[0].id;
    if R.RenewWith(c.table, id, p.token, me.leaseMs, turn.first).1 {
      var kept := R.Beat(c'.table, id, p.token, me.leaseMs, turn.beats).1;
      more, c' := BeatsAreSteps(cfg, first, more, w, c', p.(item := Emitting(Beating(false), NoCall)), turn.beats, turn.at);
      var p2 := p.(item := Emitting(Beating(!kept), NoCall));
      more, c' := EmissionSettles(cfg, first, more, w, c', p2, !kept, OutcomeOf(turn.ending));
      if kept {
        more, c' := CompletionIsWritten(cfg, first, more, w, c', p.(item := Finished(OutcomeOf(turn.ending))), turn);
      }
    }
  }

  // ---------------------------------------------------------------- the whole flush

  predicate TurnsAfter(from: Time, turns: seq<R.Turn>)
    decreases |turns|
  {
    turns == [] || (TurnAfter(from, turns[0]) && TurnsAfter(turns[0].at, turns[1..]))
  }

  lemma EarlierIsFine(from: Time, later: Time, turns: seq<R.Turn>)
    requires TurnsAfter(later, turns) && from <= later
    ensures TurnsAfter(from, turns)
  {
  }

  lemma {:induction false} TurnsAreSteps(cfg: Config, first: Run, run: Run, w: nat, c: Core, p: Phase, turns: seq<R.Turn>, tally: R.Tally)
    returns (more: Run, c': Core)
    requires At(cfg, first, run, w, c, p) && |turns| >= |if p.Batch? then p.todo else []| && TurnsAfter(c.clock, turns)
    requires if tally.threw then p.Idle? else p.Batch? && p.item.NotBegun?
    ensures w in cfg.claimants && At(cfg, first, more, w, c', Idle)
    ensures c'.table == if tally.threw then c.table
                        else R.TakeTurns(c.table, p.todo, p.token, cfg.claimants[w].leaseMs, turns, cfg.claimants[w].maxRetries, tally).0
    decreases if p.Batch? then |p.todo| else 0
  {
    hide At, R.TakeTurn, TurnAfter;
    AtClaimant(cfg, first, run, w, c, p);
    if tally.threw {
      more, c' := run, c;
    } else if p.todo == [] {
      more := Acts(cfg, first, run, w, c, p, BeginItem);
      c' := c;
    } else if p.todo[0].lockedBy != Some(p.token) {
      more := Acts(cfg, first, run, w, c, p, BeginItem);
      TurnTakesTime(c.clock, turns[0]);
      EarlierIsFine(c.clock, turns[0].at, turns[1..]);
      more, c' := TurnsAreSteps(cfg, first, more, w, c, Advance(p), turns[1..], R.Counted(tally, R.CountsFailed));
    } else {
      var me := cfg.claimants[w];
      var end := R.TakeTurn(c.table, p.todo[0].id, p.token, me.leaseMs, turns[0], me.maxRetries).1;
      more, c' := TurnIsSteps(cfg, first, run, w, c, p, turns[0]);
      EarlierIsFine(c'.clock, turns[0].at, turns[1..]);
      more, c' := TurnsAreSteps(cfg, first, more, w, c', if end.Threw? then Idle else Advance(p), turns[1..], R.Counted(tally, end));
    }
  }

  lemma TurnTakesTime(from: Time, turn: R.Turn)
    requires TurnAfter(from, turn)
    ensures from <= turn.at
  {
    BeatsTakeTime(turn.first.at, turn.beats, turn.at);
  }

  /** What a flush leaves behind: where release and claim stopped, or after the turns. */
  function Flushed(t: Table, me: Claimant, now: Time, owner: string, start: R.Start, turns: seq<R.Turn>): Table
    requires t.Valid() && |turns| >= me.limit
  {
    var (begun, rows) := R.Begun(t, now, owner, me.limit, me.leaseMs, start);
    if rows.None? || |turns| < |rows.value| then begun
    else R.TakeTurns(begun, rows.value, owner, me.leaseMs, turns, me.maxRetries, R.Tally(0, 0, false)).0
  }

  lemma BeginsRound(cfg: Config, run: Run, w: nat, c: Core, now: Time) returns (more: Run)
    requires At(cfg, run, run, w, c, Idle) && c.clock <= now
    ensures At(cfg, run, more, w, c.(clock := now), Sampled(now)) && w in cfg.claimants
  {
    hide At;
    more := Waits(cfg, run, run, w, c, Idle, now);
    more := Acts(cfg, run, more, w, c.(clock := now), Idle, BeginRound);
  }

  lemma Stops(cfg: Config, first: Run, run: Run, w: nat, c: Core, p: Phase) returns (more: Run)
    requires At(cfg, first, run, w, c, p)
    ensures At(cfg, first, more, w, c, Idle)
  {
    hide At;
    more := Acts(cfg, first, run, w, c, p, Crash);
  }

  lemma Releases(cfg: Config, first: Run, run: Run, w: nat, c: Core, now: Time) returns (more: Run)
    requires At(cfg, first, run, w, c, Sampled(now))
    ensures At(cfg, first, more, w, ReleaseAt(c, now), ExpiredReleased(now))
  {
    hide At;
    more := Acts(cfg, first, run, w, c, Sampled(now), ReleaseExpired);
  }

  lemma Claims(cfg: Config, first: Run, run: Run, w: nat, c: Core, now: Time, owner: string) returns (more: Run)
    requires At(cfg, first, run, w, c, ExpiredReleased(now)) && owner !in c.tokens
    ensures w in cfg.claimants && c.table.Valid()
    ensures var me := cfg.claimants[w]; var until := now + me.leaseMs;
      At(cfg, first, more, w, ClaimFor(c, now, me.limit, owner, until), Batch(owner, now, Claim(c.table, now, me.limit, owner, until).1, NotBegun))
  {
    hide At;
    more := Acts(cfg, first, run, w, c, ExpiredReleased(now), ClaimBatch(owner));
  }

  /** The claim and the turns, once the release was answered. */
  function ClaimedAndTurned(released: Table, me: Claimant, now: Time, owner: string, claim: Fault, turns: seq<R.Turn>): Table
    requires released.Valid() && |turns| >= me.limit
  {
    var (claimed, rows) := Claim(released, now, me.limit, owner, now + me.leaseMs);
    match claim
    case RequestLost => released
    case ReplyLost => claimed
    case Healthy =>
      if |turns| < |rows| then claimed
      else R.TakeTurns(claimed, rows, owner, me.leaseMs, turns, me.maxRetries, R.Tally(0, 0, false)).0
  }

  lemma TurnsAfterClaim(cfg: Config, first: Run, run: Run, w: nat, me: Claimant, c: Core, now: Time, owner: string, turns: seq<R.Turn>)
    returns (more: Run, c': Core)
    requires w in cfg.claimants && cfg.claimants[w] == me && c.table.Valid() && c.clock == now
    requires |turns| >= me.limit && TurnsAfter(now, turns)
    requires var until := now + me.leaseMs;
      At(cfg, first, run, w, ClaimFor(c, now, me.limit, owner, until), Batch(owner, now, Claim(c.table, now, me.limit, owner, until).1, NotBegun))
    ensures At(cfg, first, more, w, c', Idle)
    ensures c'.table == ClaimedAndTurned(c.table, me, now, owner, Healthy, turns)
  {
    hide At, R.TakeTurns, Claim, TurnsAfter, R.AllHeld;
    R.ClaimedAreHeld(c.table, now, me.limit, owner, now + me.leaseMs);
    var rows := Claim(c.table, now, me.limit, owner, now + me.leaseMs).1;
    var after := ClaimFor(c, now, me.limit, owner, now + me.leaseMs);
    more, c' := TurnsAreSteps(cfg, first, run, w, after, Batch(owner, now, rows, NotBegun), turns, R.Tally(0, 0, false));
  }

  lemma ClaimAndTurns(cfg: Config, first: Run, run: Run, w: nat, me: Claimant, c: Core, now: Time, owner: string, claim: Fault, turns: seq<R.Turn>)
    returns (more: Run, c': Core)
    requires w in cfg.claimants && cfg.claimants[w] == me && c.table.Valid() && c.clock == now && owner !in c.tokens
    requires |turns| >= me.limit && TurnsAfter(now, turns) && At(cfg, first, run, w, c, ExpiredReleased(now))
    ensures At(cfg, first, more, w, c', Idle)
    ensures c'.table == ClaimedAndTurned(c.table, me, now, owner, claim, turns)
  {
    hide At, R.TakeTurns, Claim, TurnsAfter, ClaimedAndTurned;
    c' := c;
    if claim.RequestLost? {
      more := Stops(cfg, first, run, w, c, ExpiredReleased(now));
    } else {
      more := Claims(cfg, first, run, w, c, now, owner);
      if claim.ReplyLost? {
        c' := ClaimFor(c, now, me.limit, owner, now + me.leaseMs);
        var rows := Claim(c.table, now, me.limit, owner, now + me.leaseMs).1;
        more := Stops(cfg, first, more, w, c', Batch(owner, now, rows, NotBegun));
      } else {
        more, c' := TurnsAfterClaim(cfg, first, more, w, me, c, now, owner, turns);
      }
    }
    ClaimStopped(c, me, now, owner, turns);
  }

  lemma ClaimStopped(c: Core, me: Claimant, now: Time, owner: string, turns: seq<R.Turn>)
    requires c.table.Valid() && |turns| >= me.limit
    ensures ClaimedAndTurned(c.table, me, now, owner, RequestLost, turns) == c.table
    ensures ClaimedAndTurned(c.table, me, now, owner, ReplyLost, turns) == ClaimFor(c, now, me.limit, owner, now + me.leaseMs).table
  {
    hide Claim, R.TakeTurns;
  }

  lemma FlushedParts(t: Table, me: Claimant, now: Time, owner: string, start: R.Start, turns: seq<R.Turn>)
    requires t.Valid() && |turns| >= me.limit
    ensures Release(t, now).Valid()
    ensures Flushed(t, me, now, owner, start, turns) ==
      match start.release
      case RequestLost => t
      case ReplyLost => Release(t, now)
      case Healthy => ClaimedAndTurned(Release(t, now), me, now, owner, start.claim, turns)
  {
    hide Claim, R.TakeTurns, Release;
    R.ReleaseStaysValid(t, now);
    BegunParts(t, me, now, owner, start);
    hide R.Begun;
  }

  lemma BegunParts(t: Table, me: Claimant, now: Time, owner: string, start: R.Start)
    requires t.Valid() && Release(t, now).Valid()
    ensures var claimed := Claim(Release(t, now), now, me.limit, owner, now + me.leaseMs);
      R.Begun(t, now, owner, me.limit, me.leaseMs, start) ==
        match start.release
        case RequestLost => (t, None)
        case ReplyLost => (Release(t, now), None)
        case Healthy =>
          match start.claim
          case RequestLost => (Release(t, now), None)
          case ReplyLost => (claimed.0, None)
          case Healthy => (claimed.0, Some(claimed.1))
  {
    hide Claim, Release;
  }

  /** A flush that begins at `now` under a token not used before, with the clock running on, is
      a run of steps of its claimant alone, with the same effect on the table; a rejected
      release or claim is a claimant that stops before or after that call. */
  lemma FlushIsSteps(cfg: Config, run: Run, w: nat, me: Claimant, c: Core, now: Time, owner: string, start: R.Start, turns: seq<R.Turn>)
    returns (more: Run, c': Core)
    requires w in cfg.claimants && cfg.claimants[w] == me && c.table.Valid() && c.clock <= now && owner !in c.tokens
    requires |turns| >= me.limit && TurnsAfter(now, turns) && At(cfg, run, run, w, c, Idle)
    ensures At(cfg, run, more, w, c', Idle)
    ensures c'.table == Flushed(c.table, me, now, owner, start, turns)
  {
    hide At, R.TakeTurns, Release, Claim, TurnsAfter, Flushed, ClaimedAndTurned;
    FlushedParts(c.table, me, now, owner, start, turns);
    more := BeginsRound(cfg, run, w, c, now);
    c' := c.(clock := now);
    if start.release.RequestLost? {
      more := Stops(cfg, run, more, w, c', Sampled(now));
    } else {
      more := Releases(cfg, run, more, w, c', now);
      c' := ReleaseAt(c', now);
      if start.release.ReplyLost? {
        more := Stops(cfg, run, more, w, c', ExpiredReleased(now));
      } else {
        more, c' := ClaimAndTurns(cfg, run, more, w, me, c', now, owner, start.claim, turns);
      }
    }
  }
}
