/** Runs of two claimants that show where the outbox guarantees end: an emission that starts
    outside its lease, a published row that is completed again, and a dead-lettered row that
    ends up published. */
module OutboxWitnesses {
  import opened Basics
  import opened OutboxStore
  import opened OutboxHistory
  import opened OutboxCore
  import opened OutboxProtocol
  import opened OutboxGuarantees
  import H = Heartbeat

  /** Two claimants with their own maxima. */
  function Two(m1: int, m2: int): Config {
    Config(map[1 := Claimant(10, 1, m1), 2 := Claimant(10, 1, m2)],
           Limits(if m1 < m2 then m1 else m2, if m1 < m2 then m2 else m1))
  }

  function MaximumOf(cfg: Config, w: nat): int {
    if w in cfg.claimants then cfg.claimants[w].maxRetries else 0
  }

  lemma Extend(cfg: Config, run: Run, step: Step)
    requires Legal(cfg, run) && Enabled(cfg, End(cfg, run), step)
    ensures End(cfg, run).core.table.Valid()
    ensures Legal(cfg, After(run, step)) && End(cfg, After(run, step)) == Next(cfg, End(cfg, run), step)
  {
    RunKeeps(cfg, run);
  }

  function Fresh(): Row {
    NewRow("a", "topic", "payload")
  }

  function One(row: Row): Table {
    Table(map["a" := row], ["a"])
  }

  // ---------------------------------------------------------------- the store with one row

  lemma ClaimOne(row: Row, now: Time, token: string, until: Time)
    requires row.id == "a" && IsClaimable(row, now)
    ensures Claim(One(row), now, 1, token, until) == (One(Locked(row, token, until)), [Locked(row, token, until)])
  {
    var t := One(row);
    assert t.order[..0] == [] && ClaimableIds(t, [], now) == [];
    assert ClaimableIds(t, t.order, now) == ["a"];
    assert ClaimIds(t, now, 1) == ["a"];
    var after := LockAll(t, ["a"], token, until);
    assert after.rows == map["a" := Locked(row, token, until)];
    assert RowsOf(after, ["a"]) == [after.rows["a"]];
  }

  lemma ReleaseOne(row: Row, now: Time)
    ensures Release(One(row), now) == One(Released(row, now))
  {
    assert Release(One(row), now).rows == map["a" := Released(row, now)];
  }

  lemma RenewOne(row: Row, token: string, now: Time)
    requires row.id == "a"
    ensures Renew(One(Locked(row, token, now + 10)), "a", token, now, now + 10) == (One(Locked(row, token, now + 10)), true)
  {
    var held := Locked(row, token, now + 10);
    assert One(held).rows["a" := held] == One(held).rows;
  }

  function WrittenRow(row: Row, w: Completion, maxRetries: int): Row {
    match w
    case Success(at) => AsPublished(row, at)
    case Failure(error, retryAt) => AsFailed(row, error, maxRetries, retryAt)
  }

  lemma WriteOne(row: Row, w: Completion, maxRetries: int, expected: Option<string>)
    requires row.id == "a" && OwnsClaim(row, expected)
    ensures Write(One(row), "a", w, maxRetries, expected) == (One(WrittenRow(row, w, maxRetries)), true)
  {
    assert One(row).rows["a" := WrittenRow(row, w, maxRetries)] == One(WrittenRow(row, w, maxRetries)).rows;
  }

  // ---------------------------------------------------------------- a round

  function Claiming(run: Run, w: nat, token: string): Run {
    After(After(After(run, Act(w, BeginRound)), Act(w, ReleaseExpired)), Act(w, ClaimBatch(token)))
  }

  /** From `BeginRound` until the lease of the one row is granted anew. */
  function Granting(run: Run, w: nat, token: string): Run {
    After(After(Claiming(run, w, token), Act(w, BeginItem)), Act(w, RenewFirst(Healthy)))
  }

  /** From there until the completion is written. */
  function Settling(run: Run, w: nat, outcome: H.Outcome, retryAt: Time): Run {
    var emitted := After(After(run, Act(w, StartEmit)), Act(w, EmitSettles(outcome)));
    After(After(emitted, Act(w, BeginWrite)), Act(w, FencedWrite("error", retryAt, Healthy)))
  }

  ghost predicate ReadyToClaim(s: State, w: nat, row: Row, token: string) {
    && (w == 1 || w == 2) && w in s.phases && s.phases[w].Idle?
    && s.core.table == One(row) && row.id == "a" && token !in s.core.tokens
    && IsClaimable(Released(row, s.core.clock), s.core.clock)
  }

  lemma ClaimingClaims(m1: int, m2: int, run: Run, w: nat, row: Row, token: string)
    requires Legal(Two(m1, m2), run) && ReadyToClaim(End(Two(m1, m2), run), w, row, token)
    ensures Legal(Two(m1, m2), Claiming(run, w, token))
    ensures var (s, s') := (End(Two(m1, m2), run), End(Two(m1, m2), Claiming(run, w, token)));
      var held := Locked(Released(row, s.core.clock), token, s.core.clock + 10);
      && s'.phases == s.phases[w := Batch(token, s.core.clock, [held], NotBegun)]
      && s'.core == Core(s.core.clock, One(held), Then(s.core.history, Claimed(token, [held])), s.core.tokens + {token})
  {
    hide Claim, Release, Renew, StateInv, Legal, End;
    var cfg, now := Two(m1, m2), End(Two(m1, m2), run).core.clock;
    ReleaseOne(row, now);
    ClaimOne(Released(row, now), now, token, now + 10);
    var r1 := After(run, Act(w, BeginRound));
    Extend(cfg, run, Act(w, BeginRound));
    var r2 := After(r1, Act(w, ReleaseExpired));
    Extend(cfg, r1, Act(w, ReleaseExpired));
    Extend(cfg, r2, Act(w, ClaimBatch(token)));
  }

  lemma GrantingGrants(m1: int, m2: int, run: Run, w: nat, row: Row, token: string)
    requires Legal(Two(m1, m2), run) && ReadyToClaim(End(Two(m1, m2), run), w, row, token)
    ensures Legal(Two(m1, m2), Granting(run, w, token))
    ensures var (s, s') := (End(Two(m1, m2), run), End(Two(m1, m2), Granting(run, w, token)));
      var held := Locked(Released(row, s.core.clock), token, s.core.clock + 10);
      && s'.phases == s.phases[w := Batch(token, s.core.clock, [held], Granted(s.core.clock + 10))]
      && s'.core.clock == s.core.clock && s'.core.table == One(held) && s'.core.tokens == s.core.tokens + {token}
      && s'.core.history
         == Then(Then(s.core.history, Claimed(token, [held])), Renewed("a", token, s.core.clock + 10))
  {
    hide Claim, Release, Renew, StateInv, Legal, End;
    var cfg, now := Two(m1, m2), End(Two(m1, m2), run).core.clock;
    ClaimingClaims(m1, m2, run, w, row, token);
    RenewOne(Released(row, now), token, now);
    var r3 := Claiming(run, w, token);
    var r4 := After(r3, Act(w, BeginItem));
    Extend(cfg, r3, Act(w, BeginItem));
    Extend(cfg, r4, Act(w, RenewFirst(Healthy)));
  }

  ghost predicate ReadyToEmit(s: State, w: nat, held: Row, token: string) {
    && (w == 1 || w == 2) && w in s.phases && AtItem(s.phases[w]) && s.phases[w].todo == [held]
    && s.phases[w].token == token && s.phases[w].item.Granted?
    && s.core.table == One(held) && held.id == "a" && OwnsClaim(held, Some(token))
  }

  lemma EmittingEnds(m1: int, m2: int, run: Run, w: nat, held: Row, token: string, outcome: H.Outcome)
    requires Legal(Two(m1, m2), run) && ReadyToEmit(End(Two(m1, m2), run), w, held, token)
    ensures var later := After(After(run, Act(w, StartEmit)), Act(w, EmitSettles(outcome)));
      && Legal(Two(m1, m2), later)
      && var (s, s') := (End(Two(m1, m2), run), End(Two(m1, m2), later));
      && s'.phases == s.phases[w := s.phases[w].(item := Finished(outcome))]
      && s'.core.table == s.core.table && s'.core.clock == s.core.clock && s'.core.tokens == s.core.tokens
      && Completions(s'.core.history) == Completions(s.core.history)
  {
    hide Claim, Release, Renew, StateInv, Legal, End;
    var cfg := Two(m1, m2);
    var r1 := After(run, Act(w, StartEmit));
    Extend(cfg, run, Act(w, StartEmit));
    assert Completions(End(cfg, r1).core.history) == Completions(End(cfg, run).core.history);
    Extend(cfg, r1, Act(w, EmitSettles(outcome)));
  }

  lemma SettlingSettles(m1: int, m2: int, run: Run, w: nat, held: Row, token: string, outcome: H.Outcome, retryAt: Time)
    requires Legal(Two(m1, m2), run) && ReadyToEmit(End(Two(m1, m2), run), w, held, token)
    ensures Legal(Two(m1, m2), Settling(run, w, outcome, retryAt))
    ensures var (s, s') := (End(Two(m1, m2), run), End(Two(m1, m2), Settling(run, w, outcome, retryAt)));
      && s'.phases == s.phases[w := s.phases[w].(todo := [], item := NotBegun)]
      && s'.core.table == One(WrittenRow(held, CompletionFor(outcome, s.core.clock, "error", retryAt), MaximumOf(Two(m1, m2), w)))
      && s'.core.clock == s.core.clock && s'.core.tokens == s.core.tokens
      && Completions(s'.core.history) == Completions(s.core.history) + 1
  {
    hide Claim, Release, Renew, StateInv, Legal, End, Write, WrittenRow;
    var cfg, now := Two(m1, m2), End(Two(m1, m2), run).core.clock;
    EmittingEnds(m1, m2, run, w, held, token, outcome);
    WriteOne(held, CompletionFor(outcome, now, "error", retryAt), MaximumOf(Two(m1, m2), w), Some(token));
    var r2 := After(After(run, Act(w, StartEmit)), Act(w, EmitSettles(outcome)));
    var r3 := After(r2, Act(w, BeginWrite));
    Extend(cfg, r2, Act(w, BeginWrite));
    Extend(cfg, r3, Act(w, FencedWrite("error", retryAt, Healthy)));
    assert [held][1..] == [];
  }

  lemma UnfencedOne(m1: int, m2: int, run: Run, row: Row, w: Completion, maxRetries: int)
    requires Legal(Two(m1, m2), run) && Two(m1, m2).limits.Has(maxRetries) && End(Two(m1, m2), run).core.table == One(row) && row.id == "a"
    ensures var later := After(run, UnfencedWrite("a", w, maxRetries));
      && Legal(Two(m1, m2), later)
      && var (s, s') := (End(Two(m1, m2), run), End(Two(m1, m2), later));
      && s'.phases == s.phases && s'.core.table == One(WrittenRow(row, w, maxRetries))
      && s'.core.clock == s.core.clock && s'.core.tokens == s.core.tokens
      && Completions(s'.core.history) == Completions(s.core.history)
  {
    WriteOne(row, w, maxRetries, None);
    hide Legal, End, StateInv, Write, WrittenRow;
    Extend(Two(m1, m2), run, UnfencedWrite("a", w, maxRetries));
  }

  /** A published message that nobody has claimed yet. */
  function Saved(): Run {
    After(Empty(0), Publish("a", "topic", "payload"))
  }

  lemma SavedRow(m1: int, m2: int)
    requires m1 >= 1 && m2 >= 1
    ensures Legal(Two(m1, m2), Saved())
    ensures var s := End(Two(m1, m2), Saved());
      && s.phases == map[1 := Idle, 2 := Idle] && s.core.clock == 0 && s.core.table == One(Fresh()) && s.core.tokens == {}
      && s.core.history == Then(Start, OutboxHistory.Saved("a"))
  {
    var cfg := Two(m1, m2);
    assert Legal(cfg, Empty(0));
    assert End(cfg, Empty(0)).phases == map[1 := Idle, 2 := Idle];
    hide Legal, End, StateInv;
    Extend(cfg, Empty(0), Publish("a", "topic", "payload"));
    assert End(cfg, Saved()).core.table == One(Fresh());
  }

  // ---------------------------------------------------------------- overlapping emissions

  /** The first claimant is granted its lease, and waits until that has run out. */
  lemma FirstWaits() returns (run: Run)
    ensures Legal(Two(3, 3), run)
    ensures var s := End(Two(3, 3), run);
      var held := Locked(Fresh(), "t", 10);
      && s.phases == map[1 := Batch("t", 0, [held], Granted(10)), 2 := Idle]
      && s.core.clock == 10 && s.core.table == One(held) && s.core.tokens == {"t"}
      && s.core.history == Then(Then(Then(Start, OutboxHistory.Saved("a")), Claimed("t", [held])), Renewed("a", "t", 10))
  {
    hide Legal, End, StateInv, Granting, Saved;
    SavedRow(3, 3);
    GrantingGrants(3, 3, Saved(), 1, Fresh(), "t");
    var r2 := Granting(Saved(), 1, "t");
    run := After(r2, Tick(10));
    Extend(Two(3, 3), r2, Tick(10));
  }

  /** There is a run in which claim `t` starts an emission at its deadline while claim `u`,
      whose lease is still good and which has not settled, is emitting the same row. */
  lemma EmissionsCanOverlap() returns (run: Run)
    ensures Legal(Two(3, 3), run)
    ensures var h := End(Two(3, 3), run).core.history;
      && h.Then? && h.last == EmitStarted("a", "t", 10, 10)
      && StartedIn(h.past, "a", "u") && !SettledIn(h.past, "a", "u") && Deadline(h.past, "a", "u") == Some(20)
      && Intact(h.past, "a", "t") && Intact(h.past, "a", "u")
  {
    hide Legal, End, StateInv;
    var cfg := Two(3, 3);
    var r3 := FirstWaits();
    GrantingGrants(3, 3, r3, 2, Locked(Fresh(), "t", 10), "u");
    var r4 := Granting(r3, 2, "u");
    var r5 := After(r4, Act(2, StartEmit));
    Extend(cfg, r4, Act(2, StartEmit));
    run := After(r5, Act(1, StartEmit));
    Extend(cfg, r5, Act(1, StartEmit));
    assert End(cfg, run).core.history.past == End(cfg, r5).core.history;
    OverlapFacts(End(cfg, r3).core.history, Locked(Fresh(), "t", 10), End(cfg, r4).core.table.rows["a"]);
  }

  lemma OverlapFacts(h: History, t: Row, u: Row)
    requires t.id == "a" && u.id == "a"
    requires h == Then(Then(Then(Start, OutboxHistory.Saved("a")), Claimed("t", [t])), Renewed("a", "t", 10))
    ensures var h' := Then(Then(Then(h, Claimed("u", [u])), Renewed("a", "u", 20)), EmitStarted("a", "u", 10, 20));
      && StartedIn(h', "a", "u") && !SettledIn(h', "a", "u") && Deadline(h', "a", "u") == Some(20)
      && Intact(h', "a", "t") && Intact(h', "a", "u")
  {
    var saved := Then(Start, OutboxHistory.Saved("a"));
    var claimed := Then(saved, Claimed("t", [t]));
    assert !SettledIn(saved, "a", "u") && Intact(saved, "a", "u") && Intact(saved, "a", "t");
    assert !SettledIn(claimed, "a", "u") && Intact(claimed, "a", "u") && Intact(claimed, "a", "t");
    assert Intact(h, "a", "t") && !SettledIn(h, "a", "u") && Intact(h, "a", "u");
    var h1 := Then(h, Claimed("u", [u]));
    assert Intact(h1, "a", "t") && !SettledIn(h1, "a", "u") && Intact(h1, "a", "u");
    var h2 := Then(h1, Renewed("a", "u", 20));
    assert Intact(h2, "a", "t") && !SettledIn(h2, "a", "u") && Intact(h2, "a", "u") && Deadline(h2, "a", "u") == Some(20);
  }

  // ---------------------------------------------------------------- a published row completed again

  function PublishedOnce(): Run {
    Settling(Granting(Saved(), 1, "t"), 1, H.Fulfilled, 0)
  }

  /** The immediate publish of the same message fails after the scheduler has published it. */
  function Revived(): Run {
    After(PublishedOnce(), UnfencedWrite("a", Failure("error", 0), 3))
  }

  function PublishedTwice(): Run {
    Settling(Granting(Revived(), 2, "u"), 2, H.Fulfilled, 0)
  }

  lemma PublishedOnceRow()
    ensures Legal(Two(3, 3), PublishedOnce())
    ensures var s := End(Two(3, 3), PublishedOnce());
      && s.phases == map[1 := Batch("t", 0, [], NotBegun), 2 := Idle] && s.core.clock == 0 && s.core.tokens == {"t"}
      && s.core.table == One(AsPublished(Fresh(), 0))
  {
    hide Legal, End, StateInv, Granting, Settling, Saved, Next;
    SavedRow(3, 3);
    GrantingGrants(3, 3, Saved(), 1, Fresh(), "t");
    SettlingSettles(3, 3, Granting(Saved(), 1, "t"), 1, Locked(Fresh(), "t", 10), "t", H.Fulfilled, 0);
    assert AsPublished(Locked(Fresh(), "t", 10), 0) == AsPublished(Fresh(), 0);
  }

  ghost predicate NoNewWork(earlier: Run, later: Run) {
    later == earlier
    || (later.After? && !later.step.Publish? && !later.step.ManualRequeue? && NoNewWork(earlier, later.run))
  }

  lemma RoundIsNoNewWork(earlier: Run, run: Run, w: nat, token: string)
    requires NoNewWork(earlier, run)
    ensures NoNewWork(earlier, Settling(Granting(run, w, token), w, H.Fulfilled, 0))
  {
    var r1 := After(run, Act(w, BeginRound));
    assert NoNewWork(earlier, r1);
    assert NoNewWork(earlier, After(r1, Act(w, ReleaseExpired)));
    assert NoNewWork(earlier, Claiming(run, w, token));
    assert NoNewWork(earlier, After(Claiming(run, w, token), Act(w, BeginItem)));
    var r2 := Granting(run, w, token);
    assert NoNewWork(earlier, r2);
    assert NoNewWork(earlier, After(r2, Act(w, StartEmit)));
    var r3 := After(After(r2, Act(w, StartEmit)), Act(w, EmitSettles(H.Fulfilled)));
    assert NoNewWork(earlier, r3);
    assert NoNewWork(earlier, After(r3, Act(w, BeginWrite)));
  }

  /** The run in which one row, published with no attempts left, is revived by the failure of
      its immediate publish and completed once more: without the exception for such failures
      the bound on completions would be wrong. */
  lemma PublishedRowCompletedAgain()
    ensures Legal(Two(3, 3), PublishedTwice()) && Legal(Two(3, 3), PublishedOnce())
    ensures NoNewWork(PublishedOnce(), PublishedTwice())
    ensures var (s, s') := (End(Two(3, 3), PublishedOnce()).core, End(Two(3, 3), PublishedTwice()).core);
      && s.table.rows == map["a" := AsPublished(Fresh(), 0)] && AttemptsLeft(s.table.rows["a"], 3) == 0
      && Revives(s.table, "a", Failure("error", 0), 3)
      && Completions(s'.history) == Completions(s.history) + 1
  {
    hide Legal, End, StateInv, Granting, Settling, PublishedOnce, Next;
    PublishedOnceRow();
    assert NoNewWork(PublishedOnce(), PublishedOnce());
    assert NoNewWork(PublishedOnce(), Revived());
    RoundIsNoNewWork(PublishedOnce(), Revived(), 2, "u");
    var published := AsPublished(Fresh(), 0);
    UnfencedOne(3, 3, PublishedOnce(), published, Failure("error", 0), 3);
    var revived := AsFailed(published, "error", 3, 0);
    GrantingGrants(3, 3, Revived(), 2, revived, "u");
    var held := Locked(revived, "u", 10);
    CompletionsOfGrant(3, 3, Revived(), "u", held);
    SettlingSettles(3, 3, Granting(Revived(), 2, "u"), 2, held, "u", H.Fulfilled, 0);
  }

  lemma CompletionsOfGrant(m1: int, m2: int, run: Run, token: string, held: Row)
    requires Legal(Two(m1, m2), run)
    ensures var h := End(Two(m1, m2), run).core.history;
      Completions(Then(Then(h, Claimed(token, [held])), Renewed("a", token, 10))) == Completions(h)
  {
  }

  // ---------------------------------------------------------------- a dead-lettered row published

  function DeadLettered(): Run {
    Settling(Granting(Saved(), 1, "t"), 1, H.Rejected, 0)
  }

  /** With a single attempt allowed, the scheduler's emission fails and dead-letters the row;
      the immediate publish of the same message then succeeds and leaves it published at the
      maximum retry count. */
  lemma DeadLetteredRowPublished()
    ensures Legal(Two(1, 1), DeadLettered()) && End(Two(1, 1), DeadLettered()).core.table.rows.Keys == {"a"}
    ensures End(Two(1, 1), DeadLettered()).core.table.rows["a"].status == DeadLetter
    ensures var run := After(DeadLettered(), UnfencedWrite("a", Success(0), 1));
      && Legal(Two(1, 1), run) && End(Two(1, 1), run).core.table.rows.Keys == {"a"}
      && var row := End(Two(1, 1), run).core.table.rows["a"];
      && row.status == Published && row.retryCount == 1 == Two(1, 1).limits.greatest
  {
    hide Legal, End, StateInv, Granting, Settling, Saved, Next;
    SavedRow(1, 1);
    GrantingGrants(1, 1, Saved(), 1, Fresh(), "t");
    var held := Locked(Fresh(), "t", 10);
    SettlingSettles(1, 1, Granting(Saved(), 1, "t"), 1, held, "t", H.Rejected, 0);
    UnfencedOne(1, 1, DeadLettered(), AsFailed(held, "error", 1, 0), Success(0), 1);
  }

  // ---------------------------------------------------------------- different maxima

  function FailedRound(run: Run, w: nat, token: string): Run {
    After(Settling(Granting(run, w, token), w, H.Rejected, 0), Act(w, BeginItem))
  }

  function Token(k: nat): string {
    seq(k, i => 'x')
  }

  /** Nobody is in a round, and the row is waiting with `k` failures. */
  ghost predicate Waiting(s: State, k: nat) {
    && s.phases == map[1 := Idle, 2 := Idle] && s.core.clock == 0
    && (forall t <- s.core.tokens :: |t| < k)
    && exists row :: s.core.table == One(row) && FailedTimes(row, k)
  }

  predicate FailedTimes(row: Row, k: nat) {
    && row.id == "a" && row.retryCount == k && row.lockedBy.None? && row.lockedUntil.None?
    && (row.status == Pending || (row.status == Failed && row.nextRetryAt == Some(0)))
  }

  /** A round that fails counts one failure, and dead-letters the row when the claimant's own
      maximum is reached. */
  lemma RoundFails(m1: int, m2: int, run: Run, w: nat, k: nat)
    requires Legal(Two(m1, m2), run) && Waiting(End(Two(m1, m2), run), k) && (w == 1 || w == 2)
    ensures Legal(Two(m1, m2), FailedRound(run, w, Token(k)))
    ensures var s := End(Two(m1, m2), FailedRound(run, w, Token(k)));
      && s.phases == map[1 := Idle, 2 := Idle] && s.core.clock == 0
      && (forall t <- s.core.tokens :: |t| < k + 1)
      && s.core.table.rows.Keys == {"a"}
      && (k + 1 < MaximumOf(Two(m1, m2), w) ==> Waiting(s, k + 1))
      && (k + 1 >= MaximumOf(Two(m1, m2), w) ==>
            s.core.table.rows["a"].status == DeadLetter && s.core.table.rows["a"].retryCount == k + 1)
  {
    var row :| End(Two(m1, m2), run).core.table == One(row) && FailedTimes(row, k);
    hide Legal, End, FailedRound;
    TokenIsNew(End(Two(m1, m2), run), k);
    assert Released(row, 0) == row && ReadyToClaim(End(Two(m1, m2), run), w, row, Token(k));
    RoundFailsRow(m1, m2, run, w, row, Token(k));
    var failed := AsFailed(Locked(row, Token(k), 10), "error", MaximumOf(Two(m1, m2), w), 0);
    assert k + 1 < MaximumOf(Two(m1, m2), w) ==> FailedTimes(failed, k + 1);
  }

  lemma RoundFailsRow(m1: int, m2: int, run: Run, w: nat, row: Row, token: string)
    requires Legal(Two(m1, m2), run) && ReadyToClaim(End(Two(m1, m2), run), w, row, token)
    requires End(Two(m1, m2), run).core.clock == 0 && Released(row, 0) == row
    ensures Legal(Two(m1, m2), FailedRound(run, w, token))
    ensures var (s, s') := (End(Two(m1, m2), run), End(Two(m1, m2), FailedRound(run, w, token)));
      && s'.phases == s.phases && s'.core.clock == 0 && s'.core.tokens == s.core.tokens + {token}
      && s'.core.table == One(AsFailed(Locked(row, token, 10), "error", MaximumOf(Two(m1, m2), w), 0))
  {
    hide Legal, End, StateInv, Granting, Settling, Next, AsFailed, IsClaimable, Released, Two, MaximumOf;
    GrantingGrants(m1, m2, run, w, row, token);
    RoundSettles(m1, m2, Granting(run, w, token), w, Locked(row, token, 10), token, End(Two(m1, m2), run).phases);
  }

  lemma RoundSettles(m1: int, m2: int, run: Run, w: nat, held: Row, token: string, idle: map<nat, Phase>)
    requires Legal(Two(m1, m2), run) && (w == 1 || w == 2) && held.id == "a" && OwnsClaim(held, Some(token))
    requires w in idle && idle[w].Idle?
    requires var s := End(Two(m1, m2), run);
      && s.phases == idle[w := Batch(token, 0, [held], Granted(10))]
      && s.core.clock == 0 && s.core.table == One(held)
    ensures var later := After(Settling(run, w, H.Rejected, 0), Act(w, BeginItem));
      && Legal(Two(m1, m2), later)
      && var (s, s') := (End(Two(m1, m2), run), End(Two(m1, m2), later));
      && s'.phases == idle && s'.core.clock == 0 && s'.core.tokens == s.core.tokens
      && s'.core.table == One(AsFailed(held, "error", MaximumOf(Two(m1, m2), w), 0))
  {
    hide Legal, End, StateInv, Settling, Next, AsFailed, Two, MaximumOf;
    SettlingSettles(m1, m2, run, w, held, token, H.Rejected, 0);
    var settled := Settling(run, w, H.Rejected, 0);
    assert End(Two(m1, m2), settled).phases == idle[w := Batch(token, 0, [], NotBegun)];
    RoundCloses(m1, m2, settled, w, token, idle);
  }

  lemma RoundCloses(m1: int, m2: int, run: Run, w: nat, token: string, idle: map<nat, Phase>)
    requires Legal(Two(m1, m2), run) && (w == 1 || w == 2) && w in idle && idle[w].Idle?
    requires End(Two(m1, m2), run).phases == idle[w := Batch(token, 0, [], NotBegun)]
    ensures Legal(Two(m1, m2), After(run, Act(w, BeginItem)))
    ensures var (s, s') := (End(Two(m1, m2), run), End(Two(m1, m2), After(run, Act(w, BeginItem))));
      s'.core == s.core && s'.phases == idle
  {
    hide Legal, End, StateInv;
    Extend(Two(m1, m2), run, Act(w, BeginItem));
    assert idle[w := Batch(token, 0, [], NotBegun)][w := Idle] == idle;
  }

  lemma TokenIsNew(s: State, k: nat)
    requires Waiting(s, k)
    ensures |Token(k)| == k && Token(k) !in s.core.tokens
  {
  }

  function Rounds(w: nat, k: nat): Run {
    if k == 0 then Saved() else FailedRound(Rounds(w, k - 1), w, Token(k - 1))
  }

  lemma {:induction false} RoundsFail(m1: int, m2: int, w: nat, k: nat)
    requires m1 >= 1 && m2 >= 1 && (w == 1 || w == 2) && k < MaximumOf(Two(m1, m2), w)
    ensures Legal(Two(m1, m2), Rounds(w, k)) && Waiting(End(Two(m1, m2), Rounds(w, k)), k)
  {
    hide Legal, End, Waiting;
    if k == 0 {
      SavedRow(m1, m2);
      SavedWaits(m1, m2);
    } else {
      RoundsFail(m1, m2, w, k - 1);
      RoundFails(m1, m2, Rounds(w, k - 1), w, k - 1);
    }
  }

  lemma SavedWaits(m1: int, m2: int)
    requires m1 >= 1 && m2 >= 1
    ensures Legal(Two(m1, m2), Saved()) && Waiting(End(Two(m1, m2), Saved()), 0)
  {
    SavedRow(m1, m2);
    assert FailedTimes(Fresh(), 0);
  }

  /** With a smaller and a greater maximum, a claimant with the greater one leaves the row live at
      the smaller maximum, and one with the smaller dead-letters it below the greater. */
  lemma TwoMaximaDisagree(m1: nat, m2: nat)
    requires 1 <= m1 < m2
    ensures Legal(Two(m1, m2), Rounds(2, m1)) && Waiting(End(Two(m1, m2), Rounds(2, m1)), m1)
    ensures var run := FailedRound(Rounds(2, m1 - 1), 1, Token(m1 - 1));
      && Legal(Two(m1, m2), run) && End(Two(m1, m2), run).core.table.rows.Keys == {"a"}
      && var row := End(Two(m1, m2), run).core.table.rows["a"];
      row.status == DeadLetter && row.retryCount == m1
  {
    hide Legal, End, Rounds, FailedRound, Waiting;
    RoundsFail(m1, m2, 2, m1);
    RoundsFail(m1, m2, 2, m1 - 1);
    RoundFails(m1, m2, Rounds(2, m1 - 1), 1, m1 - 1);
  }

  /** One maximum splits live from dead-lettered rows in all runs exactly when the two agree. */
  lemma OneMaximumIff(m1: nat, m2: nat)
    requires 1 <= m1 <= m2
    ensures (exists m :: OneMaximum(Two(m1, m2), m)) <==> m1 == m2
  {
    hide Legal, End, Rounds, FailedRound;
    if m1 == m2 {
      AgreedMaximumSplits(Two(m1, m2));
    } else {
      TwoMaximaDisagree(m1, m2);
      forall m ensures !OneMaximum(Two(m1, m2), m) {
        NoCommonMaximum(m1, m2, m);
      }
    }
  }

  lemma NoCommonMaximum(m1: nat, m2: nat, m: int)
    requires 1 <= m1 < m2
    ensures !OneMaximum(Two(m1, m2), m)
  {
    TwoMaximaDisagree(m1, m2);
    var dead, live := FailedRound(Rounds(2, m1 - 1), 1, Token(m1 - 1)), Rounds(2, m1);
    WaitingIsLive(End(Two(m1, m2), live), m1);
    hide Legal, End, Rounds, FailedRound, Waiting;
    assert "a" in End(Two(m1, m2), dead).core.table.rows && "a" in End(Two(m1, m2), live).core.table.rows;
    assert !SplitsAt(End(Two(m1, m2), dead).core.table, m) || !SplitsAt(End(Two(m1, m2), live).core.table, m);
  }

  lemma WaitingIsLive(s: State, k: nat)
    requires Waiting(s, k)
    ensures "a" in s.core.table.rows
    ensures var row := s.core.table.rows["a"]; row.retryCount == k && row.status in {Pending, Failed}
  {
    var row :| s.core.table == One(row) && FailedTimes(row, k);
  }

  // ---------------------------------------------------------------- a dead-lettered row revived

  /** A claimant dead-letters the row under its maximum of 1; the immediate publish then fails
      under its own maximum of 3 and makes the row live again. */
  lemma DeadLetteredRowRevived()
    ensures var dead := FailedRound(Saved(), 1, Token(0));
      && Legal(Two(1, 3), dead) && End(Two(1, 3), dead).core.table.rows.Keys == {"a"}
      && End(Two(1, 3), dead).core.table.rows["a"].status == DeadLetter
      && Revives(End(Two(1, 3), dead).core.table, "a", Failure("error", 0), 3)
      && var run := After(dead, UnfencedWrite("a", Failure("error", 0), 3));
      && Legal(Two(1, 3), run) && End(Two(1, 3), run).core.table.rows.Keys == {"a"}
      && End(Two(1, 3), run).core.table.rows["a"].status == Failed
  {
    hide Legal, End, FailedRound, Next, StateInv;
    SavedWaits(1, 3);
    RoundFails(1, 3, Saved(), 1, 0);
    var dead := FailedRound(Saved(), 1, Token(0));
    FinishedIsOne(1, 3, dead);
    UnfencedOne(1, 3, dead, End(Two(1, 3), dead).core.table.rows["a"], Failure("error", 0), 3);
  }

  lemma FinishedIsOne(m1: int, m2: int, run: Run)
    requires Legal(Two(m1, m2), run) && End(Two(m1, m2), run).core.table.rows.Keys == {"a"}
    ensures var t := End(Two(m1, m2), run).core.table;
      t == One(t.rows["a"]) && t.rows["a"].id == "a"
  {
    RunKeeps(Two(m1, m2), run);
    var t := End(Two(m1, m2), run).core.table;
    assert t.Valid();
    assert t.rows == map["a" := t.rows["a"]];
    OnlyOneIn(t.order);
  }

  lemma OnlyOneIn(order: seq<string>)
    requires (forall i, j :: 0 <= i < j < |order| ==> order[i] != order[j]) && forall x :: x in order <==> x == "a"
    ensures order == ["a"]
  {
    assert "a" in order;
    assert |order| >= 2 ==> order[0] != order[1];
    forall i | 0 <= i < |order| ensures order[i] == "a" { assert order[i] in order; }
    assert |order| == 1 && order == [order[0]];
  }
}
