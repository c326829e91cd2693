/** One round of the dashboard's `flushOutbox` (libs/cap-dashboard-core/src/dashboard.service.ts)
    when nobody else acts: the loop with its counters, in place, with storage calls that may be
    rejected before or after they took effect. Rounds that share the store are the subject of
    `OutboxProtocol`. */
module OutboxRound {
  import opened Basics
  import opened OutboxStore

  datatype Ending = Fulfilled | Rejected(error: string)

  /** A renewal: the clock sample it sends, and how the call goes. */
  datatype Renewal = Renewal(at: Time, fault: Fault)

  /** One row's turn: the renewal before the emission, the heartbeat's renewals during it, and
      the completion with the retry time it offers. */
  datatype Turn = Turn(first: Renewal, beats: seq<Renewal>, ending: Ending, at: Time, retryAt: Time, write: Fault)

  // ---------------------------------------------------------------- one row's turn, on tables

  /** `renewDashboardClaim`: a rejected call counts as a lost claim. */
  function RenewWith(t: Table, id: string, owner: string, leaseMs: nat, r: Renewal): (Table, bool) {
    var (after, renewed) := Renew(t, id, owner, r.at, r.at + leaseMs);
    match r.fault
    case Healthy => (after, renewed)
    case RequestLost => (t, false)
    case ReplyLost => (after, false)
  }

  /** The heartbeat's renewals, up to the first one that does not succeed. */
  function Beat(t: Table, id: string, owner: string, leaseMs: nat, beats: seq<Renewal>): (Table, bool)
    decreases |beats|
  {
    if beats == [] then (t, true)
    else
      var (renewed, kept) := RenewWith(t, id, owner, leaseMs, beats[0]);
      if kept then Beat(renewed, id, owner, leaseMs, beats[1..]) else (renewed, false)
  }

  /** How a row's turn counts; a rejected completion leaves the loop. */
  datatype TurnEnd = CountsPublished | CountsFailed | Threw

  function Completed(t: Table, id: string, owner: string, turn: Turn, maxRetries: int): (Table, bool) {
    match turn.ending
    case Fulfilled => Complete(t, id, turn.at, Some(owner))
    case Rejected(error) => (Fail(t, id, error, maxRetries, turn.retryAt, Some(owner)).0, false)
  }

  function Finish(t: Table, id: string, owner: string, turn: Turn, maxRetries: int): (Table, TurnEnd) {
    var (after, published) := Completed(t, id, owner, turn, maxRetries);
    match turn.write
    case Healthy => (after, if published then CountsPublished else CountsFailed)
    case RequestLost => (t, Threw)
    case ReplyLost => (after, Threw)
  }

  function TakeTurn(t: Table, id: string, owner: string, leaseMs: nat, turn: Turn, maxRetries: int): (Table, TurnEnd) {
    var (renewed, granted) := RenewWith(t, id, owner, leaseMs, turn.first);
    if !granted then (renewed, CountsFailed)
    else
      var (beaten, kept) := Beat(renewed, id, owner, leaseMs, turn.beats);
      if !kept then (beaten, CountsFailed) else Finish(beaten, id, owner, turn, maxRetries)
  }

  /** The counters, and whether a rejected completion has left the loop. */
  datatype Tally = Tally(published: nat, failed: nat, threw: bool)

  function Counted(tally: Tally, end: TurnEnd): Tally {
    match end
    case CountsPublished => tally.(published := tally.published + 1)
    case CountsFailed => tally.(failed := tally.failed + 1)
    case Threw => tally.(threw := true)
  }

  /** The turns of the claimed rows, up to a rejected completion. */
  function TakeTurns(t: Table, rows: seq<Row>, owner: string, leaseMs: nat, turns: seq<Turn>, maxRetries: int, tally: Tally): (Table, Tally)
    requires |turns| >= |rows|
    decreases |rows|
  {
    if rows == [] || tally.threw then (t, tally)
    else if rows[0].lockedBy != Some(owner) then
      TakeTurns(t, rows[1..], owner, leaseMs, turns[1..], maxRetries, Counted(tally, CountsFailed))
    else
      var (after, end) := TakeTurn(t, rows[0].id, owner, leaseMs, turns[0], maxRetries);
      TakeTurns(after, rows[1..], owner, leaseMs, turns[1..], maxRetries, Counted(tally, end))
  }

  /** The counters of a flush, or the answer of the outer `catch`. */
  datatype Answer = Flushed(published: nat, failed: nat) | FlushFailed

  predicate Succeeded(a: Answer) {
    a.Flushed? && a.failed == 0
  }

  function AnswerOf(tally: Tally): Answer {
    if tally.threw then FlushFailed else Flushed(tally.published, tally.failed)
  }

  /** How the release and the claim go. */
  datatype Start = Start(release: Fault, claim: Fault)

  /** The table once release and claim have been answered, or where they stopped. */
  function Begun(t: Table, now: Time, owner: string, limit: int, leaseMs: nat, start: Start): (Table, Option<seq<Row>>)
    requires t.Valid()
  {
    ReleaseStaysValid(t, now);
    var released := Release(t, now);
    if start.release != Healthy then (if start.release.ReplyLost? then released else t, None)
    else
      var (claimed, rows) := Claim(released, now, limit, owner, now + leaseMs);
      match start.claim
      case Healthy => (claimed, Some(rows))
      case RequestLost => (released, None)
      case ReplyLost => (claimed, None)
  }

  lemma ReleaseStaysValid(t: Table, now: Time)
    requires t.Valid()
    ensures Release(t, now).Valid() && forall id <- t.order :: id in Release(t, now).rows
  {
  }

  // ---------------------------------------------------------------- in place

  method CallRenew(storage: InMemoryPublishStorage, id: string, owner: string, leaseMs: nat, r: Renewal) returns (renewed: bool)
    requires storage.Valid()
    modifies storage.store.Values
    ensures storage.Valid()
    ensures (storage.View(), renewed) == RenewWith(old(storage.View()), id, owner, leaseMs, r)
  {
    if r.fault.RequestLost? { return false; }
    renewed := storage.RenewPublishClaim(id, owner, r.at, r.at + leaseMs);
    if r.fault.ReplyLost? { renewed := false; }
  }

  method RunHeartbeat(storage: InMemoryPublishStorage, id: string, owner: string, leaseMs: nat, beats: seq<Renewal>)
    returns (ownershipLost: bool)
    requires storage.Valid()
    modifies storage.store.Values
    ensures storage.Valid()
    ensures (storage.View(), !ownershipLost) == Beat(old(storage.View()), id, owner, leaseMs, beats)
  {
    hide RenewWith;
    ownershipLost := false;
    var i := 0;
    while i < |beats| && !ownershipLost
      invariant 0 <= i <= |beats| && storage.Valid()
      invariant ownershipLost ==> Beat(old(storage.View()), id, owner, leaseMs, beats) == (storage.View(), false)
      invariant !ownershipLost ==>
        Beat(old(storage.View()), id, owner, leaseMs, beats) == Beat(storage.View(), id, owner, leaseMs, beats[i..])
    {
      assert beats[i..][1..] == beats[i + 1..];
      var renewed := CallRenew(storage, id, owner, leaseMs, beats[i]);
      if !renewed { ownershipLost := true; }
      i := i + 1;
    }
  }

  method CallCompletion(storage: InMemoryPublishStorage, id: string, owner: string, turn: Turn, maxRetries: int)
    returns (end: TurnEnd)
    requires storage.Valid()
    modifies storage.store.Values
    ensures storage.Valid()
    ensures (storage.View(), end) == Finish(old(storage.View()), id, owner, turn, maxRetries)
  {
    if turn.write.RequestLost? { return Threw; }
    var updated;
    match turn.ending {
      case Rejected(error) =>
        updated := storage.MarkPublishFailed(id, error, maxRetries, turn.retryAt, Some(owner));
        updated := false;
      case Fulfilled =>
        updated := storage.MarkPublished(id, turn.at, Some(owner));
    }
    end := if turn.write.ReplyLost? then Threw else if updated then CountsPublished else CountsFailed;
  }

  /** The loop body of `flushOutbox` for one row. */
  method FlushRow(storage: InMemoryPublishStorage, rec: Row, owner: string, leaseMs: nat, turn: Turn, maxRetries: int)
    returns (end: TurnEnd)
    requires storage.Valid()
    modifies storage.store.Values
    ensures storage.Valid()
    ensures (storage.View(), end) == TakeTurn(old(storage.View()), rec.id, owner, leaseMs, turn, maxRetries)
  {
    var initiallyRenewed := CallRenew(storage, rec.id, owner, leaseMs, turn.first);
    if !initiallyRenewed { return CountsFailed; }
    var ownershipLost := RunHeartbeat(storage, rec.id, owner, leaseMs, turn.beats);
    if ownershipLost { return CountsFailed; }
    end := CallCompletion(storage, rec.id, owner, turn, maxRetries);
  }

  /** `flushOutbox`: release, claim, then one turn for each claimed row; a rejected release,
      claim or completion is caught and answered as a failure. */
  method FlushOutbox(storage: InMemoryPublishStorage, now: Time, owner: string, limit: int, leaseMs: nat,
                     start: Start, turns: seq<Turn>, maxRetries: int) returns (answer: Answer)
    requires storage.Valid() && |turns| >= limit
    modifies storage.store.Values
    ensures storage.Valid() && old(storage.View()).Valid()
    ensures var (begun, rows) := Begun(old(storage.View()), now, owner, limit, leaseMs, start);
      if rows.None? then (storage.View(), answer) == (begun, FlushFailed)
      else
        && |rows.value| <= |turns|
        && var (end, tally) := TakeTurns(begun, rows.value, owner, leaseMs, turns, maxRetries, Tally(0, 0, false));
        && (storage.View(), answer) == (end, AnswerOf(tally))
        && (answer.Flushed? ==> answer.published + answer.failed == |rows.value|)
  {
    hide TakeTurns, Claim, Release;
    ghost var was := storage.View();
    ReleaseStaysValid(was, now);
    if start.release.RequestLost? { return FlushFailed; }
    storage.ReleaseExpiredClaims(now);
    if start.release.ReplyLost? || start.claim.RequestLost? { return FlushFailed; }
    ghost var released := storage.View();
    var rows := storage.ClaimUnpublished(limit, owner, now + leaseMs, now);
    if start.claim.ReplyLost? { return FlushFailed; }
    ClaimedAreHeld(released, now, limit, owner, now + leaseMs);
    var tally := FlushRows(storage, rows, owner, leaseMs, turns, maxRetries);
    answer := AnswerOf(tally);
  }

  /** What a claim returns is held under its lease, at most `limit` rows. */
  lemma ClaimedAreHeld(t: Table, now: Time, limit: int, owner: string, until: Time)
    requires t.Valid()
    ensures var (claimed, rows) := Claim(t, now, limit, owner, until);
      AllHeld(claimed, rows, owner, until) && |rows| <= (if limit < 0 then 0 else limit)
  {
    ClaimIdsMeaning(t, now, limit);
    ClaimMeaning(t, now, limit, owner, until);
    var ids := ClaimIds(t, now, limit);
    var (claimed, rows) := Claim(t, now, limit, owner, until);
    hide Claim, ClaimIds;
    forall k | 0 <= k < |rows| ensures rows[k].lockedBy == Some(owner) && HeldUntil(claimed, rows[k].id, owner, until) {
      assert ids[k] in ids && rows[k].id == ids[k];
    }
  }

  /** The loop of `flushOutbox` with its counters. */
  method FlushRows(storage: InMemoryPublishStorage, rows: seq<Row>, owner: string, leaseMs: nat, turns: seq<Turn>, maxRetries: int)
    returns (tally: Tally)
    requires storage.Valid() && |turns| >= |rows|
    modifies storage.store.Values
    ensures storage.Valid() && (!tally.threw ==> tally.published + tally.failed == |rows|)
    ensures (storage.View(), tally) == TakeTurns(old(storage.View()), rows, owner, leaseMs, turns, maxRetries, Tally(0, 0, false))
  {
    hide TakeTurn;
    tally := Tally(0, 0, false);
    ghost var all := TakeTurns(storage.View(), rows, owner, leaseMs, turns, maxRetries, tally);
    assert rows[0..] == rows && turns[0..] == turns;
    var i := 0;
    while i < |rows| && !tally.threw
      invariant i <= |rows| && storage.Valid()
      invariant !tally.threw ==> tally.published + tally.failed == i
      invariant all == TakeTurns(storage.View(), rows[i..], owner, leaseMs, turns[i..], maxRetries, tally)
    {
      assert rows[i..][0] == rows[i] && turns[i..][0] == turns[i];
      assert rows[i..][1..] == rows[i + 1..] && turns[i..][1..] == turns[i + 1..];
      var end := CountsFailed;
      if rows[i].lockedBy == Some(owner) {
        end := FlushRow(storage, rows[i], owner, leaseMs, turns[i], maxRetries);
      }
      tally := Counted(tally, end);
      i := i + 1;
    }
  }

  // ---------------------------------------------------------------- what a timely round does

  predicate BeatsInTime(deadline: Time, leaseMs: nat, beats: seq<Renewal>)
    decreases |beats|
  {
    beats == [] || (beats[0].fault.Healthy? && beats[0].at < deadline && BeatsInTime(beats[0].at + leaseMs, leaseMs, beats[1..]))
  }

  /** Every renewal of the turn is answered, and sent before the deadline granted by the one
      before it. */
  predicate InTime(deadline: Time, leaseMs: nat, turn: Turn) {
    turn.first.fault.Healthy? && turn.first.at < deadline && BeatsInTime(turn.first.at + leaseMs, leaseMs, turn.beats)
  }

  predicate HeldUntil(t: Table, id: string, owner: string, deadline: Time) {
    id in t.rows && t.rows[id].status == Processing && t.rows[id].lockedBy == Some(owner) && t.rows[id].lockedUntil == Some(deadline)
  }

  function Ended(row: Row, turn: Turn, maxRetries: int): Row {
    match turn.ending
    case Fulfilled => AsPublished(row, turn.at)
    case Rejected(error) => AsFailed(row, error, maxRetries, turn.retryAt)
  }

  lemma {:induction false} TimelyBeats(t: Table, id: string, owner: string, leaseMs: nat, deadline: Time, beats: seq<Renewal>)
    returns (last: Time)
    requires HeldUntil(t, id, owner, deadline) && BeatsInTime(deadline, leaseMs, beats)
    ensures Beat(t, id, owner, leaseMs, beats)
         == (t.(rows := t.rows[id := t.rows[id].(lockedUntil := Some(last))]), true)
    decreases |beats|
  {
    last := deadline;
    if beats == [] {
      assert t.rows[id := t.rows[id]] == t.rows;
    } else {
      var (renewed, kept) := RenewWith(t, id, owner, leaseMs, beats[0]);
      last := TimelyBeats(renewed, id, owner, leaseMs, beats[0].at + leaseMs, beats[1..]);
      assert renewed.rows[id := renewed.rows[id].(lockedUntil := Some(last))] == t.rows[id := t.rows[id].(lockedUntil := Some(last))];
    }
  }

  function CountOf(turn: Turn): TurnEnd {
    if turn.write != Healthy then Threw else if turn.ending.Fulfilled? then CountsPublished else CountsFailed
  }

  /** A timely turn ends its row as the emission ended and touches no other row; if its
      completion is rejected, the row is ended or still held. A turn that begins after the
      deadline changes nothing. */
  lemma TurnEndsRow(t: Table, id: string, owner: string, leaseMs: nat, deadline: Time, turn: Turn, maxRetries: int) returns (last: Time)
    requires HeldUntil(t, id, owner, deadline)
    ensures InTime(deadline, leaseMs, turn) ==>
      TakeTurn(t, id, owner, leaseMs, turn, maxRetries) ==
      (t.(rows := t.rows[id := if turn.write.RequestLost? then t.rows[id].(lockedUntil := Some(last))
                               else Ended(t.rows[id], turn, maxRetries)]), CountOf(turn))
    ensures turn.first.at >= deadline ==> TakeTurn(t, id, owner, leaseMs, turn, maxRetries) == (t, CountsFailed)
  {
    last := deadline;
    if InTime(deadline, leaseMs, turn) {
      var renewed := RenewWith(t, id, owner, leaseMs, turn.first).0;
      last := TimelyBeats(renewed, id, owner, leaseMs, turn.first.at + leaseMs, turn.beats);
      var beaten := Beat(renewed, id, owner, leaseMs, turn.beats).0;
      assert beaten == t.(rows := t.rows[id := t.rows[id].(lockedUntil := Some(last))]);
      assert beaten.rows[id := Ended(beaten.rows[id], turn, maxRetries)] == t.rows[id := Ended(t.rows[id], turn, maxRetries)];
    }
  }

  /** The first turn whose completion is rejected. */
  function FirstThrow(turns: seq<Turn>): (n: nat)
    ensures n <= |turns| && (n < |turns| ==> turns[n].write != Healthy)
    ensures forall k :: 0 <= k < n ==> turns[k].write == Healthy
  {
    if turns == [] || turns[0].write != Healthy then 0 else FirstThrow(turns[1..]) + 1
  }

  function Fulfilments(turns: seq<Turn>): nat {
    if turns == [] then 0 else Fulfilments(turns[1..]) + if turns[0].ending.Fulfilled? then 1 else 0
  }

  ghost predicate AllHeld(t: Table, rows: seq<Row>, owner: string, deadline: Time) {
    && (forall k :: 0 <= k < |rows| ==> rows[k].lockedBy == Some(owner) && HeldUntil(t, rows[k].id, owner, deadline))
    && forall j, k :: 0 <= j < k < |rows| ==> rows[j].id != rows[k].id
  }

  /** The rows before `n` ended as their emissions ended; all others stayed as they were, except
      that row `n` itself, whose completion was rejected, may have ended or been renewed. */
  ghost predicate RowsEnded(t: Table, end: Table, rows: seq<Row>, turns: seq<Turn>, n: nat, maxRetries: int)
    requires |turns| >= |rows| >= n
  {
    && end.order == t.order && end.rows.Keys == t.rows.Keys
    && (forall k :: 0 <= k < n ==> RowEnded(t, end, rows[k].id, turns[k], maxRetries))
    && (n < |rows| ==> EndedOrHeld(t, end, rows[n].id, turns[n], maxRetries))
    && forall id <- t.rows :: (forall k :: 0 <= k < |rows| && k <= n ==> rows[k].id != id) ==> end.rows[id] == t.rows[id]
  }

  ghost predicate RowEnded(t: Table, end: Table, id: string, turn: Turn, maxRetries: int) {
    id in t.rows && id in end.rows && end.rows[id] == Ended(t.rows[id], turn, maxRetries)
  }

  ghost predicate EndedOrHeld(t: Table, end: Table, id: string, turn: Turn, maxRetries: int) {
    && id in t.rows && id in end.rows
    && (turn.write.ReplyLost? ==> end.rows[id] == Ended(t.rows[id], turn, maxRetries))
    && (turn.write.RequestLost? ==> exists last :: end.rows[id] == t.rows[id].(lockedUntil := last))
  }

  lemma OneMoreEnded(t: Table, end: Table, rows: seq<Row>, turns: seq<Turn>, n: nat, maxRetries: int)
    requires rows != [] && |turns| >= |rows| > n && rows[0].id in t.rows
    requires forall j, k :: 0 <= j < k < |rows| ==> rows[j].id != rows[k].id
    requires forall k :: 0 <= k < |rows| ==> rows[k].id in t.rows
    requires var after := t.(rows := t.rows[rows[0].id := Ended(t.rows[rows[0].id], turns[0], maxRetries)]);
      RowsEnded(after, end, rows[1..], turns[1..], n, maxRetries)
    ensures RowsEnded(t, end, rows, turns, n + 1, maxRetries)
  {
    var id := rows[0].id;
    var after := t.(rows := t.rows[id := Ended(t.rows[id], turns[0], maxRetries)]);
    assert forall k :: 0 <= k < |rows[1..]| ==> rows[1..][k] == rows[k + 1] && turns[1..][k] == turns[k + 1];
    forall i <- t.rows | forall k :: 0 <= k < |rows| && k <= n + 1 ==> rows[k].id != i ensures end.rows[i] == t.rows[i] {
      assert i != id;
      assert end.rows[i] == after.rows[i];
    }
    forall k | 0 <= k < n + 1 ensures RowEnded(t, end, rows[k].id, turns[k], maxRetries) {
      if k == 0 {
        assert end.rows[id] == after.rows[id];
      } else {
        assert RowEnded(after, end, rows[1..][k - 1].id, turns[1..][k - 1], maxRetries);
      }
    }
    if n + 1 < |rows| { assert EndedOrHeld(after, end, rows[1..][n].id, turns[1..][n], maxRetries); }
  }

  lemma RestHeld(t: Table, row: Row, rows: seq<Row>, owner: string, deadline: Time)
    requires rows != [] && AllHeld(t, rows, owner, deadline) && rows[0].id in t.rows
    ensures AllHeld(t.(rows := t.rows[rows[0].id := row]), rows[1..], owner, deadline)
  {
    assert forall k :: 0 <= k < |rows[1..]| ==> rows[1..][k] == rows[k + 1];
  }

  /** The rows before the first rejected completion end as their emissions ended, the rows
      after it stay held, and the counters count those emissions. */
  ghost predicate EndedAndCounted(t: Table, end: Table, rows: seq<Row>, turns: seq<Turn>, maxRetries: int, tally: Tally, counted: Tally)
    requires |turns| >= |rows|
  {
    var n := FirstThrow(turns[..|rows|]);
    && RowsEnded(t, end, rows, turns, n, maxRetries)
    && (counted.threw <==> n < |rows|)
    && counted.published == tally.published + Fulfilments(turns[..n])
    && counted.failed == tally.failed + n - Fulfilments(turns[..n])
  }

  /** So it is when every turn is timely. */
  lemma {:induction false} TurnsEndRows(t: Table, rows: seq<Row>, owner: string, leaseMs: nat, deadline: Time,
                                        turns: seq<Turn>, maxRetries: int, tally: Tally)
    requires |turns| >= |rows| && AllHeld(t, rows, owner, deadline) && !tally.threw
    requires forall k :: 0 <= k < |rows| ==> InTime(deadline, leaseMs, turns[k])
    ensures var (end, counted) := TakeTurns(t, rows, owner, leaseMs, turns, maxRetries, tally);
      EndedAndCounted(t, end, rows, turns, maxRetries, tally, counted)
    decreases |rows|
  {
    hide InTime, TakeTurn, Ended, EndedAndCounted, HeldUntil;
    if rows == [] {
      NothingToEnd(t, turns, maxRetries, tally);
    } else {
      assert HeldUntil(t, rows[0].id, owner, deadline) && rows[0].lockedBy == Some(owner);
      HeldIsThere(t, rows, owner, deadline);
      var last := TurnEndsRow(t, rows[0].id, owner, leaseMs, deadline, turns[0], maxRetries);
      var (after, end) := TakeTurn(t, rows[0].id, owner, leaseMs, turns[0], maxRetries);
      if turns[0].write == Healthy {
        RestHeld(t, Ended(t.rows[rows[0].id], turns[0], maxRetries), rows, owner, deadline);
        TurnsEndRows(after, rows[1..], owner, leaseMs, deadline, turns[1..], maxRetries, Counted(tally, end));
        var (final, counted) := TakeTurns(after, rows[1..], owner, leaseMs, turns[1..], maxRetries, Counted(tally, end));
        OneMoreTurn(t, final, rows, turns, maxRetries, tally, counted);
      } else {
        ThrowEndsLoop(t, after, rows, turns, last, maxRetries, tally);
      }
    }
  }

  lemma NothingToEnd(t: Table, turns: seq<Turn>, maxRetries: int, tally: Tally)
    requires !tally.threw
    ensures EndedAndCounted(t, t, [], turns, maxRetries, tally, tally)
  {
  }

  lemma HeldIsThere(t: Table, rows: seq<Row>, owner: string, deadline: Time)
    requires AllHeld(t, rows, owner, deadline)
    ensures forall k :: 0 <= k < |rows| ==> rows[k].id in t.rows
    ensures forall j, k :: 0 <= j < k < |rows| ==> rows[j].id != rows[k].id
  {
  }

  lemma OneMoreTurn(t: Table, end: Table, rows: seq<Row>, turns: seq<Turn>, maxRetries: int, tally: Tally, counted: Tally)
    requires rows != [] && |turns| >= |rows| && turns[0].write == Healthy
    requires forall j, k :: 0 <= j < k < |rows| ==> rows[j].id != rows[k].id
    requires forall k :: 0 <= k < |rows| ==> rows[k].id in t.rows
    requires var after := t.(rows := t.rows[rows[0].id := Ended(t.rows[rows[0].id], turns[0], maxRetries)]);
      EndedAndCounted(after, end, rows[1..], turns[1..], maxRetries, Counted(tally, CountOf(turns[0])), counted)
    ensures EndedAndCounted(t, end, rows, turns, maxRetries, tally, counted)
  {
    hide RowsEnded, Ended;
    assert turns[..|rows|][0] == turns[0] && turns[..|rows|][1..] == turns[1..][..|rows[1..]|];
    var n := FirstThrow(turns[1..][..|rows[1..]|]);
    assert FirstThrow(turns[..|rows|]) == n + 1;
    OneMoreFulfilment(turns, n);
    OneMoreEnded(t, end, rows, turns, n, maxRetries);
    hide Fulfilments;
  }

  lemma OneMoreFulfilment(turns: seq<Turn>, n: nat)
    requires n < |turns|
    ensures Fulfilments(turns[..n + 1]) == Fulfilments(turns[1..][..n]) + if turns[0].ending.Fulfilled? then 1 else 0
  {
    assert turns[..n + 1][0] == turns[0] && turns[..n + 1][1..] == turns[1..][..n];
  }

  lemma ThrowEndsLoop(t: Table, after: Table, rows: seq<Row>, turns: seq<Turn>, last: Time, maxRetries: int, tally: Tally)
    requires rows != [] && |turns| >= |rows| && rows[0].id in t.rows && turns[0].write != Healthy
    requires after == t.(rows := t.rows[rows[0].id := if turns[0].write.RequestLost? then t.rows[rows[0].id].(lockedUntil := Some(last))
                                                      else Ended(t.rows[rows[0].id], turns[0], maxRetries)])
    ensures EndedAndCounted(t, after, rows, turns, maxRetries, tally, Counted(tally, Threw))
  {
    assert EndedOrHeld(t, after, rows[0].id, turns[0], maxRetries);
    assert turns[..|rows|][0] == turns[0] && FirstThrow(turns[..|rows|]) == 0;
    assert RowsEnded(t, after, rows, turns, 0, maxRetries);
  }

  /** A flush alone in the store whose turns are all timely: the claimed rows before the first
      rejected completion end as their emissions ended, the others are as after the claim; the
      flush answers a failure exactly when some completion was rejected, and success exactly
      when none was and every emission was fulfilled. */
  lemma TimelyFlush(t: Table, now: Time, owner: string, limit: int, leaseMs: nat, turns: seq<Turn>, maxRetries: int)
    requires t.Valid() && |turns| >= limit
    requires var rows := Begun(t, now, owner, limit, leaseMs, Start(Healthy, Healthy)).1;
      forall k :: 0 <= k < |turns| && rows.Some? && k < |rows.value| ==> InTime(now + leaseMs, leaseMs, turns[k])
    ensures var (claimed, rows) := Begun(t, now, owner, limit, leaseMs, Start(Healthy, Healthy));
      && rows.Some? && |rows.value| <= |turns|
      && var n := FirstThrow(turns[..|rows.value|]);
      && var (end, tally) := TakeTurns(claimed, rows.value, owner, leaseMs, turns, maxRetries, Tally(0, 0, false));
      && RowsEnded(claimed, end, rows.value, turns, n, maxRetries)
      && (AnswerOf(tally).FlushFailed? <==> exists k :: 0 <= k < |rows.value| && turns[k].write != Healthy)
      && (Succeeded(AnswerOf(tally)) <==> forall k :: 0 <= k < |rows.value| ==> turns[k].write == Healthy && turns[k].ending.Fulfilled?)
  {
    hide RowsEnded, AllHeld, InTime, TakeTurns, Claim, Release;
    ReleaseStaysValid(t, now);
    ClaimedAreHeld(Release(t, now), now, limit, owner, now + leaseMs);
    var (claimed, rows) := Claim(Release(t, now), now, limit, owner, now + leaseMs);
    TurnsEndRows(claimed, rows, owner, leaseMs, now + leaseMs, turns, maxRetries, Tally(0, 0, false));
    var n := FirstThrow(turns[..|rows|]);
    assert forall k :: 0 <= k < |rows| ==> turns[..|rows|][k] == turns[k];
    AllFulfilled(turns[..n]);
    assert n == |rows| ==> forall k :: 0 <= k < n ==> turns[..n][k] == turns[k];
  }

  lemma {:induction false} AllFulfilled(turns: seq<Turn>)
    ensures Fulfilments(turns) <= |turns|
    ensures Fulfilments(turns) == |turns| <==> forall k :: 0 <= k < |turns| ==> turns[k].ending.Fulfilled?
  {
    if turns != [] {
      AllFulfilled(turns[1..]);
      assert forall k :: 1 <= k < |turns| ==> turns[1..][k - 1] == turns[k];
    }
  }
}
