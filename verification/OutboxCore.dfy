/** Every store write the outbox protocol makes, and the invariant all of them keep.
    Each write is one atomic step: the in-memory store runs to completion, and the SQL
    adapters use one statement or one transaction. */
module OutboxCore {
  import opened Basics
  import opened OutboxStore
  import opened OutboxHistory

  datatype Core = Core(clock: Time, table: Table, history: History, tokens: set<string>)

  ghost predicate RowInv(row: Row, failures: nat, lim: Limits) {
    && (row.status == Processing <==> row.lockedBy.Some?)
    && (row.status == Processing <==> row.lockedUntil.Some?)
    && (row.status == DeadLetter ==> row.retryCount >= lim.least)
    && (row.status !in {DeadLetter, Published} ==> row.retryCount < lim.greatest)
    && (row.status == Pending ==> row.nextRetryAt.None?)
    && (row.lockedUntil.Some? ==> DueBy(row, row.lockedUntil.value))
    && row.retryCount == failures
  }

  predicate DueBy(row: Row, now: Time) {
    row.nextRetryAt.None? || row.nextRetryAt.value <= now
  }

  /** A row locked by `token` is the row that token claimed, its lease apart. */
  ghost predicate HeldInv(row: Row, c: Core, token: string) {
    var h := c.history;
    && token in c.tokens
    && ClaimCopy(h, row.id, token).Some? && Deadline(h, row.id, token).Some?
    && row == ClaimCopy(h, row.id, token).value.(lockedUntil := Deadline(h, row.id, token))
    && !SettledIn(h, row.id, token) && Intact(h, row.id, token)
  }

  /** A claim that no longer holds its row was settled, or overwritten, or ran out. */
  ghost predicate ClaimInv(c: Core, id: string, token: string) {
    var h := c.history;
    && token in c.tokens && id in c.table.rows && Deadline(h, id, token).Some?
    && (c.table.rows[id].lockedBy == Some(token) || SettledIn(h, id, token) || !Intact(h, id, token)
        || Deadline(h, id, token).value <= c.clock)
  }

  ghost predicate Inv(c: Core, lim: Limits) {
    && c.table.Valid()
    && (forall id :: id in c.table.rows ==> RowInv(c.table.rows[id], Failures(c.history, id), lim))
    && (forall id :: id in c.table.rows && c.table.rows[id].lockedBy.Some? ==>
          HeldInv(c.table.rows[id], c, c.table.rows[id].lockedBy.value))
    && (forall id, token :: ClaimCopy(c.history, id, token).Some? ==> ClaimInv(c, id, token))
    && (forall id, token :: SettledIn(c.history, id, token) ==> ClaimCopy(c.history, id, token).Some?)
    && (forall id, token :: StartedIn(c.history, id, token) ==> ClaimCopy(c.history, id, token).Some?)
  }

  function NewRow(id: string, topic: string, payload: string): Row {
    Row(id, topic, payload, 0, Pending, None, None, None, None, None)
  }

  // ----- the writes -----

  function Record(c: Core, e: Event): Core {
    c.(history := Then(c.history, e))
  }

  function SaveNew(c: Core, id: string, topic: string, payload: string): Core {
    Record(c.(table := Save(c.table, NewRow(id, topic, payload))), Saved(id))
  }

  function ReleaseAt(c: Core, now: Time): Core {
    c.(table := Release(c.table, now))
  }

  function ClaimFor(c: Core, now: Time, limit: int, token: string, until: Time): Core
    requires c.table.Valid()
  {
    var (table, copies) := Claim(c.table, now, limit, token, until);
    Record(c.(table := table, tokens := c.tokens + {token}), Claimed(token, copies))
  }

  function RenewFor(c: Core, id: string, token: string, now: Time, until: Time): (Core, bool) {
    var (table, renewed) := Renew(c.table, id, token, now, until);
    (if renewed then Record(c.(table := table), Renewed(id, token, until)) else c, renewed)
  }

  function RequeueNow(c: Core, id: string, now: Time): Core {
    var (table, outcome) := Requeue(c.table, id, now);
    if outcome.Requeued? then Record(c.(table := table), ManuallyRequeued(id)) else c
  }

  /** A completion write: fenced when an owner is expected, unconditional otherwise. */
  datatype Completion = Success(at: Time) | Failure(error: string, nextRetryAt: Time)

  function Write(t: Table, id: string, w: Completion, maxRetries: int, expected: Option<string>): (Table, bool) {
    match w
    case Success(at) => Complete(t, id, at, expected)
    case Failure(error, retryAt) => Fail(t, id, error, maxRetries, retryAt, expected)
  }

  function ReportOn(copy: Row, w: Completion, maxRetries: int): Report {
    match w
    case Success(_) => PublishedReport(copy.retryCount)
    case Failure(_, _) => FailureReport(copy.retryCount + 1, copy.retryCount + 1 >= maxRetries)
  }

  function SettleFor(c: Core, copy: Row, token: string, w: Completion, maxRetries: int): (Core, bool) {
    var (table, updated) := Write(c.table, copy.id, w, maxRetries, Some(token));
    (if updated && copy.id in c.table.rows && copy.id in table.rows
     then Record(c.(table := table),
                 Settled(copy.id, token, w.Success?, c.table.rows[copy.id], table.rows[copy.id],
                         maxRetries, ReportOn(copy, w, maxRetries)))
     else c, updated)
  }

  function Overwrite(c: Core, id: string, w: Completion, maxRetries: int): Core {
    var (table, updated) := Write(c.table, id, w, maxRetries, None);
    if updated then Record(c.(table := table), Overwritten(id, w.Failure?)) else c
  }

  // ----- the invariant is kept by every write -----

  lemma TickKeeps(c: Core, to: Time, lim: Limits)
    requires Inv(c, lim) && c.clock <= to
    ensures Inv(c.(clock := to), lim)
  {
    var c' := c.(clock := to);
    forall id, token | ClaimCopy(c'.history, id, token).Some? ensures ClaimInv(c', id, token) {
      assert ClaimInv(c, id, token);
    }
  }

  lemma SaveKeeps(c: Core, id: string, topic: string, payload: string, lim: Limits)
    requires Inv(c, lim) && lim.Valid() && id !in c.table.rows
    ensures Inv(SaveNew(c, id, topic, payload), lim)
  {
    var c' := SaveNew(c, id, topic, payload);
    forall i, token | ClaimCopy(c'.history, i, token).Some? ensures ClaimInv(c', i, token) {
      assert ClaimInv(c, i, token);
    }
    forall i | i in c'.table.rows
      ensures RowInv(c'.table.rows[i], Failures(c'.history, i), lim)
      ensures c'.table.rows[i].lockedBy.Some? ==> HeldInv(c'.table.rows[i], c', c'.table.rows[i].lockedBy.value)
    {
      if i != id { OldRowAfterSave(c, i, id, topic, payload, lim); }
    }
    SaveValid(c.table, NewRow(id, topic, payload));
    assert forall i, token :: StartedIn(c'.history, i, token) ==> StartedIn(c.history, i, token);
  }

  lemma SaveValid(t: Table, row: Row)
    requires t.Valid() && row.id !in t.rows
    ensures Save(t, row).Valid()
  {
    var t' := Save(t, row);
    assert t'.order == t.order + [row.id];
    forall id ensures id in t'.order <==> id in t'.rows {
      assert id in t'.order <==> id in t.order || id == row.id;
    }
  }

  lemma OldRowAfterSave(c: Core, i: string, id: string, topic: string, payload: string, lim: Limits)
    requires Inv(c, lim) && id !in c.table.rows && i in c.table.rows
    ensures var c' := SaveNew(c, id, topic, payload);
      && RowInv(c'.table.rows[i], Failures(c'.history, i), lim)
      && (c'.table.rows[i].lockedBy.Some? ==> HeldInv(c'.table.rows[i], c', c'.table.rows[i].lockedBy.value))
  {
    assert RowInv(c.table.rows[i], Failures(c.history, i), lim);
    assert c.table.rows[i].lockedBy.Some? ==> HeldInv(c.table.rows[i], c, c.table.rows[i].lockedBy.value);
  }

  lemma ReleaseKeeps(c: Core, now: Time, lim: Limits)
    requires Inv(c, lim) && now <= c.clock
    ensures Inv(ReleaseAt(c, now), lim)
  {
    var c' := ReleaseAt(c, now);
    forall i | i in c'.table.rows ensures RowInv(c'.table.rows[i], Failures(c'.history, i), lim) {
      assert RowInv(c.table.rows[i], Failures(c.history, i), lim);
    }
    forall i, token | ClaimCopy(c'.history, i, token).Some? ensures ClaimInv(c', i, token) {
      assert ClaimInv(c, i, token);
      if c.table.rows[i].lockedBy == Some(token) {
        assert HeldInv(c.table.rows[i], c, token);
      }
    }
    forall i | i in c'.table.rows && c'.table.rows[i].lockedBy.Some?
      ensures HeldInv(c'.table.rows[i], c', c'.table.rows[i].lockedBy.value)
    {
      assert HeldInv(c.table.rows[i], c, c.table.rows[i].lockedBy.value);
    }
  }

  lemma ClaimKeeps(c: Core, now: Time, limit: int, token: string, until: Time, lim: Limits)
    requires Inv(c, lim) && now <= c.clock && now <= until && token !in c.tokens
    ensures Inv(ClaimFor(c, now, limit, token, until), lim)
  {
    var c' := ClaimFor(c, now, limit, token, until);
    assert c'.table.Valid() && c'.table.rows.Keys == c.table.rows.Keys by {
      ClaimMeaning(c.table, now, limit, token, until);
    }
    forall i | i in c'.table.rows
      ensures RowInv(c'.table.rows[i], Failures(c'.history, i), lim)
      ensures c'.table.rows[i].lockedBy.Some? ==> HeldInv(c'.table.rows[i], c', c'.table.rows[i].lockedBy.value)
    {
      ClaimedRow(c, i, now, limit, token, until, lim);
    }
    forall i, t | ClaimCopy(c'.history, i, t).Some? ensures ClaimInv(c', i, t) {
      ClaimedClaim(c, i, t, now, limit, token, until, lim);
    }
    hide RowInv, HeldInv, ClaimInv;
    ClaimStartsNothing(c, Claimed(token, Claim(c.table, now, limit, token, until).1));
  }

  /** A claim itself starts and settles nothing, and forgets no earlier claim. */
  lemma ClaimStartsNothing(c: Core, e: Event)
    requires e.Claimed?
    ensures var h := Then(c.history, e);
      && (forall i, t :: StartedIn(h, i, t) == StartedIn(c.history, i, t))
      && (forall i, t :: SettledIn(h, i, t) == SettledIn(c.history, i, t))
      && (forall i, t :: ClaimCopy(c.history, i, t).Some? ==> ClaimCopy(h, i, t).Some?)
  {
  }

  lemma CopiesById(t: Table, now: Time, limit: int, owner: string, until: Time)
    requires t.Valid()
    ensures var ids, copies := ClaimIds(t, now, limit), Claim(t, now, limit, owner, until).1;
      && (forall id :: id in ids ==> id in t.rows && CopyOf(copies, id) == Some(Locked(t.rows[id], owner, until)))
      && (forall id :: id !in ids ==> CopyOf(copies, id).None?)
  {
    var ids, copies := ClaimIds(t, now, limit), Claim(t, now, limit, owner, until).1;
    ClaimMeaning(t, now, limit, owner, until);
    forall id | id in ids
      ensures id in t.rows && CopyOf(copies, id) == Some(Locked(t.rows[id], owner, until))
    {
      CopyOfFinds(copies, id);
      var k :| 0 <= k < |ids| && ids[k] == id;
      assert copies[k].id == id;
    }
    forall id | id !in ids ensures CopyOf(copies, id).None? {
      CopyOfFinds(copies, id);
    }
  }

  lemma FreshTokenUnused(c: Core, token: string, lim: Limits)
    requires Inv(c, lim) && token !in c.tokens
    ensures forall id :: ClaimCopy(c.history, id, token).None? && !SettledIn(c.history, id, token)
  {
    forall id ensures ClaimCopy(c.history, id, token).None? && !SettledIn(c.history, id, token) {
      assert ClaimCopy(c.history, id, token).Some? ==> ClaimInv(c, id, token);
    }
  }

  /** The copies a claim hands out: distinct rows, each recorded as claimed by the token,
      each due at the round's time. */
  lemma ClaimCopies(c: Core, now: Time, limit: int, token: string, until: Time, lim: Limits)
    requires Inv(c, lim) && now <= until && token !in c.tokens
    ensures var copies := Claim(c.table, now, limit, token, until).1;
      && (forall j, k :: 0 <= j < k < |copies| ==> copies[j].id != copies[k].id)
      && forall k :: 0 <= k < |copies| ==>
        && ClaimCopy(ClaimFor(c, now, limit, token, until).history, copies[k].id, token) == Some(copies[k])
        && !SettledIn(c.history, copies[k].id, token) && !StartedIn(c.history, copies[k].id, token)
        && DueBy(copies[k], now)
  {
    CopiesAreDue(c, now, limit, token, until, lim);
    CopiesById(c.table, now, limit, token, until);
    FreshTokenUnused(c, token, lim);
    assert forall id :: StartedIn(c.history, id, token) ==> ClaimCopy(c.history, id, token).Some?;
    hide Inv, Claim, ClaimIds, DueBy;
  }

  lemma CopiesAreDue(c: Core, now: Time, limit: int, token: string, until: Time, lim: Limits)
    requires Inv(c, lim) && now <= until
    ensures var ids, copies := ClaimIds(c.table, now, limit), Claim(c.table, now, limit, token, until).1;
      && |copies| == |ids|
      && (forall k :: 0 <= k < |ids| ==> ids[k] in c.table.rows && copies[k] == Locked(c.table.rows[ids[k]], token, until))
      && (forall k :: 0 <= k < |copies| ==> copies[k].id == ids[k] && DueBy(copies[k], now))
      && (forall j, k :: 0 <= j < k < |copies| ==> copies[j].id != copies[k].id)
  {
    var ids, copies := ClaimIds(c.table, now, limit), Claim(c.table, now, limit, token, until).1;
    ClaimMeaning(c.table, now, limit, token, until);
    ClaimIdsMeaning(c.table, now, limit);
    forall k | 0 <= k < |copies| ensures DueBy(copies[k], now) && copies[k].id == ids[k] {
      assert ids[k] in ids && RowInv(c.table.rows[ids[k]], Failures(c.history, ids[k]), lim);
    }
  }

  lemma ClaimedRow(c: Core, id: string, now: Time, limit: int, token: string, until: Time, lim: Limits)
    requires Inv(c, lim) && now <= until && token !in c.tokens && id in c.table.rows
    ensures var c' := ClaimFor(c, now, limit, token, until);
      && id in c'.table.rows
      && RowInv(c'.table.rows[id], Failures(c'.history, id), lim)
      && (c'.table.rows[id].lockedBy.Some? ==> HeldInv(c'.table.rows[id], c', c'.table.rows[id].lockedBy.value))
  {
    var c' := ClaimFor(c, now, limit, token, until);
    var ids := ClaimIds(c.table, now, limit);
    assert RowInv(c.table.rows[id], Failures(c.history, id), lim);
    ClaimMeaning(c.table, now, limit, token, until);
    CopiesById(c.table, now, limit, token, until);
    FreshTokenUnused(c, token, lim);
    if id in ids {
      ClaimIdsMeaning(c.table, now, limit);
    } else if c.table.rows[id].lockedBy.Some? {
      assert HeldInv(c.table.rows[id], c, c.table.rows[id].lockedBy.value);
    }
  }

  lemma ClaimedClaim(c: Core, id: string, t: string, now: Time, limit: int, token: string, until: Time, lim: Limits)
    requires Inv(c, lim) && now <= c.clock && now <= until && token !in c.tokens
    requires ClaimCopy(ClaimFor(c, now, limit, token, until).history, id, t).Some?
    ensures ClaimInv(ClaimFor(c, now, limit, token, until), id, t)
  {
    ClaimMeaning(c.table, now, limit, token, until);
    CopiesById(c.table, now, limit, token, until);
    FreshTokenUnused(c, token, lim);
    var ids := ClaimIds(c.table, now, limit);
    if t != token {
      assert ClaimInv(c, id, t);
      if id in ids && c.table.rows[id].lockedBy == Some(t) {
        ClaimIdsMeaning(c.table, now, limit);
        assert HeldInv(c.table.rows[id], c, t) && RowInv(c.table.rows[id], Failures(c.history, id), lim);
        assert Deadline(c.history, id, t).value <= now;
      }
    }
  }

  /** A write to one row, recorded by one event: what has to be checked. */
  lemma OneRowKeeps(c: Core, id: string, row: Row, e: Event, lim: Limits)
    requires Inv(c, lim) && id in c.table.rows && row.id == id && !e.Claimed?
    requires var h := Then(c.history, e);
      && RowInv(row, Failures(h, id), lim)
      && (forall other :: other != id && other in c.table.rows ==> Failures(h, other) == Failures(c.history, other))
      && (forall other, t :: other != id ==>
            && SettledIn(h, other, t) == SettledIn(c.history, other, t)
            && Intact(h, other, t) == Intact(c.history, other, t)
            && Deadline(h, other, t) == Deadline(c.history, other, t))
      && (forall other, t :: SettledIn(h, other, t) || StartedIn(h, other, t) ==> ClaimCopy(c.history, other, t).Some?)
    requires var c' := c.(table := c.table.(rows := c.table.rows[id := row]), history := Then(c.history, e));
      && (row.lockedBy.Some? ==> HeldInv(row, c', row.lockedBy.value))
      && (forall t :: ClaimCopy(c.history, id, t).Some? ==> ClaimInv(c', id, t))
    ensures Inv(c.(table := c.table.(rows := c.table.rows[id := row]), history := Then(c.history, e)), lim)
  {
    var c' := c.(table := c.table.(rows := c.table.rows[id := row]), history := Then(c.history, e));
    forall i | i in c'.table.rows
      ensures RowInv(c'.table.rows[i], Failures(c'.history, i), lim)
      ensures c'.table.rows[i].lockedBy.Some? ==> HeldInv(c'.table.rows[i], c', c'.table.rows[i].lockedBy.value)
    {
      if i != id {
        assert RowInv(c.table.rows[i], Failures(c.history, i), lim);
        assert c.table.rows[i].lockedBy.Some? ==> HeldInv(c.table.rows[i], c, c.table.rows[i].lockedBy.value);
      }
    }
    forall i, t | ClaimCopy(c'.history, i, t).Some? ensures ClaimInv(c', i, t) {
      if i != id {
        assert ClaimInv(c, i, t);
      }
    }
  }

  lemma RenewKeeps(c: Core, id: string, token: string, now: Time, until: Time, lim: Limits)
    requires Inv(c, lim)
    requires ClaimCopy(c.history, id, token).Some? ==> DueBy(ClaimCopy(c.history, id, token).value, until)
    ensures Inv(RenewFor(c, id, token, now, until).0, lim)
    ensures RenewFor(c, id, token, now, until).1 ==> ClaimCopy(c.history, id, token).Some?
  {
    if RenewFor(c, id, token, now, until).1 {
      var row := c.table.rows[id].(lockedUntil := Some(until));
      assert HeldInv(c.table.rows[id], c, token) && RowInv(c.table.rows[id], Failures(c.history, id), lim);
      var c' := RenewFor(c, id, token, now, until).0;
      forall t | ClaimCopy(c.history, id, t).Some? ensures ClaimInv(c', id, t) {
        assert ClaimInv(c, id, t);
      }
      OneRowKeeps(c, id, row, Renewed(id, token, until), lim);
    }
  }

  lemma RequeueKeeps(c: Core, id: string, now: Time, lim: Limits)
    requires Inv(c, lim) && lim.Valid()
    ensures Inv(RequeueNow(c, id, now), lim)
  {
    if Requeue(c.table, id, now).1.Requeued? {
      RequeuedRow(c, id, now, lim);
      var c' := RequeueNow(c, id, now);
      forall t | ClaimCopy(c.history, id, t).Some? ensures ClaimInv(c', id, t) {
        RequeuedClaim(c, id, now, t, lim);
      }
      hide RowInv, ClaimInv;
      OneRowKeeps(c, id, AsRequeued(c.table.rows[id], now), ManuallyRequeued(id), lim);
    }
  }

  lemma RequeuedRow(c: Core, id: string, now: Time, lim: Limits)
    requires Inv(c, lim) && lim.Valid() && Requeue(c.table, id, now).1.Requeued?
    ensures RowInv(AsRequeued(c.table.rows[id], now), Failures(Then(c.history, ManuallyRequeued(id)), id), lim)
    ensures c.table.rows[id].id == id && AsRequeued(c.table.rows[id], now).lockedBy.None?
  {
    assert RowInv(c.table.rows[id], Failures(c.history, id), lim);
  }

  /** A requeued row was held by no claim. */
  lemma RequeuedClaim(c: Core, id: string, now: Time, token: string, lim: Limits)
    requires Inv(c, lim) && Requeue(c.table, id, now).1.Requeued? && ClaimCopy(c.history, id, token).Some?
    ensures ClaimInv(RequeueNow(c, id, now), id, token)
  {
    assert ClaimInv(c, id, token);
    assert RowInv(c.table.rows[id], Failures(c.history, id), lim);
    hide Inv;
  }

  lemma WriteRow(c: Core, id: string, w: Completion, maxRetries: int, expected: Option<string>, lim: Limits)
    requires Inv(c, lim) && lim.Has(maxRetries) && Write(c.table, id, w, maxRetries, expected).1
    ensures var t := Write(c.table, id, w, maxRetries, expected).0;
      && id in c.table.rows && id in t.rows && t == c.table.(rows := c.table.rows[id := t.rows[id]])
      && t.rows[id].id == id
      && RowInv(t.rows[id], Failures(c.history, id) + (if w.Failure? then 1 else 0), lim)
      && t.rows[id].lockedBy.None? && t.rows[id].lockedUntil.None?
  {
    assert RowInv(c.table.rows[id], Failures(c.history, id), lim);
  }

  lemma SettleKeeps(c: Core, copy: Row, token: string, w: Completion, maxRetries: int, lim: Limits)
    requires Inv(c, lim) && lim.Has(maxRetries)
    requires ClaimCopy(c.history, copy.id, token) == Some(copy)
    ensures Inv(SettleFor(c, copy, token, w, maxRetries).0, lim)
  {
    var c' := SettleFor(c, copy, token, w, maxRetries).0;
    if Write(c.table, copy.id, w, maxRetries, Some(token)).1 {
      WriteRow(c, copy.id, w, maxRetries, Some(token), lim);
      forall t | ClaimCopy(c.history, copy.id, t).Some? ensures ClaimInv(c', copy.id, t) {
        assert ClaimInv(c, copy.id, t);
      }
      OneRowKeeps(c, copy.id, c'.table.rows[copy.id], c'.history.last, lim);
    }
  }

  lemma OverwriteKeeps(c: Core, id: string, w: Completion, maxRetries: int, lim: Limits)
    requires Inv(c, lim) && lim.Has(maxRetries)
    ensures Inv(Overwrite(c, id, w, maxRetries), lim)
  {
    var c' := Overwrite(c, id, w, maxRetries);
    if Write(c.table, id, w, maxRetries, None).1 {
      WriteRow(c, id, w, maxRetries, None, lim);
      forall t | ClaimCopy(c.history, id, t).Some? ensures ClaimInv(c', id, t) {
        assert ClaimInv(c, id, t);
      }
      OneRowKeeps(c, id, c'.table.rows[id], c'.history.last, lim);
    }
  }

  /** Recording an emission changes no row. */
  lemma NoteKeeps(c: Core, e: Event, lim: Limits)
    requires Inv(c, lim) && (e.EmitStarted? || e.EmitFulfilled?)
    requires ClaimCopy(c.history, e.id, e.token).Some?
    ensures Inv(Record(c, e), lim)
  {
    var c' := Record(c, e);
    forall i | i in c'.table.rows
      ensures RowInv(c'.table.rows[i], Failures(c'.history, i), lim)
      ensures c'.table.rows[i].lockedBy.Some? ==> HeldInv(c'.table.rows[i], c', c'.table.rows[i].lockedBy.value)
    {
      assert RowInv(c.table.rows[i], Failures(c.history, i), lim);
      assert c.table.rows[i].lockedBy.Some? ==> HeldInv(c.table.rows[i], c, c.table.rows[i].lockedBy.value);
    }
    forall i, t | ClaimCopy(c'.history, i, t).Some? ensures ClaimInv(c', i, t) {
      assert ClaimInv(c, i, t);
    }
    forall i, t | StartedIn(c'.history, i, t) ensures ClaimCopy(c'.history, i, t).Some? {
      assert StartedIn(c.history, i, t) || (i == e.id && t == e.token);
    }
  }
}
