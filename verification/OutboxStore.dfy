/** The outbox store (libs/cap-core/src/testing/in-memory-publish-storage.ts): the
    transitions of a table of publish events as functions on values, what they promise,
    and the class that performs them in place on the stored event objects. */
module OutboxStore {
  import opened Basics

  type Time = int

  datatype Status = Pending | Processing | Published | Failed | DeadLetter

  datatype Row = Row(
    id: string,
    topic: string,
    payload: string,
    retryCount: nat,
    status: Status,
    nextRetryAt: Option<Time>,
    lastError: Option<string>,
    lockedBy: Option<string>,
    lockedUntil: Option<Time>,
    publishedAt: Option<Time>)

  /** `order` is the insertion order of the JavaScript map. */
  datatype Table = Table(rows: map<string, Row>, order: seq<string>)
  {
    ghost predicate Valid() {
      && (forall i, j :: 0 <= i < j < |order| ==> order[i] != order[j])
      && (forall id :: id in order <==> id in rows)
      && (forall id :: id in rows ==> rows[id].id == id)
    }
  }

  /** How a storage call goes: answered, or rejected before or after it took effect. */
  datatype Fault = Healthy | RequestLost | ReplyLost

  datatype RequeueOutcome = Requeued(previous: Status) | NotEligible(current: Status) | NotFound

  // ----- row predicates -----

  predicate IsClaimable(row: Row, now: Time) {
    match row.status
    case Pending => true
    case Failed => row.nextRetryAt.None? || row.nextRetryAt.value <= now
    case Processing => row.lockedUntil.Some? && row.lockedUntil.value <= now
    case _ => false
  }

  predicate OwnsClaim(row: Row, expected: Option<string>) {
    expected.None? || (row.status == Processing && row.lockedBy == expected)
  }

  predicate IsExpired(row: Row, now: Time) {
    row.status == Processing && row.lockedUntil.Some? && row.lockedUntil.value <= now
  }

  predicate CanRenew(row: Row, owner: string, now: Time) {
    && row.status == Processing && row.lockedBy == Some(owner)
    && row.lockedUntil.Some? && row.lockedUntil.value > now
  }

  // ----- row updates -----

  function Locked(row: Row, owner: string, until: Time): Row {
    row.(status := Processing, lockedBy := Some(owner), lockedUntil := Some(until))
  }

  function Freed(row: Row): Row {
    row.(status := Failed, lockedBy := None, lockedUntil := None)
  }

  function Released(row: Row, now: Time): Row {
    if IsExpired(row, now) then Freed(row) else row
  }

  function AsPublished(row: Row, at: Time): Row {
    row.(status := Published, publishedAt := Some(at), lockedBy := None, lockedUntil := None,
         nextRetryAt := None)
  }

  function AsFailed(row: Row, error: string, maxRetries: int, nextRetryAt: Time): Row {
    var dead := row.retryCount + 1 >= maxRetries;
    row.(retryCount := row.retryCount + 1,
         status := if dead then DeadLetter else Failed,
         nextRetryAt := if dead then None else Some(nextRetryAt),
         lastError := Some(error), lockedBy := None, lockedUntil := None)
  }

  function AsRequeued(row: Row, now: Time): Row {
    row.(status := Failed, retryCount := 0, lastError := None, nextRetryAt := Some(now),
         lockedBy := None, lockedUntil := None, publishedAt := None)
  }

  // ----- table transitions -----

  function Save(t: Table, row: Row): Table {
    Table(t.rows[row.id := row], if row.id in t.rows then t.order else t.order + [row.id])
  }

  function ClaimableIds(t: Table, order: seq<string>, now: Time): seq<string>
    requires forall id :: id in order ==> id in t.rows
    decreases |order|
  {
    if |order| == 0 then []
    else
      var last := order[|order| - 1];
      ClaimableIds(t, order[..|order| - 1], now) +
      if IsClaimable(t.rows[last], now) then [last] else []
  }

  function Take(ids: seq<string>, limit: int): seq<string> {
    if limit <= 0 then [] else if |ids| <= limit then ids else ids[..limit]
  }

  function ClaimIds(t: Table, now: Time, limit: int): seq<string>
    requires forall id :: id in t.order ==> id in t.rows
  {
    Take(ClaimableIds(t, t.order, now), limit)
  }

  function LockAll(t: Table, ids: seq<string>, owner: string, until: Time): Table {
    t.(rows := map id | id in t.rows :: if id in ids then Locked(t.rows[id], owner, until) else t.rows[id])
  }

  function RowsOf(t: Table, ids: seq<string>): (rows: seq<Row>)
    requires forall id :: id in ids ==> id in t.rows
  {
    seq(|ids|, i requires 0 <= i < |ids| => assert ids[i] in ids; t.rows[ids[i]])
  }

  function Claim(t: Table, now: Time, limit: int, owner: string, until: Time): (result: (Table, seq<Row>))
    requires forall id :: id in t.order ==> id in t.rows
  {
    ClaimedAreRows(t, now, limit);
    var ids := ClaimIds(t, now, limit);
    var after := LockAll(t, ids, owner, until);
    (after, RowsOf(after, ids))
  }

  function Release(t: Table, now: Time): Table {
    t.(rows := map id | id in t.rows :: Released(t.rows[id], now))
  }

  function Complete(t: Table, id: string, at: Time, expected: Option<string>): (Table, bool) {
    if id in t.rows && OwnsClaim(t.rows[id], expected)
    then (t.(rows := t.rows[id := AsPublished(t.rows[id], at)]), true)
    else (t, false)
  }

  function Fail(t: Table, id: string, error: string, maxRetries: int, nextRetryAt: Time,
                expected: Option<string>): (Table, bool)
  {
    if id in t.rows && OwnsClaim(t.rows[id], expected)
    then (t.(rows := t.rows[id := AsFailed(t.rows[id], error, maxRetries, nextRetryAt)]), true)
    else (t, false)
  }

  function Renew(t: Table, id: string, owner: string, now: Time, until: Time): (Table, bool) {
    if id in t.rows && CanRenew(t.rows[id], owner, now)
    then (t.(rows := t.rows[id := t.rows[id].(lockedUntil := Some(until))]), true)
    else (t, false)
  }

  function Requeue(t: Table, id: string, now: Time): (Table, RequeueOutcome) {
    if id !in t.rows then (t, NotFound)
    else if t.rows[id].status != Failed && t.rows[id].status != DeadLetter
    then (t, NotEligible(t.rows[id].status))
    else (t.(rows := t.rows[id := AsRequeued(t.rows[id], now)]), Requeued(t.rows[id].status))
  }

  // ----- what claiming promises -----

  lemma {:induction false} ClaimableIdsMeaning(t: Table, order: seq<string>, now: Time)
    requires forall id :: id in order ==> id in t.rows
    ensures var ids := ClaimableIds(t, order, now);
      forall id :: id in ids <==> id in order && IsClaimable(t.rows[id], now)
    decreases |order|
  {
    if |order| > 0 {
      ClaimableIdsMeaning(t, order[..|order| - 1], now);
      assert order == order[..|order| - 1] + [order[|order| - 1]];
    }
  }

  lemma ClaimedAreRows(t: Table, now: Time, limit: int)
    requires forall id :: id in t.order ==> id in t.rows
    ensures forall id :: id in ClaimIds(t, now, limit) ==>
      id in t.rows && id in t.order && IsClaimable(t.rows[id], now)
  {
    ClaimableIdsMeaning(t, t.order, now);
  }

  lemma {:induction false} ClaimableIdsDistinct(t: Table, order: seq<string>, now: Time)
    requires forall id :: id in order ==> id in t.rows
    requires Distinct(order)
    ensures Distinct(ClaimableIds(t, order, now))
    decreases |order|
  {
    if |order| > 0 {
      var before := order[..|order| - 1];
      ClaimableIdsDistinct(t, before, now);
      ClaimableIdsMeaning(t, before, now);
    }
  }

  /** The ids of a claim are distinct claimable rows, as many as the limit allows. */
  lemma ClaimIdsMeaning(t: Table, now: Time, limit: int)
    requires t.Valid()
    ensures var ids := ClaimIds(t, now, limit);
      && (forall id :: id in ids ==> id in t.rows && IsClaimable(t.rows[id], now))
      && Distinct(ids)
      && |ids| <= (if limit < 0 then 0 else limit)
      && (|ids| < limit ==> forall id :: id in t.rows && IsClaimable(t.rows[id], now) ==> id in ids)
  {
    ClaimedAreRows(t, now, limit);
    ClaimableIdsMeaning(t, t.order, now);
    ClaimableIdsDistinct(t, t.order, now);
  }

  /** A claim locks exactly those rows, under the given owner and deadline, returns copies
      of them in order, and touches nothing else. */
  lemma ClaimMeaning(t: Table, now: Time, limit: int, owner: string, until: Time)
    requires t.Valid()
    ensures var ids := ClaimIds(t, now, limit);
      var (after, claimed) := Claim(t, now, limit, owner, until);
      && after.Valid() && after.order == t.order && after.rows.Keys == t.rows.Keys
      && (forall id :: id in t.rows ==>
            after.rows[id] == if id in ids then Locked(t.rows[id], owner, until) else t.rows[id])
      && |claimed| == |ids|
      && (forall k :: 0 <= k < |ids| ==>
            ids[k] in t.rows && claimed[k] == Locked(t.rows[ids[k]], owner, until) && claimed[k].id == ids[k])
  {
    ClaimedAreRows(t, now, limit);
  }

  // ----- releasing before claiming -----

  /** The retry time of a leased row was reached when the row was claimed, so it cannot hide
      the row again once the lease has run out. */
  ghost predicate RetryTimePrecedesLease(t: Table) {
    forall id :: id in t.rows && t.rows[id].status == Processing && t.rows[id].lockedUntil.Some? ==>
      t.rows[id].nextRetryAt.None? || t.rows[id].nextRetryAt.value <= t.rows[id].lockedUntil.value
  }

  lemma {:induction false} ReleaseKeepsClaimable(t: Table, order: seq<string>, now: Time)
    requires forall id :: id in order ==> id in t.rows
    requires RetryTimePrecedesLease(t)
    ensures ClaimableIds(Release(t, now), order, now) == ClaimableIds(t, order, now)
    decreases |order|
  {
    if |order| > 0 {
      ReleaseKeepsClaimable(t, order[..|order| - 1], now);
    }
  }

  lemma ReleaseThenClaimIds(t: Table, now: Time, limit: int)
    requires t.Valid() && RetryTimePrecedesLease(t)
    ensures Release(t, now).Valid() && ClaimIds(Release(t, now), now, limit) == ClaimIds(t, now, limit)
  {
    ReleaseKeepsClaimable(t, t.order, now);
  }

  lemma ReleaseThenClaimCopies(t: Table, now: Time, limit: int, owner: string, until: Time)
    requires t.Valid() && RetryTimePrecedesLease(t)
    ensures Claim(Release(t, now), now, limit, owner, until).1 == Claim(t, now, limit, owner, until).1
  {
    ReleaseThenClaimIds(t, now, limit);
    var ids := ClaimIds(t, now, limit);
    ClaimMeaning(t, now, limit, owner, until);
    ClaimMeaning(Release(t, now), now, limit, owner, until);
    var claimed, claimed' := Claim(t, now, limit, owner, until).1, Claim(Release(t, now), now, limit, owner, until).1;
    forall k | 0 <= k < |ids| ensures claimed[k] == claimed'[k] {
      LockedForgetsRelease(t, ids[k], now, owner, until);
    }
  }

  lemma LockedForgetsRelease(t: Table, id: string, now: Time, owner: string, until: Time)
    requires id in t.rows
    ensures Locked(Release(t, now).rows[id], owner, until) == Locked(t.rows[id], owner, until)
  {
  }

  /** Running `releaseExpiredClaims` first does not change which rows a claim returns, nor
      their contents; the stores differ only on expired rows left over beyond the limit. */
  lemma ReleaseThenClaim(t: Table, now: Time, limit: int, owner: string, until: Time)
    requires t.Valid() && RetryTimePrecedesLease(t)
    ensures var (direct, claimed) := Claim(t, now, limit, owner, until);
      var (released, claimed') := Claim(Release(t, now), now, limit, owner, until);
      && claimed' == claimed
      && released.order == direct.order && released.rows.Keys == direct.rows.Keys
      && (forall id :: id in direct.rows && released.rows[id] != direct.rows[id] ==>
            && IsExpired(t.rows[id], now) && id !in ClaimIds(t, now, limit)
            && |claimed| == (if limit < 0 then 0 else limit)
            && direct.rows[id] == t.rows[id] && released.rows[id] == Freed(t.rows[id]))
  {
    ReleaseThenClaimCopies(t, now, limit, owner, until);
    ReleaseThenClaimIds(t, now, limit);
    ClaimMeaning(t, now, limit, owner, until);
    ClaimMeaning(Release(t, now), now, limit, owner, until);
    forall id | id in t.rows ensures
      var direct, released := Claim(t, now, limit, owner, until).0, Claim(Release(t, now), now, limit, owner, until).0;
      released.rows[id] != direct.rows[id] ==>
        && IsExpired(t.rows[id], now) && id !in ClaimIds(t, now, limit)
        && |Claim(t, now, limit, owner, until).1| == (if limit < 0 then 0 else limit)
        && direct.rows[id] == t.rows[id] && released.rows[id] == Freed(t.rows[id])
    {
      LockedForgetsRelease(t, id, now, owner, until);
      ClaimIdsMeaning(t, now, limit);
    }
  }

  /** Without that invariant the two can differ: a leased row whose retry time lies beyond
      its lease is claimed directly, but not after it has been released. */
  lemma ReleaseThenClaimNeedsRetryTimeOrder(t: Table, id: string, now: Time, owner: string, until: Time)
    requires t.Valid() && id in t.rows && IsExpired(t.rows[id], now)
    requires t.rows[id].nextRetryAt.Some? && t.rows[id].nextRetryAt.value > now
    ensures var n := |t.order|;
      Claim(Release(t, now), now, n, owner, until).1 != Claim(t, now, n, owner, until).1
  {
    var n, freed := |t.order|, Release(t, now);
    var ids := ClaimIds(t, now, n);
    assert id in ids by {
      ClaimableIdsMeaning(t, t.order, now);
      ClaimableIdsShort(t, t.order, now);
    }
    assert id !in ClaimIds(freed, now, n) by { ClaimIdsMeaning(freed, now, n); }
    hide ClaimIds, Claim, IsExpired;
    var k :| 0 <= k < |ids| && ids[k] == id;
    ClaimMeaning(t, now, n, owner, until);
    ClaimMeaning(freed, now, n, owner, until);
    var ids' := ClaimIds(freed, now, n);
    assert k < |ids'| ==> ids'[k] in ids';
  }

  lemma {:induction false} ClaimableIdsShort(t: Table, order: seq<string>, now: Time)
    requires forall id :: id in order ==> id in t.rows
    ensures |ClaimableIds(t, order, now)| <= |order|
    decreases |order|
  {
    if |order| > 0 {
      ClaimableIdsShort(t, order[..|order| - 1], now);
    }
  }

  // ----- the store, updated in place -----

  class PublishEvent {
    const id: string
    const topic: string
    const payload: string
    var retryCount: nat
    var status: Status
    var nextRetryAt: Option<Time>
    var lastError: Option<string>
    var lockedBy: Option<string>
    var lockedUntil: Option<Time>
    var publishedAt: Option<Time>

    constructor (id: string, topic: string, payload: string)
      ensures Snapshot() == Row(id, topic, payload, 0, Pending, None, None, None, None, None)
    {
      this.id, this.topic, this.payload := id, topic, payload;
      retryCount, status, nextRetryAt, lastError := 0, Pending, None, None;
      lockedBy, lockedUntil, publishedAt := None, None, None;
    }

    /** The copy `{ ...event }`. */
    function Snapshot(): Row
      reads this
    {
      Row(id, topic, payload, retryCount, status, nextRetryAt, lastError, lockedBy, lockedUntil, publishedAt)
    }

    method Lock(owner: string, until: Time)
      modifies this
      ensures Snapshot() == Locked(old(Snapshot()), owner, until)
    {
      status := Processing;
      lockedBy := Some(owner);
      lockedUntil := Some(until);
    }

    method Free()
      modifies this
      ensures Snapshot() == Freed(old(Snapshot()))
    {
      status := Failed;
      lockedBy := None;
      lockedUntil := None;
    }

    method Publish(at: Time)
      modifies this
      ensures Snapshot() == AsPublished(old(Snapshot()), at)
    {
      status := Published;
      publishedAt := Some(at);
      lockedBy := None;
      lockedUntil := None;
      nextRetryAt := None;
    }

    method RecordFailure(error: string, maxRetries: int, retryAt: Time)
      modifies this
      ensures Snapshot() == AsFailed(old(Snapshot()), error, maxRetries, retryAt)
    {
      retryCount := retryCount + 1;
      status := if retryCount >= maxRetries then DeadLetter else Failed;
      nextRetryAt := if status == DeadLetter then None else Some(retryAt);
      lastError := Some(error);
      lockedBy := None;
      lockedUntil := None;
    }

    method Reset(now: Time)
      modifies this
      ensures Snapshot() == AsRequeued(old(Snapshot()), now)
    {
      status := Failed;
      retryCount := 0;
      lastError := None;
      nextRetryAt := Some(now);
      lockedBy := None;
      lockedUntil := None;
      publishedAt := None;
    }
  }

  class InMemoryPublishStorage {
    var store: map<string, PublishEvent>
    var order: seq<string>

    ghost predicate Valid()
      reads this, store.Values
    {
      && Distinct(order)
      && (forall id :: id in order <==> id in store)
      && (forall id :: id in store ==> store[id].id == id)
    }

    ghost function View(): Table
      reads this, store.Values
    {
      Table(map id | id in store :: store[id].Snapshot(), order)
    }

    /** Updating one stored object in place changes one row of the table. */
    twostate lemma OneRowChanged(id: string)
      requires old(Valid()) && store == old(store) && order == old(order) && id in store
      requires forall other :: other in store && other != id ==> unchanged(store[other])
      ensures Valid() && View() == old(View()).(rows := old(View()).rows[id := store[id].Snapshot()])
    {
      assert View().rows == old(View()).rows[id := store[id].Snapshot()];
    }

    constructor ()
      ensures Valid() && View() == Table(map[], [])
    {
      store, order := map[], [];
    }

    method SavePublish(event: PublishEvent) returns (id: string)
      requires Valid()
      modifies this
      ensures Valid() && id == event.id
      ensures View() == Save(old(View()), event.Snapshot())
    {
      if event.id !in store { order := order + [event.id]; }
      store := store[event.id := event];
      id := event.id;
      assert View().rows == old(View()).rows[event.id := event.Snapshot()];
    }

    method ClaimUnpublished(limit: int, lockedBy: string, lockUntil: Time, now: Time)
      returns (claimed: seq<Row>)
      requires Valid()
      modifies store.Values
      ensures Valid() && old(View()).Valid()
      ensures (View(), claimed) == Claim(old(View()), now, limit, lockedBy, lockUntil)
    {
      hide ClaimedUpTo, Claim, IsClaimable, Locked, ClaimableIds, Take;
      claimed := [];
      ghost var was := View();
      ClaimBegin(was, now, limit, lockedBy, lockUntil);
      var i := 0;
      while i < |order|
        invariant i <= |order| && Valid()
        invariant was.Valid() && was.order == order
        invariant ClaimedUpTo(was, View(), i, now, limit, lockedBy, lockUntil, claimed)
      {
        if |claimed| >= limit {
          ClaimFull(was, View(), i, now, limit, lockedBy, lockUntil, claimed);
          return;
        }
        NextIsUntouched(was, View(), i, now, limit, lockedBy, lockUntil, claimed);
        ClaimStep(was, View(), i, now, limit, lockedBy, lockUntil, claimed);
        if IsClaimable(store[order[i]].Snapshot(), now) {
          var copy := LockRow(order[i], lockedBy, lockUntil);
          claimed := claimed + [copy];
        }
        i := i + 1;
      }
      ClaimEnd(was, View(), now, limit, lockedBy, lockUntil, claimed);
    }

    method LockRow(id: string, owner: string, until: Time) returns (copy: Row)
      requires Valid() && id in store
      modifies store[id]
      ensures Valid() && copy == Locked(old(View()).rows[id], owner, until)
      ensures View() == old(View()).(rows := old(View()).rows[id := copy])
    {
      store[id].Lock(owner, until);
      OneRowChanged(id);
      copy := store[id].Snapshot();
    }

    method MarkPublished(id: string, publishedAt: Time, expectedLockedBy: Option<string>)
      returns (updated: bool)
      requires Valid()
      modifies store.Values
      ensures Valid()
      ensures (View(), updated) == Complete(old(View()), id, publishedAt, expectedLockedBy)
    {
      if id !in store || !OwnsClaim(store[id].Snapshot(), expectedLockedBy) { return false; }
      store[id].Publish(publishedAt);
      OneRowChanged(id);
      return true;
    }

    method MarkPublishFailed(id: string, error: string, maxRetries: int, nextRetryAt: Time,
                             expectedLockedBy: Option<string>)
      returns (updated: bool)
      requires Valid()
      modifies store.Values
      ensures Valid()
      ensures (View(), updated) == Fail(old(View()), id, error, maxRetries, nextRetryAt, expectedLockedBy)
    {
      if id !in store || !OwnsClaim(store[id].Snapshot(), expectedLockedBy) { return false; }
      store[id].RecordFailure(error, maxRetries, nextRetryAt);
      OneRowChanged(id);
      return true;
    }

    method RenewPublishClaim(id: string, expectedLockedBy: string, now: Time, lockUntil: Time)
      returns (renewed: bool)
      requires Valid()
      modifies store.Values
      ensures Valid()
      ensures (View(), renewed) == Renew(old(View()), id, expectedLockedBy, now, lockUntil)
    {
      if id !in store || !CanRenew(store[id].Snapshot(), expectedLockedBy, now) { return false; }
      store[id].lockedUntil := Some(lockUntil);
      OneRowChanged(id);
      return true;
    }

    method ReleaseExpiredClaims(now: Time)
      requires Valid()
      modifies store.Values
      ensures Valid()
      ensures View() == Release(old(View()), now)
    {
      hide ReleasedUpTo, ReleasedAt, Release, Released, IsExpired;
      ghost var was := View();
      assert was.Valid() && was.order == order;
      ReleaseStart(was, now);
      var i := 0;
      while i < |order|
        invariant 0 <= i <= |order| && Valid()
        invariant ReleasedUpTo(was, View(), now, i)
      {
        var id := order[i];
        assert id in order && id == was.order[i];
        ReleaseStep(was, View(), now, i);
        ReleaseRow(id, now);
        i := i + 1;
      }
      AllReleased(was, View(), now);
    }

    method ReleaseRow(id: string, now: Time)
      requires Valid() && id in store
      modifies store[id]
      ensures Valid() && View() == old(View()).(rows := old(View()).rows[id := Released(old(View()).rows[id], now)])
    {
      if IsExpired(store[id].Snapshot(), now) {
        store[id].Free();
      }
      OneRowChanged(id);
    }

    method FindPublishById(id: string) returns (row: Option<Row>)
      requires Valid()
      ensures row == if id in View().rows then Some(View().rows[id]) else None
    {
      row := if id in store then Some(store[id].Snapshot()) else None;
    }

    method RequeuePublish(id: string, now: Time) returns (outcome: RequeueOutcome)
      requires Valid()
      modifies store.Values
      ensures Valid()
      ensures (View(), outcome) == Requeue(old(View()), id, now)
    {
      if id !in store { return NotFound; }
      var previous := store[id].status;
      if previous != Failed && previous != DeadLetter { return NotEligible(previous); }
      store[id].Reset(now);
      OneRowChanged(id);
      return Requeued(previous);
    }
  }

  // ----- the releasing loop -----

  /** The table once the loop has looked at `i` rows. */
  ghost predicate ReleasedUpTo(was: Table, table: Table, now: Time, i: nat)
    requires was.Valid() && i <= |was.order|
  {
    && table.order == was.order && table.rows.Keys == was.rows.Keys
    && forall k :: 0 <= k < |was.order| ==> ReleasedAt(was, table, now, was.order[k], k < i)
  }

  ghost predicate ReleasedAt(was: Table, table: Table, now: Time, id: string, done: bool) {
    && id in was.rows && id in table.rows
    && table.rows[id] == if done then Released(was.rows[id], now) else was.rows[id]
  }

  lemma ReleaseStep(was: Table, table: Table, now: Time, i: nat)
    requires was.Valid() && i < |was.order| && ReleasedUpTo(was, table, now, i)
    ensures was.order[i] in table.rows
    ensures ReleasedUpTo(was, table.(rows := table.rows[was.order[i] := Released(table.rows[was.order[i]], now)]), now, i + 1)
  {
    assert ReleasedAt(was, table, now, was.order[i], false);
    var after := table.(rows := table.rows[was.order[i] := Released(table.rows[was.order[i]], now)]);
    forall k | 0 <= k < |was.order| ensures ReleasedAt(was, after, now, was.order[k], k < i + 1) {
      assert ReleasedAt(was, table, now, was.order[k], k < i);
    }
  }

  lemma ReleaseStart(was: Table, now: Time)
    requires was.Valid()
    ensures ReleasedUpTo(was, was, now, 0)
  {
    assert forall k :: 0 <= k < |was.order| ==> was.order[k] in was.order;
  }

  lemma AllReleased(was: Table, table: Table, now: Time)
    requires was.Valid() && ReleasedUpTo(was, table, now, |was.order|)
    ensures table == Release(was, now)
  {
    forall id <- was.rows ensures table.rows[id] == Released(was.rows[id], now) {
      var k :| 0 <= k < |was.order| && was.order[k] == id;
      assert ReleasedAt(was, table, now, was.order[k], true);
    }
    assert table.rows == Release(was, now).rows;
  }

  // ----- the claiming loop -----

  /** The table and the copies collected once the loop has looked at `i` rows. */
  ghost predicate ClaimedUpTo(was: Table, table: Table, i: nat, now: Time, limit: int,
                              owner: string, until: Time, claimed: seq<Row>)
    requires was.Valid() && i <= |was.order|
  {
    HasClaimed(was, table, Take(ClaimableIds(was, was.order[..i], now), limit), owner, until, claimed)
  }

  ghost predicate HasClaimed(was: Table, table: Table, ids: seq<string>, owner: string, until: Time, claimed: seq<Row>) {
    && (forall id :: id in ids ==> id in was.rows)
    && table == LockAll(was, ids, owner, until)
    && claimed == RowsOf(table, ids)
  }

  lemma ClaimOneMore(was: Table, table: Table, ids: seq<string>, owner: string, until: Time, claimed: seq<Row>, id: string)
    requires HasClaimed(was, table, ids, owner, until, claimed) && id in was.rows && id !in ids
    ensures id in table.rows
    ensures var row := Locked(was.rows[id], owner, until);
      HasClaimed(was, table.(rows := table.rows[id := row]), ids + [id], owner, until, claimed + [row])
  {
    LockOneMore(was, ids, owner, until, id);
    hide LockAll, RowsOf, Locked;
  }

  lemma ClaimBegin(was: Table, now: Time, limit: int, owner: string, until: Time)
    requires was.Valid()
    ensures ClaimedUpTo(was, was, 0, now, limit, owner, until, [])
  {
    assert LockAll(was, [], owner, until).rows == was.rows;
  }

  lemma NextIsUntouched(was: Table, table: Table, i: nat, now: Time, limit: int,
                        owner: string, until: Time, claimed: seq<Row>)
    requires was.Valid() && i < |was.order|
    requires ClaimedUpTo(was, table, i, now, limit, owner, until, claimed)
    ensures var id := was.order[i];
      && id in table.rows && table.rows[id] == was.rows[id]
      && id !in Take(ClaimableIds(was, was.order[..i], now), limit)
  {
    ClaimableIdsMeaning(was, was.order[..i], now);
  }

  lemma ClaimStep(was: Table, table: Table, i: nat, now: Time, limit: int,
                  owner: string, until: Time, claimed: seq<Row>)
    requires was.Valid() && i < |was.order| && |claimed| < limit
    requires ClaimedUpTo(was, table, i, now, limit, owner, until, claimed)
    ensures var id := was.order[i];
      var row := Locked(was.rows[id], owner, until);
      if IsClaimable(was.rows[id], now)
      then ClaimedUpTo(was, table.(rows := table.rows[id := row]), i + 1, now, limit, owner, until, claimed + [row])
      else ClaimedUpTo(was, table, i + 1, now, limit, owner, until, claimed)
  {
    var id, ids := was.order[i], Take(ClaimableIds(was, was.order[..i], now), limit);
    assert |ids| == |claimed|;
    hide IsClaimable, ClaimableIds, Take, Locked, LockAll, RowsOf, HasClaimed;
    NextIsUntouched(was, table, i, now, limit, owner, until, claimed);
    TakeNext(was, was.order, i, now, limit);
    if IsClaimable(was.rows[id], now) {
      ClaimOneMore(was, table, ids, owner, until, claimed, id);
    }
  }

  lemma ClaimFull(was: Table, table: Table, i: nat, now: Time, limit: int,
                  owner: string, until: Time, claimed: seq<Row>)
    requires was.Valid() && i <= |was.order| && |claimed| >= limit
    requires ClaimedUpTo(was, table, i, now, limit, owner, until, claimed)
    ensures (table, claimed) == Claim(was, now, limit, owner, until)
  {
    TakeIsFull(was, was.order, i, now, limit);
  }

  lemma ClaimEnd(was: Table, table: Table, now: Time, limit: int, owner: string, until: Time, claimed: seq<Row>)
    requires was.Valid() && ClaimedUpTo(was, table, |was.order|, now, limit, owner, until, claimed)
    ensures (table, claimed) == Claim(was, now, limit, owner, until)
  {
    assert was.order[..|was.order|] == was.order;
  }

  lemma LockOneMore(was: Table, ids: seq<string>, owner: string, until: Time, id: string)
    requires id in was.rows && id !in ids
    requires forall other :: other in ids ==> other in was.rows
    ensures var row := Locked(was.rows[id], owner, until);
      var table := LockAll(was, ids, owner, until);
      && LockAll(was, ids + [id], owner, until) == table.(rows := table.rows[id := row])
      && RowsOf(LockAll(was, ids + [id], owner, until), ids + [id]) == RowsOf(table, ids) + [row]
  {
    var row := Locked(was.rows[id], owner, until);
    var table, next := LockAll(was, ids, owner, until), LockAll(was, ids + [id], owner, until);
    assert next.rows == table.rows[id := row];
    assert RowsOf(next, ids + [id]) == RowsOf(table, ids) + [row];
  }

  lemma TakeNext(t: Table, order: seq<string>, i: nat, now: Time, limit: int)
    requires forall id :: id in order ==> id in t.rows
    requires i < |order| && |Take(ClaimableIds(t, order[..i], now), limit)| < limit
    ensures Take(ClaimableIds(t, order[..i + 1], now), limit) ==
      Take(ClaimableIds(t, order[..i], now), limit) + if IsClaimable(t.rows[order[i]], now) then [order[i]] else []
  {
    assert order[..i + 1][..i] == order[..i];
  }

  lemma TakeIsFull(t: Table, order: seq<string>, i: nat, now: Time, limit: int)
    requires forall id :: id in order ==> id in t.rows
    requires i <= |order|
    requires |Take(ClaimableIds(t, order[..i], now), limit)| >= limit
    ensures Take(ClaimableIds(t, order, now), limit) == Take(ClaimableIds(t, order[..i], now), limit)
    decreases |order| - i
  {
    if i < |order| {
      assert order[..i + 1][..i] == order[..i];
      TakeIsFull(t, order, i + 1, now, limit);
    } else {
      assert order[..i] == order;
    }
  }
}
