/** What the operations of the outbox store do to its rows, field by field. */
module OutboxLaws {
  import opened Basics
  import opened OutboxStore

  predicate SameMessage(a: Row, b: Row) {
    b.id == a.id && b.topic == a.topic && b.payload == a.payload
  }

  /** No other row differs, none comes or goes, and this one keeps what it carries. */
  ghost predicate OnlyDiffersAt(t: Table, t': Table, id: string) {
    && t'.order == t.order && t'.rows.Keys == t.rows.Keys
    && (forall other <- t.rows :: other != id ==> t'.rows[other] == t.rows[other])
    && (id in t.rows ==> SameMessage(t.rows[id], t'.rows[id]))
  }

  // ---------------------------------------------------------------- claiming

  /** Pending rows, failed rows whose retry time, if any, has come, and rows in processing whose
      lease has run out. */
  ghost predicate MayBeClaimed(row: Row, now: Time) {
    || row.status == Pending
    || (row.status == Failed && forall at :: row.nextRetryAt == Some(at) ==> at <= now)
    || (row.status == Processing && exists until :: row.lockedUntil == Some(until) && until <= now)
  }

  ghost predicate Claimed(was: Row, row: Row, owner: string, until: Time) {
    && SameMessage(was, row) && row.retryCount == was.retryCount && row.nextRetryAt == was.nextRetryAt
    && row.lastError == was.lastError && row.publishedAt == was.publishedAt
    && row.status == Processing && row.lockedBy == Some(owner) && row.lockedUntil == Some(until)
  }

  ghost predicate Among(id: string, rows: seq<Row>) {
    exists k :: 0 <= k < |rows| && rows[k].id == id
  }

  /** A claim takes the rows that may be claimed in the order of their insertion, as many as the
      limit allows: it locks them for the owner until the deadline, returns copies of them in
      that order, and leaves every other row alone. */
  lemma ClaimLaw(t: Table, now: Time, limit: int, owner: string, until: Time)
    requires t.Valid()
    ensures var (t', claimed) := Claim(t, now, limit, owner, until);
      && t'.order == t.order && t'.rows.Keys == t.rows.Keys && |claimed| <= (if limit < 0 then 0 else limit)
      && (forall k :: 0 <= k < |claimed| ==>
            && claimed[k].id in t.rows && t'.rows[claimed[k].id] == claimed[k]
            && MayBeClaimed(t.rows[claimed[k].id], now) && Claimed(t.rows[claimed[k].id], claimed[k], owner, until))
      && (forall j, k :: 0 <= j < k < |claimed| ==> claimed[j].id != claimed[k].id && StandsBefore(t.order, claimed[j].id, claimed[k].id))
      && (forall id <- t.rows :: !Among(id, claimed) ==> t'.rows[id] == t.rows[id])
      && (forall id <- t.rows :: !Among(id, claimed) && MayBeClaimed(t.rows[id], now) ==>
            |claimed| >= limit && forall k :: 0 <= k < |claimed| ==> StandsBefore(t.order, claimed[k].id, id))
  {
    var ids, all := ClaimIds(t, now, limit), ClaimableIds(t, t.order, now);
    var (t', claimed) := Claim(t, now, limit, owner, until);
    ClaimIdsMeaning(t, now, limit);
    ClaimMeaning(t, now, limit, owner, until);
    ClaimableIdsMeaning(t, t.order, now);
    ClaimableIdsDistinct(t, t.order, now);
    ClaimableInOrder(t, t.order, now);
    hide Claim, ClaimableIds, Distinct;
    forall id <- t.rows ensures IsClaimable(t.rows[id], now) <==> MayBeClaimed(t.rows[id], now) { }
    hide IsClaimable, MayBeClaimed;
    forall id <- t.rows ensures Among(id, claimed) <==> id in ids {
      if id in ids {
        var k :| 0 <= k < |ids| && ids[k] == id;
        assert claimed[k].id == id;
      }
    }
    forall j, k | 0 <= j < k < |claimed| ensures claimed[j].id != claimed[k].id && StandsBefore(t.order, claimed[j].id, claimed[k].id) {
      TakenInOrder(t.order, all, limit, j, k);
    }
    forall id <- t.rows | !Among(id, claimed) && IsClaimable(t.rows[id], now)
      ensures |claimed| >= limit && forall k :: 0 <= k < |claimed| ==> StandsBefore(t.order, claimed[k].id, id)
    {
      LeftOutComesLater(t.order, all, limit, id);
    }
  }

  ghost predicate ClaimOrder(order: seq<string>, ids: seq<string>) {
    forall i, j :: 0 <= i < j < |ids| ==> ids[i] != ids[j] && StandsBefore(order, ids[i], ids[j])
  }

  lemma {:induction false} ClaimableInOrder(t: Table, order: seq<string>, now: Time)
    requires (forall id :: id in order ==> id in t.rows) && Distinct(order)
    ensures ClaimOrder(order, ClaimableIds(t, order, now))
    decreases |order|
  {
    if order != [] {
      var front, last := order[..|order| - 1], order[|order| - 1];
      ClaimableInOrder(t, front, now);
      ClaimableIdsMeaning(t, front, now);
      var ids := ClaimableIds(t, front, now);
      forall i | 0 <= i < |ids| ensures ids[i] != last && StandsBefore(order, ids[i], last) {
        assert ids[i] in ids && ids[i] in front;
      }
      forall i, j | 0 <= i < j < |ids| ensures ids[i] != ids[j] && StandsBefore(order, ids[i], ids[j]) {
        assert ids[i] in ids && ids[j] in ids && StandsBefore(front, ids[i], ids[j]);
        LaterInsertion(front, order, ids[i], ids[j]);
      }
    }
  }

  lemma LaterInsertion(front: seq<string>, order: seq<string>, a: string, b: string)
    requires Distinct(order) && order != [] && front == order[..|order| - 1] && a in front && b in front && StandsBefore(front, a, b)
    ensures StandsBefore(order, a, b)
  {
    forall p, q | 0 <= p < |order| && 0 <= q < |order| && order[p] == a && order[q] == b ensures p < q {
      assert front[p] == a && front[q] == b;
    }
  }

  lemma TakenInOrder(order: seq<string>, all: seq<string>, limit: int, j: nat, k: nat)
    requires ClaimOrder(order, all) && j < k < |Take(all, limit)|
    ensures Take(all, limit)[j] != Take(all, limit)[k] && StandsBefore(order, Take(all, limit)[j], Take(all, limit)[k])
  {
    assert Take(all, limit)[j] == all[j] && Take(all, limit)[k] == all[k];
  }

  lemma LeftOutComesLater(order: seq<string>, all: seq<string>, limit: int, id: string)
    requires ClaimOrder(order, all) && id in all && id !in Take(all, limit)
    ensures |Take(all, limit)| >= limit && forall k :: 0 <= k < |Take(all, limit)| ==> StandsBefore(order, Take(all, limit)[k], id)
  {
    var m :| 0 <= m < |all| && all[m] == id;
    var taken := Take(all, limit);
    assert forall k :: 0 <= k < |taken| ==> taken[k] == all[k] && taken[k] in taken;
    assert m >= |taken|;
  }

  // ---------------------------------------------------------------- completing, renewing, releasing

  /** A completion that names an owner applies while that owner holds the row; one that names
      none applies to every stored row. */
  predicate Applies(t: Table, id: string, expected: Option<string>) {
    id in t.rows && (expected == None || (t.rows[id].status == Processing && t.rows[id].lockedBy == expected))
  }

  /** A successful completion publishes the row at the given time and unlocks it for good; what
      failures were counted stays. */
  lemma PublishLaw(t: Table, id: string, at: Time, expected: Option<string>)
    ensures var (t', updated) := Complete(t, id, at, expected);
      && updated == Applies(t, id, expected) && OnlyDiffersAt(t, t', id) && (!updated ==> t' == t)
      && (updated ==>
            var row, row' := t.rows[id], t'.rows[id];
            && row'.status == Published && row'.publishedAt == Some(at) && row'.lockedBy == None && row'.lockedUntil == None
            && row'.nextRetryAt == None && row'.retryCount == row.retryCount && row'.lastError == row.lastError
            && forall now :: !MayBeClaimed(row', now))
  {
  }

  /** A failed completion counts the failure, records its error and unlocks the row: below the
      maximum it may be claimed again from the retry time on, at the maximum never. */
  lemma FailureLaw(t: Table, id: string, error: string, maxRetries: int, retryAt: Time, expected: Option<string>)
    ensures var (t', updated) := Fail(t, id, error, maxRetries, retryAt, expected);
      && updated == Applies(t, id, expected) && OnlyDiffersAt(t, t', id) && (!updated ==> t' == t)
      && (updated ==>
            var row, row' := t.rows[id], t'.rows[id];
            && row'.retryCount == row.retryCount + 1 && row'.lastError == Some(error) && row'.publishedAt == row.publishedAt
            && row'.lockedBy == None && row'.lockedUntil == None
            && (row.retryCount + 1 < maxRetries ==>
                  row'.status == Failed && row'.nextRetryAt == Some(retryAt) && forall now :: MayBeClaimed(row', now) <==> retryAt <= now)
            && (row.retryCount + 1 >= maxRetries ==>
                  row'.status == DeadLetter && row'.nextRetryAt == None && forall now :: !MayBeClaimed(row', now)))
  {
  }

  /** A renewal succeeds for the owner of a lease that has not run out, and moves the deadline. */
  lemma RenewLaw(t: Table, id: string, owner: string, now: Time, until: Time)
    ensures var (t', renewed) := Renew(t, id, owner, now, until);
      && OnlyDiffersAt(t, t', id) && (!renewed ==> t' == t)
      && (renewed <==> id in t.rows && t.rows[id].status == Processing && t.rows[id].lockedBy == Some(owner)
                       && exists deadline :: t.rows[id].lockedUntil == Some(deadline) && now < deadline)
      && (renewed ==> t'.rows[id].lockedUntil == Some(until) && t'.rows[id].(lockedUntil := None) == t.rows[id].(lockedUntil := None))
  {
    assert id in t.rows && CanRenew(t.rows[id], owner, now) ==> t.rows[id].lockedUntil == Some(t.rows[id].lockedUntil.value);
  }

  /** A release turns every row whose lease has run out into a failed one without an owner, and
      leaves the others alone. */
  lemma ReleaseLaw(t: Table, now: Time)
    ensures var t' := Release(t, now);
      && t'.order == t.order && t'.rows.Keys == t.rows.Keys
      && forall id <- t.rows ::
           var row, row' := t.rows[id], t'.rows[id];
           if row.status == Processing && row.lockedUntil.Some? && row.lockedUntil.value <= now then
             && SameMessage(row, row') && row'.status == Failed && row'.lockedBy == None && row'.lockedUntil == None
             && row'.retryCount == row.retryCount && row'.nextRetryAt == row.nextRetryAt
             && row'.lastError == row.lastError && row'.publishedAt == row.publishedAt
           else row' == row
  {
  }

  /** A requeue takes a failed or dead-lettered row back to the start, claimable from now on with
      no failures counted; it answers what the row was, and leaves rows of any other status. */
  lemma RequeueLaw(t: Table, id: string, now: Time)
    ensures var (t', outcome) := Requeue(t, id, now);
      && OnlyDiffersAt(t, t', id)
      && (id !in t.rows ==> t' == t && outcome == NotFound)
      && (id in t.rows ==>
            var row, row' := t.rows[id], t'.rows[id];
            if row.status == Failed || row.status == DeadLetter then
              && outcome == Requeued(row.status) && row'.status == Failed && row'.retryCount == 0
              && row'.lastError == None && row'.nextRetryAt == Some(now) && row'.publishedAt == None
              && row'.lockedBy == None && row'.lockedUntil == None
              && forall later :: MayBeClaimed(row', later) <==> now <= later
            else t' == t && outcome == NotEligible(row.status))
  {
  }

  /** A saved row is stored as it is, after all others if it is new. */
  lemma SaveLaw(t: Table, row: Row)
    ensures var t' := Save(t, row);
      && t'.rows == t.rows[row.id := row]
      && (row.id in t.rows ==> t'.order == t.order) && (row.id !in t.rows ==> t'.order == t.order + [row.id])
  {
  }
}
