/** Which received messages are due for another attempt, and in which order (`getRetryDue`,
    libs/cap-core/src/testing/in-memory-received-storage.ts). */
module RetrySelection {
  import opened Basics
  import opened InboxTable

  /** Failed rows whose retry time has come, and pending rows received at or before the given
      moment. */
  predicate IsDue(row: Row, now: Time, pendingBefore: Option<Time>) {
    match row.status
    case Failed => row.nextRetry.Some? && row.nextRetry.value <= now
    case Pending => pendingBefore.Some? && row.occurredAt <= pendingBefore.value
    case _ => false
  }

  function DueTime(row: Row): Time {
    if row.status == Failed && row.nextRetry.Some? then row.nextRetry.value else row.occurredAt
  }

  /** By due time, then by time of arrival, then by id. */
  predicate Before(less: IdOrder, a: Row, b: Row) {
    || DueTime(a) < DueTime(b)
    || (DueTime(a) == DueTime(b) && (
          || a.occurredAt < b.occurredAt
          || (a.occurredAt == b.occurredAt && less(a.id, b.id))))
  }

  /** How the collation compares ids: a strict total order on the ids in play. */
  type IdOrder = (string, string) -> bool

  ghost predicate StrictTotal(less: IdOrder, ids: set<string>) {
    && (forall x <- ids :: !less(x, x))
    && (forall x <- ids, y <- ids :: x != y ==> less(x, y) || less(y, x))
    && (forall x <- ids, y <- ids, z <- ids :: less(x, y) && less(y, z) ==> less(x, z))
  }

  /** The order by code unit is one. */
  lemma CodeUnitsAreStrictTotal(ids: set<string>)
    ensures StrictTotal(Less, ids)
  {
    forall x, y, z
      ensures !Less(x, x) && (x != y ==> Less(x, y) || Less(y, x)) && (Less(x, y) && Less(y, z) ==> Less(x, z))
    {
      LessTotal(x, y);
      LessTotal(x, x);
      if Less(x, y) && Less(y, z) { LessTransitive(x, y, z); }
    }
  }

  lemma BeforeIsStrictOrder(less: IdOrder, a: Row, b: Row, c: Row)
    requires StrictTotal(less, {a.id, b.id, c.id})
    ensures !(Before(less, a, b) && Before(less, b, a))
    ensures a.id != b.id ==> Before(less, a, b) || Before(less, b, a)
    ensures Before(less, a, b) && Before(less, b, c) ==> Before(less, a, c)
  {
    var ids := {a.id, b.id, c.id};
    assert a.id in ids && b.id in ids && c.id in ids;
  }

  ghost predicate InOrder(less: IdOrder, rows: seq<Row>) {
    forall i, j :: 0 <= i < j < |rows| ==> Before(less, rows[i], rows[j])
  }

  ghost predicate Keyed(rows: map<string, Row>) {
    forall id <- rows :: rows[id].id == id
  }

  /** The `limit` least due rows, in order. */
  ghost predicate IsSelection(less: IdOrder, rows: map<string, Row>, limit: nat, now: Time, pendingBefore: Option<Time>, r: seq<Row>) {
    && InOrder(less, r) && |r| <= limit
    && (forall x <- r :: x.id in rows && rows[x.id] == x && IsDue(x, now, pendingBefore))
    && forall id <- rows :: IsDue(rows[id], now, pendingBefore) && rows[id] !in r ==>
         |r| == limit && forall x <- r :: Before(less, x, rows[id])
  }

  /** Two selections that agree up to a position do not differ at it in one direction. */
  lemma NotBeforeAt(less: IdOrder, rows: map<string, Row>, limit: nat, now: Time, pendingBefore: Option<Time>,
                    r: seq<Row>, x: Row, k: nat)
    requires IsSelection(less, rows, limit, now, pendingBefore, r) && k < |r|
    requires x.id in rows && rows[x.id] == x && IsDue(x, now, pendingBefore) && x !in r[..k]
    ensures x == r[k] || Before(less, r[k], x)
  {
    assert forall j :: 0 <= j < k ==> r[..k][j] == r[j];
    if x in r {
      var j :| 0 <= j < |r| && r[j] == x;
    } else {
      assert r[k] in r && rows[x.id] !in r;
    }
  }

  lemma {:induction false} SelectionsAgree(less: IdOrder, rows: map<string, Row>, small: nat, large: nat, now: Time,
                                           pendingBefore: Option<Time>, a: seq<Row>, b: seq<Row>, k: nat)
    requires StrictTotal(less, rows.Keys)
    requires IsSelection(less, rows, small, now, pendingBefore, a) && IsSelection(less, rows, large, now, pendingBefore, b)
    requires k <= |a| && k <= |b|
    ensures a[..k] == b[..k]
  {
    if k > 0 {
      var i := k - 1;
      SelectionsAgree(less, rows, small, large, now, pendingBefore, a, b, i);
      assert a[..k] == a[..i] + [a[i]] && b[..k] == b[..i] + [b[i]];
      FreshAt(less, a, i);
      FreshAt(less, b, i);
      assert a[i] in a && b[i] in b;
      NotBeforeAt(less, rows, small, now, pendingBefore, a, b[i], i);
      NotBeforeAt(less, rows, large, now, pendingBefore, b, a[i], i);
      BeforeIsStrictOrder(less, a[i], b[i], b[i]);
    }
  }

  lemma FreshAt(less: IdOrder, r: seq<Row>, i: nat)
    requires InOrder(less, r) && i < |r| && !less(r[i].id, r[i].id)
    ensures r[i] !in r[..i]
  {
    assert forall j :: 0 <= j < i ==> r[..i][j] == r[j] && Before(less, r[j], r[i]);
  }

  /** Selections for growing limits are prefixes of one another; in particular a selection is
      determined by the rows, whatever order the store lists them in. */
  lemma SelectionIsPrefix(less: IdOrder, rows: map<string, Row>, small: nat, large: nat, now: Time, pendingBefore: Option<Time>,
                          a: seq<Row>, b: seq<Row>)
    requires small <= large
    requires StrictTotal(less, rows.Keys)
    requires IsSelection(less, rows, small, now, pendingBefore, a) && IsSelection(less, rows, large, now, pendingBefore, b)
    ensures |a| <= |b| && a == b[..|a|]
    ensures small == large ==> a == b
  {
    NoLonger(less, rows, small, large, now, pendingBefore, a, b);
    if small == large { NoLonger(less, rows, large, small, now, pendingBefore, b, a); }
    SelectionsAgree(less, rows, small, large, now, pendingBefore, a, b, |a|);
    assert a[..|a|] == a && b[..|b|] == b;
  }

  lemma NoLonger(less: IdOrder, rows: map<string, Row>, small: nat, large: nat, now: Time, pendingBefore: Option<Time>,
                 a: seq<Row>, b: seq<Row>)
    requires small <= large
    requires StrictTotal(less, rows.Keys)
    requires IsSelection(less, rows, small, now, pendingBefore, a) && IsSelection(less, rows, large, now, pendingBefore, b)
    ensures |a| <= |b|
  {
    if |b| < |a| {
      FreshAt(less, a, |b|);
      assert b == b[..|b|] && a[|b|] in a;
      SelectionsAgree(less, rows, small, large, now, pendingBefore, a, b, |b|);
    }
  }

  // ---------------------------------------------------------------- sorting

  /** One step of the sort: `x` joins a sorted list. */
  function InsertRow(less: IdOrder, x: Row, rows: seq<Row>): (r: seq<Row>)
    ensures multiset(r) == multiset(rows) + multiset{x}
  {
    if rows == [] || Before(less, x, rows[0]) then [x] + rows
    else
      assert rows == [rows[0]] + rows[1..];
      [rows[0]] + InsertRow(less, x, rows[1..])
  }

  ghost function Ids(rows: seq<Row>): set<string> {
    set x | x in rows :: x.id
  }

  lemma {:induction false} InsertKeepsOrder(less: IdOrder, x: Row, rows: seq<Row>)
    requires InOrder(less, rows) && forall y <- rows :: y.id != x.id
    requires StrictTotal(less, Ids(rows) + {x.id})
    ensures InOrder(less, InsertRow(less, x, rows))
  {
    if rows != [] {
      if Before(less, x, rows[0]) {
        forall j | 0 <= j < |rows| ensures Before(less, x, rows[j]) {
          if j > 0 { BeforeIsStrictOrder(less, x, rows[0], rows[j]); }
        }
      } else {
        InsertKeepsOrder(less, x, rows[1..]);
        var rest := InsertRow(less, x, rows[1..]);
        forall j | 0 <= j < |rest| ensures Before(less, rows[0], rest[j]) {
          assert rest[j] in multiset(rest);
          if rest[j] == x {
            BeforeIsStrictOrder(less, x, rows[0], x);
          } else {
            assert rest[j] in rows[1..];
          }
        }
      }
    }
  }

  /** The due rows of the listed ids, sorted. */
  function DueRows(less: IdOrder, rows: map<string, Row>, ids: seq<string>, now: Time, pendingBefore: Option<Time>): (r: seq<Row>)
    requires forall id <- ids :: id in rows
    decreases |ids|
  {
    if ids == [] then []
    else
      var last, rest := ids[|ids| - 1], DueRows(less, rows, ids[..|ids| - 1], now, pendingBefore);
      if IsDue(rows[last], now, pendingBefore) then InsertRow(less, rows[last], rest) else rest
  }

  lemma {:induction false} DueRowsAreSorted(less: IdOrder, rows: map<string, Row>, ids: seq<string>, now: Time, pendingBefore: Option<Time>)
    requires Keyed(rows) && Distinct(ids) && (forall id <- ids :: id in rows) && StrictTotal(less, rows.Keys)
    ensures InOrder(less, DueRows(less, rows, ids, now, pendingBefore))
    ensures forall x :: x in DueRows(less, rows, ids, now, pendingBefore) <==>
                        x.id in ids && rows[x.id] == x && IsDue(x, now, pendingBefore)
    decreases |ids|
  {
    if ids != [] {
      var front, last := ids[..|ids| - 1], ids[|ids| - 1];
      assert ids == front + [last] && last !in front;
      DueRowsAreSorted(less, rows, front, now, pendingBefore);
      var rest := DueRows(less, rows, front, now, pendingBefore);
      if IsDue(rows[last], now, pendingBefore) {
        InsertKeepsOrder(less, rows[last], rest);
        var more := InsertRow(less, rows[last], rest);
        forall x ensures x in more <==> x in rest || x == rows[last] {
          assert x in more <==> x in multiset(more);
        }
      }
    }
  }

  function Slice(rows: seq<Row>, limit: nat): seq<Row> {
    if |rows| <= limit then rows else rows[..limit]
  }

  predicate FailedAndDue(x: Row, now: Time) {
    x.status == Failed && x.nextRetry.Some? && x.nextRetry.value <= now
  }

  predicate Stale(x: Row, pendingBefore: Option<Time>) {
    x.status == Pending && pendingBefore.Some? && x.occurredAt <= pendingBefore.value
  }

  /** `slice(0, limit)` of the sorted due rows is the selection. It never holds a dead-lettered,
      processed or processing row, a pending row received after the fallback moment, or a row
      whose retry time is still ahead. */
  lemma FirstDueRowsAreSelected(less: IdOrder, rows: map<string, Row>, ids: seq<string>, limit: nat, now: Time, pendingBefore: Option<Time>)
    requires Keyed(rows) && Distinct(ids) && Elements(ids) == rows.Keys && (forall id <- ids :: id in rows) && StrictTotal(less, rows.Keys)
    ensures IsSelection(less, rows, limit, now, pendingBefore, Slice(DueRows(less, rows, ids, now, pendingBefore), limit))
    ensures forall x <- Slice(DueRows(less, rows, ids, now, pendingBefore), limit) :: FailedAndDue(x, now) || Stale(x, pendingBefore)
  {
    DueRowsAreSorted(less, rows, ids, now, pendingBefore);
    var due := DueRows(less, rows, ids, now, pendingBefore);
    hide DueRows, Before;
    SlicedInOrder(less, due, limit);
    forall id <- rows | IsDue(rows[id], now, pendingBefore) && rows[id] !in Slice(due, limit)
      ensures |Slice(due, limit)| == limit && forall x <- Slice(due, limit) :: Before(less, x, rows[id])
    {
      assert id in Elements(ids);
      assert rows[id] in due;
      LeftOutIsLater(less, due, limit, rows[id]);
    }
  }

  lemma SlicedInOrder(less: IdOrder, due: seq<Row>, limit: nat)
    requires InOrder(less, due)
    ensures InOrder(less, Slice(due, limit)) && forall x <- Slice(due, limit) :: x in due
  {
  }

  lemma LeftOutIsLater(less: IdOrder, due: seq<Row>, limit: nat, row: Row)
    requires InOrder(less, due) && row in due && row !in Slice(due, limit)
    ensures |Slice(due, limit)| == limit && forall x <- Slice(due, limit) :: Before(less, x, row)
  {
    var j :| 0 <= j < |due| && due[j] == row;
    assert limit <= j by {
      assert forall k :: 0 <= k < limit && k < |due| ==> due[k] in Slice(due, limit);
    }
  }

  // ---------------------------------------------------------------- the batch, in the fields of the rows

  /** The moment from which the row counts as due. */
  predicate DueAt(row: Row, time: Time) {
    (row.status == Failed && row.nextRetry == Some(time)) || (row.status == Pending && row.occurredAt == time)
  }

  /** The first row came due no later than the second; on a tie it arrived no later, and on a
      second tie its id comes first. */
  ghost predicate ComesFirst(less: IdOrder, a: Row, b: Row) {
    forall t, u :: DueAt(a, t) && DueAt(b, u) ==>
      t <= u && (t == u ==> a.occurredAt <= b.occurredAt) && (t == u && a.occurredAt == b.occurredAt ==> less(a.id, b.id))
  }

  /** Failed rows whose retry time has come, and pending rows that arrived before the window. */
  ghost predicate CameDue(row: Row, now: Time, pendingBefore: Option<Time>) {
    exists t :: DueAt(row, t) && (if row.status == Failed then t <= now else pendingBefore.Some? && t <= pendingBefore.value)
  }

  /** Stored rows that came due, no two alike, each before the next; and every row that came
      due and was left out comes after all of them, with the limit used up. */
  ghost predicate IsBatch(less: IdOrder, rows: map<string, Row>, limit: nat, now: Time, pendingBefore: Option<Time>, batch: seq<Row>) {
    && |batch| <= limit
    && (forall x <- batch :: x.id in rows && rows[x.id] == x && CameDue(x, now, pendingBefore))
    && (forall i, j :: 0 <= i < j < |batch| ==> batch[i].id != batch[j].id && ComesFirst(less, batch[i], batch[j]))
    && forall id <- rows :: CameDue(rows[id], now, pendingBefore) && rows[id] !in batch ==>
         |batch| == limit && forall x <- batch :: ComesFirst(less, x, rows[id])
  }

  lemma DueInFields(row: Row, now: Time, pendingBefore: Option<Time>)
    ensures IsDue(row, now, pendingBefore) <==> CameDue(row, now, pendingBefore)
  {
    if row.status == Failed && row.nextRetry.Some? { assert DueAt(row, row.nextRetry.value); }
    if row.status == Pending { assert DueAt(row, row.occurredAt); }
  }

  lemma BeforeInFields(less: IdOrder, a: Row, b: Row, now: Time, pendingBefore: Option<Time>)
    requires IsDue(a, now, pendingBefore) && IsDue(b, now, pendingBefore)
    ensures Before(less, a, b) <==> ComesFirst(less, a, b)
  {
    assert DueAt(a, DueTime(a)) && DueAt(b, DueTime(b));
    assert forall t :: (DueAt(a, t) ==> t == DueTime(a)) && (DueAt(b, t) ==> t == DueTime(b));
  }

  /** The selection is exactly the batch described by the fields. */
  lemma SelectionIsBatch(less: IdOrder, rows: map<string, Row>, limit: nat, now: Time, pendingBefore: Option<Time>, batch: seq<Row>)
    requires Keyed(rows) && StrictTotal(less, rows.Keys)
    ensures IsSelection(less, rows, limit, now, pendingBefore, batch) <==> IsBatch(less, rows, limit, now, pendingBefore, batch)
  {
    forall id <- rows ensures IsDue(rows[id], now, pendingBefore) <==> CameDue(rows[id], now, pendingBefore) {
      DueInFields(rows[id], now, pendingBefore);
    }
    forall a <- rows, b <- rows | IsDue(rows[a], now, pendingBefore) && IsDue(rows[b], now, pendingBefore)
      ensures Before(less, rows[a], rows[b]) <==> ComesFirst(less, rows[a], rows[b])
    {
      BeforeInFields(less, rows[a], rows[b], now, pendingBefore);
    }
    forall x ensures IsDue(x, now, pendingBefore) <==> CameDue(x, now, pendingBefore) { DueInFields(x, now, pendingBefore); }
    hide IsDue, CameDue, Before, ComesFirst;
    if IsSelection(less, rows, limit, now, pendingBefore, batch) { SelectionInFields(less, rows, limit, now, pendingBefore, batch); }
    if IsBatch(less, rows, limit, now, pendingBefore, batch) { BatchIsSelection(less, rows, limit, now, pendingBefore, batch); }
  }

  lemma BeforeDiffers(less: IdOrder, a: Row, b: Row)
    requires Before(less, a, b) && !less(a.id, a.id)
    ensures a != b
  {
  }

  lemma SelectionInFields(less: IdOrder, rows: map<string, Row>, limit: nat, now: Time, pendingBefore: Option<Time>, batch: seq<Row>)
    requires Keyed(rows) && StrictTotal(less, rows.Keys) && IsSelection(less, rows, limit, now, pendingBefore, batch)
    requires forall x :: IsDue(x, now, pendingBefore) <==> CameDue(x, now, pendingBefore)
    requires forall a <- rows, b <- rows :: IsDue(rows[a], now, pendingBefore) && IsDue(rows[b], now, pendingBefore) ==>
               (Before(less, rows[a], rows[b]) <==> ComesFirst(less, rows[a], rows[b]))
    ensures IsBatch(less, rows, limit, now, pendingBefore, batch)
  {
    forall i, j | 0 <= i < j < |batch| ensures batch[i].id != batch[j].id && ComesFirst(less, batch[i], batch[j]) {
      assert batch[i] in batch && batch[j] in batch;
      assert Before(less, batch[i], batch[j]);
      assert rows[batch[i].id] == batch[i] && rows[batch[j].id] == batch[j];
      BeforeDiffers(less, batch[i], batch[j]);
    }
    hide IsDue, CameDue, Before, ComesFirst;
    assert forall x <- batch :: rows[x.id] == x;
  }

  lemma BatchIsSelection(less: IdOrder, rows: map<string, Row>, limit: nat, now: Time, pendingBefore: Option<Time>, batch: seq<Row>)
    requires Keyed(rows) && IsBatch(less, rows, limit, now, pendingBefore, batch)
    requires forall x :: IsDue(x, now, pendingBefore) <==> CameDue(x, now, pendingBefore)
    requires forall a <- rows, b <- rows :: IsDue(rows[a], now, pendingBefore) && IsDue(rows[b], now, pendingBefore) ==>
               (Before(less, rows[a], rows[b]) <==> ComesFirst(less, rows[a], rows[b]))
    ensures IsSelection(less, rows, limit, now, pendingBefore, batch)
  {
    hide IsDue, CameDue, Before, ComesFirst;
    forall i, j | 0 <= i < j < |batch| ensures Before(less, batch[i], batch[j]) {
      assert batch[i] in batch && batch[j] in batch;
      assert rows[batch[i].id] == batch[i] && rows[batch[j].id] == batch[j];
    }
    assert forall x <- batch :: rows[x.id] == x;
  }
}
