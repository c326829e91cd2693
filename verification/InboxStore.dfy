/** The inbox store (libs/cap-core/src/testing/in-memory-received-storage.ts): the transitions
    performed in place on event objects that the store shares with its callers. */
module InboxStore {
  import opened Basics
  import opened InboxTable
  import opened RetrySelection

  /** A received event object; the store keeps the object it was given. */
  class ReceivedEvent {
    const id: string
    const topic: string
    const group: string
    const dedupeKey: string
    const occurredAt: Time
    const payload: string
    var retryCount: nat
    var status: Status
    var processed: bool
    var lastError: Option<string>
    var processedAt: Option<Time>
    var nextRetry: Option<Time>

    constructor (row: Row)
      ensures Snapshot() == row
    {
      id, topic, group, dedupeKey := row.id, row.topic, row.group, row.dedupeKey;
      occurredAt, payload := row.occurredAt, row.payload;
      retryCount, status, processed := row.retryCount, row.status, row.processed;
      lastError, processedAt, nextRetry := row.lastError, row.processedAt, row.nextRetry;
    }

    method SetProcessed(at: Time)
      modifies this
      ensures Snapshot() == AsProcessed(old(Snapshot()), at)
    {
      status := Processed;
      processed := true;
      processedAt := Some(at);
      nextRetry := None;
    }

    method SetFailed(error: string, maxRetries: int, nextRetryAt: Time)
      modifies this
      ensures Snapshot() == AsFailed(old(Snapshot()), error, maxRetries, nextRetryAt)
    {
      retryCount := retryCount + 1;
      status := if retryCount >= maxRetries then DeadLetter else Failed;
      nextRetry := if status == DeadLetter then None else Some(nextRetryAt);
      lastError := Some(error);
    }

    method SetRequeued(now: Time)
      modifies this
      ensures Snapshot() == AsRequeued(old(Snapshot()), now)
    {
      status := Failed;
      retryCount := 0;
      lastError := None;
      nextRetry := Some(now);
      processed := false;
      processedAt := None;
    }

    function Snapshot(): Row
      reads this
    {
      Row(id, topic, group, dedupeKey, occurredAt, payload, retryCount, status, processed,
          lastError, processedAt, nextRetry)
    }
  }

  function Snapshots(events: seq<ReceivedEvent>): (r: seq<Row>)
    reads set e | e in events
    ensures |r| == |events|
  {
    seq(|events|, i requires 0 <= i < |events| reads set e | e in events => events[i].Snapshot())
  }

  /** Filter, sort and slice. */
  method SelectDue(less: IdOrder, rows: map<string, Row>, limit: nat, now: Time, pendingBefore: Option<Time>)
    returns (due: seq<Row>)
    requires Keyed(rows) && StrictTotal(less, rows.Keys)
    ensures IsSelection(less, rows, limit, now, pendingBefore, due)
  {
    hide IsSelection;
    var ids := Ascending(rows.Keys);
    IncreasingDistinct(ids);
    assert forall id <- ids :: id in Elements(ids);
    FirstDueRowsAreSelected(less, rows, ids, limit, now, pendingBefore);
    due := Slice(DueRows(less, rows, ids, now, pendingBefore), limit);
  }

  ghost predicate Separate(events: seq<ReceivedEvent>) {
    forall i, j :: 0 <= i < j < |events| ==> events[i] != events[j]
  }

  method CopyAll(rows: seq<Row>) returns (copies: seq<ReceivedEvent>)
    ensures Snapshots(copies) == rows && (forall e <- copies :: fresh(e)) && Separate(copies)
  {
    copies := [];
    for i := 0 to |rows|
      invariant |copies| == i && Separate(copies)
      invariant forall k :: 0 <= k < i ==> fresh(copies[k]) && copies[k].Snapshot() == rows[k]
    {
      var copy := new ReceivedEvent(rows[i]);
      copies := copies + [copy];
    }
  }

  class InMemoryReceivedStorage {
    var store: map<string, ReceivedEvent>
    var dedupe: map<string, string>

    ghost function Objects(): set<ReceivedEvent>
      reads this
    {
      set id | id in store :: store[id]
    }

    function Rows(): map<string, Row>
      reads this, Objects()
    {
      map id | id in store :: store[id].Snapshot()
    }

    ghost function Contents(): Inbox
      reads this, Objects()
    {
      Inbox(Rows(), dedupe)
    }

    ghost predicate Valid()
      reads this, Objects()
    {
      Agrees(Contents())
    }

    constructor ()
      ensures Valid() && Contents() == Inbox(map[], map[]) && store == map[]
    {
      store, dedupe := map[], map[];
    }

    lemma SnapshotIdentity(event: ReceivedEvent)
      ensures Identity(event.Snapshot()) == JoinKey(event.group, event.dedupeKey)
    {
    }

    /** Keeps a reference to `event` itself when it is new. */
    method TrySaveReceived(event: ReceivedEvent) returns (saved: Saved, stored: ReceivedEvent)
      requires Valid() && event.id != "" && event.id !in store
      modifies this
      ensures Valid() && (Contents(), saved) == TrySave(old(Contents()), old(event.Snapshot()))
      ensures saved.id in store && stored == store[saved.id]
      ensures saved.inserted ==> stored == event && store == old(store)[event.id := event]
      ensures !saved.inserted ==> store == old(store)
    {
      hide Agrees, Identity, JoinKey;
      TrySaveDeduplicates(Contents(), event.Snapshot());
      SnapshotIdentity(event);
      var identity := JoinKey(event.group, event.dedupeKey);
      if identity in dedupe && dedupe[identity] != "" {
        var existingId := dedupe[identity];
        return Saved(false, existingId), store[existingId];
      }
      store := store[event.id := event];
      dedupe := dedupe[identity := event.id];
      assert Rows() == old(Rows())[event.id := event.Snapshot()];
      return Saved(true, event.id), event;
    }

    method MarkProcessed(id: string, at: Time)
      requires Valid()
      modifies Objects()
      ensures Valid() && store == old(store)
      ensures Contents() == MarkHandled(old(Contents()), id, at)
    {
      if id in store {
        SeparateRows(id);
        ghost var s, row := Contents(), store[id].Snapshot();
        var event := store[id];
        event.SetProcessed(at);
        OnlyRowChanged(s, Contents(), id, AsProcessed(row, at));
      }
    }

    method MarkReceivedFailed(id: string, error: string, maxRetries: int, nextRetryAt: Time)
      requires Valid()
      modifies Objects()
      ensures Valid() && store == old(store)
      ensures Contents() == MarkFailed(old(Contents()), id, error, maxRetries, nextRetryAt)
    {
      if id in store {
        SeparateRows(id);
        ghost var s, row := Contents(), store[id].Snapshot();
        var event := store[id];
        event.SetFailed(error, maxRetries, nextRetryAt);
        OnlyRowChanged(s, Contents(), id, AsFailed(row, error, maxRetries, nextRetryAt));
      }
    }

    method RequeueReceived(id: string, now: Time) returns (previous: Option<Status>, requeued: bool)
      requires Valid()
      modifies Objects()
      ensures Valid() && store == old(store)
      ensures previous == if id in old(Rows()) then Some(old(Rows())[id].status) else None
      ensures requeued <==> id in old(Rows()) && CanRequeue(old(Rows())[id])
      ensures Contents() == Requeue(old(Contents()), id, now)
    {
      if id !in store { return None, false; }
      var event := store[id];
      previous := Some(event.status);
      if event.status != Failed && event.status != DeadLetter { return previous, false; }
      SeparateRows(id);
      ghost var s, row := Contents(), event.Snapshot();
      event.SetRequeued(now);
      requeued := true;
      OnlyRowChanged(s, Contents(), id, AsRequeued(row, now));
    }

    /** A stored object is stored under its own id. */
    lemma StoredUnderOwnId(event: ReceivedEvent)
      requires Valid() && event in Objects()
      ensures event.id in store && store[event.id] == event
    {
      var id :| id in store && store[id] == event;
      assert Rows()[id].id == id;
    }

    /** Rows of different ids are different objects. */
    lemma SeparateRows(id: string)
      requires Valid() && id in store
      ensures forall other <- store :: other != id ==> store[other] != store[id]
    {
      forall other <- store | other != id ensures store[other] != store[id] {
        assert Rows()[other].id == other && Rows()[id].id == id;
      }
    }

    /** Copies of the `limit` least due rows; `less` is the collation of ids. */
    method GetRetryDue(less: IdOrder, limit: nat, now: Time, pendingBefore: Option<Time>) returns (batch: seq<ReceivedEvent>)
      requires Valid() && StrictTotal(less, store.Keys)
      ensures (forall e <- batch :: fresh(e)) && Separate(batch)
      ensures IsSelection(less, Rows(), limit, now, pendingBefore, Snapshots(batch))
      ensures IsBatch(less, Rows(), limit, now, pendingBefore, Snapshots(batch))
    {
      hide IsSelection, IsBatch, StrictTotal;
      var rows := Rows();
      assert Keyed(rows) && rows.Keys == store.Keys;
      var due := SelectDue(less, rows, limit, now, pendingBefore);
      SelectionIsBatch(less, rows, limit, now, pendingBefore, due);
      batch := CopyAll(due);
      assert Rows() == rows;
    }

    /** A copy, so that callers cannot change the stored row through it. */
    method FindReceivedById(id: string) returns (r: Option<ReceivedEvent>)
      ensures r.Some? <==> id in store
      ensures r.Some? ==> fresh(r.value) && r.value.Snapshot() == Rows()[id]
    {
      if id !in store { return None; }
      var copy := new ReceivedEvent(store[id].Snapshot());
      r := Some(copy);
    }
  }
}
