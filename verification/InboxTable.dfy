/** The inbox table (libs/cap-core/src/testing/in-memory-received-storage.ts) as a value: its
    transitions and the agreement between the rows and the dedupe index. */
module InboxTable {
  import opened Basics

  type Time = int

  datatype Status = Pending | Processing | Processed | Failed | DeadLetter

  datatype Row = Row(
    id: string,
    topic: string,
    group: string,
    dedupeKey: string,
    occurredAt: Time,
    payload: string,
    retryCount: nat,
    status: Status,
    processed: bool,
    lastError: Option<string>,
    processedAt: Option<Time>,
    nextRetry: Option<Time>)

  datatype Inbox = Inbox(rows: map<string, Row>, dedupe: map<string, string>)

  function Identity(row: Row): string {
    JoinKey(row.group, row.dedupeKey)
  }

  /** The index and the table agree: every row is indexed under its identity, and every entry
      leads to a row with that identity. */
  ghost predicate Agrees(s: Inbox) {
    && (forall id <- s.rows :: s.rows[id].id == id && id != "")
    && (forall id <- s.rows :: Identity(s.rows[id]) in s.dedupe && s.dedupe[Identity(s.rows[id])] == id)
    && (forall key <- s.dedupe :: s.dedupe[key] in s.rows && Identity(s.rows[s.dedupe[key]]) == key)
  }

  // ---------------------------------------------------------------- transitions

  datatype Saved = Saved(inserted: bool, id: string)

  function Lookup(s: Inbox, row: Row): string {
    if Identity(row) in s.dedupe then s.dedupe[Identity(row)] else ""
  }

  /** An empty string in the index counts as no entry. */
  function TrySave(s: Inbox, row: Row): (Inbox, Saved) {
    if Lookup(s, row) != "" then (s, Saved(false, Lookup(s, row)))
    else (Inbox(s.rows[row.id := row], s.dedupe[Identity(row) := row.id]), Saved(true, row.id))
  }

  function AsProcessed(row: Row, at: Time): Row {
    row.(status := Processed, processed := true, processedAt := Some(at), nextRetry := None)
  }

  /** A failure, with the count it leaves. */
  function AsCounted(row: Row, count: nat, error: string, maxRetries: int, nextRetryAt: Time): Row {
    var dead := count >= maxRetries;
    row.(retryCount := count,
         status := if dead then DeadLetter else Failed,
         nextRetry := if dead then None else Some(nextRetryAt),
         lastError := Some(error))
  }

  function AsFailed(row: Row, error: string, maxRetries: int, nextRetryAt: Time): Row {
    AsCounted(row, row.retryCount + 1, error, maxRetries, nextRetryAt)
  }

  function AsRequeued(row: Row, now: Time): Row {
    row.(status := Failed, retryCount := 0, lastError := None, nextRetry := Some(now),
         processed := false, processedAt := None)
  }

  predicate CanRequeue(row: Row) {
    row.status == Failed || row.status == DeadLetter
  }

  function Replace(s: Inbox, id: string, row: Row): Inbox {
    s.(rows := s.rows[id := row])
  }

  function MarkHandled(s: Inbox, id: string, at: Time): Inbox {
    if id in s.rows then Replace(s, id, AsProcessed(s.rows[id], at)) else s
  }

  function MarkFailed(s: Inbox, id: string, error: string, maxRetries: int, nextRetryAt: Time): Inbox {
    if id in s.rows then Replace(s, id, AsFailed(s.rows[id], error, maxRetries, nextRetryAt)) else s
  }

  /** Only failed and dead-lettered rows go back to the retry queue. */
  function Requeue(s: Inbox, id: string, now: Time): Inbox {
    if id in s.rows && CanRequeue(s.rows[id]) then Replace(s, id, AsRequeued(s.rows[id], now)) else s
  }

  // ---------------------------------------------------------------- what they keep and promise

  /** A message is inserted exactly when the table has no row of its identity, and saving
      keeps the index in agreement. */
  lemma TrySaveDeduplicates(s: Inbox, row: Row)
    requires Agrees(s) && row.id != "" && row.id !in s.rows
    ensures Agrees(TrySave(s, row).0)
    ensures TrySave(s, row).1.inserted <==> forall id <- s.rows :: Identity(s.rows[id]) != Identity(row)
    ensures TrySave(s, row).1.id in TrySave(s, row).0.rows
    ensures Identity(TrySave(s, row).0.rows[TrySave(s, row).1.id]) == Identity(row)
  {
  }

  function Groups(s: Inbox): set<string> {
    set id | id in s.rows :: s.rows[id].group
  }

  ghost predicate HasPair(s: Inbox, group: string, key: string) {
    exists id :: id in s.rows && s.rows[id].group == group && s.rows[id].dedupeKey == key
  }

  /** The table holds a row of another pair that reads like this one. */
  ghost predicate HasShifted(s: Inbox, row: Row) {
    exists id :: id in s.rows && ReadsLike(s.rows[id], row)
  }

  ghost predicate ReadsLike(a: Row, b: Row) {
    Shifted(a.group, a.dedupeKey, b.group, b.dedupeKey) || Shifted(b.group, b.dedupeKey, a.group, a.dedupeKey)
  }

  /** A message is dropped as a duplicate exactly when its pair of group and key is stored, or
      another pair that reads like it: the second case loses a message. */
  lemma DroppedIff(s: Inbox, row: Row)
    requires Agrees(s) && row.id != "" && row.id !in s.rows
    ensures !TrySave(s, row).1.inserted <==> HasPair(s, row.group, row.dedupeKey) || HasShifted(s, row)
  {
    TrySaveDeduplicates(s, row);
    forall id <- s.rows
      ensures Identity(s.rows[id]) == Identity(row) <==>
              (s.rows[id].group == row.group && s.rows[id].dedupeKey == row.dedupeKey) || ReadsLike(s.rows[id], row)
    {
      JoinKeyCollidesIff(s.rows[id].group, s.rows[id].dedupeKey, row.group, row.dedupeKey);
    }
  }

  /** As long as no group in use swallows another, a message is inserted exactly when its pair
      of group and key is new. */
  lemma InsertedIffNewPair(s: Inbox, row: Row)
    requires Agrees(s) && row.id != "" && row.id !in s.rows
    requires NoneSwallows(Groups(s) + {row.group})
    ensures TrySave(s, row).1.inserted <==> !HasPair(s, row.group, row.dedupeKey)
  {
    DroppedIff(s, row);
    forall id <- s.rows ensures !ReadsLike(s.rows[id], row) {
      assert s.rows[id].group in Groups(s) + {row.group} && row.group in Groups(s) + {row.group};
    }
  }

  /** Where one group does swallow another, some message of one is lost to the other. */
  lemma SwallowedGroupLosesMessage(s: Inbox, stored: Row, row: Row)
    requires Agrees(s) && stored.id in s.rows && s.rows[stored.id] == stored && row.id != "" && row.id !in s.rows
    requires Swallows(stored.group, row.group) && stored.dedupeKey == row.group[|stored.group| + 1..] + "|" + row.dedupeKey
    ensures !TrySave(s, row).1.inserted && stored.group != row.group
  {
    DroppedIff(s, row);
    assert ReadsLike(s.rows[stored.id], row);
  }

  ghost predicate SameIdentity(a: Row, b: Row) {
    a.id == b.id && a.group == b.group && a.dedupeKey == b.dedupeKey
  }

  lemma ReplaceKeepsAgreement(s: Inbox, id: string, row: Row)
    requires Agrees(s) && id in s.rows && SameIdentity(s.rows[id], row)
    ensures Agrees(Replace(s, id, row))
  {
  }

  lemma OnlyRowChanged(s: Inbox, s': Inbox, id: string, row: Row)
    requires Agrees(s) && id in s.rows && SameIdentity(s.rows[id], row)
    requires s'.rows.Keys == s.rows.Keys && s'.dedupe == s.dedupe && s'.rows[id] == row
    requires forall other <- s.rows :: other != id ==> s'.rows[other] == s.rows[other]
    ensures s' == Replace(s, id, row) && Agrees(s')
  {
    assert s'.rows == s.rows[id := row];
    ReplaceKeepsAgreement(s, id, row);
  }

  // ---------------------------------------------------------------- the transitions, in the fields of the rows

  /** No other row differs, and this one keeps what identifies it and what it carries. */
  ghost predicate OnlyDiffersAt(s: Inbox, s': Inbox, id: string) {
    && s'.dedupe == s.dedupe && s'.rows.Keys == s.rows.Keys
    && (forall other <- s.rows :: other != id ==> s'.rows[other] == s.rows[other])
    && (id in s.rows ==> SameMessage(s.rows[id], s'.rows[id]))
  }

  predicate SameMessage(a: Row, b: Row) {
    && b.id == a.id && b.topic == a.topic && b.group == a.group && b.dedupeKey == a.dedupeKey
    && b.occurredAt == a.occurredAt && b.payload == a.payload
  }

  /** A mark makes a stored row processed at the given time and no longer due; its retry count
      and last error stay. */
  lemma MarkLaw(s: Inbox, id: string, at: Time)
    ensures var s' := MarkHandled(s, id, at);
      && OnlyDiffersAt(s, s', id)
      && (id in s.rows ==>
            var row, row' := s.rows[id], s'.rows[id];
            && row'.status == Processed && row'.processed && row'.processedAt == Some(at) && row'.nextRetry == None
            && row'.retryCount == row.retryCount && row'.lastError == row.lastError)
  {
  }

  /** A failure is counted once and recorded; below the maximum the row is failed and due at the
      given time, at the maximum it is dead-lettered and not due again. */
  lemma FailureLaw(s: Inbox, id: string, error: string, maxRetries: int, nextRetryAt: Time)
    ensures var s' := MarkFailed(s, id, error, maxRetries, nextRetryAt);
      && OnlyDiffersAt(s, s', id)
      && (id in s.rows ==>
            var row, row' := s.rows[id], s'.rows[id];
            && row'.retryCount == row.retryCount + 1 && row'.lastError == Some(error)
            && row'.processed == row.processed && row'.processedAt == row.processedAt
            && (row.retryCount + 1 < maxRetries ==> row'.status == Failed && row'.nextRetry == Some(nextRetryAt))
            && (row.retryCount + 1 >= maxRetries ==> row'.status == DeadLetter && row'.nextRetry == None))
  {
  }

  /** A requeue takes a failed or dead-lettered row back to the start: due from now on, with no
      failures counted; rows of any other status stay as they are. */
  lemma RequeueLaw(s: Inbox, id: string, now: Time)
    ensures var s' := Requeue(s, id, now);
      && OnlyDiffersAt(s, s', id)
      && (id in s.rows ==>
            var row, row' := s.rows[id], s'.rows[id];
            if row.status == Failed || row.status == DeadLetter then
              && row'.status == Failed && row'.retryCount == 0 && row'.lastError == None && row'.nextRetry == Some(now)
              && !row'.processed && row'.processedAt == None
            else row' == row)
  {
  }

  /** A record whose group and key read like no stored row is stored as it is, under its id;
      otherwise nothing changes and the answer names the row that reads like it. */
  lemma SaveLaw(s: Inbox, row: Row)
    requires Agrees(s) && row.id != "" && row.id !in s.rows
    ensures var (s', saved) := TrySave(s, row);
      if forall id <- s.rows :: s.rows[id].group + "|" + s.rows[id].dedupeKey != row.group + "|" + row.dedupeKey
      then saved == Saved(true, row.id) && s'.rows == s.rows[row.id := row]
      else s' == s && !saved.inserted && saved.id in s.rows
           && s.rows[saved.id].group + "|" + s.rows[saved.id].dedupeKey == row.group + "|" + row.dedupeKey
  {
    TrySaveDeduplicates(s, row);
    forall id <- s.rows ensures Identity(s.rows[id]) == s.rows[id].group + "|" + s.rows[id].dedupeKey { }
    assert Identity(row) == row.group + "|" + row.dedupeKey;
  }
}
