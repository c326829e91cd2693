/** The outbox transitions as the SQL storage adapters write them: Knex, Prisma, TypeORM and
    MikroORM, on databases that evaluate a SET list at once and on MySQL, which evaluates it
    from left to right.  Every statement refines the in-memory store's transition. */
module SqlAdapters {
  import opened Basics
  import opened OutboxStore
  import opened Sql

  datatype Adapter = Knex | Prisma | TypeOrm | MikroOrm

  // ----- what a table row stands for -----

  function StatusText(s: OutboxStore.Status): string {
    match s
    case Pending => "pending"
    case Processing => "processing"
    case Published => "published"
    case Failed => "failed"
    case DeadLetter => "dead_letter"
  }

  function StatusOf(s: string): OutboxStore.Status {
    if s == "pending" then Pending
    else if s == "processing" then Processing
    else if s == "published" then Published
    else if s == "failed" then Failed
    else DeadLetter
  }

  predicate Nullable(v: Value, text: bool) {
    v.Null? || (if text then v.Text? else v.Number?)
  }

  predicate WellTyped(r: SqlRow) {
    && r.id.Text? && r.topic.Text? && r.payload.Text?
    && r.retryCount.Number? && r.retryCount.n >= 0
    && r.status.Text? && StatusText(StatusOf(r.status.s)) == r.status.s
    && Nullable(r.nextRetryAt, false) && Nullable(r.lastError, true)
    && Nullable(r.lockedBy, true) && Nullable(r.lockedUntil, false) && Nullable(r.publishedAt, false)
  }

  function TimeOf(v: Value): Option<Time> {
    if v.Number? then Some(v.n) else None
  }

  function TextOf(v: Value): Option<string> {
    if v.Text? then Some(v.s) else None
  }

  function RowOf(r: SqlRow): Row
    requires WellTyped(r)
  {
    Row(r.id.s, r.topic.s, r.payload.s, r.retryCount.n, StatusOf(r.status.s), TimeOf(r.nextRetryAt),
        TextOf(r.lastError), TextOf(r.lockedBy), TimeOf(r.lockedUntil), TimeOf(r.publishedAt))
  }

  ghost predicate WellTypedTable(t: SqlTable, order: seq<string>) {
    && (forall id :: id in t ==> WellTyped(t[id]) && t[id].id == Text(id))
    && (forall id :: id in order <==> id in t)
    && Distinct(order)
  }

  ghost function TableOf(t: SqlTable, order: seq<string>): Table
    requires WellTypedTable(t, order)
  {
    Table(map id | id in t :: RowOf(t[id]), order)
  }

  // ----- the conditions all four adapters write -----

  function Is(c: Column, s: string): Cond {
    Compare(Col(c), Eq, Lit(Text(s)))
  }

  function ClaimableWhere(now: Time): Cond {
    Or(Or(Is(Status, "pending"),
          And(Is(Status, "failed"), Or(IsNull(Col(NextRetryAt)), Compare(Col(NextRetryAt), Le, Lit(Number(now)))))),
       And(Is(Status, "processing"), Compare(Col(LockedUntil), Le, Lit(Number(now)))))
  }

  function OwnershipWhere(id: string, expected: Option<string>): Cond {
    match expected
    case None => Is(Id, id)
    case Some(owner) => And(And(Is(Id, id), Is(Status, "processing")), Is(LockedBy, owner))
  }

  function RenewableWhere(id: string, owner: string, now: Time): Cond {
    And(OwnershipWhere(id, Some(owner)), Compare(Col(LockedUntil), Gt, Lit(Number(now))))
  }

  function ExpiredWhere(now: Time): Cond {
    And(Is(Status, "processing"), Compare(Col(LockedUntil), Le, Lit(Number(now))))
  }

  function RequeueableWhere(id: string): Cond {
    And(Is(Id, id), Or(Is(Status, "failed"), Is(Status, "dead_letter")))
  }

  /** Under three-valued logic the conditions select exactly the rows that the in-memory
      predicates accept: a NULL deadline never counts as expired or as alive, a NULL owner
      never matches, and a NULL retry time counts as due. */
  lemma ConditionsMeanPredicates(r: SqlRow, id: string, owner: string, now: Time)
    requires WellTyped(r)
    ensures Selects(ClaimableWhere(now), r) <==> IsClaimable(RowOf(r), now)
    ensures Selects(OwnershipWhere(id, None), r) <==> RowOf(r).id == id
    ensures Selects(OwnershipWhere(id, Some(owner)), r) <==> RowOf(r).id == id && OwnsClaim(RowOf(r), Some(owner))
    ensures Selects(RenewableWhere(id, owner, now), r) <==> RowOf(r).id == id && CanRenew(RowOf(r), owner, now)
    ensures Selects(ExpiredWhere(now), r) <==> IsExpired(RowOf(r), now)
    ensures Selects(RequeueableWhere(id), r) <==> RowOf(r).id == id && RowOf(r).status in {Failed, DeadLetter}
  {
    var due := Compare(Col(NextRetryAt), Le, Lit(Number(now)));
    var retry := Or(IsNull(Col(NextRetryAt)), due);
    SelectsBoth(IsNull(Col(NextRetryAt)), due, r);
    SelectsBoth(Is(Status, "failed"), retry, r);
    SelectsBoth(Is(Status, "pending"), And(Is(Status, "failed"), retry), r);
    SelectsBoth(Or(Is(Status, "pending"), And(Is(Status, "failed"), retry)), ExpiredWhere(now), r);
    SelectsBoth(Is(Status, "processing"), Compare(Col(LockedUntil), Le, Lit(Number(now))), r);
    SelectsBoth(Is(Id, id), Is(Status, "processing"), r);
    SelectsBoth(And(Is(Id, id), Is(Status, "processing")), Is(LockedBy, owner), r);
    SelectsBoth(OwnershipWhere(id, Some(owner)), Compare(Col(LockedUntil), Gt, Lit(Number(now))), r);
    SelectsBoth(Is(Status, "failed"), Is(Status, "dead_letter"), r);
    SelectsBoth(Is(Id, id), Or(Is(Status, "failed"), Is(Status, "dead_letter")), r);
    StatusTexts(r);
  }

  lemma StatusTexts(r: SqlRow)
    requires WellTyped(r)
    ensures forall s: OutboxStore.Status :: Selects(Is(Status, StatusText(s)), r) <==> RowOf(r).status == s
  {
  }

  // ----- the statements -----

  function PublishedSet(at: Time, updatedAt: Time): Assignments {
    [(Status, Lit(Text("published"))), (PublishedAt, Lit(Number(at))), (LockedBy, Lit(Null)),
     (LockedUntil, Lit(Null)), (NextRetryAt, Lit(Null)), (UpdatedAt, Lit(Number(updatedAt)))]
  }

  /** The SET list assigns `retry_count` first, so MySQL's later expressions already see the
      new count and compare it directly; MikroORM keeps the old retry time if none is given. */
  function FailedSet(adapter: Adapter, mysql: bool, error: string, maxRetries: int, nextRetryAt: Time,
                     updatedAt: Time): Assignments
  {
    FailedSetWith(adapter, if mysql then Col(RetryCount) else PlusOne(Col(RetryCount)), error, maxRetries,
                  nextRetryAt, updatedAt)
  }

  function FailedSetWith(adapter: Adapter, attempts: Expr, error: string, maxRetries: int, nextRetryAt: Time,
                         updatedAt: Time): Assignments
  {
    var limit := Lit(Number(maxRetries));
    var retryAt := Lit(Number(nextRetryAt));
    [(RetryCount, PlusOne(Col(RetryCount))),
     (Status, CaseWhen(attempts, Ge, limit, Lit(Text("dead_letter")), Lit(Text("failed")))),
     (NextRetryAt, CaseWhen(attempts, Ge, limit, Lit(Null),
                            if adapter == MikroOrm then Coalesce(retryAt, Col(NextRetryAt)) else retryAt)),
     (LastError, Lit(Text(error))), (LockedBy, Lit(Null)), (LockedUntil, Lit(Null)),
     (UpdatedAt, Lit(Number(updatedAt)))]
  }

  function RenewedSet(until: Time, now: Time): Assignments {
    [(LockedUntil, Lit(Number(until))), (UpdatedAt, Lit(Number(now)))]
  }

  function ReleasedSet(now: Time): Assignments {
    [(Status, Lit(Text("failed"))), (LockedBy, Lit(Null)), (LockedUntil, Lit(Null)), (UpdatedAt, Lit(Number(now)))]
  }

  function RequeuedSet(now: Time): Assignments {
    [(Status, Lit(Text("failed"))), (RetryCount, Lit(Number(0))), (LastError, Lit(Null)),
     (NextRetryAt, Lit(Number(now))), (LockedBy, Lit(Null)), (LockedUntil, Lit(Null)),
     (PublishedAt, Lit(Null)), (UpdatedAt, Lit(Number(now)))]
  }

  function LockedSet(owner: string, until: Time, now: Time): Assignments {
    [(Status, Lit(Text("processing"))), (LockedBy, Lit(Text(owner))), (LockedUntil, Lit(Number(until))),
     (UpdatedAt, Lit(Number(now)))]
  }

  // ----- one row -----

  lemma Threshold(attempts: Expr, n: int, limit: int, thn: Expr, els: Expr, r: SqlRow)
    requires Eval(attempts, r) == Number(n)
    ensures Eval(CaseWhen(attempts, Ge, Lit(Number(limit)), thn, els), r) == Eval(if n >= limit then thn else els, r)
  {
  }

  lemma FailedRow(adapter: Adapter, mysql: bool, r: SqlRow, error: string, maxRetries: int, retryAt: Time, now: Time)
    requires WellTyped(r)
    ensures var r' := Assign(mysql, r, FailedSet(adapter, mysql, error, maxRetries, retryAt, now));
      WellTyped(r') && r'.id == r.id && RowOf(r') == AsFailed(RowOf(r), error, maxRetries, retryAt)
  {
    var set_ := FailedSet(adapter, mysql, error, maxRetries, retryAt, now);
    AssignFour(mysql, r, r, set_);
    var attempts := if mysql then Col(RetryCount) else PlusOne(Col(RetryCount));
    var r1 := AssignOne(mysql, r, r, set_[0]);
    assert Eval(PlusOne(Col(RetryCount)), r) == Number(r.retryCount.n + 1);
    Threshold(attempts, r.retryCount.n + 1, maxRetries, Lit(Text("dead_letter")), Lit(Text("failed")),
              if mysql then r1 else r);
    var r2 := AssignOne(mysql, r, r1, set_[1]);
    Threshold(attempts, r.retryCount.n + 1, maxRetries, Lit(Null), set_[2].1.els, if mysql then r2 else r);
    assert Eval(set_[2].1.els, if mysql then r2 else r) == Number(retryAt);
    var r3 := AssignOne(mysql, r, r2, set_[2]);
    var r4 := AssignOne(mysql, r, r3, set_[3]);
    var r5 := AssignOne(mysql, r, r4, set_[4]);
    var r6 := AssignOne(mysql, r, r5, set_[5]);
    assert AssignAll(mysql, r, r4, set_[4..]) == AssignAll(mysql, r, r5, set_[4..][1..]);
    assert set_[4..][1..] == set_[5..] && set_[5..][1..] == set_[6..] && set_[6..][1..] == [];
    assert AssignAll(mysql, r, r6, set_[6..]) == AssignOne(mysql, r, r6, set_[6]);
    var dead := r.retryCount.n + 1 >= maxRetries;
    assert r1.retryCount == Number(r.retryCount.n + 1);
    assert r2.status == Text(if dead then "dead_letter" else "failed");
    assert r3.nextRetryAt == if dead then Null else Number(retryAt);
  }

  /** The dialect switch matters: with the other databases' threshold, MySQL's left-to-right
      evaluation would store the wrong status exactly when one more retry was still allowed. */
  lemma WrongThresholdOnMySql(adapter: Adapter, r: SqlRow, error: string, maxRetries: int, retryAt: Time, now: Time)
    requires WellTyped(r)
    ensures
      (Eval(FailedSetWith(adapter, PlusOne(Col(RetryCount)), error, maxRetries, retryAt, now)[1].1,
            AssignOne(true, r, r, (RetryCount, PlusOne(Col(RetryCount)))))
       != Text(StatusText(AsFailed(RowOf(r), error, maxRetries, retryAt).status)))
      <==> r.retryCount.n + 2 == maxRetries
  {
    var r1 := AssignOne(true, r, r, (RetryCount, PlusOne(Col(RetryCount))));
    assert Eval(PlusOne(Col(RetryCount)), r) == Number(r.retryCount.n + 1);
    assert Eval(PlusOne(Col(RetryCount)), r1) == Number(r.retryCount.n + 2);
    Threshold(PlusOne(Col(RetryCount)), r.retryCount.n + 2, maxRetries, Lit(Text("dead_letter")), Lit(Text("failed")), r1);
  }

  lemma PublishedRow(mysql: bool, r: SqlRow, at: Time, now: Time)
    requires WellTyped(r)
    ensures var r' := Assign(mysql, r, PublishedSet(at, now));
      WellTyped(r') && r'.id == r.id && RowOf(r') == AsPublished(RowOf(r), at)
  {
    var set_ := PublishedSet(at, now);
    AssignFour(mysql, r, r, set_);
    var r3 := AssignOne(mysql, r, AssignOne(mysql, r, AssignOne(mysql, r, r, set_[0]), set_[1]), set_[2]);
    var r4 := AssignOne(mysql, r, r3, set_[3]);
    assert set_[4..][1..] == set_[5..] && set_[5..][1..] == [];
    var r5 := AssignOne(mysql, r, r4, set_[4]);
    assert AssignAll(mysql, r, r5, set_[5..]) == AssignOne(mysql, r, r5, set_[5]);
  }

  lemma RequeuedRow(mysql: bool, r: SqlRow, now: Time)
    requires WellTyped(r)
    ensures var r' := Assign(mysql, r, RequeuedSet(now));
      WellTyped(r') && r'.id == r.id && RowOf(r') == AsRequeued(RowOf(r), now)
  {
    var set_ := RequeuedSet(now);
    AssignFour(mysql, r, r, set_);
    var r3 := AssignOne(mysql, r, AssignOne(mysql, r, AssignOne(mysql, r, r, set_[0]), set_[1]), set_[2]);
    AssignFour(mysql, r, AssignOne(mysql, r, r3, set_[3]), set_[4..]);
    assert set_[4..][4..] == [];
  }

  lemma LeaseRow(mysql: bool, r: SqlRow, owner: string, until: Time, now: Time)
    requires WellTyped(r)
    ensures var r' := Assign(mysql, r, RenewedSet(until, now));
      WellTyped(r') && r'.id == r.id && RowOf(r') == RowOf(r).(lockedUntil := Some(until))
    ensures var r' := Assign(mysql, r, ReleasedSet(now));
      WellTyped(r') && r'.id == r.id && RowOf(r') == Freed(RowOf(r))
    ensures var r' := Assign(mysql, r, LockedSet(owner, until, now));
      WellTyped(r') && r'.id == r.id && RowOf(r') == Locked(RowOf(r), owner, until)
  {
    var renewed := RenewedSet(until, now);
    assert renewed[1..][1..] == [];
    assert AssignAll(mysql, r, AssignOne(mysql, r, r, renewed[0]), renewed[1..])
        == AssignOne(mysql, r, AssignOne(mysql, r, r, renewed[0]), renewed[1]);
    AssignFour(mysql, r, r, ReleasedSet(now));
    AssignFour(mysql, r, r, LockedSet(owner, until, now));
  }

  // ----- whole tables -----

  /** A statement that selects at most row `id` and turns it into `row`. */
  lemma UpdatesOneRow(mysql: bool, t: SqlTable, order: seq<string>, s: Statement, id: string, row: Row)
    requires WellTypedTable(t, order)
    requires forall i :: i in t && Selects(s.where_, t[i]) ==> i == id
    requires id in t && Selects(s.where_, t[id]) ==>
      var r := Assign(mysql, t[id], s.set_); WellTyped(r) && r.id == t[id].id && RowOf(r) == row
    ensures var t' := Execute(mysql, t, s);
      && WellTypedTable(t', order)
      && (Affects(t, s) <==> id in t && Selects(s.where_, t[id]))
      && TableOf(t', order) ==
         if Affects(t, s) then TableOf(t, order).(rows := TableOf(t, order).rows[id := row]) else TableOf(t, order)
  {
    var t' := Execute(mysql, t, s);
    if id in t && Selects(s.where_, t[id]) {
      assert t' == t[id := Assign(mysql, t[id], s.set_)];
      OneRowFollows(t, t', order, id);
    } else {
      assert t' == t;
    }
  }

  lemma OneRowFollows(t: SqlTable, t': SqlTable, order: seq<string>, id: string)
    requires WellTypedTable(t, order) && id in t && t'.Keys == t.Keys
    requires forall i :: i in t && i != id ==> t'[i] == t[i]
    requires WellTyped(t'[id]) && t'[id].id == t[id].id
    ensures WellTypedTable(t', order)
    ensures TableOf(t', order) == TableOf(t, order).(rows := TableOf(t, order).rows[id := RowOf(t'[id])])
  {
    AllRowsFollow(t, t', order, TableOf(t, order).rows[id := RowOf(t'[id])]);
  }

  lemma AllRowsFollow(t: SqlTable, t': SqlTable, order: seq<string>, rows: map<string, Row>)
    requires WellTypedTable(t, order) && t'.Keys == t.Keys == rows.Keys
    requires forall i :: i in t ==> WellTyped(t'[i]) && t'[i].id == t[i].id && RowOf(t'[i]) == rows[i]
    ensures WellTypedTable(t', order) && TableOf(t', order) == Table(rows, order)
  {
    assert TableOf(t', order).rows == rows;
  }

  /** Completing a row: same table, same answer, for every adapter's WHERE and SET. */
  lemma MarkPublishedRefines(mysql: bool, t: SqlTable, order: seq<string>, id: string, at: Time,
                             expected: Option<string>, now: Time)
    requires WellTypedTable(t, order)
    ensures var s := Statement(PublishedSet(at, now), OwnershipWhere(id, expected));
      && WellTypedTable(Execute(mysql, t, s), order)
      && (TableOf(Execute(mysql, t, s), order), Affects(t, s)) == Complete(TableOf(t, order), id, at, expected)
  {
    var s := Statement(PublishedSet(at, now), OwnershipWhere(id, expected));
    OwnershipSelects(t, order, id, expected);
    if id in t { PublishedRow(mysql, t[id], at, now); }
    UpdatesOneRow(mysql, t, order, s, id, if id in t then AsPublished(RowOf(t[id]), at) else EmptyRow);
  }

  const EmptyRow := Row("", "", "", 0, Pending, None, None, None, None, None)

  lemma OwnershipSelects(t: SqlTable, order: seq<string>, id: string, expected: Option<string>)
    requires WellTypedTable(t, order)
    ensures forall i :: i in t ==>
      (Selects(OwnershipWhere(id, expected), t[i]) <==> i == id && OwnsClaim(RowOf(t[i]), expected))
  {
    forall i | i in t
      ensures Selects(OwnershipWhere(id, expected), t[i]) <==> i == id && OwnsClaim(RowOf(t[i]), expected)
    {
      ConditionsMeanPredicates(t[i], id, if expected.Some? then expected.value else "", 0);
    }
  }

  /** Recording a failure gives the same table under MySQL's left-to-right SET with its own
      threshold, under simultaneous SET, and in memory, for all four adapters. */
  lemma MarkPublishFailedRefines(adapter: Adapter, mysql: bool, t: SqlTable, order: seq<string>, id: string,
                                 error: string, maxRetries: int, retryAt: Time, expected: Option<string>, now: Time)
    requires WellTypedTable(t, order)
    ensures var s := Statement(FailedSet(adapter, mysql, error, maxRetries, retryAt, now), OwnershipWhere(id, expected));
      && WellTypedTable(Execute(mysql, t, s), order)
      && (TableOf(Execute(mysql, t, s), order), Affects(t, s))
         == Fail(TableOf(t, order), id, error, maxRetries, retryAt, expected)
  {
    var s := Statement(FailedSet(adapter, mysql, error, maxRetries, retryAt, now), OwnershipWhere(id, expected));
    OwnershipSelects(t, order, id, expected);
    if id in t { FailedRow(adapter, mysql, t[id], error, maxRetries, retryAt, now); }
    UpdatesOneRow(mysql, t, order, s, id,
                  if id in t then AsFailed(RowOf(t[id]), error, maxRetries, retryAt) else EmptyRow);
  }

  lemma RenewPublishClaimRefines(mysql: bool, t: SqlTable, order: seq<string>, id: string, owner: string,
                                 now: Time, until: Time)
    requires WellTypedTable(t, order)
    ensures var s := Statement(RenewedSet(until, now), RenewableWhere(id, owner, now));
      && WellTypedTable(Execute(mysql, t, s), order)
      && (TableOf(Execute(mysql, t, s), order), Affects(t, s)) == Renew(TableOf(t, order), id, owner, now, until)
  {
    var s := Statement(RenewedSet(until, now), RenewableWhere(id, owner, now));
    forall i | i in t ensures Selects(s.where_, t[i]) <==> i == id && CanRenew(RowOf(t[i]), owner, now) {
      ConditionsMeanPredicates(t[i], id, owner, now);
    }
    if id in t { LeaseRow(mysql, t[id], owner, until, now); }
    UpdatesOneRow(mysql, t, order, s, id, if id in t then RowOf(t[id]).(lockedUntil := Some(until)) else EmptyRow);
  }

  /** What the adapters answer: the update says whether it affected a row; otherwise a second
      query, on the table as it is by then, tells the reason. */
  datatype RequeueAnswer = AnsweredRequeued | AnsweredNotEligible(current: OutboxStore.Status) | AnsweredNotFound

  ghost function AnswerRequeue(affected: bool, later: SqlTable, id: string): RequeueAnswer
    requires forall i :: i in later ==> WellTyped(later[i])
  {
    if affected then AnsweredRequeued
    else if id in later then AnsweredNotEligible(RowOf(later[id]).status)
    else AnsweredNotFound
  }

  /** The in-memory answer without the previous status of a requeued row, which the adapters do
      not report. */
  function AnswerWithoutPrevious(o: RequeueOutcome): RequeueAnswer {
    match o
    case Requeued(_) => AnsweredRequeued
    case NotEligible(current) => AnsweredNotEligible(current)
    case NotFound => AnsweredNotFound
  }

  /** Requeueing: same table; the answer is the in-memory one when nobody writes between the two
      queries, and says `requeued` for exactly the same rows in any case. */
  lemma RequeuePublishRefines(mysql: bool, t: SqlTable, order: seq<string>, id: string, now: Time, later: SqlTable)
    requires WellTypedTable(t, order) && forall i :: i in later ==> WellTyped(later[i])
    ensures var s := Statement(RequeuedSet(now), RequeueableWhere(id));
      var (after, outcome) := Requeue(TableOf(t, order), id, now);
      && WellTypedTable(Execute(mysql, t, s), order)
      && TableOf(Execute(mysql, t, s), order) == after
      && (AnswerRequeue(Affects(t, s), later, id) == AnsweredRequeued <==> outcome.Requeued?)
      && AnswerRequeue(Affects(t, s), Execute(mysql, t, s), id) == AnswerWithoutPrevious(outcome)
  {
    var s := Statement(RequeuedSet(now), RequeueableWhere(id));
    forall i | i in t ensures Selects(s.where_, t[i]) <==> i == id && RowOf(t[i]).status in {Failed, DeadLetter} {
      ConditionsMeanPredicates(t[i], id, "", now);
    }
    if id in t { RequeuedRow(mysql, t[id], now); }
    UpdatesOneRow(mysql, t, order, s, id, if id in t then AsRequeued(RowOf(t[id]), now) else EmptyRow);
  }

  lemma ReleaseExpiredClaimsRefines(mysql: bool, t: SqlTable, order: seq<string>, now: Time)
    requires WellTypedTable(t, order)
    ensures var t' := Execute(mysql, t, Statement(ReleasedSet(now), ExpiredWhere(now)));
      WellTypedTable(t', order) && TableOf(t', order) == Release(TableOf(t, order), now)
  {
    var t' := Execute(mysql, t, Statement(ReleasedSet(now), ExpiredWhere(now)));
    var rows := Release(TableOf(t, order), now).rows;
    forall i | i in t ensures WellTyped(t'[i]) && t'[i].id == t[i].id && RowOf(t'[i]) == rows[i] {
      assert rows[i] == Released(RowOf(t[i]), now);
      ConditionsMeanPredicates(t[i], "", "", now);
      LeaseRow(mysql, t[i], "", now, now);
    }
    AllRowsFollow(t, t', order, rows);
  }

  // ----- claiming -----

  /** `id IN (...)` over a list that is not empty. */
  function IdIn(ids: seq<Expr>): Cond
    requires ids != []
  {
    var first := Compare(Col(Id), Eq, ids[0]);
    if |ids| == 1 then first else Or(first, IdIn(ids[1..]))
  }

  function Texts(ids: seq<string>): (r: seq<Expr>)
    ensures |r| == |ids| && forall k :: 0 <= k < |ids| ==> r[k] == Lit(Text(ids[k]))
  {
    seq(|ids|, k requires 0 <= k < |ids| => Lit(Text(ids[k])))
  }

  lemma {:induction false} IdInSelects(ids: seq<string>, r: SqlRow)
    requires ids != [] && r.id.Text?
    ensures Selects(IdIn(Texts(ids)), r) <==> r.id.s in ids
  {
    if |ids| > 1 {
      assert Texts(ids)[1..] == Texts(ids[1..]);
      IdInSelects(ids[1..], r);
      SelectsBoth(Compare(Col(Id), Eq, Lit(Text(ids[0]))), IdIn(Texts(ids[1..])), r);
      assert ids == [ids[0]] + ids[1..];
    }
  }

  /** The update of the claim transaction; without rows it is not sent. */
  function LockSelected(mysql: bool, t: SqlTable, ids: seq<string>, owner: string, until: Time, now: Time): SqlTable {
    if ids == [] then t else Execute(mysql, t, Statement(LockedSet(owner, until, now), IdIn(Texts(ids))))
  }

  /** When the row was created. */
  function CreatedAt(t: SqlTable, id: string): int {
    if id in t && t[id].createdAt.Number? then t[id].createdAt.n else 0
  }

  predicate IsSelected(t: SqlTable, now: Time, id: string) {
    id in t && Selects(ClaimableWhere(now), t[id])
  }

  /** What `ORDER BY created_at ASC LIMIT n` may return: rows created at the same time come in
      any order. */
  ghost predicate FirstByCreation(t: SqlTable, now: Time, limit: nat, ids: seq<string>) {
    && |ids| <= limit && Distinct(ids)
    && (forall i, j :: 0 <= i < j < |ids| ==> CreatedAt(t, ids[i]) <= CreatedAt(t, ids[j]))
    && (forall id <- ids :: IsSelected(t, now, id))
    && forall id <- t :: IsSelected(t, now, id) && id !in ids ==> |ids| == limit && NoneAfter(t, ids, id)
  }

  ghost predicate NoneAfter(t: SqlTable, ids: seq<string>, id: string) {
    forall x <- ids :: CreatedAt(t, x) <= CreatedAt(t, id)
  }

  /** The rows stand in the order of their creation. */
  ghost predicate CreatedInOrder(t: SqlTable, order: seq<string>) {
    forall i, j :: 0 <= i < j < |order| ==> CreatedAt(t, order[i]) <= CreatedAt(t, order[j])
  }

  /** Where an id stands in the answer, or behind it. */
  function PlaceIn(ids: seq<string>, id: string): (n: nat)
    ensures n <= |ids| && (n < |ids| ==> ids[n] == id) && (n == |ids| ==> id !in ids)
  {
    if ids == [] || ids[0] == id then 0 else 1 + PlaceIn(ids[1..], id)
  }

  /** Created earlier, or at the same time and earlier in the answer. */
  predicate Sooner(t: SqlTable, ids: seq<string>, a: string, b: string) {
    || CreatedAt(t, a) < CreatedAt(t, b)
    || (CreatedAt(t, a) == CreatedAt(t, b) && PlaceIn(ids, a) < PlaceIn(ids, b))
  }

  /** The order respects creation times and, within one, the answer. */
  ghost predicate Respects(t: SqlTable, ids: seq<string>, order: seq<string>) {
    forall i, j :: 0 <= i < j < |order| ==> !Sooner(t, ids, order[j], order[i])
  }

  function Placed(t: SqlTable, ids: seq<string>, id: string, order: seq<string>): seq<string> {
    if order == [] || Sooner(t, ids, id, order[0]) then [id] + order else [order[0]] + Placed(t, ids, id, order[1..])
  }

  lemma {:induction false} PlacedRespects(t: SqlTable, ids: seq<string>, id: string, order: seq<string>)
    requires Respects(t, ids, order) && Distinct(order) && id !in order
    ensures Respects(t, ids, Placed(t, ids, id, order)) && Distinct(Placed(t, ids, id, order))
    ensures forall x :: x in Placed(t, ids, id, order) <==> x == id || x in order
  {
    hide CreatedAt, PlaceIn;
    if order != [] && !Sooner(t, ids, id, order[0]) {
      PlacedRespects(t, ids, id, order[1..]);
      var rest := Placed(t, ids, id, order[1..]);
      assert forall x :: x in order <==> x == order[0] || x in order[1..];
      forall j | 0 <= j < |rest| ensures !Sooner(t, ids, rest[j], order[0]) && rest[j] != order[0] {
        assert rest[j] in rest;
        if rest[j] != id {
          var k :| 0 <= k < |order[1..]| && order[1..][k] == rest[j];
          assert order[k + 1] == rest[j];
        }
      }
    }
  }

  /** Every answer has an order of the rows that respects it. */
  lemma {:induction false} RespectingOrder(t: SqlTable, ids: seq<string>, order: seq<string>) returns (sorted: seq<string>)
    requires Distinct(order)
    ensures Respects(t, ids, sorted) && Distinct(sorted) && forall x :: x in sorted <==> x in order
    decreases |order|
  {
    hide Sooner, Placed;
    sorted := [];
    if order != [] {
      assert forall x :: x in order <==> x == order[0] || x in order[1..];
      var rest := RespectingOrder(t, ids, order[1..]);
      PlacedRespects(t, ids, order[0], rest);
      sorted := Placed(t, ids, order[0], rest);
    }
  }

  lemma {:induction false} ClaimableRespect(t: SqlTable, answer: seq<string>, table: Table, prefix: seq<string>, now: Time)
    requires Respects(t, answer, prefix) && forall id <- prefix :: id in table.rows
    ensures Respects(t, answer, ClaimableIds(table, prefix, now))
    decreases |prefix|
  {
    hide Sooner;
    if |prefix| > 0 {
      var front, last := prefix[..|prefix| - 1], prefix[|prefix| - 1];
      ClaimableRespect(t, answer, table, front, now);
      ClaimableIdsMeaning(table, front, now);
      var ids := ClaimableIds(table, front, now);
      forall k | 0 <= k < |ids| ensures !Sooner(t, answer, last, ids[k]) {
        assert ids[k] in ids;
        var i :| 0 <= i < |front| && front[i] == ids[k];
        assert prefix[i] == ids[k];
      }
    }
  }

  lemma ClaimableAreSelected(t: SqlTable, order: seq<string>, now: Time)
    requires WellTypedTable(t, order)
    ensures forall id :: id in ClaimableIds(TableOf(t, order), order, now) <==> IsSelected(t, now, id)
    ensures Distinct(ClaimableIds(TableOf(t, order), order, now))
  {
    hide ClaimableIds, IsSelected;
    ClaimableIdsMeaning(TableOf(t, order), order, now);
    ClaimableIdsDistinct(TableOf(t, order), order, now);
    forall id <- t ensures IsSelected(t, now, id) <==> IsClaimable(RowOf(t[id]), now) {
      ClaimableIsSelected(t, order, now, id);
    }
    forall id | IsSelected(t, now, id) ensures id in t { SelectedIsThere(t, now, id); }
  }

  lemma ClaimableIsSelected(t: SqlTable, order: seq<string>, now: Time, id: string)
    requires WellTypedTable(t, order) && id in t
    ensures IsSelected(t, now, id) <==> IsClaimable(RowOf(t[id]), now)
  {
    ConditionsMeanPredicates(t[id], "", "", now);
  }

  /** The answer comes first: each of its rows before the next, and all before the others. */
  ghost predicate ComesFirst(t: SqlTable, now: Time, limit: nat, ids: seq<string>) {
    && |ids| <= limit && Distinct(ids) && (forall i, j :: 0 <= i < j < |ids| ==> Sooner(t, ids, ids[i], ids[j]))
    && (forall id <- ids :: IsSelected(t, now, id))
    && forall id, x :: IsSelected(t, now, id) && id !in ids && x in ids ==> Sooner(t, ids, x, id)
  }

  lemma {:induction false} PlaceOf(ids: seq<string>, k: nat)
    requires Distinct(ids) && k < |ids|
    ensures PlaceIn(ids, ids[k]) == k
  {
    var n := PlaceIn(ids, ids[k]);
    assert n < |ids| && ids[n] == ids[k];
  }

  lemma AnswerComesFirst(t: SqlTable, now: Time, limit: nat, ids: seq<string>)
    requires FirstByCreation(t, now, limit, ids)
    ensures ComesFirst(t, now, limit, ids)
    ensures forall id :: IsSelected(t, now, id) && id !in ids ==> |ids| == limit
  {
    hide IsSelected, CreatedAt;
    forall i, j | 0 <= i < j < |ids| ensures Sooner(t, ids, ids[i], ids[j]) {
      PlaceOf(ids, i);
      PlaceOf(ids, j);
    }
    forall id, x | IsSelected(t, now, id) && id !in ids && x in ids ensures Sooner(t, ids, x, id) {
      assert id in t by { SelectedIsThere(t, now, id); }
      assert NoneAfter(t, ids, id);
    }
    forall id | IsSelected(t, now, id) && id !in ids ensures |ids| == limit { SelectedIsThere(t, now, id); }
  }

  lemma SelectedIsThere(t: SqlTable, now: Time, id: string)
    requires IsSelected(t, now, id)
    ensures id in t
  {
  }

  lemma {:induction false} SameAsFar(t: SqlTable, now: Time, limit: nat, ids: seq<string>, all: seq<string>, n: nat)
    requires ComesFirst(t, now, limit, ids) && Respects(t, ids, all) && Distinct(all) && n <= |ids|
    requires forall id :: id in all <==> IsSelected(t, now, id)
    ensures n <= |all| && ids[..n] == all[..n]
  {
    hide IsSelected, Sooner;
    if n > 0 {
      SameAsFar(t, now, limit, ids, all, n - 1);
      SameAt(t, now, limit, ids, all, n - 1);
      assert ids[..n] == ids[..n - 1] + [ids[n - 1]] && all[..n] == all[..n - 1] + [all[n - 1]];
    }
  }

  lemma SameAt(t: SqlTable, now: Time, limit: nat, ids: seq<string>, all: seq<string>, k: nat)
    requires ComesFirst(t, now, limit, ids) && Respects(t, ids, all) && Distinct(all) && k < |ids|
    requires forall id :: id in all <==> IsSelected(t, now, id)
    requires k <= |all| && ids[..k] == all[..k]
    ensures k < |all| && ids[k] == all[k]
  {
    hide IsSelected, Sooner;
    assert forall j :: 0 <= j < k ==> ids[j] == ids[..k][j] == all[..k][j] == all[j];
    assert ids[k] in ids && ids[k] in all;
    var p :| 0 <= p < |all| && all[p] == ids[k];
    assert p >= k;
    if p > k { NextIsSooner(t, now, limit, ids, all, k, p); }
  }

  lemma NextIsSooner(t: SqlTable, now: Time, limit: nat, ids: seq<string>, all: seq<string>, k: nat, p: nat)
    requires ComesFirst(t, now, limit, ids) && Distinct(all) && k < |ids| && k < p < |all| && all[p] == ids[k]
    requires forall id :: id in all <==> IsSelected(t, now, id)
    requires forall j :: 0 <= j < k ==> ids[j] == all[j]
    ensures Sooner(t, ids, all[p], all[k])
  {
    hide IsSelected, Sooner;
    assert all[k] in all && ids[k] in ids;
    if all[k] in ids {
      var q :| 0 <= q < |ids| && ids[q] == all[k];
      assert q > k;
    }
  }

  /** The query returns what the loop over the store collects when the rows had been inserted
      in an order that respects it. */
  lemma LoopCollects(t: SqlTable, order: seq<string>, now: Time, limit: nat, ids: seq<string>)
    requires WellTypedTable(t, order) && Respects(t, ids, order) && FirstByCreation(t, now, limit, ids)
    ensures ids == ClaimIds(TableOf(t, order), now, limit)
  {
    hide FirstByCreation, Respects, ClaimableIds, IsSelected, ComesFirst;
    ClaimableAreSelected(t, order, now);
    ClaimableRespect(t, ids, TableOf(t, order), order, now);
    AnswerComesFirst(t, now, limit, ids);
    TakesAnswer(t, now, limit, ids, ClaimableIds(TableOf(t, order), order, now));
  }

  lemma TakesAnswer(t: SqlTable, now: Time, limit: nat, ids: seq<string>, all: seq<string>)
    requires FirstByCreation(t, now, limit, ids) && ComesFirst(t, now, limit, ids) && Respects(t, ids, all) && Distinct(all)
    requires forall id :: id in all <==> IsSelected(t, now, id)
    ensures ids == Take(all, limit)
  {
    hide FirstByCreation, Respects, IsSelected, ComesFirst;
    SameAsFar(t, now, limit, ids, all, |ids|);
    assert ids[..|ids|] == ids;
    AtLimitOrAll(t, now, limit, ids, all);
  }

  lemma AtLimitOrAll(t: SqlTable, now: Time, limit: nat, ids: seq<string>, all: seq<string>)
    requires FirstByCreation(t, now, limit, ids) && Distinct(all) && |ids| <= |all| && ids == all[..|ids|]
    requires forall id :: id in all <==> IsSelected(t, now, id)
    ensures ids == Take(all, limit)
  {
    if |ids| < |all| {
      var id := all[|ids|];
      assert id in all;
      assert forall k :: 0 <= k < |ids| ==> all[k] != all[|ids|] && ids[k] == all[k];
    }
  }

  lemma RespectsCreation(t: SqlTable, ids: seq<string>, order: seq<string>)
    requires Respects(t, ids, order)
    ensures CreatedInOrder(t, order)
  {
    forall i, j | 0 <= i < j < |order| ensures CreatedAt(t, order[i]) <= CreatedAt(t, order[j]) {
      assert !Sooner(t, ids, order[j], order[i]);
    }
  }

  /** The loop over rows in the order of their creation collects an answer of the query. */
  lemma LoopAnswers(t: SqlTable, order: seq<string>, now: Time, limit: nat)
    requires WellTypedTable(t, order) && CreatedInOrder(t, order)
    ensures FirstByCreation(t, now, limit, ClaimIds(TableOf(t, order), now, limit))
  {
    hide FirstByCreation, Respects, CreatedInOrder, ClaimableIds, IsSelected;
    ClaimableAreSelected(t, order, now);
    CreationRespects(t, order);
    ClaimableRespect(t, [], TableOf(t, order), order, now);
    RespectsCreation(t, [], ClaimableIds(TableOf(t, order), order, now));
    FirstAreAnswer(t, now, limit, ClaimableIds(TableOf(t, order), order, now));
  }

  lemma CreationRespects(t: SqlTable, order: seq<string>)
    requires CreatedInOrder(t, order)
    ensures Respects(t, [], order)
  {
  }

  lemma TakenOrBeyond(all: seq<string>, n: nat, j: nat)
    requires n <= |all| && j < |all|
    ensures j >= n || all[j] in all[..n]
  {
    assert j < n ==> all[..n][j] == all[j];
  }

  lemma FirstAreAnswer(t: SqlTable, now: Time, limit: nat, all: seq<string>)
    requires CreatedInOrder(t, all) && Distinct(all) && forall id :: id in all <==> IsSelected(t, now, id)
    ensures FirstByCreation(t, now, limit, Take(all, limit))
  {
    hide IsSelected, CreatedAt;
    var ids := Take(all, limit);
    assert forall k :: 0 <= k < |ids| ==> ids[k] == all[k];
    forall id <- ids ensures IsSelected(t, now, id) { assert id in all; }
    forall id | IsSelected(t, now, id) && id !in ids ensures |ids| == limit && NoneAfter(t, ids, id) {
      var j :| 0 <= j < |all| && all[j] == id;
      TakenOrBeyond(all, |ids|, j);
    }
  }

  /** Some order of insertion by creation time makes the loop collect these rows. */
  ghost predicate SomeLoopCollects(t: SqlTable, now: Time, limit: nat, ids: seq<string>) {
    exists order ::
      WellTypedTable(t, order) && CreatedInOrder(t, order) && ids == ClaimIds(TableOf(t, order), now, limit)
  }

  /** What the query may return is exactly what the loop over the store may collect when the
      rows were inserted in the order of their creation, ties in any order. */
  lemma QueryIsLoop(t: SqlTable, order: seq<string>, now: Time, limit: nat, ids: seq<string>)
    requires WellTypedTable(t, order)
    ensures FirstByCreation(t, now, limit, ids) <==> SomeLoopCollects(t, now, limit, ids)
  {
    if FirstByCreation(t, now, limit, ids) {
      var sorted := InsertionFor(t, order, now, limit, ids);
    }
    if SomeLoopCollects(t, now, limit, ids) {
      var sorted :| WellTypedTable(t, sorted) && CreatedInOrder(t, sorted) && ids == ClaimIds(TableOf(t, sorted), now, limit);
      LoopAnswers(t, sorted, now, limit);
    }
  }

  lemma InsertionFor(t: SqlTable, order: seq<string>, now: Time, limit: nat, ids: seq<string>) returns (sorted: seq<string>)
    requires WellTypedTable(t, order) && FirstByCreation(t, now, limit, ids)
    ensures WellTypedTable(t, sorted) && CreatedInOrder(t, sorted) && ids == ClaimIds(TableOf(t, sorted), now, limit)
  {
    hide FirstByCreation, Respects, CreatedInOrder, ClaimIds;
    sorted := RespectingOrder(t, ids, order);
    RespectsCreation(t, ids, sorted);
    LoopCollects(t, sorted, now, limit, ids);
  }

  /** The claim transaction, whatever rows its query returns, selects, locks and returns the
      rows the in-memory store would if it had received the same rows in some order of their
      creation. */
  lemma ClaimUnpublishedRefines(mysql: bool, t: SqlTable, order: seq<string>, limit: nat, owner: string,
                                until: Time, now: Time, ids: seq<string>) returns (inserted: seq<string>)
    requires WellTypedTable(t, order) && FirstByCreation(t, now, limit, ids)
    ensures WellTypedTable(t, inserted) && CreatedInOrder(t, inserted)
    ensures var t' := LockSelected(mysql, t, ids, owner, until, now);
      && WellTypedTable(t', inserted) && (forall id <- ids :: id in t')
      && (TableOf(t', inserted), RowsOf(TableOf(t', inserted), ids)) == Claim(TableOf(t, inserted), now, limit, owner, until)
  {
    hide FirstByCreation, CreatedInOrder;
    inserted := InsertionFor(t, order, now, limit, ids);
    ClaimedAreRows(TableOf(t, inserted), now, limit);
    LockSelectedLocks(mysql, t, inserted, ids, owner, until, now);
  }

  lemma LockSelectedLocks(mysql: bool, t: SqlTable, order: seq<string>, ids: seq<string>, owner: string, until: Time, now: Time)
    requires WellTypedTable(t, order) && forall id <- ids :: id in t
    ensures var t' := LockSelected(mysql, t, ids, owner, until, now);
      WellTypedTable(t', order) && TableOf(t', order) == LockAll(TableOf(t, order), ids, owner, until)
  {
    var t' := LockSelected(mysql, t, ids, owner, until, now);
    var rows := LockAll(TableOf(t, order), ids, owner, until).rows;
    forall i | i in t ensures i in t' && WellTyped(t'[i]) && t'[i].id == t[i].id && RowOf(t'[i]) == rows[i] {
      if ids != [] { IdInSelects(ids, t[i]); }
      LeaseRow(mysql, t[i], owner, until, now);
    }
    AllRowsFollow(t, t', order, rows);
  }
}
