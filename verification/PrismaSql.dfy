/** The statements of the Prisma adapter
    (libs/cap-storage-prisma/src/prisma-publish-storage.ts), which numbers its values while
    it collects them and writes `$k` for PostgreSQL but a bare `?` elsewhere.  The order in
    which values are collected must therefore be the order of the statement's text. */
module PrismaSql {
  import opened Basics
  import opened OutboxStore
  import opened Sql
  import opened SqlAdapters

  class PrismaSqlBuilder {
    var values: seq<Value>

    constructor ()
      ensures values == []
    {
      values := [];
    }

    method Parameter(value: Value) returns (placeholder: Expr)
      modifies this
      ensures values == old(values) + [value] && placeholder == Hole(|old(values)|)
    {
      values := values + [value];
      placeholder := Hole(|values| - 1);
    }
  }

  /** Both placeholder styles bind the statement `meant`. */
  ghost predicate Binds(s: Statement, values: seq<Value>, meant: Statement) {
    && FillSet(s.set_, values) == meant.set_ && FillCond(s.where_, values) == meant.where_
    && ByPosition(s) == s
  }

  function Owned(id: Expr, ownership: Option<(Expr, Expr)>): Cond {
    var byId := Compare(Col(Id), Eq, id);
    match ownership
    case None => byId
    case Some((processing, owner)) =>
      And(And(byId, Compare(Col(Status), Eq, processing)), Compare(Col(LockedBy), Eq, owner))
  }

  /** The ownership clause takes the next one or three values. */
  lemma OwnedInOrder(next: nat, id: string, expected: Option<string>, values: seq<Value>)
    requires next + (if expected.Some? then 3 else 1) <= |values|
    requires values[next] == Text(id)
    requires expected.Some? ==> values[next + 1] == Text("processing") && values[next + 2] == Text(expected.value)
    ensures var c := Owned(Hole(next), if expected.Some? then Some((Hole(next + 1), Hole(next + 2))) else None);
      && FillCond(c, values) == OwnershipWhere(id, expected)
      && InOrderCond(c, next) == Some(next + (if expected.Some? then 3 else 1))
  {
    var byId := Compare(Col(Id), Eq, Hole(next));
    assert InOrderCond(byId, next) == Some(next + 1);
    assert FillCond(byId, values) == Is(Id, id);
    if expected.Some? {
      var both := And(byId, Compare(Col(Status), Eq, Hole(next + 1)));
      assert InOrderCond(both, next) == Some(next + 2);
      assert FillCond(both, values) == And(Is(Id, id), Is(Status, "processing"));
      assert InOrderCond(Compare(Col(LockedBy), Eq, Hole(next + 2)), next + 2) == Some(next + 3);
      assert FillCond(Compare(Col(LockedBy), Eq, Hole(next + 2)), values) == Is(LockedBy, expected.value);
    }
  }

  method MarkPublishedStatement(id: string, publishedAt: Time, expected: Option<string>, now: Time)
    returns (s: Statement, values: seq<Value>)
    ensures Binds(s, values, Statement(PublishedSet(publishedAt, now), OwnershipWhere(id, expected)))
  {
    var builder := new PrismaSqlBuilder();
    var published := builder.Parameter(Number(publishedAt));
    var updated := builder.Parameter(Number(now));
    var eventId := builder.Parameter(Text(id));
    var ownership := None;
    if expected.Some? {
      var processing := builder.Parameter(Text("processing"));
      var owner := builder.Parameter(Text(expected.value));
      ownership := Some((processing, owner));
    }
    s := Statement(
      [(Status, Lit(Text("published"))), (PublishedAt, published), (LockedBy, Lit(Null)),
       (LockedUntil, Lit(Null)), (NextRetryAt, Lit(Null)), (UpdatedAt, updated)],
      Owned(eventId, ownership));
    values := builder.values;
    OwnedInOrder(2, id, expected, values);
    assert InOrderSet(s.set_, 5, 1) == Some(2) && InOrderSet(s.set_, 4, 1) == Some(2);
    assert InOrderSet(s.set_, 3, 1) == Some(2) && InOrderSet(s.set_, 2, 1) == Some(2);
    assert InOrderSet(s.set_, 1, 0) == Some(2) && InOrderSet(s.set_, 0, 0) == Some(2);
    PositionsAreNumbers(s);
  }

  method MarkPublishFailedStatement(mysql: bool, id: string, error: string, maxRetries: int, nextRetryAt: Time,
                                    now: Time, expected: Option<string>)
    returns (s: Statement, values: seq<Value>)
    ensures Binds(s, values, Statement(FailedSet(Prisma, mysql, error, maxRetries, nextRetryAt, now),
                                       OwnershipWhere(id, expected)))
  {
    hide Binds, FailedSet, OwnershipWhere, FailureText, Owned;
    var builder := new PrismaSqlBuilder();
    var retryCount := Col(RetryCount);
    var threshold := if mysql then retryCount else PlusOne(retryCount);
    var maxForStatus := builder.Parameter(Number(maxRetries));
    var deadLetter := builder.Parameter(Text("dead_letter"));
    var failed := builder.Parameter(Text("failed"));
    var maxForRetry := builder.Parameter(Number(maxRetries));
    var nextRetry := builder.Parameter(Number(nextRetryAt));
    var lastError := builder.Parameter(Text(error));
    var updated := builder.Parameter(Number(now));
    var eventId := builder.Parameter(Text(id));
    ghost var always := builder.values;
    assert always == AlwaysBound(maxRetries, nextRetryAt, error, now, id);
    var ownership := None;
    if expected.Some? {
      var processing := builder.Parameter(Text("processing"));
      var owner := builder.Parameter(Text(expected.value));
      ownership := Some((processing, owner));
    }
    values := builder.values;
    assert values == always + OwnerBound(expected);
    s := Statement(FailureText(threshold, maxForStatus, deadLetter, failed, maxForRetry, nextRetry, lastError, updated),
                   Owned(eventId, ownership));
    assert s == FailedTemplate(mysql, expected.Some?);
    FailedTemplateBinds(mysql, id, error, maxRetries, nextRetryAt, now, expected, values);
  }

  function AlwaysBound(maxRetries: int, nextRetryAt: Time, error: string, now: Time, id: string): seq<Value> {
    [Number(maxRetries), Text("dead_letter"), Text("failed"), Number(maxRetries), Number(nextRetryAt),
     Text(error), Number(now), Text(id)]
  }

  function OwnerBound(expected: Option<string>): seq<Value> {
    if expected.Some? then [Text("processing"), Text(expected.value)] else []
  }

  /** The statement with its placeholders where the builder put them. */
  function FailedTemplate(mysql: bool, fenced: bool): Statement {
    var threshold := if mysql then Col(RetryCount) else PlusOne(Col(RetryCount));
    Statement(FailureText(threshold, Hole(0), Hole(1), Hole(2), Hole(3), Hole(4), Hole(5), Hole(6)),
              Owned(Hole(7), if fenced then Some((Hole(8), Hole(9))) else None))
  }

  /** The SET list of the failure statement in the order of its text. */
  function FailureText(threshold: Expr, maxForStatus: Expr, deadLetter: Expr, failed: Expr, maxForRetry: Expr,
                       nextRetry: Expr, lastError: Expr, updated: Expr): Assignments
  {
    [(RetryCount, PlusOne(Col(RetryCount))),
     (Status, CaseWhen(threshold, Ge, maxForStatus, deadLetter, failed)),
     (NextRetryAt, CaseWhen(threshold, Ge, maxForRetry, Lit(Null), nextRetry)),
     (LastError, lastError), (LockedBy, Lit(Null)), (LockedUntil, Lit(Null)), (UpdatedAt, updated)]
  }

  lemma FailedTemplateBinds(mysql: bool, id: string, error: string, maxRetries: int, nextRetryAt: Time, now: Time,
                            expected: Option<string>, values: seq<Value>)
    requires values == AlwaysBound(maxRetries, nextRetryAt, error, now, id) + OwnerBound(expected)
    ensures Binds(FailedTemplate(mysql, expected.Some?), values,
                  Statement(FailedSet(Prisma, mysql, error, maxRetries, nextRetryAt, now), OwnershipWhere(id, expected)))
  {
    var s := FailedTemplate(mysql, expected.Some?);
    OwnedInOrder(7, id, expected, values);
    FailedSetFilled(mysql, error, maxRetries, nextRetryAt, now, expected.Some?, values);
    hide FailedTemplate, FailedSet, OwnershipWhere;
    PositionsAreNumbers(s);
  }

  lemma FailedSetFilled(mysql: bool, error: string, maxRetries: int, nextRetryAt: Time, now: Time, fenced: bool,
                        values: seq<Value>)
    requires |values| >= 8
    requires values[..8] == [Number(maxRetries), Text("dead_letter"), Text("failed"), Number(maxRetries),
                             Number(nextRetryAt), Text(error), Number(now), values[7]]
    ensures var s := FailedTemplate(mysql, fenced);
      && FillSet(s.set_, values) == FailedSet(Prisma, mysql, error, maxRetries, nextRetryAt, now)
      && InOrderSet(s.set_, 0, 0) == Some(7)
  {
    var s := FailedTemplate(mysql, fenced);
    assert forall i :: 0 <= i < 8 ==> values[i] == values[..8][i];
    FailureCases(if mysql then Col(RetryCount) else PlusOne(Col(RetryCount)), maxRetries, nextRetryAt, values);
    FailedSetInOrder(s.set_);
    var meant := FailedSet(Prisma, mysql, error, maxRetries, nextRetryAt, now);
    assert forall i :: 0 <= i < 7 ==> FillSet(s.set_, values)[i] == meant[i];
  }

  lemma FailedSetInOrder(set_: Assignments)
    requires |set_| == 7 && InOrder(set_[0].1, 0) == Some(0) && InOrder(set_[1].1, 0) == Some(3)
    requires InOrder(set_[2].1, 3) == Some(5) && InOrder(set_[3].1, 5) == Some(6) && InOrder(set_[4].1, 6) == Some(6)
    requires InOrder(set_[5].1, 6) == Some(6) && InOrder(set_[6].1, 6) == Some(7)
    ensures InOrderSet(set_, 0, 0) == Some(7)
  {
    assert InOrderSet(set_, 6, 6) == Some(7);
    assert InOrderSet(set_, 5, 6) == Some(7);
    assert InOrderSet(set_, 4, 6) == Some(7);
    assert InOrderSet(set_, 3, 5) == Some(7);
    assert InOrderSet(set_, 2, 3) == Some(7);
    assert InOrderSet(set_, 1, 0) == Some(7);
  }

  lemma FailureCases(threshold: Expr, maxRetries: int, nextRetryAt: Time, values: seq<Value>)
    requires threshold == Col(RetryCount) || threshold == PlusOne(Col(RetryCount))
    requires |values| > 6 && values[0] == Number(maxRetries) && values[1] == Text("dead_letter")
    requires values[2] == Text("failed") && values[3] == Number(maxRetries) && values[4] == Number(nextRetryAt)
    ensures var e := CaseWhen(threshold, Ge, Hole(0), Hole(1), Hole(2));
      && InOrder(e, 0) == Some(3)
      && Fill(e, values) == CaseWhen(threshold, Ge, Lit(Number(maxRetries)), Lit(Text("dead_letter")), Lit(Text("failed")))
    ensures InOrder(PlusOne(Col(RetryCount)), 0) == Some(0)
    ensures Fill(PlusOne(Col(RetryCount)), values) == PlusOne(Col(RetryCount))
    ensures var e := CaseWhen(threshold, Ge, Hole(3), Lit(Null), Hole(4));
      && InOrder(e, 3) == Some(5)
      && Fill(e, values) == CaseWhen(threshold, Ge, Lit(Number(maxRetries)), Lit(Null), Lit(Number(nextRetryAt)))
  {
    assert InOrder(threshold, 0) == Some(0) && InOrder(threshold, 3) == Some(3) && Fill(threshold, values) == threshold;
  }

  method RenewPublishClaimStatement(id: string, owner: string, now: Time, until: Time)
    returns (s: Statement, values: seq<Value>)
    ensures Binds(s, values, Statement(RenewedSet(until, now), RenewableWhere(id, owner, now)))
  {
    var builder := new PrismaSqlBuilder();
    var lockUntil := builder.Parameter(Number(until));
    var updatedAt := builder.Parameter(Number(now));
    var eventId := builder.Parameter(Text(id));
    var processing := builder.Parameter(Text("processing"));
    var lockedBy := builder.Parameter(Text(owner));
    var at := builder.Parameter(Number(now));
    s := Statement([(LockedUntil, lockUntil), (UpdatedAt, updatedAt)],
                   And(Owned(eventId, Some((processing, lockedBy))), Compare(Col(LockedUntil), Gt, at)));
    values := builder.values;
    OwnedInOrder(2, id, Some(owner), values);
    assert InOrderSet(s.set_, 1, 1) == Some(2) && InOrderSet(s.set_, 0, 0) == Some(2);
    assert InOrderCond(Compare(Col(LockedUntil), Gt, at), 5) == Some(6);
    assert FillCond(Compare(Col(LockedUntil), Gt, at), values) == Compare(Col(LockedUntil), Gt, Lit(Number(now)));
    PositionsAreNumbers(s);
  }

  method ReleaseExpiredClaimsStatement(now: Time) returns (s: Statement, values: seq<Value>)
    ensures Binds(s, values, Statement(ReleasedSet(now), ExpiredWhere(now)))
  {
    var builder := new PrismaSqlBuilder();
    var updated := builder.Parameter(Number(now));
    var expires := builder.Parameter(Number(now));
    s := Statement([(Status, Lit(Text("failed"))), (LockedBy, Lit(Null)), (LockedUntil, Lit(Null)), (UpdatedAt, updated)],
                   And(Is(Status, "processing"), Compare(Col(LockedUntil), Le, expires)));
    values := builder.values;
    assert InOrderSet(s.set_, 3, 0) == Some(1) && InOrderSet(s.set_, 2, 0) == Some(1);
    assert InOrderSet(s.set_, 1, 0) == Some(1) && InOrderSet(s.set_, 0, 0) == Some(1);
    assert InOrderCond(Is(Status, "processing"), 1) == Some(1);
    assert InOrderCond(Compare(Col(LockedUntil), Le, expires), 1) == Some(2);
    assert FillCond(Is(Status, "processing"), values) == Is(Status, "processing");
    PositionsAreNumbers(s);
  }

  method RequeuePublishStatement(id: string, now: Time) returns (s: Statement, values: seq<Value>)
    ensures Binds(s, values, Statement(RequeuedSet(now), RequeueableWhere(id)))
  {
    var builder := new PrismaSqlBuilder();
    var failed := builder.Parameter(Text("failed"));
    var retryAt := builder.Parameter(Number(now));
    var updatedAt := builder.Parameter(Number(now));
    var eventId := builder.Parameter(Text(id));
    var eligibleFailed := builder.Parameter(Text("failed"));
    var deadLetter := builder.Parameter(Text("dead_letter"));
    s := Statement(
      [(Status, failed), (RetryCount, Lit(Number(0))), (LastError, Lit(Null)), (NextRetryAt, retryAt),
       (LockedBy, Lit(Null)), (LockedUntil, Lit(Null)), (PublishedAt, Lit(Null)), (UpdatedAt, updatedAt)],
      And(Compare(Col(Id), Eq, eventId),
          Or(Compare(Col(Status), Eq, eligibleFailed), Compare(Col(Status), Eq, deadLetter))));
    values := builder.values;
    RequeuedSetInOrder(s.set_);
    var first := Compare(Col(Status), Eq, eligibleFailed);
    var second := Compare(Col(Status), Eq, deadLetter);
    assert InOrderCond(first, 4) == Some(5) && InOrderCond(second, 5) == Some(6);
    assert InOrderCond(Or(first, second), 4) == Some(6) && InOrderCond(Compare(Col(Id), Eq, eventId), 3) == Some(4);
    assert FillCond(Or(first, second), values) == Or(Is(Status, "failed"), Is(Status, "dead_letter"));
    PositionsAreNumbers(s);
  }

  lemma RequeuedSetInOrder(set_: Assignments)
    requires |set_| == 8 && InOrder(set_[0].1, 0) == Some(1) && InOrder(set_[1].1, 1) == Some(1)
    requires InOrder(set_[2].1, 1) == Some(1) && InOrder(set_[3].1, 1) == Some(2) && InOrder(set_[4].1, 2) == Some(2)
    requires InOrder(set_[5].1, 2) == Some(2) && InOrder(set_[6].1, 2) == Some(2) && InOrder(set_[7].1, 2) == Some(3)
    ensures InOrderSet(set_, 0, 0) == Some(3)
  {
    assert InOrderSet(set_, 7, 2) == Some(3) && InOrderSet(set_, 6, 2) == Some(3);
    assert InOrderSet(set_, 5, 2) == Some(3) && InOrderSet(set_, 4, 2) == Some(3);
    assert InOrderSet(set_, 3, 1) == Some(3) && InOrderSet(set_, 2, 1) == Some(3);
    assert InOrderSet(set_, 1, 1) == Some(3) && InOrderSet(set_, 0, 0) == Some(3);
  }

  /** The SELECT of the claim: the WHERE values in order, then the limit. */
  method ClaimUnpublishedSelect(now: Time, limit: int)
    returns (where_: Cond, limitHole: Expr, values: seq<Value>)
    ensures FillCond(where_, values) == ClaimableWhere(now) && Fill(limitHole, values) == Lit(Number(limit))
    ensures RenumberCond(where_, 0).0 == where_
    ensures Renumber(limitHole, RenumberCond(where_, 0).1).0 == limitHole
  {
    var builder := new PrismaSqlBuilder();
    var pending := builder.Parameter(Text("pending"));
    var failed := builder.Parameter(Text("failed"));
    var retryBy := builder.Parameter(Number(now));
    var processing := builder.Parameter(Text("processing"));
    var expiredBy := builder.Parameter(Number(now));
    limitHole := builder.Parameter(Number(limit));
    where_ := Or(Or(Compare(Col(Status), Eq, pending),
                    And(Compare(Col(Status), Eq, failed),
                        Or(IsNull(Col(NextRetryAt)), Compare(Col(NextRetryAt), Le, retryBy)))),
                 And(Compare(Col(Status), Eq, processing), Compare(Col(LockedUntil), Le, expiredBy)));
    values := builder.values;
    var due := Compare(Col(NextRetryAt), Le, retryBy);
    var retry := Or(IsNull(Col(NextRetryAt)), due);
    var expired := And(Compare(Col(Status), Eq, processing), Compare(Col(LockedUntil), Le, expiredBy));
    assert InOrderCond(due, 2) == Some(3) && InOrderCond(retry, 2) == Some(3);
    assert InOrderCond(And(Compare(Col(Status), Eq, failed), retry), 1) == Some(3);
    assert InOrderCond(Compare(Col(Status), Eq, processing), 3) == Some(4);
    assert InOrderCond(Compare(Col(LockedUntil), Le, expiredBy), 4) == Some(5);
    assert InOrderCond(expired, 3) == Some(5);
    assert InOrderCond(where_.p, 0) == Some(3) && InOrderCond(where_, 0) == Some(5);
    assert FillCond(due, values) == Compare(Col(NextRetryAt), Le, Lit(Number(now)));
    assert FillCond(retry, values) == Or(IsNull(Col(NextRetryAt)), Compare(Col(NextRetryAt), Le, Lit(Number(now))));
    assert FillCond(expired, values) == ExpiredWhere(now);
    var failedDue := And(Compare(Col(Status), Eq, failed), retry);
    assert FillCond(Compare(Col(Status), Eq, failed), values) == Is(Status, "failed");
    assert FillCond(Compare(Col(Status), Eq, pending), values) == Is(Status, "pending");
    assert FillCond(failedDue, values) == ClaimableWhere(now).p.q;
    assert FillCond(where_.p, values) == ClaimableWhere(now).p;
    CondByPosition(where_, 0);
  }

  function Holes(next: nat, count: nat): (r: seq<Expr>)
    ensures |r| == count && forall k :: 0 <= k < count ==> r[k] == Hole(next + k)
  {
    seq(count, k requires 0 <= k < count => Hole(next + k))
  }

  /** A list of placeholders takes the next values in turn. */
  lemma {:induction false} ListInOrder(next: nat, ids: seq<string>, values: seq<Value>)
    requires ids != [] && next + |ids| <= |values|
    requires forall k :: 0 <= k < |ids| ==> values[next + k] == Text(ids[k])
    ensures FillCond(IdIn(Holes(next, |ids|)), values) == IdIn(Texts(ids))
    ensures InOrderCond(IdIn(Holes(next, |ids|)), next) == Some(next + |ids|)
    decreases |ids|
  {
    var holes, first := Holes(next, |ids|), Compare(Col(Id), Eq, Hole(next));
    assert InOrderCond(first, next) == Some(next + 1);
    assert values[next + 0] == Text(ids[0]);
    assert FillCond(first, values) == Compare(Col(Id), Eq, Texts(ids)[0]);
    if |ids| > 1 {
      var rest := ids[1..];
      assert forall k :: 0 <= k < |rest| ==> values[next + 1 + k] == values[next + (k + 1)] == Text(rest[k]);
      ListInOrder(next + 1, rest, values);
      assert holes[1..] == Holes(next + 1, |rest|) && Texts(ids)[1..] == Texts(rest);
      assert IdIn(holes) == Or(first, IdIn(holes[1..]));
    } else {
      assert IdIn(holes) == first;
    }
  }

  function TextValues(ids: seq<string>): (r: seq<Value>)
    ensures |r| == |ids| && forall k :: 0 <= k < |ids| ==> r[k] == Text(ids[k])
  {
    seq(|ids|, k requires 0 <= k < |ids| => Text(ids[k]))
  }

  /** The UPDATE of the claim, with one placeholder for each selected row. */
  method ClaimUnpublishedUpdate(ids: seq<string>, owner: string, until: Time, now: Time)
    returns (s: Statement, values: seq<Value>)
    requires ids != []
    ensures Binds(s, values, Statement(LockedSet(owner, until, now), IdIn(Texts(ids))))
  {
    var builder := new PrismaSqlBuilder();
    var lockedBy := builder.Parameter(Text(owner));
    var lockUntil := builder.Parameter(Number(until));
    var updatedAt := builder.Parameter(Number(now));
    ghost var fixed_ := builder.values;
    var holes: seq<Expr> := [];
    for i := 0 to |ids|
      invariant builder.values == fixed_ + TextValues(ids[..i]) && holes == Holes(3, i)
    {
      var hole := builder.Parameter(Text(ids[i]));
      holes := holes + [hole];
      assert TextValues(ids[..i + 1]) == TextValues(ids[..i]) + [Text(ids[i])];
    }
    assert ids[..|ids|] == ids;
    values := builder.values;
    s := Statement([(Status, Lit(Text("processing"))), (LockedBy, lockedBy), (LockedUntil, lockUntil), (UpdatedAt, updatedAt)],
                   IdIn(holes));
    UpdateBinds(ids, owner, until, now, values);
  }

  lemma UpdateBinds(ids: seq<string>, owner: string, until: Time, now: Time, values: seq<Value>)
    requires ids != [] && values == [Text(owner), Number(until), Number(now)] + TextValues(ids)
    ensures Binds(Statement([(Status, Lit(Text("processing"))), (LockedBy, Hole(0)), (LockedUntil, Hole(1)), (UpdatedAt, Hole(2))],
                            IdIn(Holes(3, |ids|))),
                  values, Statement(LockedSet(owner, until, now), IdIn(Texts(ids))))
  {
    var s := Statement([(Status, Lit(Text("processing"))), (LockedBy, Hole(0)), (LockedUntil, Hole(1)), (UpdatedAt, Hole(2))],
                       IdIn(Holes(3, |ids|)));
    ListInOrder(3, ids, values);
    assert FillSet(s.set_, values) == LockedSet(owner, until, now);
    assert InOrderSet(s.set_, 3, 2) == Some(3) && InOrderSet(s.set_, 2, 1) == Some(3);
    assert InOrderSet(s.set_, 1, 0) == Some(3) && InOrderSet(s.set_, 0, 0) == Some(3);
    PositionsAreNumbers(s);
  }
}
