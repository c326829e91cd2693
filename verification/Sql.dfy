/** The part of SQL the storage adapters rely on: three-valued conditions, nullable columns,
    and the two ways databases evaluate the SET list of an UPDATE. */
module Sql {
  import opened Basics

  datatype Value = Null | Number(n: int) | Text(s: string)

  datatype Truth = Yes | No | Unknown

  datatype Column =
    | Id | Topic | Payload | RetryCount | Status | NextRetryAt | LastError | LockedBy | LockedUntil
    | PublishedAt | CreatedAt | UpdatedAt

  datatype SqlRow = SqlRow(id: Value, topic: Value, payload: Value, retryCount: Value, status: Value,
                           nextRetryAt: Value, lastError: Value, lockedBy: Value, lockedUntil: Value,
                           publishedAt: Value, createdAt: Value, updatedAt: Value)

  function Get(r: SqlRow, c: Column): Value {
    match c
    case Id => r.id
    case Topic => r.topic
    case Payload => r.payload
    case RetryCount => r.retryCount
    case Status => r.status
    case NextRetryAt => r.nextRetryAt
    case LastError => r.lastError
    case LockedBy => r.lockedBy
    case LockedUntil => r.lockedUntil
    case PublishedAt => r.publishedAt
    case CreatedAt => r.createdAt
    case UpdatedAt => r.updatedAt
  }

  function Put(r: SqlRow, c: Column, v: Value): SqlRow {
    match c
    case Id => r.(id := v)
    case Topic => r.(topic := v)
    case Payload => r.(payload := v)
    case RetryCount => r.(retryCount := v)
    case Status => r.(status := v)
    case NextRetryAt => r.(nextRetryAt := v)
    case LastError => r.(lastError := v)
    case LockedBy => r.(lockedBy := v)
    case LockedUntil => r.(lockedUntil := v)
    case PublishedAt => r.(publishedAt := v)
    case CreatedAt => r.(createdAt := v)
    case UpdatedAt => r.(updatedAt := v)
  }

  datatype Comparison = Eq | Le | Gt | Ge

  /** `Hole(k)` is a placeholder for the k-th bound value. */
  datatype Expr =
    | Col(column: Column)
    | Lit(value: Value)
    | Hole(k: nat)
    | PlusOne(e: Expr)
    | Coalesce(first: Expr, second: Expr)
    | CaseWhen(left: Expr, cmp: Comparison, right: Expr, thn: Expr, els: Expr)

  datatype Cond =
    | Compare(left: Expr, cmp: Comparison, right: Expr)
    | IsNull(e: Expr)
    | And(p: Cond, q: Cond)
    | Or(p: Cond, q: Cond)

  function CompareValues(a: Value, cmp: Comparison, b: Value): Truth {
    match (a, b)
    case (Number(x), Number(y)) =>
      var holds := match cmp { case Eq => x == y case Le => x <= y case Gt => x > y case Ge => x >= y };
      if holds then Yes else No
    case (Text(x), Text(y)) => if cmp.Eq? then (if x == y then Yes else No) else Unknown
    case _ => Unknown
  }

  function Eval(e: Expr, r: SqlRow): Value {
    match e
    case Col(c) => Get(r, c)
    case Lit(v) => v
    case Hole(_) => Null
    case PlusOne(e) => (match Eval(e, r) case Number(x) => Number(x + 1) case _ => Null)
    case Coalesce(a, b) => if Eval(a, r) != Null then Eval(a, r) else Eval(b, r)
    case CaseWhen(a, cmp, b, thn, els) =>
      if CompareValues(Eval(a, r), cmp, Eval(b, r)) == Yes then Eval(thn, r) else Eval(els, r)
  }

  function TruthOf(c: Cond, r: SqlRow): Truth {
    match c
    case Compare(a, cmp, b) => CompareValues(Eval(a, r), cmp, Eval(b, r))
    case IsNull(e) => if Eval(e, r) == Null then Yes else No
    case And(p, q) =>
      var x, y := TruthOf(p, r), TruthOf(q, r);
      if x == No || y == No then No else if x == Yes && y == Yes then Yes else Unknown
    case Or(p, q) =>
      var x, y := TruthOf(p, r), TruthOf(q, r);
      if x == Yes || y == Yes then Yes else if x == No && y == No then No else Unknown
  }

  /** WHERE keeps the rows for which the condition is true, not merely not false. */
  predicate Selects(c: Cond, r: SqlRow) {
    TruthOf(c, r) == Yes
  }

  type Assignments = seq<(Column, Expr)>

  /** One assignment.  Standard SQL evaluates every right-hand side on the row as it was;
      MySQL lets it see the assignments to its left. */
  function AssignOne(mysql: bool, was: SqlRow, now: SqlRow, a: (Column, Expr)): SqlRow {
    Put(now, a.0, Eval(a.1, if mysql then now else was))
  }

  function AssignAll(mysql: bool, was: SqlRow, now: SqlRow, set_: Assignments): SqlRow
    decreases |set_|
  {
    if |set_| == 0 then now else AssignAll(mysql, was, AssignOne(mysql, was, now, set_[0]), set_[1..])
  }

  function Assign(mysql: bool, row: SqlRow, set_: Assignments): SqlRow {
    AssignAll(mysql, row, row, set_)
  }

  lemma AssignFour(mysql: bool, was: SqlRow, now: SqlRow, set_: Assignments)
    requires |set_| >= 4
    ensures var r1 := AssignOne(mysql, was, now, set_[0]);
      var r2 := AssignOne(mysql, was, r1, set_[1]);
      var r3 := AssignOne(mysql, was, r2, set_[2]);
      AssignAll(mysql, was, now, set_) == AssignAll(mysql, was, AssignOne(mysql, was, r3, set_[3]), set_[4..])
  {
    var r1 := AssignOne(mysql, was, now, set_[0]);
    var r2 := AssignOne(mysql, was, r1, set_[1]);
    var r3 := AssignOne(mysql, was, r2, set_[2]);
    assert set_[1..][1..] == set_[2..] && set_[2..][1..] == set_[3..] && set_[3..][1..] == set_[4..];
    assert AssignAll(mysql, was, r1, set_[1..]) == AssignAll(mysql, was, r2, set_[2..]);
    assert AssignAll(mysql, was, r2, set_[2..]) == AssignAll(mysql, was, r3, set_[3..]);
  }

  lemma SelectsBoth(p: Cond, q: Cond, r: SqlRow)
    ensures Selects(And(p, q), r) <==> Selects(p, r) && Selects(q, r)
    ensures Selects(Or(p, q), r) <==> Selects(p, r) || Selects(q, r)
  {
  }

  type SqlTable = map<string, SqlRow>

  datatype Statement = Statement(set_: Assignments, where_: Cond)

  function Execute(mysql: bool, t: SqlTable, s: Statement): SqlTable {
    map id | id in t :: if Selects(s.where_, t[id]) then Assign(mysql, t[id], s.set_) else t[id]
  }

  /** `affected > 0`. */
  ghost predicate Affects(t: SqlTable, s: Statement) {
    exists id :: id in t && Selects(s.where_, t[id])
  }

  // ----- placeholders -----

  /** `$k` placeholders: each takes the value with its own number. */
  function Fill(e: Expr, values: seq<Value>): Expr {
    match e
    case Col(_) => e
    case Lit(_) => e
    case Hole(k) => if k < |values| then Lit(values[k]) else e
    case PlusOne(e) => PlusOne(Fill(e, values))
    case Coalesce(a, b) => Coalesce(Fill(a, values), Fill(b, values))
    case CaseWhen(a, cmp, b, thn, els) =>
      CaseWhen(Fill(a, values), cmp, Fill(b, values), Fill(thn, values), Fill(els, values))
  }

  function FillCond(c: Cond, values: seq<Value>): Cond {
    match c
    case Compare(a, cmp, b) => Compare(Fill(a, values), cmp, Fill(b, values))
    case IsNull(e) => IsNull(Fill(e, values))
    case And(p, q) => And(FillCond(p, values), FillCond(q, values))
    case Or(p, q) => Or(FillCond(p, values), FillCond(q, values))
  }

  function FillSet(set_: Assignments, values: seq<Value>): Assignments {
    seq(|set_|, i requires 0 <= i < |set_| => (set_[i].0, Fill(set_[i].1, values)))
  }

  /** `?` placeholders carry no number: reading the text from left to right, each takes the
      next value.  `next` values have been used so far; the result tells how many have been
      used afterwards. */
  function Renumber(e: Expr, next: nat): (Expr, nat) {
    match e
    case Col(_) => (e, next)
    case Lit(_) => (e, next)
    case Hole(_) => (Hole(next), next + 1)
    case PlusOne(a) => var (a', n) := Renumber(a, next); (PlusOne(a'), n)
    case Coalesce(a, b) =>
      var (a', n1) := Renumber(a, next);
      var (b', n2) := Renumber(b, n1);
      (Coalesce(a', b'), n2)
    case CaseWhen(a, cmp, b, thn, els) =>
      var (a', n1) := Renumber(a, next);
      var (b', n2) := Renumber(b, n1);
      var (thn', n3) := Renumber(thn, n2);
      var (els', n4) := Renumber(els, n3);
      (CaseWhen(a', cmp, b', thn', els'), n4)
  }

  function RenumberCond(c: Cond, next: nat): (Cond, nat) {
    match c
    case Compare(a, cmp, b) =>
      var (a', n1) := Renumber(a, next);
      var (b', n2) := Renumber(b, n1);
      (Compare(a', cmp, b'), n2)
    case IsNull(e) => var (e', n) := Renumber(e, next); (IsNull(e'), n)
    case And(p, q) =>
      var (p', n1) := RenumberCond(p, next);
      var (q', n2) := RenumberCond(q, n1);
      (And(p', q'), n2)
    case Or(p, q) =>
      var (p', n1) := RenumberCond(p, next);
      var (q', n2) := RenumberCond(q, n1);
      (Or(p', q'), n2)
  }

  function RenumberSet(set_: Assignments, from: nat, next: nat): (Assignments, nat)
    requires from <= |set_|
    decreases |set_| - from
  {
    if from == |set_| then ([], next)
    else
      var (e, n1) := Renumber(set_[from].1, next);
      var (rest, n2) := RenumberSet(set_, from + 1, n1);
      ([(set_[from].0, e)] + rest, n2)
  }

  /** The number after the last placeholder, if the placeholders from `next` on stand in the
      text in the order their values were collected. */
  function InOrder(e: Expr, next: nat): Option<nat> {
    match e
    case Col(_) => Some(next)
    case Lit(_) => Some(next)
    case Hole(k) => if k == next then Some(next + 1) else None
    case PlusOne(a) => InOrder(a, next)
    case Coalesce(a, b) => (match InOrder(a, next) case None => None case Some(n) => InOrder(b, n))
    case CaseWhen(a, _, b, thn, els) =>
      match InOrder(a, next)
      case None => None
      case Some(n1) =>
        match InOrder(b, n1)
        case None => None
        case Some(n2) => (match InOrder(thn, n2) case None => None case Some(n3) => InOrder(els, n3))
  }

  function InOrderCond(c: Cond, next: nat): Option<nat> {
    match c
    case Compare(a, _, b) => (match InOrder(a, next) case None => None case Some(n) => InOrder(b, n))
    case IsNull(e) => InOrder(e, next)
    case And(p, q) => (match InOrderCond(p, next) case None => None case Some(n) => InOrderCond(q, n))
    case Or(p, q) => (match InOrderCond(p, next) case None => None case Some(n) => InOrderCond(q, n))
  }

  function InOrderSet(set_: Assignments, from: nat, next: nat): Option<nat>
    requires from <= |set_|
    decreases |set_| - from
  {
    if from == |set_| then Some(next)
    else match InOrder(set_[from].1, next) {
      case None => None
      case Some(n) => InOrderSet(set_, from + 1, n)
    }
  }

  /** Reading an expression by position leaves it as it is exactly when its placeholders are
      in order. */
  lemma {:induction false} ExprByPosition(e: Expr, next: nat)
    ensures Renumber(e, next).0 == e <==> InOrder(e, next).Some?
    ensures InOrder(e, next).Some? ==> Renumber(e, next).1 == InOrder(e, next).value
  {
    match e
    case Col(_) =>
    case Lit(_) =>
    case Hole(_) =>
    case PlusOne(a) => ExprByPosition(a, next);
    case Coalesce(a, b) =>
      ExprByPosition(a, next);
      ExprByPosition(b, Renumber(a, next).1);
    case CaseWhen(a, _, b, thn, els) =>
      var n1 := Renumber(a, next).1;
      var n2 := Renumber(b, n1).1;
      ExprByPosition(a, next);
      ExprByPosition(b, n1);
      ExprByPosition(thn, n2);
      ExprByPosition(els, Renumber(thn, n2).1);
  }

  lemma {:induction false} CondByPosition(c: Cond, next: nat)
    ensures RenumberCond(c, next).0 == c <==> InOrderCond(c, next).Some?
    ensures InOrderCond(c, next).Some? ==> RenumberCond(c, next).1 == InOrderCond(c, next).value
  {
    match c
    case Compare(a, _, b) =>
      ExprByPosition(a, next);
      ExprByPosition(b, Renumber(a, next).1);
    case IsNull(e) => ExprByPosition(e, next);
    case And(p, q) =>
      CondByPosition(p, next);
      CondByPosition(q, RenumberCond(p, next).1);
    case Or(p, q) =>
      CondByPosition(p, next);
      CondByPosition(q, RenumberCond(p, next).1);
  }

  lemma {:induction false} SetByPosition(set_: Assignments, from: nat, next: nat)
    requires from <= |set_| && InOrderSet(set_, from, next).Some?
    ensures RenumberSet(set_, from, next) == (set_[from..], InOrderSet(set_, from, next).value)
    decreases |set_| - from
  {
    if from < |set_| {
      ExprByPosition(set_[from].1, next);
      SetByPosition(set_, from + 1, InOrder(set_[from].1, next).value);
      assert set_[from..] == [set_[from]] + set_[from + 1..];
    } else {
      assert set_[from..] == [];
    }
  }

  /** Binding by position and binding by number mean the same statement when the
      placeholders stand in the text in the order their values were collected. */
  lemma PositionsAreNumbers(s: Statement)
    requires InOrderSet(s.set_, 0, 0).Some? && InOrderCond(s.where_, InOrderSet(s.set_, 0, 0).value).Some?
    ensures ByPosition(s) == s
  {
    SetByPosition(s.set_, 0, 0);
    CondByPosition(s.where_, InOrderSet(s.set_, 0, 0).value);
  }

  function ByPosition(s: Statement): Statement {
    var (set_, n) := RenumberSet(s.set_, 0, 0);
    Statement(set_, RenumberCond(s.where_, n).0)
  }
}
