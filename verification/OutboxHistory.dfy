/** What has happened to the outbox so far, and what that history says about one claim.
    A history is the list of store writes and emissions, oldest first. */
module OutboxHistory {
  import opened Basics
  import opened OutboxStore

  /** What the engine's completion diagnostic says, computed from the worker's own copy of
      the row (libs/cap-core/src/engine/cap-engine.ts:889-946, 1029-1057). */
  datatype Report = PublishedReport(retryCount: nat) | FailureReport(retryCount: nat, deadLettered: bool)

  datatype Event =
    | Saved(id: string)
    | ManuallyRequeued(id: string)
    | Claimed(token: string, copies: seq<Row>)
    | Renewed(id: string, token: string, until: Time)
    | EmitStarted(id: string, token: string, at: Time, deadline: Time)
    | EmitFulfilled(id: string, token: string)
    // `maxRetries` is the writer's own maximum
    | Settled(id: string, token: string, published: bool, before: Row, after: Row, maxRetries: int, report: Report)
    | Overwritten(id: string, failed: bool)   // a completion write without an owner

  datatype History = Start | Then(past: History, last: Event)

  /** `p` is what had happened at some earlier (or the present) moment of `h`. */
  ghost predicate Moment(p: History, h: History) {
    p == h || (h.Then? && Moment(p, h.past))
  }

  function CopyOf(copies: seq<Row>, id: string): Option<Row> {
    if |copies| == 0 then None
    else if copies[0].id == id then Some(copies[0])
    else CopyOf(copies[1..], id)
  }

  /** The row as `token` claimed it, if it did. */
  function ClaimCopy(h: History, id: string, token: string): Option<Row> {
    match h
    case Start => None
    case Then(past, Claimed(t, copies)) =>
      if t == token && CopyOf(copies, id).Some? then CopyOf(copies, id) else ClaimCopy(past, id, token)
    case Then(past, _) => ClaimCopy(past, id, token)
  }

  /** The deadline of `token`'s lease on the row, as last granted. */
  function Deadline(h: History, id: string, token: string): Option<Time> {
    match h
    case Start => None
    case Then(past, Claimed(t, copies)) =>
      if t == token && CopyOf(copies, id).Some? then CopyOf(copies, id).value.lockedUntil
      else Deadline(past, id, token)
    case Then(past, Renewed(i, t, until)) =>
      if i == id && t == token then Some(until) else Deadline(past, id, token)
    case Then(past, _) => Deadline(past, id, token)
  }

  /** No unfenced write has hit the row since `token` claimed it. */
  predicate Intact(h: History, id: string, token: string) {
    match h
    case Start => true
    case Then(past, Claimed(t, copies)) =>
      (t == token && CopyOf(copies, id).Some?) || Intact(past, id, token)
    case Then(past, Overwritten(i, _)) => i != id && Intact(past, id, token)
    case Then(past, _) => Intact(past, id, token)
  }

  predicate StartedIn(h: History, id: string, token: string) {
    h.Then? && (StartedIn(h.past, id, token) ||
                (h.last.EmitStarted? && h.last.id == id && h.last.token == token))
  }

  predicate FulfilledIn(h: History, id: string, token: string) {
    h.Then? && (FulfilledIn(h.past, id, token) || h.last == EmitFulfilled(id, token))
  }

  predicate SettledIn(h: History, id: string, token: string) {
    h.Then? && (SettledIn(h.past, id, token) ||
                (h.last.Settled? && h.last.id == id && h.last.token == token))
  }

  /** Failures recorded for the row since it was saved or last requeued by hand. */
  function Failures(h: History, id: string): nat {
    match h
    case Start => 0
    case Then(past, Saved(i)) => if i == id then 0 else Failures(past, id)
    case Then(past, ManuallyRequeued(i)) => if i == id then 0 else Failures(past, id)
    case Then(past, Settled(i, _, published, _, _, _, _)) =>
      Failures(past, id) + if i == id && !published then 1 else 0
    case Then(past, Overwritten(i, failed)) =>
      Failures(past, id) + if i == id && failed then 1 else 0
    case Then(past, _) => Failures(past, id)
  }

  function Completions(h: History): nat {
    if h.Start? then 0 else Completions(h.past) + if h.last.Settled? then 1 else 0
  }

  lemma {:induction false} CopyOfFinds(copies: seq<Row>, id: string)
    ensures CopyOf(copies, id).Some? <==> exists k :: 0 <= k < |copies| && copies[k].id == id
    ensures CopyOf(copies, id).Some? ==> CopyOf(copies, id).value in copies && CopyOf(copies, id).value.id == id
  {
    if |copies| > 0 && copies[0].id != id {
      CopyOfFinds(copies[1..], id);
      assert forall k :: 0 < k < |copies| ==> copies[k] == copies[1..][k - 1];
    }
  }
}
