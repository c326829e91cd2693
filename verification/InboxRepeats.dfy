/** A message that is not settled can always be handled successfully once more, and by hand
    every message can. */
module InboxRepeats {
  import opened Basics
  import opened InboxTable
  import opened RetrySelection
  import opened InboxEngine
  import opened InboxRuns
  import opened InboxGuarantees

  /** The continuation brings the handler of the row to success once more, and not by hand. */
  ghost predicate Succeeding(s: System, steps: seq<Step>, lim: Limits, id: string)
    requires id in s.inbox.rows
  {
    var key := Identity(s.inbox.rows[id]);
    && CanFollow(s, steps, lim) && Spares(steps, id)
    && Follow(s, steps).successes[key] == s.successes[key] + 1
  }

  /** The steps lead to another state without a success and without a manual retry. */
  ghost predicate Leads(s: System, steps: seq<Step>, lim: Limits, id: string) {
    && CanFollow(s, steps, lim) && Spares(steps, id)
    && var s' := Follow(s, steps);
    && Inv(s', lim) && s'.successes == s.successes
    && (id in s.inbox.rows ==> id in s'.inbox.rows && SameIdentity(s.inbox.rows[id], s'.inbox.rows[id]))
  }

  lemma LeadsOn(s: System, first: seq<Step>, next: seq<Step>, lim: Limits, id: string)
    requires Leads(s, first, lim, id) && Leads(Follow(s, first), next, lim, id)
    ensures Leads(s, first + next, lim, id) && Follow(s, first + next) == Follow(Follow(s, first), next)
  {
    hide Inv, CanFollow, Follow, RetriesByHand;
    FollowOn(s, first, next, lim);
  }

  lemma LeadsToSuccess(s: System, first: seq<Step>, next: seq<Step>, lim: Limits, id: string)
    requires id in s.inbox.rows && Leads(s, first, lim, id) && Succeeding(Follow(s, first), next, lim, id)
    ensures Succeeding(s, first + next, lim, id)
  {
    hide Inv, CanFollow, Follow, RetriesByHand;
    FollowOn(s, first, next, lim);
  }

  lemma OneLeads(s: System, step: Step, lim: Limits, id: string)
    requires Inv(s, lim) && lim.Valid() && CanStep(s, step, lim) && !step.RetryByHand? && After(s, step).successes == s.successes
    ensures Leads(s, [step], lim, id) && Follow(s, [step]) == After(s, step)
  {
    StepKeeps(s, step, lim);
    FollowOne(s, step, lim);
    if id in s.inbox.rows { ProcessedEndsIff(s, step, lim, id); }
    hide Inv, CanFollow, Follow, After, CanStep;
  }

  // ---------------------------------------------------------------- a job reaches its next record

  function Rank(p: Phase): nat {
    match p case Between => 0 case Assigning(_, _, _) => 1 case Catching(_, _, _, _) => 2 case Running(_, _) => 3
  }

  /** Lets the handler throw, the failure write be answered, the assignments happen. */
  function Onward(k: nat, p: Phase): Step {
    match p
    case Running(_, _) => EndHandler(k, Attempt(Throws("failed"), 0, Answered))
    case Catching(_, _, _, _) => WriteFailure(k, Write(0, 0, Answered))
    case _ => AssignRecord(k)
  }

  lemma OneOnward(s: System, k: nat, lim: Limits)
    requires Inv(s, lim) && k in s.jobs && !s.jobs[k].phase.Between?
    ensures var step, t := Onward(k, s.jobs[k].phase), s.jobs[k]; var s' := After(s, step);
      && CanStep(s, step, lim) && !step.RetryByHand? && s'.successes == s.successes
      && k in s'.jobs && s'.jobs[k].rest == t.rest && Rank(s'.jobs[k].phase) < Rank(t.phase)
  {
    JobAt(s, k, lim);
    hide Inv;
  }

  lemma {:induction false} ToBetween(s: System, k: nat, lim: Limits, id: string) returns (steps: seq<Step>)
    requires Inv(s, lim) && lim.Valid() && k in s.jobs
    ensures Leads(s, steps, lim, id)
    ensures var s' := Follow(s, steps);
      k in s'.jobs && s'.jobs[k].phase.Between? && s'.jobs[k].rest == s.jobs[k].rest
    decreases Rank(s.jobs[k].phase)
  {
    if s.jobs[k].phase.Between? {
      steps := [];
    } else {
      var step := Onward(k, s.jobs[k].phase);
      OneOnward(s, k, lim);
      OneLeads(s, step, lim, id);
      hide Leads, After, Inv, Follow;
      assert Inv(After(s, step), lim) by { StepKeeps(s, step, lim); }
      var rest := ToBetween(After(s, step), k, lim, id);
      LeadsOn(s, [step], rest, lim, id);
      steps := [step] + rest;
    }
  }

  /** The handler that is running succeeds. */
  lemma RunsToSuccess(s: System, k: nat, lim: Limits)
    requires Inv(s, lim) && k in s.jobs && s.jobs[k].phase.Running?
    ensures s.jobs[k].phase.id in s.inbox.rows
    ensures Succeeding(s, [EndHandler(k, Attempt(Succeeds, 0, Answered))], lim, s.jobs[k].phase.id)
  {
    var step := EndHandler(k, Attempt(Succeeds, 0, Answered));
    JobAt(s, k, lim);
    FollowOne(s, step, lim);
    hide Inv, CanFollow, Follow;
  }

  /** A record that is waiting in a batch is reached and handled. */
  lemma {:induction false} WaitsForSuccess(s: System, k: nat, lim: Limits, id: string) returns (steps: seq<Step>)
    requires Inv(s, lim) && lim.Valid() && id in s.inbox.rows
    requires k in s.jobs && s.jobs[k].phase.Between? && id in Waiting(s.jobs[k])
    ensures Succeeding(s, steps, lim, id)
    decreases |s.jobs[k].rest|
  {
    var t := s.jobs[k];
    var found := t.rest[0].id == id;
    var step := TakeNext(k, found);
    var s' := After(s, step);
    OneLeads(s, step, lim, id);
    StepKeeps(s, step, lim);
    hide Inv, Leads, Succeeding, Follow, CanFollow;
    var rest;
    if found {
      RunsToSuccess(s', k, lim);
      rest := [EndHandler(k, Attempt(Succeeds, 0, Answered))];
    } else {
      WaitsBehind(t, id);
      rest := WaitsForSuccess(s', k, lim, id);
    }
    LeadsToSuccess(s, [step], rest, lim, id);
    steps := [step] + rest;
  }

  lemma WaitsBehind(t: Job, id: string)
    requires id in Waiting(t) && t.rest[0].id != id
    ensures id in Waiting(Job(Between, t.rest[1..], t.maxRetries))
  {
    var i :| 0 <= i < |t.rest| && t.rest[i].id == id;
    assert t.rest[1..][i - 1].id == id;
  }

  lemma FromBatch(s: System, k: nat, lim: Limits, id: string) returns (steps: seq<Step>)
    requires Inv(s, lim) && lim.Valid() && id in s.inbox.rows && k in s.jobs && id in Waiting(s.jobs[k])
    ensures Succeeding(s, steps, lim, id)
  {
    var first := ToBetween(s, k, lim, id);
    hide Succeeding, Follow, CanFollow, Spares;
    var next := WaitsForSuccess(Follow(s, first), k, lim, id);
    LeadsToSuccess(s, first, next, lim, id);
    steps := first + next;
  }

  // ---------------------------------------------------------------- a row that is not processed

  lemma {:induction false} Listing(names: set<string>) returns (ids: seq<string>)
    ensures Distinct(ids) && Elements(ids) == names
  {
    ids := [];
    if names != {} {
      var x :| x in names;
      var rest := Listing(names - {x});
      assert x !in Elements(rest);
      ids := rest + [x];
      assert Elements(ids) == Elements(rest) + {x};
    }
  }

  lemma {:induction false} Unused(jobs: set<nat>) returns (k: nat)
    ensures k !in jobs && forall j <- jobs :: j < k
  {
    k := 0;
    if jobs != {} {
      var x :| x in jobs;
      var rest := Unused(jobs - {x});
      k := if rest <= x then x + 1 else rest;
      assert forall j <- jobs :: j == x || j in jobs - {x};
    }
  }

  /** A batch large and late enough holds the open row. */
  lemma DueTogether(s: System, k: nat, lim: Limits, id: string) returns (open: Step)
    requires Inv(s, lim) && lim.Valid() && k !in s.jobs && id in s.inbox.rows && IsOpen(s.inbox.rows[id])
    ensures CanStep(s, open, lim) && open.OpenBatch? && open.job == k
    ensures s.inbox.rows[id] in open.batch && s.inbox.rows[id].id == id
  {
    var rows, row := s.inbox.rows, s.inbox.rows[id];
    var ids := Listing(rows.Keys);
    assert forall i <- ids :: i in Elements(ids);
    CodeUnitsAreStrictTotal(rows.Keys);
    var now := DueTime(row);
    RowAt(s, id, lim);
    assert IsDue(row, now, Some(now));
    var due := DueRows(Less, rows, ids, now, Some(now));
    DueRowsAreSorted(Less, rows, ids, now, Some(now));
    assert id in Elements(ids) && rows[id].id == id;
    FirstDueRowsAreSelected(Less, rows, ids, |due|, now, Some(now));
    open := OpenBatch(k, Less, due, |due|, now, Some(now), lim.greatest);
  }

  lemma FromOpenRow(s: System, lim: Limits, id: string) returns (steps: seq<Step>)
    requires Inv(s, lim) && lim.Valid() && id in s.inbox.rows && IsOpen(s.inbox.rows[id])
    ensures Succeeding(s, steps, lim, id)
  {
    var k := Unused(s.jobs.Keys);
    var open := DueTogether(s, k, lim, id);
    OneLeads(s, open, lim, id);
    StepKeeps(s, open, lim);
    hide Inv, CanStep, Succeeding, Leads, Follow, CanFollow;
    var next := WaitsForSuccess(After(s, open), k, lim, id);
    LeadsToSuccess(s, [open], next, lim, id);
    steps := [open] + next;
  }

  /** A dead-lettered row is requeued first. */
  lemma FromRow(s: System, lim: Limits, id: string) returns (steps: seq<Step>)
    requires Inv(s, lim) && lim.Valid() && id in s.inbox.rows && s.inbox.rows[id].status != Processed
    ensures Succeeding(s, steps, lim, id)
  {
    var requeue := RequeueRow(id, 0);
    RowAt(s, id, lim);
    StepKeeps(s, requeue, lim);
    OneLeads(s, requeue, lim, id);
    hide Inv, CanStep, Succeeding, Leads, Follow, CanFollow;
    var next := FromOpenRow(After(s, requeue), lim, id);
    LeadsToSuccess(s, [requeue], next, lim, id);
    steps := [requeue] + next;
  }

  /** A failure write to come, or the late assignments of one, reopen a processed row. */
  lemma FromFailure(s: System, k: nat, lim: Limits, id: string) returns (steps: seq<Step>)
    requires Inv(s, lim) && lim.Valid() && id in s.inbox.rows && s.inbox.rows[id].status == Processed
    requires k in s.jobs && Threatens(s.jobs[k], id) && (s.jobs[k].phase.Catching? || s.jobs[k].phase.Assigning?)
    requires s.jobs[k].phase.id == id && id !in Waiting(s.jobs[k])
    ensures Succeeding(s, steps, lim, id)
  {
    var step := Onward(k, s.jobs[k].phase);
    JobAt(s, k, lim);
    OneOnward(s, k, lim);
    StepKeeps(s, step, lim);
    ProcessedEndsIff(s, step, lim, id);
    OneLeads(s, step, lim, id);
    hide Inv, CanStep, After, Succeeding, Leads, Follow, CanFollow;
    var next := FromRow(After(s, step), lim, id);
    LeadsToSuccess(s, [step], next, lim, id);
    steps := [step] + next;
  }

  /** From every state in which a stored message is not settled, some continuation without a
      manual retry runs its handler to success once more. */
  lemma AnotherSuccess(s: System, lim: Limits, id: string) returns (steps: seq<Step>)
    requires Inv(s, lim) && lim.Valid() && id in s.inbox.rows && !Settled(s, Identity(s.inbox.rows[id]))
    ensures CanFollow(s, steps, lim) && Spares(steps, id)
    ensures var key := Identity(s.inbox.rows[id]);
      Follow(s, steps).successes[key] == s.successes[key] + 1
  {
    EntryOf(s.inbox, id);
    hide Inv, CanFollow, Follow, Spares;
    if s.inbox.rows[id].status != Processed {
      steps := FromRow(s, lim, id);
    } else {
      var k :| k in s.jobs && Threatens(s.jobs[k], id);
      if id in Waiting(s.jobs[k]) {
        steps := FromBatch(s, k, lim, id);
      } else if s.jobs[k].phase.Running? {
        RunsToSuccess(s, k, lim);
        steps := [EndHandler(k, Attempt(Succeeds, 0, Answered))];
      } else {
        steps := FromFailure(s, k, lim, id);
      }
    }
  }

  ghost predicate NeverAgain(s: System, lim: Limits, id: string)
    requires id in s.inbox.rows
  {
    var key := Identity(s.inbox.rows[id]);
    forall steps :: CanFollow(s, steps, lim) && Spares(steps, id) ==> Follow(s, steps).successes[key] == s.successes[key]
  }

  /** At every moment of every run, no continuation without a manual retry of a stored message
      brings its handler to success again exactly when the message is settled: its row is
      processed, no job has a handler of it running or waiting, and no failure write and no
      late assignments of one are to come. */
  lemma NeverAgainIffSettled(steps: seq<Step>, lim: Limits, id: string)
    requires IsRun(steps, lim) && id in End(steps).inbox.rows
    ensures NeverAgain(End(steps), lim, id) <==> Settled(End(steps), Identity(End(steps).inbox.rows[id]))
  {
    RunKeeps(steps, lim);
    var s := End(steps);
    var key := Identity(s.inbox.rows[id]);
    EntryOf(s.inbox, id);
    hide Inv, Settled, CanFollow, Follow, IsRun, Spares;
    if Settled(s, key) {
      forall more | CanFollow(s, more, lim) && Spares(more, id) ensures Follow(s, more).successes[key] == s.successes[key] {
        SettledForGood(s, more, lim, key);
      }
    } else {
      var more := AnotherSuccess(s, lim, id);
    }
  }

  /** A manual retry, which takes rows of any status, can bring every stored message's handler
      to success once more at every moment of every run. */
  lemma AgainByHand(steps: seq<Step>, lim: Limits, id: string) returns (more: seq<Step>)
    requires IsRun(steps, lim) && id in End(steps).inbox.rows
    ensures |more| == 2 && RetriesByHand(more[0], id) && CanFollow(End(steps), more, lim)
    ensures var key := Identity(End(steps).inbox.rows[id]);
      Follow(End(steps), more).successes[key] == End(steps).successes[key] + 1
  {
    RunKeeps(steps, lim);
    var s := End(steps);
    var k := Unused(s.jobs.Keys);
    var retry, end := RetryByHand(k, id, false, lim.greatest), EndHandler(k, Attempt(Succeeds, 0, Answered));
    var s1 := After(s, retry);
    StepKeeps(s, retry, lim);
    FollowOne(s, retry, lim);
    hide Inv, CanFollow, Follow, IsRun, End;
    RunsToSuccess(s1, k, lim);
    FollowOn(s, [retry], [end], lim);
    more := [retry] + [end];
  }
}
