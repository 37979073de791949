/** The audit trail: every run recorded as published rests on a broker call and a
    command row of its own. */
module SchedulerAudit {
  import opened Basics
  import opened Domain
  import opened Schedule
  import opened Scheduler
  import opened SchedulerInvariant

  predicate Names(runs: seq<Run>, command: Id) {
    exists r | r in runs :: r.commandId == Some(command)
  }

  /** The command of a publish that has succeeded but is not yet recorded as a run. */
  function Succeeded(s: State): Option<Id> {
    if !s.loop.Working? then None
    else match s.loop.stage
         case Returned(result) => (match result case Ok(c) => Some(c) case Err(_) => None)
         case Stamped(result, _) => (match result case Ok(c) => Some(c) case Err(_) => None)
         case _ => None
  }

  predicate OwnCommands(runs: seq<Run>) {
    forall i, j :: 0 <= i < j < |runs| && runs[i].commandId.Some? ==> runs[i].commandId != runs[j].commandId
  }

  predicate AuditOk(s: State) {
    OwnCommands(s.db.runs) && (Succeeded(s).Some? ==> !Names(s.db.runs, Succeeded(s).value))
  }

  /** A command that is still pending is named by no run. */
  lemma PendingUnnamed(cfg: Config, s: State, c: Id)
    requires RunsOk(cfg, s) && IsPending(s.db, c)
    ensures !Names(s.db.runs, c)
  {
    assert forall r | r in s.db.runs :: RunOk(cfg, s.db, s.clock, r);
  }

  lemma RunKeepsAudit(s: State, runs: seq<Run>, run: Run)
    requires AuditOk(s) && runs == s.db.runs + [run] && run.commandId == Succeeded(s)
    ensures OwnCommands(runs)
  {
    forall i, j | 0 <= i < j < |runs| && runs[i].commandId.Some?
      ensures runs[i].commandId != runs[j].commandId
    {
      assert runs[i] in s.db.runs;
    }
  }

  lemma StepKeepsAudit(cfg: Config, s: State, step: Step)
    requires Inv(cfg, s) && AuditOk(s) && Enabled(cfg, s, step)
    ensures AuditOk(Next(cfg, s, step))
  {
    hide TasksOk, CommandsOk, IsDueBatch, ValidatePublish, RunIdUsed, FirstRun, ItemOk, RunOk, RunsOrdered;
    if step.FinishRuns? {
      RunKeepsAudit(s, Next(cfg, s, step).db.runs, Next(cfg, s, step).db.runs[|s.db.runs|]);
    } else if step.MarkRouted? {
      PendingUnnamed(cfg, s, s.loop.stage.command);
    }
  }

  // ---------- counting calls ----------

  function PublishedRuns(runs: seq<Run>, id: Id): nat {
    if runs == [] then 0
    else
      var last := runs[|runs| - 1];
      PublishedRuns(runs[..|runs| - 1], id) + (if last.taskId == id && last.commandId.Some? then 1 else 0)
  }

  /** The broker has been called for the task in the run under way, which may yet be
      recorded as published. */
  predicate InFlight(s: State, id: Id) {
    && Busy(s) && s.loop.todo[0].id == id
    && (s.loop.stage.Calling? || s.loop.stage.Refused? || s.loop.stage.Routed? || Succeeded(s).Some?)
  }

  predicate CallsCover(s: State, id: Id) {
    PublishedRuns(s.db.runs, id) + (if InFlight(s, id) then 1 else 0) <= s.calls[id]
  }

  lemma StepKeepsCover(cfg: Config, s: State, step: Step, id: Id)
    requires CallsCover(s, id) && Enabled(cfg, s, step)
    ensures CallsCover(Next(cfg, s, step), id)
  {
    hide IsDueBatch, ValidatePublish, RunIdUsed, FirstRun;
    if step.FinishRuns? {
      PublishedAppend(s.db.runs, Next(cfg, s, step).db.runs[|s.db.runs|], id);
    } else {
      hide PublishedRuns;
    }
  }

  lemma PublishedAppend(runs: seq<Run>, run: Run, id: Id)
    ensures PublishedRuns(runs + [run], id) ==
      PublishedRuns(runs, id) + (if run.taskId == id && run.commandId.Some? then 1 else 0)
  {
    assert (runs + [run])[..|runs|] == runs;
  }

  lemma {:induction false} AuditHolds(cfg: Config, start: Time, steps: seq<Step>, id: Id)
    requires CanRun(cfg, Init(start), steps)
    ensures AuditOk(After(cfg, Init(start), steps)) && CallsCover(After(cfg, Init(start), steps), id)
  {
    if steps != [] {
      hide Inv, Enabled, Next, AuditOk, CallsCover;
      var init := steps[..|steps| - 1];
      var s := After(cfg, Init(start), init);
      AuditHolds(cfg, start, init, id);
      ReachableInv(cfg, s);
      StepKeepsAudit(cfg, s, steps[|steps| - 1]);
      StepKeepsCover(cfg, s, steps[|steps| - 1], id);
    }
  }

  /** No two runs share a command row, and a task has at least as many broker calls as
      runs recorded as published. */
  lemma PublishedRunsHaveOwnCalls(cfg: Config, s: State, id: Id)
    requires Reachable(cfg, s)
    ensures forall i, j :: 0 <= i < j < |s.db.runs| && s.db.runs[i].commandId.Some? ==>
      s.db.runs[i].commandId != s.db.runs[j].commandId
    ensures PublishedRuns(s.db.runs, id) <= s.calls[id]
  {
    var start, steps :| CanRun(cfg, Init(start), steps) && s == After(cfg, Init(start), steps);
    AuditHolds(cfg, start, steps, id);
  }

  // ---------- calling again ----------

  /** The run under way is one of this task and has come to its broker call. */
  predicate Reached(s: State, id: Id) {
    Busy(s) && s.loop.todo[0].id == id && !s.loop.stage.Waiting? && !s.loop.stage.Inserted?
  }

  /** The step drops such a run without recording it: the recording fails or the process
      restarts. */
  predicate Loses(s: State, step: Step, id: Id) {
    Reached(s, id) && (step.FinishFails? || step.Restart?)
  }

  /** How many runs of the task have been lost on the way. */
  ghost function Lost(cfg: Config, s: State, steps: seq<Step>, id: Id): nat
    requires CanRun(cfg, s, steps)
  {
    if steps == [] then 0
    else
      var init := steps[..|steps| - 1];
      Lost(cfg, s, init, id) + (if Loses(After(cfg, s, init), steps[|steps| - 1], id) then 1 else 0)
  }

  predicate CallsWithin(s: State, lost: nat, id: Id) {
    s.calls[id] <= RunsOf(s.db.runs, id) + lost + (if Reached(s, id) then 1 else 0)
  }

  lemma StepKeepsCallsWithin(cfg: Config, s: State, step: Step, lost: nat, id: Id)
    requires CallsWithin(s, lost, id) && Enabled(cfg, s, step)
    ensures CallsWithin(Next(cfg, s, step), if Loses(s, step, id) then lost + 1 else lost, id)
  {
    hide IsDueBatch, ValidatePublish, RunIdUsed, FirstRun;
    if step.FinishRuns? {
      CountAppend(s.db.runs, Next(cfg, s, step).db.runs[|s.db.runs|], id);
    } else {
      hide RunsOf;
    }
  }

  /** A task is put to the broker once for each recorded run, except that it is called
      again after a run was lost before it could be recorded; the run under way may
      account for one call more. */
  lemma {:induction false} CallsAreRecordedOrLost(cfg: Config, start: Time, steps: seq<Step>, id: Id)
    requires CanRun(cfg, Init(start), steps)
    ensures var s := After(cfg, Init(start), steps);
      s.calls[id] <= RunsOf(s.db.runs, id) + Lost(cfg, Init(start), steps, id) + (if Reached(s, id) then 1 else 0)
  {
    if steps != [] {
      hide Enabled, Next, Reached, Loses;
      var init := steps[..|steps| - 1];
      CallsAreRecordedOrLost(cfg, start, init, id);
      var s, last := After(cfg, Init(start), init), steps[|steps| - 1];
      StepKeepsCallsWithin(cfg, s, last, Lost(cfg, Init(start), init, id), id);
    }
  }
}
