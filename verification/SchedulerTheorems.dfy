/** What the scheduled-publish engine guarantees, over every run. */
module SchedulerTheorems {
  import opened Basics
  import opened Domain
  import opened Schedule
  import opened Slots
  import opened Scheduler
  import opened SchedulerInvariant

  // ---------- the run history ----------

  /** Every recorded run is a genuine run time of its task, reached before the run
      started; the runs of one task are strictly increasing in every respect and do not
      overlap. A run time that passed while an earlier run was late or in progress is
      never recorded, so missed slots collapse into one catch-up run. */
  lemma RunHistory(cfg: Config, s: State, i: nat, j: nat)
    requires Reachable(cfg, s)
    requires i <= j < |s.db.runs| && s.db.runs[i].taskId == s.db.runs[j].taskId
    ensures var a, b := s.db.runs[i], s.db.runs[j];
      && a.scheduledFor <= a.startedAt <= a.finishedAt <= s.clock
      && b.scheduledFor <= b.startedAt <= b.finishedAt <= s.clock
      && (i < j ==> a.finishedAt < b.scheduledFor)
      && a.taskId in s.db.tasks
      && var cmd := Decode(s.db.tasks[a.taskId].command);
      && IsRunTime(cmd, cfg.zones, a.scheduledFor) && IsRunTime(cmd, cfg.zones, b.scheduledFor)
  {
    ReachableInv(cfg, s);
    assert RunOk(cfg, s.db, s.clock, s.db.runs[i]) && RunOk(cfg, s.db, s.clock, s.db.runs[j]);
  }

  /** Recording a run of an active recurring task schedules it for the first slot after
      the run finished; a one-time task is settled instead. */
  lemma AfterARun(cfg: Config, s: State, runId: Id)
    requires Reachable(cfg, s) && Enabled(cfg, s, FinishRuns(runId))
    requires s.loop.todo[0].id in s.db.tasks && s.db.tasks[s.loop.todo[0].id].status.Active?
    ensures var id := s.loop.todo[0].id;
      var cmd := Decode(s.db.tasks[id].command);
      var stage := s.loop.stage;
      var db := Next(cfg, s, FinishRuns(runId)).db;
      var row := db.tasks[id];
      && row.runCount == s.db.tasks[id].runCount + 1
      && Some(db.runs[|s.db.runs|].scheduledFor) == s.db.tasks[id].nextRunAt
      && (cmd.kind.Once? ==> row.status == (if stage.result.Ok? then Completed else Failed) && row.nextRunAt == None)
      && row.lastRunAt == Some(stage.finishedAt) && row.updatedAt == stage.finishedAt
      && (!cmd.kind.Once? ==>
            && row.status == Active
            && Ok(row.nextRunAt.value) == NextRun(cmd, stage.finishedAt, cfg.zones)
            && (cmd.kind.Daily? || cmd.kind.Weekly?)
            && RuleOf(cmd, cfg.zones).Ok?
            && row.nextRunAt.Some?
            && IsNextSlot(RuleOf(cmd, cfg.zones).value, stage.finishedAt, row.nextRunAt.value))
  {
    ReachableInv(cfg, s);
    var item := s.loop.todo[0];
    assert ItemOk(cfg, s.db, s.loop.startedAt, item);
    assert TaskOk(cfg, s.db, item.id);
    RunAfterSucceeds(cfg, item.task.command, s.loop.stage.finishedAt);
  }

  // ---------- statuses ----------

  /** In every reachable state: a task is active exactly while it has a next run, that
      run is a run time later than everything recorded, and only one-time tasks are
      ever completed or failed, so a recurring task never stops by itself. */
  lemma TaskStatuses(cfg: Config, s: State, id: Id)
    requires Reachable(cfg, s) && id in s.db.tasks
    ensures var row := s.db.tasks[id];
      var cmd := Decode(row.command);
      && (row.status.Active? <==> row.nextRunAt.Some?)
      && (row.status.Active? ==>
            && IsRunTime(cmd, cfg.zones, row.nextRunAt.value)
            && forall r | r in s.db.runs && r.taskId == id :: r.finishedAt < row.nextRunAt.value)
      && (cmd.kind.Daily? || cmd.kind.Weekly? ==> row.status.Active? || row.status.Canceled?)
  {
    ReachableInv(cfg, s);
    assert TaskOk(cfg, s.db, id);
  }

  /** Content checked when a task is created is never rejected when it is published. */
  lemma StoredContentIsValid(cfg: Config, s: State)
    requires Reachable(cfg, s)
    ensures !Enabled(cfg, s, Invalid)
  {
    ReachableInv(cfg, s);
    if Busy(s) {
      HeadIsAccepted(cfg, s);
    }
  }

  lemma HeadIsAccepted(cfg: Config, s: State)
    requires TasksOk(cfg, s.db) && LoopOk(cfg, s) && Busy(s)
    ensures Accepted(cfg, s.loop.todo[0].task.command)
  {
    assert ItemOk(cfg, s.db, s.loop.startedAt, s.loop.todo[0]);
    assert TaskOk(cfg, s.db, s.loop.todo[0].id);
  }

  /** A run recorded as published names a command row marked as published, with the
      time; any other run names none. */
  lemma PublishedRunsAreAudited(cfg: Config, s: State, r: Run)
    requires Reachable(cfg, s) && r in s.db.runs
    ensures r.status.RunPublished? <==> r.commandId.Some?
    ensures r.commandId.Some? ==>
      && r.commandId.value in s.db.commands
      && s.db.commands[r.commandId.value].status == Published
      && s.db.commands[r.commandId.value].publishedAt.Some?
  {
    ReachableInv(cfg, s);
    assert RunOk(cfg, s.db, s.clock, r);
  }

  /** No step brings a task back to active, a canceled task stays canceled, and the
      command a task was created with never changes. */
  lemma StepNeverRevives(cfg: Config, s: State, step: Step, id: Id)
    requires Enabled(cfg, s, step) && id in s.db.tasks
    ensures var s' := Next(cfg, s, step);
      && id in s'.db.tasks
      && s'.db.tasks[id].command == s.db.tasks[id].command
      && (s'.db.tasks[id].status.Active? ==> s.db.tasks[id].status.Active?)
      && (s.db.tasks[id].status.Canceled? ==> s'.db.tasks[id].status.Canceled?)
  {
    hide IsDueBatch, ValidatePublish, FirstRun, RunIdUsed, Outcome, Encode;
  }

  /** A command row, once marked, is never written again. */
  lemma StepKeepsMarks(cfg: Config, s: State, step: Step, c: Id)
    requires Inv(cfg, s) && Enabled(cfg, s, step)
    requires c in s.db.commands && !s.db.commands[c].status.Pending?
    ensures c in Next(cfg, s, step).db.commands && Next(cfg, s, step).db.commands[c] == s.db.commands[c]
  {
    hide TasksOk, RunsOk, ItemOk, CommandOk, IsDueBatch, ValidatePublish, FirstRun, RunIdUsed, Outcome;
    hide Encode, DistinctItems;
  }

  /** Over any further run: settled tasks stay settled, cancellation is final, and each
      command row leaves pending at most once. */
  lemma {:induction false} NothingRevives(cfg: Config, s: State, steps: seq<Step>)
    requires Inv(cfg, s) && CanRun(cfg, s, steps)
    ensures var s' := After(cfg, s, steps);
      && (forall id | id in s.db.tasks ::
            && id in s'.db.tasks
            && (s'.db.tasks[id].status.Active? ==> s.db.tasks[id].status.Active?)
            && (s.db.tasks[id].status.Canceled? ==> s'.db.tasks[id].status.Canceled?))
      && (forall c | c in s.db.commands && !s.db.commands[c].status.Pending? ::
            c in s'.db.commands && s'.db.commands[c] == s.db.commands[c])
  {
    if steps != [] {
      var init, last := steps[..|steps| - 1], steps[|steps| - 1];
      var mid := After(cfg, s, init);
      NothingRevives(cfg, s, init);
      RunKeepsInv(cfg, s, init);
      forall id | id in s.db.tasks
        ensures id in Next(cfg, mid, last).db.tasks
        ensures Next(cfg, mid, last).db.tasks[id].status.Active? ==> s.db.tasks[id].status.Active?
        ensures s.db.tasks[id].status.Canceled? ==> Next(cfg, mid, last).db.tasks[id].status.Canceled?
      {
        StepNeverRevives(cfg, mid, last, id);
      }
      forall c | c in s.db.commands && !s.db.commands[c].status.Pending?
        ensures c in Next(cfg, mid, last).db.commands && Next(cfg, mid, last).db.commands[c] == s.db.commands[c]
      {
        StepKeepsMarks(cfg, mid, last, c);
      }
    }
  }

  // ---------- run accounting ----------

  /** Recorded runs that the task's own counter does not show. */
  function Surplus(db: Db, id: Id): int
    requires id in db.tasks
  {
    RunsOf(db.runs, id) - db.tasks[id].runCount
  }

  /** The counter is exact except after a cancellation, where one more run may have
      been recorded; a one-time task runs at most once. */
  lemma RunAccounting(cfg: Config, s: State, id: Id)
    requires Reachable(cfg, s) && id in s.db.tasks
    ensures 0 <= Surplus(s.db, id) <= 1
    ensures Surplus(s.db, id) == 1 ==> s.db.tasks[id].status.Canceled?
    ensures s.db.tasks[id].command.kind.Once? ==> RunsOf(s.db.runs, id) <= 1 && s.db.tasks[id].runCount <= 1
  {
    ReachableInv(cfg, s);
    assert TaskOk(cfg, s.db, id);
  }

  /** The surplus arises in exactly one way: a run already in flight is recorded after
      its task was canceled. */
  lemma SurplusArises(cfg: Config, s: State, step: Step, id: Id)
    requires Inv(cfg, s) && Enabled(cfg, s, step) && id in s.db.tasks
    ensures id in Next(cfg, s, step).db.tasks
    ensures Surplus(Next(cfg, s, step).db, id) == Surplus(s.db, id) +
      (if step.FinishRuns? && s.loop.todo[0].id == id && s.db.tasks[id].status.Canceled? then 1 else 0)
  {
    if step.FinishRuns? {
      HeadIsActiveOrCanceled(cfg, s);
      SurplusOfFinish(cfg, s, step, id);
    } else {
      SurplusUnchanged(cfg, s, step, id);
    }
  }

  lemma HeadIsActiveOrCanceled(cfg: Config, s: State)
    requires LoopOk(cfg, s) && Busy(s)
    ensures var id := s.loop.todo[0].id;
      id in s.db.tasks && (s.db.tasks[id].status.Active? || s.db.tasks[id].status.Canceled?)
  {
    assert ItemOk(cfg, s.db, s.loop.startedAt, s.loop.todo[0]);
  }

  lemma SurplusOfFinish(cfg: Config, s: State, step: Step, id: Id)
    requires Enabled(cfg, s, step) && step.FinishRuns? && id in s.db.tasks
    requires s.loop.todo[0].id in s.db.tasks
    requires var head := s.db.tasks[s.loop.todo[0].id]; head.status.Active? || head.status.Canceled?
    ensures id in Next(cfg, s, step).db.tasks
    ensures Surplus(Next(cfg, s, step).db, id) == Surplus(s.db, id) +
      (if s.loop.todo[0].id == id && s.db.tasks[id].status.Canceled? then 1 else 0)
  {
    CountAppend(s.db.runs, Next(cfg, s, step).db.runs[|s.db.runs|], id);
  }

  lemma SurplusUnchanged(cfg: Config, s: State, step: Step, id: Id)
    requires Enabled(cfg, s, step) && !step.FinishRuns? && id in s.db.tasks
    ensures id in Next(cfg, s, step).db.tasks
    ensures Surplus(Next(cfg, s, step).db, id) == Surplus(s.db, id)
  {
    hide IsDueBatch, ValidatePublish, FirstRun, RunIdUsed, Outcome, Encode, RunsOf;
  }

  // ---------- the cancel race ----------

  /** Position `i` of the batch still needs its broker call. */
  predicate CallDue(s: State, i: nat)
    requires s.loop.Working? && i < |s.loop.todo|
  {
    i > 0 || s.loop.stage.Waiting? || s.loop.stage.Inserted?
  }

  /** The batch still holds a broker call for the task. */
  predicate CallAhead(s: State, id: Id) {
    s.loop.Working? && exists i :: 0 <= i < |s.loop.todo| && s.loop.todo[i].id == id && CallDue(s, i)
  }

  function CallsAhead(s: State, id: Id): nat { if CallAhead(s, id) then 1 else 0 }

  lemma CallReached(cfg: Config, s: State, id: Id)
    requires Enabled(cfg, s, Call) && DistinctItems(s.loop.todo)
    ensures var s' := Next(cfg, s, Call); s'.calls[id] + CallsAhead(s', id) <= s.calls[id] + CallsAhead(s, id)
  {
    var s' := Next(cfg, s, Call);
    if s.loop.todo[0].id == id {
      assert CallDue(s, 0) && CallAhead(s, id);
      assert !CallAhead(s', id);
    } else if CallAhead(s', id) {
      var i :| 0 <= i < |s'.loop.todo| && s'.loop.todo[i].id == id && CallDue(s', i);
      assert s.loop.todo[i].id == id && CallDue(s, i);
    }
  }

  /** The due query does not return canceled tasks. */
  lemma QueryLeavesCanceled(cfg: Config, s: State, step: Step, id: Id)
    requires Enabled(cfg, s, step) && step.Query?
    requires id in s.db.tasks && s.db.tasks[id].status.Canceled?
    ensures Next(cfg, s, step).calls == s.calls
    ensures !CallAhead(Next(cfg, s, step), id)
  {
    forall i | 0 <= i < |step.ids|
      ensures step.ids[i] != id
    {
      assert IsDue(s.db, s.loop.now, step.ids[i]);
    }
  }

  lemma CallNotBrought(cfg: Config, s: State, step: Step, id: Id)
    requires Enabled(cfg, s, step) && !step.Call? && !step.Query?
    ensures Next(cfg, s, step).calls == s.calls
    ensures CallAhead(Next(cfg, s, step), id) ==> CallAhead(s, id)
  {
    var s' := Next(cfg, s, step);
    if CallAhead(s', id) {
      var i :| 0 <= i < |s'.loop.todo| && s'.loop.todo[i].id == id && CallDue(s', i);
      var k := if step.FinishRuns? || step.FinishFails? then i + 1 else i;
      assert s.loop.todo[k].id == id && CallDue(s, k);
    }
  }

  lemma CanceledStep(cfg: Config, s: State, step: Step, id: Id)
    requires LoopOk(cfg, s) && Enabled(cfg, s, step)
    requires id in s.db.tasks && s.db.tasks[id].status.Canceled?
    ensures var s' := Next(cfg, s, step); s'.calls[id] + CallsAhead(s', id) <= s.calls[id] + CallsAhead(s, id)
  {
    hide CallAhead, Next, IsDueBatch;
    if step.Call? {
      CallReached(cfg, s, id);
    } else if step.Query? {
      QueryLeavesCanceled(cfg, s, step, id);
    } else {
      CallNotBrought(cfg, s, step, id);
    }
  }

  /** However the run goes on, a canceled task is put to the broker at most once more,
      and only if the batch being worked on had read it before the cancellation and had
      not reached it. */
  lemma {:induction false} CancelRace(cfg: Config, s: State, steps: seq<Step>, id: Id)
    requires Inv(cfg, s) && CanRun(cfg, s, steps)
    requires id in s.db.tasks && s.db.tasks[id].status.Canceled?
    ensures var s' := After(cfg, s, steps);
      s'.calls[id] + CallsAhead(s', id) <= s.calls[id] + CallsAhead(s, id)
  {
    hide Enabled, Next, CallsAhead, TasksOk, RunsOk, CommandsOk, LoopOk;
    if steps != [] {
      var init, last := steps[..|steps| - 1], steps[|steps| - 1];
      CancelRace(cfg, s, init, id);
      RunKeepsInv(cfg, s, init);
      NothingRevives(cfg, s, init);
      CanceledStep(cfg, After(cfg, s, init), last, id);
    }
  }
}
