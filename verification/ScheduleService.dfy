/** internal/service/scheduled_publish.go and internal/service/publish.go over the
    store. Between any two statements other requests may act; what they do, and what
    fails, is part of each method's input. Every execution is proved to be a run of
    the machine in Scheduler, so everything proved of that machine holds of it. */
module ScheduleService {
  import opened Basics
  import opened Domain
  import opened Schedule
  import opened Scheduler
  import opened SchedulerInvariant
  import opened ScheduleStore
  import SchedulerProgress

  /** What befalls one call of `runOne`: the identifiers it draws, the statements that
      fail, and what happens around it in each gap. */
  datatype Turn = Turn(
    beforeInsert: seq<Step>, commandId: Id, insertFails: bool,
    beforeCall: seq<Step>, duringCall: seq<Step>, brokerError: Option<string>,
    beforeMark: seq<Step>, markFails: bool,
    beforeStamp: seq<Step>, beforeFinish: seq<Step>, runId: Id, finishFault: TxFault)

  /** Every turn's final transaction goes through, with a run id of its own. */
  ghost predicate AllRecorded(runs: seq<Run>, turns: nat -> Turn) {
    && (forall i :: turns(i).finishFault.NoFault?)
    && (forall i, j :: turns(i).runId == turns(j).runId ==> i == j)
    && (forall i, r | r in runs :: turns(i).runId != r.id)
  }

  /** After `runs` before, exactly one run for each of the first `n` turns. */
  ghost predicate RunsOfTurns(before: seq<Run>, runs: seq<Run>, turns: nat -> Turn, n: nat) {
    && |runs| == |before| + n
    && runs[..|before|] == before
    && forall m :: |before| <= m < |runs| ==> runs[m].id == turns(m - |before|).runId
  }

  /** From one history to the next there are only steps of a poll in which every run is
      recorded, and of other requests. */
  predicate CleanSince(before: seq<Step>, after: seq<Step>) {
    before <= after && forall i | |before| <= i < |after| :: SchedulerProgress.Clean(after[i])
  }

  /** What was left of the overdue tasks before the steps of a poll and what is after them. */
  ghost predicate WorksOff(cfg: Config, before: Db, after: Db, steps: seq<Step>, limit: nat, clock: Time) {
    forall cutoff | cutoff <= clock ::
      |SchedulerProgress.Overdue(after, cutoff)| <=
        SchedulerProgress.LeftOver(|SchedulerProgress.Overdue(before, cutoff)|, limit)
        + SchedulerProgress.Early(cfg, steps, cutoff)
  }

  /** A clean poll works off overdue tasks at the end of whatever history it comes. */
  lemma PollWorksOff(cfg: Config, start: Time, past: seq<Step>, poll: SchedulerProgress.Segment, limit: nat)
    requires poll.Poll? && SchedulerProgress.WellFormed(poll)
    requires CanRun(cfg, Init(start), past + SchedulerProgress.StepsOf(poll, limit))
    requires After(cfg, Init(start), past + SchedulerProgress.StepsOf(poll, limit)).loop.Idle?
    ensures CanRun(cfg, Init(start), past)
    ensures var steps := SchedulerProgress.StepsOf(poll, limit);
      var s, s' := After(cfg, Init(start), past), After(cfg, Init(start), past + steps);
      WorksOff(cfg, s.db, s'.db, steps, limit, s.clock)
  {
    hide Enabled, Next, Inv, SchedulerProgress.Overdue, SchedulerProgress.Early, SchedulerProgress.WellFormed;
    SchedulerProgress.RunAppend(cfg, Init(start), past, SchedulerProgress.StepsOf(poll, limit));
    var s := After(cfg, Init(start), past);
    ReachableInv(cfg, s);
    forall cutoff | cutoff <= s.clock
      ensures |SchedulerProgress.Overdue(After(cfg, s, SchedulerProgress.StepsOf(poll, limit)).db, cutoff)| <=
        SchedulerProgress.LeftOver(|SchedulerProgress.Overdue(s.db, cutoff)|, limit)
        + SchedulerProgress.Early(cfg, SchedulerProgress.StepsOf(poll, limit), cutoff)
    {
      SchedulerProgress.PollTakes(cfg, s, poll, limit, cutoff);
    }
  }

  /** A history that grows by a clock reading, a query and clean steps grows by a poll. */
  lemma PollOf(past: seq<Step>, waited: seq<Step>, steps: seq<Step>, ids: seq<Id>, limit: nat)
    returns (poll: SchedulerProgress.Segment)
    requires CleanSince(past + [ReadClock], waited) && CleanSince(waited + [Query(limit, ids)], steps)
    ensures poll.Poll? && SchedulerProgress.WellFormed(poll)
    ensures steps == past + SchedulerProgress.StepsOf(poll, limit)
  {
    var before, after := waited[|past| + 1..], steps[|waited| + 1..];
    poll := SchedulerProgress.Poll(before, ids, after);
    assert forall step | step in before :: SchedulerProgress.Clean(step);
    assert forall step | step in after :: SchedulerProgress.Clean(step);
    assert waited == past + [ReadClock] + before;
    assert steps == waited + [Query(limit, ids)] + after;
  }

  /** A restart after some time: the tables stay, the loop and open requests are gone. */
  lemma StartedAgain(cfg: Config, start: Time, past: seq<Step>, clock: Time)
    requires CanRun(cfg, Init(start), past) && After(cfg, Init(start), past).clock <= clock
    ensures var s := After(cfg, Init(start), past);
      var steps := past + [Tick(clock - s.clock), Restart];
      && CanRun(cfg, Init(start), steps)
      && After(cfg, Init(start), steps) == State(s.db, clock, Idle, {}, s.calls)
  {
    hide CanRun, After;
    var s := After(cfg, Init(start), past);
    var tick := Tick(clock - s.clock);
    RunOneMore(cfg, Init(start), past, tick);
    RunOneMore(cfg, Init(start), past + [tick], Restart);
    assert past + [tick] + [Restart] == past + [tick, Restart];
  }

  /** The task of an accepted request, field by field. */
  predicate IsAsRequested(task: Task<Weekdays>, cmd: Command<Weekdays>, first: Time, now: Time) {
    && task.command.deviceId == cmd.deviceId && task.command.name == cmd.name
    && task.command.publish.adminUserId == cmd.publish.adminUserId
    && task.command.publish.topic == cmd.publish.topic && task.command.publish.payload == cmd.publish.payload
    && task.command.publish.qos == cmd.publish.qos && task.command.publish.retain == cmd.publish.retain
    && task.command.kind == cmd.kind && task.command.runAt == cmd.runAt
    && task.command.timeOfDay == cmd.timeOfDay && task.command.weekdays == cmd.weekdays
    && task.command.timezone == (if cmd.timezone == "" then "Asia/Hong_Kong" else cmd.timezone)
    && task.status == Active && task.nextRunAt == Some(first) && task.lastRunAt == None
    && task.lastError == "" && task.runCount == 0 && task.createdAt == now && task.updatedAt == now
  }

  lemma NewTaskAsRequested(cmd: Command<Weekdays>, first: Time, now: Time)
    ensures IsAsRequested(NewTask(cmd, first, now), cmd, first, now)
  {
  }

  /** One round of the polling loop. */
  datatype Poll = Poll(beforeQuery: seq<Step>, queryFails: bool, turns: nat -> Turn, beforeTick: seq<Step>)

  class ScheduledPublishService {
    const cfg: Config
    const store: Store
    var clock: Time
    /** Publish requests of administrators that have not returned. */
    var callers: set<Id>
    ghost var loop: Loop
    ghost var calls: multiset<Id>
    ghost const start: Time
    ghost var steps: seq<Step>

    ghost function Sys(): State
      reads this, store
    {
      State(store.Tables(), clock, loop, callers, calls)
    }

    /** The history of this service is a run of the machine that ends in its state. */
    ghost predicate Valid()
      reads this, store
    {
      CanRun(cfg, Init(start), steps) && After(cfg, Init(start), steps) == Sys()
    }

    /** A start of the server over the tables as earlier processes left them, at a time not
        before theirs. With no past, the tables are empty. */
    constructor (cfg: Config, store: Store, clock: Time, ghost start: Time, ghost past: seq<Step>)
      requires CanRun(cfg, Init(start), past)
      requires After(cfg, Init(start), past).db == store.Tables() && After(cfg, Init(start), past).clock <= clock
      ensures Valid() && this.cfg == cfg && this.store == store && this.clock == clock && this.start == start
      ensures loop.Idle? && callers == {} && calls == After(cfg, Init(start), past).calls
      ensures steps == past + [Tick(clock - After(cfg, Init(start), past).clock), Scheduler.Restart]
    {
      this.cfg, this.store, this.clock, this.callers := cfg, store, clock, {};
      this.start := start;
      ghost var s := After(cfg, Init(start), past);
      ghost var tick := Tick(clock - s.clock);
      loop, calls, steps := Idle, s.calls, past + [tick, Scheduler.Restart];
      new;
      hide CanRun, After, Enabled, Next;
      StartedAgain(cfg, start, past, clock);
    }

    lemma IsReachable()
      requires Valid()
      ensures Reachable(cfg, Sys()) && Inv(cfg, Sys())
    {
      ReachableInv(cfg, Sys());
    }

    /** Enters a step that has just been carried out into the history. */
    ghost method Record(before: State, step: Step)
      requires CanRun(cfg, Init(start), steps) && After(cfg, Init(start), steps) == before
      requires Enabled(cfg, before, step) && Sys() == Next(cfg, before, step)
      modifies this`steps
      ensures Valid() && steps == old(steps) + [step]
    {
      RunOneMore(cfg, Init(start), steps, step);
      steps := steps + [step];
    }

    // ---------- requests ----------

    method Advance(elapsed: nat)
      requires Valid()
      modifies this
      ensures Valid() && clock == old(clock) + elapsed && CleanSince(old(steps), steps)
      ensures loop == old(loop) && calls == old(calls) && callers == old(callers)
    {
      ghost var before := Sys();
      clock := clock + elapsed;
      Record(before, Tick(elapsed));
    }

    /** `readAt` is the clock reading of this request, which may have been overtaken. */
    method CreateScheduledPublish(cmd: Command<Weekdays>, readAt: Time, id: Id, fault: bool)
      returns (r: Result<ScannedTask>)
      requires Valid() && readAt <= clock
      modifies this, store
      ensures Valid() && CleanSince(old(steps), steps)
      ensures loop == old(loop) && calls == old(calls) && callers == old(callers) && clock == old(clock)
      ensures store.runs == old(store.runs) && store.commands == old(store.commands)
      ensures r.Ok? <==>
        && ValidateTextPayload(cmd.publish.payload, cfg.maxPayload).None?
        && FirstRun(cmd, readAt, cfg.zones).Ok?
        && id !in old(store.tasks) && !fault
      ensures r.Ok? ==>
        && store.tasks.Keys == old(store.tasks.Keys) + {id}
        && (forall other | other in old(store.tasks) :: store.tasks[other] == old(store.tasks[other]))
        && r.value == ScannedTask(id, NewTask(cmd, FirstRun(cmd, readAt, cfg.zones).value, readAt))
        && Scan(id, store.tasks[id]) == r.value
        && IsAsRequested(r.value.task, cmd, FirstRun(cmd, readAt, cfg.zones).value, readAt)
      ensures r.Err? ==> store.tasks == old(store.tasks)
    {
      hide FirstRun, NextRun, ValidateTextPayload, IsAsRequested;
      ghost var before := Sys();
      var payload := ValidateTextPayload(cmd.publish.payload, cfg.maxPayload);
      if payload.Some? {
        return Err(payload.value);
      }
      var nextRunAt := ValidateScheduleCommand(cmd, readAt, cfg.zones);
      if nextRunAt.Err? {
        return Err(nextRunAt.code);
      }
      var zoned := cmd;
      if zoned.timezone == "" {
        zoned := zoned.(timezone := DEFAULT_ZONE);
      }
      var task := Task(zoned, Active, Some(nextRunAt.value), None, "", 0, readAt, readAt);
      r := store.CreateScheduledTask(id, task, fault);
      if r.Ok? {
        AcceptedAtCreation(cfg, cmd, readAt);
        NewTaskAsRequested(cmd, nextRunAt.value, readAt);
        Record(before, Create(id, cmd, readAt));
      }
    }

    method CancelScheduledPublish(id: Id, readAt: Time, fault: bool) returns (r: Result<ScannedTask>)
      requires Valid() && readAt <= clock
      modifies this, store
      ensures Valid() && CleanSince(old(steps), steps)
      ensures loop == old(loop) && calls == old(calls) && callers == old(callers) && clock == old(clock)
      ensures r.Ok? <==> id != "" && id in old(store.tasks) && !fault
      ensures store.Tables() == if r.Ok? then CancelTask(old(store.Tables()), id, readAt) else old(store.Tables())
      ensures r.Ok? ==>
        && r.value.task.status == Canceled && r.value.task.nextRunAt == None
        && store.tasks[id].status == Canceled && store.tasks[id].nextRunAt == None
        && forall now :: !IsDue(store.Tables(), now, id)
    {
      if id == "" {
        return Err("invalid_task_id");
      }
      ghost var before := Sys();
      r := store.CancelScheduledTask(id, readAt, fault);
      if r.Ok? {
        Record(before, Cancel(id, readAt));
      }
    }

    /** What other requests do in one gap: each acts if it can. */
    method Interfere(env: seq<Step>)
      requires Valid()
      modifies this, store
      ensures Valid() && loop == old(loop) && calls == old(calls) && old(clock) <= clock
      ensures CleanSince(old(steps), steps)
      ensures store.runs == old(store.runs) && old(store.commands.Keys) <= store.commands.Keys
    {
      for i := 0 to |env|
        invariant Valid() && loop == old(loop) && calls == old(calls) && old(clock) <= clock
        invariant CleanSince(old(steps), steps)
        invariant store.runs == old(store.runs) && old(store.commands.Keys) <= store.commands.Keys
      {
        OtherRequest(env[i]);
      }
    }

    method OtherRequest(step: Step)
      requires Valid()
      modifies this, store
      ensures Valid() && loop == old(loop) && calls == old(calls) && old(clock) <= clock
      ensures CleanSince(old(steps), steps)
      ensures store.runs == old(store.runs) && old(store.commands.Keys) <= store.commands.Keys
    {
      hide IsDueBatch, ValidatePublish, FirstRun, CanRun, After, Outcome;
      ghost var before := Sys();
      match step {
        case Tick(elapsed) => Advance(elapsed);
        case Create(id, cmd, readAt) =>
          if readAt <= clock {
            var _ := CreateScheduledPublish(cmd, readAt, id, false);
          }
        case Cancel(id, readAt) =>
          if readAt <= clock {
            var _ := CancelScheduledPublish(id, readAt, false);
          }
        case CallerInsert(id, publish, readAt) =>
          if readAt <= clock && id !in store.commands {
            var _ := store.CreatePublishCommand(id, publish, readAt, false);
            callers := callers + {id};
            Record(before, step);
          }
        case CallerMark(id, status, error, publishedAt) =>
          if id in callers && ((status.Published? && publishedAt.Some? && publishedAt.value <= clock)
                               || (status.PublishFailed? && publishedAt.None?)) {
            var _ := store.MarkPublishCommand(id, status, error, publishedAt, false);
            callers := callers - {id};
            Record(before, step);
          }
        case CallerGone(id) =>
          if id in callers {
            callers := callers - {id};
            Record(before, step);
          }
        case _ =>
      }
    }

    // ---------- publishing ----------

    /** Enters a step of the loop that has just been carried out, up to `stage`. */
    ghost method Reach(before: State, step: Step, stage: Stage)
      requires CanRun(cfg, Init(start), steps) && After(cfg, Init(start), steps) == before
      requires loop.Working? && Enabled(cfg, before, step)
      requires State(store.Tables(), clock, loop.(stage := stage), callers, calls) == Next(cfg, before, step)
      modifies this`loop, this`steps
      ensures Valid() && loop == old(loop).(stage := stage) && steps == old(steps) + [step]
    {
      loop := loop.(stage := stage);
      Record(before, step);
    }

    /** The loop is running the head of its batch and has reached `stage`. */
    ghost predicate InStage(stage: Stage)
      reads this, store
    {
      Valid() && Busy(Sys()) && loop.stage == stage
    }

    ghost predicate SameBatch(was: Loop)
      reads this
    {
      loop.Working? && was.Working? && loop == was.(stage := loop.stage)
    }

    method Reject(code: string)
      requires InStage(Waiting)
      requires ValidatePublish(loop.todo[0].task.command.publish, cfg.maxPayload) == Some(code)
      modifies this
      ensures InStage(Returned(Err(code))) && SameBatch(old(loop)) && calls == old(calls) && clock == old(clock)
      ensures CleanSince(old(steps), steps)
    {
      Reach(Sys(), Invalid, Returned(Err(code)));
    }

    method InsertCommand(publish: PublishCommand, id: Id, fails: bool) returns (error: Option<string>)
      requires InStage(Waiting)
      requires publish == loop.todo[0].task.command.publish && ValidatePublish(publish, cfg.maxPayload).None?
      modifies this, store
      ensures InStage(if error.None? then Inserted(id) else Returned(Err(error.value)))
      ensures SameBatch(old(loop)) && calls == old(calls) && clock == old(clock) && store.runs == old(store.runs)
      ensures CleanSince(old(steps), steps)
      ensures id in store.commands || fails
      ensures error == if fails || id in old(store.commands) then Some(INTERNAL) else None
    {
      ghost var before := Sys();
      error := store.CreatePublishCommand(id, publish, clock, fails);
      if error.Some? {
        Reach(before, InsertFails(error.value), Returned(Err(error.value)));
      } else {
        Reach(before, Insert(id), Inserted(id));
      }
    }

    method EnterBroker(id: Id)
      requires InStage(Inserted(id))
      modifies this
      ensures InStage(Calling(id)) && SameBatch(old(loop)) && clock == old(clock)
      ensures CleanSince(old(steps), steps)
      ensures calls == old(calls) + multiset{loop.todo[0].id}
    {
      ghost var before := Sys();
      calls := calls + multiset{loop.todo[0].id};
      Reach(before, Call, Calling(id));
    }

    method LeaveBroker(id: Id, brokerError: Option<string>)
      requires InStage(Calling(id))
      modifies this
      ensures InStage(if brokerError.Some? then Refused(id, brokerError.value) else Routed(id, clock))
      ensures SameBatch(old(loop)) && calls == old(calls) && clock == old(clock)
      ensures CleanSince(old(steps), steps)
    {
      if brokerError.Some? {
        Reach(Sys(), Refuse(brokerError.value), Refused(id, brokerError.value));
      } else {
        Reach(Sys(), Accept, Routed(id, clock));
      }
    }

    method MarkAsFailed(id: Id, brokerError: string, fails: bool)
      requires InStage(Refused(id, brokerError))
      modifies this, store
      ensures InStage(Returned(Err(brokerError)))
      ensures SameBatch(old(loop)) && calls == old(calls) && clock == old(clock) && store.runs == old(store.runs)
      ensures CleanSince(old(steps), steps)
    {
      ghost var before := Sys();
      var error := store.MarkPublishCommand(id, PublishFailed, brokerError, None, fails);
      Reach(before, if error.None? then MarkRefused else MarkRefusedFails, Returned(Err(brokerError)));
    }

    method MarkAsPublished(id: Id, publishedAt: Time, fails: bool) returns (r: Result<Id>)
      requires InStage(Routed(id, publishedAt))
      modifies this, store
      ensures InStage(Returned(r)) && r == (if fails then Err(INTERNAL) else Ok(id))
      ensures SameBatch(old(loop)) && calls == old(calls) && clock == old(clock) && store.runs == old(store.runs)
      ensures CleanSince(old(steps), steps)
    {
      ghost var before := Sys();
      var error := store.MarkPublishCommand(id, Published, "", Some(publishedAt), fails);
      if error.Some? {
        r := Err(INTERNAL);
        Reach(before, MarkRoutedFails(INTERNAL), Returned(r));
      } else {
        r := Ok(id);
        Reach(before, MarkRouted, Returned(r));
      }
    }

    /** The command row has been written: one broker call, then the row is marked. */
    method CallBroker(turn: Turn) returns (r: Result<Id>)
      requires InStage(Inserted(turn.commandId))
      modifies this, store
      ensures InStage(Returned(r)) && SameBatch(old(loop)) && old(clock) <= clock
      ensures CleanSince(old(steps), steps)
      ensures store.runs == old(store.runs)
      ensures r == if turn.brokerError.Some? then Err(turn.brokerError.value)
                   else if turn.markFails then Err(INTERNAL) else Ok(turn.commandId)
      ensures calls == old(calls) + multiset{loop.todo[0].id}
    {
      hide Enabled, Next, After, CanRun, CleanSince;
      ghost var was := steps;
      EnterAndLeave(turn);
      ghost var left := steps;
      var publishedAt := clock;
      Interfere(turn.beforeMark);
      CleanTransitive(was, left, steps);
      ghost var waited := steps;
      if turn.brokerError.Some? {
        MarkAsFailed(turn.commandId, turn.brokerError.value, turn.markFails);
        r := Err(turn.brokerError.value);
      } else {
        r := MarkAsPublished(turn.commandId, publishedAt, turn.markFails);
      }
      CleanTransitive(was, waited, steps);
    }

    method EnterAndLeave(turn: Turn)
      requires InStage(Inserted(turn.commandId))
      modifies this, store
      ensures InStage(if turn.brokerError.Some? then Refused(turn.commandId, turn.brokerError.value)
                      else Routed(turn.commandId, clock))
      ensures SameBatch(old(loop)) && old(clock) <= clock && store.runs == old(store.runs)
      ensures CleanSince(old(steps), steps)
      ensures calls == old(calls) + multiset{loop.todo[0].id}
    {
      hide Enabled, Next, After, CanRun;
      Interfere(turn.beforeCall);
      EnterBroker(turn.commandId);
      Interfere(turn.duringCall);
      LeaveBroker(turn.commandId, turn.brokerError);
    }

    /** `PublishService.Publish`, called for the task at the head of the batch. */
    method Publish(publish: PublishCommand, turn: Turn) returns (r: Result<Id>)
      requires InStage(Waiting) && publish == loop.todo[0].task.command.publish
      modifies this, store
      ensures InStage(Returned(r)) && SameBatch(old(loop)) && old(clock) <= clock
      ensures CleanSince(old(steps), steps)
      ensures store.runs == old(store.runs)
      ensures r.Ok? ==>
        && r.value == turn.commandId && !turn.insertFails && turn.brokerError.None? && !turn.markFails
        && ValidatePublish(publish, cfg.maxPayload).None?
      ensures r.Err? ==>
        || turn.insertFails || turn.brokerError.Some? || turn.markFails
        || ValidatePublish(publish, cfg.maxPayload).Some? || turn.commandId in store.commands
      ensures r.Err? ==>
        if ValidatePublish(publish, cfg.maxPayload).Some? then Some(r.code) == ValidatePublish(publish, cfg.maxPayload)
        else r.code == INTERNAL || Some(r.code) == turn.brokerError
      ensures if r.Ok? then calls == old(calls) + multiset{loop.todo[0].id}
              else calls == old(calls) || calls == old(calls) + multiset{loop.todo[0].id}
    {
      hide Enabled, Next, After, CanRun, ValidatePublish;
      var invalid := ValidatePublish(publish, cfg.maxPayload);
      if invalid.Some? {
        Reject(invalid.value);
        return Err(invalid.value);
      }
      Interfere(turn.beforeInsert);
      var error := InsertCommand(publish, turn.commandId, turn.insertFails);
      if error.Some? {
        return Err(error.value);
      }
      r := CallBroker(turn);
    }

    // ---------- one run ----------

    method ReadFinishTime(result: Result<Id>) returns (finishedAt: Time)
      requires InStage(Returned(result))
      modifies this
      ensures InStage(Stamped(result, finishedAt)) && finishedAt == clock
      ensures SameBatch(old(loop)) && calls == old(calls) && clock == old(clock)
      ensures CleanSince(old(steps), steps)
    {
      finishedAt := clock;
      Reach(Sys(), Stamp, Stamped(result, finishedAt));
    }

    /** The record of a run, decided field by field. */
    method Settle(scanned: ScannedTask, startedAt: Time, result: Result<Id>, finishedAt: Time, runId: Id)
      returns (finish: Finish)
      ensures finish == Outcome(cfg, scanned, startedAt, result, finishedAt, runId)
    {
      hide RunAfter;
      var task := scanned.task;
      var scheduledFor := startedAt;
      if task.nextRunAt.Some? {
        scheduledFor := task.nextRunAt.value;
      }
      var runStatus := RunPublished;
      var taskStatus := Completed;
      var errText := "";
      var nextRunAt: Option<Time> := None;
      if result.Err? {
        runStatus := RunFailed;
        errText := result.code;
        if task.command.kind.Once? {
          taskStatus := Failed;
        } else {
          taskStatus := Active;
          var next := NextRunAfterTask(task, finishedAt, cfg.zones);
          if next.Err? {
            taskStatus := Failed;
            errText := errText + "; next run calculation failed: " + next.code;
          } else {
            nextRunAt := next.value;
          }
        }
      } else if task.command.kind.Once? {
        taskStatus := Completed;
      } else {
        taskStatus := Active;
        var next := NextRunAfterTask(task, finishedAt, cfg.zones);
        if next.Err? {
          taskStatus := Failed;
          errText := next.code;
        } else {
          nextRunAt := next.value;
        }
      }
      var commandId := if result.Ok? then Some(result.value) else None;
      finish := Finish(scanned.id, runId, commandId, runStatus, taskStatus, errText,
        scheduledFor, startedAt, finishedAt, nextRunAt);
    }

    method RecordRun(finish: Finish, result: Result<Id>, fault: TxFault) returns (error: Option<string>)
      requires InStage(Stamped(result, finish.finishedAt))
      requires finish == Outcome(cfg, loop.todo[0], loop.startedAt, result, finish.finishedAt, finish.runId)
      modifies this, store
      ensures Valid() && loop == Scheduler.Advance(old(loop.startedAt), old(loop.todo)) && clock == old(clock)
      ensures error.None? <==> fault.NoFault? && !RunIdUsed(old(store.Tables()), finish.runId)
      ensures error.None? ==> CleanSince(old(steps), steps)
      ensures store.Tables() == if error.None? then FinishRun(old(store.Tables()), finish) else old(store.Tables())
    {
      ghost var before := Sys();
      error := store.FinishScheduledRun(finish, fault);
      loop := Scheduler.Advance(loop.startedAt, loop.todo);
      Record(before, if error.None? then FinishRuns(finish.runId) else FinishFails);
    }

    /** Up to the transaction that records the run. */
    method Attempt(scanned: ScannedTask, startedAt: Time, turn: Turn) returns (result: Result<Id>, finish: Finish)
      requires InStage(Waiting)
      requires scanned == loop.todo[0] && startedAt == loop.startedAt
      modifies this, store
      ensures InStage(Stamped(result, finish.finishedAt)) && SameBatch(old(loop))
      ensures finish == Outcome(cfg, scanned, startedAt, result, finish.finishedAt, turn.runId)
      ensures old(clock) <= finish.finishedAt <= clock
      ensures store.runs == old(store.runs) && CleanSince(old(steps), steps)
      ensures result.Ok? ==>
        result.value == turn.commandId && !turn.insertFails && turn.brokerError.None? && !turn.markFails
    {
      hide Enabled, Next, After, CanRun, ValidatePublish, RunAfter, CleanSince, Outcome;
      ghost var was := steps;
      result := Publish(scanned.task.command.publish, turn);
      ghost var published := steps;
      Interfere(turn.beforeStamp);
      CleanTransitive(was, published, steps);
      ghost var waited := steps;
      var finishedAt := ReadFinishTime(result);
      CleanTransitive(was, waited, steps);
      finish := Settle(scanned, startedAt, result, finishedAt, turn.runId);
      FinishTime(scanned, startedAt, result, finishedAt, turn.runId);
      ghost var stamped := steps;
      Interfere(turn.beforeFinish);
      CleanTransitive(was, stamped, steps);
    }

    lemma FinishTime(scanned: ScannedTask, startedAt: Time, result: Result<Id>, finishedAt: Time, runId: Id)
      ensures Outcome(cfg, scanned, startedAt, result, finishedAt, runId).finishedAt == finishedAt
    {
    }

    lemma CleanTransitive(a: seq<Step>, b: seq<Step>, c: seq<Step>)
      requires CleanSince(a, b) && CleanSince(b, c)
      ensures CleanSince(a, c)
    {
    }

    /** Runs the head of the batch. Unless the final transaction fails, exactly one run
        row is added, for the slot the task was read with, whose status and command say
        what `Publish` returned. */
    method RunOne(scanned: ScannedTask, startedAt: Time, turn: Turn) returns (error: Option<string>)
      requires InStage(Waiting)
      requires scanned == loop.todo[0] && startedAt == loop.startedAt
      modifies this, store
      ensures Valid() && loop == Scheduler.Advance(startedAt, old(loop.todo)) && old(clock) <= clock
      ensures
        if turn.finishFault.NoFault? && !RunIdUsed(old(store.Tables()), turn.runId) then
          && |store.runs| == |old(store.runs)| + 1
          && store.runs[..|old(store.runs)|] == old(store.runs)
          && var run := store.runs[|old(store.runs)|];
          && run.id == turn.runId && run.taskId == scanned.id
          && Some(run.scheduledFor) == scanned.task.nextRunAt
          && run.startedAt == startedAt && old(clock) <= run.finishedAt <= clock
          && run.commandId == (if error.None? then Some(turn.commandId) else None)
          && run.status == (if error.None? then RunPublished else RunFailed)
          && CleanSince(old(steps), steps)
        else store.runs == old(store.runs) && error.Some?
      ensures error.None? ==>
        !turn.insertFails && turn.brokerError.None? && !turn.markFails && turn.finishFault.NoFault?
    {
      hide Enabled, Next, After, CanRun, ValidatePublish, RunAfter;
      HasNextRun();
      var result, finish := Attempt(scanned, startedAt, turn);
      error := RecordRun(finish, result, turn.finishFault);
      if error.None? && result.Err? {
        error := Some(result.code);
      }
    }

    lemma HasNextRun()
      requires Valid() && Busy(Sys())
      ensures loop.todo[0].task.nextRunAt.Some?
    {
      IsReachable();
      assert ItemOk(cfg, store.Tables(), loop.startedAt, loop.todo[0]);
    }

    // ---------- polling ----------

    method StartPoll() returns (now: Time)
      requires Valid() && loop.Idle?
      modifies this
      ensures Valid() && loop == Polling(now) && now == clock == old(clock) && calls == old(calls)
      ensures steps == old(steps) + [ReadClock]
    {
      now := clock;
      ghost var before := Sys();
      loop := Polling(now);
      Record(before, ReadClock);
    }

    method ReadBatch(now: Time, limit: nat, fails: bool) returns (tasks: Result<seq<ScannedTask>>, ghost ids: seq<Id>)
      requires Valid() && loop == Polling(now) && limit > 0
      modifies this
      ensures Valid() && clock == old(clock)
      ensures tasks.Ok? <==> !fails
      ensures tasks.Ok? ==> |tasks.value| <= limit
      ensures loop == if tasks.Err? || tasks.value == [] then Idle else Working(now, tasks.value, Waiting)
      ensures tasks.Ok? ==>
        && IsDueBatch(store.Tables(), now, limit, ids) && tasks.value == ScanAll(store.Tables(), ids)
        && steps == old(steps) + [Query(limit, ids)]
    {
      ghost var before := Sys();
      tasks, ids := store.ListDueScheduledTasks(now, limit, fails);
      if tasks.Err? {
        loop := Idle;
        Record(before, QueryFails);
      } else {
        loop := if ids == [] then Idle else Working(now, tasks.value, Waiting);
        Record(before, Query(limit, ids));
      }
    }

    /** The loop over a batch, one task after the other; a task that fails does not stop
        the others. */
    method RunBatch(now: Time, batch: seq<ScannedTask>, turns: nat -> Turn)
      requires Valid() && loop == if batch == [] then Idle else Working(now, batch, Waiting)
      modifies this, store
      ensures Valid() && loop.Idle? && old(clock) <= clock
      ensures |old(store.runs)| <= |store.runs| <= |old(store.runs)| + |batch|
      ensures store.runs[..|old(store.runs)|] == old(store.runs)
      ensures AllRecorded(old(store.runs), turns) ==>
        RunsOfTurns(old(store.runs), store.runs, turns, |batch|) && CleanSince(old(steps), steps)
    {
      hide Enabled, Next, After, CanRun, AllRecorded;
      ghost var n := |store.runs|;
      for i := 0 to |batch|
        invariant Valid() && old(clock) <= clock
        invariant loop == if i == |batch| then Idle else Working(now, batch[i..], Waiting)
        invariant n <= |store.runs| <= n + i && store.runs[..n] == old(store.runs)
        invariant AllRecorded(old(store.runs), turns) ==>
          RunsOfTurns(old(store.runs), store.runs, turns, i) && CleanSince(old(steps), steps)
      {
        ghost var runs := store.runs;
        var _ := RunOne(batch[i], now, turns(i));
        if AllRecorded(old(store.runs), turns) {
          NextTurn(old(store.runs), runs, store.runs, turns, i);
        }
      }
    }

    /** A turn whose run id is not used yet adds the next run. */
    lemma NextTurn(before: seq<Run>, runs: seq<Run>, runs': seq<Run>, turns: nat -> Turn, i: nat)
      requires AllRecorded(before, turns) && RunsOfTurns(before, runs, turns, i)
      requires turns(i).finishFault.NoFault? && (forall r | r in runs :: r.id != turns(i).runId) ==>
        |runs'| == |runs| + 1 && runs'[..|runs|] == runs && runs'[|runs|].id == turns(i).runId
      ensures RunsOfTurns(before, runs', turns, i + 1)
    {
      forall m | 0 <= m < |runs|
        ensures runs[m].id != turns(i).runId
      {
        assert m < |before| ==> runs[m] == before[m] && runs[m] in before;
      }
      assert forall m | 0 <= m < |runs| :: runs'[m] == runs[m];
    }

    /** One poll: at most `limit` due tasks are run. If the query is answered and every
        recording goes through, exactly one run is added for each of them, the history grows
        by a clean poll, and of the tasks overdue at any time up to the start `limit` are
        gone or all are, whatever other requests did meanwhile. */
    method RunDue(limit: int, beforeQuery: seq<Step>, queryFails: bool, turns: nat -> Turn)
      returns (r: Result<nat>, ghost poll: SchedulerProgress.Segment)
      requires Valid() && loop.Idle?
      modifies this, store
      ensures Valid() && loop.Idle? && old(clock) <= clock
      ensures r.Ok? <==> !queryFails
      ensures r.Ok? ==> r.value <= Bound(limit)
      ensures |old(store.runs)| <= |store.runs| && store.runs[..|old(store.runs)|] == old(store.runs)
      ensures |store.runs| <= |old(store.runs)| + (if r.Ok? then r.value else 0)
      ensures r.Ok? && AllRecorded(old(store.runs), turns) ==>
        && RunsOfTurns(old(store.runs), store.runs, turns, r.value)
        && poll.Poll? && SchedulerProgress.WellFormed(poll)
        && steps == old(steps) + SchedulerProgress.StepsOf(poll, Bound(limit))
        && WorksOff(cfg, old(store.Tables()), store.Tables(), SchedulerProgress.StepsOf(poll, Bound(limit)),
             Bound(limit), old(clock))
    {
      hide Enabled, Next, After, CanRun, AllRecorded, RunsOfTurns, IsDueBatch;
      hide CleanSince, WorksOff, SchedulerProgress.WellFormed, SchedulerProgress.StepsOf;
      ghost var past := steps;
      var now := StartPoll();
      Interfere(beforeQuery);
      ghost var waited := steps;
      var tasks, ids := ReadBatch(now, Bound(limit), queryFails);
      if tasks.Err? {
        return Err(tasks.code), SchedulerProgress.Interlude([]);
      }
      RunBatch(now, tasks.value, turns);
      r, poll := Ok(|tasks.value|), SchedulerProgress.Interlude([]);
      if AllRecorded(old(store.runs), turns) {
        poll := PollOf(past, waited, steps, ids, Bound(limit));
        PollWorksOff(cfg, start, past, poll, Bound(limit));
      }
    }

    /** The batch size of `RunDue`. */
    function Bound(limit: int): nat { if limit <= 0 then 20 else limit }

    /** `ScheduledPublishScheduler.Run` for a number of rounds: polls with the fixed batch
        size, ignoring errors. */
    method Run(rounds: nat, polls: nat -> Poll)
      requires Valid() && loop.Idle?
      modifies this, store
      ensures Valid() && loop.Idle? && old(clock) <= clock
      ensures |old(store.runs)| <= |store.runs| <= |old(store.runs)| + 20 * rounds
      ensures store.runs[..|old(store.runs)|] == old(store.runs)
    {
      hide Enabled, Next, After, CanRun;
      for i := 0 to rounds
        invariant Valid() && loop.Idle? && old(clock) <= clock
        invariant |old(store.runs)| <= |store.runs| <= |old(store.runs)| + 20 * i
        invariant store.runs[..|old(store.runs)|] == old(store.runs)
      {
        var _, _ := RunDue(20, polls(i).beforeQuery, polls(i).queryFails, polls(i).turns);
        Interfere(polls(i).beforeTick);
      }
    }
  }
}
