/** What the statements of the scheduled-publish engine write, field by field. */
module SchedulerWrites {
  import opened Basics
  import opened Domain
  import opened Schedule
  import opened Scheduler
  import opened SchedulerInvariant
  import opened SchedulerTheorems

  // ---------- tasks ----------

  /** A stored task carries what was asked for, its weekdays as text that reads back as the
      list given. */
  predicate Asks(row: Row, cmd: Command<Weekdays>) {
    && row.command.deviceId == cmd.deviceId && row.command.name == cmd.name
    && row.command.publish.adminUserId == cmd.publish.adminUserId
    && row.command.publish.topic == cmd.publish.topic && row.command.publish.payload == cmd.publish.payload
    && row.command.publish.qos == cmd.publish.qos && row.command.publish.retain == cmd.publish.retain
    && row.command.kind == cmd.kind && row.command.runAt == cmd.runAt && row.command.timeOfDay == cmd.timeOfDay
    && DecodedWeekdays(row.command.weekdays) == cmd.weekdays
    && row.command.timezone == if cmd.timezone == "" then "Asia/Hong_Kong" else cmd.timezone
  }

  /** All other tasks are as before, and so are the other tables. */
  predicate OnlyTask(db: Db, db': Db, id: Id) {
    && db'.tasks.Keys == db.tasks.Keys + {id}
    && (forall other | other in db.tasks && other != id :: db'.tasks[other] == db.tasks[other])
    && db'.runs == db.runs && db'.commands == db.commands
  }

  /** A created task is what was asked for, active from its first run on. */
  lemma CreateWrites(cfg: Config, s: State, id: Id, cmd: Command<Weekdays>, readAt: Time)
    requires Enabled(cfg, s, Create(id, cmd, readAt))
    ensures var db' := Next(cfg, s, Create(id, cmd, readAt)).db;
      && OnlyTask(s.db, db', id) && id !in s.db.tasks
      && var row := db'.tasks[id];
      && Asks(row, cmd)
      && row.status == Active && FirstRun(cmd, readAt, cfg.zones) == Ok(row.nextRunAt.value)
      && row.lastRunAt == None && row.lastError == "" && row.runCount == 0
      && row.createdAt == readAt && row.updatedAt == readAt
  {
    WeekdaysRoundTrip(cmd.weekdays);
  }

  /** A canceled task has no next run and is due at no time; nothing else of it changes. */
  lemma CancelWrites(cfg: Config, s: State, id: Id, readAt: Time)
    requires Enabled(cfg, s, Cancel(id, readAt)) && id in s.db.tasks
    ensures var db' := Next(cfg, s, Cancel(id, readAt)).db;
      && OnlyTask(s.db, db', id)
      && var row, was := db'.tasks[id], s.db.tasks[id];
      && row.status == Canceled && row.nextRunAt == None && row.updatedAt == readAt
      && row.command == was.command && row.runCount == was.runCount && row.lastRunAt == was.lastRunAt
      && row.lastError == was.lastError && row.createdAt == was.createdAt
      && forall now :: !IsDue(db', now, id)
  {
  }

  /** Being due, in the terms of the query. */
  lemma DueMeans(db: Db, now: Time, id: Id)
    ensures IsDue(db, now, id) <==>
      && id in db.tasks && db.tasks[id].status == Active
      && db.tasks[id].nextRunAt.Some? && db.tasks[id].nextRunAt.value <= now
  {
  }

  // ---------- runs ----------

  /** A recorded run says what was handed over; an active task moves on with it, a task that
      is not active stays as it is. */
  lemma FinishWrites(db: Db, f: Finish)
    ensures var db' := FinishRun(db, f);
      && |db'.runs| == |db.runs| + 1 && db'.runs[..|db.runs|] == db.runs && db'.commands == db.commands
      && var run := db'.runs[|db.runs|];
      && run.id == f.runId && run.taskId == f.taskId && run.commandId == f.commandId && run.status == f.runStatus
      && run.error == f.error && run.scheduledFor == f.scheduledFor
      && run.startedAt == f.startedAt && run.finishedAt == f.finishedAt
      && db'.tasks.Keys == db.tasks.Keys
      && forall id | id in db.tasks ::
           if id != f.taskId || db.tasks[id].status != Active then db'.tasks[id] == db.tasks[id]
           else
             var row, was := db'.tasks[id], db.tasks[id];
             && row.status == f.taskStatus && row.nextRunAt == f.nextRunAt
             && row.lastRunAt == Some(f.finishedAt) && row.lastError == f.error
             && row.runCount == was.runCount + 1 && row.updatedAt == f.finishedAt
             && row.command == was.command && row.createdAt == was.createdAt
  {
  }

  /** The record of a run: what it was for, when, with which command, and what becomes of the
      task. */
  lemma OutcomeSays(cfg: Config, scanned: ScannedTask, startedAt: Time, result: Result<Id>, finishedAt: Time, runId: Id)
    ensures var f := Outcome(cfg, scanned, startedAt, result, finishedAt, runId);
      var cmd := scanned.task.command;
      && f.taskId == scanned.id && f.runId == runId && f.startedAt == startedAt && f.finishedAt == finishedAt
      && (scanned.task.nextRunAt.Some? ==> f.scheduledFor == scanned.task.nextRunAt.value)
      && (scanned.task.nextRunAt.None? ==> f.scheduledFor == startedAt)
      && (result.Ok? ==> f.runStatus == RunPublished && f.commandId == Some(result.value))
      && (result.Err? ==> f.runStatus == RunFailed && f.commandId == None)
      && (cmd.kind.Once? ==>
            && f.taskStatus == (if result.Ok? then Completed else Failed) && f.nextRunAt == None
            && f.error == (if result.Ok? then "" else result.code))
      && (!cmd.kind.Once? && NextRun(cmd, finishedAt, cfg.zones).Ok? ==>
            && f.taskStatus == Active && f.nextRunAt == Some(NextRun(cmd, finishedAt, cfg.zones).value)
            && f.error == (if result.Ok? then "" else result.code))
      && (!cmd.kind.Once? && NextRun(cmd, finishedAt, cfg.zones).Err? ==>
            && f.taskStatus == Failed && f.nextRunAt == None
            && var code := NextRun(cmd, finishedAt, cfg.zones).code;
            f.error == (if result.Ok? then code else result.code + "; next run calculation failed: " + code))
  {
  }

  // ---------- publish commands ----------

  predicate OnlyCommand(db: Db, db': Db, id: Id) {
    && db'.tasks == db.tasks && db'.runs == db.runs
    && db.commands.Keys <= db'.commands.Keys <= db.commands.Keys + {id}
    && forall other | other in db.commands && other != id :: db'.commands[other] == db.commands[other]
  }

  lemma InsertWrites(db: Db, id: Id, publish: PublishCommand, at: Time)
    ensures var db' := InsertCommand(db, id, publish, at);
      && OnlyCommand(db, db', id) && id in db'.commands
      && var row := db'.commands[id];
      && row.publish == publish && row.status == Pending && row.error == ""
      && row.createdAt == at && row.publishedAt == None
  {
  }

  lemma MarkWrites(db: Db, id: Id, status: PublishStatus, error: string, publishedAt: Option<Time>)
    ensures var db' := MarkCommand(db, id, status, error, publishedAt);
      && OnlyCommand(db, db', id) && db'.commands.Keys == db.commands.Keys
      && (id in db.commands ==>
            var row, was := db'.commands[id], db.commands[id];
            && row.status == status && row.error == error && row.publishedAt == publishedAt
            && row.publish == was.publish && row.createdAt == was.createdAt)
  {
  }

  /** The broker's answer reaches the command row: refused with its error, or published at the
      time read when the broker had accepted. */
  lemma AnswerWritten(cfg: Config, s: State, step: Step)
    requires Reachable(cfg, s) && Enabled(cfg, s, step) && (step.MarkRefused? || step.MarkRouted?)
    ensures var c := s.loop.stage.command;
      && c in s.db.commands
      && var row, was := Next(cfg, s, step).db.commands[c], s.db.commands[c];
      && row.publish == was.publish && row.createdAt == was.createdAt
      && (step.MarkRefused? ==>
            row.status == PublishFailed && row.error == s.loop.stage.error && row.publishedAt == None)
      && (step.MarkRouted? ==>
            row.status == Published && row.error == "" && row.publishedAt == Some(s.loop.stage.publishedAt))
  {
    ReachableInv(cfg, s);
  }

  /** From the request to the broker: whenever a task is published, however long after its
      creation and whatever has happened meanwhile, the command row written holds exactly
      the publish that was asked for. */
  lemma PublishesWhatWasRequested(cfg: Config, s: State, id: Id, cmd: Command<Weekdays>, readAt: Time,
                                  steps: seq<Step>, c: Id)
    requires Inv(cfg, s) && Enabled(cfg, s, Create(id, cmd, readAt))
    requires CanRun(cfg, Next(cfg, s, Create(id, cmd, readAt)), steps)
    requires var s' := After(cfg, Next(cfg, s, Create(id, cmd, readAt)), steps);
      Enabled(cfg, s', Insert(c)) && s'.loop.todo[0].id == id
    ensures var s' := After(cfg, Next(cfg, s, Create(id, cmd, readAt)), steps);
      Next(cfg, s', Insert(c)).db.commands[c] == CommandRow(cmd.publish, Pending, "", s'.clock, None)
  {
    var s1 := Next(cfg, s, Create(id, cmd, readAt));
    CreateWrites(cfg, s, id, cmd, readAt);
    StepKeepsInv(cfg, s, Create(id, cmd, readAt));
    RunKeepsInv(cfg, s1, steps);
    CommandStays(cfg, s1, steps, id);
    HeadAsStored(cfg, After(cfg, s1, steps));
  }

  lemma HeadAsStored(cfg: Config, s: State)
    requires LoopOk(cfg, s) && Busy(s)
    ensures s.loop.todo[0].id in s.db.tasks
    ensures s.loop.todo[0].task.command == Decode(s.db.tasks[s.loop.todo[0].id].command)
  {
    assert ItemOk(cfg, s.db, s.loop.startedAt, s.loop.todo[0]);
  }

  lemma {:induction false} CommandStays(cfg: Config, s: State, steps: seq<Step>, id: Id)
    requires CanRun(cfg, s, steps) && id in s.db.tasks
    ensures id in After(cfg, s, steps).db.tasks && After(cfg, s, steps).db.tasks[id].command == s.db.tasks[id].command
  {
    if steps != [] {
      hide Enabled, Next;
      CommandStays(cfg, s, steps[..|steps| - 1], id);
      StepNeverRevives(cfg, After(cfg, s, steps[..|steps| - 1]), steps[|steps| - 1], id);
    }
  }
}
