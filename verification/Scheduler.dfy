/** The scheduled-publish engine as a state machine: the database tables of
    internal/storage/postgres/store.go, the polling loop of
    internal/service/scheduled_publish.go and the publish calls of
    internal/service/publish.go, cut into the steps between which other requests
    may run. Every database statement either takes effect or fails. */
module Scheduler {
  import opened Basics
  import opened Domain
  import opened Schedule

  datatype Config = Config(zones: Zones, maxPayload: int)

  // ---------- tables ----------

  type Row = Task<string>

  datatype Run = Run(
    id: Id,
    taskId: Id,
    commandId: Option<Id>,
    status: RunStatus,
    error: string,
    scheduledFor: Time,
    startedAt: Time,
    finishedAt: Time)

  datatype CommandRow = CommandRow(
    publish: PublishCommand,
    status: PublishStatus,
    error: string,
    createdAt: Time,
    publishedAt: Option<Time>)

  datatype Db = Db(tasks: map<Id, Row>, runs: seq<Run>, commands: map<Id, CommandRow>)

  function Encode(cmd: Command<Weekdays>): Command<string> {
    Command(cmd.deviceId, cmd.name, cmd.publish, cmd.kind, cmd.runAt, cmd.timeOfDay,
      EncodedWeekdays(cmd.weekdays), cmd.timezone)
  }

  function Decode(cmd: Command<string>): Command<Weekdays> {
    Command(cmd.deviceId, cmd.name, cmd.publish, cmd.kind, cmd.runAt, cmd.timeOfDay,
      DecodedWeekdays(cmd.weekdays), cmd.timezone)
  }

  /** `scanScheduledTask`. */
  function Scan(id: Id, row: Row): ScannedTask {
    ScannedTask(id, Task(Decode(row.command), row.status, row.nextRunAt, row.lastRunAt, row.lastError, row.runCount,
      row.createdAt, row.updatedAt))
  }

  // ---------- statements ----------

  /** What `CreateScheduledPublish` stores for an accepted command. */
  function NewTask(cmd: Command<Weekdays>, first: Time, now: Time): Task<Weekdays> {
    var zoned := if cmd.timezone == "" then cmd.(timezone := DEFAULT_ZONE) else cmd;
    Task(zoned, Active, Some(first), None, "", 0, now, now)
  }

  function InsertTask(db: Db, id: Id, task: Task<Weekdays>): Db {
    var row := Task(Encode(task.command), task.status, task.nextRunAt, None, "", 0, task.createdAt, task.createdAt);
    db.(tasks := db.tasks[id := row])
  }

  /** The update has no guard on the status. */
  function CancelTask(db: Db, id: Id, at: Time): Db {
    if id !in db.tasks then db
    else db.(tasks := db.tasks[id := db.tasks[id].(status := Canceled, nextRunAt := None, updatedAt := at)])
  }

  predicate IsDue(db: Db, now: Time, id: Id) {
    && id in db.tasks
    && db.tasks[id].status.Active?
    && db.tasks[id].nextRunAt.Some?
    && db.tasks[id].nextRunAt.value <= now
  }

  /** Both tasks have a next run, and `a`'s is not later than `b`'s. */
  predicate NotAfter(db: Db, a: Id, b: Id) {
    && a in db.tasks && db.tasks[a].nextRunAt.Some?
    && b in db.tasks && db.tasks[b].nextRunAt.Some?
    && db.tasks[a].nextRunAt.value <= db.tasks[b].nextRunAt.value
  }

  /** `ids` answers the due query: due tasks, earliest first, cut off at `limit`; ties
      may come in any order. */
  ghost predicate IsDueBatch(db: Db, now: Time, limit: nat, ids: seq<Id>) {
    && |ids| <= limit
    && Distinct(ids)
    && (forall id | id in ids :: IsDue(db, now, id))
    && (forall i, j :: 0 <= i < j < |ids| ==> NotAfter(db, ids[i], ids[j]))
    && (forall late | IsDue(db, now, late) && late !in ids ::
          |ids| == limit && forall id | id in ids :: NotAfter(db, id, late))
  }

  function ScanAll(db: Db, ids: seq<Id>): (tasks: seq<ScannedTask>)
    requires forall id | id in ids :: id in db.tasks
    ensures |tasks| == |ids|
    ensures forall i | 0 <= i < |ids| :: tasks[i] == Scan(ids[i], db.tasks[ids[i]])
  {
    seq(|ids|, i requires 0 <= i < |ids| => Scan(ids[i], db.tasks[ids[i]]))
  }

  /** The run row is inserted whatever the task's status; the task is only updated
      while it is active. */
  function FinishRun(db: Db, f: Finish): Db {
    var run := Run(f.runId, f.taskId, f.commandId, f.runStatus, f.error, f.scheduledFor, f.startedAt, f.finishedAt);
    var tasks :=
      if f.taskId in db.tasks && db.tasks[f.taskId].status.Active? then
        var row := db.tasks[f.taskId];
        db.tasks[f.taskId := row.(status := f.taskStatus, nextRunAt := f.nextRunAt, lastRunAt := Some(f.finishedAt),
          lastError := f.error, runCount := row.runCount + 1, updatedAt := f.finishedAt)]
      else db.tasks;
    db.(tasks := tasks, runs := db.runs + [run])
  }

  predicate RunIdUsed(db: Db, id: Id) { exists r | r in db.runs :: r.id == id }

  function InsertCommand(db: Db, id: Id, publish: PublishCommand, at: Time): Db {
    db.(commands := db.commands[id := CommandRow(publish, Pending, "", at, None)])
  }

  function MarkCommand(db: Db, id: Id, status: PublishStatus, error: string, publishedAt: Option<Time>): Db {
    if id !in db.commands then db
    else
      var row := db.commands[id];
      db.(commands := db.commands[id := row.(status := status, error := error, publishedAt := publishedAt)])
  }

  // ---------- the polling loop ----------

  /** How far the call of `Publish` for the task at the head of the batch has come. */
  datatype Stage =
    | Waiting                                    // runOne not yet past the first statement
    | Inserted(command: Id)                      // command row written
    | Calling(command: Id)                       // inside the broker
    | Refused(command: Id, error: string)        // the broker returned an error
    | Routed(command: Id, publishedAt: Time)     // the broker accepted; time read
    | Returned(result: Result<Id>)               // Publish has returned
    | Stamped(result: Result<Id>, finishedAt: Time)

  datatype Loop =
    | Idle
    | Polling(now: Time)                                            // clock read, query not yet answered
    | Working(startedAt: Time, todo: seq<ScannedTask>, stage: Stage)  // todo[0] is being run

  /** `callers` are the commands of publish requests made by administrators that have
      not yet returned; `calls` counts the broker calls made for each task. */
  datatype State = State(db: Db, clock: Time, loop: Loop, callers: set<Id>, calls: multiset<Id>)

  function Init(clock: Time): State { State(Db(map[], [], map[]), clock, Idle, {}, multiset{}) }

  function Advance(startedAt: Time, todo: seq<ScannedTask>): Loop
    requires todo != []
  {
    if |todo| == 1 then Idle else Working(startedAt, todo[1..], Waiting)
  }

  /** The record `runOne` hands to the database. */
  function Outcome(cfg: Config, scanned: ScannedTask, startedAt: Time, result: Result<Id>, finishedAt: Time,
                   runId: Id): Finish
  {
    var task := scanned.task;
    var scheduledFor := if task.nextRunAt.Some? then task.nextRunAt.value else startedAt;
    var next := RunAfter(task.command, finishedAt, cfg.zones);
    var taskStatus :=
      if task.command.kind.Once? then (if result.Ok? then Completed else Failed)
      else if next.Err? then Failed else Active;
    var nextRunAt := if task.command.kind.Once? || next.Err? then None else next.value;
    var error :=
      if result.Ok? then (if task.command.kind.Once? || next.Ok? then "" else next.code)
      else if task.command.kind.Once? || next.Ok? then result.code
      else result.code + "; next run calculation failed: " + next.code;
    Finish(scanned.id, runId, if result.Ok? then Some(result.value) else None,
      if result.Ok? then RunPublished else RunFailed,
      taskStatus, error, scheduledFor, startedAt, finishedAt, nextRunAt)
  }

  // ---------- steps ----------

  datatype Step =
    // the environment
    | Tick(elapsed: nat)
    | Create(id: Id, cmd: Command<Weekdays>, readAt: Time)  // accepted against a clock reading, then inserted
    | Cancel(id: Id, readAt: Time)
    | CallerInsert(id: Id, publish: PublishCommand, readAt: Time)
    | CallerMark(id: Id, status: PublishStatus, error: string, publishedAt: Option<Time>)
    | CallerGone(id: Id)                                    // returned without marking
    | Restart
    // the polling loop
    | ReadClock
    | QueryFails
    | Query(limit: nat, ids: seq<Id>)
    | Invalid                                               // Publish rejects the content
    | InsertFails(error: string)
    | Insert(command: Id)
    | Call
    | Refuse(error: string)
    | Accept
    | MarkRefused                                           // marking the row as failed, whether or not that works
    | MarkRefusedFails
    | MarkRouted
    | MarkRoutedFails(error: string)
    | Stamp
    | FinishFails
    | FinishRuns(runId: Id)

  predicate Busy(s: State) { s.loop.Working? && s.loop.todo != [] }

  ghost predicate Enabled(cfg: Config, s: State, step: Step) {
    match step
    case Tick(_) => true
    case Create(id, cmd, readAt) =>
      && readAt <= s.clock && id !in s.db.tasks
      && ValidateTextPayload(cmd.publish.payload, cfg.maxPayload).None?
      && FirstRun(cmd, readAt, cfg.zones).Ok?
    case Cancel(_, readAt) => readAt <= s.clock
    case CallerInsert(id, _, readAt) => readAt <= s.clock && id !in s.db.commands
    case CallerMark(id, status, _, publishedAt) =>
      && id in s.callers
      && ((status.Published? && publishedAt.Some? && publishedAt.value <= s.clock)
          || (status.PublishFailed? && publishedAt.None?))
    case CallerGone(id) => id in s.callers
    case Restart => true
    case ReadClock => s.loop.Idle?
    case QueryFails => s.loop.Polling?
    case Query(limit, ids) => s.loop.Polling? && limit > 0 && IsDueBatch(s.db, s.loop.now, limit, ids)
    case Invalid =>
      && Busy(s) && s.loop.stage.Waiting?
      && ValidatePublish(s.loop.todo[0].task.command.publish, cfg.maxPayload).Some?
    case InsertFails(_) =>
      && Busy(s) && s.loop.stage.Waiting?
      && ValidatePublish(s.loop.todo[0].task.command.publish, cfg.maxPayload).None?
    case Insert(command) =>
      && Busy(s) && s.loop.stage.Waiting? && command !in s.db.commands
      && ValidatePublish(s.loop.todo[0].task.command.publish, cfg.maxPayload).None?
    case Call => Busy(s) && s.loop.stage.Inserted?
    case Refuse(_) => Busy(s) && s.loop.stage.Calling?
    case Accept => Busy(s) && s.loop.stage.Calling?
    case MarkRefused => Busy(s) && s.loop.stage.Refused?
    case MarkRefusedFails => Busy(s) && s.loop.stage.Refused?
    case MarkRouted => Busy(s) && s.loop.stage.Routed?
    case MarkRoutedFails(_) => Busy(s) && s.loop.stage.Routed?
    case Stamp => Busy(s) && s.loop.stage.Returned?
    case FinishFails => Busy(s) && s.loop.stage.Stamped?
    case FinishRuns(runId) => Busy(s) && s.loop.stage.Stamped? && !RunIdUsed(s.db, runId)
  }

  function SetStage(s: State, stage: Stage): State
    requires s.loop.Working?
  {
    s.(loop := s.loop.(stage := stage))
  }

  ghost function Next(cfg: Config, s: State, step: Step): State
    requires Enabled(cfg, s, step)
  {
    match step
    case Tick(elapsed) => s.(clock := s.clock + elapsed)
    case Create(id, cmd, readAt) =>
      s.(db := InsertTask(s.db, id, NewTask(cmd, FirstRun(cmd, readAt, cfg.zones).value, readAt)))
    case Cancel(id, readAt) => s.(db := CancelTask(s.db, id, readAt))
    case CallerInsert(id, publish, readAt) =>
      s.(db := InsertCommand(s.db, id, publish, readAt), callers := s.callers + {id})
    case CallerMark(id, status, error, publishedAt) =>
      s.(db := MarkCommand(s.db, id, status, error, publishedAt), callers := s.callers - {id})
    case CallerGone(id) => s.(callers := s.callers - {id})
    case Restart => s.(loop := Idle, callers := {})
    case ReadClock => s.(loop := Polling(s.clock))
    case QueryFails => s.(loop := Idle)
    case Query(_, ids) =>
      s.(loop := if ids == [] then Idle else Working(s.loop.now, ScanAll(s.db, ids), Waiting))
    case Invalid =>
      SetStage(s, Returned(Err(ValidatePublish(s.loop.todo[0].task.command.publish, cfg.maxPayload).value)))
    case InsertFails(error) => SetStage(s, Returned(Err(error)))
    case Insert(command) =>
      SetStage(s.(db := InsertCommand(s.db, command, s.loop.todo[0].task.command.publish, s.clock)), Inserted(command))
    case Call => SetStage(s.(calls := s.calls + multiset{s.loop.todo[0].id}), Calling(s.loop.stage.command))
    case Refuse(error) => SetStage(s, Refused(s.loop.stage.command, error))
    case Accept => SetStage(s, Routed(s.loop.stage.command, s.clock))
    case MarkRefused =>
      SetStage(s.(db := MarkCommand(s.db, s.loop.stage.command, PublishFailed, s.loop.stage.error, None)),
        Returned(Err(s.loop.stage.error)))
    case MarkRefusedFails => SetStage(s, Returned(Err(s.loop.stage.error)))
    case MarkRouted =>
      SetStage(s.(db := MarkCommand(s.db, s.loop.stage.command, Published, "", Some(s.loop.stage.publishedAt))),
        Returned(Ok(s.loop.stage.command)))
    case MarkRoutedFails(error) => SetStage(s, Returned(Err(error)))
    case Stamp => SetStage(s, Stamped(s.loop.stage.result, s.clock))
    case FinishFails => s.(loop := Advance(s.loop.startedAt, s.loop.todo))
    case FinishRuns(runId) =>
      var f := Outcome(cfg, s.loop.todo[0], s.loop.startedAt, s.loop.stage.result, s.loop.stage.finishedAt, runId);
      s.(db := FinishRun(s.db, f), loop := Advance(s.loop.startedAt, s.loop.todo))
  }

  // ---------- runs of the machine ----------

  ghost predicate CanRun(cfg: Config, s: State, steps: seq<Step>)
    decreases |steps|, 0
  {
    steps == [] || (CanRun(cfg, s, steps[..|steps| - 1])
      && Enabled(cfg, After(cfg, s, steps[..|steps| - 1]), steps[|steps| - 1]))
  }

  /** The state after a sequence of steps, from left to right. */
  ghost function After(cfg: Config, s: State, steps: seq<Step>): State
    requires CanRun(cfg, s, steps)
    decreases |steps|, 1
  {
    if steps == [] then s else Next(cfg, After(cfg, s, steps[..|steps| - 1]), steps[|steps| - 1])
  }

  ghost predicate Reachable(cfg: Config, s: State) {
    exists start, steps :: CanRun(cfg, Init(start), steps) && s == After(cfg, Init(start), steps)
  }

  lemma RunOneMore(cfg: Config, s: State, steps: seq<Step>, step: Step)
    requires CanRun(cfg, s, steps) && Enabled(cfg, After(cfg, s, steps), step)
    ensures CanRun(cfg, s, steps + [step])
    ensures After(cfg, s, steps + [step]) == Next(cfg, After(cfg, s, steps), step)
  {
    assert (steps + [step])[..|steps|] == steps;
  }
}
