/** What every reachable state of the scheduled-publish engine satisfies. */
module SchedulerInvariant {
  import opened Basics
  import opened Domain
  import opened Schedule
  import opened Scheduler

  // ---------- counting runs ----------

  /** The number of recorded runs of a task. */
  function RunsOf(runs: seq<Run>, id: Id): nat {
    if runs == [] then 0
    else RunsOf(runs[..|runs| - 1], id) + (if runs[|runs| - 1].taskId == id then 1 else 0)
  }

  lemma CountAppend(runs: seq<Run>, run: Run, id: Id)
    ensures RunsOf(runs + [run], id) == RunsOf(runs, id) + (if run.taskId == id then 1 else 0)
  {
    assert (runs + [run])[..|runs|] == runs;
  }

  // ---------- the invariant ----------

  /** Content that `Publish` accepts, with a schedule that always has a next run
      unless it is a one-time schedule. */
  predicate Accepted(cfg: Config, cmd: Command<Weekdays>) {
    && ValidatePublish(cmd.publish, cfg.maxPayload).None?
    && match cmd.kind
       case Once => cmd.runAt.Some?
       case Other(_) => false
       case _ => RuleOf(cmd, cfg.zones).Ok?
  }

  /** Every recorded run of `id` was over before `t`. */
  predicate RunsOverBefore(runs: seq<Run>, id: Id, t: Time) {
    forall r | r in runs && r.taskId == id :: r.finishedAt < t
  }

  predicate TaskOk(cfg: Config, db: Db, id: Id)
    requires id in db.tasks
  {
    var row := db.tasks[id];
    var cmd := Decode(row.command);
    && Accepted(cfg, cmd)
    && (row.status.Active? <==> row.nextRunAt.Some?)
    && (row.status.Active? ==>
          && IsRunTime(cmd, cfg.zones, row.nextRunAt.value)
          && RunsOverBefore(db.runs, id, row.nextRunAt.value))
    && (row.status.Completed? || row.status.Failed? ==> cmd.kind.Once?)
    && (if row.status.Canceled? then row.runCount <= RunsOf(db.runs, id) <= row.runCount + 1
        else RunsOf(db.runs, id) == row.runCount)
    && (cmd.kind.Once? ==> row.runCount <= 1 && RunsOf(db.runs, id) <= 1)
    && (cmd.kind.Once? && row.status.Active? ==> row.runCount == 0)
  }

  predicate IsPublished(db: Db, command: Id) {
    && command in db.commands
    && db.commands[command].status.Published?
    && db.commands[command].publishedAt.Some?
  }

  predicate RunOk(cfg: Config, db: Db, clock: Time, r: Run) {
    && r.taskId in db.tasks
    && IsRunTime(Decode(db.tasks[r.taskId].command), cfg.zones, r.scheduledFor)
    && r.scheduledFor <= r.startedAt <= r.finishedAt <= clock
    && (r.status.RunPublished? <==> r.commandId.Some?)
    && (r.commandId.Some? ==> IsPublished(db, r.commandId.value))
  }

  /** Runs of one task follow each other in time without overlap. */
  predicate RunsOrdered(runs: seq<Run>) {
    forall i, j :: 0 <= i < j < |runs| && runs[i].taskId == runs[j].taskId ==>
      runs[i].finishedAt < runs[j].scheduledFor
  }

  predicate CommandOk(clock: Time, row: CommandRow) {
    && (row.status.Published? <==> row.publishedAt.Some?)
    && (row.publishedAt.Some? ==> row.publishedAt.value <= clock)
  }

  predicate IsPending(db: Db, command: Id) {
    command in db.commands && db.commands[command].status.Pending?
  }

  /** A task in the batch is as it was read, unless it has been canceled since. */
  predicate ItemOk(cfg: Config, db: Db, startedAt: Time, item: ScannedTask) {
    && item.id in db.tasks
    && var row := db.tasks[item.id];
    && item.task.command == Decode(row.command)
    && item.task.nextRunAt.Some?
    && item.task.nextRunAt.value <= startedAt
    && IsRunTime(item.task.command, cfg.zones, item.task.nextRunAt.value)
    && RunsOverBefore(db.runs, item.id, item.task.nextRunAt.value)
    && (row.status.Canceled? || (row.status.Active? && row.nextRunAt == item.task.nextRunAt))
    && RunsOf(db.runs, item.id) == row.runCount
    && (item.task.command.kind.Once? ==> row.runCount == 0)
  }

  predicate StageOk(db: Db, clock: Time, callers: set<Id>, startedAt: Time, stage: Stage) {
    match stage
    case Waiting => true
    case Inserted(c) => IsPending(db, c) && c !in callers
    case Calling(c) => IsPending(db, c) && c !in callers
    case Refused(c, _) => IsPending(db, c) && c !in callers
    case Routed(c, at) => IsPending(db, c) && c !in callers && at <= clock
    case Returned(result) => result.Ok? ==> IsPublished(db, result.value)
    case Stamped(result, at) => (result.Ok? ==> IsPublished(db, result.value)) && startedAt <= at <= clock
  }

  predicate DistinctItems(todo: seq<ScannedTask>) {
    forall i, j :: 0 <= i < j < |todo| ==> todo[i].id != todo[j].id
  }

  predicate LoopOk(cfg: Config, s: State) {
    match s.loop
    case Idle => true
    case Polling(now) => now <= s.clock
    case Working(startedAt, todo, stage) =>
      && startedAt <= s.clock
      && todo != []
      && DistinctItems(todo)
      && (forall item | item in todo :: ItemOk(cfg, s.db, startedAt, item))
      && StageOk(s.db, s.clock, s.callers, startedAt, stage)
  }

  predicate TasksOk(cfg: Config, db: Db) {
    forall id | id in db.tasks :: TaskOk(cfg, db, id)
  }

  predicate RunsOk(cfg: Config, s: State) {
    && (forall r | r in s.db.runs :: RunOk(cfg, s.db, s.clock, r))
    && RunsOrdered(s.db.runs)
  }

  predicate CommandsOk(s: State) {
    && (forall c | c in s.db.commands :: CommandOk(s.clock, s.db.commands[c]))
    && (forall c | c in s.callers :: IsPending(s.db, c))
  }

  predicate Inv(cfg: Config, s: State) {
    TasksOk(cfg, s.db) && RunsOk(cfg, s) && CommandsOk(s) && LoopOk(cfg, s)
  }

  // ---------- recurring schedules always go on ----------

  /** What creation checks is what every later computation needs. */
  lemma AcceptedAtCreation(cfg: Config, cmd: Command<Weekdays>, readAt: Time)
    requires ValidateTextPayload(cmd.publish.payload, cfg.maxPayload).None?
    requires FirstRun(cmd, readAt, cfg.zones).Ok?
    ensures var first := FirstRun(cmd, readAt, cfg.zones).value;
            var stored := Decode(Encode(NewTask(cmd, first, readAt).command));
      && Accepted(cfg, stored)
      && readAt < first
      && IsRunTime(stored, cfg.zones, first)
      && stored == NewTask(cmd, first, readAt).command
  {
    var first := FirstRun(cmd, readAt, cfg.zones).value;
    WeekdaysRoundTrip(cmd.weekdays);
    NextRunIsFirst(cmd, readAt, cfg.zones);
    var zoned := NewTask(cmd, first, readAt).command;
    assert Decode(Encode(zoned)) == zoned;
    SameZone(cmd, cfg.zones);
  }

  /** Filling in the default zone names the zone an empty name stood for. */
  lemma SameZone(cmd: Command<Weekdays>, zones: Zones)
    ensures Location("", zones) == Location(DEFAULT_ZONE, zones)
  {
  }

  /** After any instant, an accepted recurring command has a next run. */
  lemma RunAfterSucceeds(cfg: Config, cmd: Command<Weekdays>, after: Time)
    requires Accepted(cfg, cmd)
    ensures RunAfter(cmd, after, cfg.zones).Ok?
    ensures RunAfter(cmd, after, cfg.zones).value.Some? <==> !cmd.kind.Once?
    ensures var next := RunAfter(cmd, after, cfg.zones).value;
      next.Some? ==> after < next.value && IsRunTime(cmd, cfg.zones, next.value)
  {
    NextRunIsFirst(cmd, after, cfg.zones);
  }

  // ---------- every step keeps the invariant ----------

  lemma KeptByClock(cfg: Config, s: State, step: Step)
    requires Inv(cfg, s) && Enabled(cfg, s, step)
    requires step.Tick? || step.Restart? || step.ReadClock? || step.QueryFails?
    ensures Inv(cfg, Next(cfg, s, step))
  {
    var s' := Next(cfg, s, step);
    forall r | r in s'.db.runs
      ensures RunOk(cfg, s'.db, s'.clock, r)
    {
      assert RunOk(cfg, s.db, s.clock, r);
    }
  }

  lemma KeptByCreate(cfg: Config, s: State, step: Step)
    requires Inv(cfg, s) && Enabled(cfg, s, step) && step.Create?
    ensures Inv(cfg, Next(cfg, s, step))
  {
    var s' := Next(cfg, s, step);
    AcceptedAtCreation(cfg, step.cmd, step.readAt);
    NoRunsYet(cfg, s, step.id);
    forall id | id in s'.db.tasks
      ensures TaskOk(cfg, s'.db, id)
    {
      assert id != step.id ==> TaskOk(cfg, s.db, id);
    }
    forall r | r in s'.db.runs
      ensures RunOk(cfg, s'.db, s'.clock, r)
    {
      assert RunOk(cfg, s.db, s.clock, r);
    }
    ItemsUnaffected(cfg, s, s');
  }

  /** Runs belong to existing tasks. */
  lemma {:induction false} NoRunsYetIn(runs: seq<Run>, id: Id)
    requires forall r | r in runs :: r.taskId != id
    ensures RunsOf(runs, id) == 0
  {
    if runs != [] {
      NoRunsYetIn(runs[..|runs| - 1], id);
    }
  }

  lemma NoRunsYet(cfg: Config, s: State, id: Id)
    requires Inv(cfg, s) && id !in s.db.tasks
    ensures RunsOf(s.db.runs, id) == 0
    ensures forall r | r in s.db.runs :: r.taskId != id
  {
    forall r | r in s.db.runs
      ensures r.taskId != id
    {
      assert RunOk(cfg, s.db, s.clock, r);
    }
    NoRunsYetIn(s.db.runs, id);
  }

  /** The batch only looks at the rows of its own tasks, and cancelling is allowed. */
  lemma ItemsUnaffected(cfg: Config, s: State, s': State)
    requires LoopOk(cfg, s) && s'.loop == s.loop && s'.clock == s.clock && s'.callers == s.callers
    requires s'.db.runs == s.db.runs && s'.db.commands == s.db.commands
    requires s.db.tasks.Keys <= s'.db.tasks.Keys
    requires forall id | id in s.db.tasks ::
      s'.db.tasks[id] == s.db.tasks[id]
      || (s'.db.tasks[id].status.Canceled? && s'.db.tasks[id].command == s.db.tasks[id].command
          && s'.db.tasks[id].runCount == s.db.tasks[id].runCount)
    ensures LoopOk(cfg, s')
  {
    if s.loop.Working? {
      forall item | item in s.loop.todo
        ensures ItemOk(cfg, s'.db, s.loop.startedAt, item)
      {
        assert ItemOk(cfg, s.db, s.loop.startedAt, item);
      }
    }
  }

  lemma KeptByCancel(cfg: Config, s: State, step: Step)
    requires Inv(cfg, s) && Enabled(cfg, s, step) && step.Cancel?
    ensures Inv(cfg, Next(cfg, s, step))
  {
    hide Accepted, IsRunTime, RunsOrdered, RunsOverBefore, IsDueBatch, FirstRun, ValidatePublish;
    hide RunIdUsed, Outcome, Decode, RunsOf;
    var s' := Next(cfg, s, step);
    forall id | id in s'.db.tasks
      ensures TaskOk(cfg, s'.db, id)
    {
      assert TaskOk(cfg, s.db, id);
    }
    forall r | r in s'.db.runs
      ensures RunOk(cfg, s'.db, s'.clock, r)
    {
      assert RunOk(cfg, s.db, s.clock, r);
    }
    ItemsUnaffected(cfg, s, s');
  }

  /** Commands may appear, and pending ones may be marked; published ones stay. */
  predicate CommandsMoveOn(db: Db, db': Db) {
    && db'.tasks == db.tasks && db'.runs == db.runs
    && db.commands.Keys <= db'.commands.Keys
    && forall c | c in db.commands :: db.commands[c].status.Pending? || db'.commands[c] == db.commands[c]
  }

  lemma TablesKept(cfg: Config, s: State, s': State)
    requires Inv(cfg, s) && CommandsMoveOn(s.db, s'.db) && s.clock <= s'.clock
    ensures TasksOk(cfg, s'.db) && RunsOk(cfg, s')
    ensures s.loop.Working? ==> forall item | item in s.loop.todo :: ItemOk(cfg, s'.db, s.loop.startedAt, item)
    ensures forall c | IsPublished(s.db, c) :: IsPublished(s'.db, c)
  {
    forall id | id in s'.db.tasks
      ensures TaskOk(cfg, s'.db, id)
    {
      assert TaskOk(cfg, s.db, id);
    }
    forall r | r in s'.db.runs
      ensures RunOk(cfg, s'.db, s'.clock, r)
    {
      assert RunOk(cfg, s.db, s.clock, r);
    }
    if s.loop.Working? {
      forall item | item in s.loop.todo
        ensures ItemOk(cfg, s'.db, s.loop.startedAt, item)
      {
        assert ItemOk(cfg, s.db, s.loop.startedAt, item);
      }
    }
  }

  lemma KeptByCallers(cfg: Config, s: State, step: Step)
    requires Inv(cfg, s) && Enabled(cfg, s, step)
    requires step.CallerInsert? || step.CallerMark? || step.CallerGone?
    ensures Inv(cfg, Next(cfg, s, step))
  {
    TablesKept(cfg, s, Next(cfg, s, step));
  }

  lemma KeptByStage(cfg: Config, s: State, step: Step)
    requires Inv(cfg, s) && Enabled(cfg, s, step)
    requires step.Invalid? || step.InsertFails? || step.Call? || step.Refuse? || step.Accept?
          || step.MarkRefusedFails? || step.MarkRoutedFails? || step.Stamp?
    ensures Inv(cfg, Next(cfg, s, step))
  {
    hide TasksOk, ItemOk, RunOk, RunsOrdered, ValidatePublish;
  }

  lemma CommandsAdvance(cfg: Config, s: State, step: Step)
    requires LoopOk(cfg, s) && Enabled(cfg, s, step)
    requires step.Insert? || step.MarkRefused? || step.MarkRouted?
    ensures CommandsMoveOn(s.db, Next(cfg, s, step).db)
  {
    hide ItemOk, ValidatePublish;
  }

  lemma KeptByCommand(cfg: Config, s: State, step: Step)
    requires Inv(cfg, s) && Enabled(cfg, s, step)
    requires step.Insert? || step.MarkRefused? || step.MarkRouted?
    ensures Inv(cfg, Next(cfg, s, step))
  {
    hide TasksOk, ItemOk, RunOk, RunsOrdered, ValidatePublish, FirstRun, IsDueBatch, RunIdUsed, Outcome;
    CommandsAdvance(cfg, s, step);
    TablesKept(cfg, s, Next(cfg, s, step));
  }

  lemma KeptByQuery(cfg: Config, s: State, step: Step)
    requires Inv(cfg, s) && Enabled(cfg, s, step) && step.Query?
    ensures Inv(cfg, Next(cfg, s, step))
  {
    var s' := Next(cfg, s, step);
    if step.ids != [] {
      forall item | item in s'.loop.todo
        ensures ItemOk(cfg, s.db, s.loop.now, item)
      {
        var i :| 0 <= i < |step.ids| && item == s'.loop.todo[i];
        assert IsDue(s.db, s.loop.now, step.ids[i]);
        assert TaskOk(cfg, s.db, item.id);
      }
    }
  }

  lemma RestOfBatch(cfg: Config, s: State)
    requires LoopOk(cfg, s) && Busy(s)
    ensures LoopOk(cfg, s.(loop := Advance(s.loop.startedAt, s.loop.todo)))
    ensures forall item | item in s.loop.todo[1..] :: item.id != s.loop.todo[0].id
  {
  }

  lemma KeptByFinishFails(cfg: Config, s: State, step: Step)
    requires Inv(cfg, s) && Enabled(cfg, s, step) && step.FinishFails?
    ensures Inv(cfg, Next(cfg, s, step))
  {
    RestOfBatch(cfg, s);
  }

  // ---------- the step that records a run ----------

  lemma RecordedTask(cfg: Config, db: Db, item: ScannedTask, startedAt: Time, result: Result<Id>, finishedAt: Time,
                     runId: Id)
    requires item.id in db.tasks && TaskOk(cfg, db, item.id)
    requires ItemOk(cfg, db, startedAt, item) && startedAt <= finishedAt
    ensures TaskOk(cfg, FinishRun(db, Outcome(cfg, item, startedAt, result, finishedAt, runId)), item.id)
  {
    hide IsRunTime, RunAfter;
    var db' := FinishRun(db, Outcome(cfg, item, startedAt, result, finishedAt, runId));
    assert IsRunTime(item.task.command, cfg.zones, item.task.nextRunAt.value);
    RunAfterSucceeds(cfg, item.task.command, finishedAt);
    CountAppend(db.runs, db'.runs[|db.runs|], item.id);
    assert item.task.nextRunAt.value <= finishedAt;
  }

  lemma OtherTasks(cfg: Config, db: Db, f: Finish, id: Id)
    requires id in db.tasks && TaskOk(cfg, db, id) && id != f.taskId
    ensures TaskOk(cfg, FinishRun(db, f), id)
    ensures RunsOf(FinishRun(db, f).runs, id) == RunsOf(db.runs, id)
    ensures forall t :: RunsOverBefore(db.runs, id, t) ==> RunsOverBefore(FinishRun(db, f).runs, id, t)
  {
    hide Accepted, IsRunTime, Decode;
    CountAppend(db.runs, FinishRun(db, f).runs[|db.runs|], id);
  }

  lemma OtherItems(cfg: Config, db: Db, f: Finish, startedAt: Time, item: ScannedTask)
    requires ItemOk(cfg, db, startedAt, item) && TaskOk(cfg, db, item.id) && item.id != f.taskId
    ensures ItemOk(cfg, FinishRun(db, f), startedAt, item)
  {
    hide TaskOk, IsRunTime, Decode, RunsOverBefore;
    OtherTasks(cfg, db, f, item.id);
  }

  lemma RecordedRun(cfg: Config, s: State, f: Finish, item: ScannedTask)
    requires RunsOk(cfg, s) && ItemOk(cfg, s.db, f.startedAt, item) && f.taskId == item.id
    requires Some(f.scheduledFor) == item.task.nextRunAt && f.startedAt <= f.finishedAt <= s.clock
    requires f.runStatus.RunPublished? <==> f.commandId.Some?
    requires f.commandId.Some? ==> IsPublished(s.db, f.commandId.value)
    ensures RunsOk(cfg, s.(db := FinishRun(s.db, f)))
  {
    hide IsRunTime, Decode;
    var s' := s.(db := FinishRun(s.db, f));
    forall r | r in s'.db.runs
      ensures RunOk(cfg, s'.db, s'.clock, r)
    {
      assert r in s.db.runs ==> RunOk(cfg, s.db, s.clock, r);
    }
    assert forall i | 0 <= i < |s.db.runs| :: s.db.runs[i] in s.db.runs && s'.db.runs[i] == s.db.runs[i];
  }

  lemma KeptByFinishRuns(cfg: Config, s: State, step: Step)
    requires Inv(cfg, s) && Enabled(cfg, s, step) && step.FinishRuns?
    ensures Inv(cfg, Next(cfg, s, step))
  {
    hide TaskOk, ItemOk, RunOk, RunsOrdered, FinishRun, RunIdUsed;
    var item, stage := s.loop.todo[0], s.loop.stage;
    var f := Outcome(cfg, item, s.loop.startedAt, stage.result, stage.finishedAt, step.runId);
    RecordingKeeps(cfg, s, f, item, stage.result, stage.finishedAt, step.runId);
    RestOfBatch(cfg, s);
    forall other | other in s.loop.todo[1..]
      ensures ItemOk(cfg, FinishRun(s.db, f), s.loop.startedAt, other)
    {
      ItemHasTask(cfg, s.db, s.loop.startedAt, other);
      OtherItems(cfg, s.db, f, s.loop.startedAt, other);
    }
    FinishKeepsCommands(s.db, f);
  }

  lemma ItemHasTask(cfg: Config, db: Db, startedAt: Time, item: ScannedTask)
    requires TasksOk(cfg, db) && ItemOk(cfg, db, startedAt, item)
    ensures item.id in db.tasks && TaskOk(cfg, db, item.id)
  {
  }

  lemma FinishKeepsCommands(db: Db, f: Finish)
    ensures FinishRun(db, f).commands == db.commands
    ensures FinishRun(db, f).tasks.Keys == db.tasks.Keys
  {
  }

  lemma RecordingKeeps(cfg: Config, s: State, f: Finish, item: ScannedTask, result: Result<Id>, finishedAt: Time,
                       runId: Id)
    requires TasksOk(cfg, s.db) && RunsOk(cfg, s) && ItemOk(cfg, s.db, f.startedAt, item)
    requires f == Outcome(cfg, item, f.startedAt, result, finishedAt, runId)
    requires f.startedAt <= finishedAt <= s.clock
    requires result.Ok? ==> IsPublished(s.db, result.value)
    ensures TasksOk(cfg, FinishRun(s.db, f)) && RunsOk(cfg, s.(db := FinishRun(s.db, f)))
  {
    hide TaskOk, RunsOk, FinishRun, RunAfter;
    ItemHasTask(cfg, s.db, f.startedAt, item);
    FinishKeepsCommands(s.db, f);
    RecordedTask(cfg, s.db, item, f.startedAt, result, finishedAt, runId);
    forall id | id in s.db.tasks && id != item.id
      ensures TaskOk(cfg, FinishRun(s.db, f), id)
    {
      OtherTasks(cfg, s.db, f, id);
    }
    RecordedRun(cfg, s, f, item);
  }

  lemma StepKeepsInv(cfg: Config, s: State, step: Step)
    requires Inv(cfg, s) && Enabled(cfg, s, step)
    ensures Inv(cfg, Next(cfg, s, step))
  {
    match step
    case Tick(_) => KeptByClock(cfg, s, step);
    case Restart => KeptByClock(cfg, s, step);
    case ReadClock => KeptByClock(cfg, s, step);
    case QueryFails => KeptByClock(cfg, s, step);
    case Create(_, _, _) => KeptByCreate(cfg, s, step);
    case Cancel(_, _) => KeptByCancel(cfg, s, step);
    case CallerInsert(_, _, _) => KeptByCallers(cfg, s, step);
    case CallerMark(_, _, _, _) => KeptByCallers(cfg, s, step);
    case CallerGone(_) => KeptByCallers(cfg, s, step);
    case Query(_, _) => KeptByQuery(cfg, s, step);
    case FinishFails => KeptByFinishFails(cfg, s, step);
    case FinishRuns(_) => KeptByFinishRuns(cfg, s, step);
    case Insert(_) => KeptByCommand(cfg, s, step);
    case MarkRefused => KeptByCommand(cfg, s, step);
    case MarkRouted => KeptByCommand(cfg, s, step);
    case _ => KeptByStage(cfg, s, step);
  }

  lemma {:induction false} RunKeepsInv(cfg: Config, s: State, steps: seq<Step>)
    requires Inv(cfg, s) && CanRun(cfg, s, steps)
    ensures Inv(cfg, After(cfg, s, steps))
  {
    if steps != [] {
      RunKeepsInv(cfg, s, steps[..|steps| - 1]);
      StepKeepsInv(cfg, After(cfg, s, steps[..|steps| - 1]), steps[|steps| - 1]);
    }
  }

  lemma ReachableInv(cfg: Config, s: State)
    requires Reachable(cfg, s)
    ensures Inv(cfg, s)
  {
    var start, steps :| CanRun(cfg, Init(start), steps) && s == After(cfg, Init(start), steps);
    RunKeepsInv(cfg, Init(start), steps);
  }
}
