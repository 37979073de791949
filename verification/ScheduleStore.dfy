/** The scheduled-publish part of internal/storage/postgres/store.go: three tables
    and the statements on them. `fault` parameters say which statement, if any, the
    database fails; a failed statement or transaction changes nothing. */
module ScheduleStore {
  import opened Basics
  import opened Domain
  import opened Schedule
  import opened Scheduler

  const INTERNAL: string := "internal_error"

  /** Where a two-statement transaction breaks off. */
  datatype TxFault = NoFault | BeginFails | FirstFails | SecondFails | CommitFails

  method ScanScheduledTask(id: Id, row: Row) returns (scanned: ScannedTask)
    ensures scanned == Scan(id, row)
  {
    var c := row.command;
    var days := DecodeWeekdays(c.weekdays);
    var command := Command(c.deviceId, c.name, c.publish, c.kind, c.runAt, c.timeOfDay, days, c.timezone);
    scanned := ScannedTask(id, Task(command, row.status, row.nextRunAt, row.lastRunAt, row.lastError, row.runCount,
      row.createdAt, row.updatedAt));
  }

  class Store {
    var tasks: map<Id, Row>
    var runs: seq<Run>
    var commands: map<Id, CommandRow>

    constructor ()
      ensures Tables() == Db(map[], [], map[])
    {
      tasks, runs, commands := map[], [], map[];
    }

    function Tables(): Db
      reads this
    {
      Db(tasks, runs, commands)
    }

    method CreateScheduledTask(id: Id, task: Task<Weekdays>, fault: bool) returns (r: Result<ScannedTask>)
      modifies this
      ensures r.Ok? <==> !fault && id !in old(tasks)
      ensures r.Ok? ==> Tables() == InsertTask(old(Tables()), id, task) && r.value == Scan(id, tasks[id])
      ensures r.Err? ==> Tables() == old(Tables())
    {
      if fault || id in tasks {
        return Err(INTERNAL);
      }
      var c := task.command;
      var days := EncodeWeekdays(c.weekdays);
      var stored := Command(c.deviceId, c.name, c.publish, c.kind, c.runAt, c.timeOfDay, days, c.timezone);
      tasks := tasks[id := Task(stored, task.status, task.nextRunAt, None, "", 0, task.createdAt, task.createdAt)];
      var scanned := ScanScheduledTask(id, tasks[id]);
      r := Ok(scanned);
    }

    method CancelScheduledTask(id: Id, at: Time, fault: bool) returns (r: Result<ScannedTask>)
      modifies this
      ensures r.Ok? <==> !fault && id in old(tasks)
      ensures r.Ok? ==> Tables() == CancelTask(old(Tables()), id, at) && r.value == Scan(id, tasks[id])
      ensures r.Ok? ==>
        && tasks[id].status == Canceled && tasks[id].nextRunAt == None && tasks[id].updatedAt == at
        && tasks == old(tasks)[id := old(tasks)[id].(status := Canceled, nextRunAt := None, updatedAt := at)]
        && forall now :: !IsDue(Tables(), now, id)
      ensures r.Err? ==> Tables() == old(Tables())
    {
      if fault || id !in tasks {
        return Err(INTERNAL);
      }
      tasks := tasks[id := tasks[id].(status := Canceled, nextRunAt := None, updatedAt := at)];
      var scanned := ScanScheduledTask(id, tasks[id]);
      r := Ok(scanned);
    }

    /** Picks an earliest due task not yet in `ids`. */
    method EarliestOf(rest: set<Id>) returns (first: Id)
      requires rest != {}
      requires forall id | id in rest :: id in tasks && tasks[id].nextRunAt.Some?
      ensures first in rest && forall id | id in rest :: NotAfter(Tables(), first, id)
    {
      first :| first in rest;
      var left := rest - {first};
      while left != {}
        invariant left <= rest && first in rest
        invariant forall id | id in rest && id !in left :: NotAfter(Tables(), first, id)
        decreases |left|
      {
        var id :| id in left;
        if tasks[id].nextRunAt.value < tasks[first].nextRunAt.value {
          first := id;
        }
        left := left - {id};
      }
    }

    /** Active, with a next run that has come. */
    predicate Due(now: Time, id: Id)
      reads this
    {
      && id in tasks && tasks[id].status == Active
      && tasks[id].nextRunAt.Some? && tasks[id].nextRunAt.value <= now
    }

    predicate NoLater(a: Id, b: Id)
      reads this
    {
      && a in tasks && tasks[a].nextRunAt.Some? && b in tasks && tasks[b].nextRunAt.Some?
      && tasks[a].nextRunAt.value <= tasks[b].nextRunAt.value
    }

    /** The earliest due tasks in order, each once, as many as the limit allows. */
    ghost predicate AreEarliest(now: Time, limit: nat, ids: seq<Id>)
      reads this
    {
      && |ids| <= limit
      && (forall i, j | 0 <= i < j < |ids| :: ids[i] != ids[j] && NoLater(ids[i], ids[j]))
      && (forall id | id in ids :: Due(now, id))
      && (forall late | Due(now, late) && late !in ids :: |ids| == limit && forall id | id in ids :: NoLater(id, late))
    }

    lemma BatchIsEarliest(now: Time, limit: nat, ids: seq<Id>)
      requires IsDueBatch(Tables(), now, limit, ids)
      ensures AreEarliest(now, limit, ids)
    {
      assert forall id :: Due(now, id) <==> IsDue(Tables(), now, id);
      assert forall x, y :: NoLater(x, y) <==> NotAfter(Tables(), x, y);
    }

    /** The due query: due tasks, earliest first, up to `limit`. */
    method SelectDue(now: Time, limit: nat) returns (ids: seq<Id>)
      ensures IsDueBatch(Tables(), now, limit, ids)
      ensures AreEarliest(now, limit, ids)
    {
      var rest := set id |
        id in tasks && tasks[id].status.Active? && tasks[id].nextRunAt.Some? && tasks[id].nextRunAt.value <= now;
      ids := [];
      while rest != {} && |ids| < limit
        invariant |ids| <= limit && Distinct(ids)
        invariant forall id :: IsDue(Tables(), now, id) <==> id in rest || id in ids
        invariant forall id | id in rest :: id !in ids
        invariant forall id, late | id in ids && late in rest :: NotAfter(Tables(), id, late)
        invariant forall i, j :: 0 <= i < j < |ids| ==> NotAfter(Tables(), ids[i], ids[j])
        decreases |rest|
      {
        assert forall id | id in rest :: IsDue(Tables(), now, id);
        var first := EarliestOf(rest);
        forall i | 0 <= i < |ids|
          ensures NotAfter(Tables(), ids[i], first) && ids[i] != first
        {
          assert ids[i] in ids;
        }
        ids := ids + [first];
        rest := rest - {first};
      }
      BatchIsEarliest(now, limit, ids);
    }

    method ScanRows(ids: seq<Id>) returns (scanned: seq<ScannedTask>)
      requires forall id | id in ids :: id in tasks
      ensures scanned == ScanAll(Tables(), ids)
    {
      hide Scan;
      scanned := [];
      for i := 0 to |ids|
        invariant |scanned| == i
        invariant forall k | 0 <= k < i :: scanned[k] == Scan(ids[k], tasks[ids[k]])
      {
        var task := ScanScheduledTask(ids[i], tasks[ids[i]]);
        scanned := scanned + [task];
      }
    }

    method ListDueScheduledTasks(now: Time, limit: nat, fault: bool)
      returns (r: Result<seq<ScannedTask>>, ghost ids: seq<Id>)
      ensures r.Ok? <==> !fault
      ensures r.Ok? ==> IsDueBatch(Tables(), now, limit, ids) && r.value == ScanAll(Tables(), ids)
    {
      if fault {
        return Err(INTERNAL), [];
      }
      var rows := SelectDue(now, limit);
      forall id | id in rows
        ensures id in tasks
      {
        assert IsDue(Tables(), now, id);
      }
      var scanned := ScanRows(rows);
      r, ids := Ok(scanned), rows;
    }

    /** Records a run and moves the task on, both or neither. */
    method FinishScheduledRun(f: Finish, fault: TxFault) returns (error: Option<string>)
      modifies this
      ensures error == if !fault.NoFault? || RunIdUsed(old(Tables()), f.runId) then Some(INTERNAL) else None
      ensures Tables() == if error.None? then FinishRun(old(Tables()), f) else old(Tables())
    {
      if fault.BeginFails? {
        return Some(INTERNAL);
      }
      // Statements work on the transaction's view until it commits.
      var view := Tables();
      if fault.FirstFails? || RunIdUsed(view, f.runId) {
        return Some(INTERNAL);
      }
      var run := Run(f.runId, f.taskId, f.commandId, f.runStatus, f.error, f.scheduledFor, f.startedAt, f.finishedAt);
      view := view.(runs := view.runs + [run]);
      if fault.SecondFails? {
        return Some(INTERNAL);
      }
      if f.taskId in view.tasks && view.tasks[f.taskId].status.Active? {
        var row := view.tasks[f.taskId];
        view := view.(tasks := view.tasks[f.taskId := row.(status := f.taskStatus, nextRunAt := f.nextRunAt,
          lastRunAt := Some(f.finishedAt), lastError := f.error, runCount := row.runCount + 1,
          updatedAt := f.finishedAt)]);
      }
      if fault.CommitFails? {
        return Some(INTERNAL);
      }
      tasks, runs := view.tasks, view.runs;
      return None;
    }

    method CreatePublishCommand(id: Id, publish: PublishCommand, at: Time, fault: bool) returns (error: Option<string>)
      modifies this
      ensures error == if fault || id in old(commands) then Some(INTERNAL) else None
      ensures Tables() == if error.None? then InsertCommand(old(Tables()), id, publish, at) else old(Tables())
    {
      if fault || id in commands {
        return Some(INTERNAL);
      }
      commands := commands[id := CommandRow(publish, Pending, "", at, None)];
      return None;
    }

    method MarkPublishCommand(id: Id, status: PublishStatus, text: string, publishedAt: Option<Time>, fault: bool)
      returns (error: Option<string>)
      modifies this
      ensures error == if fault then Some(INTERNAL) else None
      ensures Tables() ==
        if error.None? then MarkCommand(old(Tables()), id, status, text, publishedAt) else old(Tables())
    {
      if fault {
        return Some(INTERNAL);
      }
      if id in commands {
        commands := commands[id := commands[id].(status := status, error := text, publishedAt := publishedAt)];
      }
      return None;
    }
  }
}
