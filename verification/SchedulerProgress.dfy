/** No task starves: whatever is overdue is worked off at `limit` tasks per poll. */
module SchedulerProgress {
  import opened Basics
  import opened Domain
  import opened Schedule
  import opened Scheduler
  import opened SchedulerInvariant
  import opened SchedulerTheorems

  /** The active tasks whose next run is at `cutoff` or earlier. */
  ghost function Overdue(db: Db, cutoff: Time): set<Id> {
    set id | id in db.tasks && IsDue(db, cutoff, id)
  }

  // ---------- nothing is added ----------

  /** Exactly what creating a task does to the overdue set: it adds the task if its first
      run is at `cutoff` or earlier. The service reads the clock before it inserts, so
      that can happen for a creation that read the clock before `cutoff`. */
  lemma CreateAdds(cfg: Config, s: State, step: Step, cutoff: Time)
    requires Enabled(cfg, s, step) && step.Create?
    ensures Overdue(Next(cfg, s, step).db, cutoff) ==
      Overdue(s.db, cutoff) + (if FirstRun(step.cmd, step.readAt, cfg.zones).value <= cutoff then {step.id} else {})
    ensures cutoff <= step.readAt ==> Overdue(Next(cfg, s, step).db, cutoff) == Overdue(s.db, cutoff)
  {
    NextRunIsFirst(step.cmd, step.readAt, cfg.zones);
  }

  /** A creation delayed between its clock reading and its insert: the task is overdue
      from the start. */
  lemma DelayedCreateIsOverdue(cfg: Config, s: State, id: Id, cmd: Command<Weekdays>)
    requires id !in s.db.tasks && cmd.kind.Once?
    requires cmd.deviceId == "d" && cmd.publish == PublishCommand("a", "t", "", 0, false)
    requires cmd.runAt == Some(s.clock - 1)
    ensures Enabled(cfg, s, Create(id, cmd, s.clock - 2))
    ensures id in Overdue(Next(cfg, s, Create(id, cmd, s.clock - 2)).db, s.clock)
  {
    assert Utf8Length("t") == 1;
    assert Utf8Length("") == 0;
    CreateAdds(cfg, s, Create(id, cmd, s.clock - 2), s.clock);
  }

  lemma FinishMoves(cfg: Config, db: Db, item: ScannedTask, startedAt: Time, result: Result<Id>, finishedAt: Time,
                    runId: Id, cutoff: Time, id: Id)
    requires ItemOk(cfg, db, startedAt, item) && TaskOk(cfg, db, item.id) && startedAt <= finishedAt
    requires IsDue(FinishRun(db, Outcome(cfg, item, startedAt, result, finishedAt, runId)), cutoff, id)
    ensures IsDue(db, cutoff, id)
    ensures cutoff <= startedAt ==> id != item.id
  {
    hide RunAfter, IsRunTime, RunsOverBefore;
    RunAfterSucceeds(cfg, item.task.command, finishedAt);
  }

  /** Recording a run moves the task's next run later or settles the task. */
  lemma FinishAdds(cfg: Config, s: State, step: Step, cutoff: Time)
    requires Inv(cfg, s) && Enabled(cfg, s, step) && step.FinishRuns?
    ensures Overdue(Next(cfg, s, step).db, cutoff) <= Overdue(s.db, cutoff)
    ensures cutoff <= s.loop.startedAt ==> s.loop.todo[0].id !in Overdue(Next(cfg, s, step).db, cutoff)
  {
    hide ItemOk, TaskOk, RunsOk, CommandsOk, IsDue, FinishRun, Outcome, RunIdUsed;
    var item, stage := s.loop.todo[0], s.loop.stage;
    ItemHasTask(cfg, s.db, s.loop.startedAt, item);
    forall id | id in Overdue(Next(cfg, s, step).db, cutoff)
      ensures id in Overdue(s.db, cutoff)
      ensures cutoff <= s.loop.startedAt ==> id != item.id
    {
      FinishMoves(cfg, s.db, item, s.loop.startedAt, stage.result, stage.finishedAt, step.runId, cutoff, id);
      DueExists(s.db, cutoff, id);
    }
  }

  lemma DueExists(db: Db, cutoff: Time, id: Id)
    requires IsDue(db, cutoff, id)
    ensures id in db.tasks
  {
  }

  lemma OthersAdd(cfg: Config, s: State, step: Step, cutoff: Time)
    requires Enabled(cfg, s, step) && !step.Create? && !step.FinishRuns?
    ensures Overdue(Next(cfg, s, step).db, cutoff) <= Overdue(s.db, cutoff)
  {
  }

  // ---------- over a run ----------

  /** A creation whose first run is at `cutoff` or earlier. */
  predicate IsEarly(cfg: Config, step: Step, cutoff: Time) {
    && step.Create?
    && var first := FirstRun(step.cmd, step.readAt, cfg.zones);
    first.Ok? && first.value <= cutoff
  }

  /** The tasks such creations add. */
  function EarlyIds(cfg: Config, steps: seq<Step>, cutoff: Time): set<Id> {
    if steps == [] then {}
    else
      var last := steps[|steps| - 1];
      EarlyIds(cfg, steps[..|steps| - 1], cutoff) + (if IsEarly(cfg, last, cutoff) then {last.id} else {})
  }

  function Early(cfg: Config, steps: seq<Step>, cutoff: Time): nat {
    if steps == [] then 0
    else Early(cfg, steps[..|steps| - 1], cutoff) + (if IsEarly(cfg, steps[|steps| - 1], cutoff) then 1 else 0)
  }

  lemma {:induction false} EarlyIdsCounted(cfg: Config, steps: seq<Step>, cutoff: Time)
    ensures |EarlyIds(cfg, steps, cutoff)| <= Early(cfg, steps, cutoff)
  {
    if steps != [] {
      EarlyIdsCounted(cfg, steps[..|steps| - 1], cutoff);
    }
  }

  lemma {:induction false} EarlyAppend(cfg: Config, a: seq<Step>, b: seq<Step>, cutoff: Time)
    ensures Early(cfg, a + b, cutoff) == Early(cfg, a, cutoff) + Early(cfg, b, cutoff)
  {
    if b == [] {
      assert a + b == a;
    } else {
      assert (a + b)[..|a + b| - 1] == a + b[..|b| - 1];
      EarlyAppend(cfg, a, b[..|b| - 1], cutoff);
    }
  }

  lemma {:induction false} NoneEarly(cfg: Config, steps: seq<Step>, cutoff: Time)
    ensures Early(cfg, steps, cutoff) == 0 <==> forall step | step in steps :: !IsEarly(cfg, step, cutoff)
  {
    if steps != [] {
      hide IsEarly;
      var init, last := steps[..|steps| - 1], steps[|steps| - 1];
      NoneEarly(cfg, init, cutoff);
      assert steps == init + [last];
    }
  }

  lemma StepAdds(cfg: Config, s: State, step: Step, cutoff: Time)
    requires Inv(cfg, s) && Enabled(cfg, s, step)
    ensures Overdue(Next(cfg, s, step).db, cutoff) <=
      Overdue(s.db, cutoff) + (if IsEarly(cfg, step, cutoff) then {step.id} else {})
  {
    if step.Create? {
      CreateAdds(cfg, s, step, cutoff);
    } else if step.FinishRuns? {
      FinishAdds(cfg, s, step, cutoff);
    } else {
      OthersAdd(cfg, s, step, cutoff);
    }
  }

  /** Over any run, only creations with an early first run add to the overdue set. */
  lemma {:induction false} OverdueGrows(cfg: Config, s: State, steps: seq<Step>, cutoff: Time)
    requires Inv(cfg, s) && CanRun(cfg, s, steps)
    ensures Overdue(After(cfg, s, steps).db, cutoff) <= Overdue(s.db, cutoff) + EarlyIds(cfg, steps, cutoff)
  {
    if steps != [] {
      hide Inv, Enabled, Next, Overdue, IsEarly;
      var init := steps[..|steps| - 1];
      OverdueGrows(cfg, s, init, cutoff);
      RunKeepsInv(cfg, s, init);
      StepAdds(cfg, After(cfg, s, init), steps[|steps| - 1], cutoff);
    }
  }

  lemma OverdueCount(cfg: Config, s: State, steps: seq<Step>, cutoff: Time)
    requires Inv(cfg, s) && CanRun(cfg, s, steps)
    ensures |Overdue(After(cfg, s, steps).db, cutoff)| <= |Overdue(s.db, cutoff)| + Early(cfg, steps, cutoff)
  {
    hide Inv, Enabled, Next, Overdue, EarlyIds, Early;
    OverdueGrows(cfg, s, steps, cutoff);
    EarlyIdsCounted(cfg, steps, cutoff);
    Shrink(Overdue(After(cfg, s, steps).db, cutoff), Overdue(s.db, cutoff) + EarlyIds(cfg, steps, cutoff));
  }

  /** After the first `n` steps nothing is overdue that was not so from the start. */
  ghost predicate NothingNew(cfg: Config, s: State, steps: seq<Step>, n: nat, cutoff: Time)
    requires n <= |steps|
  {
    CanRun(cfg, s, steps[..n]) && Overdue(After(cfg, s, steps[..n]).db, cutoff) <= Overdue(s.db, cutoff)
  }

  lemma EarlyTaskIsNew(cfg: Config, s: State, steps: seq<Step>, n: nat, cutoff: Time)
    requires Inv(cfg, s) && CanRun(cfg, s, steps) && n < |steps| && IsEarly(cfg, steps[n], cutoff)
    ensures !NothingNew(cfg, s, steps, n + 1, cutoff)
  {
    hide Inv, Enabled, Next;
    assert steps == steps[..n + 1] + steps[n + 1..];
    RunAppend(cfg, s, steps[..n + 1], steps[n + 1..]);
    assert steps[..n + 1][..n] == steps[..n];
    NothingRevives(cfg, s, steps[..n]);
    CreatedOverdue(cfg, After(cfg, s, steps[..n]), steps[n], cutoff);
    assert steps[n].id in Overdue(After(cfg, s, steps[..n + 1]).db, cutoff);
  }

  lemma CreatedOverdue(cfg: Config, s: State, step: Step, cutoff: Time)
    requires Enabled(cfg, s, step) && IsEarly(cfg, step, cutoff)
    ensures step.id !in s.db.tasks && step.id in Overdue(Next(cfg, s, step).db, cutoff)
  {
    CreateAdds(cfg, s, step, cutoff);
  }

  /** Exactly when the overdue set only ever shrinks: when no creation has its first run
      at `cutoff` or earlier. */
  lemma OverdueShrinks(cfg: Config, s: State, steps: seq<Step>, cutoff: Time)
    requires Inv(cfg, s) && CanRun(cfg, s, steps)
    ensures (forall n | 0 <= n <= |steps| :: NothingNew(cfg, s, steps, n, cutoff))
      <==> forall step | step in steps :: !IsEarly(cfg, step, cutoff)
  {
    hide Inv, Enabled, Next, Overdue, IsEarly, NothingNew, CanRun, After;
    if forall step | step in steps :: !IsEarly(cfg, step, cutoff) {
      forall n | 0 <= n <= |steps|
        ensures NothingNew(cfg, s, steps, n, cutoff)
      {
        PrefixAddsNothing(cfg, s, steps, n, cutoff);
      }
    } else {
      var n :| 0 <= n < |steps| && IsEarly(cfg, steps[n], cutoff);
      EarlyTaskIsNew(cfg, s, steps, n, cutoff);
    }
  }

  lemma PrefixAddsNothing(cfg: Config, s: State, steps: seq<Step>, n: nat, cutoff: Time)
    requires Inv(cfg, s) && CanRun(cfg, s, steps) && n <= |steps|
    requires forall step | step in steps :: !IsEarly(cfg, step, cutoff)
    ensures NothingNew(cfg, s, steps, n, cutoff)
  {
    hide Inv, Enabled, Next, Overdue, IsEarly;
    assert steps == steps[..n] + steps[n..];
    RunAppend(cfg, s, steps[..n], steps[n..]);
    OverdueGrows(cfg, s, steps[..n], cutoff);
    assert forall step | step in steps[..n] :: step in steps;
    NoneEarly(cfg, steps[..n], cutoff);
    EarlyIdsCounted(cfg, steps[..n], cutoff);
  }

  // ---------- one poll ----------

  /** A poll in which the query is answered and every run is recorded, with anything
      the environment does in between; publishes may fail. */
  predicate Clean(step: Step) {
    !step.Restart? && !step.ReadClock? && !step.QueryFails? && !step.Query? && !step.FinishFails?
  }

  function TodoIds(s: State): set<Id> {
    if s.loop.Working? then set item | item in s.loop.todo :: item.id else {}
  }

  /** Part of the batch `ids` may be left; the rest of it is no longer overdue. */
  ghost predicate Working(s: State, ids: set<Id>, cutoff: Time) {
    && !s.loop.Polling?
    && ids <= s.db.tasks.Keys
    && (s.loop.Working? ==> cutoff <= s.loop.startedAt)
    && TodoIds(s) <= ids
    && Overdue(s.db, cutoff) * ids <= TodoIds(s)
  }

  lemma WorkingStep(cfg: Config, s: State, step: Step, ids: set<Id>, cutoff: Time)
    requires Inv(cfg, s) && Enabled(cfg, s, step) && Clean(step)
    requires Working(s, ids, cutoff)
    ensures Working(Next(cfg, s, step), ids, cutoff)
  {
    hide TasksOk, RunsOk, CommandsOk, IsDueBatch, ValidatePublish, FirstRun, RunIdUsed, Outcome, Overdue, IsDue;
    var s' := Next(cfg, s, step);
    StepAdds(cfg, s, step, cutoff);
    assert s.db.tasks.Keys <= s'.db.tasks.Keys;
    if step.FinishRuns? {
      FinishAdds(cfg, s, step, cutoff);
      var head, rest := s.loop.todo[0], s.loop.todo[1..];
      assert s.loop.todo == [head] + rest;
      assert TodoIds(s) == {head.id} + TodoIds(s');
    } else {
      assert TodoIds(s') == TodoIds(s);
    }
  }

  lemma {:induction false} WorkingRun(cfg: Config, s: State, steps: seq<Step>, ids: set<Id>, cutoff: Time)
    requires Inv(cfg, s) && CanRun(cfg, s, steps)
    requires forall step | step in steps :: Clean(step)
    requires Working(s, ids, cutoff)
    ensures Working(After(cfg, s, steps), ids, cutoff)
  {
    if steps != [] {
      var init := steps[..|steps| - 1];
      WorkingRun(cfg, s, init, ids, cutoff);
      RunKeepsInv(cfg, s, init);
      WorkingStep(cfg, After(cfg, s, init), steps[|steps| - 1], ids, cutoff);
    }
  }

  lemma {:induction false} PollingRun(cfg: Config, s: State, steps: seq<Step>)
    requires CanRun(cfg, s, steps) && s.loop.Polling?
    requires forall step | step in steps :: Clean(step)
    ensures After(cfg, s, steps).loop == s.loop
  {
    if steps != [] {
      PollingRun(cfg, s, steps[..|steps| - 1]);
      assert Clean(steps[|steps| - 1]);
    }
  }

  /** A full batch takes `limit` tasks out of the overdue set, a short one all of it. */
  lemma BatchTakes(db: Db, now: Time, limit: nat, ids: seq<Id>, cutoff: Time)
    requires IsDueBatch(db, now, limit, ids) && cutoff <= now
    ensures var taken := set id | id in ids;
      |Overdue(db, cutoff) - taken| <= LeftOver(|Overdue(db, cutoff)|, limit)
  {
    var overdue := Overdue(db, cutoff);
    var taken := set id | id in ids;
    if exists late :: late in overdue && late !in taken {
      var late :| late in overdue && late !in taken;
      assert IsDue(db, now, late);
      forall id | id in taken
        ensures id in overdue
      {
        assert NotAfter(db, id, late) && IsDue(db, now, id);
      }
      DistinctSize(ids);
      assert overdue == taken + (overdue - taken);
    } else {
      assert overdue - taken == {};
    }
  }

  lemma {:induction false} DistinctSize(ids: seq<Id>)
    requires Distinct(ids)
    ensures |set id | id in ids| == |ids|
  {
    if ids != [] {
      var init, last := ids[..|ids| - 1], ids[|ids| - 1];
      DistinctSize(init);
      assert ids == init + [last];
      assert (set id | id in ids) == (set id | id in init) + {last};
    }
  }

  lemma {:induction false} RunAppend(cfg: Config, s: State, a: seq<Step>, b: seq<Step>)
    requires CanRun(cfg, s, a + b)
    ensures CanRun(cfg, s, a) && CanRun(cfg, After(cfg, s, a), b)
    ensures After(cfg, s, a + b) == After(cfg, After(cfg, s, a), b)
    decreases |b|
  {
    if b == [] {
      assert a + b == a;
    } else {
      var init := b[..|b| - 1];
      assert (a + b)[..|a + b| - 1] == a + init;
      RunAppend(cfg, s, a, init);
    }
  }

  /** Part of a run: one clean poll, or anything else that may happen between polls. */
  datatype Segment =
    | Poll(before: seq<Step>, ids: seq<Id>, after: seq<Step>)
    | Interlude(steps: seq<Step>)

  function StepsOf(segment: Segment, limit: nat): seq<Step> {
    match segment
    case Poll(before, ids, after) => [ReadClock] + before + [Query(limit, ids)] + after
    case Interlude(steps) => steps
  }

  predicate WellFormed(segment: Segment) {
    segment.Poll? ==> forall step | step in segment.before + segment.after :: Clean(step)
  }

  lemma FirstStep(cfg: Config, s: State, step: Step)
    requires CanRun(cfg, s, [step])
    ensures Enabled(cfg, s, step) && After(cfg, s, [step]) == Next(cfg, s, step)
  {
    assert [step][..0] == [];
    assert CanRun(cfg, s, []);
  }

  /** What is left of `n` overdue tasks after a batch of up to `limit`. */
  function LeftOver(n: nat, limit: nat): nat { if n <= limit then 0 else n - limit }

  /** From reading the clock to the answer of the query. */
  lemma UpToQuery(cfg: Config, s: State, before: seq<Step>, ids: seq<Id>, limit: nat, cutoff: Time)
    requires Inv(cfg, s) && cutoff <= s.clock
    requires CanRun(cfg, s, [ReadClock] + before + [Query(limit, ids)])
    requires forall step | step in before :: Clean(step)
    ensures var steps := [ReadClock] + before + [Query(limit, ids)];
            var s' := After(cfg, s, steps);
            var taken := set id | id in ids;
      && Inv(cfg, s')
      && Working(s', taken, cutoff)
      && |Overdue(s'.db, cutoff) - taken| <= LeftOver(|Overdue(s.db, cutoff)|, limit) + Early(cfg, steps, cutoff)
  {
    hide Inv, Enabled, Next, Working, Early, IsEarly;
    var start := [ReadClock] + before;
    RunAppend(cfg, s, start, [Query(limit, ids)]);
    var s2 := QueryTime(cfg, s, before);
    FirstStep(cfg, s2, Query(limit, ids));
    OverdueCount(cfg, s, start, cutoff);
    EarlyAppend(cfg, start, [Query(limit, ids)], cutoff);
    RunKeepsInv(cfg, s, start + [Query(limit, ids)]);
    AfterQuery(cfg, s2, limit, ids, cutoff);
  }

  lemma AfterQuery(cfg: Config, s: State, limit: nat, ids: seq<Id>, cutoff: Time)
    requires Enabled(cfg, s, Query(limit, ids)) && cutoff <= s.loop.now
    ensures var s' := Next(cfg, s, Query(limit, ids));
            var taken := set id | id in ids;
      && Working(s', taken, cutoff)
      && |Overdue(s'.db, cutoff) - taken| <= LeftOver(|Overdue(s.db, cutoff)|, limit)
  {
    BatchTakes(s.db, s.loop.now, limit, ids, cutoff);
    BatchIds(cfg, s, limit, ids);
  }

  lemma QueryTime(cfg: Config, s: State, before: seq<Step>) returns (s': State)
    requires CanRun(cfg, s, [ReadClock] + before)
    requires forall step | step in before :: Clean(step)
    ensures s' == After(cfg, s, [ReadClock] + before) && s'.loop == Polling(s.clock)
  {
    RunAppend(cfg, s, [ReadClock], before);
    FirstStep(cfg, s, ReadClock);
    PollingRun(cfg, After(cfg, s, [ReadClock]), before);
    s' := After(cfg, s, [ReadClock] + before);
  }

  /** A clean poll that has come to its end has taken `limit` tasks, or all there were,
      out of the overdue set; early creations during the poll may have added to it. */
  lemma PollTakes(cfg: Config, s: State, poll: Segment, limit: nat, cutoff: Time)
    requires Inv(cfg, s) && poll.Poll? && WellFormed(poll)
    requires CanRun(cfg, s, StepsOf(poll, limit)) && cutoff <= s.clock
    requires After(cfg, s, StepsOf(poll, limit)).loop.Idle?
    ensures |Overdue(After(cfg, s, StepsOf(poll, limit)).db, cutoff)| <=
      LeftOver(|Overdue(s.db, cutoff)|, limit) + Early(cfg, StepsOf(poll, limit), cutoff)
  {
    hide Inv, Enabled, Next, Overdue, Clean, Early, EarlyIds, LeftOver;
    var start := [ReadClock] + poll.before + [Query(limit, poll.ids)];
    RunAppend(cfg, s, start, poll.after);
    UpToQuery(cfg, s, poll.before, poll.ids, limit, cutoff);
    var s3 := After(cfg, s, start);
    var taken := set id | id in poll.ids;
    WorkingRun(cfg, s3, poll.after, taken, cutoff);
    OverdueGrows(cfg, s3, poll.after, cutoff);
    EarlyIdsCounted(cfg, poll.after, cutoff);
    EarlyAppend(cfg, start, poll.after, cutoff);
    var left := Overdue(After(cfg, s3, poll.after).db, cutoff);
    var early := EarlyIds(cfg, poll.after, cutoff);
    forall id | id in left
      ensures id in (Overdue(s3.db, cutoff) - taken) + early
    {
      assert id !in left * taken;
    }
    Shrink(left, (Overdue(s3.db, cutoff) - taken) + early);
  }

  lemma BatchIds(cfg: Config, s: State, limit: nat, ids: seq<Id>)
    requires Enabled(cfg, s, Query(limit, ids))
    ensures TodoIds(Next(cfg, s, Query(limit, ids))) == set id | id in ids
  {
    var s' := Next(cfg, s, Query(limit, ids));
    if ids != [] {
      forall id | id in ids
        ensures id in TodoIds(s')
      {
        var i :| 0 <= i < |ids| && ids[i] == id;
        assert s'.loop.todo[i].id == id;
      }
    }
  }

  lemma Shrink<T>(a: set<T>, b: set<T>)
    requires a <= b
    ensures |a| <= |b|
  {
    assert b == a + (b - a);
  }

  // ---------- any number of polls ----------

  function StepsOfAll(segments: seq<Segment>, limit: nat): seq<Step> {
    if segments == [] then []
    else StepsOfAll(segments[..|segments| - 1], limit) + StepsOf(segments[|segments| - 1], limit)
  }

  function Polls(segments: seq<Segment>): nat {
    if segments == [] then 0
    else Polls(segments[..|segments| - 1]) + (if segments[|segments| - 1].Poll? then 1 else 0)
  }

  /** Every poll among the segments has come to its end. */
  ghost predicate PollsComplete(cfg: Config, s: State, segments: seq<Segment>, limit: nat)
    requires CanRun(cfg, s, StepsOfAll(segments, limit))
  {
    segments != [] ==>
      var init, last := segments[..|segments| - 1], segments[|segments| - 1];
      RunAppend(cfg, s, StepsOfAll(init, limit), StepsOf(last, limit));
      && PollsComplete(cfg, s, init, limit)
      && (last.Poll? ==> After(cfg, s, StepsOfAll(segments, limit)).loop.Idle?)
  }

  lemma {:induction false} ClockAdvances(cfg: Config, s: State, steps: seq<Step>)
    requires CanRun(cfg, s, steps)
    ensures s.clock <= After(cfg, s, steps).clock
  {
    if steps != [] {
      ClockAdvances(cfg, s, steps[..|steps| - 1]);
    }
  }

  /** What `polls` polls leave of `n` overdue tasks. */
  function Remaining(n: nat, polls: nat, limit: nat): nat { LeftOver(n, polls * limit) }

  /** One more segment: what `polls` polls and `before` early creations have left of `n`,
      and what the segment leaves of that. */
  lemma LeftOverMore(n: nat, mid: nat, left: nat, polls: nat, limit: nat, before: nat, during: nat, poll: bool)
    requires mid <= Remaining(n, polls, limit) + before
    requires left <= (if poll then LeftOver(mid, limit) else mid) + during
    ensures left <= Remaining(n, if poll then polls + 1 else polls, limit) + before + during
  {
    assert (polls + 1) * limit == polls * limit + limit;
  }

  /** Whatever is created, canceled or restarted in between, each clean poll takes
      `limit` tasks out of the overdue set or empties it, and nothing but early creations
      adds to it, each a single task. */
  lemma {:induction false} OverdueIsWorkedOff(cfg: Config, s: State, segments: seq<Segment>, limit: nat, cutoff: Time)
    requires Inv(cfg, s) && CanRun(cfg, s, StepsOfAll(segments, limit)) && cutoff <= s.clock
    requires forall segment | segment in segments :: WellFormed(segment)
    requires PollsComplete(cfg, s, segments, limit)
    ensures |Overdue(After(cfg, s, StepsOfAll(segments, limit)).db, cutoff)| <=
      Remaining(|Overdue(s.db, cutoff)|, Polls(segments), limit) + Early(cfg, StepsOfAll(segments, limit), cutoff)
  {
    hide *;
    if segments == [] {
      NothingYet(cfg, s, segments, limit, cutoff);
    } else {
      var init, last, mid := LastSegment(cfg, s, segments, limit, cutoff);
      OverdueIsWorkedOff(cfg, s, init, limit, cutoff);
      SegmentTakes(cfg, mid, last, limit, cutoff);
      LeftOverMore(|Overdue(s.db, cutoff)|, |Overdue(mid.db, cutoff)|,
        |Overdue(After(cfg, mid, StepsOf(last, limit)).db, cutoff)|, Polls(init), limit,
        Early(cfg, StepsOfAll(init, limit), cutoff), Early(cfg, StepsOf(last, limit), cutoff), last.Poll?);
    }
  }

  lemma NothingYet(cfg: Config, s: State, segments: seq<Segment>, limit: nat, cutoff: Time)
    requires segments == [] && CanRun(cfg, s, StepsOfAll(segments, limit))
    ensures |Overdue(After(cfg, s, StepsOfAll(segments, limit)).db, cutoff)| <=
      Remaining(|Overdue(s.db, cutoff)|, Polls(segments), limit)
  {
    hide Enabled, Next, Overdue;
    assert Polls(segments) * limit == 0;
  }

  /** The run up to the last segment, and the last segment on its own. */
  lemma LastSegment(cfg: Config, s: State, segments: seq<Segment>, limit: nat, cutoff: Time)
    returns (init: seq<Segment>, last: Segment, mid: State)
    requires segments != [] && Inv(cfg, s) && CanRun(cfg, s, StepsOfAll(segments, limit)) && cutoff <= s.clock
    requires forall segment | segment in segments :: WellFormed(segment)
    requires PollsComplete(cfg, s, segments, limit)
    ensures |init| < |segments| && init == segments[..|segments| - 1] && last == segments[|segments| - 1]
    ensures (forall segment | segment in init :: WellFormed(segment)) && WellFormed(last)
    ensures Polls(segments) == if last.Poll? then Polls(init) + 1 else Polls(init)
    ensures CanRun(cfg, s, StepsOfAll(init, limit)) && mid == After(cfg, s, StepsOfAll(init, limit))
    ensures PollsComplete(cfg, s, init, limit) && Inv(cfg, mid) && cutoff <= mid.clock
    ensures Early(cfg, StepsOfAll(segments, limit), cutoff) ==
      Early(cfg, StepsOfAll(init, limit), cutoff) + Early(cfg, StepsOf(last, limit), cutoff)
    ensures CanRun(cfg, mid, StepsOf(last, limit))
    ensures After(cfg, s, StepsOfAll(segments, limit)) == After(cfg, mid, StepsOf(last, limit))
    ensures last.Poll? ==> After(cfg, mid, StepsOf(last, limit)).loop.Idle?
  {
    hide Inv, Enabled, Next, Overdue, WellFormed, StepsOf, After, CanRun, Early;
    init, last := segments[..|segments| - 1], segments[|segments| - 1];
    var before := StepsOfAll(init, limit);
    RunAppend(cfg, s, before, StepsOf(last, limit));
    EarlyAppend(cfg, before, StepsOf(last, limit), cutoff);
    RunKeepsInv(cfg, s, before);
    ClockAdvances(cfg, s, before);
    mid := After(cfg, s, before);
  }

  lemma SegmentTakes(cfg: Config, s: State, segment: Segment, limit: nat, cutoff: Time)
    requires Inv(cfg, s) && WellFormed(segment)
    requires CanRun(cfg, s, StepsOf(segment, limit)) && cutoff <= s.clock
    requires segment.Poll? ==> After(cfg, s, StepsOf(segment, limit)).loop.Idle?
    ensures var n := |Overdue(s.db, cutoff)|;
      |Overdue(After(cfg, s, StepsOf(segment, limit)).db, cutoff)| <=
        (if segment.Poll? then LeftOver(n, limit) else n) + Early(cfg, StepsOf(segment, limit), cutoff)
  {
    if segment.Poll? {
      PollTakes(cfg, s, segment, limit, cutoff);
    } else {
      OverdueCount(cfg, s, StepsOf(segment, limit), cutoff);
    }
  }

  lemma RoundedUp(n: nat, polls: nat, limit: nat)
    requires limit > 0 && (n + limit - 1) / limit <= polls
    ensures n <= polls * limit
  {
    var k := (n + limit - 1) / limit;
    assert n <= k * limit;
    assert k * limit <= polls * limit;
  }

  /** No starvation: with `n` tasks overdue at `cutoff`, after ceil(n / limit) clean polls
      no more can be left than there were early creations, and none if there were none. */
  lemma NothingStarves(cfg: Config, s: State, segments: seq<Segment>, limit: nat, cutoff: Time)
    requires Inv(cfg, s) && CanRun(cfg, s, StepsOfAll(segments, limit)) && cutoff <= s.clock
    requires forall segment | segment in segments :: WellFormed(segment)
    requires PollsComplete(cfg, s, segments, limit)
    requires limit > 0 && (|Overdue(s.db, cutoff)| + limit - 1) / limit <= Polls(segments)
    ensures var left := Overdue(After(cfg, s, StepsOfAll(segments, limit)).db, cutoff);
      && |left| <= Early(cfg, StepsOfAll(segments, limit), cutoff)
      && ((forall step | step in StepsOfAll(segments, limit) :: !IsEarly(cfg, step, cutoff)) ==> left == {})
  {
    hide Inv, CanRun, After, Overdue, Early, IsEarly, StepsOfAll, Polls, PollsComplete, WellFormed;
    RoundedUp(|Overdue(s.db, cutoff)|, Polls(segments), limit);
    OverdueIsWorkedOff(cfg, s, segments, limit, cutoff);
    NoneEarly(cfg, StepsOfAll(segments, limit), cutoff);
  }
}
