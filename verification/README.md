# mqtter: verified model of scheduling, rate limiting and ingestion

mqtter is a device-management backend with an embedded MQTT broker. This project models
its stateful core in Dafny and proves what that core guarantees over every run:

* **Scheduled publishing.** `Slots`, `Calendar` and `Schedule` model how a daily or weekly
  schedule finds its next run, `Text` the string functions it needs. `Scheduler` cuts the
  polling loop, the publish calls and the three tables they write into steps between which
  administrators may create, cancel and publish, statements may fail, the clock may move
  and the process may restart. `SchedulerWrites` says field by field what each of those
  steps writes, and that a task publishes what was requested. `SchedulerInvariant`,
  `SchedulerTheorems`, `SchedulerProgress` and `SchedulerAudit` prove properties of every
  run of that machine.
  `ScheduleStore` and `ScheduleService` are the imperative code; every execution of it,
  with any interleaving and any failures, is proved to be a run of the machine.
* **Connect limiter.** `RateLimiter` compacts a Go slice in place and appends to it;
  `LimiterTheory` says what it computes, and for exactly which clock readings no window
  can exceed the limit.
* **Message partitions and ingestion.** `Partitions` proves that the monthly tables tile
  time; `Ingestion` is the machine of the device, topic and message tables;
  `IngestionWrites` says what its statements write; `Takeover` characterises the online
  status of a device row; `Sessions` is the machine of the hooks of all connections and
  says what takeover safety needs of them. `IngestService` is the store with its
  transactions and `BrokerHooks` the hooks, with the hooks of other connections acting
  between any two statements; every execution is proved to be a run of both machines.
* **Event hub.** `Hub` cuts publishing into steps: publishes share the read lock, so their
  sends interleave, and only subscribing and cancelling have the hub to themselves.
* **Migrations**: `Migrations`.

`Basics` and `Domain` hold shared types and the request checks.

Conventions. Instants are unbounded integers of nanoseconds. A time zone is a fixed offset
from UTC; the zone database is a map from names to offsets that does not change. A failing
database statement or transaction changes nothing, and repeating a primary key is a
failure, so identifiers need not be assumed unique. Clock readings are taken before the
statement they are stored by, as in the source, and may be overtaken by other requests.
Errors are their codes.

The hooks of one connection are called one after another, each connection is connected
once, and a hook object serves one process. The payload limit and the zones a scheduler is
configured with stay the same over restarts; that stored content is never rejected rests
on it.

Five properties one might expect do not hold as such; each has a lemma with a case where it
fails and one with the condition.

* The overdue tasks of a cutoff can grow: a creation that was delayed between reading the
  clock and inserting can add one (`SchedulerProgress.DelayedCreateIsOverdue`). They only
  shrink exactly when no creation has its first run at or before the cutoff
  (`SchedulerProgress.OverdueShrinks`), and with such creations the bound on what is left
  grows by one task for each.
* The connect limiter's bound can fail when a key's times step back
  (`LimiterTheory.BackwardTimesBreakBound`). `LimiterTheory.BoundExactly` names the clock
  readings for which it holds however many attempts are made at each: with a limit of one
  all, otherwise exactly those that never come near a reading again that one in between has
  left a window behind. For one particular sequence of attempts the condition is
  sufficient (`LimiterTheory.WindowBound`) but not necessary
  (`LimiterTheory.StepBackMayBeHarmless`).
* The session-id guard on disconnects misses when an old session is still active after a
  takeover (`Sessions.LateActivityDefeatsGuard`). With fresh session ids,
  `Sessions.RowRightExactly` says for which calls of the hooks the device row is right after
  every one of them: if and only if each activity comes from the client's newest connection
  while it has its session, and each reported disconnect from a connection that has a
  session, or while no other connection stands.
* Two publishes can arrive in different orders at different subscribers.
  `Hub.MayCrossExactly` says when a publish can still be crossed by one that begins: if and
  only if it is under way, with one subscriber still to come and another one that it has
  reached or is still to reach. Publishes one after the other never cross
  (`Hub.SequentialStayInOrder`).
* Migration scripts are not always committed in name order over releases
  (`Migrations.EarlierNameCommittedLater`). `Migrations.InNameOrderExactly`: a start keeps to
  that order, wherever it breaks off, if and only if the scripts committed before are sorted
  and part of its list, and every new one sorts after them.

## Model

| member | source | states |
|---|---|---|
| Calendar.DaysBeforeYearFormula | internal/domain/schedule.go:167-168 | counting days year by year agrees with the closed leap-year formula, for every year |
| Calendar.DatesAndDayNumbers | internal/domain/schedule.go:167-168 | calendar fields and day numbers determine each other |
| Calendar.SuccessiveDays | internal/domain/schedule.go:196 | the dates of consecutive day numbers follow each other by the rules of the calendar |
| Calendar.DaysLater | internal/domain/schedule.go:196 | `time.Date` with a day past the end of the month counts on into later months |
| Calendar.KnownWeekdays | internal/domain/schedule_test.go:30-43 | the weekdays the scheduler's tests rely on |
| Calendar.WeekdayFollows | internal/domain/schedule.go:197-200 | the weekday moves on by one from day to day, from Sunday to Monday |
| Calendar.KnownMonths | internal/domain/schedule.go:168 | on which day of an ordinary and of a leap year each month begins |
| Text.AtoiItoa | internal/domain/schedule.go:248 | every 64-bit number survives formatting and parsing |
| Text.SplitJoin | internal/domain/schedule.go:250-257 | splitting a joined list gives the list back |
| Text.JoinSplit | internal/domain/schedule.go:213 | splitting loses nothing |
| Text.TrimSpec | internal/domain/schedule.go:232 | trimming removes white space at both ends and nothing else |
| Text.AtoiRefuses | internal/domain/schedule.go:217-224 | empty text, a lone sign and anything with another character are no number |
| Schedule.ParseTimeOfDay | internal/domain/schedule.go:212-229 | an accepted time of day is between 00:00 and 23:59 |
| Schedule.ParseClockTime | internal/domain/schedule.go:212-229 | every HH:MM is parsed as that time |
| Schedule.TimeOfDayRange | internal/domain/schedule.go:225-228 | two numbers joined by a colon are accepted exactly if they are an hour and a minute of the day |
| Schedule.TimeOfDayNeedsColon | internal/domain/schedule.go:213-216 | text with no colon, or with more than one, is refused |
| Schedule.EncodeWeekdays | internal/domain/schedule.go:242-251 | the loop produces the comma-separated text |
| Schedule.WeekdaysText | internal/domain/schedule.go:242-251 | the text stored: decimal numbers in order with commas between them, nothing for none |
| Schedule.DecodeWeekdays | internal/domain/schedule.go:253-266 | the loop collects the numbers of the text and drops the rest |
| Schedule.WeekdaysRoundTrip | internal/domain/schedule.go:242-266 | storing any weekday list as text and reading it back changes nothing |
| Schedule.DecodeSettles | internal/domain/schedule.go:253-266 | for any text, what was read once is what is read again after storing it |
| Slots.SearchTotal | internal/domain/schedule.go:194-209 | the eight-day search always succeeds, with the least slot strictly after now, at most seven days ahead |
| Slots.NextSlotUnique | internal/domain/schedule.go:194-209 | the declarative description of the next slot has the computed one as its only solution |
| Slots.NextSlotMonotone | internal/domain/schedule.go:158-210 | a later now never gives an earlier next run, and gives the same one exactly until it has passed |
| Slots.IterateIncreases | internal/domain/schedule.go:158-210 | asking for the next run again and again lists slots in increasing order |
| Slots.IterateSkipsNone | internal/domain/schedule.go:158-210 | and skips no slot |
| Slots.EveryDayGap | internal/domain/schedule.go:168-171 | a daily schedule's next run is at most a day ahead and recurs after exactly a day |
| Schedule.DailyCandidate | internal/domain/schedule.go:167-172 | today's candidate or tomorrow's is the next slot |
| Schedule.WeeklyCandidate | internal/domain/schedule.go:194-209 | the loop over day offsets returns the next slot; its final error is unreachable |
| Schedule.AllowedWeekdays | internal/domain/schedule.go:183-189 | the set of allowed weekdays, or a complaint exactly when one is not 1 to 7 |
| Schedule.NextDailyRun | internal/domain/schedule.go:158-173 | the first run after now, or the first complaint |
| Schedule.NextWeeklyRun | internal/domain/schedule.go:175-210 | the first run after now, or the first complaint |
| Schedule.NextRunForCommand | internal/domain/schedule.go:122-139 | the first run after now for every kind of schedule |
| Schedule.NextRunAfterTask | internal/domain/schedule.go:141-156 | none for a one-time task, else the first run after the given instant |
| Schedule.ValidateScheduleCommand | internal/domain/schedule.go:104-120 | the first run of an acceptable command, or the first complaint in order |
| Schedule.NextRunIsFirst | internal/domain/schedule.go:122-139 | a computed run is the earliest run time strictly after now; failure means there is none |
| Schedule.NextRunOnTheClock | internal/domain/schedule.go:158-210 | the next run of a daily or weekly command is the one instant after now at which the clocks of its zone show its time of day, on one of its weekdays, with none such in between |
| Schedule.ClockTimeUnderstood | internal/domain/schedule.go:212-240 | a command with a time HH:MM, weekdays 1 to 7 and a known zone, Hong Kong if it is blank, is understood as that hour, minute and offset |
| Schedule.NextRunOnDay | internal/domain/schedule.go:158-210 | asked on one local day, the command runs on the first of its days at its time of day |
| Schedule.AskedIn2026 | internal/domain/schedule_test.go:24-67 | the weekly and the daily case of the tests: asked on Saturday 16 May 2026 at 10:00 in Hong Kong for 09:30, Monday the 18th and Sunday the 17th |
| Schedule.UsesWeekdaysAndTimezone | internal/domain/schedule_test.go:24-67 | the same for every Saturday that has its Monday by the 28th of the month |
| Schedule.NextRunComplaints | internal/domain/schedule.go:122-240 | which error comes first: schedule type or run instant, time of day, weekdays, zone |
| Schedule.RunAfterIsNext | internal/domain/schedule.go:141-156 | a one-time task has no further run, any other the next run after the instant, or its complaint |
| Schedule.WeeklyOnEveryDay | internal/domain/schedule.go:158-210 | a weekly schedule on all seven days is the daily one |
| SchedulerInvariant.AcceptedAtCreation | internal/service/scheduled_publish.go:34-66 | what creation accepts is, once stored as text and read back, a command that can always be rescheduled |
| SchedulerInvariant.RunAfterSucceeds | internal/domain/schedule.go:141-156 | for a stored recurring command the next run is computable after every instant |
| SchedulerInvariant.StepKeepsInv | internal/service/scheduled_publish.go:80-162 | every step of every actor keeps the invariant of tables and loop |
| SchedulerInvariant.ReachableInv | internal/service/scheduled_publish.go:80-194 | the invariant holds in every reachable state |
| SchedulerWrites.CreateWrites | internal/service/scheduled_publish.go:38-65 | the new row field by field: what was asked for, Hong Kong if no zone was given, active, first run next, never run, both times the one read; no other row changes |
| SchedulerWrites.CancelWrites | internal/storage/postgres/store.go:400-411 | the row becomes canceled with no next run, at the time read, and is due at no instant; its other fields, the other tasks, the runs and the commands stay |
| SchedulerWrites.DueMeans | internal/storage/postgres/store.go:420-422 | due: active with a next run that has come |
| SchedulerWrites.FinishWrites | internal/storage/postgres/store.go:441-468 | the run row and the fields of an active task field by field; a task that is not active stays as it is |
| SchedulerWrites.OutcomeSays | internal/service/scheduled_publish.go:97-157 | which statuses, error text, command, slot and next run a run is recorded with, for each kind of task and result |
| SchedulerWrites.InsertWrites | internal/storage/postgres/store.go:309-316 | a pending row with the command given |
| SchedulerWrites.MarkWrites | internal/storage/postgres/store.go:318-321 | status, error and time of the one row; nothing else |
| SchedulerWrites.AnswerWritten | internal/service/publish.go:55-67 | the broker's answer reaches the row: failed with its error, or published with the time read |
| SchedulerWrites.PublishesWhatWasRequested | internal/service/scheduled_publish.go:45-109 | whenever a task is published, whatever has happened since it was created, the command row written holds exactly the publish requested |
| SchedulerTheorems.RunHistory | internal/service/scheduled_publish.go:97-162 | every run is a genuine run time of its task that had come before the run started; the runs of a task are strictly increasing and do not overlap, so no slot is recorded twice and missed slots collapse into one run |
| SchedulerTheorems.AfterARun | internal/service/scheduled_publish.go:111-160 | recording a run of an active task settles a one-time task by its result and gives a recurring one the first slot after the finish, with the time of its last run |
| SchedulerTheorems.TaskStatuses | internal/storage/postgres/store.go:400-468 | active exactly while a next run is set, which is later than every recorded run; a recurring task is never completed or failed |
| SchedulerTheorems.StoredContentIsValid | internal/service/publish.go:39-47 | content accepted at creation is never rejected at publish time |
| SchedulerTheorems.PublishedRunsAreAudited | internal/service/publish.go:49-73 | a run is recorded as published exactly when it names a command row marked published with its time |
| SchedulerTheorems.NothingRevives | internal/storage/postgres/store.go:400-468 | over any further run no settled task becomes active, cancellation is final, and a command row leaves pending at most once |
| SchedulerTheorems.RunAccounting | internal/storage/postgres/store.go:441-468 | recorded runs number run_count, or one more for a canceled task; a one-time task runs at most once |
| SchedulerTheorems.SurplusArises | internal/storage/postgres/store.go:448-467 | the extra run arises in exactly one step: a run in flight recorded after its task was canceled |
| SchedulerTheorems.CancelRace | internal/storage/postgres/store.go:400-411 | after a cancellation there is at most one more broker call for the task, and only if the current batch held one |
| SchedulerProgress.CreateAdds | internal/service/scheduled_publish.go:38-65 | a creation adds to the overdue tasks exactly when its first run is at or before the cutoff |
| SchedulerProgress.DelayedCreateIsOverdue | internal/service/scheduled_publish.go:38-65 | a creation overtaken by the clock can |
| SchedulerProgress.FinishAdds | internal/storage/postgres/store.go:441-468 | recording a run never adds to the overdue tasks and removes its own |
| SchedulerProgress.OverdueShrinks | internal/storage/postgres/store.go:413-439 | over a run the overdue set of a cutoff only shrinks exactly when no creation has its first run at or before the cutoff |
| SchedulerProgress.PollTakes | internal/service/scheduled_publish.go:80-95 | a completed poll takes as many overdue tasks as the limit allows, or all of them; each early creation adds at most one |
| SchedulerProgress.OverdueIsWorkedOff | internal/service/scheduled_publish.go:180-194 | k completed polls take k times the limit or leave nothing but tasks created early, whatever happens in between |
| SchedulerProgress.NothingStarves | internal/service/scheduled_publish.go:180-194 | with n tasks overdue, after ceil(n / limit) completed polls no more are left than were created early, and none if none were |
| SchedulerAudit.PublishedRunsHaveOwnCalls | internal/service/publish.go:49-73 | no two runs share a command row, and published runs do not outnumber broker calls |
| SchedulerAudit.CallsAreRecordedOrLost | internal/service/scheduled_publish.go:97-162 | a task is put to the broker again only after a run of it was lost to a failed recording or a restart: calls number at most the recorded runs, the lost ones and the one under way |
| ScheduleStore.Store.CreateScheduledTask | internal/storage/postgres/store.go:351-366 | inserts the row with encoded weekdays, or fails and changes nothing |
| ScheduleStore.Store.CancelScheduledTask | internal/storage/postgres/store.go:400-411 | whatever the status, the task is canceled, has no next run and is due at no instant, and nothing else of it changes; or fails and changes nothing |
| ScheduleStore.Store.SelectDue | internal/storage/postgres/store.go:414-423 | active tasks whose next run has come, each once, earliest first; one is left out only when the limit is reached, and then for none that is later |
| ScheduleStore.Store.ListDueScheduledTasks | internal/storage/postgres/store.go:413-439 | the due batch with its rows scanned |
| ScheduleStore.Store.FinishScheduledRun | internal/storage/postgres/store.go:441-468 | inserts the run and moves an active task on, both or neither |
| ScheduleStore.Store.CreatePublishCommand | internal/storage/postgres/store.go:309-316 | inserts a pending row, or fails and changes nothing |
| ScheduleStore.Store.MarkPublishCommand | internal/storage/postgres/store.go:318-321 | marks the row, or fails and changes nothing |
| ScheduleService.ScheduledPublishService.CreateScheduledPublish | internal/service/scheduled_publish.go:34-66 | succeeds exactly for acceptable commands and then stores what it returns, every field as requested, leaving other tasks alone |
| ScheduleService.ScheduledPublishService.CancelScheduledPublish | internal/service/scheduled_publish.go:73-78 | an existing task is canceled and due at no instant, else nothing changes |
| ScheduleService.ScheduledPublishService.Publish | internal/service/publish.go:38-74 | succeeds only through insert, broker and mark, with one broker call; the whole call is a run of the machine |
| ScheduleService.ScheduledPublishService.Settle | internal/service/scheduled_publish.go:111-157 | decides the record of a run field by field |
| ScheduleService.ScheduledPublishService.RunOne | internal/service/scheduled_publish.go:97-162 | adds exactly one run row, for the slot read and with the result of Publish, unless the last transaction fails |
| ScheduleService.ScheduledPublishService.RunDue | internal/service/scheduled_publish.go:80-95 | runs at most the limit of due tasks, one run row each when recording succeeds; then the call is a clean poll, and of the tasks overdue at any time up to its start the limit or all are gone |
| ScheduleService.ScheduledPublishService.constructor | internal/app/app.go:108 | a start over the tables of earlier processes is a restart of the machine: nothing is under way, and what they recorded stays |
| ScheduleService.ScheduledPublishService.Run | internal/service/scheduled_publish.go:180-194 | any number of rounds, with interference between them, is a run of the machine |
| ScheduleService.ScheduledPublishService.IsReachable | internal/app/app.go:108 | every state of the service is a reachable state of the machine |
| LimiterTheory.HitsConserved | internal/broker/rate_limiter.go:29-46 | every admitted hit is either kept or dropped, once |
| LimiterTheory.CountIsIdeal | internal/broker/rate_limiter.go:32-41 | for times in any order, the count is that of all admitted hits in the window exactly when nothing newer than the cutoff was dropped |
| LimiterTheory.KeepsLastWindow | internal/broker/rate_limiter.go:32-45 | with non-decreasing times the hits kept are, in order, the admitted ones of the last window |
| LimiterTheory.DecidesByWindow | internal/broker/rate_limiter.go:39-45 | then a call is rejected exactly when the window that ends with it is full |
| LimiterTheory.RejectsWhenFull | internal/broker/rate_limiter.go:32-45 | the same by counting: admitted exactly if fewer than the limit of the admitted calls lie in the window that ends with the call |
| LimiterTheory.WindowBound | internal/broker/rate_limiter.go:29-46 | no window, wherever it lies, holds more than the limit of admitted hits, for times in any order that never come near one left a window behind; with a limit of one for all |
| LimiterTheory.InOrderStaysAhead | internal/broker/hook.go:83-88 | times that do not go backwards stay ahead |
| LimiterTheory.BoundExactly | internal/broker/hook.go:83-88 | for which clock readings, read before the lock, the bound holds however many attempts are made at each: if and only if they stay ahead or the limit is one |
| LimiterTheory.StepBackMayBeHarmless | internal/broker/hook.go:83-88 | for a single sequence of attempts staying ahead is not necessary |
| LimiterTheory.BackwardTimesBreakBound | internal/broker/hook.go:83-88 | four attempts, one of them with a time read earlier, that put three hits into a window of two |
| LimiterTheory.RejectedLeavesNoTrace | internal/broker/rate_limiter.go:39-42 | leaving out a rejected attempt changes no later decision |
| RateLimiter.Append | internal/broker/rate_limiter.go:43 | appends in place while there is capacity, else into a fresh array |
| RateLimiter.Compact | internal/broker/rate_limiter.go:32-38 | in-place compaction leaves the recent hits in order |
| RateLimiter.ConnectLimiter.Allow | internal/broker/rate_limiter.go:29-46 | decides and keeps what the key's ledger says and touches no other key |
| RateLimiter.ConnectLimiter.Bound | internal/broker/rate_limiter.go:8-46 | the window bound for each key whose times stay ahead, under any interleaving of keys |
| Partitions.MonthsTile | internal/storage/postgres/store.go:619-620 | an instant lies in the range of exactly one month, its own |
| Partitions.MonthsDisjoint | internal/storage/postgres/store.go:619-624 | ranges of different months do not meet |
| Partitions.TableNamesDiffer | internal/storage/postgres/store.go:621 | a table name determines its month |
| Partitions.MonthBounds | internal/storage/postgres/store.go:619-620 | a month runs from midnight UTC on its first day to midnight on the first of the next |
| Partitions.DateInMonth | internal/storage/postgres/store.go:619 | whatever the time of day, an instant belongs to the month of its UTC date |
| Partitions.TableNameSpec | internal/storage/postgres/store.go:621 | the name written out: prefix, four digits of the year, two of the month |
| Partitions.OverlapMeans | internal/storage/postgres/store.go:623-624 | two ranges overlap exactly if some instant lies in both |
| Partitions.EnsureSucceeds | internal/storage/postgres/store.go:618-630 | with monthly partitions and an empty default one, creating a partition is never refused |
| Partitions.PlaceIsOwnMonth | internal/storage/postgres/store.go:112-116 | a row goes to the partition of its month, or to the default one only if that is missing |
| Ingestion.StepKeepsInv | internal/storage/postgres/store.go:43-146 | every committed statement keeps the invariant of the tables |
| IngestionWrites.ConnectWrites | internal/storage/postgres/store.go:43-56 | the device row field by field: online under the session at the time read, reported metadata over what was there; what a new row starts with |
| IngestionWrites.SubscribeWrites | internal/storage/postgres/store.go:58-80 | the device row is active, and each filter is seen at this time with the device and the quality of service of its last mention; nothing else changes |
| IngestionWrites.PersistWrites | internal/storage/postgres/store.go:86-124 | device row, topic row and message row of a client's message, field by field |
| IngestionWrites.InlineWrites | internal/storage/postgres/store.go:92-124 | a message of the inline client: an administrator's topic, no device |
| IngestionWrites.AdminTopicWrites | internal/storage/postgres/store.go:268-276 | quality of service and time of the topic; an existing row keeps its device |
| IngestionWrites.DisconnectWrites | internal/storage/postgres/store.go:127-134 | the one row field by field, if no session or its own is named |
| IngestionWrites.StaleWrites | internal/storage/postgres/store.go:136-146 | online rows become stale with the time given and keep everything else |
| IngestionWrites.ChangeTypeWrites | internal/storage/postgres/store.go:184-212 | the type of the one device with the id, and a log entry with the type before and after |
| IngestionWrites.EnsurePartitionWrites | internal/storage/postgres/store.go:618-630 | the month's table is added under its name, unless there is one |
| Ingestion.MessagesAccountedFor | internal/storage/postgres/store.go:82-125 | every message has its observed topic and names the one device of its client, none exactly for the inline client |
| Ingestion.PartitionsHold | internal/storage/postgres/store.go:82-125 | on every run partitions are disjoint, each message lies in the only one that has its time, the default one is empty, and no creation is refused |
| Ingestion.DeviceIdentity | internal/storage/postgres/store.go:184-212 | a client keeps its device id, and its type is what the linked log of changes says |
| Ingestion.FirstSightingsKept | internal/storage/postgres/store.go:43-80 | first-seen times and reported metadata keys are never lost |
| Takeover.RowFollowsTouches | internal/storage/postgres/store.go:43-146 | a device row's status and session depend only on its client's own events and restarts |
| Takeover.OnlineExactly | internal/storage/postgres/store.go:127-146 | with no assumption: online exactly when something opened the row and nothing has closed it since |
| Takeover.TakeoverSafe | internal/storage/postgres/store.go:127-134 | with fresh sessions and only the newest active: online exactly when the newest session has neither been disconnected nor seen a restart |
| Takeover.LateDisconnectsIgnored | internal/storage/postgres/store.go:127-134 | disconnects of older sessions, in any number and order and at any times, leave the database unchanged |
| Takeover.DisconnectWrites | internal/storage/postgres/store.go:127-134 | exactly which disconnects write, and what |
| Sessions.RowRightExactly | internal/broker/hook.go:82-181 | with fresh session ids, the client's row is right after every call (there once written, under the newest connection's session, online while that connection stands) if and only if every activity is the newest connection's and no disconnect without a session comes while another connection stands |
| Sessions.LateActivityDefeatsGuard | internal/storage/postgres/store.go:645-647 | hook calls after which the row is online with nothing standing: an old connection subscribes after a takeover, and the report that the new one has gone is ignored |
| Sessions.HooksBehave | internal/broker/hook.go:82-131 | with fresh session ids, the assumption of `TakeoverSafe` says of the calls that no connection is active after another of its client has connected and only connections with a session are reported as disconnected; `OrderlyIsHarmless`: that is more than the row needs |
| Sessions.OnlineWhileStanding | internal/broker/hook.go:82-131 | on the database, for harmless calls: a device is online exactly while its newest connection has not been reported as disconnected and the server not restarted, and its row names that connection's session |
| IngestService.IngestStore.UpsertConnected | internal/storage/postgres/store.go:43-56 | the row is online under the new session, or nothing changes |
| IngestService.IngestStore.RecordSubscription | internal/storage/postgres/store.go:58-80 | device and all filters, or nothing, whichever statement fails |
| IngestService.IngestStore.EnsureMessagePartition | internal/storage/postgres/store.go:618-630 | the month's partition exists afterwards |
| IngestService.IngestStore.PersistTransaction | internal/storage/postgres/store.go:86-125 | exactly when it commits, and then what; otherwise no table has changed |
| IngestService.IngestStore.MarkDisconnected | internal/storage/postgres/store.go:127-134 | one guarded update |
| IngestService.IngestStore.MarkStaleOnline | internal/storage/postgres/store.go:136-146 | no row is online afterwards, and how many were |
| IngestService.IngestStore.RecordAdminPublishTopic | internal/storage/postgres/store.go:268-276 | one upsert under the inline client |
| IngestService.IngestStore.ChangeDeviceType | internal/storage/postgres/store.go:184-212 | by device id: type and log entry together, or neither, whichever statement fails |
| IngestService.IngestStore.Perform | internal/storage/postgres/store.go:43-146 | a statement of another request takes effect as a whole or not at all, and removes no message or partition |
| BrokerHooks.Hook.constructor | internal/broker/hook.go:44-50 | a hook starts with no sessions and a fresh limiter of 120 attempts a minute |
| BrokerHooks.Hook.OnConnect | internal/broker/hook.go:82-113 | with others in between: the attempt is counted by remote address, or by client id if there is none; a session exactly if the limiter has room for it, and a pass only with the row online under it; a limited connect leaves no trace outside the limiter; an invalid client id is refused as such |
| BrokerHooks.Hook.OthersDoNotCount | internal/broker/hook.go:83-90 | attempts counted under another remote address or client id never change the decision |
| BrokerHooks.Hook.EnsureConnected | internal/service/ingestor.go:35-50 | a valid client id and a committed row, or nothing |
| BrokerHooks.Hook.OnDisconnect | internal/broker/hook.go:115-131 | reports the end of the session this connection was given, whoever has connected since, and forgets it |
| BrokerHooks.Hook.OnSubscribe | internal/broker/hook.go:133-152 | filters go on unchanged exactly when this call recorded them, else the access check refuses them all |
| BrokerHooks.Hook.PersistPublish | internal/storage/postgres/store.go:82-125 | with others in between: the partition is committed first, then the message with its topic and device in its month's partition; a failure leaves at most the partition |
| BrokerHooks.Hook.OnPublish | internal/broker/hook.go:154-181 | a packet passes exactly when this call has committed its message row, which then names the message id and event; otherwise the refusal fits the reason and the quality of service |
| BrokerHooks.Hook.VerdictByCode | internal/broker/hook.go:164-181 | what a packet is refused with, by the code of the error |
| BrokerHooks.UnsubscribableIsInvalid | internal/broker/hook.go:75-80 | the filter put in place of unrecorded ones fails the access check |
| Domain.Lengths | internal/domain/validation.go:10-53 | 1 to 512 plain letters make a topic or filter, 1 to 128 a client id |
| Domain.WildcardRules | internal/domain/validation.go:34-52 | no wildcard in a topic; in a filter # at the end only |
| Domain.SystemTopicRules | internal/domain/validation.go:37-39 | $SYS and what is below it is refused, in any case; what only begins like it is not |
| Domain.PublishLimits | internal/domain/validation.go:56-76 | quality of service 0 or 1, and payloads up to the limit, if it is positive |
| Domain.Bytes | internal/domain/validation.go:21-59 | lengths are in bytes of UTF-8 |
| Domain.ClientIdSigns | internal/domain/validation.go:15-23 | any character but letters, digits and the five signs makes a client id invalid, and those do not |
| BrokerHooks.StartServer | internal/app/app.go:99-101 | a start leaves no row online and begins with no sessions, or fails |
| BrokerHooks.DeviceStatus | internal/broker/hook.go:82-181 | for everything the hooks can do in any interleaving, a device is online exactly while its newest connection stands |
| Migrations.ScriptNames | internal/storage/postgres/migrations.go:20-26 | the names of the .sql files, each once, in increasing order |
| Migrations.ScriptsByName | internal/storage/postgres/migrations.go:22 | a script is a file whose name ends in .sql |
| Migrations.LessPrefix | internal/storage/postgres/migrations.go:26 | a name comes before its extensions |
| Migrations.LessAt | internal/storage/postgres/migrations.go:26 | the first character in which two names differ decides |
| Migrations.RepositoryOrder | internal/storage/postgres/migrations.go:20-26 | the repository's four scripts, listed in any order, are found as 001, 002, 003, 004 |
| Migrations.Database.ApplyMigrations | internal/storage/postgres/migrations.go:15-57 | wherever a start breaks off, the scripts committed in it are the first of those not on record, in name order, each with its row and none twice; all of them if it ends without error |
| Migrations.Database.Restarts | internal/storage/postgres/migrations.go:15-57 | over starts of changing releases each script is committed once, and by the first start that gets through; with lists that only grow at the end, always a prefix of the latest list |
| Migrations.InNameOrderExactly | internal/storage/postgres/migrations.go:26-30 | a start keeps the committed scripts a prefix of its list if and only if they were sorted, part of it, and every new name sorts after them |
| Migrations.EarlierNameCommittedLater | internal/storage/postgres/migrations.go:26-30 | a script added before a committed one is committed after it |
| Hub.RunKeepsInv | internal/realtime/hub.go:28-57 | however publishes, readers and cancellations interleave, no send reaches a closed channel, subscribers are exactly the open channels, no buffer overflows and no publish is accepted twice |
| Hub.ReadsInOrder | internal/realtime/hub.go:28-57 | events read followed by events queued are the accepted ones, in order |
| Hub.PublishReachesAll | internal/realtime/hub.go:32-40 | when a publish gives back the lock, each subscriber has taken the event or lost it |
| Hub.TookItsEvent | internal/realtime/hub.go:34-36 | what a channel took from a publish is the event published, the same for every subscriber |
| Hub.StampedMeans | internal/realtime/hub.go:29-31 | an event without a time gets the current one; one with a time is sent as it is |
| Hub.FateOfAnEvent | internal/realtime/hub.go:34-39 | over any run, an event is lost exactly by a channel that was full when offered it, and taken exactly by one that was not |
| Hub.SequentialStayInOrder | internal/realtime/hub.go:28-41 | a publish that returned before another began comes first in every channel |
| Hub.MayCrossExactly | internal/realtime/hub.go:32-40 | for every state and buffer: a publish can be crossed by one that begins, arriving first at one subscriber and second at another, if and only if it is under way with one subscriber still to come and another one reached or still to come |
| Hub.TwoUnderWay | internal/realtime/hub.go:32 | the read lock does admit two publishes at once, and the first can then be crossed |
| Hub.ClosedForGood | internal/realtime/hub.go:48-55 | a cancelled channel is offered nothing more, ever, and keeps what it took |
| Hub.EventHub.TrySend | internal/realtime/hub.go:35-38 | takes the event exactly when there is room, and never meets a closed channel |
| Hub.EventHub.Publish | internal/realtime/hub.go:28-41 | with other goroutines acting between the sends: each subscriber has taken the stamped event itself, once, or lost it, and what was taken before is undisturbed |
| Hub.EventHub.Receive | internal/realtime/hub.go:72 | the oldest queued event, also from a closed channel |
| Hub.EventHub.Subscribe | internal/realtime/hub.go:43-56 | a new open channel among the subscribers |
| Hub.EventHub.Cancel | internal/realtime/hub.go:48-55 | the channel is closed and unsubscribed; again, it does nothing |

## Left out

- Daylight saving: zones are fixed offsets, because the source leaves the choice in gaps and overlaps to the Go library.
- ScheduleService.ScheduledPublishService.Publish: modelled for the scheduler's calls; publish requests of administrators and quick actions appear as the steps they take on the command table.
- The audit topic that `Publish` records after a broker call is in `Ingestion` (`AdminTopic`), not in the scheduler's machine: its failure is ignored there.
- Whether the broker routed a message of a publish that failed: `Server.Publish` may give up waiting while the call goes on.
- A commit that reports an error although it took effect is modelled by its effect: the scheduler ignores the error, and `OnPublish` would then refuse a packet that is stored.
- Deadlines: a timeout is one of the ways a statement fails; alerts and realtime events raised on the way are not modelled.
- Error messages: errors and the text stored with a failed run are codes.
- Payload format detection and the size check of payloads that are not UTF-8 text: such a payload is refused as unsupported.
- PostgreSQL's limits on year numbers and identifier lengths, and time rounding in the database.
- Deletion of devices and administrators, the foreign keys that cascade from them, and the unwired retention job: no code path deletes those rows.
- Migrations.Database.ApplyMigrations: a script is its name; what the SQL does is not modelled, only that it takes effect together with its row in schema_migrations.
- Waiting for locks: the limiter holds its mutex for a whole call, so a call is one step; the hub's write lock is modelled by the moment it is granted, not by the order in which waiting calls get it.
- HTTP routing, login, sessions of administrators, quick-action storage, alert storage, paging and list filters, the WebSocket writer and the frontend.
