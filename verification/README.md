# script-launcher, modelled in Dafny

script-launcher is a small web service that keeps a table of Python scripts
and runs them on demand, on a repeating interval (optionally only on some
weekdays) or once at a scheduled start time. This project models its core:

- the script record and its table (`Records`, records.dfy);
- the lifecycle resolver that decides whether a script stays active
  (`Lifecycle`, lifecycle.dfy);
- the run registry with its per-script locks (`Executor`, executor.dfy);
- the timer reconciliation of the scheduler service and its two fire
  handlers (`Scheduler`, scheduler.dfy);
- the startup sweep that loads timers and deactivates expired scripts
  (`Startup`, startup.dfy);
- the script and execution endpoints (`ScriptsApi`, scripts_api.dfy;
  `ExecutionsApi`, executions_api.dfy);
- the request and response schemas (`Schemas`, schemas.dfy);
- the log manager, covering log lines, daily log files and the live-log
  client queues (`Logs`, log_manager.dfy).

`Strings` (strings.dfy) holds the text operations the source uses: Python's
`str.strip`, `str.split(sep, maxsplit)`, and the binary string order of an
SQL `ORDER BY name`.

Stateful services are classes whose methods update their fields:
`ScriptTable`, `ScriptExecutor`, `SchedulerService`, `LogManager` and
`ClientQueue`. Each method is proved against functions of the old state. The
decision rules are functions and predicates, with lemmas relating them.

Time is passed in. A `Clock` carries the two readings the code takes
(`datetime.now()` and `datetime.now(UTC)`). A `Timestamp` is naive (local
wall-clock time) or zone-aware (an absolute instant). How a process run
ends is an explicit `RunOutcome` argument: an exit code, a spawn failure or
a stream failure.

Points where the model commits to one reading of the source:

- models/script.py declares no scheduled-start columns. utils.py,
  scheduler.py, main.py and the schemas all read or write
  `scheduled_start_enabled` and `scheduled_start_datetime`, so the record
  carries both. `create_script` does not copy them, so a new row starts
  with the start disabled and no timestamp. `update_script` writes them
  like any other field.
- The primary key is SQLite's rowid: a new row gets one more than the
  largest key present. Deleting the row with the largest key therefore
  lets its key be handed out again.
- An update that gives null for a NOT NULL column fails at the flush. So
  does a name that another row already uses. Both make the endpoint fail
  with `StoreRejected`, and nothing changes. models/script.py declares
  `name`, `path`, `is_active` and `repeat_enabled` NOT NULL. It declares no
  `scheduled_start_enabled` column at all, so the model assumes that one is
  NOT NULL too, like the other two flags. Its schema default is false and
  every reader treats it as a boolean.
- api/executions.py has its own copy of the past test and of the
  deactivation rule. `ExecutionsApi.DeactivateAfterManualRun` models the
  copy, and `ExecutionsApi.ManualRuleAgreesWithResolver` proves it equal to
  the shared rule in utils.py.

## Model

| member | source | states |
|---|---|---|
| Records.LargestKeyBelow | src/script_launcher/models/script.py:16 | the result is 0 or a key of the table below the bound, and no key below the bound exceeds it |
| Records.ScriptTable.Insert | src/script_launcher/models/script.py:16-17 | the row goes in under the next rowid, which then advances by one; keys stay unique and names stay distinct |
| Records.ScriptTable.Delete | src/script_launcher/models/script.py:16 | exactly that row is removed; the next rowid becomes one more than the largest remaining key, so freed top keys are reused |
| Lifecycle.IsDatetimeInPast | src/script_launcher/utils.py:10-19 | a naive timestamp is past iff it is strictly before local now; a zone-aware one iff it is strictly before UTC now |
| Lifecycle.NowFor | src/script_launcher/utils.py:17-19 | a naive timestamp is compared with local now, a zone-aware one with UTC now |
| Lifecycle.ShouldScriptRemainActive | src/script_launcher/utils.py:22-36 | a repeating script stays active; otherwise it stays active iff an enabled start has a timestamp at or after now (equal to now counts as future) |
| Lifecycle.ShouldDeactivateAfterExecution | src/script_launcher/utils.py:39-46 | deactivation is exactly the negation of staying active, and never happens to a repeating script |
| Lifecycle.PastUsesMatchingClock | src/script_launcher/utils.py:10-19 | "in the past" depends only on the clock matching the timestamp's kind, and a timestamp equal to now is not past |
| Lifecycle.PastIsMonotone | src/script_launcher/utils.py:10-19 | once past, a timestamp stays past as both clocks advance |
| Lifecycle.DecisionReadsOnlyScheduleFields | src/script_launcher/utils.py:22-46 | two scripts that agree on the repeat flag and the scheduled-start fields get the same decision |
| Executor.NewExecution | src/script_launcher/services/executor.py:86-93 | a new record is running, with no process, exit code or finish time, and carries the given run identity |
| Executor.Completed | src/script_launcher/services/executor.py:120-122 | the record becomes terminal with that exit code and finish time; it is successful iff the code is 0; the run identity is kept |
| Executor.LaunchFailed | src/script_launcher/services/executor.py:132-135 | the record becomes terminal as failed with exit code -1; the run identity is kept |
| Executor.StoppedBy | src/script_launcher/services/executor.py:159-161 | the record becomes terminal as failed with exit code -15; the run identity is kept |
| Executor.RunRecordOutcome | src/script_launcher/services/executor.py:102-142 | a whole run leaves a terminal record that succeeded iff the process exited with 0, with exit code -1 on a launch failure |
| Executor.AdmitKeeps | src/script_launcher/services/executor.py:80-93 | registering a running record under the next id and taking a free lock keeps the registry invariant |
| Executor.RewriteKeeps | src/script_launcher/services/executor.py:109 | rewriting a record of the same run, without making it run again, keeps the registry invariant |
| Executor.FinishKeeps | src/script_launcher/services/executor.py:85-142 | finishing the lock holder's record and releasing its lock keeps the registry invariant |
| Executor.ScriptExecutor.constructor | src/script_launcher/services/executor.py:33-36 | the registry starts empty, with no locks |
| Executor.ScriptExecutor.IsRunning | src/script_launcher/services/executor.py:44-46 | true iff some registered execution of the script has status running |
| Executor.ScriptExecutor.GetExecution | src/script_launcher/services/executor.py:52-54 | an id is found iff it was issued, and then the record under it is returned |
| Executor.ScriptExecutor.AtMostOneRunning | src/script_launcher/services/executor.py:80-93 | two running records of the same script are the same record |
| Executor.ScriptExecutor.RunningHoldsLock | src/script_launcher/services/executor.py:44-46 | a running script has its lock held, by the execution that is running |
| Executor.ScriptExecutor.GetLock | src/script_launcher/services/executor.py:38-42 | the lock is created free on first use and handed back unchanged afterwards |
| Executor.ScriptExecutor.Admit | src/script_launcher/services/executor.py:80-93 | a held lock raises "already running" and changes nothing; otherwise the lock is taken and a running record is added under the next id |
| Executor.ScriptExecutor.AttachProcess | src/script_launcher/services/executor.py:103-109 | only the process flag of that record changes |
| Executor.ScriptExecutor.Finish | src/script_launcher/services/executor.py:117-142 | an exit writes the completed fields and returns the execution; a failure writes the launch-failure fields and raises; either way the lock is released |
| Executor.ScriptExecutor.Complete | src/script_launcher/services/executor.py:102-144 | a process is attached unless spawning failed; then the outcome is recorded and the lock released |
| Executor.ScriptExecutor.Run | src/script_launcher/services/executor.py:72-144 | a held lock raises and changes nothing; otherwise exactly one new record is added under the next id, holding the run's outcome, and the lock ends up free |
| Executor.ScriptExecutor.Stop | src/script_launcher/services/executor.py:146-170 | the result is true iff the execution exists and is running; only one with a process is marked stopped (-15); the locks are untouched |
| Executor.ScriptExecutor.StopDuringRun | src/script_launcher/services/executor.py:102-170 | a `stop` between spawn and exit succeeds, yet the run's exit then overwrites the stopped fields: the record left is the one an unstopped run with that exit code leaves, and the lock is free again |
| Executor.ScriptExecutor.GetActiveExecutions | src/script_launcher/services/executor.py:48-50 | exactly the running records, each as stored, in increasing id order |
| Scheduler.DecodeWeekdays | src/script_launcher/services/scheduler.py:58-66 | the job gets the decoded weekday list, or none when the column is empty or does not decode |
| Scheduler.RepeatJobFor | src/script_launcher/services/scheduler.py:68-75 | the job carries the script's id, name, path and decoded weekdays |
| Scheduler.StartJobFor | src/script_launcher/services/scheduler.py:97-104 | the job carries the script's id, its start timestamp and the repeat flag as it is now |
| Scheduler.HasPendingScheduledStart | src/script_launcher/services/scheduler.py:115-131 | a start is pending iff it is enabled with a timestamp strictly after now, read on the clock matching the timestamp's kind; a pending start is never past |
| Scheduler.RemainActiveVersusPending | src/script_launcher/services/scheduler.py:115-131 | a pending start keeps a script active; the only gap between the two tests is a start exactly equal to now |
| Scheduler.FailedGuardKeepsMap | src/script_launcher/services/scheduler.py:45-92 | when the guard of either add fails, the map is left as it was, stale entry included |
| Scheduler.AddReplacesOwnEntry | src/script_launcher/services/scheduler.py:45-104 | an add puts the script's single entry in place, leaves other scripts' entries alone and is idempotent |
| Scheduler.UpdateRepeatMembership | src/script_launcher/services/scheduler.py:133-142 | with an interval set, a repeat job remains iff the script repeats, is active and has no pending start |
| Scheduler.UpdateRemovesRepeat | src/script_launcher/services/scheduler.py:139-142 | no repeat, inactive or a pending start always leaves no repeat job |
| Scheduler.UpdateStartMembership | src/script_launcher/services/scheduler.py:144-148 | with a timestamp, a one-shot job remains iff the start is enabled and the script is active; disabling or deactivating removes it |
| Scheduler.PendingStartSuppressesRepeat | src/script_launcher/services/scheduler.py:135-148 | an active script with a pending start has its one-shot job at that time and no repeat job |
| Scheduler.UpdateIsLocalAndIdempotent | src/script_launcher/services/scheduler.py:133-148 | reconciling one script touches no other script's entries, and doing it twice is doing it once |
| Scheduler.SchedulerService.constructor | src/script_launcher/services/scheduler.py:21-25 | both job maps start empty |
| Scheduler.SchedulerService.RemoveJob | src/script_launcher/services/scheduler.py:77-84 | exactly that key leaves the repeat map; an unknown id changes nothing |
| Scheduler.SchedulerService.AddJob | src/script_launcher/services/scheduler.py:45-75 | the repeat map becomes the add-job map: unchanged when the guard fails, the script's fresh entry otherwise |
| Scheduler.SchedulerService.RemoveScheduledStartJob | src/script_launcher/services/scheduler.py:106-113 | exactly that key leaves the one-shot map |
| Scheduler.SchedulerService.AddScheduledStartJob | src/script_launcher/services/scheduler.py:86-104 | the one-shot map gets the script's entry when the start is enabled with a timestamp, even a past one |
| Scheduler.SchedulerService.UpdateJob | src/script_launcher/services/scheduler.py:133-148 | both maps become their reconciled form, whose membership is fixed by the lemmas above |
| Scheduler.SchedulerService.GetNextRun | src/script_launcher/services/scheduler.py:150-158 | nothing without a repeat entry; otherwise the timer's next run time for that entry |
| Scheduler.SchedulerService.FireRepeat | src/script_launcher/services/scheduler.py:171-210 | a filtered-out weekday or a running script skips with no change; otherwise the run is attempted with trigger "scheduled" and its error is swallowed |
| Scheduler.SchedulerService.FireScheduledStart | src/script_launcher/services/scheduler.py:224-294 | the own entry is always dropped; a running script returns at once; otherwise the run is attempted and the script's lock is free afterwards, then the captured repeat flag decides between adding the repeat job and clearing only `is_active` |
| Startup.SweepScript | src/script_launcher/main.py:38-64 | the sweep either keeps a row or clears only its `is_active`, and never touches an inactive row |
| Startup.SweepAgreesWithResolver | src/script_launcher/main.py:38-64 | the sweep keeps exactly the scripts the resolver keeps, plus those with an enabled start but no timestamp |
| Startup.SweepCases | src/script_launcher/main.py:38-64 | the three cases: repeat loads the repeat job; a future start loads the one-shot job; a past start or no scheduling deactivates, unless the script repeats |
| Startup.SweepOne | src/script_launcher/main.py:38-64 | visiting one active script changes only its row and its two timer entries, as the sweep functions say |
| Startup.LoadScheduledScripts | src/script_launcher/main.py:19-66 | after one pass, every row is swept and every active script's timers are loaded; other entries and the keys are unchanged |
| ExecutionsApi.DeactivateAfterManualRun | src/script_launcher/api/executions.py:25-39 | the endpoint's copy of the rule deactivates exactly when the shared resolver does, and never a repeating script |
| ExecutionsApi.ManualRuleAgreesWithResolver | src/script_launcher/api/executions.py:16-39 | the endpoint module's copy of the rule gives the same answer as the shared resolver on every script and clock |
| ExecutionsApi.FirstFor | src/script_launcher/api/executions.py:103 | the first execution of the script in the list, or none iff the list holds none |
| ExecutionsApi.RequestRun | src/script_launcher/api/executions.py:66-86 | not found iff the script is missing; a conflict iff it is running; otherwise a run of its id, name and path is queued |
| ExecutionsApi.AcceptedButLockHeld | src/script_launcher/api/executions.py:77-84 | a request is accepted while a stopped run still holds the lock, so the queued run will be refused |
| ExecutionsApi.RunScriptTask | src/script_launcher/api/executions.py:42-63 | the manual run is attempted: refused with no record and the locks unchanged while the lock is held, otherwise one manual record is added and the lock is free afterwards; then the row is deactivated iff it still exists, is active and has nothing to wait for |
| ExecutionsApi.GetScriptStatus | src/script_launcher/api/executions.py:89-110 | none iff the script is missing; it is reported running iff it runs, together with the id and start time of its running execution |
| ExecutionsApi.StopScript | src/script_launcher/api/executions.py:113-140 | not found iff missing; "no running execution" iff it does not run; otherwise its running execution is stopped; the internal-error answer cannot occur |
| Strings.StripShape | src/script_launcher/services/log_manager.py:29 | the stripped text has no whitespace at either end and is the input minus whitespace-only ends |
| Strings.StripTrimmed | src/script_launcher/services/log_manager.py:29 | stripping text with no whitespace at its ends gives it back |
| Strings.Split | src/script_launcher/services/log_manager.py:29 | `split(sep, n)` gives between 1 and n+1 parts |
| Strings.JoinSplit | src/script_launcher/services/log_manager.py:29 | joining the parts of a split with the separator gives the text back |
| Strings.SplitPartsFree | src/script_launcher/services/log_manager.py:29 | every part except the last holds no separator |
| Strings.SplitFull | src/script_launcher/services/log_manager.py:29-30 | the split reaches n+1 parts iff the text holds at least n separators |
| Strings.SplitJoin | src/script_launcher/services/log_manager.py:24-29 | parts whose first ones hold no separator split back out of their join |
| Strings.BelowTransitive | src/script_launcher/api/scripts.py:26 | the name order is transitive |
| Strings.BelowTotal | src/script_launcher/api/scripts.py:26 | any two distinct names are ordered one way or the other |
| Strings.BelowIrreflexive | src/script_launcher/api/scripts.py:26 | no name is below itself |
| Schemas.UnitRoundTrip | src/script_launcher/schemas/script.py:20 | exactly the four unit names are accepted, and each reads back as its unit |
| Schemas.ValidateCreate | src/script_launcher/schemas/script.py:10-31 | accepted iff the name and path lengths, the interval bound and the unit pattern hold; a refusal names exactly the violated fields; the flags default to false |
| Schemas.ValidateUpdate | src/script_launcher/schemas/script.py:34-46 | accepted iff every field given with a value meets the create bounds; left-out and null fields pass through as they are |
| Schemas.ParseWeekdays | src/script_launcher/schemas/script.py:61-72 | null gives none, decodable text gives its list, other text gives none, a list passes through |
| Schemas.WeekdaysReadBack | src/script_launcher/api/scripts.py:49-50 | storing a weekday list and reading it back gives the list, except that an empty list comes back as none |
| ScriptsApi.NewRow | src/script_launcher/api/scripts.py:49-60 | the new row copies the request's fields, stores weekdays as text, starts active, and does not copy the scheduled start |
| ScriptsApi.CreateScript | src/script_launcher/api/scripts.py:43-68 | a taken name is rejected with no change; otherwise the row is inserted under the next rowid and its timers are reconciled |
| ScriptsApi.GetScript | src/script_launcher/api/scripts.py:31-40 | not found iff the id is missing; otherwise the stored row |
| ScriptsApi.UpdateWritesOnlyGiven | src/script_launcher/api/scripts.py:82-91 | an update writes exactly the given fields, keeps the id, and is idempotent |
| ScriptsApi.EmptyUpdateKeepsRow | src/script_launcher/api/scripts.py:82-91 | an update with no fields leaves the row unchanged |
| ScriptsApi.UpdateScript | src/script_launcher/api/scripts.py:71-99 | not found iff the id is missing; for an existing id, rejected iff a required column gets null or the name is taken, and otherwise it succeeds: the row is updated and its timers reconciled; a failure changes nothing |
| ScriptsApi.DeleteScript | src/script_launcher/api/scripts.py:102-116 | a present row and its repeat job are removed; its one-shot job stays registered |
| ScriptsApi.EnableScript | src/script_launcher/api/scripts.py:119-135 | the row becomes active and both timers are reconciled |
| ScriptsApi.DisableScript | src/script_launcher/api/scripts.py:138-154 | the row becomes inactive and only the repeat job is removed; the one-shot job stays |
| ScriptsApi.UpdateOfDisabledRowClearsBoth | src/script_launcher/api/scripts.py:147-152 | reconciling a disabled row would drop both timers, which disable does not do |
| ScriptsApi.InsertByName | src/script_launcher/api/scripts.py:26 | inserting into a list ordered by name keeps it ordered, adding exactly that row |
| ScriptsApi.ListScripts | src/script_launcher/api/scripts.py:17-28 | the result is ordered by name and holds exactly the stored rows (only the active ones when asked) |
| Logs.FromLine | src/script_launcher/services/log_manager.py:27-38 | a parsed entry has script id 0 and a timestamp the parser accepts |
| Logs.FourFields | src/script_launcher/services/log_manager.py:29-31 | the text gives four fields iff it holds at least three separators; their join is the text |
| Logs.FromLineAccepts | src/script_launcher/services/log_manager.py:27-38 | a line parses iff its stripped text holds three separators and starts with a valid timestamp; the fields rejoin to the stripped line |
| Logs.LineRoundTrip | src/script_launcher/services/log_manager.py:21-38 | parsing the line of an entry with no separator in its first three fields and trimmed ends gives the entry back, with script id 0 |
| Logs.ShortLineRefused | src/script_launcher/services/log_manager.py:29-31 | a line with fewer than three separators is refused |
| Logs.OneLine | src/script_launcher/services/log_manager.py:118-119 | text with no line break reads back as one line |
| Logs.EntryIsOneLine | src/script_launcher/services/log_manager.py:78 | the line of an entry without line breaks in its fields reads back as one line |
| Logs.ParsedAppend | src/script_launcher/services/log_manager.py:117-127 | reading distributes over appending lines to the file |
| Logs.ParsedEntriesCome | src/script_launcher/services/log_manager.py:117-127 | every entry read comes from some line of the file, passes the name filter, and there are no more entries than lines |
| Logs.WriteThenRead | src/script_launcher/services/log_manager.py:59-127 | after a write, reading the day gives the old entries plus the new one last when it passes the name filter |
| Logs.ToLine | src/script_launcher/services/log_manager.py:21-24 | the line is the timestamp, script name, level and message joined by the separator, in that order |
| Logs.LogFileName | src/script_launcher/services/log_manager.py:53-57 | the name is a `.log` file name whose part before the extension is the requested day, or today when none is given |
| Logs.LogFileNameStem | src/script_launcher/services/log_manager.py:53-57 | a day's file is a `.log` file whose stem is the requested day, or today |
| Logs.DatesInMembers | src/script_launcher/services/log_manager.py:129-137 | a day is listed iff some `.log` name in the directory parses to it |
| Logs.InsertDescending | src/script_launcher/services/log_manager.py:138 | inserting into a newest-first list keeps it newest first and adds exactly that day |
| Logs.SortDescending | src/script_launcher/services/log_manager.py:138 | the result is newest first and a permutation of the input |
| Logs.ClientQueue.PutNoWait | src/script_launcher/services/log_manager.py:95-97 | the entry is appended iff the queue was not full; otherwise the queue is unchanged |
| Logs.LogManager.RegisterClient | src/script_launcher/services/log_manager.py:99-101 | the registered set gains the queue, with no duplicate |
| Logs.LogManager.UnregisterClient | src/script_launcher/services/log_manager.py:103-105 | the registered set loses the queue; an unknown queue changes nothing |
| Logs.LogManager.Broadcast | src/script_launcher/services/log_manager.py:83-97 | every registered queue that was not full receives the entry once; full queues keep what they had |
| Logs.LogManager.Write | src/script_launcher/services/log_manager.py:59-81 | the entry's line is appended to today's file, created if missing, and the entry is broadcast |
| Logs.LogManager.ReadLogs | src/script_launcher/services/log_manager.py:107-127 | the parsed entries of the day's file in file order, filtered by name; nothing when the file is missing |
| Logs.LogManager.GetAvailableDates | src/script_launcher/services/log_manager.py:129-138 | newest first, a permutation of the dates parsed from the listing; a day appears iff some `.log` file's stem parses to it |

## Left out

- Spawning the process, draining its two streams (`_stream_output`), and terminate/kill/wait with its 5-second timeout are not modelled. A run's end is the `RunOutcome` argument, and `hasProcess` stands for the process handle.
- The log writes made by the executor, the scheduler handlers and the endpoints are not modelled. `Logs.LogManager.Write` models a single write.
- The run duration (a float) in the finish message is not modelled.
- APScheduler is not modelled: triggers, the thread pool, `asyncio.run` in the handlers, `start` and `shutdown`. A job is an entry holding its handler's arguments, and firing is an explicit call.
- The real clock, time zones and the local weekday are not modelled; they are parameters (`Clock`, `today`).
- JSON encoding, `datetime.fromisoformat`, `date.fromisoformat`, `isoformat` and `uuid4` are abstract. Weekday text is `Encoded` or `Unparseable`; a timestamp check and a date parser are parameters; an entry's timestamp is text; execution ids are a counter.
- Database sessions, flushes, commits and refreshes are not modelled, nor is a commit failure after a scheduler call. Each endpoint's effect is one atomic change to `ScriptTable`.
- HTTP routing and status codes are not modelled; they become outcome values.
- The columns `last_run`, `next_run`, `created_at` and `updated_at` are not modelled, because no core logic reads them.
- The weekday column's `String(50)` length limit is not enforced.
- Rowid overflow is not modelled.
- `list_executions` and `get_execution` only reshape records into dictionaries; `Executor.ScriptExecutor.GetActiveExecutions` and `Executor.ScriptExecutor.GetExecution` model the data they return.
- Concurrency is not modelled: the race between a one-shot fire and an update, and `run` yielding while it holds the lock. The one interleaving that matters is modelled: `stop` acting while `run` waits on its process. `Executor.ScriptExecutor.StopDuringRun` runs `Admit`, `AttachProcess`, `Stop` and `Finish` in that order, and `Finish` writes over what `Stop` recorded.
- Execution records are values in a map, not shared mutable objects, so aliasing of one `Execution` across lists is not captured.
- Logs.LogManager.Broadcast: the queues receive the entry itself rather than the message dictionary. That dictionary differs only in carrying the timestamp at full precision and a "type" field.
- Logs.LogManager: the client set is a sequence without duplicates, so the order of iterating a Python set is fixed to registration order.
- Logs.LogManager.GetAvailableDates: `glob("*.log")` also matches directories; the listing is taken to hold only the files of the map.
- Records.Script.scheduledStartEnabled: a null for it is rejected like one for the declared NOT NULL flags, an assumption, because models/script.py declares no such column.
- Logs.LogFileNameStem: requires a non-empty date text, which every ISO date is.
- A null sent for a boolean field on create is refused by pydantic; `Schemas.CreateRequest` carries only given-or-absent flags.
- The live-log websocket endpoints and api/logs.py are not part of this model; only the log manager's client-queue side is.
- The rest of the application shell is not modelled: `lifespan`, static-file mounting, configuration and the lazy singleton getters. It is wiring with no logic to prove.
