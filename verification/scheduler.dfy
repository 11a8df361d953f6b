/** The timer reconciliation state machine. Two maps keyed by script id hold
    the registered jobs: one for recurring (interval) jobs, one for one-shot
    scheduled-start jobs. A job is an opaque entry carrying the arguments its
    handler receives; firing is an explicit call. */
module Scheduler {
  import opened Records
  import opened Lifecycle
  import opened Executor

  /** A recurring job and the arguments captured when it was added. */
  datatype RepeatJob = RepeatJob(
    scriptId: int,
    scriptName: string,
    scriptPath: string,
    intervalValue: int,
    intervalUnit: IntervalUnit,
    weekdays: Option<seq<int>>)

  /** A one-shot job and the arguments captured when it was added, among them
      the repeat flag as it was then. */
  datatype StartJob = StartJob(
    scriptId: int,
    scriptName: string,
    scriptPath: string,
    runAt: Timestamp,
    repeatEnabled: bool)

  /** What a fire handler did. */
  datatype FireResult = SkippedWeekday | SkippedRunning | Attempted(run: RunResult)

  /** The guard of `add_job`: repeat enabled, an interval value that is
      neither absent nor 0, and a unit. */
  predicate CanAddJob(s: Script)
  {
    s.repeatEnabled && s.intervalValue.Some? && s.intervalValue.value != 0 && s.intervalUnit.Some?
  }

  /** The weekday list `add_job` hands to its job: the decoded column, or
      none when the column is empty or does not decode. */
  function DecodeWeekdays(w: Option<WeekdaysJson>): (r: Option<seq<int>>)
    ensures r.Some? <==> w.Some? && w.value.Encoded?
    ensures r.Some? ==> r.value == w.value.days
  {
    if w.Some? && w.value.Encoded? then Some(w.value.days) else None
  }

  function RepeatJobFor(s: Script): (j: RepeatJob)
    requires CanAddJob(s)
    ensures j.scriptId == s.id && j.scriptName == s.name && j.scriptPath == s.path
    ensures j.weekdays == DecodeWeekdays(s.weekdays)
  {
    RepeatJob(s.id, s.name, s.path, s.intervalValue.value, s.intervalUnit.value, DecodeWeekdays(s.weekdays))
  }

  function StartJobFor(s: Script): (j: StartJob)
    requires HasScheduledStart(s)
    ensures j.scriptId == s.id && j.runAt == s.scheduledStartAt.value && j.repeatEnabled == s.repeatEnabled
  {
    StartJob(s.id, s.name, s.path, s.scheduledStartAt.value, s.repeatEnabled)
  }

  /** The repeat map after `add_job(s)`. */
  function AfterAddJob(m: map<int, RepeatJob>, s: Script): map<int, RepeatJob>
  {
    if CanAddJob(s) then m[s.id := RepeatJobFor(s)] else m
  }

  /** The one-shot map after `add_scheduled_start_job(s)`. */
  function AfterAddStart(m: map<int, StartJob>, s: Script): map<int, StartJob>
  {
    if HasScheduledStart(s) then m[s.id := StartJobFor(s)] else m
  }

  /** `_has_pending_scheduled_start`: enabled, with a timestamp strictly
      after the matching "now". */
  predicate HasPendingScheduledStart(s: Script, now: Clock): (pending: bool)
    ensures pending ==> HasScheduledStart(s) && !IsDatetimeInPast(s.scheduledStartAt.value, now)
    ensures pending <==>
      HasScheduledStart(s)
      && (if s.scheduledStartAt.value.naive then s.scheduledStartAt.value.instant > now.local
          else s.scheduledStartAt.value.instant > now.utc)
  {
    HasScheduledStart(s) && s.scheduledStartAt.value.instant > NowFor(s.scheduledStartAt.value, now)
  }

  /** The repeat map after `update_job(s)`. */
  function RepeatAfterUpdate(m: map<int, RepeatJob>, s: Script, now: Clock): map<int, RepeatJob>
  {
    if s.repeatEnabled && s.isActive && !HasPendingScheduledStart(s, now) then AfterAddJob(m, s) else m - {s.id}
  }

  /** The one-shot map after `update_job(s)`. */
  function StartAfterUpdate(m: map<int, StartJob>, s: Script): map<int, StartJob>
  {
    if s.scheduledStartEnabled && s.isActive then AfterAddStart(m, s) else m - {s.id}
  }

  /** The weekday filter of the recurring handler: no list or an empty list
      lets every day through. */
  predicate WeekdayAllows(weekdays: Option<seq<int>>, today: int)
  {
    weekdays.None? || |weekdays.value| == 0 || today in weekdays.value
  }

  /** The two "future" tests differ only at the boundary: the lifecycle
      resolver keeps a script whose start equals now, while the scheduler
      does not count that start as pending. */
  lemma RemainActiveVersusPending(s: Script, now: Clock)
    ensures HasPendingScheduledStart(s, now) ==> ShouldScriptRemainActive(s, now)
    ensures ShouldScriptRemainActive(s, now) <==>
      || s.repeatEnabled
      || HasPendingScheduledStart(s, now)
      || (HasScheduledStart(s) && s.scheduledStartAt.value.instant == NowFor(s.scheduledStartAt.value, now))
  {
  }

  /** A failed guard leaves a map exactly as it was, old entry included. */
  lemma FailedGuardKeepsMap(m: map<int, RepeatJob>, m': map<int, StartJob>, s: Script)
    ensures !CanAddJob(s) ==> AfterAddJob(m, s) == m
    ensures !HasScheduledStart(s) ==> AfterAddStart(m', s) == m'
  {
  }

  /** Adding replaces the script's single entry; other scripts' entries
      never change. */
  lemma AddReplacesOwnEntry(m: map<int, RepeatJob>, m': map<int, StartJob>, s: Script, other: int)
    requires other != s.id
    ensures CanAddJob(s) ==> s.id in AfterAddJob(m, s) && AfterAddJob(m, s)[s.id] == RepeatJobFor(s)
    ensures HasScheduledStart(s) ==> s.id in AfterAddStart(m', s) && AfterAddStart(m', s)[s.id] == StartJobFor(s)
    ensures Lookup(AfterAddJob(m, s), other) == Lookup(m, other)
    ensures Lookup(AfterAddStart(m', s), other) == Lookup(m', other)
    ensures AfterAddJob(AfterAddJob(m, s), s) == AfterAddJob(m, s)
  {
  }

  /** With an interval configured, `update_job` leaves a repeat job exactly
      when the script repeats, is active and has no pending start. */
  lemma UpdateRepeatMembership(m: map<int, RepeatJob>, s: Script, now: Clock)
    requires s.intervalValue.Some? && s.intervalValue.value != 0 && s.intervalUnit.Some?
    ensures s.id in RepeatAfterUpdate(m, s, now) <==>
      s.repeatEnabled && s.isActive && !HasPendingScheduledStart(s, now)
    ensures s.id in RepeatAfterUpdate(m, s, now) ==> RepeatAfterUpdate(m, s, now)[s.id] == RepeatJobFor(s)
  {
  }

  /** Without repeat, or inactive, or with a pending start, no repeat job
      is left, whatever the interval fields say. */
  lemma UpdateRemovesRepeat(m: map<int, RepeatJob>, s: Script, now: Clock)
    requires !s.repeatEnabled || !s.isActive || HasPendingScheduledStart(s, now)
    ensures s.id !in RepeatAfterUpdate(m, s, now)
  {
  }

  /** With a timestamp, `update_job` leaves a one-shot job exactly when the
      scheduled start is enabled and the script is active; disabling or
      deactivating always removes it. */
  lemma UpdateStartMembership(m: map<int, StartJob>, s: Script)
    ensures s.scheduledStartAt.Some? ==>
      (s.id in StartAfterUpdate(m, s) <==> s.scheduledStartEnabled && s.isActive)
    ensures !(s.scheduledStartEnabled && s.isActive) ==> s.id !in StartAfterUpdate(m, s)
    ensures s.id in StartAfterUpdate(m, s) && HasScheduledStart(s) ==> StartAfterUpdate(m, s)[s.id] == StartJobFor(s)
  {
  }

  /** A strictly future, enabled start on an active script suppresses the
      repeat job while its one-shot job is registered. */
  lemma PendingStartSuppressesRepeat(m: map<int, RepeatJob>, m': map<int, StartJob>, s: Script, now: Clock)
    requires s.isActive && HasPendingScheduledStart(s, now)
    ensures s.id !in RepeatAfterUpdate(m, s, now)
    ensures s.id in StartAfterUpdate(m', s)
    ensures StartAfterUpdate(m', s)[s.id].runAt == s.scheduledStartAt.value
  {
  }

  /** `update_job` touches only the script's own entries, and applying it
      twice is the same as applying it once. */
  lemma UpdateIsLocalAndIdempotent(m: map<int, RepeatJob>, m': map<int, StartJob>, s: Script, now: Clock, other: int)
    requires other != s.id
    ensures Lookup(RepeatAfterUpdate(m, s, now), other) == Lookup(m, other)
    ensures Lookup(StartAfterUpdate(m', s), other) == Lookup(m', other)
    ensures RepeatAfterUpdate(RepeatAfterUpdate(m, s, now), s, now) == RepeatAfterUpdate(m, s, now)
    ensures StartAfterUpdate(StartAfterUpdate(m', s), s) == StartAfterUpdate(m', s)
  {
  }

  class SchedulerService {
    /** `_jobs`: script id -> recurring job. */
    var repeatJobs: map<int, RepeatJob>
    /** `_scheduled_start_jobs`: script id -> one-shot job. */
    var startJobs: map<int, StartJob>

    ghost predicate Valid()
      reads this
    {
      && (forall id :: id in repeatJobs ==> repeatJobs[id].scriptId == id)
      && (forall id :: id in startJobs ==> startJobs[id].scriptId == id)
    }

    constructor ()
      ensures Valid() && repeatJobs == map[] && startJobs == map[]
    {
      repeatJobs := map[];
      startJobs := map[];
    }

    /** `remove_job`: deletes that key; an unknown id changes nothing. */
    method RemoveJob(scriptId: int)
      requires Valid()
      modifies this
      ensures Valid()
      ensures repeatJobs == old(repeatJobs) - {scriptId} && startJobs == old(startJobs)
    {
      if scriptId in repeatJobs {
        repeatJobs := repeatJobs - {scriptId};
      }
    }

    /** `add_job`: returns before touching the map when the guard fails,
        otherwise replaces the script's entry. */
    method AddJob(s: Script)
      requires Valid()
      modifies this
      ensures Valid()
      ensures repeatJobs == AfterAddJob(old(repeatJobs), s) && startJobs == old(startJobs)
    {
      if !s.repeatEnabled || s.intervalValue.None? || s.intervalValue.value == 0 || s.intervalUnit.None? {
        return;
      }
      RemoveJob(s.id);
      repeatJobs := repeatJobs[s.id := RepeatJobFor(s)];
    }

    /** `remove_scheduled_start_job`. */
    method RemoveScheduledStartJob(scriptId: int)
      requires Valid()
      modifies this
      ensures Valid()
      ensures startJobs == old(startJobs) - {scriptId} && repeatJobs == old(repeatJobs)
    {
      if scriptId in startJobs {
        startJobs := startJobs - {scriptId};
      }
    }

    /** `add_scheduled_start_job`: a timestamp already past is registered
        too (it fires at once). */
    method AddScheduledStartJob(s: Script)
      requires Valid()
      modifies this
      ensures Valid()
      ensures startJobs == AfterAddStart(old(startJobs), s) && repeatJobs == old(repeatJobs)
    {
      if !s.scheduledStartEnabled || s.scheduledStartAt.None? {
        return;
      }
      RemoveScheduledStartJob(s.id);
      startJobs := startJobs[s.id := StartJobFor(s)];
    }

    /** `update_job`: reconcile both timers of one script. */
    method UpdateJob(s: Script, now: Clock)
      requires Valid()
      modifies this
      ensures Valid()
      ensures repeatJobs == RepeatAfterUpdate(old(repeatJobs), s, now)
      ensures startJobs == StartAfterUpdate(old(startJobs), s)
    {
      var hasPendingStart := HasPendingScheduledStart(s, now);
      if s.repeatEnabled && s.isActive && !hasPendingStart {
        AddJob(s);
      } else {
        RemoveJob(s.id);
      }
      if s.scheduledStartEnabled && s.isActive {
        AddScheduledStartJob(s);
      } else {
        RemoveScheduledStartJob(s.id);
      }
    }

    /** `get_next_run`: nothing without a repeat entry; otherwise whatever
        the timer library reports for that job (`nextRunTime`). */
    function GetNextRun(scriptId: int, nextRunTime: RepeatJob -> Option<int>): (r: Option<int>)
      reads this
      ensures scriptId !in repeatJobs ==> r.None?
      ensures scriptId in repeatJobs ==> r == nextRunTime(repeatJobs[scriptId])
    {
      if scriptId !in repeatJobs then None else nextRunTime(repeatJobs[scriptId])
    }

    /** `_execute_script_async`, the recurring handler. `today` is the local
        weekday (0 = Monday). A run error is caught, so the handler always
        returns normally. */
    method FireRepeat(job: RepeatJob, today: int, outcome: RunOutcome, startedAt: int, finishedAt: int,
                      executor: ScriptExecutor) returns (r: FireResult)
      requires executor.Valid()
      modifies executor
      ensures executor.Valid()
      ensures !WeekdayAllows(job.weekdays, today) ==> r == SkippedWeekday && unchanged(executor)
      ensures WeekdayAllows(job.weekdays, today) && old(executor.IsRunning(job.scriptId)) ==>
        r == SkippedRunning && unchanged(executor)
      ensures r.Attempted? <==> WeekdayAllows(job.weekdays, today) && !old(executor.IsRunning(job.scriptId))
      ensures r.Attempted? && old(executor.LockHeld(job.scriptId)) ==>
        r.run == Raised(AlreadyRunning) && executor.executions == old(executor.executions) && executor.locks == old(executor.locks) && executor.nextId == old(executor.nextId)
      ensures r.Attempted? && !old(executor.LockHeld(job.scriptId)) ==>
        && executor.nextId == old(executor.nextId) + 1
        && executor.executions == old(executor.executions)[old(executor.nextId) :=
             RunRecord(old(executor.nextId), job.scriptId, job.scriptName, Scheduled, outcome, startedAt, finishedAt)]
        && executor.locks == old(executor.locks)[job.scriptId := false]
    {
      if job.weekdays.Some? && |job.weekdays.value| != 0 && today !in job.weekdays.value {
        return SkippedWeekday;
      }
      if executor.IsRunning(job.scriptId) {
        return SkippedRunning;
      }
      var run := executor.Run(job.scriptId, job.scriptName, Scheduled, outcome, startedAt, finishedAt);
      r := Attempted(run);
    }

    /** `_execute_scheduled_start_async`, the one-shot handler. It first
        drops its own entry; if the script is running it returns with no
        further bookkeeping. Otherwise, after the run attempt, it re-reads
        the script and, going by the repeat flag captured with the job,
        either adds the repeat job or clears only `is_active`. */
    method FireScheduledStart(job: StartJob, outcome: RunOutcome, startedAt: int, finishedAt: int,
                              executor: ScriptExecutor, table: ScriptTable) returns (r: FireResult)
      requires Valid() && executor.Valid() && table.Valid()
      modifies this, executor, table
      ensures Valid() && executor.Valid() && table.Valid()
      ensures startJobs == old(startJobs) - {job.scriptId}
      ensures table.nextId == old(table.nextId)
      ensures old(executor.IsRunning(job.scriptId)) ==>
        && r == SkippedRunning && unchanged(executor) && unchanged(table)
        && repeatJobs == old(repeatJobs)
      ensures !old(executor.IsRunning(job.scriptId)) ==> r.Attempted?
      ensures r.Attempted? && old(executor.LockHeld(job.scriptId)) ==>
        r.run == Raised(AlreadyRunning) && executor.executions == old(executor.executions) && executor.locks == old(executor.locks) && executor.nextId == old(executor.nextId)
      ensures r.Attempted? && !old(executor.LockHeld(job.scriptId)) ==>
        && executor.nextId == old(executor.nextId) + 1
        && executor.executions == old(executor.executions)[old(executor.nextId) :=
             RunRecord(old(executor.nextId), job.scriptId, job.scriptName, ScheduledStart, outcome, startedAt, finishedAt)]
        && executor.locks == old(executor.locks)[job.scriptId := false]
      ensures r.Attempted? && job.scriptId !in old(table.rows) ==>
        table.rows == old(table.rows) && repeatJobs == old(repeatJobs)
      ensures r.Attempted? && job.scriptId in old(table.rows) && job.repeatEnabled ==>
        table.rows == old(table.rows) && repeatJobs == AfterAddJob(old(repeatJobs), old(table.rows)[job.scriptId])
      ensures r.Attempted? && job.scriptId in old(table.rows) && !job.repeatEnabled ==>
        && table.rows == old(table.rows)[job.scriptId := old(table.rows)[job.scriptId].(isActive := false)]
        && repeatJobs == old(repeatJobs)
    {
      if job.scriptId in startJobs {
        startJobs := startJobs - {job.scriptId};
      }
      if executor.IsRunning(job.scriptId) {
        return SkippedRunning;
      }
      var run := executor.Run(job.scriptId, job.scriptName, ScheduledStart, outcome, startedAt, finishedAt);
      r := Attempted(run);
      if job.scriptId in table.rows {
        var script := table.rows[job.scriptId];
        if job.repeatEnabled {
          AddJob(script);
        } else {
          table.rows := table.rows[job.scriptId := script.(isActive := false)];
        }
      }
    }
  }
}
