/** The startup sweep: every active script gets its timers loaded, or is
    deactivated when it has nothing left to wait for. */
module Startup {
  import opened Records
  import opened Lifecycle
  import opened Scheduler

  /** The row a script has after the sweep. Inactive scripts are left alone.
      An active one is deactivated when it has no repeat and either an
      enabled start already past (case 2) or no scheduled start enabled at
      all (case 3); only `is_active` is written. */
  function SweepScript(s: Script, now: Clock): (r: Script)
    ensures r == s || r == s.(isActive := false)
    ensures !s.isActive ==> r == s
  {
    if !s.isActive then s
    else if !s.repeatEnabled && HasScheduledStart(s) && IsDatetimeInPast(s.scheduledStartAt.value, now) then
      s.(isActive := false)
    else if !s.repeatEnabled && !s.scheduledStartEnabled then s.(isActive := false)
    else s
  }

  /** The repeat entry of a script after the sweep: an active repeating
      script goes through `add_job` (case 1). */
  function SweepRepeatEntry(e: Option<RepeatJob>, s: Script): Option<RepeatJob>
  {
    if s.isActive && CanAddJob(s) then Some(RepeatJobFor(s)) else e
  }

  /** The one-shot entry of a script after the sweep: an active script with
      an enabled start that is not past goes through
      `add_scheduled_start_job` (case 2). */
  function SweepStartEntry(e: Option<StartJob>, s: Script, now: Clock): Option<StartJob>
  {
    if s.isActive && HasScheduledStart(s) && !IsDatetimeInPast(s.scheduledStartAt.value, now) then
      Some(StartJobFor(s))
    else e
  }

  /** The sweep deactivates exactly the active scripts the lifecycle
      resolver gives up on, except one: an enabled start without a timestamp
      and no repeat stays active, with no timer. */
  lemma {:induction false} SweepAgreesWithResolver(s: Script, now: Clock)
    requires s.isActive
    ensures SweepScript(s, now).isActive <==>
      ShouldScriptRemainActive(s, now) || (!s.repeatEnabled && s.scheduledStartEnabled && s.scheduledStartAt.None?)
  {
  }

  /** The combinations of the four branches. */
  lemma SweepCases(s: Script, e: Option<RepeatJob>, e': Option<StartJob>, now: Clock)
    requires s.isActive
    ensures s.repeatEnabled ==> SweepScript(s, now).isActive
    ensures CanAddJob(s) ==> SweepRepeatEntry(e, s) == Some(RepeatJobFor(s))
    ensures HasScheduledStart(s) && !IsDatetimeInPast(s.scheduledStartAt.value, now) ==>
      SweepScript(s, now).isActive && SweepStartEntry(e', s, now) == Some(StartJobFor(s))
    ensures HasScheduledStart(s) && IsDatetimeInPast(s.scheduledStartAt.value, now) ==>
      SweepStartEntry(e', s, now) == e' && (SweepScript(s, now).isActive <==> s.repeatEnabled)
    ensures !s.repeatEnabled && !s.scheduledStartEnabled ==>
      !SweepScript(s, now).isActive && SweepRepeatEntry(e, s) == e && SweepStartEntry(e', s, now) == e'
    ensures CanAddJob(s) && HasScheduledStart(s) && !IsDatetimeInPast(s.scheduledStartAt.value, now) ==>
      SweepRepeatEntry(e, s).Some? && SweepStartEntry(e', s, now).Some?
  {
  }

  /** One iteration of the sweep: the script's repeat job (case 1), its
      one-shot job or deactivation (case 2), deactivation when it has no
      scheduling (case 3). Only the script's own entries and row change. */
  method SweepOne(table: ScriptTable, scheduler: SchedulerService, id: int, now: Clock)
    requires table.Valid() && scheduler.Valid()
    requires id in table.rows && table.rows[id].isActive
    modifies table, scheduler
    ensures table.Valid() && scheduler.Valid()
    ensures table.nextId == old(table.nextId)
    ensures table.rows == old(table.rows)[id := SweepScript(old(table.rows[id]), now)]
    ensures forall k ::
              Lookup(scheduler.repeatJobs, k) ==
              if k == id then SweepRepeatEntry(Lookup(old(scheduler.repeatJobs), k), old(table.rows[id]))
              else Lookup(old(scheduler.repeatJobs), k)
    ensures forall k ::
              Lookup(scheduler.startJobs, k) ==
              if k == id then SweepStartEntry(Lookup(old(scheduler.startJobs), k), old(table.rows[id]), now)
              else Lookup(old(scheduler.startJobs), k)
  {
    var script := table.rows[id];
    // Case 1: repetition enabled.
    if script.repeatEnabled {
      scheduler.AddJob(script);
    }
    // Case 2: scheduled start enabled, with a timestamp.
    if script.scheduledStartEnabled && script.scheduledStartAt.Some? {
      if !IsDatetimeInPast(script.scheduledStartAt.value, now) {
        scheduler.AddScheduledStartJob(script);
      } else if !script.repeatEnabled {
        table.rows := table.rows[id := table.rows[id].(isActive := false)];
      }
    }
    // Case 3: neither repeat nor scheduled start.
    if !script.repeatEnabled && !script.scheduledStartEnabled {
      table.rows := table.rows[id := table.rows[id].(isActive := false)];
    }
  }

  /** The rows once the scripts with ids below `bound` have been visited. */
  ghost predicate RowsSweptBelow(rows: map<int, Script>, rows0: map<int, Script>, bound: int, now: Clock)
  {
    && rows.Keys == rows0.Keys
    && forall id :: id in rows ==> rows[id] == (if id < bound then SweepScript(rows0[id], now) else rows0[id])
  }

  /** The repeat jobs once the scripts with ids below `bound` have been visited. */
  ghost predicate RepeatSweptBelow(jobs: map<int, RepeatJob>, jobs0: map<int, RepeatJob>, rows0: map<int, Script>, bound: int)
  {
    forall id ::
      Lookup(jobs, id) ==
      if id in rows0 && id < bound then SweepRepeatEntry(Lookup(jobs0, id), rows0[id]) else Lookup(jobs0, id)
  }

  /** The one-shot jobs once the scripts with ids below `bound` have been visited. */
  ghost predicate StartSweptBelow(jobs: map<int, StartJob>, jobs0: map<int, StartJob>, rows0: map<int, Script>, bound: int, now: Clock)
  {
    forall id ::
      Lookup(jobs, id) ==
      if id in rows0 && id < bound then SweepStartEntry(Lookup(jobs0, id), rows0[id], now) else Lookup(jobs0, id)
  }

  /** Visiting script `i` moves the row bound past it. */
  lemma RowsStep(rows: map<int, Script>, rows': map<int, Script>, rows0: map<int, Script>, i: int, now: Clock)
    requires RowsSweptBelow(rows, rows0, i, now)
    requires rows' == (if i in rows then rows[i := SweepScript(rows[i], now)] else rows)
    ensures RowsSweptBelow(rows', rows0, i + 1, now)
  {
  }

  /** Visiting script `i` moves the repeat-job bound past it. */
  lemma RepeatStep(jobs: map<int, RepeatJob>, jobs': map<int, RepeatJob>, jobs0: map<int, RepeatJob>,
                   rows0: map<int, Script>, i: int)
    requires RepeatSweptBelow(jobs, jobs0, rows0, i)
    requires forall k ::
      Lookup(jobs', k) ==
      if k == i && i in rows0 then SweepRepeatEntry(Lookup(jobs, k), rows0[i]) else Lookup(jobs, k)
    ensures RepeatSweptBelow(jobs', jobs0, rows0, i + 1)
  {
  }

  /** Visiting script `i` moves the one-shot-job bound past it. */
  lemma StartStep(jobs: map<int, StartJob>, jobs': map<int, StartJob>, jobs0: map<int, StartJob>,
                  rows0: map<int, Script>, i: int, now: Clock)
    requires StartSweptBelow(jobs, jobs0, rows0, i, now)
    requires forall k ::
      Lookup(jobs', k) ==
      if k == i && i in rows0 then SweepStartEntry(Lookup(jobs, k), rows0[i], now) else Lookup(jobs, k)
    ensures StartSweptBelow(jobs', jobs0, rows0, i + 1, now)
  {
  }

  /** `load_scheduled_scripts`: one pass over the scripts that were active
      when it started. */
  method LoadScheduledScripts(table: ScriptTable, scheduler: SchedulerService, now: Clock)
    requires table.Valid() && scheduler.Valid()
    modifies table, scheduler
    ensures table.Valid() && scheduler.Valid()
    ensures table.nextId == old(table.nextId)
    ensures table.rows.Keys == old(table.rows.Keys)
    ensures forall id :: id in table.rows ==> table.rows[id] == SweepScript(old(table.rows[id]), now)
    ensures forall id ::
              Lookup(scheduler.repeatJobs, id) ==
              if id in old(table.rows) then SweepRepeatEntry(Lookup(old(scheduler.repeatJobs), id), old(table.rows[id]))
              else Lookup(old(scheduler.repeatJobs), id)
    ensures forall id ::
              Lookup(scheduler.startJobs, id) ==
              if id in old(table.rows) then SweepStartEntry(Lookup(old(scheduler.startJobs), id), old(table.rows[id]), now)
              else Lookup(old(scheduler.startJobs), id)
  {
    // The active scripts come back from the query in primary-key order;
    // visiting a script changes no other row, so each is still active when
    // its turn comes.
    ghost var rows0 := table.rows;
    ghost var repeat0 := scheduler.repeatJobs;
    ghost var start0 := scheduler.startJobs;
    var i := 1;
    while i < table.nextId
      invariant table.Valid() && scheduler.Valid()
      invariant table.nextId == old(table.nextId)
      invariant 1 <= i <= table.nextId
      invariant RowsSweptBelow(table.rows, rows0, i, now)
      invariant RepeatSweptBelow(scheduler.repeatJobs, repeat0, rows0, i)
      invariant StartSweptBelow(scheduler.startJobs, start0, rows0, i, now)
    {
      ghost var rows := table.rows;
      ghost var repeat := scheduler.repeatJobs;
      ghost var start := scheduler.startJobs;
      if i in table.rows && table.rows[i].isActive {
        SweepOne(table, scheduler, i, now);
      }
      RowsStep(rows, table.rows, rows0, i, now);
      RepeatStep(repeat, scheduler.repeatJobs, repeat0, rows0, i);
      StartStep(start, scheduler.startJobs, start0, rows0, i, now);
      i := i + 1;
    }
  }
}
