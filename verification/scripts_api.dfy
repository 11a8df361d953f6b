/** The script endpoints: create, read, list, update, delete, enable and
    disable, each a change to the script table followed by one specific
    call into the scheduler. */
module ScriptsApi {
  import opened Records
  import opened Strings
  import opened Schemas
  import opened Scheduler

  /** Why an endpoint fails: the script does not exist, or the store
      rejects the write (the unique name, or null in a NOT NULL column). */
  datatype ApiError = NotFound | StoreRejected

  datatype Outcome<T> = Ok(value: T) | Failed(error: ApiError)

  /** The row `create_script` builds: weekdays stored as text (an empty list
      as null), the scheduled-start fields not copied, active by default. */
  function NewRow(id: int, c: ScriptCreate): (s: Script)
    ensures s.id == id && s.isActive && !s.scheduledStartEnabled && s.scheduledStartAt.None?
    ensures s.name == c.name && s.path == c.path && s.description == c.description
    ensures s.repeatEnabled == c.repeatEnabled && s.intervalValue == c.intervalValue && s.intervalUnit == c.intervalUnit
    ensures s.weekdays == StoredWeekdays(c.weekdays)
  {
    Script(id, c.name, c.path, c.description, true, c.repeatEnabled, c.intervalValue, c.intervalUnit,
           StoredWeekdays(c.weekdays), false, None)
  }

  /** `create_script`. A name already in use is rejected by the store and
      nothing changes; otherwise the row is inserted under the next rowid
      and `update_job` reconciles its timers. */
  method CreateScript(table: ScriptTable, scheduler: SchedulerService, c: ScriptCreate, now: Clock)
    returns (r: Outcome<Script>)
    requires table.Valid() && scheduler.Valid()
    modifies table, scheduler
    ensures table.Valid() && scheduler.Valid()
    ensures old(table.NameTaken(c.name, table.nextId)) ==>
      && r == Failed(StoreRejected)
      && table.rows == old(table.rows) && table.nextId == old(table.nextId)
      && scheduler.repeatJobs == old(scheduler.repeatJobs) && scheduler.startJobs == old(scheduler.startJobs)
    ensures !old(table.NameTaken(c.name, table.nextId)) ==>
      && r == Ok(NewRow(old(table.nextId), c))
      && table.rows == old(table.rows)[old(table.nextId) := r.value]
      && table.nextId == old(table.nextId) + 1
      && scheduler.repeatJobs == RepeatAfterUpdate(old(scheduler.repeatJobs), r.value, now)
      && scheduler.startJobs == StartAfterUpdate(old(scheduler.startJobs), r.value)
  {
    if table.NameTaken(c.name, table.nextId) {
      return Failed(StoreRejected);
    }
    var script := NewRow(table.nextId, c);
    var _ := table.Insert(script);
    scheduler.UpdateJob(script, now);
    r := Ok(script);
  }

  /** `get_script` */
  function GetScript(table: ScriptTable, id: int): (r: Outcome<Script>)
    reads table
    requires table.Valid()
    ensures r.Failed? <==> id !in table.rows
    ensures r.Failed? ==> r.error == NotFound
    ensures r.Ok? ==> r.value == table.rows[id] && r.value.id == id
  {
    if id in table.rows then Ok(table.rows[id]) else Failed(NotFound)
  }

  function Apply<T>(p: Patch<T>, current: T): T
  {
    if p.Put? then p.value else current
  }

  /** A given null in one of the columns that may not be null. */
  predicate PutsNullInRequired(u: ScriptUpdate)
  {
    || u.name == Put(None) || u.path == Put(None) || u.isActive == Put(None)
    || u.repeatEnabled == Put(None) || u.scheduledStartEnabled == Put(None)
  }

  /** The row after `setattr` of every given field (weekdays re-encoded as
      on create). Only meaningful when no required column gets null. */
  function Updated(s: Script, u: ScriptUpdate): Script
    requires !PutsNullInRequired(u)
  {
    Script(
      s.id,
      if u.name.Put? then u.name.value.value else s.name,
      if u.path.Put? then u.path.value.value else s.path,
      Apply(u.description, s.description),
      if u.isActive.Put? then u.isActive.value.value else s.isActive,
      if u.repeatEnabled.Put? then u.repeatEnabled.value.value else s.repeatEnabled,
      Apply(u.intervalValue, s.intervalValue),
      Apply(u.intervalUnit, s.intervalUnit),
      if u.weekdays.Put? then StoredWeekdays(u.weekdays.value) else s.weekdays,
      if u.scheduledStartEnabled.Put? then u.scheduledStartEnabled.value.value else s.scheduledStartEnabled,
      Apply(u.scheduledStartAt, s.scheduledStartAt))
  }

  /** The update writes exactly the fields the request carries: a left-out
      field keeps its value, a given one takes the given value, and the id
      never changes. Applying the same update twice is applying it once. */
  lemma UpdateWritesOnlyGiven(s: Script, u: ScriptUpdate)
    requires !PutsNullInRequired(u)
    ensures var t := Updated(s, u);
      && t.id == s.id
      && (u.name.Keep? ==> t.name == s.name) && (u.name.Put? ==> Some(t.name) == u.name.value)
      && (u.path.Keep? ==> t.path == s.path) && (u.path.Put? ==> Some(t.path) == u.path.value)
      && (u.description.Keep? ==> t.description == s.description)
      && (u.description.Put? ==> t.description == u.description.value)
      && (u.isActive.Keep? ==> t.isActive == s.isActive) && (u.isActive.Put? ==> Some(t.isActive) == u.isActive.value)
      && (u.repeatEnabled.Keep? ==> t.repeatEnabled == s.repeatEnabled)
      && (u.intervalValue.Keep? ==> t.intervalValue == s.intervalValue)
      && (u.intervalUnit.Keep? ==> t.intervalUnit == s.intervalUnit)
      && (u.weekdays.Keep? ==> t.weekdays == s.weekdays)
      && (u.weekdays.Put? ==> t.weekdays == StoredWeekdays(u.weekdays.value))
      && (u.scheduledStartEnabled.Keep? ==> t.scheduledStartEnabled == s.scheduledStartEnabled)
      && (u.scheduledStartAt.Keep? ==> t.scheduledStartAt == s.scheduledStartAt)
      && Updated(t, u) == t
  {
  }

  /** An update that gives no field leaves the row as it is. */
  lemma EmptyUpdateKeepsRow(s: Script)
    ensures Updated(s, ScriptUpdate(Keep, Keep, Keep, Keep, Keep, Keep, Keep, Keep, Keep, Keep)) == s
  {
  }

  /** `update_script`. Unknown id: not found. A null in a required column or
      a name used by another row makes the store reject the flush and
      nothing changes. Otherwise the given fields are written and
      `update_job` runs on the new row. */
  method UpdateScript(table: ScriptTable, scheduler: SchedulerService, id: int, u: ScriptUpdate, now: Clock)
    returns (r: Outcome<Script>)
    requires table.Valid() && scheduler.Valid()
    modifies table, scheduler
    ensures table.Valid() && scheduler.Valid()
    ensures table.nextId == old(table.nextId)
    ensures r == Failed(NotFound) <==> id !in old(table.rows)
    ensures (id in old(table.rows) && !PutsNullInRequired(u)
             && !old(table.NameTaken(Updated(table.rows[id], u).name, id))) ==> r.Ok?
    ensures r.Failed? ==>
      && table.rows == old(table.rows)
      && scheduler.repeatJobs == old(scheduler.repeatJobs) && scheduler.startJobs == old(scheduler.startJobs)
    ensures id in old(table.rows) ==>
      (r == Failed(StoreRejected) <==>
         PutsNullInRequired(u) || old(table.NameTaken(Updated(table.rows[id], u).name, id)))
    ensures r.Ok? ==>
      && id in old(table.rows) && !PutsNullInRequired(u)
      && r.value == Updated(old(table.rows[id]), u)
      && table.rows == old(table.rows)[id := r.value]
      && scheduler.repeatJobs == RepeatAfterUpdate(old(scheduler.repeatJobs), r.value, now)
      && scheduler.startJobs == StartAfterUpdate(old(scheduler.startJobs), r.value)
  {
    if id !in table.rows {
      return Failed(NotFound);
    }
    if PutsNullInRequired(u) {
      return Failed(StoreRejected);
    }
    var script := Updated(table.rows[id], u);
    if table.NameTaken(script.name, id) {
      return Failed(StoreRejected);
    }
    table.rows := table.rows[id := script];
    scheduler.UpdateJob(script, now);
    r := Ok(script);
  }

  /** `delete_script`: removes the repeat job only (a one-shot job stays
      registered), then the row. */
  method DeleteScript(table: ScriptTable, scheduler: SchedulerService, id: int) returns (r: Outcome<()>)
    requires table.Valid() && scheduler.Valid()
    modifies table, scheduler
    ensures table.Valid() && scheduler.Valid()
    ensures id !in old(table.rows) ==>
      && r == Failed(NotFound) && table.rows == old(table.rows) && table.nextId == old(table.nextId)
      && scheduler.repeatJobs == old(scheduler.repeatJobs)
    ensures id in old(table.rows) ==>
      && r == Ok(())
      && table.rows == old(table.rows) - {id}
      && scheduler.repeatJobs == old(scheduler.repeatJobs) - {id}
    ensures scheduler.startJobs == old(scheduler.startJobs)
  {
    if id !in table.rows {
      return Failed(NotFound);
    }
    scheduler.RemoveJob(id);
    table.Delete(id);
    r := Ok(());
  }

  /** `enable_script`: sets `is_active` and lets `update_job` reconcile. */
  method EnableScript(table: ScriptTable, scheduler: SchedulerService, id: int, now: Clock) returns (r: Outcome<Script>)
    requires table.Valid() && scheduler.Valid()
    modifies table, scheduler
    ensures table.Valid() && scheduler.Valid()
    ensures table.nextId == old(table.nextId)
    ensures id !in old(table.rows) ==>
      && r == Failed(NotFound) && table.rows == old(table.rows)
      && scheduler.repeatJobs == old(scheduler.repeatJobs) && scheduler.startJobs == old(scheduler.startJobs)
    ensures id in old(table.rows) ==>
      && r == Ok(old(table.rows[id]).(isActive := true))
      && table.rows == old(table.rows)[id := r.value]
      && scheduler.repeatJobs == RepeatAfterUpdate(old(scheduler.repeatJobs), r.value, now)
      && scheduler.startJobs == StartAfterUpdate(old(scheduler.startJobs), r.value)
  {
    if id !in table.rows {
      return Failed(NotFound);
    }
    var script := table.rows[id].(isActive := true);
    table.rows := table.rows[id := script];
    scheduler.UpdateJob(script, now);
    r := Ok(script);
  }

  /** `disable_script`: clears `is_active` and removes the repeat job only;
      a one-shot job stays registered. */
  method DisableScript(table: ScriptTable, scheduler: SchedulerService, id: int) returns (r: Outcome<Script>)
    requires table.Valid() && scheduler.Valid()
    modifies table, scheduler
    ensures table.Valid() && scheduler.Valid()
    ensures table.nextId == old(table.nextId)
    ensures id !in old(table.rows) ==>
      r == Failed(NotFound) && table.rows == old(table.rows) && scheduler.repeatJobs == old(scheduler.repeatJobs)
    ensures id in old(table.rows) ==>
      && r == Ok(old(table.rows[id]).(isActive := false))
      && table.rows == old(table.rows)[id := r.value]
      && scheduler.repeatJobs == old(scheduler.repeatJobs) - {id}
    ensures scheduler.startJobs == old(scheduler.startJobs)
  {
    if id !in table.rows {
      return Failed(NotFound);
    }
    var script := table.rows[id].(isActive := false);
    table.rows := table.rows[id := script];
    scheduler.RemoveJob(id);
    r := Ok(script);
  }

  /** What `update_job` would do to a disabled row: drop both of its
      timers. `disable_script` calls only `remove_job`, so a registered
      one-shot job outlives the disable and still fires. */
  lemma UpdateOfDisabledRowClearsBoth(m: map<int, RepeatJob>, m': map<int, StartJob>, s: Script, now: Clock)
    ensures s.id !in RepeatAfterUpdate(m, s.(isActive := false), now)
    ensures s.id !in StartAfterUpdate(m', s.(isActive := false))
  {
  }

  /** Strictly ascending by name, the order of `ORDER BY name`. */
  predicate ByName(s: seq<Script>)
  {
    forall j, k :: 0 <= j < k < |s| ==> Below(s[j].name, s[k].name)
  }

  /** Insert a row into a list ordered by name that does not hold its name. */
  function InsertByName(s: seq<Script>, x: Script): (r: seq<Script>)
    requires ByName(s)
    requires forall k :: 0 <= k < |s| ==> s[k].name != x.name
    ensures ByName(r)
    ensures |r| == |s| + 1
    ensures forall y :: y in r <==> y in s || y == x
  {
    if |s| == 0 then [x]
    else if Below(x.name, s[0].name) then
      assert forall k :: 0 <= k < |s| ==> Below(x.name, s[k].name) by {
        forall k | 0 <= k < |s| ensures Below(x.name, s[k].name) {
          if k > 0 {
            BelowTransitive(x.name, s[0].name, s[k].name);
          }
        }
      }
      [x] + s
    else
      BelowTotal(x.name, s[0].name);
      var rest := InsertByName(s[1..], x);
      assert forall y :: y in rest ==> Below(s[0].name, y.name) by {
        forall y | y in rest ensures Below(s[0].name, y.name) {
          if y != x {
            var k :| 0 <= k < |s[1..]| && s[1..][k] == y;
            assert s[k + 1] == y;
          }
        }
      }
      assert s == [s[0]] + s[1..];
      [s[0]] + rest
  }

  /** `list_scripts`: every script, or only the active ones, ordered by
      name. */
  method ListScripts(table: ScriptTable, activeOnly: bool) returns (result: seq<Script>)
    requires table.Valid()
    ensures ByName(result)
    ensures forall k :: 0 <= k < |result| ==>
      result[k].id in table.rows && table.rows[result[k].id] == result[k] && (activeOnly ==> result[k].isActive)
    ensures forall id :: id in table.rows && (!activeOnly || table.rows[id].isActive) ==> table.rows[id] in result
  {
    result := [];
    var i := 1;
    while i < table.nextId
      invariant 1 <= i <= table.nextId
      invariant ByName(result)
      invariant forall k :: 0 <= k < |result| ==>
        result[k].id in table.rows && result[k].id < i && table.rows[result[k].id] == result[k]
        && (activeOnly ==> result[k].isActive)
      invariant forall id :: id in table.rows && id < i && (!activeOnly || table.rows[id].isActive) ==>
        table.rows[id] in result
    {
      if i in table.rows && (!activeOnly || table.rows[i].isActive) {
        ghost var before := result;
        result := InsertByName(result, table.rows[i]);
        forall k | 0 <= k < |result|
          ensures result[k].id in table.rows && result[k].id < i + 1 && table.rows[result[k].id] == result[k]
          ensures activeOnly ==> result[k].isActive
        {
          assert result[k] in before || result[k] == table.rows[i];
        }
      }
      i := i + 1;
    }
  }
}
