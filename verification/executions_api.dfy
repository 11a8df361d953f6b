/** The decision logic of the execution endpoints: start a manual run,
    report a script's running status, stop its running execution, and the
    rule applied once a manual run is over. */
module ExecutionsApi {
  import opened Records
  import opened Lifecycle
  import opened Executor

  /** `_should_deactivate_after_execution`, the endpoint module's own copy of
      the rule, written as its early returns read. Its past test is the same
      two-clock strict comparison as `Lifecycle.IsDatetimeInPast`. */
  predicate DeactivateAfterManualRun(s: Script, now: Clock): (deactivate: bool)
    ensures deactivate == ShouldDeactivateAfterExecution(s, now)
    ensures s.repeatEnabled ==> !deactivate
  {
    if s.repeatEnabled then false
    else if s.scheduledStartEnabled && s.scheduledStartAt.Some? && !IsDatetimeInPast(s.scheduledStartAt.value, now) then false
    else true
  }

  /** The copy agrees with the shared resolver on every script and clock: a
      repeating script is never deactivated, and otherwise it is kept only
      by an enabled start that is not yet past. */
  lemma ManualRuleAgreesWithResolver(s: Script, now: Clock)
    ensures DeactivateAfterManualRun(s, now) == ShouldDeactivateAfterExecution(s, now)
    ensures s.repeatEnabled ==> !DeactivateAfterManualRun(s, now)
    ensures !s.repeatEnabled ==>
      (!DeactivateAfterManualRun(s, now) <==>
         HasScheduledStart(s) && s.scheduledStartAt.value.instant >= NowFor(s.scheduledStartAt.value, now))
  {
  }

  /** `next(e for e in executions if e.script_id == script_id)`: the first
      execution of the script in the list, if any. */
  function FirstFor(active: seq<Execution>, scriptId: int): (r: Option<Execution>)
    ensures r.None? <==> forall k :: 0 <= k < |active| ==> active[k].scriptId != scriptId
    ensures r.Some? ==>
      exists k :: 0 <= k < |active| && active[k] == r.value && r.value.scriptId == scriptId
        && forall j :: 0 <= j < k ==> active[j].scriptId != scriptId
  {
    if |active| == 0 then None
    else if active[0].scriptId == scriptId then Some(active[0])
    else FirstFor(active[1..], scriptId)
  }

  /** The answer of `run_script`. */
  datatype RunRequest = RunNotFound | RunConflict | RunAccepted(scriptId: int, scriptName: string, scriptPath: string)

  /** `run_script`: a missing script is not found, a running one is a
      conflict; otherwise a background run of it is queued. */
  function RequestRun(table: ScriptTable, executor: ScriptExecutor, scriptId: int): (r: RunRequest)
    reads table, executor
    requires table.Valid()
    ensures r == RunNotFound <==> scriptId !in table.rows
    ensures r == RunConflict <==> scriptId in table.rows && executor.IsRunning(scriptId)
    ensures r.RunAccepted? ==>
      var s := table.rows[scriptId];
      r == RunAccepted(s.id, s.name, s.path) && r.scriptId == scriptId
  {
    if scriptId !in table.rows then RunNotFound
    else if executor.IsRunning(scriptId) then RunConflict
    else
      var s := table.rows[scriptId];
      RunAccepted(s.id, s.name, s.path)
  }

  /** An accepted request does not promise an admitted run: after `stop` the
      execution is no longer running, but its `run` keeps the lock until the
      process is reaped, so the queued run is refused as already running. */
  lemma AcceptedButLockHeld(table: ScriptTable, executor: ScriptExecutor, scriptId: int)
    requires table.Valid() && executor.Valid()
    requires scriptId in table.rows && executor.LockHeld(scriptId)
    requires forall id :: id in executor.executions ==> executor.executions[id].status != Running
    ensures RequestRun(table, executor, scriptId).RunAccepted?
  {
  }

  /** `_run_script_task`: run with trigger "manual", swallow any error, then
      re-read the script and deactivate it when it still exists, is active
      and has nothing left to wait for. */
  method RunScriptTask(table: ScriptTable, executor: ScriptExecutor, scriptId: int, scriptName: string,
                       outcome: RunOutcome, startedAt: int, finishedAt: int, now: Clock)
    requires table.Valid() && executor.Valid()
    modifies table, executor
    ensures table.Valid() && executor.Valid()
    ensures table.nextId == old(table.nextId)
    ensures old(executor.LockHeld(scriptId)) ==>
      && executor.executions == old(executor.executions) && executor.nextId == old(executor.nextId)
      && executor.locks == old(executor.locks)
    ensures !old(executor.LockHeld(scriptId)) ==>
      && executor.nextId == old(executor.nextId) + 1
      && executor.executions == old(executor.executions)[old(executor.nextId) :=
           RunRecord(old(executor.nextId), scriptId, scriptName, Manual, outcome, startedAt, finishedAt)]
      && executor.locks == old(executor.locks)[scriptId := false]
    ensures table.rows ==
      if scriptId in old(table.rows) && old(table.rows[scriptId]).isActive
         && DeactivateAfterManualRun(old(table.rows[scriptId]), now)
      then old(table.rows)[scriptId := old(table.rows[scriptId]).(isActive := false)]
      else old(table.rows)
  {
    var _ := executor.Run(scriptId, scriptName, Manual, outcome, startedAt, finishedAt);
    if scriptId in table.rows && table.rows[scriptId].isActive && DeactivateAfterManualRun(table.rows[scriptId], now) {
      table.rows := table.rows[scriptId := table.rows[scriptId].(isActive := false)];
    }
  }

  /** The report of `get_script_status`. */
  datatype Status = Status(scriptId: int, isRunning: bool, executionId: Option<nat>, startedAt: Option<int>)

  /** `get_script_status`: `None` for a missing script; otherwise whether it
      runs and, if so, the execution that does. */
  method GetScriptStatus(table: ScriptTable, executor: ScriptExecutor, scriptId: int) returns (r: Option<Status>)
    requires table.Valid() && executor.Valid()
    ensures r.None? <==> scriptId !in table.rows
    ensures r.Some? ==> r.value.scriptId == scriptId && (r.value.isRunning <==> executor.IsRunning(scriptId))
    ensures r.Some? ==> (r.value.executionId.Some? <==> r.value.isRunning)
    ensures r.Some? && r.value.executionId.Some? ==>
      var id := r.value.executionId.value;
      && id in executor.executions
      && executor.executions[id].scriptId == scriptId && executor.executions[id].status == Running
      && r.value.startedAt == Some(executor.executions[id].startedAt)
    ensures r.Some? && r.value.executionId.None? ==> r.value.startedAt.None?
  {
    if scriptId !in table.rows {
      return None;
    }
    var isRunning := executor.IsRunning(scriptId);
    var execution: Option<Execution> := None;
    if isRunning {
      var active := executor.GetActiveExecutions();
      execution := FirstFor(active, scriptId);
      ghost var id :| id in executor.executions && executor.executions[id].scriptId == scriptId
        && executor.executions[id].status == Running;
      assert executor.executions[id] in active;
    }
    r := Some(Status(
      scriptId,
      isRunning,
      if execution.Some? then Some(execution.value.id) else None,
      if execution.Some? then Some(execution.value.startedAt) else None));
  }

  /** The answer of `stop_script`. */
  datatype StopRequest = StopNotFound | NoRunningExecution | StopFailed | Stopped

  /** `stop_script`: stops the script's running execution. Since the
      execution picked is running, `stop` cannot return false, so the
      internal-error answer never occurs. */
  method StopScript(table: ScriptTable, executor: ScriptExecutor, scriptId: int, finishedAt: int) returns (r: StopRequest)
    requires table.Valid() && executor.Valid()
    modifies executor
    ensures executor.Valid()
    ensures r != StopFailed
    ensures r == StopNotFound <==> scriptId !in table.rows
    ensures r == NoRunningExecution <==> scriptId in table.rows && !old(executor.IsRunning(scriptId))
    ensures r != Stopped ==> executor.executions == old(executor.executions)
    ensures r == Stopped ==>
      && scriptId in old(executor.holder)
      && var id := old(executor.holder[scriptId]);
      && old(executor.executions[id].status) == Running
      && executor.executions ==
         if old(executor.executions[id].hasProcess)
         then old(executor.executions)[id := StoppedBy(old(executor.executions[id]), finishedAt)]
         else old(executor.executions)
    ensures executor.locks == old(executor.locks) && executor.nextId == old(executor.nextId)
  {
    if scriptId !in table.rows {
      return StopNotFound;
    }
    var active := executor.GetActiveExecutions();
    var target := FirstFor(active, scriptId);
    if target.None? {
      return NoRunningExecution;
    }
    ghost var k :| 0 <= k < |active| && active[k] == target.value && target.value.scriptId == scriptId;
    assert executor.IsRunning(scriptId) by {
      assert executor.executions[active[k].id].scriptId == scriptId;
    }
    var stopped := executor.Stop(target.value.id, finishedAt);
    if !stopped {
      return StopFailed;
    }
    r := Stopped;
  }
}
