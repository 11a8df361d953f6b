/** The run registry: execution records keyed by execution id, one lazily
    created lock per script, and the state transitions of a run. The process
    itself is abstract: a run ends with an exit code or with a launch
    failure. */
module Executor {
  import opened Records

  datatype Trigger = Manual | Scheduled | ScheduledStart

  datatype Status = Running | Success | Failed

  /** The `Execution` record. `hasProcess` stands for a process handle being
      attached; ids are issued by the registry in increasing order. */
  datatype Execution = Execution(
    id: nat,
    scriptId: int,
    scriptName: string,
    startedAt: int,
    trigger: Trigger,
    hasProcess: bool,
    finishedAt: Option<int>,
    status: Status,
    exitCode: Option<int>)

  /** How the process part of an admitted run ends. */
  datatype RunOutcome =
    | Exited(code: int)   // spawned, both streams drained, `wait` returned `code`
    | SpawnFailed         // the process could not be created
    | StreamFailed        // spawned, then reading its output or waiting raised

  datatype RunError = AlreadyRunning | LaunchFailure

  /** What `run` gives its caller: the execution, or the error it raises. */
  datatype RunResult = Ran(id: nat) | Raised(error: RunError)

  /** Exit code recorded when spawning or streaming raises. */
  const LaunchFailureExitCode: int := -1

  /** Exit code recorded when a running execution is stopped (SIGTERM). */
  const StoppedExitCode: int := -15

  /** The fields fixed when a run is admitted; no later step changes them. */
  predicate SameRun(e: Execution, r: Execution)
  {
    e.id == r.id && e.scriptId == r.scriptId && e.scriptName == r.scriptName
    && e.startedAt == r.startedAt && e.trigger == r.trigger
  }

  predicate IsTerminal(e: Execution)
  {
    e.status != Running && e.exitCode.Some? && e.finishedAt.Some?
  }

  /** A freshly registered execution. */
  function NewExecution(id: nat, scriptId: int, scriptName: string, startedAt: int, trigger: Trigger): (e: Execution)
    ensures e.status == Running && e.exitCode.None? && e.finishedAt.None? && !e.hasProcess
    ensures e.id == id && e.scriptId == scriptId && e.scriptName == scriptName
    ensures e.startedAt == startedAt && e.trigger == trigger
  {
    Execution(id, scriptId, scriptName, startedAt, trigger, false, None, Running, None)
  }

  /** The fields `run` writes once the process has exited with `code`. */
  function Completed(e: Execution, code: int, finishedAt: int): (r: Execution)
    ensures IsTerminal(r) && SameRun(e, r) && r.hasProcess == e.hasProcess
    ensures r.status == Success <==> code == 0
    ensures r.exitCode == Some(code) && r.finishedAt == Some(finishedAt)
  {
    e.(finishedAt := Some(finishedAt), exitCode := Some(code), status := if code == 0 then Success else Failed)
  }

  /** The fields `run` writes when spawning or streaming raises. */
  function LaunchFailed(e: Execution, finishedAt: int): (r: Execution)
    ensures IsTerminal(r) && SameRun(e, r) && r.hasProcess == e.hasProcess
    ensures r.status == Failed && r.exitCode == Some(LaunchFailureExitCode) && r.finishedAt == Some(finishedAt)
  {
    e.(finishedAt := Some(finishedAt), status := Failed, exitCode := Some(LaunchFailureExitCode))
  }

  /** The fields `stop` writes on a running execution with a process. */
  function StoppedBy(e: Execution, finishedAt: int): (r: Execution)
    ensures IsTerminal(r) && SameRun(e, r) && r.hasProcess == e.hasProcess
    ensures r.status == Failed && r.exitCode == Some(StoppedExitCode) && r.finishedAt == Some(finishedAt)
  {
    e.(finishedAt := Some(finishedAt), status := Failed, exitCode := Some(StoppedExitCode))
  }

  /** The record a whole admitted run leaves behind. */
  function RunRecord(id: nat, scriptId: int, scriptName: string, trigger: Trigger,
                     outcome: RunOutcome, startedAt: int, finishedAt: int): Execution
  {
    var e := NewExecution(id, scriptId, scriptName, startedAt, trigger).(hasProcess := !outcome.SpawnFailed?);
    if outcome.Exited? then Completed(e, outcome.code, finishedAt) else LaunchFailed(e, finishedAt)
  }

  /** A finished run succeeded exactly when the process exited with 0; a
      launch failure is recorded as failed with exit code -1. */
  lemma RunRecordOutcome(id: nat, scriptId: int, scriptName: string, trigger: Trigger,
                         outcome: RunOutcome, startedAt: int, finishedAt: int)
    ensures var r := RunRecord(id, scriptId, scriptName, trigger, outcome, startedAt, finishedAt);
      && IsTerminal(r)
      && r.id == id && r.scriptId == scriptId && r.scriptName == scriptName && r.trigger == trigger
      && (r.status == Success <==> outcome == Exited(0))
      && r.exitCode == Some(if outcome.Exited? then outcome.code else LaunchFailureExitCode)
      && r.finishedAt == Some(finishedAt)
  {
  }

  /** The registry invariant, on the registry's state: ids are issued
      densely from 0, each record sits under its own id, the held locks are
      exactly the scripts with an in-flight `run`, and every running record
      is the one whose `run` holds its script's lock. */
  ghost predicate Coherent(executions: map<nat, Execution>, locks: map<int, bool>, nextId: nat, holder: map<int, nat>)
  {
    && (forall id: nat :: id in executions <==> id < nextId)
    && (forall id :: id in executions ==> executions[id].id == id)
    && (forall sid :: sid in holder <==> sid in locks && locks[sid])
    && (forall sid :: sid in holder ==> holder[sid] in executions && executions[holder[sid]].scriptId == sid)
    && (forall id :: id in executions && executions[id].status == Running ==>
          executions[id].scriptId in holder && holder[executions[id].scriptId] == id)
  }

  /** Registering a running execution under the next id, for a script whose
      lock is free, and taking that lock keeps the invariant. */
  lemma AdmitKeeps(executions: map<nat, Execution>, locks: map<int, bool>, nextId: nat, holder: map<int, nat>,
                   scriptId: int, e: Execution)
    requires Coherent(executions, locks, nextId, holder)
    requires !(scriptId in locks && locks[scriptId])
    requires e.id == nextId && e.scriptId == scriptId
    ensures Coherent(executions[nextId := e], locks[scriptId := true], nextId + 1, holder[scriptId := nextId])
  {
    var ex := executions[nextId := e];
    forall id | id in ex && ex[id].status == Running
      ensures ex[id].scriptId in holder[scriptId := nextId] && holder[scriptId := nextId][ex[id].scriptId] == id
    {
      if id != nextId {
        assert ex[id] == executions[id];
        assert executions[id].scriptId != scriptId;
      }
    }
  }

  /** Rewriting a record without changing what run it belongs to keeps the
      invariant, as long as it does not start running again. */
  lemma RewriteKeeps(executions: map<nat, Execution>, locks: map<int, bool>, nextId: nat, holder: map<int, nat>,
                     id: nat, e: Execution)
    requires Coherent(executions, locks, nextId, holder)
    requires id in executions && SameRun(executions[id], e)
    requires e.status == Running ==> executions[id].status == Running
    ensures Coherent(executions[id := e], locks, nextId, holder)
  {
  }

  /** Finishing the record of the run that holds its script's lock and
      releasing that lock keeps the invariant. */
  lemma FinishKeeps(executions: map<nat, Execution>, locks: map<int, bool>, nextId: nat, holder: map<int, nat>,
                    id: nat, e: Execution)
    requires Coherent(executions, locks, nextId, holder)
    requires id in executions && executions[id].scriptId in holder && holder[executions[id].scriptId] == id
    requires SameRun(executions[id], e) && e.status != Running
    ensures var sid := executions[id].scriptId;
      Coherent(executions[id := e], locks[sid := false], nextId, holder - {sid})
  {
    var sid := executions[id].scriptId;
    var ex := executions[id := e];
    var h := holder - {sid};
    forall s | s in h ensures h[s] in ex && ex[h[s]].scriptId == s {
      assert holder[s] != id;
    }
  }

  class ScriptExecutor {
    /** `_active_executions`: never shrinks. */
    var executions: map<nat, Execution>
    /** `_script_locks`: script id -> whether its lock is held. */
    var locks: map<int, bool>
    /** The next execution id to issue. */
    var nextId: nat
    /** The execution whose `run` currently holds each held lock. */
    ghost var holder: map<int, nat>

    ghost predicate Valid()
      reads this
    {
      Coherent(executions, locks, nextId, holder)
    }

    constructor ()
      ensures Valid()
      ensures executions == map[] && locks == map[] && nextId == 0
    {
      executions := map[];
      locks := map[];
      nextId := 0;
      holder := map[];
    }

    /** Whether the lock of `scriptId` exists and is held. */
    predicate LockHeld(scriptId: int)
      reads this
    {
      scriptId in locks && locks[scriptId]
    }

    /** `is_running`. */
    predicate IsRunning(scriptId: int): (running: bool)
      reads this
      ensures running <==> exists e :: e in executions.Values && e.scriptId == scriptId && e.status == Running
    {
      exists id :: id in executions && executions[id].scriptId == scriptId && executions[id].status == Running
    }

    /** `get_execution`. */
    function GetExecution(id: nat): (r: Option<Execution>)
      reads this
      requires Valid()
      ensures r.None? <==> id >= nextId
      ensures r.Some? ==> r.value.id == id && r.value == executions[id]
    {
      if id in executions then Some(executions[id]) else None
    }

    /** At most one execution of a script is running at any time. */
    lemma AtMostOneRunning(a: nat, b: nat)
      requires Valid()
      requires a in executions && b in executions
      requires executions[a].status == Running && executions[b].status == Running
      requires executions[a].scriptId == executions[b].scriptId
      ensures a == b
    {
    }

    /** A script is running only while its lock is held, by the running
        execution. */
    lemma RunningHoldsLock(scriptId: int)
      requires Valid()
      ensures IsRunning(scriptId) ==> LockHeld(scriptId)
      ensures IsRunning(scriptId) <==> scriptId in holder && executions[holder[scriptId]].status == Running
    {
    }

    /** `_get_lock`: creates the lock on first use, and afterwards hands back
        the same lock, in whatever state it is. */
    method GetLock(scriptId: int)
      requires Valid()
      modifies this
      ensures Valid()
      ensures scriptId in locks
      ensures scriptId in old(locks) ==> locks == old(locks)
      ensures scriptId !in old(locks) ==> locks == old(locks)[scriptId := false]
      ensures executions == old(executions) && nextId == old(nextId) && holder == old(holder)
    {
      if scriptId !in locks {
        locks := locks[scriptId := false];
      }
    }

    /** The admission half of `run`: refuse when the script's lock is held,
        otherwise take the lock and register a running execution. */
    method Admit(scriptId: int, scriptName: string, trigger: Trigger, startedAt: int) returns (r: RunResult)
      requires Valid()
      modifies this
      ensures Valid()
      ensures scriptId in locks
      ensures old(LockHeld(scriptId)) ==>
        && r == Raised(AlreadyRunning)
        && executions == old(executions) && nextId == old(nextId)
        && locks == old(locks) && holder == old(holder)
      ensures !old(LockHeld(scriptId)) ==>
        && r == Ran(old(nextId))
        && nextId == old(nextId) + 1
        && executions == old(executions)[old(nextId) := NewExecution(old(nextId), scriptId, scriptName, startedAt, trigger)]
        && locks == old(locks)[scriptId := true]
        && holder == old(holder)[scriptId := old(nextId)]
    {
      GetLock(scriptId);
      if locks[scriptId] {
        return Raised(AlreadyRunning);
      }
      var id := nextId;
      AdmitKeeps(executions, locks, nextId, holder, scriptId, NewExecution(id, scriptId, scriptName, startedAt, trigger));
      locks := locks[scriptId := true];
      executions := executions[id := NewExecution(id, scriptId, scriptName, startedAt, trigger)];
      nextId := nextId + 1;
      holder := holder[scriptId := id];
      r := Ran(id);
    }

    /** The process of an admitted run has been spawned. */
    method AttachProcess(id: nat)
      requires Valid()
      requires id in executions
      requires executions[id].scriptId in holder && holder[executions[id].scriptId] == id
      modifies this
      ensures Valid()
      ensures executions == old(executions)[id := old(executions[id]).(hasProcess := true)]
      ensures locks == old(locks) && holder == old(holder) && nextId == old(nextId)
    {
      RewriteKeeps(executions, locks, nextId, holder, id, executions[id].(hasProcess := true));
      executions := executions[id := executions[id].(hasProcess := true)];
    }

    /** The completion half of `run`: record the outcome and release the
        lock. It writes the fields whatever the current status is, so it
        overwrites what `stop` recorded in the meantime. */
    method Finish(id: nat, outcome: RunOutcome, finishedAt: int) returns (r: RunResult)
      requires Valid()
      requires id in executions
      requires executions[id].scriptId in holder && holder[executions[id].scriptId] == id
      modifies this
      ensures Valid()
      ensures outcome.Exited? ==>
        r == Ran(id) && executions == old(executions)[id := Completed(old(executions[id]), outcome.code, finishedAt)]
      ensures !outcome.Exited? ==>
        r == Raised(LaunchFailure) && executions == old(executions)[id := LaunchFailed(old(executions[id]), finishedAt)]
      ensures locks == old(locks)[old(executions[id].scriptId) := false]
      ensures holder == old(holder) - {old(executions[id].scriptId)}
      ensures nextId == old(nextId)
    {
      var sid := executions[id].scriptId;
      if outcome.Exited? {
        FinishKeeps(executions, locks, nextId, holder, id, Completed(executions[id], outcome.code, finishedAt));
        executions := executions[id := Completed(executions[id], outcome.code, finishedAt)];
        r := Ran(id);
      } else {
        FinishKeeps(executions, locks, nextId, holder, id, LaunchFailed(executions[id], finishedAt));
        executions := executions[id := LaunchFailed(executions[id], finishedAt)];
        r := Raised(LaunchFailure);
      }
      locks := locks[sid := false];
      holder := holder - {sid};
    }

    /** Everything `run` does after admission: attach the process unless
        spawning failed, then record how the run ended and release the lock. */
    method Complete(id: nat, outcome: RunOutcome, finishedAt: int) returns (r: RunResult)
      requires Valid()
      requires id in executions && executions[id].status == Running
      modifies this
      ensures Valid()
      ensures var e := old(executions[id]).(hasProcess := old(executions[id].hasProcess) || !outcome.SpawnFailed?);
        && r == (if outcome.Exited? then Ran(id) else Raised(LaunchFailure))
        && executions == old(executions)[id := if outcome.Exited? then Completed(e, outcome.code, finishedAt) else LaunchFailed(e, finishedAt)]
      ensures locks == old(locks)[old(executions[id].scriptId) := false]
      ensures holder == old(holder) - {old(executions[id].scriptId)}
      ensures nextId == old(nextId)
    {
      if !outcome.SpawnFailed? {
        AttachProcess(id);
      }
      r := Finish(id, outcome, finishedAt);
    }

    /** `run`, as admission followed by the abstract process outcome. */
    method Run(scriptId: int, scriptName: string, trigger: Trigger, outcome: RunOutcome,
               startedAt: int, finishedAt: int) returns (r: RunResult)
      requires Valid()
      modifies this
      ensures Valid()
      ensures old(LockHeld(scriptId)) ==>
        && r == Raised(AlreadyRunning)
        && executions == old(executions) && nextId == old(nextId)
        && locks == old(locks) && holder == old(holder)
      ensures !old(LockHeld(scriptId)) ==>
        && r == (if outcome.Exited? then Ran(old(nextId)) else Raised(LaunchFailure))
        && nextId == old(nextId) + 1
        && executions == old(executions)[old(nextId) := RunRecord(old(nextId), scriptId, scriptName, trigger, outcome, startedAt, finishedAt)]
        && locks == old(locks)[scriptId := false]
        && holder == old(holder)
    {
      r := Admit(scriptId, scriptName, trigger, startedAt);
      if r.Raised? {
        return;
      }
      assert scriptId !in old(holder);
      r := Complete(r.id, outcome, finishedAt);
    }

    /** `stop`. Unknown or finished executions give false and nothing changes.
        A running execution with a process is marked failed with exit code
        -15; one without a process yet gives true and is left as it is. The
        lock stays with the run that holds it. */
    method Stop(id: nat, finishedAt: int) returns (stopped: bool)
      requires Valid()
      modifies this
      ensures Valid()
      ensures stopped <==> old(id in executions && executions[id].status == Running)
      ensures stopped && old(executions[id].hasProcess) ==>
        executions == old(executions)[id := StoppedBy(old(executions[id]), finishedAt)]
      ensures !(stopped && old(executions[id].hasProcess)) ==> executions == old(executions)
      ensures locks == old(locks) && holder == old(holder) && nextId == old(nextId)
    {
      if id !in executions || executions[id].status != Running {
        return false;
      }
      if executions[id].hasProcess {
        RewriteKeeps(executions, locks, nextId, holder, id, StoppedBy(executions[id], finishedAt));
        executions := executions[id := StoppedBy(executions[id], finishedAt)];
      }
      stopped := true;
    }

    /** `stop` acting while `run` waits on the process: the run is admitted
        and its process spawned, `stop` marks it stopped, and when the
        process then exits with `code`, `run` writes its own fields over the
        stopped ones and releases the lock. The record left behind is the
        one a run that exited with `code` leaves without any `stop`. */
    method StopDuringRun(scriptId: int, scriptName: string, trigger: Trigger, startedAt: int,
                         stoppedAt: int, code: int, finishedAt: int) returns (stopped: bool, r: RunResult)
      requires Valid() && !LockHeld(scriptId)
      modifies this
      ensures Valid()
      ensures stopped && r == Ran(old(nextId))
      ensures executions == old(executions)[old(nextId) :=
        RunRecord(old(nextId), scriptId, scriptName, trigger, Exited(code), startedAt, finishedAt)]
      ensures locks == old(locks)[scriptId := false] && holder == old(holder) && nextId == old(nextId) + 1
    {
      r := Admit(scriptId, scriptName, trigger, startedAt);
      var id := r.id;
      AttachProcess(id);
      stopped := Stop(id, stoppedAt);
      assert executions[id].status == Failed && executions[id].exitCode == Some(StoppedExitCode);
      r := Finish(id, Exited(code), finishedAt);
    }

    /** `get_active_executions`: the running executions, in registration
        order. */
    method GetActiveExecutions() returns (active: seq<Execution>)
      requires Valid()
      ensures forall k :: 0 <= k < |active| ==>
        active[k].id in executions && executions[active[k].id] == active[k] && active[k].status == Running
      ensures forall id :: id in executions && executions[id].status == Running ==> executions[id] in active
      ensures forall j, k :: 0 <= j < k < |active| ==> active[j].id < active[k].id
    {
      active := [];
      var i: nat := 0;
      while i < nextId
        invariant i <= nextId
        invariant forall k :: 0 <= k < |active| ==>
          active[k].id < i && active[k].id in executions && executions[active[k].id] == active[k]
          && active[k].status == Running
        invariant forall id :: id < i && id in executions && executions[id].status == Running ==> executions[id] in active
        invariant forall j, k :: 0 <= j < k < |active| ==> active[j].id < active[k].id
      {
        if executions[i].status == Running {
          active := active + [executions[i]];
        }
        i := i + 1;
      }
    }
  }
}
