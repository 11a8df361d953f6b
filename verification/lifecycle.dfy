/** The lifecycle resolver: whether a script keeps its `is_active` flag,
    decided from its scheduling configuration and the current time. */
module Lifecycle {
  import opened Records

  /** The reading of "now" a timestamp is compared with: local time for a
      naive timestamp, UTC for a zone-aware one. */
  function NowFor(t: Timestamp, now: Clock): (n: int)
    ensures t.naive ==> n == now.local
    ensures !t.naive ==> n == now.utc
  {
    if t.naive then now.local else now.utc
  }

  /** `is_datetime_in_past`: strictly before the matching "now". */
  predicate IsDatetimeInPast(t: Timestamp, now: Clock): (past: bool)
    ensures t.naive ==> (past <==> t.instant < now.local)
    ensures !t.naive ==> (past <==> t.instant < now.utc)
  {
    t.instant < NowFor(t, now)
  }

  /** A scheduled start that is enabled and has a timestamp. */
  predicate HasScheduledStart(s: Script)
  {
    s.scheduledStartEnabled && s.scheduledStartAt.Some?
  }

  /** `should_script_remain_active`. A timestamp equal to now is not in the
      past, so it keeps the script active. */
  predicate ShouldScriptRemainActive(s: Script, now: Clock): (active: bool)
    ensures s.repeatEnabled ==> active
    ensures !s.repeatEnabled && !HasScheduledStart(s) ==> !active
    ensures !s.repeatEnabled && HasScheduledStart(s) ==>
      (active <==> s.scheduledStartAt.value.instant >= NowFor(s.scheduledStartAt.value, now))
  {
    if s.repeatEnabled then true
    else if HasScheduledStart(s) && !IsDatetimeInPast(s.scheduledStartAt.value, now) then true
    else false
  }

  /** `should_deactivate_after_execution`. */
  predicate ShouldDeactivateAfterExecution(s: Script, now: Clock): (deactivate: bool)
    ensures deactivate <==> !ShouldScriptRemainActive(s, now)
    ensures s.repeatEnabled ==> !deactivate
  {
    !ShouldScriptRemainActive(s, now)
  }

  /** The comparison picks its clock by the timestamp's kind alone: a naive
      timestamp is past exactly when it precedes local now, whatever UTC now
      says, and a zone-aware one exactly when it precedes UTC now. */
  lemma PastUsesMatchingClock(t: Timestamp, now: Clock)
    ensures t.naive ==> (IsDatetimeInPast(t, now) <==> t.instant < now.local)
    ensures !t.naive ==> (IsDatetimeInPast(t, now) <==> t.instant < now.utc)
    ensures !IsDatetimeInPast(t.(instant := NowFor(t, now)), now)
  {
  }

  /** Once past, a timestamp stays past as both clocks move forward. */
  lemma PastIsMonotone(t: Timestamp, now: Clock, later: Clock)
    requires now.local <= later.local && now.utc <= later.utc
    ensures IsDatetimeInPast(t, now) ==> IsDatetimeInPast(t, later)
  {
  }

  /** The decision reads only the repeat flag and the two scheduled-start
      fields: `is_active`, the interval, the weekdays, the name and the path
      do not matter. */
  lemma DecisionReadsOnlyScheduleFields(s: Script, s': Script, now: Clock)
    requires s.repeatEnabled == s'.repeatEnabled
    requires s.scheduledStartEnabled == s'.scheduledStartEnabled
    requires s.scheduledStartAt == s'.scheduledStartAt
    ensures ShouldScriptRemainActive(s, now) == ShouldScriptRemainActive(s', now)
    ensures ShouldDeactivateAfterExecution(s, now) == ShouldDeactivateAfterExecution(s', now)
  {
  }
}
