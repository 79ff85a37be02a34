/** What each control-plane call does, stated on the stored rows before and after it: the switch,
    the freeze, every lane's row, and the events it adds to the log. */
module ControlCalls {
  import opened Prelude
  import opened ControlModel

  /** A lane the call does not rewrite: unchanged, unless it was cooling down and the clock has
      reached the end of its cooldown. */
  ghost predicate LeftAlone(before: Lane, after: Lane, on: bool, clock: int) {
    if before.state == Cooldown && before.until.Some? && before.until.value <= clock
    then after == Lane(before.name, if on then Running else Paused, Some("cooldown_expired"), None)
    else after == before
  }

  /** The log continues with these events, and then with resumes of lanes whose cooldown ran out. */
  ghost predicate Logs(before: seq<Event>, after: seq<Event>, events: seq<Event>) {
    && before + events <= after
    && forall k :: |before| + |events| <= k < |after| ==> after[k].LaneResumed? && after[k].why == "cooldown_expired"
  }

  /** The switch, the freeze and its reason are as before. */
  ghost predicate SameStanding(s: System, s': System) {
    && s'.on == s.on && |s'.lanes| == |s.lanes|
    && (s'.global == Frozen <==> s.global == Frozen) && (s.global == Frozen ==> s'.reason == s.reason)
  }

  /** The later of the two clocks of a call that reconciles before its status. */
  function LastClock(call: Call): int {
    MaxInt(call.syncAt, call.statusAt)
  }

  // ---------------------------------------------------------------- the closing passes

  lemma {:induction false} ExpiryLogs(s: System, n: nat, now: int)
    requires n <= |s.lanes|
    ensures Logs(s.log, ExpireUpTo(s, n, now).log, [])
    ensures (forall i :: 0 <= i < n ==> !Due(s.lanes[i], now)) ==> ExpireUpTo(s, n, now).log == s.log
  {
    if n > 0 { ExpiryLogs(s, n - 1, now); }
  }

  lemma LogsTwice(a: seq<Event>, b: seq<Event>, c: seq<Event>, events: seq<Event>)
    requires Logs(a, b, events) && Logs(b, c, [])
    ensures Logs(a, c, events)
  {
    assert b + [] == b;
    assert forall k :: 0 <= k < |b| ==> c[k] == b[k];
  }

  lemma StatusLogs(s: System, now: int)
    ensures Logs(s.log, StatusOf(s, now).log, [])
    ensures (forall i :: 0 <= i < |s.lanes| ==> !Due(s.lanes[i], now)) ==> StatusOf(s, now).log == s.log
  {
    ExpiryLogs(s, |s.lanes|, now);
  }

  lemma ClosingLogs(s: System, why: Option<string>, call: Call)
    ensures Logs(s.log, Closing(s, why, call).log, [])
    ensures (forall i :: 0 <= i < |s.lanes| ==> s.lanes[i].state != Cooldown) ==> Closing(s, why, call).log == s.log
  {
    match why
    case None => StatusLogs(s, call.statusAt);
    case Some(w) =>
      var c := StatusOf(s, call.syncAt);
      var c' := if c.global == Degraded && c.reason != Some(w) then c.(reason := Some(w)) else c;
      StatusLogs(s, call.syncAt);
      StatusLane(s, call.syncAt);
      StatusLogs(c', call.statusAt);
      LogsTwice(s.log, c.log, Closing(s, why, call).log, []);
  }

  /** The clock that decides about expiry when a call closes. */
  function ClosingClock(why: Option<string>, call: Call): int {
    if why.Some? then LastClock(call) else call.statusAt
  }

  lemma ClosingDoes(e: System, why: Option<string>, call: Call)
    ensures var t := Closing(e, why, call);
            SameStanding(e, t) && forall i :: 0 <= i < |e.lanes| ==> LeftAlone(e.lanes[i], t.lanes[i], e.on, ClosingClock(why, call))
  {
    ClosingLane(e, why, call);
  }

  /** A call that returns: the rows it writes, the event it records, and the closing passes. */
  lemma CallDoes(s: System, call: Call, e: System, events: seq<Event>)
    requires Effect(s, call) == Ok(e) && e.log == s.log + events
    ensures var s' := After(s, call);
            && SameStanding(e, s') && Settled(s') && Logs(s.log, s'.log, events)
            && (forall i :: 0 <= i < |e.lanes| ==> LeftAlone(e.lanes[i], s'.lanes[i], e.on, ClosingClock(SyncReason(s, call.op), call)))
            && ((forall i :: 0 <= i < |e.lanes| ==> e.lanes[i].state != Cooldown) ==> s'.log == s.log + events)
  {
    hide Effect, Closing, Settled, LeftAlone, SameStanding;
    var why := SyncReason(s, call.op);
    ClosingDoes(e, why, call);
    ClosingLogs(e, why, call);
    EveryCallSettles(s, call);
    assert Step(s, call) == Ok(Closing(e, why, call));
    assert e.log + [] == e.log;
  }

  // ---------------------------------------------------------------- the whole system

  /** Every lane that was not disabled has this state and reason and no cooldown; the disabled ones
      are untouched. */
  ghost predicate AllEnabled(before: seq<Lane>, after: seq<Lane>, state: LaneState, why: string) {
    && |after| == |before|
    && forall i :: 0 <= i < |before| ==>
         if before[i].state == Disabled then after[i] == before[i]
         else after[i] == Lane(before[i].name, state, Some(why), None)
  }

  lemma BulkDoes(s: System, call: Call, e: System, event: Event, state: LaneState, why: string)
    requires Effect(s, call) == Ok(e) && e.log == s.log + [event]
    requires e.lanes == SetEnabled(s.lanes, state, why) && state != Cooldown && state != Disabled
    ensures var s' := After(s, call);
            SameStanding(e, s') && Settled(s') && AllEnabled(s.lanes, s'.lanes, state, why) && s'.log == s.log + [event]
  {
    CallDoes(s, call, e, [event]);
    hide Effect, After, Settled, Logs;
  }

  lemma AllRunningIsHealthy(s: System, before: seq<Lane>, why: string)
    requires Settled(s) && s.on && s.global != Frozen && AllEnabled(before, s.lanes, Running, why)
    ensures s.global == Healthy && s.reason == None
  {
  }

  /** Turning on: the switch is on, a freeze is lifted, every enabled lane runs, and the system is
      healthy. */
  lemma TurnOnDoes(s: System, call: Call)
    requires call.op.TurnOn?
    ensures var s' := After(s, call);
            && s'.on && s'.global == Healthy && s'.reason == None
            && AllEnabled(s.lanes, s'.lanes, Running, "system_on")
            && s'.log == s.log + [SystemOn(Starting)]
  {
    BulkDoes(s, call, Effect(s, call).value, SystemOn(Starting), Running, "system_on");
    hide Effect, After, Settled, AllEnabled;
    AllRunningIsHealthy(After(s, call), s.lanes, "system_on");
  }

  /** Turning off: the switch is off, a freeze is lifted, every enabled lane is paused. */
  lemma TurnOffDoes(s: System, call: Call)
    requires call.op.TurnOff?
    ensures var s' := After(s, call);
            && !s'.on && s'.global == Off && s'.reason == None
            && AllEnabled(s.lanes, s'.lanes, Paused, "system_off")
            && s'.log == s.log + [SystemOff(Off)]
  {
    BulkDoes(s, call, Effect(s, call).value, SystemOff(Off), Paused, "system_off");
  }

  /** Freezing: the system is frozen for the reason given, every enabled lane is paused, and the
      switch stays. */
  lemma FreezeDoes(s: System, call: Call)
    requires call.op.Freeze?
    ensures var s' := After(s, call);
            && s'.on == s.on && s'.global == Frozen && s'.reason == Some(call.op.why)
            && AllEnabled(s.lanes, s'.lanes, Paused, "frozen")
            && s'.log == s.log + [SystemFrozen(call.op.why)]
  {
    BulkDoes(s, call, Effect(s, call).value, SystemFrozen(call.op.why), Paused, "frozen");
  }

  /** Thawing with the switch on: the freeze is gone, every enabled lane runs and the system is
      healthy. */
  lemma ThawOnDoes(s: System, call: Call)
    requires call.op.Thaw? && s.on
    ensures var s' := After(s, call);
            && s'.on && s'.global == Healthy && s'.reason == None
            && AllEnabled(s.lanes, s'.lanes, Running, "thawed")
            && s'.log == s.log + [SystemThawed(Starting)]
  {
    BulkDoes(s, call, Effect(s, call).value, SystemThawed(Starting), Running, "thawed");
    hide Effect, After, Settled, AllEnabled;
    AllRunningIsHealthy(After(s, call), s.lanes, "thawed");
  }

  /** Thawing with the switch off: the freeze is gone and the system off, no lane is rewritten. */
  lemma ThawOffDoes(s: System, call: Call)
    requires call.op.Thaw? && !s.on
    ensures var s' := After(s, call);
            && !s'.on && s'.global == Off && s'.reason == None
            && Logs(s.log, s'.log, [SystemThawed(Off)]) && |s'.lanes| == |s.lanes|
            && forall i :: 0 <= i < |s.lanes| ==> LeftAlone(s.lanes[i], s'.lanes[i], false, LastClock(call))
  {
    CallDoes(s, call, Effect(s, call).value, [SystemThawed(Off)]);
  }

  /** Marking degraded: refused while frozen, otherwise its event; the lanes are left alone. */
  lemma MarkDegradedDoes(s: System, call: Call)
    requires call.op.MarkDegraded?
    ensures var s' := After(s, call);
            && SameStanding(s, s')
            && Logs(s.log, s'.log, if s.global == Frozen then [] else [SystemDegraded(call.op.why)])
            && forall i :: 0 <= i < |s.lanes| ==>
                 LeftAlone(s.lanes[i], s'.lanes[i], s.on, if s.global == Frozen then call.statusAt else LastClock(call))
  {
    assert s.log + [] == s.log;
    CallDoes(s, call, Effect(s, call).value, if s.global == Frozen then [] else [SystemDegraded(call.op.why)]);
  }

  /** Marking healthy: refused while frozen or off, otherwise its event; the lanes are left alone. */
  lemma MarkHealthyDoes(s: System, call: Call)
    requires call.op.MarkHealthy?
    ensures var s' := After(s, call);
            var refused := s.global == Frozen || !s.on;
            && SameStanding(s, s')
            && Logs(s.log, s'.log, if refused then [] else [SystemHealthy(call.op.why)])
            && forall i :: 0 <= i < |s.lanes| ==>
                 LeftAlone(s.lanes[i], s'.lanes[i], s.on, if refused then call.statusAt else LastClock(call))
  {
    assert s.log + [] == s.log;
    CallDoes(s, call, Effect(s, call).value, if s.global == Frozen || !s.on then [] else [SystemHealthy(call.op.why)]);
  }

  /** An escalation is logged; a status only looks. Both leave the lanes alone. */
  lemma EscalationAndStatusDo(s: System, call: Call)
    requires call.op.RecordEscalation? || call.op.Status?
    ensures var s' := After(s, call);
            && SameStanding(s, s')
            && Logs(s.log, s'.log, if call.op.Status? then [] else [HumanEscalation(call.op.why)])
            && forall i :: 0 <= i < |s.lanes| ==> LeftAlone(s.lanes[i], s'.lanes[i], s.on, call.statusAt)
  {
    assert s.log + [] == s.log;
    CallDoes(s, call, Effect(s, call).value, if call.op.Status? then [] else [HumanEscalation(call.op.why)]);
  }

  // ---------------------------------------------------------------- one lane

  /** Every lane but the named one is left alone. */
  ghost predicate OthersLeftAlone(s: System, s': System, lane: string, clock: int) {
    && SameStanding(s, s')
    && forall i :: 0 <= i < |s.lanes| && s.lanes[i].name != lane ==> LeftAlone(s.lanes[i], s'.lanes[i], s.on, clock)
  }

  /** Pausing a known lane: it is paused for the reason given, whatever it was doing. */
  lemma PauseDoes(s: System, call: Call, i: nat)
    requires call.op.PauseLane? && i < |s.lanes| && s.lanes[i].name == call.op.lane
    ensures var s' := After(s, call);
            && OthersLeftAlone(s, s', call.op.lane, LastClock(call))
            && s'.lanes[i] == Lane(call.op.lane, Paused, Some(call.op.why), None)
            && Logs(s.log, s'.log, [LanePaused(call.op.lane, call.op.why)])
  {
    CallDoes(s, call, Effect(s, call).value, [LanePaused(call.op.lane, call.op.why)]);
  }

  /** Resuming a known lane outside a freeze: it runs if and only if the switch is on, and is
      paused otherwise. */
  lemma ResumeDoes(s: System, call: Call, i: nat)
    requires call.op.ResumeLane? && s.global != Frozen && i < |s.lanes| && s.lanes[i].name == call.op.lane
    ensures var s' := After(s, call);
            var state := if s.on then Running else Paused;
            && OthersLeftAlone(s, s', call.op.lane, LastClock(call))
            && s'.lanes[i] == Lane(call.op.lane, state, Some(call.op.why), None)
            && Logs(s.log, s'.log, [LaneResumed(call.op.lane, call.op.why, state)])
  {
    CallDoes(s, call, Effect(s, call).value, [LaneResumed(call.op.lane, call.op.why, if s.on then Running else Paused)]);
  }

  /** Cooling a known lane down, frozen or not: it cools down until the given time from the call
      on, unless that is over by the end of the call. */
  lemma CooldownDoes(s: System, call: Call, i: nat)
    requires call.op.EnterCooldown? && i < |s.lanes| && s.lanes[i].name == call.op.lane
    ensures var s' := After(s, call);
            var end := call.at + (if call.op.seconds > 0 then call.op.seconds else 0);
            && OthersLeftAlone(s, s', call.op.lane, LastClock(call))
            && s'.lanes[i] == (if end <= LastClock(call) then Lane(call.op.lane, if s.on then Running else Paused, Some("cooldown_expired"), None)
                               else Lane(call.op.lane, Cooldown, Some(call.op.why), Some(end)))
            && Logs(s.log, s'.log, [ProviderDegraded(call.op.lane, call.op.why, call.op.seconds)])
  {
    hide Settled, After, Closing, Logs;
    CallDoes(s, call, Effect(s, call).value, [ProviderDegraded(call.op.lane, call.op.why, call.op.seconds)]);
  }

  // ---------------------------------------------------------------- expiry and the report

  predicate Increasing(indices: seq<nat>) {
    forall a, b :: 0 <= a < b < |indices| ==> indices[a] < indices[b]
  }

  predicate Within(indices: seq<nat>, n: nat) {
    forall k :: 0 <= k < |indices| ==> indices[k] < n
  }

  ghost predicate CoolingOver(lanes: seq<Lane>, i: nat, now: int)
    requires i < |lanes|
  {
    lanes[i].state == Cooldown && lanes[i].until.Some? && lanes[i].until.value <= now
  }

  function ResumeEvents(lanes: seq<Lane>, indices: seq<nat>, on: bool): seq<Event>
    requires Within(indices, |lanes|)
  {
    seq(|indices|, k requires 0 <= k < |indices| =>
      LaneResumed(lanes[indices[k]].name, "cooldown_expired", if on then Running else Paused))
  }

  /** Expiry logs one resume for each lane whose cooldown is over, in lane order, and nothing else. */
  lemma {:induction false} ExpiryLogsEachOnce(s: System, n: nat, now: int) returns (indices: seq<nat>)
    requires n <= |s.lanes|
    ensures Increasing(indices) && Within(indices, n) && forall i: nat :: i in indices <==> i < n && CoolingOver(s.lanes, i, now)
    ensures ExpireUpTo(s, n, now).log == s.log + ResumeEvents(s.lanes, indices, s.on)
  {
    if n == 0 {
      indices := [];
    } else {
      var earlier := ExpiryLogsEachOnce(s, n - 1, now);
      if CoolingOver(s.lanes, n - 1, now) {
        indices := earlier + [n - 1];
        assert ResumeEvents(s.lanes, indices, s.on) == ResumeEvents(s.lanes, earlier, s.on) + ResumeEvents(s.lanes, [n - 1], s.on);
        assert forall k :: 0 <= k < |earlier| ==> earlier[k] in earlier;
      } else {
        indices := earlier;
      }
    }
  }
}
