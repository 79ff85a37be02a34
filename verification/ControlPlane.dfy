/** The control plane object: each call rewrites the stored rows step by step and
    is proved to end in the state ControlModel.After gives. */
module ControlPlanes {
  import opened Prelude
  import opened ControlModel

  const DEFAULT_CONTROL_LANES := ["api", "harness", "telegram", "watch", "worker"]

  datatype Report = Report(
    global: Global,
    on: bool,
    lanes: seq<(string, LaneState)>,
    latestFailureClass: Option<string>,
    cooldowns: seq<(string, int)>,
    frozenReason: Option<string>)

  /** The lanes cooling down, in listing order, with the end of their cooldown. */
  function CooldownsOf(lanes: seq<Lane>): seq<(string, int)> {
    if lanes == [] then []
    else
      var front := CooldownsOf(lanes[..|lanes| - 1]);
      var lane := lanes[|lanes| - 1];
      if lane.state == Cooldown && lane.until.Some? then front + [(lane.name, lane.until.value)] else front
  }

  /** The report lists a lane, with the end of its cooldown, exactly when it is cooling down. */
  lemma {:induction false} CooldownsAreThoseCooling(lanes: seq<Lane>, name: string, end: int)
    ensures (name, end) in CooldownsOf(lanes) <==>
            exists i :: 0 <= i < |lanes| && lanes[i].name == name && lanes[i].state == Cooldown && lanes[i].until == Some(end)
  {
    if lanes != [] {
      var front, last := lanes[..|lanes| - 1], lanes[|lanes| - 1];
      CooldownsAreThoseCooling(front, name, end);
      assert lanes == front + [last];
      assert forall i :: 0 <= i < |front| ==> lanes[i] == front[i];
    }
  }

  ghost predicate Reports(r: Report, s: System) {
    && r.global == s.global && r.on == s.on && r.frozenReason == s.reason
    && |r.lanes| == |s.lanes| && (forall i :: 0 <= i < |s.lanes| ==> r.lanes[i] == (s.lanes[i].name, s.lanes[i].state))
    && r.cooldowns == CooldownsOf(s.lanes)
    && r.latestFailureClass == (match FirstBlocked(s.lanes) case Some(lane) => lane.reason case None => None)
  }

  class ControlPlane {
    var global: Global
    var on: bool
    var reason: Option<string>
    var lanes: seq<Lane>
    var log: seq<Event>

    ghost function Stored(): System
      reads this
    {
      System(global, on, reason, lanes, log)
    }

    /** A first start: the bootstrap row and the default lanes, all paused. */
    constructor ()
      ensures Stored() == System(Off, false, None, seq(5, i requires 0 <= i < 5 =>
                                   Lane(DEFAULT_CONTROL_LANES[i], Paused, None, None)), [])
      ensures WellFormed(Stored())
    {
      global, on, reason, log := Off, false, None, [];
      lanes := seq(5, i requires 0 <= i < 5 => Lane(DEFAULT_CONTROL_LANES[i], Paused, None, None));
      new;
      assert |"api"| == 3 && |"harness"| == 7 && |"telegram"| == 8 && |"watch"| == 5 && |"worker"| == 6;
      assert DistinctNames(lanes) by {
        forall i, k | 0 <= i < k < 5 ensures DEFAULT_CONTROL_LANES[i] != DEFAULT_CONTROL_LANES[k] {
        }
      }
    }

    /** The bulk loops: every lane that is not disabled is rewritten in turn. */
    method RewriteEnabled(state: LaneState, why: string)
      requires DistinctNames(lanes)
      modifies this`lanes
      ensures lanes == SetEnabled(old(lanes), state, why)
    {
      var rows := lanes;
      var i := 0;
      while i < |rows|
        invariant 0 <= i <= |rows| && |lanes| == |rows|
        invariant forall k :: 0 <= k < |rows| ==> lanes[k].name == rows[k].name
        invariant forall k :: 0 <= k < i ==> lanes[k] == SetEnabled(rows, state, why)[k]
        invariant forall k :: i <= k < |rows| ==> lanes[k] == rows[k]
      {
        var lane := rows[i];
        if lane.state != Disabled {
          lanes := SetLane(lanes, lane.name, state, why, None);
        }
        i := i + 1;
      }
    }

    method ExpireCooldowns(now: int)
      requires DistinctNames(lanes)
      modifies this`lanes, this`log
      ensures Stored() == Expire(old(Stored()), now)
    {
      var rows := lanes;
      for i := 0 to |rows|
        invariant Stored() == ExpireUpTo(old(Stored()), i, now)
        invariant global == old(global) && on == old(on) && reason == old(reason)
      {
        var lane := rows[i];
        if lane.state == Cooldown && lane.until.Some? && lane.until.value <= now {
          var next := if on then Running else Paused;
          lanes := lanes[i := Lane(lane.name, next, Some("cooldown_expired"), None)];
          log := log + [LaneResumed(lane.name, "cooldown_expired", next)];
        }
      }
    }

    method ReconcileSystemState()
      modifies this`global, this`reason
      ensures Stored() == Reconcile(old(Stored()))
    {
      if global == Frozen { return; }
      var expected, expectedReason := Off, None;
      if on {
        match FirstBlocked(lanes) {
          case Some(lane) => expected, expectedReason := Degraded, lane.reason;
          case None => expected := Healthy;
        }
      }
      if global != expected || reason != expectedReason {
        global, reason := expected, expectedReason;
      }
    }

    method GetStatus(now: int) returns (r: Report)
      requires DistinctNames(lanes)
      modifies this
      ensures Stored() == StatusOf(old(Stored()), now)
      ensures Reports(r, Stored())
    {
      ExpireCooldowns(now);
      ReconcileSystemState();
      var listed: seq<(string, LaneState)> := [];
      var cooldowns := [];
      for i := 0 to |lanes|
        invariant |listed| == i && forall k :: 0 <= k < i ==> listed[k] == (lanes[k].name, lanes[k].state)
        invariant cooldowns == CooldownsOf(lanes[..i])
      {
        assert lanes[..i + 1][..i] == lanes[..i];
        listed := listed + [(lanes[i].name, lanes[i].state)];
        if lanes[i].state == Cooldown && lanes[i].until.Some? {
          cooldowns := cooldowns + [(lanes[i].name, lanes[i].until.value)];
        }
      }
      assert lanes[..|lanes|] == lanes;
      var failure := match FirstBlocked(lanes) case Some(lane) => lane.reason case None => None;
      r := Report(global, on, listed, failure, cooldowns, reason);
    }

    method SyncGlobalState(why: string, syncAt: int, statusAt: int) returns (r: Report)
      requires DistinctNames(lanes)
      modifies this
      ensures Stored() == Sync(old(Stored()), why, syncAt, statusAt)
      ensures Reports(r, Stored())
    {
      ExpireCooldowns(syncAt);
      ReconcileSystemState();
      if global == Degraded && reason != Some(why) {
        reason := Some(why);
      }
      r := GetStatus(statusAt);
    }

    method TurnOnSystem(call: Call) returns (r: Report)
      requires DistinctNames(lanes) && call.op == TurnOn
      modifies this
      ensures Stored() == After(old(Stored()), call) && Reports(r, Stored())
    {
      global, on, reason := Starting, true, None;
      RewriteEnabled(Running, "system_on");
      log := log + [SystemOn(global)];
      assert Effect(old(Stored()), call) == Ok(Stored());
      r := SyncGlobalState("system_on", call.syncAt, call.statusAt);
    }

    method TurnOffSystem(call: Call) returns (r: Report)
      requires DistinctNames(lanes) && call.op == TurnOff
      modifies this
      ensures Stored() == After(old(Stored()), call) && Reports(r, Stored())
    {
      global, on, reason := Off, false, None;
      RewriteEnabled(Paused, "system_off");
      log := log + [SystemOff(global)];
      assert Effect(old(Stored()), call) == Ok(Stored());
      r := GetStatus(call.statusAt);
    }

    method FreezeSystem(call: Call) returns (r: Report)
      requires DistinctNames(lanes) && call.op.Freeze?
      modifies this
      ensures Stored() == After(old(Stored()), call) && Reports(r, Stored())
    {
      global, reason := Frozen, Some(call.op.why);
      RewriteEnabled(Paused, "frozen");
      log := log + [SystemFrozen(call.op.why)];
      assert Effect(old(Stored()), call) == Ok(Stored());
      r := GetStatus(call.statusAt);
    }

    method MarkSystemDegraded(call: Call) returns (r: Report)
      requires DistinctNames(lanes) && call.op.MarkDegraded?
      modifies this
      ensures Stored() == After(old(Stored()), call) && Reports(r, Stored())
    {
      if global == Frozen {
        r := GetStatus(call.statusAt);
        return;
      }
      global, reason := Degraded, Some(call.op.why);
      log := log + [SystemDegraded(call.op.why)];
      assert Effect(old(Stored()), call) == Ok(Stored());
      r := SyncGlobalState(call.op.why, call.syncAt, call.statusAt);
    }

    method MarkSystemHealthy(call: Call) returns (r: Report)
      requires DistinctNames(lanes) && call.op.MarkHealthy?
      modifies this
      ensures Stored() == After(old(Stored()), call) && Reports(r, Stored())
    {
      if global == Frozen || !on {
        r := GetStatus(call.statusAt);
        return;
      }
      log := log + [SystemHealthy(call.op.why)];
      assert Effect(old(Stored()), call) == Ok(Stored());
      r := SyncGlobalState(call.op.why, call.syncAt, call.statusAt);
    }

    method ThawSystem(call: Call) returns (r: Report)
      requires DistinctNames(lanes) && call.op == Thaw
      modifies this
      ensures Stored() == After(old(Stored()), call) && Reports(r, Stored())
    {
      global, reason := if on then Starting else Off, None;
      if on {
        RewriteEnabled(Running, "thawed");
      }
      log := log + [SystemThawed(global)];
      assert Effect(old(Stored()), call) == Ok(Stored());
      r := SyncGlobalState("thawed", call.syncAt, call.statusAt);
    }

    method PauseOneLane(call: Call) returns (r: Result<Report>)
      requires DistinctNames(lanes) && call.op.PauseLane?
      modifies this
      ensures Stored() == After(old(Stored()), call)
      ensures r.Err? <==> Step(old(Stored()), call).Err?
      ensures r.Ok? ==> Reports(r.value, Stored())
    {
      var name := call.op.lane;
      if !HasLane(lanes, name) { return Err("Unknown control lane: " + name); }
      lanes := SetLane(lanes, name, Paused, call.op.why, None);
      log := log + [LanePaused(name, call.op.why)];
      assert Effect(old(Stored()), call) == Ok(Stored());
      var report := SyncGlobalState(call.op.why, call.syncAt, call.statusAt);
      r := Ok(report);
    }

    method ResumeOneLane(call: Call) returns (r: Result<Report>)
      requires DistinctNames(lanes) && call.op.ResumeLane?
      modifies this
      ensures Stored() == After(old(Stored()), call)
      ensures r.Err? <==> Step(old(Stored()), call).Err?
      ensures r.Ok? ==> Reports(r.value, Stored())
    {
      var name := call.op.lane;
      if global == Frozen { return Err("Cannot resume a lane while the system is frozen"); }
      if !HasLane(lanes, name) { return Err("Unknown control lane: " + name); }
      var next := if on then Running else Paused;
      lanes := SetLane(lanes, name, next, call.op.why, None);
      log := log + [LaneResumed(name, call.op.why, next)];
      assert Effect(old(Stored()), call) == Ok(Stored());
      var report := SyncGlobalState(call.op.why, call.syncAt, call.statusAt);
      r := Ok(report);
    }

    method CoolDownLane(call: Call) returns (r: Result<Report>)
      requires DistinctNames(lanes) && call.op.EnterCooldown?
      modifies this
      ensures Stored() == After(old(Stored()), call)
      ensures r.Err? <==> Step(old(Stored()), call).Err?
      ensures r.Ok? ==> Reports(r.value, Stored())
    {
      var name := call.op.lane;
      if !HasLane(lanes, name) { return Err("Unknown control lane: " + name); }
      var until := call.at + MaxInt(call.op.seconds, 0);
      lanes := SetLane(lanes, name, Cooldown, call.op.why, Some(until));
      log := log + [ProviderDegraded(name, call.op.why, call.op.seconds)];
      assert Effect(old(Stored()), call) == Ok(Stored());
      var report := SyncGlobalState(call.op.why, call.syncAt, call.statusAt);
      r := Ok(report);
    }

    method RecordHumanEscalation(call: Call) returns (r: Report)
      requires DistinctNames(lanes) && call.op.RecordEscalation?
      modifies this
      ensures Stored() == After(old(Stored()), call) && Reports(r, Stored())
    {
      log := log + [HumanEscalation(call.op.why)];
      assert Effect(old(Stored()), call) == Ok(Stored());
      r := GetStatus(call.statusAt);
    }
  }
}
