/** The control plane's state, its operations as functions on that state, and
    the laws they keep over whole runs: settling, lane safety, freezing, and
    event sourcing. */
module ControlModel {
  import opened Prelude

  datatype LaneState = Running | Paused | Cooldown | Disabled

  datatype Lane = Lane(name: string, state: LaneState, reason: Option<string>, until: Option<int>)

  datatype Global = Off | Starting | Healthy | Degraded | Frozen

  datatype Event =
    | SystemOn(global: Global)
    | SystemOff(global: Global)
    | SystemFrozen(why: string)
    | SystemDegraded(why: string)
    | SystemHealthy(why: string)
    | SystemThawed(global: Global)
    | LanePaused(lane: string, why: string)
    | LaneResumed(lane: string, why: string, state: LaneState)
    | ProviderDegraded(lane: string, cls: string, seconds: int)
    | HumanEscalation(why: string)

  /** The system row, the lane rows in listing order, and the append-only event log. */
  datatype System = System(global: Global, on: bool, reason: Option<string>, lanes: seq<Lane>, log: seq<Event>)

  datatype Op =
    | TurnOn
    | TurnOff
    | Freeze(why: string)
    | MarkDegraded(why: string)
    | MarkHealthy(why: string)
    | Thaw
    | PauseLane(lane: string, why: string)
    | ResumeLane(lane: string, why: string)
    | EnterCooldown(lane: string, why: string, seconds: int)
    | RecordEscalation(why: string)
    | Status

  /** A call and the clock readings it takes: its own, the one of the reconciling
      pass, and the one of the closing status. */
  datatype Call = Call(op: Op, at: int, syncAt: int, statusAt: int)

  // ---------------------------------------------------------------- lane rows

  /** Names are the primary key of the lane table. */
  ghost predicate DistinctNames(lanes: seq<Lane>) {
    forall i, k :: 0 <= i < k < |lanes| ==> lanes[i].name != lanes[k].name
  }

  predicate HasLane(lanes: seq<Lane>, name: string) {
    exists i :: 0 <= i < |lanes| && lanes[i].name == name
  }

  predicate Blocked(lane: Lane) {
    lane.state == Paused || lane.state == Cooldown
  }

  function SetLane(lanes: seq<Lane>, name: string, state: LaneState, why: string, until: Option<int>): (r: seq<Lane>)
    ensures |r| == |lanes|
    ensures forall i :: 0 <= i < |lanes| ==>
              r[i] == if lanes[i].name == name then Lane(name, state, Some(why), until) else lanes[i]
  {
    seq(|lanes|, i requires 0 <= i < |lanes| =>
      if lanes[i].name == name then Lane(name, state, Some(why), until) else lanes[i])
  }

  function SetEnabled(lanes: seq<Lane>, state: LaneState, why: string): (r: seq<Lane>)
    ensures |r| == |lanes|
    ensures forall i :: 0 <= i < |lanes| ==>
              r[i] == if lanes[i].state == Disabled then lanes[i] else Lane(lanes[i].name, state, Some(why), None)
  {
    seq(|lanes|, i requires 0 <= i < |lanes| =>
      if lanes[i].state == Disabled then lanes[i] else Lane(lanes[i].name, state, Some(why), None))
  }

  function FirstBlocked(lanes: seq<Lane>): (r: Option<Lane>)
    ensures r.None? <==> forall i :: 0 <= i < |lanes| ==> !Blocked(lanes[i])
    ensures r.Some? ==> exists i :: 0 <= i < |lanes| && lanes[i] == r.value && Blocked(lanes[i]) &&
                                    forall k :: 0 <= k < i ==> !Blocked(lanes[k])
  {
    if lanes == [] then None
    else if Blocked(lanes[0]) then Some(lanes[0])
    else
      assert forall i :: 0 < i < |lanes| ==> lanes[i] == lanes[1..][i - 1];
      FirstBlocked(lanes[1..])
  }

  // ---------------------------------------------------------------- expiry and reconciliation

  predicate Due(lane: Lane, now: int) {
    lane.state == Cooldown && lane.until.Some? && lane.until.value <= now
  }

  function Resumed(on: bool): LaneState {
    if on then Running else Paused
  }

  function ExpiredLane(lane: Lane, on: bool, now: int): Lane {
    if Due(lane, now) then Lane(lane.name, Resumed(on), Some("cooldown_expired"), None) else lane
  }

  /** The first n lanes have been visited by the expiry loop. */
  function ExpireUpTo(s: System, n: nat, now: int): (r: System)
    requires n <= |s.lanes|
    ensures r == s.(lanes := r.lanes, log := r.log)
    ensures |r.lanes| == |s.lanes|
    ensures forall i :: 0 <= i < |s.lanes| ==>
              r.lanes[i] == if i < n then ExpiredLane(s.lanes[i], s.on, now) else s.lanes[i]
    ensures s.log <= r.log
  {
    if n == 0 then s
    else
      var p := ExpireUpTo(s, n - 1, now);
      var lane := s.lanes[n - 1];
      if Due(lane, now) then
        p.(lanes := p.lanes[n - 1 := ExpiredLane(lane, s.on, now)],
           log := p.log + [LaneResumed(lane.name, "cooldown_expired", Resumed(s.on))])
      else p
  }

  function Expire(s: System, now: int): System {
    ExpireUpTo(s, |s.lanes|, now)
  }

  function Reconcile(s: System): System {
    if s.global == Frozen then s
    else if !s.on then s.(global := Off, reason := None)
    else match FirstBlocked(s.lanes)
         case Some(lane) => s.(global := Degraded, reason := lane.reason)
         case None => s.(global := Healthy, reason := None)
  }

  function StatusOf(s: System, now: int): System {
    Reconcile(Expire(s, now))
  }

  function Sync(s: System, why: string, syncAt: int, statusAt: int): System {
    var c := StatusOf(s, syncAt);
    var c' := if c.global == Degraded && c.reason != Some(why) then c.(reason := Some(why)) else c;
    StatusOf(c', statusAt)
  }

  // ---------------------------------------------------------------- the operations

  /** The rows an operation writes and the event it records, before the closing
      expiry and reconciliation; an error leaves everything as it was. */
  function Effect(s: System, call: Call): Result<System> {
    match call.op
    case TurnOn =>
      Ok(System(Starting, true, None, SetEnabled(s.lanes, Running, "system_on"), s.log + [SystemOn(Starting)]))
    case TurnOff =>
      Ok(System(Off, false, None, SetEnabled(s.lanes, Paused, "system_off"), s.log + [SystemOff(Off)]))
    case Freeze(why) =>
      Ok(System(Frozen, s.on, Some(why), SetEnabled(s.lanes, Paused, "frozen"), s.log + [SystemFrozen(why)]))
    case MarkDegraded(why) =>
      if s.global == Frozen then Ok(s)
      else Ok(s.(global := Degraded, reason := Some(why), log := s.log + [SystemDegraded(why)]))
    case MarkHealthy(why) =>
      if s.global == Frozen || !s.on then Ok(s) else Ok(s.(log := s.log + [SystemHealthy(why)]))
    case Thaw =>
      var global := if s.on then Starting else Off;
      Ok(System(global, s.on, None,
                if s.on then SetEnabled(s.lanes, Running, "thawed") else s.lanes,
                s.log + [SystemThawed(global)]))
    case PauseLane(lane, why) =>
      if !HasLane(s.lanes, lane) then Err("Unknown control lane: " + lane)
      else Ok(s.(lanes := SetLane(s.lanes, lane, Paused, why, None), log := s.log + [LanePaused(lane, why)]))
    case ResumeLane(lane, why) =>
      if s.global == Frozen then Err("Cannot resume a lane while the system is frozen")
      else if !HasLane(s.lanes, lane) then Err("Unknown control lane: " + lane)
      else Ok(s.(lanes := SetLane(s.lanes, lane, Resumed(s.on), why, None),
                 log := s.log + [LaneResumed(lane, why, Resumed(s.on))]))
    case EnterCooldown(lane, why, seconds) =>
      if !HasLane(s.lanes, lane) then Err("Unknown control lane: " + lane)
      else Ok(s.(lanes := SetLane(s.lanes, lane, Cooldown, why, Some(call.at + MaxInt(seconds, 0))),
                 log := s.log + [ProviderDegraded(lane, why, seconds)]))
    case RecordEscalation(why) => Ok(s.(log := s.log + [HumanEscalation(why)]))
    case Status => Ok(s)
  }

  /** The reason handed to the reconciling pass, for operations that run one. */
  function SyncReason(s: System, op: Op): Option<string> {
    match op
    case TurnOn => Some("system_on")
    case Thaw => Some("thawed")
    case MarkDegraded(why) => if s.global == Frozen then None else Some(why)
    case MarkHealthy(why) => if s.global == Frozen || !s.on then None else Some(why)
    case PauseLane(_, why) => Some(why)
    case ResumeLane(_, why) => Some(why)
    case EnterCooldown(_, why, _) => Some(why)
    case _ => None
  }

  function Closing(s: System, why: Option<string>, call: Call): System {
    match why
    case Some(w) => Sync(s, w, call.syncAt, call.statusAt)
    case None => StatusOf(s, call.statusAt)
  }

  function Step(s: System, call: Call): Result<System> {
    match Effect(s, call)
    case Ok(s') => Ok(Closing(s', SyncReason(s, call.op), call))
    case Err(message) => Err(message)
  }

  /** A failed call raises and changes nothing. */
  function After(s: System, call: Call): System {
    match Step(s, call) case Ok(s') => s' case Err(_) => s
  }

  function Run(s: System, calls: seq<Call>): System {
    if calls == [] then s else After(Run(s, calls[..|calls| - 1]), calls[|calls| - 1])
  }

  // ---------------------------------------------------------------- settling

  ghost predicate Settled(s: System) {
    match s.global
    case Frozen => true
    case Off => !s.on && s.reason == None
    case Degraded => s.on && exists i :: 0 <= i < |s.lanes| && Blocked(s.lanes[i]) && s.reason == s.lanes[i].reason &&
                                         forall k :: 0 <= k < i ==> !Blocked(s.lanes[k])
    case Healthy => s.on && s.reason == None && forall i :: 0 <= i < |s.lanes| ==> !Blocked(s.lanes[i])
    case Starting => false
  }

  lemma StatusSettles(s: System, now: int)
    ensures Settled(StatusOf(s, now))
  {
  }

  /** Every call that returns leaves a settled state, whatever state it started from;
      a raising call changes nothing. */
  lemma EveryCallSettles(s: System, call: Call)
    ensures Step(s, call).Ok? ==> Settled(Step(s, call).value)
    ensures Step(s, call).Err? <==>
              (call.op.PauseLane? || call.op.ResumeLane? || call.op.EnterCooldown?) &&
              (!HasLane(s.lanes, call.op.lane) || (call.op.ResumeLane? && s.global == Frozen))
    ensures Step(s, call).Err? ==> After(s, call) == s
  {
    if Effect(s, call).Ok? {
      var e := Effect(s, call).value;
      match SyncReason(s, call.op)
      case None => StatusSettles(e, call.statusAt);
      case Some(why) =>
        var c := StatusOf(e, call.syncAt);
        StatusSettles(if c.global == Degraded && c.reason != Some(why) then c.(reason := Some(why)) else c, call.statusAt);
    }
  }

  /** At a fixed clock the status call is idempotent. */
  lemma StatusIdempotent(s: System, now: int)
    ensures StatusOf(StatusOf(s, now), now) == StatusOf(s, now)
  {
    var t := StatusOf(s, now);
    NothingDue(t, |t.lanes|, now);
  }

  lemma {:induction false} NothingDue(s: System, n: nat, now: int)
    requires n <= |s.lanes| && forall i :: 0 <= i < |s.lanes| ==> !Due(s.lanes[i], now)
    ensures ExpireUpTo(s, n, now) == s
  {
    if n > 0 { NothingDue(s, n - 1, now); }
  }

  /** What a closing status does to one lane and to the switch. */
  lemma StatusLane(s: System, now: int)
    ensures var t := StatusOf(s, now);
            && t.on == s.on && |t.lanes| == |s.lanes|
            && (t.global == Frozen <==> s.global == Frozen) && (s.global == Frozen ==> t.reason == s.reason)
            && forall i :: 0 <= i < |s.lanes| ==> t.lanes[i] == ExpiredLane(s.lanes[i], s.on, now)
  {
  }

  lemma ClosingLane(s: System, why: Option<string>, call: Call)
    ensures var t := Closing(s, why, call);
            && t.on == s.on && |t.lanes| == |s.lanes|
            && (t.global == Frozen <==> s.global == Frozen) && (s.global == Frozen ==> t.reason == s.reason)
            && forall i :: 0 <= i < |s.lanes| ==>
                 t.lanes[i] == if why.None? then ExpiredLane(s.lanes[i], s.on, call.statusAt)
                               else ExpiredLane(ExpiredLane(s.lanes[i], s.on, call.syncAt), s.on, call.statusAt)
  {
    match why
    case None => StatusLane(s, call.statusAt);
    case Some(w) =>
      var c := StatusOf(s, call.syncAt);
      var c' := if c.global == Degraded && c.reason != Some(w) then c.(reason := Some(w)) else c;
      StatusLane(s, call.syncAt);
      StatusLane(c', call.statusAt);
  }

  /** The lanes and the settled global state depend on nothing but the lanes and the switch. */
  lemma StatusIgnoresMark(s: System, t: System, now: int)
    requires s.lanes == t.lanes && s.on == t.on && s.global != Frozen && t.global != Frozen
    ensures var (a, b) := (StatusOf(s, now), StatusOf(t, now));
            a == b.(log := a.log) && a.global != Frozen
  {
    var a, b := Expire(s, now), Expire(t, now);
    assert a.lanes == b.lanes;
  }

  /** The mark left by mark_degraded does not survive the call: apart from its event,
      the call ends exactly where two status passes at the same clocks end. */
  lemma DegradedMarkIsUndone(s: System, call: Call)
    requires call.op.MarkDegraded? && s.global != Frozen
    ensures var s' := After(s, call);
            var t := StatusOf(StatusOf(s, call.syncAt), call.statusAt);
            s' == t.(log := s'.log)
  {
    var e := Effect(s, call).value;
    var c, d := StatusOf(e, call.syncAt), StatusOf(s, call.syncAt);
    StatusIgnoresMark(e, s, call.syncAt);
    var c' := if c.global == Degraded && c.reason != Some(call.op.why) then c.(reason := Some(call.op.why)) else c;
    StatusIgnoresMark(c', d, call.statusAt);
  }

  /** Exactly when a system is degraded with the reason asked for once the call has returned: the
      system is on and not frozen, and the first lane still blocked when the call's clocks have
      run gives that very reason of its own. */
  lemma DegradedMarkStandsIff(s: System, call: Call)
    requires call.op.MarkDegraded?
    ensures var s' := After(s, call);
            var blocked := FirstBlocked(Expire(Expire(s, call.syncAt), call.statusAt).lanes);
            s'.global == Degraded && s'.reason == Some(call.op.why) <==>
            s.global != Frozen && s.on && blocked.Some? && blocked.value.reason == Some(call.op.why)
  {
    if s.global != Frozen {
      DegradedMarkIsUndone(s, call);
      var mid := StatusOf(s, call.syncAt);
      SameRowsExpireAlike(Expire(s, call.syncAt), mid, call.statusAt);
    }
  }

  lemma SameRowsExpireAlike(s: System, t: System, now: int)
    requires s.lanes == t.lanes && s.on == t.on
    ensures Expire(s, now).lanes == Expire(t, now).lanes
  {
  }

  /** A concrete mark that does not stand: with its one lane at work the system ends healthy. */
  lemma DegradedMarkExample(call: Call)
    requires call.op == MarkDegraded("stuck")
    ensures var s' := After(System(Healthy, true, None, [Lane("worker", Running, None, None)], []), call);
            s'.global == Healthy && s'.reason == None
  {
    var s := System(Healthy, true, None, [Lane("worker", Running, None, None)], []);
    DegradedMarkIsUndone(s, call);
    NothingDue(s, 1, call.syncAt);
    NothingDue(s, 1, call.statusAt);
    assert FirstBlocked(s.lanes) == None;
  }

  // ---------------------------------------------------------------- lane safety

  ghost predicate LaneSafe(s: System) {
    && DistinctNames(s.lanes)
    && (!s.on ==> forall i :: 0 <= i < |s.lanes| ==> s.lanes[i].state != Running)
    && (forall i :: 0 <= i < |s.lanes| ==> (s.lanes[i].state == Cooldown <==> s.lanes[i].until.Some?))
  }

  lemma SafeStatus(s: System, now: int)
    requires LaneSafe(s)
    ensures LaneSafe(StatusOf(s, now))
  {
  }

  lemma SafeEffect(s: System, call: Call)
    requires LaneSafe(s) && Effect(s, call).Ok?
    ensures LaneSafe(Effect(s, call).value)
  {
    var lanes := Effect(s, call).value.lanes;
    assert |lanes| == |s.lanes|;
    forall i | 0 <= i < |lanes|
      ensures lanes[i].name == s.lanes[i].name
      ensures lanes[i].state == Cooldown <==> lanes[i].until.Some?
    {
      match call.op { case TurnOn => case TurnOff => case Freeze(_) => case Thaw => case _ => }
    }
  }

  lemma SafeAfter(s: System, call: Call)
    requires LaneSafe(s)
    ensures LaneSafe(After(s, call))
  {
    if Effect(s, call).Ok? {
      var e := Effect(s, call).value;
      SafeEffect(s, call);
      SafeStatus(e, call.statusAt);
      SafeStatus(e, call.syncAt);
      var c := StatusOf(e, call.syncAt);
      SafeStatus(c, call.statusAt);
      if SyncReason(s, call.op).Some? { SafeStatus(c.(reason := SyncReason(s, call.op)), call.statusAt); }
    }
  }

  /** Over every run: with the switch off no lane runs, and a lane has a cooldown
      end exactly while it cools down. */
  lemma {:induction false} LanesStaySafe(s: System, calls: seq<Call>)
    requires LaneSafe(s)
    ensures LaneSafe(Run(s, calls))
  {
    if calls != [] {
      LanesStaySafe(s, calls[..|calls| - 1]);
      SafeAfter(Run(s, calls[..|calls| - 1]), calls[|calls| - 1]);
    }
  }

  predicate Names(op: Op, lane: string) {
    (op.PauseLane? || op.ResumeLane? || op.EnterCooldown?) && op.lane == lane
  }

  lemma EffectKeepsDisabled(s: System, call: Call, i: nat)
    requires i < |s.lanes| && s.lanes[i].state == Disabled && !Names(call.op, s.lanes[i].name)
    requires Effect(s, call).Ok?
    ensures var e := Effect(s, call).value; |e.lanes| == |s.lanes| && e.lanes[i] == s.lanes[i]
  {
  }

  /** Only a call that names a disabled lane can change its row. */
  lemma DisabledLaneUntouched(s: System, call: Call, i: nat)
    requires i < |s.lanes| && s.lanes[i].state == Disabled && !Names(call.op, s.lanes[i].name)
    ensures |After(s, call).lanes| == |s.lanes| && After(s, call).lanes[i] == s.lanes[i]
  {
    hide Effect, Closing;
    if Effect(s, call).Ok? {
      EffectKeepsDisabled(s, call, i);
      ClosingLane(Effect(s, call).value, SyncReason(s, call.op), call);
    }
  }

  // ---------------------------------------------------------------- freezing

  predicate Unfreezes(op: Op) {
    op.Freeze? || op.Thaw? || op.TurnOn? || op.TurnOff?
  }

  /** A freeze and its reason survive every other call. */
  lemma FreezeSurvives(s: System, call: Call)
    requires s.global == Frozen && !Unfreezes(call.op)
    ensures After(s, call).global == Frozen && After(s, call).reason == s.reason && After(s, call).on == s.on
  {
    if Effect(s, call).Ok? {
      ClosingLane(Effect(s, call).value, SyncReason(s, call.op), call);
    }
  }

  ghost predicate Quiet(s: System) {
    forall i :: 0 <= i < |s.lanes| ==> s.lanes[i].state == Paused || s.lanes[i].state == Disabled
  }

  lemma QuietAfter(s: System, call: Call)
    requires s.global == Frozen && Quiet(s) && !Unfreezes(call.op) && !call.op.EnterCooldown?
    ensures Quiet(After(s, call))
  {
    if Effect(s, call).Ok? {
      var e := Effect(s, call).value;
      assert Quiet(e);
      ClosingLane(e, SyncReason(s, call.op), call);
    }
  }

  /** From the freeze on, as long as nobody enters a cooldown, no lane runs. */
  lemma {:induction false} FrozenMeansQuiet(s: System, freeze: Call, calls: seq<Call>)
    requires freeze.op.Freeze?
    requires forall i :: 0 <= i < |calls| ==> !Unfreezes(calls[i].op) && !calls[i].op.EnterCooldown?
    ensures var s' := Run(After(s, freeze), calls);
            s'.global == Frozen && s'.reason == Some(freeze.op.why) && Quiet(s')
  {
    if calls != [] {
      var front := calls[..|calls| - 1];
      FrozenMeansQuiet(s, freeze, front);
      var last := calls[|calls| - 1];
      QuietAfter(Run(After(s, freeze), front), last);
      FreezeSurvives(Run(After(s, freeze), front), last);
    }
  }

  ghost predicate SomeRunning(s: System) {
    exists i :: 0 <= i < |s.lanes| && s.lanes[i].state == Running
  }

  /** A cooldown, already there or written by the call itself, that the call's clocks overtake. */
  ghost predicate CooldownRunsOut(s: System, call: Call) {
    Effect(s, call).Ok? &&
    var e := Effect(s, call).value;
    exists i :: 0 <= i < |e.lanes| &&
      (Due(e.lanes[i], call.statusAt) || (SyncReason(s, call.op).Some? && Due(e.lanes[i], call.syncAt)))
  }

  lemma FrozenEffect(s: System, call: Call)
    requires s.global == Frozen && !SomeRunning(s) && !Unfreezes(call.op) && Effect(s, call).Ok?
    ensures var e := Effect(s, call).value; e.on == s.on && !SomeRunning(e)
  {
  }

  /** What breaks a freeze: a call that neither freezes nor unfreezes turns a frozen
      system without running lanes into one with a running lane exactly when the switch
      is on and a cooldown runs out under it. */
  lemma FrozenLaneRunsIff(s: System, call: Call)
    requires s.global == Frozen && !SomeRunning(s) && !Unfreezes(call.op)
    ensures SomeRunning(After(s, call)) <==> s.on && CooldownRunsOut(s, call)
  {
    hide Effect, Closing;
    if Effect(s, call).Ok? {
      var e := Effect(s, call).value;
      FrozenEffect(s, call);
      var t := After(s, call);
      ClosingLane(e, SyncReason(s, call.op), call);
      if s.on && CooldownRunsOut(s, call) {
        var i :| 0 <= i < |e.lanes| &&
          (Due(e.lanes[i], call.statusAt) || (SyncReason(s, call.op).Some? && Due(e.lanes[i], call.syncAt)));
        assert t.lanes[i].state == Running;
      }
    }
  }

  lemma EnteredCooldown(s: System, enter: Call, i: nat)
    requires s.global == Frozen && s.on && enter.op.EnterCooldown?
    requires i < |s.lanes| && s.lanes[i].name == enter.op.lane
    ensures var s' := After(s, enter);
            && s'.global == Frozen && s'.on && i < |s'.lanes| && s'.lanes[i].name == enter.op.lane
            && (s'.lanes[i].state == Running || Due(s'.lanes[i], enter.at + MaxInt(enter.op.seconds, 0)))
  {
    var e := Effect(s, enter).value;
    assert After(s, enter) == Closing(e, Some(enter.op.why), enter);
    ClosingLane(e, Some(enter.op.why), enter);
  }

  lemma StatusCall(s: System, call: Call)
    requires call.op.Status?
    ensures After(s, call) == StatusOf(s, call.statusAt)
  {
  }

  /** A freeze is meant as an emergency halt, but entering a cooldown is accepted while
      frozen, and the first status after it has run out puts that lane back to work under
      the freeze.  This happens for every such pair of calls while the switch is on. */
  lemma CooldownOutlivesFreeze(s: System, enter: Call, status: Call, i: nat)
    requires s.global == Frozen && s.on && enter.op.EnterCooldown? && status.op.Status?
    requires i < |s.lanes| && s.lanes[i].name == enter.op.lane
    requires status.statusAt >= enter.at + MaxInt(enter.op.seconds, 0)
    ensures var s' := After(After(s, enter), status);
            s'.global == Frozen && i < |s'.lanes| && s'.lanes[i].name == enter.op.lane && s'.lanes[i].state == Running
  {
    EnteredCooldown(s, enter, i);
    var mid := After(s, enter);
    StatusCall(mid, status);
    StatusLane(mid, status.statusAt);
  }

  // ---------------------------------------------------------------- event sourcing

  datatype LaneView = LaneView(name: string, state: LaneState, reason: Option<string>)

  /** All of the state an event log can speak about: everything but the cooldown ends. */
  datatype View = View(on: bool, frozen: Option<string>, lanes: seq<LaneView>)

  ghost function ViewLanes(lanes: seq<Lane>): (r: seq<LaneView>)
    ensures |r| == |lanes| && forall i :: 0 <= i < |lanes| ==> r[i] == LaneView(lanes[i].name, lanes[i].state, lanes[i].reason)
  {
    seq(|lanes|, i requires 0 <= i < |lanes| => LaneView(lanes[i].name, lanes[i].state, lanes[i].reason))
  }

  ghost function ViewOf(s: System): View {
    View(s.on, if s.global == Frozen then s.reason else None, ViewLanes(s.lanes))
  }

  function ReplayEnabled(lanes: seq<LaneView>, state: LaneState, why: string): (r: seq<LaneView>)
    ensures |r| == |lanes|
  {
    seq(|lanes|, i requires 0 <= i < |lanes| =>
      if lanes[i].state == Disabled then lanes[i] else LaneView(lanes[i].name, state, Some(why)))
  }

  function ReplayLane(lanes: seq<LaneView>, name: string, state: LaneState, why: string): (r: seq<LaneView>)
    ensures |r| == |lanes|
  {
    seq(|lanes|, i requires 0 <= i < |lanes| =>
      if lanes[i].name == name then LaneView(name, state, Some(why)) else lanes[i])
  }

  /** What a reader of the log concludes from one event. */
  function ReplayEvent(v: View, e: Event): View {
    match e
    case SystemOn(_) => View(true, None, ReplayEnabled(v.lanes, Running, "system_on"))
    case SystemOff(_) => View(false, None, ReplayEnabled(v.lanes, Paused, "system_off"))
    case SystemFrozen(why) => View(v.on, Some(why), ReplayEnabled(v.lanes, Paused, "frozen"))
    case SystemThawed(global) =>
      View(v.on, None, if global == Starting then ReplayEnabled(v.lanes, Running, "thawed") else v.lanes)
    case LanePaused(lane, why) => v.(lanes := ReplayLane(v.lanes, lane, Paused, why))
    case LaneResumed(lane, why, state) => v.(lanes := ReplayLane(v.lanes, lane, state, why))
    case ProviderDegraded(lane, cls, _) => v.(lanes := ReplayLane(v.lanes, lane, Cooldown, cls))
    case SystemDegraded(_) => v
    case SystemHealthy(_) => v
    case HumanEscalation(_) => v
  }

  function Replay(v: View, events: seq<Event>): View {
    if events == [] then v else ReplayEvent(Replay(v, events[..|events| - 1]), events[|events| - 1])
  }

  lemma ReplayOne(v: View, events: seq<Event>, e: Event)
    ensures Replay(v, events + [e]) == ReplayEvent(Replay(v, events), e)
  {
    assert (events + [e])[..|events|] == events;
  }

  lemma {:induction false} ReplayConcat(v: View, a: seq<Event>, b: seq<Event>)
    ensures Replay(v, a + b) == Replay(Replay(v, a), b)
  {
    if b == [] {
      assert a + b == a;
    } else {
      var front, last := b[..|b| - 1], b[|b| - 1];
      ReplayConcat(v, a, front);
      assert a + b == (a + front) + [last];
      ReplayOne(v, a + front, last);
    }
  }

  /** s' is reached from s by a log extension that replays to it. */
  ghost predicate Sourced(s: System, s': System) {
    && s.log <= s'.log
    && ViewOf(s') == Replay(ViewOf(s), s'.log[|s.log|..])
  }

  lemma SourcedTrans(a: System, b: System, c: System)
    requires Sourced(a, b) && Sourced(b, c)
    ensures Sourced(a, c)
  {
    ReplayConcat(ViewOf(a), b.log[|a.log|..], c.log[|b.log|..]);
    assert c.log[|a.log|..] == b.log[|a.log|..] + c.log[|b.log|..];
  }

  lemma SourcedOne(s: System, s': System, e: Event)
    requires s'.log == s.log + [e] && ViewOf(s') == ReplayEvent(ViewOf(s), e)
    ensures Sourced(s, s')
  {
    assert s'.log[|s.log|..] == [] + [e];
    ReplayOne(ViewOf(s), [], e);
  }

  lemma SourcedNone(s: System, s': System)
    requires s'.log == s.log && ViewOf(s') == ViewOf(s)
    ensures Sourced(s, s')
  {
    assert s'.log[|s.log|..] == [];
  }

  /** One visited lane of the expiry loop, as its event replays it. */
  lemma ExpiredLaneSourced(s: System, n: nat, now: int)
    requires n < |s.lanes| && DistinctNames(s.lanes) && Due(s.lanes[n], now)
    ensures Sourced(ExpireUpTo(s, n, now), ExpireUpTo(s, n + 1, now))
  {
    var p, r := ExpireUpTo(s, n, now), ExpireUpTo(s, n + 1, now);
    var lane := s.lanes[n];
    var e := LaneResumed(lane.name, "cooldown_expired", Resumed(s.on));
    var replayed := ReplayEvent(ViewOf(p), e).lanes;
    forall i | 0 <= i < |s.lanes| ensures replayed[i] == ViewOf(r).lanes[i] {
      assert p.lanes[i].name == s.lanes[i].name;
    }
    assert replayed == ViewOf(r).lanes;
    SourcedOne(p, r, e);
  }

  lemma {:induction false} ExpirySourced(s: System, n: nat, now: int)
    requires n <= |s.lanes| && DistinctNames(s.lanes)
    ensures Sourced(s, ExpireUpTo(s, n, now))
  {
    if n == 0 {
      SourcedNone(s, s);
    } else {
      ExpirySourced(s, n - 1, now);
      if Due(s.lanes[n - 1], now) {
        ExpiredLaneSourced(s, n - 1, now);
        SourcedTrans(s, ExpireUpTo(s, n - 1, now), ExpireUpTo(s, n, now));
      }
    }
  }

  lemma StatusSourced(s: System, now: int)
    requires DistinctNames(s.lanes)
    ensures Sourced(s, StatusOf(s, now))
  {
    var e := Expire(s, now);
    ExpirySourced(s, |s.lanes|, now);
    SourcedNone(e, Reconcile(e));
    SourcedTrans(s, e, Reconcile(e));
  }

  lemma BulkSourced(s: System, call: Call)
    requires call.op.TurnOn? || call.op.TurnOff? || call.op.Freeze? || call.op.Thaw?
    ensures Sourced(s, Effect(s, call).value)
  {
    var s' := Effect(s, call).value;
    var e := s'.log[|s.log|];
    assert ViewOf(s').lanes == ReplayEvent(ViewOf(s), e).lanes;
    SourcedOne(s, s', e);
  }

  lemma LaneCallSourced(s: System, call: Call)
    requires call.op.PauseLane? || call.op.ResumeLane? || call.op.EnterCooldown?
    requires Effect(s, call).Ok?
    ensures Sourced(s, Effect(s, call).value)
  {
    var s' := Effect(s, call).value;
    var e := s'.log[|s.log|];
    assert ViewOf(s').lanes == ReplayEvent(ViewOf(s), e).lanes;
    SourcedOne(s, s', e);
  }

  lemma EffectSourced(s: System, call: Call)
    requires Effect(s, call).Ok?
    ensures Sourced(s, Effect(s, call).value)
  {
    var s' := Effect(s, call).value;
    match call.op
    case PauseLane(_, _) => LaneCallSourced(s, call);
    case ResumeLane(_, _) => LaneCallSourced(s, call);
    case EnterCooldown(_, _, _) => LaneCallSourced(s, call);
    case MarkDegraded(why) => if s' == s { SourcedNone(s, s'); } else { SourcedOne(s, s', SystemDegraded(why)); }
    case MarkHealthy(why) => if s' == s { SourcedNone(s, s'); } else { SourcedOne(s, s', SystemHealthy(why)); }
    case RecordEscalation(why) => SourcedOne(s, s', HumanEscalation(why));
    case Status => SourcedNone(s, s');
    case _ => BulkSourced(s, call);
  }

  lemma CallSourced(s: System, call: Call)
    requires LaneSafe(s)
    ensures Sourced(s, After(s, call))
  {
    if Effect(s, call).Err? {
      SourcedNone(s, s);
    } else {
      var e := Effect(s, call).value;
      EffectSourced(s, call);
      SafeEffect(s, call);
      match SyncReason(s, call.op)
      case None => StatusSourced(e, call.statusAt); SourcedTrans(s, e, After(s, call));
      case Some(why) =>
        var c := StatusOf(e, call.syncAt);
        var c' := if c.global == Degraded && c.reason != Some(why) then c.(reason := Some(why)) else c;
        StatusSourced(e, call.syncAt);
        SourcedNone(c, c');
        SafeStatus(e, call.syncAt);
        StatusSourced(c', call.statusAt);
        SourcedTrans(s, e, c);
        SourcedTrans(s, c, c');
        SourcedTrans(s, c', After(s, call));
    }
  }

  /** Replaying the events of any run over the initial view gives the master switch,
      the freeze with its reason, and every lane's state and reason, including the
      resumes caused by cooldowns running out. */
  lemma {:induction false} LogReplaysToState(s: System, calls: seq<Call>)
    requires LaneSafe(s)
    ensures Sourced(s, Run(s, calls))
  {
    if calls == [] {
      SourcedNone(s, s);
    } else {
      var mid := Run(s, calls[..|calls| - 1]);
      LogReplaysToState(s, calls[..|calls| - 1]);
      LanesStaySafe(s, calls[..|calls| - 1]);
      CallSourced(mid, calls[|calls| - 1]);
      SourcedTrans(s, mid, Run(s, calls));
    }
  }

  /** The global state a view settles to. */
  function SettledGlobal(v: View): (Global, Option<string>) {
    if v.frozen.Some? then (Frozen, v.frozen)
    else if !v.on then (Off, None)
    else match FirstBlockedView(v.lanes)
         case Some(lane) => (Degraded, lane.reason)
         case None => (Healthy, None)
  }

  function FirstBlockedView(lanes: seq<LaneView>): Option<LaneView> {
    if lanes == [] then None
    else if lanes[0].state == Paused || lanes[0].state == Cooldown then Some(lanes[0])
    else FirstBlockedView(lanes[1..])
  }

  lemma {:induction false} FirstBlockedViewed(lanes: seq<Lane>)
    ensures FirstBlockedView(ViewLanes(lanes)) ==
            match FirstBlocked(lanes) case None => None case Some(l) => Some(LaneView(l.name, l.state, l.reason))
  {
    if lanes != [] && !Blocked(lanes[0]) {
      FirstBlockedViewed(lanes[1..]);
      assert ViewLanes(lanes)[1..] == ViewLanes(lanes[1..]);
    }
  }

  /** A freeze always carries a reason. */
  ghost predicate WellFormed(s: System) {
    LaneSafe(s) && Settled(s) && (s.global == Frozen ==> s.reason.Some?)
  }

  lemma SettledIsAFunctionOfView(s: System)
    requires Settled(s) && (s.global == Frozen ==> s.reason.Some?)
    ensures (s.global, s.reason) == SettledGlobal(ViewOf(s))
  {
    FirstBlockedViewed(s.lanes);
    if s.global == Degraded {
      var i :| 0 <= i < |s.lanes| && Blocked(s.lanes[i]) && s.reason == s.lanes[i].reason &&
               forall k :: 0 <= k < i ==> !Blocked(s.lanes[k]);
      var f := FirstBlocked(s.lanes);
      var m :| 0 <= m < |s.lanes| && s.lanes[m] == f.value && Blocked(s.lanes[m]) &&
               forall k :: 0 <= k < m ==> !Blocked(s.lanes[k]);
      assert m == i;
    }
  }

  lemma {:induction false} RunWellFormed(s: System, calls: seq<Call>)
    requires WellFormed(s)
    ensures WellFormed(Run(s, calls))
  {
    if calls != [] {
      var mid, last := Run(s, calls[..|calls| - 1]), calls[|calls| - 1];
      RunWellFormed(s, calls[..|calls| - 1]);
      SafeAfter(mid, last);
      EveryCallSettles(mid, last);
      FreezeHasReason(mid, last);
    }
  }

  lemma FreezeHasReason(s: System, call: Call)
    requires s.global == Frozen ==> s.reason.Some?
    ensures After(s, call).global == Frozen ==> After(s, call).reason.Some?
  {
    if Effect(s, call).Ok? {
      var e := Effect(s, call).value;
      assert e.global == Frozen ==> e.reason.Some?;
      ClosingLane(e, SyncReason(s, call.op), call);
    }
  }

  /** The master switch, the global state with its reason, and every lane's state and reason are
      a function of the initial view and the event log. */
  lemma StateIsAFunctionOfTheLog(s: System, calls: seq<Call>)
    requires WellFormed(s)
    ensures var s' := Run(s, calls);
            && s.log <= s'.log
            && var v := Replay(ViewOf(s), s'.log[|s.log|..]);
               && (s'.global, s'.reason) == SettledGlobal(v)
               && s'.on == v.on && ViewLanes(s'.lanes) == v.lanes
  {
    LogReplaysToState(s, calls);
    RunWellFormed(s, calls);
    SettledIsAFunctionOfView(Run(s, calls));
  }

  /** Cooldown ends are not: a cooldown entered at two different times leaves the same log and
      different lane rows. */
  lemma CooldownEndsAreNotLogged(why: string, at: int, later: int)
    requires at < later
    ensures var s := System(Healthy, true, None, [Lane("worker", Running, None, None)], []);
            var early := After(s, Call(EnterCooldown("worker", why, 60), at, at, at));
            var late := After(s, Call(EnterCooldown("worker", why, 60), later, later, later));
            early.log == late.log && early.lanes != late.lanes
  {
    EnterExample(why, at);
    EnterExample(why, later);
    var a, b := Lane("worker", Cooldown, Some(why), Some(at + 60)), Lane("worker", Cooldown, Some(why), Some(later + 60));
    assert a != b && [a][0] == a && [b][0] == b;
  }

  lemma EnterExample(why: string, at: int)
    ensures var s := System(Healthy, true, None, [Lane("worker", Running, None, None)], []);
            var s' := After(s, Call(EnterCooldown("worker", why, 60), at, at, at));
            s'.log == [ProviderDegraded("worker", why, 60)] && s'.lanes == [Lane("worker", Cooldown, Some(why), Some(at + 60))]
  {
    var s := System(Healthy, true, None, [Lane("worker", Running, None, None)], []);
    var call := Call(EnterCooldown("worker", why, 60), at, at, at);
    assert HasLane(s.lanes, "worker") by { assert s.lanes[0].name == "worker"; }
    var e := Effect(s, call).value;
    assert e.lanes == [Lane("worker", Cooldown, Some(why), Some(at + 60))];
    NothingDue(e, 1, at);
    var mid := StatusOf(e, at);
    assert mid.lanes == e.lanes && mid.log == e.log;
    var marked := if mid.global == Degraded && mid.reason != Some(why) then mid.(reason := Some(why)) else mid;
    NothingDue(marked, 1, at);
  }
}
