/** The gate that decides whether any LLM backend is reachable: a cached answer, a
    doubling backoff after failed probe rounds, and bounds on how often it probes. */
module AvailabilityGates {
  import opened Prelude

  const FIRST_BACKOFF: real := 30.0

  datatype Settings = Settings(cacheTtl: real, maxBackoff: real)

  datatype Gate = Gate(available: Option<bool>, checkedAt: real, unavailableUntil: real, backoff: real)

  const FRESH_GATE := Gate(None, 0.0, 0.0, FIRST_BACKOFF)

  /** A call at a clock reading, with what a probe round would find then. */
  datatype Call = Call(now: real, reachable: bool)

  /** A probe round that took place. */
  datatype Round = Round(at: real, ok: bool)

  function Min(a: real, b: real): real {
    if a <= b then a else b
  }

  function Max(a: real, b: real): real {
    if a <= b then b else a
  }

  predicate Probes(s: Settings, g: Gate, now: real) {
    now >= g.unavailableUntil && (g.available.None? || now - g.checkedAt >= s.cacheTtl)
  }

  function Answer(s: Settings, g: Gate, c: Call): bool {
    if c.now < g.unavailableUntil then false
    else if Probes(s, g, c.now) then c.reachable
    else g.available.value
  }

  function After(s: Settings, g: Gate, c: Call): Gate {
    if !Probes(s, g, c.now) then g
    else if c.reachable then Gate(Some(true), c.now, g.unavailableUntil, FIRST_BACKOFF)
    else Gate(Some(false), c.now, c.now + g.backoff, Min(g.backoff * 2.0, s.maxBackoff))
  }

  /** How many commands a probe round gets through: up to the first that answers. */
  function Visited(commands: seq<(string, string)>, probe: string -> bool): (n: nat)
    ensures n <= |commands|
    ensures forall i :: 0 <= i < n - 1 ==> !Answers(commands[i], probe)
    ensures n < |commands| ==> n > 0 && Answers(commands[n - 1], probe)
  {
    if commands == [] then 0 else if Answers(commands[0], probe) then 1 else 1 + Visited(commands[1..], probe)
  }

  /** The command is configured and its probe succeeds. */
  predicate Answers(command: (string, string), probe: string -> bool) {
    command.1 != "" && probe(command.1)
  }

  /** The results of probing the first n commands, empty ones skipped: one per name. */
  function Results(commands: seq<(string, string)>, probe: string -> bool, n: nat): (results: map<string, bool>)
    requires n <= |commands|
    ensures forall name :: name in results <==> exists i :: 0 <= i < n && commands[i].0 == name && commands[i].1 != ""
  {
    if n == 0 then map[]
    else
      var (name, command) := commands[n - 1];
      if command == "" then Results(commands, probe, n - 1) else Results(commands, probe, n - 1)[name := probe(command)]
  }

  /** Where commands share a name, the latest one's own answer is recorded. */
  lemma {:induction false} LatestResultWins(commands: seq<(string, string)>, probe: string -> bool, n: nat, i: nat)
    requires i < n <= |commands| && commands[i].1 != ""
    requires forall k :: i < k < n && commands[k].1 != "" ==> commands[k].0 != commands[i].0
    ensures commands[i].0 in Results(commands, probe, n) && Results(commands, probe, n)[commands[i].0] == probe(commands[i].1)
  {
    if i < n - 1 { LatestResultWins(commands, probe, n - 1, i); }
  }

  lemma NoResults(commands: seq<(string, string)>, probe: string -> bool)
    ensures Results(commands, probe, 0) == map[]
  {
  }

  lemma NextResult(commands: seq<(string, string)>, probe: string -> bool, n: nat)
    requires n < |commands|
    ensures Results(commands, probe, n + 1) ==
            if commands[n].1 == "" then Results(commands, probe, n) else Results(commands, probe, n)[commands[n].0 := probe(commands[n].1)]
  {
  }

  lemma {:induction false} VisitedIs(commands: seq<(string, string)>, probe: string -> bool, n: nat)
    requires n <= |commands| && forall i :: 0 <= i < n ==> !Answers(commands[i], probe)
    ensures n == |commands| ==> Visited(commands, probe) == n
    ensures n < |commands| && Answers(commands[n], probe) ==> Visited(commands, probe) == n + 1
  {
    if n > 0 { VisitedIs(commands[1..], probe, n - 1); }
  }

  class LLMAvailabilityGate {
    const settings: Settings
    const commands: seq<(string, string)>
    var gate: Gate
    var probeResults: map<string, bool>

    constructor (settings: Settings, commands: seq<(string, string)>)
      ensures this.settings == settings && this.commands == commands && gate == FRESH_GATE
    {
      this.settings, this.commands := settings, commands;
      gate, probeResults := FRESH_GATE, map[];
    }

    /** Some configured, non-empty command answers its probe. */
    ghost predicate Reachable(probe: string -> bool) {
      exists i :: 0 <= i < |commands| && Answers(commands[i], probe)
    }

    method IsAvailable(now: real, probe: string -> bool) returns (answer: bool)
      modifies this
      ensures answer == Answer(settings, old(gate), Call(now, Reachable(probe)))
      ensures gate == After(settings, old(gate), Call(now, Reachable(probe)))
      ensures Probes(settings, old(gate), now) ==> probeResults == Results(commands, probe, Visited(commands, probe))
      ensures !Probes(settings, old(gate), now) ==> probeResults == old(probeResults)
    {
      hide Visited, Results;
      if now < gate.unavailableUntil { return false; }
      if gate.available.Some? && now - gate.checkedAt < settings.cacheTtl { return gate.available.value; }
      gate := gate.(checkedAt := now);
      probeResults := map[];
      NoResults(commands, probe);
      for i := 0 to |commands|
        invariant gate == old(gate).(checkedAt := now)
        invariant forall k :: 0 <= k < i ==> !Answers(commands[k], probe)
        invariant probeResults == Results(commands, probe, i)
      {
        var (name, command) := commands[i];
        NextResult(commands, probe, i);
        if command == "" { continue; }
        var ok := probe(command);
        probeResults := probeResults[name := ok];
        if ok {
          gate := gate.(available := Some(true), backoff := FIRST_BACKOFF);
          assert Answers(commands[i], probe);
          VisitedIs(commands, probe, i);
          return true;
        }
      }
      VisitedIs(commands, probe, |commands|);
      gate := Gate(Some(false), now, now + gate.backoff, Min(gate.backoff * 2.0, settings.maxBackoff));
      answer := false;
    }

    method Reset()
      modifies this`gate
      ensures gate == FRESH_GATE
    {
      gate := FRESH_GATE;
    }
  }

  // ---------------------------------------------------------------- whole runs, without a reset

  function Run(s: Settings, calls: seq<Call>): Gate {
    if calls == [] then FRESH_GATE else After(s, Run(s, calls[..|calls| - 1]), calls[|calls| - 1])
  }

  /** The probe rounds a run makes, in time order. */
  function Rounds(s: Settings, calls: seq<Call>): seq<Round> {
    if calls == [] then []
    else
      var front := calls[..|calls| - 1];
      var c := calls[|calls| - 1];
      if Probes(s, Run(s, front), c.now) then Rounds(s, front) + [Round(c.now, c.reachable)] else Rounds(s, front)
  }

  function Pow2(k: nat): real {
    if k == 0 then 1.0 else 2.0 * Pow2(k - 1)
  }

  /** The backoff after k failed rounds in a row: 30 * 2^k, capped once it has been doubled. */
  function Backoff(s: Settings, k: nat): real {
    if k == 0 then FIRST_BACKOFF else Min(FIRST_BACKOFF * Pow2(k), s.maxBackoff)
  }

  /** How many rounds at the end failed in a row. */
  function Streak(rounds: seq<Round>): nat {
    if rounds == [] || rounds[|rounds| - 1].ok then 0 else 1 + Streak(rounds[..|rounds| - 1])
  }

  /** Rounds are a cache lifetime apart, and a failed round also waits out its backoff. */
  ghost predicate Spaced(s: Settings, rounds: seq<Round>) {
    forall i :: 0 <= i < |rounds| - 1 ==> Waited(s, rounds, i)
  }

  ghost predicate Waited(s: Settings, rounds: seq<Round>, i: nat)
    requires i + 1 < |rounds|
  {
    var gap := rounds[i + 1].at - rounds[i].at;
    gap >= s.cacheTtl && (!rounds[i].ok ==> gap >= Backoff(s, Streak(rounds[..i])))
  }

  /** How the gate's fields mirror its history. */
  ghost predicate Mirrors(s: Settings, g: Gate, rounds: seq<Round>) {
    && g.backoff == Backoff(s, Streak(rounds))
    && (rounds == [] ==> g == FRESH_GATE)
    && (rounds != [] ==>
          var last := rounds[|rounds| - 1];
          && g.available == Some(last.ok) && g.checkedAt == last.at
          && (last.ok ==> g.unavailableUntil <= last.at)
          && (!last.ok ==> g.unavailableUntil == last.at + Backoff(s, Streak(rounds) - 1)))
  }

  lemma BackoffDoubles(s: Settings, k: nat)
    requires s.maxBackoff >= 0.0
    ensures Backoff(s, 0) == FIRST_BACKOFF
    ensures Backoff(s, k + 1) == Min(Backoff(s, k) * 2.0, s.maxBackoff)
  {
  }

  lemma RoundAppended(s: Settings, g: Gate, rounds: seq<Round>, c: Call)
    requires s.maxBackoff >= 0.0
    requires Mirrors(s, g, rounds) && Spaced(s, rounds) && Probes(s, g, c.now)
    ensures var rounds' := rounds + [Round(c.now, c.reachable)];
            Mirrors(s, After(s, g, c), rounds') && Spaced(s, rounds')
  {
    var rounds' := rounds + [Round(c.now, c.reachable)];
    assert rounds'[..|rounds|] == rounds;
    BackoffDoubles(s, Streak(rounds));
    forall i | 0 <= i < |rounds'| - 1 ensures Waited(s, rounds', i) {
      assert rounds'[..i] == rounds[..i];
      if i < |rounds| - 1 {
        assert Waited(s, rounds, i);
      } else {
        assert rounds[..i + 1] == rounds;
      }
    }
  }

  lemma {:induction false} RunMirrors(s: Settings, calls: seq<Call>)
    requires s.maxBackoff >= 0.0
    ensures Mirrors(s, Run(s, calls), Rounds(s, calls)) && Spaced(s, Rounds(s, calls))
  {
    if calls == [] {
      BackoffDoubles(s, 0);
    } else {
      var front, c := calls[..|calls| - 1], calls[|calls| - 1];
      RunMirrors(s, front);
      if Probes(s, Run(s, front), c.now) {
        RoundAppended(s, Run(s, front), Rounds(s, front), c);
      }
    }
  }

  /** Probe rate: over any run consecutive rounds are at least a cache lifetime apart, and a
      failed round that ends a streak of k failures is followed by at least min(30 * 2^(k-1), max). */
  lemma RoundsAreSpaced(s: Settings, calls: seq<Call>, i: nat)
    requires s.maxBackoff >= 0.0 && i + 1 < |Rounds(s, calls)|
    ensures var r := Rounds(s, calls);
            && r[i + 1].at - r[i].at >= s.cacheTtl
            && (!r[i].ok ==> r[i + 1].at - r[i].at >= Backoff(s, Streak(r[..i])))
  {
    RunMirrors(s, calls);
    assert Waited(s, Rounds(s, calls), i);
  }

  /** After k failed rounds in a row the backoff is min(30 * 2^k, max), or 30 before the first. */
  lemma {:induction false} BackoffFollowsStreak(s: Settings, calls: seq<Call>)
    requires s.maxBackoff >= 0.0
    ensures var k := Streak(Rounds(s, calls));
            Run(s, calls).backoff == if k == 0 then 30.0 else Min(30.0 * Pow2(k), s.maxBackoff)
  {
    RunMirrors(s, calls);
  }

  function WaitSum(s: Settings, k: nat): real {
    if k == 0 then 0.0 else WaitSum(s, k - 1) + Max(s.cacheTtl, Backoff(s, k - 1))
  }

  lemma {:induction false} StreakOfRun(rounds: seq<Round>, j: nat, k: nat)
    requires j + k <= |rounds| && (j == 0 || rounds[j - 1].ok)
    requires forall i :: j <= i < j + k ==> !rounds[i].ok
    ensures Streak(rounds[..j + k]) == k
  {
    if k > 0 {
      StreakOfRun(rounds, j, k - 1);
      assert rounds[..j + k][..j + k - 1] == rounds[..j + k - 1];
    }
  }

  /** A streak of k failed rounds lasts at least the sum of its waits before the next round. */
  lemma {:induction false} StreakTakesTime(s: Settings, calls: seq<Call>, j: nat, k: nat)
    requires s.maxBackoff >= 0.0 && j + k < |Rounds(s, calls)|
    requires j == 0 || Rounds(s, calls)[j - 1].ok
    requires forall i :: j <= i < j + k ==> !Rounds(s, calls)[i].ok
    ensures Rounds(s, calls)[j + k].at - Rounds(s, calls)[j].at >= WaitSum(s, k)
  {
    if k > 0 {
      StreakTakesTime(s, calls, j, k - 1);
      StreakOfRun(Rounds(s, calls), j, k - 1);
      RoundsAreSpaced(s, calls, j + k - 1);
    }
  }

  /** A positive answer is never stale: the latest round succeeded, and it is happening now or
      less than a cache lifetime ago. */
  lemma {:induction false} PositiveAnswersAreFresh(s: Settings, calls: seq<Call>, c: Call)
    requires s.maxBackoff >= 0.0 && Answer(s, Run(s, calls), c)
    ensures var r := Rounds(s, calls + [c]);
            r != [] && r[|r| - 1].ok && (r[|r| - 1].at == c.now || c.now - r[|r| - 1].at < s.cacheTtl)
  {
    RunMirrors(s, calls);
    assert (calls + [c])[..|calls|] == calls;
  }

  /** A probe round is due: there has been none yet, or the latest is a cache lifetime old and, if it
      failed, its backoff is over as well. */
  ghost predicate RoundDue(s: Settings, rounds: seq<Round>, now: real) {
    if rounds == [] then now >= 0.0
    else
      var last := rounds[|rounds| - 1];
      now - last.at >= s.cacheTtl && (!last.ok ==> now - last.at >= Backoff(s, Streak(rounds) - 1))
  }

  /** The gate probes whenever a round is due, and never otherwise; and its answer is that of the
      round made now or, when none is due, that of the latest round. */
  lemma ProbesExactlyWhenDue(s: Settings, calls: seq<Call>, c: Call)
    requires s.maxBackoff >= 0.0
    requires var r := Rounds(s, calls); r != [] ==> c.now >= r[|r| - 1].at
    ensures var r := Rounds(s, calls);
            && Rounds(s, calls + [c]) == (if RoundDue(s, r, c.now) then r + [Round(c.now, c.reachable)] else r)
            && (Answer(s, Run(s, calls), c) <==>
                if RoundDue(s, r, c.now) then c.reachable else r != [] && r[|r| - 1].ok)
  {
    hide Run, Rounds, Backoff, Streak, Spaced;
    RunMirrors(s, calls);
    OneMoreCall(s, calls, c);
    GateKnowsWhenDue(s, Run(s, calls), Rounds(s, calls), c);
  }

  lemma OneMoreCall(s: Settings, calls: seq<Call>, c: Call)
    ensures Rounds(s, calls + [c]) ==
            if Probes(s, Run(s, calls), c.now) then Rounds(s, calls) + [Round(c.now, c.reachable)] else Rounds(s, calls)
  {
    assert (calls + [c])[..|calls|] == calls;
  }

  lemma GateKnowsWhenDue(s: Settings, g: Gate, rounds: seq<Round>, c: Call)
    requires Mirrors(s, g, rounds) && (rounds != [] ==> c.now >= rounds[|rounds| - 1].at)
    ensures Probes(s, g, c.now) <==> RoundDue(s, rounds, c.now)
    ensures Answer(s, g, c) <==> if RoundDue(s, rounds, c.now) then c.reachable else rounds != [] && rounds[|rounds| - 1].ok
  {
    hide Backoff, Streak;
  }

  /** A negative answer inside a backoff window costs no probe and changes nothing. */
  lemma {:induction false} BackoffIsQuiet(s: Settings, calls: seq<Call>, more: seq<Call>)
    requires forall i :: 0 <= i < |more| ==> more[i].now < Run(s, calls).unavailableUntil
    ensures Run(s, calls + more) == Run(s, calls) && Rounds(s, calls + more) == Rounds(s, calls)
  {
    if more == [] {
      assert calls + more == calls;
    } else {
      var front := more[..|more| - 1];
      BackoffIsQuiet(s, calls, front);
      assert (calls + more)[..|calls + more| - 1] == calls + front;
    }
  }

  // ---------------------------------------------------------------- whole runs, with resets

  datatype Op = Ask(call: Call) | ForceProbe

  function RunOps(s: Settings, ops: seq<Op>): Gate {
    if ops == [] then FRESH_GATE
    else match ops[|ops| - 1]
         case Ask(c) => After(s, RunOps(s, ops[..|ops| - 1]), c)
         case ForceProbe => FRESH_GATE
  }

  function RoundsOps(s: Settings, ops: seq<Op>): seq<Round> {
    if ops == [] then []
    else
      var front := ops[..|ops| - 1];
      match ops[|ops| - 1]
      case Ask(c) => if Probes(s, RunOps(s, front), c.now) then RoundsOps(s, front) + [Round(c.now, c.reachable)] else RoundsOps(s, front)
      case ForceProbe => RoundsOps(s, front)
  }

  function Asks(calls: seq<Call>): (ops: seq<Op>)
    ensures |ops| == |calls| && forall i :: 0 <= i < |ops| ==> ops[i] == Ask(calls[i])
  {
    seq(|calls|, i requires 0 <= i < |calls| => Ask(calls[i]))
  }

  /** A reset starts a run of its own: from then on the gate and its probe rounds are those of a
      new gate, so every law of runs without a reset holds between one reset and the next. */
  lemma {:induction false} ResetStartsAfresh(s: Settings, before: seq<Op>, calls: seq<Call>)
    ensures RunOps(s, before + [ForceProbe] + Asks(calls)) == Run(s, calls)
    ensures RoundsOps(s, before + [ForceProbe] + Asks(calls)) == RoundsOps(s, before) + Rounds(s, calls)
  {
    var ops := before + [ForceProbe] + Asks(calls);
    if calls == [] {
      assert ops == before + [ForceProbe] && ops[..|ops| - 1] == before;
    } else {
      var front := calls[..|calls| - 1];
      ResetStartsAfresh(s, before, front);
      assert ops[..|ops| - 1] == before + [ForceProbe] + Asks(front);
    }
  }

  /** What a reset gives up is the spacing across it: the next call probes, whatever the backoff
      and the cache were, at any time that is not negative. */
  lemma ResetProbesAtOnce(s: Settings, before: seq<Op>, c: Call)
    ensures RoundsOps(s, before + [ForceProbe, Ask(c)]) ==
            RoundsOps(s, before) + (if c.now >= 0.0 then [Round(c.now, c.reachable)] else [])
  {
    ResetStartsAfresh(s, before, [c]);
    assert before + [ForceProbe] + Asks([c]) == before + [ForceProbe, Ask(c)];
    assert [c][..0] == [];
    assert Run(s, []) == FRESH_GATE && Rounds(s, []) == [];
  }

  /** What the gate remembers is the latest round, unless a reset made it forget. */
  ghost predicate Remembers(g: Gate, rounds: seq<Round>) {
    g.available.Some? ==>
      rounds != [] && g.available == Some(rounds[|rounds| - 1].ok) && g.checkedAt == rounds[|rounds| - 1].at
  }

  lemma {:induction false} RunRemembers(s: Settings, ops: seq<Op>)
    ensures Remembers(RunOps(s, ops), RoundsOps(s, ops))
  {
    if ops != [] { RunRemembers(s, ops[..|ops| - 1]); }
  }

  /** Freshness survives resets: over any run, resets included, a positive answer means that the
      latest round succeeded, now or less than a cache lifetime ago. */
  lemma PositiveAnswersStayFresh(s: Settings, ops: seq<Op>, c: Call)
    requires Answer(s, RunOps(s, ops), c)
    ensures var r := RoundsOps(s, ops + [Ask(c)]);
            r != [] && r[|r| - 1].ok && (r[|r| - 1].at == c.now || c.now - r[|r| - 1].at < s.cacheTtl)
  {
    RunRemembers(s, ops);
    assert (ops + [Ask(c)])[..|ops|] == ops;
  }
}
