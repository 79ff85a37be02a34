/** The LLM router: a stable healthy-first chain of backends, bounded retries per
    backend, and demotion learned from permanent failures. */
module LLMRouting {
  import opened Prelude

  datatype Outcome = Success(text: string) | Failure(message: string)

  /** What the executors answer during one execute call: by backend and attempt number. */
  type Answers = (string, nat) -> Outcome

  const MAX_TRIES: nat := 3

  const CANDIDATES: seq<string> := ["codex", "claude", "accruvia_client", "command"]

  const TRANSIENT_SIGNALS: seq<string> := [
    "unable to connect", "connection reset", "connection refused", "connection timed out",
    "temporary failure", "service unavailable", "502", "503", "504", "rate limit", "overloaded"]

  // ---------------------------------------------------------------- transient errors

  function LowerChar(c: char): char {
    if 'A' <= c <= 'Z' then 'a' + (c - 'A') else c
  }

  function Lower(s: string): (r: string)
    ensures |r| == |s| && forall i :: 0 <= i < |s| ==> r[i] == LowerChar(s[i])
  {
    seq(|s|, i requires 0 <= i < |s| => LowerChar(s[i]))
  }

  predicate OccursAt(s: string, part: string, i: nat) {
    i + |part| <= |s| && s[i..i + |part|] == part
  }

  predicate Contains(s: string, part: string) {
    exists i: nat :: i <= |s| && OccursAt(s, part, i)
  }

  predicate IsTransient(message: string) {
    exists k :: 0 <= k < |TRANSIENT_SIGNALS| && Contains(Lower(message), TRANSIENT_SIGNALS[k])
  }

  /** One of the eleven signals, in any ASCII case. */
  predicate IsSignal(text: string) {
    Lower(text) in
      ["unable to connect", "connection reset", "connection refused", "connection timed out", "temporary failure",
       "service unavailable", "502", "503", "504", "rate limit", "overloaded"]
  }

  lemma LowerSlice(s: string, i: nat, j: nat)
    requires i <= j <= |s|
    ensures Lower(s[i..j]) == Lower(s)[i..j]
  {
  }

  lemma SignalsListed(text: string)
    ensures IsSignal(text) <==> Lower(text) in TRANSIENT_SIGNALS
  {
    hide Lower;
  }

  /** A failure is transient exactly when its message contains a signal. */
  lemma TransientIff(message: string)
    ensures IsTransient(message) <==> exists i, j :: 0 <= i <= j <= |message| && IsSignal(message[i..j])
  {
    hide IsSignal, Lower;
    if IsTransient(message) {
      var k :| 0 <= k < |TRANSIENT_SIGNALS| && Contains(Lower(message), TRANSIENT_SIGNALS[k]);
      ContainedSignal(message, TRANSIENT_SIGNALS[k]);
    }
    if i, j :| 0 <= i <= j <= |message| && IsSignal(message[i..j]) {
      SignalsListed(message[i..j]);
      LowerSlice(message, i, j);
      var k :| 0 <= k < |TRANSIENT_SIGNALS| && TRANSIENT_SIGNALS[k] == Lower(message[i..j]);
      assert OccursAt(Lower(message), TRANSIENT_SIGNALS[k], i);
      assert Contains(Lower(message), TRANSIENT_SIGNALS[k]);
    }
  }

  lemma ContainedSignal(message: string, signal: string)
    requires Contains(Lower(message), signal) && signal in TRANSIENT_SIGNALS
    ensures exists i, j :: 0 <= i <= j <= |message| && IsSignal(message[i..j])
  {
    hide IsSignal, Lower;
    var i: nat :| i <= |Lower(message)| && OccursAt(Lower(message), signal, i);
    var j := i + |signal|;
    LowerSlice(message, i, j);
    SignalsListed(message[i..j]);
  }

  // ---------------------------------------------------------------- the chain

  /** In s, an occurrence of a precedes an occurrence of b. */
  ghost predicate Before(s: seq<string>, a: string, b: string) {
    exists i, k :: 0 <= i < k < |s| && s[i] == a && s[k] == b
  }

  /** The preference order: the selected backend first, then the configured candidates. */
  ghost predicate IsPreference(order: seq<string>, selected: string, executors: set<string>) {
    && NoRepeats(order)
    && (forall b :: b in order <==> b in executors && (b == selected || b in CANDIDATES))
    && (selected in executors ==> order != [] && order[0] == selected)
    && (forall i, k :: 0 <= i < k < |CANDIDATES| && CANDIDATES[i] in order && CANDIDATES[k] in order &&
                       CANDIDATES[i] != selected && CANDIDATES[k] != selected ==>
          Before(order, CANDIDATES[i], CANDIDATES[k]))
  }

  /** A healthy-first rearrangement that keeps the preference order inside each half. */
  ghost predicate IsStablePartition(chain: seq<string>, order: seq<string>, demoted: set<string>) {
    && |chain| == |order| && NoRepeats(chain)
    && (forall b :: b in chain <==> b in order)
    && (forall i, k :: 0 <= i < k < |chain| && chain[i] in demoted ==> chain[k] in demoted)
    && (forall i, k :: 0 <= i < k < |chain| && (chain[i] in demoted <==> chain[k] in demoted) ==>
          Before(order, chain[i], chain[k]))
  }

  function Healthy(order: seq<string>, demoted: set<string>): (r: seq<string>) {
    if order == [] then []
    else
      var front := Healthy(order[..|order| - 1], demoted);
      var last := order[|order| - 1];
      if last in demoted then front else front + [last]
  }

  function Demoted(order: seq<string>, demoted: set<string>): (r: seq<string>) {
    if order == [] then []
    else
      var front := Demoted(order[..|order| - 1], demoted);
      var last := order[|order| - 1];
      if last in demoted then front + [last] else front
  }

  function Chain(order: seq<string>, demoted: set<string>): seq<string> {
    Healthy(order, demoted) + Demoted(order, demoted)
  }

  lemma BeforeAppend(s: seq<string>, x: string, a: string, b: string)
    ensures Before(s, a, b) ==> Before(s + [x], a, b)
    ensures a in s && b == x ==> Before(s + [x], a, b)
  {
    if Before(s, a, b) {
      var i, k :| 0 <= i < k < |s| && s[i] == a && s[k] == b;
      assert (s + [x])[i] == a && (s + [x])[k] == b;
    }
    if a in s && b == x {
      var i :| 0 <= i < |s| && s[i] == a;
      assert (s + [x])[i] == a && (s + [x])[|s|] == b;
    }
  }

  /** One half of the partition: a duplicate-free selection in preference order. */
  ghost predicate IsHalf(half: seq<string>, order: seq<string>, demoted: set<string>, down: bool) {
    && NoRepeats(half)
    && (forall b :: b in half <==> b in order && (b in demoted <==> down))
    && (forall i, k :: 0 <= i < k < |half| ==> Before(order, half[i], half[k]))
  }

  lemma {:induction false} HalvesAre(order: seq<string>, demoted: set<string>)
    requires NoRepeats(order)
    ensures IsHalf(Healthy(order, demoted), order, demoted, false)
    ensures IsHalf(Demoted(order, demoted), order, demoted, true)
    ensures |Healthy(order, demoted)| + |Demoted(order, demoted)| == |order|
  {
    if order != [] {
      var front, last := order[..|order| - 1], order[|order| - 1];
      HalvesAre(front, demoted);
      assert order == front + [last] && last !in front;
      HalfGrows(Healthy(front, demoted), front, demoted, false, last);
      HalfGrows(Demoted(front, demoted), front, demoted, true, last);
    }
  }

  lemma HalfGrows(half: seq<string>, front: seq<string>, demoted: set<string>, down: bool, last: string)
    requires IsHalf(half, front, demoted, down) && last !in front
    ensures IsHalf(if last in demoted <==> down then half + [last] else half, front + [last], demoted, down)
  {
    forall a, b ensures Before(front, a, b) ==> Before(front + [last], a, b)
                ensures a in front && b == last ==> Before(front + [last], a, b)
    {
      BeforeAppend(front, last, a, b);
    }
    assert forall i :: 0 <= i < |half| ==> half[i] in half && half[i] in front;
  }

  /** The chain is a duplicate-free permutation of the configured backends, healthy
      before demoted, in preference order inside each half. */
  lemma ChainIsStablePartition(order: seq<string>, demoted: set<string>)
    requires NoRepeats(order)
    ensures IsStablePartition(Chain(order, demoted), order, demoted)
  {
    HalvesAre(order, demoted);
    var up, down := Healthy(order, demoted), Demoted(order, demoted);
    assert forall i :: 0 <= i < |up| ==> up[i] in up;
    assert forall i :: 0 <= i < |down| ==> down[i] in down;
  }

  lemma BeforeIsAsymmetric(order: seq<string>, x: string, y: string)
    requires NoRepeats(order) && Before(order, x, y)
    ensures !Before(order, y, x)
  {
  }

  /** After the same start, what one partition puts next comes no later in any other. */
  lemma NextComesLater(a: seq<string>, b: seq<string>, order: seq<string>, demoted: set<string>, n: nat) returns (i: nat)
    requires n < |order|
    requires IsStablePartition(a, order, demoted) && IsStablePartition(b, order, demoted)
    requires a[..n] == b[..n]
    ensures n <= i < |b| && b[i] == a[n]
  {
    assert a[n] in order && a[n] in b;
    i :| 0 <= i < |b| && b[i] == a[n];
    assert forall j :: 0 <= j < n ==> b[j] == a[j] by {
      forall j | 0 <= j < n ensures b[j] == a[j] { assert a[..n][j] == b[..n][j]; }
    }
  }

  lemma OrderedInHalf(chain: seq<string>, order: seq<string>, demoted: set<string>, n: nat, i: nat)
    requires IsStablePartition(chain, order, demoted) && n <= i < |chain|
    ensures chain[n] in demoted ==> chain[i] in demoted
    ensures (chain[n] in demoted <==> chain[i] in demoted) ==> n == i || Before(order, chain[n], chain[i])
  {
  }

  lemma NextAgrees(a: seq<string>, b: seq<string>, order: seq<string>, demoted: set<string>, n: nat)
    requires NoRepeats(order) && n < |order|
    requires IsStablePartition(a, order, demoted) && IsStablePartition(b, order, demoted)
    requires a[..n] == b[..n]
    ensures a[n] == b[n]
  {
    var x, y := a[n], b[n];
    var i := NextComesLater(a, b, order, demoted, n);
    var k := NextComesLater(b, a, order, demoted, n);
    hide NoRepeats, Before;
    OrderedInHalf(a, order, demoted, n, k);
    OrderedInHalf(b, order, demoted, n, i);
    if Before(order, x, y) { BeforeIsAsymmetric(order, x, y); }
  }

  /** Those laws leave no freedom: a stable partition is the chain. */
  lemma {:induction false} StablePartitionIsUnique(a: seq<string>, b: seq<string>, order: seq<string>, demoted: set<string>, n: nat)
    requires NoRepeats(order) && n <= |order|
    requires IsStablePartition(a, order, demoted) && IsStablePartition(b, order, demoted)
    ensures a[..n] == b[..n]
  {
    if n > 0 {
      StablePartitionIsUnique(a, b, order, demoted, n - 1);
      NextAgrees(a, b, order, demoted, n - 1);
      assert a[..n] == a[..n - 1] + [a[n - 1]] && b[..n] == b[..n - 1] + [b[n - 1]];
    }
  }

  // ---------------------------------------------------------------- one execute call

  /** The attempt failed in a way worth repeating. */
  predicate RetryWorthy(answers: Answers, backend: string, attempt: nat) {
    var o := answers(backend, attempt);
    o.Failure? && IsTransient(o.message)
  }

  /** How many times a backend is called: transient failures are repeated, up to three tries. */
  function Tries(answers: Answers, backend: string): (n: nat)
    ensures 1 <= n <= MAX_TRIES
    ensures forall a :: 1 <= a < n ==> RetryWorthy(answers, backend, a)
    ensures n < MAX_TRIES ==> !RetryWorthy(answers, backend, n)
  {
    if !RetryWorthy(answers, backend, 1) then 1
    else if !RetryWorthy(answers, backend, 2) then 2
    else 3
  }

  function LastAnswer(answers: Answers, backend: string): Outcome {
    answers(backend, Tries(answers, backend))
  }

  predicate Succeeds(answers: Answers, backend: string) {
    LastAnswer(answers, backend).Success?
  }

  predicate FailsPermanently(answers: Answers, backend: string) {
    LastAnswer(answers, backend).Failure? && !IsTransient(LastAnswer(answers, backend).message)
  }

  /** The first backend of the chain that succeeds, or the chain's length. */
  function Winner(answers: Answers, chain: seq<string>): (w: nat)
    ensures w <= |chain|
    ensures forall k :: 0 <= k < w ==> !Succeeds(answers, chain[k])
    ensures w < |chain| ==> Succeeds(answers, chain[w])
  {
    if chain == [] then 0
    else if Succeeds(answers, chain[0]) then 0
    else 1 + Winner(answers, chain[1..])
  }

  /** Failing invocations of one execute call. */
  function FailedCalls(answers: Answers, chain: seq<string>): nat {
    if chain == [] then 0
    else if Succeeds(answers, chain[0]) then Tries(answers, chain[0]) - 1
    else Tries(answers, chain[0]) + FailedCalls(answers, chain[1..])
  }

  /** The permanent failures among the first n backends. */
  function Learned(answers: Answers, chain: seq<string>, n: nat): set<string>
    requires n <= |chain|
  {
    set k | 0 <= k < n && FailsPermanently(answers, chain[k]) :: chain[k]
  }

  function DemotedAfter(answers: Answers, chain: seq<string>, demoted: set<string>): set<string> {
    var w := Winner(answers, chain);
    (demoted + Learned(answers, chain, w)) - (if w < |chain| then {chain[w]} else {})
  }

  class LLMRouter {
    const backend: string
    const executors: set<string>
    var demoted: set<string>

    constructor (backend: string, executors: set<string>)
      ensures this.backend == backend && this.executors == executors && demoted == {}
    {
      this.backend, this.executors, this.demoted := backend, executors, {};
    }

    /** A backend some chain of this router may call: a configured candidate, or the one it was set to. */
    predicate Usable(b: string) {
      b in executors && (b in CANDIDATES || (b == backend && backend != "auto"))
    }

    /** The backend that "auto" stands for: under GitHub Actions the client, then the command, if
        configured; in all other cases the first configured candidate. */
    ghost predicate AutoChoice(githubActions: bool, b: string) {
      b in executors &&
      if githubActions && "accruvia_client" in executors then b == "accruvia_client"
      else if githubActions && "command" in executors then b == "command"
      else exists k :: 0 <= k < |CANDIDATES| && b == CANDIDATES[k] && forall i :: 0 <= i < k ==> CANDIDATES[i] !in executors
    }

    /** The order in which usable backends are preferred: the selected one first, if usable, then the
        candidates. */
    ghost predicate PreferredOrder(githubActions: bool, order: seq<string>) {
      exists selected: string ::
        (if backend == "auto" then AutoChoice(githubActions, selected) else selected == backend) &&
        IsPreference(order, selected, executors)
    }

    method AutoBackend(githubActions: bool) returns (r: Result<string>)
      ensures r.Err? <==> forall c :: c in CANDIDATES ==> c !in executors
      ensures r.Ok? ==> AutoChoice(githubActions, r.value) && r.value in CANDIDATES
    {
      if githubActions {
        if "accruvia_client" in executors { assert CANDIDATES[2] in CANDIDATES; return Ok("accruvia_client"); }
        if "command" in executors { assert CANDIDATES[3] in CANDIDATES; return Ok("command"); }
      }
      for k := 0 to |CANDIDATES|
        invariant forall i :: 0 <= i < k ==> CANDIDATES[i] !in executors
      {
        if CANDIDATES[k] in executors { return Ok(CANDIDATES[k]); }
      }
      r := Err("No LLM executors are configured for ACCRUVIA_LLM_BACKEND=auto");
    }

    /** The selected backend, then the configured candidates not yet listed. */
    method Preferred(selected: string) returns (ordered: seq<string>)
      ensures IsPreference(ordered, selected, executors)
    {
      ordered := if selected in executors then [selected] else [];
      for k := 0 to |CANDIDATES|
        invariant NoRepeats(ordered)
        invariant forall b :: b in ordered <==> b in executors && (b == selected || b in CANDIDATES[..k])
        invariant selected in executors ==> ordered != [] && ordered[0] == selected
        invariant forall i, j ::
                    (0 <= i < j < k && CANDIDATES[i] in ordered && CANDIDATES[j] in ordered &&
                     CANDIDATES[i] != selected && CANDIDATES[j] != selected) ==>
                      Before(ordered, CANDIDATES[i], CANDIDATES[j])
      {
        var candidate := CANDIDATES[k];
        assert CANDIDATES[..k + 1] == CANDIDATES[..k] + [candidate];
        forall a, b ensures Before(ordered, a, b) ==> Before(ordered + [candidate], a, b)
                    ensures a in ordered && b == candidate ==> Before(ordered + [candidate], a, b)
        {
          BeforeAppend(ordered, candidate, a, b);
        }
        if candidate in executors && candidate !in ordered {
          ordered := ordered + [candidate];
        }
      }
      assert CANDIDATES[..|CANDIDATES|] == CANDIDATES;
    }

    method ResolveChain(githubActions: bool) returns (r: Result<seq<string>>, ghost order: seq<string>)
      ensures r.Err? <==> forall b :: !Usable(b)
      ensures r.Ok? ==> forall b :: b in order <==> Usable(b)
      ensures r.Ok? ==> r.value == Chain(order, demoted) && r.value != [] && order != []
      ensures r.Ok? ==> PreferredOrder(githubActions, order) && (backend == "auto" ==> AutoChoice(githubActions, order[0]))
    {
      var selected := backend;
      order := [];
      if backend == "auto" {
        var auto := AutoBackend(githubActions);
        if auto.Err? { return Err(auto.message), []; }
        selected := auto.value;
      }
      var ordered := Preferred(selected);
      if ordered == [] {
        assert forall b :: Usable(b) ==> b in ordered;
        return Err("Unsupported LLM backend '" + selected + "'"), [];
      }
      order := ordered;
      HalvesAre(order, demoted);
      assert ordered[0] in ordered && Usable(ordered[0]);
      var chain := Partitioned(ordered);
      r := Ok(chain);
    }

    /** The two comprehensions that move demoted backends to the end. */
    method Partitioned(ordered: seq<string>) returns (chain: seq<string>)
      ensures chain == Chain(ordered, demoted)
    {
      var healthy, down: seq<string> := [], [];
      for k := 0 to |ordered|
        invariant healthy == Healthy(ordered[..k], demoted) && down == Demoted(ordered[..k], demoted)
      {
        assert ordered[..k + 1][..k] == ordered[..k];
        if ordered[k] in demoted { down := down + [ordered[k]]; } else { healthy := healthy + [ordered[k]]; }
      }
      assert ordered[..|ordered|] == ordered;
      chain := healthy + down;
    }

    /** The retry loop on one backend. */
    method CallBackend(answers: Answers, name: string) returns (outcome: Outcome, attempt: nat)
      ensures attempt == Tries(answers, name) && outcome == LastAnswer(answers, name)
    {
      attempt := 1;
      outcome := answers(name, attempt);
      while outcome.Failure? && IsTransient(outcome.message) && attempt < MAX_TRIES
        invariant 1 <= attempt <= Tries(answers, name) && outcome == answers(name, attempt)
      {
        attempt := attempt + 1;
        outcome := answers(name, attempt);
      }
    }

    /** The loop over an already resolved chain. */
    method ExecuteChain(chain: seq<string>, answers: Answers) returns (r: Result<(string, string)>, failed: nat)
      requires NoRepeats(chain)
      modifies this`demoted
      ensures var w := Winner(answers, chain);
              r == if w < |chain| then Ok((LastAnswer(answers, chain[w]).text, chain[w])) else Err("All configured LLM executors failed.")
      ensures demoted == DemotedAfter(answers, chain, old(demoted))
      ensures failed == FailedCalls(answers, chain)
    {
      hide IsTransient, Winner, FailedCalls, Tries, Learned;
      failed := 0;
      LearnedStep(answers, chain, 0);
      for k := 0 to |chain|
        invariant forall i :: 0 <= i < k ==> !Succeeds(answers, chain[i])
        invariant demoted == old(demoted) + Learned(answers, chain, k)
        invariant failed + FailedCalls(answers, chain[k..]) == FailedCalls(answers, chain)
      {
        LearnedStep(answers, chain, k);
        FailedStep(answers, chain, k);
        var outcome, attempt := CallBackend(answers, chain[k]);
        if outcome.Success? {
          WinnerIs(answers, chain, k);
          demoted := demoted - {chain[k]};
          failed := failed + attempt - 1;
          return Ok((outcome.text, chain[k])), failed;
        }
        failed := failed + attempt;
        if !IsTransient(outcome.message) {
          demoted := demoted + {chain[k]};
        }
      }
      WinnerIs(answers, chain, |chain|);
      FailedStep(answers, chain, |chain|);
      r := Err("All configured LLM executors failed.");
    }

    /** Resolve, then execute. */
    method Execute(githubActions: bool, answers: Answers) returns (r: Result<(string, string)>, failed: nat, ghost order: seq<string>)
      modifies this`demoted
      ensures order == [] <==> forall b :: !Usable(b)
      ensures forall b :: b in order <==> Usable(b)
      ensures order == [] ==> r.Err? && failed == 0 && demoted == old(demoted)
      ensures order != [] ==>
                && NoRepeats(order)
                && PreferredOrder(githubActions, order) && (backend == "auto" ==> AutoChoice(githubActions, order[0]))
                && var chain := Chain(order, old(demoted));
                   var w := Winner(answers, chain);
                   && r == (if w < |chain| then Ok((LastAnswer(answers, chain[w]).text, chain[w]))
                            else Err("All configured LLM executors failed."))
                   && demoted == DemotedAfter(answers, chain, old(demoted))
                   && failed == FailedCalls(answers, chain)
    {
      var resolved;
      resolved, order := ResolveChain(githubActions);
      if resolved.Err? { return Err(resolved.message), 0, []; }
      ChainIsStablePartition(order, demoted);
      assert order != [] by { HalvesAre(order, demoted); }
      r, failed := ExecuteChain(resolved.value, answers);
    }
  }

  lemma {:induction false} WinnerFrom(answers: Answers, chain: seq<string>, k: nat)
    requires k <= |chain| && forall i :: 0 <= i < k ==> !Succeeds(answers, chain[i])
    ensures Winner(answers, chain) == k + Winner(answers, chain[k..])
  {
    if k > 0 {
      WinnerFrom(answers, chain, k - 1);
      assert chain[k - 1..][0] == chain[k - 1] && chain[k - 1..][1..] == chain[k..];
    } else {
      assert chain[0..] == chain;
    }
  }

  lemma WinnerIs(answers: Answers, chain: seq<string>, k: nat)
    requires k <= |chain| && forall i :: 0 <= i < k ==> !Succeeds(answers, chain[i])
    requires k < |chain| ==> Succeeds(answers, chain[k])
    ensures Winner(answers, chain) == k
  {
    WinnerFrom(answers, chain, k);
  }

  /** What one execute call leaves demoted, whether or not any backend succeeded: a backend that was
      demoted before, or failed permanently with none before it succeeding, unless it is the first
      that succeeds. */
  lemma DemotedExactlyWhen(answers: Answers, chain: seq<string>, demoted: set<string>, b: string)
    requires NoRepeats(chain)
    ensures b in DemotedAfter(answers, chain, demoted) <==>
            && (b in demoted || exists k :: 0 <= k < |chain| && chain[k] == b && FailsPermanently(answers, b) && NoneSucceeds(answers, chain, k))
            && !(exists k :: 0 <= k < |chain| && chain[k] == b && Succeeds(answers, b) && NoneSucceeds(answers, chain, k))
  {
    hide FailsPermanently, Succeeds;
    var w := Winner(answers, chain);
    forall k | 0 <= k < |chain| ensures NoneSucceeds(answers, chain, k) <==> k <= w {
      FirstSuccess(answers, chain, k);
    }
    if k :| 0 <= k < |chain| && chain[k] == b && FailsPermanently(answers, b) && NoneSucceeds(answers, chain, k) {
      FailureIsNoSuccess(answers, b);
      assert k < w;
    }
  }

  /** None of the first n backends succeeds. */
  ghost predicate NoneSucceeds(answers: Answers, chain: seq<string>, n: nat)
    requires n <= |chain|
  {
    forall i :: 0 <= i < n ==> !Succeeds(answers, chain[i])
  }

  lemma FirstSuccess(answers: Answers, chain: seq<string>, n: nat)
    requires n < |chain|
    ensures NoneSucceeds(answers, chain, n) <==> n <= Winner(answers, chain)
  {
  }

  lemma FailureIsNoSuccess(answers: Answers, b: string)
    ensures !(FailsPermanently(answers, b) && Succeeds(answers, b))
  {
  }

  lemma LearnedStep(answers: Answers, chain: seq<string>, k: nat)
    requires k <= |chain|
    ensures k == 0 ==> Learned(answers, chain, k) == {}
    ensures k < |chain| ==> Learned(answers, chain, k + 1) ==
                            Learned(answers, chain, k) + (if FailsPermanently(answers, chain[k]) then {chain[k]} else {})
  {
  }

  lemma FailedStep(answers: Answers, chain: seq<string>, k: nat)
    requires k <= |chain|
    ensures FailedCalls(answers, chain[k..]) ==
            if k == |chain| then 0
            else if Succeeds(answers, chain[k]) then Tries(answers, chain[k]) - 1
            else Tries(answers, chain[k]) + FailedCalls(answers, chain[k + 1..])
  {
    if k < |chain| { assert chain[k..][0] == chain[k] && chain[k..][1..] == chain[k + 1..]; }
  }

  // ---------------------------------------------------------------- many execute calls

  /** One execute call: the preference order it resolved to, and what the executors answer. */
  datatype Round = Round(order: seq<string>, answers: Answers)

  /** Failing invocations over a sequence of execute calls on one router. */
  function RunFailed(demoted: set<string>, rounds: seq<Round>): nat
    decreases |rounds|
  {
    if rounds == [] then 0
    else
      var chain := Chain(rounds[0].order, demoted);
      FailedCalls(rounds[0].answers, chain) + RunFailed(DemotedAfter(rounds[0].answers, chain, demoted), rounds[1..])
  }

  /** In this call the good backend answers at once, and every other one, if called, fails for
      good within so many tries. */
  ghost predicate OnlyGood(answers: Answers, order: seq<string>, good: string, tries: nat) {
    forall b :: b in order ==>
      if b == good then answers(b, 1).Success?
      else FailsPermanently(answers, b) && Tries(answers, b) <= tries
  }

  function Elements(s: seq<string>): set<string> {
    set b | b in s
  }

  lemma {:induction false} ElementsSize(s: seq<string>)
    requires NoRepeats(s)
    ensures |Elements(s)| == |s|
  {
    if s != [] {
      var front, last := s[..|s| - 1], s[|s| - 1];
      ElementsSize(front);
      assert Elements(s) == Elements(front) + {last} && last !in Elements(front);
    }
  }

  lemma AnswersAtOnce(answers: Answers, b: string)
    requires answers(b, 1).Success?
    ensures Tries(answers, b) == 1 && Succeeds(answers, b)
  {
  }

  lemma OthersFail(answers: Answers, order: seq<string>, good: string, tries: nat, b: string)
    requires OnlyGood(answers, order, good, tries) && b in order && b != good
    ensures !Succeeds(answers, b) && Tries(answers, b) <= tries
  {
  }

  lemma OneMoreBackend(w: nat, tries: nat)
    ensures w * tries + tries == (w + 1) * tries
  {
  }

  /** One such call: every backend tried before the good one fails within its tries. */
  lemma {:induction false} GoodWins(answers: Answers, chain: seq<string>, good: string, tries: nat)
    requires good in chain && OnlyGood(answers, chain, good, tries)
    ensures var w := Winner(answers, chain);
            w < |chain| && chain[w] == good && FailedCalls(answers, chain) <= w * tries
  {
    hide Tries, IsTransient, Succeeds, FailsPermanently;
    if chain[0] == good {
      AnswersAtOnce(answers, good);
    } else {
      assert good in chain[1..] && chain[0] in chain;
      GoodWins(answers, chain[1..], good, tries);
      OthersFail(answers, chain, good, tries, chain[0]);
      OneMoreBackend(Winner(answers, chain[1..]), tries);
    }
  }

  /** The backends one such call leaves demoted: the old ones and those just tried, never the good one. */
  lemma RoundLearns(answers: Answers, chain: seq<string>, demoted: set<string>, good: string, tries: nat)
    requires NoRepeats(chain) && good in chain && OnlyGood(answers, chain, good, tries)
    ensures var w := Winner(answers, chain);
            && w < |chain| && good !in Elements(chain[..w])
            && DemotedAfter(answers, chain, demoted) == (demoted + Elements(chain[..w])) - {good}
  {
    hide IsTransient, Tries, LastAnswer;
    GoodWins(answers, chain, good, tries);
    var w := Winner(answers, chain);
    forall k | 0 <= k < w ensures FailsPermanently(answers, chain[k]) {
      assert chain[k] in chain && chain[k] != good;
    }
    LearnedAre(answers, chain, w);
  }

  lemma LearnedAre(answers: Answers, chain: seq<string>, w: nat)
    requires w <= |chain| && forall k :: 0 <= k < w ==> FailsPermanently(answers, chain[k])
    ensures Elements(chain[..w]) == set k | 0 <= k < w && FailsPermanently(answers, chain[k]) :: chain[k]
  {
    hide FailsPermanently;
    forall b | b in chain[..w] ensures exists k :: 0 <= k < w && FailsPermanently(answers, chain[k]) && chain[k] == b {
      var k :| 0 <= k < w && chain[..w][k] == b;
      assert FailsPermanently(answers, chain[k]) && chain[k] == b;
    }
    forall k | 0 <= k < w ensures chain[k] in chain[..w] {
      assert chain[..w][k] == chain[k];
    }
  }

  /** Before a healthy good backend only healthy ones are tried. */
  lemma TriedWereHealthy(order: seq<string>, demoted: set<string>, good: string, w: nat)
    requires NoRepeats(order)
    requires var chain := Chain(order, demoted); w < |chain| && chain[w] == good
    requires good !in demoted
    ensures Elements(Chain(order, demoted)[..w]) !! demoted
  {
    ChainIsStablePartition(order, demoted);
    var chain := Chain(order, demoted);
    forall b | b in Elements(chain[..w]) ensures b !in demoted {
      var k :| 0 <= k < w && chain[..w][k] == b;
      assert chain[k] == b;
    }
  }

  /** What one call costs and what it teaches: each failing backend costs at most its tries and
      is one backend less to try while the good one stays healthy. */
  lemma RoundCost(order: seq<string>, demoted: set<string>, answers: Answers, good: string, tries: nat)
    requires NoRepeats(order) && good in order && OnlyGood(answers, order, good, tries)
    ensures var chain := Chain(order, demoted);
            var demoted' := DemotedAfter(answers, chain, demoted);
            var w := Winner(answers, chain);
            && w < |chain| && chain[w] == good && good !in demoted'
            && FailedCalls(answers, chain) <= w * tries
            && w + |Elements(order) - {good} - demoted'| <= |order| - 1
            && (good !in demoted ==> w + |Elements(order) - {good} - demoted'| == |Elements(order) - {good} - demoted|)
  {
    hide Winner, FailedCalls, DemotedAfter, Healthy, Demoted, Before, IsTransient, Tries, FailsPermanently;
    var chain := Chain(order, demoted);
    assert OnlyGood(answers, chain, good, tries) && good in chain && NoRepeats(chain) && Elements(chain) == Elements(order) by {
      ChainIsStablePartition(order, demoted);
    }
    GoodWins(answers, chain, good, tries);
    RoundLearns(answers, chain, demoted, good, tries);
    var w := Winner(answers, chain);
    if good !in demoted { TriedWereHealthy(order, demoted, good, w); }
    TriedAmong(chain, w);
    RoundSizes(order, chain[..w], demoted, good);
  }

  lemma TriedAmong(chain: seq<string>, w: nat)
    requires w < |chain| && NoRepeats(chain)
    ensures NoRepeats(chain[..w]) && Elements(chain[..w]) <= Elements(chain) - {chain[w]}
  {
    forall b | b in chain[..w] ensures b in chain && b != chain[w] {
      var k :| 0 <= k < w && chain[..w][k] == b;
      assert chain[k] == b;
    }
  }

  /** The counting behind it: trying a backend takes it off the open ones for good. */
  lemma RoundSizes(order: seq<string>, tried: seq<string>, demoted: set<string>, good: string)
    requires NoRepeats(order) && NoRepeats(tried) && good in order
    requires Elements(tried) <= Elements(order) - {good}
    ensures var rest := Elements(order) - {good};
            var demoted' := (demoted + Elements(tried)) - {good};
            && |tried| + |rest - demoted'| <= |order| - 1
            && (Elements(tried) !! demoted ==> |tried| + |rest - demoted'| == |rest - demoted|)
  {
    var rest := Elements(order) - {good};
    var demoted' := (demoted + Elements(tried)) - {good};
    ElementsSize(tried);
    ElementsSize(order);
    SplitSize(rest, Elements(tried), rest - demoted');
    if Elements(tried) !! demoted {
      assert rest - demoted == Elements(tried) + (rest - demoted');
    }
  }

  lemma SplitSize(whole: set<string>, a: set<string>, b: set<string>)
    requires a <= whole && b <= whole && a !! b
    ensures |a + b| == |a| + |b| <= |whole|
  {
    assert whole == (a + b) + (whole - (a + b));
  }

  /** Amortised failover: however many calls are made, in whatever preference order each, if one
      backend always answers and the others fail for good within so many tries whenever called,
      each of them costs those tries at most once in all, whatever was demoted at the start. */
  lemma {:induction false} FailoverIsAmortised(backends: set<string>, demoted: set<string>, rounds: seq<Round>, good: string, tries: nat)
    requires good in backends
    requires forall k :: 0 <= k < |rounds| ==> NoRepeats(rounds[k].order) && Elements(rounds[k].order) == backends
    requires forall k :: 0 <= k < |rounds| ==> OnlyGood(rounds[k].answers, rounds[k].order, good, tries)
    ensures RunFailed(demoted, rounds) <= (|backends| - 1) * tries
    ensures good !in demoted ==> RunFailed(demoted, rounds) <= |backends - {good} - demoted| * tries
    decreases |rounds|
  {
    hide Chain, DemotedAfter, FailedCalls, Winner, OnlyGood, NoRepeats;
    if rounds == [] {
      Scale(0, |backends| - 1, tries);
    } else {
      var (order, answers) := (rounds[0].order, rounds[0].answers);
      ElementsSize(order);
      assert good in Elements(order);
      RoundCost(order, demoted, answers, good, tries);
      var chain := Chain(order, demoted);
      var demoted' := DemotedAfter(answers, chain, demoted);
      FailoverIsAmortised(backends, demoted', rounds[1..], good, tries);
      var cost, more := FailedCalls(answers, chain), RunFailed(demoted', rounds[1..]);
      var w, rest := Winner(answers, chain), |backends - {good} - demoted'|;
      Together(cost, more, w, rest, |backends| - 1, tries);
      if good !in demoted { Together(cost, more, w, rest, |backends - {good} - demoted|, tries); }
    }
  }

  lemma Together(cost: nat, more: nat, w: nat, rest: nat, all: nat, tries: nat)
    requires cost <= w * tries && more <= rest * tries && w + rest <= all
    ensures cost + more <= all * tries
  {
    assert w * tries + rest * tries == (w + rest) * tries;
    Scale(w + rest, all, tries);
  }

  lemma Scale(a: nat, b: int, k: nat)
    requires a <= b
    ensures a * k <= b * k
  {
  }

  /** A backend whose failures look transient is never learned about: it is retried three
      times by every call, without bound. */
  lemma {:induction false} TransientFailuresAreNeverLearned(order: seq<string>, rounds: seq<Round>)
    requires NoRepeats(order) && |order| >= 2
    requires forall k :: 0 <= k < |rounds| ==> rounds[k].order == order
    requires forall k, a :: 0 <= k < |rounds| && 1 <= a <= 3 ==> RetryWorthy(rounds[k].answers, order[0], a)
    requires forall k :: 0 <= k < |rounds| ==> rounds[k].answers(order[1], 1).Success?
    ensures RunFailed({}, rounds) == 3 * |rounds|
    decreases |rounds|
  {
    if rounds != [] {
      NoneDemoted(order);
      var answers := rounds[0].answers;
      assert RetryWorthy(answers, order[0], 1) && RetryWorthy(answers, order[0], 2) && RetryWorthy(answers, order[0], 3);
      assert Tries(answers, order[0]) == 3 && !Succeeds(answers, order[0]);
      assert Tries(answers, order[1]) == 1 && Succeeds(answers, order[1]);
      assert order[1..][0] == order[1];
      assert FailedCalls(answers, order[1..]) == 0;
      assert FailedCalls(answers, order) == 3;
      var rest := rounds[1..];
      assert forall k, a :: 0 <= k < |rest| && 1 <= a <= 3 ==> RetryWorthy(rest[k].answers, order[0], a);
      assert Winner(answers, order) == 1 by { WinnerFrom(answers, order, 1); }
      assert DemotedAfter(answers, order, {}) == {};
      TransientFailuresAreNeverLearned(order, rounds[1..]);
    }
  }

  lemma {:induction false} NoneDemoted(order: seq<string>)
    ensures Healthy(order, {}) == order && Demoted(order, {}) == []
    ensures Chain(order, {}) == order
  {
    if order != [] {
      NoneDemoted(order[..|order| - 1]);
      assert order == order[..|order| - 1] + [order[|order| - 1]];
    }
  }
}
