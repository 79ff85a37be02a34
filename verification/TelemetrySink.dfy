/** The telemetry sink: the calls that walk through the protocol's micro-steps,
    the reader that deduplicates, and the folds behind the summary.

    Each writing method returns, as a ghost value, the micro-steps it took, so
    a crash between any two of its disk writes is a prefix of those steps
    followed by a crash, which TelemetryProtocol covers. */
module TelemetrySinks {
  import opened Prelude
  import opened TelemetryProtocol

  const COST_METRICS: set<string> := {"llm_cost_usd", "llm_prompt_tokens", "llm_completion_tokens", "llm_total_tokens"}

  datatype Summary = Summary(
    lastSequence: int,
    lastMaterializedSequence: int,
    journalBacklog: int,
    metricTotals: map<string, real>,
    metricAverages: map<string, real>,
    costTotals: map<string, real>,
    spanCounts: map<string, nat>,
    spanAverageMs: map<string, real>)

  ghost function Sum(s: seq<real>): real {
    if s == [] then 0.0 else Sum(s[..|s| - 1]) + s[|s| - 1]
  }

  /** The values recorded under a metric name, in order. */
  ghost function MetricValues(records: seq<Stored>, name: string): seq<real> {
    if records == [] then []
    else
      var front := MetricValues(records[..|records| - 1], name);
      var p := records[|records| - 1].payload;
      if p.name == name then front + [p.value] else front
  }

  /** The durations recorded under a span name, in order; spans without one have none. */
  ghost function SpanDurations(records: seq<Stored>, name: string): seq<real> {
    if records == [] then []
    else
      var front := SpanDurations(records[..|records| - 1], name);
      var p := records[|records| - 1].payload;
      if p.name == name && p.durationMs.Some? then front + [p.durationMs.value] else front
  }

  ghost function CountNamed(records: seq<Stored>, name: string): nat {
    if records == [] then 0
    else CountNamed(records[..|records| - 1], name) + (if records[|records| - 1].payload.name == name then 1 else 0)
  }

  ghost predicate Named(records: seq<Stored>, name: string) {
    exists i :: 0 <= i < |records| && records[i].payload.name == name
  }

  ghost function Average(s: seq<real>): real
    requires s != []
  {
    Sum(s) / |s| as real
  }

  /** The four cost totals, keyed by the metric name without its "llm_" prefix. */
  ghost predicate CostsTotalled(costs: map<string, real>, records: seq<Stored>) {
    && costs.Keys == {"cost_usd", "prompt_tokens", "completion_tokens", "total_tokens"}
    && costs["cost_usd"] == Sum(MetricValues(records, "llm_cost_usd"))
    && costs["prompt_tokens"] == Sum(MetricValues(records, "llm_prompt_tokens"))
    && costs["completion_tokens"] == Sum(MetricValues(records, "llm_completion_tokens"))
    && costs["total_tokens"] == Sum(MetricValues(records, "llm_total_tokens"))
  }

  /** What the summary must say about the metric records: a total and an average for
      exactly the names that occur, and the cost totals. */
  ghost predicate MetricsSummarized(totals: map<string, real>, averages: map<string, real>,
                                    costs: map<string, real>, records: seq<Stored>)
  {
    && (forall name :: name in totals <==> Named(records, name))
    && (forall name :: name in totals ==> totals[name] == Sum(MetricValues(records, name)))
    && averages.Keys == totals.Keys
    && (forall name :: name in averages ==>
          MetricValues(records, name) != [] && averages[name] == Average(MetricValues(records, name)))
    && CostsTotalled(costs, records)
  }

  /** A count for exactly the span names that occur, an average for those with a duration. */
  ghost predicate SpansSummarized(counts: map<string, nat>, averages: map<string, real>, records: seq<Stored>) {
    && (forall name :: name in counts <==> Named(records, name))
    && (forall name :: name in counts ==> counts[name] == CountNamed(records, name))
    && (forall name :: name in averages <==> SpanDurations(records, name) != [])
    && (forall name :: name in averages ==>
          SpanDurations(records, name) != [] && averages[name] == Average(SpanDurations(records, name)))
  }

  class TelemetrySink {
    var journal: File<Envelope>
    var metrics: File<Stored>
    var spans: File<Stored>
    var warnings: File<Stored>
    var state: StateFile

    ghost function OnDisk(): Disk
      reads this
    {
      Disk(journal, metrics, spans, warnings, state)
    }

    ghost predicate Ready()
      reads this
    {
      Inv(Machine(OnDisk(), Idle))
    }

    /** Opening a sink on whatever a crash left behind recovers it. */
    constructor (d: Disk)
      requires Inv(Machine(d, Down))
      ensures Ready() && Entries(OnDisk()) == Entries(d)
      ensures LoadedMark(state).lastSequence == MaxInt(LoadedMark(d.state).lastSequence, Newest(Entries(d)))
    {
      journal, metrics, spans, warnings, state := d.journal, d.metrics, d.spans, d.warnings, d.state;
      new;
      ghost var steps := RecoverFromJournal(Down);
    }

    method LoadState() returns (mark: Watermark)
      ensures mark == LoadedMark(state)
    {
      match state
      case Saved(m) => mark := m;
      case _ => mark := Watermark(0, 0);
    }

    method MaterializeEnvelope(e: Envelope)
      modifies this
      ensures OnDisk() == Materialized(old(OnDisk()), e)
    {
      var line := Stored(e.payload, e.recordId, e.sequence);
      match e.channel
      case Metric => metrics := AppendLine(metrics, line);
      case Span => spans := AppendLine(spans, line);
      case Warning => warnings := AppendLine(warnings, line);
      case Unknown =>
    }

    /** Truncates the watermark file, then writes the merged pair: two micro-steps. */
    method WriteState(mark: Watermark, ghost start: Machine, ghost before: seq<Step>) returns (ghost steps: seq<Step>)
      requires Legal(start, before) && Run(start, before) == Machine(OnDisk(), Flushing(mark))
      modifies this`state
      ensures steps == before + [Truncate, Save] && state == Saved(MergedMark(old(state), mark))
      ensures Legal(start, steps) && Run(start, steps) == Machine(OnDisk(), Idle)
    {
      var merged := MergedMark(state, mark);
      RunExtend(start, before, Truncate);
      state := Empty;
      RunExtend(start, before + [Truncate], Save);
      state := Saved(merged);
      steps := before + [Truncate] + [Save];
      assert steps == before + [Truncate, Save];
    }

    /** Journal first, then the channel file, then the watermark. */
    method RecordEnvelope(channel: Channel, payload: Payload, clock: int, id: nat) returns (ghost steps: seq<Step>)
      requires Ready() && FreshId(Entries(OnDisk()), id)
      modifies this
      ensures steps == [Record(channel, payload, clock, id), Materialize, Truncate, Save]
      ensures Legal(Machine(old(OnDisk()), Idle), steps)
      ensures Run(Machine(old(OnDisk()), Idle), steps) == Machine(OnDisk(), Idle)
      ensures Ready()
      ensures var last := LoadedMark(old(state)).lastSequence;
              var sequence := if clock > last then clock else last + 1;
              && Entries(OnDisk()) == Entries(old(OnDisk())) + [Envelope(sequence, id, channel, payload)]
              && LoadedMark(state) == Watermark(sequence, sequence)
    {
      ghost var start := Machine(OnDisk(), Idle);
      steps := [];
      var mark := LoadState();
      var sequence := MaxInt(mark.lastSequence + 1, clock);
      var envelope := Envelope(sequence, id, channel, payload);
      RunExtend(start, steps, Record(channel, payload, clock, id));
      steps := steps + [Record(channel, payload, clock, id)];
      GoodsAppend(journal, envelope);
      journal := AppendLine(journal, envelope);
      RunExtend(start, steps, Materialize);
      steps := steps + [Materialize];
      MaterializeEnvelope(envelope);
      steps := WriteState(Watermark(sequence, sequence), start, steps);
      RunKeepsInv(start, steps);
    }

    /** The channel files and the journal, but not the watermark, are as they were. */
    twostate predicate FilesKept()
      reads this
    {
      journal == old(journal) && metrics == old(metrics) && spans == old(spans) && warnings == old(warnings)
    }

    /** Replays the journal above the watermark and saves the new watermark: the larger of the one
        found and the newest entry's sequence. On an open sink nothing is written to the channels. */
    method RecoverFromJournal(ghost from: Phase) returns (ghost steps: seq<Step>)
      requires (from == Down || from == Idle) && Inv(Machine(OnDisk(), from))
      modifies this
      ensures Legal(Machine(old(OnDisk()), from), steps)
      ensures Run(Machine(old(OnDisk()), from), steps) == Machine(OnDisk(), Idle)
      ensures Ready() && journal == old(journal)
      ensures LoadedMark(state).lastSequence == MaxInt(LoadedMark(old(state)).lastSequence, Newest(Entries(OnDisk())))
      ensures from == Idle ==> FilesKept() && LoadedMark(state) == LoadedMark(old(state))
    {
      RecoveryStarts(OnDisk(), from);
      hide Inv, DiskInv, Covered, StateOk, Goods;
      ghost var start := Machine(OnDisk(), from);
      RunExtend(start, [], Recover);
      NothingReplayed(OnDisk());
      steps := [] + [Recover];
      var mark := LoadState();
      var lastMaterialized, lastSeen := mark.lastMaterialized, mark.lastSequence;
      if journal.Absent? {
        RunKeepsInv(start, steps);
        return;
      }
      var lines := journal.lines;
      for i := 0 to |lines|
        invariant Legal(start, steps)
        invariant Run(start, steps) == Machine(OnDisk(), Replaying(i, lastSeen, lastMaterialized))
        invariant journal == old(journal) && state == old(state)
        invariant lastSeen == MaxInt(mark.lastSequence, Newest(Goods(lines[..i]))) && lastMaterialized == lastSeen
        invariant from == Idle ==> FilesKept() && lastSeen == mark.lastSequence
      {
        RunExtend(start, steps, ReplayLine);
        ReplayedLine(start.disk, i);
        steps := steps + [ReplayLine];
        match lines[i]
        case Junk =>
        case Good(envelope) =>
          var sequence := envelope.sequence;
          if sequence > lastSeen {
            lastSeen := sequence;
          }
          if sequence > lastMaterialized {
            MaterializeEnvelope(envelope);
            lastMaterialized := sequence;
          }
      }
      assert lines[..|lines|] == lines;
      RunExtend(start, steps, EndReplay);
      steps := steps + [EndReplay];
      steps := WriteState(Watermark(lastSeen, lastMaterialized), start, steps);
      RunKeepsInv(start, steps);
    }

    /** Recovers, then reads a channel keeping the first line of each record id. */
    method Load(c: Channel) returns (records: seq<Stored>)
      requires Ready()
      modifies this
      ensures Ready() && FilesKept() && LoadedMark(state) == LoadedMark(old(state))
      ensures records == Projection(Entries(OnDisk()), c)
    {
      ghost var steps := RecoverFromJournal(Idle);
      records := ReadLines(Lines(ChannelFile(Disk(journal, metrics, spans, warnings, state), c)));
      ghost var j := Entries(OnDisk());
      assert j[..|j|] == j;
    }

    /** The folds of the summary, stated over the journal itself. */
    method Summarize() returns (s: Summary)
      requires Ready()
      modifies this
      ensures Ready() && FilesKept() && LoadedMark(state) == LoadedMark(old(state))
      ensures MetricsSummarized(s.metricTotals, s.metricAverages, s.costTotals, Projection(Entries(OnDisk()), Metric))
      ensures SpansSummarized(s.spanCounts, s.spanAverageMs, Projection(Entries(OnDisk()), Span))
      ensures s.journalBacklog == 0
      ensures s.lastSequence == s.lastMaterializedSequence == LoadedMark(old(state)).lastSequence
    {
      ghost var steps := RecoverFromJournal(Idle);
      var metricRecords := Load(Metric);
      var spanRecords := Load(Span);
      var warningRecords := Load(Warning);
      var mark := LoadState();
      var totals, averages, costs := FoldMetrics(metricRecords);
      var counts, spanAverages := FoldSpans(spanRecords);
      s := Summary(mark.lastSequence, mark.lastMaterialized,
                   MaxInt(0, mark.lastSequence - mark.lastMaterialized),
                   totals, averages, costs, counts, spanAverages);
    }
  }

  lemma RecoveryStarts(d: Disk, from: Phase)
    requires (from == Down || from == Idle) && Inv(Machine(d, from))
    ensures DiskInv(d) && LoadedMark(d.state).lastSequence == LoadedMark(d.state).lastMaterialized >= 0
    ensures from == Idle ==> Covered(Entries(d), LoadedMark(d.state).lastSequence)
  {
  }

  lemma NothingReplayed(d: Disk)
    requires DiskInv(d)
    ensures Newest(Goods(Lines(d.journal)[..0])) == 0
    ensures d.journal.Absent? ==> Newest(Entries(d)) == 0
  {
  }

  /** The i-th journal line, if it decodes, is newer than those before it and is one of the entries. */
  lemma ReplayedLine(d: Disk, i: nat)
    requires DiskInv(d) && i < |Lines(d.journal)|
    ensures var lines := Lines(d.journal);
            if lines[i].Good? then
              && Newest(Goods(lines[..i + 1])) == lines[i].value.sequence > Newest(Goods(lines[..i])) >= 0
              && forall mark :: Covered(Entries(d), mark) ==> lines[i].value.sequence <= mark
            else Newest(Goods(lines[..i + 1])) == Newest(Goods(lines[..i]))
  {
    var lines := Lines(d.journal);
    GoodsStep(lines, i);
    if lines[i].Good? { CursorEntry(lines, i); }
  }

  ghost predicate SeenIn(seen: set<nat>, s: seq<Stored>) {
    forall id: nat :: id in seen <==> HasId(s, id)
  }

  lemma SeenStep(seen: set<nat>, s: seq<Stored>, x: Stored)
    requires SeenIn(seen, s)
    ensures SeenIn(seen + {x.recordId}, s + [x])
    ensures x.recordId in seen ==> SeenIn(seen, s + [x])
  {
    forall id: nat ensures HasId(s + [x], id) <==> HasId(s, id) || x.recordId == id {
      HasIdAppend(s, x, id);
    }
  }

  /** The deduplicating loop over the lines of a channel file. */
  method ReadLines(lines: seq<Line<Stored>>) returns (records: seq<Stored>)
    ensures records == Dedup(Goods(lines))
  {
    records := [];
    var seen: set<nat> := {};
    for i := 0 to |lines|
      invariant records == Dedup(Goods(lines[..i]))
      invariant SeenIn(seen, Goods(lines[..i]))
    {
      GoodsStep(lines, i);
      match lines[i]
      case Junk =>
      case Good(record) =>
        DedupAppend(Goods(lines[..i]), record);
        SeenStep(seen, Goods(lines[..i]), record);
        if record.recordId !in seen {
          seen := seen + {record.recordId};
          records := records + [record];
        }
    }
    assert lines[..|lines|] == lines;
  }

  lemma MetricValuesStep(records: seq<Stored>, i: nat, name: string)
    requires i < |records|
    ensures MetricValues(records[..i + 1], name) ==
            if records[i].payload.name == name then MetricValues(records[..i], name) + [records[i].payload.value]
            else MetricValues(records[..i], name)
    ensures Named(records[..i + 1], name) <==> Named(records[..i], name) || records[i].payload.name == name
  {
    assert records[..i + 1][..i] == records[..i];
    assert records[..i + 1][i] == records[i];
    if Named(records[..i], name) {
      var k :| 0 <= k < i && records[..i][k].payload.name == name;
      assert records[..i + 1][k].payload.name == name;
    }
    if Named(records[..i + 1], name) && records[i].payload.name != name {
      var k :| 0 <= k < i + 1 && records[..i + 1][k].payload.name == name;
      assert records[..i][k].payload.name == name;
    }
  }

  /** The cost table after one more metric; only the four cost metrics touch it. */
  function CostsWith(costs: map<string, real>, name: string, value: real): map<string, real> {
    if name in COST_METRICS && |name| > 4 then
      var key := name[4..];
      costs[key := (if key in costs then costs[key] else 0.0) + value]
    else costs
  }

  lemma CostKeys()
    ensures "llm_cost_usd"[4..] == "cost_usd" && "llm_prompt_tokens"[4..] == "prompt_tokens"
    ensures "llm_completion_tokens"[4..] == "completion_tokens" && "llm_total_tokens"[4..] == "total_tokens"
    ensures |"cost_usd"| < |"total_tokens"| < |"prompt_tokens"| < |"completion_tokens"|
  {
    assert |"cost_usd"| == 8 && |"prompt_tokens"| == 13 && |"completion_tokens"| == 17 && |"total_tokens"| == 12;
  }

  lemma MetricSumStep(records: seq<Stored>, i: nat, n: string)
    requires i < |records|
    ensures Sum(MetricValues(records[..i + 1], n)) ==
            Sum(MetricValues(records[..i], n)) + (if records[i].payload.name == n then records[i].payload.value else 0.0)
  {
    MetricValuesStep(records, i, n);
    SumAppend(MetricValues(records[..i], n), records[i].payload.value);
  }

  lemma CostStep(costs: map<string, real>, records: seq<Stored>, i: nat)
    requires i < |records| && CostsTotalled(costs, records[..i])
    ensures CostsTotalled(CostsWith(costs, records[i].payload.name, records[i].payload.value), records[..i + 1])
  {
    hide Sum, MetricValues;
    MetricSumStep(records, i, "llm_cost_usd");
    MetricSumStep(records, i, "llm_prompt_tokens");
    MetricSumStep(records, i, "llm_completion_tokens");
    MetricSumStep(records, i, "llm_total_tokens");
    CostKeys();
  }

  /** An average weighs every value alike: times their number it is their sum. */
  lemma AverageTimesCount(s: seq<real>)
    requires s != []
    ensures Average(s) * |s| as real == Sum(s)
  {
  }

  lemma SumAppend(s: seq<real>, x: real)
    ensures Sum(s + [x]) == Sum(s) + x
  {
    assert (s + [x])[..|s|] == s;
  }

  /** The sum an executable loop computes for an average. */
  method Total(s: seq<real>) returns (total: real)
    ensures total == Sum(s)
  {
    total := 0.0;
    for i := 0 to |s|
      invariant total == Sum(s[..i])
    {
      assert s[..i + 1] == s[..i] + [s[i]];
      SumAppend(s[..i], s[i]);
      total := total + s[i];
    }
    assert s[..|s|] == s;
  }

  /** One average per name of a series table. */
  method Averages(series: map<string, seq<real>>) returns (averages: map<string, real>)
    requires forall name :: name in series ==> series[name] != []
    ensures averages.Keys == series.Keys
    ensures forall name :: name in series ==> averages[name] == Average(series[name])
  {
    averages := map[];
    var todo := series.Keys;
    while todo != {}
      invariant todo <= series.Keys
      invariant averages.Keys == series.Keys - todo
      invariant forall name :: name in averages ==> averages[name] == Average(series[name])
      decreases todo
    {
      var name :| name in todo;
      var total := Total(series[name]);
      averages := averages[name := total / |series[name]| as real];
      todo := todo - {name};
    }
  }

  /** The running totals and series after some records. */
  ghost predicate Folded(totals: map<string, real>, series: map<string, seq<real>>, records: seq<Stored>) {
    forall name :: FoldedName(totals, series, records, name)
  }

  ghost predicate FoldedName(totals: map<string, real>, series: map<string, seq<real>>, records: seq<Stored>, name: string) {
    && (name in series <==> name in totals)
    && (name in totals <==> Named(records, name))
    && (name in totals ==> name in series && series[name] == MetricValues(records, name) != [] && totals[name] == Sum(series[name]))
    && (name !in totals ==> MetricValues(records, name) == [])
  }

  lemma FoldNameStep(totals: map<string, real>, series: map<string, seq<real>>, records: seq<Stored>, i: nat, n: string)
    requires i < |records| && FoldedName(totals, series, records[..i], n)
    ensures var (name, value) := (records[i].payload.name, records[i].payload.value);
            FoldedName(totals[name := (if name in totals then totals[name] else 0.0) + value],
                       series[name := (if name in series then series[name] else []) + [value]],
                       records[..i + 1], n)
  {
    MetricValuesStep(records, i, n);
    SumAppend(MetricValues(records[..i], n), records[i].payload.value);
    assert Sum([]) == 0.0;
  }

  lemma FoldStep(totals: map<string, real>, series: map<string, seq<real>>, records: seq<Stored>, i: nat)
    requires i < |records| && Folded(totals, series, records[..i])
    ensures var (name, value) := (records[i].payload.name, records[i].payload.value);
            Folded(totals[name := (if name in totals then totals[name] else 0.0) + value],
                   series[name := (if name in series then series[name] else []) + [value]],
                   records[..i + 1])
  {
    var name, value := records[i].payload.name, records[i].payload.value;
    var totals' := totals[name := (if name in totals then totals[name] else 0.0) + value];
    var series' := series[name := (if name in series then series[name] else []) + [value]];
    var after := records[..i + 1];
    forall n ensures FoldedName(totals', series', after, n) {
      assert FoldedName(totals, series, records[..i], n);
      FoldNameStep(totals, series, records, i, n);
    }
  }

  /** The averaging comprehension over the folded series. */
  lemma AveragesSummarize(totals: map<string, real>, series: map<string, seq<real>>,
                          averages: map<string, real>, costs: map<string, real>, records: seq<Stored>)
    requires Folded(totals, series, records) && CostsTotalled(costs, records)
    requires averages.Keys == series.Keys
    requires forall name :: name in series ==> series[name] != [] && averages[name] == Average(series[name])
    ensures MetricsSummarized(totals, averages, costs, records)
  {
    forall name
      ensures name in totals <==> Named(records, name)
      ensures name in series <==> name in totals
      ensures name in totals ==> totals[name] == Sum(MetricValues(records, name))
      ensures name in averages ==> MetricValues(records, name) != [] && averages[name] == Average(MetricValues(records, name))
    {
      assert FoldedName(totals, series, records, name);
    }
  }

  lemma NothingFolded()
    ensures Folded(map[], map[], [])
    ensures CostsTotalled(map["cost_usd" := 0.0, "prompt_tokens" := 0.0, "completion_tokens" := 0.0, "total_tokens" := 0.0], [])
  {
    CostKeys();
    assert forall n :: MetricValues([], n) == [];
    assert Sum([]) == 0.0;
    forall n ensures FoldedName(map[], map[], [], n) { }
  }

  method FoldMetrics(records: seq<Stored>)
    returns (totals: map<string, real>, averages: map<string, real>, costs: map<string, real>)
    ensures MetricsSummarized(totals, averages, costs, records)
  {
    totals := map[];
    var series: map<string, seq<real>> := map[];
    costs := map["cost_usd" := 0.0, "prompt_tokens" := 0.0, "completion_tokens" := 0.0, "total_tokens" := 0.0];
    NothingFolded();
    assert records[..0] == [];
    for i := 0 to |records|
      invariant Folded(totals, series, records[..i])
      invariant CostsTotalled(costs, records[..i])
    {
      var name, value := records[i].payload.name, records[i].payload.value;
      FoldStep(totals, series, records, i);
      CostStep(costs, records, i);
      totals := totals[name := (if name in totals then totals[name] else 0.0) + value];
      series := series[name := (if name in series then series[name] else []) + [value]];
      costs := CostsWith(costs, name, value);
    }
    assert records[..|records|] == records;
    forall name | name in series ensures series[name] != [] {
      assert FoldedName(totals, series, records, name);
    }
    averages := Averages(series);
    AveragesSummarize(totals, series, averages, costs, records);
  }

  method FoldSpans(records: seq<Stored>) returns (counts: map<string, nat>, averages: map<string, real>)
    ensures SpansSummarized(counts, averages, records)
  {
    counts := map[];
    var durations: map<string, seq<real>> := map[];
    for i := 0 to |records|
      invariant forall name :: name in counts <==> Named(records[..i], name)
      invariant forall name :: name in counts ==> counts[name] == CountNamed(records[..i], name)
      invariant forall name :: name !in counts ==> CountNamed(records[..i], name) == 0
      invariant forall name :: name in durations <==> SpanDurations(records[..i], name) != []
      invariant forall name :: name in durations ==> durations[name] == SpanDurations(records[..i], name)
    {
      var p := records[i].payload;
      forall n ensures Named(records[..i + 1], n) <==> Named(records[..i], n) || p.name == n {
        MetricValuesStep(records, i, n);
      }
      assert records[..i + 1][..i] == records[..i];
      counts := counts[p.name := (if p.name in counts then counts[p.name] else 0) + 1];
      if p.durationMs.Some? {
        durations := durations[p.name := (if p.name in durations then durations[p.name] else []) + [p.durationMs.value]];
      }
    }
    assert records[..|records|] == records;
    averages := Averages(durations);
  }
}
