/** The crash-safe telemetry journal as a machine of micro-steps.

    Every append to a file, every truncation and every write of the watermark
    file is one step, and a crash may fall between any two of them, also while
    a recovery is running.  A crash may leave the watermark file empty or
    garbled.  After a crash the only thing that can happen is a new recovery.
 */
module TelemetryProtocol {
  import opened Prelude

  datatype Channel = Metric | Span | Warning | Unknown

  datatype Payload = Payload(name: string, value: real, durationMs: Option<real>, body: string)

  /** One line of the journal. */
  datatype Envelope = Envelope(sequence: int, recordId: nat, channel: Channel, payload: Payload)

  /** One line of a per-channel file: the payload with its record id and sequence. */
  datatype Stored = Stored(payload: Payload, recordId: nat, sequence: int)

  /** A line decodes to a value, or is blank or corrupt and is skipped by readers. */
  datatype Line<+T> = Junk | Good(value: T)

  datatype File<+T> = Absent | Present(lines: seq<Line<T>>)

  /** The watermark file: missing or truncated, undecodable, or a saved pair. */
  datatype StateFile = Empty | Garbled | Saved(mark: Watermark)

  datatype Watermark = Watermark(lastSequence: int, lastMaterialized: int)

  datatype Disk = Disk(
    journal: File<Envelope>,
    metrics: File<Stored>,
    spans: File<Stored>,
    warnings: File<Stored>,
    state: StateFile)

  function Lines<T>(f: File<T>): seq<Line<T>> {
    match f case Absent => [] case Present(lines) => lines
  }

  function AppendLine<T>(f: File<T>, x: T): File<T> {
    Present(Lines(f) + [Good(x)])
  }

  /** The decodable lines, in file order. */
  function Goods<T>(lines: seq<Line<T>>): (r: seq<T>) {
    if lines == [] then []
    else
      var front := Goods(lines[..|lines| - 1]);
      match lines[|lines| - 1]
      case Junk => front
      case Good(x) => front + [x]
  }

  function Entries(d: Disk): seq<Envelope> {
    Goods(Lines(d.journal))
  }

  function ChannelFile(d: Disk, c: Channel): File<Stored> {
    match c
    case Metric => d.metrics
    case Span => d.spans
    case Warning => d.warnings
    case Unknown => Absent
  }

  function Strip(e: Envelope): Stored {
    Stored(e.payload, e.recordId, e.sequence)
  }

  ghost predicate HasId(s: seq<Stored>, id: nat) {
    exists i :: 0 <= i < |s| && s[i].recordId == id
  }

  /** What a reader makes of a file: the first line of each record id, in order. */
  ghost function Dedup(s: seq<Stored>): (r: seq<Stored>) {
    if s == [] then []
    else
      var front := s[..|s| - 1];
      var last := s[|s| - 1];
      if HasId(front, last.recordId) then Dedup(front) else Dedup(front) + [last]
  }

  ghost function ReadBack(f: File<Stored>): seq<Stored> {
    Dedup(Goods(Lines(f)))
  }

  /** The journal's entries of one channel, in journal order. */
  ghost function Projection(j: seq<Envelope>, c: Channel): (r: seq<Stored>) {
    if j == [] then []
    else
      var front := Projection(j[..|j| - 1], c);
      var last := j[|j| - 1];
      if last.channel == c && c != Unknown then front + [Strip(last)] else front
  }

  /** Appends the record to its channel's file; an unknown channel writes nothing. */
  function Materialized(d: Disk, e: Envelope): Disk {
    match e.channel
    case Metric => d.(metrics := AppendLine(d.metrics, Strip(e)))
    case Span => d.(spans := AppendLine(d.spans, Strip(e)))
    case Warning => d.(warnings := AppendLine(d.warnings, Strip(e)))
    case Unknown => d
  }

  function LoadedMark(s: StateFile): Watermark {
    match s
    case Saved(mark) => mark
    case _ => Watermark(0, 0)
  }

  /** The pair `_write_state` writes: never below what the file already holds. */
  function MergedMark(current: StateFile, mark: Watermark): Watermark {
    match current
    case Empty => mark
    case Garbled => Watermark(MaxInt(0, mark.lastSequence), MaxInt(0, mark.lastMaterialized))
    case Saved(prior) => Watermark(MaxInt(prior.lastSequence, mark.lastSequence),
                                 MaxInt(prior.lastMaterialized, mark.lastMaterialized))
  }

  function NextSequence(s: StateFile, clock: int): int {
    MaxInt(LoadedMark(s).lastSequence + 1, clock)
  }

  // ---------------------------------------------------------------- the machine

  datatype Phase =
    | Down                                              // no process
    | Idle                                              // between two calls
    | Journaled(envelope: Envelope)                     // journal line written, channel line not
    | Flushing(mark: Watermark)                         // about to write the watermark
    | Truncated(mark: Watermark)                        // watermark file emptied, not yet written
    | Replaying(next: nat, seen: int, materialized: int)

  datatype Machine = Machine(disk: Disk, phase: Phase)

  datatype Damage = Intact | LeftEmpty | LeftGarbled

  datatype Step =
    | Record(channel: Channel, payload: Payload, clock: int, id: nat)
    | Materialize
    | Truncate
    | Save
    | Recover
    | ReplayLine
    | EndReplay
    | Crash(damage: Damage)

  ghost predicate FreshId(j: seq<Envelope>, id: nat) {
    forall i :: 0 <= i < |j| ==> j[i].recordId != id
  }

  ghost predicate Enabled(m: Machine, step: Step) {
    match step
    case Record(_, _, _, id) => m.phase.Idle? && FreshId(Entries(m.disk), id)
    case Materialize => m.phase.Journaled?
    case Truncate => m.phase.Flushing?
    case Save => m.phase.Truncated?
    case Recover => m.phase.Down? || m.phase.Idle?
    case ReplayLine => m.phase.Replaying? && m.phase.next < |Lines(m.disk.journal)|
    case EndReplay => m.phase.Replaying? && m.phase.next == |Lines(m.disk.journal)|
    case Crash(_) => true
  }

  function NewEnvelope(d: Disk, channel: Channel, payload: Payload, clock: int, id: nat): Envelope {
    Envelope(NextSequence(d.state, clock), id, channel, payload)
  }

  ghost function Next(m: Machine, step: Step): Machine
    requires Enabled(m, step)
  {
    var d := m.disk;
    match step
    case Record(channel, payload, clock, id) =>
      var e := NewEnvelope(d, channel, payload, clock, id);
      Machine(d.(journal := AppendLine(d.journal, e)), Journaled(e))
    case Materialize =>
      var e := m.phase.envelope;
      Machine(Materialized(d, e), Flushing(Watermark(e.sequence, e.sequence)))
    case Truncate =>
      Machine(d.(state := Empty), Truncated(MergedMark(d.state, m.phase.mark)))
    case Save =>
      Machine(d.(state := Saved(m.phase.mark)), Idle)
    case Recover =>
      if d.journal.Absent? then Machine(d, Idle)
      else Machine(d, Replaying(0, LoadedMark(d.state).lastSequence, LoadedMark(d.state).lastMaterialized))
    case ReplayLine =>
      var Replaying(i, seen, materialized) := m.phase;
      (match Lines(d.journal)[i]
       case Junk => Machine(d, Replaying(i + 1, seen, materialized))
       case Good(e) =>
         var seen' := MaxInt(seen, e.sequence);
         if e.sequence <= materialized then Machine(d, Replaying(i + 1, seen', materialized))
         else Machine(Materialized(d, e), Replaying(i + 1, seen', e.sequence)))
    case EndReplay =>
      Machine(d, Flushing(Watermark(m.phase.seen, m.phase.materialized)))
    case Crash(damage) =>
      Machine(match damage
              case Intact => d
              case LeftEmpty => d.(state := Empty)
              case LeftGarbled => d.(state := Garbled),
              Down)
  }

  ghost predicate Legal(m: Machine, steps: seq<Step>)
    decreases |steps|, 0
  {
    steps == [] ||
    (Legal(m, steps[..|steps| - 1]) && Enabled(Run(m, steps[..|steps| - 1]), steps[|steps| - 1]))
  }

  ghost function Run(m: Machine, steps: seq<Step>): Machine
    requires Legal(m, steps)
    decreases |steps|, 1
  {
    if steps == [] then m else Next(Run(m, steps[..|steps| - 1]), steps[|steps| - 1])
  }

  lemma RunExtend(m: Machine, steps: seq<Step>, step: Step)
    requires Legal(m, steps) && Enabled(Run(m, steps), step)
    ensures Legal(m, steps + [step]) && Run(m, steps + [step]) == Next(Run(m, steps), step)
  {
    assert (steps + [step])[..|steps|] == steps;
  }

  /** A directory no journal entry or record was ever written to; its files may
      hold lines that do not decode, and an old watermark may be left behind. */
  ghost predicate Fresh(d: Disk) {
    && Entries(d) == []
    && (forall c: Channel :: Goods(Lines(ChannelFile(d, c))) == [])
    && StateOk(d.state)
  }

  // ---------------------------------------------------------------- the invariant

  ghost predicate Increasing(j: seq<Envelope>) {
    && (forall i, k :: 0 <= i < k < |j| ==> j[i].sequence < j[k].sequence)
    && (forall i :: 0 <= i < |j| ==> j[i].sequence >= 1)
  }

  ghost predicate DistinctIds(j: seq<Envelope>) {
    forall i, k :: 0 <= i < k < |j| ==> j[i].recordId != j[k].recordId
  }

  ghost predicate StateOk(s: StateFile) {
    LoadedMark(s).lastSequence == LoadedMark(s).lastMaterialized >= 0
  }

  /** Every channel file reads back as exactly the first n journal entries of its channel. */
  ghost predicate MaterializedUpTo(d: Disk, n: nat)
    requires n <= |Entries(d)|
  {
    forall c: Channel :: ReadBack(ChannelFile(d, c)) == Projection(Entries(d)[..n], c)
  }

  ghost predicate Complete(d: Disk) {
    MaterializedUpTo(d, |Entries(d)|)
  }

  /** Only the newest journal entry is missing, and it lies above the mark. */
  ghost predicate NewestMissing(d: Disk, mark: int) {
    var j := Entries(d);
    |j| > 0 && MaterializedUpTo(d, |j| - 1) && mark < j[|j| - 1].sequence
  }

  ghost predicate Covered(j: seq<Envelope>, mark: int) {
    forall i :: 0 <= i < |j| ==> j[i].sequence <= mark
  }

  ghost predicate DiskInv(d: Disk) {
    && Increasing(Entries(d))
    && DistinctIds(Entries(d))
    && StateOk(d.state)
    && (Complete(d) || NewestMissing(d, LoadedMark(d.state).lastMaterialized))
  }

  ghost predicate MarkOk(d: Disk, mark: Watermark) {
    mark.lastSequence == mark.lastMaterialized >= 0 && Covered(Entries(d), mark.lastSequence)
  }

  ghost predicate Inv(m: Machine) {
    var d := m.disk;
    var j := Entries(d);
    && DiskInv(d)
    && match m.phase
       case Down => true
       case Idle => Complete(d) && MarkOk(d, LoadedMark(d.state))
       case Journaled(e) =>
         |j| > 0 && j[|j| - 1] == e && NewestMissing(d, LoadedMark(d.state).lastMaterialized)
       case Flushing(mark) => Complete(d) && MarkOk(d, mark)
       case Truncated(mark) => Complete(d) && MarkOk(d, mark) && d.state == Empty
       case Replaying(i, seen, materialized) =>
         && i <= |Lines(d.journal)|
         && seen == materialized >= 0
         && Covered(Goods(Lines(d.journal)[..i]), seen)
         && (Complete(d) ||
             (NewestMissing(d, materialized) && |Goods(Lines(d.journal)[..i])| < |j|))
  }

  // ---------------------------------------------------------------- lemmas on files

  lemma GoodsAppend<T>(f: File<T>, x: T)
    ensures Goods(Lines(AppendLine(f, x))) == Goods(Lines(f)) + [x]
  {
    var lines := Lines(AppendLine(f, x));
    assert lines[..|lines| - 1] == Lines(f);
  }

  lemma GoodsStep<T>(lines: seq<Line<T>>, i: nat)
    requires i < |lines|
    ensures Goods(lines[..i + 1]) ==
            match lines[i] case Junk => Goods(lines[..i]) case Good(x) => Goods(lines[..i]) + [x]
  {
    assert lines[..i + 1][..i] == lines[..i];
  }

  lemma {:induction false} GoodsPrefix<T>(lines: seq<Line<T>>, i: nat)
    requires i <= |lines|
    ensures Goods(lines[..i]) <= Goods(lines)
    decreases |lines| - i
  {
    if i == |lines| {
      assert lines[..i] == lines;
    } else {
      GoodsPrefix(lines, i + 1);
      GoodsStep(lines, i);
    }
  }

  lemma DedupAppend(s: seq<Stored>, x: Stored)
    ensures Dedup(s + [x]) == if HasId(s, x.recordId) then Dedup(s) else Dedup(s) + [x]
  {
    assert (s + [x])[..|s|] == s;
  }

  /** Reading back keeps exactly the ids of the file. */
  lemma {:induction false} DedupIds(s: seq<Stored>, id: nat)
    ensures HasId(Dedup(s), id) <==> HasId(s, id)
  {
    if s != [] {
      var front, last := s[..|s| - 1], s[|s| - 1];
      DedupIds(front, id);
      DedupIds(front, last.recordId);
      assert s == front + [last];
      HasIdAppend(front, last, id);
      HasIdAppend(Dedup(front), last, id);
    }
  }

  lemma HasIdAppend(s: seq<Stored>, x: Stored, id: nat)
    ensures HasId(s + [x], id) <==> HasId(s, id) || x.recordId == id
  {
    if HasId(s, id) {
      var i :| 0 <= i < |s| && s[i].recordId == id;
      assert (s + [x])[i].recordId == id;
    }
    assert (s + [x])[|s|] == x;
    if HasId(s + [x], id) && x.recordId != id {
      var i :| 0 <= i < |s + [x]| && (s + [x])[i].recordId == id;
      assert s[i].recordId == id;
    }
  }

  lemma ProjectionAppend(j: seq<Envelope>, e: Envelope, c: Channel)
    ensures Projection(j + [e], c) ==
            if e.channel == c && c != Unknown then Projection(j, c) + [Strip(e)] else Projection(j, c)
  {
    assert (j + [e])[..|j|] == j;
  }

  lemma ProjectionStep(j: seq<Envelope>, k: nat, c: Channel)
    requires k < |j|
    ensures Projection(j[..k + 1], c) ==
            if j[k].channel == c && c != Unknown then Projection(j[..k], c) + [Strip(j[k])] else Projection(j[..k], c)
  {
    assert j[..k + 1] == j[..k] + [j[k]];
    ProjectionAppend(j[..k], j[k], c);
  }

  /** An id occurs in the projection iff an entry of that channel carries it. */
  lemma {:induction false} ProjectionIds(j: seq<Envelope>, c: Channel, id: nat)
    ensures HasId(Projection(j, c), id) <==>
            c != Unknown && exists i :: 0 <= i < |j| && j[i].channel == c && j[i].recordId == id
  {
    if j != [] {
      var front, last := j[..|j| - 1], j[|j| - 1];
      ProjectionIds(front, c, id);
      HasIdAppend(Projection(front, c), Strip(last), id);
      assert forall i :: 0 <= i < |front| ==> front[i] == j[i];
    }
  }

  lemma {:induction false} ProjectionPrefix(j: seq<Envelope>, k: nat, c: Channel)
    requires k <= |j|
    ensures Projection(j[..k], c) <= Projection(j, c)
    decreases |j| - k
  {
    if k == |j| {
      assert j[..k] == j;
    } else {
      ProjectionPrefix(j, k + 1, c);
      ProjectionStep(j, k, c);
    }
  }

  // ---------------------------------------------------------------- preservation

  /** Appending a record to its channel file: a record already there reads back
      unchanged, the one missing record is completed. */
  lemma MaterializeReadBack(d: Disk, e: Envelope, k: nat, n: nat)
    requires n <= |Entries(d)| && k < |Entries(d)| && Entries(d)[k] == e
    requires DistinctIds(Entries(d)) && MaterializedUpTo(d, n) && k <= n
    ensures Entries(Materialized(d, e)) == Entries(d)
    ensures MaterializedUpTo(Materialized(d, e), if k == n then n + 1 else n)
  {
    var d' := Materialized(d, e);
    var j := Entries(d);
    var n' := if k == n then n + 1 else n;
    forall c: Channel ensures ReadBack(ChannelFile(d', c)) == Projection(j[..n'], c) {
      var f := ChannelFile(d, c);
      assert ReadBack(f) == Projection(j[..n], c);
      if k == n { ProjectionStep(j, n, c); }
      if c == e.channel && c != Unknown {
        GoodsAppend(f, Strip(e));
        DedupAppend(Goods(Lines(f)), Strip(e));
        DedupIds(Goods(Lines(f)), e.recordId);
        ProjectionIds(j[..n], c, e.recordId);
        if k < n { assert j[..n][k] == e; }
      }
    }
  }

  /** The reader's view depends only on the channel files and the journal prefix. */
  lemma SameFiles(d: Disk, d': Disk, n: nat)
    requires n <= |Entries(d)| && n <= |Entries(d')| && Entries(d)[..n] == Entries(d')[..n]
    requires d'.metrics == d.metrics && d'.spans == d.spans && d'.warnings == d.warnings
    ensures MaterializedUpTo(d, n) <==> MaterializedUpTo(d', n)
  {
    forall c: Channel ensures ChannelFile(d, c) == ChannelFile(d', c) { }
  }

  lemma RecordKeepsInv(m: Machine, channel: Channel, payload: Payload, clock: int, id: nat)
    requires Inv(m) && Enabled(m, Record(channel, payload, clock, id))
    ensures Inv(Next(m, Record(channel, payload, clock, id)))
  {
    var d := m.disk;
    var e := NewEnvelope(d, channel, payload, clock, id);
    var d' := d.(journal := AppendLine(d.journal, e));
    assert Next(m, Record(channel, payload, clock, id)) == Machine(d', Journaled(e));
    GoodsAppend(d.journal, e);
    var j, j' := Entries(d), Entries(d');
    assert j' == j + [e] && j'[..|j|] == j[..|j|];
    SameFiles(d, d', |j|);
    assert NewestMissing(d', LoadedMark(d.state).lastMaterialized);
    assert Increasing(j') && DistinctIds(j');
  }

  lemma MaterializeKeepsInv(m: Machine)
    requires Inv(m) && Enabled(m, Materialize)
    ensures Inv(Next(m, Materialize))
  {
    var j := Entries(m.disk);
    MaterializeReadBack(m.disk, m.phase.envelope, |j| - 1, |j| - 1);
  }

  lemma OnlyStateChanged(d: Disk, s: StateFile)
    ensures Entries(d.(state := s)) == Entries(d)
    ensures Complete(d.(state := s)) == Complete(d)
    ensures forall mark :: NewestMissing(d.(state := s), mark) == NewestMissing(d, mark)
  {
    SameFiles(d, d.(state := s), |Entries(d)|);
    if |Entries(d)| > 0 { SameFiles(d, d.(state := s), |Entries(d)| - 1); }
  }

  /** Where replay stands in the journal: the decodable lines before the cursor. */
  lemma CursorEntry(lines: seq<Line<Envelope>>, i: nat)
    requires i < |lines| && lines[i].Good?
    ensures var k := |Goods(lines[..i])|;
            && k < |Goods(lines)| && Goods(lines)[k] == lines[i].value
            && Goods(lines[..i + 1]) == Goods(lines[..i]) + [lines[i].value]
            && Goods(lines[..i]) == Goods(lines)[..k]
  {
    GoodsStep(lines, i);
    GoodsPrefix(lines, i);
    GoodsPrefix(lines, i + 1);
    assert Goods(lines)[|Goods(lines[..i])|] == Goods(lines[..i + 1])[|Goods(lines[..i])|];
  }

  lemma ReplaySkipKeepsInv(m: Machine)
    requires Inv(m) && Enabled(m, ReplayLine)
    requires var line := Lines(m.disk.journal)[m.phase.next];
             line.Good? ==> line.value.sequence <= m.phase.materialized
    ensures Inv(Next(m, ReplayLine))
  {
    hide Goods, MaterializedUpTo, DistinctIds, Increasing, StateOk;
    var lines, i := Lines(m.disk.journal), m.phase.next;
    GoodsStep(lines, i);
    if lines[i].Good? { CursorEntry(lines, i); }
  }

  /** Replaying the k-th entry, when it lies above the mark reached so far: the missing
      record is completed, any other changes nothing a reader sees. */
  lemma ReplayedComplete(d: Disk, e: Envelope, k: nat)
    requires DiskInv(d) && k < |Entries(d)| && Entries(d)[k] == e
    requires Complete(d) || (k == |Entries(d)| - 1 && MaterializedUpTo(d, k))
    ensures var d' := Materialized(d, e);
            Entries(d') == Entries(d) && DiskInv(d') && Complete(d')
  {
    hide Goods, Projection, Dedup, ReadBack;
    MaterializeReadBack(d, e, k, if Complete(d) then |Entries(d)| else k);
    assert Materialized(d, e).state == d.state;
  }

  lemma ReplayedEarlier(d: Disk, e: Envelope, k: nat)
    requires DiskInv(d) && k < |Entries(d)| - 1 && Entries(d)[k] == e
    requires NewestMissing(d, LoadedMark(d.state).lastMaterialized)
    ensures var d' := Materialized(d, e);
            Entries(d') == Entries(d) && DiskInv(d') && NewestMissing(d', e.sequence)
  {
    hide Goods, Projection, Dedup, ReadBack;
    MaterializeReadBack(d, e, k, |Entries(d)| - 1);
    assert Materialized(d, e).state == d.state;
    assert NewestMissing(Materialized(d, e), LoadedMark(d.state).lastMaterialized);
  }

  lemma ReplayMaterializeKeepsInv(m: Machine, e: Envelope)
    requires Inv(m) && Enabled(m, ReplayLine)
    requires Lines(m.disk.journal)[m.phase.next] == Good(e) && e.sequence > m.phase.materialized
    ensures Inv(Next(m, ReplayLine))
  {
    hide Goods, Projection, Dedup, ReadBack, MaterializedUpTo;
    var lines, i := Lines(m.disk.journal), m.phase.next;
    CursorEntry(lines, i);
    var k := |Goods(lines[..i])|;
    if Complete(m.disk) || k == |Entries(m.disk)| - 1 {
      ReplayedComplete(m.disk, e, k);
    } else {
      ReplayedEarlier(m.disk, e, k);
    }
    var m' := Machine(Materialized(m.disk, e), Replaying(i + 1, e.sequence, e.sequence));
    assert Next(m, ReplayLine) == m';
    assert Lines(m'.disk.journal) == lines;
    assert Covered(Goods(lines[..i + 1]), e.sequence);
  }

  lemma TruncateKeepsInv(m: Machine)
    requires Inv(m) && Enabled(m, Truncate)
    ensures Inv(Next(m, Truncate))
  {
    OnlyStateChanged(m.disk, Empty);
    assert MarkOk(m.disk, MergedMark(m.disk.state, m.phase.mark));
  }

  lemma SaveKeepsInv(m: Machine)
    requires Inv(m) && Enabled(m, Save)
    ensures Inv(Next(m, Save))
  {
    OnlyStateChanged(m.disk, Saved(m.phase.mark));
  }

  /** A crash leaves at most the newest record unmaterialized, and never a mark above it. */
  lemma CrashKeepsInv(m: Machine, damage: Damage)
    requires Inv(m)
    ensures Inv(Next(m, Crash(damage)))
  {
    var d := m.disk;
    var d' := Next(m, Crash(damage)).disk;
    assert d' == d.(state := d'.state) && (d'.state == d.state || d'.state == Empty || d'.state == Garbled);
    OnlyStateChanged(d, d'.state);
    if !Complete(d) {
      assert Entries(d)[|Entries(d)| - 1].sequence >= 1;
      assert NewestMissing(d', LoadedMark(d'.state).lastMaterialized);
    }
  }

  lemma ReplayBoundsKeepInv(m: Machine, step: Step)
    requires Inv(m) && Enabled(m, step) && (step.Recover? || step.EndReplay?)
    ensures Inv(Next(m, step))
  {
    if step.EndReplay? {
      assert Lines(m.disk.journal)[..m.phase.next] == Lines(m.disk.journal);
    } else if m.disk.journal.Absent? {
      assert Entries(m.disk) == [];
    } else {
      assert Goods(Lines(m.disk.journal)[..0]) == [];
    }
  }

  lemma StepKeepsInv(m: Machine, step: Step)
    requires Inv(m) && Enabled(m, step)
    ensures Inv(Next(m, step))
  {
    match step
    case Record(channel, payload, clock, id) => RecordKeepsInv(m, channel, payload, clock, id);
    case Materialize => MaterializeKeepsInv(m);
    case ReplayLine =>
      var line := Lines(m.disk.journal)[m.phase.next];
      if line.Good? && line.value.sequence > m.phase.materialized {
        ReplayMaterializeKeepsInv(m, line.value);
      } else {
        ReplaySkipKeepsInv(m);
      }
    case Recover => ReplayBoundsKeepInv(m, step);
    case EndReplay => ReplayBoundsKeepInv(m, step);
    case Truncate => TruncateKeepsInv(m);
    case Save => SaveKeepsInv(m);
    case Crash(damage) => CrashKeepsInv(m, damage);
  }

  lemma {:induction false} RunKeepsInv(m: Machine, steps: seq<Step>)
    requires Inv(m) && Legal(m, steps)
    ensures Inv(Run(m, steps))
  {
    if steps != [] {
      var front := steps[..|steps| - 1];
      RunKeepsInv(m, front);
      StepKeepsInv(Run(m, front), steps[|steps| - 1]);
    }
  }

  lemma FreshInv(d: Disk)
    requires Fresh(d)
    ensures Inv(Machine(d, Down))
  {
    assert Entries(d)[..0] == [];
  }

  // ---------------------------------------------------------------- what was recorded

  /** The records a run accepted, in call order. */
  ghost function Accepted(steps: seq<Step>, c: Channel): (r: seq<(Payload, nat)>) {
    if steps == [] then []
    else
      var front := Accepted(steps[..|steps| - 1], c);
      match steps[|steps| - 1]
      case Record(channel, payload, _, id) =>
        if channel == c && c != Unknown then front + [(payload, id)] else front
      case _ => front
  }

  ghost function Untimed(s: seq<Stored>): (r: seq<(Payload, nat)>)
    ensures |r| == |s| && forall i :: 0 <= i < |s| ==> r[i] == (s[i].payload, s[i].recordId)
  {
    seq(|s|, i requires 0 <= i < |s| => (s[i].payload, s[i].recordId))
  }

  lemma EntriesAfter(m: Machine, step: Step)
    requires Enabled(m, step)
    ensures Entries(Next(m, step).disk) ==
            if step.Record?
            then Entries(m.disk) + [NewEnvelope(m.disk, step.channel, step.payload, step.clock, step.id)]
            else Entries(m.disk)
  {
    if step.Record? {
      GoodsAppend(m.disk.journal, NewEnvelope(m.disk, step.channel, step.payload, step.clock, step.id));
    }
  }

  lemma StepAccepts(m: Machine, steps: seq<Step>, step: Step, c: Channel)
    requires Legal(m, steps) && Enabled(Run(m, steps), step)
    ensures var (d, d') := (Run(m, steps).disk, Next(Run(m, steps), step).disk);
            var accepted := if step.Record? && step.channel == c && c != Unknown then [(step.payload, step.id)] else [];
            && Untimed(Projection(Entries(d'), c)) == Untimed(Projection(Entries(d), c)) + accepted
            && Accepted(steps + [step], c) == Accepted(steps, c) + accepted
  {
    assert (steps + [step])[..|steps|] == steps;
    var before := Run(m, steps);
    EntriesAfter(before, step);
    if step.Record? {
      ProjectionAppend(Entries(before.disk), NewEnvelope(before.disk, step.channel, step.payload, step.clock, step.id), c);
    }
  }

  /** The journal holds what was recorded: nothing lost, nothing reordered, nothing made up. */
  lemma {:induction false} JournalHoldsAccepted(m: Machine, steps: seq<Step>, c: Channel)
    requires Legal(m, steps)
    ensures Untimed(Projection(Entries(Run(m, steps).disk), c)) ==
            Untimed(Projection(Entries(m.disk), c)) + Accepted(steps, c)
  {
    hide Goods, Projection, Untimed, Next, Enabled;
    var start := Untimed(Projection(Entries(m.disk), c));
    if steps == [] {
      assert start + [] == start;
    } else {
      var front, last := steps[..|steps| - 1], steps[|steps| - 1];
      assert front + [last] == steps;
      JournalHoldsAccepted(m, front, c);
      StepAccepts(m, front, last, c);
      var accepted := if last.Record? && last.channel == c && c != Unknown then [(last.payload, last.id)] else [];
      assert start + Accepted(front, c) + accepted == start + (Accepted(front, c) + accepted);
    }
  }

  // ---------------------------------------------------------------- main results

  /** Whatever the history of records, crashes and restarts, once the process is
      up a channel reads back as exactly the records accepted on it: each once, in call order. */
  lemma ExactlyOnce(d: Disk, steps: seq<Step>, c: Channel)
    requires Fresh(d) && Legal(Machine(d, Down), steps)
    requires Run(Machine(d, Down), steps).phase == Idle
    ensures var d' := Run(Machine(d, Down), steps).disk;
            && ReadBack(ChannelFile(d', c)) == Projection(Entries(d'), c)
            && Untimed(ReadBack(ChannelFile(d', c))) == Accepted(steps, c)
  {
    FreshInv(d);
    RunKeepsInv(Machine(d, Down), steps);
    JournalHoldsAccepted(Machine(d, Down), steps, c);
    var j := Entries(Run(Machine(d, Down), steps).disk);
    assert j[..|j|] == j;
  }

  /** At every micro-step of every run a reader sees a prefix of the journal's
      projection, short of at most the newest entry. */
  lemma ReadersSeeAPrefix(d: Disk, steps: seq<Step>, c: Channel)
    requires Fresh(d) && Legal(Machine(d, Down), steps)
    ensures var d' := Run(Machine(d, Down), steps).disk;
            var (j, r) := (Entries(d'), ReadBack(ChannelFile(d', c)));
            && r <= Projection(j, c)
            && (r == Projection(j, c) || (|j| > 0 && r == Projection(j[..|j| - 1], c)))
  {
    FreshInv(d);
    RunKeepsInv(Machine(d, Down), steps);
    var d' := Run(Machine(d, Down), steps).disk;
    var j := Entries(d');
    assert j[..|j|] == j;
    if !Complete(d') { ProjectionPrefix(j, |j| - 1, c); }
  }

  /** Sequence numbers strictly increase for any clock, and ids never repeat. */
  lemma SequencesIncrease(d: Disk, steps: seq<Step>)
    requires Fresh(d) && Legal(Machine(d, Down), steps)
    ensures var j := Entries(Run(Machine(d, Down), steps).disk);
            && (forall i, k :: 0 <= i < k < |j| ==> j[i].sequence < j[k].sequence)
            && (forall i, k :: 0 <= i < k < |j| ==> j[i].recordId != j[k].recordId)
  {
    FreshInv(d);
    RunKeepsInv(Machine(d, Down), steps);
  }

  lemma {:induction false} ProjectionContains(j: seq<Envelope>, i: nat)
    requires i < |j| && j[i].channel != Unknown
    ensures Strip(j[i]) in Projection(j, j[i].channel)
  {
    var front := j[..|j| - 1];
    if i < |front| {
      ProjectionContains(front, i);
    }
  }

  lemma BehindMark(d: Disk, i: nat)
    requires DiskInv(d) && i < |Entries(d)| && Entries(d)[i].channel != Unknown
    requires Entries(d)[i].sequence <= LoadedMark(d.state).lastMaterialized
    ensures Strip(Entries(d)[i]) in ReadBack(ChannelFile(d, Entries(d)[i].channel))
  {
    var j := Entries(d);
    var n := if Complete(d) then |j| else |j| - 1;
    assert i < n && j[..n][i] == j[i];
    ProjectionContains(j[..n], i);
    assert ReadBack(ChannelFile(d, j[i].channel)) == Projection(j[..n], j[i].channel);
  }

  /** Write-ahead order: an entry at or below the saved watermark is in its channel file,
      in every state, so skipping it during replay loses nothing. */
  lemma WatermarkIsBehind(d: Disk, steps: seq<Step>, i: nat)
    requires Fresh(d) && Legal(Machine(d, Down), steps)
    requires var d' := Run(Machine(d, Down), steps).disk;
             && i < |Entries(d')| && Entries(d')[i].channel != Unknown
             && Entries(d')[i].sequence <= LoadedMark(d'.state).lastMaterialized
    ensures var d' := Run(Machine(d, Down), steps).disk;
            Strip(Entries(d')[i]) in ReadBack(ChannelFile(d', Entries(d')[i].channel))
  {
    FreshInv(d);
    RunKeepsInv(Machine(d, Down), steps);
    BehindMark(Run(Machine(d, Down), steps).disk, i);
  }

  // ---------------------------------------------------------------- the watermark between crashes

  /** The watermark in force: what a load would find, or what is about to be written back. */
  function MarkInForce(m: Machine): Watermark {
    if m.phase.Truncated? then m.phase.mark else LoadedMark(m.disk.state)
  }

  predicate NoCrash(steps: seq<Step>) {
    forall i :: 0 <= i < |steps| ==> !steps[i].Crash?
  }

  lemma StepRaisesMark(m: Machine, step: Step)
    requires Inv(m) && Enabled(m, step) && !step.Crash?
    ensures MarkInForce(m).lastSequence <= MarkInForce(Next(m, step)).lastSequence
    ensures MarkInForce(m).lastMaterialized <= MarkInForce(Next(m, step)).lastMaterialized
  {
    hide DiskInv, Complete, NewestMissing, Goods, Covered;
  }

  /** Between crashes the watermark never moves down, whatever is recorded or replayed. */
  lemma {:induction false} WatermarkOnlyRises(m: Machine, steps: seq<Step>)
    requires Inv(m) && Legal(m, steps) && NoCrash(steps)
    ensures MarkInForce(m).lastSequence <= MarkInForce(Run(m, steps)).lastSequence
    ensures MarkInForce(m).lastMaterialized <= MarkInForce(Run(m, steps)).lastMaterialized
  {
    hide Inv;
    if steps != [] {
      var front := steps[..|steps| - 1];
      WatermarkOnlyRises(m, front);
      RunKeepsInv(m, front);
      StepRaisesMark(Run(m, front), steps[|steps| - 1]);
    }
  }

  // ---------------------------------------------------------------- the watermark exactly

  /** The sequence of the newest journal entry, 0 without one. */
  ghost function Newest(j: seq<Envelope>): int {
    if j == [] then 0 else j[|j| - 1].sequence
  }

  /** No watermark, saved or on its way, lies beyond the newest journal entry. */
  ghost predicate NotBeyond(m: Machine) {
    var j := Entries(m.disk);
    j != [] ==>
      && LoadedMark(m.disk.state).lastSequence <= Newest(j)
      && match m.phase
         case Flushing(mark) => mark.lastSequence <= Newest(j)
         case Truncated(mark) => mark.lastSequence <= Newest(j)
         case Replaying(_, seen, _) => seen <= Newest(j)
         case _ => true
  }

  lemma NewestIsLargest(d: Disk)
    requires Increasing(Entries(d))
    ensures Covered(Entries(d), Newest(Entries(d))) && Newest(Entries(d)) >= 0
  {
  }

  lemma RecordNotBeyond(m: Machine, step: Step)
    requires Inv(m) && NotBeyond(m) && Enabled(m, step) && step.Record?
    ensures NotBeyond(Next(m, step))
  {
    GoodsAppend(m.disk.journal, NewEnvelope(m.disk, step.channel, step.payload, step.clock, step.id));
  }

  lemma ReplayNotBeyond(m: Machine)
    requires Inv(m) && NotBeyond(m) && Enabled(m, ReplayLine)
    ensures NotBeyond(Next(m, ReplayLine))
  {
    var lines, i := Lines(m.disk.journal), m.phase.next;
    NewestIsLargest(m.disk);
    if lines[i].Good? { CursorEntry(lines, i); }
  }

  lemma StepNotBeyond(m: Machine, step: Step)
    requires Inv(m) && NotBeyond(m) && Enabled(m, step)
    ensures NotBeyond(Next(m, step))
  {
    if step.Record? {
      RecordNotBeyond(m, step);
    } else if step.ReplayLine? {
      ReplayNotBeyond(m);
    } else {
      hide Goods, Complete, NewestMissing;
      NewestIsLargest(m.disk);
      assert Entries(Next(m, step).disk) == Entries(m.disk);
    }
  }

  lemma {:induction false} RunNotBeyond(m: Machine, steps: seq<Step>)
    requires Inv(m) && NotBeyond(m) && Legal(m, steps)
    ensures NotBeyond(Run(m, steps))
  {
    hide Inv, NotBeyond;
    if steps != [] {
      var front := steps[..|steps| - 1];
      RunNotBeyond(m, front);
      RunKeepsInv(m, front);
      StepNotBeyond(Run(m, front), steps[|steps| - 1]);
    }
  }

  /** Whatever the history, once a call or the recovery has ended, both halves of the watermark are
      the sequence of the newest journal entry. */
  lemma WatermarkIsTheNewest(d: Disk, steps: seq<Step>)
    requires Fresh(d) && Legal(Machine(d, Down), steps)
    requires Run(Machine(d, Down), steps).phase == Idle && Entries(Run(Machine(d, Down), steps).disk) != []
    ensures var d' := Run(Machine(d, Down), steps).disk;
            LoadedMark(d'.state) == Watermark(Newest(Entries(d')), Newest(Entries(d')))
  {
    FreshInv(d);
    RunKeepsInv(Machine(d, Down), steps);
    RunNotBeyond(Machine(d, Down), steps);
    var d', j := Run(Machine(d, Down), steps).disk, Entries(Run(Machine(d, Down), steps).disk);
    assert j[|j| - 1].sequence <= LoadedMark(d'.state).lastSequence;
  }

  /** The next record's sequence is the clock's reading if that is new, and otherwise one above the
      newest entry. */
  lemma SequenceFollowsTheClock(d: Disk, steps: seq<Step>, record: Step)
    requires Fresh(d) && Legal(Machine(d, Down), steps) && record.Record?
    requires Enabled(Run(Machine(d, Down), steps), record) && Entries(Run(Machine(d, Down), steps).disk) != []
    ensures var m := Run(Machine(d, Down), steps);
            var j := Entries(m.disk);
            var next := if record.clock > Newest(j) then record.clock else Newest(j) + 1;
            Entries(Next(m, record).disk) == j + [Envelope(next, record.id, record.channel, record.payload)]
  {
    WatermarkIsTheNewest(d, steps);
    var m := Run(Machine(d, Down), steps);
    GoodsAppend(m.disk.journal, NewEnvelope(m.disk, record.channel, record.payload, record.clock, record.id));
  }

  // ---------------------------------------------------------------- a call that fails half-way

  /** A call that ends in a caught error leaves the process up with the disk as it stood. */
  function Interrupted(m: Machine): Machine {
    Machine(m.disk, Idle)
  }

  /** If the next call reads, the error is as harmless as a crash: both recoveries start alike. */
  lemma RecoveryHealsInterruption(m: Machine)
    ensures Next(Interrupted(m), Recover) == Next(Next(m, Crash(Intact)), Recover)
  {
  }

  ghost function RecordAfterError(m: Machine, channel: Channel, payload: Payload, clock: int, id: nat): Machine
    requires FreshId(Entries(m.disk), id)
  {
    var journaled := Next(Interrupted(m), Record(channel, payload, clock, id));
    Next(Next(Next(journaled, Materialize), Truncate), Save)
  }

  /** A reader of the entry's channel finds a record with its id. */
  ghost predicate OnFile(d: Disk, e: Envelope) {
    HasId(Goods(Lines(ChannelFile(d, e.channel))), e.recordId)
  }

  lemma OnFileAfter(d: Disk, d': Disk, x: Envelope, e: Envelope)
    requires d'.metrics == Materialized(d, x).metrics && d'.spans == Materialized(d, x).spans && d'.warnings == Materialized(d, x).warnings
    requires x.recordId != e.recordId
    ensures OnFile(d', e) == OnFile(d, e)
  {
    var f := ChannelFile(d, e.channel);
    if x.channel == e.channel && x.channel != Unknown {
      GoodsAppend(f, Strip(x));
      HasIdAppend(Goods(Lines(f)), Strip(x), e.recordId);
      assert ChannelFile(d', e.channel) == AppendLine(f, Strip(x));
    } else {
      assert ChannelFile(d', e.channel) == f;
    }
  }

  /** The entry is missing for readers and below the watermark, so that replay passes it by. */
  ghost predicate Skipped(m: Machine, e: Envelope) {
    && DistinctIds(Entries(m.disk)) && e in Entries(m.disk)
    && !OnFile(m.disk, e) && 1 <= e.sequence <= MarkInForce(m).lastMaterialized
    && (m.phase.Journaled? ==> m.phase.envelope.recordId != e.recordId)
    && (m.phase.Replaying? ==> m.phase.next <= |Lines(m.disk.journal)| && e.sequence <= m.phase.materialized)
  }

  lemma JournalAppend(d: Disk, x: Envelope)
    requires DistinctIds(Entries(d)) && FreshId(Entries(d), x.recordId)
    ensures var d' := d.(journal := AppendLine(d.journal, x));
            && Entries(d') == Entries(d) + [x] && DistinctIds(Entries(d'))
            && forall e :: e in Entries(d) ==> e in Entries(d') && x.recordId != e.recordId
  {
    GoodsAppend(d.journal, x);
  }

  lemma JournalGrows(d: Disk, x: Envelope)
    requires Complete(d) && DistinctIds(Entries(d)) && FreshId(Entries(d), x.recordId)
    ensures MaterializedUpTo(d.(journal := AppendLine(d.journal, x)), |Entries(d)|)
  {
    hide MaterializedUpTo;
    var j := Entries(d);
    JournalAppend(d, x);
    assert (j + [x])[..|j|] == j[..|j|];
    SameFiles(d, d.(journal := AppendLine(d.journal, x)), |j|);
  }

  /** An error after the entry has reached its channel file costs no record: the next one leaves the
      files complete again. */
  lemma RecordAfterErrorCompletes(m: Machine, channel: Channel, payload: Payload, clock: int, id: nat)
    requires Inv(m) && Complete(m.disk) && FreshId(Entries(m.disk), id)
    ensures Complete(RecordAfterError(m, channel, payload, clock, id).disk)
  {
    hide MaterializedUpTo, Goods, FreshId, DistinctIds, NewestMissing, Increasing, StateOk, Covered;
    var d, n := m.disk, |Entries(m.disk)|;
    var x := NewEnvelope(d, channel, payload, clock, id);
    var d' := d.(journal := AppendLine(d.journal, x));
    JournalAppend(d, x);
    JournalGrows(d, x);
    assert n < |Entries(d')| && Entries(d')[n] == x;
    MaterializeReadBack(d', x, n, n);
    OnlyStateChanged(Materialized(d', x), RecordAfterError(m, channel, payload, clock, id).disk.state);
  }

  lemma NotYetOnFile(d: Disk, e: Envelope)
    requires DiskInv(d) && NewestMissing(d, LoadedMark(d.state).lastMaterialized) && Entries(d)[|Entries(d)| - 1] == e
    ensures !OnFile(d, e)
  {
    var front := Entries(d)[..|Entries(d)| - 1];
    DedupIds(Goods(Lines(ChannelFile(d, e.channel))), e.recordId);
    assert ReadBack(ChannelFile(d, e.channel)) == Projection(front, e.channel);
    ProjectionIds(front, e.channel, e.recordId);
  }

  /** If instead the next call records, the entry that the error left out of its channel file is
      still out of it when that record is done; and replay will pass it by if and only if the new
      record's clock, or the old watermark, has reached its sequence. */
  lemma RecordAfterErrorSkips(m: Machine, e: Envelope, channel: Channel, payload: Payload, clock: int, id: nat)
    requires Inv(m) && m.phase == Journaled(e) && FreshId(Entries(m.disk), id)
    ensures var m' := RecordAfterError(m, channel, payload, clock, id);
            && !OnFile(m'.disk, e)
            && (Skipped(m', e) <==> e.sequence <= MaxInt(LoadedMark(m.disk.state).lastSequence + 1, clock))
  {
    hide MaterializedUpTo, Goods, FreshId, DistinctIds, Increasing, Covered, OnFile;
    var d := m.disk;
    var x := NewEnvelope(d, channel, payload, clock, id);
    var m' := RecordAfterError(m, channel, payload, clock, id);
    JournalAppend(d, x);
    assert Entries(d)[|Entries(d)| - 1] == e && Entries(m'.disk) == Entries(d) + [x];
    PositiveSequence(d, e);
    NotYetOnFile(d, e);
    OnFileAfter(d, m'.disk, x, e);
  }

  lemma PositiveSequence(d: Disk, e: Envelope)
    requires DiskInv(d) && e in Entries(d)
    ensures e.sequence >= 1
  {
  }

  lemma SameChannelFiles(d: Disk, d': Disk, e: Envelope)
    requires d'.metrics == d.metrics && d'.spans == d.spans && d'.warnings == d.warnings
    ensures OnFile(d', e) == OnFile(d, e)
  {
    assert ChannelFile(d', e.channel) == ChannelFile(d, e.channel);
  }

  lemma StepKeepsSkipped(m: Machine, step: Step, e: Envelope)
    requires Skipped(m, e) && Enabled(m, step) && !step.Crash?
    ensures Skipped(Next(m, step), e)
  {
    var m' := Next(m, step);
    if step.Record? {
      GoodsAppend(m.disk.journal, NewEnvelope(m.disk, step.channel, step.payload, step.clock, step.id));
      SameChannelFiles(m.disk, m'.disk, e);
    } else if step.Materialize? {
      OnFileAfter(m.disk, m'.disk, m.phase.envelope, e);
    } else if step.ReplayLine? {
      ReplayKeepsSkipped(m, e);
    } else {
      SameChannelFiles(m.disk, m'.disk, e);
    }
  }

  lemma ReplayKeepsSkipped(m: Machine, e: Envelope)
    requires Skipped(m, e) && Enabled(m, ReplayLine)
    ensures Skipped(Next(m, ReplayLine), e)
  {
    var line := Lines(m.disk.journal)[m.phase.next];
    if line.Good? && line.value.sequence > m.phase.materialized {
      var x := line.value;
      CursorEntry(Lines(m.disk.journal), m.phase.next);
      assert x in Entries(m.disk);
      assert x.recordId != e.recordId;
      OnFileAfter(m.disk, Next(m, ReplayLine).disk, x, e);
      assert Entries(Next(m, ReplayLine).disk) == Entries(m.disk);
    }
  }

  /** Such an entry stays missing through every call, recovery included, until a crash costs the
      watermark itself. */
  lemma {:induction false} SkippedStaysSkipped(m: Machine, steps: seq<Step>, e: Envelope)
    requires Skipped(m, e) && Legal(m, steps) && NoCrash(steps)
    ensures Skipped(Run(m, steps), e)
  {
    hide Skipped;
    if steps != [] {
      var front := steps[..|steps| - 1];
      SkippedStaysSkipped(m, front, e);
      StepKeepsSkipped(Run(m, front), steps[|steps| - 1], e);
    }
  }
}
