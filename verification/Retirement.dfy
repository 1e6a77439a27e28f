/** The local retirement coordinator: it moves the raw output of a closing terminal from the reader's
    pending log through its own `durable` batch into a journal, while the reader keeps producing. */
module Retirement {
  import opened Identity
  import opened Octets

  const JOURNAL_LIMIT: nat := 16 * 1024 * 1024
  const HEADER_BYTES: nat := 9
  const FRAME_HEADER_BYTES: nat := 13
  const U64_MAX: nat := 0xFFFF_FFFF_FFFF_FFFF
  /** The size of the reader's buffer: no read returns more. */
  const READ_BUFFER: nat := 65_536

  datatype FrameKind = Output | Resize | Clear

  datatype Frame = Frame(kind: FrameKind, payload: seq<byte>)

  /** A frame with the sequence number it carries in the journal. */
  datatype Numbered = Numbered(number: nat, frame: Frame)

  // ---------------------------------------------------------------------------------------------
  // The terminal handle, as far as retirement can see it

  datatype Reader =
    | Idle | Reading | PauseRequested | Paused | Draining | DrainReading | Eof | Failed

  /** `woundDown` stands for the remaining physical conditions: reader thread finished, child
      reaped, writer finished, master closed. `produced` is the history of every retained frame. */
  datatype Pty = Pty(
    reader: Reader, pending: seq<Frame>, produced: seq<Frame>,
    woundDown: bool, restoring: bool, logExhausted: bool)

  /** What the reader thread and the operating system may do between two lock-held sections. */
  datatype PtyEvent = BeginRead | Retain(raw: seq<byte>) | FinishRead | HitEof | FailRead | WindDown | Restored

  predicate InFlight(reader: Reader) {
    reader.Reading? || reader.PauseRequested? || reader.DrainReading?
  }

  /** What a read returned is retained as one output frame. */
  predicate Retains(p: Pty, raw: seq<byte>) {
    InFlight(p.reader) && 0 < |raw| <= READ_BUFFER
  }

  function PtyStep(p: Pty, e: PtyEvent): Pty {
    match e
    case BeginRead =>
      if p.reader.Idle? then p.(reader := Reading)
      else if p.reader.Draining? then p.(reader := DrainReading)
      else p
    case Retain(raw) =>
      if Retains(p, raw) then
        p.(pending := p.pending + [Frame(Output, raw)], produced := p.produced + [Frame(Output, raw)])
      else p
    case FinishRead =>
      (match p.reader
       case Reading => p.(reader := Idle)
       case PauseRequested => p.(reader := Paused)
       case DrainReading => p.(reader := Draining)
       case _ => p)
    case HitEof => if InFlight(p.reader) then p.(reader := Eof) else p
    case FailRead => if p.woundDown then p else p.(reader := Failed)
    case WindDown => p.(woundDown := true)
    case Restored => p.(restoring := false)
  }

  function PtyRun(p: Pty, events: seq<PtyEvent>): Pty
    decreases |events|
  {
    if events == [] then p else PtyRun(PtyStep(p, events[0]), events[1..])
  }

  function ClaimLog(p: Pty): Pty {
    match p.reader
    case Idle => p.(reader := Paused)
    case Reading => p.(reader := PauseRequested)
    case _ => p
  }

  predicate PhysicalComplete(p: Pty) {
    p.reader.Eof? && p.woundDown
  }

  /** No more output can appear: no read is under way and none can start. */
  predicate Silent(p: Pty) {
    p.reader.Eof? || p.reader.Failed?
  }

  lemma {:induction false} RunWindsDown(p: Pty, events: seq<PtyEvent>)
    ensures PtyRun(p, events).woundDown <==> p.woundDown || WindDown in events
    decreases |events|
  {
    if events != [] {
      assert events == [events[0]] + events[1..];
      RunWindsDown(PtyStep(p, events[0]), events[1..]);
    }
  }

  lemma StepAppends(p: Pty, e: PtyEvent) returns (more: seq<Frame>)
    ensures PtyStep(p, e).produced == p.produced + more && PtyStep(p, e).pending == p.pending + more
    ensures Silent(p) ==> more == [] && Silent(PtyStep(p, e))
    ensures PhysicalComplete(p) ==> PhysicalComplete(PtyStep(p, e))
  {
    more := if e.Retain? && Retains(p, e.raw) then [Frame(Output, e.raw)] else [];
  }

  /** Output is only ever appended, to the history and to the pending log alike. */
  lemma {:induction false} RunAppends(p: Pty, events: seq<PtyEvent>) returns (more: seq<Frame>)
    ensures PtyRun(p, events).produced == p.produced + more
    ensures PtyRun(p, events).pending == p.pending + more
    ensures Silent(p) ==> more == [] && Silent(PtyRun(p, events))
    ensures PhysicalComplete(p) ==> PhysicalComplete(PtyRun(p, events))
    decreases |events|
  {
    if events == [] {
      more := [];
    } else {
      hide PtyStep, Silent, PhysicalComplete;
      var first := StepAppends(p, events[0]);
      var rest := RunAppends(PtyStep(p, events[0]), events[1..]);
      more := first + rest;
      assert p.produced + first + rest == p.produced + more;
      assert p.pending + first + rest == p.pending + more;
    }
  }

  /** Once physically complete, nothing the outside world does can add to the history. */
  lemma CompleteIsFinal(p: Pty, events: seq<PtyEvent>)
    requires PhysicalComplete(p)
    ensures PtyRun(p, events).produced == p.produced && PhysicalComplete(PtyRun(p, events))
  {
    var more := RunAppends(p, events);
  }

  /** A paused reader produces nothing until it is resumed. */
  lemma {:induction false} PausedIsSilent(p: Pty, events: seq<PtyEvent>)
    requires p.reader.Paused?
    ensures var p' := PtyRun(p, events);
            p'.produced == p.produced && p'.pending == p.pending && (p'.reader.Paused? || p'.reader.Failed?)
    decreases |events|
  {
    if events != [] {
      if PtyStep(p, events[0]).reader.Paused? {
        PausedIsSilent(PtyStep(p, events[0]), events[1..]);
      } else {
        var more := RunAppends(PtyStep(p, events[0]), events[1..]);
        FailedStays(PtyStep(p, events[0]), events[1..]);
      }
    }
  }

  lemma {:induction false} FailedStays(p: Pty, events: seq<PtyEvent>)
    requires p.reader.Failed?
    ensures PtyRun(p, events).reader.Failed?
    decreases |events|
  {
    if events != [] { FailedStays(PtyStep(p, events[0]), events[1..]); }
  }

  /** The claim pauses an idle reader at once and a reading one after its read, which is still retained. */
  lemma ClaimPauses(p: Pty, raw: seq<byte>)
    requires p.reader.Idle? || (p.reader.Reading? && 0 < |raw| <= READ_BUFFER)
    ensures p.reader.Idle? ==> ClaimLog(p).reader.Paused?
    ensures p.reader.Reading? ==>
              PtyRun(ClaimLog(p), [BeginRead, Retain(raw), FinishRead])
              == p.(reader := Paused, pending := p.pending + [Frame(Output, raw)],
                    produced := p.produced + [Frame(Output, raw)])
  {
    if p.reader.Reading? {
      var frame := Frame(Output, raw);
      var claimed := p.(reader := PauseRequested);
      var retained := claimed.(pending := p.pending + [frame], produced := p.produced + [frame]);
      assert [BeginRead, Retain(raw), FinishRead] == [BeginRead] + ([Retain(raw)] + ([FinishRead] + []));
      RunStep(claimed, BeginRead, [Retain(raw)] + ([FinishRead] + []));
      RunStep(claimed, Retain(raw), [FinishRead] + []);
      RunStep(retained, FinishRead, []);
    }
  }

  // ---------------------------------------------------------------------------------------------
  // The journal file

  /** `torn` counts bytes of a truncated frame after the last complete one. */
  datatype Journal = Absent | Present(frames: seq<Numbered>, torn: nat)

  /** How one attempt to write a batch ended. After a failed rollback the file may keep some complete
      frames of the batch and part of the next one. */
  datatype DiskOutcome =
    | Written
    | HeaderFailed
    | RolledBack
    | RollbackFailed(kept: nat, torn: nat)

  function Size(frames: seq<Numbered>): nat {
    if frames == [] then 0
    else Size(frames[..|frames| - 1]) + FRAME_HEADER_BYTES + |frames[|frames| - 1].frame.payload|
  }

  function FileBytes(journal: Journal): nat {
    match journal
    case Absent => 0
    case Present(frames, torn) => HEADER_BYTES + Size(frames) + torn
  }

  function Frames(journal: Journal): seq<Numbered> {
    if journal.Present? then journal.frames else []
  }

  /** A disk can only keep a prefix of what it was asked to write. */
  predicate Possible(outcome: DiskOutcome, batch: seq<Numbered>) {
    outcome.RollbackFailed? ==>
      outcome.kept <= |batch| && Size(batch[..outcome.kept]) + outcome.torn <= Size(batch)
  }

  function Feasible(outcome: DiskOutcome, batch: seq<Numbered>): (clipped: DiskOutcome)
    ensures Possible(clipped, batch)
  {
    if Possible(outcome, batch) then outcome else RolledBack
  }

  predicate Continues(journal: Journal, batch: seq<Numbered>) {
    var frames := Frames(journal);
    frames == [] || batch == [] || batch[0].number == frames[|frames| - 1].number + 1
  }

  /** Append a batch: the sequence check comes before any write, a torn tail is cut first. */
  function AppendFrames(journal: Journal, batch: seq<Numbered>, outcome: DiskOutcome): (Journal, bool)
    requires Possible(outcome, batch)
  {
    if journal.Absent? && outcome.HeaderFailed? then (journal, false)
    else
      var frames := Frames(journal);
      if !Continues(journal, batch) then
        (if journal.Absent? then Present([], 0) else journal, false)
      else
        match outcome
        case Written => (Present(frames + batch, 0), true)
        case RollbackFailed(kept, torn) => (Present(frames + batch[..kept], torn), false)
        case _ => (Present(frames, 0), false)
  }

  function Renumber(frames: seq<Frame>, first: nat): seq<Numbered> {
    seq(|frames|, i requires 0 <= i < |frames| => Numbered(first + i, frames[i]))
  }

  lemma {:induction false} SizeAppend(a: seq<Numbered>, b: seq<Numbered>)
    ensures Size(a + b) == Size(a) + Size(b)
    decreases |b|
  {
    if b == [] {
      assert a + b == a;
    } else {
      SizeAppend(a, b[..|b| - 1]);
      assert (a + b)[..|a + b| - 1] == a + b[..|b| - 1];
    }
  }

  /** An append that passed the size check never takes the file more than a header past the limit. */
  lemma AppendFits(journal: Journal, batch: seq<Numbered>, outcome: DiskOutcome)
    requires Possible(outcome, batch)
    requires FileBytes(journal) + Size(batch) <= JOURNAL_LIMIT
    ensures var after := AppendFrames(journal, batch, outcome).0;
            Size(Frames(after)) <= JOURNAL_LIMIT && FileBytes(after) <= HEADER_BYTES + JOURNAL_LIMIT
  {
    SizeAppend(Frames(journal), batch);
    if outcome.RollbackFailed? {
      SizeAppend(Frames(journal), batch[..outcome.kept]);
    }
  }

  /** The size check does not count the header of a file that does not exist yet: an append that
      passed it stays within the limit, however the disk behaves, exactly when the file existed or its
      header still fitted. */
  lemma JournalLimitExact(journal: Journal, batch: seq<Numbered>)
    requires FileBytes(journal) + Size(batch) <= JOURNAL_LIMIT
    ensures (forall outcome | Possible(outcome, batch) :: FileBytes(AppendFrames(journal, batch, outcome).0) <= JOURNAL_LIMIT)
            <==> journal.Present? || HEADER_BYTES + Size(batch) <= JOURNAL_LIMIT
  {
    if journal.Present? || HEADER_BYTES + Size(batch) <= JOURNAL_LIMIT {
      forall outcome | Possible(outcome, batch)
        ensures FileBytes(AppendFrames(journal, batch, outcome).0) <= JOURNAL_LIMIT
      {
        AppendKeepsLimit(journal, batch, outcome);
      }
    } else {
      assert Possible(Written, batch) && [] + batch == batch;
      assert FileBytes(AppendFrames(journal, batch, Written).0) > JOURNAL_LIMIT;
    }
  }

  lemma {:induction false} AppendBytes(journal: Journal, batch: seq<Numbered>, outcome: DiskOutcome)
    requires Possible(outcome, batch)
    ensures FileBytes(AppendFrames(journal, batch, outcome).0)
            <= (if journal.Absent? then HEADER_BYTES else FileBytes(journal)) + Size(batch)
  {
    var frames := Frames(journal);
    SizeAppend(frames, batch);
    if outcome.RollbackFailed? { SizeAppend(frames, batch[..outcome.kept]); }
    hide Size;
  }

  lemma AppendKeepsLimit(journal: Journal, batch: seq<Numbered>, outcome: DiskOutcome)
    requires Possible(outcome, batch) && FileBytes(journal) + Size(batch) <= JOURNAL_LIMIT
    requires journal.Present? || HEADER_BYTES + Size(batch) <= JOURNAL_LIMIT
    ensures FileBytes(AppendFrames(journal, batch, outcome).0) <= JOURNAL_LIMIT
  {
    hide AppendFrames, Size, Possible;
    AppendBytes(journal, batch, outcome);
  }

  /** One attempt of the coordinator to append a batch. */
  datatype Attempt = Attempt(batch: seq<Numbered>, outcome: DiskOutcome)

  /** The file after some attempts; one that does not pass the size check does not touch it. */
  function AfterAttempts(journal: Journal, attempts: seq<Attempt>): Journal
    decreases |attempts|
  {
    if attempts == [] then journal
    else
      var a := attempts[0];
      var next := if Possible(a.outcome, a.batch) && FileBytes(journal) + Size(a.batch) <= JOURNAL_LIMIT
                  then AppendFrames(journal, a.batch, a.outcome).0 else journal;
      AfterAttempts(next, attempts[1..])
  }

  lemma {:induction false} AttemptsKeepLimit(journal: Journal, attempts: seq<Attempt>)
    requires journal.Present? && FileBytes(journal) <= JOURNAL_LIMIT
    ensures FileBytes(AfterAttempts(journal, attempts)) <= JOURNAL_LIMIT
    decreases |attempts|
  {
    if attempts != [] {
      var a := attempts[0];
      if Possible(a.outcome, a.batch) && FileBytes(journal) + Size(a.batch) <= JOURNAL_LIMIT {
        AppendKeepsLimit(journal, a.batch, a.outcome);
        AttemptsKeepLimit(AppendFrames(journal, a.batch, a.outcome).0, attempts[1..]);
      } else {
        AttemptsKeepLimit(journal, attempts[1..]);
      }
    }
  }

  /** The batch whose append creates the file decides for good: the file stays within the limit over
      every later sequence of attempts and however the disk behaves, exactly when this batch left room
      for the header. */
  lemma FirstBatchDecides(batch: seq<Numbered>)
    requires Size(batch) <= JOURNAL_LIMIT
    ensures (forall outcome, later | Possible(outcome, batch) && !outcome.HeaderFailed? ::
               FileBytes(AfterAttempts(AppendFrames(Absent, batch, outcome).0, later)) <= JOURNAL_LIMIT)
            <==> HEADER_BYTES + Size(batch) <= JOURNAL_LIMIT
  {
    if HEADER_BYTES + Size(batch) <= JOURNAL_LIMIT {
      forall outcome, later | Possible(outcome, batch) && !outcome.HeaderFailed?
        ensures FileBytes(AfterAttempts(AppendFrames(Absent, batch, outcome).0, later)) <= JOURNAL_LIMIT
      {
        AppendKeepsLimit(Absent, batch, outcome);
        AttemptsKeepLimit(AppendFrames(Absent, batch, outcome).0, later);
      }
    } else {
      var written := AppendFrames(Absent, batch, Written).0;
      assert Possible(Written, batch) && AfterAttempts(written, []) == written && [] + batch == batch;
      assert FileBytes(AfterAttempts(written, [])) > JOURNAL_LIMIT;
    }
  }

  /** What is known of the batch that created the file. */
  function CreatedBy(journal: Journal, created: Option<nat>, batch: seq<Numbered>, outcome: DiskOutcome): Option<nat> {
    if journal.Absent? && !outcome.HeaderFailed? then Some(Size(batch)) else created
  }

  ghost predicate Within(journal: Journal, created: Option<nat>) {
    && (journal.Present? <==> created.Some?)
    && (created.Some? && HEADER_BYTES + created.value <= JOURNAL_LIMIT ==> FileBytes(journal) <= JOURNAL_LIMIT)
  }

  lemma CreatesFile(journal: Journal, batch: seq<Numbered>, outcome: DiskOutcome)
    requires Possible(outcome, batch)
    ensures AppendFrames(journal, batch, outcome).0.Present? <==> journal.Present? || !outcome.HeaderFailed?
  {}

  lemma AppendStaysWithin(journal: Journal, created: Option<nat>, batch: seq<Numbered>, outcome: DiskOutcome)
    requires Within(journal, created) && Possible(outcome, batch)
    requires FileBytes(journal) + Size(batch) <= JOURNAL_LIMIT
    ensures Within(AppendFrames(journal, batch, outcome).0, CreatedBy(journal, created, batch, outcome))
  {
    if journal.Present? || HEADER_BYTES + Size(batch) <= JOURNAL_LIMIT { AppendKeepsLimit(journal, batch, outcome); }
  }

  // A batch that fills the limit exactly, as the reader produces it.

  /** The events of reads that each return the given bytes. */
  function Reads(raws: seq<seq<byte>>): seq<PtyEvent> {
    if raws == [] then [] else [BeginRead, Retain(raws[0]), FinishRead] + Reads(raws[1..])
  }

  function OutputFrames(raws: seq<seq<byte>>): seq<Frame> {
    seq(|raws|, i requires 0 <= i < |raws| => Frame(Output, raws[i]))
  }

  lemma RunStep(p: Pty, e: PtyEvent, rest: seq<PtyEvent>)
    ensures PtyRun(p, [e] + rest) == PtyRun(PtyStep(p, e), rest)
  {}

  lemma {:induction false} ReadsProduce(p: Pty, raws: seq<seq<byte>>)
    requires p.reader.Idle? && forall i | 0 <= i < |raws| :: 0 < |raws[i]| <= READ_BUFFER
    ensures PtyRun(p, Reads(raws))
            == p.(pending := p.pending + OutputFrames(raws), produced := p.produced + OutputFrames(raws))
    decreases |raws|
  {
    if raws != [] {
      var frame := Frame(Output, raws[0]);
      var rest := Reads(raws[1..]);
      var next := p.(pending := p.pending + [frame], produced := p.produced + [frame]);
      assert Reads(raws) == [BeginRead] + ([Retain(raws[0])] + ([FinishRead] + rest));
      RunStep(p, BeginRead, [Retain(raws[0])] + ([FinishRead] + rest));
      RunStep(p.(reader := Reading), Retain(raws[0]), [FinishRead] + rest);
      RunStep(next.(reader := Reading), FinishRead, rest);
      ReadsProduce(next, raws[1..]);
      assert OutputFrames(raws) == [frame] + OutputFrames(raws[1..]);
      assert next.pending + OutputFrames(raws[1..]) == p.pending + OutputFrames(raws);
      assert next.produced + OutputFrames(raws[1..]) == p.produced + OutputFrames(raws);
    }
  }

  lemma {:induction false} UniformSize(batch: seq<Numbered>, bytes: nat)
    requires forall i | 0 <= i < |batch| :: |batch[i].frame.payload| == bytes
    ensures Size(batch) == |batch| * (FRAME_HEADER_BYTES + bytes)
    decreases |batch|
  {
    if batch != [] { UniformSize(batch[..|batch| - 1], bytes); }
  }

  /** 255 full reads and a shorter one: with the frame headers, exactly the limit. */
  function ManyReads(): (raws: seq<seq<byte>>)
    ensures |raws| == 256 && (forall i | 0 <= i < 255 :: |raws[i]| == READ_BUFFER) && |raws[255]| == 62_208
  {
    seq(255, (i: int) => seq(READ_BUFFER, (j: int) => 0 as byte)) + [seq(62_208, (j: int) => 0 as byte)]
  }

  lemma ManyReadsFillTheLimit(batch: seq<Numbered>)
    requires batch == Renumber(OutputFrames(ManyReads()), 1)
    ensures Size(batch) == JOURNAL_LIMIT
  {
    hide Size;
    UniformSize(batch[..255], READ_BUFFER);
    UniformSize([batch[255]], 62_208);
    SizeAppend(batch[..255], [batch[255]]);
    assert batch == batch[..255] + [batch[255]];
  }

  /** While nothing drains the log, 256 reads of at most one buffer each fill the limit exactly: the
      first append of the coordinator is accepted and leaves a file nine bytes too large. */
  lemma FirstAppendOvershoots() returns (raws: seq<seq<byte>>, batch: seq<Numbered>)
    ensures forall i | 0 <= i < |raws| :: 0 < |raws[i]| <= READ_BUFFER
    ensures var idle := Pty(Idle, [], [], false, false, false);
            PtyRun(idle, Reads(raws)).pending == OutputFrames(raws)
    ensures batch == Renumber(OutputFrames(raws), 1)
    ensures FileBytes(Absent) + Size(batch) <= JOURNAL_LIMIT
    ensures AppendFrames(Absent, batch, Written).1
    ensures FileBytes(AppendFrames(Absent, batch, Written).0) == JOURNAL_LIMIT + 9
  {
    hide Size, PtyRun, Reads;
    raws := ManyReads();
    batch := Renumber(OutputFrames(raws), 1);
    var idle := Pty(Idle, [], [], false, false, false);
    ReadsProduce(idle, raws);
    assert idle.pending + OutputFrames(raws) == OutputFrames(raws);
    ManyReadsFillTheLimit(batch);
    assert [] + batch == batch;
  }

  /** Reading the tail before sampling the boundary would not do: between the two, the reader can
      retain a last frame, reach EOF and wind down, and the sample then hides that frame. */
  lemma SampleAfterTailLosesOutput(raw: seq<byte>) returns (afterTail: Pty, between: seq<PtyEvent>)
    requires 0 < |raw| <= READ_BUFFER
    ensures afterTail.reader.Draining? && afterTail.pending == [] && afterTail.produced == []
    ensures PhysicalComplete(PtyRun(afterTail, between))
    ensures PtyRun(afterTail, between).pending == [Frame(Output, raw)]
  {
    afterTail := Pty(Draining, [], [], false, false, false);
    between := [BeginRead, Retain(raw), HitEof, WindDown];
    var frame := Frame(Output, raw);
    calc {
      PtyRun(afterTail, between);
      { assert between[1..] == [Retain(raw), HitEof, WindDown]; }
      PtyRun(afterTail.(reader := DrainReading), [Retain(raw), HitEof, WindDown]);
      { assert [Retain(raw), HitEof, WindDown][1..] == [HitEof, WindDown]; }
      PtyRun(Pty(DrainReading, [frame], [frame], false, false, false), [HitEof, WindDown]);
      { assert [HitEof, WindDown][1..] == [WindDown]; }
      PtyRun(Pty(Eof, [frame], [frame], false, false, false), [WindDown]);
      Pty(Eof, [frame], [frame], true, false, false);
    }
  }

  // ---------------------------------------------------------------------------------------------
  // Conservation

  /** Everything produced is, exactly once and in order, first in the acknowledged part of the
      journal, then in the durable batch, then pending. */
  ghost predicate Conserved(p: Pty, acknowledged: seq<Numbered>, durable: seq<Numbered>) {
    Renumber(p.produced, 1)
    == acknowledged + durable + Renumber(p.pending, |acknowledged| + |durable| + 1)
  }

  lemma RenumberAppend(a: seq<Frame>, b: seq<Frame>, first: nat)
    ensures Renumber(a + b, first) == Renumber(a, first) + Renumber(b, first + |a|)
  {}

  lemma ProductionConserves(p: Pty, p': Pty, more: seq<Frame>, acknowledged: seq<Numbered>, durable: seq<Numbered>)
    requires Conserved(p, acknowledged, durable)
    requires p'.produced == p.produced + more && p'.pending == p.pending + more
    ensures Conserved(p', acknowledged, durable)
  {
    var n := |acknowledged| + |durable|;
    assert |Renumber(p.produced, 1)| == |acknowledged + durable + Renumber(p.pending, n + 1)|;
    RenumberAppend(p.produced, more, 1);
    RenumberAppend(p.pending, more, n + 1);
  }

  lemma TransferConserves(p: Pty, acknowledged: seq<Numbered>, durable: seq<Numbered>)
    requires Conserved(p, acknowledged, durable)
    ensures var moved := Renumber(p.pending, |acknowledged| + |durable| + 1);
            Conserved(p.(pending := []), acknowledged, durable + moved)
  {}

  lemma AcknowledgeConserves(p: Pty, acknowledged: seq<Numbered>, durable: seq<Numbered>)
    requires Conserved(p, acknowledged, durable)
    ensures Conserved(p, acknowledged + durable, [])
  {}

  /** The sequence check accepts the batch exactly when no earlier attempt left frames behind. */
  lemma ResidueBlocks(p: Pty, acknowledged: seq<Numbered>, durable: seq<Numbered>, residue: nat, journal: Journal)
    requires Conserved(p, acknowledged, durable)
    requires durable != [] && residue <= |durable|
    requires Frames(journal) == acknowledged + durable[..residue]
    ensures Continues(journal, durable) <==> residue == 0
  {
    var all, n := Renumber(p.produced, 1), |acknowledged|;
    assert all[n] == durable[0];
    assert n > 0 ==> all[n - 1] == acknowledged[n - 1];
    assert residue > 0 ==> all[n + residue - 1] == durable[residue - 1];
  }

  /** What one append attempt does to the file: a complete append acknowledges the batch and needs a
      file without residue; a failed one leaves the acknowledged part and a prefix of the batch. */
  lemma AppendEffect(p: Pty, acknowledged: seq<Numbered>, durable: seq<Numbered>, residue: nat,
                     journal: Journal, outcome: DiskOutcome)
    requires Conserved(p, acknowledged, durable)
    requires durable != [] && residue <= |durable| && Possible(outcome, durable)
    requires Frames(journal) == acknowledged + durable[..residue]
    ensures var (after, ok) := AppendFrames(journal, durable, outcome);
            && (ok <==> residue == 0 && outcome.Written?)
            && (ok ==> after == Present(acknowledged + durable, 0) && Frames(after) == acknowledged + durable)
            && (!ok ==> Frames(after) == acknowledged + durable[..ResidueAfter(residue, outcome)])
            && (!ok ==> ResidueAfter(residue, outcome) <= |durable|)
  {
    ResidueBlocks(p, acknowledged, durable, residue, journal);
  }

  function ResidueAfter(residue: nat, outcome: DiskOutcome): nat {
    if residue == 0 && outcome.RollbackFailed? then outcome.kept else residue
  }

  // ---------------------------------------------------------------------------------------------
  // The coordinator

  /** Everything the outside world decides during one call of Advance: what the reader does in each
      gap between two lock-held sections, and how the fence, the disk and the thread spawn end. */
  datatype Turn = Turn(
    fenced: bool, directoryReady: bool,
    beforePrefix: seq<PtyEvent>, firstWrite: DiskOutcome,
    beforeDrain: seq<PtyEvent>, closerStarted: bool,
    beforeSample: seq<PtyEvent>, beforeTail: seq<PtyEvent>,
    secondWrite: DiskOutcome, beforeCheckpoint: seq<PtyEvent>)

  /** Whether the remaining physical conditions are met, the child reaped among them, at some time
      during the call. */
  predicate Winds(turn: Turn) {
    || WindDown in turn.beforePrefix || WindDown in turn.beforeDrain || WindDown in turn.beforeSample
    || WindDown in turn.beforeTail || WindDown in turn.beforeCheckpoint
  }

  datatype Progress = Confirmed | Waiting | Refused

  /** Nothing goes wrong during the call, and nothing else happens. */
  predicate Smooth(turn: Turn) {
    && turn.fenced && turn.directoryReady && turn.closerStarted && turn.firstWrite.Written? && turn.secondWrite.Written?
    && turn.beforePrefix == [] && turn.beforeDrain == [] && turn.beforeSample == [] && turn.beforeTail == []
    && turn.beforeCheckpoint == []
  }

  /** What the file and the batch in it would take, its header included. */
  function Needed(journal: Journal, batch: seq<Numbered>): nat {
    (if journal.Absent? then HEADER_BYTES else FileBytes(journal)) + Size(batch)
  }

  /** Appending the batch leaves as much room for the rest. */
  lemma NeedsNoMore(journal: Journal, acknowledged: seq<Numbered>, batch: seq<Numbered>, rest: seq<Numbered>)
    requires Frames(journal) == acknowledged + batch[..0]
    ensures Needed(Present(acknowledged + batch, 0), [] + rest) <= Needed(journal, batch + rest)
    ensures batch == [] ==> Needed(journal, [] + rest) == Needed(journal, batch + rest)
  {
    SizeAppend(batch, rest);
    SizeAppend(acknowledged, batch);
    assert batch[..0] == [] && acknowledged + [] == acknowledged && [] + rest == rest;
    hide Size;
  }

  class LocalRetirement {
    var pty: Pty
    var journal: Journal
    var journalNamed: bool
    var durable: seq<Numbered>
    var destSeq: nat
    var prefixCaptured: bool
    var draining: bool
    var fenced: bool

    /** The part of the journal that complete appends have acknowledged. */
    ghost var acknowledged: seq<Numbered>
    /** How many frames of `durable` a failed rollback left in the file; while there are any, every
        append is refused. */
    ghost var residue: nat
    /** The size of the batch whose append created the file. */
    ghost var created: Option<nat>

    ghost predicate Valid()
      reads `pty, `journal, `durable, `destSeq, `acknowledged, `residue, `created
    {
      && Conserved(pty, acknowledged, durable)
      && destSeq == |acknowledged| + |durable|
      && residue <= |durable|
      && Frames(journal) == acknowledged + durable[..residue]
      && Size(Frames(journal)) <= JOURNAL_LIMIT
      && FileBytes(journal) <= HEADER_BYTES + JOURNAL_LIMIT
      && Within(journal, created)
    }

    /** The terminal has ended for good, and the journal has room for all that is left of it. */
    ghost predicate Room()
      reads `pty, `journal, `durable, `destSeq, `residue
    {
      && PhysicalComplete(pty) && !pty.restoring && !pty.logExhausted && destSeq + |pty.pending| <= U64_MAX
      && residue == 0 && Needed(journal, durable + Renumber(pty.pending, destSeq + 1)) <= JOURNAL_LIMIT
    }

    lemma RoomForBatch()
      requires Room()
      ensures FileBytes(journal) + Size(durable) <= JOURNAL_LIMIT && residue == 0 && PhysicalComplete(pty)
      ensures pty.reader.Eof? && ClaimLog(pty) == pty && !pty.restoring && !pty.logExhausted
      ensures destSeq + |pty.pending| <= U64_MAX
    {
      SizeAppend(durable, Renumber(pty.pending, destSeq + 1));
    }

    /** Transferring the pending log leaves as much room. */
    twostate lemma RoomAfterTransfer()
      requires old(Room()) && old(Valid()) && Valid() && journal == old(journal) && residue == old(residue)
      requires pty == old(pty).(pending := []) && durable == old(durable) + Renumber(old(pty).pending, old(destSeq) + 1)
      ensures Room()
    {
      assert durable + Renumber(pty.pending, destSeq + 1) == durable;
    }

    /** So does appending the batch. */
    twostate lemma RoomAfterAppend()
      requires old(Room()) && old(Valid()) && pty == old(pty) && destSeq == old(destSeq) && durable == []
      requires old(durable) == [] ==> journal == old(journal) && residue == old(residue)
      requires old(durable) != [] ==> journal == Present(old(acknowledged) + old(durable), 0) && residue == 0
      ensures Room()
    {
      hide Size, FileBytes, Within, Conserved, Needed;
      NeedsNoMore(old(journal), old(acknowledged), old(durable), Renumber(pty.pending, destSeq + 1));
    }

    twostate predicate SameFile()
      reads this
    {
      old(created).Some? ==> created == old(created)
    }

    constructor (handle: Pty)
      requires handle.pending == handle.produced
      ensures Valid() && pty == handle && journal == Absent && durable == []
    {
      pty, journal, journalNamed, durable, destSeq := handle, Absent, false, [], 0;
      prefixCaptured, draining, fenced := false, false, false;
      acknowledged, residue, created := [], 0, None;
    }

    /** The reader and the operating system run between two sections. */
    method Interfere(events: seq<PtyEvent>)
      requires Valid()
      modifies `pty
      ensures Valid() && pty == PtyRun(old(pty), events) && (events == [] ==> pty == old(pty))
      ensures pty.woundDown <==> old(pty).woundDown || WindDown in events
      ensures old(pty.produced) <= pty.produced
      ensures Silent(old(pty)) ==> pty.produced == old(pty.produced) && pty.pending == old(pty.pending)
      ensures PhysicalComplete(old(pty)) ==> PhysicalComplete(pty)
    {
      ghost var more := RunAppends(pty, events);
      RunWindsDown(pty, events);
      ProductionConserves(pty, PtyRun(pty, events), more, acknowledged, durable);
      pty := PtyRun(pty, events);
    }

    /** Move the pending log into the durable batch, renumbering it, under the log's own lock. */
    method Transfer() returns (ok: bool)
      requires Valid()
      modifies `pty, `durable, `destSeq
      ensures Valid()
      ensures ok <==> !old(pty.logExhausted) && old(destSeq) + |old(pty.pending)| <= U64_MAX
      ensures ok ==> pty == old(pty).(pending := [])
                     && durable == old(durable) + Renumber(old(pty.pending), old(destSeq) + 1)
      ensures !ok ==> pty == old(pty) && durable == old(durable) && destSeq == old(destSeq)
    {
      if pty.logExhausted || destSeq + |pty.pending| > U64_MAX { return false; }
      TransferConserves(pty, acknowledged, durable);
      var batch := durable + Renumber(pty.pending, destSeq + 1);
      assert batch[..residue] == durable[..residue];
      durable := batch;
      destSeq := destSeq + |pty.pending|;
      pty := pty.(pending := []);
      ok := true;
    }

    /** Append the durable batch to the journal; anything short of a complete append keeps it. */
    method Append(outcome: DiskOutcome) returns (ok: bool)
      requires Valid() && Possible(outcome, durable)
      modifies `journal, `durable, `acknowledged, `residue, `created
      ensures Valid() && SameFile()
      ensures old(journal).Absent? && journal.Present? ==> created == Some(Size(old(durable)))
      ensures ok <==> durable == []
      ensures !ok ==> durable == old(durable) && acknowledged == old(acknowledged)
      ensures ok ==> acknowledged == old(acknowledged + durable)
      ensures old(durable) != [] ==>
                (ok <==> && journalNamed && FileBytes(old(journal)) + Size(old(durable)) <= JOURNAL_LIMIT
                         && old(residue) == 0 && outcome.Written?)
      ensures !ok && (!journalNamed || FileBytes(old(journal)) + Size(old(durable)) > JOURNAL_LIMIT) ==>
                journal == old(journal) && residue == old(residue)
      ensures ok && old(durable) != [] ==> journal == Present(acknowledged, 0) && residue == 0
      ensures old(durable) == [] ==> journal == old(journal) && residue == old(residue)
    {
      hide Size, FileBytes, AppendFrames, Continues, Possible, Conserved, Frames;
      if durable == [] { return true; }
      if !journalNamed { return false; }
      if FileBytes(journal) + Size(durable) > JOURNAL_LIMIT { return false; }
      AppendFits(journal, durable, outcome);
      AppendEffect(pty, acknowledged, durable, residue, journal, outcome);
      AppendStaysWithin(journal, created, durable, outcome);
      ghost var creator := CreatedBy(journal, created, durable, outcome);
      CreatesFile(journal, durable, outcome);
      var after := AppendFrames(journal, durable, outcome);
      journal, ok, created := after.0, after.1, creator;
      if ok {
        AcknowledgeConserves(pty, acknowledged, durable);
        acknowledged, residue, durable := acknowledged + durable, 0, [];
      } else {
        residue := ResidueAfter(residue, outcome);
      }
    }

    /** The prefix is taken only once the reader has acknowledged its pause (or reached EOF). */
    method TakePrefix() returns (ready: Option<bool>)
      requires Valid()
      modifies `pty, `durable, `destSeq
      ensures Valid() && pty.produced == old(pty.produced) && pty.woundDown == old(pty).woundDown
      ensures ready == Some(true) ==> pty.pending == [] && (pty.reader.Paused? || pty.reader.Eof?)
      ensures ready == Some(true)
              <==> && (ClaimLog(old(pty)).reader.Paused? || ClaimLog(old(pty)).reader.Eof?) && !old(pty).restoring
                   && !old(pty).logExhausted && old(destSeq) + |old(pty).pending| <= U64_MAX
      ensures ready == Some(true) ==>
                pty == ClaimLog(old(pty)).(pending := [])
                && durable == old(durable) + Renumber(old(pty).pending, old(destSeq) + 1)
      ensures ready != Some(true) ==> pty == ClaimLog(old(pty)) && durable == old(durable)
    {
      hide Size, FileBytes, Within, Renumber, Conserved, Frames;
      ProductionConserves(pty, ClaimLog(pty), [], acknowledged, durable);
      pty := ClaimLog(pty);
      if !pty.reader.Paused? && !pty.reader.Eof? { return Some(false); }
      if pty.restoring { return Some(false); }
      var ok := Transfer();
      ready := if ok then Some(true) else None;
    }

    method TakeTail() returns (taken: Option<bool>)
      requires Valid()
      modifies `pty, `durable, `destSeq
      ensures Valid()
      ensures taken == Some(true)
              <==> && (old(pty).reader.Draining? || old(pty).reader.DrainReading? || old(pty).reader.Eof?)
                   && !old(pty).logExhausted && old(destSeq) + |old(pty).pending| <= U64_MAX
      ensures taken == Some(true) ==>
                pty == old(pty).(pending := []) && durable == old(durable) + Renumber(old(pty).pending, old(destSeq) + 1)
      ensures taken != Some(true) ==> pty == old(pty) && durable == old(durable)
    {
      if !pty.reader.Draining? && !pty.reader.DrainReading? && !pty.reader.Eof? { return Some(false); }
      var ok := Transfer();
      taken := if ok then Some(true) else None;
    }

    method BeginDrain(closerStarted: bool) returns (ok: bool)
      requires Valid()
      modifies `pty
      ensures Valid() && pty == if old(pty).reader.Paused? then old(pty).(reader := Draining) else old(pty)
      ensures ok <==> closerStarted && (pty.reader.Draining? || pty.reader.DrainReading? || pty.reader.Eof?)
    {
      ProductionConserves(pty, pty.(reader := Draining), [], acknowledged, durable);
      if pty.reader.Paused? { pty := pty.(reader := Draining); }
      if !pty.reader.Draining? && !pty.reader.DrainReading? && !pty.reader.Eof? { return false; }
      ok := closerStarted;
    }

    method CompleteCheckpoint() returns (ok: bool)
      ensures ok <==> PhysicalComplete(pty) && pty.pending == []
    {
      ok := PhysicalComplete(pty) && pty.pending == [];
    }

    /** Claim the log and take what it holds so far, once its reader has stopped. */
    method CapturePrefix(before: seq<PtyEvent>) returns (progress: Option<Progress>)
      requires Valid() && !prefixCaptured
      modifies `pty, `durable, `destSeq, `prefixCaptured
      ensures Valid() && old(pty.produced) <= pty.produced
      ensures pty.woundDown ==> old(pty).woundDown || WindDown in before
      ensures progress.Some? ==> !progress.value.Confirmed?
      ensures progress.None? <==> prefixCaptured
      ensures old(Room()) && before == [] ==> progress.None? && Room()
    {
      hide Size, FileBytes, Within, Conserved, PtyRun, Renumber, Frames, Room, Needed;
      if Room() { RoomForBatch(); }
      Interfere(before);
      label Asked:
      var ready := TakePrefix();
      if ready.None? { return Some(Refused); }
      if !ready.value { return Some(Waiting); }
      if old(Room()) && before == [] { RoomAfterTransfer@Asked(); }
      prefixCaptured := true;
      progress := None;
    }

    /** Fence, name the journal and capture the prefix; each is done once and remembered. */
    method Prepare(turn: Turn) returns (progress: Option<Progress>)
      requires Valid()
      modifies this
      ensures Valid() && SameFile() && old(pty.produced) <= pty.produced
      ensures fenced == (old(fenced) || turn.fenced)
      ensures pty.woundDown ==> old(pty).woundDown || Winds(turn)
      ensures progress.Some? ==> !progress.value.Confirmed?
      ensures progress.None? <==> fenced && journalNamed && prefixCaptured
      ensures old(Room()) && Smooth(turn) ==> progress.None? && Room()
    {
      hide Valid, Room;
      if !fenced {
        if !turn.fenced { return Some(Refused); }
        fenced := true;
      }
      if !journalNamed {
        if !turn.directoryReady { return Some(Refused); }
        journalNamed := true;
      }
      progress := None;
      if !prefixCaptured { progress := CapturePrefix(turn.beforePrefix); }
    }

    lemma HoldsEverything()
      requires Valid() && durable == [] && pty.pending == []
      ensures Frames(journal) == Renumber(pty.produced, 1)
    {
      hide Size, FileBytes, Within;
      assert Frames(journal) == acknowledged + [] + Renumber([], 0);
    }

    lemma RoomMeans()
      requires Room()
      ensures PhysicalComplete(pty) && pty.reader.Eof? && !pty.logExhausted && destSeq + |pty.pending| <= U64_MAX
    {}

    /** Append what is left of the batch; with room for it, it succeeds. */
    method Flush(outcome: DiskOutcome) returns (ok: bool)
      requires Valid()
      modifies `journal, `durable, `acknowledged, `residue, `created
      ensures Valid() && SameFile() && (ok <==> durable == [])
      ensures old(Room()) && journalNamed && outcome.Written? ==> ok && Room()
    {
      hide Size, FileBytes, Within, Conserved, PtyRun, Renumber, Frames, Possible, AppendFrames, Room;
      WrittenIsFeasible(outcome, durable);
      if Room() { RoomForBatch(); }
      ok := Append(Feasible(outcome, durable));
      if old(Room()) && ok { RoomAfterAppend(); }
    }

    /** Sample the physical boundary BEFORE the final transfer, then append what that transfer took. */
    method Conclude(turn: Turn) returns (progress: Progress)
      requires Valid()
      modifies this
      ensures Valid() && SameFile() && old(pty.produced) <= pty.produced && fenced == old(fenced)
      ensures pty.woundDown ==> old(pty).woundDown || Winds(turn)
      ensures progress.Confirmed? ==>
                && Frames(journal) == Renumber(pty.produced, 1)
                && durable == [] && pty.pending == [] && PhysicalComplete(pty)
      ensures old(Room()) && old(journalNamed) && Smooth(turn) ==> progress.Confirmed?
    {
      hide Valid, Room, Size, FileBytes, Within, Conserved, PtyRun, Renumber, Frames, Possible, Feasible;
      if Room() { RoomMeans(); }
      Interfere(turn.beforeSample);
      var physical := PhysicalComplete(pty);
      Interfere(turn.beforeTail);
      label Sampled:
      var tail := TakeTail();
      if tail.None? { return Refused; }
      if tail.value && old(Room()) && Smooth(turn) { RoomAfterTransfer@Sampled(); }
      var appended := Flush(turn.secondWrite);
      if !appended { return Refused; }
      if !physical || !tail.value || durable != [] { return Waiting; }
      Interfere(turn.beforeCheckpoint);
      var complete := CompleteCheckpoint();
      assert complete;
      HoldsEverything();
      progress := Confirmed;
    }

    /** One poll of the coordinator. It confirms the close only when the journal holds every frame
        ever produced, exactly once and in order, and no further output can appear; and it does confirm
        when the terminal has ended, the journal has room and nothing goes wrong. */
    method Advance(turn: Turn) returns (progress: Progress)
      requires Valid()
      modifies this
      ensures Valid() && SameFile() && old(pty.produced) <= pty.produced
      ensures fenced == (old(fenced) || turn.fenced) && (progress.Confirmed? ==> fenced)
      ensures pty.woundDown ==> old(pty).woundDown || Winds(turn)
      ensures progress.Confirmed? ==>
                && Frames(journal) == Renumber(pty.produced, 1)
                && durable == [] && pty.pending == [] && PhysicalComplete(pty)
      ensures old(Room()) && Smooth(turn) ==> progress.Confirmed?
    {
      hide Valid, Room, Size, FileBytes, Within, Conserved, PtyRun, Renumber, Frames, PhysicalComplete;
      var early := Prepare(turn);
      if early.Some? { return early.value; }
      var appended := Flush(turn.firstWrite);
      if !appended { return Refused; }
      if !draining {
        if Room() { RoomMeans(); }
        Interfere(turn.beforeDrain);
        var resumed := BeginDrain(turn.closerStarted);
        if !resumed { return Refused; }
        draining := true;
      }
      progress := Conclude(turn);
    }

    /** The worker polls a retirement until it confirms; a refused poll keeps everything and retries. */
    method Retire(turns: seq<Turn>) returns (confirmed: bool)
      requires Valid()
      modifies this
      ensures Valid() && SameFile() && old(pty.produced) <= pty.produced
      ensures confirmed ==> Frames(journal) == Renumber(pty.produced, 1) && PhysicalComplete(pty)
      ensures Within(journal, created)
    {
      confirmed := false;
      for i := 0 to |turns|
        invariant Valid() && SameFile() && old(pty.produced) <= pty.produced
      {
        var progress := Advance(turns[i]);
        if progress.Confirmed? { return true; }
      }
    }
  }

  lemma WrittenIsFeasible(outcome: DiskOutcome, batch: seq<Numbered>)
    ensures outcome.Written? ==> Feasible(outcome, batch) == outcome
    ensures Possible(Feasible(outcome, batch), batch)
  {}
}
