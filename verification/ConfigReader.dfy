/** The bounded configuration reader and the fallback over backup candidates. */
module ConfigReader {
  import opened Identity
  import opened Octets
  import Utf8

  const USIZE_MAX: nat := 0xFFFF_FFFF_FFFF_FFFF
  const CHUNK: nat := 8192
  const BACKUP_SLOTS: nat := 5

  datatype IssueKind = Io(code: nat) | TooLarge | InvalidUtf8 | InvalidToml | NotRegular

  datatype ReadResult<+T> = Success(value: T) | Failure(kind: IssueKind)

  /** What the next read of the file does: be interrupted, fail, or deliver some of what is left. */
  datatype Behaviour = Interrupted | Fault(code: nat) | Short(n: nat)

  datatype Delivery = Delivered(n: nat) | Interruption | Error(code: nat)

  /** An open file. A read delivers nothing only at its end. */
  class Reader {
    const content: Bytes
    var position: nat
    var script: seq<Behaviour>

    ghost predicate Valid()
      reads this
    {
      position <= |content|
    }

    constructor (content: Bytes, script: seq<Behaviour>)
      ensures Valid() && this.content == content && position == 0 && this.script == script
    {
      this.content, position, this.script := content, 0, script;
    }

    /** Read into the first `size` bytes of the buffer. */
    method Read(buffer: array<byte>, size: nat) returns (delivery: Delivery)
      requires Valid() && 0 < size <= buffer.Length
      modifies this, buffer
      ensures Valid() && script == if old(script) == [] then [] else old(script)[1..]
      ensures delivery.Delivered? ==>
                && delivery.n <= size && position == old(position) + delivery.n
                && buffer[..delivery.n] == content[old(position)..position]
                && (delivery.n == 0 <==> old(position) == |content|)
      ensures !delivery.Delivered? ==> position == old(position) && old(script) != []
      ensures delivery.Interruption? <==> old(script) != [] && old(script)[0].Interrupted?
      ensures delivery.Error? <==> old(script) != [] && old(script)[0].Fault?
      ensures delivery.Error? ==> old(script)[0] == Fault(delivery.code)
    {
      var next := if script == [] then Short(size) else script[0];
      if script != [] { script := script[1..]; }
      match next
      case Interrupted => delivery := Interruption;
      case Fault(code) => delivery := Error(code);
      case Short(n) =>
        var left := |content| - position;
        var count := if n < 1 then 1 else n;
        if count > size { count := size; }
        if count > left { count := left; }
        for i := 0 to count
          invariant position == old(position) && script == if old(script) == [] then [] else old(script)[1..]
          invariant buffer[..i] == content[position..position + i]
          modifies buffer
        {
          buffer[i] := content[position + i];
        }
        position := position + count;
        delivery := Delivered(count);
    }

    /** Retry a read for as long as it is interrupted. */
    method RetryInterrupted(buffer: array<byte>, size: nat) returns (delivery: Delivery)
      requires Valid() && 0 < size <= buffer.Length
      modifies this, buffer
      ensures Valid() && !delivery.Interruption?
      ensures delivery.Delivered? ==>
                && delivery.n <= size && position == old(position) + delivery.n
                && buffer[..delivery.n] == content[old(position)..position]
                && (delivery.n == 0 <==> old(position) == |content|)
      ensures delivery.Error? ==> position == old(position) && Fault(delivery.code) in old(script)
      ensures forall b | b in script :: b in old(script)
    {
      delivery := Interruption;
      while delivery.Interruption?
        invariant Valid() && (forall b | b in script :: b in old(script))
        invariant delivery.Interruption? ==> position == old(position)
        invariant delivery.Delivered? ==>
                    && delivery.n <= size && position == old(position) + delivery.n
                    && buffer[..delivery.n] == content[old(position)..position]
                    && (delivery.n == 0 <==> old(position) == |content|)
        invariant delivery.Error? ==> position == old(position) && Fault(delivery.code) in old(script)
        decreases |script| + if delivery.Interruption? then 1 else 0
      {
        ghost var before := script;
        delivery := Read(buffer, size);
        if delivery.Error? { assert before[0] in before; }
      }
    }
  }

  /** Read everything up to the end of the file, never more than one byte past the limit, and never
      accept a prefix. */
  method ReadConfigBytes(reader: Reader, advertised: nat, limit: nat) returns (result: ReadResult<Bytes>)
    requires reader.Valid() && limit <= USIZE_MAX
    modifies reader
    ensures reader.Valid() && reader.position <= old(reader.position) + limit + 1
    ensures result.Success? ==>
              && result.value == reader.content[old(reader.position)..]
              && reader.position == |reader.content| && |result.value| <= limit && advertised <= limit
    ensures result.Failure? ==> result.kind == TooLarge || (result.kind.Io? && Fault(result.kind.code) in old(reader.script))
    ensures result == Failure(TooLarge) ==>
              limit == USIZE_MAX || advertised > limit || |reader.content| - old(reader.position) > limit
    ensures (forall b | b in old(reader.script) :: !b.Fault?) ==>
              (result.Success? <==> limit < USIZE_MAX && advertised <= limit
                                    && |reader.content| - old(reader.position) <= limit)
  {
    if limit == USIZE_MAX { return Failure(TooLarge); }
    var sentinel := limit + 1;
    if advertised > limit { return Failure(TooLarge); }
    var bytes: Bytes := [];
    var chunk := new byte[CHUNK];
    ghost var start, script := reader.position, reader.script;
    while |bytes| < sentinel
      invariant reader.Valid() && |bytes| <= limit
      invariant start <= reader.position && bytes == reader.content[start..reader.position]
      invariant fresh(chunk) && chunk.Length == CHUNK
      invariant forall b | b in reader.script :: b in script
      decreases |reader.content| - reader.position
    {
      var remaining := if sentinel - |bytes| < CHUNK then sentinel - |bytes| else CHUNK;
      var delivery := reader.RetryInterrupted(chunk, remaining);
      if delivery.Error? { return Failure(Io(delivery.code)); }
      if delivery.n == 0 { return Success(bytes); }
      bytes := bytes + chunk[..delivery.n];
      if |bytes| > limit { return Failure(TooLarge); }
    }
    result := Failure(TooLarge);
  }

  // ---------------------------------------------------------------------------------------------
  // Candidates

  datatype Candidate = Primary | Backup(slot: nat)

  datatype Operation = Open | Read | Parse

  datatype Issue = Issue(candidate: Candidate, operation: Operation, kind: IssueKind)

  /** What reading one candidate yields. */
  datatype CandidateRead = Absent | Content(bytes: Bytes) | Unreadable(issue: Issue)

  datatype Report<+C> = Missing | Loaded(config: C, source: Candidate) | Failed(issue: Issue)

  const CANDIDATES: nat := BACKUP_SLOTS + 1

  /** The order in which candidates are tried. */
  function CandidateAt(i: nat): Candidate {
    if i == 0 then Primary else Backup(i - 1)
  }

  /** The primary file and its numbered backups. */
  predicate Exists(c: Candidate) {
    c.Backup? ==> c.slot < BACKUP_SLOTS
  }

  /** The primary comes first, then the backups from the newest, which has the lowest number. */
  predicate Precedes(c: Candidate, d: Candidate) {
    match d
    case Primary => false
    case Backup(slot) => c.Primary? || c.slot < slot
  }

  lemma TriedInOrder()
    ensures forall i: nat | i < CANDIDATES :: Exists(CandidateAt(i))
    ensures forall c | Exists(c) :: exists i: nat :: i < CANDIDATES && CandidateAt(i) == c
    ensures forall i: nat, j: nat | i < j :: Precedes(CandidateAt(i), CandidateAt(j))
    ensures forall i: nat, j: nat | Precedes(CandidateAt(i), CandidateAt(j)) :: i < j
  {
    forall c | Exists(c)
      ensures exists i: nat :: i < CANDIDATES && CandidateAt(i) == c
    {
      var i := if c.Primary? then 0 else c.slot + 1;
      assert CandidateAt(i) == c;
    }
  }

  /** Absent, or readable but not a configuration: the next candidate is tried. */
  predicate Skipped<C>(read: CandidateRead, parse: Bytes -> Option<C>) {
    read.Absent? || (read.Content? && (!Utf8.Valid(read.bytes) || parse(read.bytes).None?))
  }

  function InvalidKind(bytes: Bytes): IssueKind {
    if Utf8.Valid(bytes) then InvalidToml else InvalidUtf8
  }

  /** The first candidate that is not skipped. */
  ghost predicate Decides<C>(source: Candidate -> CandidateRead, parse: Bytes -> Option<C>, c: Candidate) {
    && Exists(c) && !Skipped(source(c), parse)
    && forall d | Exists(d) && Precedes(d, c) :: Skipped(source(d), parse)
  }

  /** The last readable candidate; all after it are absent. */
  ghost predicate LastContent(source: Candidate -> CandidateRead, c: Candidate) {
    && Exists(c) && source(c).Content?
    && forall d | Exists(d) && Precedes(c, d) :: source(d).Absent?
  }

  /** The report that an issue is: invalid text, or text that is no configuration. */
  predicate Invalid(issue: Issue, c: Candidate, bytes: Bytes) {
    issue == Issue(c, Parse, InvalidKind(bytes)) && (issue.kind == InvalidUtf8 <==> !Utf8.Valid(bytes))
  }

  ghost predicate SkippedBefore<C>(source: Candidate -> CandidateRead, parse: Bytes -> Option<C>, n: nat) {
    forall j: nat | j < n :: Skipped(source(CandidateAt(j)), parse)
  }

  ghost predicate LastInvalid(source: Candidate -> CandidateRead, invalid: Option<Issue>, n: nat) {
    match invalid
    case None => forall j: nat | j < n :: source(CandidateAt(j)).Absent?
    case Some(issue) => exists i: nat ::
      && i < n && source(CandidateAt(i)).Content? && Invalid(issue, CandidateAt(i), source(CandidateAt(i)).bytes)
      && forall j: nat | i < j < n :: source(CandidateAt(j)).Absent?
  }

  /** The first candidate that is neither absent nor invalid decides, and nothing after it is read:
      its content is loaded, or its issue is reported. Otherwise the last invalid one is reported. */
  method LoadCandidatesWith<C>(source: Candidate -> CandidateRead, parse: Bytes -> Option<C>)
    returns (report: Report<C>, tried: nat)
    ensures tried <= CANDIDATES
    ensures report.Loaded? <==> exists c :: Decides(source, parse, c) && source(c).Content?
    ensures report.Loaded? ==>
              && tried > 0 && report.source == CandidateAt(tried - 1) && Decides(source, parse, report.source)
              && source(report.source).Content? && Utf8.Valid(source(report.source).bytes)
              && parse(source(report.source).bytes) == Some(report.config)
    ensures forall c | Decides(source, parse, c) && source(c).Unreadable? ::
              && tried > 0 && c == CandidateAt(tried - 1)
              && report.Failed? && source(c) == Unreadable(report.issue)
    ensures (forall c | Exists(c) :: Skipped(source(c), parse)) ==>
              && tried == CANDIDATES
              && (report.Missing? <==> forall c | Exists(c) :: source(c).Absent?)
              && (!report.Missing? ==>
                    && report.Failed?
                    && exists c :: LastContent(source, c) && Invalid(report.issue, c, source(c).bytes))
  {
    hide Decides, LastInvalid, SkippedBefore, CandidateAt, LastContent, Invalid;
    var invalid: Option<Issue> := None;
    TriedInOrder();
    NothingTried(source, parse);
    for i := 0 to CANDIDATES
      invariant SkippedBefore(source, parse, i) && LastInvalid(source, invalid, i)
    {
      var candidate := CandidateAt(i);
      SkipOne(source, parse, invalid, i);
      match source(candidate)
      case Absent =>
      case Unreadable(issue) =>
        OneDecides(source, parse, i);
        return Failed(issue), i + 1;
      case Content(bytes) =>
        if !Utf8.Valid(bytes) {
          invalid := Some(Issue(candidate, Parse, InvalidUtf8));
        } else {
          match parse(bytes)
          case None => invalid := Some(Issue(candidate, Parse, InvalidToml));
          case Some(config) =>
            OneDecides(source, parse, i);
            return Loaded(config, candidate), i + 1;
        }
    }
    tried := CANDIDATES;
    report := if invalid.Some? then Failed(invalid.value) else Missing;
    NoneDecides(source, parse, invalid);
  }

  lemma NothingTried<C>(source: Candidate -> CandidateRead, parse: Bytes -> Option<C>)
    ensures SkippedBefore(source, parse, 0) && LastInvalid(source, None, 0)
  {}

  lemma SkipOne<C>(source: Candidate -> CandidateRead, parse: Bytes -> Option<C>, invalid: Option<Issue>, i: nat)
    requires SkippedBefore(source, parse, i) && LastInvalid(source, invalid, i)
    ensures Skipped(source(CandidateAt(i)), parse) ==>
              && SkippedBefore(source, parse, i + 1)
              && LastInvalid(source,
                   if source(CandidateAt(i)).Absent? then invalid
                   else Some(Issue(CandidateAt(i), Parse, InvalidKind(source(CandidateAt(i)).bytes))), i + 1)
  {}

  /** The candidate just tried is the only one that decides. */
  lemma OneDecides<C>(source: Candidate -> CandidateRead, parse: Bytes -> Option<C>, i: nat)
    requires i < CANDIDATES && SkippedBefore(source, parse, i) && !Skipped(source(CandidateAt(i)), parse)
    ensures Decides(source, parse, CandidateAt(i)) && Exists(CandidateAt(i))
    ensures forall c | Decides(source, parse, c) :: c == CandidateAt(i)
  {
    hide CandidateAt;
    TriedInOrder();
    forall d | Exists(d) && Precedes(d, CandidateAt(i))
      ensures Skipped(source(d), parse)
    {
      var j: nat :| j < CANDIDATES && CandidateAt(j) == d;
    }
    forall c | Decides(source, parse, c)
      ensures c == CandidateAt(i)
    {
      var j: nat :| j < CANDIDATES && CandidateAt(j) == c;
    }
  }

  lemma NoneDecides<C>(source: Candidate -> CandidateRead, parse: Bytes -> Option<C>, invalid: Option<Issue>)
    requires SkippedBefore(source, parse, CANDIDATES) && LastInvalid(source, invalid, CANDIDATES)
    ensures forall c :: !Decides(source, parse, c)
    ensures invalid.None? <==> forall c | Exists(c) :: source(c).Absent?
    ensures invalid.Some? ==>
              exists c :: LastContent(source, c) && Invalid(invalid.value, c, source(c).bytes)
  {
    hide CandidateAt;
    TriedInOrder();
    if invalid.Some? {
      var i: nat :| && i < CANDIDATES && source(CandidateAt(i)).Content?
                    && Invalid(invalid.value, CandidateAt(i), source(CandidateAt(i)).bytes)
                    && forall j: nat | i < j < CANDIDATES :: source(CandidateAt(j)).Absent?;
      assert LastContent(source, CandidateAt(i));
    }
  }
}
