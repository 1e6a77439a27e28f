/** Byte layout of a single-disk ZIP archive tail: little-endian fields, central directory headers,
    the optional ZIP64 records and the end record (APPNOTE.TXT sections 4.3.12, 4.3.14 to 4.3.16). */
module ZipFormat {

  import opened Octets

  const FOOTER: Bytes := [0x50, 0x4B, 5, 6]
  const LOCATOR: Bytes := [0x50, 0x4B, 6, 7]
  const RECORD: Bytes := [0x50, 0x4B, 6, 6]
  const MEMBER: Bytes := [0x50, 0x4B, 1, 2]

  const SENTINEL16: nat := 0xFFFF
  const SENTINEL32: nat := 0xFFFF_FFFF
  const MAX_METADATA: nat := 2 * 1024 * 1024

  // ---------------------------------------------------------------------------------------------
  // Little-endian fields

  function Power(n: nat): (p: nat)
    ensures p > 0
  {
    if n == 0 then 1 else 256 * Power(n - 1)
  }

  function Value(s: Bytes): nat {
    if s == [] then 0 else s[0] + 256 * Value(s[1..])
  }

  function Field(v: nat, n: nat): (s: Bytes)
    ensures |s| == n
  {
    if n == 0 then [] else [v % 256] + Field(v / 256, n - 1)
  }

  lemma {:induction false} ValueOfField(v: nat, n: nat)
    requires v < Power(n)
    ensures Value(Field(v, n)) == v
  {
    if n > 0 {
      ValueOfField(v / 256, n - 1);
      assert Field(v, n)[1..] == Field(v / 256, n - 1);
    }
  }

  lemma {:induction false} FieldOfValue(s: Bytes)
    ensures Value(s) < Power(|s|) && Field(Value(s), |s|) == s
  {
    if s != [] {
      var rest := s[1..];
      FieldOfValue(rest);
      var v := Value(s);
      assert v == s[0] + 256 * Value(rest);
      assert v % 256 == s[0] && v / 256 == Value(rest);
      assert Field(v, |s|) == [v % 256] + Field(v / 256, |rest|);
      assert s == [s[0]] + rest;
    }
  }

  lemma Widths()
    ensures Power(2) == 0x1_0000 && Power(4) == 0x1_0000_0000 && Power(8) == 0x1_0000_0000_0000_0000
  {}

  /** The unsigned little-endian field of `n` bytes at an offset. */
  function At(file: Bytes, offset: nat, n: nat): nat
    requires offset + n <= |file|
  {
    Value(file[offset..offset + n])
  }

  predicate Holds(file: Bytes, offset: int, part: Bytes) {
    0 <= offset && offset + |part| <= |file| && file[offset..offset + |part|] == part
  }

  // ---------------------------------------------------------------------------------------------
  // The writer

  /** A central directory header; `front` and `back` are the fixed bytes around the four fields that
      the reader looks at. */
  datatype Header = Header(front: Bytes, back: Bytes, name: Bytes, extra: Bytes, comment: Bytes)

  predicate HeaderOk(h: Header) {
    |h.front| == 24 && |h.back| == 10
    && |h.name| < 0x1_0000 && |h.extra| < 0x1_0000 && |h.comment| < 0x1_0000
  }

  function HeaderBytes(h: Header): Bytes {
    MEMBER + h.front + (Field(|h.name|, 2) + Field(|h.extra|, 2) + Field(|h.comment|, 2) + Field(0, 2))
    + h.back + (h.name + h.extra + h.comment)
  }

  function DirectoryBytes(headers: seq<Header>): Bytes {
    if headers == [] then [] else HeaderBytes(headers[0]) + DirectoryBytes(headers[1..])
  }

  /** The four directory fields as an end record or a ZIP64 record states them. */
  datatype Directory = Directory(diskMembers: nat, members: nat, size: nat, offset: nat)

  function FooterBytes(d: Directory, comment: Bytes): Bytes {
    FOOTER + (Field(0, 2) + Field(0, 2))
    + (Field(d.diskMembers, 2) + Field(d.members, 2) + Field(d.size, 4) + Field(d.offset, 4))
    + (Field(|comment|, 2) + comment)
  }

  function RecordBytes(versions: Bytes, d: Directory): Bytes {
    RECORD + Field(44, 8) + versions + (Field(0, 4) + Field(0, 4))
    + (Field(d.diskMembers, 8) + Field(d.members, 8) + Field(d.size, 8) + Field(d.offset, 8))
  }

  function LocatorBytes(recordOffset: nat): Bytes {
    LOCATOR + Field(0, 4) + Field(recordOffset, 8) + Field(1, 4)
  }

  datatype Expansion = Plain | Zip64(versions: Bytes)

  datatype Layout = Layout(prefix: Bytes, headers: seq<Header>, expansion: Expansion, stated: Directory, comment: Bytes)
  {
    function Actual(): Directory {
      Directory(|headers|, |headers|, |DirectoryBytes(headers)|, |prefix|)
    }

    function Body(): Bytes {
      prefix + DirectoryBytes(headers)
    }

    function ExpansionBytes(): Bytes {
      match expansion
      case Plain => []
      case Zip64(versions) => RecordBytes(versions, Actual()) + LocatorBytes(|Body()|)
    }

    function FooterOffset(): nat {
      |Body()| + |ExpansionBytes()|
    }

    function Serialize(): Bytes {
      Body() + ExpansionBytes() + FooterBytes(stated, comment)
    }
  }

  predicate Fits(stated: nat, actual: nat, sentinel: nat, expanded: bool) {
    if expanded then stated <= sentinel && (stated == sentinel || stated == actual)
    else stated == actual < sentinel
  }

  predicate StatedOk(stated: Directory, actual: Directory, expanded: bool) {
    && Fits(stated.diskMembers, actual.diskMembers, SENTINEL16, expanded)
    && Fits(stated.members, actual.members, SENTINEL16, expanded)
    && Fits(stated.size, actual.size, SENTINEL32, expanded)
    && Fits(stated.offset, actual.offset, SENTINEL32, expanded)
  }

  /** A layout a writer may produce within the limits of the reader. */
  predicate Admissible(l: Layout, maximum: nat) {
    && (forall h | h in l.headers :: HeaderOk(h))
    && |l.headers| <= maximum
    && |DirectoryBytes(l.headers)| <= MAX_METADATA
    && |l.comment| < 0x1_0000
    && StatedOk(l.stated, l.Actual(), l.expansion.Zip64?)
    && (l.expansion.Zip64? ==> |l.expansion.versions| == 4 && |l.Body()| < Power(8) && |l.headers| < Power(8))
  }

  // ---------------------------------------------------------------------------------------------
  // The choice of the end record

  /** The last place where the pattern occurs. */
  function LastIndex(s: Bytes, pattern: Bytes): (index: int)
    requires pattern != []
    ensures -1 <= index && (index >= 0 ==> Holds(s, index, pattern))
    ensures forall k | Holds(s, k, pattern) :: k <= index
  {
    LastIndexBelow(s, pattern, |s|)
  }

  function LastIndexBelow(s: Bytes, pattern: Bytes, bound: nat): (index: int)
    requires pattern != [] && bound <= |s|
    ensures -1 <= index < bound || index == -1
    ensures index >= 0 ==> Holds(s, index, pattern)
    ensures forall k | k < bound && Holds(s, k, pattern) :: k <= index
  {
    if bound == 0 then -1
    else if Holds(s, bound - 1, pattern) then bound - 1
    else LastIndexBelow(s, pattern, bound - 1)
  }

  const TAIL_LIMIT: nat := 65535 + 22

  function TailStart(file: Bytes): nat {
    if |file| <= TAIL_LIMIT then 0 else |file| - TAIL_LIMIT
  }

  /** Where the reader looks for the end record: at the very end when that is one without a comment,
      else at the last signature of the tail. */
  function FooterOffset(file: Bytes): int
    requires |file| >= 22
  {
    if Holds(file, |file| - 22, FOOTER) && file[|file| - 2..] == [0, 0] then |file| - 22
    else
      var index := LastIndex(file[TailStart(file)..], FOOTER);
      if index < 0 then -1 else TailStart(file) + index
  }

  /** An end record without a comment at the very end is taken; otherwise the last signature of the tail, and
      none exactly when the tail has none. */
  lemma FooterChoice(file: Bytes)
    requires |file| >= 22
    ensures var footer := FooterOffset(file);
            var atEnd := Holds(file, |file| - 22, FOOTER) && file[|file| - 2] == file[|file| - 1] == 0;
            && (atEnd ==> footer == |file| - 22)
            && (!atEnd ==> (footer < 0 <==> forall k | TailStart(file) <= k :: !Holds(file, k, FOOTER)))
            && (footer >= 0 ==> TailStart(file) <= footer && Holds(file, footer, FOOTER))
            && (!atEnd && footer >= 0 ==> forall k | Holds(file, k, FOOTER) :: k <= footer)
  {
    hide Holds;
    var start := TailStart(file);
    var index := LastIndex(file[start..], FOOTER);
    LastTwo(file);
    forall k: int
      ensures start <= k ==> (Holds(file, k, FOOTER) <==> Holds(file[start..], k - start, FOOTER))
    {
      if start <= k { InTail(file, start, k, FOOTER); }
    }
    if index >= 0 { assert Holds(file, start + index, FOOTER); }
  }

  lemma LastTwo(file: Bytes)
    requires |file| >= 2
    ensures file[|file| - 2..] == [file[|file| - 2], file[|file| - 1]]
  {}

  lemma InTail(file: Bytes, start: nat, k: int, part: Bytes)
    requires start <= k && start <= |file|
    ensures Holds(file, k, part) <==> Holds(file[start..], k - start, part)
  {
    if k + |part| <= |file| {
      assert file[k..k + |part|] == file[start..][k - start..k - start + |part|];
    }
  }

  /** The file is this layout, read the way the reader reads it: its end record is the one chosen, and
      without ZIP64 nothing in front of it looks like a locator. */
  predicate Describes(l: Layout, file: Bytes, maximum: nat) {
    && Admissible(l, maximum)
    && file == l.Serialize() && |file| >= 22
    && FooterOffset(file) == l.FooterOffset()
    && (l.expansion.Plain? ==> !Holds(file, l.FooterOffset() - 20, LOCATOR))
  }
}
