/** The bounded ZIP preflight: it accepts exactly the layouts a writer may produce. */
module ZipPreflight {
  import opened Octets
  import opened ZipFormat

  datatype Fault =
    | BadFooter | BadComment | MultiDisk | MissingLocator | MultiDisk64 | BadOffset64 | BadRecord64
    | Extensible | TooManyEntries | OversizedDirectory | Inconsistent64 | BadDirectoryOffset64
    | EntryCount | BadDirectoryOffset | TruncatedDirectory | BadDirectory | MultiDiskMember | BadLengths

  datatype Outcome = Accepted | Rejected(fault: Fault)

  // ---------------------------------------------------------------------------------------------
  // What the reader decides, check by check

  function StatedAt(file: Bytes, footer: nat): Directory
    requires footer + 22 <= |file|
  {
    Directory(At(file, footer + 8, 2), At(file, footer + 10, 2), At(file, footer + 12, 4), At(file, footer + 16, 4))
  }

  function ExpandedAt(file: Bytes, record: nat): Directory
    requires record + 56 <= |file|
  {
    Directory(At(file, record + 24, 8), At(file, record + 32, 8), At(file, record + 40, 8), At(file, record + 48, 8))
  }

  predicate NeedsZip64(d: Directory) {
    d.diskMembers == SENTINEL16 || d.members == SENTINEL16 || d.size == SENTINEL32 || d.offset == SENTINEL32
  }

  predicate Consistent(stated: nat, expanded: nat, sentinel: nat) {
    stated == sentinel || stated == expanded
  }

  predicate ConsistentAll(stated: Directory, expanded: Directory) {
    && Consistent(stated.diskMembers, expanded.diskMembers, SENTINEL16)
    && Consistent(stated.members, expanded.members, SENTINEL16)
    && Consistent(stated.size, expanded.size, SENTINEL32)
    && Consistent(stated.offset, expanded.offset, SENTINEL32)
  }

  function NextHeader(file: Bytes, position: nat): (next: nat)
    requires position + 46 <= |file|
  {
    position + 46 + At(file, position + 28, 2) + At(file, position + 30, 2) + At(file, position + 32, 2)
  }

  function Scan(file: Bytes, position: nat, end: nat, inspected: nat, members: nat, maximum: nat): Outcome
    requires position <= end <= |file|
    decreases end - position
  {
    if position >= end then if inspected == members then Accepted else Rejected(EntryCount)
    else if inspected >= maximum then Rejected(TooManyEntries)
    else if position + 46 > end then Rejected(TruncatedDirectory)
    else if !Holds(file, position, MEMBER) then Rejected(BadDirectory)
    else if At(file, position + 34, 2) != 0 then Rejected(MultiDiskMember)
    else if NextHeader(file, position) > end then Rejected(BadLengths)
    else Scan(file, NextHeader(file, position), end, inspected + 1, members, maximum)
  }

  function CheckDirectory(file: Bytes, d: Directory, end: nat, maximum: nat): Outcome
    requires end <= |file|
  {
    if d.diskMembers != d.members then Rejected(EntryCount)
    else if d.members > maximum then Rejected(TooManyEntries)
    else if d.size > MAX_METADATA then Rejected(OversizedDirectory)
    else if d.offset != end - d.size then Rejected(BadDirectoryOffset)
    else Scan(file, d.offset, end, 0, d.members, maximum)
  }

  function CheckExpanded(file: Bytes, locator: nat, stated: Directory, maximum: nat): Outcome
    requires locator + 20 <= |file|
  {
    if At(file, locator + 4, 4) != 0 || At(file, locator + 16, 4) != 1 then Rejected(MultiDisk64)
    else if At(file, locator + 8, 8) != locator - 56 then Rejected(BadOffset64)
    else
      var record := locator - 56;
      if !Holds(file, record, RECORD) then Rejected(BadRecord64)
      else if At(file, record + 4, 8) != 44 then Rejected(Extensible)
      else if At(file, record + 16, 4) != 0 || At(file, record + 20, 4) != 0 then Rejected(MultiDisk64)
      else
        var d := ExpandedAt(file, record);
        if d.members > maximum then Rejected(TooManyEntries)
        else if d.size > MAX_METADATA then Rejected(OversizedDirectory)
        else if !ConsistentAll(stated, d) then Rejected(Inconsistent64)
        else if d.offset + d.size != record then Rejected(BadDirectoryOffset64)
        else CheckDirectory(file, d, record, maximum)
  }

  function CheckFooter(file: Bytes, footer: nat, maximum: nat): Outcome
    requires footer + 22 <= |file|
  {
    if footer + 22 + At(file, footer + 20, 2) != |file| then Rejected(BadComment)
    else if At(file, footer + 4, 2) != 0 || At(file, footer + 6, 2) != 0 then Rejected(MultiDisk)
    else
      var stated := StatedAt(file, footer);
      if Holds(file, footer - 20, LOCATOR) then CheckExpanded(file, footer - 20, stated, maximum)
      else if NeedsZip64(stated) then Rejected(MissingLocator)
      else CheckDirectory(file, stated, footer, maximum)
  }

  function Preflight(file: Bytes, maximum: nat): Outcome {
    if |file| < 22 then Rejected(BadFooter)
    else
      var footer := FooterOffset(file);
      if footer < 0 || footer + 22 > |file| then Rejected(BadFooter)
      else CheckFooter(file, footer, maximum)
  }

  // ---------------------------------------------------------------------------------------------
  // The reader

  method ScanDirectory(file: Bytes, start: nat, end: nat, members: nat, maximum: nat)
    returns (outcome: Outcome, inspected: nat)
    requires start <= end <= |file|
    ensures outcome == Scan(file, start, end, 0, members, maximum)
    ensures inspected <= maximum
  {
    var position := start;
    inspected := 0;
    while position < end
      invariant start <= position <= end && inspected <= maximum
      invariant Scan(file, position, end, inspected, members, maximum) == Scan(file, start, end, 0, members, maximum)
      decreases end - position
    {
      if inspected >= maximum { return Rejected(TooManyEntries), inspected; }
      if position + 46 > end { return Rejected(TruncatedDirectory), inspected; }
      if !Holds(file, position, MEMBER) { return Rejected(BadDirectory), inspected; }
      var nameSize, extraSize := At(file, position + 28, 2), At(file, position + 30, 2);
      var commentSize, memberDisk := At(file, position + 32, 2), At(file, position + 34, 2);
      if memberDisk != 0 { return Rejected(MultiDiskMember), inspected; }
      if position + 46 + nameSize + extraSize + commentSize > end { return Rejected(BadLengths), inspected; }
      position := position + 46 + nameSize + extraSize + commentSize;
      inspected := inspected + 1;
    }
    outcome := if inspected == members then Accepted else Rejected(EntryCount);
  }

  /** Every read is in bounds, the directory loop runs at most `maximum` times, and the file is
      accepted exactly when some admissible layout describes it. */
  method PreflightZip(file: Bytes, maximum: nat) returns (outcome: Outcome, inspected: nat)
    ensures outcome == Preflight(file, maximum)
    ensures outcome.Accepted? <==> exists l :: Describes(l, file, maximum)
    ensures inspected <= maximum
  {
    hide Describes, Scan, Value, FooterOffset;
    AcceptsExactlyTheLayouts(file, maximum);
    if |file| < 22 { return Rejected(BadFooter), 0; }
    var footer := FooterOffset(file);
    if footer < 0 || footer + 22 > |file| { return Rejected(BadFooter), 0; }
    var d, end := StatedAt(file, footer), footer;
    if footer + 22 + At(file, footer + 20, 2) != |file| { return Rejected(BadComment), 0; }
    if At(file, footer + 4, 2) != 0 || At(file, footer + 6, 2) != 0 { return Rejected(MultiDisk), 0; }
    var locator := footer - 20;
    var hasLocator := Holds(file, locator, LOCATOR);
    if NeedsZip64(d) && !hasLocator { return Rejected(MissingLocator), 0; }
    if hasLocator {
      if At(file, locator + 4, 4) != 0 || At(file, locator + 16, 4) != 1 { return Rejected(MultiDisk64), 0; }
      var record := locator - 56;
      if At(file, locator + 8, 8) != record { return Rejected(BadOffset64), 0; }
      if !Holds(file, record, RECORD) { return Rejected(BadRecord64), 0; }
      if At(file, record + 4, 8) != 44 { return Rejected(Extensible), 0; }
      if At(file, record + 16, 4) != 0 || At(file, record + 20, 4) != 0 { return Rejected(MultiDisk64), 0; }
      var expanded := ExpandedAt(file, record);
      if expanded.members > maximum { return Rejected(TooManyEntries), 0; }
      if expanded.size > MAX_METADATA { return Rejected(OversizedDirectory), 0; }
      if !ConsistentAll(d, expanded) { return Rejected(Inconsistent64), 0; }
      d, end := expanded, record;
      if d.offset + d.size != record { return Rejected(BadDirectoryOffset64), 0; }
    }
    if d.diskMembers != d.members { return Rejected(EntryCount), 0; }
    if d.members > maximum { return Rejected(TooManyEntries), 0; }
    if d.size > MAX_METADATA { return Rejected(OversizedDirectory), 0; }
    if d.offset != end - d.size { return Rejected(BadDirectoryOffset), 0; }
    outcome, inspected := ScanDirectory(file, d.offset, end, d.members, maximum);
  }

  // ---------------------------------------------------------------------------------------------
  // Fields in place

  lemma SplitHolds(file: Bytes, o: int, p: Bytes, q: Bytes)
    ensures Holds(file, o, p + q) <==> Holds(file, o, p) && Holds(file, o + |p|, q)
  {
    if 0 <= o && o + |p| + |q| <= |file| {
      var all := file[o..o + |p + q|];
      assert all[..|p|] == file[o..o + |p|] && all[|p|..] == file[o + |p|..o + |p| + |q|];
      assert (p + q)[..|p|] == p && (p + q)[|p|..] == q;
      assert all == all[..|p|] + all[|p|..];
    }
  }

  lemma HoldsField(file: Bytes, o: nat, v: nat, n: nat)
    requires o + n <= |file| && v < Power(n)
    ensures Holds(file, o, Field(v, n)) <==> At(file, o, n) == v
  {
    ValueOfField(v, n);
    FieldOfValue(file[o..o + n]);
  }

  lemma AtFits(file: Bytes, o: nat, n: nat)
    requires o + n <= |file|
    ensures At(file, o, n) < Power(n)
  {
    FieldOfValue(file[o..o + n]);
  }

  lemma HeaderHolds(file: Bytes, o: nat, h: Header)
    requires HeaderOk(h) && o + 46 <= |file|
    ensures Holds(file, o, HeaderBytes(h)) <==>
              && Holds(file, o, MEMBER) && Holds(file, o + 4, h.front)
              && At(file, o + 28, 2) == |h.name| && At(file, o + 30, 2) == |h.extra|
              && At(file, o + 32, 2) == |h.comment| && At(file, o + 34, 2) == 0
              && Holds(file, o + 36, h.back)
              && Holds(file, o + 46, h.name + h.extra + h.comment)
  {
    Widths();
    var f1, f2, f3, f4 := Field(|h.name|, 2), Field(|h.extra|, 2), Field(|h.comment|, 2), Field(0, 2);
    var sizes, rest := f1 + f2 + f3 + f4, h.name + h.extra + h.comment;
    SplitHolds(file, o, MEMBER + h.front + sizes + h.back, rest);
    SplitHolds(file, o, MEMBER + h.front + sizes, h.back);
    SplitHolds(file, o, MEMBER + h.front, sizes);
    SplitHolds(file, o, MEMBER, h.front);
    SplitHolds(file, o + 28, f1 + f2 + f3, f4);
    SplitHolds(file, o + 28, f1 + f2, f3);
    SplitHolds(file, o + 28, f1, f2);
    HoldsField(file, o + 28, |h.name|, 2);
    HoldsField(file, o + 30, |h.extra|, 2);
    HoldsField(file, o + 32, |h.comment|, 2);
    HoldsField(file, o + 34, 0, 2);
  }

  lemma FooterHolds(file: Bytes, o: nat, d: Directory, comment: Bytes)
    requires o + 22 <= |file| && |comment| < 0x1_0000
    requires d.diskMembers <= SENTINEL16 && d.members <= SENTINEL16 && d.size <= SENTINEL32 && d.offset <= SENTINEL32
    ensures Holds(file, o, FooterBytes(d, comment)) <==>
              && Holds(file, o, FOOTER) && At(file, o + 4, 2) == 0 && At(file, o + 6, 2) == 0
              && StatedAt(file, o) == d && At(file, o + 20, 2) == |comment|
              && Holds(file, o + 22, comment)
  {
    hide Value, Field, Holds;
    Widths();
    var z := Field(0, 2);
    var f1, f2, f3, f4 := Field(d.diskMembers, 2), Field(d.members, 2), Field(d.size, 4), Field(d.offset, 4);
    var length := Field(|comment|, 2);
    SplitHolds(file, o, FOOTER + (z + z) + (f1 + f2 + f3 + f4), length + comment);
    SplitHolds(file, o, FOOTER + (z + z), f1 + f2 + f3 + f4);
    SplitHolds(file, o, FOOTER, z + z);
    SplitHolds(file, o + 4, z, z);
    SplitHolds(file, o + 8, f1 + f2 + f3, f4);
    SplitHolds(file, o + 8, f1 + f2, f3);
    SplitHolds(file, o + 8, f1, f2);
    SplitHolds(file, o + 20, length, comment);
    HoldsField(file, o + 4, 0, 2);
    HoldsField(file, o + 6, 0, 2);
    HoldsField(file, o + 8, d.diskMembers, 2);
    HoldsField(file, o + 10, d.members, 2);
    HoldsField(file, o + 12, d.size, 4);
    HoldsField(file, o + 16, d.offset, 4);
    HoldsField(file, o + 20, |comment|, 2);
  }

  predicate Wide(d: Directory) {
    d.diskMembers < Power(8) && d.members < Power(8) && d.size < Power(8) && d.offset < Power(8)
  }

  lemma RecordHolds(file: Bytes, o: nat, versions: Bytes, d: Directory)
    requires o + 56 <= |file| && |versions| == 4 && Wide(d)
    ensures Holds(file, o, RecordBytes(versions, d)) <==>
              && Holds(file, o, RECORD) && At(file, o + 4, 8) == 44 && Holds(file, o + 12, versions)
              && At(file, o + 16, 4) == 0 && At(file, o + 20, 4) == 0 && ExpandedAt(file, o) == d
  {
    hide Value, Field, Holds;
    Widths();
    var z, size := Field(0, 4), Field(44, 8);
    var f1, f2, f3, f4 := Field(d.diskMembers, 8), Field(d.members, 8), Field(d.size, 8), Field(d.offset, 8);
    SplitHolds(file, o, RECORD + size + versions + (z + z), f1 + f2 + f3 + f4);
    SplitHolds(file, o, RECORD + size + versions, z + z);
    SplitHolds(file, o, RECORD + size, versions);
    SplitHolds(file, o, RECORD, size);
    SplitHolds(file, o + 16, z, z);
    SplitHolds(file, o + 24, f1 + f2 + f3, f4);
    SplitHolds(file, o + 24, f1 + f2, f3);
    SplitHolds(file, o + 24, f1, f2);
    HoldsField(file, o + 4, 44, 8);
    HoldsField(file, o + 16, 0, 4);
    HoldsField(file, o + 20, 0, 4);
    HoldsField(file, o + 24, d.diskMembers, 8);
    HoldsField(file, o + 32, d.members, 8);
    HoldsField(file, o + 40, d.size, 8);
    HoldsField(file, o + 48, d.offset, 8);
  }

  lemma LocatorHolds(file: Bytes, o: nat, recordOffset: nat)
    requires o + 20 <= |file| && recordOffset < Power(8)
    ensures Holds(file, o, LocatorBytes(recordOffset)) <==>
              && Holds(file, o, LOCATOR) && At(file, o + 4, 4) == 0
              && At(file, o + 8, 8) == recordOffset && At(file, o + 16, 4) == 1
  {
    hide Value, Field, Holds;
    Widths();
    var f1, f2, f3 := Field(0, 4), Field(recordOffset, 8), Field(1, 4);
    SplitHolds(file, o, LOCATOR + f1 + f2, f3);
    SplitHolds(file, o, LOCATOR + f1, f2);
    SplitHolds(file, o, LOCATOR, f1);
    HoldsField(file, o + 4, 0, 4);
    HoldsField(file, o + 8, recordOffset, 8);
    HoldsField(file, o + 16, 1, 4);
  }

  // ---------------------------------------------------------------------------------------------
  // The directory

  lemma HeaderSize(h: Header)
    requires HeaderOk(h)
    ensures |HeaderBytes(h)| == 46 + |h.name| + |h.extra| + |h.comment|
  {}

  /** A directory in place is scanned to its end, header by header. */
  lemma {:induction false} ScanAccepts(file: Bytes, o: nat, headers: seq<Header>, inspected: nat, maximum: nat)
    requires (forall h | h in headers :: HeaderOk(h)) && inspected + |headers| <= maximum
    requires Holds(file, o, DirectoryBytes(headers))
    ensures Scan(file, o, o + |DirectoryBytes(headers)|, inspected, inspected + |headers|, maximum) == Accepted
    decreases |headers|
  {
    hide Value, Field, HeaderBytes, HeaderOk;
    if headers != [] {
      var h, rest := headers[0], DirectoryBytes(headers[1..]);
      HeaderSize(h);
      SplitHolds(file, o, HeaderBytes(h), rest);
      HeaderHolds(file, o, h);
      ScanAccepts(file, o + |HeaderBytes(h)|, headers[1..], inspected + 1, maximum);
    }
  }

  function HeaderAt(file: Bytes, o: nat): (h: Header)
    requires o + 46 <= |file| && NextHeader(file, o) <= |file|
  {
    var name := o + 46;
    var extra := name + At(file, o + 28, 2);
    var comment := extra + At(file, o + 30, 2);
    Header(file[o + 4..o + 28], file[o + 36..o + 46], file[name..extra], file[extra..comment],
           file[comment..NextHeader(file, o)])
  }

  function HeadersAt(file: Bytes, o: nat, end: nat, inspected: nat, members: nat, maximum: nat): (headers: seq<Header>)
    requires o <= end <= |file| && Scan(file, o, end, inspected, members, maximum) == Accepted
    decreases end - o
  {
    if o >= end then []
    else [HeaderAt(file, o)] + HeadersAt(file, NextHeader(file, o), end, inspected + 1, members, maximum)
  }

  /** An accepted directory is a tiling by exactly `members` headers. */
  lemma {:induction false} ScanTiles(file: Bytes, o: nat, end: nat, inspected: nat, members: nat, maximum: nat)
    requires o <= end <= |file| && Scan(file, o, end, inspected, members, maximum) == Accepted
    ensures var headers := HeadersAt(file, o, end, inspected, members, maximum);
            && inspected + |headers| == members
            && (forall h | h in headers :: HeaderOk(h))
            && file[o..end] == DirectoryBytes(headers)
    decreases end - o
  {
    hide Value, HeaderBytes, HeaderOk;
    var headers := HeadersAt(file, o, end, inspected, members, maximum);
    if o < end {
      var next := NextHeader(file, o);
      ScanTiles(file, next, end, inspected + 1, members, maximum);
      HeaderTiles(file, o);
      assert headers[1..] == HeadersAt(file, next, end, inspected + 1, members, maximum);
      assert file[o..end] == file[o..next] + file[next..end];
    }
  }

  lemma JoinSlices(file: Bytes, a: nat, b: nat, c: nat)
    requires a <= b <= c <= |file|
    ensures file[a..b] + file[b..c] == file[a..c]
  {}

  lemma HeaderTiles(file: Bytes, o: nat)
    requires o + 46 <= |file| && NextHeader(file, o) <= |file|
    requires Holds(file, o, MEMBER) && At(file, o + 34, 2) == 0
    ensures HeaderOk(HeaderAt(file, o)) && HeaderBytes(HeaderAt(file, o)) == file[o..NextHeader(file, o)]
  {
    hide Value, HeaderBytes;
    Widths();
    AtFits(file, o + 28, 2);
    AtFits(file, o + 30, 2);
    AtFits(file, o + 32, 2);
    var h, next := HeaderAt(file, o), NextHeader(file, o);
    var extra := o + 46 + |h.name|;
    JoinSlices(file, o + 46, extra, extra + |h.extra|);
    JoinSlices(file, o + 46, extra + |h.extra|, next);
    HeaderHolds(file, o, h);
    HeaderSize(h);
  }

  // ---------------------------------------------------------------------------------------------
  // Every admissible layout is accepted

  lemma WholeHolds(file: Bytes)
    ensures Holds(file, 0, file)
  {}

  lemma FooterSize(d: Directory, comment: Bytes)
    ensures |FooterBytes(d, comment)| == 22 + |comment|
  {}

  lemma PartsInPlace(l: Layout, file: Bytes)
    requires file == l.Serialize()
    ensures Holds(file, 0, l.prefix) && Holds(file, |l.prefix|, DirectoryBytes(l.headers))
    ensures Holds(file, |l.Body()|, l.ExpansionBytes())
    ensures Holds(file, l.FooterOffset(), FooterBytes(l.stated, l.comment))
    ensures |file| == l.FooterOffset() + 22 + |l.comment|
  {
    hide Holds, FooterBytes, DirectoryBytes, Layout.ExpansionBytes;
    WholeHolds(file);
    FooterSize(l.stated, l.comment);
    SplitHolds(file, 0, l.Body() + l.ExpansionBytes(), FooterBytes(l.stated, l.comment));
    SplitHolds(file, 0, l.Body(), l.ExpansionBytes());
    SplitHolds(file, 0, l.prefix, DirectoryBytes(l.headers));
  }

  /** The directory of a layout passes every check, whichever record stated it. */
  lemma DirectoryAccepted(l: Layout, file: Bytes, maximum: nat)
    requires Admissible(l, maximum) && file == l.Serialize()
    ensures |l.Body()| <= |file| && CheckDirectory(file, l.Actual(), |l.Body()|, maximum) == Accepted
  {
    hide Holds, HeaderBytes, FooterBytes, RecordBytes, LocatorBytes, StatedOk;
    PartsInPlace(l, file);
    ScanAccepts(file, |l.prefix|, l.headers, 0, maximum);
  }

  lemma Zip64Accepted(l: Layout, file: Bytes, maximum: nat)
    requires Admissible(l, maximum) && file == l.Serialize() && l.expansion.Zip64?
    ensures var locator := |l.Body()| + 56;
            && l.FooterOffset() == locator + 20 && locator + 20 <= |file| && Holds(file, locator, LOCATOR)
            && CheckExpanded(file, locator, l.stated, maximum) == Accepted
  {
    hide Holds, HeaderBytes, FooterBytes, RecordBytes, LocatorBytes, CheckDirectory, Value, Field;
    var record, versions := |l.Body()|, l.expansion.versions;
    Widths();
    PartsInPlace(l, file);
    Sizes(versions, l.Actual(), record);
    SplitHolds(file, record, RecordBytes(versions, l.Actual()), LocatorBytes(record));
    RecordHolds(file, record, versions, l.Actual());
    LocatorHolds(file, record + 56, record);
    DirectoryAccepted(l, file, maximum);
  }

  lemma Sizes(versions: Bytes, d: Directory, recordOffset: nat)
    requires |versions| == 4
    ensures |RecordBytes(versions, d)| == 56 && |LocatorBytes(recordOffset)| == 20
  {}

  lemma AcceptsEveryLayout(l: Layout, file: Bytes, maximum: nat)
    requires Describes(l, file, maximum)
    ensures Preflight(file, maximum) == Accepted
  {
    hide Holds, HeaderBytes, FooterBytes, RecordBytes, LocatorBytes, CheckDirectory, CheckExpanded, FooterOffset, Value, Field;
    PartsInPlace(l, file);
    FooterHolds(file, l.FooterOffset(), l.stated, l.comment);
    if l.expansion.Zip64? {
      Zip64Accepted(l, file, maximum);
    } else {
      DirectoryAccepted(l, file, maximum);
    }
  }

  // ---------------------------------------------------------------------------------------------
  // Everything accepted is an admissible layout

  lemma DirectoryTiles(file: Bytes, d: Directory, end: nat, maximum: nat) returns (headers: seq<Header>)
    requires end <= |file| && CheckDirectory(file, d, end, maximum) == Accepted
    ensures d.offset + d.size == end && d == Directory(|headers|, |headers|, |DirectoryBytes(headers)|, d.offset)
    ensures file[..end] == file[..d.offset] + DirectoryBytes(headers)
    ensures |headers| <= maximum && |DirectoryBytes(headers)| <= MAX_METADATA
    ensures forall h | h in headers :: HeaderOk(h)
  {
    hide HeaderBytes, Value;
    headers := HeadersAt(file, d.offset, end, 0, d.members, maximum);
    ScanTiles(file, d.offset, end, 0, d.members, maximum);
    assert file[..end] == file[..d.offset] + file[d.offset..end];
  }

  lemma StatedFits(file: Bytes, footer: nat)
    requires footer + 22 <= |file|
    ensures var d := StatedAt(file, footer);
            d.diskMembers <= SENTINEL16 && d.members <= SENTINEL16 && d.size <= SENTINEL32 && d.offset <= SENTINEL32
    ensures At(file, footer + 20, 2) < 0x1_0000
  {
    hide Value;
    Widths();
    AtFits(file, footer + 8, 2);
    AtFits(file, footer + 10, 2);
    AtFits(file, footer + 12, 4);
    AtFits(file, footer + 16, 4);
    AtFits(file, footer + 20, 2);
  }

  lemma FooterReads(file: Bytes, footer: nat)
    requires footer + 22 <= |file| && Holds(file, footer, FOOTER)
    requires footer + 22 + At(file, footer + 20, 2) == |file|
    requires At(file, footer + 4, 2) == 0 && At(file, footer + 6, 2) == 0
    ensures file[footer..] == FooterBytes(StatedAt(file, footer), file[footer + 22..])
  {
    hide Value, Field;
    var d, comment := StatedAt(file, footer), file[footer + 22..];
    StatedFits(file, footer);
    FooterHolds(file, footer, d, comment);
    assert file[footer..footer + |FooterBytes(d, comment)|] == file[footer..];
  }

  lemma ExpansionReads(file: Bytes, locator: nat, stated: Directory, maximum: nat)
    requires locator + 20 <= |file| && Holds(file, locator, LOCATOR)
    requires CheckExpanded(file, locator, stated, maximum) == Accepted
    ensures locator >= 56
    ensures var record := locator - 56; var d := ExpandedAt(file, record);
            && file[record..locator + 20] == RecordBytes(file[record + 12..record + 16], d) + LocatorBytes(record)
            && ConsistentAll(stated, d) && CheckDirectory(file, d, record, maximum) == Accepted && record < Power(8)
  {
    hide Value, Field, RecordBytes, LocatorBytes, CheckDirectory, ConsistentAll;
    var record := locator - 56;
    var versions, d := file[record + 12..record + 16], ExpandedAt(file, record);
    AtFits(file, locator + 8, 8);
    AtFits(file, record + 24, 8);
    AtFits(file, record + 32, 8);
    AtFits(file, record + 40, 8);
    AtFits(file, record + 48, 8);
    RecordHolds(file, record, versions, d);
    LocatorHolds(file, locator, record);
    Sizes(versions, d, record);
    SplitHolds(file, record, RecordBytes(versions, d), LocatorBytes(record));
  }

  /** The file from a directory on, put together from what the checks read. */
  lemma PlainLayout(file: Bytes, footer: nat, maximum: nat) returns (l: Layout)
    requires footer + 22 <= |file|
    requires CheckDirectory(file, StatedAt(file, footer), footer, maximum) == Accepted
    requires !NeedsZip64(StatedAt(file, footer))
    requires file[footer..] == FooterBytes(StatedAt(file, footer), file[footer + 22..])
    requires |file| - footer - 22 < 0x1_0000
    ensures l.expansion.Plain? && Admissible(l, maximum) && file == l.Serialize() && l.FooterOffset() == footer
  {
    hide FooterBytes, DirectoryBytes, HeaderOk, CheckDirectory, Value, Field, Power;
    var stated, comment := StatedAt(file, footer), file[footer + 22..];
    StatedFits(file, footer);
    var headers := DirectoryTiles(file, stated, footer, maximum);
    l := Layout(file[..stated.offset], headers, Plain, stated, comment);
    assert l.Actual() == stated && l.Body() == file[..footer];
    assert file == file[..footer] + [] + file[footer..];
  }

  lemma ExpandedLayout(file: Bytes, footer: nat, maximum: nat) returns (l: Layout)
    requires 76 <= footer && footer + 22 <= |file|
    requires var record := footer - 76; var d := ExpandedAt(file, record);
             && CheckDirectory(file, d, record, maximum) == Accepted && ConsistentAll(StatedAt(file, footer), d)
             && record < Power(8)
             && file[record..footer] == RecordBytes(file[record + 12..record + 16], d) + LocatorBytes(record)
    requires file[footer..] == FooterBytes(StatedAt(file, footer), file[footer + 22..])
    requires |file| - footer - 22 < 0x1_0000
    ensures l.expansion.Zip64? && Admissible(l, maximum) && file == l.Serialize() && l.FooterOffset() == footer
  {
    hide FooterBytes, RecordBytes, LocatorBytes, DirectoryBytes, HeaderOk, CheckDirectory, Value, Field, Power;
    var record := footer - 76;
    var stated, comment := StatedAt(file, footer), file[footer + 22..];
    StatedFits(file, footer);
    var headers := DirectoryTiles(file, ExpandedAt(file, record), record, maximum);
    l := Layout(file[..ExpandedAt(file, record).offset], headers, Zip64(file[record + 12..record + 16]), stated, comment);
    assert l.Actual() == ExpandedAt(file, record) && l.Body() == file[..record];
    assert l.ExpansionBytes() == file[record..footer];
    assert file == file[..record] + file[record..footer] + file[footer..];
    AtFits(file, record + 32, 8);
  }

  lemma AcceptedIsALayout(file: Bytes, maximum: nat) returns (l: Layout)
    requires Preflight(file, maximum) == Accepted
    ensures Describes(l, file, maximum)
  {
    hide FooterBytes, RecordBytes, LocatorBytes, DirectoryBytes, HeaderOk, CheckDirectory, CheckExpanded, Scan, Value, Field,
      Power, Layout.Serialize, Layout.FooterOffset, Admissible, StatedAt, ExpandedAt, FooterOffset;
    var footer: nat := FooterOffset(file);
    FooterSigned(file);
    StatedFits(file, footer);
    FooterReads(file, footer);
    if Holds(file, footer - 20, LOCATOR) {
      ExpansionReads(file, footer - 20, StatedAt(file, footer), maximum);
      l := ExpandedLayout(file, footer, maximum);
    } else {
      l := PlainLayout(file, footer, maximum);
    }
  }

  lemma FooterSigned(file: Bytes)
    requires |file| >= 22 && 0 <= FooterOffset(file)
    ensures Holds(file, FooterOffset(file), FOOTER)
  {}

  /** The preflight accepts a file exactly when some admissible layout describes it. */
  lemma AcceptsExactlyTheLayouts(file: Bytes, maximum: nat)
    ensures Preflight(file, maximum).Accepted? <==> exists l :: Describes(l, file, maximum)
  {
    hide Preflight, Describes;
    if Preflight(file, maximum).Accepted? {
      var l := AcceptedIsALayout(file, maximum);
    }
    forall l | Describes(l, file, maximum)
      ensures Preflight(file, maximum).Accepted?
    {
      AcceptsEveryLayout(l, file, maximum);
    }
  }

  /** A writer's archive within the limits is accepted when its tail holds the footer signature only
      at the footer and nothing that looks like a locator stands in front of a plain footer. */
  lemma AcceptsCleanArchives(l: Layout, maximum: nat)
    requires Admissible(l, maximum)
    requires forall k | TailStart(l.Serialize()) <= k && Holds(l.Serialize(), k, FOOTER) :: k == l.FooterOffset()
    requires l.expansion.Plain? ==> !Holds(l.Serialize(), l.FooterOffset() - 20, LOCATOR)
    ensures Preflight(l.Serialize(), maximum) == Accepted
  {
    hide Preflight, Admissible, Layout.Serialize, Layout.FooterOffset, Layout.Body, Layout.ExpansionBytes, FooterBytes;
    var file, footer := l.Serialize(), l.FooterOffset();
    PartsInPlace(l, file);
    FooterStartsSigned(l, file);
    assert |l.comment| < 0x1_0000 by { CommentFits(l, maximum); }
    OnlySignatureIsChosen(file, footer);
    AcceptsEveryLayout(l, file, maximum);
  }

  lemma CommentFits(l: Layout, maximum: nat)
    requires Admissible(l, maximum)
    ensures |l.comment| < 0x1_0000
  {}

  lemma OnlySignatureIsChosen(file: Bytes, footer: nat)
    requires |file| >= 22 && TailStart(file) <= footer && Holds(file, footer, FOOTER)
    requires forall k | TailStart(file) <= k && Holds(file, k, FOOTER) :: k == footer
    ensures FooterOffset(file) == footer
  {
    var start := TailStart(file);
    var tail := file[start..];
    assert tail[footer - start..footer - start + 4] == file[footer..footer + 4];
    assert Holds(tail, footer - start, FOOTER);
    var index := LastIndex(tail, FOOTER);
    assert tail[index..index + 4] == file[start + index..start + index + 4];
    assert Holds(file, start + index, FOOTER);
  }

  lemma FooterStartsSigned(l: Layout, file: Bytes)
    requires Holds(file, l.FooterOffset(), FooterBytes(l.stated, l.comment))
    ensures Holds(file, l.FooterOffset(), FOOTER)
  {
    var o := l.FooterOffset();
    assert FooterBytes(l.stated, l.comment)[..4] == FOOTER;
    assert file[o..o + |FooterBytes(l.stated, l.comment)|][..4] == file[o..o + 4];
  }
}
