/** The immutable document of the file viewer: logical lines, visual rows, selections and cursors. */
module SourceDocument {
  import opened Identity
  import opened Octets
  import opened Utf8
  import opened Fragments
  import opened TextLines

  datatype LogicalLine = LogicalLine(content: Range, ending: Range, fragments: Range)

  datatype SourceDocument = SourceDocument(
    source: Bytes, lines: seq<LogicalLine>, fragments: seq<VisualFragment>, hasLongLines: bool)

  /** Grapheme segmentation of any piece of the source, by its ends. */
  type Segmenter = (nat, nat) -> seq<nat>

  ghost predicate Segments(source: Bytes, segment: Segmenter) {
    forall a: nat, b: nat | a <= b <= |source| && IsBoundary(source, a) && IsBoundary(source, b) ::
      Graphemes(source, Range(a, b), segment(a, b))
  }

  // ---------------------------------------------------------------------------------------------
  // Preparation

  predicate LineShape(source: Bytes, line: LogicalLine) {
    && line.content.start <= line.content.end == line.ending.start <= line.ending.end <= |source|
    && line.content.start < line.ending.end
    && IsBoundary(source, line.content.start) && IsBoundary(source, line.content.end)
    && LF !in source[line.content.start..line.content.end]
    && var ending := source[line.ending.start..line.ending.end];
       && (ending == [] ==> line.ending.end == |source|)
       && (ending == [LF] ==> line.content.end == line.content.start || source[line.content.end - 1] != CR)
       && (ending == [] || ending == [LF] || ending == [CR, LF])
  }

  predicate LineRows(source: Bytes, fragments: seq<VisualFragment>, segment: Segmenter, line: LogicalLine, k: nat) {
    && line.fragments.start <= line.fragments.end <= |fragments|
    && line.content.start <= line.content.end <= |source|
    && Fragmented(source, line.content, segment(line.content.start, line.content.end), k,
                  fragments[line.fragments.start..line.fragments.end])
  }

  predicate Follows(earlier: LogicalLine, later: LogicalLine) {
    later.content.start == earlier.ending.end && later.fragments.start == earlier.fragments.end
  }

  /** The lines, their endings and their rows cover the first `end` bytes in order. */
  predicate Covers(source: Bytes, segment: Segmenter, lines: seq<LogicalLine>, fragments: seq<VisualFragment>,
          end: nat) {
    && (lines == [] ==> end == 0 && fragments == [])
    && (lines != [] ==> lines[0].content.start == 0 && lines[0].fragments.start == 0
                        && lines[|lines| - 1].ending.end == end && lines[|lines| - 1].fragments.end == |fragments|)
    && (forall k | 0 <= k < |lines| - 1 :: Follows(lines[k], lines[k + 1]))
    && (forall k | 0 <= k < |lines| :: LineShape(source, lines[k]) && LineRows(source, fragments, segment, lines[k], k))
  }

  predicate HasLong(lines: seq<LogicalLine>) {
    exists k :: 0 <= k < |lines| && lines[k].content.end - lines[k].content.start > CAP
  }

  predicate Prepared(doc: SourceDocument, segment: Segmenter) {
    && Covers(doc.source, segment, doc.lines, doc.fragments, |doc.source|)
    && (doc.hasLongLines <==> HasLong(doc.lines))
  }

  lemma LineAppends(source: Bytes, segment: Segmenter, lines: seq<LogicalLine>, fragments: seq<VisualFragment>,
                    end: nat, line: LogicalLine, rows: seq<VisualFragment>)
    requires Covers(source, segment, lines, fragments, end)
    requires line.content.start == end && LineShape(source, line)
    requires line.fragments == Range(|fragments|, |fragments| + |rows|)
    requires Fragmented(source, line.content, segment(line.content.start, line.content.end), |lines|, rows)
    ensures Covers(source, segment, lines + [line], fragments + rows, line.ending.end)
  {
    hide Fragmented, LineShape;
    var lines', fragments' := lines + [line], fragments + rows;
    forall k | 0 <= k < |lines'|
      ensures LineShape(source, lines'[k]) && LineRows(source, fragments', segment, lines'[k], k)
    {
      if k < |lines| {
        var r := lines[k].fragments;
        assert LineRows(source, fragments, segment, lines[k], k);
        assert fragments'[r.start..r.end] == fragments[r.start..r.end];
      } else {
        assert fragments'[|fragments|..|fragments| + |rows|] == rows;
        LineStays(source, line);
      }
    }
    forall k | 0 <= k < |lines'| - 1
      ensures Follows(lines'[k], lines'[k + 1])
    {
      if k < |lines| - 1 { assert Follows(lines[k], lines[k + 1]); }
    }
  }

  lemma LineStays(source: Bytes, line: LogicalLine)
    requires LineShape(source, line)
    ensures line.content.start <= line.content.end <= |source|
  {}

  lemma OneByte(source: Bytes, i: nat)
    requires i < |source|
    ensures source[i..i + 1] == [source[i]]
  {}

  lemma TwoBytes(source: Bytes, i: nat)
    requires i + 1 < |source|
    ensures source[i..i + 2] == [source[i], source[i + 1]]
  {}

  /** A line that starts at a boundary has the documented shape, and the next one starts at a boundary. */
  lemma LineIsShaped(source: Bytes, start: nat, contentEnd: nat, end: nat, fragments: Range)
    requires Valid(source) && start < |source| && IsBoundary(source, start) && end == LineEnd(source, start)
    requires contentEnd == if source[end - 1] != LF then end
                           else if end - start >= 2 && source[end - 2] == CR then end - 2 else end - 1
    ensures start <= contentEnd <= end
    ensures LineShape(source, LogicalLine(Range(start, contentEnd), Range(contentEnd, end), fragments))
    ensures IsBoundary(source, end)
  {
    if source[end - 1] == LF {
      BoundaryStartsChar(source, end - 1);
      if contentEnd == end - 2 { TwoBytes(source, contentEnd); } else { OneByte(source, contentEnd); }
    }
  }

  /** Never a partial result: either cancelled, or the whole document. */
  method PrepareCancellable(source: Bytes, segment: Segmenter,
          cancelled: nat -> bool) returns (doc: Option<SourceDocument>)
    requires Valid(source) && Segments(source, segment)
    ensures (forall p :: !cancelled(p)) ==> doc.Some?
    ensures doc.Some? ==> doc.value.source == source && Prepared(doc.value, segment)
  {
    hide Valid, LineShape, LineRows, Fragmented, Graphemes;
    var polls := 0;
    if cancelled(polls) { return None; }
    var lines: seq<LogicalLine>, fragments: seq<VisualFragment>, hasLongLines, start := [], [], false, 0;
    StartIsBoundary(source);
    while start < |source|
      invariant start <= |source| && IsBoundary(source, start)
      invariant Covers(source, segment, lines, fragments, start)
      invariant hasLongLines <==> HasLong(lines)
    {
      polls := polls + 1;
      if cancelled(polls) { return None; }
      var end := LineEnd(source, start);
      var contentEnd := if source[end - 1] != LF then end
                        else if end - start >= 2 && source[end - 2] == CR then end - 2 else end - 1;
      var firstFragment := |fragments|;
      LineIsShaped(source, start, contentEnd, end, Range(0, 0));
      ContentIsAligned(source, LogicalLine(Range(start, contentEnd), Range(contentEnd, end), Range(0, 0)));
      var done, rows, next := FragmentLine(source, Range(start, contentEnd), segment(start, contentEnd), |lines|, cancelled, polls);
      if !done { return None; }
      polls := next;
      var line := LogicalLine(Range(start, contentEnd), Range(contentEnd, end), Range(firstFragment, firstFragment + |rows|));
      LineIsShaped(source, start, contentEnd, end, line.fragments);
      LineAppends(source, segment, lines, fragments, start, line, rows);
      LongAppends(lines, line);
      hasLongLines := hasLongLines || contentEnd - start > CAP;
      fragments := fragments + rows;
      lines := lines + [line];
      start := end;
    }
    polls := polls + 1;
    if cancelled(polls) { return None; }
    doc := Some(SourceDocument(source, lines, fragments, hasLongLines));
  }

  lemma StartIsBoundary(source: Bytes)
    requires Valid(source)
    ensures IsBoundary(source, 0)
  {}

  lemma ContentIsAligned(source: Bytes, line: LogicalLine)
    requires LineShape(source, line)
    ensures IsBoundary(source, line.content.start) && IsBoundary(source, line.content.end)
  {}

  lemma LongAppends(lines: seq<LogicalLine>, line: LogicalLine)
    ensures HasLong(lines + [line]) <==> HasLong(lines) || line.content.end - line.content.start > CAP
  {
    var all := lines + [line];
    if HasLong(lines) {
      var k :| 0 <= k < |lines| && lines[k].content.end - lines[k].content.start > CAP;
      assert all[k] == lines[k];
    }
    assert all[|lines|] == line;
  }

  // ---------------------------------------------------------------------------------------------
  // Selections

  datatype SourceSelection = SourceSelection(anchor: nat, caret: nat)
  {
    function Normalized(): Range {
      if anchor <= caret then Range(anchor, caret) else Range(caret, anchor)
    }
  }

  datatype OffsetError = UnknownFragment | InvalidScalarCursor | InvalidSourceOffset

  datatype Result<+T> = Success(value: T) | Failure(error: OffsetError)

  function ValidSelection(source: Bytes, selection: SourceSelection): (r: Result<Range>)
    ensures r.Success? ==> r.value.start <= r.value.end <= |source|
  {
    var range := selection.Normalized();
    if range.end > |source| || !IsBoundary(source, range.start) || !IsBoundary(source, range.end)
    then Failure(InvalidSourceOffset)
    else Success(range)
  }

  function SelectionText(doc: SourceDocument, selection: SourceSelection): Result<Bytes> {
    match ValidSelection(doc.source, selection)
    case Failure(error) => Failure(error)
    case Success(range) => Success(doc.source[range.start..range.end])
  }

  function FragmentSelectionText(doc: SourceDocument, index: nat, selection: SourceSelection): Result<Bytes>
    requires forall f | f in doc.fragments :: f.source.start <= f.source.end <= |doc.source|
  {
    match ValidSelection(doc.source, selection)
    case Failure(error) => Failure(error)
    case Success(range) =>
      if index >= |doc.fragments| then Failure(UnknownFragment)
      else
        var row := doc.fragments[index].source;
        var start := if range.start > row.start then range.start else row.start;
        var end := if range.end < row.end then range.end else row.end;
        if end <= start then Success(doc.source[row.start..row.start]) else Success(doc.source[start..end])
  }

  /** The part of a range that a selection covers. */
  function Clip(source: Bytes, range: Range, selected: Range): Bytes
    requires range.end <= |source|
  {
    var start := if selected.start > range.start then selected.start else range.start;
    var end := if selected.end < range.end then selected.end else range.end;
    if end <= start then [] else source[start..end]
  }

  lemma ClipsJoin(source: Bytes, a: nat, b: nat, c: nat, selected: Range)
    requires a <= b <= c <= |source|
    ensures Clip(source, Range(a, b), selected) + Clip(source, Range(b, c), selected)
            == Clip(source, Range(a, c), selected)
  {
    var from := if selected.start > a then selected.start else a;
    var end := if selected.end < c then selected.end else c;
    if from < end {
      if end <= b {
        assert Clip(source, Range(b, c), selected) == [];
      } else if b <= from {
        assert Clip(source, Range(a, b), selected) == [];
      } else {
        assert source[from..end] == source[from..b] + source[b..end];
      }
    }
  }

  lemma ClipNothing(source: Bytes, a: nat, selected: Range)
    requires a <= |source|
    ensures Clip(source, Range(a, a), selected) == []
  {}

  predicate RowsInside(doc: SourceDocument) {
    forall f | f in doc.fragments :: f.source.start <= f.source.end <= |doc.source|
  }

  /** What the rows from `from` to `to` show as selected, joined. */
  function ShownRows(doc: SourceDocument, from: nat, to: nat, selection: SourceSelection): Bytes
    requires RowsInside(doc) && ValidSelection(doc.source, selection).Success? && from <= to <= |doc.fragments|
  {
    if from == to then []
    else ShownRows(doc, from, to - 1, selection) + FragmentSelectionText(doc, to - 1, selection).value
  }

  predicate LinesInside(doc: SourceDocument) {
    forall l | l in doc.lines ::
      l.ending.end <= |doc.source| && l.fragments.start <= l.fragments.end <= |doc.fragments|
  }

  /** The selected rows of the first `n` lines, each followed by the selected part of its ending. */
  function Reassembled(doc: SourceDocument, n: nat, selection: SourceSelection): Bytes
    requires RowsInside(doc) && LinesInside(doc) && ValidSelection(doc.source, selection).Success? && n <= |doc.lines|
  {
    if n == 0 then []
    else
      var line := doc.lines[n - 1];
      Reassembled(doc, n - 1, selection)
      + ShownRows(doc, line.fragments.start, line.fragments.end, selection)
      + Clip(doc.source, line.ending, ValidSelection(doc.source, selection).value)
  }

  lemma RowsAreInside(doc: SourceDocument, segment: Segmenter)
    requires Prepared(doc, segment)
    ensures RowsInside(doc) && LinesInside(doc)
  {
    forall l | l in doc.lines
      ensures l.ending.end <= |doc.source| && l.fragments.start <= l.fragments.end <= |doc.fragments|
    {
      var k :| 0 <= k < |doc.lines| && doc.lines[k] == l;
      assert LineShape(doc.source, doc.lines[k]) && LineRows(doc.source, doc.fragments, segment, doc.lines[k], k);
    }
    forall i | 0 <= i < |doc.fragments|
      ensures doc.fragments[i].source.start <= doc.fragments[i].source.end <= |doc.source|
    {
      var k := LineOf(doc, segment, i, |doc.lines|);
      RowOfLine(doc, segment, k, i);
    }
  }

  lemma {:induction false} LineOf(doc: SourceDocument, segment: Segmenter, i: nat, n: nat) returns (k: nat)
    requires Prepared(doc, segment) && 0 < n <= |doc.lines| && i < doc.lines[n - 1].fragments.end
    ensures k < n && doc.lines[k].fragments.start <= i < doc.lines[k].fragments.end
  {
    if doc.lines[n - 1].fragments.start <= i {
      k := n - 1;
    } else {
      assert n >= 2;
      assert Follows(doc.lines[n - 2], doc.lines[n - 1]);
      k := LineOf(doc, segment, i, n - 1);
    }
  }

  /** The rows of a prepared line, in place. */
  lemma LineIsFragmented(doc: SourceDocument, segment: Segmenter, k: nat) returns (rows: seq<VisualFragment>)
    requires Prepared(doc, segment) && k < |doc.lines|
    ensures var line := doc.lines[k];
            && line.fragments.start <= line.fragments.end <= |doc.fragments|
            && rows == doc.fragments[line.fragments.start..line.fragments.end]
            && line.content.start <= line.content.end <= |doc.source|
            && IsBoundary(doc.source, line.content.start) && IsBoundary(doc.source, line.content.end)
            && Fragmented(doc.source, line.content, segment(line.content.start, line.content.end), k, rows)
  {
    hide Fragmented;
    var line := doc.lines[k];
    assert LineShape(doc.source, line) && LineRows(doc.source, doc.fragments, segment, line, k);
    rows := doc.fragments[line.fragments.start..line.fragments.end];
  }

  lemma FragmentedRow(source: Bytes, content: Range, cuts: seq<nat>, k: nat, rows: seq<VisualFragment>, j: nat)
    requires Fragmented(source, content, cuts, k, rows) && j < |rows|
    requires content.start <= content.end <= |source|
    requires IsBoundary(source, content.start) && IsBoundary(source, content.end)
    ensures rows[j].source.start <= rows[j].source.end <= |source|
    ensures IsBoundary(source, rows[j].source.start) && IsBoundary(source, rows[j].source.end)
    ensures rows[j].source.start == if j == 0 then content.start else rows[j - 1].source.end
    ensures j == |rows| - 1 ==> rows[j].source.end == content.end
  {}

  lemma RowOfLine(doc: SourceDocument, segment: Segmenter, k: nat, i: nat)
    requires Prepared(doc, segment) && k < |doc.lines|
    requires doc.lines[k].fragments.start <= i < doc.lines[k].fragments.end
    ensures i < |doc.fragments| && doc.fragments[i].source.start <= doc.fragments[i].source.end <= |doc.source|
    ensures IsBoundary(doc.source, doc.fragments[i].source.start) && IsBoundary(doc.source, doc.fragments[i].source.end)
  {
    hide Prepared, Fragmented;
    var line := doc.lines[k];
    var rows := LineIsFragmented(doc, segment, k);
    FragmentedRow(doc.source, line.content, segment(line.content.start, line.content.end), k, rows, i - line.fragments.start);
  }

  /** Where the rows of a line before `to` end. */
  function RowsEnd(doc: SourceDocument, line: LogicalLine, to: nat): nat
    requires line.fragments.start <= to <= |doc.fragments|
  {
    if to == line.fragments.start then line.content.start else doc.fragments[to - 1].source.end
  }

  lemma RowsFollow(doc: SourceDocument, segment: Segmenter, k: nat, i: nat)
    requires Prepared(doc, segment) && k < |doc.lines|
    requires doc.lines[k].fragments.start <= i < doc.lines[k].fragments.end
    ensures i < |doc.fragments|
    ensures doc.fragments[i].source.start == RowsEnd(doc, doc.lines[k], i)
    ensures i + 1 == doc.lines[k].fragments.end ==> doc.fragments[i].source.end == doc.lines[k].content.end
  {
    hide Prepared, Fragmented;
    var line := doc.lines[k];
    var rows := LineIsFragmented(doc, segment, k);
    FragmentedRow(doc.source, line.content, segment(line.content.start, line.content.end), k, rows, i - line.fragments.start);
  }

  lemma FragmentShows(doc: SourceDocument, i: nat, selection: SourceSelection)
    requires RowsInside(doc) && ValidSelection(doc.source, selection).Success? && i < |doc.fragments|
    ensures FragmentSelectionText(doc, i, selection)
            == Success(Clip(doc.source, doc.fragments[i].source, ValidSelection(doc.source, selection).value))
  {
    var row := doc.fragments[i].source;
    assert doc.source[row.start..row.start] == [];
  }

  lemma {:induction false} RowsShow(doc: SourceDocument, segment: Segmenter, k: nat, bound: nat,
          selection: SourceSelection)
    requires Prepared(doc, segment) && RowsInside(doc) && k < |doc.lines|
    requires ValidSelection(doc.source, selection).Success?
    requires doc.lines[k].fragments.start <= bound <= doc.lines[k].fragments.end <= |doc.fragments|
    ensures var line := doc.lines[k]; var selected := ValidSelection(doc.source, selection).value;
            && line.content.start <= RowsEnd(doc, line, bound) <= |doc.source|
            && ShownRows(doc, line.fragments.start, bound, selection)
               == Clip(doc.source, Range(line.content.start, RowsEnd(doc, line, bound)), selected)
    decreases bound
  {
    hide Prepared, Clip, ValidSelection, FragmentSelectionText;
    var line := doc.lines[k];
    var selected := ValidSelection(doc.source, selection).value;
    ContentInside(doc, segment, k);
    ClipNothing(doc.source, line.content.start, selected);
    if line.fragments.start < bound {
      RowsShow(doc, segment, k, bound - 1, selection);
      RowsFollow(doc, segment, k, bound - 1);
      var row := doc.fragments[bound - 1].source;
      ClipsJoin(doc.source, line.content.start, row.start, row.end, selected);
      FragmentShows(doc, bound - 1, selection);
    }
  }

  lemma ContentInside(doc: SourceDocument, segment: Segmenter, k: nat)
    requires Prepared(doc, segment) && k < |doc.lines|
    ensures var line := doc.lines[k];
            && line.content.start <= line.content.end == line.ending.start <= line.ending.end <= |doc.source|
            && line.fragments.start < line.fragments.end <= |doc.fragments|
            && line.content.start == if k == 0 then 0 else doc.lines[k - 1].ending.end
  {}

  lemma {:induction false} LinesShow(doc: SourceDocument, segment: Segmenter, n: nat, selection: SourceSelection)
    requires Prepared(doc, segment) && RowsInside(doc) && LinesInside(doc) && n <= |doc.lines|
    requires ValidSelection(doc.source, selection).Success?
    ensures var end := if n == 0 then 0 else doc.lines[n - 1].ending.end;
            && end <= |doc.source|
            && Reassembled(doc, n, selection)
               == Clip(doc.source, Range(0, end), ValidSelection(doc.source, selection).value)
  {
    hide Prepared, RowsInside, LinesInside, Clip, ValidSelection;
    ClipNothing(doc.source, 0, ValidSelection(doc.source, selection).value);
    if n > 0 {
      var line, selected := doc.lines[n - 1], ValidSelection(doc.source, selection).value;
      LinesShow(doc, segment, n - 1, selection);
      ContentInside(doc, segment, n - 1);
      RowsShow(doc, segment, n - 1, line.fragments.end, selection);
      RowsFollow(doc, segment, n - 1, line.fragments.end - 1);
      ClipsJoin(doc.source, 0, line.content.start, line.content.end, selected);
      ClipsJoin(doc.source, 0, line.content.end, line.ending.end, selected);
    }
  }

  lemma WholeRange(doc: SourceDocument, selection: SourceSelection)
    requires ValidSelection(doc.source, selection).Success?
    ensures SelectionText(doc, selection)
            == Success(Clip(doc.source, Range(0, |doc.source|), ValidSelection(doc.source, selection).value))
  {
    var range := ValidSelection(doc.source, selection).value;
    if range.start == range.end { assert doc.source[range.start..range.end] == []; }
  }

  /** Copying from the source equals joining what the rows show as selected and the selected parts of
      the line endings, for any valid selection in either direction. */
  lemma CopyEqualsWhatIsShown(doc: SourceDocument, segment: Segmenter, selection: SourceSelection)
    requires Prepared(doc, segment) && ValidSelection(doc.source, selection).Success?
    ensures RowsInside(doc) && LinesInside(doc)
    ensures SelectionText(doc, selection) == Success(Reassembled(doc, |doc.lines|, selection))
  {
    hide Reassembled, LineRows, LineShape, HasLong, Clip, FragmentSelectionText;
    RowsAreInside(doc, segment);
    WholeRange(doc, selection);
    LinesShow(doc, segment, |doc.lines|, selection);
  }

  /** An offset that is no position of the text: past its end or inside a character. */
  ghost predicate Misplaced(source: Bytes, offset: nat) {
    offset > |source| || InsideChar(source, offset)
  }

  predicate Between(a: nat, b: nat, k: nat) {
    a <= k < b || b <= k < a
  }

  /** A selection in either direction copies the bytes between its two offsets; it is refused exactly when
      one of them is past the end or inside a character. */
  lemma CopyIsTheTextBetween(doc: SourceDocument, a: nat, b: nat)
    requires Valid(doc.source)
    ensures SelectionText(doc, SourceSelection(a, b))
            == if Misplaced(doc.source, a) || Misplaced(doc.source, b) then Failure(InvalidSourceOffset)
               else if a <= b then Success(doc.source[a..b])
               else Success(doc.source[b..a])
  {
    if a <= |doc.source| { BoundaryIsNotInside(doc.source, a); }
    if b <= |doc.source| { BoundaryIsNotInside(doc.source, b); }
  }

  /** A row shows the bytes whose offsets lie both in the row and between the two ends of the selection. */
  lemma RowShowsTheTextBetween(doc: SourceDocument, index: nat, a: nat, b: nat)
    requires Valid(doc.source) && RowsInside(doc)
    ensures var shown := FragmentSelectionText(doc, index, SourceSelection(a, b));
            && (shown == Failure(InvalidSourceOffset) <==> Misplaced(doc.source, a) || Misplaced(doc.source, b))
            && (shown == Failure(UnknownFragment)
                <==> !Misplaced(doc.source, a) && !Misplaced(doc.source, b) && index >= |doc.fragments|)
            && (shown.Success? ==>
                  && index < |doc.fragments|
                  && var row := doc.fragments[index].source;
                     exists x: nat, y: nat :: x <= y <= |doc.source| && shown.value == doc.source[x..y]
                       && forall k: nat :: x <= k < y <==> row.start <= k < row.end && Between(a, b, k))
  {
    if a <= |doc.source| { BoundaryIsNotInside(doc.source, a); }
    if b <= |doc.source| { BoundaryIsNotInside(doc.source, b); }
    if index < |doc.fragments| && !Misplaced(doc.source, a) && !Misplaced(doc.source, b) {
      var row, low, high := doc.fragments[index].source, if a <= b then a else b, if a <= b then b else a;
      var x := if low > row.start then low else row.start;
      var y := if high < row.end then high else row.end;
      if y <= x {
        assert FragmentSelectionText(doc, index, SourceSelection(a, b)).value == doc.source[row.start..row.start];
        assert forall k: nat :: row.start <= k < row.start <==> row.start <= k < row.end && Between(a, b, k);
      } else {
        assert forall k: nat :: x <= k < y <==> row.start <= k < row.end && Between(a, b, k);
        assert FragmentSelectionText(doc, index, SourceSelection(a, b)).value == doc.source[x..y];
      }
    }
  }

  /** What the rows show as selected, with the selected parts of the line endings, is the text between the
      two offsets. */
  lemma ShownIsTheTextBetween(doc: SourceDocument, segment: Segmenter, a: nat, b: nat)
    requires Valid(doc.source) && Prepared(doc, segment)
    requires !Misplaced(doc.source, a) && !Misplaced(doc.source, b)
    ensures var selection := SourceSelection(a, b);
            && ValidSelection(doc.source, selection).Success? && RowsInside(doc) && LinesInside(doc)
            && Reassembled(doc, |doc.lines|, selection) == if a <= b then doc.source[a..b] else doc.source[b..a]
  {
    hide Reassembled, Prepared, Valid;
    CopyIsTheTextBetween(doc, a, b);
    CopyEqualsWhatIsShown(doc, segment, SourceSelection(a, b));
  }

  lemma SeveralRows(source: Bytes, content: Range, cuts: seq<nat>, line: nat, rows: seq<VisualFragment>)
    requires Graphemes(source, content, cuts) && Fragmented(source, content, cuts, line, rows)
    ensures |rows| > 1 <==> content.end - content.start > CAP
  {
    if content.start < content.end && |rows| > 1 && NoOversized(cuts) {
      assert Maximal(cuts, rows[..|rows| - 1][0]);
    }
  }

  /** A document has long lines exactly when some line takes more than one row. */
  lemma LongMeansSeveralRows(doc: SourceDocument, segment: Segmenter)
    requires Segments(doc.source, segment) && Prepared(doc, segment)
    ensures doc.hasLongLines <==>
              exists k :: 0 <= k < |doc.lines| && doc.lines[k].fragments.end - doc.lines[k].fragments.start > 1
  {
    forall k | 0 <= k < |doc.lines|
      ensures doc.lines[k].fragments.end - doc.lines[k].fragments.start > 1
              <==> doc.lines[k].content.end - doc.lines[k].content.start > CAP
    {
      var line := doc.lines[k];
      var rows := LineIsFragmented(doc, segment, k);
      SeveralRows(doc.source, line.content, segment(line.content.start, line.content.end), k, rows);
    }
  }

  /** The rows and the line endings, all selected, are exactly the source. */
  lemma RowsAndEndingsAreTheSource(doc: SourceDocument, segment: Segmenter)
    requires Valid(doc.source) && Prepared(doc, segment)
    ensures var all := SourceSelection(0, |doc.source|);
            && ValidSelection(doc.source, all).Success? && RowsInside(doc) && LinesInside(doc)
            && Reassembled(doc, |doc.lines|, all) == doc.source
  {
    StartIsBoundary(doc.source);
    CopyEqualsWhatIsShown(doc, segment, SourceSelection(0, |doc.source|));
  }

  // ---------------------------------------------------------------------------------------------
  // Cursors

  /** The byte offset of the n-th scalar position between two boundaries. */
  function NthPosition(source: Bytes, from: nat, end: nat, n: nat): Option<nat>
    requires Valid(source) && IsBoundary(source, from) && from <= end <= |source|
    decreases n
  {
    if n == 0 then Some(from)
    else if from == end then None
    else
      BoundaryStartsChar(source, from);
      var next := from + CharLength(source[from]);
      if next > end then None else NthPosition(source, next, end, n - 1)
  }

  function ScalarCount(source: Bytes, from: nat, end: nat): (n: nat)
    requires Valid(source) && IsBoundary(source, from) && from <= end <= |source|
    decreases end - from
  {
    if from == end then 0
    else
      BoundaryStartsChar(source, from);
      var next := from + CharLength(source[from]);
      if next > end then 1 else 1 + ScalarCount(source, next, end)
  }

  /** The count is the number of scalar values that the bytes encode. */
  lemma {:induction false} CountsScalars(source: Bytes, from: nat, end: nat, text: seq<nat>)
    requires Valid(source) && IsBoundary(source, from) && from <= end <= |source|
    requires (forall c | c in text :: Scalar(c)) && source[from..end] == Encoded(text)
    ensures ScalarCount(source, from, end) == |text|
    decreases |text|
  {
    hide Encode, Scalar, CharLength, Valid, IsBoundary;
    if text != [] {
      var next := from + |Encode(text[0])|;
      BoundaryStartsChar(source, from);
      EncodedSlice(source, from, end, Encode(text[0]), Encoded(text[1..]));
      EncodedIsChar(source, from, text[0]);
      CountsScalars(source, next, end, text[1..]);
    }
  }

  lemma EncodedSlice(source: Bytes, from: nat, end: nat, first: Bytes, rest: Bytes)
    requires from <= end <= |source| && source[from..end] == first + rest
    ensures from + |first| <= end && source[from..from + |first|] == first && source[from + |first|..end] == rest
  {
    assert source[from..end][..|first|] == first && source[from..end][|first|..] == rest;
  }

  predicate RowsAligned(doc: SourceDocument) {
    Valid(doc.source) && forall f | f in doc.fragments ::
      && f.source.start <= f.source.end <= |doc.source|
      && IsBoundary(doc.source, f.source.start) && IsBoundary(doc.source, f.source.end)
  }

  function FragmentCursorToSource(doc: SourceDocument, index: nat, cursor: nat): Result<nat>
    requires RowsAligned(doc)
  {
    if index >= |doc.fragments| then Failure(UnknownFragment)
    else
      var row := doc.fragments[index].source;
      match NthPosition(doc.source, row.start, row.end, cursor)
      case None => Failure(InvalidScalarCursor)
      case Some(offset) => Success(offset)
  }

  function SourceToFragmentCursor(doc: SourceDocument, index: nat, offset: nat): Result<nat>
    requires RowsAligned(doc)
  {
    if index >= |doc.fragments| then Failure(UnknownFragment)
    else
      var row := doc.fragments[index].source;
      if offset < row.start || offset > row.end || !IsBoundary(doc.source, offset) then Failure(InvalidSourceOffset)
      else Success(ScalarCount(doc.source, row.start, offset))
  }

  lemma {:induction false} PositionCounts(source: Bytes, from: nat, end: nat, n: nat)
    requires Valid(source) && IsBoundary(source, from) && IsBoundary(source, end) && from <= end <= |source|
    ensures NthPosition(source, from, end, n).Some? <==> n <= ScalarCount(source, from, end)
    ensures NthPosition(source, from, end, n).Some? ==>
              var offset := NthPosition(source, from, end, n).value;
              from <= offset <= end && IsBoundary(source, offset) && ScalarCount(source, from, offset) == n
    decreases n
  {
    if n > 0 && from < end {
      BoundaryStartsChar(source, from);
      PositionCounts(source, from + CharLength(source[from]), end, n - 1);
    }
  }

  lemma {:induction false} CountPositions(source: Bytes, from: nat, offset: nat, end: nat)
    requires Valid(source) && IsBoundary(source, from) && IsBoundary(source, offset) && IsBoundary(source, end)
    requires from <= offset <= end <= |source|
    ensures NthPosition(source, from, end, ScalarCount(source, from, offset)) == Some(offset)
    decreases offset - from
  {
    if from < offset {
      BoundaryStartsChar(source, from);
      CountPositions(source, from + CharLength(source[from]), offset, end);
    }
  }

  /** The two cursor mappings are mutually inverse on the scalar positions of a row, and reject the rest. */
  lemma CursorsAreInverse(doc: SourceDocument, index: nat, cursor: nat, offset: nat)
    requires RowsAligned(doc) && index < |doc.fragments|
    ensures FragmentCursorToSource(doc, index, cursor) == Success(offset)
            <==> SourceToFragmentCursor(doc, index, offset) == Success(cursor)
    ensures var row := doc.fragments[index].source;
            && (FragmentCursorToSource(doc, index, cursor).Success?
                <==> cursor <= ScalarCount(doc.source, row.start, row.end))
            && (SourceToFragmentCursor(doc, index, offset).Success?
                <==> row.start <= offset <= row.end && IsBoundary(doc.source, offset))
  {
    hide Valid;
    var row := doc.fragments[index].source;
    PositionCounts(doc.source, row.start, row.end, cursor);
    if row.start <= offset <= row.end && IsBoundary(doc.source, offset) {
      CountPositions(doc.source, row.start, offset, row.end);
    }
  }

  /** Every prepared document has aligned rows. */
  lemma PreparedIsAligned(doc: SourceDocument, segment: Segmenter)
    requires Valid(doc.source) && Prepared(doc, segment)
    ensures RowsAligned(doc)
  {
    forall i | 0 <= i < |doc.fragments|
      ensures var f := doc.fragments[i];
              && f.source.start <= f.source.end <= |doc.source|
              && IsBoundary(doc.source, f.source.start) && IsBoundary(doc.source, f.source.end)
    {
      var k := LineOf(doc, segment, i, |doc.lines|);
      RowOfLine(doc, segment, k, i);
    }
  }
}
