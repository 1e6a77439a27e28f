/** Visual rows of one logical line: byte-capped, character-aligned and grapheme-aware fragments. */
module Fragments {
  import opened Octets
  import opened Utf8

  const CAP: nat := 1024

  datatype Range = Range(start: nat, end: nat)

  datatype VisualFragment = VisualFragment(logicalLine: nat, source: Range, startsInside: bool, endsInside: bool)

  /** The grapheme boundaries of a line: its ends and the cuts between its graphemes. */
  predicate Graphemes(source: Bytes, content: Range, cuts: seq<nat>) {
    && content.start <= content.end <= |source|
    && |cuts| >= 1 && cuts[0] == content.start && cuts[|cuts| - 1] == content.end
    && (forall i, j | 0 <= i < j < |cuts| :: cuts[i] < cuts[j])
    && (forall i | 0 <= i < |cuts| :: IsBoundary(source, cuts[i]))
  }

  predicate InsideGrapheme(cuts: seq<nat>, p: nat) {
    exists k :: 0 <= k < |cuts| - 1 && cuts[k] < p < cuts[k + 1]
  }

  /** Strictly inside a grapheme that alone exceeds the cap. */
  predicate InsideOversized(cuts: seq<nat>, p: nat) {
    exists k :: 0 <= k < |cuts| - 1 && cuts[k] < p < cuts[k + 1] && cuts[k + 1] - cuts[k] > CAP
  }

  predicate NoOversized(cuts: seq<nat>) {
    forall k | 0 <= k < |cuts| - 1 :: cuts[k + 1] - cuts[k] <= CAP
  }

  /** The ranges follow each other without gap or overlap. */
  predicate Tiles(rows: seq<VisualFragment>, from: nat, to: nat) {
    if rows == [] then from == to
    else
      && rows[0].source.start == from
      && rows[|rows| - 1].source.end == to
      && forall i | 0 <= i < |rows| - 1 :: rows[i].source.end == rows[i + 1].source.start
  }

  predicate RowShape(source: Bytes, row: VisualFragment, line: nat) {
    && row.logicalLine == line
    && row.source.start < row.source.end <= |source| && row.source.end - row.source.start <= CAP
    && IsBoundary(source, row.source.start) && IsBoundary(source, row.source.end)
  }

  /** The flags are set exactly where a cut falls strictly inside a grapheme, which must then exceed
      the cap, and a chunk that ends there is as long as the alignment allows. */
  predicate FlagsExact(cuts: seq<nat>, row: VisualFragment) {
    && (row.startsInside <==> InsideGrapheme(cuts, row.source.start))
    && (row.endsInside <==> InsideGrapheme(cuts, row.source.end))
    && (row.startsInside ==> InsideOversized(cuts, row.source.start))
    && (row.endsInside ==> InsideOversized(cuts, row.source.end) && row.source.end - row.source.start >= CAP - 3)
  }

  /** The row ends at a cut and could not have taken one more grapheme. */
  predicate Maximal(cuts: seq<nat>, row: VisualFragment) {
    exists m :: 0 <= m < |cuts| - 1 && cuts[m] == row.source.end && cuts[m + 1] - row.source.start > CAP
  }

  predicate RowsOk(source: Bytes, cuts: seq<nat>, line: nat, rows: seq<VisualFragment>) {
    forall i | 0 <= i < |rows| :: RowShape(source, rows[i], line) && FlagsExact(cuts, rows[i])
  }

  predicate FullRows(cuts: seq<nat>, rows: seq<VisualFragment>) {
    forall i | 0 <= i < |rows| :: Maximal(cuts, rows[i])
  }

  /** What fragmenting a line produces. */
  predicate Fragmented(source: Bytes, content: Range, cuts: seq<nat>, line: nat, rows: seq<VisualFragment>) {
    if content.start == content.end then
      rows == [VisualFragment(line, content, false, false)]
    else
      && rows != [] && Tiles(rows, content.start, content.end) && RowsOk(source, cuts, line, rows)
      && (NoOversized(cuts) ==> FullRows(cuts, rows[..|rows| - 1]))
  }

  lemma PushKeeps(source: Bytes, cuts: seq<nat>, line: nat, rows: seq<VisualFragment>, row: VisualFragment, from: nat)
    requires Tiles(rows, from, row.source.start) && RowsOk(source, cuts, line, rows)
    requires RowShape(source, row, line) && FlagsExact(cuts, row)
    ensures Tiles(rows + [row], from, row.source.end) && RowsOk(source, cuts, line, rows + [row])
  {}

  /** The row from one cut to a later one. */
  lemma WholeRow(source: Bytes, content: Range, cuts: seq<nat>, line: nat, i: nat, j: nat)
    requires Graphemes(source, content, cuts) && i < j < |cuts| && cuts[j] - cuts[i] <= CAP
    ensures var row := VisualFragment(line, Range(cuts[i], cuts[j]), false, false);
            RowShape(source, row, line) && FlagsExact(cuts, row)
  {}

  lemma NoRows(source: Bytes, cuts: seq<nat>, line: nat, from: nat)
    ensures Tiles([], from, from) && RowsOk(source, cuts, line, [])
  {}

  lemma RowIsFull(cuts: seq<nat>, row: VisualFragment, m: nat)
    requires m < |cuts| - 1 && cuts[m] == row.source.end && cuts[m + 1] - row.source.start > CAP
    ensures Maximal(cuts, row)
  {}

  /** The chunks of one oversized grapheme. */
  method ChunkGrapheme(source: Bytes, content: Range, cuts: seq<nat>, k: nat, line: nat,
                       rows: seq<VisualFragment>, cancelled: nat -> bool, poll: nat)
    returns (done: bool, out: seq<VisualFragment>, polls: nat)
    requires Valid(source) && Graphemes(source, content, cuts)
    requires k < |cuts| - 1 && cuts[k + 1] - cuts[k] > CAP
    requires Tiles(rows, content.start, cuts[k]) && RowsOk(source, cuts, line, rows)
    ensures (forall p :: !cancelled(p)) ==> done
    ensures done ==> Tiles(out, content.start, cuts[k + 1]) && RowsOk(source, cuts, line, out) && |out| > |rows|
  {
    var start, end := cuts[k], cuts[k + 1];
    assert end <= content.end;
    var chunkStart := start;
    out, polls := rows, poll;
    while chunkStart < end
      invariant start <= chunkStart <= end && IsBoundary(source, chunkStart)
      invariant Tiles(out, content.start, chunkStart) && RowsOk(source, cuts, line, out)
      invariant |out| >= |rows| && (chunkStart > start ==> |out| > |rows|)
    {
      polls := polls + 1;
      if cancelled(polls) { return false, out, polls; }
      var chunkEnd := if chunkStart + CAP < end then chunkStart + CAP else end;
      ghost var limit := chunkEnd;
      while !IsBoundary(source, chunkEnd)
        invariant chunkStart < chunkEnd <= limit
        invariant limit == end ==> chunkEnd == end
        invariant limit < end ==> chunkEnd >= limit - 3
        invariant forall p | chunkEnd < p <= limit :: !IsBoundary(source, p)
        decreases chunkEnd
      {
        BoundaryWithinFour(source, 0, limit);
        chunkEnd := chunkEnd - 1;
      }
      var row := VisualFragment(line, Range(chunkStart, chunkEnd), chunkStart != start, chunkEnd != end);
      ChunkFlags(source, content, cuts, k, row);
      PushKeeps(source, cuts, line, out, row, content.start);
      out := out + [row];
      chunkStart := chunkEnd;
    }
    done := true;
  }

  lemma ChunkFlags(source: Bytes, content: Range, cuts: seq<nat>, k: nat, row: VisualFragment)
    requires Graphemes(source, content, cuts) && k < |cuts| - 1 && cuts[k + 1] - cuts[k] > CAP
    requires cuts[k] <= row.source.start < row.source.end <= cuts[k + 1]
    requires row.startsInside == (row.source.start != cuts[k]) && row.endsInside == (row.source.end != cuts[k + 1])
    requires row.endsInside ==> row.source.end - row.source.start >= CAP - 3
    ensures FlagsExact(cuts, row)
  {}

  /** Fragment one line. `cuts` are its grapheme boundaries; `cancelled` answers each poll. */
  method FragmentLine(source: Bytes, content: Range, cuts: seq<nat>, line: nat, cancelled: nat -> bool, poll: nat)
    returns (done: bool, rows: seq<VisualFragment>, polls: nat)
    requires Valid(source) && Graphemes(source, content, cuts)
    ensures (forall p :: !cancelled(p)) ==> done
    ensures done ==> Fragmented(source, content, cuts, line, rows)
  {
    hide Tiles, RowsOk, RowShape, FlagsExact, Valid, Maximal;
    rows, polls := [], poll;
    NoRows(source, cuts, line, content.start);
    var fragmentStart := content.start;
    ghost var j := 0;
    for k := 0 to |cuts| - 1
      invariant 0 <= j <= k && fragmentStart == cuts[j] && cuts[k] - cuts[j] <= CAP
      invariant Tiles(rows, content.start, fragmentStart) && RowsOk(source, cuts, line, rows)
      invariant NoOversized(cuts) ==> FullRows(cuts, rows)
      invariant rows == [] <==> j == 0
    {
      polls := polls + 1;
      if cancelled(polls) { return false, rows, polls; }
      var start, end := cuts[k], cuts[k + 1];
      if end - start > CAP {
        if fragmentStart < start {
          WholeRow(source, content, cuts, line, j, k);
          var row := VisualFragment(line, Range(fragmentStart, start), false, false);
          PushKeeps(source, cuts, line, rows, row, content.start);
          rows := rows + [row];
        }
        done, rows, polls := ChunkGrapheme(source, content, cuts, k, line, rows, cancelled, polls);
        if !done { return; }
        assert !NoOversized(cuts);
        fragmentStart := end;
        j := k + 1;
      } else if end - fragmentStart > CAP {
        WholeRow(source, content, cuts, line, j, k);
        var row := VisualFragment(line, Range(fragmentStart, start), false, false);
        PushKeeps(source, cuts, line, rows, row, content.start);
        RowIsFull(cuts, row, k);
        rows := rows + [row];
        fragmentStart := start;
        j := k;
      }
    }
    ghost var full := rows;
    assert content.start == content.end ==> |cuts| == 1 && rows == [];
    assert NoOversized(cuts) && rows != [] ==> FullRows(cuts, rows[..|rows| - 1]);
    assert fragmentStart == content.end && content.start < content.end ==> rows != [];
    if fragmentStart < content.end || content.start == content.end {
      var row := VisualFragment(line, Range(fragmentStart, content.end), false, false);
      if fragmentStart < content.end {
        WholeRow(source, content, cuts, line, j, |cuts| - 1);
        PushKeeps(source, cuts, line, rows, row, content.start);
      }
      rows := rows + [row];
      assert rows[..|rows| - 1] == full;
    }
    done := true;
  }

  // ---------------------------------------------------------------------------------------------
  // Greedy rows are the fewest

  /** Any other way to cut the line between graphemes under the cap. */
  predicate GraphemeRows(content: Range, cuts: seq<nat>, other: seq<Range>) {
    && other != [] && other[0].start == content.start && other[|other| - 1].end == content.end
    && (forall i | 0 <= i < |other| - 1 :: other[i].end == other[i + 1].start)
    && (forall i | 0 <= i < |other| :: other[i].end - other[i].start <= CAP && other[i].end in cuts)
  }

  lemma RowFacts(source: Bytes, content: Range, cuts: seq<nat>, line: nat, rows: seq<VisualFragment>, i: nat)
    requires NoOversized(cuts) && content.start < content.end && i < |rows|
    requires Fragmented(source, content, cuts, line, rows)
    ensures rows[i].source.start == if i == 0 then content.start else rows[i - 1].source.end
    ensures i == |rows| - 1 ==> rows[i].source.end == content.end
    ensures i < |rows| - 1 ==> Maximal(cuts, rows[i])
  {}

  lemma CutsOrdered(source: Bytes, content: Range, cuts: seq<nat>, m: nat, e: nat)
    requires Graphemes(source, content, cuts) && m + 1 < |cuts| && e < |cuts|
    ensures cuts[e] <= cuts[m] || cuts[m + 1] <= cuts[e]
  {}

  /** The j-th row reaches at least as far as the j-th piece of any other cutting. */
  lemma {:induction false} GreedyStaysAhead(source: Bytes, content: Range, cuts: seq<nat>, line: nat,
                                            rows: seq<VisualFragment>, other: seq<Range>, i: nat)
    requires Graphemes(source, content, cuts) && NoOversized(cuts) && content.start < content.end
    requires Fragmented(source, content, cuts, line, rows) && GraphemeRows(content, cuts, other)
    requires i < |rows| && i < |other|
    ensures other[i].end <= rows[i].source.end
  {
    hide Fragmented, NoOversized;
    RowFacts(source, content, cuts, line, rows, i);
    if i > 0 { GreedyStaysAhead(source, content, cuts, line, rows, other, i - 1); }
    var e :| 0 <= e < |cuts| && cuts[e] == other[i].end;
    if i < |rows| - 1 {
      var m :| 0 <= m < |cuts| - 1 && cuts[m] == rows[i].source.end && cuts[m + 1] - rows[i].source.start > CAP;
      CutsOrdered(source, content, cuts, m, e);
    }
  }

  /** When no grapheme exceeds the cap, no way of cutting the line between graphemes needs fewer rows. */
  lemma FewestRows(source: Bytes, content: Range, cuts: seq<nat>, line: nat,
                   rows: seq<VisualFragment>, other: seq<Range>)
    requires Graphemes(source, content, cuts) && NoOversized(cuts) && content.start < content.end
    requires Fragmented(source, content, cuts, line, rows) && GraphemeRows(content, cuts, other)
    ensures |rows| <= |other|
  {
    hide Fragmented;
    if |other| < |rows| {
      GreedyStaysAhead(source, content, cuts, line, rows, other, |other| - 1);
      RowFacts(source, content, cuts, line, rows, |other| - 1);
      assert false;
    }
  }
}
