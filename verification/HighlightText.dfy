/** The line-length guard of the highlighter and the spans it shows. */
module HighlightText {
  import opened Identity
  import opened Octets
  import opened TextLines

  const MAX_LINE_BYTES: nat := 1024
  const MAX_LINES: nat := 20_000

  datatype Span = Span(style: nat, text: Bytes)

  /** Whether some line from `start` on, counted with its terminator, exceeds the limit. */
  predicate Oversized(text: Bytes, start: nat)
    requires start <= |text|
    decreases |text| - start
  {
    start < |text| && (LineEnd(text, start) - start > MAX_LINE_BYTES || Oversized(text, LineEnd(text, start)))
  }

  lemma {:induction false} OversizedIsALongLine(text: Bytes, start: nat)
    requires start <= |text|
    ensures Oversized(text, start) <==> exists line :: line in Lines(text, start) && |line| > MAX_LINE_BYTES
    decreases |text| - start
  {
    if start < |text| {
      var end := LineEnd(text, start);
      OversizedIsALongLine(text, end);
      assert text[start..end] in Lines(text, start);
      assert forall line | line in Lines(text, start) :: line == text[start..end] || line in Lines(text, end);
      assert forall line | line in Lines(text, end) :: line in Lines(text, start);
    }
  }

  predicate InLine(text: Bytes, lineStart: nat, i: nat) {
    lineStart <= i <= |text| && forall j | lineStart <= j < i :: text[j] != LF
  }

  lemma LineCloses(text: Bytes, lineStart: nat, i: nat)
    requires InLine(text, lineStart, i) && i < |text| && i + 1 - lineStart <= MAX_LINE_BYTES
    ensures text[i] == LF ==> Oversized(text, lineStart) == Oversized(text, i + 1) && InLine(text, i + 1, i + 1)
    ensures text[i] != LF ==> InLine(text, lineStart, i + 1)
  {}

  lemma LineIsLong(text: Bytes, lineStart: nat, i: nat)
    requires InLine(text, lineStart, i) && i < |text| && i + 1 - lineStart > MAX_LINE_BYTES
    ensures Oversized(text, lineStart)
  {}

  lemma LastLine(text: Bytes, lineStart: nat)
    requires InLine(text, lineStart, |text|) && |text| - lineStart <= MAX_LINE_BYTES
    ensures !Oversized(text, lineStart)
  {}

  /** The scan by chunks: true exactly when some line exceeds the limit. */
  method ContainsOversizedLine(text: Bytes, cancelled: nat -> bool) returns (found: Option<bool>)
    ensures (forall poll :: !cancelled(poll)) ==> found.Some?
    ensures found.Some? ==> (found.value <==> exists line :: line in Lines(text, 0) && |line| > MAX_LINE_BYTES)
  {
    hide Oversized, InLine;
    OversizedIsALongLine(text, 0);
    TextBegins(text);
    var lineBytes, polls, chunkStart := 0, 0, 0;
    ghost var lineStart := 0;
    while chunkStart < |text|
      invariant lineStart + lineBytes == chunkStart <= |text| && lineBytes <= MAX_LINE_BYTES
      invariant Oversized(text, 0) == Oversized(text, lineStart) && InLine(text, lineStart, chunkStart)
    {
      polls := polls + 1;
      if cancelled(polls) { return None; }
      var chunkEnd := if chunkStart + MAX_LINE_BYTES < |text| then chunkStart + MAX_LINE_BYTES else |text|;
      for i := chunkStart to chunkEnd
        invariant lineStart + lineBytes == i && lineBytes <= MAX_LINE_BYTES
        invariant Oversized(text, 0) == Oversized(text, lineStart) && InLine(text, lineStart, i)
      {
        lineBytes := lineBytes + 1;
        if lineBytes > MAX_LINE_BYTES {
          LineIsLong(text, lineStart, i);
          return Some(true);
        }
        LineCloses(text, lineStart, i);
        if text[i] == LF {
          lineBytes := 0;
          lineStart := i + 1;
        }
      }
      chunkStart := chunkEnd;
    }
    LastLine(text, lineStart);
    found := if cancelled(polls + 1) then None else Some(false);
  }

  lemma TextBegins(text: Bytes)
    ensures InLine(text, 0, 0)
  {}

  // ---------------------------------------------------------------------------------------------
  // What is shown

  function Joined(spans: seq<Span>): Bytes {
    if spans == [] then [] else Joined(spans[..|spans| - 1]) + spans[|spans| - 1].text
  }

  lemma JoinedOne(span: Span)
    ensures Joined([span]) == span.text
  {}

  lemma JoinedMore(spans: seq<Span>, span: Span)
    ensures Joined(spans + [span]) == Joined(spans) + span.text
  {}

  /** The style of the byte at a position of the joined spans. */
  function StyleAt(spans: seq<Span>, p: nat): nat
    requires p < |Joined(spans)|
  {
    var last := |spans| - 1;
    if p < |Joined(spans[..last])| then StyleAt(spans[..last], p) else spans[last].style
  }

  lemma StyleOfMore(spans: seq<Span>, span: Span)
    ensures forall p: nat | p < |Joined(spans + [span])| ::
              StyleAt(spans + [span], p) == if p < |Joined(spans)| then StyleAt(spans, p) else span.style
  {
    assert (spans + [span])[..|spans|] == spans;
  }

  lemma StyleOfOne(span: Span)
    ensures forall p: nat | p < |Joined([span])| :: StyleAt([span], p) == span.style
  {
    assert [span][..0] == [];
  }

  /** Wherever both have a byte, they give it the same style. */
  ghost predicate SameStyles(spans: seq<Span>, ranges: seq<Span>) {
    forall p: nat | p < |Joined(spans)| && p < |Joined(ranges)| :: StyleAt(spans, p) == StyleAt(ranges, p)
  }

  function Cut(text: Bytes, length: nat): Bytes {
    if |text| <= length then text else text[..length]
  }

  /** How much of a piece at an offset is still visible. */
  function Left(visible: nat, offset: nat, piece: nat): (n: nat)
    ensures n <= piece
  {
    var left := if offset < visible then visible - offset else 0;
    if left < piece then left else piece
  }

  lemma CutMore(text: Bytes, piece: Bytes, length: nat)
    ensures Cut(text + piece, length) == Cut(text, length) + piece[..Left(length, |text|, |piece|)]
  {}

  predicate NonEmpty(spans: seq<Span>) {
    forall span | span in spans :: span.text != []
  }

  /** What has been shown after the first `k` ranges. */
  ghost predicate ShownSoFar(ranges: seq<Span>, k: nat, visible: nat, offset: nat, spans: seq<Span>)
    requires k <= |ranges|
  {
    && offset == |Joined(ranges[..k])| && Joined(spans) == Cut(Joined(ranges[..k]), visible) && NonEmpty(spans)
    && SameStyles(spans, ranges[..k])
  }

  lemma NextRange(ranges: seq<Span>, k: nat, visible: nat, offset: nat, spans: seq<Span>)
    requires k < |ranges| && ShownSoFar(ranges, k, visible, offset, spans)
    ensures var piece := ranges[k].text;
            var shown := Left(visible, offset, |piece|);
            ShownSoFar(ranges, k + 1, visible, offset + |piece|,
                       if shown > 0 then spans + [Span(ranges[k].style, piece[..shown])] else spans)
  {
    hide Joined, Cut;
    var piece := ranges[k].text;
    var shown := Left(visible, offset, |piece|);
    assert ranges[..k + 1] == ranges[..k] + [ranges[k]];
    JoinedMore(ranges[..k], ranges[k]);
    CutMore(Joined(ranges[..k]), piece, visible);
    JoinedMore(spans, Span(ranges[k].style, piece[..shown]));
    StylesMore(ranges[..k], ranges[k], visible, spans);
  }

  /** The visible part of one more range keeps the styles in step. */
  lemma StylesMore(ranges: seq<Span>, range: Span, visible: nat, spans: seq<Span>)
    requires Joined(spans) == Cut(Joined(ranges), visible) && SameStyles(spans, ranges)
    ensures var shown := Left(visible, |Joined(ranges)|, |range.text|);
            SameStyles(if shown > 0 then spans + [Span(range.style, range.text[..shown])] else spans, ranges + [range])
  {
    var shown := Left(visible, |Joined(ranges)|, |range.text|);
    StyleOfMore(ranges, range);
    JoinedMore(ranges, range);
    var span := Span(range.style, range.text[..shown]);
    StyleOfMore(spans, span);
    JoinedMore(spans, span);
  }

  lemma FirstRange(ranges: seq<Span>, visible: nat)
    ensures ShownSoFar(ranges, 0, visible, 0, [])
  {}

  lemma AllRanges(line: Bytes, ranges: seq<Span>, offset: nat, spans: seq<Span>)
    requires Joined(ranges) == line && ShownSoFar(ranges, |ranges|, |VisibleLine(line)|, offset, spans)
    ensures Joined(spans) == VisibleLine(line) && NonEmpty(spans) && SameStyles(spans, ranges)
  {
    assert ranges[..|ranges|] == ranges;
    CutToVisible(line);
  }

  /** One parsed line: the parser's ranges, cut by position where the terminator starts. Every byte that is
      shown keeps the parser's style. */
  method HighlightLine(line: Bytes, ranges: seq<Span>) returns (spans: seq<Span>)
    requires Joined(ranges) == line
    ensures Joined(spans) == VisibleLine(line) && NonEmpty(spans) && SameStyles(spans, ranges)
  {
    hide Joined, ShownSoFar, NonEmpty, SameStyles;
    var visible := |VisibleLine(line)|;
    spans := [];
    var offset: nat := 0;
    FirstRange(ranges, visible);
    for k := 0 to |ranges|
      invariant ShownSoFar(ranges, k, visible, offset, spans)
    {
      NextRange(ranges, k, visible, offset, spans);
      var piece := ranges[k].text;
      var shown := Left(visible, offset, |piece|);
      if shown > 0 { spans := spans + [Span(ranges[k].style, piece[..shown])]; }
      offset := offset + |piece|;
    }
    AllRanges(line, ranges, offset, spans);
  }

  lemma CutToVisible(line: Bytes)
    ensures Cut(line, |VisibleLine(line)|) == VisibleLine(line)
  {}

  /** The first lines of the text are shown, whatever the spans. */
  predicate Shows(out: seq<seq<Span>>, lines: seq<Bytes>) {
    && |out| <= |lines|
    && forall k | 0 <= k < |out| :: Joined(out[k]) == VisibleLine(lines[k])
  }

  lemma ShowsMore(out: seq<seq<Span>>, lines: seq<Bytes>, spans: seq<Span>)
    requires Shows(out, lines) && |out| < |lines| && Joined(spans) == VisibleLine(lines[|out|])
    ensures Shows(out + [spans], lines)
  {}

  lemma ShowsNothing(lines: seq<Bytes>)
    ensures Shows([], lines)
  {}

  function Shown(lines: seq<Bytes>): nat {
    if |lines| < MAX_LINES then |lines| else MAX_LINES
  }

  /** All in one style. */
  ghost predicate PlainStyle(spans: seq<Span>, foreground: nat) {
    forall p: nat | p < |Joined(spans)| :: StyleAt(spans, p) == foreground
  }

  /** The style of every row: the parser's where it parsed the line, else the foreground. */
  ghost predicate Styled(out: seq<seq<Span>>, parser: Parser, foreground: nat) {
    forall k: nat | k < |out| ::
      if parser(k).Some? then SameStyles(out[k], parser(k).value) else PlainStyle(out[k], foreground)
  }

  method PlainLines(text: Bytes, foreground: nat, cancelled: nat -> bool) returns (out: Option<seq<seq<Span>>>)
    ensures (forall poll :: !cancelled(poll)) ==> out.Some?
    ensures out.Some? ==> |out.value| == Shown(Lines(text, 0)) && Shows(out.value, Lines(text, 0))
    ensures out.Some? ==> forall k | 0 <= k < |out.value| :: PlainStyle(out.value[k], foreground)
  {
    hide Shows, Lines, Joined, VisibleLine, PlainStyle;
    var lines: seq<Bytes>, rows: seq<seq<Span>> := Lines(text, 0), [];
    ShowsNothing(lines);
    for k := 0 to Shown(lines)
      invariant |rows| == k && Shows(rows, lines)
      invariant forall i | 0 <= i < k :: PlainStyle(rows[i], foreground)
    {
      if cancelled(k) { return None; }
      var spans := [Span(foreground, VisibleLine(lines[k]))];
      JoinedOne(spans[0]);
      OneSpanIsPlain(spans[0]);
      ShowsMore(rows, lines, spans);
      rows := rows + [spans];
    }
    out := if cancelled(Shown(lines)) then None else Some(rows);
  }

  lemma OneSpanIsPlain(span: Span)
    ensures PlainStyle([span], span.style)
  {
    StyleOfOne(span);
  }

  lemma NothingStyled(parser: Parser, foreground: nat)
    ensures Styled([], parser, foreground)
  {}

  lemma StyledMore(out: seq<seq<Span>>, spans: seq<Span>, parser: Parser, foreground: nat)
    requires Styled(out, parser, foreground)
    requires if parser(|out|).Some? then SameStyles(spans, parser(|out|).value) else PlainStyle(spans, foreground)
    ensures Styled(out + [spans], parser, foreground)
  {
    hide SameStyles, PlainStyle;
    assert forall k: nat | k < |out| :: (out + [spans])[k] == out[k];
  }

  /** The parser sees each line with its terminator; it may fail on any of them. */
  type Parser = nat -> Option<seq<Span>>

  ghost predicate ParsesLines(parser: Parser, lines: seq<Bytes>) {
    forall k: nat | k < |lines| :: parser(k).Some? ==> Joined(parser(k).value) == lines[k]
  }

  method HighlightLines(text: Bytes, parser: Parser, foreground: nat, cancelled: nat -> bool)
    returns (out: Option<seq<seq<Span>>>)
    requires ParsesLines(parser, Lines(text, 0))
    ensures (forall poll :: !cancelled(poll)) ==> out.Some?
    ensures out.Some? ==> |out.value| == Shown(Lines(text, 0)) && Shows(out.value, Lines(text, 0))
    ensures out.Some? ==> Styled(out.value, parser, foreground)
  {
    if cancelled(0) { return None; }
    hide Shows, Lines, Joined, VisibleLine, PlainStyle, SameStyles, NonEmpty, Styled;
    NothingStyled(parser, foreground);
    var lines: seq<Bytes>, rows: seq<seq<Span>> := Lines(text, 0), [];
    ShowsNothing(lines);
    for k := 0 to Shown(lines)
      invariant |rows| == k && Shows(rows, lines) && Styled(rows, parser, foreground)
    {
      if cancelled(k + 1) { return None; }
      var spans := [Span(foreground, VisibleLine(lines[k]))];
      JoinedOne(spans[0]);
      OneSpanIsPlain(spans[0]);
      if parser(k).Some? { spans := HighlightLine(lines[k], parser(k).value); }
      StyledMore(rows, spans, parser, foreground);
      ShowsMore(rows, lines, spans);
      rows := rows + [spans];
    }
    out := if cancelled(Shown(lines) + 1) then None else Some(rows);
  }

  /** Highlighted or plain, what is shown is the same text; the parser runs only without long lines, and with
      one everything is plain. */
  method HighlightGuarded(text: Bytes, parser: Parser, foreground: nat, scans: nat -> bool, cancelled: nat -> bool)
    returns (out: Option<seq<seq<Span>>>, parsed: bool)
    requires ParsesLines(parser, Lines(text, 0))
    ensures (forall poll :: !scans(poll) && !cancelled(poll)) ==> out.Some?
    ensures out.Some? ==> |out.value| == Shown(Lines(text, 0)) && Shows(out.value, Lines(text, 0))
    ensures out.Some? && parsed ==> Styled(out.value, parser, foreground)
    ensures out.Some? && !parsed ==> forall k | 0 <= k < |out.value| :: PlainStyle(out.value[k], foreground)
    ensures parsed ==> forall line | line in Lines(text, 0) :: |line| <= MAX_LINE_BYTES
    ensures out.Some? && !parsed ==> exists line :: line in Lines(text, 0) && |line| > MAX_LINE_BYTES
  {
    var oversized := ContainsOversizedLine(text, scans);
    if oversized.None? { return None, false; }
    parsed := !oversized.value;
    if parsed {
      out := HighlightLines(text, parser, foreground, cancelled);
    } else {
      out := PlainLines(text, foreground, cancelled);
    }
  }
}
