/** Splitting bytes into lines that keep their terminator. */
module TextLines {
  import opened Octets

  const LF: byte := 10
  const CR: byte := 13

  /** A line ends after its LF, or with the text. */
  function LineEnd(source: Bytes, start: nat): (end: nat)
    requires start < |source|
    ensures start < end <= |source|
    ensures forall i | start <= i < end - 1 :: source[i] != LF
    ensures source[end - 1] == LF || end == |source|
    decreases |source| - start
  {
    if source[start] == LF || start + 1 == |source| then start + 1 else LineEnd(source, start + 1)
  }

  function Lines(source: Bytes, start: nat): (lines: seq<Bytes>)
    requires start <= |source|
    decreases |source| - start
  {
    if start == |source| then [] else [source[start..LineEnd(source, start)]] + Lines(source, LineEnd(source, start))
  }

  /** What a line shows: without LF or CRLF, but with a CR that no LF follows. */
  function VisibleLine(line: Bytes): (shown: Bytes)
    ensures shown <= line
  {
    if line == [] || line[|line| - 1] != LF then line
    else
      var withoutLf := line[..|line| - 1];
      if withoutLf != [] && withoutLf[|withoutLf| - 1] == CR then withoutLf[..|withoutLf| - 1] else withoutLf
  }

  function Concatenated(lines: seq<Bytes>): Bytes {
    if lines == [] then [] else lines[0] + Concatenated(lines[1..])
  }

  /** A line is what it shows and its terminator: nothing, LF or CRLF, each exactly where the line has it. */
  predicate Terminated(line: Bytes, shown: Bytes) {
    if line == [] || line[|line| - 1] != LF then line == shown
    else if |line| > 1 && line[|line| - 2] == CR then line == shown + [CR, LF]
    else line == shown + [LF]
  }

  lemma VisibleDropsTerminator(line: Bytes)
    ensures Terminated(line, VisibleLine(line))
  {}

  /** A line has no LF but its last byte. */
  predicate OneLine(line: Bytes) {
    line != [] && forall i | 0 <= i < |line| - 1 :: line[i] != LF
  }

  lemma FirstLine(source: Bytes, start: nat)
    requires start < |source|
    ensures var end := LineEnd(source, start); var first := source[start..end];
            && OneLine(first) && source[start..] == first + source[end..]
            && (end < |source| ==> first[|first| - 1] == LF)
  {}

  /** The lines are the text, cut after every LF and nowhere else. */
  lemma {:induction false} LinesAreTheText(source: Bytes, start: nat)
    requires start <= |source|
    ensures var lines := Lines(source, start);
            && Concatenated(lines) == source[start..]
            && (forall k | 0 <= k < |lines| :: OneLine(lines[k]))
            && (forall k | 0 <= k < |lines| - 1 :: lines[k][|lines[k]| - 1] == LF)
    decreases |source| - start
  {
    if start < |source| {
      var end := LineEnd(source, start);
      LinesAreTheText(source, end);
      FirstLine(source, start);
      var first, rest := source[start..end], Lines(source, end);
      assert ([first] + rest)[1..] == rest;
    }
  }
}
