/** The row plan of the diff viewer and the window of rows it draws. */
module ReviewRows {
  import opened Identity

  const LINE_HEIGHT: real := 18.0
  const NOTE_ROW_HEIGHT: real := 26.0
  const EDITOR_ROW_HEIGHT: real := 34.0
  const U32: nat := 0x1_0000_0000

  datatype DiffLine = DiffLine(oldLn: Option<nat>, newLn: Option<nat>)

  datatype FileDiff = FileDiff(path: string, lines: seq<DiffLine>, reviewIdentity: string)

  datatype DiffNote = DiffNote(id: nat, filePath: string, line: nat, oldSide: bool, reviewIdentity: Option<string>)

  datatype NoteEdit = NoteEdit(filePath: string, line: nat, oldSide: bool)

  /** A row of the plan; lines and notes are named by their index. */
  datatype ReviewRow = Diff(line: nat) | Note(note: nat) | Editor

  function RowHeight(row: ReviewRow): (h: real)
    ensures h > 0.0
  {
    match row
    case Diff(_) => LINE_HEIGHT
    case Note(_) => NOTE_ROW_HEIGHT
    case Editor => EDITOR_ROW_HEIGHT
  }

  /** The new line number, else the old one, cut to 32 bits. */
  function Anchor(line: DiffLine): Option<nat> {
    match line.newLn
    case Some(n) => Some(n % U32)
    case None => match line.oldLn case Some(n) => Some(n % U32) case None => None
  }

  predicate Stale(note: DiffNote, file: FileDiff) {
    note.reviewIdentity.Some? && note.reviewIdentity.value != file.reviewIdentity
  }

  predicate Matches(file: FileDiff, line: DiffLine, note: DiffNote) {
    Anchor(line) == Some(note.line) && note.oldSide == line.newLn.None? && !Stale(note, file)
  }

  predicate EditorMatches(line: DiffLine, edit: NoteEdit) {
    Anchor(line) == Some(edit.line) && edit.oldSide == line.newLn.None?
  }

  // ---------------------------------------------------------------------------------------------
  // The plan, part by part

  predicate InRange(notes: seq<DiffNote>, candidates: seq<nat>) {
    forall i | 0 <= i < |candidates| :: candidates[i] < |notes|
  }

  /** The notes of the file among the first `n`. */
  function FileNotes(file: FileDiff, notes: seq<DiffNote>, n: nat): seq<nat>
    requires n <= |notes|
  {
    if n == 0 then []
    else FileNotes(file, notes, n - 1) + if notes[n - 1].filePath == file.path then [n - 1] else []
  }

  /** The note rows below a line, among some candidates. */
  function NotesBelow(file: FileDiff, notes: seq<DiffNote>, line: DiffLine, candidates: seq<nat>): seq<ReviewRow>
    requires InRange(notes, candidates)
  {
    if candidates == [] then []
    else
      var last := candidates[|candidates| - 1];
      NotesBelow(file, notes, line, candidates[..|candidates| - 1])
      + if Matches(file, line, notes[last]) then [Note(last)] else []
  }

  function RowsOfLine(file: FileDiff, notes: seq<DiffNote>, candidates: seq<nat>, edit: Option<NoteEdit>,
          index: nat): seq<ReviewRow>
    requires index < |file.lines| && InRange(notes, candidates)
  {
    [Diff(index)] + NotesBelow(file, notes, file.lines[index], candidates)
    + if edit.Some? && EditorMatches(file.lines[index], edit.value) then [Editor] else []
  }

  function RowsOfLines(file: FileDiff, notes: seq<DiffNote>, candidates: seq<nat>, edit: Option<NoteEdit>,
          n: nat): seq<ReviewRow>
    requires n <= |file.lines| && InRange(notes, candidates)
  {
    if n == 0 then []
    else RowsOfLines(file, notes, candidates, edit, n - 1) + RowsOfLine(file, notes, candidates, edit, n - 1)
  }

  /** Note rows whose note was not shown below any line. */
  function Leftover(notes: seq<DiffNote>, candidates: seq<nat>, shown: set<nat>): seq<ReviewRow>
    requires InRange(notes, candidates)
  {
    if candidates == [] then []
    else
      var last := candidates[|candidates| - 1];
      Leftover(notes, candidates[..|candidates| - 1], shown)
      + if notes[last].id !in shown then [Note(last)] else []
  }

  lemma {:induction false} FileNotesAre(file: FileDiff, notes: seq<DiffNote>, n: nat)
    requires n <= |notes|
    ensures forall c :: c in FileNotes(file, notes, n) <==> 0 <= c < n && notes[c].filePath == file.path
    ensures forall c: nat :: multiset(FileNotes(file, notes, n))[c]
                             == if c < n && notes[c].filePath == file.path then 1 else 0
  {
    if n > 0 { FileNotesAre(file, notes, n - 1); }
  }

  // ---------------------------------------------------------------------------------------------
  // How often each row occurs

  function Times(rows: seq<ReviewRow>, row: ReviewRow): nat {
    multiset(rows)[row]
  }

  /** Below how many of the first `n` lines a note belongs. */
  function MatchCount(file: FileDiff, note: DiffNote, n: nat): nat
    requires n <= |file.lines|
  {
    if n == 0 then 0 else MatchCount(file, note, n - 1) + if Matches(file, file.lines[n - 1], note) then 1 else 0
  }

  function EditorCount(file: FileDiff, edit: NoteEdit, n: nat): nat
    requires n <= |file.lines|
  {
    if n == 0 then 0 else EditorCount(file, edit, n - 1) + if EditorMatches(file.lines[n - 1], edit) then 1 else 0
  }

  lemma {:induction false} NotesBelowCount(file: FileDiff, notes: seq<DiffNote>, line: DiffLine,
          candidates: seq<nat>, k: nat)
    requires InRange(notes, candidates) && k < |notes|
    ensures var rows := NotesBelow(file, notes, line, candidates);
            Times(rows, Note(k)) == if Matches(file, line, notes[k]) then multiset(candidates)[k] else 0
  {
    hide Matches, Times;
    if candidates == [] {
      NoTimes(Note(k));
    } else {
      var n := |candidates| - 1;
      var before: seq<nat>, last := candidates[..n], candidates[n];
      var row: seq<ReviewRow> := if Matches(file, line, notes[last]) then [Note(last)] else [];
      NotesBelowCount(file, notes, line, before, k);
      assert candidates == before + [last];
      assert multiset(candidates)[k] == multiset(before)[k] + if last == k then 1 else 0;
      TimesJoin(NotesBelow(file, notes, line, before), row, Note(k));
      OneRow(row, Note(k));
    }
  }

  lemma OneRow(rows: seq<ReviewRow>, row: ReviewRow)
    requires |rows| <= 1
    ensures Times(rows, row) == if rows == [row] then 1 else 0
  {}

  lemma {:induction false} NothingElseBelow(file: FileDiff, notes: seq<DiffNote>, line: DiffLine, candidates: seq<nat>)
    requires InRange(notes, candidates)
    ensures var rows := NotesBelow(file, notes, line, candidates);
            (forall d :: Times(rows, Diff(d)) == 0) && Times(rows, Editor) == 0
  {
    hide Matches;
    if candidates != [] { NothingElseBelow(file, notes, line, candidates[..|candidates| - 1]); }
  }

  lemma TimesJoin(a: seq<ReviewRow>, b: seq<ReviewRow>, row: ReviewRow)
    ensures Times(a + b, row) == Times(a, row) + Times(b, row)
  {}

  lemma RowOfLineTimes(file: FileDiff, notes: seq<DiffNote>, candidates: seq<nat>, edit: Option<NoteEdit>,
          n: nat, row: ReviewRow)
    requires n < |file.lines| && InRange(notes, candidates) && (row.Note? ==> row.note < |notes|)
    ensures Times(RowsOfLine(file, notes, candidates, edit, n), row) ==
            match row
            case Diff(d) => if d == n then 1 else 0
            case Note(k) => if Matches(file, file.lines[n], notes[k]) then multiset(candidates)[k] else 0
            case Editor => if edit.Some? && EditorMatches(file.lines[n], edit.value) then 1 else 0
  {
    hide Matches, EditorMatches;
    var below := NotesBelow(file, notes, file.lines[n], candidates);
    var tail := if edit.Some? && EditorMatches(file.lines[n], edit.value) then [Editor] else [];
    TimesJoin([Diff(n)] + below, tail, row);
    TimesJoin([Diff(n)], below, row);
    NothingElseBelow(file, notes, file.lines[n], candidates);
    if row.Note? { NotesBelowCount(file, notes, file.lines[n], candidates, row.note); }
  }

  lemma {:induction false} RowTimes(file: FileDiff, notes: seq<DiffNote>, candidates: seq<nat>,
          edit: Option<NoteEdit>, n: nat, row: ReviewRow)
    requires n <= |file.lines| && InRange(notes, candidates)
    requires row.Note? ==> row.note < |notes| && multiset(candidates)[row.note] <= 1
    ensures Times(RowsOfLines(file, notes, candidates, edit, n), row) ==
            match row
            case Diff(d) => if d < n then 1 else 0
            case Note(k) => if k in candidates then MatchCount(file, notes[k], n) else 0
            case Editor => if edit.Some? then EditorCount(file, edit.value, n) else 0
  {
    hide Matches, EditorMatches, RowsOfLine, NotesBelow, Times;
    if n > 0 {
      RowTimes(file, notes, candidates, edit, n - 1, row);
      RowOfLineTimes(file, notes, candidates, edit, n - 1, row);
      TimesJoin(RowsOfLines(file, notes, candidates, edit, n - 1), RowsOfLine(file, notes, candidates, edit, n - 1), row);
      if row.Note? { assert row.note in candidates <==> row.note in multiset(candidates); }
    } else {
      NoTimes(row);
    }
  }

  lemma NoTimes(row: ReviewRow)
    ensures Times([], row) == 0
  {}

  lemma {:induction false} LeftoverTimes(notes: seq<DiffNote>, candidates: seq<nat>, shown: set<nat>, k: nat)
    requires InRange(notes, candidates) && k < |notes|
    ensures var rows := Leftover(notes, candidates, shown);
            && Times(rows, Note(k)) == (if notes[k].id !in shown then multiset(candidates)[k] else 0)
            && (forall d :: Times(rows, Diff(d)) == 0) && Times(rows, Editor) == 0
  {
    if candidates != [] {
      var n := |candidates| - 1;
      var before: seq<nat> := candidates[..n];
      var last := candidates[n];
      var row: seq<ReviewRow> := if notes[last].id !in shown then [Note(last)] else [];
      LeftoverTimes(notes, before, shown, k);
      assert candidates == before + [last];
      assert multiset(candidates)[k] == multiset(before)[k] + if last == k then 1 else 0;
      TimesJoin(Leftover(notes, before, shown), row, Note(k));
      TimesJoin(Leftover(notes, before, shown), row, Editor);
    }
  }

  // ---------------------------------------------------------------------------------------------
  // The whole plan

  function ShownIds(notes: seq<DiffNote>, rows: seq<ReviewRow>): set<nat> {
    set row | row in rows && row.Note? && row.note < |notes| :: notes[row.note].id
  }

  function EditHere(file: FileDiff, editing: Option<NoteEdit>): Option<NoteEdit> {
    if editing.Some? && editing.value.filePath == file.path then editing else None
  }

  lemma {:induction false} FileNotesInRange(file: FileDiff, notes: seq<DiffNote>, n: nat)
    requires n <= |notes|
    ensures InRange(notes, FileNotes(file, notes, n))
  {
    FileNotesAre(file, notes, n);
    forall i | 0 <= i < |FileNotes(file, notes, n)|
      ensures FileNotes(file, notes, n)[i] < |notes|
    {
      assert FileNotes(file, notes, n)[i] in FileNotes(file, notes, n);
    }
  }

  /** Lines with the notes and the editor anchored to them, then the notes left over, then the editor
      if no line took it. */
  function Plan(file: FileDiff, notes: seq<DiffNote>, editing: Option<NoteEdit>): seq<ReviewRow> {
    FileNotesInRange(file, notes, |notes|);
    var candidates, edit := FileNotes(file, notes, |notes|), EditHere(file, editing);
    var anchored := RowsOfLines(file, notes, candidates, edit, |file.lines|);
    anchored + Leftover(notes, candidates, ShownIds(notes, anchored))
    + if edit.Some? && Editor !in anchored then [Editor] else []
  }

  function AtLeastOne(n: nat): nat {
    if n == 0 then 1 else n
  }

  /** Below how many lines of the diff a note belongs. */
  function Anchored(file: FileDiff, note: DiffNote): nat {
    MatchCount(file, note, |file.lines|)
  }

  /** Some note of the file with this note's id belongs below a line; the plan then takes the id for
      shown. */
  predicate Taken(file: FileDiff, notes: seq<DiffNote>, k: nat)
    requires k < |notes|
  {
    exists j | 0 <= j < |notes| :: notes[j].filePath == file.path && notes[j].id == notes[k].id && Anchored(file, notes[j]) > 0
  }

  /** The rows that belong into the plan of a file. */
  predicate Belongs(file: FileDiff, notes: seq<DiffNote>, editing: Option<NoteEdit>, row: ReviewRow) {
    match row
    case Diff(d) => d < |file.lines|
    case Note(k) => k < |notes| && notes[k].filePath == file.path
    case Editor => EditHere(file, editing).Some?
  }

  /** A note of the file, for each line it belongs to and once at the end when its id is not taken; the
      editor, for each line it belongs to and once at the end when there is none. */
  function Occurrences(file: FileDiff, notes: seq<DiffNote>, editing: Option<NoteEdit>, row: ReviewRow): nat {
    if !Belongs(file, notes, editing, row) then 0
    else if row.Diff? then 1
    else if row.Note? then Anchored(file, notes[row.note]) + (if Taken(file, notes, row.note) then 0 else 1)
    else AtLeastOne(EditorCount(file, editing.value, |file.lines|))
  }

  /** How often every row occurs in the plan, for any diff, any notes and any editor. */
  lemma PlanTimes(file: FileDiff, notes: seq<DiffNote>, editing: Option<NoteEdit>, row: ReviewRow)
    requires row.Note? ==> row.note < |notes|
    ensures Times(Plan(file, notes, editing), row) == Occurrences(file, notes, editing, row)
  {
    hide RowsOfLines, Leftover, FileNotes, MatchCount, EditorCount, Taken, ShownIds;
    FileNotesInRange(file, notes, |notes|);
    FileNotesAre(file, notes, |notes|);
    var candidates, edit := FileNotes(file, notes, |notes|), EditHere(file, editing);
    var anchored := RowsOfLines(file, notes, candidates, edit, |file.lines|);
    var shown := ShownIds(notes, anchored);
    var leftover := Leftover(notes, candidates, shown);
    var tail := if edit.Some? && Editor !in anchored then [Editor] else [];
    TimesJoin(anchored + leftover, tail, row);
    TimesJoin(anchored, leftover, row);
    RowTimes(file, notes, candidates, edit, |file.lines|, row);
    NothingElseLeft(notes, candidates, shown);
    if row.Note? {
      LeftoverTimes(notes, candidates, shown, row.note);
      ShownExactly(file, notes, edit, row.note);
      assert row.note in candidates <==> row.note in multiset(candidates);
    }
  }

  /** The ids shown below the lines are exactly the taken ones. */
  lemma ShownExactly(file: FileDiff, notes: seq<DiffNote>, edit: Option<NoteEdit>, k: nat)
    requires k < |notes| && InRange(notes, FileNotes(file, notes, |notes|))
    ensures var anchored := RowsOfLines(file, notes, FileNotes(file, notes, |notes|), edit, |file.lines|);
            notes[k].id in ShownIds(notes, anchored) <==> Taken(file, notes, k)
  {
    hide RowsOfLines, FileNotes, MatchCount, EditorCount;
    FileNotesAre(file, notes, |notes|);
    var candidates := FileNotes(file, notes, |notes|);
    var anchored := RowsOfLines(file, notes, candidates, edit, |file.lines|);
    forall j: nat | j < |notes|
      ensures Note(j) in anchored <==> notes[j].filePath == file.path && Anchored(file, notes[j]) > 0
    {
      RowTimes(file, notes, candidates, edit, |file.lines|, Note(j));
      assert Note(j) in anchored <==> Note(j) in multiset(anchored);
    }
    if notes[k].id in ShownIds(notes, anchored) {
      var row :| row in anchored && row.Note? && row.note < |notes| && notes[row.note].id == notes[k].id;
      assert Note(row.note) in anchored;
    }
    if Taken(file, notes, k) {
      var j :| 0 <= j < |notes| && notes[j].filePath == file.path && notes[j].id == notes[k].id && Anchored(file, notes[j]) > 0;
      assert Note(j) in anchored;
    }
  }

  /** A note is neither repeated nor lost: it belongs below one line, or below none with its id free. */
  predicate Singular(file: FileDiff, notes: seq<DiffNote>, k: nat)
    requires k < |notes|
  {
    Anchored(file, notes[k]) == 1 || (Anchored(file, notes[k]) == 0 && !Taken(file, notes, k))
  }

  /** A note of the file is shown exactly once precisely when it is singular. */
  lemma NoteShownOnce(file: FileDiff, notes: seq<DiffNote>, editing: Option<NoteEdit>, k: nat)
    requires k < |notes| && notes[k].filePath == file.path
    ensures Times(Plan(file, notes, editing), Note(k)) == 1 <==> Singular(file, notes, k)
    ensures Times(Plan(file, notes, editing), Note(k)) == 0 <==> Anchored(file, notes[k]) == 0 && Taken(file, notes, k)
  {
    hide Plan, Times, MatchCount;
    PlanTimes(file, notes, editing, Note(k));
    assert Anchored(file, notes[k]) > 0 ==> Taken(file, notes, k);
  }

  predicate NotesSingular(file: FileDiff, notes: seq<DiffNote>) {
    forall k: nat | k < |notes| && notes[k].filePath == file.path :: Singular(file, notes, k)
  }

  predicate EditorSingular(file: FileDiff, editing: Option<NoteEdit>) {
    EditHere(file, editing).Some? ==> EditorCount(file, editing.value, |file.lines|) <= 1
  }

  predicate RowSingular(file: FileDiff, notes: seq<DiffNote>, editing: Option<NoteEdit>, row: ReviewRow)
    requires Belongs(file, notes, editing, row)
  {
    match row
    case Diff(_) => true
    case Note(k) => Singular(file, notes, k)
    case Editor => EditorSingular(file, editing)
  }

  /** The plan shows everything that belongs into it exactly once, precisely when every note of the
      file is singular and at most one line takes the editor. */
  lemma PlanIsExact(file: FileDiff, notes: seq<DiffNote>, editing: Option<NoteEdit>)
    ensures (forall row | Belongs(file, notes, editing, row) :: Times(Plan(file, notes, editing), row) == 1)
            <==> NotesSingular(file, notes) && EditorSingular(file, editing)
  {
    hide Plan, Times, Singular, EditorCount;
    forall row | Belongs(file, notes, editing, row)
      ensures Times(Plan(file, notes, editing), row) == 1 <==> RowSingular(file, notes, editing, row)
    {
      PlanTimes(file, notes, editing, row);
      if row.Note? { NoteShownOnce(file, notes, editing, row.note); }
    }
    if forall row | Belongs(file, notes, editing, row) :: Times(Plan(file, notes, editing), row) == 1 {
      forall k: nat | k < |notes| && notes[k].filePath == file.path
        ensures Singular(file, notes, k)
      {
        assert Belongs(file, notes, editing, Note(k));
      }
      if EditHere(file, editing).Some? { assert Belongs(file, notes, editing, Editor); }
    }
  }

  lemma {:induction false} NothingElseLeft(notes: seq<DiffNote>, candidates: seq<nat>, shown: set<nat>)
    requires InRange(notes, candidates)
    ensures var rows := Leftover(notes, candidates, shown);
            (forall d :: Times(rows, Diff(d)) == 0) && Times(rows, Editor) == 0
  {
    if candidates != [] { NothingElseLeft(notes, candidates[..|candidates| - 1], shown); }
  }

  /** Two notes with one id: the one that no line takes is never shown. */
  lemma DuplicateIdLosesNote(path: string)
    ensures var file := FileDiff(path, [DiffLine(None, Some(1))], []);
            var notes := [DiffNote(7, path, 1, false, None), DiffNote(7, path, 9, false, None)];
            notes[1].filePath == file.path && Times(Plan(file, notes, None), Note(1)) == 0
  {
    var file := FileDiff(path, [DiffLine(None, Some(1))], []);
    var notes := [DiffNote(7, path, 1, false, None), DiffNote(7, path, 9, false, None)];
    assert MatchCount(file, notes[0], 1) == 1 && MatchCount(file, notes[1], 1) == 0;
    assert notes[0].id == notes[1].id;
    hide Plan, Times, MatchCount;
    NoteShownOnce(file, notes, None, 1);
  }

  /** Two lines with one number: a note anchored there is shown twice. */
  lemma DuplicateLineRepeatsNote(path: string)
    ensures var file := FileDiff(path, [DiffLine(None, Some(1)), DiffLine(None, Some(1))], []);
            Times(Plan(file, [DiffNote(7, path, 1, false, None)], None), Note(0)) == 2
  {
    var file := FileDiff(path, [DiffLine(None, Some(1)), DiffLine(None, Some(1))], []);
    var note := DiffNote(7, path, 1, false, None);
    assert MatchCount(file, note, 1) == 1 && MatchCount(file, note, 2) == 2;
    hide Plan, Times;
    PlanTimes(file, [note], None, Note(0));
  }

  // ---------------------------------------------------------------------------------------------
  // Exactly once

  predicate Unlike(a: Option<nat>, b: Option<nat>) {
    a.Some? && b.Some? ==> a.value != b.value
  }

  /** A real diff numbers the lines of each side once, below 2^32. */
  predicate DistinctNumbers(file: FileDiff) {
    && (forall i, j | 0 <= i < j < |file.lines| ::
          Unlike(file.lines[i].newLn, file.lines[j].newLn) && Unlike(file.lines[i].oldLn, file.lines[j].oldLn))
    && (forall i | 0 <= i < |file.lines| ::
          file.lines[i].newLn.GetOr(0) < U32 && file.lines[i].oldLn.GetOr(0) < U32)
  }

  lemma SameAnchorSameLine(file: FileDiff, i: nat, j: nat)
    requires DistinctNumbers(file) && i < j < |file.lines|
    requires Anchor(file.lines[i]).Some? && file.lines[i].newLn.None? == file.lines[j].newLn.None?
    ensures Anchor(file.lines[i]) != Anchor(file.lines[j])
  {}

  lemma {:induction false} MatchesOnce(file: FileDiff, note: DiffNote, n: nat)
    requires DistinctNumbers(file) && n <= |file.lines|
    ensures MatchCount(file, note, n) <= 1
    ensures MatchCount(file, note, n) == 1 ==> exists i :: 0 <= i < n && Matches(file, file.lines[i], note)
  {
    if n > 0 {
      MatchesOnce(file, note, n - 1);
      if MatchCount(file, note, n - 1) == 1 && Matches(file, file.lines[n - 1], note) {
        var i :| 0 <= i < n - 1 && Matches(file, file.lines[i], note);
        SameAnchorSameLine(file, i, n - 1);
      }
    }
  }

  lemma {:induction false} EditorOnce(file: FileDiff, edit: NoteEdit, n: nat)
    requires DistinctNumbers(file) && n <= |file.lines|
    ensures EditorCount(file, edit, n) <= 1
    ensures EditorCount(file, edit, n) == 1 ==> exists i :: 0 <= i < n && EditorMatches(file.lines[i], edit)
  {
    if n > 0 {
      EditorOnce(file, edit, n - 1);
      if EditorCount(file, edit, n - 1) == 1 && EditorMatches(file.lines[n - 1], edit) {
        var i :| 0 <= i < n - 1 && EditorMatches(file.lines[i], edit);
        SameAnchorSameLine(file, i, n - 1);
      }
    }
  }

  predicate DistinctIds(notes: seq<DiffNote>) {
    forall i, j | 0 <= i < j < |notes| :: notes[i].id != notes[j].id
  }

  /** In particular: with distinct line numbers and note ids, every line, every note of the file and
      the editor of the file occur exactly once, and nothing else occurs. */
  lemma PlanIsComplete(file: FileDiff, notes: seq<DiffNote>, editing: Option<NoteEdit>, row: ReviewRow)
    requires DistinctIds(notes) && DistinctNumbers(file) && (row.Note? ==> row.note < |notes|)
    ensures Times(Plan(file, notes, editing), row) == if Belongs(file, notes, editing, row) then 1 else 0
  {
    hide Plan, Times;
    PlanTimes(file, notes, editing, row);
    match row
    case Diff(_) =>
    case Note(k) => MatchesOnce(file, notes[k], |file.lines|);
    case Editor => if editing.Some? { EditorOnce(file, editing.value, |file.lines|); }
  }

  /** The line numbers of the diff rows, in the order of the plan. */
  function DiffRows(rows: seq<ReviewRow>): seq<nat> {
    if rows == [] then []
    else DiffRows(rows[..|rows| - 1]) + if rows[|rows| - 1].Diff? then [rows[|rows| - 1].line] else []
  }

  lemma {:induction false} DiffRowsJoin(a: seq<ReviewRow>, b: seq<ReviewRow>)
    ensures DiffRows(a + b) == DiffRows(a) + DiffRows(b)
  {
    if b == [] {
      assert a + b == a;
    } else {
      DiffRowsJoin(a, b[..|b| - 1]);
      assert (a + b)[..|a + b| - 1] == a + b[..|b| - 1];
    }
  }

  lemma {:induction false} NoDiffRows(rows: seq<ReviewRow>)
    requires forall d :: Times(rows, Diff(d)) == 0
    ensures DiffRows(rows) == []
  {
    if rows != [] {
      var last := rows[|rows| - 1];
      assert rows == rows[..|rows| - 1] + [last];
      assert last in multiset(rows);
      forall d
        ensures Times(rows[..|rows| - 1], Diff(d)) == 0
      {
        TimesJoin(rows[..|rows| - 1], [last], Diff(d));
      }
      NoDiffRows(rows[..|rows| - 1]);
    }
  }

  lemma OneDiffRow(n: nat)
    ensures DiffRows([Diff(n)]) == [n]
  {}

  lemma NoDiffInTail()
    ensures DiffRows([Editor]) == [] && DiffRows([]) == []
  {}

  lemma LineInOrder(file: FileDiff, notes: seq<DiffNote>, candidates: seq<nat>, edit: Option<NoteEdit>, n: nat)
    requires n < |file.lines| && InRange(notes, candidates)
    ensures DiffRows(RowsOfLine(file, notes, candidates, edit, n)) == [n]
  {
    hide NotesBelow, Matches, EditorMatches, DiffRows, Times;
    var below := NotesBelow(file, notes, file.lines[n], candidates);
    var tail := if edit.Some? && EditorMatches(file.lines[n], edit.value) then [Editor] else [];
    NothingElseBelow(file, notes, file.lines[n], candidates);
    NoDiffRows(below);
    NoDiffInTail();
    DiffRowsJoin([Diff(n)] + below, tail);
    DiffRowsJoin([Diff(n)], below);
    OneDiffRow(n);
  }

  lemma {:induction false} LinesInOrder(file: FileDiff, notes: seq<DiffNote>, candidates: seq<nat>,
          edit: Option<NoteEdit>, n: nat)
    requires n <= |file.lines| && InRange(notes, candidates)
    ensures DiffRows(RowsOfLines(file, notes, candidates, edit, n)) == seq(n, i => i)
  {
    hide RowsOfLine;
    if n > 0 {
      LinesInOrder(file, notes, candidates, edit, n - 1);
      LineInOrder(file, notes, candidates, edit, n - 1);
      DiffRowsJoin(RowsOfLines(file, notes, candidates, edit, n - 1), RowsOfLine(file, notes, candidates, edit, n - 1));
    }
  }

  /** The plan shows the lines of the diff in their order. */
  lemma PlanKeepsOrder(file: FileDiff, notes: seq<DiffNote>, editing: Option<NoteEdit>)
    ensures DiffRows(Plan(file, notes, editing)) == seq(|file.lines|, i => i)
  {
    hide RowsOfLines, Leftover, DiffRows;
    FileNotesInRange(file, notes, |notes|);
    var candidates, edit := FileNotes(file, notes, |notes|), EditHere(file, editing);
    var anchored := RowsOfLines(file, notes, candidates, edit, |file.lines|);
    var leftover := Leftover(notes, candidates, ShownIds(notes, anchored));
    var tail := if edit.Some? && Editor !in anchored then [Editor] else [];
    LinesInOrder(file, notes, candidates, edit, |file.lines|);
    NothingElseLeft(notes, candidates, ShownIds(notes, anchored));
    NoDiffRows(leftover);
    NoDiffRows(tail);
    DiffRowsJoin(anchored + leftover, tail);
    DiffRowsJoin(anchored, leftover);
  }

  // ---------------------------------------------------------------------------------------------
  // Where each row stands

  /** The line has this number on this side: its new number, or else its old one, cut to 32 bits. */
  predicate Numbered(line: DiffLine, n: nat, oldSide: bool) {
    if oldSide then line.newLn.None? && line.oldLn.Some? && n == line.oldLn.value % 0x1_0000_0000
    else line.newLn.Some? && n == line.newLn.value % 0x1_0000_0000
  }

  /** A row may stand in the block of a line: the line itself, a note of the file on that line that is not from
      another version of the diff, or the editor opened on it. */
  predicate FitsLine(file: FileDiff, notes: seq<DiffNote>, editing: Option<NoteEdit>, n: nat, row: ReviewRow)
    requires n < |file.lines|
  {
    match row
    case Diff(d) => d == n
    case Note(k) =>
      && k < |notes| && notes[k].filePath == file.path && Numbered(file.lines[n], notes[k].line, notes[k].oldSide)
      && (notes[k].reviewIdentity == None || notes[k].reviewIdentity == Some(file.reviewIdentity))
    case Editor =>
      && editing.Some? && editing.value.filePath == file.path
      && Numbered(file.lines[n], editing.value.line, editing.value.oldSide)
  }

  /** The line whose block a position belongs to: the nearest one above it. */
  function LineAt(rows: seq<ReviewRow>, i: nat): Option<nat>
    requires i < |rows|
  {
    if rows[i].Diff? then Some(rows[i].line) else if i == 0 then None else LineAt(rows, i - 1)
  }

  /** Within a block: the line, then its notes in the order of the notes, then the editor. */
  predicate RankedBefore(a: ReviewRow, b: ReviewRow) {
    match b
    case Diff(_) => false
    case Note(k) => a.Diff? || (a.Note? && a.note < k)
    case Editor => !a.Editor?
  }

  /** Block by block, in the order of the lines. */
  predicate InBlocks(file: FileDiff, notes: seq<DiffNote>, editing: Option<NoteEdit>, rows: seq<ReviewRow>, n: nat) {
    && (forall i: nat | i < |rows| ::
          && LineAt(rows, i).Some? && LineAt(rows, i).value < n && LineAt(rows, i).value < |file.lines|
          && FitsLine(file, notes, editing, LineAt(rows, i).value, rows[i]))
    && (forall i: nat, j: nat | i < j < |rows| && LineAt(rows, i).Some? && LineAt(rows, j).Some? ::
          || LineAt(rows, i).value < LineAt(rows, j).value
          || (LineAt(rows, i) == LineAt(rows, j) && RankedBefore(rows[i], rows[j])))
  }

  /** The end of the plan: notes of the file whose id is not taken, in their order, then the editor. */
  predicate InTail(file: FileDiff, notes: seq<DiffNote>, editing: Option<NoteEdit>, rows: seq<ReviewRow>) {
    && (forall i: nat | i < |rows| ::
          match rows[i]
          case Diff(_) => false
          case Note(k) => k < |notes| && notes[k].filePath == file.path && !Taken(file, notes, k)
          case Editor => editing.Some? && editing.value.filePath == file.path)
    && (forall i: nat, j: nat | i < j < |rows| :: RankedBefore(rows[i], rows[j]))
  }

  lemma MatchesFits(file: FileDiff, notes: seq<DiffNote>, editing: Option<NoteEdit>, n: nat, k: nat)
    requires n < |file.lines| && k < |notes| && notes[k].filePath == file.path
    ensures Matches(file, file.lines[n], notes[k]) <==> FitsLine(file, notes, editing, n, Note(k))
  {}

  lemma EditorFits(file: FileDiff, notes: seq<DiffNote>, editing: Option<NoteEdit>, n: nat)
    requires n < |file.lines|
    ensures (EditHere(file, editing).Some? && EditorMatches(file.lines[n], editing.value))
            <==> FitsLine(file, notes, editing, n, Editor)
  {}

  predicate Increasing(s: seq<nat>) {
    forall i, j | 0 <= i < j < |s| :: s[i] < s[j]
  }

  lemma {:induction false} FileNotesIncrease(file: FileDiff, notes: seq<DiffNote>, n: nat)
    requires n <= |notes|
    ensures var candidates := FileNotes(file, notes, n);
            && Increasing(candidates)
            && forall i | 0 <= i < |candidates| :: candidates[i] < n && notes[candidates[i]].filePath == file.path
  {
    if n > 0 { FileNotesIncrease(file, notes, n - 1); }
  }

  /** Notes of the file, all on the line, in increasing order below a bound. */
  predicate Below(file: FileDiff, notes: seq<DiffNote>, n: nat, rows: seq<ReviewRow>)
    requires n < |file.lines|
  {
    && (forall i: nat | i < |rows| :: rows[i].Note? && FitsLine(file, notes, None, n, rows[i]))
    && (forall i: nat, j: nat | i < j < |rows| :: RankedBefore(rows[i], rows[j]))
  }

  lemma {:induction false} NotesBelowFit(file: FileDiff, notes: seq<DiffNote>, candidates: seq<nat>, n: nat)
    requires n < |file.lines| && InRange(notes, candidates) && Increasing(candidates)
    requires forall i | 0 <= i < |candidates| :: notes[candidates[i]].filePath == file.path
    ensures var rows := NotesBelow(file, notes, file.lines[n], candidates);
            && Below(file, notes, n, rows)
            && forall i: nat | i < |rows| :: rows[i].note in candidates
  {
    hide Matches, FitsLine;
    if candidates != [] {
      var last := candidates[|candidates| - 1];
      var before := candidates[..|candidates| - 1];
      NotesBelowFit(file, notes, before, n);
      MatchesFits(file, notes, None, n, last);
      assert forall c | c in before :: c < last;
    }
  }

  /** One more block. */
  lemma BlockJoins(file: FileDiff, notes: seq<DiffNote>, editing: Option<NoteEdit>, above: seq<ReviewRow>,
                   below: seq<ReviewRow>, tail: seq<ReviewRow>, n: nat)
    requires n < |file.lines| && InBlocks(file, notes, editing, above, n) && Below(file, notes, n, below)
    requires tail == if FitsLine(file, notes, editing, n, Editor) then [Editor] else []
    ensures InBlocks(file, notes, editing, above + ([Diff(n)] + below + tail), n + 1)
  {
    hide FitsLine;
    var block := [Diff(n)] + below + tail;
    var rows := above + block;
    forall i: nat | i < |rows|
      ensures LineAt(rows, i) == if i < |above| then LineAt(above, i) else Some(n)
    {
      LineOfJoined(above, block, n, i);
    }
    forall i: nat | i < |block|
      ensures FitsLine(file, notes, editing, n, block[i])
    {
      OwnLineFits(file, notes, editing, n);
      if 0 < i <= |below| { SameForNotes(file, notes, editing, n, block[i]); }
    }
    forall i: nat, j: nat | i < j < |block|
      ensures RankedBefore(block[i], block[j])
    {}
  }

  lemma OwnLineFits(file: FileDiff, notes: seq<DiffNote>, editing: Option<NoteEdit>, n: nat)
    requires n < |file.lines|
    ensures FitsLine(file, notes, editing, n, Diff(n))
  {}

  lemma SameForNotes(file: FileDiff, notes: seq<DiffNote>, editing: Option<NoteEdit>, n: nat, row: ReviewRow)
    requires n < |file.lines| && row.Note? && FitsLine(file, notes, None, n, row)
    ensures FitsLine(file, notes, editing, n, row)
  {}

  lemma {:induction false} LineOfJoined(above: seq<ReviewRow>, block: seq<ReviewRow>, n: nat, i: nat)
    requires i < |above + block| && block != [] && block[0] == Diff(n)
    requires forall k | 0 < k < |block| :: !block[k].Diff?
    ensures LineAt(above + block, i) == if i < |above| then LineAt(above, i) else Some(n)
    decreases i
  {
    var rows := above + block;
    if i < |above| {
      assert rows[i] == above[i];
      if !rows[i].Diff? && i > 0 { LineOfJoined(above, block, n, i - 1); }
    } else {
      assert rows[i] == block[i - |above|];
      if i > |above| { LineOfJoined(above, block, n, i - 1); }
    }
  }

  lemma {:induction false} LinesInBlocks(file: FileDiff, notes: seq<DiffNote>, editing: Option<NoteEdit>, n: nat)
    requires n <= |file.lines| && InRange(notes, FileNotes(file, notes, |notes|))
    ensures InBlocks(file, notes, editing,
                     RowsOfLines(file, notes, FileNotes(file, notes, |notes|), EditHere(file, editing), n), n)
  {
    hide FileNotes, NotesBelow, InBlocks, Below, FitsLine, EditorMatches, EditHere;
    var candidates, edit := FileNotes(file, notes, |notes|), EditHere(file, editing);
    if n > 0 {
      LinesInBlocks(file, notes, editing, n - 1);
      FileNotesIncrease(file, notes, |notes|);
      NotesBelowFit(file, notes, candidates, n - 1);
      EditorFits(file, notes, editing, n - 1);
      SameEdit(file, editing);
      var below := NotesBelow(file, notes, file.lines[n - 1], candidates);
      var tail := if edit.Some? && EditorMatches(file.lines[n - 1], edit.value) then [Editor] else [];
      BlockJoins(file, notes, editing, RowsOfLines(file, notes, candidates, edit, n - 1), below, tail, n - 1);
    } else {
      NoBlocks(file, notes, editing);
    }
  }

  lemma NoBlocks(file: FileDiff, notes: seq<DiffNote>, editing: Option<NoteEdit>)
    ensures InBlocks(file, notes, editing, [], 0)
  {}

  lemma SameEdit(file: FileDiff, editing: Option<NoteEdit>)
    ensures EditHere(file, editing).Some? ==> EditHere(file, editing) == editing
  {}

  lemma {:induction false} LeftoverInTail(file: FileDiff, notes: seq<DiffNote>, candidates: seq<nat>, shown: set<nat>)
    requires InRange(notes, candidates) && Increasing(candidates)
    requires forall i | 0 <= i < |candidates| :: notes[candidates[i]].filePath == file.path
    requires forall k: nat | k < |notes| :: notes[k].id in shown <==> Taken(file, notes, k)
    ensures var rows := Leftover(notes, candidates, shown);
            && InTail(file, notes, None, rows) && forall i: nat | i < |rows| :: rows[i].Note? && rows[i].note in candidates
  {
    hide Taken, InTail;
    if candidates != [] {
      var last := candidates[|candidates| - 1];
      var before := candidates[..|candidates| - 1];
      LeftoverInTail(file, notes, before, shown);
      assert forall c | c in before :: c < last;
      var rows := Leftover(notes, before, shown);
      assert rows + [] == rows;
      if notes[last].id !in shown { TailGrows(file, notes, rows, last); }
    } else {
      NoTail(file, notes);
    }
  }

  lemma NoTail(file: FileDiff, notes: seq<DiffNote>)
    ensures InTail(file, notes, None, [])
  {}

  lemma TailGrows(file: FileDiff, notes: seq<DiffNote>, rows: seq<ReviewRow>, k: nat)
    requires InTail(file, notes, None, rows) && k < |notes| && notes[k].filePath == file.path && !Taken(file, notes, k)
    requires forall i: nat | i < |rows| :: rows[i].Note? && rows[i].note < k
    ensures InTail(file, notes, None, rows + [Note(k)])
  {
    hide Taken;
  }

  lemma TailWithEditor(file: FileDiff, notes: seq<DiffNote>, editing: Option<NoteEdit>, rows: seq<ReviewRow>, editor: bool)
    requires InTail(file, notes, None, rows) && (editor ==> editing.Some? && editing.value.filePath == file.path)
    requires forall i: nat | i < |rows| :: rows[i].Note?
    ensures InTail(file, notes, editing, rows + if editor then [Editor] else [])
  {
    hide Taken;
  }

  /** The plan is the blocks of the lines in their order, each line followed by its own notes in their order
      and the editor if it is opened there; then come the notes that no line takes, and the editor if none
      takes it. */
  lemma PlanIsInBlocks(file: FileDiff, notes: seq<DiffNote>, editing: Option<NoteEdit>)
    ensures exists blocks, tail ::
              && Plan(file, notes, editing) == blocks + tail
              && InBlocks(file, notes, editing, blocks, |file.lines|) && InTail(file, notes, editing, tail)
              && (Editor in tail ==> Editor !in blocks)
  {
    hide RowsOfLines, Leftover, FileNotes, ShownIds, Taken, InBlocks, InTail;
    FileNotesInRange(file, notes, |notes|);
    FileNotesIncrease(file, notes, |notes|);
    var candidates, edit := FileNotes(file, notes, |notes|), EditHere(file, editing);
    var blocks := RowsOfLines(file, notes, candidates, edit, |file.lines|);
    LinesInBlocks(file, notes, editing, |file.lines|);
    forall k: nat | k < |notes|
      ensures notes[k].id in ShownIds(notes, blocks) <==> Taken(file, notes, k)
    {
      ShownExactly(file, notes, edit, k);
    }
    var leftover := Leftover(notes, candidates, ShownIds(notes, blocks));
    LeftoverInTail(file, notes, candidates, ShownIds(notes, blocks));
    TailWithEditor(file, notes, editing, leftover, edit.Some? && Editor !in blocks);
    var tail := leftover + if edit.Some? && Editor !in blocks then [Editor] else [];
    assert Plan(file, notes, editing) == blocks + tail;
  }

  // ---------------------------------------------------------------------------------------------
  // Building the plan

  function Height(rows: seq<ReviewRow>): (h: real)
    ensures h >= 0.0
  {
    if rows == [] then 0.0 else Height(rows[..|rows| - 1]) + RowHeight(rows[|rows| - 1])
  }

  /** The offset of a row is the height of all rows above it. */
  predicate Stacked(rows: seq<ReviewRow>, offsets: seq<real>) {
    |offsets| == |rows| && forall k | 0 <= k < |rows| :: offsets[k] == Height(rows[..k])
  }

  method BuildReviewRows(file: FileDiff, notes: seq<DiffNote>, editing: Option<NoteEdit>)
    returns (rows: seq<ReviewRow>, offsets: seq<real>, total: real)
    ensures rows == Plan(file, notes, editing)
    ensures Stacked(rows, offsets) && total == Height(rows)
  {
    rows := PlanRows(file, notes, editing);
    offsets, total := [], 0.0;
    assert rows[..0] == [];
    for k := 0 to |rows|
      invariant |offsets| == k && total == Height(rows[..k])
      invariant forall i | 0 <= i < k :: offsets[i] == Height(rows[..i])
    {
      assert rows[..k + 1][..k] == rows[..k];
      offsets := offsets + [total];
      total := total + RowHeight(rows[k]);
    }
    assert rows[..|rows|] == rows;
  }

  method PlanRows(file: FileDiff, notes: seq<DiffNote>, editing: Option<NoteEdit>) returns (rows: seq<ReviewRow>)
    ensures rows == Plan(file, notes, editing)
  {
    hide Matches, EditorMatches, NotesBelow, ShownIds, Times;
    FileNotesInRange(file, notes, |notes|);
    var fileNotes, edit := FileNotes(file, notes, |notes|), EditHere(file, editing);
    var anchoredIds: set<nat>, editorAnchored := {}, false;
    rows := [];
    IdsOfNothing(notes);
    for index := 0 to |file.lines|
      invariant rows == RowsOfLines(file, notes, fileNotes, edit, index)
      invariant anchoredIds == ShownIds(notes, rows) && (editorAnchored <==> Editor in rows)
    {
      ghost var above := rows;
      var line := file.lines[index];
      rows := rows + [Diff(index)];
      IdsJoin(notes, above, [Diff(index)]);
      var below, ids := NoteRows(file, notes, line, fileNotes);
      IdsJoin(notes, rows, below);
      NothingElseBelow(file, notes, line, fileNotes);
      NoEditorIn(below);
      rows := rows + below;
      anchoredIds := anchoredIds + ids;
      if edit.Some? && EditorMatches(line, edit.value) {
        IdsJoin(notes, rows, [Editor]);
        rows := rows + [Editor];
        editorAnchored := true;
      }
      assert rows == above + RowsOfLine(file, notes, fileNotes, edit, index);
    }
    var leftover := LeftoverRows(notes, fileNotes, anchoredIds);
    rows := rows + leftover;
    if edit.Some? && !editorAnchored { rows := rows + [Editor]; }
  }

  lemma IdsOfNothing(notes: seq<DiffNote>)
    ensures ShownIds(notes, []) == {}
  {}

  lemma IdsJoin(notes: seq<DiffNote>, a: seq<ReviewRow>, b: seq<ReviewRow>)
    ensures ShownIds(notes, a + b) == ShownIds(notes, a) + ShownIds(notes, b)
    ensures (forall row | row in b :: !row.Note?) ==> ShownIds(notes, b) == {}
  {}

  lemma NoEditorIn(rows: seq<ReviewRow>)
    requires Times(rows, Editor) == 0
    ensures Editor !in rows
  {}

  /** The notes of one line, in the order of the file's notes, and their ids. */
  method NoteRows(file: FileDiff, notes: seq<DiffNote>, line: DiffLine, fileNotes: seq<nat>)
    returns (rows: seq<ReviewRow>, ids: set<nat>)
    requires InRange(notes, fileNotes)
    ensures rows == NotesBelow(file, notes, line, fileNotes) && ids == ShownIds(notes, rows)
  {
    hide Matches, ShownIds;
    rows, ids := [], {};
    IdsOfNothing(notes);
    for k := 0 to |fileNotes|
      invariant rows == NotesBelow(file, notes, line, fileNotes[..k]) && ids == ShownIds(notes, rows)
    {
      var note := fileNotes[k];
      assert fileNotes[..k + 1][..k] == fileNotes[..k];
      if Matches(file, line, notes[note]) {
        IdsJoin(notes, rows, [Note(note)]);
        IdOfOne(notes, note);
        rows := rows + [Note(note)];
        ids := ids + {notes[note].id};
      }
    }
    assert fileNotes[..|fileNotes|] == fileNotes;
  }

  lemma IdOfOne(notes: seq<DiffNote>, k: nat)
    requires k < |notes|
    ensures ShownIds(notes, [Note(k)]) == {notes[k].id}
  {}

  method LeftoverRows(notes: seq<DiffNote>, fileNotes: seq<nat>, anchoredIds: set<nat>) returns (rows: seq<ReviewRow>)
    requires InRange(notes, fileNotes)
    ensures rows == Leftover(notes, fileNotes, anchoredIds)
  {
    rows := [];
    for k := 0 to |fileNotes|
      invariant rows == Leftover(notes, fileNotes[..k], anchoredIds)
    {
      assert fileNotes[..k + 1][..k] == fileNotes[..k];
      if notes[fileNotes[k]].id !in anchoredIds { rows := rows + [Note(fileNotes[k])]; }
    }
    assert fileNotes[..|fileNotes|] == fileNotes;
  }

  // ---------------------------------------------------------------------------------------------
  // The drawn window

  lemma NextOffset(rows: seq<ReviewRow>, offsets: seq<real>, total: real, k: nat)
    requires Stacked(rows, offsets) && total == Height(rows) && k < |rows|
    ensures offsets[k] + RowHeight(rows[k]) == (if k + 1 < |rows| then offsets[k + 1] else total)
    ensures offsets[0] == 0.0
  {
    assert rows[..k + 1][..k] == rows[..k] && rows[..|rows|] == rows && rows[..0] == [];
  }

  lemma {:induction false} OffsetsIncrease(rows: seq<ReviewRow>, offsets: seq<real>, total: real, i: nat, j: nat)
    requires Stacked(rows, offsets) && total == Height(rows) && i < j < |rows|
    ensures offsets[i] < offsets[i] + RowHeight(rows[i]) <= offsets[j]
    decreases j
  {
    hide Stacked;
    StackedLength(rows, offsets);
    NextOffset(rows, offsets, total, j - 1);
    if i + 1 < j { OffsetsIncrease(rows, offsets, total, i, j - 1); }
  }

  lemma StackedLength(rows: seq<ReviewRow>, offsets: seq<real>)
    requires Stacked(rows, offsets)
    ensures |offsets| == |rows|
  {}

  /** How many offsets come no later than the top; they form a prefix. */
  function PartitionPoint(offsets: seq<real>, top: real, from: nat): (n: nat)
    requires from <= |offsets|
    ensures from <= n <= |offsets|
    ensures forall i | from <= i < n :: offsets[i] <= top
    ensures n < |offsets| ==> offsets[n] > top
    decreases |offsets| - from
  {
    if from < |offsets| && offsets[from] <= top then PartitionPoint(offsets, top, from + 1) else from
  }

  function Before(n: nat): nat {
    if n == 0 then 0 else n - 1
  }

  function Least(a: nat, b: nat): nat {
    if a <= b then a else b
  }

  predicate Visible(rows: seq<ReviewRow>, offsets: seq<real>, k: nat, top: real, bottom: real)
    requires |offsets| == |rows| && k < |rows|
  {
    offsets[k] < bottom && offsets[k] + RowHeight(rows[k]) > top
  }

  /** The rows drawn for a viewport: exactly the visible ones, precisely when the viewport starts above
      the end of the content or nothing could be drawn anyway. */
  method DrawnRows(rows: seq<ReviewRow>, offsets: seq<real>, total: real, top: real, bottom: real)
    returns (start: nat, end: nat)
    requires Stacked(rows, offsets) && total == Height(rows)
    ensures start <= end <= |rows|
    ensures (forall k: nat | k < |rows| :: start <= k < end <==> Visible(rows, offsets, k, top, bottom))
            <==> (top < total || rows == [] || bottom <= offsets[|rows| - 1])
    ensures forall k: nat | k < |rows| && Visible(rows, offsets, k, top, bottom) :: start <= k < end
  {
    var point := PartitionPoint(offsets, top, 0);
    start := Least(Before(point), Before(|rows|));
    end := start;
    while end < |rows| && offsets[end] < bottom
      invariant start <= end <= |rows|
      invariant forall k | start <= k < end :: offsets[k] < bottom
    {
      end := end + 1;
    }
    WindowIsExact(rows, offsets, total, top, bottom, start, end);
  }

  /** A viewport at the end of the content: the last row is drawn although it is not visible. */
  lemma EndOfContentDrawsLastRow()
    ensures var rows, offsets, total := [Diff(0)], [0.0], LINE_HEIGHT;
            && Stacked(rows, offsets) && total == Height(rows)
            && Window(offsets, total, total + 100.0, 0, 1)
            && !Visible(rows, offsets, 0, total, total + 100.0)
  {
    assert [Diff(0)][..0] == [];
  }

  predicate Window(offsets: seq<real>, top: real, bottom: real, start: nat, end: nat) {
    && start <= end <= |offsets|
    && start == Before(PartitionPoint(offsets, top, 0))
    && (forall k | start <= k < end :: offsets[k] < bottom)
    && (end < |offsets| ==> offsets[end] >= bottom)
  }

  lemma VisibleIsDrawn(rows: seq<ReviewRow>, offsets: seq<real>, total: real, top: real, bottom: real,
          start: nat, end: nat, k: nat)
    requires Stacked(rows, offsets) && total == Height(rows) && Window(offsets, top, bottom, start, end) && k < |rows|
    ensures Visible(rows, offsets, k, top, bottom) ==> start <= k < end
  {
    hide Stacked;
    StackedLength(rows, offsets);
    if k < start { OffsetsIncrease(rows, offsets, total, k, start); }
    if end < k { OffsetsIncrease(rows, offsets, total, end, k); }
  }

  lemma DrawnIsVisible(rows: seq<ReviewRow>, offsets: seq<real>, total: real, top: real, bottom: real,
          start: nat, end: nat, k: nat)
    requires Stacked(rows, offsets) && total == Height(rows) && Window(offsets, top, bottom, start, end)
    requires start <= k < end
    ensures k < |rows| && (Visible(rows, offsets, k, top, bottom) <==> k + 1 < |rows| || top < total)
  {
    hide Stacked;
    StackedLength(rows, offsets);
    NextOffset(rows, offsets, total, k);
    NextOffset(rows, offsets, total, start);
    if start < k { OffsetsIncrease(rows, offsets, total, start, k); }
    if k + 1 < |rows| { OffsetsIncrease(rows, offsets, total, k, k + 1); }
  }

  lemma WindowIsExact(rows: seq<ReviewRow>, offsets: seq<real>, total: real, top: real, bottom: real,
          start: nat, end: nat)
    requires Stacked(rows, offsets) && total == Height(rows) && Window(offsets, top, bottom, start, end)
    ensures (forall k: nat | k < |rows| :: start <= k < end <==> Visible(rows, offsets, k, top, bottom))
            <==> (top < total || rows == [] || bottom <= offsets[|rows| - 1])
    ensures forall k: nat | k < |rows| && Visible(rows, offsets, k, top, bottom) :: start <= k < end
  {
    hide Stacked, Visible;
    StackedLength(rows, offsets);
    forall k: nat | k < |rows|
      ensures Visible(rows, offsets, k, top, bottom) ==> start <= k < end
      ensures start <= k < end ==> (Visible(rows, offsets, k, top, bottom) <==> k + 1 < |rows| || top < total)
    {
      VisibleIsDrawn(rows, offsets, total, top, bottom, start, end, k);
      if start <= k < end { DrawnIsVisible(rows, offsets, total, top, bottom, start, end, k); }
    }
    if rows != [] && total <= top && offsets[|rows| - 1] < bottom {
      LastIsDrawn(rows, offsets, total, top, bottom, start, end);
      assert !Visible(rows, offsets, |rows| - 1, top, bottom);
    }
  }

  lemma LastIsDrawn(rows: seq<ReviewRow>, offsets: seq<real>, total: real, top: real, bottom: real, start: nat,
          end: nat)
    requires Stacked(rows, offsets) && total == Height(rows) && Window(offsets, top, bottom, start, end)
    requires rows != [] && total <= top && offsets[|rows| - 1] < bottom
    ensures start <= |rows| - 1 < end
  {
    hide Stacked;
    StackedLength(rows, offsets);
    if end < |rows| - 1 { OffsetsIncrease(rows, offsets, total, end, |rows| - 1); }
  }
}
