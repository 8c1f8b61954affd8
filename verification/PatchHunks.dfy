/**
  Hunk arithmetic: in every returned hunk, on success and after an error alike, line
  numbers run consecutively from the header's starts for exactly the header's counts,
  and the additions and deletions computed by subtraction are the real ones.
 */
module PatchHunks {
  import opened Events
  import opened PatchReview

  function CountOf(rows: seq<ReviewLine>, kind: RowKind): nat {
    if rows == [] then 0
    else CountOf(rows[..|rows| - 1], kind) + (if rows[|rows| - 1].kind == kind then 1 else 0)
  }

  /** Rows present in the old file, and in the new file. */
  function OldRows(rows: seq<ReviewLine>): nat { CountOf(rows, Context) + CountOf(rows, Deletion) }
  function NewRows(rows: seq<ReviewLine>): nat { CountOf(rows, Context) + CountOf(rows, Addition) }

  /** The last line of the new side, or 1. */
  function LastNewLine(c: Coordinates): nat { Max(1, if c.newStart + c.newCount > 0 then c.newStart + c.newCount - 1 else 0) }

  /** What a row must say when it is the one at old line `o` and new line `n`. */
  predicate RowFits(row: ReviewLine, o: nat, n: nat, c: Coordinates, deleted: bool) {
    && (row.kind.NoteRow? ==> row == NOTE)
    && (!row.kind.NoteRow? ==>
          && row.oldLine == (if row.kind.Addition? then None else Some(o))
          && row.newLine == (if row.kind.Deletion? then None else Some(n))
          && row.target.Some? && 1 <= row.target.value
          && (deleted ==> row.target.value == Max(1, o))
          && (!deleted ==> row.target.value <= LastNewLine(c))
          && (!deleted && row.kind.Deletion? ==> row.target.value == Max(1, Min(n, LastNewLine(c))))
          && (!deleted && !row.kind.Deletion? ==> row.target == row.newLine))
  }

  predicate Numbered(rows: seq<ReviewLine>, c: Coordinates, deleted: bool) {
    forall k :: 0 <= k < |rows| ==>
      RowFits(rows[k], c.oldStart + OldRows(rows[..k]), c.newStart + NewRows(rows[..k]), c, deleted)
  }

  predicate Whole(rows: seq<ReviewLine>, c: Coordinates) {
    OldRows(rows) == c.oldCount && NewRows(rows) == c.newCount
  }

  /** A complete hunk: its header's coordinates, its rows numbered by them, none missing. */
  predicate GoodHunk(h: ReviewHunk) {
    HunkHeader(h.header).Some?
    && (var c := HunkHeader(h.header).value;
        && c.oldStart + c.oldCount <= 9_007_199_254_740_991 && c.newStart + c.newCount <= 9_007_199_254_740_991
        && (c.oldCount > 0 ==> c.oldStart > 0) && (c.newCount > 0 ==> c.newStart > 0)
        && h.oldStart == c.oldStart && h.newStart == c.newStart
        && Whole(h.lines, c)
        && (Numbered(h.lines, c, false) || Numbered(h.lines, c, true)))
  }

  function Total(hunks: seq<ReviewHunk>, kind: RowKind): nat {
    if hunks == [] then 0
    else Total(hunks[..|hunks| - 1], kind) + CountOf(hunks[|hunks| - 1].lines, kind)
  }

  predicate NumberedFor(h: ReviewHunk, deleted: bool) {
    HunkHeader(h.header).Some? && Numbered(h.lines, HunkHeader(h.header).value, deleted)
  }

  /** Complete hunks and real totals. */
  predicate GoodFile(f: ReviewFile) {
    && (forall k :: 0 <= k < |f.hunks| ==> GoodHunk(f.hunks[k]))
    && f.additions == Total(f.hunks, Addition)
    && f.deletions == Total(f.hunks, Deletion)
  }

  predicate GoodFiles(files: seq<ReviewFile>) {
    forall k :: 0 <= k < |files| ==> GoodFile(files[k])
  }

  lemma CountAppend(rows: seq<ReviewLine>, row: ReviewLine, kind: RowKind)
    ensures CountOf(rows + [row], kind) == CountOf(rows, kind) + (if row.kind == kind then 1 else 0)
  {
    assert (rows + [row])[..|rows|] == rows;
  }

  lemma NumberedAppend(rows: seq<ReviewLine>, row: ReviewLine, c: Coordinates, deleted: bool)
    requires Numbered(rows, c, deleted)
    requires RowFits(row, c.oldStart + OldRows(rows), c.newStart + NewRows(rows), c, deleted)
    ensures Numbered(rows + [row], c, deleted)
  {
    hide OldRows, NewRows, RowFits;
    var all := rows + [row];
    forall k | 0 <= k < |all|
      ensures RowFits(all[k], c.oldStart + OldRows(all[..k]), c.newStart + NewRows(all[..k]), c, deleted)
    {
      if k < |rows| { assert all[..k] == rows[..k]; } else { assert all[..k] == rows; }
    }
  }

  lemma EntryFits(row: string, oldRead: nat, newRead: nat, c: Coordinates, deleted: bool)
    requires IsRow(row) && SafeCoordinates(c)
    requires row[0] != '-' ==> newRead < c.newCount
    ensures RowFits(Entry(row, c.oldStart + oldRead, c.newStart + newRead, c, deleted),
                    c.oldStart + oldRead, c.newStart + newRead, c, deleted)
  {
  }

  lemma AppendCounts(rows: seq<ReviewLine>, row: ReviewLine)
    ensures OldRows(rows + [row]) == OldRows(rows) + (if row.kind.Context? || row.kind.Deletion? then 1 else 0)
    ensures NewRows(rows + [row]) == NewRows(rows) + (if row.kind.Context? || row.kind.Addition? then 1 else 0)
  {
    CountAppend(rows, row, Context);
    CountAppend(rows, row, Addition);
    CountAppend(rows, row, Deletion);
  }

  /** Whatever the lines say, the rows read are numbered by the header and complete. */
  lemma {:induction false} RowsAreWhole(lines: seq<string>, i: nat, rows: seq<ReviewLine>, counted: nat,
                                        c: Coordinates, deleted: bool)
    requires i <= |lines| && SafeCoordinates(c) && Numbered(rows, c, deleted)
    requires OldRows(rows) <= c.oldCount && NewRows(rows) <= c.newCount
    ensures var r := RowsFrom(lines, i, rows, OldRows(rows), NewRows(rows), counted, c, deleted);
            r.Ok? ==> Numbered(r.value.rows, c, deleted) && Whole(r.value.rows, c)
    decreases |lines| - i
  {
    hide Numbered, OldRows, NewRows, Entry;
    AppendCounts(rows, NOTE);
    NumberedAppend(rows, NOTE, c, deleted);
    if !(OldRows(rows) >= c.oldCount && NewRows(rows) >= c.newCount) && i < |lines| {
      if lines[i] == NO_NEWLINE && rows != [] {
        RowsAreWhole(lines, i + 1, rows + [NOTE], counted, c, deleted);
      } else if IsRow(lines[i]) {
        RowContinues(lines, i, rows, counted, c, deleted);
      }
    }
  }

  lemma {:induction false} RowContinues(lines: seq<string>, i: nat, rows: seq<ReviewLine>, counted: nat,
                                        c: Coordinates, deleted: bool)
    requires i < |lines| && SafeCoordinates(c) && Numbered(rows, c, deleted) && IsRow(lines[i])
    requires OldRows(rows) <= c.oldCount && NewRows(rows) <= c.newCount
    ensures var o := if lines[i][0] != '+' then OldRows(rows) + 1 else OldRows(rows);
            var n := if lines[i][0] != '-' then NewRows(rows) + 1 else NewRows(rows);
            var row := Entry(lines[i], c.oldStart + OldRows(rows), c.newStart + NewRows(rows), c, deleted);
            o <= c.oldCount && n <= c.newCount ==>
              var r := RowsFrom(lines, i + 1, rows + [row], o, n, counted + 1, c, deleted);
              r.Ok? ==> Numbered(r.value.rows, c, deleted) && Whole(r.value.rows, c)
    decreases |lines| - i, 0
  {
    hide Numbered, OldRows, NewRows, RowsFrom, RowFits;
    var o := if lines[i][0] != '+' then OldRows(rows) + 1 else OldRows(rows);
    var n := if lines[i][0] != '-' then NewRows(rows) + 1 else NewRows(rows);
    var row := Entry(lines[i], c.oldStart + OldRows(rows), c.newStart + NewRows(rows), c, deleted);
    if o <= c.oldCount && n <= c.newCount {
      EntryFits(lines[i], OldRows(rows), NewRows(rows), c, deleted);
      NumberedAppend(rows, row, c, deleted);
      AppendCounts(rows, row);
      RowsAreWhole(lines, i + 1, rows + [row], counted + 1, c, deleted);
    }
  }

  lemma {:induction false} ContextsAreCounted(rows: seq<ReviewLine>)
    ensures Contexts(rows) == CountOf(rows, Context)
  {
    if rows != [] {
      ContextsAreCounted(rows[..|rows| - 1]);
    }
  }

  lemma HunkIsGood(header: string, c: Coordinates, rows: seq<ReviewLine>, deleted: bool)
    requires HunkHeader(header) == Some(c) && SafeCoordinates(c)
    requires Numbered(rows, c, deleted) && Whole(rows, c)
    ensures var h := ReviewHunk(header, c.oldStart, c.newStart, rows); GoodHunk(h) && NumberedFor(h, deleted)
  {
    hide Numbered, Whole, HunkHeader;
    if deleted { assert Numbered(rows, c, true); } else { assert Numbered(rows, c, false); }
  }

  lemma AddHunkGood(file: ReviewFile, header: string, c: Coordinates, rows: seq<ReviewLine>, deleted: bool)
    requires GoodFile(file) && HunkHeader(header) == Some(c) && SafeCoordinates(c)
    requires Numbered(rows, c, deleted) && Whole(rows, c)
    ensures GoodFile(AddHunk(file, header, c, rows))
  {
    hide Numbered, HunkHeader, SafeCoordinates, GoodHunk, NumberedFor, CountOf, Contexts;
    ContextsAreCounted(rows);
    HunkIsGood(header, c, rows, deleted);
    var h := ReviewHunk(header, c.oldStart, c.newStart, rows);
    assert (file.hunks + [h])[..|file.hunks|] == file.hunks;
  }

  predicate GoodParser(p: Parser) {
    GoodFiles(p.files) && (p.file.Some? ==> GoodFile(p.file.value))
  }

  lemma EmptyIsGood(f: ReviewFile)
    requires f.hunks == [] && f.additions == 0 && f.deletions == 0
    ensures GoodFile(f)
  {
  }

  lemma FinishedGood(p: Parser)
    requires GoodParser(p)
    ensures GoodParser(Finished(p))
  {
  }

  lemma HunkStepGood(p: Parser, lines: seq<string>, i: nat, line: string)
    requires i < |lines| && GoodParser(p)
    ensures var m := HunkStep(p, lines, i, line); GoodParser(m.parser)
  {
    hide GoodFile, HunkHeader, RowsFrom, Numbered, Whole;
    if p.file.Some? && p.headerSeen && HunkHeader(line).Some? && SafeCoordinates(HunkHeader(line).value) {
      var c, deleted := HunkHeader(line).value, p.file.value.newPath == DEV_NULL;
      NothingRead(c, deleted);
      RowsAreWhole(lines, i + 1, [], p.countedLines, c, deleted);
      var read := RowsFrom(lines, i + 1, [], 0, 0, p.countedLines, c, deleted);
      if read.Ok? { AddHunkGood(p.file.value, line, c, read.value.rows, deleted); }
    }
  }

  lemma NothingRead(c: Coordinates, deleted: bool)
    ensures Numbered([], c, deleted) && OldRows([]) == 0 && NewRows([]) == 0
  {
  }

  lemma MetadataStepGood(p: Parser, lines: seq<string>, i: nat, line: string, unquote: Unquote)
    requires i < |lines| && p.file.Some? && GoodParser(p)
    ensures GoodParser(MetadataStep(p, lines, i, line, unquote).parser)
  {
    hide PathFromHeader, GoodHunk, Total, SkipBinary;
  }

  lemma HeaderFileGood(line: string, next: string, unquote: Unquote, metadata: seq<string>)
    requires |line| >= 4 && |next| >= 4 && HeaderFile(line, next, unquote).Ok?
    ensures GoodFile(HeaderFile(line, next, unquote).value.(metadata := metadata))
  {
    EmptyIsGood(HeaderFile(line, next, unquote).value.(metadata := metadata));
  }

  lemma FileStepGood(p: Parser, lines: seq<string>, i: nat, line: string, unquote: Unquote)
    requires i < |lines| && |line| >= 4 && GoodParser(p)
    ensures GoodParser(FileStep(p, lines, i, line, unquote).parser)
  {
    hide GoodFile, HeaderFile, Finished;
    FinishedGood(p);
    if i + 1 < |lines| && "+++ " <= lines[i + 1] && HeaderFile(line, lines[i + 1], unquote).Ok? {
      var q := BeforeHeader(p);
      HeaderFileGood(line, lines[i + 1], unquote, if q.file.Some? then q.file.value.metadata else []);
    }
  }

  lemma GitStepGood(p: Parser, i: nat, line: string, unquote: Unquote)
    requires |line| >= 11 && GoodParser(p)
    ensures GoodParser(GitStep(p, i, line, unquote).parser)
  {
    hide GoodFile, GitPaths, CreateFile;
    FinishedGood(p);
    var paths := GitPaths(line, unquote);
    if paths.Ok? && CreateFile(paths.value.0, paths.value.1).Ok? {
      EmptyIsGood(CreateFile(paths.value.0, paths.value.1).value);
    }
  }

  lemma StepGood(p: Parser, lines: seq<string>, i: nat, unquote: Unquote)
    requires i < |lines| && GoodParser(p)
    ensures GoodParser(Step(p, lines, i, unquote).parser)
  {
    hide GoodParser, GitStep, FileStep, HunkStep, MetadataStep, IsMetadata;
    var line := StripReturn(lines[i]);
    if "diff --git " <= line { GitStepGood(p, i, line, unquote); }
    else if "--- " <= line { FileStepGood(p, lines, i, line, unquote); }
    else if "@@ " <= line { HunkStepGood(p, lines, i, line); }
    else if p.file.Some? && IsMetadata(line) { MetadataStepGood(p, lines, i, line, unquote); }
  }

  lemma {:induction false} ParseFromGood(p: Parser, lines: seq<string>, i: nat, unquote: Unquote)
    requires i <= |lines| && GoodParser(p)
    ensures GoodFiles(ParseFrom(p, lines, i, unquote).files)
    decreases |lines| - i
  {
    hide Step, GoodFile;
    if i < |lines| {
      StepGood(p, lines, i, unquote);
      StepAdvances(p, lines, i, unquote);
      var m := Step(p, lines, i, unquote);
      if m.Go? { ParseFromGood(m.parser, lines, m.next, unquote); }
    }
  }

  /** Every hunk of every returned file is complete and numbered, with or without a notice. */
  lemma EveryReturnedHunkIsWhole(source: string, unquote: Unquote, f: ReviewFile)
    requires f in Parse(source, unquote).files
    ensures GoodFile(f)
  {
    hide GoodFile;
    ParseFromGood(FRESH, SplitAt(source, '\n'), 0, unquote);
    if |source| > MAX_CHARACTERS { ParseFromGood(FRESH, SplitAt(source[..MAX_CHARACTERS], '\n'), 0, unquote); }
  }
}
