/**
  The reader as it runs: one loop over the lines that updates the file being read, the
  counters and the list of files, an inner loop driven by the header's counts, and
  errors that stop the loop wherever it is.
 */
module PatchReader {
  import opened Events
  import opened PatchReview

  /** A call ended at line `next`, or with an error, with the parser left as `p`. */
  predicate Mirrors(m: Move, next: nat, error: Option<Notice>, p: Parser) {
    if error.Some? then m.Fail? && m.notice == error.value && m.parser.files == p.files && m.parser.file == p.file
    else m == Go(next, p)
  }

  class Reader {
    var files: seq<ReviewFile>
    var file: Option<ReviewFile>
    var headerSeen: bool
    var countedLines: nat
    var countedHunks: nat

    constructor ()
      ensures State() == FRESH
    {
      files, file, headerSeen, countedLines, countedHunks := [], None, false, 0, 0;
    }

    ghost function State(): Parser
      reads this
    {
      Parser(files, file, headerSeen, countedLines, countedHunks)
    }

    method Finish() returns (error: Option<Notice>)
      modifies this
      ensures State() == Finished(old(State()))
      ensures error == if Full(old(State())) then Some(TooManyFiles) else None
    {
      if file.Some? && (headerSeen || file.value.metadata != [] || file.value.hunks != []) {
        files := files + [file.value];
      }
      file, headerSeen := None, false;
      error := if |files| >= MAX_FILES then Some(TooManyFiles) else None;
    }

    method ReadGitHeader(i: nat, line: string, unquote: Unquote) returns (next: nat, error: Option<Notice>)
      requires |line| >= 11
      modifies this
      ensures Mirrors(GitStep(old(State()), i, line, unquote), next, error, State())
    {
      hide GitPaths;
      next := i + 1;
      error := Finish();
      if error.None? {
        var paths := GitPaths(line, unquote);
        if paths.Err? { error := Some(paths.notice); return; }
        var created := CreateFile(paths.value.0, paths.value.1);
        if created.Err? { error := Some(created.notice); return; }
        file := Some(created.value);
      }
    }

    method ReadFileHeader(lines: seq<string>, i: nat, line: string, unquote: Unquote) returns (next: nat, error: Option<Notice>)
      requires i < |lines| && |line| >= 4
      modifies this
      ensures Mirrors(FileStep(old(State()), lines, i, line, unquote), next, error, State())
    {
      hide PathFromHeader;
      next, error := i + 2, None;
      if !(i + 1 < |lines| && "+++ " <= lines[i + 1]) { error := Some(IncompleteFileHeader); return; }
      if headerSeen || (file.Some? && file.value.hunks != []) {
        error := Finish();
        if error.Some? { return; }
      }
      var left := PathFromHeader(line[4..], true, unquote);
      if left.Err? { error := Some(left.notice); return; }
      var right := PathFromHeader(StripReturn(lines[i + 1][4..]), true, unquote);
      if right.Err? { error := Some(right.notice); return; }
      var created := CreateFile(left.value, right.value);
      if created.Err? { error := Some(created.notice); return; }
      file := Some(created.value.(metadata := if file.Some? then file.value.metadata else []));
      headerSeen := true;
    }

    /** The count-driven loop: rows of one hunk, from line `start`. */
    method ReadRows(lines: seq<string>, start: nat, c: Coordinates, deleted: bool)
      returns (rows: seq<ReviewLine>, next: nat, error: Option<Notice>)
      requires start <= |lines|
      modifies this`countedLines
      ensures RowsFrom(lines, start, [], 0, 0, old(countedLines), c, deleted)
              == if error.Some? then Err(error.value) else Ok(HunkRead(rows, next, countedLines))
    {
      rows, next, error := [], start, None;
      var oldLine, newLine, oldRead, newRead := c.oldStart, c.newStart, 0, 0;
      while oldRead < c.oldCount || newRead < c.newCount
        invariant start <= next <= |lines| && error.None?
        invariant oldLine == c.oldStart + oldRead && newLine == c.newStart + newRead
        invariant RowsFrom(lines, start, [], 0, 0, old(countedLines), c, deleted)
               == RowsFrom(lines, next, rows, oldRead, newRead, countedLines, c, deleted)
        decreases |lines| - next
      {
        if next >= |lines| { error := Some(EndsInHunk); return; }
        var row := lines[next];
        if row == NO_NEWLINE && rows != [] { rows, next := rows + [NOTE], next + 1; continue; }
        if !IsRow(row) { error := Some(BadRow); return; }
        var target := if deleted then oldLine
                      else if row[0] == '-' then Min(newLine, Max(1, if c.newStart + c.newCount > 0 then c.newStart + c.newCount - 1 else 0))
                      else newLine;
        var entry := ReviewLine(if row[0] == '+' then Addition else if row[0] == '-' then Deletion else Context,
                                row[1..], None, None, Some(Max(1, target)));
        if row[0] != '+' { entry := entry.(oldLine := Some(oldLine)); oldLine, oldRead := oldLine + 1, oldRead + 1; }
        if row[0] != '-' { entry := entry.(newLine := Some(newLine)); newLine, newRead := newLine + 1, newRead + 1; }
        if oldRead > c.oldCount || newRead > c.newCount { error := Some(CountMismatch); return; }
        countedLines := countedLines + 1;
        if countedLines > MAX_LINES { error := Some(TooManyLines); return; }
        rows, next := rows + [entry], next + 1;
      }
      if next < |lines| && lines[next] == NO_NEWLINE { rows, next := rows + [NOTE], next + 1; }
    }

    method ReadHunk(lines: seq<string>, i: nat, line: string) returns (next: nat, error: Option<Notice>)
      requires i < |lines|
      modifies this
      ensures Mirrors(HunkStep(old(State()), lines, i, line), next, error, State())
    {
      hide HunkHeader, RowsFrom, SafeCoordinates;
      next, error := i, None;
      if file.None? || !headerSeen { error := Some(HunkWithoutFile); return; }
      var header := HunkHeader(line);
      if header.None? { error := Some(BadHunkHeader); return; }
      var c := header.value;
      if !SafeCoordinates(c) { error := Some(BadCoordinates); return; }
      countedHunks := countedHunks + 1;
      if countedHunks > MAX_HUNKS { error := Some(TooManyHunks); return; }
      var rows;
      rows, next, error := ReadRows(lines, i + 1, c, file.value.newPath == DEV_NULL);
      if error.Some? { return; }
      file := Some(file.value.(hunks := file.value.hunks + [ReviewHunk(line, c.oldStart, c.newStart, rows)],
                               additions := file.value.additions + c.newCount - Contexts(rows),
                               deletions := file.value.deletions + c.oldCount - Contexts(rows)));
    }

    method ReadMetadata(lines: seq<string>, i: nat, line: string, unquote: Unquote) returns (next: nat, error: Option<Notice>)
      requires i < |lines| && file.Some?
      modifies this
      ensures Mirrors(MetadataStep(old(State()), lines, i, line, unquote), next, error, State())
    {
      hide PathFromHeader;
      next, error := i, None;
      var described := Described(file.value, line, unquote);
      if described.Err? { error := Some(described.notice); return; }
      file := Some(described.value.(metadata := described.value.metadata + [line]));
      next := next + 1;
      if line == "GIT binary patch" {
        while next < |lines| && !("diff --git " <= lines[next])
          invariant i < next <= |lines| && SkipBinary(lines, i + 1) == SkipBinary(lines, next)
        {
          next := next + 1;
        }
      }
    }

    method ReadLine(lines: seq<string>, i: nat, unquote: Unquote) returns (next: nat, error: Option<Notice>)
      requires i < |lines|
      modifies this
      ensures Mirrors(Step(old(State()), lines, i, unquote), next, error, State())
    {
      hide GitStep, FileStep, HunkStep, MetadataStep, IsMetadata, StripReturn;
      var line := StripReturn(lines[i]);
      if "diff --git " <= line { next, error := ReadGitHeader(i, line, unquote); }
      else if "--- " <= line { next, error := ReadFileHeader(lines, i, line, unquote); }
      else if "@@ " <= line { next, error := ReadHunk(lines, i, line); }
      else if file.Some? && IsMetadata(line) { next, error := ReadMetadata(lines, i, line, unquote); }
      else if line == "" || line == "\r" { next, error := i + 1, None; }
      else { next, error := i, Some(UnsupportedFormat); }
    }
  }

  /** The whole reader computes the parse. */
  method ParsePatchReview(source: string, unquote: Unquote) returns (review: Review)
    ensures review == Parse(source, unquote)
  {
    hide Step, SplitAt;
    var clipped := |source| > MAX_CHARACTERS;
    var lines := SplitAt(if clipped then source[..MAX_CHARACTERS] else source, '\n');
    var reader := new Reader();
    var i, error := 0, None;
    while i < |lines| && error.None?
      invariant i <= |lines|
      invariant error.None? ==> ParseLines(lines, unquote) == ParseFrom(reader.State(), lines, i, unquote)
      invariant error.Some? ==> ParseLines(lines, unquote) == Review(Salvage(reader.State()), error)
      decreases |lines| - i, if error.None? then 1 else 0
    {
      ghost var before := reader.State();
      var next;
      next, error := reader.ReadLine(lines, i, unquote);
      StepAdvances(before, lines, i, unquote);
      if error.None? { i := next; }
    }
    if error.None? {
      error := reader.Finish();
      return Review(reader.files, if error.Some? then error else if clipped then Some(Clipped) else None);
    }
    var kept := if reader.file.Some? && reader.file.value.hunks != [] then reader.files + [reader.file.value] else reader.files;
    return Review(kept, error);
  }
}
