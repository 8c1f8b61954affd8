/**
  Jump targets: the reader decides when it reads a hunk whether the new side of its file
  exists.  A row of a hunk read with it jumps to a line of the hunk's new side; a row of
  a hunk read without it jumps to its old line, which lies inside the new side exactly
  when the hunk's last row does.  So all targets of a returned file are inside if and
  only if no hunk that was read without a new side reaches past it.
 */
module PatchTargets {
  import opened Events
  import opened PatchReview
  import opened PatchHunks
  import opened PatchRoundTrip

  // ----- the side each hunk was read on

  /** For each hunk of each file, whether the new side was absent when it was read. */
  datatype Sides = Sides(done: seq<seq<bool>>, current: seq<bool>)

  /** Kept beside the parser: a finished file closes its record, a new hunk adds to it. */
  function SidesNext(s: Sides, p: Parser, q: Parser): Sides {
    if |q.files| > |p.files| then Sides(s.done + [s.current], [])
    else if p.file.Some? && q.file.Some? && |q.file.value.hunks| > |p.file.value.hunks|
    then s.(current := s.current + [p.file.value.newPath == DEV_NULL])
    else s
  }

  function SidesFrom(s: Sides, p: Parser, lines: seq<string>, i: nat, unquote: Unquote): seq<seq<bool>>
    requires i <= |lines|
    decreases |lines| - i
  {
    if i == |lines| then SidesNext(s, p, Finished(p)).done
    else
      StepAdvances(p, lines, i, unquote);
      match Step(p, lines, i, unquote)
      case Go(next, q) => SidesFrom(SidesNext(s, p, q), q, lines, next, unquote)
      case Fail(q, _) =>
        var kept := SidesNext(s, p, q);
        if |Salvage(q)| > |q.files| then kept.done + [kept.current] else kept.done
  }

  /** The lines that are read of a text. */
  function LinesOf(source: string): seq<string> {
    SplitAt(if |source| > MAX_CHARACTERS then source[..MAX_CHARACTERS] else source, '\n')
  }

  function ReadSides(source: string, unquote: Unquote): seq<seq<bool>> {
    SidesFrom(Sides([], []), FRESH, LinesOf(source), 0, unquote)
  }

  /** Each hunk is numbered by the side it was read on. */
  predicate SidesFit(hunks: seq<ReviewHunk>, sides: seq<bool>) {
    |sides| == |hunks| && forall k :: 0 <= k < |hunks| ==> GoodHunk(hunks[k]) && NumberedFor(hunks[k], sides[k])
  }

  predicate AllFit(files: seq<ReviewFile>, sides: seq<seq<bool>>) {
    |sides| == |files| && forall j :: 0 <= j < |files| ==> SidesFit(files[j].hunks, sides[j])
  }

  predicate Recorded(p: Parser, s: Sides) {
    AllFit(p.files, s.done) && SidesFit(if p.file.Some? then p.file.value.hunks else [], s.current)
  }

  lemma AppendFits(files: seq<ReviewFile>, sides: seq<seq<bool>>, f: ReviewFile, last: seq<bool>)
    requires AllFit(files, sides) && SidesFit(f.hunks, last)
    ensures AllFit(files + [f], sides + [last])
  {
    hide SidesFit;
  }

  lemma FinishedRecorded(p: Parser, s: Sides)
    requires Recorded(p, s)
    ensures Recorded(Finished(p), SidesNext(s, p, Finished(p)))
  {
    hide GoodHunk, NumberedFor;
    if p.file.Some? { AppendFits(p.files, s.done, p.file.value, s.current); }
  }

  lemma HunkRecorded(file: ReviewFile, header: string, c: Coordinates, rows: seq<ReviewLine>, sides: seq<bool>)
    requires SidesFit(file.hunks, sides) && HunkHeader(header) == Some(c) && SafeCoordinates(c)
    requires Numbered(rows, c, file.newPath == DEV_NULL) && Whole(rows, c)
    ensures SidesFit(AddHunk(file, header, c, rows).hunks, sides + [file.newPath == DEV_NULL])
  {
    hide Numbered, HunkHeader, Contexts, SafeCoordinates, GoodHunk, NumberedFor;
    HunkIsGood(header, c, rows, file.newPath == DEV_NULL);
  }

  lemma HunkStepRecorded(p: Parser, s: Sides, lines: seq<string>, i: nat, line: string)
    requires i < |lines| && Recorded(p, s)
    ensures var q := HunkStep(p, lines, i, line).parser; Recorded(q, SidesNext(s, p, q))
  {
    hide SidesFit, HunkHeader, RowsFrom, Numbered, Whole;
    if p.file.Some? && p.headerSeen && HunkHeader(line).Some? && SafeCoordinates(HunkHeader(line).value) {
      var c, deleted := HunkHeader(line).value, p.file.value.newPath == DEV_NULL;
      NothingRead(c, deleted);
      RowsAreWhole(lines, i + 1, [], p.countedLines, c, deleted);
      var read := RowsFrom(lines, i + 1, [], 0, 0, p.countedLines, c, deleted);
      if read.Ok? { HunkRecorded(p.file.value, line, c, read.value.rows, s.current); }
    }
  }

  lemma MetadataStepRecorded(p: Parser, s: Sides, lines: seq<string>, i: nat, line: string, unquote: Unquote)
    requires i < |lines| && p.file.Some? && Recorded(p, s)
    ensures var q := MetadataStep(p, lines, i, line, unquote).parser; Recorded(q, SidesNext(s, p, q))
  {
    hide PathFromHeader, SidesFit, SkipBinary;
  }

  lemma FileStepRecorded(p: Parser, s: Sides, lines: seq<string>, i: nat, line: string, unquote: Unquote)
    requires i < |lines| && |line| >= 4 && Recorded(p, s)
    ensures var q := FileStep(p, lines, i, line, unquote).parser; Recorded(q, SidesNext(s, p, q))
  {
    hide GoodHunk, NumberedFor, PathFromHeader, StripReturn;
    if EndsEarlierFile(p) { FinishedRecorded(p, s); }
  }

  lemma GitStepRecorded(p: Parser, s: Sides, i: nat, line: string, unquote: Unquote)
    requires |line| >= 11 && Recorded(p, s)
    ensures var q := GitStep(p, i, line, unquote).parser; Recorded(q, SidesNext(s, p, q))
  {
    hide GoodHunk, NumberedFor, GitPaths;
    FinishedRecorded(p, s);
  }

  lemma StepRecorded(p: Parser, s: Sides, lines: seq<string>, i: nat, unquote: Unquote)
    requires i < |lines| && Recorded(p, s)
    ensures var q := Step(p, lines, i, unquote).parser; Recorded(q, SidesNext(s, p, q))
  {
    hide Recorded, GitStep, FileStep, HunkStep, MetadataStep, IsMetadata, StripReturn;
    var line := StripReturn(lines[i]);
    if "diff --git " <= line { GitStepRecorded(p, s, i, line, unquote); }
    else if "--- " <= line { FileStepRecorded(p, s, lines, i, line, unquote); }
    else if "@@ " <= line { HunkStepRecorded(p, s, lines, i, line); }
    else if p.file.Some? && IsMetadata(line) { MetadataStepRecorded(p, s, lines, i, line, unquote); }
  }

  lemma SalvageRecorded(p: Parser, s: Sides)
    requires Recorded(p, s)
    ensures AllFit(Salvage(p), if |Salvage(p)| > |p.files| then s.done + [s.current] else s.done)
  {
    hide SidesFit;
    if p.file.Some? { AppendFits(p.files, s.done, p.file.value, s.current); }
  }

  lemma {:induction false} ParseRecorded(p: Parser, s: Sides, lines: seq<string>, i: nat, unquote: Unquote)
    requires i <= |lines| && Recorded(p, s)
    ensures AllFit(ParseFrom(p, lines, i, unquote).files, SidesFrom(s, p, lines, i, unquote))
    decreases |lines| - i
  {
    hide Step, SidesFit, SidesNext, Salvage, Finished;
    if i == |lines| {
      FinishedRecorded(p, s);
    } else {
      StepAdvances(p, lines, i, unquote);
      StepRecorded(p, s, lines, i, unquote);
      var m := Step(p, lines, i, unquote);
      if m.Go? { ParseRecorded(m.parser, SidesNext(s, p, m.parser), lines, m.next, unquote); }
      else { SalvageRecorded(m.parser, SidesNext(s, p, m.parser)); }
    }
  }

  /** The record is parallel to the returned files, and numbers every hunk. */
  lemma SidesAreRecorded(source: string, unquote: Unquote)
    ensures AllFit(Parse(source, unquote).files, ReadSides(source, unquote))
  {
    hide SidesFit, SplitAt, ParseFrom, SidesFrom;
    assert Recorded(FRESH, Sides([], [])) by { NothingRecorded(); }
    ParseRecorded(FRESH, Sides([], []), LinesOf(source), 0, unquote);
  }

  lemma NothingRecorded()
    ensures Recorded(FRESH, Sides([], []))
  {
  }

  // ----- when targets are inside

  /** Every row jumps to a line of its hunk's new side, or to line 1. */
  predicate Inside(h: ReviewHunk) {
    HunkHeader(h.header).Some?
    && forall k :: 0 <= k < |h.lines| && !h.lines[k].kind.NoteRow? ==>
         h.lines[k].target.Some? && 1 <= h.lines[k].target.value <= LastNewLine(HunkHeader(h.header).value)
  }

  predicate TargetsInside(f: ReviewFile) { forall k :: 0 <= k < |f.hunks| ==> Inside(f.hunks[k]) }

  /** The number of rows up to the last one that is not a note. */
  function Counted(rows: seq<ReviewLine>): (n: nat)
    ensures n <= |rows| && (n > 0 ==> !rows[n - 1].kind.NoteRow?)
    ensures forall k :: n <= k < |rows| ==> rows[k].kind.NoteRow?
  {
    if rows == [] then 0
    else if !rows[|rows| - 1].kind.NoteRow? then |rows|
    else Counted(rows[..|rows| - 1])
  }

  /** The old line at the hunk's last row: its old side's last line, or the one after it for an added row. */
  function LastOldLine(h: ReviewHunk, c: Coordinates): nat {
    var n := Counted(h.lines);
    if n > 0 && !h.lines[n - 1].kind.Addition? && c.oldCount > 0 then c.oldStart + c.oldCount - 1 else c.oldStart + c.oldCount
  }

  /** The hunk has rows, and the old line at its last one is past its new side. */
  predicate ReachesPast(h: ReviewHunk) {
    HunkHeader(h.header).Some? && Counted(h.lines) > 0
    && (var c := HunkHeader(h.header).value; Max(1, LastOldLine(h, c)) > LastNewLine(c))
  }

  lemma {:induction false} CountPrefix(rows: seq<ReviewLine>, k: nat, kind: RowKind)
    requires k <= |rows|
    ensures CountOf(rows[..k], kind) <= CountOf(rows, kind)
    decreases |rows|
  {
    if k == |rows| { assert rows[..k] == rows; }
    else {
      assert rows[..|rows| - 1][..k] == rows[..k];
      CountPrefix(rows[..|rows| - 1], k, kind);
    }
  }

  lemma OldRowsPrefix(rows: seq<ReviewLine>, k: nat, n: nat)
    requires k <= n <= |rows|
    ensures OldRows(rows[..k]) <= OldRows(rows[..n])
  {
    assert rows[..n][..k] == rows[..k];
    CountPrefix(rows[..n], k, Context);
    CountPrefix(rows[..n], k, Deletion);
  }

  lemma {:induction false} NotesCountNothing(rows: seq<ReviewLine>, n: nat)
    requires n <= |rows| && forall k :: n <= k < |rows| ==> rows[k].kind.NoteRow?
    ensures OldRows(rows[..n]) == OldRows(rows)
    decreases |rows|
  {
    if n == |rows| { assert rows[..n] == rows; }
    else {
      assert rows[..|rows| - 1][..n] == rows[..n];
      NotesCountNothing(rows[..|rows| - 1], n);
    }
  }

  /** How many old rows precede the last counted one. */
  lemma BeforeLast(rows: seq<ReviewLine>)
    requires Counted(rows) > 0
    ensures var n := Counted(rows);
            OldRows(rows) == OldRows(rows[..n - 1]) + (if rows[n - 1].kind.Addition? then 0 else 1)
  {
    hide OldRows;
    var n := Counted(rows);
    NotesCountNothing(rows, n);
    AppendCounts(rows[..n - 1], rows[n - 1]);
    assert rows[..n - 1] + [rows[n - 1]] == rows[..n];
  }

  /** A hunk read without a new side: its rows jump to their old lines, the last one furthest. */
  lemma OldSideInside(h: ReviewHunk)
    requires GoodHunk(h) && NumberedFor(h, true)
    ensures Inside(h) <==> !ReachesPast(h)
  {
    hide OldRows, HunkHeader, LastNewLine, NewRows;
    var c, rows := HunkHeader(h.header).value, h.lines;
    var n := Counted(rows);
    if n > 0 {
      BeforeLast(rows);
      assert RowFits(rows[n - 1], c.oldStart + OldRows(rows[..n - 1]), c.newStart + NewRows(rows[..n - 1]), c, true);
      assert LastOldLine(h, c) == c.oldStart + OldRows(rows[..n - 1]);
    }
    forall k | 0 <= k < |rows| && !rows[k].kind.NoteRow?
      ensures rows[k].target.Some? && 1 <= rows[k].target.value <= Max(1, LastOldLine(h, c)) && n > 0
    {
      OldRowsPrefix(rows, k, n - 1);
      assert RowFits(rows[k], c.oldStart + OldRows(rows[..k]), c.newStart + NewRows(rows[..k]), c, true);
    }
  }

  lemma NewSideInside(h: ReviewHunk)
    requires GoodHunk(h) && NumberedFor(h, false)
    ensures Inside(h)
  {
    hide OldRows, NewRows, HunkHeader, LastNewLine;
    assert Numbered(h.lines, HunkHeader(h.header).value, false);
  }

  lemma HunksInside(hunks: seq<ReviewHunk>, sides: seq<bool>, k: nat)
    requires SidesFit(hunks, sides) && k < |hunks|
    ensures Inside(hunks[k]) <==> !(sides[k] && ReachesPast(hunks[k]))
  {
    hide Inside, ReachesPast, GoodHunk, NumberedFor;
    if sides[k] { OldSideInside(hunks[k]); } else { NewSideInside(hunks[k]); }
  }

  /**
    For every returned file: all its targets are inside exactly when no hunk read while
    the new side was absent reaches past its new side.
   */
  lemma TargetsInsideExactly(source: string, unquote: Unquote, j: nat)
    requires j < |Parse(source, unquote).files|
    ensures var f, sides := Parse(source, unquote).files[j], ReadSides(source, unquote);
            && j < |sides| && |sides[j]| == |f.hunks|
            && (TargetsInside(f) <==> forall k :: 0 <= k < |f.hunks| ==> !(sides[j][k] && ReachesPast(f.hunks[k])))
  {
    hide Parse, ReadSides, Inside, ReachesPast;
    SidesAreRecorded(source, unquote);
    var f, sides := Parse(source, unquote).files[j], ReadSides(source, unquote);
    assert SidesFit(f.hunks, sides[j]);
    forall k | 0 <= k < |f.hunks| ensures Inside(f.hunks[k]) <==> !(sides[j][k] && ReachesPast(f.hunks[k])) {
      HunksInside(f.hunks, sides[j], k);
    }
  }

  // ----- a condition on the text

  /** Lines that rename or delete the new side of the file they describe. */
  predicate Retitles(line: string) { NamesNew(line) || "deleted file mode " <= line }

  /** Some such line follows a hunk header with no git file header between. */
  predicate RetitledLate(lines: seq<string>) {
    exists a, b :: 0 <= a < b < |lines| && "@@ " <= lines[a] && Retitles(StripReturn(lines[b]))
      && NoGitHeader(lines, a, b)
  }

  predicate NoGitHeader(lines: seq<string>, a: int, b: int) {
    forall c :: a < c < b && 0 <= c < |lines| ==> !("diff --git " <= lines[c])
  }

  predicate Uniform(f: ReviewFile, sides: seq<bool>) {
    |sides| == |f.hunks| && forall k :: 0 <= k < |sides| ==> sides[k] == (f.newPath == DEV_NULL)
  }

  predicate AllUniform(files: seq<ReviewFile>, sides: seq<seq<bool>>) {
    |sides| == |files| && forall j :: 0 <= j < |files| ==> Uniform(files[j], sides[j])
  }

  /** Every hunk was read on the side its file has now; hunks being read follow a hunk header. */
  predicate OneSided(p: Parser, s: Sides, lines: seq<string>, i: nat) {
    && AllUniform(p.files, s.done)
    && (if p.file.Some? then Uniform(p.file.value, s.current) else s.current == [])
    && (p.file.Some? && p.file.value.hunks != [] ==>
          exists a :: 0 <= a < i && a < |lines| && "@@ " <= lines[a] && NoGitHeader(lines, a, i))
  }

  predicate Reached(m: Move, s: Sides, p: Parser, lines: seq<string>) {
    var s' := SidesNext(s, p, m.parser);
    if m.Go? then OneSided(m.parser, s', lines, m.next)
    else AllUniform(m.parser.files, s'.done) && (m.parser.file.Some? ==> Uniform(m.parser.file.value, s'.current))
  }

  lemma StripKeepsStart(line: string)
    ensures "@@ " <= StripReturn(line) ==> "@@ " <= line
    ensures "diff --git " <= line ==> "diff --git " <= StripReturn(line)
  {
    if "diff --git " <= line { assert line[10] == ' '; }
  }

  lemma {:induction false} RowsHoldNoHeader(lines: seq<string>, i: nat, rows: seq<ReviewLine>, oldRead: nat, newRead: nat,
                                            counted: nat, c: Coordinates, deleted: bool)
    requires i <= |lines|
    ensures var r := RowsFrom(lines, i, rows, oldRead, newRead, counted, c, deleted);
            r.Ok? ==> i <= r.value.next <= |lines| && forall k :: i <= k < r.value.next ==> !("diff --git " <= lines[k])
    decreases |lines| - i
  {
    hide Entry;
    if i < |lines| {
      if lines[i] == NO_NEWLINE || IsRow(lines[i]) { assert lines[i][0] != 'd'; }
      if !(oldRead >= c.oldCount && newRead >= c.newCount) {
        if lines[i] == NO_NEWLINE && rows != [] {
          RowsHoldNoHeader(lines, i + 1, rows + [NOTE], oldRead, newRead, counted, c, deleted);
        } else if IsRow(lines[i]) {
          RowsHoldNoHeader(lines, i + 1, rows + [Entry(lines[i], c.oldStart + oldRead, c.newStart + newRead, c, deleted)],
                           if lines[i][0] != '+' then oldRead + 1 else oldRead,
                           if lines[i][0] != '-' then newRead + 1 else newRead, counted + 1, c, deleted);
        }
      }
    }
  }

  lemma FinishedUniform(p: Parser, s: Sides, lines: seq<string>, i: nat)
    requires OneSided(p, s, lines, i)
    ensures var q, s' := Finished(p), SidesNext(s, p, Finished(p));
            AllUniform(q.files, s'.done) && s'.current == []
  {
    hide Uniform, NoGitHeader;
    if p.file.Some? && p.file.value.hunks == [] { assert s.current == [] by { NoneRead(p.file.value, s.current); } }
  }

  lemma NoneRead(f: ReviewFile, sides: seq<bool>)
    requires Uniform(f, sides) && f.hunks == []
    ensures sides == []
  {
  }

  lemma FreshUniform(f: ReviewFile)
    requires f.hunks == []
    ensures Uniform(f, [])
  {
  }

  lemma GitStepUniform(p: Parser, s: Sides, lines: seq<string>, i: nat, line: string, unquote: Unquote)
    requires |line| >= 11 && i < |lines| && OneSided(p, s, lines, i)
    ensures Reached(GitStep(p, i, line, unquote), s, p, lines)
  {
    hide Uniform, GitPaths, NoGitHeader;
    FinishedUniform(p, s, lines, i);
    var m := GitStep(p, i, line, unquote);
    if m.Go? { FreshUniform(m.parser.file.value); }
  }

  lemma FileStepUniform(p: Parser, s: Sides, lines: seq<string>, i: nat, line: string, unquote: Unquote)
    requires |line| >= 4 && i < |lines| && OneSided(p, s, lines, i)
    ensures Reached(FileStep(p, lines, i, line, unquote), s, p, lines)
  {
    hide Uniform, PathFromHeader, StripReturn, NoGitHeader;
    FinishedUniform(p, s, lines, i);
    if p.file.Some? && p.file.value.hunks == [] { NoneRead(p.file.value, s.current); }
    var m := FileStep(p, lines, i, line, unquote);
    if m.Go? { FreshUniform(m.parser.file.value); }
  }

  lemma HunkStepUniform(p: Parser, s: Sides, lines: seq<string>, i: nat, line: string)
    requires i < |lines| && OneSided(p, s, lines, i) && "@@ " <= lines[i]
    ensures Reached(HunkStep(p, lines, i, line), s, p, lines)
  {
    hide HunkHeader, RowsFrom, SafeCoordinates, Contexts;
    if p.file.Some? && HunkHeader(line).Some? {
      var c := HunkHeader(line).value;
      RowsHoldNoHeader(lines, i + 1, [], 0, 0, p.countedLines, c, p.file.value.newPath == DEV_NULL);
    }
  }

  lemma DescribedSide(f: ReviewFile, line: string, unquote: Unquote)
    ensures var r := Described(f, line, unquote);
            r.Ok? ==> r.value.hunks == f.hunks && (r.value.newPath == f.newPath || Retitles(line))
  {
    hide PathFromHeader;
  }

  lemma MetadataStepUniform(p: Parser, s: Sides, lines: seq<string>, i: nat, line: string, unquote: Unquote)
    requires i < |lines| && p.file.Some? && OneSided(p, s, lines, i) && !RetitledLate(lines)
    requires line == StripReturn(lines[i]) && !("diff --git " <= lines[i])
    ensures Reached(MetadataStep(p, lines, i, line, unquote), s, p, lines)
  {
    hide Described, Retitles, StripReturn;
    DescribedSide(p.file.value, line, unquote);
    if p.file.value.hunks != [] {
      var a :| 0 <= a < i && a < |lines| && "@@ " <= lines[a] && NoGitHeader(lines, a, i);
      assert !Retitles(line);
      var m := MetadataStep(p, lines, i, line, unquote);
      if m.Go? { assert NoGitHeader(lines, a, m.next); }
    }
  }

  lemma BlankUniform(p: Parser, s: Sides, lines: seq<string>, i: nat)
    requires i < |lines| && OneSided(p, s, lines, i) && !("diff --git " <= lines[i])
    ensures OneSided(p, s, lines, i + 1)
  {
    hide Uniform;
    if p.file.Some? && p.file.value.hunks != [] {
      var a :| 0 <= a < i && a < |lines| && "@@ " <= lines[a] && NoGitHeader(lines, a, i);
      assert NoGitHeader(lines, a, i + 1);
    }
  }

  lemma StepUniform(p: Parser, s: Sides, lines: seq<string>, i: nat, unquote: Unquote)
    requires i < |lines| && OneSided(p, s, lines, i) && !RetitledLate(lines)
    ensures Reached(Step(p, lines, i, unquote), s, p, lines)
  {
    hide OneSided, Uniform, GitStep, FileStep, HunkStep, MetadataStep, IsMetadata, StripReturn, RetitledLate;
    var line := StripReturn(lines[i]);
    StripKeepsStart(lines[i]);
    if "diff --git " <= line { hide Reached; GitStepUniform(p, s, lines, i, line, unquote); }
    else if "--- " <= line { hide Reached; FileStepUniform(p, s, lines, i, line, unquote); }
    else if "@@ " <= line { hide Reached; HunkStepUniform(p, s, lines, i, line); }
    else if p.file.Some? && IsMetadata(line) { hide Reached; MetadataStepUniform(p, s, lines, i, line, unquote); }
    else {
      BlankUniform(p, s, lines, i);
      OneSidedParts(p, s, lines, i);
    }
  }

  lemma OneSidedParts(p: Parser, s: Sides, lines: seq<string>, i: nat)
    requires OneSided(p, s, lines, i)
    ensures AllUniform(p.files, s.done) && (p.file.Some? ==> Uniform(p.file.value, s.current))
  {
    hide Uniform;
  }

  lemma UniformAppend(files: seq<ReviewFile>, sides: seq<seq<bool>>, f: ReviewFile, last: seq<bool>)
    requires AllUniform(files, sides) && Uniform(f, last)
    ensures AllUniform(files + [f], sides + [last])
  {
    hide Uniform;
  }

  lemma {:induction false} ParseUniform(p: Parser, s: Sides, lines: seq<string>, i: nat, unquote: Unquote)
    requires i <= |lines| && OneSided(p, s, lines, i) && !RetitledLate(lines)
    ensures AllUniform(ParseFrom(p, lines, i, unquote).files, SidesFrom(s, p, lines, i, unquote))
    decreases |lines| - i
  {
    hide Step, Uniform, OneSided, RetitledLate, SidesNext, AllUniform, Finished;
    if i == |lines| {
      FinishedUniform(p, s, lines, i);
    } else {
      StepAdvances(p, lines, i, unquote);
      StepUniform(p, s, lines, i, unquote);
      var m := Step(p, lines, i, unquote);
      var s' := SidesNext(s, p, m.parser);
      if m.Go? { ParseUniform(m.parser, s', lines, m.next, unquote); }
      else if m.parser.file.Some? { UniformAppend(m.parser.files, s'.done, m.parser.file.value, s'.current); }
    }
  }

  lemma NothingUniform(lines: seq<string>)
    ensures OneSided(FRESH, Sides([], []), lines, 0)
  {
  }

  /**
    When no line renames or deletes a file's new side between one of its hunks and the
    next git file header, all targets of every file whose new side exists are inside.
   */
  lemma TargetsStayInside(source: string, unquote: Unquote, f: ReviewFile)
    requires !RetitledLate(LinesOf(source)) && f in Parse(source, unquote).files && f.newPath != DEV_NULL
    ensures TargetsInside(f)
  {
    hide RetitledLate, SplitAt, ParseFrom, SidesFrom, OneSided, Inside, ReachesPast;
    var files, sides := Parse(source, unquote).files, ReadSides(source, unquote);
    var j :| 0 <= j < |files| && files[j] == f;
    NothingUniform(LinesOf(source));
    ParseUniform(FRESH, Sides([], []), LinesOf(source), 0, unquote);
    assert AllUniform(files, sides) && Uniform(f, sides[j]);
    TargetsInsideExactly(source, unquote, j);
  }

  // ----- the exception happens

  const GONE := PatchHunk(5, 0, [Remove("x")], "", false)

  const LATE_LINES: seq<string> := ["--- a/f", "+++ /dev/null", "@@ -5,1 +0,0 @@", "-x", "rename to g"]

  /** A deletion with a rename after its hunk. */
  const LATE_RENAME: string := Unlines(LATE_LINES)

  lemma {:induction false} UnlinesBounded(lines: seq<string>, m: nat)
    requires forall k :: 0 <= k < |lines| ==> |lines[k]| < m
    ensures |Unlines(lines)| <= |lines| * m
  {
    if lines != [] { UnlinesBounded(lines[1..], m); }
  }

  lemma TextIsLines()
    ensures LinesOf(LATE_RENAME) == LATE_LINES + [""] && |LATE_RENAME| <= MAX_CHARACTERS
  {
    hide SplitAt, Unlines;
    UnlinesBounded(LATE_LINES, 20);
    UnlinesSplits(LATE_LINES);
  }

  lemma PlainName(name: string, unquote: Unquote)
    requires name == "f" || name == "g"
    ensures IsReviewablePath(name) && PathFromHeader(name, false, unquote) == Ok(name)
  {
    BeforeAll(name, '\t');
    assert name[1..] == "";
    assert SplitAt("", '/') == [""];
    assert SplitAt(name, '/') == [name];
  }

  lemma GoneExtent()
    ensures Extent(GONE) == Coordinates(5, 1, 0, 0) && WellFormedHunk(GONE) && Sum(GONE.rows, RowWeight) == 1
    ensures HeaderLine(GONE) == "@@ -5,1 +0,0 @@"
  {
    assert GONE.rows[..0] == [];
    assert RowText(GONE.rows[0]) == "-x";
    OneDigit(5, '5');
    OneDigit(1, '1');
    OneDigit(0, '0');
    assert Extent(GONE) == Coordinates(5, 1, 0, 0);
  }

  lemma OneDigit(n: nat, c: char)
    requires n < 10 && DigitOf(n) == c
    ensures Dec(n) == [c]
  {
  }

  lemma RenameDescribes(file: ReviewFile, unquote: Unquote)
    ensures IsMetadata("rename to g")
    ensures Described(file, "rename to g", unquote) == Ok(file.(newPath := "g", path := "g", status := Renamed))
  {
    hide PathFromHeader;
    var line := "rename to g";
    assert line[0] == 'r' && "copy from "[0] == 'c' && "rename to " <= line;
    assert METADATA[8] <= line;
    assert line[10..] == "g";
    PlainName("g", unquote);
  }

  const LATE: seq<string> := LATE_LINES + [""]

  lemma RenameStep(p: Parser, unquote: Unquote)
    requires p.file.Some?
    ensures Step(p, LATE, 4, unquote)
         == Go(5, p.(file := Some(p.file.value.(newPath := "g", path := "g", status := Renamed,
                                                metadata := p.file.value.metadata + ["rename to g"]))))
  {
    hide HunkStep, GitStep, FileStep, HeaderLine, IsMetadata, Described;
    var line := LATE[4];
    assert StripReturn(line) == line == "rename to g";
    assert line[0] == 'r' && "diff --git "[0] == 'd' && "--- "[0] == '-' && "@@ "[0] == '@';
    RenameDescribes(p.file.value, unquote);
  }

  lemma HoldsOne(p: Parser, x: Shown)
    requires Holds(p, [x]) && p.file.Some? && p.headerSeen
    ensures Shows(p.file.value, x) && p.files == []
  {
    hide Shows;
    assert Finished(p).files == p.files + [p.file.value];
    assert Shows(Finished(p).files[0], [x][0]);
  }

  lemma FirstRowAt(rows: seq<ReviewLine>, c: Coordinates)
    requires rows != [] && rows[0].kind.Deletion? && Numbered(rows, c, true)
    ensures rows[0].target == Some(Max(1, c.oldStart))
  {
    assert rows[..0] == [];
    assert RowFits(rows[0], c.oldStart + OldRows(rows[..0]), c.newStart + NewRows(rows[..0]), c, true);
  }

  lemma OldTarget(file: ReviewFile)
    requires SidesFit(file.hunks, [true]) && ShowsHunks(file.hunks, [GONE])
    ensures |file.hunks| == 1 && |file.hunks[0].lines| == 1 && file.hunks[0].lines[0].target == Some(5)
    ensures !Inside(file.hunks[0])
  {
    GoneExtent();
    hide HeaderLine, HunkHeader, Numbered, Sum;
    HeaderReads(GONE);
    assert ShowsHunk(file.hunks[0], GONE);
    assert NumberedFor(file.hunks[0], true);
    assert ShowsRow(file.hunks[0].lines[0], GONE.rows[0]);
    FirstRowAt(file.hunks[0].lines, Extent(GONE));
  }

  /** The one hunk was read without a new side. */
  lemma ReadOldSide(p: Parser, q: Parser, unquote: Unquote)
    requires Step(FRESH, LATE, 0, unquote) == Go(2, p) && Step(p, LATE, 2, unquote) == Go(4, q)
    requires p.files == q.files == [] && p.file.Some? && q.file.Some?
    requires p.file.value.newPath == DEV_NULL && p.file.value.hunks == [] && |q.file.value.hunks| == 1
    ensures SidesFit(q.file.value.hunks, [true])
  {
    hide Step, SidesFit;
    NothingRecorded();
    StepRecorded(FRESH, Sides([], []), LATE, 0, unquote);
    StepRecorded(p, Sides([], []), LATE, 2, unquote);
    assert [] + [true] == [true];
  }

  /** The deleted file, before its hunk and with it. */
  const BEFORE := Shown("f", "f", DEV_NULL, Deleted, [], [])
  const AFTER := Shown("f", "f", DEV_NULL, Deleted, [], [GONE])

  /** The parser before the rename: the deleted file, with its hunk. */
  lemma BeforeRename(unquote: Unquote) returns (p: Parser, q: Parser)
    ensures Step(FRESH, LATE, 0, unquote) == Go(2, p) && Step(p, LATE, 2, unquote) == Go(4, q)
    ensures q.file.Some? && q.files == [] && SidesFit(q.file.value.hunks, [true]) && ShowsHunks(q.file.value.hunks, [GONE])
    ensures q.headerSeen
  {
    hide HeaderLine, Step, Sum, Holds, WellFormedHunk, IsReviewablePath, SidesFit, Shows;
    var f := PatchFile("f", DEV_NULL, []);
    PlainName("f", unquote);
    GoneExtent();
    NothingHeld();
    assert SideName("f", "a/") == "a/f" && SideName(DEV_NULL, "b/") == DEV_NULL;
    assert "--- " + "a/f" == "--- a/f" && "+++ " + DEV_NULL == "+++ /dev/null";
    p := FileReadsBack(FRESH, LATE, 0, [], f, unquote);
    assert [] + [BEFORE] == [BEFORE] && Expect(f).(hunks := [], metadata := []) == BEFORE;
    HoldsOne(p, BEFORE);
    assert RowText(GONE.rows[0]) == "-x" && LATE[3..4] == RowLines(GONE.rows);
    q := HunkReadsBack(p, LATE, 2, [], BEFORE, GONE, unquote);
    assert BEFORE.(hunks := BEFORE.hunks + [GONE]) == AFTER && [] + [AFTER] == [AFTER];
    HoldsOne(q, AFTER);
    ShownParts(p.file.value, BEFORE);
    ShownParts(q.file.value, AFTER);
    ReadOldSide(p, q, unquote);
  }

  lemma ShownParts(file: ReviewFile, x: Shown)
    requires Shows(file, x)
    ensures |file.hunks| == |x.hunks| && file.newPath == x.newPath && ShowsHunks(file.hunks, x.hunks)
  {
  }

  /**
    A deleted file's hunk at old line 5, then a rename: the returned file has a new
    side, and its row still jumps to line 5, past the hunk's new side.
   */
  lemma LateRenameKeepsOldTargets(unquote: Unquote)
    ensures var files := Parse(LATE_RENAME, unquote).files;
            && |files| == 1 && files[0].newPath == "g" && |files[0].hunks| == 1 && |files[0].hunks[0].lines| == 1
            && files[0].hunks[0].lines[0].target == Some(5) && !TargetsInside(files[0])
  {
    hide Step, HeaderLine, Sum, ShowsHunks, SidesFit, SplitAt;
    TextIsLines();
    var p, q := BeforeRename(unquote);
    RenameStep(q, unquote);
    OldTarget(q.file.value);
    var r := Step(q, LATE, 4, unquote).parser;
    BlankLine(r, LATE, 5, unquote);
    assert ParseFrom(r, LATE, 6, unquote) == Review([r.file.value], None);
    assert ParseFrom(r, LATE, 5, unquote) == Review([r.file.value], None);
    assert ParseFrom(q, LATE, 4, unquote) == Review([r.file.value], None);
    assert ParseFrom(p, LATE, 2, unquote) == Review([r.file.value], None);
  }
}
