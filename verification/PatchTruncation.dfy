/**
  Truncation is safe: cutting a patch at a line boundary yields the files of the whole
  patch up to the cut, unchanged, and of the file the cut falls in a prefix of its
  hunks, the last of which may lack its no-newline note.
 */
module PatchTruncation {
  import opened PatchReview

  /** The hunks of file `n`, when there is one. */
  function HunksOf(files: seq<ReviewFile>, n: nat): seq<ReviewHunk> {
    if n < |files| then files[n].hunks else []
  }

  /** The completed hunks of the file being read. */
  function Current(p: Parser): seq<ReviewHunk> { if p.file.Some? then p.file.value.hunks else [] }

  /** As `h`, with the note that its last line has no newline. */
  function Noted(h: ReviewHunk): ReviewHunk { h.(lines := h.lines + [NOTE]) }

  function LastNoted(hunks: seq<ReviewHunk>): seq<ReviewHunk>
    requires hunks != []
  {
    hunks[..|hunks| - 1] + [Noted(hunks[|hunks| - 1])]
  }

  /** A prefix, up to a missing note at the end of the last hunk. */
  predicate CutShort(short: seq<ReviewHunk>, full: seq<ReviewHunk>) {
    short <= full || (short != [] && LastNoted(short) <= full)
  }

  /**
    The files before file `n` are complete and the same, file `n` is cut short, and
    none follows it.  (File `n` may still be without hunks in either.)
   */
  predicate CutAt(short: seq<ReviewFile>, full: seq<ReviewFile>, n: nat) {
    && n <= |short| <= n + 1 && n <= |full| && short[..n] == full[..n]
    && CutShort(HunksOf(short, n), HunksOf(full, n))
  }

  // ----- no step forgets a finished file or a completed hunk

  /** The files finished so far, then a file that starts with the hunks of the current one. */
  predicate Continues(p: Parser, files: seq<ReviewFile>) {
    p.files <= files && Current(p) <= HunksOf(files, |p.files|)
  }

  predicate Extends(p: Parser, q: Parser) {
    && p.files <= q.files
    && (|q.files| == |p.files| ==> Current(p) <= Current(q))
    && (|q.files| > |p.files| ==> Current(p) <= q.files[|p.files|].hunks)
  }

  lemma ExtendsContinues(p: Parser, q: Parser, files: seq<ReviewFile>)
    requires Extends(p, q) && Continues(q, files)
    ensures Continues(p, files)
  {
    if |q.files| > |p.files| { assert files[|p.files|] == q.files[|p.files|]; }
  }

  lemma FinishedKeeps(p: Parser)
    ensures Extends(p, Finished(p)) && Continues(p, Finished(p).files) && |Finished(p).files| <= |p.files| + 1
    ensures HunksOf(Finished(p).files, |p.files|) == Current(p)
  {
  }

  lemma SalvageKeeps(p: Parser)
    ensures Continues(p, Salvage(p)) && |Salvage(p)| <= |p.files| + 1
    ensures HunksOf(Salvage(p), |p.files|) == Current(p)
  {
  }

  lemma HunkStepKeeps(p: Parser, lines: seq<string>, i: nat, line: string)
    requires i < |lines|
    ensures Extends(p, HunkStep(p, lines, i, line).parser)
  {
    hide HunkHeader, RowsFrom, SafeCoordinates, Contexts;
  }

  lemma MetadataStepKeeps(p: Parser, lines: seq<string>, i: nat, line: string, unquote: Unquote)
    requires i < |lines| && p.file.Some?
    ensures var q := MetadataStep(p, lines, i, line, unquote).parser; q.files == p.files && Current(q) == Current(p)
  {
    hide PathFromHeader;
  }

  lemma FileStepKeeps(p: Parser, lines: seq<string>, i: nat, line: string, unquote: Unquote)
    requires i < |lines| && |line| >= 4
    ensures Extends(p, FileStep(p, lines, i, line, unquote).parser)
  {
    hide PathFromHeader, Full, StripReturn;
    FinishedKeeps(p);
  }

  lemma GitStepKeeps(p: Parser, i: nat, line: string, unquote: Unquote)
    requires |line| >= 11
    ensures Extends(p, GitStep(p, i, line, unquote).parser)
  {
    hide GitPaths, Full;
    FinishedKeeps(p);
  }

  lemma StepKeeps(p: Parser, lines: seq<string>, i: nat, unquote: Unquote)
    requires i < |lines|
    ensures Extends(p, Step(p, lines, i, unquote).parser)
  {
    hide GitStep, FileStep, HunkStep, MetadataStep, IsMetadata, StripReturn;
    var line := StripReturn(lines[i]);
    if "diff --git " <= line { GitStepKeeps(p, i, line, unquote); }
    else if "--- " <= line { FileStepKeeps(p, lines, i, line, unquote); }
    else if "@@ " <= line { HunkStepKeeps(p, lines, i, line); }
    else if p.file.Some? && IsMetadata(line) { MetadataStepKeeps(p, lines, i, line, unquote); }
  }

  /** No later line, error or limit loses a finished file or a completed hunk. */
  lemma {:induction false} ParseKeeps(p: Parser, lines: seq<string>, i: nat, unquote: Unquote)
    requires i <= |lines|
    ensures Continues(p, ParseFrom(p, lines, i, unquote).files)
    decreases |lines| - i
  {
    hide Step, Continues, Extends, Finished, Salvage;
    if i == |lines| {
      FinishedKeeps(p);
    } else {
      StepKeeps(p, lines, i, unquote);
      StepAdvances(p, lines, i, unquote);
      var m := Step(p, lines, i, unquote);
      if m.Go? { ParseKeeps(m.parser, lines, m.next, unquote); } else { SalvageKeeps(m.parser); }
      ExtendsContinues(p, m.parser, ParseFrom(p, lines, i, unquote).files);
    }
  }

  // ----- one step on a text and on its beginning

  /** The first `k` lines, followed by nothing or by the empty line after a final newline. */
  predicate Begins(cut: seq<string>, lines: seq<string>, k: nat) {
    k <= |lines| && (cut == lines[..k] || cut == lines[..k] + [""])
  }

  lemma {:induction false} RowsCut(cut: seq<string>, lines: seq<string>, k: nat, i: nat, rows: seq<ReviewLine>,
                                   oldRead: nat, newRead: nat, counted: nat, c: Coordinates, deleted: bool)
    requires Begins(cut, lines, k) && i <= k
    ensures var short := RowsFrom(cut, i, rows, oldRead, newRead, counted, c, deleted);
            var full := RowsFrom(lines, i, rows, oldRead, newRead, counted, c, deleted);
            short.Ok? ==>
              && full.Ok? && short.value.next <= k
              && (full == short || (short.value.next == k && full.value.rows == short.value.rows + [NOTE]))
    decreases k - i
  {
    hide Entry;
    if i < k {
      assert cut[i] == lines[i];
      if !(oldRead >= c.oldCount && newRead >= c.newCount) {
        if lines[i] == NO_NEWLINE && rows != [] {
          RowsCut(cut, lines, k, i + 1, rows + [NOTE], oldRead, newRead, counted, c, deleted);
        } else if IsRow(lines[i]) {
          RowsCut(cut, lines, k, i + 1, rows + [Entry(lines[i], c.oldStart + oldRead, c.newStart + newRead, c, deleted)],
                  if lines[i][0] != '+' then oldRead + 1 else oldRead,
                  if lines[i][0] != '-' then newRead + 1 else newRead, counted + 1, c, deleted);
        }
      }
    }
  }

  /** On the cut text a step does the same, or adds nothing to the files and is the last, or misses one note. */
  predicate Tracks(p: Parser, short: Move, full: Move, k: nat) {
    || (short == full && (short.Go? ==> short.next <= k))
    || (short.parser.files == p.files && Current(short.parser) == Current(p) && (short.Go? ==> short.next >= k))
    || (short.Go? && short.next == k
        && full.parser.files == short.parser.files && Current(short.parser) != []
        && Current(full.parser) == LastNoted(Current(short.parser)))
  }

  lemma HunkStepCut(p: Parser, cut: seq<string>, lines: seq<string>, k: nat, i: nat, line: string)
    requires Begins(cut, lines, k) && i < k
    ensures Tracks(p, HunkStep(p, cut, i, line), HunkStep(p, lines, i, line), k)
  {
    hide HunkHeader, RowsFrom, SafeCoordinates, Contexts;
    if p.file.Some? && HunkHeader(line).Some? {
      var c, file := HunkHeader(line).value, p.file.value;
      var deleted := file.newPath == DEV_NULL;
      RowsCut(cut, lines, k, i + 1, [], 0, 0, p.countedLines, c, deleted);
      var short := HunkStep(p, cut, i, line);
      if short.Go? && short != HunkStep(p, lines, i, line) {
        assert Current(short.parser)[..|file.hunks|] == file.hunks;
      }
    }
  }

  lemma {:induction false} SkipCut(cut: seq<string>, lines: seq<string>, k: nat, i: nat)
    requires Begins(cut, lines, k) && i <= k
    ensures SkipBinary(cut, i) == SkipBinary(lines, i) <= k || SkipBinary(cut, i) >= k
    decreases k - i
  {
    if i < k {
      assert cut[i] == lines[i];
      SkipCut(cut, lines, k, i + 1);
    }
  }

  lemma MetadataStepCut(p: Parser, cut: seq<string>, lines: seq<string>, k: nat, i: nat, line: string, unquote: Unquote)
    requires Begins(cut, lines, k) && i < k && p.file.Some?
    ensures Tracks(p, MetadataStep(p, cut, i, line, unquote), MetadataStep(p, lines, i, line, unquote), k)
  {
    hide Described, Current, SkipBinary;
    SkipCut(cut, lines, k, i + 1);
    MetadataStepKeeps(p, cut, i, line, unquote);
  }

  lemma FileStepCut(p: Parser, cut: seq<string>, lines: seq<string>, k: nat, i: nat, line: string, unquote: Unquote)
    requires Begins(cut, lines, k) && i < k && |line| >= 4
    ensures Tracks(p, FileStep(p, cut, i, line, unquote), FileStep(p, lines, i, line, unquote), k)
  {
    hide HeaderFile, BeforeHeader, EndsEarlierFile, Full;
    if i + 1 < k { assert cut[i + 1] == lines[i + 1]; }
  }

  lemma StepCut(p: Parser, cut: seq<string>, lines: seq<string>, k: nat, i: nat, unquote: Unquote)
    requires Begins(cut, lines, k) && i < k
    ensures Tracks(p, Step(p, cut, i, unquote), Step(p, lines, i, unquote), k)
  {
    hide GitStep, FileStep, HunkStep, MetadataStep, IsMetadata, StripReturn, Tracks;
    var line := StripReturn(cut[i]);
    assert cut[i] == lines[i];
    if "diff --git " <= line { GitStepForward(p, i, line, unquote); SameTracks(p, GitStep(p, i, line, unquote), k); }
    else if "--- " <= line { FileStepCut(p, cut, lines, k, i, line, unquote); }
    else if "@@ " <= line { HunkStepCut(p, cut, lines, k, i, line); }
    else if p.file.Some? && IsMetadata(line) { MetadataStepCut(p, cut, lines, k, i, line, unquote); }
    else { SameTracks(p, Step(p, cut, i, unquote), k); }
  }

  lemma SameTracks(p: Parser, m: Move, k: nat)
    requires m.Go? ==> m.next <= k
    ensures Tracks(p, m, m, k)
  {
  }

  lemma GitStepForward(p: Parser, i: nat, line: string, unquote: Unquote)
    requires |line| >= 11
    ensures var m := GitStep(p, i, line, unquote); m.Go? ==> m.next == i + 1
  {
    hide GitPaths, CreateFile, Full, Finished;
  }

  // ----- the whole parse

  /** Past the cut there is at most an empty line: the parse ends with what it has. */
  lemma ParseEnds(p: Parser, cut: seq<string>, lines: seq<string>, k: nat, i: nat, unquote: Unquote)
    requires Begins(cut, lines, k) && k <= i <= |cut|
    ensures Stops(p, ParseFrom(p, cut, i, unquote).files)
  {
    FinishedKeeps(p);
    if i < |cut| {
      assert cut[i] == "" && |cut| == i + 1;
      BlankLine(p, cut, i, unquote);
    }
  }

  /** The finished files and the current one, and nothing more. */
  predicate Stops(p: Parser, files: seq<ReviewFile>) {
    Continues(p, files) && |files| <= |p.files| + 1 && HunksOf(files, |p.files|) == Current(p)
  }

  lemma StoppedIsCut(p: Parser, q: Parser, short: seq<ReviewFile>, full: seq<ReviewFile>)
    requires Stops(p, short) && Continues(q, full) && q.files == p.files
    requires Current(q) == Current(p) || (Current(p) != [] && Current(q) == LastNoted(Current(p)))
    ensures CutAt(short, full, |p.files|)
  {
    hide LastNoted;
  }

  /** The cut text and the whole one, from the same parser on. */
  lemma {:induction false} LinesCut(p: Parser, cut: seq<string>, lines: seq<string>, k: nat, i: nat, unquote: Unquote)
    returns (n: nat)
    requires Begins(cut, lines, k) && i <= k
    ensures CutAt(ParseFrom(p, cut, i, unquote).files, ParseFrom(p, lines, i, unquote).files, n)
    decreases k - i
  {
    hide Step, Current, HunksOf, Continues, CutAt, Stops, Finished, Salvage, Conclude, LastNoted;
    ParseKeeps(p, lines, i, unquote);
    var less, more := ParseFrom(p, cut, i, unquote).files, ParseFrom(p, lines, i, unquote).files;
    if i == k {
      ParseEnds(p, cut, lines, k, i, unquote);
      StoppedIsCut(p, p, less, more);
      return |p.files|;
    }
    var short, full := Step(p, cut, i, unquote), Step(p, lines, i, unquote);
    StepAdvances(p, cut, i, unquote);
    StepAdvances(p, lines, i, unquote);
    StepCut(p, cut, lines, k, i, unquote);
    if short == full && short.Go? && short.next <= k {
      n := LinesCut(short.parser, cut, lines, k, short.next, unquote);
    } else if short == full && short.Fail? {
      n := SameIsCut(less);
    } else {
      if short.Go? { ParseEnds(short.parser, cut, lines, k, short.next, unquote); } else { SalvageStops(short.parser); }
      if short.parser.files == p.files && Current(short.parser) == Current(p) {
        StoppedIsCut(short.parser, p, less, more);
      } else {
        if full.Go? { ParseKeeps(full.parser, lines, full.next, unquote); } else { SalvageKeeps(full.parser); }
        StoppedIsCut(short.parser, full.parser, less, more);
      }
      n := |short.parser.files|;
    }
  }

  lemma SalvageStops(p: Parser)
    ensures Stops(p, Salvage(p))
  {
    SalvageKeeps(p);
  }

  lemma SameIsCut(files: seq<ReviewFile>) returns (n: nat)
    ensures CutAt(files, files, n)
  {
    n := |files|;
  }

  predicate LineBoundary(source: string, n: nat)
    requires n <= |source|
  {
    n == 0 || n == |source| || source[n] == '\n' || source[n - 1] == '\n'
  }

  lemma SplitCut(source: string, n: nat) returns (k: nat)
    requires n <= |source| && LineBoundary(source, n)
    ensures Begins(SplitAt(source[..n], '\n'), SplitAt(source, '\n'), k)
  {
    if n == |source| {
      assert source[..n] == source;
      k := |SplitAt(source, '\n')|;
    } else if n == 0 {
      k := 0;
    } else if source[n] == '\n' {
      assert source == source[..n] + "\n" + source[n + 1..];
      SplitJoin(source[..n], source[n + 1..], '\n');
      k := |SplitAt(source[..n], '\n')|;
    } else {
      assert source == source[..n - 1] + "\n" + source[n..];
      assert source[..n] == source[..n - 1] + "\n" + "";
      SplitJoin(source[..n - 1], source[n..], '\n');
      SplitJoin(source[..n - 1], "", '\n');
      k := |SplitAt(source[..n - 1], '\n')|;
    }
  }

  /** The files of a patch cut at a line boundary are those of the patch, the last one cut short. */
  lemma TruncationIsSafe(source: string, n: nat, unquote: Unquote) returns (last: nat)
    requires n <= |source| && LineBoundary(source, n)
    ensures CutAt(Parse(source[..n], unquote).files, Parse(source, unquote).files, last)
  {
    hide CutAt, ParseFrom, SplitAt;
    var text := if |source| > MAX_CHARACTERS then source[..MAX_CHARACTERS] else source;
    var lines := SplitAt(text, '\n');
    if n > MAX_CHARACTERS {
      assert source[..n][..MAX_CHARACTERS] == text;
      last := LinesCut(FRESH, lines, lines, |lines|, 0, unquote);
    } else {
      assert source[..n] == text[..n];
      var k := SplitCut(text, n);
      last := LinesCut(FRESH, SplitAt(text[..n], '\n'), lines, k, 0, unquote);
    }
  }
}
