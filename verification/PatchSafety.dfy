/**
  What the reader guarantees of every text: each returned path is safe, the limits hold
  whatever happens, and a failed hunk says truly why it failed.
 */
module PatchSafety {
  import opened Events
  import opened PatchReview

  // ----- safe paths

  /** `text[i..j]` stands between slashes, or at an end. */
  predicate Part(text: string, i: int, j: int) {
    && 0 <= i <= j <= |text| && (i == 0 || text[i - 1] == '/') && (j == |text| || text[j] == '/')
    && forall k :: i <= k < j ==> text[k] != '/'
  }

  /** Relative, printable, without `\`, `%` or `:`, and with no empty, `.` or `..` part. */
  ghost predicate SafePath(path: string) {
    && path != "" && path[0] != '/'
    && (forall k :: 0 <= k < |path| ==> 0x1f < path[k] as int != 0x7f && path[k] !in {'\\', '%', ':'})
    && (forall i, j :: Part(path, i, j) ==> path[i..j] !in {"", ".", ".."})
  }

  lemma {:induction false} NoSlashNoSplit(text: string)
    requires forall k :: 0 <= k < |text| ==> text[k] != '/'
    ensures SplitAt(text, '/') == [text]
  {
    if text != "" {
      NoSlashNoSplit(text[1..]);
      assert [text[0]] + text[1..] == text;
    }
  }

  /** Every part is among the pieces of the split. */
  lemma PartIsPiece(text: string, i: nat, j: nat)
    requires Part(text, i, j)
    ensures text[i..j] in SplitAt(text, '/')
  {
    hide SplitAt;
    var part := text[i..j];
    NoSlashNoSplit(part);
    var tail := text[i..];
    assert SplitAt(tail, '/')[0] == part && SplitAt(tail, '/') != [] by {
      if j < |text| {
        assert tail == part + "/" + text[j + 1..];
        SplitJoin(part, text[j + 1..], '/');
      } else {
        assert tail == part;
      }
    }
    if i > 0 {
      assert text == text[..i - 1] + "/" + tail;
      SplitJoin(text[..i - 1], tail, '/');
      assert SplitAt(text, '/')[|SplitAt(text[..i - 1], '/')|] == part;
    } else {
      assert text == tail;
    }
  }

  /** And every piece is a part. */
  lemma {:induction false} PieceIsPart(text: string, k: nat) returns (i: nat, j: nat)
    requires k < |SplitAt(text, '/')|
    ensures Part(text, i, j) && text[i..j] == SplitAt(text, '/')[k] && (k == 0 ==> i == 0) && (k > 0 ==> i > 0)
  {
    if text == "" { return 0, 0; }
    if text[0] == '/' {
      if k == 0 { return 0, 0; }
      var a, b := PieceIsPart(text[1..], k - 1);
      i, j := a + 1, b + 1;
      assert text[1..][a..b] == text[i..j];
    } else {
      var a, b := PieceIsPart(text[1..], k);
      if k == 0 {
        i, j := 0, b + 1;
        assert text[0..j] == [text[0]] + text[1..][0..b];
      } else {
        i, j := a + 1, b + 1;
        assert text[1..][a..b] == text[i..j];
      }
    }
  }

  /** The reader's test of a path is exactly safety. */
  lemma ReviewableIsSafe(path: string)
    ensures IsReviewablePath(path) <==> SafePath(path)
  {
    hide SplitAt;
    var parts := SplitAt(path, '/');
    if IsReviewablePath(path) {
      forall i, j | Part(path, i, j) ensures path[i..j] !in {"", ".", ".."} {
        PartIsPiece(path, i, j);
        var k :| 0 <= k < |parts| && parts[k] == path[i..j];
      }
    }
    if SafePath(path) {
      forall k | 0 <= k < |parts| ensures parts[k] != "" && parts[k] != "." && parts[k] != ".." {
        var i, j := PieceIsPart(path, k);
        assert path[i..j] !in {"", ".", ".."};
      }
    }
  }

  predicate Named(path: string) { path == DEV_NULL || IsReviewablePath(path) }

  predicate SafeNames(f: ReviewFile) { Named(f.path) && Named(f.oldPath) && Named(f.newPath) }

  predicate AllSafe(files: seq<ReviewFile>) { forall k :: 0 <= k < |files| ==> SafeNames(files[k]) }

  predicate SafeParser(p: Parser) { AllSafe(p.files) && (p.file.Some? ==> SafeNames(p.file.value)) }

  lemma HeaderPathSafe(value: string, strip: bool, unquote: Unquote)
    ensures var r := PathFromHeader(value, strip, unquote); r.Ok? ==> Named(r.value)
  {
    hide IsReviewablePath, NameOf;
  }

  lemma CreatedSafe(oldPath: string, newPath: string)
    requires Named(oldPath) && Named(newPath)
    ensures var r := CreateFile(oldPath, newPath); r.Ok? ==> SafeNames(r.value)
  {
    hide IsReviewablePath;
  }

  lemma DescribedSafe(f: ReviewFile, line: string, unquote: Unquote)
    requires SafeNames(f)
    ensures var r := Described(f, line, unquote); r.Ok? ==> SafeNames(r.value)
  {
    hide PathFromHeader, IsReviewablePath;
    if NamesOld(line) || NamesNew(line) { HeaderPathSafe(AfterWord(line), false, unquote); }
  }

  lemma HeaderFileSafe(line: string, next: string, unquote: Unquote)
    requires |line| >= 4 && |next| >= 4
    ensures var r := HeaderFile(line, next, unquote); r.Ok? ==> SafeNames(r.value)
  {
    hide PathFromHeader, Named, CreateFile, StripReturn;
    HeaderPathSafe(line[4..], true, unquote);
    HeaderPathSafe(StripReturn(next[4..]), true, unquote);
    var old_, new_ := PathFromHeader(line[4..], true, unquote), PathFromHeader(StripReturn(next[4..]), true, unquote);
    if old_.Ok? && new_.Ok? { CreatedSafe(old_.value, new_.value); }
  }

  lemma GitStepSafe(p: Parser, i: nat, line: string, unquote: Unquote)
    requires |line| >= 11 && SafeParser(p)
    ensures SafeParser(GitStep(p, i, line, unquote).parser)
  {
    hide Named, CreateFile, GitPaths;
    var paths := GitPaths(line, unquote);
    if paths.Ok? {
      GitPathsSafe(line, unquote);
      CreatedSafe(paths.value.0, paths.value.1);
    }
  }

  lemma GitPathsSafe(line: string, unquote: Unquote)
    requires |line| >= 11 && GitPaths(line, unquote).Ok?
    ensures Named(GitPaths(line, unquote).value.0) && Named(GitPaths(line, unquote).value.1)
  {
    hide PathFromHeader, Named, GitSplit;
    var header := line[11..];
    var at := GitSplit(header, |header|).value;
    HeaderPathSafe(header[..at], true, unquote);
    HeaderPathSafe(header[at + 1..], true, unquote);
  }

  lemma StepSafe(p: Parser, lines: seq<string>, i: nat, unquote: Unquote)
    requires i < |lines| && SafeParser(p)
    ensures SafeParser(Step(p, lines, i, unquote).parser)
  {
    hide SafeNames, GitStep, IsMetadata, StripReturn, HeaderFile, Described, HunkHeader, RowsFrom, SafeCoordinates, SkipBinary;
    var line := StripReturn(lines[i]);
    if "diff --git " <= line { GitStepSafe(p, i, line, unquote); }
    else if "--- " <= line {
      if i + 1 < |lines| && "+++ " <= lines[i + 1] { HeaderFileSafe(line, lines[i + 1], unquote); HeaderNames(line, lines[i + 1], unquote); }
    }
    else if "@@ " <= line { if p.file.Some? { HunkNames(p.file.value); } }
    else if p.file.Some? && IsMetadata(line) { DescribedSafe(p.file.value, line, unquote); MetadataNames(p.file.value, line, unquote); }
  }

  lemma HeaderNames(line: string, next: string, unquote: Unquote)
    requires |line| >= 4 && |next| >= 4
    ensures var r := HeaderFile(line, next, unquote);
            r.Ok? && SafeNames(r.value) ==> forall metadata :: SafeNames(r.value.(metadata := metadata))
  {
    hide HeaderFile, Named;
  }

  lemma MetadataNames(f: ReviewFile, line: string, unquote: Unquote)
    ensures var r := Described(f, line, unquote);
            r.Ok? && SafeNames(r.value) ==> SafeNames(r.value.(metadata := r.value.metadata + [line]))
  {
    hide Described, Named;
  }

  lemma HunkNames(f: ReviewFile)
    ensures SafeNames(f) ==> forall header, c, rows :: SafeNames(AddHunk(f, header, c, rows))
  {
    hide Named, Contexts;
  }

  lemma {:induction false} ParseSafe(p: Parser, lines: seq<string>, i: nat, unquote: Unquote)
    requires i <= |lines| && SafeParser(p)
    ensures AllSafe(ParseFrom(p, lines, i, unquote).files)
    decreases |lines| - i
  {
    hide Step, SafeNames;
    if i < |lines| {
      StepSafe(p, lines, i, unquote);
      StepAdvances(p, lines, i, unquote);
      var m := Step(p, lines, i, unquote);
      if m.Go? { ParseSafe(m.parser, lines, m.next, unquote); }
    }
  }

  /** Every path of every returned file, with or without a notice, is safe, or says that the side does not exist. */
  lemma ReturnedPathsAreSafe(source: string, unquote: Unquote, f: ReviewFile)
    requires f in Parse(source, unquote).files
    ensures forall path :: path in {f.path, f.oldPath, f.newPath} ==> SafePath(path) || path == "/dev/null"
  {
    hide SafePath, IsReviewablePath, SplitAt, ParseFrom;
    var text := if |source| > MAX_CHARACTERS then source[..MAX_CHARACTERS] else source;
    ParseSafe(FRESH, SplitAt(text, '\n'), 0, unquote);
    assert SafeNames(f);
    ReviewableIsSafe(f.path);
    ReviewableIsSafe(f.oldPath);
    ReviewableIsSafe(f.newPath);
  }

  // ----- limits

  function CountedIn(rows: seq<ReviewLine>): nat {
    if rows == [] then 0
    else CountedIn(rows[..|rows| - 1]) + (if rows[|rows| - 1].kind.NoteRow? then 0 else 1)
  }

  function RowsIn(hunks: seq<ReviewHunk>): nat {
    if hunks == [] then 0 else RowsIn(hunks[..|hunks| - 1]) + CountedIn(hunks[|hunks| - 1].lines)
  }

  function AllRowsIn(files: seq<ReviewFile>): nat {
    if files == [] then 0 else AllRowsIn(files[..|files| - 1]) + RowsIn(files[|files| - 1].hunks)
  }

  function AllHunksIn(files: seq<ReviewFile>): nat {
    if files == [] then 0 else AllHunksIn(files[..|files| - 1]) + |files[|files| - 1].hunks|
  }

  function Open(p: Parser): seq<ReviewHunk> { if p.file.Some? then p.file.value.hunks else [] }

  /** The counters count what is held, and are within the limits. */
  predicate Counting(p: Parser) {
    && |p.files| < MAX_FILES && p.countedHunks <= MAX_HUNKS && p.countedLines <= MAX_LINES
    && AllHunksIn(p.files) + |Open(p)| == p.countedHunks && AllRowsIn(p.files) + RowsIn(Open(p)) == p.countedLines
  }

  predicate Limited(files: seq<ReviewFile>) {
    |files| <= MAX_FILES && AllHunksIn(files) <= MAX_HUNKS && AllRowsIn(files) <= MAX_LINES
  }

  lemma AddsFile(files: seq<ReviewFile>, f: ReviewFile)
    ensures AllHunksIn(files + [f]) == AllHunksIn(files) + |f.hunks| && AllRowsIn(files + [f]) == AllRowsIn(files) + RowsIn(f.hunks)
  {
    assert (files + [f])[..|files|] == files;
  }

  lemma {:induction false} RowsCounted(lines: seq<string>, i: nat, rows: seq<ReviewLine>, oldRead: nat, newRead: nat,
                                       counted: nat, c: Coordinates, deleted: bool)
    requires counted <= MAX_LINES
    ensures var r := RowsFrom(lines, i, rows, oldRead, newRead, counted, c, deleted);
            r.Ok? ==> r.value.counted <= MAX_LINES && r.value.counted - counted == CountedIn(r.value.rows) - CountedIn(rows)
    decreases if i < |lines| then |lines| - i else 0
  {
    assert (rows + [NOTE])[..|rows|] == rows;
    if !(oldRead >= c.oldCount && newRead >= c.newCount) && i < |lines| {
      if lines[i] == NO_NEWLINE && rows != [] {
        RowsCounted(lines, i + 1, rows + [NOTE], oldRead, newRead, counted, c, deleted);
      } else if IsRow(lines[i]) && counted < MAX_LINES {
        var row := Entry(lines[i], c.oldStart + oldRead, c.newStart + newRead, c, deleted);
        assert (rows + [row])[..|rows|] == rows;
        RowsCounted(lines, i + 1, rows + [row], if lines[i][0] != '+' then oldRead + 1 else oldRead,
                    if lines[i][0] != '-' then newRead + 1 else newRead, counted + 1, c, deleted);
      }
    }
  }

  lemma FinishedCounts(p: Parser)
    requires Counting(p)
    ensures Limited(Finished(p).files) && (!Full(p) ==> Counting(Finished(p)))
  {
    if p.file.Some? { AddsFile(p.files, p.file.value); }
  }

  lemma SalvageLimited(p: Parser)
    requires Counting(p) || (p.file.None? && Limited(p.files))
    ensures Limited(Salvage(p))
  {
    if p.file.Some? { AddsFile(p.files, p.file.value); }
  }

  lemma HunkStepCounts(p: Parser, lines: seq<string>, i: nat, line: string)
    requires i < |lines| && Counting(p)
    ensures Counting(HunkStep(p, lines, i, line).parser)
  {
    hide HunkHeader, RowsFrom, SafeCoordinates, Contexts, AllRowsIn, AllHunksIn;
    if p.file.Some? && HunkHeader(line).Some? {
      var c, hunks := HunkHeader(line).value, p.file.value.hunks;
      RowsCounted(lines, i + 1, [], 0, 0, p.countedLines, c, p.file.value.newPath == DEV_NULL);
      var m := HunkStep(p, lines, i, line);
      if m.Go? { assert Open(m.parser)[..|hunks|] == hunks; }
    }
  }

  lemma StepCounts(p: Parser, lines: seq<string>, i: nat, unquote: Unquote)
    requires i < |lines| && Counting(p)
    ensures var m := Step(p, lines, i, unquote);
            Counting(m.parser) || (m.Fail? && m.parser.file.None? && Limited(m.parser.files))
  {
    hide HunkStep, GitPaths, CreateFile, HeaderFile, Described, IsMetadata, StripReturn, SkipBinary, AllHunksIn, AllRowsIn, RowsIn;
    var line := StripReturn(lines[i]);
    FinishedCounts(p);
    NothingIn();
    if "diff --git " <= line { GitHasNoHunks(line, unquote); }
    else if "--- " <= line {
      if i + 1 < |lines| && "+++ " <= lines[i + 1] { HeaderHasNoHunks(line, lines[i + 1], unquote); }
    }
    else if "@@ " <= line { HunkStepCounts(p, lines, i, line); }
    else if p.file.Some? && IsMetadata(line) { DescribedHunks(p.file.value, line, unquote); }
  }

  lemma NothingIn()
    ensures RowsIn([]) == 0
  {
  }

  lemma GitHasNoHunks(line: string, unquote: Unquote)
    requires |line| >= 11
    ensures GitPaths(line, unquote).Ok? ==>
              var r := CreateFile(GitPaths(line, unquote).value.0, GitPaths(line, unquote).value.1); r.Ok? ==> r.value.hunks == []
  {
    hide GitPaths;
  }

  lemma HeaderHasNoHunks(line: string, next: string, unquote: Unquote)
    requires |line| >= 4 && |next| >= 4
    ensures var r := HeaderFile(line, next, unquote); r.Ok? ==> r.value.hunks == []
  {
    hide PathFromHeader;
  }

  lemma DescribedHunks(f: ReviewFile, line: string, unquote: Unquote)
    ensures var r := Described(f, line, unquote); r.Ok? ==> r.value.hunks == f.hunks
  {
    hide PathFromHeader;
  }

  lemma {:induction false} ParseLimited(p: Parser, lines: seq<string>, i: nat, unquote: Unquote)
    requires i <= |lines| && Counting(p)
    ensures Limited(ParseFrom(p, lines, i, unquote).files)
    decreases |lines| - i
  {
    hide Step, Counting, Limited, Finished, Salvage, Full;
    if i == |lines| {
      FinishedCounts(p);
    } else {
      StepCounts(p, lines, i, unquote);
      StepAdvances(p, lines, i, unquote);
      var m := Step(p, lines, i, unquote);
      if m.Go? { ParseLimited(m.parser, lines, m.next, unquote); } else { SalvageLimited(m.parser); }
    }
  }

  /** However large the text, at most 100 files, 1000 hunks and 20000 rows are returned. */
  lemma LimitsHold(source: string, unquote: Unquote)
    ensures var files := Parse(source, unquote).files;
            |files| <= 100 && AllHunksIn(files) <= 1000 && AllRowsIn(files) <= 20000
  {
    hide SplitAt, ParseFrom, Counting, Limited;
    var text := if |source| > MAX_CHARACTERS then source[..MAX_CHARACTERS] else source;
    NothingCounted();
    ParseLimited(FRESH, SplitAt(text, '\n'), 0, unquote);
    LimitedMeans(Parse(source, unquote).files);
  }

  lemma LimitedMeans(files: seq<ReviewFile>)
    requires Limited(files)
    ensures |files| <= 100 && AllHunksIn(files) <= 1000 && AllRowsIn(files) <= 20000
  {
    hide AllHunksIn, AllRowsIn;
  }

  lemma NothingCounted()
    ensures Counting(FRESH)
  {
  }

  // ----- why a hunk failed

  /** Lines that rows may be read from. */
  predicate Readable(lines: seq<string>, i: nat, j: nat) {
    j <= |lines| && forall k :: i <= k < j ==> IsRow(lines[k]) || lines[k] == NO_NEWLINE
  }

  /** The rows up to `j` were readable, and `j` is where reading stopped, for the reason given. */
  predicate StopsAt(lines: seq<string>, i: nat, j: nat, notice: Notice) {
    && i <= j && Readable(lines, i, j)
    && (notice == EndsInHunk <==> j == |lines|)
    && (notice == BadRow ==> j < |lines| && !IsRow(lines[j]))
    && (notice == CountMismatch || notice == TooManyLines ==> j < |lines| && IsRow(lines[j]))
  }

  /** A hunk fails because the text ends in it, at a line that is no row, or at a row too many. */
  lemma {:induction false} RowsFailTruly(lines: seq<string>, i: nat, rows: seq<ReviewLine>, oldRead: nat, newRead: nat,
                                         counted: nat, c: Coordinates, deleted: bool) returns (j: nat)
    requires i <= |lines| && RowsFrom(lines, i, rows, oldRead, newRead, counted, c, deleted).Err?
    ensures var notice := RowsFrom(lines, i, rows, oldRead, newRead, counted, c, deleted).notice;
            StopsAt(lines, i, j, notice) && notice in {EndsInHunk, BadRow, CountMismatch, TooManyLines}
            && (notice == TooManyLines <==> j < |lines| && IsRow(lines[j]) && notice != CountMismatch)
    decreases |lines| - i
  {
    j := i;
    if i < |lines| {
      if lines[i] == NO_NEWLINE && rows != [] {
        j := RowsFailTruly(lines, i + 1, rows + [NOTE], oldRead, newRead, counted, c, deleted);
      } else if IsRow(lines[i]) {
        var o := if lines[i][0] != '+' then oldRead + 1 else oldRead;
        var n := if lines[i][0] != '-' then newRead + 1 else newRead;
        if o <= c.oldCount && n <= c.newCount && counted < MAX_LINES {
          j := RowsFailTruly(lines, i + 1, rows + [Entry(lines[i], c.oldStart + oldRead, c.newStart + newRead, c, deleted)],
                             o, n, counted + 1, c, deleted);
        }
      }
    }
  }

  // ----- line ends, timestamps and quoted names

  lemma {:induction false} RowsSeeWhatFollows(a: seq<string>, b: seq<string>, i: nat, rows: seq<ReviewLine>, oldRead: nat, newRead: nat,
                                              counted: nat, c: Coordinates, deleted: bool)
    requires |a| == |b| && i <= |a| && a[i..] == b[i..]
    ensures RowsFrom(a, i, rows, oldRead, newRead, counted, c, deleted) == RowsFrom(b, i, rows, oldRead, newRead, counted, c, deleted)
    decreases |a| - i
  {
    hide Entry;
    if i < |a| {
      assert a[i] == a[i..][0] == b[i..][0] == b[i];
      assert a[i + 1..] == a[i..][1..] == b[i..][1..] == b[i + 1..];
      if !(oldRead >= c.oldCount && newRead >= c.newCount) {
        if a[i] == NO_NEWLINE && rows != [] {
          RowsSeeWhatFollows(a, b, i + 1, rows + [NOTE], oldRead, newRead, counted, c, deleted);
        } else if IsRow(a[i]) {
          RowsSeeWhatFollows(a, b, i + 1, rows + [Entry(a[i], c.oldStart + oldRead, c.newStart + newRead, c, deleted)],
                             if a[i][0] != '+' then oldRead + 1 else oldRead,
                             if a[i][0] != '-' then newRead + 1 else newRead, counted + 1, c, deleted);
        }
      }
    }
  }

  lemma {:induction false} SkipSeesWhatFollows(a: seq<string>, b: seq<string>, i: nat)
    requires |a| == |b| && i <= |a| && a[i..] == b[i..]
    ensures SkipBinary(a, i) == SkipBinary(b, i)
    decreases |a| - i
  {
    if i < |a| {
      assert a[i] == a[i..][0] == b[i..][0] == b[i];
      assert a[i + 1..] == a[i..][1..] == b[i..][1..] == b[i + 1..];
      SkipSeesWhatFollows(a, b, i + 1);
    }
  }

  lemma ReturnStripped(line: string)
    requires line == "" || line[|line| - 1] != '\r'
    ensures StripReturn(line + "\r") == line == StripReturn(line)
  {
    assert (line + "\r")[..|line|] == line;
  }

  /** A header, metadata or blank line means the same with a carriage return at its end. */
  lemma CarriageReturnIsIgnored(p: Parser, lines: seq<string>, i: nat, unquote: Unquote)
    requires i < |lines| && (lines[i] == "" || lines[i][|lines[i]| - 1] != '\r')
    ensures Step(p, lines[i := lines[i] + "\r"], i, unquote) == Step(p, lines, i, unquote)
  {
    hide GitStep, HeaderFile, HunkHeader, RowsFrom, SkipBinary, Described, IsMetadata, BeforeHeader, EndsEarlierFile, Full, StripReturn;
    var line, crlf := lines[i], lines[i := lines[i] + "\r"];
    ReturnStripped(line);
    assert crlf[i + 1..] == lines[i + 1..];
    if i + 1 < |lines| { assert crlf[i + 1] == lines[i + 1]; }
    SkipSeesWhatFollows(crlf, lines, i + 1);
    if p.file.Some? && HunkHeader(line).Some? {
      RowsSeeWhatFollows(crlf, lines, i + 1, [], 0, 0, p.countedLines, HunkHeader(line).value, p.file.value.newPath == DEV_NULL);
    }
  }

  lemma {:induction false} BeforeFirst(text: string, c: char, rest: string)
    requires forall k :: 0 <= k < |text| ==> text[k] != c
    ensures Before(text + [c] + rest, c) == text
  {
    if text != "" {
      assert (text + [c] + rest)[1..] == text[1..] + [c] + rest;
      BeforeFirst(text[1..], c, rest);
    } else {
      assert ("" + [c] + rest)[0] == c;
    }
  }

  /** What follows a tab, such as a timestamp, is no part of an unquoted name. */
  lemma TimestampIsIgnored(name: string, rest: string, unquote: Unquote)
    requires name != "" && name[0] != '"' && forall k :: 0 <= k < |name| ==> name[k] != '\t'
    ensures NameOf(name + "\t" + rest, unquote) == Ok(name)
  {
    assert (name + "\t" + rest)[0] == name[0];
    BeforeFirst(name, '\t', rest);
  }

  /** From `i` the quoted token closes exactly at its end. */
  predicate TokenCloses(token: string, i: nat)
    decreases if i < |token| then |token| - i else 0
  {
    i < |token| &&
    if token[i] == '"' then i + 1 == |token|
    else if token[i] == '\\' then i + 1 < |token| && !LineEnd(token[i + 1]) && TokenCloses(token, i + 2)
    else TokenCloses(token, i + 1)
  }

  lemma {:induction false} TokenEnds(token: string, i: nat, rest: string)
    requires TokenCloses(token, i)
    ensures QuoteEnd(token + rest, i) == Some(|token|)
    decreases |token| - i
  {
    hide LineEnd;
    assert (token + rest)[i] == token[i];
    if token[i] == '\\' {
      assert (token + rest)[i + 1] == token[i + 1];
      TokenEnds(token, i + 2, rest);
    } else if token[i] != '"' { TokenEnds(token, i + 1, rest); }
  }

  /** A quoted name is what its quoting decodes to; text after it other than a tab is refused. */
  lemma QuotedNameReads(token: string, rest: string, unquote: Unquote)
    requires token != "" && token[0] == '"' && TokenCloses(token, 1)
    ensures (rest == "" || rest[0] == '\t') && unquote(token).Some? ==> NameOf(token + rest, unquote) == Ok(unquote(token).value)
    ensures (rest == "" || rest[0] == '\t') && unquote(token).None? ==> NameOf(token + rest, unquote) == Err(BadQuotedName)
    ensures rest != "" && rest[0] != '\t' ==> NameOf(token + rest, unquote) == Err(BadQuotedName)
  {
    TokenEnds(token, 1, rest);
    assert (token + rest)[..|token|] == token && (token + rest)[0] == '"';
    if rest != "" { assert (token + rest)[|token|] == rest[0]; }
  }

  /** The side letter is stripped from a header's name, once. */
  lemma SideIsStripped(side: string, name: string, unquote: Unquote)
    requires side in {"a/", "b/"} && IsReviewablePath(name)
    ensures PathFromHeader(side + name, true, unquote) == Ok(name)
  {
    hide SplitAt, Named;
    var value := side + name;
    assert value[0] == side[0] && value[..2] == side && value[2..] == name;
    forall k | 0 <= k < |value| ensures value[k] != '\t' { if k >= 2 { assert value[k] == name[k - 2]; } }
    NoTab(value);
  }

  lemma {:induction false} NoTab(text: string)
    requires forall k :: 0 <= k < |text| ==> text[k] != '\t'
    ensures Before(text, '\t') == text
  {
    if text != "" { NoTab(text[1..]); }
  }
}
