/**
  The unified-diff reader.  Hunks are read by the line counts of their header, never by
  what a row looks like; hard limits bound the work; an error keeps the complete hunks
  read so far and reports a notice.

  Decoding a quoted git filename is a parameter (`Unquote`): it yields the decoded name,
  or nothing when the quoting is malformed.
 */
module PatchReview {
  import opened Events

  const MAX_CHARACTERS: nat := 1_000_000
  const MAX_FILES: nat := 100
  const MAX_LINES: nat := 20_000
  const MAX_HUNKS: nat := 1_000
  const MAX_SAFE: nat := 9_007_199_254_740_991

  const DEV_NULL := "/dev/null"
  const NO_NEWLINE := "\\ No newline at end of file"

  type Unquote = string -> Option<string>

  datatype RowKind = Context | Addition | Deletion | NoteRow

  datatype ReviewLine = ReviewLine(
    kind: RowKind, text: string, oldLine: Option<nat>, newLine: Option<nat>, target: Option<nat>)

  datatype ReviewHunk = ReviewHunk(header: string, oldStart: nat, newStart: nat, lines: seq<ReviewLine>)

  datatype Status = Added | Deleted | Renamed | Modified | Binary

  datatype ReviewFile = ReviewFile(
    path: string, oldPath: string, newPath: string, status: Status, hunks: seq<ReviewHunk>,
    additions: int, deletions: int, metadata: seq<string>)

  datatype Notice =
    | TooManyFiles | TooManyHunks | TooManyLines | Clipped
    | IncompleteFileHeader | HunkWithoutFile | BadHunkHeader | BadCoordinates
    | EndsInHunk | BadRow | CountMismatch
    | BadGitHeader | BadQuotedName | UnsafeName | NoFile | UnsupportedFormat

  datatype Result<+T> = Ok(value: T) | Err(notice: Notice)

  datatype Review = Review(files: seq<ReviewFile>, notice: Option<Notice>)

  // ----- text

  function SplitAt(text: string, c: char): (r: seq<string>)
    ensures |r| > 0
  {
    if text == "" then [""]
    else
      var rest := SplitAt(text[1..], c);
      if text[0] == c then [""] + rest else [[text[0]] + rest[0]] + rest[1..]
  }

  lemma {:induction false} SplitJoin(a: string, b: string, c: char)
    ensures SplitAt(a + [c] + b, c) == SplitAt(a, c) + SplitAt(b, c)
  {
    if a == "" {
      assert (a + [c] + b)[1..] == b;
    } else {
      assert (a + [c] + b)[1..] == a[1..] + [c] + b;
      SplitJoin(a[1..], b, c);
    }
  }

  function StripReturn(line: string): string {
    if line != "" && line[|line| - 1] == '\r' then line[..|line| - 1] else line
  }

  function Before(text: string, c: char): string {
    if text == "" || text[0] == c then "" else [text[0]] + Before(text[1..], c)
  }

  predicate LineEnd(c: char) { c in {'\n', '\r', '\U{2028}', '\U{2029}'} }

  predicate OneLine(text: string) { forall k :: 0 <= k < |text| ==> !LineEnd(text[k]) }

  // ----- file names

  predicate Unreviewable(c: char) {
    c in {'\\', '%', ':'} || c as int <= 0x1f || c as int == 0x7f
  }

  predicate IsReviewablePath(path: string) {
    && path != "" && path != DEV_NULL && path[0] != '/'
    && (forall k :: 0 <= k < |path| ==> !Unreviewable(path[k]))
    && (var parts := SplitAt(path, '/'); forall k :: 0 <= k < |parts| ==> parts[k] != "" && parts[k] != "." && parts[k] != "..")
  }

  /** The index after the closing quote of a quoted token starting at 0, scanning from `i`. */
  function QuoteEnd(text: string, i: nat): (r: Option<nat>)
    decreases |text| - i
    ensures r.Some? ==> i < r.value <= |text|
  {
    if i >= |text| then None
    else if text[i] == '"' then Some(i + 1)
    else if text[i] != '\\' then QuoteEnd(text, i + 1)
    else if i + 1 < |text| && !LineEnd(text[i + 1]) then QuoteEnd(text, i + 2)
    else None
  }

  function NameOf(value: string, unquote: Unquote): Result<string> {
    if value != "" && value[0] == '"' then
      var end := QuoteEnd(value, 1);
      if end.None? || (end.value < |value| && value[end.value] != '\t') then Err(BadQuotedName)
      else
        var name := unquote(value[..end.value]);
        if name.Some? then Ok(name.value) else Err(BadQuotedName)
    else Ok(Before(value, '\t'))
  }

  function StripSide(name: string): string {
    if "a/" <= name || "b/" <= name then name[2..] else name
  }

  function PathFromHeader(value: string, strip: bool, unquote: Unquote): Result<string> {
    var read := NameOf(value, unquote);
    if read.Err? then Err(read.notice)
    else if read.value == DEV_NULL then Ok(DEV_NULL)
    else
      var name := if strip then StripSide(read.value) else read.value;
      if IsReviewablePath(name) then Ok(name) else Err(UnsafeName)
  }

  /** A quoted token, or a name of one side, filling the whole text. */
  predicate WholeName(text: string, side: string) {
    (text != "" && text[0] == '"' && QuoteEnd(text, 1) == Some(|text|))
    || (side <= text && |text| > |side| && OneLine(text[|side|..]))
  }

  /** The last space, at or before `p`, that splits a git header into an old and a new name. */
  function GitSplit(header: string, p: nat): (r: Option<nat>)
    requires p <= |header|
    ensures r.Some? ==> r.value < p
  {
    if p == 0 then None
    else if header[p - 1] == ' ' && WholeName(header[..p - 1], "a/") && WholeName(header[p..], "b/") then Some(p - 1)
    else GitSplit(header, p - 1)
  }

  function GitPaths(line: string, unquote: Unquote): Result<(string, string)>
    requires |line| >= 11
  {
    var header := line[11..];
    var at := GitSplit(header, |header|);
    if at.None? then Err(BadGitHeader)
    else
      var old_ := PathFromHeader(header[..at.value], true, unquote);
      if old_.Err? then Err(old_.notice)
      else
        var new_ := PathFromHeader(header[at.value + 1..], true, unquote);
        if new_.Err? then Err(new_.notice) else Ok((old_.value, new_.value))
  }

  function CreateFile(oldPath: string, newPath: string): (r: Result<ReviewFile>)
    ensures r.Err? <==> oldPath == DEV_NULL && newPath == DEV_NULL
    ensures r.Ok? ==> r.value.hunks == [] && r.value.additions == 0 && r.value.deletions == 0
    ensures r.Ok? ==> r.value.path != DEV_NULL && r.value.path in {oldPath, newPath} && (newPath != DEV_NULL ==> r.value.path == newPath)
    ensures r.Ok? ==> (r.value.status == Added <==> oldPath == DEV_NULL) && (r.value.status == Deleted <==> newPath == DEV_NULL)
    ensures r.Ok? ==> (r.value.status == Modified <==> oldPath == newPath)
  {
    if oldPath == DEV_NULL && newPath == DEV_NULL then Err(NoFile)
    else Ok(ReviewFile(
      if newPath == DEV_NULL then oldPath else newPath, oldPath, newPath,
      if oldPath == DEV_NULL then Added else if newPath == DEV_NULL then Deleted
      else if oldPath != newPath then Renamed else Modified,
      [], 0, 0, []))
  }

  // ----- hunk headers

  predicate Digit(c: char) { '0' <= c <= '9' }

  function DigitValue(c: char): (v: nat)
    requires Digit(c)
    ensures v < 10
  {
    (c as int) - ('0' as int)
  }

  function DigitsFrom(text: string, i: nat): (j: nat)
    requires i <= |text|
    ensures i <= j <= |text|
    ensures forall k :: i <= k < j ==> Digit(text[k])
    ensures j < |text| ==> !Digit(text[j])
    decreases |text| - i
  {
    if i < |text| && Digit(text[i]) then DigitsFrom(text, i + 1) else i
  }

  function Value(digits: string): nat
    requires forall k :: 0 <= k < |digits| ==> Digit(digits[k])
  {
    if digits == "" then 0
    else Value(digits[..|digits| - 1]) * 10 + DigitValue(digits[|digits| - 1])
  }

  datatype Side = Side(start: nat, count: nat)

  /** One side of a hunk header: a start, and a count that defaults to one. */
  function ReadSide(text: string, i: nat): (r: Option<(Side, nat)>)
    requires i <= |text|
    ensures r.Some? ==> i < r.value.1 <= |text|
  {
    var j := DigitsFrom(text, i);
    if j == i then None
    else if j < |text| && text[j] == ',' then
      var k := DigitsFrom(text, j + 1);
      if k == j + 1 then None else Some((Side(Value(text[i..j]), Value(text[j + 1..k])), k))
    else Some((Side(Value(text[i..j]), 1), j))
  }

  datatype Coordinates = Coordinates(oldStart: nat, oldCount: nat, newStart: nat, newCount: nat)

  function HunkHeader(line: string): Option<Coordinates> {
    if !("@@ -" <= line) then None
    else
      var left := ReadSide(line, 4);
      if left.None? then None
      else
        var i := left.value.1;
        if !(" +" <= line[i..]) then None
        else
          var right := ReadSide(line, i + 2);
          if right.None? then None
          else
            var j := right.value.1;
            if !(" @@" <= line[j..]) || !OneLine(line[j + 3..]) then None
            else Some(Coordinates(left.value.0.start, left.value.0.count, right.value.0.start, right.value.0.count))
  }

  predicate SafeCoordinates(c: Coordinates) {
    && c.oldStart + c.oldCount <= MAX_SAFE && c.newStart + c.newCount <= MAX_SAFE
    && (c.oldStart == 0 ==> c.oldCount == 0) && (c.newStart == 0 ==> c.newCount == 0)
  }

  // ----- hunk rows

  function Max(a: nat, b: nat): nat { if a < b then b else a }
  function Min(a: nat, b: nat): nat { if a < b then a else b }

  predicate IsRow(row: string) { row != "" && row[0] in {' ', '+', '-'} }

  const NOTE := ReviewLine(NoteRow, NO_NEWLINE, None, None, None)

  function Entry(row: string, oldLine: nat, newLine: nat, c: Coordinates, deleted: bool): ReviewLine
    requires IsRow(row)
  {
    var target := if deleted then oldLine
                  else if row[0] == '-' then Min(newLine, Max(1, if c.newStart + c.newCount > 0 then c.newStart + c.newCount - 1 else 0))
                  else newLine;
    ReviewLine(if row[0] == '+' then Addition else if row[0] == '-' then Deletion else Context,
               row[1..],
               if row[0] != '+' then Some(oldLine) else None,
               if row[0] != '-' then Some(newLine) else None,
               Some(Max(1, target)))
  }

  datatype HunkRead = HunkRead(rows: seq<ReviewLine>, next: nat, counted: nat)

  /** Read rows from line `i` until both counts are met; `rows` are read already. */
  function RowsFrom(lines: seq<string>, i: nat, rows: seq<ReviewLine>, oldRead: nat, newRead: nat, counted: nat,
                    c: Coordinates, deleted: bool): Result<HunkRead>
    decreases if i < |lines| then |lines| - i else 0
  {
    if oldRead >= c.oldCount && newRead >= c.newCount then
      if i < |lines| && lines[i] == NO_NEWLINE then Ok(HunkRead(rows + [NOTE], i + 1, counted))
      else Ok(HunkRead(rows, i, counted))
    else if i >= |lines| then Err(EndsInHunk)
    else if lines[i] == NO_NEWLINE && rows != [] then
      RowsFrom(lines, i + 1, rows + [NOTE], oldRead, newRead, counted, c, deleted)
    else if !IsRow(lines[i]) then Err(BadRow)
    else
      var o := if lines[i][0] != '+' then oldRead + 1 else oldRead;
      var n := if lines[i][0] != '-' then newRead + 1 else newRead;
      if o > c.oldCount || n > c.newCount then Err(CountMismatch)
      else if counted + 1 > MAX_LINES then Err(TooManyLines)
      else RowsFrom(lines, i + 1, rows + [Entry(lines[i], c.oldStart + oldRead, c.newStart + newRead, c, deleted)],
                    o, n, counted + 1, c, deleted)
  }

  function Contexts(rows: seq<ReviewLine>): nat {
    if rows == [] then 0
    else Contexts(rows[..|rows| - 1]) + (if rows[|rows| - 1].kind.Context? then 1 else 0)
  }

  // ----- the parser

  datatype Parser = Parser(
    files: seq<ReviewFile>, file: Option<ReviewFile>, headerSeen: bool, countedLines: nat, countedHunks: nat)

  const FRESH := Parser([], None, false, 0, 0)

  /** One step: on to line `next`, or a failure that leaves the parser as it was then. */
  datatype Move = Go(next: nat, parser: Parser) | Fail(parser: Parser, notice: Notice)

  predicate Kept(p: Parser) {
    p.file.Some? && (p.headerSeen || p.file.value.metadata != [] || p.file.value.hunks != [])
  }

  function Finished(p: Parser): Parser {
    p.(files := if Kept(p) then p.files + [p.file.value] else p.files, file := None, headerSeen := false)
  }

  predicate Full(p: Parser) { |Finished(p).files| >= MAX_FILES }

  function GitStep(p: Parser, i: nat, line: string, unquote: Unquote): Move
    requires |line| >= 11
  {
    var q := Finished(p);
    if Full(p) then Fail(q, TooManyFiles)
    else
      var paths := GitPaths(line, unquote);
      if paths.Err? then Fail(q, paths.notice)
      else
        var file := CreateFile(paths.value.0, paths.value.1);
        if file.Err? then Fail(q, file.notice) else Go(i + 1, q.(file := Some(file.value)))
  }

  /** A new file header ends the file being read, once that has a header or hunks of its own. */
  predicate EndsEarlierFile(p: Parser) { p.headerSeen || (p.file.Some? && p.file.value.hunks != []) }

  function BeforeHeader(p: Parser): Parser { if EndsEarlierFile(p) then Finished(p) else p }

  function HeaderFile(line: string, next: string, unquote: Unquote): Result<ReviewFile>
    requires |line| >= 4 && |next| >= 4
  {
    var old_ := PathFromHeader(line[4..], true, unquote);
    if old_.Err? then Err(old_.notice)
    else
      var new_ := PathFromHeader(StripReturn(next[4..]), true, unquote);
      if new_.Err? then Err(new_.notice) else CreateFile(old_.value, new_.value)
  }

  function FileStep(p: Parser, lines: seq<string>, i: nat, line: string, unquote: Unquote): Move
    requires i < |lines| && |line| >= 4
  {
    if !(i + 1 < |lines| && "+++ " <= lines[i + 1]) then Fail(p, IncompleteFileHeader)
    else
      var q := BeforeHeader(p);
      if EndsEarlierFile(p) && Full(p) then Fail(q, TooManyFiles)
      else
        var file := HeaderFile(line, lines[i + 1], unquote);
        if file.Err? then Fail(q, file.notice)
        else Go(i + 2, q.(file := Some(file.value.(metadata := if q.file.Some? then q.file.value.metadata else [])),
                          headerSeen := true))
  }

  function AddHunk(file: ReviewFile, header: string, c: Coordinates, rows: seq<ReviewLine>): ReviewFile {
    file.(hunks := file.hunks + [ReviewHunk(header, c.oldStart, c.newStart, rows)],
          additions := file.additions + c.newCount - Contexts(rows),
          deletions := file.deletions + c.oldCount - Contexts(rows))
  }

  function HunkStep(p: Parser, lines: seq<string>, i: nat, line: string): Move
    requires i < |lines|
  {
    if p.file.None? || !p.headerSeen then Fail(p, HunkWithoutFile)
    else
      var c := HunkHeader(line);
      if c.None? then Fail(p, BadHunkHeader)
      else if !SafeCoordinates(c.value) then Fail(p, BadCoordinates)
      else if p.countedHunks + 1 > MAX_HUNKS then Fail(p, TooManyHunks)
      else
        var read := RowsFrom(lines, i + 1, [], 0, 0, p.countedLines, c.value, p.file.value.newPath == DEV_NULL);
        if read.Err? then Fail(p, read.notice)
        else Go(read.value.next,
                p.(file := Some(AddHunk(p.file.value, line, c.value, read.value.rows)),
                   countedLines := read.value.counted, countedHunks := p.countedHunks + 1))
  }

  const METADATA: seq<string> := [
    "index ", "old mode ", "new mode ", "new file mode ", "deleted file mode ", "similarity index ",
    "dissimilarity index ", "rename from ", "rename to ", "copy from ", "copy to ", "Binary files ", "GIT binary patch"]

  predicate IsMetadata(line: string) {
    exists k :: 0 <= k < |METADATA| && METADATA[k] <= line
  }

  predicate NamesOld(line: string) { "rename from " <= line || "copy from " <= line }
  predicate NamesNew(line: string) { "rename to " <= line || "copy to " <= line }

  function AfterWord(line: string): string
    requires NamesOld(line) || NamesNew(line)
  {
    if "rename from " <= line then line[12..]
    else if "copy from " <= line then line[10..]
    else if "rename to " <= line then line[10..]
    else line[8..]
  }

  function Described(file: ReviewFile, line: string, unquote: Unquote): Result<ReviewFile> {
    if NamesOld(line) then
      var name := PathFromHeader(AfterWord(line), false, unquote);
      if name.Err? then Err(name.notice) else Ok(file.(oldPath := name.value))
    else if NamesNew(line) then
      var name := PathFromHeader(AfterWord(line), false, unquote);
      if name.Err? then Err(name.notice)
      else Ok(file.(newPath := name.value, path := name.value, status := Renamed))
    else if "new file mode " <= line then Ok(file.(oldPath := DEV_NULL, status := Added))
    else if "deleted file mode " <= line then Ok(file.(newPath := DEV_NULL, status := Deleted))
    else if "Binary files " <= line || line == "GIT binary patch" then Ok(file.(status := Binary))
    else Ok(file)
  }

  function SkipBinary(lines: seq<string>, i: nat): (j: nat)
    requires i <= |lines|
    ensures i <= j <= |lines|
    ensures forall k :: i <= k < j ==> !("diff --git " <= lines[k])
    ensures j < |lines| ==> "diff --git " <= lines[j]
    decreases |lines| - i
  {
    if i < |lines| && !("diff --git " <= lines[i]) then SkipBinary(lines, i + 1) else i
  }

  function MetadataStep(p: Parser, lines: seq<string>, i: nat, line: string, unquote: Unquote): Move
    requires i < |lines| && p.file.Some?
  {
    var file := Described(p.file.value, line, unquote);
    if file.Err? then Fail(p, file.notice)
    else Go(if line == "GIT binary patch" then SkipBinary(lines, i + 1) else i + 1,
            p.(file := Some(file.value.(metadata := file.value.metadata + [line]))))
  }

  function Step(p: Parser, lines: seq<string>, i: nat, unquote: Unquote): Move
    requires i < |lines|
  {
    var line := StripReturn(lines[i]);
    if "diff --git " <= line then GitStep(p, i, line, unquote)
    else if "--- " <= line then FileStep(p, lines, i, line, unquote)
    else if "@@ " <= line then HunkStep(p, lines, i, line)
    else if p.file.Some? && IsMetadata(line) then MetadataStep(p, lines, i, line, unquote)
    else if line == "" || line == "\r" then Go(i + 1, p)
    else Fail(p, UnsupportedFormat)
  }

  /** What an error keeps: the completed hunks of the file being read. */
  function Salvage(p: Parser): seq<ReviewFile> {
    if p.file.Some? && p.file.value.hunks != [] then p.files + [p.file.value] else p.files
  }

  function Conclude(p: Parser): Review {
    if Full(p) then Review(Finished(p).files, Some(TooManyFiles)) else Review(Finished(p).files, None)
  }

  lemma {:induction false} RowsAdvance(lines: seq<string>, i: nat, rows: seq<ReviewLine>, oldRead: nat, newRead: nat,
                                       counted: nat, c: Coordinates, deleted: bool)
    requires i <= |lines|
    ensures var r := RowsFrom(lines, i, rows, oldRead, newRead, counted, c, deleted);
            r.Ok? ==> i <= r.value.next <= |lines|
    decreases |lines| - i
  {
    if i < |lines| && !(oldRead >= c.oldCount && newRead >= c.newCount) {
      if lines[i] == NO_NEWLINE && rows != [] {
        RowsAdvance(lines, i + 1, rows + [NOTE], oldRead, newRead, counted, c, deleted);
      } else if IsRow(lines[i]) {
        RowsAdvance(lines, i + 1, rows + [Entry(lines[i], c.oldStart + oldRead, c.newStart + newRead, c, deleted)],
                    if lines[i][0] != '+' then oldRead + 1 else oldRead,
                    if lines[i][0] != '-' then newRead + 1 else newRead, counted + 1, c, deleted);
      }
    }
  }

  /** Every step that goes on moves forward, within the text. */
  lemma StepAdvances(p: Parser, lines: seq<string>, i: nat, unquote: Unquote)
    requires i < |lines|
    ensures var m := Step(p, lines, i, unquote); m.Go? ==> i < m.next <= |lines|
  {
    var line := StripReturn(lines[i]);
    if "@@ " <= line && !("--- " <= line) && !("diff --git " <= line) && HunkHeader(line).Some? && p.file.Some? {
      RowsAdvance(lines, i + 1, [], 0, 0, p.countedLines, HunkHeader(line).value, p.file.value.newPath == DEV_NULL);
    }
  }

  lemma BlankLine(p: Parser, lines: seq<string>, i: nat, unquote: Unquote)
    requires i < |lines| && lines[i] == ""
    ensures Step(p, lines, i, unquote) == Go(i + 1, p)
  {
    assert StripReturn(lines[i]) == "";
    hide GitStep, FileStep, HunkStep, MetadataStep;
  }

  function ParseFrom(p: Parser, lines: seq<string>, i: nat, unquote: Unquote): Review
    requires i <= |lines|
    decreases |lines| - i
  {
    if i == |lines| then Conclude(p)
    else
      StepAdvances(p, lines, i, unquote);
      match Step(p, lines, i, unquote)
      case Go(next, q) => ParseFrom(q, lines, next, unquote)
      case Fail(q, notice) => Review(Salvage(q), Some(notice))
  }

  function ParseLines(lines: seq<string>, unquote: Unquote): Review { ParseFrom(FRESH, lines, 0, unquote) }

  function Parse(source: string, unquote: Unquote): Review {
    if |source| > MAX_CHARACTERS then
      var review := ParseLines(SplitAt(source[..MAX_CHARACTERS], '\n'), unquote);
      if review.notice.None? then review.(notice := Some(Clipped)) else review
    else ParseLines(SplitAt(source, '\n'), unquote)
  }
}
