/**
  Reading back the text of one file: its `---` and `+++` lines, and its hunks, whatever
  the rows look like.
 */
module PatchRoundTrip {
  import opened Events
  import opened PatchReview

  datatype Row = Keep(kept: string) | Add(added: string) | Remove(removed: string) | NoNewline

  /** `section` is the text after the second `@@`; `brief` leaves out counts of one. */
  datatype PatchHunk = PatchHunk(oldStart: nat, newStart: nat, rows: seq<Row>, section: string, brief: bool)

  /** A side that does not exist is named `/dev/null`. */
  datatype PatchFile = PatchFile(oldPath: string, newPath: string, hunks: seq<PatchHunk>)

  // ----- printing

  function Dec(n: nat): string {
    (if n < 10 then "" else Dec(n / 10)) + [DigitOf(n % 10)]
  }

  function SideText(start: nat, count: nat, brief: bool): string {
    if brief && count == 1 then Dec(start) else Dec(start) + "," + Dec(count)
  }

  function RowText(row: Row): string {
    match row
    case Keep(t) => " " + t
    case Add(t) => "+" + t
    case Remove(t) => "-" + t
    case NoNewline => NO_NEWLINE
  }

  function OldWeight(row: Row): nat { if row.Keep? || row.Remove? then 1 else 0 }
  function NewWeight(row: Row): nat { if row.Keep? || row.Add? then 1 else 0 }
  function RowWeight(row: Row): nat { if row.NoNewline? then 0 else 1 }

  function Sum(rows: seq<Row>, w: Row -> nat): nat {
    if rows == [] then 0 else Sum(rows[..|rows| - 1], w) + w(rows[|rows| - 1])
  }

  function Extent(h: PatchHunk): Coordinates {
    Coordinates(h.oldStart, Sum(h.rows, OldWeight), h.newStart, Sum(h.rows, NewWeight))
  }

  function HeaderLine(h: PatchHunk): string {
    var c := Extent(h);
    "@@ -" + SideText(c.oldStart, c.oldCount, h.brief) + " +" + SideText(c.newStart, c.newCount, h.brief) + " @@" + h.section
  }

  function RowLines(rows: seq<Row>): seq<string> { seq(|rows|, k requires 0 <= k < |rows| => RowText(rows[k])) }

  function HunkLines(hunks: seq<PatchHunk>): seq<string> {
    if hunks == [] then [] else [HeaderLine(hunks[0])] + RowLines(hunks[0].rows) + HunkLines(hunks[1..])
  }

  function SideName(path: string, side: string): string { if path == DEV_NULL then DEV_NULL else side + path }

  function Unlines(lines: seq<string>): string {
    if lines == [] then "" else lines[0] + "\n" + Unlines(lines[1..])
  }

  // ----- what is well formed

  predicate NoBreak(text: string) { forall k :: 0 <= k < |text| ==> text[k] != '\n' }

  /** A note follows a row, and the last row has at most one. */
  predicate NotesFit(rows: seq<Row>) {
    |rows| >= 2 ==> !rows[0].NoNewline? && !(rows[|rows| - 1].NoNewline? && rows[|rows| - 2].NoNewline?)
  }

  /** The line numbers are whole numbers the client can hold, and only an empty side starts at zero. */
  predicate WithinNumbers(c: Coordinates) {
    && c.oldStart + c.oldCount <= 9_007_199_254_740_991 && c.newStart + c.newCount <= 9_007_199_254_740_991
    && (c.oldCount > 0 ==> c.oldStart > 0) && (c.newCount > 0 ==> c.newStart > 0)
  }

  predicate WellFormedHunk(h: PatchHunk) {
    && WithinNumbers(Extent(h)) && NotesFit(h.rows) && OneLine(h.section)
    && forall k :: 0 <= k < |h.rows| ==> NoBreak(RowText(h.rows[k]))
  }

  predicate WellFormedHunks(hunks: seq<PatchHunk>) {
    forall k :: 0 <= k < |hunks| ==> WellFormedHunk(hunks[k])
  }

  predicate WellFormedPath(path: string) { path == DEV_NULL || IsReviewablePath(path) }

  predicate WellFormedFile(f: PatchFile) {
    && WellFormedPath(f.oldPath) && WellFormedPath(f.newPath) && !(f.oldPath == f.newPath == DEV_NULL)
    && WellFormedHunks(f.hunks)
  }

  function RowsOf(hunks: seq<PatchHunk>): nat {
    if hunks == [] then 0 else Sum(hunks[0].rows, RowWeight) + RowsOf(hunks[1..])
  }

  // ----- what a review shows

  predicate ShowsRow(line: ReviewLine, row: Row) {
    match row
    case Keep(t) => line.kind.Context? && line.text == t
    case Add(t) => line.kind.Addition? && line.text == t
    case Remove(t) => line.kind.Deletion? && line.text == t
    case NoNewline => line == NOTE
  }

  predicate ShowsRows(lines: seq<ReviewLine>, rows: seq<Row>) {
    |lines| == |rows| && forall k :: 0 <= k < |rows| ==> ShowsRow(lines[k], rows[k])
  }

  predicate ShowsHunk(shown: ReviewHunk, h: PatchHunk) {
    && shown.header == HeaderLine(h) && shown.oldStart == h.oldStart && shown.newStart == h.newStart
    && ShowsRows(shown.lines, h.rows)
  }

  predicate ShowsHunks(shown: seq<ReviewHunk>, hunks: seq<PatchHunk>) {
    |shown| == |hunks| && forall k :: 0 <= k < |hunks| ==> ShowsHunk(shown[k], hunks[k])
  }

  function StatusOf(f: PatchFile): Status {
    if f.oldPath == DEV_NULL then Added
    else if f.newPath == DEV_NULL then Deleted
    else if f.oldPath == f.newPath then Modified else Renamed
  }

  /** What a review is to show of one file. */
  datatype Shown = Shown(path: string, oldPath: string, newPath: string, status: Status, metadata: seq<string>, hunks: seq<PatchHunk>)

  function Expect(f: PatchFile): Shown {
    Shown(if f.newPath == DEV_NULL then f.oldPath else f.newPath, f.oldPath, f.newPath, StatusOf(f), [], f.hunks)
  }

  predicate Shows(file: ReviewFile, x: Shown) {
    && file.path == x.path && file.oldPath == x.oldPath && file.newPath == x.newPath
    && file.status == x.status && file.metadata == x.metadata && ShowsHunks(file.hunks, x.hunks)
  }

  predicate ShowsAll(files: seq<ReviewFile>, xs: seq<Shown>) {
    |files| == |xs| && forall k :: 0 <= k < |xs| ==> Shows(files[k], xs[k])
  }

  // ----- numbers and hunk headers

  predicate AllDigits(text: string) { forall k :: 0 <= k < |text| ==> Digit(text[k]) }

  function DigitOf(d: nat): (c: char)
    requires d < 10
    ensures Digit(c) && DigitValue(c) == d
  {
    (d + ('0' as int)) as char
  }

  lemma ValueAppend(digits: string, c: char)
    requires AllDigits(digits) && Digit(c)
    ensures AllDigits(digits + [c]) && Value(digits + [c]) == Value(digits) * 10 + DigitValue(c)
  {
    hide Digit, DigitValue;
    assert (digits + [c])[..|digits|] == digits;
  }

  lemma {:induction false} DecReads(n: nat)
    ensures Dec(n) != "" && AllDigits(Dec(n)) && Value(Dec(n)) == n
  {
    hide AllDigits, Value, DigitValue, DigitOf, Digit;
    var high := if n < 10 then "" else Dec(n / 10);
    if n < 10 { NoDigits(); } else { DecReads(n / 10); }
    ValueAppend(high, DigitOf(n % 10));
  }

  lemma NoDigits()
    ensures AllDigits("") && Value("") == 0
  {
  }

  lemma {:induction false} DigitsStop(text: string, i: nat, j: nat)
    requires i <= j <= |text| && (forall k :: i <= k < j ==> Digit(text[k])) && (j < |text| ==> !Digit(text[j]))
    ensures DigitsFrom(text, i) == j
    decreases j - i
  {
    if i < j { DigitsStop(text, i + 1, j); }
  }

  lemma NumberReads(text: string, i: nat, n: nat)
    requires i + |Dec(n)| <= |text| && text[i..i + |Dec(n)|] == Dec(n)
    requires i + |Dec(n)| < |text| && !Digit(text[i + |Dec(n)|])
    ensures DigitsFrom(text, i) == i + |Dec(n)|
  {
    hide Dec, DigitsFrom, Digit;
    DecReads(n);
    forall k | i <= k < i + |Dec(n)| ensures Digit(text[k]) { assert text[k] == Dec(n)[k - i]; }
    DigitsStop(text, i, i + |Dec(n)|);
  }

  lemma NotDigits()
    ensures !Digit(' ') && !Digit(',')
  {
  }

  lemma SideParts(text: string, i: nat, j: nat, k: nat)
    requires i < j < |text| && DigitsFrom(text, i) == j && text[j] == ','
    requires j + 1 < k <= |text| && DigitsFrom(text, j + 1) == k
    ensures ReadSide(text, i) == Some((Side(Value(text[i..j]), Value(text[j + 1..k])), k))
  {
    hide DigitsFrom, Value;
  }

  lemma CountedSideReads(text: string, i: nat, start: nat, count: nat)
    requires i + |Dec(start)| + 1 + |Dec(count)| < |text|
    requires text[i..i + |Dec(start)|] == Dec(start) && text[i + |Dec(start)|] == ','
    requires var j := i + |Dec(start)| + 1; text[j..j + |Dec(count)|] == Dec(count) && text[j + |Dec(count)|] == ' '
    ensures ReadSide(text, i) == Some((Side(start, count), i + |Dec(start)| + 1 + |Dec(count)|))
  {
    hide Dec, DigitsFrom, Value, ReadSide, Digit;
    DecReads(start);
    DecReads(count);
    NotDigits();
    var j := i + |Dec(start)| + 1;
    NumberReads(text, i, start);
    NumberReads(text, j, count);
    SideParts(text, i, i + |Dec(start)|, j + |Dec(count)|);
  }

  lemma SideReads(text: string, i: nat, start: nat, count: nat, brief: bool)
    requires var side := SideText(start, count, brief);
             i + |side| < |text| && text[i..i + |side|] == side && text[i + |side|] == ' '
    ensures ReadSide(text, i) == Some((Side(start, count), i + |SideText(start, count, brief)|))
  {
    hide Dec, DigitsFrom, Value;
    if brief && count == 1 {
      DecReads(start);
      NumberReads(text, i, start);
    } else {
      hide ReadSide;
      Pair(text, i, Dec(start), Dec(count));
      CountedSideReads(text, i, start, count);
    }
  }

  lemma Pair(text: string, i: nat, a: string, b: string)
    requires var side := a + "," + b; i + |side| <= |text| && text[i..i + |side|] == side
    ensures text[i..i + |a|] == a && text[i + |a|] == ',' && text[i + |a| + 1..i + |a| + 1 + |b|] == b
  {
    var side := a + "," + b;
    assert side[..|a|] == a && side[|a|] == ',' && side[|a| + 1..] == b;
    forall k | 0 <= k < |side| ensures text[i + k] == side[k] { assert text[i..i + |side|][k] == side[k]; }
  }

  lemma HeaderParts(line: string, i: nat, j: nat, left: Side, right: Side)
    requires |line| >= 4 && "@@ -" <= line && ReadSide(line, 4) == Some((left, i))
    requires i + 2 <= |line| && " +" <= line[i..] && ReadSide(line, i + 2) == Some((right, j))
    requires j + 3 <= |line| && " @@" <= line[j..] && OneLine(line[j + 3..])
    ensures HunkHeader(line) == Some(Coordinates(left.start, left.count, right.start, right.count))
  {
    hide ReadSide, OneLine;
  }

  lemma Layout(line: string, left: string, right: string, section: string)
    requires line == "@@ -" + left + " +" + right + " @@" + section
    ensures |line| == 9 + |left| + |right| + |section| && "@@ -" <= line
    ensures line[4..4 + |left|] == left && line[4 + |left|] == ' ' && " +" <= line[4 + |left|..]
    ensures var j := 6 + |left|;
            line[j..j + |right|] == right && line[j + |right|] == ' ' && " @@" <= line[j + |right|..]
            && line[j + |right| + 3..] == section
  {
    var tail := " @@" + section;
    var a, b := "@@ -" + left, "@@ -" + left + " +" + right;
    assert line == a + (" +" + right + tail) && line == b + tail;
    TailOf(a, " +" + right + tail, line);
    TailOf(b, tail, line);
  }

  lemma TailOf(a: string, b: string, line: string)
    requires line == a + b
    ensures line[|a|..] == b && line[..|a|] == a
  {
  }

  lemma HeaderReads(h: PatchHunk)
    requires OneLine(h.section)
    ensures HunkHeader(HeaderLine(h)) == Some(Extent(h))
  {
    hide SideText, ReadSide, Sum, OneLine, HunkHeader;
    var c, line := Extent(h), HeaderLine(h);
    var left, right := SideText(c.oldStart, c.oldCount, h.brief), SideText(c.newStart, c.newCount, h.brief);
    Layout(line, left, right, h.section);
    SideReads(line, 4, c.oldStart, c.oldCount, h.brief);
    SideReads(line, 6 + |left|, c.newStart, c.newCount, h.brief);
    HeaderParts(line, 4 + |left|, 6 + |left| + |right|, Side(c.oldStart, c.oldCount), Side(c.newStart, c.newCount));
  }

  // ----- rows

  lemma {:induction false} SumMonotone(rows: seq<Row>, j: nat, k: nat, w: Row -> nat)
    requires j <= k <= |rows|
    ensures Sum(rows[..j], w) <= Sum(rows[..k], w)
    decreases k
  {
    if j < k {
      assert rows[..k][..k - 1] == rows[..k - 1];
      SumMonotone(rows, j, k - 1, w);
    }
  }

  lemma SumNext(rows: seq<Row>, k: nat, w: Row -> nat)
    requires k < |rows|
    ensures Sum(rows[..k + 1], w) == Sum(rows[..k], w) + w(rows[k]) <= Sum(rows, w)
  {
    assert rows[..k + 1][..k] == rows[..k];
    SumMonotone(rows, k + 1, |rows|, w);
    assert rows[..|rows|] == rows;
  }

  /** How far row `k` is into its hunk, when both counts are met there. */
  lemma CountsMet(rows: seq<Row>, k: nat)
    requires NotesFit(rows) && k <= |rows|
    requires Sum(rows[..k], OldWeight) == Sum(rows, OldWeight) && Sum(rows[..k], NewWeight) == Sum(rows, NewWeight)
    ensures k == |rows| || (k == |rows| - 1 && rows[k].NoNewline?)
  {
    forall j | k <= j < |rows| ensures rows[j].NoNewline? {
      SumMonotone(rows, k, j, OldWeight);
      SumMonotone(rows, k, j, NewWeight);
      SumNext(rows, j, OldWeight);
      SumNext(rows, j, NewWeight);
    }
  }

  lemma RowIsRow(row: Row)
    requires !row.NoNewline?
    ensures IsRow(RowText(row)) && RowText(row) != NO_NEWLINE
    ensures RowText(row)[0] == '+' <==> row.Add?
    ensures RowText(row)[0] == '-' <==> row.Remove?
  {
  }

  lemma NoteShows()
    ensures ShowsRow(NOTE, NoNewline) && RowText(NoNewline) == NO_NEWLINE
  {
  }

  lemma EntryShows(row: Row, oldLine: nat, newLine: nat, c: Coordinates, deleted: bool)
    requires !row.NoNewline?
    ensures IsRow(RowText(row)) && ShowsRow(Entry(RowText(row), oldLine, newLine, c, deleted), row)
  {
  }

  lemma ShowsAppend(shown: seq<ReviewLine>, line: ReviewLine, rows: seq<Row>, k: nat)
    requires k < |rows| && ShowsRows(shown, rows[..k]) && ShowsRow(line, rows[k])
    ensures ShowsRows(shown + [line], rows[..k + 1])
  {
    hide ShowsRow;
  }

  /** Rows are read by the counts, so any row text comes back. */
  lemma {:induction false} RowsReadBack(lines: seq<string>, start: nat, h: PatchHunk, k: nat, shown: seq<ReviewLine>,
                                        counted: nat, deleted: bool) returns (all: seq<ReviewLine>)
    requires NotesFit(h.rows) && k <= |h.rows| && start + |h.rows| <= |lines|
    requires forall j :: 0 <= j < |h.rows| ==> lines[start + j] == RowText(h.rows[j])
    requires start + |h.rows| < |lines| ==> lines[start + |h.rows|] != NO_NEWLINE
    requires ShowsRows(shown, h.rows[..k])
    requires counted + Sum(h.rows, RowWeight) <= MAX_LINES
    ensures ShowsRows(all, h.rows)
    ensures RowsFrom(lines, start + k, shown, Sum(h.rows[..k], OldWeight), Sum(h.rows[..k], NewWeight),
                     counted + Sum(h.rows[..k], RowWeight), Extent(h), deleted)
            == Ok(HunkRead(all, start + |h.rows|, counted + Sum(h.rows, RowWeight)))
    decreases |h.rows| - k
  {
    hide Sum, Entry, ShowsRows, ShowsRow, IsRow, NotesFit;
    var rows := h.rows;
    if Sum(rows[..k], OldWeight) == Sum(rows, OldWeight) && Sum(rows[..k], NewWeight) == Sum(rows, NewWeight) {
      all := RowsDone(lines, start, h, k, shown, counted, deleted);
    } else {
      assert rows[..|rows|] == rows;
      SumNext(rows, k, OldWeight);
      SumNext(rows, k, NewWeight);
      SumNext(rows, k, RowWeight);
      var o, n := Sum(rows[..k], OldWeight), Sum(rows[..k], NewWeight);
      var line := NOTE;
      if rows[k].NoNewline? {
        NoteInside(rows, k, shown);
        NoteShows();
      } else {
        RowIsRow(rows[k]);
        line := Entry(RowText(rows[k]), h.oldStart + o, h.newStart + n, Extent(h), deleted);
        EntryShows(rows[k], h.oldStart + o, h.newStart + n, Extent(h), deleted);
      }
      ShowsAppend(shown, line, rows, k);
      all := RowsReadBack(lines, start, h, k + 1, shown + [line], counted, deleted);
    }
  }

  lemma RowsDone(lines: seq<string>, start: nat, h: PatchHunk, k: nat, shown: seq<ReviewLine>, counted: nat, deleted: bool)
    returns (all: seq<ReviewLine>)
    requires NotesFit(h.rows) && k <= |h.rows| && start + |h.rows| <= |lines|
    requires forall j :: 0 <= j < |h.rows| ==> lines[start + j] == RowText(h.rows[j])
    requires start + |h.rows| < |lines| ==> lines[start + |h.rows|] != NO_NEWLINE
    requires ShowsRows(shown, h.rows[..k])
    requires Sum(h.rows[..k], OldWeight) == Sum(h.rows, OldWeight) && Sum(h.rows[..k], NewWeight) == Sum(h.rows, NewWeight)
    ensures ShowsRows(all, h.rows)
    ensures RowsFrom(lines, start + k, shown, Sum(h.rows[..k], OldWeight), Sum(h.rows[..k], NewWeight),
                     counted + Sum(h.rows[..k], RowWeight), Extent(h), deleted)
            == Ok(HunkRead(all, start + |h.rows|, counted + Sum(h.rows, RowWeight)))
  {
    hide Sum, ShowsRows, NotesFit;
    CountsMet(h.rows, k);
    if k == |h.rows| {
      assert h.rows[..k] == h.rows;
      all := shown;
    } else {
      SumNext(h.rows, k, RowWeight);
      ShowsAppend(shown, NOTE, h.rows, k);
      assert h.rows[..k + 1] == h.rows;
      all := shown + [NOTE];
    }
  }

  lemma NoteInside(rows: seq<Row>, k: nat, shown: seq<ReviewLine>)
    requires NotesFit(rows) && k < |rows| && rows[k].NoNewline? && ShowsRows(shown, rows[..k])
    requires Sum(rows[..k], OldWeight) != Sum(rows, OldWeight) || Sum(rows[..k], NewWeight) != Sum(rows, NewWeight)
    ensures shown != []
  {
    SumNext(rows, k, OldWeight);
    SumNext(rows, k, NewWeight);
    assert rows[..|rows|] == rows;
  }

  // ----- hunks

  /** What the parser holds, once the file in progress ends here. */
  predicate Holds(p: Parser, xs: seq<Shown>) {
    ShowsAll(Finished(p).files, xs)
  }

  /** The file in progress, if any, has its `---` and `+++` lines. */
  predicate Headed(p: Parser) { p.file.Some? <==> p.headerSeen }

  lemma HeaderIsHunk(h: PatchHunk)
    requires OneLine(h.section)
    ensures var line := HeaderLine(h);
            StripReturn(line) == line && "@@ " <= line && !("--- " <= line) && !("diff --git " <= line)
  {
    hide SideText, Sum;
    var line := HeaderLine(h);
    assert line[..4] == "@@ -" && line[0] == '@';
    var last := line[|line| - 1];
    if h.section != "" { assert last == h.section[|h.section| - 1]; } else { assert last == '@'; }
  }

  lemma HoldsHunk(p: Parser, q: Parser, done: seq<Shown>, f: Shown, h: PatchHunk, shown: ReviewHunk)
    requires Holds(p, done + [f]) && p.file.Some? && p.headerSeen && ShowsHunk(shown, h)
    requires q.file.Some? && q.headerSeen && q.files == p.files
    requires q.file.value == p.file.value.(hunks := p.file.value.hunks + [shown],
                                           additions := q.file.value.additions, deletions := q.file.value.deletions)
    ensures Holds(q, done + [f.(hunks := f.hunks + [h])])
  {
    hide ShowsHunk;
    var all, more := done + [f], done + [f.(hunks := f.hunks + [h])];
    forall k | 0 <= k < |more| ensures Shows(Finished(q).files[k], more[k]) {
      assert Shows(Finished(p).files[k], all[k]);
    }
  }

  lemma NumbersAreSafe(c: Coordinates)
    ensures WithinNumbers(c) <==> SafeCoordinates(c)
  {
  }

  lemma HunkReadsBack(p: Parser, lines: seq<string>, i: nat, done: seq<Shown>, f: Shown, h: PatchHunk, unquote: Unquote)
    returns (q: Parser)
    requires Holds(p, done + [f]) && p.file.Some? && p.headerSeen && WellFormedHunk(h)
    requires i + 1 + |h.rows| <= |lines| && lines[i] == HeaderLine(h)
    requires lines[i + 1..i + 1 + |h.rows|] == RowLines(h.rows)
    requires i + 1 + |h.rows| < |lines| ==> lines[i + 1 + |h.rows|] != NO_NEWLINE
    requires p.countedHunks + 1 <= MAX_HUNKS && p.countedLines + Sum(h.rows, RowWeight) <= MAX_LINES
    ensures Step(p, lines, i, unquote) == Go(i + 1 + |h.rows|, q)
    ensures Holds(q, done + [f.(hunks := f.hunks + [h])]) && q.file.Some? && q.headerSeen
    ensures q.countedHunks == p.countedHunks + 1 && q.countedLines == p.countedLines + Sum(h.rows, RowWeight)
  {
    hide Sum, RowsFrom, HunkHeader, Holds, HeaderLine, OneLine, RowText, ShowsRows, SafeCoordinates, Contexts, NotesFit;
    NumbersAreSafe(Extent(h));
    HeaderIsHunk(h);
    HeaderReads(h);
    var deleted := p.file.value.newPath == DEV_NULL;
    var start := i + 1;
    forall j | 0 <= j < |h.rows| ensures lines[start + j] == RowText(h.rows[j]) {
      assert lines[i + 1..i + 1 + |h.rows|][j] == RowLines(h.rows)[j];
    }
    assert h.rows[..0] == [];
    NothingYet();
    var all := RowsReadBack(lines, start, h, 0, [], p.countedLines, deleted);
    q := HunkStep(p, lines, i, lines[i]).parser;
    HoldsHunk(p, q, done, f, h, ReviewHunk(HeaderLine(h), h.oldStart, h.newStart, all));
  }

  lemma NothingYet()
    ensures Sum([], OldWeight) == Sum([], NewWeight) == Sum([], RowWeight) == 0 && ShowsRows([], [])
  {
  }

  lemma HeaderIsNoNote(h: PatchHunk)
    ensures HeaderLine(h) != NO_NEWLINE
  {
    hide SideText, Sum;
    assert HeaderLine(h)[0] == '@';
  }

  lemma {:induction false} HunksReadBack(p: Parser, lines: seq<string>, i: nat, done: seq<Shown>, f: Shown,
                                         todo: seq<PatchHunk>, unquote: Unquote)
    returns (q: Parser)
    requires Holds(p, done + [f]) && p.file.Some? && p.headerSeen && WellFormedHunks(todo)
    requires i <= |lines| && HunkLines(todo) <= lines[i..]
    requires i + |HunkLines(todo)| < |lines| ==> lines[i + |HunkLines(todo)|] != NO_NEWLINE
    requires p.countedHunks + |todo| <= MAX_HUNKS && p.countedLines + RowsOf(todo) <= MAX_LINES
    ensures ParseFrom(p, lines, i, unquote) == ParseFrom(q, lines, i + |HunkLines(todo)|, unquote)
    ensures Holds(q, done + [f.(hunks := f.hunks + todo)]) && q.file.Some? && q.headerSeen
    ensures q.countedHunks == p.countedHunks + |todo| && q.countedLines == p.countedLines + RowsOf(todo)
    decreases |todo|
  {
    hide Holds, Step, HeaderLine, RowLines, Sum, WellFormedHunk, Conclude, Salvage;
    if todo == [] {
      assert f.hunks + todo == f.hunks;
      q := p;
    } else {
      var h, rest := todo[0], todo[1..];
      var next := i + 1 + |h.rows|;
      RowCount(h.rows);
      var text := [HeaderLine(h)] + RowLines(h.rows) + HunkLines(rest);
      assert forall k :: 0 <= k < |text| ==> text[k] == lines[i..][k] == lines[i + k];
      assert lines[i + 1..next] == text[1..1 + |h.rows|] == RowLines(h.rows);
      assert lines[next..next + |HunkLines(rest)|] == text[1 + |h.rows|..] == HunkLines(rest);
      if rest != [] { HeaderIsNoNote(rest[0]); assert lines[next] == HunkLines(rest)[0] == HeaderLine(rest[0]); }
      var g := f.(hunks := f.hunks + [h]);
      var m := HunkReadsBack(p, lines, i, done, f, h, unquote);
      assert HunkLines(rest) <= lines[next..];
      q := HunksReadBack(m, lines, next, done, g, rest, unquote);
      assert f.hunks + [h] + rest == f.hunks + todo;
    }
  }

  lemma RowCount(rows: seq<Row>)
    ensures |RowLines(rows)| == |rows|
  {
  }

  // ----- files

  lemma {:induction false} BeforeAll(text: string, c: char)
    requires forall k :: 0 <= k < |text| ==> text[k] != c
    ensures Before(text, c) == text
  {
    if text != "" { BeforeAll(text[1..], c); }
  }

  lemma PathReads(path: string, side: string, unquote: Unquote)
    requires WellFormedPath(path) && (side == "a/" || side == "b/")
    ensures PathFromHeader(SideName(path, side), true, unquote) == Ok(path)
  {
    hide SplitAt;
    var name := SideName(path, side);
    assert name[0] == '/' || name[0] == side[0];
    if path != DEV_NULL { assert name == side + path && name[2..] == path && name[..2] == side; }
    assert forall k :: 0 <= k < |name| ==> name[k] != '\t';
    BeforeAll(name, '\t');
  }

  lemma NameEnds(path: string, side: string, mark: string)
    requires WellFormedPath(path) && (side == "a/" || side == "b/")
    ensures StripReturn(mark + SideName(path, side)) == mark + SideName(path, side)
    ensures NoBreak(SideName(path, side))
  {
    hide SplitAt;
    var name := SideName(path, side);
    assert name != "" && (mark + name)[|mark + name| - 1] == name[|name| - 1];
    if path != DEV_NULL { assert name[|name| - 1] == path[|path| - 1]; }
  }

  lemma HeaderFileReads(f: PatchFile, unquote: Unquote)
    requires WellFormedFile(f)
    ensures var file := HeaderFile("--- " + SideName(f.oldPath, "a/"), "+++ " + SideName(f.newPath, "b/"), unquote);
            file.Ok? && Shows(file.value, Expect(f).(hunks := []))
  {
    hide PathFromHeader, WellFormedPath, SideName, StripReturn;
    var left, right := "--- " + SideName(f.oldPath, "a/"), "+++ " + SideName(f.newPath, "b/");
    assert left[4..] == SideName(f.oldPath, "a/") && right[4..] == SideName(f.newPath, "b/");
    NameEnds(f.newPath, "b/", "");
    assert "" + SideName(f.newPath, "b/") == SideName(f.newPath, "b/");
    PathReads(f.oldPath, "a/", unquote);
    PathReads(f.newPath, "b/", unquote);
  }

  lemma HoldsHeaderStep(p: Parser, q: Parser, done: seq<Shown>, f: Shown)
    requires ShowsAll(q.files, done) && q.file.Some? && q.headerSeen && Shows(q.file.value, f)
    ensures Holds(q, done + [f])
  {
    hide Shows;
  }

  /** A file header: the file in progress ends, unless it is one that waits for this header, whose metadata stay. */
  lemma FileReadsBack(p: Parser, lines: seq<string>, i: nat, done: seq<Shown>, f: PatchFile, unquote: Unquote)
    returns (q: Parser)
    requires |done| < MAX_FILES && WellFormedFile(f)
    requires EndsEarlierFile(p) || p.file.None? ==> Holds(p, done)
    requires !EndsEarlierFile(p) && p.file.Some? ==> ShowsAll(p.files, done)
    requires i + 1 < |lines| && lines[i] == "--- " + SideName(f.oldPath, "a/") && lines[i + 1] == "+++ " + SideName(f.newPath, "b/")
    ensures Step(p, lines, i, unquote) == Go(i + 2, q)
    ensures var kept := if !EndsEarlierFile(p) && p.file.Some? then p.file.value.metadata else [];
            Holds(q, done + [Expect(f).(hunks := [], metadata := kept)])
    ensures q.file.Some? && q.headerSeen && q.countedHunks == p.countedHunks && q.countedLines == p.countedLines
  {
    hide HeaderFile, SideName, WellFormedPath, StripReturn, WellFormedHunks, ShowsHunks;
    NameEnds(f.oldPath, "a/", "--- ");
    HeaderFileReads(f, unquote);
    var line := lines[i];
    assert line[..4] == "--- " && line[0] == '-';
    assert lines[i + 1][..4] == "+++ ";
    q := FileStep(p, lines, i, line, unquote).parser;
    var kept := if !EndsEarlierFile(p) && p.file.Some? then p.file.value.metadata else [];
    HoldsHeaderStep(p, q, done, Expect(f).(hunks := [], metadata := kept));
  }

  lemma Sections(lines: seq<string>, i: nat, head: seq<string>, body: seq<string>, tail: seq<string>)
    requires i <= |lines| && |head| == 2 && |tail| > 0 && lines[i..] == head + body + tail
    ensures i + 2 + |body| < |lines| && lines[i] == head[0] && lines[i + 1] == head[1]
    ensures body <= lines[i + 2..] && lines[i + 2 + |body|..] == tail && lines[i + 2 + |body|] == tail[0]
  {
    assert lines[i + 2..] == lines[i..][2..] == body + tail;
    assert lines[i + 2 + |body|..] == lines[i + 2..][|body|..] == tail;
    assert lines[i] == lines[i..][0] && lines[i + 1] == lines[i..][1];
  }

  lemma FileHunks(f: PatchFile)
    requires WellFormedFile(f)
    ensures WellFormedHunks(f.hunks)
  {
  }

  lemma EndReadsBack(p: Parser, lines: seq<string>, i: nat, done: seq<Shown>, unquote: Unquote)
    requires Holds(p, done) && |done| < MAX_FILES && i <= |lines| && lines[i..] == [""]
    ensures var review := ParseFrom(p, lines, i, unquote); review.notice.None? && ShowsAll(review.files, done)
  {
    hide Shows, Step;
    assert lines[i] == lines[i..][0] == "" && |lines| == i + 1;
    BlankLine(p, lines, i, unquote);
  }

  // ----- text

  lemma {:induction false} UnlinesSplits(lines: seq<string>)
    requires forall k :: 0 <= k < |lines| ==> NoBreak(lines[k])
    ensures SplitAt(Unlines(lines), '\n') == lines + [""]
  {
    hide NoBreak;
    if lines != [] {
      NoSplit(lines[0]);
      SplitJoin(lines[0], Unlines(lines[1..]), '\n');
      UnlinesSplits(lines[1..]);
    }
  }

  lemma {:induction false} NoSplit(text: string)
    requires NoBreak(text)
    ensures SplitAt(text, '\n') == [text]
  {
    if text != "" {
      NoSplit(text[1..]);
      assert [text[0]] + text[1..] == text;
    }
  }

  lemma SideUnbroken(start: nat, count: nat, brief: bool)
    ensures NoBreak(SideText(start, count, brief))
  {
    hide Dec, Value;
    DecReads(start);
    DecReads(count);
  }

  lemma HeaderUnbroken(h: PatchHunk)
    requires OneLine(h.section)
    ensures NoBreak(HeaderLine(h))
  {
    hide SideText, Sum;
    var c := Extent(h);
    SideUnbroken(c.oldStart, c.oldCount, h.brief);
    SideUnbroken(c.newStart, c.newCount, h.brief);
  }

  predicate AllUnbroken(lines: seq<string>) { forall k :: 0 <= k < |lines| ==> NoBreak(lines[k]) }

  lemma {:induction false} HunkLinesUnbroken(hunks: seq<PatchHunk>)
    requires WellFormedHunks(hunks)
    ensures AllUnbroken(HunkLines(hunks))
  {
    hide NoBreak, HeaderLine;
    if hunks != [] {
      HeaderUnbroken(hunks[0]);
      HunkLinesUnbroken(hunks[1..]);
    }
  }

  lemma NothingHeld()
    ensures Holds(FRESH, []) && Headed(FRESH)
  {
  }
}
