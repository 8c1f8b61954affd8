/**
  Round trip of diffs: printing well-formed sections, with `diff --git` headers and their
  extended lines, with `---`, `+++` and `@@` text, or with both, and reading them gives
  back the same files with no notice: paths, status, metadata, hunks and rows.

  The last extended line that names a side, or says what happened, is the one that counts.
 */
module PatchGit {
  import opened Events
  import opened PatchReview
  import opened PatchRoundTrip
  import PatchSafety

  /** The extended lines of a git header. */
  datatype Extended =
    | Index(hashes: string)
    | OldMode(oldMode: string)
    | NewMode(newMode: string)
    | NewFile(fileMode: string)
    | DeletedFile(goneMode: string)
    | Similarity(similarity: string)
    | Dissimilarity(dissimilarity: string)
    | RenameFrom(renamedFrom: string)
    | RenameTo(renamedTo: string)
    | CopyFrom(copiedFrom: string)
    | CopyTo(copiedTo: string)
    | BinaryFiles(differ: string)
    | BinaryPatch(payload: seq<string>)

  datatype GitHeader = GitHeader(oldName: string, newName: string, extended: seq<Extended>)

  /** A git header, the text of a file, or the one before the other. */
  datatype Section = Plain(file: PatchFile) | Git(header: GitHeader) | Both(git: GitHeader, text: PatchFile)

  // ----- printing

  function ExtendedText(x: Extended): string {
    match x
    case Index(hashes) => "index " + hashes
    case OldMode(mode) => "old mode " + mode
    case NewMode(mode) => "new mode " + mode
    case NewFile(mode) => "new file mode " + mode
    case DeletedFile(mode) => "deleted file mode " + mode
    case Similarity(percent) => "similarity index " + percent
    case Dissimilarity(percent) => "dissimilarity index " + percent
    case RenameFrom(path) => "rename from " + path
    case RenameTo(path) => "rename to " + path
    case CopyFrom(path) => "copy from " + path
    case CopyTo(path) => "copy to " + path
    case BinaryFiles(differ) => "Binary files " + differ
    case BinaryPatch(_) => "GIT binary patch"
  }

  function ExtendedLines(xs: seq<Extended>): seq<string> {
    if xs == [] then []
    else [ExtendedText(xs[0])] + (if xs[0].BinaryPatch? then xs[0].payload else []) + ExtendedLines(xs[1..])
  }

  function GitLine(g: GitHeader): string { "diff --git a/" + g.oldName + " b/" + g.newName }

  function GitLines(g: GitHeader): seq<string> { [GitLine(g)] + ExtendedLines(g.extended) }

  function FileLines(f: PatchFile): seq<string> {
    ["--- " + SideName(f.oldPath, "a/"), "+++ " + SideName(f.newPath, "b/")] + HunkLines(f.hunks)
  }

  function SectionLines(s: Section): seq<string> {
    match s
    case Plain(f) => FileLines(f)
    case Git(g) => GitLines(g)
    case Both(g, f) => GitLines(g) + FileLines(f)
  }

  function PatchLines(sections: seq<Section>): seq<string> {
    if sections == [] then [] else SectionLines(sections[0]) + PatchLines(sections[1..])
  }

  function Print(sections: seq<Section>): string { Unlines(PatchLines(sections)) }

  // ----- what it says

  /** What a line says of the old side, of the new one, and of what happened. */
  function SaysOld(x: Extended): Option<string> {
    match x
    case NewFile(_) => Some("/dev/null")
    case RenameFrom(path) => Some(path)
    case CopyFrom(path) => Some(path)
    case _ => None
  }

  function SaysNew(x: Extended): Option<string> {
    match x
    case DeletedFile(_) => Some("/dev/null")
    case RenameTo(path) => Some(path)
    case CopyTo(path) => Some(path)
    case _ => None
  }

  function SaysPath(x: Extended): Option<string> {
    match x
    case RenameTo(path) => Some(path)
    case CopyTo(path) => Some(path)
    case _ => None
  }

  function SaysStatus(x: Extended): Option<Status> {
    match x
    case NewFile(_) => Some(Added)
    case DeletedFile(_) => Some(Deleted)
    case RenameTo(_) => Some(Renamed)
    case CopyTo(_) => Some(Renamed)
    case BinaryFiles(_) => Some(Binary)
    case BinaryPatch(_) => Some(Binary)
    case _ => None
  }

  /** The last line that says anything decides. */
  function LastSaid<T>(xs: seq<Extended>, says: Extended -> Option<T>, otherwise: T): T {
    if xs == [] then otherwise
    else
      var said := says(xs[|xs| - 1]);
      if said.Some? then said.value else LastSaid(xs[..|xs| - 1], says, otherwise)
  }

  function Texts(xs: seq<Extended>): (r: seq<string>)
    ensures |r| == |xs| && forall k :: 0 <= k < |r| ==> r[k] == ExtendedText(xs[k])
  {
    seq(|xs|, k requires 0 <= k < |xs| => ExtendedText(xs[k]))
  }

  /** What a git header alone is to show. */
  function ExpectGit(g: GitHeader): Shown {
    Shown(LastSaid(g.extended, SaysPath, g.newName),
          LastSaid(g.extended, SaysOld, g.oldName),
          LastSaid(g.extended, SaysNew, g.newName),
          LastSaid(g.extended, SaysStatus, if g.oldName == g.newName then Modified else Renamed),
          Texts(g.extended), [])
  }

  /** The text of a file decides its paths and status; the header's lines stay as metadata. */
  function ExpectSection(s: Section): Shown {
    match s
    case Plain(f) => Expect(f)
    case Git(g) => ExpectGit(g)
    case Both(g, f) => Expect(f).(metadata := Texts(g.extended))
  }

  function ExpectAll(sections: seq<Section>): (xs: seq<Shown>)
    ensures |xs| == |sections| && forall k :: 0 <= k < |xs| ==> xs[k] == ExpectSection(sections[k])
  {
    seq(|sections|, k requires 0 <= k < |sections| => ExpectSection(sections[k]))
  }

  // ----- what is well formed

  /** One line, not ended by a carriage return. */
  predicate LineText(text: string) { NoBreak(text) && (text == "" || text[|text| - 1] != '\r') }

  predicate WellFormedExtended(x: Extended) {
    match x
    case RenameFrom(path) => IsReviewablePath(path) && Unquoted(path)
    case RenameTo(path) => IsReviewablePath(path) && Unquoted(path)
    case CopyFrom(path) => IsReviewablePath(path) && Unquoted(path)
    case CopyTo(path) => IsReviewablePath(path) && Unquoted(path)
    case BinaryPatch(payload) => forall k :: 0 <= k < |payload| ==> NoBreak(payload[k]) && !("diff --git " <= payload[k])
    case _ => LineText(ExtendedText(x))
  }

  /** A name that the header's grammar cannot split again: no ` b/` with something after it. */
  predicate Unsplit(name: string) { forall j :: 0 <= j < |name| ==> !SplitsAt(name, j) }

  predicate SplitsAt(name: string, j: nat) { j + 3 < |name| && name[j..j + 3] == " b/" }

  /** A name this grammar does not take for a quoted one. */
  predicate Unquoted(name: string) { name == "" || name[0] != '"' }

  predicate WellFormedHeader(g: GitHeader) {
    && IsReviewablePath(g.oldName) && IsReviewablePath(g.newName) && OneLine(g.oldName) && OneLine(g.newName)
    && '"' !in g.newName && Unsplit(g.newName) && g.extended != []
    && (forall k :: 0 <= k < |g.extended| ==> WellFormedExtended(g.extended[k]))
    && (forall k :: 0 <= k < |g.extended| - 1 ==> !g.extended[k].BinaryPatch?)
  }

  predicate WellFormedSection(s: Section) {
    match s
    case Plain(f) => WellFormedFile(f)
    case Git(g) => WellFormedHeader(g)
    case Both(g, f) => WellFormedHeader(g) && WellFormedFile(f) && !g.extended[|g.extended| - 1].BinaryPatch?
  }

  /** A header alone is not followed by plain text, which would be its own. */
  predicate WellFormed(sections: seq<Section>) {
    && (forall k :: 0 <= k < |sections| ==> WellFormedSection(sections[k]))
    && (forall k :: 0 < k < |sections| && sections[k].Plain? ==> !sections[k - 1].Git?)
  }

  function HunksOf(s: Section): seq<PatchHunk> {
    match s
    case Plain(f) => f.hunks
    case Git(_) => []
    case Both(_, f) => f.hunks
  }

  function AllRows(sections: seq<Section>): nat {
    if sections == [] then 0 else RowsOf(HunksOf(sections[0])) + AllRows(sections[1..])
  }

  function AllPatchHunks(sections: seq<Section>): nat {
    if sections == [] then 0 else |HunksOf(sections[0])| + AllPatchHunks(sections[1..])
  }

  // ----- the header's names

  lemma ReviewableBegins(name: string)
    requires IsReviewablePath(name)
    ensures name != "" && name != DEV_NULL && name[|name| - 1] != '\r' && NoBreak(name)
    ensures forall k :: 0 <= k < |name| ==> name[k] != '\t'
  {
    hide SplitAt;
  }

  lemma SidedPathReads(name: string, side: string, unquote: Unquote)
    requires IsReviewablePath(name) && (side == "a/" || side == "b/")
    ensures PathFromHeader(side + name, true, unquote) == Ok(name)
  {
    hide SplitAt, PathFromHeader;
    PathReads(name, side, unquote);
    ReviewableBegins(name);
  }

  lemma PlainPathReads(name: string, unquote: Unquote)
    requires IsReviewablePath(name) && name[0] != '"'
    ensures PathFromHeader(name, false, unquote) == Ok(name)
  {
    hide SplitAt, IsReviewablePath;
    ReviewableBegins(name);
    BeforeAll(name, '\t');
  }

  lemma WholeSide(name: string, side: string)
    requires name != "" && OneLine(name) && (side == "a/" || side == "b/")
    ensures WholeName(side + name, side)
  {
    hide OneLine;
    assert (side + name)[|side|..] == name && (side + name)[..|side|] == side;
  }

  /** Whether the header's grammar accepts the space before `p` as the one between the names. */
  predicate SplitsBefore(header: string, p: nat)
    requires 0 < p <= |header|
  {
    header[p - 1] == ' ' && WholeName(header[..p - 1], "a/") && WholeName(header[p..], "b/")
  }

  lemma {:induction false} LastSplit(header: string, p: nat, at: nat)
    requires at < p <= |header| && SplitsBefore(header, at + 1)
    requires forall q :: at + 1 < q <= p ==> !SplitsBefore(header, q)
    ensures GitSplit(header, p) == Some(at)
    decreases p
  {
    hide WholeName;
    if p > at + 1 {
      assert !SplitsBefore(header, p);
      LastSplit(header, p - 1, at);
    }
  }

  /** A later space is accepted only where the new name holds ` b/` with something after it. */
  lemma LaterSplit(oldName: string, newName: string, q: nat)
    requires newName != "" && |oldName| + 3 < q <= |oldName| + 5 + |newName| && '"' !in newName
    ensures var header := "a/" + oldName + " b/" + newName;
            q <= |header| && (SplitsBefore(header, q) ==> q > |oldName| + 5 && SplitsAt(newName, q - |oldName| - 6))
  {
    hide OneLine;
    var header := "a/" + oldName + " b/" + newName;
    var head := "a/" + oldName + " b/";
    assert |head| == |oldName| + 5 && header == head + newName;
    if q - 1 < |head| {
      assert header[q - 1] == head[q - 1] && head[|oldName| + 3] == 'b' && head[|oldName| + 4] == '/';
    } else {
      var j := q - 1 - |head|;
      assert header[q..] == newName[j + 1..] && header[q - 1] == newName[j];
      if j + 3 < |newName| { assert newName[j..j + 3] == [newName[j], newName[j + 1], newName[j + 2]]; }
      if j + 1 < |newName| { assert newName[j + 1] in newName; }
    }
  }

  lemma HeaderNamesRead(g: GitHeader, unquote: Unquote)
    requires IsReviewablePath(g.oldName) && IsReviewablePath(g.newName) && OneLine(g.oldName) && OneLine(g.newName)
    requires Unsplit(g.newName) && '"' !in g.newName
    ensures |GitLine(g)| >= 11 && "diff --git " <= GitLine(g) && GitPaths(GitLine(g), unquote) == Ok((g.oldName, g.newName))
  {
    hide WholeName, PathFromHeader, IsReviewablePath, OneLine, SplitAt, SplitsAt, GitSplit;
    ReviewableBegins(g.oldName);
    ReviewableBegins(g.newName);
    var header, at := "a/" + g.oldName + " b/" + g.newName, |g.oldName| + 2;
    var line := GitLine(g);
    assert line == "diff --git " + header;
    assert line[11..] == header;
    assert header[..at] == "a/" + g.oldName && header[at] == ' ' && header[at + 1..] == "b/" + g.newName;
    WholeSide(g.oldName, "a/");
    WholeSide(g.newName, "b/");
    assert SplitsBefore(header, at + 1);
    forall q | at + 1 < q <= |header| ensures !SplitsBefore(header, q) { LaterSplit(g.oldName, g.newName, q); }
    LastSplit(header, |header|, at);
    SidedPathReads(g.oldName, "a/", unquote);
    SidedPathReads(g.newName, "b/", unquote);
  }

  // ----- extended lines

  function Or<T>(said: Option<T>, otherwise: T): T { if said.Some? then said.value else otherwise }

  /** What a line makes of the file it describes. */
  function Describe(file: ReviewFile, x: Extended): ReviewFile {
    file.(path := Or(SaysPath(x), file.path), oldPath := Or(SaysOld(x), file.oldPath),
          newPath := Or(SaysNew(x), file.newPath), status := Or(SaysStatus(x), file.status))
  }

  /** The beginning of a line of this kind, and how a line of another kind differs from it. */
  function Mark(x: Extended): string {
    match x
    case Index(_) => "index "
    case OldMode(_) => "old mode "
    case NewMode(_) => "new mode "
    case NewFile(_) => "new file mode "
    case DeletedFile(_) => "deleted file mode "
    case Similarity(_) => "similarity index "
    case Dissimilarity(_) => "dissimilarity index "
    case RenameFrom(_) => "rename from "
    case RenameTo(_) => "rename to "
    case CopyFrom(_) => "copy from "
    case CopyTo(_) => "copy to "
    case BinaryFiles(_) => "Binary files "
    case BinaryPatch(_) => "GIT binary patch"
  }

  function Argument(x: Extended): string {
    match x
    case Index(hashes) => hashes
    case OldMode(mode) => mode
    case NewMode(mode) => mode
    case NewFile(mode) => mode
    case DeletedFile(mode) => mode
    case Similarity(percent) => percent
    case Dissimilarity(percent) => percent
    case RenameFrom(path) => path
    case RenameTo(path) => path
    case CopyFrom(path) => path
    case CopyTo(path) => path
    case BinaryFiles(differ) => differ
    case BinaryPatch(_) => ""
  }

  lemma Marked(x: Extended)
    ensures ExtendedText(x) == Mark(x) + Argument(x)
    ensures IsMetadata(ExtendedText(x))
  {
    var k := match x
      case Index(_) => 0
      case OldMode(_) => 1
      case NewMode(_) => 2
      case NewFile(_) => 3
      case DeletedFile(_) => 4
      case Similarity(_) => 5
      case Dissimilarity(_) => 6
      case RenameFrom(_) => 7
      case RenameTo(_) => 8
      case CopyFrom(_) => 9
      case CopyTo(_) => 10
      case BinaryFiles(_) => 11
      case BinaryPatch(_) => 12;
    assert METADATA[k] == Mark(x);
    assert METADATA[k] <= ExtendedText(x);
  }

  /** Two texts that differ at `d` begin differently. */
  lemma Differ(mark: string, other: string, rest: string, d: nat)
    requires d < |mark| && d < |other| && mark[d] != other[d]
    ensures !(other <= mark + rest)
  {
    assert (mark + rest)[d] == mark[d];
  }

  /** A line begins with another kind's mark only if it is of that kind. */
  lemma OnlyOwnMark(x: Extended, other: string, d: nat)
    requires d < |Mark(x)| && d < |other| && Mark(x)[d] != other[d]
    ensures !(other <= ExtendedText(x))
  {
    Marked(x);
    Differ(Mark(x), other, Argument(x), d);
  }

  lemma NotAnotherLine(x: Extended)
    ensures var line := ExtendedText(x); !("diff --git " <= line) && !("--- " <= line) && !("@@ " <= line)
  {
    hide ExtendedText;
    OnlyOwnMark(x, "--- ", 0);
    OnlyOwnMark(x, "@@ ", 0);
    OnlyOwnMark(x, "diff --git ", if x.DeletedFile? then 1 else if x.Dissimilarity? then 2 else 0);
  }

  /** The marks a description looks for, each found in its own line only. */
  lemma NameMarksFound(x: Extended)
    ensures var line := ExtendedText(x);
            && ("rename from " <= line <==> x.RenameFrom?) && ("copy from " <= line <==> x.CopyFrom?)
            && ("rename to " <= line <==> x.RenameTo?) && ("copy to " <= line <==> x.CopyTo?)
  {
    hide ExtendedText;
    Marked(x);
    if !x.RenameFrom? { OnlyOwnMark(x, "rename from ", if x.RenameTo? then 7 else 0); }
    if !x.CopyFrom? { OnlyOwnMark(x, "copy from ", if x.CopyTo? then 5 else 0); }
    if !x.RenameTo? { OnlyOwnMark(x, "rename to ", if x.RenameFrom? then 7 else 0); }
    if !x.CopyTo? { OnlyOwnMark(x, "copy to ", if x.CopyFrom? then 5 else 0); }
  }

  lemma KindMarksFound(x: Extended)
    ensures var line := ExtendedText(x);
            && ("new file mode " <= line <==> x.NewFile?) && ("deleted file mode " <= line <==> x.DeletedFile?)
            && ("Binary files " <= line <==> x.BinaryFiles?) && (line == "GIT binary patch" <==> x.BinaryPatch?)
  {
    hide ExtendedText;
    Marked(x);
    if !x.NewFile? { OnlyOwnMark(x, "new file mode ", if x.NewMode? then 4 else 0); }
    if !x.DeletedFile? { OnlyOwnMark(x, "deleted file mode ", if x.Dissimilarity? then 1 else 0); }
    if !x.BinaryFiles? { OnlyOwnMark(x, "Binary files ", 0); }
    if !x.BinaryPatch? { OnlyOwnMark(x, "GIT binary patch", 0); }
  }

  lemma AfterMark(x: Extended)
    requires x.RenameFrom? || x.RenameTo? || x.CopyFrom? || x.CopyTo?
    ensures var line := ExtendedText(x);
            |line| == |Mark(x)| + |Argument(x)| && line[|Mark(x)|..] == Argument(x)
  {
  }

  lemma MarkLengths(x: Extended)
    ensures x.RenameFrom? ==> |Mark(x)| == 12
    ensures x.RenameTo? || x.CopyFrom? ==> |Mark(x)| == 10
    ensures x.CopyTo? ==> |Mark(x)| == 8
  {
  }

  lemma DescribedAs(file: ReviewFile, x: Extended, unquote: Unquote)
    requires WellFormedExtended(x)
    ensures Described(file, ExtendedText(x), unquote) == Ok(Describe(file, x))
  {
    hide PathFromHeader, IsReviewablePath, ExtendedText, IsMetadata, Mark;
    NameMarksFound(x);
    KindMarksFound(x);
    if x.RenameFrom? || x.RenameTo? || x.CopyFrom? || x.CopyTo? {
      AfterMark(x);
      MarkLengths(x);
      PathStays(Argument(x), unquote);
    }
  }

  lemma PathStays(path: string, unquote: Unquote)
    requires IsReviewablePath(path) && Unquoted(path)
    ensures PathFromHeader(path, false, unquote) == Ok(path)
  {
    hide SplitAt;
    PlainPathReads(path, unquote);
  }

  lemma PathLine(mark: string, path: string)
    requires IsReviewablePath(path) && NoBreak(mark)
    ensures StripReturn(mark + path) == mark + path && NoBreak(mark + path)
  {
    hide IsReviewablePath;
    ReviewableBegins(path);
    assert (mark + path)[|mark + path| - 1] == path[|path| - 1];
  }

  lemma PathMarks(x: Extended)
    ensures x.RenameFrom? || x.RenameTo? || x.CopyFrom? || x.CopyTo? ==> NoBreak(Mark(x))
    ensures x.BinaryPatch? ==> LineText(ExtendedText(x))
  {
  }

  lemma ExtendedIsOneLine(x: Extended)
    requires WellFormedExtended(x)
    ensures StripReturn(ExtendedText(x)) == ExtendedText(x) && NoBreak(ExtendedText(x))
  {
    hide IsReviewablePath, ExtendedText, Mark, NoBreak;
    Marked(x);
    PathMarks(x);
    if x.RenameFrom? || x.RenameTo? || x.CopyFrom? || x.CopyTo? { PathLine(Mark(x), Argument(x)); }
  }

  // ----- a git header

  /** The parser inside a git header, `n` of its extended lines read. */
  predicate InHeader(p: Parser, done: seq<Shown>, g: GitHeader, n: nat)
    requires n <= |g.extended|
  {
    && p.file.Some? && !p.headerSeen && ShowsAll(p.files, done)
    && Shows(p.file.value, ExpectGit(g.(extended := g.extended[..n])))
  }

  lemma GitLineEnds(g: GitHeader)
    requires IsReviewablePath(g.oldName) && IsReviewablePath(g.newName)
    ensures StripReturn(GitLine(g)) == GitLine(g) && NoBreak(GitLine(g))
  {
    hide IsReviewablePath;
    ReviewableBegins(g.oldName);
    ReviewableBegins(g.newName);
    var line := GitLine(g);
    assert line[|line| - 1] == g.newName[|g.newName| - 1];
  }

  lemma FreshHeader(g: GitHeader)
    requires g.oldName != DEV_NULL && g.newName != DEV_NULL
    ensures CreateFile(g.oldName, g.newName).Ok?
    ensures Shows(CreateFile(g.oldName, g.newName).value, ExpectGit(g.(extended := g.extended[..0])))
  {
    assert Texts([]) == [];
  }

  lemma GitLineReads(p: Parser, lines: seq<string>, i: nat, done: seq<Shown>, g: GitHeader, unquote: Unquote)
    returns (q: Parser)
    requires Holds(p, done) && |done| < MAX_FILES && WellFormedHeader(g) && i < |lines| && lines[i] == GitLine(g)
    ensures Step(p, lines, i, unquote) == Go(i + 1, q) && InHeader(q, done, g, 0)
    ensures q.countedHunks == p.countedHunks && q.countedLines == p.countedLines
  {
    hide GitPaths, IsReviewablePath, GitLine, OneLine, Shows, CreateFile, Unsplit, StripReturn, WellFormedExtended;
    GitLineEnds(g);
    HeaderNamesRead(g, unquote);
    ReviewableBegins(g.oldName);
    ReviewableBegins(g.newName);
    FreshHeader(g);
    q := GitStep(p, i, lines[i], unquote).parser;
  }

  lemma SaidNext<T>(xs: seq<Extended>, n: nat, says: Extended -> Option<T>, otherwise: T)
    requires n < |xs|
    ensures LastSaid(xs[..n + 1], says, otherwise) == Or(says(xs[n]), LastSaid(xs[..n], says, otherwise))
  {
    assert xs[..n + 1][..n] == xs[..n];
  }

  lemma TextsNext(xs: seq<Extended>, n: nat)
    requires n < |xs|
    ensures Texts(xs[..n + 1]) == Texts(xs[..n]) + [ExtendedText(xs[n])]
  {
    hide ExtendedText;
  }

  /** One more line read: the file is described by it, and it is kept. */
  lemma DescribeShows(file: ReviewFile, g: GitHeader, n: nat)
    requires n < |g.extended| && Shows(file, ExpectGit(g.(extended := g.extended[..n])))
    ensures var x := g.extended[n];
            Shows(Describe(file, x).(metadata := file.metadata + [ExtendedText(x)]), ExpectGit(g.(extended := g.extended[..n + 1])))
  {
    hide LastSaid, ExtendedText, SaysOld, SaysNew, SaysPath, SaysStatus, Texts;
    SaidNext(g.extended, n, SaysPath, g.newName);
    SaidNext(g.extended, n, SaysOld, g.oldName);
    SaidNext(g.extended, n, SaysNew, g.newName);
    SaidNext(g.extended, n, SaysStatus, if g.oldName == g.newName then Modified else Renamed);
    TextsNext(g.extended, n);
  }

  lemma ExtendedLineReads(p: Parser, lines: seq<string>, i: nat, done: seq<Shown>, g: GitHeader, n: nat, unquote: Unquote)
    returns (q: Parser)
    requires n < |g.extended| && InHeader(p, done, g, n) && WellFormedExtended(g.extended[n])
    requires i < |lines| && lines[i] == ExtendedText(g.extended[n])
    ensures Step(p, lines, i, unquote) == Go(if g.extended[n].BinaryPatch? then SkipBinary(lines, i + 1) else i + 1, q)
    ensures InHeader(q, done, g, n + 1) && q.countedHunks == p.countedHunks && q.countedLines == p.countedLines
  {
    hide ExtendedText, Described, Describe, Shows, IsMetadata, StripReturn, ExpectGit, WellFormedExtended, SkipBinary;
    var x := g.extended[n];
    ExtendedIsOneLine(x);
    NotAnotherLine(x);
    Marked(x);
    KindMarksFound(x);
    DescribedAs(p.file.value, x, unquote);
    DescribeShows(p.file.value, g, n);
    DescribeKeepsMetadata(p.file.value, x);
    q := MetadataStep(p, lines, i, lines[i], unquote).parser;
  }

  lemma DescribeKeepsMetadata(file: ReviewFile, x: Extended)
    ensures Describe(file, x).metadata == file.metadata
  {
  }

  lemma {:induction false} SkipsPayload(lines: seq<string>, i: nat, payload: seq<string>, tail: seq<string>)
    requires i <= |lines| && lines[i..] == payload + tail && tail != []
    requires forall k :: 0 <= k < |payload| ==> !("diff --git " <= payload[k])
    requires "diff --git " <= tail[0] || tail == [""]
    ensures SkipBinary(lines, i) == if "diff --git " <= tail[0] then i + |payload| else |lines|
    decreases |payload|
  {
    assert lines[i] == lines[i..][0];
    if payload != [] {
      assert lines[i + 1..] == lines[i..][1..] == payload[1..] + tail;
      SkipsPayload(lines, i + 1, payload[1..], tail);
    }
  }

  lemma ParseGoes(p: Parser, lines: seq<string>, i: nat, next: nat, q: Parser, unquote: Unquote)
    requires i < |lines| && next <= |lines| && Step(p, lines, i, unquote) == Go(next, q)
    ensures ParseFrom(p, lines, i, unquote) == ParseFrom(q, lines, next, unquote)
  {
    hide Step, Conclude, Salvage;
  }

  /** Where reading stands after a header: before what follows, or at the end when a payload swallowed the last line. */
  predicate Continues(lines: seq<string>, j: nat, tail: seq<string>) {
    j <= |lines| && (lines[j..] == tail || (tail == [""] && j == |lines|))
  }

  lemma {:induction false} ExtendedReadBack(p: Parser, lines: seq<string>, i: nat, done: seq<Shown>, g: GitHeader, n: nat,
                                            tail: seq<string>, unquote: Unquote)
    returns (q: Parser, j: nat)
    requires n <= |g.extended| && InHeader(p, done, g, n) && WellFormedHeader(g) && tail != []
    requires i <= |lines| && lines[i..] == ExtendedLines(g.extended[n..]) + tail
    requires g.extended[|g.extended| - 1].BinaryPatch? ==> "diff --git " <= tail[0] || tail == [""]
    ensures Continues(lines, j, tail) && ParseFrom(p, lines, i, unquote) == ParseFrom(q, lines, j, unquote)
    ensures !g.extended[|g.extended| - 1].BinaryPatch? ==> lines[j..] == tail
    ensures InHeader(q, done, g, |g.extended|) && q.countedHunks == p.countedHunks && q.countedLines == p.countedLines
    decreases |g.extended| - n
  {
    hide InHeader, Step, ParseFrom, ExtendedText, SkipBinary, IsReviewablePath, OneLine, Unsplit, ExtendedLines, Continues;
    if n == |g.extended| {
      NothingExtended(g.extended, tail);
      assert Continues(lines, i, tail) by { Arrived(lines, i, tail); }
      q, j := p, i;
    } else {
      var x, rest := g.extended[n], ExtendedLines(g.extended[n + 1..]) + tail;
      var payload := if x.BinaryPatch? then x.payload else [];
      FirstExtended(g.extended, n, tail);
      Peel(lines, i, ExtendedText(x), payload + rest);
      var m := ExtendedLineReads(p, lines, i, done, g, n, unquote);
      if x.BinaryPatch? {
        assert n + 1 == |g.extended|;
        NothingExtended(g.extended, tail);
        SkipsTo(lines, i + 1, payload, tail);
        j := SkipBinary(lines, i + 1);
        ParseGoes(p, lines, i, j, m, unquote);
        q := m;
      } else {
        assert payload + rest == rest;
        ParseGoes(p, lines, i, i + 1, m, unquote);
        q, j := ExtendedReadBack(m, lines, i + 1, done, g, n + 1, tail, unquote);
      }
    }
  }

  lemma NothingExtended(xs: seq<Extended>, tail: seq<string>)
    ensures ExtendedLines(xs[|xs|..]) + tail == tail
  {
  }

  lemma Arrived(lines: seq<string>, i: nat, tail: seq<string>)
    requires i <= |lines| && lines[i..] == tail
    ensures Continues(lines, i, tail)
  {
  }

  lemma FirstExtended(xs: seq<Extended>, n: nat, tail: seq<string>)
    requires n < |xs|
    ensures ExtendedLines(xs[n..]) + tail
         == [ExtendedText(xs[n])] + ((if xs[n].BinaryPatch? then xs[n].payload else []) + (ExtendedLines(xs[n + 1..]) + tail))
  {
    hide ExtendedText;
    assert xs[n..][0] == xs[n] && xs[n..][1..] == xs[n + 1..];
  }

  lemma Peel(lines: seq<string>, i: nat, head: string, more: seq<string>)
    requires i <= |lines| && lines[i..] == [head] + more
    ensures i < |lines| && lines[i] == head && lines[i + 1..] == more
  {
    assert lines[i] == lines[i..][0] && lines[i + 1..] == lines[i..][1..];
  }

  lemma SkipsTo(lines: seq<string>, i: nat, payload: seq<string>, tail: seq<string>)
    requires i <= |lines| && lines[i..] == payload + tail && tail != []
    requires forall k :: 0 <= k < |payload| ==> !("diff --git " <= payload[k])
    requires "diff --git " <= tail[0] || tail == [""]
    ensures Continues(lines, SkipBinary(lines, i), tail)
  {
    hide SkipBinary;
    SkipsPayload(lines, i, payload, tail);
    assert lines[i..][|payload|..] == tail;
  }

  /** A header that stands alone is kept, with its lines. */
  lemma HeaderHolds(p: Parser, done: seq<Shown>, g: GitHeader)
    requires InHeader(p, done, g, |g.extended|) && g.extended != []
    ensures Holds(p, done + [ExpectGit(g)])
    ensures !EndsEarlierFile(p) && p.file.value.metadata == Texts(g.extended) && ShowsAll(p.files, done)
  {
    hide LastSaid, ExtendedText;
    assert g.extended[..|g.extended|] == g.extended && g.(extended := g.extended) == g;
    assert |Texts(g.extended)| > 0;
  }

  // ----- the whole patch

  lemma SectionsBegin(sections: seq<Section>)
    requires WellFormed(sections)
    ensures (PatchLines(sections) + [""])[0] != NO_NEWLINE
    ensures sections != [] && !sections[0].Plain? ==> "diff --git " <= (PatchLines(sections) + [""])[0]
  {
    hide HunkLines, SideName, ExtendedLines, WellFormedSection;
    if sections != [] {
      var first := SectionLines(sections[0])[0];
      assert PatchLines(sections)[0] == first;
      if sections[0].Plain? { assert first[0] == '-'; } else { assert first[0] == 'd'; GitBegins(sections[0]); }
    }
  }

  lemma GitBegins(s: Section)
    requires !s.Plain?
    ensures "diff --git " <= SectionLines(s)[0]
  {
    hide ExtendedLines, FileLines;
    var g := if s.Git? then s.header else s.git;
    assert SectionLines(s)[0] == GitLine(g);
    assert GitLine(g) == "diff --git " + ("a/" + g.oldName + " b/" + g.newName);
  }

  /** The text of one file, after whatever metadata were kept for it. */
  lemma TextReadsBack(p: Parser, lines: seq<string>, i: nat, done: seq<Shown>, f: PatchFile, tail: seq<string>, unquote: Unquote)
    returns (q: Parser, j: nat)
    requires |done| < MAX_FILES && WellFormedFile(f)
    requires EndsEarlierFile(p) || p.file.None? ==> Holds(p, done)
    requires !EndsEarlierFile(p) && p.file.Some? ==> ShowsAll(p.files, done)
    requires i <= |lines| && lines[i..] == FileLines(f) + tail && tail != [] && tail[0] != NO_NEWLINE
    requires p.countedHunks + |f.hunks| <= MAX_HUNKS && p.countedLines + RowsOf(f.hunks) <= MAX_LINES
    ensures j <= |lines| && lines[j..] == tail && ParseFrom(p, lines, i, unquote) == ParseFrom(q, lines, j, unquote)
    ensures var kept := if !EndsEarlierFile(p) && p.file.Some? then p.file.value.metadata else [];
            Holds(q, done + [Expect(f).(metadata := kept)])
    ensures q.file.Some? && q.headerSeen
    ensures q.countedHunks == p.countedHunks + |f.hunks| && q.countedLines == p.countedLines + RowsOf(f.hunks)
  {
    hide Holds, Step, ParseFrom, HunkLines, WellFormedFile, SideName, RowsOf, ShowsAll, EndsEarlierFile;
    var head := ["--- " + SideName(f.oldPath, "a/"), "+++ " + SideName(f.newPath, "b/")];
    assert lines[i..] == head + HunkLines(f.hunks) + tail;
    Sections(lines, i, head, HunkLines(f.hunks), tail);
    var m := FileReadsBack(p, lines, i, done, f, unquote);
    ParseGoes(p, lines, i, i + 2, m, unquote);
    FileHunks(f);
    var kept := if !EndsEarlierFile(p) && p.file.Some? then p.file.value.metadata else [];
    var x := Expect(f).(hunks := [], metadata := kept);
    q := HunksReadBack(m, lines, i + 2, done, x, f.hunks, unquote);
    assert [] + f.hunks == f.hunks && x.(hunks := x.hunks + f.hunks) == Expect(f).(metadata := kept);
    j := i + 2 + |HunkLines(f.hunks)|;
  }

  /** One git header, alone or before its text. */
  lemma GitReadsBack(p: Parser, lines: seq<string>, i: nat, done: seq<Shown>, g: GitHeader, tail: seq<string>, unquote: Unquote)
    returns (q: Parser, j: nat)
    requires Holds(p, done) && |done| < MAX_FILES && WellFormedHeader(g) && tail != []
    requires i <= |lines| && lines[i..] == GitLines(g) + tail
    requires g.extended[|g.extended| - 1].BinaryPatch? ==> "diff --git " <= tail[0] || tail == [""]
    ensures Continues(lines, j, tail) && ParseFrom(p, lines, i, unquote) == ParseFrom(q, lines, j, unquote)
    ensures !g.extended[|g.extended| - 1].BinaryPatch? ==> lines[j..] == tail
    ensures InHeader(q, done, g, |g.extended|) && q.countedHunks == p.countedHunks && q.countedLines == p.countedLines
  {
    hide Holds, Step, ParseFrom, InHeader, GitLine, WellFormedHeader, ExtendedLines;
    var rest := ExtendedLines(g.extended) + tail;
    assert lines[i..] == [GitLine(g)] + rest;
    assert lines[i] == lines[i..][0] && lines[i + 1..] == lines[i..][1..] == rest;
    var m := GitLineReads(p, lines, i, done, g, unquote);
    ParseGoes(p, lines, i, i + 1, m, unquote);
    assert g.extended[0..] == g.extended;
    q, j := ExtendedReadBack(m, lines, i + 1, done, g, 0, tail, unquote);
  }

  lemma RestWellFormed(sections: seq<Section>)
    requires WellFormed(sections) && sections != []
    ensures WellFormedSection(sections[0]) && WellFormed(sections[1..])
    ensures sections[0].Git? && |sections| > 1 ==> !sections[1].Plain?
  {
    hide WellFormedSection;
    assert |sections| > 1 ==> (sections[1].Plain? ==> !sections[1 - 1].Git?);
  }

  /** One section and what its reading leaves. */
  lemma SectionReadsBack(p: Parser, lines: seq<string>, i: nat, done: seq<Shown>, s: Section, tail: seq<string>, unquote: Unquote)
    returns (q: Parser, j: nat)
    requires Holds(p, done) && (s.Plain? ==> Headed(p)) && |done| < MAX_FILES && WellFormedSection(s)
    requires i <= |lines| && lines[i..] == SectionLines(s) + tail && tail != [] && tail[0] != NO_NEWLINE
    requires s.Git? ==> "diff --git " <= tail[0] || tail == [""]
    requires p.countedHunks + |HunksOf(s)| <= MAX_HUNKS && p.countedLines + RowsOf(HunksOf(s)) <= MAX_LINES
    ensures Continues(lines, j, tail) && (!s.Git? ==> lines[j..] == tail)
    ensures ParseFrom(p, lines, i, unquote) == ParseFrom(q, lines, j, unquote)
    ensures Holds(q, done + [ExpectSection(s)]) && (!s.Git? ==> Headed(q))
    ensures q.countedHunks == p.countedHunks + |HunksOf(s)| && q.countedLines == p.countedLines + RowsOf(HunksOf(s))
  {
    hide Holds, ParseFrom, InHeader, GitLines, FileLines, ExpectGit, WellFormedFile, WellFormedHeader, RowsOf, ShowsAll;
    match s {
      case Plain(f) =>
        assert Expect(f).(metadata := []) == Expect(f);
        q, j := TextReadsBack(p, lines, i, done, f, tail, unquote);
      case Git(g) =>
        assert RowsOf([]) == 0 by { NoRows(); }
        HeaderHasLines(g);
        q, j := GitReadsBack(p, lines, i, done, g, tail, unquote);
        HeaderHolds(q, done, g);
      case Both(g, f) =>
        HeaderHasLines(g);
        var text := FileLines(f) + tail;
        assert lines[i..] == GitLines(g) + text && text != [] by { TextBegins(f); }
        var m, k := GitReadsBack(p, lines, i, done, g, text, unquote);
        HeaderHolds(m, done, g);
        InHeaderHasFile(m, done, g);
        q, j := TextReadsBack(m, lines, k, done, f, tail, unquote);
    }
  }

  lemma NoRows()
    ensures RowsOf([]) == 0
  {
  }

  lemma HeaderHasLines(g: GitHeader)
    requires WellFormedHeader(g)
    ensures g.extended != []
  {
  }

  lemma TextBegins(f: PatchFile)
    ensures FileLines(f) != []
  {
  }

  lemma InHeaderHasFile(p: Parser, done: seq<Shown>, g: GitHeader)
    requires InHeader(p, done, g, |g.extended|)
    ensures p.file.Some?
  {
  }

  lemma {:induction false} SectionsReadBack(p: Parser, lines: seq<string>, i: nat, done: seq<Shown>, todo: seq<Section>, unquote: Unquote)
    requires Holds(p, done) && (todo != [] && todo[0].Plain? ==> Headed(p))
    requires |done| + |todo| < MAX_FILES && WellFormed(todo)
    requires Continues(lines, i, PatchLines(todo) + [""])
    requires p.countedHunks + AllPatchHunks(todo) <= MAX_HUNKS && p.countedLines + AllRows(todo) <= MAX_LINES
    ensures var review := ParseFrom(p, lines, i, unquote); review.notice.None? && ShowsAll(review.files, done + ExpectAll(todo))
    decreases |todo|
  {
    hide Holds, ParseFrom, SectionLines, WellFormedSection, ExpectSection, RowsOf, HunksOf, ShowsAll;
    if todo == [] {
      assert done + ExpectAll(todo) == done;
      if i == |lines| { NothingLeft(p, lines, done, unquote); } else { EndReadsBack(p, lines, i, done, unquote); }
    } else {
      var s, rest := todo[0], todo[1..];
      var tail := PatchLines(rest) + [""];
      RestWellFormed(todo);
      SectionsBegin(rest);
      SomethingLeft(todo);
      assert lines[i..] == SectionLines(s) + tail;
      var q, j := SectionReadsBack(p, lines, i, done, s, tail, unquote);
      SectionsReadBack(q, lines, j, done + [ExpectSection(s)], rest, unquote);
      assert done + [ExpectSection(s)] + ExpectAll(rest) == done + ExpectAll(todo);
    }
  }

  lemma SomethingLeft(sections: seq<Section>)
    requires sections != []
    ensures PatchLines(sections) != [] && PatchLines(sections) + [""] != [""]
    ensures PatchLines(sections) + [""] == SectionLines(sections[0]) + (PatchLines(sections[1..]) + [""])
  {
    hide HunkLines, SideName, ExtendedLines, GitLine;
    assert |SectionLines(sections[0])| >= 1;
    assert |PatchLines(sections) + [""]| > 1;
  }

  lemma NothingLeft(p: Parser, lines: seq<string>, done: seq<Shown>, unquote: Unquote)
    requires Holds(p, done) && |done| < MAX_FILES
    ensures var review := ParseFrom(p, lines, |lines|, unquote); review.notice.None? && ShowsAll(review.files, done)
  {
    hide Shows;
  }

  // ----- text

  lemma {:induction false} ExtendedUnbroken(xs: seq<Extended>)
    requires forall k :: 0 <= k < |xs| ==> WellFormedExtended(xs[k])
    ensures AllUnbroken(ExtendedLines(xs))
  {
    hide NoBreak, ExtendedText;
    if xs != [] {
      ExtendedIsOneLine(xs[0]);
      PayloadUnbroken(xs[0]);
      ExtendedUnbroken(xs[1..]);
    }
  }

  lemma PayloadUnbroken(x: Extended)
    requires WellFormedExtended(x)
    ensures x.BinaryPatch? ==> AllUnbroken(x.payload)
  {
  }

  lemma FileUnbroken(f: PatchFile)
    requires WellFormedFile(f)
    ensures AllUnbroken(FileLines(f))
  {
    hide HunkLines, SideName, WellFormedHunks, WellFormedPath;
    NameEnds(f.oldPath, "a/", "--- ");
    NameEnds(f.newPath, "b/", "+++ ");
    HunkLinesUnbroken(f.hunks);
  }

  lemma GitUnbroken(g: GitHeader)
    requires WellFormedHeader(g)
    ensures AllUnbroken(GitLines(g))
  {
    hide NoBreak, GitLine, IsReviewablePath, WellFormedExtended;
    GitLineEnds(g);
    ExtendedUnbroken(g.extended);
  }

  lemma {:induction false} PatchUnbroken(sections: seq<Section>)
    requires WellFormed(sections)
    ensures AllUnbroken(PatchLines(sections))
  {
    hide NoBreak, FileLines, GitLines, WellFormedFile, WellFormedHeader;
    if sections != [] {
      RestWellFormed(sections);
      match sections[0] {
        case Plain(f) => FileUnbroken(f);
        case Git(g) => GitUnbroken(g);
        case Both(g, f) => GitUnbroken(g); FileUnbroken(f);
      }
      PatchUnbroken(sections[1..]);
    }
  }

  predicate WithinLimits(sections: seq<Section>) {
    && |sections| < 100 && |Print(sections)| <= 1_000_000
    && AllPatchHunks(sections) <= 1_000 && AllRows(sections) <= 20_000
  }

  /** Reading what was printed shows the same paths, status, metadata, hunks and rows, and no notice. */
  lemma DiffRoundTrip(sections: seq<Section>, unquote: Unquote)
    requires WellFormed(sections) && WithinLimits(sections)
    ensures var review := Parse(Print(sections), unquote); review.notice.None? && ShowsAll(review.files, ExpectAll(sections))
  {
    hide PatchLines, ParseFrom, ShowsAll, Unlines, SplitAt, AllPatchHunks, AllRows, WellFormed;
    PatchUnbroken(sections);
    UnlinesSplits(PatchLines(sections));
    var lines := PatchLines(sections) + [""];
    assert lines[0..] == lines && [] + ExpectAll(sections) == ExpectAll(sections);
    NothingHeld();
    SectionsReadBack(FRESH, lines, 0, [], sections, unquote);
  }

  // ----- when a header's names read back

  lemma {:induction false} SplitIsLast(header: string, p: nat, q: nat)
    requires 0 < q <= p <= |header| && SplitsBefore(header, q)
    ensures GitSplit(header, p).Some? && GitSplit(header, p).value >= q - 1
    decreases p
  {
    hide WholeName;
    if p > q && !SplitsBefore(header, p) { SplitIsLast(header, p - 1, q); }
  }

  lemma {:induction false} BeforeIsShorter(text: string, c: char)
    ensures |Before(text, c)| <= |text|
  {
    if text != "" && text[0] != c { BeforeIsShorter(text[1..], c); }
  }

  lemma SideIsShorter(value: string, unquote: Unquote)
    requires "b/" <= value
    ensures var r := PathFromHeader(value, true, unquote); r.Ok? && r.value != DEV_NULL ==> |r.value| + 2 <= |value|
  {
    hide IsReviewablePath;
    assert value[0] == 'b' && value[1] == '/';
    BeforeIsShorter(value[1..], '\t');
    BeforeIsShorter(value[2..], '\t');
    assert value[1..][1..] == value[2..];
    assert Before(value, '\t') == ['b'] + (['/'] + Before(value[2..], '\t'));
  }

  /**
    The grammar of a git header takes the last space that fits: its names read back if
    and only if the new name holds no ` b/` with something after it.
   */
  lemma HeaderNamesExactly(g: GitHeader, unquote: Unquote)
    requires IsReviewablePath(g.oldName) && IsReviewablePath(g.newName) && OneLine(g.oldName) && OneLine(g.newName)
    requires '"' !in g.newName
    ensures |GitLine(g)| >= 11 && (GitPaths(GitLine(g), unquote) == Ok((g.oldName, g.newName)) <==> Unsplit(g.newName))
  {
    hide IsReviewablePath, OneLine, PathFromHeader, GitSplit;
    if Unsplit(g.newName) {
      HeaderNamesRead(g, unquote);
    } else {
      var j: nat :| j < |g.newName| && SplitsAt(g.newName, j);
      LateSplitMisreads(g, j, unquote);
    }
  }

  lemma OneLineParts(a: string, b: string, n: nat)
    requires OneLine(a) && OneLine(b) && n <= |b|
    ensures OneLine(a + " b/" + b[..n]) && OneLine(b[n..])
  {
  }

  /** Where the new name splits again, the grammar accepts the later space. */
  lemma LateSplitAccepted(g: GitHeader, j: nat)
    requires OneLine(g.oldName) && OneLine(g.newName) && SplitsAt(g.newName, j)
    ensures var header := "a/" + g.oldName + " b/" + g.newName;
            |g.oldName| + 6 + j <= |header| && SplitsBefore(header, |g.oldName| + 6 + j)
  {
    hide OneLine, WholeName;
    var header, q := "a/" + g.oldName + " b/" + g.newName, |g.oldName| + 6 + j;
    OneLineParts(g.oldName, g.newName, j);
    OneLineParts(g.oldName, g.newName, j + 3);
    LateRest(g.newName, j);
    var left := g.oldName + " b/" + g.newName[..j];
    assert header == ("a/" + left) + (" " + g.newName[j + 1..]) by {
      assert g.newName == g.newName[..j] + [' '] + g.newName[j + 1..];
    }
    assert |"a/" + left| == q - 1;
    Cut("a/" + left, g.newName[j + 1..]);
    WholeSide(left, "a/");
    WholeSide(g.newName[j + 3..], "b/");
  }

  lemma Cut(left: string, right: string)
    ensures var all := left + (" " + right); all[..|left|] == left && all[|left|] == ' ' && all[|left| + 1..] == right
  {
  }

  lemma LateSplitMisreads(g: GitHeader, j: nat, unquote: Unquote)
    requires IsReviewablePath(g.newName) && OneLine(g.oldName) && OneLine(g.newName) && '"' !in g.newName
    requires SplitsAt(g.newName, j)
    ensures |GitLine(g)| >= 11 && GitPaths(GitLine(g), unquote) != Ok((g.oldName, g.newName))
  {
    hide IsReviewablePath, OneLine, PathFromHeader, GitSplit, SplitsBefore;
    ReviewableBegins(g.newName);
    var header := "a/" + g.oldName + " b/" + g.newName;
    assert GitLine(g) == "diff --git " + header && GitLine(g)[11..] == header;
    LateSplitAccepted(g, j);
    SplitIsLast(header, |header|, |g.oldName| + 6 + j);
    SplitAccepted(header, |header|);
    var at := GitSplit(header, |header|).value;
    ShorterRest(g, at, unquote);
  }

  lemma ShorterRest(g: GitHeader, at: nat, unquote: Unquote)
    requires '"' !in g.newName && g.newName != "" && |g.oldName| + 5 <= at < |g.oldName| + 5 + |g.newName|
    requires var header := "a/" + g.oldName + " b/" + g.newName; SplitsBefore(header, at + 1)
    ensures var header := "a/" + g.oldName + " b/" + g.newName;
            var r := PathFromHeader(header[at + 1..], true, unquote);
            r.Ok? && r.value != DEV_NULL ==> |r.value| < |g.newName|
  {
    hide PathFromHeader, SplitsBefore;
    var header, k := "a/" + g.oldName + " b/" + g.newName, at - |g.oldName| - 5;
    LaterSplit(g.oldName, g.newName, at + 1);
    Suffix("a/" + g.oldName + " b/", g.newName, k + 1);
    LateRest(g.newName, k);
    SideIsShorter(header[at + 1..], unquote);
  }

  lemma Suffix(head: string, name: string, n: nat)
    requires n <= |name|
    ensures (head + name)[|head| + n..] == name[n..]
  {
  }

  lemma LateRest(name: string, j: nat)
    requires SplitsAt(name, j)
    ensures name[j + 1..] == "b/" + name[j + 3..] && name[j] == ' '
  {
    assert name[j..j + 3][0] == ' ' && name[j..j + 3][1] == 'b' && name[j..j + 3][2] == '/';
  }

  lemma {:induction false} SplitAccepted(header: string, p: nat)
    requires p <= |header|
    ensures GitSplit(header, p).Some? ==> GitSplit(header, p).value < p && SplitsBefore(header, GitSplit(header, p).value + 1)
  {
    hide WholeName;
    if p > 0 { SplitAccepted(header, p - 1); }
  }

  // ----- quoted names

  /** A quoted token that decodes to the name with its side. */
  predicate TokenFor(token: string, side: string, name: string, unquote: Unquote) {
    token != "" && token[0] == '"' && PatchSafety.TokenCloses(token, 1) && unquote(token) == Some(side + name)
  }

  lemma TokenReads(token: string, side: string, name: string, unquote: Unquote)
    requires TokenFor(token, side, name, unquote) && IsReviewablePath(name) && side in {"a/", "b/"}
    ensures WholeName(token, side) && PathFromHeader(token, true, unquote) == Ok(name)
  {
    hide IsReviewablePath, PatchSafety.TokenCloses;
    PatchSafety.TokenEnds(token, 1, "");
    PatchSafety.QuotedNameReads(token, "", unquote);
    assert token + "" == token;
    assert (side + name)[..2] == side && (side + name)[2..] == name;
    assert (side + name)[0] != '/';
  }

  /** A header whose old name is quoted reads back both names, the new one quoted or not, whatever they hold. */
  lemma QuotedHeaderReads(token: string, oldName: string, second: string, newName: string, unquote: Unquote)
    requires TokenFor(token, "a/", oldName, unquote) && IsReviewablePath(oldName) && IsReviewablePath(newName)
    requires TokenFor(second, "b/", newName, unquote) || (second == "b/" + newName && OneLine(newName))
    ensures GitPaths("diff --git " + token + " " + second, unquote) == Ok((oldName, newName))
  {
    hide WholeName, PathFromHeader, IsReviewablePath, OneLine, GitSplit, PatchSafety.TokenCloses;
    var header, at := token + " " + second, |token|;
    var line := "diff --git " + token + " " + second;
    assert line == "diff --git " + header && line[11..] == header;
    ReviewableBegins(newName);
    TokenReads(token, "a/", oldName, unquote);
    if TokenFor(second, "b/", newName, unquote) { TokenReads(second, "b/", newName, unquote); }
    else { WholeSide(newName, "b/"); SidedPathReads(newName, "b/", unquote); }
    Cut(token, second);
    assert header == token + (" " + second);
    assert header[..at] == token && header[at] == ' ' && header[at + 1..] == second;
    assert SplitsBefore(header, at + 1);
    forall q | at + 1 < q <= |header| ensures !SplitsBefore(header, q) {
      assert header[..q - 1] == token + header[at..q - 1];
      LongerIsNotWhole(token, header[at..q - 1]);
    }
    LastSplit(header, |header|, at);
  }

  lemma LongerIsNotWhole(token: string, rest: string)
    requires token != "" && token[0] == '"' && PatchSafety.TokenCloses(token, 1) && rest != ""
    ensures !WholeName(token + rest, "a/")
  {
    PatchSafety.TokenEnds(token, 1, rest);
    assert (token + rest)[0] == '"';
  }
}
