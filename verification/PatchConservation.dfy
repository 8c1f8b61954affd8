/**
  Conservation of a patch's lines.  In a text read without a notice every line is blank,
  a file header or a binary payload, or it is shown: as metadata, as a hunk's header or
  as a row, in its order.  After an error the same holds of the rows up to where reading
  stopped, so no row is ever invented, lost or moved.
 */
module PatchConservation {
  import opened PatchReview

  /** What became of a line. */
  datatype Use = Blank | Header | Payload | AsMetadata | AsHunk | AsRow

  // ----- what is shown

  /** The line a row stands for. */
  function RowText(row: ReviewLine): string {
    match row.kind
    case Addition => "+" + row.text
    case Deletion => "-" + row.text
    case Context => " " + row.text
    case NoteRow => row.text
  }

  function RowTexts(rows: seq<ReviewLine>): (r: seq<string>)
    ensures |r| == |rows|
  {
    seq(|rows|, k requires 0 <= k < |rows| => RowText(rows[k]))
  }

  function HunkTexts(hunks: seq<ReviewHunk>): seq<string> {
    if hunks == [] then []
    else HunkTexts(hunks[..|hunks| - 1]) + [hunks[|hunks| - 1].header] + RowTexts(hunks[|hunks| - 1].lines)
  }

  function ShownHunks(files: seq<ReviewFile>): seq<string> {
    if files == [] then [] else ShownHunks(files[..|files| - 1]) + HunkTexts(files[|files| - 1].hunks)
  }

  function ShownMetadata(files: seq<ReviewFile>): seq<string> {
    if files == [] then [] else ShownMetadata(files[..|files| - 1]) + files[|files| - 1].metadata
  }

  // ----- what became of the lines

  /** Rows are read as they stand, other lines without a carriage return at their end. */
  function AsRead(line: string, use: Use): string { if use.AsRow? then line else StripReturn(line) }

  /** The lines of these uses, in order. */
  function Picked(lines: seq<string>, uses: seq<Use>, kinds: set<Use>): seq<string>
    requires |uses| <= |lines|
  {
    if uses == [] then []
    else
      var n := |uses| - 1;
      Picked(lines, uses[..n], kinds) + (if uses[n] in kinds then [AsRead(lines[n], uses[n])] else [])
  }

  /** The lines of a git header after its first. */
  predicate Describes(line: string) {
    || "index " <= line || "old mode " <= line || "new mode " <= line || "new file mode " <= line || "deleted file mode " <= line
    || "similarity index " <= line || "dissimilarity index " <= line || "rename from " <= line || "rename to " <= line
    || "copy from " <= line || "copy to " <= line || "Binary files " <= line || "GIT binary patch" <= line
  }

  lemma MetadataDescribes(line: string)
    requires IsMetadata(line)
    ensures Describes(line)
  {
    var k :| 0 <= k < |METADATA| && METADATA[k] <= line;
  }

  /** The line is such that it may have been used so. */
  predicate Proper(lines: seq<string>, uses: seq<Use>, k: nat)
    requires k < |uses| <= |lines|
  {
    var line := StripReturn(lines[k]);
    match uses[k]
    case Blank => line == "" || line == "\r"
    case Header =>
      "diff --git " <= line || "--- " <= line
      || (k > 0 && uses[k - 1].Header? && "--- " <= StripReturn(lines[k - 1]) && "+++ " <= lines[k])
    case Payload =>
      !("diff --git " <= lines[k])
      && k > 0 && (uses[k - 1].Payload? || (uses[k - 1].AsMetadata? && StripReturn(lines[k - 1]) == "GIT binary patch"))
    case AsMetadata => Describes(line)
    case AsHunk => "@@ " <= line
    case AsRow =>
      (lines[k] == NO_NEWLINE || (lines[k] != "" && lines[k][0] in {' ', '+', '-'}))
      && k > 0 && (uses[k - 1].AsHunk? || uses[k - 1].AsRow?)
  }

  predicate AllProper(lines: seq<string>, uses: seq<Use>)
    requires |uses| <= |lines|
  {
    forall k :: 0 <= k < |uses| ==> Proper(lines, uses, k)
  }

  const SHOWN: set<Use> := {AsHunk, AsRow}

  /** The lines used so far are proper, and the hunks' lines are those shown. */
  predicate RowsShown(lines: seq<string>, uses: seq<Use>, files: seq<ReviewFile>) {
    |uses| <= |lines| && AllProper(lines, uses) && Picked(lines, uses, SHOWN) == ShownHunks(files)
  }

  /** And so is the metadata. */
  predicate Accounted(lines: seq<string>, uses: seq<Use>, files: seq<ReviewFile>) {
    RowsShown(lines, uses, files) && Picked(lines, uses, {AsMetadata}) == ShownMetadata(files)
  }

  // ----- adding files, hunks and lines

  function Held(p: Parser): seq<ReviewFile> { if p.file.Some? then p.files + [p.file.value] else p.files }

  lemma WithFile(files: seq<ReviewFile>, f: ReviewFile)
    ensures ShownHunks(files + [f]) == ShownHunks(files) + HunkTexts(f.hunks)
    ensures ShownMetadata(files + [f]) == ShownMetadata(files) + f.metadata
  {
    assert (files + [f])[..|files|] == files;
  }

  lemma WithHunk(hunks: seq<ReviewHunk>, h: ReviewHunk)
    ensures HunkTexts(hunks + [h]) == HunkTexts(hunks) + ([h.header] + RowTexts(h.lines))
  {
    assert (hunks + [h])[..|hunks|] == hunks;
  }

  lemma WithRow(rows: seq<ReviewLine>, row: ReviewLine)
    ensures RowTexts(rows + [row]) == RowTexts(rows) + [RowText(row)]
  {
  }

  lemma NothingShown()
    ensures HunkTexts([]) == [] && ShownHunks([]) == [] && ShownMetadata([]) == [] && RowTexts([]) == []
  {
  }

  lemma WithUse(lines: seq<string>, uses: seq<Use>, use: Use, kinds: set<Use>)
    requires |uses| < |lines|
    ensures Picked(lines, uses + [use], kinds) == Picked(lines, uses, kinds) + (if use in kinds then [AsRead(lines[|uses|], use)] else [])
  {
    assert (uses + [use])[..|uses|] == uses;
  }

  lemma StillProper(lines: seq<string>, uses: seq<Use>, use: Use)
    requires |uses| < |lines| && AllProper(lines, uses) && Proper(lines, uses + [use], |uses|)
    ensures AllProper(lines, uses + [use])
  {
    forall k | 0 <= k < |uses| + 1 ensures Proper(lines, uses + [use], k) {
      if k < |uses| {
        assert Proper(lines, uses, k);
        assert (uses + [use])[k] == uses[k] && (k > 0 ==> (uses + [use])[k - 1] == uses[k - 1]);
      }
    }
  }

  /** One more line that is neither shown nor metadata. */
  lemma PassesOver(lines: seq<string>, uses: seq<Use>, use: Use, files: seq<ReviewFile>)
    requires Accounted(lines, uses, files) && |uses| < |lines| && use !in {AsHunk, AsRow, AsMetadata}
    requires Proper(lines, uses + [use], |uses|)
    ensures Accounted(lines, uses + [use], files)
  {
    hide AllProper, Proper, Picked;
    StillProper(lines, uses, use);
    WithUse(lines, uses, use, SHOWN);
    WithUse(lines, uses, use, {AsMetadata});
  }

  // ----- rows

  /** Rows are the lines they were read from. */
  lemma {:induction false} RowsAreLines(lines: seq<string>, i: nat, rows: seq<ReviewLine>, oldRead: nat, newRead: nat,
                                        counted: nat, c: Coordinates, deleted: bool)
    requires i <= |lines|
    ensures var r := RowsFrom(lines, i, rows, oldRead, newRead, counted, c, deleted);
            r.Ok? ==>
              && i <= r.value.next <= |lines|
              && RowTexts(r.value.rows) == RowTexts(rows) + lines[i..r.value.next]
              && forall k :: i <= k < r.value.next ==> lines[k] == NO_NEWLINE || IsRow(lines[k])
    decreases |lines| - i
  {
    hide RowTexts;
    assert RowTexts(rows) + lines[i..i] == RowTexts(rows);
    WithRow(rows, NOTE);
    if i < |lines| {
      assert lines[i..i + 1] == [lines[i]];
      if !(oldRead >= c.oldCount && newRead >= c.newCount) {
        if lines[i] == NO_NEWLINE && rows != [] {
          RowsAreLines(lines, i + 1, rows + [NOTE], oldRead, newRead, counted, c, deleted);
          Reassociates(RowTexts(rows), lines, i, RowsFrom(lines, i + 1, rows + [NOTE], oldRead, newRead, counted, c, deleted));
        } else if IsRow(lines[i]) {
          var row := Entry(lines[i], c.oldStart + oldRead, c.newStart + newRead, c, deleted);
          var o := if lines[i][0] != '+' then oldRead + 1 else oldRead;
          var n := if lines[i][0] != '-' then newRead + 1 else newRead;
          WithRow(rows, row);
          assert RowText(row) == lines[i];
          RowsAreLines(lines, i + 1, rows + [row], o, n, counted + 1, c, deleted);
          Reassociates(RowTexts(rows), lines, i, RowsFrom(lines, i + 1, rows + [row], o, n, counted + 1, c, deleted));
        }
      }
    }
  }

  lemma Reassociates(before: seq<string>, lines: seq<string>, i: nat, r: Result<HunkRead>)
    requires i < |lines|
    ensures r.Ok? && i + 1 <= r.value.next <= |lines| ==>
              before + [lines[i]] + lines[i + 1..r.value.next] == before + lines[i..r.value.next]
  {
    if r.Ok? && i + 1 <= r.value.next <= |lines| {
      assert lines[i..r.value.next] == [lines[i]] + lines[i + 1..r.value.next];
    }
  }

  /** Using the lines up to `next` as rows. */
  lemma {:induction false} UsesRows(lines: seq<string>, uses: seq<Use>, next: nat) returns (all: seq<Use>)
    requires 0 < |uses| <= next <= |lines| && AllProper(lines, uses)
    requires uses[|uses| - 1].AsHunk? || uses[|uses| - 1].AsRow?
    requires forall k :: |uses| <= k < next ==> lines[k] == NO_NEWLINE || IsRow(lines[k])
    ensures |all| == next && AllProper(lines, all)
    ensures Picked(lines, all, SHOWN) == Picked(lines, uses, SHOWN) + lines[|uses|..next]
    ensures Picked(lines, all, {AsMetadata}) == Picked(lines, uses, {AsMetadata})
    decreases next - |uses|
  {
    hide AllProper, Picked;
    if |uses| == next {
      all := uses;
      assert Picked(lines, uses, SHOWN) + lines[next..next] == Picked(lines, uses, SHOWN);
    } else {
      var n := |uses|;
      StillProper(lines, uses, AsRow);
      WithUse(lines, uses, AsRow, SHOWN);
      WithUse(lines, uses, AsRow, {AsMetadata});
      all := UsesRows(lines, uses + [AsRow], next);
      assert lines[n..next] == [lines[n]] + lines[n + 1..next];
      assert Picked(lines, uses, SHOWN) + [lines[n]] + lines[n + 1..next] == Picked(lines, uses, SHOWN) + lines[n..next];
    }
  }

  // ----- one step

  /** Finishing a file drops it only when it has nothing to show. */
  lemma FinishingKeeps(p: Parser)
    ensures ShownHunks(Finished(p).files) == ShownHunks(Held(p)) && ShownMetadata(Finished(p).files) == ShownMetadata(Held(p))
    ensures Held(Finished(p)) == Finished(p).files
  {
    if p.file.Some? { WithFile(p.files, p.file.value); }
    NothingShown();
  }

  /** What an error keeps shows every row that was held. */
  lemma SalvageKeeps(p: Parser)
    ensures ShownHunks(Salvage(p)) == ShownHunks(Held(p))
  {
    if p.file.Some? { WithFile(p.files, p.file.value); }
    NothingShown();
  }

  lemma GitAccounts(p: Parser, lines: seq<string>, i: nat, uses: seq<Use>, unquote: Unquote)
    requires |uses| == i < |lines| && Accounted(lines, uses, Held(p)) && "diff --git " <= StripReturn(lines[i])
    ensures var m := GitStep(p, i, StripReturn(lines[i]), unquote);
            if m.Go? then m.next == i + 1 && Accounted(lines, uses + [Header], Held(m.parser))
            else RowsShown(lines, uses, Held(m.parser))
  {
    hide GitPaths, AllProper, Picked, ShownHunks, ShownMetadata, HunkTexts;
    var m := GitStep(p, i, StripReturn(lines[i]), unquote);
    FinishingKeeps(p);
    if m.Go? {
      PassesOver(lines, uses, Header, Held(p));
      WithFile(Finished(p).files, m.parser.file.value);
      NothingShown();
    }
  }

  lemma HeaderIsFresh(line: string, next: string, unquote: Unquote)
    requires |line| >= 4 && |next| >= 4
    ensures var r := HeaderFile(line, next, unquote); r.Ok? ==> r.value.hunks == []
  {
    hide PathFromHeader;
  }

  lemma FileAccounts(p: Parser, lines: seq<string>, i: nat, uses: seq<Use>, unquote: Unquote)
    requires |uses| == i < |lines| && Accounted(lines, uses, Held(p)) && "--- " <= StripReturn(lines[i])
    ensures var m := FileStep(p, lines, i, StripReturn(lines[i]), unquote);
            if m.Go? then m.next == i + 2 <= |lines| && Accounted(lines, uses + [Header] + [Header], Held(m.parser))
            else RowsShown(lines, uses, Held(m.parser))
  {
    hide HeaderFile, AllProper, Picked, ShownHunks, ShownMetadata, HunkTexts, Kept;
    var m := FileStep(p, lines, i, StripReturn(lines[i]), unquote);
    FinishingKeeps(p);
    if m.Go? {
      HeaderIsFresh(StripReturn(lines[i]), lines[i + 1], unquote);
      PassesOver(lines, uses, Header, Held(p));
      PassesOver(lines, uses + [Header], Header, Held(p));
      WithFile(m.parser.files, m.parser.file.value);
      if !EndsEarlierFile(p) && p.file.Some? { WithFile(p.files, p.file.value); }
      NothingShown();
      assert forall s: seq<string> :: s + [] == s;
    }
  }

  lemma HunkAccounts(p: Parser, lines: seq<string>, i: nat, uses: seq<Use>) returns (all: seq<Use>)
    requires |uses| == i < |lines| && Accounted(lines, uses, Held(p)) && "@@ " <= StripReturn(lines[i])
    ensures var m := HunkStep(p, lines, i, StripReturn(lines[i]));
            if m.Go? then |all| == m.next && Accounted(lines, all, Held(m.parser)) else m.parser == p
  {
    hide HunkHeader, SafeCoordinates, RowsFrom, AllProper, Picked, ShownHunks, ShownMetadata, HunkTexts, RowTexts, Contexts;
    var line := StripReturn(lines[i]);
    var m := HunkStep(p, lines, i, line);
    all := uses;
    if m.Go? {
      var f, c := p.file.value, HunkHeader(line).value;
      RowsAreLines(lines, i + 1, [], 0, 0, p.countedLines, c, f.newPath == DEV_NULL);
      var rows := RowsFrom(lines, i + 1, [], 0, 0, p.countedLines, c, f.newPath == DEV_NULL).value.rows;
      StillProper(lines, uses, AsHunk);
      WithUse(lines, uses, AsHunk, SHOWN);
      WithUse(lines, uses, AsHunk, {AsMetadata});
      all := UsesRows(lines, uses + [AsHunk], m.next);
      NothingShown();
      WithHunk(f.hunks, ReviewHunk(line, c.oldStart, c.newStart, rows));
      WithFile(p.files, f);
      WithFile(p.files, m.parser.file.value);
      HunkAppends(ShownHunks(p.files), HunkTexts(f.hunks), line, lines[i + 1..m.next], RowTexts(rows));
    }
  }

  lemma HunkAppends(files: seq<string>, hunks: seq<string>, line: string, rest: seq<string>, rows: seq<string>)
    requires rows == [] + rest
    ensures files + hunks + [line] + rest == files + (hunks + ([line] + rows))
  {
  }

  /** The payload of a binary patch, up to `next`. */
  lemma {:induction false} UsesPayload(lines: seq<string>, uses: seq<Use>, next: nat, files: seq<ReviewFile>) returns (all: seq<Use>)
    requires 0 < |uses| <= next <= |lines| && Accounted(lines, uses, files)
    requires uses[|uses| - 1].Payload? || (uses[|uses| - 1].AsMetadata? && StripReturn(lines[|uses| - 1]) == "GIT binary patch")
    requires forall k :: |uses| <= k < next ==> !("diff --git " <= lines[k])
    ensures |all| == next && Accounted(lines, all, files)
    decreases next - |uses|
  {
    hide Accounted;
    if |uses| == next { all := uses; }
    else {
      PassesOver(lines, uses, Payload, files);
      all := UsesPayload(lines, uses + [Payload], next, files);
    }
  }

  lemma DescriptionOnlyDescribes(f: ReviewFile, line: string, unquote: Unquote)
    ensures var r := Described(f, line, unquote); r.Ok? ==> r.value.hunks == f.hunks && r.value.metadata == f.metadata
  {
    hide PathFromHeader;
  }

  lemma MetadataAccounts(p: Parser, lines: seq<string>, i: nat, uses: seq<Use>, unquote: Unquote) returns (all: seq<Use>)
    requires |uses| == i < |lines| && Accounted(lines, uses, Held(p)) && p.file.Some?
    requires IsMetadata(StripReturn(lines[i]))
    ensures var m := MetadataStep(p, lines, i, StripReturn(lines[i]), unquote);
            if m.Go? then |all| == m.next && Accounted(lines, all, Held(m.parser)) else m.parser == p
  {
    hide Described, AllProper, Picked, ShownHunks, ShownMetadata, HunkTexts, Describes, IsMetadata;
    var line := StripReturn(lines[i]);
    MetadataDescribes(line);
    var m := MetadataStep(p, lines, i, line, unquote);
    all := uses;
    if m.Go? {
      DescriptionOnlyDescribes(p.file.value, line, unquote);
      StillProper(lines, uses, AsMetadata);
      WithUse(lines, uses, AsMetadata, SHOWN);
      WithUse(lines, uses, AsMetadata, {AsMetadata});
      WithFile(p.files, p.file.value);
      WithFile(p.files, m.parser.file.value);
      assert ShownMetadata(p.files) + p.file.value.metadata + [line] == ShownMetadata(p.files) + (p.file.value.metadata + [line]);
      all := uses + [AsMetadata];
      if line == "GIT binary patch" { all := UsesPayload(lines, all, m.next, Held(m.parser)); }
    }
  }

  /** One step of the reader accounts for the lines it takes. */
  lemma StepAccounts(p: Parser, lines: seq<string>, i: nat, uses: seq<Use>, unquote: Unquote) returns (all: seq<Use>)
    requires |uses| == i < |lines| && Accounted(lines, uses, Held(p))
    ensures var m := Step(p, lines, i, unquote);
            if m.Go? then |all| == m.next && Accounted(lines, all, Held(m.parser)) else all == uses && RowsShown(lines, all, Held(m.parser))
  {
    hide GitStep, FileStep, HunkStep, MetadataStep, Accounted, IsMetadata, Held, RowsShown;
    Shows(lines, uses, Held(p));
    var line, m := StripReturn(lines[i]), Step(p, lines, i, unquote);
    all := uses;
    if "diff --git " <= line {
      GitAccounts(p, lines, i, uses, unquote);
      if m.Go? { all := uses + [Header]; }
    } else if "--- " <= line {
      FileAccounts(p, lines, i, uses, unquote);
      if m.Go? { all := uses + [Header] + [Header]; }
    } else if "@@ " <= line {
      var more := HunkAccounts(p, lines, i, uses);
      if m.Go? { all := more; }
    } else if p.file.Some? && IsMetadata(line) {
      var more := MetadataAccounts(p, lines, i, uses, unquote);
      if m.Go? { all := more; }
    } else if line == "" || line == "\r" {
      PassesOver(lines, uses, Blank, Held(p));
      all := uses + [Blank];
    }
  }

  lemma Shows(lines: seq<string>, uses: seq<Use>, files: seq<ReviewFile>)
    requires Accounted(lines, uses, files)
    ensures RowsShown(lines, uses, files)
  {
  }

  lemma Alike(lines: seq<string>, uses: seq<Use>, files: seq<ReviewFile>, others: seq<ReviewFile>)
    requires ShownHunks(files) == ShownHunks(others)
    ensures RowsShown(lines, uses, files) == RowsShown(lines, uses, others)
    ensures ShownMetadata(files) == ShownMetadata(others) ==> Accounted(lines, uses, files) == Accounted(lines, uses, others)
  {
  }

  // ----- the whole text

  lemma {:induction false} ParseAccounts(p: Parser, lines: seq<string>, i: nat, uses: seq<Use>, unquote: Unquote)
    returns (all: seq<Use>)
    requires |uses| == i <= |lines| && Accounted(lines, uses, Held(p))
    ensures var review := ParseFrom(p, lines, i, unquote);
            && RowsShown(lines, all, review.files)
            && (review.notice.None? ==> |all| == |lines| && Accounted(lines, all, review.files))
    decreases |lines| - i
  {
    hide Step, Accounted, RowsShown, Held, Salvage, Finished, Full, ShownHunks, ShownMetadata;
    if i == |lines| {
      all := uses;
      FinishingKeeps(p);
      Alike(lines, all, Finished(p).files, Held(p));
      Shows(lines, all, Finished(p).files);
    } else {
      var more := StepAccounts(p, lines, i, uses, unquote);
      StepAdvances(p, lines, i, unquote);
      var m := Step(p, lines, i, unquote);
      if m.Go? { all := ParseAccounts(m.parser, lines, m.next, more, unquote); }
      else {
        all := more;
        SalvageKeeps(m.parser);
        Alike(lines, all, Salvage(m.parser), Held(m.parser));
      }
    }
  }

  lemma NothingAccounted(lines: seq<string>)
    ensures Accounted(lines, [], Held(FRESH))
  {
  }

  /**
    For every text: the hunks shown are the lines used as hunk headers and rows, in
    order, of a beginning of the text, each line used only as it may be; and without a
    notice the whole text is used, and the metadata shown is its metadata, in order.
   */
  lemma LinesAreConserved(source: string, unquote: Unquote) returns (lines: seq<string>, uses: seq<Use>)
    ensures lines == SplitAt(if |source| > 1_000_000 then source[..1_000_000] else source, '\n')
    ensures |uses| <= |lines| && forall k :: 0 <= k < |uses| ==> Proper(lines, uses, k)
    ensures var review := Parse(source, unquote);
            && Picked(lines, uses, {AsHunk, AsRow}) == ShownHunks(review.files)
            && (review.notice.None? ==> |uses| == |lines| && |source| <= 1_000_000
                                        && Picked(lines, uses, {AsMetadata}) == ShownMetadata(review.files))
  {
    hide ParseFrom, SplitAt, Picked, Proper;
    lines := SplitAt(if |source| > 1_000_000 then source[..1_000_000] else source, '\n');
    NothingAccounted(lines);
    uses := ParseAccounts(FRESH, lines, 0, [], unquote);
  }
}
