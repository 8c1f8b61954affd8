/**
  What the sanitizer leaves: text that names no key and no prefix comes through as it
  is, escape sequences vanish whole, and within the limits nothing is cut.
 */
module SanitizerText {
  import opened Sanitizer
  import opened SanitizerLoops
  import opened SanitizerRaw

  /** `s[i..j]` is a word: letters, digits, `_` and `-`, with none of them before or after it. */
  predicate WordAt(s: string, i: int, j: int) {
    && 0 <= i < j <= |s| && (forall k :: i <= k < j ==> OfName(s[k]))
    && (i > 0 ==> !OfName(s[i - 1])) && (j < |s| ==> !OfName(s[j]))
  }

  predicate OfName(c: char) { 'a' <= c <= 'z' || 'A' <= c <= 'Z' || '0' <= c <= '9' || c == '_' || c == '-' }

  /** No quotation mark, and no word that is a key or has a recognised prefix. */
  ghost predicate NamesNothing(s: string, c: Contract) {
    && '"' !in s
    && forall i, j :: WordAt(s, i, j) ==> Lower(s[i..j]) !in c.keys && NoPrefix(Lower(s[i..j]), c)
  }

  lemma WordIsAt(s: string, i: nat)
    requires i < |s| && WordStarts(s, i)
    ensures WordAt(s, i, NameEnd(s, i))
  {
  }

  /** Where nothing is named, a turn copies one character. */
  lemma TurnKeeps(s: string, i: nat, c: Contract)
    requires i < |s| && NamesNothing(s, c)
    ensures Scan1(s, i, c) == Turn([s[i]], i + 1)
  {
    hide WordStarts, Lower, NameEnd, WordAt;
    assert s[i] in s && s[i] != '"';
    if WordStarts(s, i) {
      WordIsAt(s, i);
      assert NoPrefix(Lower(s[i..NameEnd(s, i)]), c);
    }
  }

  lemma {:induction false} ScanKeeps(s: string, i: nat, c: Contract)
    requires i <= |s| && NamesNothing(s, c)
    ensures Scan(s, i, c) == s[i..]
    decreases |s| - i
  {
    hide NamesNothing, Scan1;
    if i < |s| {
      TurnKeeps(s, i, c);
      ScanKeeps(s, i + 1, c);
      assert s[i..] == [s[i]] + s[i + 1..];
    }
  }

  lemma WholeIsKept(raw: string, c: Contract)
    requires Safe(raw) && WithinLimits(raw, c)
    ensures Stripped(raw, c) == raw && !Truncated(raw, c)
  {
    hide StripFrom, Kept, Safe;
    SafeIsUnescaped(raw);
    KeptWhole(raw);
    StripUnescaped(raw, raw, |raw|, c);
    assert raw[..|raw|] == raw;
    KeptAll(raw, c);
  }

  lemma KeptAll(raw: string, c: Contract)
    requires WithinLimits(raw, c)
    ensures Input(raw, c) == raw && StripFrom(raw, |raw|, Kept(raw), c) == Kept(raw)
  {
  }

  /** Text that names nothing is shown as its words, one space apart, whole. */
  lemma PlainTextSurvives(raw: string, c: Contract)
    requires c.maxOutput >= 1 && Safe(raw) && WithinLimits(raw, c) && NamesNothing(raw, c)
    ensures Sanitize(raw, c) == Join(Words(raw))
  {
    hide Flat, Scan, Stripped, Words, Join, NamesNothing, Truncated;
    WholeIsKept(raw, c);
    ScanKeeps(raw, 0, c);
    assert raw[0..] == raw;
    FlatJoinsWords(raw);
    FlatIsShort(raw, false);
  }

  lemma {:induction false} FlatIsShort(s: string, started: bool)
    ensures |Flat(s, started)| <= |s|
  {
    if s != "" {
      FlatIsShort(s[1..], started);
      FlatIsShort(s[1..], true);
    }
  }

  /** The text counts as cut exactly when it is longer than one of the limits. */
  lemma TruncatedExactly(raw: string, c: Contract)
    ensures Truncated(raw, c) <==> |raw| > c.maxInput || |raw| > c.maxOutput
  {
  }

  /** Of a text without escapes only the beginning within the first limit is read, and of what is kept of it no more than the second. */
  lemma OnlyTheBeginningIsRead(raw: string, c: Contract)
    requires Unescaped(raw)
    ensures var kept := Kept(raw[..Least(|raw|, c.maxInput)]);
            Stripped(raw, c) == kept[..Least(|kept|, c.maxOutput)]
  {
    hide StripFrom, Kept;
    var input, end := Input(raw, c), Least(|raw|, c.maxInput);
    assert input[..end] == raw[..end] && Least(|input|, c.maxInput) == end;
    assert input[..0] == "" && Kept("") == "" by { NothingKept(); }
    StripsBeginning(input, 0, end, c);
  }

  lemma NothingKept()
    ensures Kept("") == ""
  {
  }

  lemma {:induction false} StripsBeginning(input: string, i: nat, end: nat, c: Contract)
    requires i <= end == Least(|input|, c.maxInput) && Unescaped(input) && |Kept(input[..i])| <= c.maxOutput
    ensures var kept := Kept(input[..end]);
            StripFrom(input, i, Kept(input[..i]), c) == kept[..Least(|kept|, c.maxOutput)]
    decreases end - i
  {
    hide Keeps;
    KeptGrows(input, i, end);
    if i < end && |Kept(input[..i])| < c.maxOutput {
      assert input[..i + 1][..i] == input[..i] && input[i] != ESCAPE;
      StripsBeginning(input, i + 1, end, c);
    }
  }

  lemma {:induction false} KeptGrows(input: string, i: nat, end: nat)
    requires i <= end <= |input|
    ensures Kept(input[..i]) <= Kept(input[..end])
    decreases end
  {
    hide Keeps;
    if i < end {
      assert input[..end][..end - 1] == input[..end - 1];
      KeptGrows(input, i, end - 1);
    }
  }

  /** Within the limits the whole scan is shown; beyond them its beginning, and an ellipsis. */
  lemma CutOnlyWhenTruncated(raw: string, c: Contract)
    requires c.maxOutput >= 1
    ensures var flat, text := Join(Words(Scan(Stripped(raw, c), 0, c))), Sanitize(raw, c);
            && (!Truncated(raw, c) && |flat| <= c.maxOutput ==> text == flat)
            && (Truncated(raw, c) ==> text[..|text| - 1] <= flat && text[|text| - 1] == ELLIPSIS)
            && (Truncated(raw, c) && |flat| < c.maxOutput ==> text == flat + [ELLIPSIS])
            && (!Truncated(raw, c) ==> text <= flat)
  {
    hide Flat, Scan, Stripped, Words, Join, Truncated;
    FlatJoinsWords(Scan(Stripped(raw, c), 0, c));
  }

  // ----- escapes

  /** No final byte among the parameters of a control sequence. */
  predicate Parameters(s: string) { forall k :: 0 <= k < |s| ==> !('@' <= s[k] <= '~') }

  lemma {:induction false} SequenceEnds(s: string, i: nat, j: nat)
    requires i <= j < |s| && (forall k :: i <= k < j ==> !('@' <= s[k] <= '~')) && '@' <= s[j] <= '~'
    ensures SequenceEnd(s, i) == j + 1
    decreases j - i
  {
    if i < j { SequenceEnds(s, i + 1, j); }
  }

  lemma {:induction false} CommandEnds(s: string, i: nat, j: nat)
    requires i <= j < |s| && (forall k :: i <= k < j ==> s[k] != BELL && s[k] != ESCAPE) && s[j] == BELL
    ensures CommandEnd(s, i) == j + 1
    decreases j - i
  {
    if i < j { CommandEnds(s, i + 1, j); }
  }

  lemma {:induction false} StringEnds(s: string, i: nat, j: nat)
    requires i <= j && j + 1 < |s| && (forall k :: i <= k < j ==> s[k] != BELL && s[k] != ESCAPE)
    requires s[j] == ESCAPE && s[j + 1] == '\\'
    ensures CommandEnd(s, i) == j + 2
    decreases j - i
  {
    if i < j { StringEnds(s, i + 1, j); }
  }

  /** What a complete escape is: a control sequence, or a command ended by a bell or a string terminator. */
  predicate CompleteEscape(e: string) {
    && |e| >= 3 && e[0] == '\U{1B}'
    && ((e[1] == '[' && Parameters(e[2..|e| - 1]) && '@' <= e[|e| - 1] <= '~')
        || (e[1] == ']' && e[|e| - 1] == '\U{07}' && forall k :: 2 <= k < |e| - 1 ==> e[k] != '\U{07}' && e[k] != '\U{1B}')
        || (e[1] == ']' && |e| >= 4 && e[|e| - 2] == '\U{1B}' && e[|e| - 1] == '\\'
            && forall k :: 2 <= k < |e| - 2 ==> e[k] != '\U{07}' && e[k] != '\U{1B}'))
  }

  lemma EscapeTurn(a: string, e: string, b: string)
    requires CompleteEscape(e)
    ensures StripTurn(a + e + b, |a|) == Turn("", |a| + |e|)
  {
    var s, n := a + e + b, |a|;
    forall k | 0 <= k < |e| ensures s[n + k] == e[k] {}
    assert s[n] == ESCAPE && s[n + 1] == e[1];
    if e[1] == '[' {
      forall k | n + 2 <= k < n + |e| - 1 ensures !('@' <= s[k] <= '~') { assert s[k] == e[k - n] == e[2..|e| - 1][k - n - 2]; }
      SequenceEnds(s, n + 2, n + |e| - 1);
    } else if e[|e| - 1] == BELL {
      forall k | n + 2 <= k < n + |e| - 1 ensures s[k] != BELL && s[k] != ESCAPE { assert s[k] == e[k - n]; }
      CommandEnds(s, n + 2, n + |e| - 1);
    } else {
      forall k | n + 2 <= k < n + |e| - 2 ensures s[k] != BELL && s[k] != ESCAPE { assert s[k] == e[k - n]; }
      StringEnds(s, n + 2, n + |e| - 2);
    }
  }

  /** A complete escape leaves no trace: the text is stripped as if it were not there. */
  lemma EscapesVanish(a: string, e: string, b: string, c: Contract)
    requires CompleteEscape(e) && Unescaped(a) && WithinLimits(a + e + b, c)
    ensures Stripped(a + e + b, c) == Kept(a) + Stripped(b, c)
  {
    hide StripFrom, Kept, CompleteEscape, Unescaped, StripTurn;
    var s, n := a + e + b, |a|;
    assert Input(s, c) == s && Input(b, c) == b;
    StripUnescaped(a, s, n, c);
    assert a[..n] == a;
    EscapeTurn(a, e, b);
    OneStrip(s, n, Kept(a), c);
    assert Kept(a) + "" == Kept(a);
    assert s[n + |e|..] == b == b[0..];
    var rest := StripShift(s, n + |e|, Kept(a), b, 0, "", c);
    assert "" + rest == rest;
  }

  lemma OneStrip(s: string, i: nat, kept: string, c: Contract)
    requires i < |s| && WithinLimits(s, c) && |kept| <= i
    ensures StripFrom(s, i, kept, c) == var t := StripTurn(s, i); StripFrom(s, t.next, kept + t.emit, c)
  {
    hide StripTurn;
  }
}
