/**
  The sanitizer hides values: once the scan reaches a recognised key with its separator,
  or a word with a recognised prefix, it emits the label and `[REDACTED]`, quoted as the
  value was, and goes on after the value; the output is the same whatever the value.
 */
module SanitizerHiding {
  import opened Events
  import opened Sanitizer
  import opened SanitizerLocality

  /** The characters that stand between a key and its value. */
  const BETWEEN: set<char> := {':', '=', ' ', '\t'}

  /** No key holds such a character; what decodes is a quoted token, and decoding loses none of them. */
  ghost predicate Sound(c: Contract) {
    && c.maxOutput >= 1
    && (forall key, ch :: key in c.keys && ch in BETWEEN ==> ch !in key)
    && (forall t, ch :: c.decode(t).Some? && ch in BETWEEN && ch in t ==> ch in c.decode(t).value)
    && (forall t :: c.decode(t).Some? ==> t != "" && t[|t| - 1] == '"')
  }

  /** No quoted token that decodes to a key spells out a recognised prefix. */
  ghost predicate PrefixSound(c: Contract) {
    forall t, x :: 0 <= x < |t| && c.decode(t).Some? && c.decode(t).value in c.keys ==> !Prefixed(Lower(t[x..]), c)
  }

  // ----- labels

  /** The separator of the word at `k`, after its spaces. */
  function SeparatorOf(s: string, k: nat): (j: nat)
    requires k <= |s|
    ensures k <= j <= |s|
  {
    Spaces(s, NameEnd(s, k))
  }

  function KeyText(s: string, k: nat): string
    requires k <= |s|
  {
    Lower(s[k..NameEnd(s, k)])
  }

  /** `s` ends with a recognised key at `k`, its separator, and the spaces after that. */
  predicate EndsWithKey(s: string, k: nat, c: Contract) {
    && k < |s| && WordStarts(s, k)
    && Explicit(s, SeparatorOf(s, k)) && Spaces(s, SeparatorOf(s, k) + 1) == |s|
    && KeyText(s, k) in c.keys && !Prefixed(KeyText(s, k), c)
  }

  predicate TakesLine(s: string, k: nat)
    requires k < |s|
  {
    WholeLine(s, SeparatorOf(s, k), KeyText(s, k))
  }

  /** `s` ends with a key at `k` that needs no separator, and the spaces after it. */
  predicate EndsWithLabel(s: string, k: nat, c: Contract) {
    && k < |s| && WordStarts(s, k)
    && NameEnd(s, k) < |s| && SeparatorOf(s, k) == |s|
    && KeyText(s, k) in c.keys && KeyText(s, k) in LABELS && !Prefixed(KeyText(s, k), c)
  }

  /** `s` ends with a quoted key at `k`, its colon, and the spaces after that. */
  predicate EndsWithQuotedKey(s: string, k: nat, c: Contract) {
    k < |s| && s[k] == '"'
    && (var end := QuoteEnd(s, k);
        var colon := Spaces(s, end);
        && colon < |s| && s[colon] == ':' && Spaces(s, colon + 1) == |s|
        && c.decode(s[k..end]).Some? && c.decode(s[k..end]).value in c.keys)
  }

  /** `s` ends with the start of a word, at `k`, that has a recognised prefix. */
  predicate EndsWithPrefix(s: string, k: nat, c: Contract) {
    k < |s| && WordStarts(s, k) && NameEnd(s, k) == |s| && Prefixed(Lower(s[k..]), c)
  }

  // ----- values

  predicate Bare(ch: char) { !Delimits(ch) && ch != '{' && ch != '[' }

  predicate AllBare(v: string) { forall k :: 0 <= k < |v| ==> Bare(v[k]) }

  /** From `i` the quote opened at the start of `v` closes at its end. */
  predicate Closes(v: string, i: nat)
    requires v != ""
    decreases if i < |v| then |v| - i else 0
  {
    i < |v| && v[i] != '\n' &&
    if v[i] == '\\' then Closes(v, i + 2)
    else if v[i] == v[0] then i + 1 == |v|
    else Closes(v, i + 1)
  }

  /** From `i`, inside `depth` open brackets, `v` ends with the bracket that closes the last of them. */
  predicate Nests(v: string, i: nat, depth: nat)
    decreases if i < |v| then |v| - i else 0
  {
    i < |v| && v[i] != '\n' &&
    if Quote(v[i]) && depth > 0 then QuoteEnd(v, i) < |v| && Nests(v, QuoteEnd(v, i), depth)
    else if v[i] == '{' || v[i] == '[' then Nests(v, i + 1, depth + 1)
    else if (v[i] == '}' || v[i] == ']') && depth > 0 then (if depth == 1 then i + 1 == |v| else Nests(v, i + 1, depth - 1))
    else !(depth == 0 && Delimits(v[i])) && Nests(v, i + 1, depth)
  }

  /** From `i` to its end `v` holds no end of line and no quote that closes it. */
  predicate StaysOpen(v: string, i: nat)
    requires v != ""
    decreases if i < |v| then |v| - i else 0
  {
    i == |v| ||
    (i < |v| && v[i] != '\n' &&
     if v[i] == '\\' then i + 2 <= |v| && StaysOpen(v, i + 2) else v[i] != v[0] && StaysOpen(v, i + 1))
  }

  predicate UnclosedValue(v: string) { v != "" && Quote(v[0]) && StaysOpen(v, 1) }

  predicate QuotedValue(v: string) { v != "" && Quote(v[0]) && Closes(v, 1) }

  predicate BracketedValue(v: string) { v != "" && !Quote(v[0]) && Nests(v, 0, 0) }

  /** A bare value or an unclosed quote and a rest that ends it, or a quoted or bracketed value that ends itself. */
  predicate Stands(value: string, rest: string) {
    || (AllBare(value) && (rest == "" || Delimits(rest[0])))
    || (UnclosedValue(value) && (rest == "" || rest[0] == '\n'))
    || QuotedValue(value) || BracketedValue(value)
  }

  /** A value, as the key's kind delimits it. */
  predicate ValueThen(value: string, rest: string, line: bool) {
    && value != "" && value[0] != ' ' && value[0] != '\t'
    && (line ==> (forall k :: 0 <= k < |value| ==> value[k] != '\n') && (rest == "" || rest[0] == '\n'))
    && (!line ==> Stands(value, rest))
  }

  lemma {:induction false} BareValueEnds(s: string, i: nat, j: nat)
    requires i <= j <= |s| && (forall m :: i <= m < j ==> Bare(s[m])) && (j < |s| ==> Delimits(s[j]))
    ensures ValueFrom(s, i, 0) == j
    decreases j - i
  {
    if i < j { BareValueEnds(s, i + 1, j); }
  }

  lemma {:induction false} LineValueEnds(s: string, i: nat, j: nat)
    requires i <= j <= |s| && (forall m :: i <= m < j ==> s[m] != '\n') && (j < |s| ==> s[j] == '\n')
    ensures LineFrom(s, i) == j
    decreases j - i
  {
    if i < j { LineValueEnds(s, i + 1, j); }
  }

  /** `v` stands at `p` in `s`. */
  predicate StandsAt(v: string, s: string, p: nat) {
    p + |v| <= |s| && forall j :: 0 <= j < |v| ==> s[p + j] == v[j]
  }

  lemma {:induction false} ClosesTaken(v: string, i: nat, s: string, p: nat)
    requires v != "" && StandsAt(v, s, p) && Closes(v, i)
    ensures QuoteFrom(s, v[0], p + i) == p + |v|
    decreases |v| - i
  {
    assert s[p + i] == v[i];
    if v[i] == '\\' { ClosesTaken(v, i + 2, s, p); }
    else if v[i] != v[0] { ClosesTaken(v, i + 1, s, p); }
  }

  lemma {:induction false} OpenTaken(v: string, i: nat, s: string, p: nat)
    requires v != "" && StandsAt(v, s, p) && StaysOpen(v, i) && (p + |v| < |s| ==> s[p + |v|] == '\n')
    ensures QuoteFrom(s, v[0], p + i) == p + |v|
    decreases |v| - i
  {
    if i < |v| {
      assert s[p + i] == v[i];
      if v[i] == '\\' { OpenTaken(v, i + 2, s, p); } else { OpenTaken(v, i + 1, s, p); }
    }
  }

  lemma {:induction false} QuoteInside(v: string, quote: char, i: nat, s: string, p: nat)
    requires StandsAt(v, s, p) && QuoteFrom(v, quote, i) < |v|
    ensures QuoteFrom(s, quote, p + i) == p + QuoteFrom(v, quote, i)
    decreases if i < |v| then |v| - i else 0
  {
    if i < |v| {
      assert s[p + i] == v[i];
      if v[i] != '\n' {
        if v[i] == '\\' { QuoteInside(v, quote, i + 2, s, p); }
        else if v[i] != quote { QuoteInside(v, quote, i + 1, s, p); }
      }
    }
  }

  lemma {:induction false} NestsTaken(v: string, i: nat, depth: nat, s: string, p: nat)
    requires StandsAt(v, s, p) && Nests(v, i, depth)
    ensures ValueFrom(s, p + i, depth) == p + |v|
    decreases |v| - i
  {
    hide Delimits, QuoteFrom;
    assert s[p + i] == v[i];
    if Quote(v[i]) && depth > 0 {
      QuoteInside(v, v[i], i + 1, s, p);
      NestsTaken(v, QuoteEnd(v, i), depth, s, p);
    }
    else if v[i] == '{' || v[i] == '[' { NestsTaken(v, i + 1, depth + 1, s, p); }
    else if (v[i] == '}' || v[i] == ']') && depth > 0 { if depth > 1 { NestsTaken(v, i + 1, depth - 1, s, p); } }
    else { NestsTaken(v, i + 1, depth, s, p); }
  }

  lemma BareTaken(v: string, s: string, p: nat)
    requires StandsAt(v, s, p) && AllBare(v) && (p + |v| < |s| ==> Delimits(s[p + |v|]))
    ensures ValueFrom(s, p, 0) == p + |v|
  {
    forall m | p <= m < p + |v| ensures Bare(s[m]) { assert s[p + (m - p)] == v[m - p]; }
    BareValueEnds(s, p, p + |v|);
  }

  lemma StandingTaken(pre: string, value: string, post: string)
    requires value != "" && Stands(value, post)
    ensures ValueEnd(pre + value + post, |pre|, false) == |pre| + |value|
  {
    hide ValueFrom, Delimits, Closes, Nests, StaysOpen;
    var s := pre + value + post;
    assert StandsAt(value, s, |pre|) && s[|pre|] == value[0];
    QuotesDelimit();
    if QuotedValue(value) { ClosesTaken(value, 1, s, |pre|); }
    else if BracketedValue(value) { NestsTaken(value, 0, 0, s, |pre|); }
    else if UnclosedValue(value) && (post == "" || post[0] == '\n') { OpenTaken(value, 1, s, |pre|); }
    else { BareTaken(value, s, |pre|); }
  }

  lemma ValueTaken(pre: string, value: string, post: string, line: bool)
    requires ValueThen(value, post, line)
    ensures ValueEnd(pre + value + post, |pre|, line) == |pre| + |value|
  {
    hide ValueFrom, LineFrom, Stands;
    var s := pre + value + post;
    if line {
      forall m | |pre| <= m < |pre| + |value| ensures s[m] == value[m - |pre|] {}
      LineValueEnds(s, |pre|, |pre| + |value|);
    } else {
      StandingTaken(pre, value, post);
    }
  }

  lemma QuotesDelimit()
    ensures Delimits('"') && Delimits('\'')
  {
  }

  /** With a value after it, the key, its separator and spaces are where they were. */
  lemma KeyExtends(pre: string, k: nat, s: string, c: Contract)
    requires EndsWithKey(pre, k, c) && Agree(pre, s, |pre|) && |pre| < |s| && s[|pre|] != ' ' && s[|pre|] != '\t'
    ensures WordStarts(s, k) && SeparatorOf(s, k) == SeparatorOf(pre, k) && NameEnd(s, k) == NameEnd(pre, k)
    ensures Spaces(s, SeparatorOf(pre, k) + 1) == |pre|
  {
    var n, sep := |pre|, SeparatorOf(pre, k);
    WordStartsLocal(pre, s, n, k);
    NameLocal(pre, s, n, k);
    SpacesLocal(pre, s, n, NameEnd(pre, k));
    SpacesExtend(pre, s, sep + 1);
  }

  lemma {:induction false} SpacesExtend(pre: string, s: string, i: nat)
    requires Agree(pre, s, |pre|) && |pre| < |s| && s[|pre|] != ' ' && s[|pre|] != '\t'
    requires i <= |pre| && Spaces(pre, i) == |pre|
    ensures Spaces(s, i) == |pre|
    decreases |pre| - i
  {
    if i < |pre| {
      AgreeAt(pre, s, |pre|, i);
      SpacesExtend(pre, s, i + 1);
    }
  }

  lemma KeyTurn(pre: string, k: nat, value: string, post: string, c: Contract)
    requires EndsWithKey(pre, k, c) && ValueThen(value, post, TakesLine(pre, k))
    ensures Scan1(pre + value + post, k, c) == Turn(pre[k..] + REDACTED, |pre| + |value|)
  {
    hide NameEnd, Spaces, Lower, Prefixed, ValueEnd, ValueThen, Stands, Scan1, Name;
    var s, n := pre + value + post, |pre|;
    assert value != "" && value[0] != ' ' && value[0] != '\t' by { FirstOfValue(value, post, TakesLine(pre, k)); }
    assert s[..n] == pre && s[n] == value[0];
    KeyExtends(pre, k, s, c);
    var sep, end := SeparatorOf(pre, k), NameEnd(pre, k);
    AgreeAt(pre, s, n, sep);
    AgreeAt(pre, s, n, k);
    SliceLocal(pre, s, n, k, end);
    SliceLocal(pre, s, n, k, n);
    ValueTaken(pre, value, post, TakesLine(pre, k));
    WordScans(s, k, sep, n, c);
  }

  /** The scan at a word that is a key with a separator. */
  lemma WordScans(s: string, k: nat, sep: nat, start: nat, c: Contract)
    requires k < |s| && WordStarts(s, k) && sep == SeparatorOf(s, k) && Explicit(s, sep) && start == Spaces(s, sep + 1)
    requires KeyText(s, k) in c.keys && !Prefixed(KeyText(s, k), c)
    ensures Scan1(s, k, c) == Turn(s[k..start] + REDACTED, ValueEnd(s, start, WholeLine(s, sep, KeyText(s, k))))
  {
    hide NameEnd, Spaces, Lower, Prefixed, ValueEnd;
    assert s[k] != '"';
  }

  lemma FirstOfValue(value: string, rest: string, line: bool)
    requires ValueThen(value, rest, line)
    ensures value != "" && value[0] != ' ' && value[0] != '\t'
  {
  }

  // ----- the turns at a label, at a quoted key and at a prefix

  lemma LabelExtends(pre: string, k: nat, s: string, c: Contract)
    requires EndsWithLabel(pre, k, c) && Agree(pre, s, |pre|) && |pre| < |s| && s[|pre|] != ' ' && s[|pre|] != '\t'
    ensures WordStarts(s, k) && NameEnd(s, k) == NameEnd(pre, k) && Spaces(s, NameEnd(pre, k)) == |pre|
  {
    WordStartsLocal(pre, s, |pre|, k);
    NameLocal(pre, s, |pre|, k);
    SpacesExtend(pre, s, NameEnd(pre, k));
  }

  /** A label takes the rest of the line when its key does. */
  predicate LabelTakesLine(pre: string, k: nat)
    requires k < |pre|
  {
    KeyText(pre, k) in WHOLE_LINE_KEYS
  }

  /** At a label the scan emits the label and the mask, and goes on after the value. */
  lemma LabelTurn(pre: string, k: nat, value: string, post: string, c: Contract)
    requires EndsWithLabel(pre, k, c) && ValueThen(value, post, LabelTakesLine(pre, k)) && value[0] !in {':', '='}
    ensures Scan1(pre + value + post, k, c) == Turn(pre[k..] + REDACTED, |pre| + |value|)
  {
    hide NameEnd, Spaces, Lower, Prefixed, ValueEnd, Stands;
    var s, n := pre + value + post, |pre|;
    assert s[..n] == pre && s[n] == value[0];
    LabelExtends(pre, k, s, c);
    var end := NameEnd(pre, k);
    assert end < n;
    assert Spaces(s, n) == n by { SpacesStop(s, n, n); }
    AgreeAt(pre, s, n, k);
    SliceLocal(pre, s, n, k, end);
    SliceLocal(pre, s, n, k, n);
    ValueTaken(pre, value, post, LabelTakesLine(pre, k));
    assert s[k] != '"';
  }

  /** What stands for a value: quoted as it was. */
  function Mask(value: string): string {
    if value == "" || value[0] != '"' then REDACTED
    else "\"" + REDACTED + (if |value| > 1 && value[|value| - 1] == '"' then "\"" else "")
  }

  lemma QuotedKeyExtends(pre: string, k: nat, s: string, c: Contract)
    requires EndsWithQuotedKey(pre, k, c) && Agree(pre, s, |pre|) && |pre| < |s| && s[|pre|] != ' ' && s[|pre|] != '\t'
    ensures k < |s| && QuotedKey(s, k, c) == Some(Spaces(pre, QuoteEnd(pre, k)))
    ensures Spaces(s, Spaces(pre, QuoteEnd(pre, k)) + 1) == |pre|
  {
    hide QuoteFrom;
    var n, end := |pre|, QuoteEnd(pre, k);
    var colon := Spaces(pre, end);
    AgreeAt(pre, s, n, k);
    QuoteLocal(pre, s, n, pre[k], k + 1);
    SpacesLocal(pre, s, n, end);
    AgreeAt(pre, s, n, colon);
    SliceLocal(pre, s, n, k, end);
    SpacesExtend(pre, s, colon + 1);
  }

  lemma {:induction false} ClosedLast(v: string, i: nat)
    requires v != "" && i >= 1 && Closes(v, i)
    ensures |v| >= 2 && v[|v| - 1] == v[0]
    decreases |v| - i
  {
    if v[i] == '\\' { ClosedLast(v, i + 2); } else if v[i] != v[0] { ClosedLast(v, i + 1); }
  }

  lemma MaskedReplacement(pre: string, value: string, post: string)
    requires value != "" && Stands(value, post)
    ensures Replacement(pre + value + post, |pre|, |pre| + |value|) == Mask(value)
  {
    hide Closes, Nests, Delimits, StaysOpen;
    var s := pre + value + post;
    assert s[|pre|] == value[0] && s[|pre| + |value| - 1] == value[|value| - 1];
  }

  /** A closed quote is masked by a closed quote, other values by the bare mask. */
  lemma MaskIsQuotedAsValue(value: string)
    ensures QuotedValue(value) && value[0] == '"' ==> Mask(value) == "\"[REDACTED]\""
    ensures value == "" || value[0] != '"' ==> Mask(value) == "[REDACTED]"
  {
    if QuotedValue(value) { ClosedLast(value, 1); }
  }

  /** At a quoted key the scan emits the key, its colon and the mask, and goes on after the value. */
  lemma QuotedKeyTurn(pre: string, k: nat, value: string, post: string, c: Contract)
    requires EndsWithQuotedKey(pre, k, c) && ValueThen(value, post, false)
    ensures Scan1(pre + value + post, k, c) == Turn(pre[k..] + Mask(value), |pre| + |value|)
  {
    hide QuoteEnd, Spaces, ValueEnd, Stands, Replacement, QuotedKey, Mask;
    var s, n := pre + value + post, |pre|;
    assert s[..n] == pre && s[n] == value[0];
    assert Agree(pre, s, n);
    QuotedKeyExtends(pre, k, s, c);
    SliceLocal(pre, s, n, k, n);
    StandingTaken(pre, value, post);
    MaskedReplacement(pre, value, post);
  }

  lemma {:induction false} NameExtends(s: string, i: nat, n: nat)
    requires i <= n <= |s| && forall k :: i <= k < n ==> Name(s[k])
    ensures NameEnd(s, i) >= n
    decreases n - i
  {
    if i < n { NameExtends(s, i + 1, n); }
  }

  lemma NamesAreBare(ch: char)
    requires Name(ch)
    ensures Bare(ch) && ch != '"'
  {
  }

  lemma LowerExtends(a: string, b: string)
    ensures Lower(a) <= Lower(a + b)
  {
  }

  lemma PrefixedExtends(a: string, b: string, c: Contract)
    requires Prefixed(Lower(a), c)
    ensures Prefixed(Lower(a + b), c)
  {
    hide Lower;
    LowerExtends(a, b);
    var k :| 0 <= k < |c.prefixes| && c.prefixes[k] <= Lower(a);
    assert c.prefixes[k] <= Lower(a + b);
  }

  /** At a recognised prefix the scan emits the mask alone, and goes on after the word's value. */
  lemma PrefixTurn(pre: string, k: nat, rest: string, post: string, c: Contract)
    requires EndsWithPrefix(pre, k, c) && AllBare(rest) && (post == "" || Delimits(post[0]))
    ensures Scan1(pre + rest + post, k, c) == Turn(REDACTED, |pre| + |rest|)
  {
    hide Lower, Prefixed, Name, Delimits, ValueFrom, Bare;
    var s, n := pre + rest + post, |pre|;
    assert s[..n] == pre;
    AgreeAt(pre, s, n, k);
    WordStartsLocal(pre, s, n, k);
    NamesAreBare(s[k]);
    forall j | k <= j < n ensures Name(s[j]) { AgreeAt(pre, s, n, j); }
    NameExtends(s, k, n);
    var end := NameEnd(s, k);
    SliceLocal(pre, s, n, k, n);
    assert s[k..end] == pre[k..] + s[n..end];
    PrefixedExtends(pre[k..], s[n..end], c);
    forall m | k <= m < n + |rest| ensures Bare(s[m]) {
      if m < n { NamesAreBare(s[m]); } else { assert s[m] == rest[m - n]; }
    }
    BareValueEnds(s, k, n + |rest|);
    QuotesAreNoNames(s[k]);
  }

  lemma QuotesAreNoNames(ch: char)
    requires Name(ch)
    ensures !Quote(ch)
  {
  }

  // ----- hiding

  lemma SeparatorIn(t: string, c: Contract)
    requires Sound(c) && exists ch :: ch in BETWEEN && ch in t
    ensures c.decode(t).None? || c.decode(t).value !in c.keys
  {
  }

  /** A separator walls off what stands before it. */
  lemma SeparatorWalls(s: string, k: nat, m: nat, c: Contract)
    requires Sound(c) && k <= m < |s| && (s[m] == ':' || s[m] == '=')
    ensures Walled(s, k, m, c)
  {
    hide Sound;
    forall i, j | 0 <= i < k && m < j <= |s| ensures c.decode(s[i..j]).None? || c.decode(s[i..j]).value !in c.keys {
      assert s[i..j][m - i] == s[m];
      SeparatorIn(s[i..j], c);
    }
  }

  lemma PrefixInside(s: string, i: nat, j: nat, k: nat, n: nat, c: Contract)
    requires i <= k < n <= j <= |s| && Prefixed(Lower(s[k..n]), c)
    ensures Prefixed(Lower(s[i..j][k - i..]), c)
  {
    hide Lower, Prefixed;
    assert s[i..j][k - i..] == s[k..n] + s[n..j];
    PrefixedExtends(s[k..n], s[n..j], c);
  }

  /** So does the end of a label, before its spaces. */
  lemma LabelWalls(pre: string, s: string, k: nat, c: Contract)
    requires Sound(c) && EndsWithLabel(pre, k, c) && Agree(pre, s, |pre|)
    ensures k < NameEnd(pre, k) && Walled(s, k, NameEnd(pre, k) - 1, c)
  {
    hide Sound, Lower, Prefixed;
    var n, e := |pre|, NameEnd(pre, k);
    assert Name(pre[k]);
    AgreeAt(pre, s, n, e - 1);
    AgreeAt(pre, s, n, e);
    assert Name(s[e - 1]) && s[e] in BETWEEN;
    forall i, j | 0 <= i < k && e - 1 < j <= |s| ensures c.decode(s[i..j]).None? || c.decode(s[i..j]).value !in c.keys {
      if j == e {
        assert s[i..j][|s[i..j]| - 1] == s[e - 1];
        NotQuoted(s[i..j], c);
      } else {
        assert s[i..j][e - i] == s[e];
        SeparatorIn(s[i..j], c);
      }
    }
  }

  lemma NotQuoted(t: string, c: Contract)
    requires Sound(c) && (t == "" || Name(t[|t| - 1]))
    ensures c.decode(t).None?
  {
  }

  /** So does a recognised prefix. */
  lemma PrefixWalls(pre: string, s: string, k: nat, c: Contract)
    requires PrefixSound(c) && EndsWithPrefix(pre, k, c) && Agree(pre, s, |pre|)
    ensures Walled(s, k, |pre| - 1, c)
  {
    hide Lower, Prefixed;
    var n := |pre|;
    AgreeAt(pre, s, n, n - 1);
    assert Name(pre[n - 1]);
    SliceLocal(pre, s, n, k, n);
    assert pre[k..n] == pre[k..];
    forall i, j | 0 <= i < k && n - 1 < j <= |s| ensures c.decode(s[i..j]).None? || c.decode(s[i..j]).value !in c.keys {
      PrefixInside(s, i, j, k, n, c);
    }
  }

  /** The rest is scanned as if nothing came before it. */
  predicate ScansAlone(value: string, post: string) {
    value != "" && (post == "" || !Name(post[0]) || !Name(value[|value| - 1]))
  }

  lemma {:induction false} NestedLast(v: string, i: nat, depth: nat)
    requires Nests(v, i, depth)
    ensures v[|v| - 1] in {'}', ']'}
    decreases |v| - i
  {
    if Quote(v[i]) && depth > 0 { NestedLast(v, QuoteEnd(v, i), depth); }
    else if v[i] == '{' || v[i] == '[' { NestedLast(v, i + 1, depth + 1); }
    else if (v[i] == '}' || v[i] == ']') && depth > 0 { if depth > 1 { NestedLast(v, i + 1, depth - 1); } }
    else { NestedLast(v, i + 1, depth); }
  }

  lemma DelimitersAreNoNames(ch: char)
    ensures Delimits(ch) || Quote(ch) || ch in {'}', ']', '\n'} ==> !Name(ch)
  {
  }

  lemma ValueScansAlone(value: string, post: string, line: bool)
    requires ValueThen(value, post, line)
    ensures ScansAlone(value, post)
  {
    hide Name, Delimits, Closes, Nests, StaysOpen, Quote;
    if post != "" { DelimitersAreNoNames(post[0]); }
    DelimitersAreNoNames(value[|value| - 1]);
    if !line {
      if QuotedValue(value) { ClosedLast(value, 1); }
      if BracketedValue(value) { NestedLast(value, 0, 0); }
    }
  }

  lemma RestScansAlone(pre: string, value: string, post: string, c: Contract)
    requires ScansAlone(value, post)
    ensures Scan(pre + value + post, |pre| + |value|, c) == Scan(post, 0, c)
  {
    hide Scan, SameFrom, WordStarts;
    var s, j := pre + value + post, |pre| + |value|;
    assert SameFrom(s, j, post, 0) by { SuffixAlone(pre + value, post); }
    if post != "" { WordAlone(pre, value, post); }
    ScanShift(s, j, post, 0, c);
  }

  lemma SuffixAlone(head: string, post: string)
    ensures SameFrom(head + post, |head|, post, 0)
  {
    assert (head + post)[|head|..] == post == post[0..];
  }

  lemma WordAlone(pre: string, value: string, post: string)
    requires ScansAlone(value, post) && post != ""
    ensures WordStarts(pre + value + post, |pre| + |value|) == WordStarts(post, 0)
  {
    hide Name;
    var s, j := pre + value + post, |pre| + |value|;
    assert s[j] == post[0] && s[j - 1] == value[|value| - 1];
  }

  /** Two texts alike up to a turn that skips their values and emits the same. */
  lemma HidesAfter(pre: string, k: nat, m: nat, v: string, w: string, post: string, emit: string, c: Contract) returns (before: string)
    requires Alike(pre + v + post, pre + w + post, |pre|, m, k, c) && Reaches(pre + v + post, 0, k, c)
    requires ScansAlone(v, post) && ScansAlone(w, post)
    requires Scan1(pre + v + post, k, c) == Turn(emit, |pre| + |v|)
    requires Scan1(pre + w + post, k, c) == Turn(emit, |pre| + |w|)
    ensures Scan(pre + v + post, 0, c) == before + (emit + Scan(post, 0, c)) == Scan(pre + w + post, 0, c)
    ensures Reaches(pre + w + post, 0, k, c)
  {
    hide Scan1, Reaches, Alike, ScansAlone;
    assert k < |pre| by { AnchorInside(pre + v + post, pre + w + post, |pre|, m, k, c); }
    before := ScanSplits(pre + v + post, pre + w + post, |pre|, m, 0, k, c);
    ReachesLocal(pre + v + post, pre + w + post, |pre|, m, 0, k, c);
    RestScansAlone(pre, v, post, c);
    RestScansAlone(pre, w, post, c);
  }

  lemma AnchorInside(s: string, t: string, n: nat, m: nat, k: nat, c: Contract)
    requires Alike(s, t, n, m, k, c)
    ensures k < n
  {
  }

  lemma KeyHasSeparator(pre: string, k: nat, c: Contract) returns (sep: nat)
    requires EndsWithKey(pre, k, c)
    ensures k < sep < |pre| && (pre[sep] == ':' || pre[sep] == '=') && WordStarts(pre, k)
  {
    sep := SeparatorOf(pre, k);
    assert Name(pre[k]);
  }

  lemma AlikeAround(pre: string, k: nat, m: nat, v: string, w: string, post: string, c: Contract)
    requires Sound(c) && k <= m < |pre| && (pre[m] == ':' || pre[m] == '=') && Anchor(pre, k)
    ensures Alike(pre + v + post, pre + w + post, |pre|, m, k, c)
  {
    hide Walled, Sound;
    var s, t, n := pre + v + post, pre + w + post, |pre|;
    assert s[..n] == pre == t[..n];
    AgreeAt(pre, s, n, m);
    AgreeAt(pre, t, n, m);
    AgreeAt(pre, s, n, k);
    WordStartsLocal(pre, s, n, k);
    SeparatorWalls(s, k, m, c);
    SeparatorWalls(t, k, m, c);
  }

  /** At a word key: the label and the mask, then the rest; what precedes does not depend on the value. */
  lemma ScanHides(pre: string, k: nat, v: string, w: string, post: string, c: Contract) returns (before: string)
    requires Sound(c) && EndsWithKey(pre, k, c)
    requires ValueThen(v, post, TakesLine(pre, k)) && ValueThen(w, post, TakesLine(pre, k))
    requires Reaches(pre + v + post, 0, k, c)
    ensures Scan(pre + v + post, 0, c) == before + (pre[k..] + REDACTED + Scan(post, 0, c)) == Scan(pre + w + post, 0, c)
    ensures Reaches(pre + w + post, 0, k, c)
  {
    hide Scan1, Reaches, EndsWithKey, ValueThen, WordStarts, TakesLine, ScansAlone, Alike, Sound;
    var sep := KeyHasSeparator(pre, k, c);
    AlikeAround(pre, k, sep, v, w, post, c);
    KeyTurn(pre, k, v, post, c);
    KeyTurn(pre, k, w, post, c);
    ValueScansAlone(v, post, TakesLine(pre, k));
    ValueScansAlone(w, post, TakesLine(pre, k));
    before := HidesAfter(pre, k, sep, v, w, post, pre[k..] + REDACTED, c);
  }

  /** At a label: the label and the mask, then the rest; what precedes does not depend on the value. */
  lemma LabelHides(pre: string, k: nat, v: string, w: string, post: string, c: Contract) returns (before: string)
    requires Sound(c) && EndsWithLabel(pre, k, c)
    requires ValueThen(v, post, LabelTakesLine(pre, k)) && ValueThen(w, post, LabelTakesLine(pre, k))
    requires v[0] !in {':', '='} && w[0] !in {':', '='}
    requires Reaches(pre + v + post, 0, k, c)
    ensures Scan(pre + v + post, 0, c) == before + (pre[k..] + REDACTED + Scan(post, 0, c)) == Scan(pre + w + post, 0, c)
    ensures Reaches(pre + w + post, 0, k, c)
  {
    hide Scan1, Reaches, ValueThen, WordStarts, LabelTakesLine, ScansAlone, Walled, Sound, Lower, Prefixed, EndsWithLabel;
    var s, t, n := pre + v + post, pre + w + post, |pre|;
    assert s[..n] == pre == t[..n];
    assert k < n && Anchor(pre, k) && NameEnd(pre, k) < n by { LabelAnchors(pre, k, c); }
    AgreeAt(pre, s, n, k);
    WordStartsLocal(pre, s, n, k);
    LabelWalls(pre, s, k, c);
    LabelWalls(pre, t, k, c);
    LabelTurn(pre, k, v, post, c);
    LabelTurn(pre, k, w, post, c);
    ValueScansAlone(v, post, LabelTakesLine(pre, k));
    ValueScansAlone(w, post, LabelTakesLine(pre, k));
    before := HidesAfter(pre, k, NameEnd(pre, k) - 1, v, w, post, pre[k..] + REDACTED, c);
  }

  lemma LabelAnchors(pre: string, k: nat, c: Contract)
    requires EndsWithLabel(pre, k, c)
    ensures k < |pre| && Anchor(pre, k) && NameEnd(pre, k) < |pre|
  {
  }

  lemma QuotedKeyHasColon(pre: string, k: nat, c: Contract) returns (colon: nat)
    requires EndsWithQuotedKey(pre, k, c)
    ensures k < colon < |pre| && pre[colon] == ':' && pre[k] == '"'
  {
    colon := Spaces(pre, QuoteEnd(pre, k));
  }

  /**
    At a quoted key: the key, its colon and the mask, quoted as the value was; what
    precedes does not depend on the value, quoted, bracketed or bare.
   */
  lemma QuotedKeyHides(pre: string, k: nat, v: string, w: string, post: string, c: Contract) returns (before: string)
    requires Sound(c) && EndsWithQuotedKey(pre, k, c)
    requires ValueThen(v, post, false) && ValueThen(w, post, false) && Mask(v) == Mask(w)
    requires Reaches(pre + v + post, 0, k, c)
    ensures Scan(pre + v + post, 0, c) == before + (pre[k..] + Mask(v) + Scan(post, 0, c)) == Scan(pre + w + post, 0, c)
    ensures Reaches(pre + w + post, 0, k, c)
  {
    hide Scan1, Reaches, EndsWithQuotedKey, ValueThen, WordStarts, ScansAlone, Alike, Mask, Sound;
    var colon := QuotedKeyHasColon(pre, k, c);
    AlikeAround(pre, k, colon, v, w, post, c);
    QuotedKeyTurn(pre, k, v, post, c);
    QuotedKeyTurn(pre, k, w, post, c);
    ValueScansAlone(v, post, false);
    ValueScansAlone(w, post, false);
    before := HidesAfter(pre, k, colon, v, w, post, pre[k..] + Mask(v), c);
  }

  lemma BareScansAlone(value: string, post: string)
    requires value != "" && (post == "" || Delimits(post[0]))
    ensures ScansAlone(value, post)
  {
    if post != "" { DelimitersAreNoNames(post[0]); }
  }

  /** A word with a recognised prefix: the mask alone, then the rest, whatever follows the prefix. */
  lemma PrefixHides(pre: string, k: nat, v: string, w: string, post: string, c: Contract) returns (before: string)
    requires PrefixSound(c) && EndsWithPrefix(pre, k, c)
    requires v != "" && AllBare(v) && w != "" && AllBare(w) && (post == "" || Delimits(post[0]))
    requires Reaches(pre + v + post, 0, k, c)
    ensures Scan(pre + v + post, 0, c) == before + (REDACTED + Scan(post, 0, c)) == Scan(pre + w + post, 0, c)
    ensures Reaches(pre + w + post, 0, k, c)
  {
    hide Scan1, Reaches, EndsWithPrefix, WordStarts, ScansAlone, Walled, AllBare, PrefixSound, Delimits;
    var s, t, n := pre + v + post, pre + w + post, |pre|;
    assert s[..n] == pre == t[..n];
    assert k < n && Anchor(pre, k) by { PrefixAnchors(pre, k, c); }
    AgreeAt(pre, s, n, k);
    WordStartsLocal(pre, s, n, k);
    PrefixWalls(pre, s, k, c);
    PrefixWalls(pre, t, k, c);
    PrefixTurn(pre, k, v, post, c);
    PrefixTurn(pre, k, w, post, c);
    BareScansAlone(v, post);
    BareScansAlone(w, post);
    before := HidesAfter(pre, k, n - 1, v, w, post, REDACTED, c);
  }

  lemma PrefixAnchors(pre: string, k: nat, c: Contract)
    requires EndsWithPrefix(pre, k, c)
    ensures k < |pre| && Anchor(pre, k)
  {
  }

  /** What is scanned alike reads alike. */
  lemma SameScanSameText(raw: string, other: string, c: Contract)
    requires c.maxOutput >= 1 && Truncated(raw, c) == Truncated(other, c)
    requires Scan(Stripped(raw, c), 0, c) == Scan(Stripped(other, c), 0, c)
    ensures Sanitize(raw, c) == Sanitize(other, c)
  {
    hide Scan, Flat, Stripped, Truncated;
  }

  lemma SoundLimit(c: Contract)
    requires Sound(c)
    ensures c.maxOutput >= 1
  {
  }

  /** Two texts that differ, once stripped, only in the value of a recognised key read the same. */
  lemma ValueIsHidden(raw: string, other: string, pre: string, k: nat, v: string, w: string, post: string, c: Contract)
    requires Sound(c) && EndsWithKey(pre, k, c)
    requires ValueThen(v, post, TakesLine(pre, k)) && ValueThen(w, post, TakesLine(pre, k))
    requires Stripped(raw, c) == pre + v + post && Stripped(other, c) == pre + w + post
    requires Truncated(raw, c) == Truncated(other, c)
    requires Reaches(pre + v + post, 0, k, c)
    ensures Sanitize(raw, c) == Sanitize(other, c)
  {
    hide Scan, Stripped, Truncated, Reaches, EndsWithKey, ValueThen, Sanitize, Sound;
    SoundLimit(c);
    var before := ScanHides(pre, k, v, w, post, c);
    SameScanSameText(raw, other, c);
  }

  /** The same of a label without a separator, such as `bearer`. */
  lemma LabelledValueIsHidden(raw: string, other: string, pre: string, k: nat, v: string, w: string, post: string, c: Contract)
    requires Sound(c) && EndsWithLabel(pre, k, c)
    requires ValueThen(v, post, LabelTakesLine(pre, k)) && ValueThen(w, post, LabelTakesLine(pre, k))
    requires v[0] !in {':', '='} && w[0] !in {':', '='}
    requires Stripped(raw, c) == pre + v + post && Stripped(other, c) == pre + w + post
    requires Truncated(raw, c) == Truncated(other, c)
    requires Reaches(pre + v + post, 0, k, c)
    ensures Sanitize(raw, c) == Sanitize(other, c)
  {
    hide Scan, Stripped, Truncated, Reaches, EndsWithLabel, ValueThen, Sanitize, Sound, LabelTakesLine;
    SoundLimit(c);
    var before := LabelHides(pre, k, v, w, post, c);
    SameScanSameText(raw, other, c);
  }

  /** The same of a quoted key, for two values masked alike. */
  lemma QuotedValueIsHidden(raw: string, other: string, pre: string, k: nat, v: string, w: string, post: string, c: Contract)
    requires Sound(c) && EndsWithQuotedKey(pre, k, c)
    requires ValueThen(v, post, false) && ValueThen(w, post, false) && Mask(v) == Mask(w)
    requires Stripped(raw, c) == pre + v + post && Stripped(other, c) == pre + w + post
    requires Truncated(raw, c) == Truncated(other, c)
    requires Reaches(pre + v + post, 0, k, c)
    ensures Sanitize(raw, c) == Sanitize(other, c)
  {
    hide Scan, Stripped, Truncated, Reaches, EndsWithQuotedKey, ValueThen, Sanitize, Sound, Mask;
    SoundLimit(c);
    var before := QuotedKeyHides(pre, k, v, w, post, c);
    SameScanSameText(raw, other, c);
  }

  /** The same of two words with a recognised prefix in common. */
  lemma PrefixedWordIsHidden(raw: string, other: string, pre: string, k: nat, v: string, w: string, post: string, c: Contract)
    requires c.maxOutput >= 1 && PrefixSound(c) && EndsWithPrefix(pre, k, c)
    requires v != "" && AllBare(v) && w != "" && AllBare(w) && (post == "" || Delimits(post[0]))
    requires Stripped(raw, c) == pre + v + post && Stripped(other, c) == pre + w + post
    requires Truncated(raw, c) == Truncated(other, c)
    requires Reaches(pre + v + post, 0, k, c)
    ensures Sanitize(raw, c) == Sanitize(other, c)
  {
    hide Scan, Stripped, Truncated, Reaches, EndsWithPrefix, AllBare, Sanitize, PrefixSound, Delimits;
    var before := PrefixHides(pre, k, v, w, post, c);
    SameScanSameText(raw, other, c);
  }
}
