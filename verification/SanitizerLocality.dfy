/**
  How far the scan looks: a turn that ends inside a common beginning does not depend on
  what follows it, and the turns of a common ending do not depend on what precedes it.
 */
module SanitizerLocality {
  import opened Sanitizer

  /** From `i` the scan takes turns that end exactly at `k`. */
  predicate Reaches(s: string, i: nat, k: nat, c: Contract)
    requires i <= |s|
    decreases |s| - i
  {
    i == k || (i < k && i < |s| && Reaches(s, Scan1(s, i, c).next, k, c))
  }

  // ----- a scanner that stops inside a common beginning sees no more than it

  predicate Agree(s: string, t: string, n: nat) { n <= |s| && n <= |t| && s[..n] == t[..n] }

  lemma AgreeAt(s: string, t: string, n: nat, k: nat)
    requires Agree(s, t, n) && k < n
    ensures s[k] == t[k]
  {
    assert s[..n][k] == t[..n][k];
  }

  lemma {:induction false} QuoteLocal(s: string, t: string, n: nat, quote: char, i: nat)
    requires Agree(s, t, n) && QuoteFrom(s, quote, i) < n
    ensures QuoteFrom(t, quote, i) == QuoteFrom(s, quote, i)
    decreases if i < |s| then |s| - i else 0
  {
    assert i < n;
    AgreeAt(s, t, n, i);
    if s[i] != '\n' {
      if s[i] == '\\' { QuoteLocal(s, t, n, quote, i + 2); }
      else if s[i] != quote { QuoteLocal(s, t, n, quote, i + 1); }
    }
  }

  lemma QuoteEndLocal(s: string, t: string, n: nat, i: nat)
    requires Agree(s, t, n) && i < |s| && QuoteEnd(s, i) < n
    ensures i < |t| && QuoteEnd(t, i) == QuoteEnd(s, i)
  {
    AgreeAt(s, t, n, i);
    QuoteLocal(s, t, n, s[i], i + 1);
  }

  lemma {:induction false} SpacesLocal(s: string, t: string, n: nat, i: nat)
    requires Agree(s, t, n) && i <= |s| && Spaces(s, i) < n
    ensures i <= |t| && Spaces(t, i) == Spaces(s, i)
    decreases |s| - i
  {
    AgreeAt(s, t, n, i);
    if s[i] == ' ' || s[i] == '\t' { SpacesLocal(s, t, n, i + 1); }
  }

  lemma {:induction false} NameLocal(s: string, t: string, n: nat, i: nat)
    requires Agree(s, t, n) && i <= |s| && NameEnd(s, i) < n
    ensures i <= |t| && NameEnd(t, i) == NameEnd(s, i)
    decreases |s| - i
  {
    AgreeAt(s, t, n, i);
    if Name(s[i]) { NameLocal(s, t, n, i + 1); }
  }

  lemma {:induction false} LineLocal(s: string, t: string, n: nat, i: nat)
    requires Agree(s, t, n) && i <= |s| && LineFrom(s, i) < n
    ensures i <= |t| && LineFrom(t, i) == LineFrom(s, i)
    decreases |s| - i
  {
    AgreeAt(s, t, n, i);
    if s[i] != '\n' { LineLocal(s, t, n, i + 1); }
  }

  lemma {:induction false} ValueLocal(s: string, t: string, n: nat, i: nat, depth: nat)
    requires Agree(s, t, n) && i <= |s| && ValueFrom(s, i, depth) < n
    ensures i <= |t| && ValueFrom(t, i, depth) == ValueFrom(s, i, depth)
    decreases |s| - i
  {
    hide Delimits, QuoteEnd;
    AgreeAt(s, t, n, i);
    if s[i] != '\n' {
      if Quote(s[i]) && depth > 0 {
        assert QuoteEnd(s, i) < n;
        QuoteEndLocal(s, t, n, i);
        ValueLocal(s, t, n, QuoteEnd(s, i), depth);
      }
      else if s[i] == '{' || s[i] == '[' { ValueLocal(s, t, n, i + 1, depth + 1); }
      else if (s[i] == '}' || s[i] == ']') && depth > 0 { if depth > 1 { ValueLocal(s, t, n, i + 1, depth - 1); } }
      else if !(depth == 0 && Delimits(s[i])) { ValueLocal(s, t, n, i + 1, depth); }
    }
  }

  lemma ValueEndLocal(s: string, t: string, n: nat, i: nat, line: bool)
    requires Agree(s, t, n) && i <= |s| && ValueEnd(s, i, line) < n
    ensures i <= |t| && ValueEnd(t, i, line) == ValueEnd(s, i, line)
  {
    hide LineFrom, ValueFrom, QuoteFrom, Quote;
    AgreeAt(s, t, n, i);
    if line { LineLocal(s, t, n, i); }
    else if Quote(s[i]) { QuoteLocal(s, t, n, s[i], i + 1); }
    else { ValueLocal(s, t, n, i, 0); }
  }

  lemma SliceLocal(s: string, t: string, n: nat, i: nat, j: nat)
    requires Agree(s, t, n) && i <= j <= n
    ensures s[i..j] == t[i..j]
  {
    assert s[i..j] == s[..n][i..j] == t[..n][i..j] == t[i..j];
  }

  // ----- a turn that ends before the key is the same for every value

  /** Between `k` and `m` stands what no quoted key runs across. */
  ghost predicate Walled(s: string, k: nat, m: nat, c: Contract) {
    && k <= m < |s| && s[m] != ' ' && s[m] != '\t'
    && forall i, j :: 0 <= i < k && m < j <= |s| ==> c.decode(s[i..j]).None? || c.decode(s[i..j]).value !in c.keys
  }

  /** A turn that reaches `k` stops there: a word or a quoted token starts. */
  predicate Anchor(s: string, k: nat) { k < |s| && (WordStarts(s, k) || s[k] == '"') }

  /** A quoted key before the wall is read within the common beginning. */
  lemma QuotedKeyLocal(s: string, t: string, n: nat, m: nat, i: nat, k: nat, c: Contract)
    requires Walled(s, k, m, c) && Agree(s, t, n) && i < k <= m < n
    requires QuotedKey(s, i, c).Some?
    ensures QuotedKey(t, i, c) == QuotedKey(s, i, c) && QuotedKey(s, i, c).value <= m
  {
    hide QuoteFrom, Spaces;
    AgreeAt(s, t, n, i);
    var end := QuoteEnd(s, i);
    assert end <= m;
    assert Spaces(s, end) <= m by { SpacesStop(s, end, m); }
    QuoteLocal(s, t, n, s[i], i + 1);
    SpacesLocal(s, t, n, end);
    AgreeAt(s, t, n, Spaces(s, end));
    SliceLocal(s, t, n, i, end);
  }

  lemma NoQuotedKeyLocal(s: string, t: string, n: nat, m: nat, i: nat, k: nat, c: Contract)
    requires Walled(t, k, m, c) && Agree(s, t, n) && i < k <= m < n
    requires QuotedKey(s, i, c).None?
    ensures QuotedKey(t, i, c).None?
  {
    hide QuotedKey, Walled;
    if QuotedKey(t, i, c).Some? { QuotedKeyLocal(t, s, n, m, i, k, c); }
  }

  lemma ReplacementLocal(s: string, t: string, n: nat, i: nat, j: nat)
    requires Agree(s, t, n) && i <= j < n
    ensures Replacement(t, i, j) == Replacement(s, i, j)
  {
    AgreeAt(s, t, n, i);
    if i < j { AgreeAt(s, t, n, j - 1); }
  }

  lemma RedactQuotedLocal(s: string, t: string, n: nat, i: nat, colon: nat)
    requires Agree(s, t, n) && i < colon < |s| && RedactQuoted(s, i, colon).next < n
    ensures RedactQuoted(t, i, colon) == RedactQuoted(s, i, colon)
  {
    hide Spaces, ValueEnd, Replacement;
    var start := Spaces(s, colon + 1);
    var value := ValueEnd(s, start, false);
    SpacesLocal(s, t, n, colon + 1);
    ValueEndLocal(s, t, n, start, false);
    SliceLocal(s, t, n, i, start);
    ReplacementLocal(s, t, n, start, value);
  }

  lemma RedactWordLocal(s: string, t: string, n: nat, i: nat, key: string, end: nat)
    requires Agree(s, t, n) && i < end <= |s| && RedactWord(s, i, key, end).next < n
    ensures end <= |t| && RedactWord(t, i, key, end) == RedactWord(s, i, key, end)
  {
    hide Spaces, ValueEnd;
    var separator := Spaces(s, end);
    SpacesLocal(s, t, n, end);
    AgreeAt(s, t, n, separator);
    var from := if Explicit(s, separator) then separator + 1 else separator;
    SpacesLocal(s, t, n, from);
    var start := Spaces(s, from);
    ValueEndLocal(s, t, n, start, WholeLine(s, separator, key));
    SliceLocal(s, t, n, i, start);
  }

  /** At a word before an anchor: the branch taken and what it yields. */
  lemma WordLocal(s: string, t: string, n: nat, i: nat, k: nat, c: Contract)
    requires Agree(s, t, n) && i < k < n && WordStarts(s, i) && Anchor(s, k) && !QuotedKey(s, i, c).Some? && !QuotedKey(t, i, c).Some?
    requires Scan1(s, i, c).next <= k
    ensures Scan1(t, i, c) == Scan1(s, i, c)
  {
    hide Spaces, ValueEnd, NameEnd, QuotedKey, RedactWord, Prefixed, Lower;
    AgreeAt(s, t, n, i);
    if i > 0 { AgreeAt(s, t, n, i - 1); }
    assert !Name(s[k - 1]) || !Name(s[k]);
    var end := NameEnd(s, i);
    assert end <= k;
    NameLocal(s, t, n, i);
    SliceLocal(s, t, n, i, end);
    var key := Lower(s[i..end]);
    assert Spaces(s, end) <= k by { SpacesStop(s, end, k); }
    SpacesLocal(s, t, n, end);
    AgreeAt(s, t, n, Spaces(s, end));
    if Prefixed(key, c) { ValueEndLocal(s, t, n, i, false); }
    else if KeyedWord(s, key, end, c) { RedactWordLocal(s, t, n, i, key, end); }
  }

  lemma SpacesStop(s: string, i: nat, k: nat)
    requires i <= k < |s| && s[k] != ' ' && s[k] != '\t'
    ensures Spaces(s, i) <= k
  {
  }

  /** Two texts with the same beginning, an anchor in it, and a wall no quoted key crosses in either. */
  ghost predicate Alike(s: string, t: string, n: nat, m: nat, k: nat, c: Contract) {
    Agree(s, t, n) && k <= m < n && Anchor(s, k) && Walled(s, k, m, c) && Walled(t, k, m, c)
  }

  lemma TurnLocal(s: string, t: string, n: nat, m: nat, i: nat, k: nat, c: Contract)
    requires Alike(s, t, n, m, k, c) && i < k && Scan1(s, i, c).next <= k
    ensures Scan1(t, i, c) == Scan1(s, i, c)
  {
    hide QuotedKey, WordStarts, NameEnd, KeyedWord, Prefixed, RedactQuoted, RedactWord, ValueEnd, Spaces, Lower, Walled;
    AgreeAt(s, t, n, i);
    if QuotedKey(s, i, c).Some? {
      QuotedKeyLocal(s, t, n, m, i, k, c);
      RedactQuotedLocal(s, t, n, i, QuotedKey(s, i, c).value);
    } else {
      NoQuotedKeyLocal(s, t, n, m, i, k, c);
      WordStartsLocal(s, t, n, i);
      if WordStarts(s, i) { WordLocal(s, t, n, i, k, c); }
    }
  }

  lemma WordStartsLocal(s: string, t: string, n: nat, i: nat)
    requires Agree(s, t, n) && i < n
    ensures WordStarts(s, i) == WordStarts(t, i)
  {
    AgreeAt(s, t, n, i);
    if i > 0 { AgreeAt(s, t, n, i - 1); }
  }

  lemma {:induction false} ReachesLocal(s: string, t: string, n: nat, m: nat, i: nat, k: nat, c: Contract)
    requires Alike(s, t, n, m, k, c) && i <= k && Reaches(s, i, k, c)
    ensures Reaches(t, i, k, c)
    decreases k - i
  {
    hide Scan1, Walled, Anchor;
    if i < k {
      ReachesEarlier(s, Scan1(s, i, c).next, k, c);
      TurnLocal(s, t, n, m, i, k, c);
      ReachesLocal(s, t, n, m, Scan1(s, i, c).next, k, c);
    }
  }

  lemma ReachesEarlier(s: string, i: nat, k: nat, c: Contract)
    requires i <= |s| && Reaches(s, i, k, c)
    ensures i <= k
  {
  }

  /** What the scan emits before it reaches `k` is the same for both. */
  lemma {:induction false} ScanSplits(s: string, t: string, n: nat, m: nat, i: nat, k: nat, c: Contract) returns (before: string)
    requires Alike(s, t, n, m, k, c) && i <= k && Reaches(s, i, k, c)
    ensures Scan(s, i, c) == before + Scan(s, k, c)
    ensures Scan(t, i, c) == before + Scan(t, k, c)
    decreases k - i
  {
    hide Scan1, Walled, Anchor;
    if i == k {
      before := "";
    } else {
      var turn := Scan1(s, i, c);
      ReachesEarlier(s, turn.next, k, c);
      TurnLocal(s, t, n, m, i, k, c);
      var rest := ScanSplits(s, t, n, m, turn.next, k, c);
      before := turn.emit + rest;
      assert turn.emit + (rest + Scan(s, k, c)) == before + Scan(s, k, c);
      assert turn.emit + (rest + Scan(t, k, c)) == before + Scan(t, k, c);
    }
  }

  // ----- what follows the value is scanned by itself

  predicate SameFrom(s: string, i: nat, t: string, j: nat) { i <= |s| && j <= |t| && s[i..] == t[j..] }

  lemma SameAt(s: string, i: nat, t: string, j: nat, d: nat)
    requires SameFrom(s, i, t, j)
    ensures |s| - i == |t| - j && (i + d < |s| ==> s[i + d] == t[j + d])
    ensures i + d <= |s| ==> SameFrom(s, i + d, t, j + d)
  {
    assert |s[i..]| == |t[j..]|;
    if i + d < |s| { assert s[i..][d] == t[j..][d]; }
    if i + d <= |s| { assert s[i + d..] == s[i..][d..] == t[j..][d..] == t[j + d..]; }
  }

  lemma {:induction false} QuoteShift(s: string, i: nat, t: string, j: nat, quote: char)
    requires SameFrom(s, i, t, j)
    ensures QuoteFrom(s, quote, i) - i == QuoteFrom(t, quote, j) - j
    decreases |s| - i
  {
    SameAt(s, i, t, j, 0);
    SameAt(s, i, t, j, 1);
    SameAt(s, i, t, j, 2);
    if i < |s| && s[i] != '\n' {
      if s[i] == '\\' { if i + 2 <= |s| { QuoteShift(s, i + 2, t, j + 2, quote); } }
      else if s[i] != quote { QuoteShift(s, i + 1, t, j + 1, quote); }
    }
  }

  lemma QuoteEndShift(s: string, i: nat, t: string, j: nat)
    requires SameFrom(s, i, t, j) && i < |s| && j < |t|
    ensures QuoteEnd(s, i) - i == QuoteEnd(t, j) - j
    ensures SameFrom(s, QuoteEnd(s, i), t, QuoteEnd(t, j))
  {
    hide QuoteFrom, SameFrom;
    SameAt(s, i, t, j, 0);
    SameAt(s, i, t, j, 1);
    QuoteShift(s, i + 1, t, j + 1, s[i]);
    SameAt(s, i, t, j, QuoteEnd(s, i) - i);
  }

  lemma {:induction false} SpacesShift(s: string, i: nat, t: string, j: nat)
    requires SameFrom(s, i, t, j)
    ensures Spaces(s, i) - i == Spaces(t, j) - j
    decreases |s| - i
  {
    SameAt(s, i, t, j, 0);
    SameAt(s, i, t, j, 1);
    if i < |s| && (s[i] == ' ' || s[i] == '\t') { SpacesShift(s, i + 1, t, j + 1); }
  }

  lemma {:induction false} NameShift(s: string, i: nat, t: string, j: nat)
    requires SameFrom(s, i, t, j)
    ensures NameEnd(s, i) - i == NameEnd(t, j) - j
    decreases |s| - i
  {
    SameAt(s, i, t, j, 0);
    SameAt(s, i, t, j, 1);
    if i < |s| && Name(s[i]) { NameShift(s, i + 1, t, j + 1); }
  }

  lemma {:induction false} LineShift(s: string, i: nat, t: string, j: nat)
    requires SameFrom(s, i, t, j)
    ensures LineFrom(s, i) - i == LineFrom(t, j) - j
    decreases |s| - i
  {
    SameAt(s, i, t, j, 0);
    SameAt(s, i, t, j, 1);
    if i < |s| && s[i] != '\n' { LineShift(s, i + 1, t, j + 1); }
  }

  lemma {:induction false} ValueShift(s: string, i: nat, t: string, j: nat, depth: nat)
    requires SameFrom(s, i, t, j)
    ensures ValueFrom(s, i, depth) - i == ValueFrom(t, j, depth) - j
    decreases |s| - i
  {
    hide Delimits, QuoteEnd, SameFrom;
    assert i <= |s| && j <= |t| by { Within(s, i, t, j); }
    SameAt(s, i, t, j, 0);
    SameAt(s, i, t, j, 1);
    if i < |s| && s[i] != '\n' {
      if Quote(s[i]) && depth > 0 {
        QuoteEndShift(s, i, t, j);
        ValueShift(s, QuoteEnd(s, i), t, QuoteEnd(t, j), depth);
      }
      else if s[i] == '{' || s[i] == '[' { ValueShift(s, i + 1, t, j + 1, depth + 1); }
      else if (s[i] == '}' || s[i] == ']') && depth > 0 { if depth > 1 { ValueShift(s, i + 1, t, j + 1, depth - 1); } }
      else if !(depth == 0 && Delimits(s[i])) { ValueShift(s, i + 1, t, j + 1, depth); }
    }
  }

  lemma Within(s: string, i: nat, t: string, j: nat)
    requires SameFrom(s, i, t, j)
    ensures i <= |s| && j <= |t|
  {
  }

  lemma ValueEndShift(s: string, i: nat, t: string, j: nat, line: bool)
    requires SameFrom(s, i, t, j)
    ensures ValueEnd(s, i, line) - i == ValueEnd(t, j, line) - j
  {
    hide LineFrom, ValueFrom, QuoteFrom, Quote;
    SameAt(s, i, t, j, 0);
    SameAt(s, i, t, j, 1);
    LineShift(s, i, t, j);
    ValueShift(s, i, t, j, 0);
    if i < |s| { QuoteShift(s, i + 1, t, j + 1, s[i]); }
  }

  lemma SliceShift(s: string, i: nat, t: string, j: nat, d: nat)
    requires SameFrom(s, i, t, j) && i + d <= |s|
    ensures j + d <= |t| && s[i..i + d] == t[j..j + d]
  {
    SameAt(s, i, t, j, d);
    assert s[i..i + d] == s[i..][..d] == t[j..][..d] == t[j..j + d];
  }

  /** Two turns at the same distance with the same text emitted. */
  predicate Twins(a: Turn, i: nat, b: Turn, j: nat) { a.emit == b.emit && a.next - i == b.next - j }

  lemma QuotedKeyShift(s: string, i: nat, t: string, j: nat, c: Contract)
    requires SameFrom(s, i, t, j) && i < |s| && j < |t|
    ensures QuotedKey(s, i, c).Some? == QuotedKey(t, j, c).Some?
    ensures QuotedKey(s, i, c).Some? ==> QuotedKey(s, i, c).value - i == QuotedKey(t, j, c).value - j
  {
    hide QuoteEnd, Spaces, SameFrom;
    SameAt(s, i, t, j, 0);
    QuoteEndShift(s, i, t, j);
    var end := QuoteEnd(s, i);
    SpacesShift(s, end, t, QuoteEnd(t, j));
    SameAt(s, i, t, j, Spaces(s, end) - i);
    SliceShift(s, i, t, j, end - i);
  }

  lemma RedactQuotedShift(s: string, i: nat, t: string, j: nat, colon: nat, d: nat)
    requires SameFrom(s, i, t, j) && 0 < d && colon == i + d < |s| && j + d < |t|
    ensures Twins(RedactQuoted(s, i, colon), i, RedactQuoted(t, j, j + d), j)
  {
    hide Spaces, ValueEnd, SameFrom, Replacement;
    SameAt(s, i, t, j, d + 1);
    SpacesShift(s, colon + 1, t, j + d + 1);
    var start, there := Spaces(s, colon + 1), Spaces(t, j + d + 1);
    SameAt(s, i, t, j, start - i);
    SliceShift(s, i, t, j, start - i);
    ValueEndShift(s, start, t, there, false);
    ReplacementShift(s, start, t, there, ValueEnd(s, start, false) - start);
  }

  lemma ReplacementShift(s: string, i: nat, t: string, j: nat, d: nat)
    requires SameFrom(s, i, t, j) && i + d <= |s| && j + d <= |t|
    ensures Replacement(s, i, i + d) == Replacement(t, j, j + d)
  {
    SameAt(s, i, t, j, 0);
    if d > 0 { SameAt(s, i, t, j, d - 1); }
  }

  lemma SeparatorShift(s: string, i: nat, t: string, j: nat, key: string, c: Contract)
    requires SameFrom(s, i, t, j) && i <= |s| && j <= |t|
    ensures Spaces(s, i) - i == Spaces(t, j) - j
    ensures Explicit(s, Spaces(s, i)) == Explicit(t, Spaces(t, j))
    ensures WholeLine(s, Spaces(s, i), key) == WholeLine(t, Spaces(t, j), key)
    ensures KeyedWord(s, key, i, c) == KeyedWord(t, key, j, c)
  {
    hide Spaces, SameFrom;
    SpacesShift(s, i, t, j);
    SameAt(s, i, t, j, 0);
    SameAt(s, i, t, j, Spaces(s, i) - i);
  }

  lemma StartShift(s: string, i: nat, t: string, j: nat, c: Contract)
    requires SameFrom(s, i, t, j) && i <= |s| && j <= |t|
    ensures ValueStart(s, i) - i == ValueStart(t, j) - j
    ensures SameFrom(s, ValueStart(s, i), t, ValueStart(t, j))
  {
    hide Spaces, SameFrom, Explicit;
    SeparatorShift(s, i, t, j, "", c);
    var separator := Spaces(s, i);
    var from := if Explicit(s, separator) then separator + 1 else separator;
    ExplicitInside(s, separator);
    SameAt(s, i, t, j, from - i);
    SpacesShift(s, from, t, from - i + j);
    SameAt(s, i, t, j, ValueStart(s, i) - i);
  }

  lemma RedactWordShift(s: string, i: nat, t: string, j: nat, key: string, d: nat, c: Contract)
    requires SameFrom(s, i, t, j) && 0 < d && i + d <= |s| && j + d <= |t|
    ensures Twins(RedactWord(s, i, key, i + d), i, RedactWord(t, j, key, j + d), j)
    ensures KeyedWord(s, key, i + d, c) == KeyedWord(t, key, j + d, c)
  {
    hide Spaces, ValueEnd, ValueStart, SameFrom, Explicit, WholeLine, KeyedWord;
    SameAt(s, i, t, j, d);
    SeparatorShift(s, i + d, t, j + d, key, c);
    StartShift(s, i + d, t, j + d, c);
    var start := ValueStart(s, i + d);
    SliceShift(s, i, t, j, start - i);
    ValueEndShift(s, start, t, ValueStart(t, j + d), WholeLine(s, Spaces(s, i + d), key));
  }

  lemma ExplicitInside(s: string, separator: nat)
    ensures Explicit(s, separator) ==> separator < |s|
  {
  }

  lemma TurnShift(s: string, i: nat, t: string, j: nat, c: Contract)
    requires SameFrom(s, i, t, j) && i < |s| && j < |t| && WordStarts(s, i) == WordStarts(t, j)
    ensures Twins(Scan1(s, i, c), i, Scan1(t, j, c), j)
  {
    hide QuotedKey, WordStarts, KeyedWord, Prefixed, RedactQuoted, RedactWord, ValueEnd, NameEnd, SameFrom, Lower;
    SameAt(s, i, t, j, 0);
    QuotedKeyShift(s, i, t, j, c);
    if QuotedKey(s, i, c).Some? {
      RedactQuotedShift(s, i, t, j, QuotedKey(s, i, c).value, QuotedKey(s, i, c).value - i);
    } else if WordStarts(s, i) {
      WordTurnShift(s, i, t, j, c);
    }
  }

  lemma WordTurnShift(s: string, i: nat, t: string, j: nat, c: Contract)
    requires SameFrom(s, i, t, j) && i < |s| && j < |t| && WordStarts(s, i) && WordStarts(t, j)
    requires QuotedKey(s, i, c).None? && QuotedKey(t, j, c).None?
    ensures Twins(Scan1(s, i, c), i, Scan1(t, j, c), j)
  {
    hide QuotedKey, KeyedWord, Prefixed, RedactWord, ValueEnd, SameFrom, Lower;
    SameAt(s, i, t, j, 0);
    NameShift(s, i, t, j);
    var d := NameEnd(s, i) - i;
    SliceShift(s, i, t, j, d);
    ValueEndShift(s, i, t, j, false);
    RedactWordShift(s, i, t, j, Lower(s[i..i + d]), d, c);
  }

  lemma {:induction false} ScanShift(s: string, i: nat, t: string, j: nat, c: Contract)
    requires SameFrom(s, i, t, j)
    requires i < |s| && j < |t| ==> WordStarts(s, i) == WordStarts(t, j)
    ensures Scan(s, i, c) == Scan(t, j, c)
    decreases |s| - i
  {
    hide Scan1, SameFrom;
    SameAt(s, i, t, j, 0);
    if i < |s| {
      TurnShift(s, i, t, j, c);
      var d := Scan1(s, i, c).next - i;
      SameAt(s, i, t, j, d);
      SameAt(s, i, t, j, d - 1);
      ScanShift(s, i + d, t, j + d, c);
    }
  }
}
