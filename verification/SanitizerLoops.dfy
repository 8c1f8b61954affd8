/**
  The sanitizer as it runs: index loops over the characters, each computing the
  function that specifies it, and the words that flattening joins.
 */
module SanitizerLoops {
  import opened Events
  import opened Sanitizer

  method FindQuoteEnd(s: string, start: nat) returns (j: nat)
    requires start < |s|
    ensures j == QuoteEnd(s, start)
  {
    var i := start + 1;
    while i < |s| && s[i] != '\n'
      invariant start < i && QuoteEnd(s, start) == QuoteFrom(s, s[start], i)
      decreases |s| - i
    {
      if s[i] == '\\' { i := i + 1; }
      else if s[i] == s[start] { return i + 1; }
      i := i + 1;
    }
    return Least(i, |s|);
  }

  method SkipSpaces(s: string, i: nat) returns (j: nat)
    requires i <= |s|
    ensures j == Spaces(s, i)
  {
    j := i;
    while j < |s| && (s[j] == ' ' || s[j] == '\t')
      invariant i <= j <= |s| && Spaces(s, i) == Spaces(s, j)
    {
      j := j + 1;
    }
  }

  method FindValueEnd(s: string, start: nat, wholeLine: bool) returns (j: nat)
    requires start <= |s|
    ensures j == ValueEnd(s, start, wholeLine)
  {
    hide Delimits;
    if start == |s| { return start; }
    if !wholeLine && Quote(s[start]) { j := FindQuoteEnd(s, start); return; }
    var depth := 0;
    j := start;
    while j < |s| && s[j] != '\n'
      invariant start <= j <= |s|
      invariant ValueEnd(s, start, wholeLine) == if wholeLine then LineFrom(s, j) else ValueFrom(s, j, depth)
      decreases |s| - j
    {
      if !wholeLine {
        var ch := s[j];
        if Quote(ch) && depth > 0 { j := FindQuoteEnd(s, j); continue; }
        if ch == '{' || ch == '[' { depth := depth + 1; }
        else if (ch == '}' || ch == ']') && depth > 0 {
          depth := depth - 1;
          if depth == 0 { return j + 1; }
        }
        else if depth == 0 && Delimits(ch) { return j; }
      }
      j := j + 1;
    }
  }

  /** The first pass: escapes are skipped, control characters dropped, the result bounded. */
  method Strip(input: string, c: Contract) returns (chars: string)
    ensures chars == StripFrom(input, 0, "", c)
  {
    hide Keeps;
    chars := "";
    var i := 0;
    while i < Least(|input|, c.maxInput) && |chars| < c.maxOutput
      invariant i <= |input| && StripFrom(input, 0, "", c) == StripFrom(input, i, chars, c)
      decreases |input| - i
    {
      ghost var from, was := i, chars;
      if Opens(input, i, '[') {
        i := SkipSequence(input, i + 2);
      } else if Opens(input, i, ']') {
        i := SkipCommand(input, i + 2);
      } else {
        if Keeps(input[i]) { chars := chars + [input[i]]; }
        i := i + 1;
      }
      assert Turn(StripTurn(input, from).emit, i) == StripTurn(input, from);
      assert was + "" == was;
    }
  }

  method SkipSequence(input: string, start: nat) returns (i: nat)
    requires start <= |input|
    ensures i == SequenceEnd(input, start)
  {
    i := start;
    while i < |input|
      invariant start <= i <= |input| && SequenceEnd(input, start) == SequenceEnd(input, i)
    {
      var end := '@' <= input[i] <= '~';
      i := i + 1;
      if end { return; }
    }
  }

  method SkipCommand(input: string, start: nat) returns (i: nat)
    requires start <= |input|
    ensures i == CommandEnd(input, start)
  {
    i := start;
    while i < |input|
      invariant start <= i <= |input| && CommandEnd(input, start) == CommandEnd(input, i)
    {
      if input[i] == BELL { return i + 1; }
      if input[i] == ESCAPE && i + 1 < |input| && input[i + 1] == '\\' { return i + 2; }
      i := i + 1;
    }
  }

  method FindNameEnd(s: string, i: nat) returns (j: nat)
    requires i <= |s|
    ensures j == NameEnd(s, i)
  {
    j := i;
    while j < |s| && Name(s[j])
      invariant i <= j <= |s| && NameEnd(s, i) == NameEnd(s, j)
    {
      j := j + 1;
    }
  }

  /** The turn at a quoted token, if it is a recognised key. */
  method QuotedTurn(s: string, i: nat, c: Contract) returns (t: Option<Turn>)
    requires i < |s| && s[i] == '"'
    ensures t == var colon := QuotedKey(s, i, c); if colon.Some? then Some(RedactQuoted(s, i, colon.value)) else None
  {
    hide QuoteEnd, Spaces, ValueEnd;
    var end := FindQuoteEnd(s, i);
    var colon := SkipSpaces(s, end);
    t := None;
    if colon < |s| && s[colon] == ':' {
      var key := c.decode(s[i..end]);
      if key.Some? && key.value in c.keys {
        var start := SkipSpaces(s, colon + 1);
        var value := FindValueEnd(s, start, false);
        var mask := REDACTED;
        if start < |s| && s[start] == '"' {
          mask := "\"" + REDACTED;
          mask := mask + if value > start + 1 && s[value - 1] == '"' then "\"" else "";
        }
        t := Some(Turn(s[i..start] + mask, value));
      }
    }
  }

  /** The turn at the start of a word, if the word or its value is to be redacted. */
  method WordTurn(s: string, i: nat, c: Contract) returns (t: Option<Turn>)
    requires i < |s| && WordStarts(s, i)
    requires QuotedKey(s, i, c).None?
    ensures t.Some? ==> t.value == Scan1(s, i, c)
    ensures t.None? ==> Scan1(s, i, c) == Turn([s[i]], i + 1)
  {
    hide QuotedKey, NameEnd, Spaces, ValueEnd, Lower, Prefixed;
    var end := FindNameEnd(s, i);
    var key := Lower(s[i..end]);
    t := None;
    if Prefixed(key, c) {
      var value := FindValueEnd(s, i, false);
      return Some(Turn(REDACTED, value));
    }
    var separator := SkipSpaces(s, end);
    var explicit := separator < |s| && (s[separator] == ':' || s[separator] == '=');
    var named := key in LABELS;
    if key in c.keys && (explicit || (named && separator > end)) {
      var start := SkipSpaces(s, if explicit then separator + 1 else separator);
      var wholeLine := !(separator < |s| && s[separator] == '=') && key in WHOLE_LINE_KEYS;
      var value := FindValueEnd(s, start, wholeLine);
      t := Some(Turn(s[i..start] + REDACTED, value));
    }
  }

  method TakeTurn(s: string, i: nat, c: Contract) returns (t: Turn)
    requires i < |s|
    ensures t == Scan1(s, i, c)
  {
    hide QuotedKey, RedactQuoted, WordStarts, KeyedWord, RedactWord, ValueEnd, Prefixed, NameEnd, Lower;
    var turn := None;
    if s[i] == '"' { turn := QuotedTurn(s, i, c); }
    else { NoQuote(s, i, c); }
    if turn.None? && WordStarts(s, i) { turn := WordTurn(s, i, c); }
    t := if turn.Some? then turn.value else Turn([s[i]], i + 1);
  }

  /** The second pass: one turn after another, each moving on. */
  method Redact(chars: string, c: Contract) returns (safe: string)
    ensures safe == Scan(chars, 0, c)
  {
    hide Scan1;
    safe := "";
    var i := 0;
    while i < |chars|
      invariant i <= |chars| && Scan(chars, 0, c) == safe + Scan(chars, i, c)
      decreases |chars| - i
    {
      ghost var was := safe;
      var t := TakeTurn(chars, i, c);
      safe := safe + t.emit;
      assert was + (t.emit + Scan(chars, t.next, c)) == safe + Scan(chars, t.next, c);
      i := t.next;
    }
  }

  lemma NoQuote(s: string, i: nat, c: Contract)
    requires i < |s| && s[i] != '"'
    ensures QuotedKey(s, i, c).None?
  {
  }

  /** The sanitizer computes its specification. */
  method SanitizeFailureText(raw: string, c: Contract) returns (text: string)
    requires c.maxOutput >= 1
    ensures text == Sanitize(raw, c)
    ensures |text| <= c.maxOutput && Safe(text)
  {
    hide Scan, Flat, Safe, StripFrom;
    var input := raw[..Least(|raw|, c.maxInput + 1)];
    var truncated := |input| > c.maxInput || |input| > c.maxOutput;
    var chars := Strip(input, c);
    var safe := Redact(chars, c);
    var flat := Flat(safe, false);
    text := Bounded(flat, truncated, c);
    OutputIsBoundedAndSafe(raw, c);
  }

  // ----- what the scanners find

  lemma {:induction false} QuoteFromStops(s: string, quote: char, i: nat)
    requires i <= |s|
    ensures var j := QuoteFrom(s, quote, i);
            && (forall k :: i <= k < j && s[k] == '\n' ==> i < k && s[k - 1] == '\\')
            && (forall k :: i <= k < j - 1 && s[k] == quote ==> quote == '\\' || (i < k && s[k - 1] == '\\'))
            && (j < |s| ==> s[j] == '\n' || (i < j && s[j - 1] == quote))
    decreases |s| - i
  {
    if i < |s| && s[i] != '\n' {
      if s[i] == '\\' {
        if i + 2 <= |s| { QuoteFromStops(s, quote, i + 2); }
      } else if s[i] != quote { QuoteFromStops(s, quote, i + 1); }
    }
  }

  /**
    A quoted token ends after its closing quote, before the end of its line, or at the
    end of the text; every earlier quote or line end in it is escaped.
   */
  lemma QuoteEndIsTheClosingQuote(s: string, start: nat)
    requires start < |s| && Quote(s[start])
    ensures var j := QuoteEnd(s, start);
            && (j < |s| ==> s[j] == '\n' || (start + 1 < j && s[j - 1] == s[start]))
            && (forall k :: start < k < j - 1 && s[k] == s[start] ==> start + 1 < k && s[k - 1] == '\\')
            && (forall k :: start < k < j && s[k] == '\n' ==> start + 1 < k && s[k - 1] == '\\')
  {
    QuoteFromStops(s, s[start], start + 1);
  }

  // ----- flattening joins the words

  /** The maximal runs of characters that are not white space. */
  function Words(s: string): (words: seq<string>)
    ensures s != "" && !White(s[0]) ==> words != []
  {
    if s == "" then []
    else if White(s[0]) then Words(s[1..])
    else if s[1..] == "" || White(s[1]) then [[s[0]]] + Words(s[1..])
    else var rest := Words(s[1..]); [[s[0]] + rest[0]] + rest[1..]
  }

  function Tail(words: seq<string>): string
    decreases |words|, 1
  {
    (if words == [] then "" else " ") + Join(words)
  }

  function Join(words: seq<string>): string
    decreases |words|, 0
  {
    if words == [] then "" else words[0] + Tail(words[1..])
  }

  /** What follows the part of a word that was written. */
  function AfterWord(s: string): string {
    if s != "" && White(s[0]) then Tail(Words(s)) else Join(Words(s))
  }

  lemma {:induction false} FlatAfterWord(s: string)
    ensures Flat(s, true) == AfterWord(s)
  {
    if s != "" {
      FlatAfterWord(s[1..]);
      if !White(s[0]) { WordJoins(s); }
    }
  }

  lemma WordJoins(s: string)
    requires s != "" && !White(s[0])
    ensures Join(Words(s)) == [s[0]] + AfterWord(s[1..])
  {
    hide White, Join;
    var rest := Words(s[1..]);
    if s[1..] == "" || White(s[1]) { JoinFirst([s[0]], rest); } else { JoinLonger(s[0], rest); }
  }

  lemma JoinFirst(word: string, rest: seq<string>)
    ensures Join([word] + rest) == word + Tail(rest)
  {
    assert ([word] + rest)[1..] == rest;
  }

  lemma JoinLonger(first: char, words: seq<string>)
    requires words != []
    ensures Join([[first] + words[0]] + words[1..]) == [first] + Join(words)
  {
    hide Join, Tail;
    JoinFirst([first] + words[0], words[1..]);
    JoinFirst(words[0], words[1..]);
    assert [words[0]] + words[1..] == words;
    assert ([first] + words[0]) + Tail(words[1..]) == [first] + (words[0] + Tail(words[1..]));
  }

  /** Flattened text is the words of the text, in order, one space apart. */
  lemma {:induction false} FlatJoinsWords(s: string)
    ensures Flat(s, false) == Join(Words(s))
  {
    if s != "" {
      if White(s[0]) { FlatJoinsWords(s[1..]); }
      else {
        FlatAfterWord(s[1..]);
        WordJoins(s);
      }
    }
  }
}
