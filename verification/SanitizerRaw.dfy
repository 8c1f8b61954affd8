/**
  Hiding, stated on the text before it is stripped: replacing the value of a recognised
  key does not change what the operator sees.
 */
module SanitizerRaw {
  import opened Sanitizer
  import opened SanitizerLocality
  import opened SanitizerHiding

  predicate Unescaped(s: string) { forall k :: 0 <= k < |s| ==> s[k] != ESCAPE }

  predicate WithinLimits(s: string, c: Contract) { |s| <= c.maxInput && |s| <= c.maxOutput }

  /** The characters of a text that stripping keeps when there are no escapes. */
  function Kept(s: string): string {
    if s == "" then "" else Kept(s[..|s| - 1]) + (if Keeps(s[|s| - 1]) then [s[|s| - 1]] else "")
  }

  lemma {:induction false} KeptConcat(s: string, t: string)
    ensures Kept(s + t) == Kept(s) + Kept(t)
  {
    hide Keeps;
    if t == "" { assert s + t == s; }
    else {
      assert (s + t)[..|s + t| - 1] == s + t[..|t| - 1];
      KeptConcat(s, t[..|t| - 1]);
    }
  }

  lemma {:induction false} KeptWhole(s: string)
    requires Safe(s)
    ensures Kept(s) == s
  {
    hide Banned;
    if s != "" {
      KeptWhole(s[..|s| - 1]);
      assert s == s[..|s| - 1] + [s[|s| - 1]];
    }
  }

  /** Text without escapes is stripped character by character. */
  lemma {:induction false} StripUnescaped(a: string, input: string, i: nat, c: Contract)
    requires WithinLimits(input, c) && i <= |a| && a <= input && Unescaped(a)
    ensures |Kept(a[..i])| <= i
    ensures StripFrom(input, 0, "", c) == StripFrom(input, i, Kept(a[..i]), c)
  {
    hide Keeps;
    if i > 0 {
      StripUnescaped(a, input, i - 1, c);
      assert a[..i][..i - 1] == a[..i - 1];
      assert input[i - 1] == a[i - 1] != ESCAPE;
    }
  }

  lemma {:induction false} SequenceShift(s: string, i: nat, t: string, j: nat)
    requires SameFrom(s, i, t, j)
    ensures SequenceEnd(s, i) - i == SequenceEnd(t, j) - j
    decreases |s| - i
  {
    SameAt(s, i, t, j, 0);
    SameAt(s, i, t, j, 1);
    if i < |s| && !('@' <= s[i] <= '~') { SequenceShift(s, i + 1, t, j + 1); }
  }

  lemma {:induction false} CommandShift(s: string, i: nat, t: string, j: nat)
    requires SameFrom(s, i, t, j)
    ensures CommandEnd(s, i) - i == CommandEnd(t, j) - j
    decreases |s| - i
  {
    SameAt(s, i, t, j, 0);
    SameAt(s, i, t, j, 1);
    if i < |s| && s[i] != BELL { CommandShift(s, i + 1, t, j + 1); }
  }

  lemma StripTurnShift(s: string, i: nat, t: string, j: nat)
    requires SameFrom(s, i, t, j) && i < |s| && j < |t|
    ensures Twins(StripTurn(s, i), i, StripTurn(t, j), j)
  {
    hide Keeps, SequenceEnd, CommandEnd, SameFrom;
    SameAt(s, i, t, j, 0);
    SameAt(s, i, t, j, 1);
    SameAt(s, i, t, j, 2);
    if i + 2 <= |s| {
      SequenceShift(s, i + 2, t, j + 2);
      CommandShift(s, i + 2, t, j + 2);
    }
  }

  /** Within the limits, what is stripped from a text's end does not depend on its beginning. */
  lemma {:induction false} StripShift(s: string, i: nat, kept: string, t: string, j: nat, other: string, c: Contract)
    returns (rest: string)
    requires SameFrom(s, i, t, j) && WithinLimits(s, c) && WithinLimits(t, c) && |kept| <= i && |other| <= j
    ensures StripFrom(s, i, kept, c) == kept + rest
    ensures StripFrom(t, j, other, c) == other + rest
    decreases |s| - i
  {
    hide StripTurn, SameFrom;
    Within(s, i, t, j);
    SameAt(s, i, t, j, 0);
    if i == |s| { rest := ""; }
    else {
      StripTurnShift(s, i, t, j);
      var a, b := StripTurn(s, i), StripTurn(t, j);
      SameAt(s, i, t, j, a.next - i);
      var tail := StripShift(s, a.next, kept + a.emit, t, b.next, other + a.emit, c);
      rest := a.emit + tail;
      assert kept + a.emit + tail == kept + rest && other + a.emit + tail == other + rest;
    }
  }

  /** Around a value without controls, beginning and end are stripped on their own. */
  lemma StripAround(a: string, value: string, b: string, c: Contract)
    requires WithinLimits(a + value + b, c) && Unescaped(a) && Safe(value)
    ensures Stripped(a + value + b, c) == Kept(a) + value + Stripped(b, c)
    ensures !Truncated(a + value + b, c)
  {
    hide StripFrom, Kept, Safe, Unescaped;
    var head, text := a + value, a + value + b;
    assert Input(text, c) == text && Input(b, c) == b;
    KeptWhole(value);
    SafeIsUnescaped(value);
    KeptConcat(a, value);
    UnescapedConcat(a, value);
    StripUnescaped(head, text, |head|, c);
    assert head[..|head|] == head && text[|head|..] == b[0..] == b;
    var rest := StripShift(text, |head|, Kept(head), b, 0, "", c);
    assert "" + rest == rest;
  }

  lemma SafeIsUnescaped(s: string)
    requires Safe(s)
    ensures Unescaped(s)
  {
    assert Banned(ESCAPE);
  }

  lemma UnescapedConcat(s: string, t: string)
    requires Unescaped(s) && Unescaped(t)
    ensures Unescaped(s + t)
  {
  }

  /** Replacing the value after a key the scan reaches leaves the sanitized text as it was. */
  lemma SecretIsHidden(a: string, k: nat, v: string, w: string, b: string, c: Contract)
    requires Sound(c) && EndsWithKey(Kept(a), k, c) && Unescaped(a) && Safe(v) && Safe(w)
    requires WithinLimits(a + v + b, c) && WithinLimits(a + w + b, c)
    requires ValueThen(v, Stripped(b, c), TakesLine(Kept(a), k)) && ValueThen(w, Stripped(b, c), TakesLine(Kept(a), k))
    requires Reaches(Kept(a) + v + Stripped(b, c), 0, k, c)
    ensures Sanitize(a + v + b, c) == Sanitize(a + w + b, c)
  {
    hide Sanitize, Stripped, Truncated, Reaches, EndsWithKey, ValueThen, Kept, TakesLine, Sound;
    assert c.maxOutput >= 1 by { SoundLimit(c); }
    StripAround(a, v, b, c);
    StripAround(a, w, b, c);
    ValueIsHidden(a + v + b, a + w + b, Kept(a), k, v, w, Stripped(b, c), c);
  }

  /** The same of a quoted key. */
  lemma QuotedSecretIsHidden(a: string, k: nat, v: string, w: string, b: string, c: Contract)
    requires Sound(c) && EndsWithQuotedKey(Kept(a), k, c) && Unescaped(a) && Safe(v) && Safe(w)
    requires WithinLimits(a + v + b, c) && WithinLimits(a + w + b, c)
    requires ValueThen(v, Stripped(b, c), false) && ValueThen(w, Stripped(b, c), false) && Mask(v) == Mask(w)
    requires Reaches(Kept(a) + v + Stripped(b, c), 0, k, c)
    ensures Sanitize(a + v + b, c) == Sanitize(a + w + b, c)
  {
    hide Sanitize, Stripped, Truncated, Reaches, EndsWithQuotedKey, ValueThen, Kept, Sound, Mask;
    SoundLimit(c);
    StripAround(a, v, b, c);
    StripAround(a, w, b, c);
    QuotedValueIsHidden(a + v + b, a + w + b, Kept(a), k, v, w, Stripped(b, c), c);
  }

  /** The same of words with a recognised prefix in common. */
  lemma PrefixedSecretIsHidden(a: string, k: nat, v: string, w: string, b: string, c: Contract)
    requires c.maxOutput >= 1 && PrefixSound(c) && EndsWithPrefix(Kept(a), k, c) && Unescaped(a) && Safe(v) && Safe(w)
    requires WithinLimits(a + v + b, c) && WithinLimits(a + w + b, c)
    requires v != "" && AllBare(v) && w != "" && AllBare(w) && (Stripped(b, c) == "" || Delimits(Stripped(b, c)[0]))
    requires Reaches(Kept(a) + v + Stripped(b, c), 0, k, c)
    ensures Sanitize(a + v + b, c) == Sanitize(a + w + b, c)
  {
    hide Sanitize, Stripped, Truncated, Reaches, EndsWithPrefix, AllBare, Kept, PrefixSound, Delimits;
    StripAround(a, v, b, c);
    StripAround(a, w, b, c);
    PrefixedWordIsHidden(a + v + b, a + w + b, Kept(a), k, v, w, Stripped(b, c), c);
  }

  // ----- the simplest case, with no premise about the scan

  /** A key as the contract writes it: letters in lower case, digits, `_` and `-`. */
  predicate PlainKey(key: string) {
    key != "" && forall k :: 0 <= k < |key| ==> 'a' <= key[k] <= 'z' || '0' <= key[k] <= '9' || key[k] == '_' || key[k] == '-'
  }

  /** The word begins with none of the recognised prefixes. */
  predicate NoPrefix(word: string, c: Contract) {
    forall k :: 0 <= k < |c.prefixes| ==> !(c.prefixes[k] <= word)
  }

  /** The key in any mixture of upper and lower case. */
  predicate SpeltAs(word: string, key: string) {
    |word| == |key| && forall k :: 0 <= k < |key| ==>
      word[k] == key[k] || ('a' <= key[k] <= 'z' && word[k] as int == key[k] as int - 32)
  }

  /** A value of plain characters, none of which ends or nests it. */
  predicate PlainValue(v: string) {
    v != "" && forall k :: 0 <= k < |v| ==>
      0x21 <= v[k] as int <= 0x7e && v[k] !in {'&', ',', '}', ']', '"', '\'', ';', '#', '{', '['}
  }

  /** The rest of a text after a value. */
  predicate EndsValue(rest: string) {
    rest == "" || rest[0] in {'&', ',', '}', ']', '"', '\'', ';', '#', ' ', '\t', '\n', '\r'}
  }

  lemma PlainValueStands(v: string, rest: string)
    requires PlainValue(v) && EndsValue(rest)
    ensures ValueThen(v, rest, false)
  {
    forall k | 0 <= k < |v| ensures Bare(v[k]) {}
  }

  lemma {:induction false} NameRuns(s: string, i: nat, end: nat)
    requires i <= end < |s| && (forall k :: i <= k < end ==> Name(s[k])) && !Name(s[end])
    ensures NameEnd(s, i) == end
    decreases end - i
  {
    if i < end { NameRuns(s, i + 1, end); }
  }

  lemma WordIsKey(word: string, key: string)
    requires PlainKey(key) && SpeltAs(word, key)
    ensures (forall k :: 0 <= k < |word| ==> Name(word[k])) && Lower(word) == key && word != ""
  {
  }

  lemma KeyEndsText(word: string, key: string, sep: char, c: Contract)
    requires PlainKey(key) && SpeltAs(word, key) && sep in {':', '='} && key in c.keys && NoPrefix(key, c)
    ensures var text := word + [sep];
            EndsWithKey(text, 0, c) && (TakesLine(text, 0) <==> sep == ':' && key in WHOLE_LINE_KEYS)
  {
    hide Name, Lower;
    WordIsKey(word, key);
    var text := word + [sep];
    forall k | 0 <= k < |word| ensures Name(text[k]) { assert text[k] == word[k]; }
    assert text[|word|] == sep && !Name(sep) by { SeparatorsAreNoNames(); }
    NameRuns(text, 0, |word|);
    assert text[0..|word|] == word;
    assert Spaces(text, |word|) == |word|;
    assert Spaces(text, |word| + 1) == |text|;
  }

  lemma SeparatorsAreNoNames()
    ensures !Name(':') && !Name('=') && !Name(' ')
  {
  }

  lemma PlainKeySafe(key: string)
    requires PlainKey(key)
    ensures Safe(key + "=")
  {
    var text := key + "=";
    forall k | 0 <= k < |text| ensures !Banned(text[k]) {
      if k < |key| { assert Name(key[k]); }
    }
  }

  /** `key=value` or `key:value` and a rest: the key is kept, in its case, and the value masked up to its delimiter. */
  lemma PlainSecretIsMasked(word: string, key: string, sep: char, v: string, rest: string, c: Contract)
    requires PlainKey(key) && SpeltAs(word, key) && sep in {':', '='} && key in c.keys && NoPrefix(key, c)
    requires sep == '=' || key !in {"authorization", "proxy-authorization", "password", "secret", "cookie", "set-cookie"}
    requires PlainValue(v) && EndsValue(rest)
    ensures Scan(word + [sep] + v + rest, 0, c) == word + [sep] + "[REDACTED]" + Scan(rest, 0, c)
  {
    hide EndsWithKey, TakesLine, ValueThen, NoPrefix, PlainKey, SpeltAs, PlainValue, EndsValue, Scan1, ScansAlone;
    var pre := word + [sep];
    KeyEndsText(word, key, sep, c);
    PlainValueStands(v, rest);
    KeyTurn(pre, 0, v, rest, c);
    ValueScansAlone(v, rest, false);
    RestScansAlone(pre, v, rest, c);
    FirstTurn(pre, v, rest, pre[0..] + REDACTED, c);
    assert pre[0..] == pre;
  }

  /** After `:`, the value of a header, a password or a secret is the whole rest of the line. */
  lemma HeaderLineIsMasked(word: string, key: string, v: string, rest: string, c: Contract)
    requires PlainKey(key) && SpeltAs(word, key) && key in c.keys && NoPrefix(key, c)
    requires key in {"authorization", "proxy-authorization", "password", "secret", "cookie", "set-cookie"}
    requires v != "" && v[0] != ' ' && v[0] != '\t' && '\n' !in v && (rest == "" || rest[0] == '\n')
    ensures Scan(word + ":" + v + rest, 0, c) == word + ":" + "[REDACTED]" + Scan(rest, 0, c)
  {
    hide EndsWithKey, TakesLine, NoPrefix, PlainKey, SpeltAs, Scan1, ScansAlone, Stands;
    var pre := word + ":";
    KeyEndsText(word, key, ':', c);
    KeyTurn(pre, 0, v, rest, c);
    ValueScansAlone(v, rest, true);
    RestScansAlone(pre, v, rest, c);
    FirstTurn(pre, v, rest, pre[0..] + REDACTED, c);
    assert pre[0..] == pre;
  }

  /** Some keys need no separator: the word after them is masked. */
  lemma LabelledWordIsMasked(word: string, key: string, v: string, rest: string, c: Contract)
    requires PlainKey(key) && SpeltAs(word, key) && key in c.keys && NoPrefix(key, c)
    requires key in {"bearer", "token", "api_key", "apikey"}
    requires PlainValue(v) && v[0] !in {':', '='} && EndsValue(rest)
    ensures Scan(word + " " + v + rest, 0, c) == word + " " + "[REDACTED]" + Scan(rest, 0, c)
  {
    hide EndsWithLabel, LabelTakesLine, NoPrefix, PlainKey, SpeltAs, Scan1, ScansAlone, PlainValue, EndsValue, ValueThen;
    var pre := word + " ";
    LabelEndsText(word, key, c);
    PlainValueStands(v, rest);
    LabelTurn(pre, 0, v, rest, c);
    ValueScansAlone(v, rest, false);
    RestScansAlone(pre, v, rest, c);
    FirstTurn(pre, v, rest, pre[0..] + REDACTED, c);
    assert pre[0..] == pre;
  }

  lemma LabelEndsText(word: string, key: string, c: Contract)
    requires PlainKey(key) && SpeltAs(word, key) && key in c.keys && NoPrefix(key, c) && key in {"bearer", "token", "api_key", "apikey"}
    ensures var text := word + " "; EndsWithLabel(text, 0, c) && !LabelTakesLine(text, 0)
  {
    hide Name, Lower;
    WordIsKey(word, key);
    var text := word + " ";
    forall k | 0 <= k < |word| ensures Name(text[k]) { assert text[k] == word[k]; }
    assert text[|word|] == ' ' && !Name(' ') by { SeparatorsAreNoNames(); }
    NameRuns(text, 0, |word|);
    assert text[0..|word|] == word;
    assert Spaces(text, |text|) == |text|;
  }

  /** A word that begins, in any case, with a recognised prefix is masked whole, up to the delimiter after it. */
  lemma PrefixedWordIsMasked(word: string, prefix: string, v: string, rest: string, c: Contract)
    requires prefix in c.prefixes && PlainKey(prefix) && SpeltAs(word, prefix) && PlainValue(v) && EndsValue(rest)
    ensures Scan(word + v + rest, 0, c) == "[REDACTED]" + Scan(rest, 0, c)
  {
    hide EndsWithPrefix, PlainKey, SpeltAs, Scan1, ScansAlone, PlainValue, EndsValue, ValueThen, Delimits;
    PrefixEndsText(word, prefix, c);
    PlainValueStands(v, rest);
    assert AllBare(v) && v != "" && (rest == "" || Delimits(rest[0])) by { PlainValueIsBare(v, rest); }
    PrefixTurn(word, 0, v, rest, c);
    ValueScansAlone(v, rest, false);
    RestScansAlone(word, v, rest, c);
    FirstTurn(word, v, rest, REDACTED, c);
  }

  lemma PlainValueIsBare(v: string, rest: string)
    requires PlainValue(v) && EndsValue(rest)
    ensures AllBare(v) && v != "" && (rest == "" || Delimits(rest[0]))
  {
  }

  lemma PrefixEndsText(word: string, prefix: string, c: Contract)
    requires prefix in c.prefixes && PlainKey(prefix) && SpeltAs(word, prefix)
    ensures EndsWithPrefix(word, 0, c)
  {
    hide Name, Lower;
    WordIsKey(word, prefix);
    assert word[0..] == word;
    AllNames(word, 0);
    var k :| 0 <= k < |c.prefixes| && c.prefixes[k] == prefix;
    assert c.prefixes[k] <= prefix;
  }

  lemma {:induction false} AllNames(s: string, i: nat)
    requires i <= |s| && forall k :: 0 <= k < |s| ==> Name(s[k])
    ensures NameEnd(s, i) == |s|
    decreases |s| - i
  {
    if i < |s| { AllNames(s, i + 1); }
  }

  /** The scan of a text whose first turn takes a key and its value. */
  lemma FirstTurn(pre: string, v: string, rest: string, emit: string, c: Contract)
    requires v != "" && Scan1(pre + v + rest, 0, c) == Turn(emit, |pre| + |v|)
    requires Scan(pre + v + rest, |pre| + |v|, c) == Scan(rest, 0, c)
    ensures Scan(pre + v + rest, 0, c) == emit + Scan(rest, 0, c)
  {
    hide Scan1;
  }

  /** `key=value` alone: any two values give the same output. */
  lemma LeadingSecretIsHidden(key: string, v: string, w: string, c: Contract)
    requires Sound(c) && PlainKey(key) && key in c.keys && NoPrefix(key, c) && Safe(v) && Safe(w)
    requires ValueThen(v, "", false) && ValueThen(w, "", false)
    requires WithinLimits(key + "=" + v, c) && WithinLimits(key + "=" + w, c)
    ensures Sanitize(key + "=" + v, c) == Sanitize(key + "=" + w, c)
  {
    hide Sanitize, EndsWithKey, TakesLine, ValueThen, Kept, Safe, Unescaped, Sound, NoPrefix, PlainKey, Stripped;
    assert c.maxOutput >= 1 by { SoundLimit(c); }
    var a := key + "=";
    PlainKeySafe(key);
    KeptWhole(a);
    SafeIsUnescaped(a);
    KeyEndsText(key, key, '=', c);
    assert a + v + "" == a + v && a + w + "" == a + w;
    assert Stripped("", c) == "" by { NothingStripped(c); }
    SecretIsHidden(a, 0, v, w, "", c);
  }

  lemma NothingStripped(c: Contract)
    ensures Stripped("", c) == ""
  {
  }

  /** A quoted key, its colon and a quoted or bracketed value: the value alone is replaced by its mask. */
  lemma LeadingQuotedKeyIsMasked(token: string, v: string, c: Contract)
    requires Sound(c) && QuotedValue(token) && token[0] == '"' && c.decode(token).Some? && c.decode(token).value in c.keys
    requires ValueThen(v, "", false)
    ensures Scan(token + ":" + v, 0, c) == token + ":" + Mask(v)
  {
    hide Sound, ValueThen, Mask, Closes;
    var pre := token + ":";
    assert EndsWithQuotedKey(pre, 0, c) by {
      assert StandsAt(token, pre, 0);
      ClosesTaken(token, 1, pre, 0);
      assert pre[0..|token|] == token;
    }
    assert pre + v + "" == pre + v;
    QuotedKeyTurn(pre, 0, v, "", c);
    assert pre[0..] == pre;
  }
}
