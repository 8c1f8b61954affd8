/**
  The failure-text sanitizer: strip terminal escapes and control characters, redact
  the values of recognised keys and tokens with recognised prefixes, flatten white
  space, and bound the length.

  The contract (keys, prefixes, limits) is a parameter, and so is the decoding of a
  quoted key: `decode` maps a quoted token to its lower-cased text, or to nothing when
  it is not a JSON string.  Characters are Unicode scalar values.
 */
module Sanitizer {
  import opened Events

  datatype Contract = Contract(
    keys: set<string>, prefixes: seq<string>, maxInput: nat, maxOutput: nat, decode: string -> Option<string>)

  const ESCAPE := '\U{1B}'
  const BELL := '\U{07}'
  const REDACTED := "[REDACTED]"
  const ELLIPSIS := '\U{2026}'

  const LABELS: set<string> := {"authorization", "bearer", "token", "api_key", "apikey", "password", "secret"}
  const WHOLE_LINE_KEYS: set<string> := {"authorization", "proxy-authorization", "password", "secret", "cookie", "set-cookie"}

  function Least(a: nat, b: nat): nat { if a < b then a else b }

  // ----- characters

  /** Control and bidirectional-override characters. */
  predicate Banned(c: char) {
    var n := c as int;
    n <= 0x1f || 0x7f <= n <= 0x9f || n == 0x61c || n == 0x200e || n == 0x200f || 0x202a <= n <= 0x202e || 0x2066 <= n <= 0x2069
  }

  predicate Keeps(c: char) { c == '\n' || c == '\t' || !Banned(c) }

  predicate Name(c: char) { 'a' <= c <= 'z' || 'A' <= c <= 'Z' || '0' <= c <= '9' || c == '_' || c == '-' }

  predicate Quote(c: char) { c == '"' || c == '\'' }

  predicate Delimits(c: char) { White(c) || c in {'&', ',', '}', ']', '"', '\'', ';', '#'} }

  function LowerChar(c: char): char { if 'A' <= c <= 'Z' then ((c as int) + 32) as char else c }

  function Lower(s: string): string { seq(|s|, k requires 0 <= k < |s| => LowerChar(s[k])) }

  // ----- stripping

  /** The end of a control sequence whose parameters start at `i`. */
  function SequenceEnd(input: string, i: nat): (j: nat)
    requires i <= |input|
    ensures i <= j <= |input|
    decreases |input| - i
  {
    if i == |input| then i
    else if '@' <= input[i] <= '~' then i + 1
    else SequenceEnd(input, i + 1)
  }

  /** The end of an operating-system command whose text starts at `i`. */
  function CommandEnd(input: string, i: nat): (j: nat)
    requires i <= |input|
    ensures i <= j <= |input|
    decreases |input| - i
  {
    if i == |input| then i
    else if input[i] == BELL then i + 1
    else if input[i] == ESCAPE && i + 1 < |input| && input[i + 1] == '\\' then i + 2
    else CommandEnd(input, i + 1)
  }

  predicate Opens(input: string, i: nat, c: char) {
    i + 1 < |input| && input[i] == ESCAPE && input[i + 1] == c
  }

  /** What one turn of a scan emits, and where it goes on. */
  datatype Turn = Turn(emit: string, next: nat)

  function StripTurn(input: string, i: nat): (t: Turn)
    requires i < |input|
    ensures i < t.next <= |input|
    ensures |t.emit| <= t.next - i
  {
    if Opens(input, i, '[') then Turn("", SequenceEnd(input, i + 2))
    else if Opens(input, i, ']') then Turn("", CommandEnd(input, i + 2))
    else Turn(if Keeps(input[i]) then [input[i]] else "", i + 1)
  }

  function StripFrom(input: string, i: nat, kept: string, c: Contract): string
    requires i <= |input|
    decreases |input| - i
  {
    if i >= Least(|input|, c.maxInput) || |kept| >= c.maxOutput then kept
    else var t := StripTurn(input, i); StripFrom(input, t.next, kept + t.emit, c)
  }

  function Input(raw: string, c: Contract): string { raw[..Least(|raw|, c.maxInput + 1)] }

  function Stripped(raw: string, c: Contract): string { StripFrom(Input(raw, c), 0, "", c) }

  predicate Truncated(raw: string, c: Contract) { |Input(raw, c)| > c.maxInput || |Input(raw, c)| > c.maxOutput }

  // ----- scanners

  function QuoteFrom(s: string, quote: char, i: nat): (j: nat)
    ensures j <= |s| && (i <= |s| ==> i <= j)
    decreases if i < |s| then |s| - i else 0
  {
    if i >= |s| then |s|
    else if s[i] == '\n' then i
    else if s[i] == '\\' then QuoteFrom(s, quote, i + 2)
    else if s[i] == quote then i + 1
    else QuoteFrom(s, quote, i + 1)
  }

  function QuoteEnd(s: string, start: nat): (j: nat)
    requires start < |s|
    ensures start < j <= |s|
  {
    QuoteFrom(s, s[start], start + 1)
  }

  function Spaces(s: string, i: nat): (j: nat)
    requires i <= |s|
    ensures i <= j <= |s|
    ensures forall k :: i <= k < j ==> s[k] == ' ' || s[k] == '\t'
    ensures j < |s| ==> s[j] != ' ' && s[j] != '\t'
    decreases |s| - i
  {
    if i < |s| && (s[i] == ' ' || s[i] == '\t') then Spaces(s, i + 1) else i
  }

  function NameEnd(s: string, i: nat): (j: nat)
    requires i <= |s|
    ensures i <= j <= |s|
    ensures forall k :: i <= k < j ==> Name(s[k])
    ensures j < |s| ==> !Name(s[j])
    decreases |s| - i
  {
    if i < |s| && Name(s[i]) then NameEnd(s, i + 1) else i
  }

  function LineFrom(s: string, i: nat): (j: nat)
    requires i <= |s|
    ensures i <= j <= |s|
    ensures forall k :: i <= k < j ==> s[k] != '\n'
    ensures j < |s| ==> s[j] == '\n'
    decreases |s| - i
  {
    if i < |s| && s[i] != '\n' then LineFrom(s, i + 1) else i
  }

  /** The end of a value inside `depth` open brackets. */
  function ValueFrom(s: string, i: nat, depth: nat): (j: nat)
    requires i <= |s|
    ensures i <= j <= |s|
    decreases |s| - i
  {
    if i == |s| || s[i] == '\n' then i
    else if Quote(s[i]) && depth > 0 then ValueFrom(s, QuoteEnd(s, i), depth)
    else if s[i] == '{' || s[i] == '[' then ValueFrom(s, i + 1, depth + 1)
    else if (s[i] == '}' || s[i] == ']') && depth > 0 then
      if depth == 1 then i + 1 else ValueFrom(s, i + 1, depth - 1)
    else if depth == 0 && Delimits(s[i]) then i
    else ValueFrom(s, i + 1, depth)
  }

  function ValueEnd(s: string, start: nat, wholeLine: bool): (j: nat)
    requires start <= |s|
    ensures start <= j <= |s|
  {
    if start == |s| then start
    else if wholeLine then LineFrom(s, start)
    else if Quote(s[start]) then QuoteEnd(s, start)
    else ValueFrom(s, start, 0)
  }

  // ----- redaction

  /** The colon after a quoted token at `i`, when the token is a recognised key. */
  function QuotedKey(s: string, i: nat, c: Contract): (colon: Option<nat>)
    requires i < |s|
    ensures colon.Some? ==> i < colon.value < |s|
  {
    if s[i] != '"' then None
    else
      var end := QuoteEnd(s, i);
      var colon := Spaces(s, end);
      if colon < |s| && s[colon] == ':' && c.decode(s[i..end]).Some? && c.decode(s[i..end]).value in c.keys
      then Some(colon) else None
  }

  /** What replaces a value from `start` to `value`: quoted as it was. */
  function Replacement(s: string, start: nat, value: nat): string
    requires start <= value <= |s|
  {
    if start < |s| && s[start] == '"'
    then "\"" + REDACTED + (if value > start + 1 && s[value - 1] == '"' then "\"" else "")
    else REDACTED
  }

  function RedactQuoted(s: string, i: nat, colon: nat): (t: Turn)
    requires i < colon < |s|
    ensures i < t.next <= |s|
  {
    var start := Spaces(s, colon + 1);
    var value := ValueEnd(s, start, false);
    Turn(s[i..start] + Replacement(s, start, value), value)
  }

  predicate WordStarts(s: string, i: nat)
    requires i < |s|
  {
    Name(s[i]) && (i == 0 || !Name(s[i - 1]))
  }

  predicate Prefixed(key: string, c: Contract) {
    exists k :: 0 <= k < |c.prefixes| && c.prefixes[k] <= key
  }

  /** Whether the word `s[i..end]` is a key with a value, and where its separator is. */
  predicate KeyedWord(s: string, key: string, end: nat, c: Contract)
    requires end <= |s|
  {
    var separator := Spaces(s, end);
    key in c.keys && (Explicit(s, separator) || (key in LABELS && separator > end))
  }

  predicate Explicit(s: string, separator: nat) {
    separator < |s| && (s[separator] == ':' || s[separator] == '=')
  }

  predicate WholeLine(s: string, separator: nat, key: string) {
    !(separator < |s| && s[separator] == '=') && key in WHOLE_LINE_KEYS
  }

  /** Where the value of a keyed word ending at `end` starts. */
  function ValueStart(s: string, end: nat): (start: nat)
    requires end <= |s|
    ensures end <= start <= |s|
  {
    var separator := Spaces(s, end);
    Spaces(s, if Explicit(s, separator) then separator + 1 else separator)
  }

  function RedactWord(s: string, i: nat, key: string, end: nat): (t: Turn)
    requires i < end <= |s|
    ensures i < t.next <= |s|
  {
    var start := ValueStart(s, end);
    Turn(s[i..start] + REDACTED, ValueEnd(s, start, WholeLine(s, Spaces(s, end), key)))
  }

  function Scan1(s: string, i: nat, c: Contract): (t: Turn)
    requires i < |s|
    ensures i < t.next <= |s|
  {
    var colon := QuotedKey(s, i, c);
    if colon.Some? then RedactQuoted(s, i, colon.value)
    else if WordStarts(s, i) then
      var end := NameEnd(s, i);
      var key := Lower(s[i..end]);
      if Prefixed(key, c) then Turn(REDACTED, ValueEnd(s, i, false))
      else if KeyedWord(s, key, end, c) then RedactWord(s, i, key, end)
      else Turn([s[i]], i + 1)
    else Turn([s[i]], i + 1)
  }

  function Scan(s: string, i: nat, c: Contract): string
    requires i <= |s|
    decreases |s| - i
  {
    if i == |s| then "" else var t := Scan1(s, i, c); t.emit + Scan(s, t.next, c)
  }

  // ----- flattening and the bound

  /** Runs of white space become one space between words, `started` telling whether a word was written. */
  function Flat(s: string, started: bool): string {
    if s == "" then ""
    else if White(s[0]) then
      if started && s[1..] != "" && !White(s[1]) then " " + Flat(s[1..], true) else Flat(s[1..], started)
    else [s[0]] + Flat(s[1..], true)
  }

  function Bounded(flat: string, truncated: bool, c: Contract): string
    requires c.maxOutput >= 1
  {
    var limit := if truncated then c.maxOutput - 1 else c.maxOutput;
    flat[..Least(|flat|, limit)] + (if truncated then [ELLIPSIS] else "")
  }

  function Sanitize(raw: string, c: Contract): string
    requires c.maxOutput >= 1
  {
    Bounded(Flat(Scan(Stripped(raw, c), 0, c), false), Truncated(raw, c), c)
  }

  // ----- for every input: bounded, and free of control characters

  predicate Clean(s: string) { forall k :: 0 <= k < |s| ==> Keeps(s[k]) }

  lemma {:induction false} StripIsClean(input: string, i: nat, kept: string, c: Contract)
    requires i <= |input| && Clean(kept)
    ensures Clean(StripFrom(input, i, kept, c))
    decreases |input| - i
  {
    hide Keeps;
    if i < Least(|input|, c.maxInput) && |kept| < c.maxOutput {
      var t := StripTurn(input, i);
      StripIsClean(input, t.next, kept + t.emit, c);
    }
  }

  lemma RedactedIsClean()
    ensures Clean(REDACTED) && Clean("\"") && Clean("")
  {
  }

  lemma TurnIsClean(s: string, i: nat, c: Contract)
    requires i < |s| && Clean(s)
    ensures Clean(Scan1(s, i, c).emit)
  {
    hide Keeps, Name, QuotedKey, KeyedWord, Prefixed, ValueEnd, WholeLine, Explicit;
    RedactedIsClean();
  }

  lemma {:induction false} ScanIsClean(s: string, i: nat, c: Contract)
    requires i <= |s| && Clean(s)
    ensures Clean(Scan(s, i, c))
    decreases |s| - i
  {
    hide Keeps, Scan1;
    if i < |s| {
      TurnIsClean(s, i, c);
      ScanIsClean(s, Scan1(s, i, c).next, c);
    }
  }

  predicate Safe(s: string) { forall k :: 0 <= k < |s| ==> !Banned(s[k]) }

  lemma {:induction false} FlatIsSafe(s: string, started: bool)
    requires Clean(s)
    ensures Safe(Flat(s, started))
  {
    if s != "" {
      FlatIsSafe(s[1..], started);
      FlatIsSafe(s[1..], true);
    }
  }

  /** Whatever the text and the contract, the result is short and has no control or override character. */
  lemma OutputIsBoundedAndSafe(raw: string, c: Contract)
    requires c.maxOutput >= 1
    ensures |Sanitize(raw, c)| <= c.maxOutput
    ensures Safe(Sanitize(raw, c))
    ensures forall k :: 0 <= k < |Sanitize(raw, c)| ==>
              var n := Sanitize(raw, c)[k] as int;
              n >= 0x20 && !(0x7f <= n <= 0x9f) && n !in {0x61c, 0x200e, 0x200f} && !(0x202a <= n <= 0x202e) && !(0x2066 <= n <= 0x2069)
    ensures Truncated(raw, c) ==> Sanitize(raw, c)[|Sanitize(raw, c)| - 1] == ELLIPSIS
  {
    hide Stripped, Scan, Flat, Truncated;
    var stripped := Stripped(raw, c);
    CleanInput(raw, c);
    ScanIsClean(stripped, 0, c);
    FlatIsSafe(Scan(stripped, 0, c), false);
  }

  lemma CleanInput(raw: string, c: Contract)
    ensures Clean(Stripped(raw, c))
  {
    StripIsClean(Input(raw, c), 0, "", c);
  }
}
