/** What the patterns match: a scalar's match in a text without a backslash is what the parser reads there. */
module SearchPattern {
  import opened Options
  import opened SearchText
  import opened SearchValue
  import opened SearchScalars

  ghost predicate SpacesBetween(t: string, i: nat, j: nat) {
    i <= j <= |t| && forall k :: i <= k < j ==> IsRegexSpace(t[k])
  }

  /** The regular expression matches t[i..j]. */
  ghost predicate MatchesAt(r: Regex, t: string, i: nat, j: nat) {
    && i <= j <= |t|
    && match r
       case Exactly(text) => t[i..j] == text
       case OneOf(alternatives) => t[i..j] in alternatives
       case IgnoreCase(word) => Lower(t[i..j]) == word
       case Spaces => SpacesBetween(t, i, j)
       case Then(first, second) => exists m :: MatchesAt(first, t, i, m) && MatchesAt(second, t, m, j)
  }

  lemma {:induction false} ThenSplit(first: Regex, second: Regex, t: string, i: nat, j: nat) returns (m: nat)
    requires MatchesAt(Then(first, second), t, i, j)
    ensures i <= m <= j
    ensures MatchesAt(first, t, i, m) && MatchesAt(second, t, m, j)
  {
    m :| MatchesAt(first, t, i, m) && MatchesAt(second, t, m, j);
  }

  lemma {:induction false} ExactlyChar(c: char, t: string, i: nat, j: nat)
    requires MatchesAt(Exactly([c]), t, i, j)
    ensures j == i + 1 && At(t, i, c)
  {
    assert t[i] == t[i..j][0];
  }

  /** `\s*c\s*` */
  lemma {:induction false} SpacedChar(c: char, t: string, i: nat, j: nat) returns (at: nat)
    requires MatchesAt(Then(Spaces, Then(Exactly([c]), Spaces)), t, i, j)
    ensures SpacesBetween(t, i, at) && At(t, at, c) && SpacesBetween(t, at + 1, j)
  {
    at := ThenSplit(Spaces, Then(Exactly([c]), Spaces), t, i, j);
    var m := ThenSplit(Exactly([c]), Spaces, t, at, j);
    ExactlyChar(c, t, at, m);
  }

  // ---- Escaped texts ----

  function Unescape(pattern: string): string {
    if pattern == "" then ""
    else if pattern[0] == '\\' && |pattern| > 1 then [pattern[1]] + Unescape(pattern[2..])
    else [pattern[0]] + Unescape(pattern[1..])
  }

  /** No special character stands outside a pair of a backslash and a character. */
  predicate IsEscaped(pattern: string) {
    pattern == "" || (
      if pattern[0] == '\\' then |pattern| > 1 && IsEscaped(pattern[2..])
      else !IsSpecial(pattern[0]) && IsEscaped(pattern[1..]))
  }

  /** An escaped text stands for the text itself, and has no special character left. */
  lemma {:induction false} EscapeRegexReads(s: string)
    ensures Unescape(EscapeRegex(s)) == s && IsEscaped(EscapeRegex(s))
  {
    if s != "" {
      var rest := EscapeRegex(s[1..]);
      EscapeRegexReads(s[1..]);
      if IsSpecial(s[0]) {
        assert EscapeRegex(s)[0] == '\\' && EscapeRegex(s)[1] == s[0] && EscapeRegex(s)[2..] == rest;
      } else {
        assert EscapeRegex(s)[0] == s[0] && EscapeRegex(s)[1..] == rest;
      }
    }
  }

  // ---- The printers without a backslash ----

  lemma {:induction false} PlainReplace(s: string, c: char, with: string)
    requires '\\' in with && '\\' !in Replace(s, c, with)
    ensures Replace(s, c, with) == s && c !in s
  {
    if s != "" {
      assert Replace(s, c, with) == (if s[0] == c then with else [s[0]]) + Replace(s[1..], c, with);
      PlainReplace(s[1..], c, with);
    }
  }

  lemma {:induction false} EscapesStart(nonprintable: char -> bool, c: char)
    ensures nonprintable(c) ==> '\\' in EscapeOne(nonprintable, c)
    ensures JsonEscape(c).Some? ==> '\\' in JsonEscape(c).value
    ensures '\\' in AsciiEscape(c)
  {
    if nonprintable(c) { assert EscapeOne(nonprintable, c)[0] == '\\'; }
    if JsonEscape(c).Some? { assert JsonEscape(c).value[0] == '\\'; }
    assert AsciiEscape(c)[0] == '\\';
  }

  lemma {:induction false} PlainEscape(nonprintable: char -> bool, s: string)
    requires '\\' !in EscapeNonprintable(nonprintable, s)
    ensures EscapeNonprintable(nonprintable, s) == s
  {
    if s != "" {
      var e := EscapeOne(nonprintable, s[0]);
      assert EscapeNonprintable(nonprintable, s) == e + EscapeNonprintable(nonprintable, s[1..]);
      EscapesStart(nonprintable, s[0]);
      PlainEscape(nonprintable, s[1..]);
    }
  }

  lemma {:induction false} JsonCharPlain(p: Printer, c: char)
    requires p.style.Json? || p.style.AsciiJson?
    requires NoBackslash(PrintChar(p, (c: char) => false, c))
    ensures PrintChar(p, (c: char) => false, c) == [c] && c != '\"'
  {
    EscapesStart((c: char) => false, c);
  }

  lemma {:induction false} PlainJson(p: Printer, s: string)
    requires p.style.Json? || p.style.AsciiJson?
    requires NoBackslash(PrintBody(Encoder(p, (c: char) => false), s))
    ensures PrintBody(Encoder(p, (c: char) => false), s) == s && '\"' !in s
  {
    if s != "" {
      var e := PrintChar(p, (c: char) => false, s[0]);
      var tail := PrintBody(Encoder(p, (c: char) => false), s[1..]);
      assert PrintBody(Encoder(p, (c: char) => false), s) == e + tail;
      JsonCharPlain(p, s[0]);
      PlainJson(p, s[1..]);
    }
  }

  ghost predicate IsPlainQuoted(text: string, s: string, quote: char) {
    (quote == '\'' || quote == '\"') && text == [quote] + s + [quote] && quote !in s && NoBackslash(s)
  }

  lemma {:induction false} PlainJsonText(s: string, text: string)
    requires text == JsonText(s) || text == AsciiJsonText(s)
    requires NoBackslash(text)
    ensures IsPlainQuoted(text, s, '\"')
  {
    var p := if text == JsonText(s) then Printer(Json, '\"') else Printer(AsciiJson, '\"');
    var body := PrintBody(Encoder(p, (c: char) => false), s);
    assert text == ['\"'] + body + ['\"'];
    PlainJson(p, s);
  }

  lemma {:induction false} PlainRepr(nonprintable: char -> bool, s: string, text: string)
    requires text == PythonRepr(nonprintable, s) && NoBackslash(text)
    ensures IsPlainQuoted(text, s, ReprQuote(s))
  {
    var quote := ReprQuote(s);
    var s1 := Replace(s, '\\', "\\\\");
    var s2 := Replace(s1, quote, ['\\', quote]);
    var s3 := Replace(s2, '\n', "\\n");
    var s4 := Replace(s3, '\r', "\\r");
    var s5 := Replace(s4, '\t', "\\t");
    assert text == [quote] + EscapeNonprintable(nonprintable, s5) + [quote];
    PlainEscape(nonprintable, s5);
    PlainReplace(s4, '\t', "\\t");
    PlainReplace(s3, '\r', "\\r");
    PlainReplace(s2, '\n', "\\n");
    PlainReplace(s1, quote, ['\\', quote]);
    PlainReplace(s, '\\', "\\\\");
  }

  lemma {:induction false} PlainSafeRepr(s: string, text: string)
    requires text == CelerySafeRepr(s) && NoBackslash(text)
    ensures IsPlainQuoted(text, s, '\'')
  {
    assert text == "'" + Replace(s, '\'', "\\'") + "'";
    PlainReplace(s, '\'', "\\'");
    assert NoBackslash(s);
  }

  lemma {:induction false} DistinctSubset(items: seq<string>, x: string)
    requires x in Distinct(items)
    ensures x in items
  {
    if items != [] {
      var init, last := items[..|items| - 1], items[|items| - 1];
      if x in Distinct(init) { DistinctSubset(init, x); }
    }
  }

  /** An alternative without a backslash is the string between two quotes that it does not contain. */
  lemma {:induction false} PlainAlternative(nonprintable: char -> bool, s: string, text: string) returns (quote: char)
    requires text in Alternatives(nonprintable, s) && NoBackslash(text)
    ensures IsPlainQuoted(text, s, quote)
  {
    DistinctSubset([JsonText(s), AsciiJsonText(s), PythonRepr(nonprintable, s), CelerySafeRepr(s)], text);
    if text == JsonText(s) || text == AsciiJsonText(s) {
      PlainJsonText(s, text);
      quote := '\"';
    } else if text == PythonRepr(nonprintable, s) {
      PlainRepr(nonprintable, s, text);
      quote := ReprQuote(s);
    } else {
      PlainSafeRepr(s, text);
      quote := '\'';
    }
  }

  /** t[i..j] is a string written without escapes. */
  ghost predicate PlainString(t: string, i: nat, j: nat, s: string) {
    && j == i + |s| + 2 && j <= |t|
    && (t[i] == '\'' || t[i] == '\"') && t[j - 1] == t[i]
    && t[i + 1..j - 1] == s && t[i] !in s
  }

  lemma {:induction false} PlainUnquote(t: string, i: nat, j: nat, quote: char)
    requires i <= j < |t| && t[j] == quote
    requires forall k :: i <= k < j ==> t[k] != quote && t[k] != '\\'
    ensures Unquote(t, i, quote) == Some(Piece(t[i..j], j + 1))
    decreases j - i
  {
    if i < j {
      PlainUnquote(t, i + 1, j, quote);
      assert t[i..j] == [t[i]] + t[i + 1..j];
    } else {
      assert t[i..j] == "";
    }
  }

  lemma {:induction false} PlainStringParses(t: string, i: nat, j: nat, s: string)
    requires NoBackslash(t) && PlainString(t, i, j, s)
    ensures QuotedAt(t, i) == Parsed(Str(s), j)
  {
    forall k | i + 1 <= k < j - 1 ensures t[k] != t[i] && t[k] != '\\' {
      assert t[k] == t[i + 1..j - 1][k - i - 1] && t[k] in s;
      assert t[k] in t;
    }
    PlainUnquote(t, i + 1, j - 1, t[i]);
  }

  lemma {:induction false} QuotedSlice(t: string, i: nat, j: nat, s: string, quote: char)
    requires i <= j <= |t| && t[i..j] == [quote] + s + [quote]
    ensures j == i + |s| + 2 && t[i] == quote && t[j - 1] == quote && t[i + 1..j - 1] == s
  {
    var text := t[i..j];
    assert text[0] == t[i] && text[|s| + 1] == t[j - 1];
    forall k | 0 <= k < |s| ensures t[i + 1..j - 1][k] == s[k] {
      assert text[k + 1] == t[i + 1 + k];
    }
  }

  lemma {:induction false} StringMatch(nonprintable: char -> bool, s: string, t: string, i: nat, j: nat)
    requires NoBackslash(t) && MatchesAt(StringPattern(nonprintable, s), t, i, j)
    ensures PlainString(t, i, j, s)
  {
    assert NoBackslash(t[i..j]) by { assert forall c <- t[i..j] :: c in t; }
    var quote := PlainAlternative(nonprintable, s, t[i..j]);
    QuotedSlice(t, i, j, s, quote);
  }

  // ---- Where a value starts and ends ----

  predicate IsMark(c: char) {
    c == ',' || c == ':' || c == ']' || c == '}'
  }

  /** What may stand behind a value: the patterns and the parser agree on nothing else. */
  predicate MayFollow(t: string, j: nat) {
    j < |t| ==> IsRegexSpace(t[j]) || IsMark(t[j])
  }

  /** Values a query can hold: the parser only builds these. */
  ghost predicate WellFormed(v: SearchValue)
    decreases v, 1
  {
    match v
    case Num(spelling) => spelling != "" && NumberEnd(spelling, 0) == |spelling|
    case Collection(isObject, members) => forall m <- members :: WellFormedMember(m, isObject)
    case _ => true
  }

  ghost predicate WellFormedMember(m: Member, isObject: bool)
    decreases m, 2
  {
    m.Entry? == isObject && WellFormed(m.value) && (m.Entry? ==> WellFormed(m.key))
  }

  // ---- Numbers and words ----

  /** t holds n at i, and what follows cannot extend a number or a word. */
  ghost predicate Holds(t: string, i: nat, n: string) {
    && i + |n| <= |t|
    && (forall k :: 0 <= k < |n| ==> t[i + k] == n[k])
    && MayFollow(t, i + |n|)
  }

  lemma {:induction false} HoldsSlice(t: string, i: nat, j: nat)
    requires i <= j <= |t| && MayFollow(t, j)
    ensures Holds(t, i, t[i..j])
  {
  }

  lemma {:induction false} AtMatch(n: string, k: nat, t: string, i: nat, c: char)
    requires k <= |n| && Holds(t, i, n)
    requires !IsRegexSpace(c) && !IsMark(c)
    ensures At(t, i + k, c) == At(n, k, c)
  {
    if k == |n| && i + k < |t| { assert t[i + k] != c; }
  }

  lemma {:induction false} DigitsMatch(n: string, k: nat, t: string, i: nat)
    requires k <= |n| && Holds(t, i, n)
    ensures DigitsEnd(t, i + k) == i + DigitsEnd(n, k)
    decreases |n| - k
  {
    if k < |n| {
      assert t[i + k] == n[k];
      DigitsMatch(n, k + 1, t, i);
    }
  }

  lemma {:induction false} FractionMatch(n: string, k: nat, t: string, i: nat)
    requires k <= |n| && Holds(t, i, n)
    ensures FractionEnd(t, i + k) == i + FractionEnd(n, k)
  {
    AtMatch(n, k, t, i, '.');
    if At(n, k, '.') { DigitsMatch(n, k + 1, t, i); }
  }

  lemma {:induction false} ExponentMatch(n: string, k: nat, t: string, i: nat)
    requires k <= |n| && Holds(t, i, n)
    ensures ExponentEnd(t, i + k) == i + ExponentEnd(n, k)
  {
    AtMatch(n, k, t, i, 'e');
    AtMatch(n, k, t, i, 'E');
    if At(n, k, 'e') || At(n, k, 'E') {
      AtMatch(n, k + 1, t, i, '+');
      AtMatch(n, k + 1, t, i, '-');
      if At(n, k + 1, '+') || At(n, k + 1, '-') {
        DigitsMatch(n, k + 2, t, i);
      } else {
        DigitsMatch(n, k + 1, t, i);
      }
    }
  }

  lemma {:induction false} TailMatch(n: string, k: nat, t: string, i: nat)
    requires k <= |n| && Holds(t, i, n)
    ensures TailEnd(t, i + k) == i + TailEnd(n, k)
  {
    FractionMatch(n, k, t, i);
    ExponentMatch(n, FractionEnd(n, k), t, i);
  }

  function SignEnd(t: string, i: nat): nat {
    if At(t, i, '-') then i + 1 else i
  }

  lemma {:induction false} NumberParts(t: string, i: nat)
    requires i <= |t|
    ensures SignEnd(t, i) <= |t|
    ensures NumberEnd(t, i) ==
      if DigitsEnd(t, SignEnd(t, i)) == SignEnd(t, i) then i else TailEnd(t, DigitsEnd(t, SignEnd(t, i)))
  {
  }

  lemma {:induction false} SignMatch(n: string, t: string, i: nat)
    requires Holds(t, i, n)
    ensures SignEnd(t, i) == i + SignEnd(n, 0)
  {
    AtMatch(n, 0, t, i, '-');
  }

  lemma {:induction false} UnsignedMatch(n: string, k: nat, t: string, i: nat)
    requires k <= |n| && Holds(t, i, n)
    ensures DigitsEnd(t, i + k) == i + DigitsEnd(n, k)
    ensures TailEnd(t, DigitsEnd(t, i + k)) == i + TailEnd(n, DigitsEnd(n, k))
  {
    DigitsMatch(n, k, t, i);
    TailMatch(n, DigitsEnd(n, k), t, i);
  }

  lemma {:induction false} NumberMatch(n: string, t: string, i: nat)
    requires Holds(t, i, n)
    ensures NumberEnd(t, i) == i + NumberEnd(n, 0)
  {
    NumberParts(t, i);
    NumberParts(n, 0);
    SignMatch(n, t, i);
    UnsignedMatch(n, SignEnd(n, 0), t, i);
  }

  lemma {:induction false} WordRun(t: string, i: nat, k: nat, j: nat)
    requires i <= k <= j <= |t| && MayFollow(t, j)
    requires forall x :: i <= x < j ==> IsLetter(t[x])
    ensures WordEnd(t, k) == j
    decreases j - k
  {
    if k < j { WordRun(t, i, k + 1, j); }
  }

  lemma {:induction false} NumberStart(t: string, i: nat)
    requires i < |t| && NumberEnd(t, i) > i
    ensures t[i] == '-' || IsDigit(t[i])
  {
  }

  lemma {:induction false} NumberParses(n: string, t: string, i: nat, j: nat)
    requires n != "" && NumberEnd(n, 0) == |n|
    requires i <= j <= |t| && t[i..j] == n && MayFollow(t, j)
    ensures ScalarAt(t, i) == Parsed(Num(n), j)
    ensures t[i] == '-' || IsDigit(t[i])
  {
    HoldsSlice(t, i, j);
    NumberMatch(n, t, i);
    NumberStart(t, i);
  }

  lemma {:induction false} WordParses(t: string, i: nat, j: nat, value: SearchValue)
    requires i < j <= |t| && MayFollow(t, j)
    requires forall k :: i <= k < j ==> IsLetter(t[k])
    requires WordValue(t[i..j]) == Some(value)
    ensures ScalarAt(t, i) == Parsed(value, j)
  {
    WordRun(t, i, i, j);
    if NumberEnd(t, i) > i { NumberStart(t, i); }
  }

  lemma {:induction false} IgnoreCaseLetters(word: string, t: string, i: nat, j: nat)
    requires MatchesAt(IgnoreCase(word), t, i, j)
    requires forall c <- word :: 'a' <= c <= 'z'
    ensures j == i + |word|
    ensures forall k :: i <= k < j ==> IsLetter(t[k])
  {
    forall k | i <= k < j ensures IsLetter(t[k]) {
      assert Lower(t[i..j])[k - i] == LowerChar(t[k]);
      assert word[k - i] in word;
    }
  }

  lemma {:induction false} NullMatch(t: string, i: nat, j: nat)
    requires MatchesAt(OneOf(["None", "null"]), t, i, j)
    ensures j == i + 4 && WordValue(t[i..j]) == Some(Null)
    ensures forall k :: i <= k < j ==> IsLetter(t[k])
  {
    var text := t[i..j];
    assert text == "None" || text == "null";
    assert Lower("None") == "none" && Lower("null") == "null";
    assert forall k :: i <= k < j ==> t[k] == text[k - i];
  }

  lemma {:induction false} StringMatchParses(nonprintable: char -> bool, text: string, t: string, i: nat, j: nat)
    requires NoBackslash(t) && MatchesAt(StringPattern(nonprintable, text), t, i, j)
    ensures i < j && (t[i] == '\'' || t[i] == '\"') && ScalarAt(t, i) == Parsed(Str(text), j)
  {
    StringMatch(nonprintable, text, t, i, j);
    PlainStringParses(t, i, j, text);
  }

  lemma {:induction false} BoolMatchParses(truth: bool, t: string, i: nat, j: nat)
    requires MatchesAt(IgnoreCase(if truth then "true" else "false"), t, i, j) && MayFollow(t, j)
    ensures i < j && IsLetter(t[i]) && ScalarAt(t, i) == Parsed(Bool(truth), j)
  {
    IgnoreCaseLetters(if truth then "true" else "false", t, i, j);
    WordParses(t, i, j, Bool(truth));
  }

  lemma {:induction false} NullMatchParses(t: string, i: nat, j: nat)
    requires MatchesAt(OneOf(["None", "null"]), t, i, j) && MayFollow(t, j)
    ensures i < j && IsLetter(t[i]) && ScalarAt(t, i) == Parsed(Null, j)
  {
    NullMatch(t, i, j);
    WordParses(t, i, j, Null);
  }

  /** A scalar's match is what ScalarAt reads there, to the same end. */
  lemma {:induction false} ScalarMatch(nonprintable: char -> bool, v: SearchValue, t: string, i: nat, j: nat)
    requires NoBackslash(t) && WellFormed(v) && !v.Collection?
    requires MatchesAt(PatternOf(nonprintable, v), t, i, j) && MayFollow(t, j)
    ensures i < j && ScalarAt(t, i) == Parsed(v, j)
    ensures StartsScalar(t[i])
  {
    match v
    case Str(text) => StringMatchParses(nonprintable, text, t, i, j);
    case Num(spelling) => NumberParses(spelling, t, i, j);
    case Bool(truth) => BoolMatchParses(truth, t, i, j);
    case Null => NullMatchParses(t, i, j);
  }

  // ---- Whole values ----

  lemma {:induction false} MayFollowSpacedChar(t: string, i: nat, at: nat, c: char)
    requires SpacesBetween(t, i, at) && At(t, at, c) && IsMark(c)
    ensures MayFollow(t, i)
  {
    if i < at { assert IsRegexSpace(t[i]); }
  }

  /** Where a collection's pattern puts its parts. */
  lemma {:induction false} CollectionSplit(
    isObject: bool, items: seq<Regex>, t: string, i: nat, j: nat) returns (a: nat, b: nat)
    requires MatchesAt(CollectionPattern(isObject, items), t, i, j)
    ensures i + 1 <= a <= b < j <= |t| && t[i..i + 1] == OpenText(isObject)
    ensures SpacesBetween(t, i + 1, a) && MatchesAt(Join(items), t, a, b)
    ensures SpacesBetween(t, b, j - 1) && At(t, j - 1, Close(isObject))
  {
    var tail := Then(Spaces, Exactly([Close(isObject)]));
    var m := ThenSplit(Exactly(OpenText(isObject)), Then(Spaces, Then(Join(items), tail)), t, i, j);
    a := ThenSplit(Spaces, Then(Join(items), tail), t, m, j);
    b := ThenSplit(Join(items), tail, t, a, j);
    var c := ThenSplit(Spaces, Exactly([Close(isObject)]), t, b, j);
    ExactlyChar(Close(isObject), t, c, j);
  }

  lemma {:induction false} EntrySplit(
    key: Regex, value: Regex, t: string, i: nat, j: nat) returns (k: nat, colon: nat, v: nat)
    requires MatchesAt(EntryPattern(key, value), t, i, j)
    ensures i <= k <= colon < v <= j
    ensures MatchesAt(key, t, i, k) && SpacesBetween(t, k, colon) && At(t, colon, ':')
    ensures SpacesBetween(t, colon + 1, v) && MatchesAt(value, t, v, j)
  {
    k := ThenSplit(key, Then(COLON, value), t, i, j);
    v := ThenSplit(COLON, value, t, k, j);
    colon := SpacedChar(':', t, k, v);
  }

  lemma {:induction false} JoinSplit(
    items: seq<Regex>, t: string, i: nat, j: nat) returns (k: nat, comma: nat, next: nat)
    requires |items| > 1 && MatchesAt(Join(items), t, i, j)
    ensures i <= k <= comma < next <= j
    ensures MatchesAt(items[0], t, i, k) && SpacesBetween(t, k, comma) && At(t, comma, ',')
    ensures SpacesBetween(t, comma + 1, next) && MatchesAt(Join(items[1..]), t, next, j)
  {
    k := ThenSplit(items[0], Then(COMMA, Join(items[1..])), t, i, j);
    next := ThenSplit(COMMA, Join(items[1..]), t, k, j);
    comma := SpacedChar(',', t, k, next);
  }
}
