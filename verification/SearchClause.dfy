/** build_task_search and the regex clause it puts into the database query. */
module SearchClause {
  import opened Options
  import opened SearchText
  import opened SearchValue
  import opened SearchScalars
  import opened SearchParser
  import opened SearchShape
  import opened SearchPattern
  import opened SearchMatch
  import opened SearchTokens
  import opened SearchFind
  import opened SearchReading

  const MAX_KWARGS_PATTERN_LENGTH := 65_536
  const QUOTED := "(?:'(?:[^'\\\\]|\\\\.|\\\\)*'|\"(?:[^\"\\\\]|\\\\.)*\")"
  const TOKEN := "(?:[^'\"\\\\]|" + QUOTED + ")"

  // ---- The query ----

  function TrimEnd(s: string): string {
    if s != "" && IsSpace(s[|s| - 1]) then TrimEnd(s[..|s| - 1]) else s
  }

  function Trim(query: string): string {
    TrimEnd(query[SkipSpace(query, 0)..])
  }

  function KeyEnd(t: string, i: nat): (r: nat)
    requires i <= |t|
    ensures i <= r <= |t|
    decreases |t| - i
  {
    if i < |t| && !IsSpace(t[i]) && t[i] != '=' then KeyEnd(t, i + 1) else i
  }

  datatype Keyword = Keyword(key: string, raw: string)

  /** KEYWORD_PATTERN on a trimmed text. */
  function SplitKeyword(t: string): Option<Keyword> {
    var k := KeyEnd(t, 0);
    var e := SkipSpace(t, k);
    if k > 0 && At(t, e, '=') && SkipSpace(t, e + 1) < |t| then Some(Keyword(t[..k], t[SkipSpace(t, e + 1)..]))
    else None
  }

  /** The literal that is the whole text, or the text itself; None when it nests too deeply. */
  function QueryValue(raw: string): Option<SearchValue> {
    match LiteralAt(raw, 0, 0)
    case TooDeep => None
    case NoLiteral => Some(Str(raw))
    case Parsed(value, end) => Some(if SkipSpace(raw, end) == |raw| then value else Str(raw))
  }

  function KeyValuePattern(nonprintable: char -> bool, key: string, value: SearchValue): Regex {
    Then(Spaces, Then(EntryPattern(StringPattern(nonprintable, key), PatternOf(nonprintable, value)), Spaces))
  }

  /** The lower-cased text every field is searched for and, for key=value, the pattern of that pair. */
  datatype TaskSearch = TaskSearch(query: string, keyValue: Option<Regex>)

  function StrictText(keyValue: Regex): string {
    "^" + TOKEN + "*?(?:^|[,{])" + Render(keyValue) + "(?:[,}]" + TOKEN + "*)?$"
  }

  function BuildTaskSearch(nonprintable: char -> bool, lower: string -> string, query: string): TaskSearch {
    var plain := TaskSearch(lower(Trim(query)), None);
    match SplitKeyword(Trim(query))
    case None => plain
    case Some(keyword) =>
      match QueryValue(keyword.raw)
      case None => plain
      case Some(value) =>
        var keyValue := KeyValuePattern(nonprintable, keyword.key, value);
        if |StrictText(keyValue)| > MAX_KWARGS_PATTERN_LENGTH then plain else plain.(keyValue := Some(keyValue))
  }

  // ---- The clause ----

  /** `(?:^|[,{])` matches t[x..a]. */
  ghost predicate Delimits(t: string, x: nat, a: nat) {
    (x == 0 && a == 0) || (x < |t| && IsDelimiter(t[x]) && a == x + 1)
  }

  /** $kwargsPattern: tokens, the key and value, then nothing or `,` or `}` and tokens again. */
  ghost predicate StrictAt(keyValue: Regex, t: string, x: nat, a: nat, b: nat) {
    && TokensMatch(t, 0, x) && Delimits(t, x, a) && MatchesAt(keyValue, t, a, b)
    && (b == |t| || ((t[b] == ',' || t[b] == '}') && TokensMatch(t, b + 1, |t|)))
  }

  ghost predicate Strict(keyValue: Regex, t: string) {
    exists x: nat, a: nat, b: nat :: StrictAt(keyValue, t, x, a, b)
  }

  ghost predicate LenientAt(keyValue: Regex, t: string, x: nat, a: nat, b: nat) {
    Delimits(t, x, a) && MatchesAt(keyValue, t, a, b) && (b == |t| || t[b] == ',' || t[b] == '}')
  }

  /** $lenientKwargsPattern */
  ghost predicate Lenient(keyValue: Regex, t: string) {
    exists x: nat, a: nat, b: nat :: LenientAt(keyValue, t, x, a, b)
  }

  /** $tokenizesPattern */
  ghost predicate Tokenizes(t: string) {
    TokensMatch(t, 0, |t|)
  }

  /** A bytes literal from i to j, or one `<`. */
  ghost predicate MarkerMatches(t: string, i: nat, j: nat) {
    (At(t, i, 'b') && QuotedMatches(t, i + 1, j)) || (At(t, i, '<') && j == i + 1)
  }

  predicate IsValueDelimiter(c: char) {
    c == ':' || c == ',' || c == '[' || c == '(' || c == '{'
  }

  ghost predicate MalformedAt(t: string, x: nat, p: nat, e: nat) {
    && TokensMatch(t, 0, x) && x < |t| && IsValueDelimiter(t[x])
    && SpacesBetween(t, x + 1, p) && MarkerMatches(t, p, e) && TokensMatch(t, e, |t|)
  }

  /** $malformedReprPattern */
  ghost predicate Malformed(t: string) {
    exists x: nat, p: nat, e: nat :: MalformedAt(t, x, p, e)
  }

  ghost predicate KwargsClause(keyValue: Regex, t: string) {
    Lenient(keyValue, t) && (Strict(keyValue, t) || !Tokenizes(t) || Malformed(t))
  }

  /** Every strict match is a lenient match, so asking the lenient pattern first loses none. */
  lemma {:induction false} StrictIsLenient(keyValue: Regex, t: string)
    requires Strict(keyValue, t)
    ensures Lenient(keyValue, t)
  {
    var x: nat, a: nat, b: nat :| StrictAt(keyValue, t, x, a, b);
    assert LenientAt(keyValue, t, x, a, b);
  }

  // ---- Texts the parser reads whole ----

  /** A text without a backslash that is one object. */
  ghost predicate IsObjectText(t: string, v: SearchValue, end: nat) {
    && NoBackslash(t) && LiteralAt(t, 0, 0) == Parsed(v, end) && SkipSpace(t, end) == |t|
    && v.Collection? && v.isObject
  }

  lemma {:induction false} SkippedPath(t: string, i: nat)
    requires i <= |t|
    ensures Path(t, Inner, i, SkipSpace(t, i))
    decreases |t| - i
  {
    if i < |t| && IsSpace(t[i]) { SkippedPath(t, i + 1); }
  }

  lemma {:induction false} ObjectTextPath(t: string, v: SearchValue, end: nat)
    requires IsObjectText(t, v, end)
    ensures Path(t, Clean, 0, |t|)
  {
    TextReaderFollows(t);
    TextReaderTokenized(t);
    ParsedReads(TextReader(t), t, 0, 0);
    ReadPath(v, TextReader(t), t, 0);
    SkippedPath(t, end);
    InnerPath(t, end, |t|);
    PathJoin(t, Clean, 0, end, |t|);
  }

  lemma {:induction false} ObjectTextTokenizes(t: string, v: SearchValue, end: nat)
    requires IsObjectText(t, v, end)
    ensures Tokenizes(t)
  {
    ObjectTextPath(t, v, end);
    PathTokens(t, Clean, 0, |t|);
  }

  lemma {:induction false} MarkerReached(t: string, x: nat, p: nat, e: nat)
    requires NoBackslash(t) && MalformedAt(t, x, p, e)
    ensures Path(t, Any, 0, p) && p < |t| && !Clean(t[p])
  {
    TokensPath(t, 0, x);
    assert TokenEnd(t, x) == Some(x + 1);
    assert Path(t, Any, x, x + 1);
    PathJoin(t, Any, 0, x, x + 1);
    SpacesPath(t, x + 1, p);
    PathWeaken(t, Inner, Any, x + 1, p);
    PathJoin(t, Any, 0, x + 1, p);
  }

  lemma {:induction false} ObjectTextNotMalformed(t: string, v: SearchValue, end: nat)
    requires IsObjectText(t, v, end)
    ensures !Malformed(t)
  {
    if Malformed(t) {
      var x: nat, p: nat, e: nat :| MalformedAt(t, x, p, e);
      MarkerReached(t, x, p, e);
      ObjectTextPath(t, v, end);
      PathRest(t, Clean, 0, |t|, p);
    }
  }

  // ---- A strict match names an entry ----

  /** The parts of a match of a key=value pattern. */
  lemma {:induction false} KeyValueSplit(
    nonprintable: char -> bool, key: string, value: SearchValue, t: string, a: nat, b: nat)
    returns (p: nat, j: nat)
    requires MatchesAt(KeyValuePattern(nonprintable, key, value), t, a, b)
    requires b < |t| ==> t[b] == ',' || t[b] == '}'
    ensures SpacesBetween(t, a, p) && p <= j <= |t|
    ensures MatchesAt(MemberPattern(nonprintable, Entry(Str(key), value)), t, p, j) && MayFollow(t, j)
  {
    var entry := EntryPattern(StringPattern(nonprintable, key), PatternOf(nonprintable, value));
    p := ThenSplit(Spaces, Then(entry, Spaces), t, a, b);
    j := ThenSplit(entry, Spaces, t, p, b);
    if j < b { assert IsRegexSpace(t[j]); }
    assert MemberPattern(nonprintable, Entry(Str(key), value)) == entry;
  }

  lemma {:induction false} MemberShift(m: Member, r: Reader, t: string, a: nat, p: nat)
    requires Scans(r, t) && a <= p <= |t| && r.skip(a) == p && r.skip(p) == p
    ensures MemberReadAs(m, true, r, t, a) == MemberReadAs(m, true, r, t, p)
  {
  }

  lemma {:induction false} KeyValueReads(c: Matching, key: string, value: SearchValue, a: nat, b: nat)
    requires WellFormed(value) && MatchesAt(KeyValuePattern(c.nonprintable, key, value), c.t, a, b)
    requires b < |c.t| ==> c.t[b] == ',' || c.t[b] == '}'
    ensures MemberReadAs(Entry(Str(key), value), true, c.r, c.t, a).Some?
  {
    var m := Entry(Str(key), value);
    var p, j := KeyValueSplit(c.nonprintable, key, value, c.t, a, b);
    MemberMatchStart(c, m, true, p, j);
    MemberMatchReads(c, m, true, p, j);
    MemberShift(m, c.r, c.t, a, p);
  }

  lemma {:induction false} StrictFinds(
    nonprintable: char -> bool, key: string, value: SearchValue, t: string, v: SearchValue, end: nat)
    requires IsObjectText(t, v, end) && WellFormed(value)
    requires Strict(KeyValuePattern(nonprintable, key, value), t)
    ensures HasEntry(v, Entry(Str(key), value))
  {
    var x: nat, a: nat, b: nat :| StrictAt(KeyValuePattern(nonprintable, key, value), t, x, a, b);
    MatcherValid(nonprintable, t);
    KeyValueReads(Matcher(nonprintable, t), key, value, a, b);
    DelimitedFinds(Entry(Str(key), value), t, v, end, x, a);
  }

  /** An entry cannot stand where an object starts. */
  lemma {:induction false} ObjectOrEntry(m: Member, r: Reader, t: string, v: SearchValue)
    requires Scans(r, t) && ReadAs(v, r, t, 0).Some? && v.Collection? && v.isObject
    requires m.Entry? && m.key.Str?
    ensures MemberReadAs(m, true, r, t, 0).None?
  {
    assert !StartsScalar('{');
  }

  lemma {:induction false} DelimiterInside(t: string, x: nat, end: nat)
    requires x < |t| && IsDelimiter(t[x]) && end <= |t| && SkipSpace(t, end) == |t|
    ensures x < end
  {
    SkipSpaceRange(t, end);
  }

  lemma {:induction false} DelimitedFinds(m: Member, t: string, v: SearchValue, end: nat, x: nat, a: nat)
    requires IsObjectText(t, v, end) && Scans(TextReader(t), t) && m.Entry? && m.key.Str?
    requires TokensMatch(t, 0, x) && Delimits(t, x, a)
    requires a <= |t| && MemberReadAs(m, true, TextReader(t), t, a).Some?
    ensures HasEntry(v, m)
  {
    TextReaderFollows(t);
    TextReaderTokenized(t);
    ParsedReads(TextReader(t), t, 0, 0);
    ObjectOrEntry(m, TextReader(t), t, v);
    TokensPath(t, 0, x);
    DelimiterInside(t, x, end);
    FindInValue(v, TextReader(t), t, 0, x, m);
  }
}
