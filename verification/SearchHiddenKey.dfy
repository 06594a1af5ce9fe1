/** A match that the index loses: an entry inside a key, which `visit` does not reach. */
module SearchHiddenKey {
  import opened Options
  import opened SearchText
  import opened SearchValue
  import opened SearchScalars
  import opened SearchParser
  import opened SearchPattern
  import opened SearchTokens
  import opened SearchClause
  import opened SearchTerms

  const INNER := Collection(true, [Entry(Str("a"), Num("1"))])
  const OUTER := Collection(true, [Entry(Collection(false, [Item(INNER)]), Num("2"))])

  lemma {:induction false} Stays(t: string, i: nat)
    requires i < |t| && !IsSpace(t[i])
    ensures SkipSpace(t, i) == i
  {
  }

  lemma {:induction false} OneChar(t: string, i: nat)
    requires i < |t|
    ensures t[i..i + 1] == [t[i]]
  {
  }

  lemma {:induction false} DigitReads(t: string, i: nat, depth: nat)
    requires i + 1 < |t| && IsDigit(t[i]) && (t[i + 1] == '}' || t[i + 1] == ']')
    ensures LiteralAt(t, i, depth) == Parsed(Num([t[i]]), i + 1)
  {
    Stays(t, i);
    assert DigitsEnd(t, i + 1) == i + 1;
    assert TailEnd(t, i + 1) == i + 1;
    assert NumberEnd(t, i) == i + 1;
    OneChar(t, i);
  }

  lemma {:induction false} OneCharStringReads(t: string, i: nat, depth: nat)
    requires i + 2 < |t| && t[i] == '\'' && t[i + 2] == '\'' && t[i + 1] != '\'' && t[i + 1] != '\\'
    ensures LiteralAt(t, i, depth) == Parsed(Str([t[i + 1]]), i + 3)
  {
    Stays(t, i);
    PlainUnquote(t, i + 1, i + 2, '\'');
    OneChar(t, i + 1);
  }

  lemma {:induction false} SingleMemberReads(t: string, i: nat, depth: nat, isObject: bool, m: Member, end: nat)
    requires i < end < |t| && t[i] != Close(isObject) && t[end] == Close(isObject)
    requires MemberAt(t, i, depth, isObject) == ParsedMember(m, end)
    ensures MembersAt(t, i, depth, isObject) == ParsedMembers([m], end + 1)
  {
    Stays(t, end);
    assert MembersAt(t, end, depth, isObject) == ParsedMembers([], end + 1);
    assert TurnAt(t, i, depth, isObject) == ParsedMember(m, end);
    assert [m] + [] == [m];
  }

  lemma {:induction false} EntryReads(
    t: string, i: nat, depth: nat, key: SearchValue, colon: nat, value: SearchValue, end: nat)
    requires i < colon < |t| && t[colon] == ':' && LiteralAt(t, i, depth) == Parsed(key, colon)
    requires LiteralAt(t, colon + 1, depth) == Parsed(value, end)
    ensures MemberAt(t, i, depth, true) == ParsedMember(Entry(key, value), end)
  {
    Stays(t, colon);
  }

  /** One entry and the closing brace. */
  lemma {:induction false} SingleEntryReads(
    t: string, i: nat, depth: nat, key: SearchValue, colon: nat, value: SearchValue, end: nat)
    requires i < |t| && t[i] == '{' && depth <= MAX_NESTING_DEPTH && i + 1 < colon < end < |t|
    requires !IsSpace(t[i + 1]) && t[i + 1] != '}'
    requires LiteralAt(t, i + 1, depth) == Parsed(key, colon) && t[colon] == ':'
    requires LiteralAt(t, colon + 1, depth) == Parsed(value, end) && t[end] == '}'
    ensures CollectionAt(t, i, depth) == Parsed(Collection(true, [Entry(key, value)]), end + 1)
  {
    Stays(t, i + 1);
    EntryReads(t, i + 1, depth, key, colon, value, end);
    SingleMemberReads(t, i + 1, depth, true, Entry(key, value), end);
  }

  lemma {:induction false} SingleItemReads(t: string, i: nat, depth: nat, value: SearchValue, end: nat)
    requires i < |t| && t[i] == '[' && depth <= MAX_NESTING_DEPTH && i + 1 < end < |t|
    requires !IsSpace(t[i + 1]) && t[i + 1] != ']'
    requires LiteralAt(t, i + 1, depth) == Parsed(value, end) && t[end] == ']'
    ensures CollectionAt(t, i, depth) == Parsed(Collection(false, [Item(value)]), end + 1)
  {
    Stays(t, i + 1);
    SingleMemberReads(t, i + 1, depth, false, Item(value), end);
  }

  /** t is `{[{'a':1}]:2}`. */
  ghost predicate IsHidden(t: string) {
    && |t| == 13 && t[0] == '{' && t[1] == '[' && t[2] == '{' && t[3] == '\'' && t[4] == 'a' && t[5] == '\''
    && t[6] == ':' && t[7] == '1' && t[8] == '}' && t[9] == ']' && t[10] == ':' && t[11] == '2' && t[12] == '}'
  }

  lemma {:induction false} InnerReads(t: string)
    requires IsHidden(t)
    ensures LiteralAt(t, 2, 2) == Parsed(INNER, 9)
  {
    OneCharStringReads(t, 3, 3);
    DigitReads(t, 7, 3);
    SingleEntryReads(t, 2, 3, Str("a"), 6, Num("1"), 8);
    Stays(t, 2);
  }

  lemma {:induction false} HiddenReads(t: string)
    requires IsHidden(t)
    ensures LiteralAt(t, 0, 0) == Parsed(OUTER, 13)
  {
    InnerReads(t);
    SingleItemReads(t, 1, 2, INNER, 9);
    Stays(t, 1);
    DigitReads(t, 11, 1);
    SingleEntryReads(t, 0, 1, Collection(false, [Item(INNER)]), 10, Num("2"), 12);
    Stays(t, 0);
  }

  lemma {:induction false} HiddenPairs()
    ensures Pairs(OUTER) == {}
  {
    assert MembersPairs(OUTER.members) == MemberPairs(OUTER.members[0]) + MembersPairs([]);
  }

  lemma {:induction false} HiddenTerms(t: string, source: Option<string>)
    requires IsHidden(t) && IsIndexedSource(source)
    ensures KwargsTerms(Some(t), source) == KwargsSearchTerms({}, false)
  {
    HiddenReads(t);
    HiddenPairs();
    assert NoBackslash(t);
    assert Terms(OUTER) == {};
    assert SkipSpace(t, 13) == 13;
  }

  // ---- The query a=1 matches it ----

  lemma {:induction false} QuerySplits()
    ensures SplitKeyword(Trim("a=1")) == Some(Keyword("a", "1"))
  {
    var t := "a=1";
    assert SkipSpace(t, 0) == 0 && t[0..] == t && TrimEnd(t) == t;
    assert KeyEnd(t, 1) == 1;
    assert KeyEnd(t, 0) == 1;
    assert SkipSpace(t, 1) == 1 && SkipSpace(t, 2) == 2;
    assert t[..1] == "a" && t[2..] == "1";
  }

  lemma {:induction false} QueryReads()
    ensures QueryValue("1") == Some(Num("1"))
  {
    var t := "1";
    assert SkipSpace(t, 0) == 0 && SkipSpace(t, 1) == 1;
    assert DigitsEnd(t, 1) == 1 && TailEnd(t, 1) == 1;
    assert NumberEnd(t, 0) == 1;
    assert t[0..1] == "1";
  }

  lemma {:induction false} PrintsOfA(nonprintable: char -> bool)
    requires PrintsAscii(nonprintable)
    ensures JsonText("a") == "\"a\"" && AsciiJsonText("a") == "\"a\"" && CelerySafeRepr("a") == "'a'"
    ensures PythonRepr(nonprintable, "a") == "'a'"
  {
    assert "a"[1..] == "";
    assert !nonprintable('a');
  }

  lemma {:induction false} AlternativesOfA(nonprintable: char -> bool)
    requires PrintsAscii(nonprintable)
    ensures Alternatives(nonprintable, "a") == ["\"a\"", "'a'"]
  {
    PrintsOfA(nonprintable);
    var one := ["\"a\""];
    var two := ["\"a\"", "\"a\""];
    var three := ["\"a\"", "\"a\"", "'a'"];
    assert Distinct(one) == one by { assert one[..0] == []; }
    assert Distinct(two) == one by { assert two[..1] == one; }
    assert Distinct(three) == ["\"a\"", "'a'"] by { assert three[..2] == two; }
    var four := ["\"a\"", "\"a\"", "'a'", "'a'"];
    assert four[..3] == three;
  }

  lemma {:induction false} AlternativesLength()
    ensures |JoinEscaped(["\"a\"", "'a'"])| == 7
  {
    assert |EscapeRegex("\"a\"")| == 3 && |EscapeRegex("'a'")| == 3;
    assert ["\"a\"", "'a'"][1..] == ["'a'"];
  }

  lemma {:induction false} PatternIsShort(nonprintable: char -> bool)
    requires PrintsAscii(nonprintable)
    ensures |StrictText(KeyValuePattern(nonprintable, "a", Num("1")))| <= MAX_KWARGS_PATTERN_LENGTH
  {
    AlternativesOfA(nonprintable);
    AlternativesLength();
    assert |EscapeRegex("1")| == 1;
    assert |Render(COLON)| <= 20;
    assert |Render(KeyValuePattern(nonprintable, "a", Num("1")))| <= 100;
    assert |TOKEN| <= 100;
  }

  lemma {:induction false} QueryBuilds(nonprintable: char -> bool, lower: string -> string)
    requires PrintsAscii(nonprintable)
    ensures BuildTaskSearch(nonprintable, lower, "a=1").keyValue == Some(KeyValuePattern(nonprintable, "a", Num("1")))
  {
    QuerySplits();
    QueryReads();
    PatternIsShort(nonprintable);
  }

  lemma {:induction false} KeyMatches(nonprintable: char -> bool, t: string)
    requires PrintsAscii(nonprintable) && IsHidden(t)
    ensures MatchesAt(KeyValuePattern(nonprintable, "a", Num("1")), t, 3, 8)
  {
    AlternativesOfA(nonprintable);
    assert t[3..6] == "'a'" && t[6..7] == ":" && t[7..8] == "1";
    assert MatchesAt(StringPattern(nonprintable, "a"), t, 3, 6);
    assert MatchesAt(Then(Exactly(":"), Spaces), t, 6, 7) by { assert MatchesAt(Spaces, t, 7, 7); }
    assert MatchesAt(COLON, t, 6, 7) by { assert MatchesAt(Spaces, t, 6, 6); }
    var value := PatternOf(nonprintable, Num("1"));
    assert MatchesAt(Then(COLON, value), t, 6, 8) by { assert MatchesAt(value, t, 7, 8); }
    var entry := EntryPattern(StringPattern(nonprintable, "a"), value);
    assert MatchesAt(entry, t, 3, 8);
    assert MatchesAt(Then(entry, Spaces), t, 3, 8) by { assert MatchesAt(Spaces, t, 8, 8); }
    assert MatchesAt(Spaces, t, 3, 3);
  }

  lemma {:induction false} HiddenMatches(nonprintable: char -> bool, t: string)
    requires PrintsAscii(nonprintable) && IsHidden(t)
    ensures KwargsClause(KeyValuePattern(nonprintable, "a", Num("1")), t)
  {
    KeyMatches(nonprintable, t);
    PlainTokens(t, 0, 2);
    PlainTokens(t, 9, 13);
    assert StrictAt(KeyValuePattern(nonprintable, "a", Num("1")), t, 2, 3, 8);
    StrictIsLenient(KeyValuePattern(nonprintable, "a", Num("1")), t);
  }

  /** The query a=1 matches `{[{'a':1}]:2}`, whose index has no term and no fallback mark. */
  lemma {:induction false} ContainerKeyLosesMatch(nonprintable: char -> bool, lower: string -> string, t: string)
    requires PrintsAscii(nonprintable) && IsHidden(t)
    ensures BuildTaskSearch(nonprintable, lower, "a=1").keyValue == Some(KeyValuePattern(nonprintable, "a", Num("1")))
    ensures KwargsClause(KeyValuePattern(nonprintable, "a", Num("1")), t)
    ensures KwargsTerms(Some(t), Some("saferepr")) == KwargsSearchTerms({}, false)
  {
    QueryBuilds(nonprintable, lower);
    HiddenMatches(nonprintable, t);
    HiddenTerms(t, Some("saferepr"));
  }
}
