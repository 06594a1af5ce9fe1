/** What a key=value query text asks for, which printed dictionaries it finds, and which texts are indexed. */
module SearchQuery {
  import opened Options
  import opened SearchText
  import opened SearchValue
  import opened SearchScalars
  import opened SearchRoundTrip
  import opened SearchParser
  import opened SearchShape
  import opened SearchPattern
  import opened SearchFind
  import opened SearchClause
  import opened SearchComplete
  import opened SearchPrinted
  import opened SearchEscapes
  import opened SearchTerms

  // ---- A search finds exactly the entries ----

  /** Without a backslash in the text, every string can be printed. */
  lemma {:induction false} PlainPrints(d: Dumper, v: SearchValue)
    requires NoBackslash(d.Text(v))
    ensures d.CanPrint(v)
    decreases v, 1
  {
    if v.Collection? {
      PlainMembersPrint(d, v.members);
    } else if v.Str? && d.layout.style.SafeRepr? {
      PlainSafeRepr(v.text, d.Text(v));
    }
  }

  lemma {:induction false} PlainMembersPrint(d: Dumper, members: seq<Member>)
    requires NoBackslash(d.MembersText(members))
    ensures forall m <- members :: d.CanPrintMember(m)
    decreases members, 0
  {
    if members != [] {
      assert NoBackslash(d.MemberText(members[0]));
      if |members| > 1 {
        PlainMembersPrint(d, members[1..]);
      }
      PlainMemberPrints(d, members[0]);
    }
  }

  lemma {:induction false} PlainMemberPrints(d: Dumper, m: Member)
    requires NoBackslash(d.MemberText(m))
    ensures d.CanPrintMember(m)
    decreases m, 2
  {
    PlainPrints(d, m.value);
    if m.Entry? { PlainPrints(d, m.key); }
  }

  lemma {:induction false} PrintedObjectValue(d: Dumper, v: SearchValue)
    requires WellFormed(v) && d.CanPrint(v) && v.Collection? && v.isObject && Depth(v) <= MAX_NESTING_DEPTH
    ensures ObjectValue(d.Text(v)) == Some(v)
  {
    PrintedTextParses(d, v);
    assert SkipSpace(d.Text(v), |d.Text(v)|) == |d.Text(v)|;
  }

  /**
    On a printed dictionary the kwargs clause matches every entry, at every depth; and without backslashes in the text
    nothing else.
   */
  lemma {:induction false} PrintedClauseIff(d: Dumper, v: SearchValue, pair: Pair)
    requires WellFormed(v) && v.Collection? && v.isObject && WellFormed(pair.value)
    ensures HasEntry(v, Entry(Str(pair.key), pair.value)) ==>
      KwargsClause(PairPattern(d.nonprintable, pair), d.Text(v))
    ensures NoBackslash(d.Text(v)) && Depth(v) <= MAX_NESTING_DEPTH ==>
      (KwargsClause(PairPattern(d.nonprintable, pair), d.Text(v)) <==> HasEntry(v, Entry(Str(pair.key), pair.value)))
  {
    if HasEntry(v, Entry(Str(pair.key), pair.value)) {
      PrintedEntryFound(d, v, pair.key, pair.value);
    }
    if NoBackslash(d.Text(v)) && Depth(v) <= MAX_NESTING_DEPTH
       && KwargsClause(PairPattern(d.nonprintable, pair), d.Text(v)) {
      PlainPrints(d, v);
      PrintedObjectValue(d, v);
      ClauseFinds(d.nonprintable, pair, d.Text(v), v);
    }
  }

  /** Its index terms are those of its entries outside keys, unless the text or the terms are too many. */
  lemma {:induction false} PrintedTerms(d: Dumper, v: SearchValue, source: Option<string>)
    requires WellFormed(v) && v.Collection? && v.isObject && Depth(v) <= MAX_NESTING_DEPTH
    requires NoBackslash(d.Text(v)) && IsIndexedSource(source)
    ensures KwargsTerms(Some(d.Text(v)), source) ==
      if |d.Text(v)| > 4096 || |Terms(v)| > 256 then KwargsSearchTerms({}, true) else KwargsSearchTerms(Terms(v), false)
  {
    PlainPrints(d, v);
    PrintedObjectValue(d, v);
    TextStart(d, v);
  }

  /** The whole text reads as an object that is not nested too deeply. */
  ghost predicate IsObjectReading(raw: string, v: SearchValue, end: nat)
    requires Scans(ParserReader(raw), raw)
  {
    && ReadAs(v, ParserReader(raw), raw, 0) == Some(end) && AreSpaces(raw[end..])
    && v.Collection? && v.isObject && Depth(v) <= 64
  }

  lemma {:induction false} SpacesToEnd(t: string, i: nat)
    requires i <= |t|
    ensures SkipSpace(t, i) == |t| <==> AreSpaces(t[i..])
    decreases |t| - i
  {
    if i < |t| {
      SpacesToEnd(t, i + 1);
      assert t[i..] == [t[i]] + t[i + 1..];
    }
  }

  lemma {:induction false} ObjectValueIff(raw: string, v: SearchValue)
    ensures Scans(ParserReader(raw), raw)
    ensures ObjectValue(raw) == Some(v) <==> exists end: nat :: IsObjectReading(raw, v, end)
  {
    ParserReaderMirrors(raw);
    if ObjectValue(raw) == Some(v) {
      var end := LiteralAt(raw, 0, 0).end;
      ParsesIff(raw, 0, 0, v, end);
      SpacesToEnd(raw, end);
      assert IsObjectReading(raw, v, end);
    }
    if end: nat :| IsObjectReading(raw, v, end) {
      ParsesIff(raw, 0, 0, v, end);
      SpacesToEnd(raw, end);
    }
  }

  /** The text is one object that can be indexed whole. */
  ghost predicate IsIndexedObject(raw: string, source: Option<string>) {
    && (source == Some("saferepr") || source == Some("repr") || source == Some("json"))
    && |raw| <= 4096 && '\\' !in raw
    && Scans(ParserReader(raw), raw)
    && exists v: SearchValue, end: nat :: IsObjectReading(raw, v, end) && |Terms(v)| <= 256
  }

  /** A text is marked for fallback exactly if it is there and cannot be indexed; a marked text has no terms. */
  lemma {:induction false} FallbackIff(raw: Option<string>, source: Option<string>)
    ensures KwargsTerms(raw, source).fallback <==> raw.Or("") != "" && !IsIndexedObject(raw.value, source)
    ensures KwargsTerms(raw, source).fallback || raw.Or("") == "" ==> KwargsTerms(raw, source).terms == {}
  {
    if raw.Or("") != "" {
      ParserReaderMirrors(raw.value);
      if ObjectValue(raw.value).Some? {
        ObjectValueIff(raw.value, ObjectValue(raw.value).value);
      }
      if IsIndexedObject(raw.value, source) {
        var v: SearchValue, end: nat :| IsObjectReading(raw.value, v, end) && |Terms(v)| <= 256;
        ObjectValueIff(raw.value, v);
      }
    }
  }

  // ---- The query ----

  /** A text with no white space at either end. */
  predicate IsTrimmed(s: string) {
    s != "" && !IsSpace(s[0]) && !IsSpace(s[|s| - 1])
  }

  predicate IsKey(key: string) {
    key != "" && forall c <- key :: !IsSpace(c) && c != '='
  }

  lemma {:induction false} TrimEndSpaces(core: string, after: string)
    requires IsTrimmed(core) && AreSpaces(after)
    ensures TrimEnd(core + after) == core
  {
    if after == "" {
      assert core + after == core;
    } else {
      var init, last := after[..|after| - 1], after[|after| - 1];
      assert core + after == (core + init) + [last] && last in after;
      TrimEndSpaces(core, init);
      assert (core + after)[..|core + after| - 1] == core + init;
    }
  }

  lemma {:induction false} TrimSpaces(before: string, core: string, after: string)
    requires AreSpaces(before) && IsTrimmed(core) && AreSpaces(after)
    ensures Trim(before + (core + after)) == core
  {
    var t := before + (core + after);
    StartsAtSplit(t, 0, before, core + after);
    SpacesMatch(t, 0, before);
    assert t[|before|] == core[0];
    SkipOver(t, 0, |before|);
    assert t[|before|..] == core + after;
    TrimEndSpaces(core, after);
  }

  lemma {:induction false} KeyEnds(t: string, i: nat, end: nat)
    requires i <= end < |t| && (forall k :: i <= k < end ==> !IsSpace(t[k]) && t[k] != '=')
    requires IsSpace(t[end]) || t[end] == '='
    ensures KeyEnd(t, i) == end
    decreases end - i
  {
    if i < end { KeyEnds(t, i + 1, end); }
  }

  function KeywordText(key: string, left: string, right: string, raw: string): string {
    key + (left + (['='] + (right + raw)))
  }

  /** Where the parts of a key=value text stand. */
  lemma {:induction false} KeywordParts(key: string, left: string, right: string, raw: string, t: string)
    requires t == KeywordText(key, left, right, raw)
    ensures var e := |key| + |left|;
      && StartsAt(t, 0, key) && StartsAt(t, |key|, left) && At(t, e, '=') && StartsAt(t, e + 1, right)
      && |t| == e + 1 + |right| + |raw| && t[..|key|] == key && t[e + 1 + |right|..] == raw
  {
    StartsAtSplit(t, 0, key, left + (['='] + (right + raw)));
    StartsAtSplit(t, |key|, left, ['='] + (right + raw));
    StartsAtSplit(t, |key| + |left|, ['='], right + raw);
    StartsAtChar(t, |key| + |left|, '=');
    StartsAtSplit(t, |key| + |left| + 1, right, raw);
  }

  lemma {:induction false} KeywordSplits(key: string, left: string, right: string, raw: string)
    requires IsKey(key) && AreSpaces(left) && AreSpaces(right) && raw != "" && !IsSpace(raw[0])
    ensures SplitKeyword(KeywordText(key, left, right, raw)) == Some(Keyword(key, raw))
  {
    var t := KeywordText(key, left, right, raw);
    var e := |key| + |left|;
    var v := e + 1 + |right|;
    KeywordParts(key, left, right, raw, t);
    KeyPlace(key, t);
    SpacesMatch(t, |key|, left);
    SpacesMatch(t, e + 1, right);
    assert t[v] == t[v..][0];
    PlacesSplit(t, |key|, e, v);
  }

  lemma {:induction false} KeyPlace(key: string, t: string)
    requires IsKey(key) && StartsAt(t, 0, key)
    ensures forall n :: 0 <= n < |key| ==> !IsSpace(t[n]) && t[n] != '='
  {
    forall n | 0 <= n < |key| ensures !IsSpace(t[n]) && t[n] != '=' {
      assert t[0 + n] == key[n] && key[n] in key;
    }
  }

  lemma {:induction false} KeyRange(t: string, i: nat)
    requires i <= |t|
    ensures forall k :: i <= k < KeyEnd(t, i) ==> !IsSpace(t[k]) && t[k] != '='
    decreases |t| - i
  {
    if i < KeyEnd(t, i) { KeyRange(t, i + 1); }
  }

  /** A key up to k, an equals sign at e and something from v on, with only white space between. */
  ghost predicate IsKeywordAt(t: string, k: nat, e: nat, v: nat) {
    && 0 < k <= e < v < |t| && (forall n :: 0 <= n < k ==> !IsSpace(t[n]) && t[n] != '=')
    && OnlySpaces(t, k, e) && t[e] == '=' && OnlySpaces(t, e + 1, v) && !IsSpace(t[v])
  }

  /** Where the source's pattern puts the parts of a keyword text. */
  lemma {:induction false} SplitPlaces(t: string) returns (k: nat, e: nat, v: nat)
    requires SplitKeyword(t).Some?
    ensures IsKeywordAt(t, k, e, v) && SplitKeyword(t) == Some(Keyword(t[..k], t[v..]))
  {
    k := KeyEnd(t, 0);
    e := SkipSpace(t, k);
    v := SkipSpace(t, e + 1);
    KeyRange(t, 0);
    SkipSpaceRange(t, k);
    SkipSpaceRange(t, e + 1);
  }

  lemma {:induction false} PlacesSplit(t: string, k: nat, e: nat, v: nat)
    requires IsKeywordAt(t, k, e, v)
    ensures SplitKeyword(t) == Some(Keyword(t[..k], t[v..]))
  {
    KeyEnds(t, 0, k);
    SkipOver(t, k, e);
    SkipOver(t, e + 1, v);
  }

  ghost predicate IsKeyword(t: string, key: string, raw: string) {
    exists k: nat, e: nat, v: nat :: IsKeywordAt(t, k, e, v) && key == t[..k] && raw == t[v..]
  }

  /** A trimmed text is taken for key=value exactly if it is a key, an equals sign and something, in any white space. */
  lemma {:induction false} SplitIff(t: string, key: string, raw: string)
    ensures SplitKeyword(t) == Some(Keyword(key, raw)) <==> IsKeyword(t, key, raw)
  {
    if SplitKeyword(t) == Some(Keyword(key, raw)) {
      var k, e, v := SplitPlaces(t);
    }
    if k: nat, e: nat, v: nat :| IsKeywordAt(t, k, e, v) && key == t[..k] && raw == t[v..] {
      PlacesSplit(t, k, e, v);
    }
  }

  /** A query with any white space around its parts. */
  datatype Spelled = Spelled(before: string, key: string, left: string, right: string, raw: string, after: string) {
    ghost predicate Valid() {
      && AreSpaces(before) && AreSpaces(left) && AreSpaces(right) && AreSpaces(after)
      && IsKey(key) && IsTrimmed(raw)
    }

    function Text(): string { before + (KeywordText(key, left, right, raw) + after) }
  }

  lemma {:induction false} KeywordTrimmed(key: string, left: string, right: string, raw: string)
    requires IsKey(key) && IsTrimmed(raw)
    ensures IsTrimmed(KeywordText(key, left, right, raw))
  {
    var t := KeywordText(key, left, right, raw);
    KeywordParts(key, left, right, raw, t);
    assert t[0] == t[..|key|][0] && key[0] in key;
    assert t[|t| - 1] == t[|key| + |left| + 1 + |right|..][|raw| - 1];
  }

  lemma {:induction false} QuerySplits(q: Spelled)
    requires q.Valid()
    ensures SplitKeyword(Trim(q.Text())) == Some(Keyword(q.key, q.raw))
  {
    KeywordTrimmed(q.key, q.left, q.right, q.raw);
    TrimSpaces(q.before, KeywordText(q.key, q.left, q.right, q.raw), q.after);
    KeywordSplits(q.key, q.left, q.right, q.raw);
  }

  /** Whatever white space a query has, it asks for its key and the value of its right side. */
  lemma {:induction false} QueryAsks(nonprintable: char -> bool, lower: string -> string, q: Spelled)
    requires q.Valid()
    ensures BuildTaskSearch(nonprintable, lower, q.Text()).keyValue ==
      match QueryValue(q.raw)
      case None => None
      case Some(value) =>
        if |StrictText(KeyValuePattern(nonprintable, q.key, value))| > 65_536 then None
        else Some(KeyValuePattern(nonprintable, q.key, value))
  {
    QuerySplits(q);
  }

  /** A printed value on the right is that value; a text that is no literal is the string itself. */
  lemma {:induction false} PrintedQueryValue(d: Dumper, v: SearchValue)
    requires WellFormed(v) && d.CanPrint(v) && Depth(v) <= MAX_NESTING_DEPTH
    ensures QueryValue(d.Text(v)) == Some(v)
  {
    PrintedTextParses(d, v);
    assert SkipSpace(d.Text(v), |d.Text(v)|) == |d.Text(v)|;
  }

  /**
    A query's value, and the dictionary of a row, each as some layout prints it: the search finds every row with such
    an entry, and among texts without backslashes no other.
   */
  lemma {:induction false} QueryFinds(
    lower: string -> string, q: Spelled, qd: Dumper, value: SearchValue, d: Dumper, v: SearchValue)
    requires q.Valid() && q.raw == qd.Text(value) && qd.CanPrint(value)
    requires WellFormed(value) && Depth(value) <= MAX_NESTING_DEPTH
    requires WellFormed(v) && v.Collection? && v.isObject
    ensures var keyValue, has :=
        BuildTaskSearch(d.nonprintable, lower, q.Text()).keyValue, HasEntry(v, Entry(Str(q.key), value));
      keyValue.Some? ==>
        && (has ==> KwargsClause(keyValue.value, d.Text(v)))
        && (NoBackslash(d.Text(v)) && Depth(v) <= MAX_NESTING_DEPTH ==>
              (KwargsClause(keyValue.value, d.Text(v)) <==> has))
  {
    QueryAsks(d.nonprintable, lower, q);
    PrintedQueryValue(qd, value);
    PrintedClauseIff(d, v, Pair(q.key, value));
  }

  /** The text is no literal, or has more than white space behind one. */
  predicate IsBare(raw: string) {
    match LiteralAt(raw, 0, 0)
    case TooDeep => false
    case NoLiteral => true
    case Parsed(_, end) => !AreSpaces(raw[end..])
  }

  lemma {:induction false} BareQueryValue(raw: string)
    requires IsBare(raw)
    ensures QueryValue(raw) == Some(Str(raw))
  {
    if LiteralAt(raw, 0, 0).Parsed? { SpacesToEnd(raw, LiteralAt(raw, 0, 0).end); }
  }

  /** The right side as a bare word or text: the string itself. */
  lemma {:induction false} BareQueryFinds(lower: string -> string, q: Spelled, d: Dumper, v: SearchValue)
    requires q.Valid() && IsBare(q.raw)
    requires WellFormed(v) && v.Collection? && v.isObject
    ensures var keyValue, has :=
        BuildTaskSearch(d.nonprintable, lower, q.Text()).keyValue, HasEntry(v, Entry(Str(q.key), Str(q.raw)));
      keyValue.Some? ==>
        && (has ==> KwargsClause(keyValue.value, d.Text(v)))
        && (NoBackslash(d.Text(v)) && Depth(v) <= MAX_NESTING_DEPTH ==>
              (KwargsClause(keyValue.value, d.Text(v)) <==> has))
  {
    QueryAsks(d.nonprintable, lower, q);
    BareQueryValue(q.raw);
    PrintedClauseIff(d, v, Pair(q.key, Str(q.raw)));
  }
}
