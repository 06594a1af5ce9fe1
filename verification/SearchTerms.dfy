/** The term index of kwargs_search_terms, and that it loses no match of the kwargs clause. */
module SearchTerms {
  import opened Options
  import opened SearchText
  import opened SearchValue
  import opened SearchParser
  import opened SearchPattern
  import opened SearchFind
  import opened SearchReading
  import opened SearchClause
  import opened SearchTermText

  const MAX_INDEXED_LENGTH := 4096
  const MAX_TERMS := 256

  datatype Pair = Pair(key: string, value: SearchValue)

  /** The string keys and their values that `visit` reaches: it goes into values and items, not into keys. */
  function Pairs(v: SearchValue): set<Pair>
    decreases v, 1
  {
    if v.Collection? then MembersPairs(v.members) else {}
  }

  function MembersPairs(members: seq<Member>): set<Pair>
    decreases members, 0
  {
    if members == [] then {} else MemberPairs(members[0]) + MembersPairs(members[1..])
  }

  function MemberPairs(m: Member): set<Pair>
    decreases m, 2
  {
    (if m.Entry? && m.key.Str? then {Pair(m.key.text, m.value)} else {}) + Pairs(m.value)
  }

  function TermsOf(pairs: set<Pair>): set<string> {
    set p <- pairs :: TermText(p.key, p.value)
  }

  function Terms(v: SearchValue): set<string> {
    TermsOf(Pairs(v))
  }

  datatype KwargsSearchTerms = KwargsSearchTerms(terms: set<string>, fallback: bool)

  predicate IsIndexedSource(source: Option<string>) {
    source == Some("saferepr") || source == Some("repr") || source == Some("json")
  }

  predicate IsIndexable(raw: string, source: Option<string>) {
    IsIndexedSource(source) && |raw| <= MAX_INDEXED_LENGTH && NoBackslash(raw)
  }

  /** The object that is the whole text, if there is one. */
  function ObjectValue(raw: string): (v: Option<SearchValue>)
  {
    match LiteralAt(raw, 0, 0)
    case Parsed(value, end) =>
      if SkipSpace(raw, end) == |raw| && value.Collection? && value.isObject then Some(value) else None
    case _ => None
  }

  const Fallback := KwargsSearchTerms({}, true)

  function KwargsTerms(raw: Option<string>, source: Option<string>): KwargsSearchTerms {
    if raw.Or("") == "" then KwargsSearchTerms({}, false)
    else if !IsIndexable(raw.value, source) then Fallback
    else
      match ObjectValue(raw.value)
      case None => Fallback
      case Some(v) => if |Terms(v)| > MAX_TERMS then Fallback else KwargsSearchTerms(Terms(v), false)
  }

  // ---- The loops of the source ----

  lemma {:induction false} MembersPairsAppend(members: seq<Member>, m: Member)
    ensures MembersPairs(members + [m]) == MembersPairs(members) + MemberPairs(m)
  {
    if members == [] {
      assert members + [m] == [m];
    } else {
      MembersPairsAppend(members[1..], m);
      assert (members + [m])[1..] == members[1..] + [m];
    }
  }

  lemma {:induction false} TermsOfUnion(a: set<Pair>, b: set<Pair>)
    ensures TermsOf(a + b) == TermsOf(a) + TermsOf(b)
  {
  }

  /** What one turn over a member adds. */
  lemma {:induction false} MemberTerms(m: Member)
    ensures TermsOf(MemberPairs(m)) ==
      (if m.Entry? && m.key.Str? then {TermText(m.key.text, m.value)} else {}) + Terms(m.value)
  {
    if m.Entry? && m.key.Str? {
      TermsOfUnion({Pair(m.key.text, m.value)}, Pairs(m.value));
    }
  }

  lemma {:induction false} VisitTurn(members: seq<Member>, k: nat)
    requires k < |members|
    ensures TermsOf(MembersPairs(members[..k + 1])) ==
      TermsOf(MembersPairs(members[..k])) + TermsOf(MemberPairs(members[k]))
  {
    assert members[..k + 1] == members[..k] + [members[k]];
    MembersPairsAppend(members[..k], members[k]);
    TermsOfUnion(MembersPairs(members[..k]), MemberPairs(members[k]));
  }

  method Visit(value: SearchValue, terms: set<string>) returns (r: set<string>)
    ensures r == terms + Terms(value)
    decreases value
  {
    r := terms;
    if value.Collection? {
      for k := 0 to |value.members|
        invariant r == terms + TermsOf(MembersPairs(value.members[..k]))
      {
        var m := value.members[k];
        if m.Entry? && m.key.Str? {
          r := r + {TermText(m.key.text, m.value)};
        }
        r := Visit(m.value, r);
        MemberTerms(m);
        VisitTurn(value.members, k);
      }
      assert value.members[..|value.members|] == value.members;
    }
  }

  method KwargsSearchTermsOf(nonprintable: char -> bool, raw: Option<string>, source: Option<string>)
    returns (r: KwargsSearchTerms)
    ensures r == KwargsTerms(raw, source)
  {
    if raw.None? || raw.value == "" {
      return KwargsSearchTerms({}, false);
    }
    if !IsIndexable(raw.value, source) {
      return Fallback;
    }
    var parsed := ParseLiteral(nonprintable, raw.value, 0, 0);
    if !parsed.Found? || SkipSpace(raw.value, parsed.literal.end) != |raw.value|
       || !parsed.literal.value.Collection? || !parsed.literal.value.isObject {
      return Fallback;
    }
    var terms := Visit(parsed.literal.value, {});
    r := if |terms| > MAX_TERMS then Fallback else KwargsSearchTerms(terms, false);
  }

  // ---- Outside every key ----

  /** The value at the end of a path through the values of entries and items. */
  function Follow(v: SearchValue, path: seq<nat>): Option<SearchValue>
    decreases path
  {
    if path == [] then Some(v)
    else if v.Collection? && path[0] < |v.members| then Follow(v.members[path[0]].value, path[1..])
    else None
  }

  /** The k-th entry of the collection at the end of the path has the key and value of the pair. */
  ghost predicate IsEntryAt(v: SearchValue, pair: Pair, path: seq<nat>, k: nat) {
    && Follow(v, path).Some? && Follow(v, path).value.Collection? && k < |Follow(v, path).value.members|
    && Follow(v, path).value.members[k] == Entry(Str(pair.key), pair.value)
  }

  /** An entry with the pair's key and value stands outside every key. */
  ghost predicate Outside(v: SearchValue, pair: Pair) {
    exists path, k :: IsEntryAt(v, pair, path, k)
  }

  lemma {:induction false} PairsOfMember(members: seq<Member>, k: nat)
    requires k < |members|
    ensures MemberPairs(members[k]) <= MembersPairs(members)
  {
    if k > 0 { PairsOfMember(members[1..], k - 1); }
  }

  lemma {:induction false} MemberOfPair(members: seq<Member>, pair: Pair) returns (k: nat)
    requires pair in MembersPairs(members)
    ensures k < |members| && pair in MemberPairs(members[k])
  {
    if pair in MemberPairs(members[0]) {
      k := 0;
    } else {
      k := MemberOfPair(members[1..], pair);
      k := k + 1;
    }
  }

  lemma {:induction false} EntryIsVisited(v: SearchValue, pair: Pair, path: seq<nat>, k: nat)
    requires IsEntryAt(v, pair, path, k)
    ensures pair in Pairs(v)
    decreases path
  {
    if path == [] {
      PairsOfMember(v.members, k);
    } else {
      EntryIsVisited(v.members[path[0]].value, pair, path[1..], k);
      PairsOfMember(v.members, path[0]);
    }
  }

  lemma {:induction false} VisitedIsEntry(v: SearchValue, pair: Pair) returns (path: seq<nat>, k: nat)
    requires pair in Pairs(v)
    ensures IsEntryAt(v, pair, path, k)
    decreases v
  {
    var n := MemberOfPair(v.members, pair);
    if v.members[n] == Entry(Str(pair.key), pair.value) {
      path, k := [], n;
    } else {
      var rest;
      rest, k := VisitedIsEntry(v.members[n].value, pair);
      path := [n] + rest;
      assert path[1..] == rest;
    }
  }

  /** The visit reaches exactly the entries outside every key. */
  lemma {:induction false} VisitedIffOutside(v: SearchValue, pair: Pair)
    ensures pair in Pairs(v) <==> Outside(v, pair)
  {
    if pair in Pairs(v) { var path, k := VisitedIsEntry(v, pair); }
    if path, k :| IsEntryAt(v, pair, path, k) { EntryIsVisited(v, pair, path, k); }
  }

  // ---- Keys ----

  /** No key is a list or an object, at any depth. */
  ghost predicate ScalarKeys(v: SearchValue)
    decreases v, 1
  {
    v.Collection? ==> MembersScalarKeys(v.members)
  }

  ghost predicate MembersScalarKeys(members: seq<Member>)
    decreases members, 0
  {
    members != [] ==> MemberScalarKeys(members[0]) && MembersScalarKeys(members[1..])
  }

  ghost predicate MemberScalarKeys(m: Member)
    decreases m, 2
  {
    (m.Entry? ==> !m.key.Collection?) && ScalarKeys(m.value)
  }

  lemma {:induction false} EntryVisited(v: SearchValue, key: string, value: SearchValue)
    requires ScalarKeys(v) && HasEntry(v, Entry(Str(key), value))
    ensures Pair(key, value) in Pairs(v)
    decreases v, 1
  {
    MembersEntryVisited(v.members, key, value);
  }

  lemma {:induction false} MembersEntryVisited(members: seq<Member>, key: string, value: SearchValue)
    requires MembersScalarKeys(members) && MembersHave(members, Entry(Str(key), value))
    ensures Pair(key, value) in MembersPairs(members)
    decreases members, 0
  {
    if MemberHas(members[0], Entry(Str(key), value)) {
      MemberEntryVisited(members[0], key, value);
    } else if members[0] != Entry(Str(key), value) {
      MembersEntryVisited(members[1..], key, value);
    }
  }

  lemma {:induction false} MemberEntryVisited(m: Member, key: string, value: SearchValue)
    requires MemberScalarKeys(m) && MemberHas(m, Entry(Str(key), value))
    ensures Pair(key, value) in MemberPairs(m)
    decreases m, 2
  {
    EntryVisited(m.value, key, value);
  }

  // ---- The query's term ----

  function KeywordSearchTerm(nonprintable: char -> bool, lower: string -> string, query: string): Option<string> {
    if BuildTaskSearch(nonprintable, lower, query).keyValue.None? then None
    else
      var keyword := SplitKeyword(Trim(query)).value;
      Some(TermText(keyword.key, QueryValue(keyword.raw).value))
  }

  /** The key and value a key=value query asks for. */
  function QueryPair(query: string): Option<Pair> {
    match SplitKeyword(Trim(query))
    case None => None
    case Some(keyword) =>
      match QueryValue(keyword.raw)
      case None => None
      case Some(value) => Some(Pair(keyword.key, value))
  }

  lemma {:induction false} QueryValueWellFormed(raw: string)
    requires QueryValue(raw).Some?
    ensures WellFormed(QueryValue(raw).value)
  {
    if LiteralAt(raw, 0, 0).Parsed? { ParsedWellFormed(raw, 0, 0); }
  }

  /** What a search asks the rows for: a lower-cased text and, for key=value, a key and a value. */
  datatype Search = Search(nonprintable: char -> bool, text: string, pair: Option<Pair>)

  function SearchFor(nonprintable: char -> bool, lower: string -> string, query: string): Search {
    var built := BuildTaskSearch(nonprintable, lower, query);
    Search(nonprintable, built.query, if built.keyValue.Some? then QueryPair(query) else None)
  }

  function PairPattern(nonprintable: char -> bool, pair: Pair): Regex {
    KeyValuePattern(nonprintable, pair.key, pair.value)
  }

  function PairTerm(pair: Pair): string {
    TermText(pair.key, pair.value)
  }

  ghost predicate IsSearch(search: Search) {
    search.pair.Some? ==> WellFormed(search.pair.value.value)
  }

  /** The regex clause and the term of a query speak of the same pair, and both are there or none. */
  lemma {:induction false} ClausePair(nonprintable: char -> bool, lower: string -> string, query: string)
    ensures var search := SearchFor(nonprintable, lower, query);
      var keyValue := BuildTaskSearch(nonprintable, lower, query).keyValue;
      && IsSearch(search)
      && keyValue == (if search.pair.Some? then Some(PairPattern(nonprintable, search.pair.value)) else None)
      && KeywordSearchTerm(nonprintable, lower, query) ==
        (if search.pair.Some? then Some(PairTerm(search.pair.value)) else None)
  {
    if BuildTaskSearch(nonprintable, lower, query).keyValue.Some? {
      QueryValueWellFormed(SplitKeyword(Trim(query)).value.raw);
    }
  }

  // ---- No match is lost ----

  /** In a text that is one object, a match of the clause is an entry of that object. */
  lemma {:induction false} ClauseFinds(nonprintable: char -> bool, pair: Pair, t: string, v: SearchValue)
    requires NoBackslash(t) && ObjectValue(t) == Some(v) && WellFormed(pair.value)
    requires KwargsClause(PairPattern(nonprintable, pair), t)
    ensures HasEntry(v, Entry(Str(pair.key), pair.value))
  {
    var end := LiteralAt(t, 0, 0).end;
    ObjectTextTokenizes(t, v, end);
    ObjectTextNotMalformed(t, v, end);
    StrictFinds(nonprintable, pair.key, pair.value, t, v, end);
  }

  lemma {:induction false} ColonInMatch(nonprintable: char -> bool, pair: Pair, t: string, a: nat, b: nat)
    requires MatchesAt(PairPattern(nonprintable, pair), t, a, b)
    ensures t != ""
  {
    var entry := EntryPattern(StringPattern(nonprintable, pair.key), PatternOf(nonprintable, pair.value));
    var p := ThenSplit(Spaces, Then(entry, Spaces), t, a, b);
    var j := ThenSplit(entry, Spaces, t, p, b);
    var k, colon, v := EntrySplit(StringPattern(nonprintable, pair.key), PatternOf(nonprintable, pair.value), t, p, j);
  }

  lemma {:induction false} EmptyNeverMatches(nonprintable: char -> bool, pair: Pair)
    ensures !KwargsClause(PairPattern(nonprintable, pair), "")
  {
    var kv := PairPattern(nonprintable, pair);
    if x: nat, a: nat, b: nat :| LenientAt(kv, "", x, a, b) {
      ColonInMatch(nonprintable, pair, "", a, b);
    }
  }

  lemma {:induction false} TermPresent(pair: Pair, v: SearchValue)
    ensures PairTerm(pair) in Terms(v) <==> pair in Pairs(v)
  {
    forall p <- Pairs(v) | TermText(p.key, p.value) == TermText(pair.key, pair.value) ensures p == pair {
      TermIdentifies(p.key, p.value, pair.key, pair.value);
    }
  }

  /**
    A row whose kwargs satisfy the clause is indexed under the pair's term, or is marked as not indexed, if and
    only if an entry with that key and value stands outside every key.
   */
  lemma {:induction false} MatchIsIndexed(
    nonprintable: char -> bool, pair: Pair, raw: Option<string>, source: Option<string>)
    requires WellFormed(pair.value) && KwargsClause(PairPattern(nonprintable, pair), raw.Or(""))
    ensures var index := KwargsTerms(raw, source);
      index.fallback || (
        && raw.Some? && ObjectValue(raw.value).Some?
        && HasEntry(ObjectValue(raw.value).value, Entry(Str(pair.key), pair.value))
        && (PairTerm(pair) in index.terms <==> Outside(ObjectValue(raw.value).value, pair)))
  {
    EmptyNeverMatches(nonprintable, pair);
    if !KwargsTerms(raw, source).fallback {
      ClauseFinds(nonprintable, pair, raw.value, ObjectValue(raw.value).value);
      TermPresent(pair, ObjectValue(raw.value).value);
      VisitedIffOutside(ObjectValue(raw.value).value, pair);
    }
  }

  ghost predicate KeysAreScalars(raw: string) {
    ObjectValue(raw).Some? ==> ScalarKeys(ObjectValue(raw).value)
  }

  /** With scalar keys the index loses no match. */
  lemma {:induction false} IndexKeepsMatches(
    nonprintable: char -> bool, pair: Pair, raw: Option<string>, source: Option<string>)
    requires WellFormed(pair.value) && KwargsClause(PairPattern(nonprintable, pair), raw.Or(""))
    requires KeysAreScalars(raw.Or(""))
    ensures KwargsTerms(raw, source).fallback || PairTerm(pair) in KwargsTerms(raw, source).terms
  {
    MatchIsIndexed(nonprintable, pair, raw, source);
    if !KwargsTerms(raw, source).fallback {
      EntryVisited(ObjectValue(raw.value).value, pair.key, pair.value);
      VisitedIffOutside(ObjectValue(raw.value).value, pair);
    }
  }

  /** The query's own clause and term. */
  lemma {:induction false} QueryKeepsMatches(
    nonprintable: char -> bool, lower: string -> string, query: string, raw: Option<string>, source: Option<string>)
    ensures var keyValue := BuildTaskSearch(nonprintable, lower, query).keyValue;
      keyValue.Some? && KwargsClause(keyValue.value, raw.Or("")) && KeysAreScalars(raw.Or("")) ==>
        KwargsTerms(raw, source).fallback
        || KeywordSearchTerm(nonprintable, lower, query).Or("") in KwargsTerms(raw, source).terms
  {
    ClausePair(nonprintable, lower, query);
    var search := SearchFor(nonprintable, lower, query);
    if
      && search.pair.Some? && KwargsClause(PairPattern(nonprintable, search.pair.value), raw.Or(""))
      && KeysAreScalars(raw.Or(""))
    {
      IndexKeepsMatches(nonprintable, search.pair.value, raw, source);
    }
  }
}
