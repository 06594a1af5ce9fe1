/** Whole values as JSON and Python print them: they match their patterns, and they parse back. */
module SearchPrinted {
  import opened Options
  import opened SearchText
  import opened SearchValue
  import opened SearchScalars
  import opened SearchRoundTrip
  import opened SearchParser
  import opened SearchShape
  import opened SearchPattern
  import opened SearchComplete

  // ---- Printing ----

  predicate AreSpaces(s: string) {
    forall c <- s :: IsSpace(c)
  }

  /** A character with white space on both sides. */
  datatype Spaced = Spaced(left: string, mark: char, right: string) {
    predicate Valid() { AreSpaces(left) && AreSpaces(right) }

    function Text(): string { left + ([mark] + right) }
  }

  /** The words, separators and string style of json.dumps, repr or saferepr. */
  datatype Layout = Layout(style: Style, yes: string, no: string, none: string, comma: Spaced, colon: Spaced) {
    predicate Valid() {
      && Lower(yes) == "true" && Lower(no) == "false" && (none == "None" || none == "null")
      && comma.Valid() && comma.mark == ',' && colon.Valid() && colon.mark == ':'
    }
  }

  const COMMA_SPACE := Spaced("", ',', " ")
  const COLON_SPACE := Spaced("", ':', " ")

  const JSON := Layout(Json, "true", "false", "null", COMMA_SPACE, COLON_SPACE)
  const COMPACT_JSON := Layout(AsciiJson, "true", "false", "null", Spaced("", ',', ""), Spaced("", ':', ""))
  const REPR := Layout(Repr, "True", "False", "None", COMMA_SPACE, COLON_SPACE)
  const SAFE_REPR := Layout(SafeRepr, "True", "False", "None", COMMA_SPACE, COLON_SPACE)

  lemma {:induction false} LayoutsValid()
    ensures JSON.Valid() && COMPACT_JSON.Valid() && REPR.Valid() && SAFE_REPR.Valid()
  {
  }

  function PrintedString(style: Style, nonprintable: char -> bool, s: string): string {
    match style
    case Json => JsonText(s)
    case AsciiJson => AsciiJsonText(s)
    case Repr => PythonRepr(nonprintable, s)
    case SafeRepr => CelerySafeRepr(s)
  }

  /** A layout and what its printer takes for nonprintable. */
  datatype Dump = Dump(layout: Layout, nonprintable: char -> bool) {
    ghost predicate Valid() { layout.Valid() && PrintsAscii(nonprintable) }

    function Comma(): string { layout.comma.Text() }
    function Colon(): string { layout.colon.Text() }

    function Text(v: SearchValue): string
      decreases v, 1
    {
      match v
      case Str(text) => PrintedString(layout.style, nonprintable, text)
      case Num(spelling) => spelling
      case Bool(truth) => if truth then layout.yes else layout.no
      case Null => layout.none
      case Collection(isObject, members) => [OpenChar(isObject)] + MembersText(members) + [Close(isObject)]
    }

    function MembersText(members: seq<Member>): string
      decreases members, 0
    {
      if members == [] then ""
      else if |members| == 1 then MemberText(members[0])
      else MemberText(members[0]) + Comma() + MembersText(members[1..])
    }

    function MemberText(m: Member): string
      decreases m, 2
    {
      if m.Item? then Text(m.value) else Text(m.key) + Colon() + Text(m.value)
    }

    /** saferepr leaves backslashes raw, so that a string with one is not written reliably. */
    ghost predicate CanPrint(v: SearchValue)
      decreases v, 1
    {
      match v
      case Str(text) => layout.style.SafeRepr? ==> NoBackslash(text)
      case Collection(_, members) => forall m <- members :: CanPrintMember(m)
      case _ => true
    }

    ghost predicate CanPrintMember(m: Member)
      decreases m, 2
    {
      CanPrint(m.value) && (m.Entry? ==> CanPrint(m.key))
    }
  }

  type Dumper = d: Dump | d.Valid() ghost witness SomeDump()

  ghost function SomeDump(): (d: Dump)
    ensures d.Valid()
  {
    LayoutsValid();
    Dump(JSON, (c: char) => false)
  }

  // ---- Printed texts match their patterns ----

  lemma {:induction false} StartsAtSlice(t: string, i: nat, s: string)
    requires StartsAt(t, i, s)
    ensures i + |s| <= |t| && t[i..i + |s|] == s
  {
  }

  lemma {:induction false} DistinctKeeps(items: seq<string>, x: string)
    requires x in items
    ensures x in Distinct(items)
  {
    var init, last := items[..|items| - 1], items[|items| - 1];
    assert items == init + [last];
    if x in init { DistinctKeeps(init, x); }
  }

  lemma {:induction false} StringTextMatches(d: Dumper, s: string, t: string, i: nat)
    requires StartsAt(t, i, d.Text(Str(s)))
    ensures MatchesAt(StringPattern(d.nonprintable, s), t, i, i + |d.Text(Str(s))|)
  {
    var text := d.Text(Str(s));
    StartsAtSlice(t, i, text);
    var printed := [JsonText(s), AsciiJsonText(s), PythonRepr(d.nonprintable, s), CelerySafeRepr(s)];
    assert printed[0] in printed && printed[1] in printed && printed[2] in printed && printed[3] in printed;
    DistinctKeeps(printed, text);
  }

  ghost predicate OnlySpaces(t: string, i: nat, j: nat) {
    i <= j <= |t| && forall k :: i <= k < j ==> IsSpace(t[k])
  }

  lemma {:induction false} SpacesMatch(t: string, i: nat, s: string)
    requires StartsAt(t, i, s) && AreSpaces(s)
    ensures OnlySpaces(t, i, i + |s|)
  {
    forall k | i <= k < i + |s| ensures IsSpace(t[k]) {
      assert t[i + (k - i)] == s[k - i] && s[k - i] in s;
    }
  }

  /** Where a separator stands, and its character at `at`. */
  lemma {:induction false} SpacedAt(t: string, i: nat, s: Spaced) returns (at: nat)
    requires StartsAt(t, i, s.Text()) && s.Valid()
    ensures OnlySpaces(t, i, at) && At(t, at, s.mark) && OnlySpaces(t, at + 1, i + |s.Text()|)
  {
    at := i + |s.left|;
    StartsAtSplit(t, i, s.left, [s.mark] + s.right);
    StartsAtSplit(t, at, [s.mark], s.right);
    StartsAtChar(t, at, s.mark);
    SpacesMatch(t, i, s.left);
    SpacesMatch(t, at + 1, s.right);
  }

  lemma {:induction false} ExactlyAt(t: string, i: nat, c: char)
    requires At(t, i, c)
    ensures MatchesAt(Exactly([c]), t, i, i + 1)
  {
    assert t[i..i + 1] == [c];
  }

  lemma {:induction false} SpacedMatches(t: string, i: nat, at: nat, j: nat, c: char)
    requires OnlySpaces(t, i, at) && At(t, at, c) && OnlySpaces(t, at + 1, j)
    ensures MatchesAt(Then(Spaces, Then(Exactly([c]), Spaces)), t, i, j)
  {
    ExactlyAt(t, at, c);
    assert MatchesAt(Spaces, t, at + 1, j) && MatchesAt(Spaces, t, i, at);
    assert MatchesAt(Then(Exactly([c]), Spaces), t, at, j);
  }

  lemma {:induction false} ColonMatches(d: Dumper, t: string, i: nat)
    requires StartsAt(t, i, d.Colon())
    ensures MatchesAt(COLON, t, i, i + |d.Colon()|)
  {
    var at := SpacedAt(t, i, d.layout.colon);
    SpacedMatches(t, i, at, i + |d.Colon()|, ':');
  }

  lemma {:induction false} CommaMatches(d: Dumper, t: string, i: nat)
    requires StartsAt(t, i, d.Comma())
    ensures MatchesAt(COMMA, t, i, i + |d.Comma()|)
  {
    var at := SpacedAt(t, i, d.layout.comma);
    SpacedMatches(t, i, at, i + |d.Comma()|, ',');
  }

  lemma {:induction false} BracketsMatch(isObject: bool, items: seq<Regex>, t: string, i: nat, b: nat)
    requires At(t, i, OpenChar(isObject)) && MatchesAt(Join(items), t, i + 1, b) && At(t, b, Close(isObject))
    ensures MatchesAt(CollectionPattern(isObject, items), t, i, b + 1)
  {
    ExactlyAt(t, i, OpenChar(isObject));
    ExactlyAt(t, b, Close(isObject));
    var tail := Then(Spaces, Exactly([Close(isObject)]));
    assert MatchesAt(Spaces, t, b, b) && MatchesAt(Spaces, t, i + 1, i + 1);
    assert MatchesAt(tail, t, b, b + 1);
    assert MatchesAt(Then(Join(items), tail), t, i + 1, b + 1);
    assert MatchesAt(Then(Spaces, Then(Join(items), tail)), t, i + 1, b + 1);
  }

  lemma {:induction false} PrintedMatches(d: Dumper, v: SearchValue, t: string, i: nat)
    requires StartsAt(t, i, d.Text(v))
    ensures MatchesAt(PatternOf(d.nonprintable, v), t, i, i + |d.Text(v)|)
    decreases v, 1
  {
    StartsAtSlice(t, i, d.Text(v));
    match v
    case Str(text) => StringTextMatches(d, text, t, i);
    case Collection(isObject, members) =>
      BracketsSplit(d, isObject, members, t, i);
      MembersTextMatch(d, members, t, i + 1);
      BracketsMatch(isObject, PatternsOf(d.nonprintable, members), t, i, i + 1 + |d.MembersText(members)|);
    case _ =>
  }

  lemma {:induction false} BracketsSplit(d: Dumper, isObject: bool, members: seq<Member>, t: string, i: nat)
    requires StartsAt(t, i, d.Text(Collection(isObject, members)))
    ensures At(t, i, OpenChar(isObject)) && StartsAt(t, i + 1, d.MembersText(members))
    ensures At(t, i + 1 + |d.MembersText(members)|, Close(isObject))
  {
    var body := d.MembersText(members);
    StartsAtSplit(t, i, [OpenChar(isObject)] + body, [Close(isObject)]);
    StartsAtSplit(t, i, [OpenChar(isObject)], body);
    StartsAtChar(t, i, OpenChar(isObject));
    StartsAtChar(t, i + 1 + |body|, Close(isObject));
  }

  lemma {:induction false} EntrySplits(d: Dumper, key: SearchValue, value: SearchValue, t: string, i: nat)
    returns (k: nat, v: nat)
    requires StartsAt(t, i, d.MemberText(Entry(key, value)))
    ensures k == i + |d.Text(key)| && v + |d.Text(value)| == i + |d.MemberText(Entry(key, value))|
    ensures StartsAt(t, i, d.Text(key)) && StartsAt(t, v, d.Text(value))
    ensures v == k + |d.Colon()| && StartsAt(t, k, d.Colon())
  {
    StartsAtSplit(t, i, d.Text(key) + d.Colon(), d.Text(value));
    StartsAtSplit(t, i, d.Text(key), d.Colon());
    k := i + |d.Text(key)|;
    v := k + |d.Colon()|;
  }

  lemma {:induction false} EntryTextMatches(d: Dumper, key: SearchValue, value: SearchValue, t: string, i: nat, j: nat)
    requires StartsAt(t, i, d.MemberText(Entry(key, value))) && j == i + |d.MemberText(Entry(key, value))|
    ensures MatchesAt(EntryPattern(PatternOf(d.nonprintable, key), PatternOf(d.nonprintable, value)), t, i, j)
    decreases Entry(key, value), 3
  {
    var k, v := EntrySplits(d, key, value, t, i);
    assert MatchesAt(PatternOf(d.nonprintable, key), t, i, k) by { PrintedMatches(d, key, t, i); }
    assert MatchesAt(PatternOf(d.nonprintable, value), t, v, j) by { PrintedMatches(d, value, t, v); }
    ColonMatches(d, t, k);
    EntryJoinsMatches(PatternOf(d.nonprintable, key), PatternOf(d.nonprintable, value), t, i, k, v, j);
  }

  lemma {:induction false} MemberTextMatches(d: Dumper, m: Member, t: string, i: nat)
    requires StartsAt(t, i, d.MemberText(m))
    ensures MatchesAt(MemberPattern(d.nonprintable, m), t, i, i + |d.MemberText(m)|)
    decreases m, 4
  {
    if m.Entry? {
      EntryTextMatches(d, m.key, m.value, t, i, i + |d.MemberText(m)|);
    } else {
      PrintedMatches(d, m.value, t, i);
    }
  }

  lemma {:induction false} EntryJoinsMatches(key: Regex, value: Regex, t: string, i: nat, k: nat, v: nat, j: nat)
    requires MatchesAt(key, t, i, k) && MatchesAt(COLON, t, k, v) && MatchesAt(value, t, v, j)
    ensures MatchesAt(EntryPattern(key, value), t, i, j)
  {
    assert MatchesAt(Then(COLON, value), t, k, j);
  }

  /** The first of several members, the comma and the rest. */
  lemma {:induction false} FirstSplits(d: Dumper, members: seq<Member>, t: string, i: nat) returns (k: nat, next: nat)
    requires |members| > 1 && StartsAt(t, i, d.MembersText(members))
    ensures k == i + |d.MemberText(members[0])| && next == k + |d.Comma()|
    ensures next + |d.MembersText(members[1..])| == i + |d.MembersText(members)|
    ensures StartsAt(t, i, d.MemberText(members[0])) && StartsAt(t, k, d.Comma())
    ensures StartsAt(t, next, d.MembersText(members[1..]))
  {
    var first, rest := d.MemberText(members[0]), d.MembersText(members[1..]);
    StartsAtSplit(t, i, first + d.Comma(), rest);
    StartsAtSplit(t, i, first, d.Comma());
    k := i + |first|;
    next := k + |d.Comma()|;
  }

  lemma {:induction false} MembersTextMatch(d: Dumper, members: seq<Member>, t: string, i: nat)
    requires StartsAt(t, i, d.MembersText(members))
    ensures MatchesAt(Join(PatternsOf(d.nonprintable, members)), t, i, i + |d.MembersText(members)|)
    decreases members, 0
  {
    if members == [] {
      assert t[i..i] == "";
    } else if |members| == 1 {
      MemberTextMatches(d, members[0], t, i);
    } else {
      var k, next := FirstSplits(d, members, t, i);
      MemberTextMatches(d, members[0], t, i);
      MembersTextMatch(d, members[1..], t, next);
      CommaMatches(d, t, k);
      JoinsMatch(PatternsOf(d.nonprintable, members), t, i, k, next, i + |d.MembersText(members)|);
    }
  }

  lemma {:induction false} JoinsMatch(items: seq<Regex>, t: string, i: nat, k: nat, next: nat, j: nat)
    requires |items| > 1 && MatchesAt(items[0], t, i, k) && MatchesAt(COMMA, t, k, next)
    requires MatchesAt(Join(items[1..]), t, next, j)
    ensures MatchesAt(Join(items), t, i, j)
  {
    assert MatchesAt(Then(COMMA, Join(items[1..])), t, k, j);
  }

  // ---- Printed texts read back ----

  lemma {:induction false} StringStart(d: Dumper, s: string)
    ensures d.Text(Str(s)) != "" && (d.Text(Str(s))[0] == '\'' || d.Text(Str(s))[0] == '\"')
  {
  }

  /** A printed value starts with a value's first character. */
  lemma {:induction false} TextStart(d: Dumper, v: SearchValue)
    requires WellFormed(v)
    ensures d.Text(v) != "" && StartsValue(d.Text(v)[0])
  {
    match v
    case Str(text) => StringStart(d, text);
    case Num(spelling) => NumberStart(spelling, 0);
    case Bool(truth) => WordStart(d.Text(v), if truth then "true" else "false");
    case Null => assert d.layout.none == "None" || d.layout.none == "null";
    case Collection(_, _) =>
  }

  lemma {:induction false} TextStartAt(d: Dumper, v: SearchValue, t: string, i: nat)
    requires WellFormed(v) && StartsAt(t, i, d.Text(v))
    ensures i < |t| && StartsValue(t[i])
  {
    TextStart(d, v);
    assert t[i + 0] == d.Text(v)[0];
  }

  lemma {:induction false} WordStart(word: string, lower: string)
    requires Lower(word) == lower && (lower == "true" || lower == "false")
    ensures word != "" && IsLetter(word[0])
  {
    assert Lower(word)[0] == LowerChar(word[0]);
  }

  lemma {:induction false} WordReads(t: string, i: nat, word: string, value: SearchValue)
    requires StartsAt(t, i, word) && MayFollow(t, i + |word|) && word != ""
    requires WordValue(word) == Some(value) && forall c <- word :: IsLetter(c)
    ensures ScalarAt(t, i) == Parsed(value, i + |word|)
  {
    StartsAtSlice(t, i, word);
    forall k | i <= k < i + |word| ensures IsLetter(t[k]) {
      assert t[i + (k - i)] == word[k - i] && word[k - i] in word;
    }
    WordParses(t, i, i + |word|, value);
  }

  lemma {:induction false} LettersOf(word: string, lower: string)
    requires Lower(word) == lower && forall c <- lower :: 'a' <= c <= 'z'
    ensures forall c <- word :: IsLetter(c)
  {
    forall k | 0 <= k < |word| ensures IsLetter(word[k]) {
      assert Lower(word)[k] == LowerChar(word[k]) && lower[k] in lower;
    }
  }

  lemma {:induction false} StringReads(d: Dumper, s: string, t: string, i: nat)
    requires d.CanPrint(Str(s)) && StartsAt(t, i, d.Text(Str(s)))
    ensures i < |t| && ScalarAt(t, i) == Parsed(Str(s), i + |d.Text(Str(s))|)
  {
    StringStart(d, s);
    PrintedTextsReadBack(d.nonprintable, s, t, i);
    assert t[i + 0] == d.Text(Str(s))[0];
  }

  lemma {:induction false} BoolReads(d: Dumper, truth: bool, t: string, i: nat)
    requires StartsAt(t, i, d.Text(Bool(truth))) && MayFollow(t, i + |d.Text(Bool(truth))|)
    ensures i < |t| && ScalarAt(t, i) == Parsed(Bool(truth), i + |d.Text(Bool(truth))|)
  {
    var word := d.Text(Bool(truth));
    WordStart(word, if truth then "true" else "false");
    LettersOf(word, if truth then "true" else "false");
    WordReads(t, i, word, Bool(truth));
  }

  lemma {:induction false} NullReads(d: Dumper, t: string, i: nat)
    requires StartsAt(t, i, d.Text(Null)) && MayFollow(t, i + |d.Text(Null)|)
    ensures i < |t| && ScalarAt(t, i) == Parsed(Null, i + |d.Text(Null)|)
  {
    assert Lower("None") == "none" && Lower("null") == "null";
    WordReads(t, i, d.layout.none, Null);
  }

  lemma {:induction false} NumReads(d: Dumper, spelling: string, t: string, i: nat)
    requires WellFormed(Num(spelling)) && StartsAt(t, i, spelling) && MayFollow(t, i + |spelling|)
    ensures i < |t| && ScalarAt(t, i) == Parsed(Num(spelling), i + |spelling|)
  {
    StartsAtSlice(t, i, spelling);
    NumberParses(spelling, t, i, i + |spelling|);
  }

  lemma {:induction false} ScalarReads(d: Dumper, v: SearchValue, t: string, i: nat)
    requires !v.Collection? && WellFormed(v) && d.CanPrint(v)
    requires StartsAt(t, i, d.Text(v)) && MayFollow(t, i + |d.Text(v)|)
    ensures i < |t| && ScalarAt(t, i) == Parsed(v, i + |d.Text(v)|)
  {
    match v
    case Str(text) => StringReads(d, text, t, i);
    case Num(spelling) => NumReads(d, spelling, t, i);
    case Bool(truth) => BoolReads(d, truth, t, i);
    case Null => NullReads(d, t, i);
  }

  // A reader's white space and scalars, where printed texts need them.

  lemma {:induction false} ReadScalar(v: SearchValue, r: Reader, t: string, i: nat, end: nat)
    requires Mirrors(r, t) && !v.Collection? && i < |t| && ScalarAt(t, i) == Parsed(v, end)
    ensures ReadAs(v, r, t, i) == Some(end)
  {
    ScalarStart(t, i);
    assert MirrorsAt(r, t, i);
  }

  lemma {:induction false} ReadSolid(r: Reader, t: string, i: nat)
    requires Mirrors(r, t) && i < |t| && IsSolid(t[i])
    ensures r.skip(i) == i
  {
  }

  lemma {:induction false} ReadOver(r: Reader, t: string, i: nat, j: nat)
    requires Mirrors(r, t) && OnlySpaces(t, i, j) && j < |t| && IsSolid(t[j])
    ensures r.skip(i) == j
  {
    assert MirrorsAt(r, t, i);
    SkipOver(t, i, j);
  }

  lemma {:induction false} SkipOver(t: string, i: nat, j: nat)
    requires OnlySpaces(t, i, j) && j < |t| && !IsSpace(t[j])
    ensures SkipSpace(t, i) == j
    decreases j - i
  {
    if i < j { SkipOver(t, i + 1, j); }
  }

  /** White space in front of a value changes nothing. */
  lemma {:induction false} ReadBehind(v: SearchValue, r: Reader, t: string, i: nat, j: nat)
    requires Scans(r, t) && i <= j <= |t| && r.skip(i) == j && r.skip(j) == j
    ensures ReadAs(v, r, t, i) == ReadAs(v, r, t, j)
  {
  }

  /** Each member fits its collection and can be printed. */
  ghost predicate CanRead(d: Dumper, members: seq<Member>, isObject: bool) {
    members != [] ==>
      && WellFormedMember(members[0], isObject) && d.CanPrintMember(members[0]) && CanRead(d, members[1..], isObject)
  }

  lemma {:induction false} AllCanRead(d: Dumper, members: seq<Member>, isObject: bool)
    requires forall m <- members :: WellFormedMember(m, isObject) && d.CanPrintMember(m)
    ensures CanRead(d, members, isObject)
  {
    if members != [] { AllCanRead(d, members[1..], isObject); }
  }

  lemma {:induction false} TextReads(d: Dumper, v: SearchValue, r: Reader, t: string, i: nat)
    requires Mirrors(r, t) && WellFormed(v) && d.CanPrint(v)
    requires StartsAt(t, i, d.Text(v)) && MayFollow(t, i + |d.Text(v)|)
    ensures ReadAs(v, r, t, i) == Some(i + |d.Text(v)|)
    decreases v, 1
  {
    if v.Collection? {
      AllCanRead(d, v.members, v.isObject);
      CollectionTextReads(d, v.isObject, v.members, r, t, i);
    } else {
      ScalarReads(d, v, t, i);
      ReadScalar(v, r, t, i, i + |d.Text(v)|);
    }
  }

  lemma {:induction false} CollectionTextReads(
    d: Dumper, isObject: bool, members: seq<Member>, r: Reader, t: string, i: nat)
    requires Mirrors(r, t) && CanRead(d, members, isObject)
    requires StartsAt(t, i, d.Text(Collection(isObject, members)))
    ensures ReadAs(Collection(isObject, members), r, t, i) == Some(i + |d.Text(Collection(isObject, members))|)
    decreases Collection(isObject, members), 0
  {
    BracketsSplit(d, isObject, members, t, i);
    ReadSolid(r, t, i);
    BracketedRead(d, isObject, members, r, t, i + 1, i + 1 + |d.MembersText(members)|);
    CollectionUnfold(isObject, members, r, t, i);
  }

  lemma {:induction false} BracketedRead(
    d: Dumper, isObject: bool, members: seq<Member>, r: Reader, t: string, i: nat, close: nat)
    requires Mirrors(r, t) && CanRead(d, members, isObject)
    requires StartsAt(t, i, d.MembersText(members)) && close == i + |d.MembersText(members)|
    requires At(t, close, Close(isObject))
    ensures MembersReadAs(members, isObject, r, t, r.skip(i)) == Some(close + 1)
    decreases members, 2
  {
    MembersStart(d, members, isObject, r, t, i);
    MembersTextRead(d, members, isObject, r, t, i, close);
  }

  /** What follows the opening bracket is no white space. */
  lemma {:induction false} MembersStart(
    d: Dumper, members: seq<Member>, isObject: bool, r: Reader, t: string, i: nat)
    requires Mirrors(r, t) && CanRead(d, members, isObject)
    requires StartsAt(t, i, d.MembersText(members)) && At(t, i + |d.MembersText(members)|, Close(isObject))
    ensures i < |t| && r.skip(i) == i
  {
    if members != [] {
      FirstStart(d, members, isObject, t, i);
    }
    ReadSolid(r, t, i);
  }

  lemma {:induction false} MemberStart(d: Dumper, m: Member, isObject: bool, t: string, i: nat)
    requires WellFormedMember(m, isObject) && StartsAt(t, i, d.MemberText(m))
    ensures i < |t| && StartsValue(t[i])
  {
    if m.Entry? {
      var k, v := EntrySplits(d, m.key, m.value, t, i);
      TextStartAt(d, m.key, t, i);
    } else {
      TextStartAt(d, m.value, t, i);
    }
  }

  lemma {:induction false} FirstStart(d: Dumper, members: seq<Member>, isObject: bool, t: string, i: nat)
    requires members != [] && WellFormedMember(members[0], isObject) && StartsAt(t, i, d.MembersText(members))
    ensures i < |t| && StartsValue(t[i])
  {
    if |members| > 1 { var k, next := FirstSplits(d, members, t, i); }
    MemberStart(d, members[0], isObject, t, i);
  }

  lemma {:induction false} ColonReads(
    d: Dumper, value: SearchValue, r: Reader, t: string, k: nat, v: nat) returns (colon: nat)
    requires Mirrors(r, t) && WellFormed(value) && StartsAt(t, k, d.Colon()) && v == k + |d.Colon()|
    requires StartsAt(t, v, d.Text(value))
    ensures k <= colon < |t| && t[colon] == ':' && MayFollow(t, k) && r.skip(k) == colon
    ensures ReadAs(value, r, t, colon + 1) == ReadAs(value, r, t, v)
  {
    colon := SpacedAt(t, k, d.layout.colon);
    MayFollowSpacedChar(t, k, colon, ':');
    TextStartAt(d, value, t, v);
    ReadOver(r, t, k, colon);
    ReadOver(r, t, colon + 1, v);
    ReadSolid(r, t, v);
    ReadBehind(value, r, t, colon + 1, v);
  }

  lemma {:induction false} EntryTextReads(
    d: Dumper, key: SearchValue, value: SearchValue, r: Reader, t: string, i: nat, end: nat)
    requires Mirrors(r, t) && WellFormed(key) && d.CanPrint(key) && WellFormed(value) && d.CanPrint(value)
    requires StartsAt(t, i, d.MemberText(Entry(key, value))) && end == i + |d.MemberText(Entry(key, value))|
    requires MayFollow(t, end)
    ensures MemberReadAs(Entry(key, value), true, r, t, i) == Some(end)
    decreases Entry(key, value), 2
  {
    var k, v := EntrySplits(d, key, value, t, i);
    var colon := ColonReads(d, value, r, t, k, v);
    TextReads(d, key, r, t, i);
    TextReads(d, value, r, t, v);
    EntryJoins(key, value, r, t, i, k, colon, end);
  }

  lemma {:induction false} MemberTextReads(
    d: Dumper, m: Member, isObject: bool, r: Reader, t: string, i: nat, end: nat)
    requires Mirrors(r, t) && WellFormedMember(m, isObject) && d.CanPrintMember(m)
    requires StartsAt(t, i, d.MemberText(m)) && end == i + |d.MemberText(m)| && MayFollow(t, end)
    ensures MemberReadAs(m, isObject, r, t, i) == Some(end)
    decreases m, 3
  {
    if m.Entry? {
      EntryTextReads(d, m.key, m.value, r, t, i, end);
    } else {
      TextReads(d, m.value, r, t, i);
    }
  }

  /** Behind the first of several members the reader turns to the rest. */
  lemma {:induction false} CommaTurns(
    d: Dumper, rest: seq<Member>, isObject: bool, r: Reader, t: string, k: nat, next: nat)
    requires Mirrors(r, t) && rest != [] && WellFormedMember(rest[0], isObject)
    requires StartsAt(t, k, d.Comma()) && next == k + |d.Comma()| && StartsAt(t, next, d.MembersText(rest))
    ensures k <= |t| && MayFollow(t, k) && NextTurn(isObject, r, t, k) == Some(next)
  {
    var comma := SpacedAt(t, k, d.layout.comma);
    MayFollowSpacedChar(t, k, comma, ',');
    FirstStart(d, rest, isObject, t, next);
    ReadOver(r, t, k, comma);
    ReadOver(r, t, comma + 1, next);
  }

  lemma {:induction false} CloseTurns(r: Reader, isObject: bool, t: string, k: nat)
    requires Mirrors(r, t) && At(t, k, Close(isObject))
    ensures NextTurn(isObject, r, t, k) == Some(k) && MembersReadAs([], isObject, r, t, k) == Some(k + 1)
  {
    ReadSolid(r, t, k);
  }

  lemma {:induction false} OneTextReads(d: Dumper, m: Member, isObject: bool, r: Reader, t: string, i: nat, close: nat)
    requires Mirrors(r, t) && WellFormedMember(m, isObject) && d.CanPrintMember(m)
    requires StartsAt(t, i, d.MemberText(m)) && close == i + |d.MemberText(m)| && At(t, close, Close(isObject))
    ensures MembersReadAs([m], isObject, r, t, i) == Some(close + 1)
    decreases m, 4
  {
    MemberTextReads(d, m, isObject, r, t, i, close);
    CloseTurns(r, isObject, t, close);
    MembersUnfold(m, [], isObject, r, t, i);
    assert [m] == [m] + [];
  }

  lemma {:induction false} FirstReadsOn(
    d: Dumper, m: Member, rest: seq<Member>, isObject: bool, r: Reader, t: string, i: nat, k: nat, next: nat)
    requires Mirrors(r, t) && WellFormedMember(m, isObject) && d.CanPrintMember(m)
    requires StartsAt(t, i, d.MemberText(m)) && k == i + |d.MemberText(m)| && MayFollow(t, k) && next <= |t|
    requires NextTurn(isObject, r, t, k) == Some(next)
    ensures MembersReadAs([m] + rest, isObject, r, t, i) == MembersReadAs(rest, isObject, r, t, next)
    decreases m, 4
  {
    MemberTextReads(d, m, isObject, r, t, i, k);
    MembersUnfold(m, rest, isObject, r, t, i);
  }

  lemma {:induction false} FirstTextRead(
    d: Dumper, m: Member, rest: seq<Member>, isObject: bool, r: Reader, t: string, i: nat, k: nat, next: nat, end: nat)
    requires Mirrors(r, t) && WellFormedMember(m, isObject) && d.CanPrintMember(m)
    requires rest != [] && WellFormedMember(rest[0], isObject)
    requires StartsAt(t, i, d.MemberText(m)) && k == i + |d.MemberText(m)|
    requires StartsAt(t, k, d.Comma()) && next == k + |d.Comma()| && StartsAt(t, next, d.MembersText(rest))
    requires MembersReadAs(rest, isObject, r, t, next) == Some(end)
    ensures MembersReadAs([m] + rest, isObject, r, t, i) == Some(end)
    decreases m, 5
  {
    CommaTurns(d, rest, isObject, r, t, k, next);
    FirstReadsOn(d, m, rest, isObject, r, t, i, k, next);
  }

  lemma {:induction false} MembersTextRead(
    d: Dumper, members: seq<Member>, isObject: bool, r: Reader, t: string, i: nat, close: nat)
    requires Mirrors(r, t) && CanRead(d, members, isObject)
    requires StartsAt(t, i, d.MembersText(members)) && close == i + |d.MembersText(members)|
    requires At(t, close, Close(isObject))
    ensures MembersReadAs(members, isObject, r, t, i) == Some(close + 1)
    decreases members, 1
  {
    if members == [] {
    } else if |members| == 1 {
      assert members == [members[0]];
      OneTextReads(d, members[0], isObject, r, t, i, close);
    } else {
      assert members == [members[0]] + members[1..];
      SeveralTextRead(d, members, isObject, r, t, i, close);
    }
  }

  lemma {:induction false} SeveralTextRead(
    d: Dumper, members: seq<Member>, isObject: bool, r: Reader, t: string, i: nat, close: nat)
    requires Mirrors(r, t) && CanRead(d, members, isObject) && |members| > 1
    requires StartsAt(t, i, d.MembersText(members)) && close == i + |d.MembersText(members)|
    requires At(t, close, Close(isObject))
    ensures MembersReadAs([members[0]] + members[1..], isObject, r, t, i) == Some(close + 1)
    decreases members, 0
  {
    var k, next := FirstSplits(d, members, t, i);
    MembersTextRead(d, members[1..], isObject, r, t, next, close);
    FirstTextRead(d, members[0], members[1..], isObject, r, t, i, k, next, close + 1);
  }

  lemma {:induction false} TextParses(d: Dumper, v: SearchValue, r: Reader, t: string, i: nat, depth: nat)
    requires Mirrors(r, t) && WellFormed(v) && d.CanPrint(v) && depth <= MAX_NESTING_DEPTH
    requires StartsAt(t, i, d.Text(v)) && MayFollow(t, i + |d.Text(v)|)
    ensures LiteralAt(t, i, depth) == Limited(v, i + |d.Text(v)|, depth)
  {
    TextReads(d, v, r, t, i);
    ReadParses(v, r, t, i, depth, i + |d.Text(v)|);
  }

  /** A printed value parses back, wherever it stands, unless it nests too deeply. */
  lemma {:induction false} PrintedParses(d: Dumper, v: SearchValue, t: string, i: nat, depth: nat)
    requires WellFormed(v) && d.CanPrint(v) && depth <= MAX_NESTING_DEPTH
    requires StartsAt(t, i, d.Text(v)) && MayFollow(t, i + |d.Text(v)|)
    ensures LiteralAt(t, i, depth) ==
      if depth + Depth(v) <= MAX_NESTING_DEPTH then Parsed(v, i + |d.Text(v)|) else TooDeep
  {
    ParserReaderMirrors(t);
    TextParses(d, v, ParserReader(t), t, i, depth);
  }

  lemma {:induction false} PrintedTextParses(d: Dumper, v: SearchValue)
    requires WellFormed(v) && d.CanPrint(v)
    ensures LiteralAt(d.Text(v), 0, 0) ==
      if Depth(v) <= MAX_NESTING_DEPTH then Parsed(v, |d.Text(v)|) else TooDeep
  {
    PrintedParses(d, v, d.Text(v), 0, 0);
  }
}
