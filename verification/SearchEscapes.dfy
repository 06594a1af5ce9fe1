/**
  Backslashes: whatever characters the strings of a printed dictionary hold, escaped or left raw by saferepr, its text
  tokenizes and the clause finds each of its entries.
 */
module SearchEscapes {
  import opened Options
  import opened SearchText
  import opened SearchValue
  import opened SearchScalars
  import opened SearchRoundTrip
  import opened SearchShape
  import opened SearchPattern
  import opened SearchTokens
  import opened SearchFind
  import opened SearchReading
  import opened SearchClause
  import opened SearchComplete
  import opened SearchPrinted

  lemma {:induction false} TokensJoin(t: string, a: nat, b: nat, c: nat)
    requires TokensMatch(t, a, b) && TokensMatch(t, b, c)
    ensures TokensMatch(t, a, c)
    decreases b - a
  {
    if a < b {
      var m: nat :| a < m <= b && TokenMatches(t, a, m) && TokensMatch(t, m, b);
      TokensJoin(t, m, b, c);
    }
  }

  // ---- A printed string is one token ----

  /** A piece of a quoted string: whatever body follows at k, one starts at i. */
  ghost predicate Leads(t: string, i: nat, k: nat, quote: char) {
    i <= k <= |t| && forall j: nat {:trigger QuotedBody(t, k, j, quote)} ::
      j <= |t| && QuotedBody(t, k, j, quote) ==> QuotedBody(t, i, j, quote)
  }

  lemma {:induction false} LeadsOn(t: string, i: nat, m: nat, k: nat, quote: char)
    requires Leads(t, i, m, quote) && Leads(t, m, k, quote)
    ensures Leads(t, i, k, quote)
  {
  }

  lemma {:induction false} BodyLength(t: string, i: nat, j: nat, quote: char)
    requires j <= |t| && QuotedBody(t, i, j, quote)
    ensures i <= j
  {
  }

  lemma {:induction false} PlainLeads(t: string, i: nat, quote: char)
    requires i < |t| && t[i] != quote && t[i] != '\\'
    ensures Leads(t, i, i + 1, quote)
  {
    forall j: nat | j <= |t| && QuotedBody(t, i + 1, j, quote) ensures QuotedBody(t, i, j, quote) {
      BodyLength(t, i + 1, j, quote);
    }
  }

  lemma {:induction false} PairLeads(t: string, i: nat, quote: char)
    requires i + 1 < |t| && t[i] == '\\' && t[i + 1] != '\n'
    ensures Leads(t, i, i + 2, quote)
  {
    forall j: nat | j <= |t| && QuotedBody(t, i + 2, j, quote) ensures QuotedBody(t, i, j, quote) {
      BodyLength(t, i + 2, j, quote);
    }
  }

  /** saferepr's raw backslash. */
  lemma {:induction false} RawLeads(t: string, i: nat)
    requires i < |t| && t[i] == '\\'
    ensures Leads(t, i, i + 1, '\'')
  {
    forall j: nat | j <= |t| && QuotedBody(t, i + 1, j, '\'') ensures QuotedBody(t, i, j, '\'') {
      BodyLength(t, i + 1, j, '\'');
    }
  }

  lemma {:induction false} HexLeads(t: string, i: nat, k: nat, quote: char)
    requires i <= k <= |t| && IsQuote(quote) && forall n :: i <= n < k ==> IsHex(t[n])
    ensures Leads(t, i, k, quote)
    decreases k - i
  {
    if i < k {
      HexLeads(t, i + 1, k, quote);
      PlainLeads(t, i, quote);
      LeadsOn(t, i, i + 1, k, quote);
    }
  }

  /** A backslash, a letter and hexadecimal digits. */
  lemma {:induction false} HexEscapeLeads(t: string, i: nat, letter: char, code: nat, width: nat, quote: char)
    requires IsQuote(quote) && letter != '\n' && StartsAt(t, i, ['\\', letter] + HexText(code, width))
    ensures Leads(t, i, i + 2 + width, quote)
  {
    EscapeParts(t, i, letter, HexText(code, width));
    PairLeads(t, i, quote);
    var digits := HexText(code, width);
    forall n | i + 2 <= n < i + 2 + width ensures IsHex(t[n]) {
      assert t[i + 2 + (n - i - 2)] == digits[n - i - 2] && digits[n - i - 2] in digits;
    }
    HexLeads(t, i + 2, i + 2 + width, quote);
    LeadsOn(t, i, i + 2, i + 2 + width, quote);
  }

  lemma {:induction false} UnicodeLeads(t: string, i: nat, code: nat, quote: char)
    requires IsQuote(quote) && StartsAt(t, i, UnicodeEscape(code))
    ensures Leads(t, i, i + 6, quote)
  {
    assert "\\u" == ['\\', 'u'];
    HexEscapeLeads(t, i, 'u', code, 4, quote);
  }

  lemma {:induction false} AsciiLeads(t: string, i: nat, c: char, quote: char)
    requires IsQuote(quote) && StartsAt(t, i, AsciiEscape(c))
    ensures Leads(t, i, i + |AsciiEscape(c)|, quote)
  {
    if c as int < 0x10000 {
      UnicodeLeads(t, i, c as int, quote);
    } else {
      var high, low := 0xD800 + (c as int - 0x10000) / 0x400, 0xDC00 + (c as int - 0x10000) % 0x400;
      StartsAtSplit(t, i, UnicodeEscape(high), UnicodeEscape(low));
      UnicodeLeads(t, i, high, quote);
      UnicodeLeads(t, i + 6, low, quote);
      LeadsOn(t, i, i + 6, i + 12, quote);
    }
  }

  lemma {:induction false} PythonLeads(t: string, i: nat, c: char, quote: char)
    requires IsQuote(quote) && StartsAt(t, i, PythonEscape(c))
    ensures Leads(t, i, i + |PythonEscape(c)|, quote)
  {
    if c as int < 0x100 {
      assert "\\x" == ['\\', 'x'];
      HexEscapeLeads(t, i, 'x', c as int, 2, quote);
    } else if c as int < 0x10000 {
      UnicodeLeads(t, i, c as int, quote);
    } else {
      assert "\\U" == ['\\', 'U'];
      HexEscapeLeads(t, i, 'U', c as int, 8, quote);
    }
  }

  lemma {:induction false} ShortLeads(t: string, i: nat, e: string, quote: char)
    requires |e| == 2 && e[0] == '\\' && e[1] != '\n' && StartsAt(t, i, e)
    ensures Leads(t, i, i + 2, quote)
  {
    assert t[i + 0] == e[0] && t[i + 1] == e[1];
    PairLeads(t, i, quote);
  }

  lemma {:induction false} JsonLeads(t: string, i: nat, c: char, quote: char)
    requires IsQuote(quote) && JsonEscape(c).Some? && StartsAt(t, i, JsonEscape(c).value)
    ensures Leads(t, i, i + |JsonEscape(c).value|, quote)
  {
    var e := JsonEscape(c).value;
    if c == '\"' || c == '\\' || c == '\n' || c == '\r' || c == '\t' || c == '\U{c}' || c == '\U{8}' {
      ShortLeads(t, i, e, quote);
    } else {
      UnicodeLeads(t, i, c as int, quote);
    }
  }

  lemma {:induction false} OneLeads(t: string, i: nat, c: char, quote: char)
    requires StartsAt(t, i, [c]) && c != quote && c != '\\'
    ensures Leads(t, i, i + 1, quote)
  {
    StartsAtChar(t, i, c);
    PlainLeads(t, i, quote);
  }

  lemma {:induction false} ReprLeads(p: Printer, nonprintable: char -> bool, c: char, t: string, i: nat)
    requires p.Valid() && p.style.Repr? && StartsAt(t, i, PrintChar(p, nonprintable, c))
    ensures Leads(t, i, i + |PrintChar(p, nonprintable, c)|, p.quote)
  {
    if c == '\\' || c == p.quote || c == '\n' || c == '\r' || c == '\t' {
      ShortLeads(t, i, PrintChar(p, nonprintable, c), p.quote);
    } else if nonprintable(c) {
      PythonLeads(t, i, c, p.quote);
    } else {
      OneLeads(t, i, c, p.quote);
    }
  }

  /** Each printed character is a piece of a quoted string. */
  lemma {:induction false} CharLeads(p: Printer, nonprintable: char -> bool, c: char, t: string, i: nat)
    requires p.Valid() && StartsAt(t, i, PrintChar(p, nonprintable, c))
    ensures Leads(t, i, i + |PrintChar(p, nonprintable, c)|, p.quote)
  {
    match p.style
    case Repr => ReprLeads(p, nonprintable, c, t, i);
    case SafeRepr =>
      if c == '\'' {
        ShortLeads(t, i, "\\'", '\'');
      } else if c == '\\' {
        StartsAtChar(t, i, c);
        RawLeads(t, i);
      } else {
        OneLeads(t, i, c, p.quote);
      }
    case _ =>
      if JsonEscape(c).Some? {
        JsonLeads(t, i, c, p.quote);
      } else if p.style.AsciiJson? && c as int > 0x7E {
        AsciiLeads(t, i, c, p.quote);
      } else {
        OneLeads(t, i, c, p.quote);
      }
  }

  lemma {:induction false} BodyLeads(p: Printer, nonprintable: char -> bool, s: string, t: string, i: nat)
    requires p.Valid() && StartsAt(t, i, PrintBody(Encoder(p, nonprintable), s))
    ensures Leads(t, i, i + |PrintBody(Encoder(p, nonprintable), s)|, p.quote)
    decreases |s|
  {
    if s != "" {
      var next := BodySplit(Encoder(p, nonprintable), s, t, i);
      CharLeads(p, nonprintable, s[0], t, i);
      BodyLeads(p, nonprintable, s[1..], t, next);
      LeadsOn(t, i, next, i + |PrintBody(Encoder(p, nonprintable), s)|, p.quote);
    }
  }

  /** A printed string is a quoted token, also where saferepr leaves backslashes raw. */
  lemma {:induction false} PrintIsToken(p: Printer, nonprintable: char -> bool, s: string, t: string, i: nat)
    requires p.Valid() && StartsAt(t, i, Print(p, nonprintable, s))
    ensures QuotedMatches(t, i, i + |Print(p, nonprintable, s)|)
  {
    var body := PrintBody(Encoder(p, nonprintable), s);
    QuotedSplit(t, i, p.quote, body);
    BodyLeads(p, nonprintable, s, t, i + 1);
    assert QuotedBody(t, i + 1 + |body|, i + 1 + |body|, p.quote);
  }

  lemma {:induction false} StringIsPrint(d: Dumper, s: string) returns (p: Printer, nonprintable: char -> bool)
    ensures p.Valid() && d.Text(Str(s)) == Print(p, nonprintable, s)
  {
    nonprintable := (c: char) => false;
    match d.layout.style
    case Json => p := Printer(Json, '\"');
    case AsciiJson => p := Printer(AsciiJson, '\"');
    case Repr =>
      p, nonprintable := Printer(Repr, ReprQuote(s)), d.nonprintable;
      PythonReprIsPrint(nonprintable, s);
    case SafeRepr =>
      p := Printer(SafeRepr, '\'');
      SafeReprBody(nonprintable, s);
  }

  lemma {:induction false} StringTokens(d: Dumper, s: string, t: string, i: nat)
    requires StartsAt(t, i, d.Text(Str(s)))
    ensures TokensMatch(t, i, i + |d.Text(Str(s))|)
  {
    var p, nonprintable := StringIsPrint(d, s);
    PrintIsToken(p, nonprintable, s, t, i);
    var j := i + |d.Text(Str(s))|;
    assert TokenMatches(t, i, j) && TokensMatch(t, j, j);
  }

  // ---- A printed value is tokens ----

  predicate IsPlain(c: char) {
    !IsQuote(c) && c != '\\'
  }

  lemma {:induction false} PlainText(t: string, i: nat, s: string)
    requires StartsAt(t, i, s) && forall c <- s :: IsPlain(c)
    ensures TokensMatch(t, i, i + |s|)
  {
    forall k | i <= k < i + |s| ensures !IsQuote(t[k]) && t[k] != '\\' {
      assert t[i + (k - i)] == s[k - i] && s[k - i] in s;
    }
    PlainTokens(t, i, i + |s|);
  }

  lemma {:induction false} SpacesTokens(t: string, i: nat, j: nat)
    requires OnlySpaces(t, i, j)
    ensures TokensMatch(t, i, j)
  {
    forall k | i <= k < j ensures !IsQuote(t[k]) && t[k] != '\\' {
      assert IsSpace(t[k]);
    }
    PlainTokens(t, i, j);
  }

  lemma {:induction false} MarkTokens(t: string, i: nat)
    requires i < |t| && IsPlain(t[i])
    ensures TokensMatch(t, i, i + 1)
  {
    PlainTokens(t, i, i + 1);
  }

  lemma {:induction false} SpacedTokens(t: string, i: nat, s: Spaced)
    requires StartsAt(t, i, s.Text()) && s.Valid() && IsPlain(s.mark)
    ensures TokensMatch(t, i, i + |s.Text()|)
  {
    var at := SpacedAt(t, i, s);
    SpacesTokens(t, i, at);
    MarkTokens(t, at);
    SpacesTokens(t, at + 1, i + |s.Text()|);
    TokensJoin(t, i, at, at + 1);
    TokensJoin(t, i, at + 1, i + |s.Text()|);
  }

  lemma {:induction false} NumberPlain(n: string)
    requires WellFormed(Num(n))
    ensures forall c <- n :: IsPlain(c)
  {
    NumberNumeric(n, 0);
  }

  lemma {:induction false} WordPlain(d: Dumper, v: SearchValue)
    requires v.Bool? || v.Null?
    ensures forall c <- d.Text(v) :: IsPlain(c)
  {
    if v.Bool? {
      LettersOf(d.Text(v), if v.truth then "true" else "false");
    } else {
      assert d.layout.none == "None" || d.layout.none == "null";
    }
  }

  lemma {:induction false} TextTokens(d: Dumper, v: SearchValue, t: string, i: nat)
    requires WellFormed(v) && StartsAt(t, i, d.Text(v))
    ensures TokensMatch(t, i, i + |d.Text(v)|)
    decreases v, 1
  {
    match v
    case Str(text) => StringTokens(d, text, t, i);
    case Num(spelling) =>
      NumberPlain(spelling);
      PlainText(t, i, spelling);
    case Bool(_) =>
      WordPlain(d, v);
      PlainText(t, i, d.Text(v));
    case Null =>
      WordPlain(d, v);
      PlainText(t, i, d.Text(v));
    case Collection(isObject, members) => CollectionTokens(d, isObject, members, t, i);
  }

  lemma {:induction false} CollectionTokens(d: Dumper, isObject: bool, members: seq<Member>, t: string, i: nat)
    requires forall m <- members :: WellFormedMember(m, isObject)
    requires StartsAt(t, i, d.Text(Collection(isObject, members)))
    ensures TokensMatch(t, i, i + |d.Text(Collection(isObject, members))|)
    decreases Collection(isObject, members), 0
  {
    var close := i + 1 + |d.MembersText(members)|;
    BracketsSplit(d, isObject, members, t, i);
    MarkTokens(t, i);
    AllFit(members, isObject);
    MembersTokens(d, members, isObject, t, i + 1);
    MarkTokens(t, close);
    TokensJoin(t, i, i + 1, close);
    TokensJoin(t, i, close, close + 1);
  }

  /** Each member fits its collection. */
  ghost predicate Fit(members: seq<Member>, isObject: bool) {
    members != [] ==> WellFormedMember(members[0], isObject) && Fit(members[1..], isObject)
  }

  lemma {:induction false} AllFit(members: seq<Member>, isObject: bool)
    requires forall m <- members :: WellFormedMember(m, isObject)
    ensures Fit(members, isObject)
  {
    if members != [] { AllFit(members[1..], isObject); }
  }

  lemma {:induction false} MemberTokens(d: Dumper, m: Member, isObject: bool, t: string, i: nat)
    requires WellFormedMember(m, isObject) && StartsAt(t, i, d.MemberText(m))
    ensures TokensMatch(t, i, i + |d.MemberText(m)|)
    decreases m, 2
  {
    if m.Entry? {
      var k, v := EntrySplits(d, m.key, m.value, t, i);
      TextTokens(d, m.key, t, i);
      SpacedTokens(t, k, d.layout.colon);
      TextTokens(d, m.value, t, v);
      TokensJoin(t, i, k, v);
      TokensJoin(t, i, v, i + |d.MemberText(m)|);
    } else {
      TextTokens(d, m.value, t, i);
    }
  }

  lemma {:induction false} MembersTokens(d: Dumper, members: seq<Member>, isObject: bool, t: string, i: nat)
    requires Fit(members, isObject) && StartsAt(t, i, d.MembersText(members))
    ensures TokensMatch(t, i, i + |d.MembersText(members)|)
    decreases members, 0
  {
    if members == [] {
    } else if |members| == 1 {
      MemberTokens(d, members[0], isObject, t, i);
    } else {
      var k, next := FirstSplits(d, members, t, i);
      MemberTokens(d, members[0], isObject, t, i);
      SpacedTokens(t, k, d.layout.comma);
      MembersTokens(d, members[1..], isObject, t, next);
      TokensJoin(t, i, k, next);
      TokensJoin(t, i, next, i + |d.MembersText(members)|);
    }
  }

  // ---- Every entry has its place ----

  /** A delimiter at x, the entry's text at p, and what separates or closes behind it at b. */
  datatype Place = Place(x: nat, p: nat, b: nat)

  ghost predicate IsPlace(d: Dumper, t: string, m: Member, at: Place) {
    && at.x < |t| && IsDelimiter(t[at.x]) && OnlySpaces(t, at.x + 1, at.p)
    && StartsAt(t, at.p, d.MemberText(m)) && OnlySpaces(t, at.p + |d.MemberText(m)|, at.b)
    && at.b < |t| && (t[at.b] == ',' || t[at.b] == '}')
  }

  /** A way of tokens leads on from the start, and back from the end. */
  ghost predicate Hop(on: nat -> bool, off: nat -> bool, i: nat, j: nat) {
    (on(i) ==> on(j)) && (off(j) ==> off(i))
  }

  /** What the start reaches and what reaches the end, token by token; kept abstract while places are found. */
  ghost predicate Bounds(t: string, on: nat -> bool, off: nat -> bool) {
    forall i: nat, j: nat {:trigger Hop(on, off, i, j)} :: TokensMatch(t, i, j) ==> Hop(on, off, i, j)
  }

  lemma {:induction false} HopSpaces(t: string, on: nat -> bool, off: nat -> bool, i: nat, j: nat)
    requires Bounds(t, on, off) && OnlySpaces(t, i, j)
    ensures Hop(on, off, i, j)
  {
    SpacesTokens(t, i, j);
    assert Hop(on, off, i, j);
  }

  lemma {:induction false} HopMark(t: string, on: nat -> bool, off: nat -> bool, i: nat)
    requires Bounds(t, on, off) && i < |t| && IsPlain(t[i])
    ensures Hop(on, off, i, i + 1)
  {
    MarkTokens(t, i);
    assert Hop(on, off, i, i + 1);
  }

  lemma {:induction false} HopText(d: Dumper, v: SearchValue, t: string, on: nat -> bool, off: nat -> bool, i: nat)
    requires Bounds(t, on, off) && WellFormed(v) && StartsAt(t, i, d.Text(v))
    ensures Hop(on, off, i, i + |d.Text(v)|)
  {
    TextTokens(d, v, t, i);
    assert Hop(on, off, i, i + |d.Text(v)|);
  }

  lemma {:induction false} HopMember(
    d: Dumper, m: Member, isObject: bool, t: string, on: nat -> bool, off: nat -> bool, i: nat)
    requires Bounds(t, on, off) && WellFormedMember(m, isObject) && StartsAt(t, i, d.MemberText(m))
    ensures Hop(on, off, i, i + |d.MemberText(m)|)
  {
    MemberTokens(d, m, isObject, t, i);
    assert Hop(on, off, i, i + |d.MemberText(m)|);
  }

  lemma {:induction false} HopMembers(
    d: Dumper, members: seq<Member>, isObject: bool, t: string, on: nat -> bool, off: nat -> bool, i: nat)
    requires Bounds(t, on, off) && Fit(members, isObject) && StartsAt(t, i, d.MembersText(members))
    ensures Hop(on, off, i, i + |d.MembersText(members)|)
  {
    MembersTokens(d, members, isObject, t, i);
    assert Hop(on, off, i, i + |d.MembersText(members)|);
  }

  ghost predicate IsOn(on: nat -> bool, off: nat -> bool, at: Place) {
    on(at.x) && off(at.b + 1)
  }

  lemma {:induction false} PlaceInText(
    d: Dumper, v: SearchValue, t: string, on: nat -> bool, off: nat -> bool, i: nat, m: Member) returns (at: Place)
    requires Bounds(t, on, off) && WellFormed(v) && StartsAt(t, i, d.Text(v)) && m.Entry? && HasEntry(v, m)
    requires on(i) && off(i + |d.Text(v)|)
    ensures IsPlace(d, t, m, at) && IsOn(on, off, at)
    decreases v, 1
  {
    BracketsSplit(d, v.isObject, v.members, t, i);
    HopMark(t, on, off, i);
    AllFit(v.members, v.isObject);
    at := PlaceInMembers(d, v.members, v.isObject, t, on, off, i, i + 1, i + 1 + |d.MembersText(v.members)|, m);
  }

  lemma {:induction false} EntryHops(
    d: Dumper, key: SearchValue, value: SearchValue, t: string, on: nat -> bool, off: nat -> bool, i: nat)
    returns (k: nat, v: nat)
    requires Bounds(t, on, off) && WellFormed(key) && WellFormed(value)
    requires StartsAt(t, i, d.MemberText(Entry(key, value)))
    requires on(i) && off(i + |d.MemberText(Entry(key, value))|)
    ensures k == i + |d.Text(key)| && v + |d.Text(value)| == i + |d.MemberText(Entry(key, value))|
    ensures StartsAt(t, i, d.Text(key)) && StartsAt(t, v, d.Text(value)) && off(k) && on(v)
  {
    k, v := EntrySplits(d, key, value, t, i);
    HopText(d, key, t, on, off, i);
    SpacedTokens(t, k, d.layout.colon);
    assert Hop(on, off, k, v);
    HopText(d, value, t, on, off, v);
  }

  lemma {:induction false} PlaceInMember(
    d: Dumper, n: Member, isObject: bool, t: string, on: nat -> bool, off: nat -> bool, i: nat, m: Member)
    returns (at: Place)
    requires Bounds(t, on, off) && WellFormedMember(n, isObject) && StartsAt(t, i, d.MemberText(n))
    requires m.Entry? && MemberHas(n, m) && on(i) && off(i + |d.MemberText(n)|)
    ensures IsPlace(d, t, m, at) && IsOn(on, off, at)
    decreases n, 2
  {
    if n.Item? {
      at := PlaceInText(d, n.value, t, on, off, i, m);
    } else {
      var k, v := EntryHops(d, n.key, n.value, t, on, off, i);
      if HasEntry(n.key, m) {
        at := PlaceInText(d, n.key, t, on, off, i, m);
      } else {
        at := PlaceInText(d, n.value, t, on, off, v, m);
      }
    }
  }

  /** x is the bracket or comma in front of what stands at i, and the start reaches both. */
  ghost predicate Precedes(t: string, on: nat -> bool, isObject: bool, x: nat, i: nat) {
    x < |t| && (isObject ==> IsDelimiter(t[x])) && OnlySpaces(t, x + 1, i) && on(x) && on(i)
  }

  /** Behind a member that ends at k stands a comma or the closing bracket, and the end is reached from behind it. */
  ghost predicate Follows(t: string, off: nat -> bool, isObject: bool, k: nat, mark: nat) {
    OnlySpaces(t, k, mark) && mark < |t| && (t[mark] == ',' || t[mark] == Close(isObject)) && off(mark + 1)
  }

  lemma {:induction false} PlaceHere(
    d: Dumper, n: Member, isObject: bool, t: string, on: nat -> bool, off: nat -> bool, x: nat, i: nat, mark: nat,
    m: Member) returns (at: Place)
    requires Bounds(t, on, off) && WellFormedMember(n, isObject) && StartsAt(t, i, d.MemberText(n))
    requires Precedes(t, on, isObject, x, i) && Follows(t, off, isObject, i + |d.MemberText(n)|, mark)
    requires m.Entry? && (n == m || MemberHas(n, m))
    ensures IsPlace(d, t, m, at) && IsOn(on, off, at)
    decreases n, 3
  {
    if n == m {
      at := Place(x, i, mark);
    } else {
      HopMark(t, on, off, mark);
      HopSpaces(t, on, off, i + |d.MemberText(n)|, mark);
      at := PlaceInMember(d, n, isObject, t, on, off, i, m);
    }
  }

  /** The comma behind the first of several members. */
  lemma {:induction false} CommaPlace(
    d: Dumper, members: seq<Member>, isObject: bool, t: string, on: nat -> bool, off: nat -> bool, x: nat, i: nat,
    close: nat) returns (mark: nat, next: nat)
    requires Bounds(t, on, off) && Fit(members, isObject) && |members| > 1 && StartsAt(t, i, d.MembersText(members))
    requires close == i + |d.MembersText(members)| && At(t, close, Close(isObject)) && off(close + 1)
    requires Precedes(t, on, isObject, x, i)
    ensures StartsAt(t, i, d.MemberText(members[0])) && Follows(t, off, isObject, i + |d.MemberText(members[0])|, mark)
    ensures StartsAt(t, next, d.MembersText(members[1..])) && next + |d.MembersText(members[1..])| == close
    ensures Precedes(t, on, isObject, mark, next)
  {
    var k;
    k, next := FirstSplits(d, members, t, i);
    mark := SpacedAt(t, k, d.layout.comma);
    HopMember(d, members[0], isObject, t, on, off, i);
    HopSpaces(t, on, off, k, mark);
    HopMark(t, on, off, mark);
    HopSpaces(t, on, off, mark + 1, next);
    HopMembers(d, members[1..], isObject, t, on, off, next);
    HopMark(t, on, off, close);
  }

  lemma {:induction false} PlaceInMembers(
    d: Dumper, members: seq<Member>, isObject: bool, t: string, on: nat -> bool, off: nat -> bool, x: nat, i: nat,
    close: nat, m: Member) returns (at: Place)
    requires Bounds(t, on, off) && Fit(members, isObject) && StartsAt(t, i, d.MembersText(members))
    requires close == i + |d.MembersText(members)| && At(t, close, Close(isObject)) && off(close + 1)
    requires Precedes(t, on, isObject, x, i) && m.Entry? && MembersHave(members, m)
    ensures IsPlace(d, t, m, at) && IsOn(on, off, at)
    decreases members, 0
  {
    if |members| == 1 {
      at := PlaceHere(d, members[0], isObject, t, on, off, x, i, close, m);
    } else {
      var mark, next := CommaPlace(d, members, isObject, t, on, off, x, i, close);
      if members[0] == m || MemberHas(members[0], m) {
        at := PlaceHere(d, members[0], isObject, t, on, off, x, i, mark, m);
      } else {
        at := PlaceInMembers(d, members[1..], isObject, t, on, off, mark, next, close, m);
      }
    }
  }

  // ---- The clause ----

  lemma {:induction false} BoundsOf(t: string) returns (on: nat -> bool, off: nat -> bool)
    ensures Bounds(t, on, off)
    ensures forall i: nat :: (on(i) <==> TokensMatch(t, 0, i)) && (off(i) <==> TokensMatch(t, i, |t|))
  {
    on, off := (i: nat) => TokensMatch(t, 0, i), (i: nat) => TokensMatch(t, i, |t|);
    forall i: nat, j: nat | TokensMatch(t, i, j) ensures Hop(on, off, i, j) {
      if on(i) { TokensJoin(t, 0, i, j); }
      if off(j) { TokensJoin(t, i, j, |t|); }
    }
  }

  lemma {:induction false} PlaceMatches(d: Dumper, key: string, value: SearchValue, t: string, at: Place)
    requires IsPlace(d, t, Entry(Str(key), value), at)
    ensures MatchesAt(KeyValuePattern(d.nonprintable, key, value), t, at.x + 1, at.b)
  {
    var m := Entry(Str(key), value);
    var q := at.p + |d.MemberText(m)|;
    var entry := EntryPattern(StringPattern(d.nonprintable, key), PatternOf(d.nonprintable, value));
    MemberTextMatches(d, m, t, at.p);
    assert MemberPattern(d.nonprintable, m) == entry;
    assert MatchesAt(Spaces, t, q, at.b) && MatchesAt(Spaces, t, at.x + 1, at.p);
    assert MatchesAt(Then(entry, Spaces), t, at.p, at.b);
  }

  /** The clause of every entry matches the text, whatever characters its strings hold and however deep it stands. */
  lemma {:induction false} PrintedEntryFound(d: Dumper, v: SearchValue, key: string, value: SearchValue)
    requires WellFormed(v) && HasEntry(v, Entry(Str(key), value))
    ensures KwargsClause(KeyValuePattern(d.nonprintable, key, value), d.Text(v))
  {
    var t := d.Text(v);
    var on, off := BoundsOf(t);
    assert TokensMatch(t, 0, 0) && TokensMatch(t, |t|, |t|);
    var at := PlaceInText(d, v, t, on, off, 0, Entry(Str(key), value));
    PlaceMatches(d, key, value, t, at);
    assert StrictAt(KeyValuePattern(d.nonprintable, key, value), t, at.x, at.x + 1, at.b);
    StrictIsLenient(KeyValuePattern(d.nonprintable, key, value), t);
  }

  /** So does the clause of an entry that is the whole text, without the braces of a dictionary. */
  lemma {:induction false} BareEntryFound(d: Dumper, key: string, value: SearchValue)
    ensures KwargsClause(KeyValuePattern(d.nonprintable, key, value), d.MemberText(Entry(Str(key), value)))
  {
    var m := Entry(Str(key), value);
    var t := d.MemberText(m);
    var entry := EntryPattern(StringPattern(d.nonprintable, key), PatternOf(d.nonprintable, value));
    MemberTextMatches(d, m, t, 0);
    assert MemberPattern(d.nonprintable, m) == entry;
    assert MatchesAt(Spaces, t, |t|, |t|) && MatchesAt(Spaces, t, 0, 0);
    assert MatchesAt(Then(entry, Spaces), t, 0, |t|);
    assert StrictAt(KeyValuePattern(d.nonprintable, key, value), t, 0, 0, |t|);
    StrictIsLenient(KeyValuePattern(d.nonprintable, key, value), t);
  }

  // ---- Texts that are no printed values ----

  ghost predicate IsBytes(t: string, p: nat, s: string, end: nat) {
    StartsAt(t, p + 1, CelerySafeRepr(s)) && end == p + 1 + |CelerySafeRepr(s)|
  }

  /** t[x] is one of `:,[({`, and `<` or a bytes literal of a string stands behind it and white space at p. */
  ghost predicate IsMarked(t: string, x: nat, p: nat, end: nat) {
    && x < |t| && t[x] in ":,[({" && OnlySpaces(t, x + 1, p) && p < |t|
    && ((t[p] == '<' && end == p + 1) || (t[p] == 'b' && exists s: string :: IsBytes(t, p, s, end)))
  }

  /** With a custom repr or a bytes literal where a value can stand, the key matches behind any delimiter. */
  lemma {:induction false} MarkedIsLenient(keyValue: Regex, t: string, x: nat, p: nat, end: nat)
    requires IsMarked(t, x, p, end) && TokensMatch(t, 0, x) && TokensMatch(t, end, |t|)
    ensures KwargsClause(keyValue, t) <==> Lenient(keyValue, t)
  {
    if t[p] == 'b' && t[p] != '<' {
      var s: string :| IsBytes(t, p, s, end);
      SafeReprBody((c: char) => false, s);
      PrintIsToken(Printer(SafeRepr, '\''), (c: char) => false, s, t, p + 1);
    }
    assert MarkerMatches(t, p, end);
    assert MalformedAt(t, x, p, end);
  }

  /** So it does where a quote is left open, as in a text that was cut. */
  lemma {:induction false} OpenQuoteIsLenient(keyValue: Regex, t: string, x: nat)
    requires NoBackslash(t) && TokensMatch(t, 0, x) && x < |t| && IsQuote(t[x]) && t[x] !in t[x + 1..]
    ensures KwargsClause(keyValue, t) <==> Lenient(keyValue, t)
  {
    NoQuoteEnd(t, x + 1, t[x]);
    if Tokenizes(t) {
      TokensPath(t, 0, x);
      TokensPath(t, 0, |t|);
      PathRest(t, Any, 0, x, |t|);
    }
  }

  lemma {:induction false} NoQuoteEnd(t: string, i: nat, quote: char)
    requires i <= |t| && quote !in t[i..]
    ensures QuoteEnd(t, i, quote).None?
    decreases |t| - i
  {
    if i < |t| {
      assert t[i] in t[i..];
      assert t[i + 1..] == t[i..][1..];
      NoQuoteEnd(t, i + 1, quote);
    }
  }

  /** The lenient match finds an entry behind any `{` or `,`, in front of `,`, `}` or the end. */
  lemma {:induction false} EntryFoundLeniently(d: Dumper, key: string, value: SearchValue, t: string, x: nat, end: nat)
    requires x < |t| && (t[x] == '{' || t[x] == ',') && StartsAt(t, x + 1, d.MemberText(Entry(Str(key), value)))
    requires end == x + 1 + |d.MemberText(Entry(Str(key), value))| && (end == |t| || t[end] == ',' || t[end] == '}')
    ensures Lenient(KeyValuePattern(d.nonprintable, key, value), t)
  {
    var m := Entry(Str(key), value);
    var entry := EntryPattern(StringPattern(d.nonprintable, key), PatternOf(d.nonprintable, value));
    MemberTextMatches(d, m, t, x + 1);
    assert MemberPattern(d.nonprintable, m) == entry;
    assert MatchesAt(Spaces, t, end, end) && MatchesAt(Spaces, t, x + 1, x + 1);
    assert MatchesAt(Then(entry, Spaces), t, x + 1, end);
    assert LenientAt(KeyValuePattern(d.nonprintable, key, value), t, x, x + 1, end);
  }
}
