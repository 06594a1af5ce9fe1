/** The literal parser of server/tasks/task_search.py, as a recursive reading and as the source's loops. */
module SearchParser {
  import opened Options
  import opened SearchText
  import opened SearchValue
  import opened SearchScalars

  const MAX_NESTING_DEPTH := 64

  // ---- Nesting ----

  function Depth(v: SearchValue): nat
    decreases v, 1
  {
    if v.Collection? then 1 + MembersDepth(v.members) else 0
  }

  function MembersDepth(members: seq<Member>): nat
    decreases members, 0
  {
    if members == [] then 0 else Max(MemberDepth(members[0]), MembersDepth(members[1..]))
  }

  function MemberDepth(m: Member): nat
    decreases m, 2
  {
    if m.Item? then Depth(m.value) else Max(Depth(m.key), Depth(m.value))
  }

  function Max(a: nat, b: nat): nat { if a > b then a else b }

  // ---- What the parser reads ----

  datatype MemberParse = MemberTooDeep | NoMember | ParsedMember(member: Member, end: nat)
  datatype MembersParse = MembersTooDeep | NoMembers | ParsedMembers(members: seq<Member>, end: nat)

  /** parse_literal: what is read at `start`, with the nesting limit across the mutual recursion. */
  function LiteralAt(t: string, start: nat, depth: nat): (r: Parse)
    requires start <= |t|
    ensures r.Parsed? ==> start < r.end <= |t|
    ensures r.Parsed? && depth <= MAX_NESTING_DEPTH ==> depth + Depth(r.value) <= MAX_NESTING_DEPTH
    decreases |t| - start, 3
  {
    var i := SkipSpace(t, start);
    if i == |t| then NoLiteral
    else if t[i] == '[' || t[i] == '{' then CollectionAt(t, i, depth + 1)
    else ScalarAt(t, i)
  }

  /** parse_container at its opening bracket. */
  function CollectionAt(t: string, i: nat, depth: nat): (r: Parse)
    requires i < |t|
    requires t[i] == '[' || t[i] == '{'
    ensures r.Parsed? ==> i < r.end <= |t| && r.value.Collection?
    ensures r.Parsed? ==> depth <= MAX_NESTING_DEPTH && depth + Depth(r.value) <= MAX_NESTING_DEPTH + 1
    decreases |t| - i, 2
  {
    if depth > MAX_NESTING_DEPTH then TooDeep
    else
      var isObject := t[i] == '{';
      match MembersAt(t, SkipSpace(t, i + 1), depth, isObject)
      case MembersTooDeep => TooDeep
      case NoMembers => NoLiteral
      case ParsedMembers(members, end) => Parsed(Collection(isObject, members), end)
  }

  /** Behind a member: past a comma, or at the closing bracket. A comma may stand right before that bracket. */
  function Separator(t: string, end: nat, isObject: bool): (r: Option<nat>)
    requires end <= |t|
    ensures r.Some? ==> end <= r.value <= |t|
  {
    var j := SkipSpace(t, end);
    if At(t, j, ',') then Some(SkipSpace(t, j + 1))
    else if At(t, j, Close(isObject)) then Some(j)
    else None
  }

  /** The loop of parse_container from the head of a turn to behind the closing bracket. */
  function MembersAt(t: string, i: nat, depth: nat, isObject: bool): (r: MembersParse)
    requires i <= |t|
    ensures r.ParsedMembers? ==> i < r.end <= |t|
    ensures r.ParsedMembers? && depth <= MAX_NESTING_DEPTH ==> depth + MembersDepth(r.members) <= MAX_NESTING_DEPTH
    decreases |t| - i, 6
  {
    if At(t, i, Close(isObject)) then ParsedMembers([], i + 1)
    else
      match TurnAt(t, i, depth, isObject)
      case MemberTooDeep => MembersTooDeep
      case NoMember => NoMembers
      case ParsedMember(member, next) => Prepend(member, MembersAt(t, next, depth, isObject))
  }

  /** One turn of the loop: a member and what separates it from the next; `end` is where the next turn starts. */
  function TurnAt(t: string, i: nat, depth: nat, isObject: bool): (r: MemberParse)
    requires i <= |t|
    ensures r.ParsedMember? ==> i < r.end <= |t|
    ensures r.ParsedMember? && depth <= MAX_NESTING_DEPTH ==> depth + MemberDepth(r.member) <= MAX_NESTING_DEPTH
    decreases |t| - i, 5
  {
    var p := MemberAt(t, i, depth, isObject);
    if !p.ParsedMember? then p
    else
      match Separator(t, p.end, isObject)
      case None => NoMember
      case Some(next) => ParsedMember(p.member, next)
  }

  function Prepend(member: Member, rest: MembersParse): MembersParse {
    if rest.ParsedMembers? then ParsedMembers([member] + rest.members, rest.end) else rest
  }

  /** One item, or one key, colon and value. */
  function MemberAt(t: string, i: nat, depth: nat, isObject: bool): (r: MemberParse)
    requires i <= |t|
    ensures r.ParsedMember? ==> i < r.end <= |t|
    ensures r.ParsedMember? && depth <= MAX_NESTING_DEPTH ==> depth + MemberDepth(r.member) <= MAX_NESTING_DEPTH
    decreases |t| - i, 4
  {
    match LiteralAt(t, i, depth)
    case TooDeep => MemberTooDeep
    case NoLiteral => NoMember
    case Parsed(key, end) =>
      if !isObject then ParsedMember(Item(key), end)
      else
        var colon := SkipSpace(t, end);
        if !At(t, colon, ':') then NoMember
        else
          match LiteralAt(t, colon + 1, depth)
          case TooDeep => MemberTooDeep
          case NoLiteral => NoMember
          case Parsed(value, end) => ParsedMember(Entry(key, value), end)
  }

  // ---- The parser as the source runs it ----

  datatype Literal = Literal(pattern: Regex, end: nat, value: SearchValue)

  /** A literal, None, or a raised NestingLimitError. */
  datatype LiteralResult = NestingLimit | Nothing | Found(literal: Literal)

  function Described(nonprintable: char -> bool, p: Parse): LiteralResult {
    match p
    case TooDeep => NestingLimit
    case NoLiteral => Nothing
    case Parsed(value, end) => Found(Literal(PatternOf(nonprintable, value), end, value))
  }

  function Resume(decoded: string, rest: Option<Piece>): Option<Piece> {
    if rest.Some? then Some(Piece(decoded + rest.value.text, rest.value.end)) else None
  }

  lemma {:induction false} ResumeStep(decoded: string, text: string, index: nat, quote: char)
    requires index < |text| && text[index] != quote
    ensures Resume(decoded, Unquote(text, index, quote)) ==
      match DecodeUnit(text, index)
      case None => None
      case Some(unit) => Resume(decoded + unit.text, Unquote(text, unit.end, quote))
  {
    var unit := DecodeUnit(text, index);
    if unit.Some? {
      var rest := Unquote(text, unit.value.end, quote);
      if rest.Some? {
        assert decoded + (unit.value.text + rest.value.text) == (decoded + unit.value.text) + rest.value.text;
      }
    }
  }

  lemma {:induction false} ResumeStart(rest: Option<Piece>)
    ensures Resume("", rest) == rest
  {
    if rest.Some? { assert "" + rest.value.text == rest.value.text; }
  }

  method ParseQuoted(nonprintable: char -> bool, text: string, start: nat) returns (r: LiteralResult)
    requires start < |text|
    ensures r == Described(nonprintable, QuotedAt(text, start))
  {
    var quote := text[start];
    var decoded := "";
    var index := start + 1;
    ghost var whole := Unquote(text, start + 1, quote);
    ResumeStart(whole);
    while index < |text|
      invariant start < index <= |text|
      invariant whole == Resume(decoded, Unquote(text, index, quote))
    {
      if text[index] == quote {
        assert decoded + "" == decoded;
        return Found(Literal(StringPattern(nonprintable, decoded), index + 1, Str(decoded)));
      }
      ResumeStep(decoded, text, index, quote);
      var unit := DecodeUnit(text, index);
      if unit.None? {
        return Nothing;
      }
      decoded := decoded + unit.value.text;
      index := unit.value.end;
    }
    r := Nothing;
  }

  function PrependAll(members: seq<Member>, rest: MembersParse): MembersParse {
    if rest.ParsedMembers? then ParsedMembers(members + rest.members, rest.end) else rest
  }

  lemma {:induction false} PrependAllStep(members: seq<Member>, m: Member, rest: MembersParse)
    ensures PrependAll(members, Prepend(m, rest)) == PrependAll(members + [m], rest)
  {
    if rest.ParsedMembers? {
      assert members + ([m] + rest.members) == (members + [m]) + rest.members;
    }
  }

  lemma {:induction false} PrependAllStart(rest: MembersParse)
    ensures PrependAll([], rest) == rest
  {
    if rest.ParsedMembers? { assert [] + rest.members == rest.members; }
  }

  lemma {:induction false} PatternsOfAppend(nonprintable: char -> bool, members: seq<Member>, m: Member)
    ensures PatternsOf(nonprintable, members + [m]) ==
      PatternsOf(nonprintable, members) + [MemberPattern(nonprintable, m)]
  {
    if members == [] {
      assert members + [m] == [m];
    } else {
      PatternsOfAppend(nonprintable, members[1..], m);
      assert (members + [m])[1..] == members[1..] + [m];
    }
  }

  datatype Turn = TurnFailed(result: LiteralResult) | TurnRead(pattern: Regex, member: Member, end: nat)

  /** What MemberAt says about one turn of the container loop. */
  ghost predicate IsTurn(turn: Turn, nonprintable: char -> bool, p: MemberParse) {
    match p
    case MemberTooDeep => turn == TurnFailed(NestingLimit)
    case NoMember => turn == TurnFailed(Nothing)
    case ParsedMember(member, end) => turn == TurnRead(MemberPattern(nonprintable, member), member, end)
  }

  method ParseMember(nonprintable: char -> bool, text: string, index: nat, depth: nat, isDictionary: bool)
    returns (turn: Turn)
    requires index <= |text|
    ensures IsTurn(turn, nonprintable, MemberAt(text, index, depth, isDictionary))
    decreases |text| - index, 4
  {
    var item := ParseLiteral(nonprintable, text, index, depth);
    if !item.Found? {
      return TurnFailed(item);
    }
    if isDictionary {
      turn := ParseEntryValue(nonprintable, text, index, depth, item.literal);
    } else {
      turn := TurnRead(item.literal.pattern, Item(item.literal.value), item.literal.end);
    }
  }

  /** A turn with its separator. */
  method ParseTurn(nonprintable: char -> bool, text: string, index: nat, depth: nat, isDictionary: bool)
    returns (turn: Turn)
    requires index <= |text|
    ensures IsTurn(turn, nonprintable, TurnAt(text, index, depth, isDictionary))
    decreases |text| - index, 5
  {
    turn := ParseMember(nonprintable, text, index, depth, isDictionary);
    if turn.TurnRead? {
      var next := Separator(text, turn.end, isDictionary);
      turn := if next.Some? then turn.(end := next.value) else TurnFailed(Nothing);
    }
  }

  /** The dictionary half of a turn: the colon and the value behind a key. */
  method ParseEntryValue(nonprintable: char -> bool, text: string, index: nat, depth: nat, key: Literal)
    returns (turn: Turn)
    requires index <= |text|
    requires LiteralAt(text, index, depth) == Parsed(key.value, key.end)
    requires key.pattern == PatternOf(nonprintable, key.value)
    ensures IsTurn(turn, nonprintable, MemberAt(text, index, depth, true))
    decreases |text| - index, 3
  {
    var colon := SkipSpace(text, key.end);
    if !At(text, colon, ':') {
      return TurnFailed(Nothing);
    }
    var value := ParseLiteral(nonprintable, text, colon + 1, depth);
    if !value.Found? {
      return TurnFailed(value);
    }
    turn := TurnRead(EntryPattern(key.pattern, value.literal.pattern), Entry(key.value, value.literal.value),
                     value.literal.end);
  }

  method ParseContainer(nonprintable: char -> bool, text: string, start: nat, depth: nat) returns (r: LiteralResult)
    requires start < |text|
    requires text[start] == '[' || text[start] == '{'
    ensures r == Described(nonprintable, CollectionAt(text, start, depth))
    decreases |text| - start, 2
  {
    if depth > MAX_NESTING_DEPTH {
      return NestingLimit;
    }
    r := ParseMembers(nonprintable, text, SkipSpace(text, start + 1), depth, text[start] == '{');
  }

  function DescribedMembers(nonprintable: char -> bool, isObject: bool, p: MembersParse): LiteralResult {
    match p
    case MembersTooDeep => NestingLimit
    case NoMembers => Nothing
    case ParsedMembers(members, end) =>
      Found(Literal(CollectionPattern(isObject, PatternsOf(nonprintable, members)), end, Collection(isObject, members)))
  }

  lemma {:induction false} MembersTurn(text: string, index: nat, depth: nat, isObject: bool, members: seq<Member>)
    requires index <= |text| && !At(text, index, Close(isObject))
    ensures PrependAll(members, MembersAt(text, index, depth, isObject)) ==
      match TurnAt(text, index, depth, isObject)
      case MemberTooDeep => MembersTooDeep
      case NoMember => NoMembers
      case ParsedMember(m, next) => PrependAll(members + [m], MembersAt(text, next, depth, isObject))
  {
    var p := TurnAt(text, index, depth, isObject);
    if p.ParsedMember? {
      PrependAllStep(members, p.member, MembersAt(text, p.end, depth, isObject));
    }
  }

  /** The loop, from its first turn to the literal it builds. */
  method ParseMembers(nonprintable: char -> bool, text: string, first: nat, depth: nat, isDictionary: bool)
    returns (r: LiteralResult)
    requires first <= |text|
    ensures r == DescribedMembers(nonprintable, isDictionary, MembersAt(text, first, depth, isDictionary))
    decreases |text| - first, 6
  {
    var items: seq<Regex> := [];
    var members: seq<Member> := [];
    var index := first;
    ghost var all := MembersAt(text, index, depth, isDictionary);
    PrependAllStart(all);
    while !At(text, index, Close(isDictionary))
      invariant first <= index <= |text|
      invariant all == PrependAll(members, MembersAt(text, index, depth, isDictionary))
      invariant items == PatternsOf(nonprintable, members)
      decreases |text| - index, if At(text, index, Close(isDictionary)) then 0 else 1
    {
      MembersTurn(text, index, depth, isDictionary, members);
      var turn := ParseTurn(nonprintable, text, index, depth, isDictionary);
      if turn.TurnFailed? {
        return turn.result;
      }
      PatternsOfAppend(nonprintable, members, turn.member);
      items := items + [turn.pattern];
      members := members + [turn.member];
      index := turn.end;
    }
    assert members + [] == members;
    r := Found(Literal(CollectionPattern(isDictionary, items), index + 1, Collection(isDictionary, members)));
  }

  method ParseLiteral(nonprintable: char -> bool, text: string, start: nat, depth: nat) returns (r: LiteralResult)
    requires start <= |text|
    ensures r == Described(nonprintable, LiteralAt(text, start, depth))
    decreases |text| - start, 3
  {
    var index := SkipSpace(text, start);
    if index == |text| {
      return Nothing;
    }
    if text[index] == '[' || text[index] == '{' {
      r := ParseContainer(nonprintable, text, index, depth + 1);
    } else if text[index] == '\"' || text[index] == '\'' {
      r := ParseQuoted(nonprintable, text, index);
    } else {
      r := Described(nonprintable, ScalarAt(text, index));
    }
  }
}
