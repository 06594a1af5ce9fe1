/**
  The parser is complete: it takes the longest number, and it returns a value exactly where the text reads as that
  value within the nesting limit.
 */
module SearchComplete {
  import opened Options
  import opened SearchText
  import opened SearchValue
  import opened SearchScalars
  import opened SearchParser
  import opened SearchShape
  import opened SearchPattern

  // ---- Numbers ----

  ghost predicate AreDigits(t: string, i: nat, j: nat) {
    i < j <= |t| && forall k :: i <= k < j ==> IsDigit(t[k])
  }

  /** `(?:\.[0-9]+)?` matches t[i..j]. */
  ghost predicate IsFraction(t: string, i: nat, j: nat) {
    j == i || (At(t, i, '.') && AreDigits(t, i + 1, j))
  }

  /** `(?:[eE][+-]?[0-9]+)?` matches t[i..j]. */
  ghost predicate IsExponent(t: string, i: nat, j: nat) {
    j == i || ((At(t, i, 'e') || At(t, i, 'E')) &&
      (AreDigits(t, i + 1, j) || ((At(t, i + 1, '+') || At(t, i + 1, '-')) && AreDigits(t, i + 2, j))))
  }

  ghost predicate HasNumberParts(t: string, i: nat, sign: nat, digits: nat, fraction: nat, j: nat) {
    && (sign == i || (sign == i + 1 && At(t, i, '-')))
    && AreDigits(t, sign, digits) && IsFraction(t, digits, fraction) && IsExponent(t, fraction, j)
  }

  /** NUMBER_PATTERN matches t[i..j]. */
  ghost predicate IsNumber(t: string, i: nat, j: nat) {
    exists sign: nat, digits: nat, fraction: nat :: HasNumberParts(t, i, sign, digits, fraction, j)
  }

  lemma {:induction false} DigitsLongest(t: string, i: nat, j: nat)
    requires AreDigits(t, i, j)
    ensures j <= DigitsEnd(t, i)
    decreases j - i
  {
    if i + 1 < j { DigitsLongest(t, i + 1, j); }
  }

  lemma {:induction false} FractionLongest(t: string, i: nat, j: nat)
    requires i <= |t| && IsFraction(t, i, j)
    ensures j <= FractionEnd(t, i) && IsFraction(t, i, FractionEnd(t, i))
    ensures j < FractionEnd(t, i) ==> j < |t| && (t[j] == '.' || IsDigit(t[j]))
  {
    if j > i { DigitsLongest(t, i + 1, j); }
  }

  lemma {:induction false} ExponentLongest(t: string, i: nat, j: nat)
    requires i <= |t| && IsExponent(t, i, j)
    ensures j <= ExponentEnd(t, i) && IsExponent(t, i, ExponentEnd(t, i))
  {
    if j > i {
      if AreDigits(t, i + 1, j) { DigitsLongest(t, i + 1, j); } else { DigitsLongest(t, i + 2, j); }
    }
  }

  lemma {:induction false} NumberBounded(t: string, i: nat, sign: nat, digits: nat, fraction: nat, j: nat)
    requires i <= |t| && HasNumberParts(t, i, sign, digits, fraction, j)
    ensures i < j <= NumberEnd(t, i)
  {
    NumberParts(t, i);
    DigitsLongest(t, sign, digits);
    FractionLongest(t, digits, fraction);
    if digits == DigitsEnd(t, sign) && fraction == FractionEnd(t, digits) {
      ExponentLongest(t, fraction, j);
    }
  }

  lemma {:induction false} NumberEndIsNumber(t: string, i: nat)
    requires i <= |t| && NumberEnd(t, i) > i
    ensures IsNumber(t, i, NumberEnd(t, i))
  {
    NumberParts(t, i);
    var sign := SignEnd(t, i);
    var digits := DigitsEnd(t, sign);
    FractionLongest(t, digits, digits);
    ExponentLongest(t, FractionEnd(t, digits), FractionEnd(t, digits));
    assert HasNumberParts(t, i, sign, digits, FractionEnd(t, digits), NumberEnd(t, i));
  }

  /** The number read at i is the longest match there, and none is read exactly where nothing matches. */
  lemma {:induction false} NumberIsLongest(t: string, i: nat)
    requires i <= |t|
    ensures NumberEnd(t, i) > i ==> IsNumber(t, i, NumberEnd(t, i))
    ensures forall j: nat :: IsNumber(t, i, j) ==> i < j <= NumberEnd(t, i)
  {
    if NumberEnd(t, i) > i { NumberEndIsNumber(t, i); }
    forall j: nat | IsNumber(t, i, j) ensures i < j <= NumberEnd(t, i) {
      var sign: nat, digits: nat, fraction: nat :| HasNumberParts(t, i, sign, digits, fraction, j);
      NumberBounded(t, i, sign, digits, fraction, j);
    }
  }

  // ---- Whatever reads, parses ----

  /** The parser's own scalars and white space. */
  function ParserReader(t: string): Reader {
    Reader((p: nat) => if p < |t| then ScalarAt(t, p) else NoLiteral,
           (p: nat) => if p <= |t| then SkipSpace(t, p) else p)
  }

  lemma {:induction false} ParserReaderFollows(t: string)
    ensures Follows(ParserReader(t), t)
  {
    forall p: nat | p < |t| && ScalarAt(t, p).Parsed? ensures StartsScalar(t[p]) {
      ScalarStart(t, p);
    }
    forall p: nat | p < |t| && IsSolid(t[p]) ensures SkipSpace(t, p) == p {
    }
  }

  /** At p the reader reads the parser's scalar and skips the parser's white space. */
  ghost predicate MirrorsAt(r: Reader, t: string, p: nat) {
    && (p < |t| ==> r.scan(p) == ScalarAt(t, p))
    && (p <= |t| ==> r.skip(p) == SkipSpace(t, p))
  }

  ghost predicate Mirrors(r: Reader, t: string) {
    Scans(r, t) && forall p: nat {:trigger MirrorsAt(r, t, p)} :: MirrorsAt(r, t, p)
  }

  function Limited(v: SearchValue, end: nat, depth: nat): Parse {
    if depth + Depth(v) <= MAX_NESTING_DEPTH then Parsed(v, end) else TooDeep
  }

  function LimitedMember(m: Member, end: nat, depth: nat): MemberParse {
    if depth + MemberDepth(m) <= MAX_NESTING_DEPTH then ParsedMember(m, end) else MemberTooDeep
  }

  function LimitedMembers(members: seq<Member>, end: nat, depth: nat): MembersParse {
    if depth + MembersDepth(members) <= MAX_NESTING_DEPTH then ParsedMembers(members, end) else MembersTooDeep
  }

  lemma {:induction false} CollectionParses(v: SearchValue, t: string, i: nat, p: nat, depth: nat, end: nat)
    requires v.Collection? && i <= |t| && p == SkipSpace(t, i) && At(t, p, OpenChar(v.isObject))
    requires depth < MAX_NESTING_DEPTH ==>
      MembersAt(t, SkipSpace(t, p + 1), depth + 1, v.isObject) == LimitedMembers(v.members, end, depth + 1)
    requires depth <= MAX_NESTING_DEPTH
    ensures LiteralAt(t, i, depth) == Limited(v, end, depth)
  {
    assert LiteralAt(t, i, depth) == CollectionAt(t, p, depth + 1);
  }

  lemma {:induction false} ScalarParses(v: SearchValue, t: string, i: nat, p: nat, depth: nat, end: nat)
    requires !v.Collection? && i <= |t| && p == SkipSpace(t, i) && p < |t| && ScalarAt(t, p) == Parsed(v, end)
    requires depth <= MAX_NESTING_DEPTH
    ensures LiteralAt(t, i, depth) == Limited(v, end, depth)
  {
    ScalarStart(t, p);
  }

  lemma {:induction false} KeyRaises(t: string, i: nat, depth: nat)
    requires i <= |t| && LiteralAt(t, i, depth) == TooDeep
    ensures MemberAt(t, i, depth, true) == MemberTooDeep
  {
  }

  lemma {:induction false} ValueBehindKey(t: string, i: nat, depth: nat, key: SearchValue, last: nat, colon: nat)
    requires i <= |t| && LiteralAt(t, i, depth) == Parsed(key, last)
    requires colon == SkipSpace(t, last) && At(t, colon, ':')
    ensures MemberAt(t, i, depth, true) ==
      match LiteralAt(t, colon + 1, depth)
      case TooDeep => MemberTooDeep
      case NoLiteral => NoMember
      case Parsed(value, end) => ParsedMember(Entry(key, value), end)
  {
  }

  lemma {:induction false} EntryParses(
    key: SearchValue, value: SearchValue, t: string, i: nat, depth: nat, last: nat, colon: nat, end: nat)
    requires i <= |t| && LiteralAt(t, i, depth) == Limited(key, last, depth) && last <= |t|
    requires colon == SkipSpace(t, last) && At(t, colon, ':')
    requires LiteralAt(t, colon + 1, depth) == Limited(value, end, depth)
    ensures MemberAt(t, i, depth, true) == LimitedMember(Entry(key, value), end, depth)
  {
    assert MemberDepth(Entry(key, value)) == Max(Depth(key), Depth(value));
    if depth + Depth(key) > MAX_NESTING_DEPTH {
      KeyRaises(t, i, depth);
    } else {
      ValueBehindKey(t, i, depth, key, last, colon);
    }
  }

  lemma {:induction false} ItemParses(value: SearchValue, t: string, i: nat, depth: nat, end: nat)
    requires i <= |t| && LiteralAt(t, i, depth) == Limited(value, end, depth)
    ensures MemberAt(t, i, depth, false) == LimitedMember(Item(value), end, depth)
  {
    assert MemberDepth(Item(value)) == Depth(value);
  }

  lemma {:induction false} TurnParses(
    m: Member, rest: seq<Member>, isObject: bool, t: string, i: nat, depth: nat, last: nat, next: nat, end: nat)
    requires i <= |t| && !At(t, i, Close(isObject)) && last <= |t| && next <= |t|
    requires MemberAt(t, i, depth, isObject) == LimitedMember(m, last, depth)
    requires Separator(t, last, isObject) == Some(next)
    requires MembersAt(t, next, depth, isObject) == LimitedMembers(rest, end, depth)
    ensures MembersAt(t, i, depth, isObject) == LimitedMembers([m] + rest, end, depth)
  {
    assert ([m] + rest)[1..] == rest;
    if depth + MemberDepth(m) <= MAX_NESTING_DEPTH {
      assert TurnAt(t, i, depth, isObject) == ParsedMember(m, next);
    } else {
      assert TurnAt(t, i, depth, isObject) == MemberTooDeep;
    }
  }

  /** Where the parts of a value's reading are. */
  lemma {:induction false} ReadParts(v: SearchValue, r: Reader, t: string, i: nat, end: nat) returns (p: nat)
    requires Scans(r, t) && i <= |t| && ReadAs(v, r, t, i) == Some(end)
    ensures p == r.skip(i) && p < |t|
    ensures if v.Collection? then
        At(t, p, OpenChar(v.isObject)) && MembersReadAs(v.members, v.isObject, r, t, r.skip(p + 1)) == Some(end)
      else r.scan(p) == Parsed(v, end)
  {
    p := r.skip(i);
  }

  lemma {:induction false} ReadParses(v: SearchValue, r: Reader, t: string, i: nat, depth: nat, end: nat)
    requires Mirrors(r, t) && i <= |t| && depth <= MAX_NESTING_DEPTH && ReadAs(v, r, t, i) == Some(end)
    ensures LiteralAt(t, i, depth) == Limited(v, end, depth)
    decreases v, 2
  {
    var p := ReadParts(v, r, t, i, end);
    assert MirrorsAt(r, t, i);
    if v.Collection? {
      CollectionReadParses(v, r, t, i, p, depth, end);
    } else {
      assert MirrorsAt(r, t, p);
      ScalarParses(v, t, i, p, depth, end);
    }
  }

  lemma {:induction false} CollectionReadParses(
    v: SearchValue, r: Reader, t: string, i: nat, p: nat, depth: nat, end: nat)
    requires Mirrors(r, t) && v.Collection? && i <= |t| && p == SkipSpace(t, i) && depth <= MAX_NESTING_DEPTH
    requires At(t, p, OpenChar(v.isObject))
    requires MembersReadAs(v.members, v.isObject, r, t, r.skip(p + 1)) == Some(end)
    ensures LiteralAt(t, i, depth) == Limited(v, end, depth)
    decreases v, 1
  {
    assert MirrorsAt(r, t, p + 1);
    if depth < MAX_NESTING_DEPTH {
      MembersReadParse(v.members, v.isObject, r, t, r.skip(p + 1), depth + 1, end);
    }
    CollectionParses(v, t, i, p, depth, end);
  }

  /** The parts of an entry's reading. */
  lemma {:induction false} EntryReadParts(
    key: SearchValue, value: SearchValue, r: Reader, t: string, i: nat, end: nat) returns (last: nat, colon: nat)
    requires Scans(r, t) && i <= |t| && MemberReadAs(Entry(key, value), true, r, t, i) == Some(end)
    ensures ReadAs(key, r, t, i) == Some(last) && last <= |t|
    ensures colon == r.skip(last) && At(t, colon, ':') && ReadAs(value, r, t, colon + 1) == Some(end)
  {
    last := ReadAs(key, r, t, i).value;
    colon := r.skip(last);
  }

  lemma {:induction false} EntryReadParses(
    key: SearchValue, value: SearchValue, r: Reader, t: string, i: nat, depth: nat, end: nat)
    requires Mirrors(r, t) && i <= |t| && depth <= MAX_NESTING_DEPTH
    requires MemberReadAs(Entry(key, value), true, r, t, i) == Some(end)
    ensures MemberAt(t, i, depth, true) == LimitedMember(Entry(key, value), end, depth)
    decreases Entry(key, value), 2
  {
    var last, colon := EntryReadParts(key, value, r, t, i, end);
    assert MirrorsAt(r, t, last);
    ReadParses(key, r, t, i, depth, last);
    ReadParses(value, r, t, colon + 1, depth, end);
    EntryParses(key, value, t, i, depth, last, colon, end);
  }

  lemma {:induction false} MemberReadParses(
    m: Member, isObject: bool, r: Reader, t: string, i: nat, depth: nat, end: nat)
    requires Mirrors(r, t) && i <= |t| && depth <= MAX_NESTING_DEPTH && MemberReadAs(m, isObject, r, t, i) == Some(end)
    ensures MemberAt(t, i, depth, isObject) == LimitedMember(m, end, depth)
    decreases m, 3
  {
    if m.Item? {
      ReadParses(m.value, r, t, i, depth, end);
      ItemParses(m.value, t, i, depth, end);
    } else {
      EntryReadParses(m.key, m.value, r, t, i, depth, end);
    }
  }

  /** Where a member reads, the collection does not close. */
  lemma {:induction false} NoCloseBefore(m: Member, isObject: bool, r: Reader, t: string, i: nat)
    requires Scans(r, t) && i <= |t| && MemberReadAs(m, isObject, r, t, i).Some?
    ensures !At(t, i, Close(isObject))
  {
    MemberReadStart(m, isObject, r, t, i);
  }

  lemma {:induction false} SeparatorReader(isObject: bool, r: Reader, t: string, last: nat)
    requires Mirrors(r, t) && last <= |t|
    ensures NextTurn(isObject, r, t, last) == Separator(t, last, isObject)
  {
    assert MirrorsAt(r, t, last) && MirrorsAt(r, t, r.skip(last) + 1);
  }

  lemma {:induction false} MembersReadParse(
    members: seq<Member>, isObject: bool, r: Reader, t: string, i: nat, depth: nat, end: nat)
    requires Mirrors(r, t) && i <= |t| && depth <= MAX_NESTING_DEPTH
    requires MembersReadAs(members, isObject, r, t, i) == Some(end)
    ensures MembersAt(t, i, depth, isObject) == LimitedMembers(members, end, depth)
    decreases members, 0
  {
    if members != [] {
      var last := MemberReadAs(members[0], isObject, r, t, i).value;
      var next := NextTurn(isObject, r, t, last).value;
      NoCloseBefore(members[0], isObject, r, t, i);
      SeparatorReader(isObject, r, t, last);
      MemberReadParses(members[0], isObject, r, t, i, depth, last);
      MembersReadParse(members[1..], isObject, r, t, next, depth, end);
      TurnParses(members[0], members[1..], isObject, t, i, depth, last, next, end);
      assert [members[0]] + members[1..] == members;
    }
  }

  lemma {:induction false} ParserReaderMirrors(t: string)
    ensures Mirrors(ParserReader(t), t) && Follows(ParserReader(t), t)
  {
    ParserReaderFollows(t);
  }

  /** The parser returns a value exactly where the text reads as it, to the same end, within the nesting limit. */
  lemma {:induction false} ParsesIff(t: string, i: nat, depth: nat, v: SearchValue, end: nat)
    requires i <= |t| && depth <= MAX_NESTING_DEPTH
    ensures Scans(ParserReader(t), t)
    ensures LiteralAt(t, i, depth) == Parsed(v, end) <==>
      ReadAs(v, ParserReader(t), t, i) == Some(end) && depth + Depth(v) <= MAX_NESTING_DEPTH
  {
    ParserReaderMirrors(t);
    if LiteralAt(t, i, depth) == Parsed(v, end) { ParsedReads(ParserReader(t), t, i, depth); }
    if ReadAs(v, ParserReader(t), t, i) == Some(end) { ReadParses(v, ParserReader(t), t, i, depth, end); }
  }

  /** A text that reads as a value that nests too deeply raises. */
  lemma {:induction false} DeepRaises(t: string, i: nat, depth: nat, v: SearchValue)
    requires i <= |t| && depth <= MAX_NESTING_DEPTH && depth + Depth(v) > MAX_NESTING_DEPTH
    requires Scans(ParserReader(t), t) && ReadAs(v, ParserReader(t), t, i).Some?
    ensures LiteralAt(t, i, depth) == TooDeep
  {
    ParserReaderMirrors(t);
    ReadParses(v, ParserReader(t), t, i, depth, ReadAs(v, ParserReader(t), t, i).value);
  }
}
