/**
  The shape of a value in a text: a reading of the text that skips the patterns' `\s*` white space and is told
  the value it should find. What the parser reads is such a reading, and a reading is unique; that is what makes
  a pattern match and a parse of one text agree.
 */
module SearchShape {
  import opened Options
  import opened SearchText
  import opened SearchValue
  import opened SearchScalars
  import opened SearchParser

  /** How scalars are read and where white space ends; kept abstract while readings are compared. */
  datatype Reader = Reader(scan: nat -> Parse, skip: nat -> nat)

  function OpenChar(isObject: bool): char { if isObject then '{' else '[' }

  /** No character of a value's frame is white space, for the parser or for the engine. */
  predicate IsSolid(c: char) {
    StartsValue(c) || c == ']' || c == '}' || c == ',' || c == ':'
  }

  ghost predicate Scans(r: Reader, t: string) {
    && (forall p: nat {:trigger r.scan(p)} | p < |t| && r.scan(p).Parsed? ::
         p < r.scan(p).end <= |t| && StartsScalar(t[p]) && !r.scan(p).value.Collection?)
    && (forall p: nat {:trigger r.skip(p)} | p <= |t| :: p <= r.skip(p) <= |t|)
    && (forall p: nat {:trigger r.skip(p)} | p < |t| && IsSolid(t[p]) :: r.skip(p) == p)
  }

  // ---- Reading a value ----

  /** Where a reader started at i is behind v, if v is what it reads there. */
  ghost function ReadAs(v: SearchValue, r: Reader, t: string, i: nat): (end: Option<nat>)
    requires Scans(r, t) && i <= |t|
    ensures end.Some? ==> i < end.value <= |t|
    decreases v, 1
  {
    var p := r.skip(i);
    if v.Collection? then
      if At(t, p, OpenChar(v.isObject)) then MembersReadAs(v.members, v.isObject, r, t, r.skip(p + 1))
      else None
    else if p < |t| && r.scan(p).Parsed? && r.scan(p).value == v then Some(r.scan(p).end)
    else None
  }

  ghost function MembersReadAs(members: seq<Member>, isObject: bool, r: Reader, t: string, i: nat): (end: Option<nat>)
    requires Scans(r, t) && i <= |t|
    ensures end.Some? ==> i < end.value <= |t|
    decreases members, 0
  {
    if members == [] then
      if At(t, i, Close(isObject)) then Some(i + 1) else None
    else
      match MemberReadAs(members[0], isObject, r, t, i)
      case None => None
      case Some(end) =>
        match NextTurn(isObject, r, t, end)
        case None => None
        case Some(next) => MembersReadAs(members[1..], isObject, r, t, next)
  }

  /** Behind a member: past a comma and white space, or at the closing bracket. */
  ghost function NextTurn(isObject: bool, r: Reader, t: string, end: nat): (next: Option<nat>)
    requires Scans(r, t) && end <= |t|
    ensures next.Some? ==> end <= next.value <= |t|
  {
    var j := r.skip(end);
    if At(t, j, ',') then Some(r.skip(j + 1))
    else if At(t, j, Close(isObject)) then Some(j)
    else None
  }

  ghost function MemberReadAs(m: Member, isObject: bool, r: Reader, t: string, i: nat): (end: Option<nat>)
    requires Scans(r, t) && i <= |t|
    ensures end.Some? ==> i < end.value <= |t|
    decreases m, 2
  {
    match m
    case Item(value) => if isObject then None else ReadAs(value, r, t, i)
    case Entry(key, value) =>
      if !isObject then None
      else
        match ReadAs(key, r, t, i)
        case None => None
        case Some(end) =>
          var colon := r.skip(end);
          if At(t, colon, ':') then ReadAs(value, r, t, colon + 1) else None
  }

  lemma {:induction false} ReadStart(v: SearchValue, r: Reader, t: string, i: nat)
    requires Scans(r, t) && i <= |t| && ReadAs(v, r, t, i).Some?
    ensures r.skip(i) < |t| && StartsValue(t[r.skip(i)])
  {
  }

  lemma {:induction false} MemberReadStart(m: Member, isObject: bool, r: Reader, t: string, i: nat)
    requires Scans(r, t) && i <= |t| && MemberReadAs(m, isObject, r, t, i).Some?
    ensures r.skip(i) < |t| && StartsValue(t[r.skip(i)])
  {
    ReadStart(if m.Item? then m.value else m.key, r, t, i);
  }

  lemma {:induction false} ReadClose(members: seq<Member>, isObject: bool, r: Reader, t: string, i: nat)
    requires Scans(r, t) && i <= |t| && MembersReadAs(members, isObject, r, t, i).Some?
    requires At(t, i, Close(isObject))
    ensures members == []
  {
    if members != [] {
      MemberReadStart(members[0], isObject, r, t, i);
    }
  }

  // ---- Readings are unique ----

  lemma {:induction false} ReadUnique(v: SearchValue, w: SearchValue, r: Reader, t: string, i: nat)
    requires Scans(r, t) && i <= |t|
    requires ReadAs(v, r, t, i).Some? && ReadAs(w, r, t, i).Some?
    ensures v == w
    decreases v, 1
  {
    if v.Collection? {
      var p := r.skip(i);
      assert w.Collection?;
      MembersReadUnique(v.members, w.members, v.isObject, r, t, r.skip(p + 1));
    }
  }

  lemma {:induction false} MemberReadUnique(m: Member, n: Member, isObject: bool, r: Reader, t: string, i: nat)
    requires Scans(r, t) && i <= |t|
    requires MemberReadAs(m, isObject, r, t, i).Some? && MemberReadAs(n, isObject, r, t, i).Some?
    ensures m == n
    decreases m, 2
  {
    match m
    case Item(value) => ReadUnique(value, n.value, r, t, i);
    case Entry(key, value) =>
      ReadUnique(key, n.key, r, t, i);
      var colon := r.skip(ReadAs(key, r, t, i).value);
      ReadUnique(value, n.value, r, t, colon + 1);
  }

  lemma {:induction false} MembersReadUnique(
    ms: seq<Member>, ns: seq<Member>, isObject: bool, r: Reader, t: string, i: nat)
    requires Scans(r, t) && i <= |t|
    requires MembersReadAs(ms, isObject, r, t, i).Some? && MembersReadAs(ns, isObject, r, t, i).Some?
    ensures ms == ns
    decreases ms, 0
  {
    if ms == [] {
      ReadClose(ns, isObject, r, t, i);
    } else if ns == [] {
      ReadClose(ms, isObject, r, t, i);
    } else {
      MemberReadUnique(ms[0], ns[0], isObject, r, t, i);
      var end := MemberReadAs(ms[0], isObject, r, t, i).value;
      MembersReadUnique(ms[1..], ns[1..], isObject, r, t, NextTurn(isObject, r, t, end).value);
      assert ms == [ms[0]] + ms[1..] && ns == [ns[0]] + ns[1..];
    }
  }

  // ---- What the parser reads is a reading ----

  /** The reader reads the parser's scalars and skips to where the parser skips, if the parser goes on there. */
  ghost predicate Follows(r: Reader, t: string) {
    && Scans(r, t)
    && (forall p: nat {:trigger r.scan(p)} | p < |t| :: r.scan(p) == ScalarAt(t, p))
    && (forall p: nat {:trigger r.skip(p)} | p <= |t| && SkipSpace(t, p) < |t| && IsSolid(t[SkipSpace(t, p)]) ::
         r.skip(p) == SkipSpace(t, p))
  }

  lemma {:induction false} LiteralStart(r: Reader, t: string, i: nat, depth: nat)
    requires Follows(r, t) && i <= |t| && LiteralAt(t, i, depth).Parsed?
    ensures SkipSpace(t, i) < |t| && StartsValue(t[SkipSpace(t, i)])
  {
    var p := SkipSpace(t, i);
    if t[p] != '[' && t[p] != '{' { assert r.scan(p).Parsed?; }
  }

  lemma {:induction false} TurnStart(t: string, i: nat, depth: nat, isObject: bool)
    requires i <= |t| && TurnAt(t, i, depth, isObject).ParsedMember?
    ensures LiteralAt(t, i, depth).Parsed?
  {
    assert MemberAt(t, i, depth, isObject).ParsedMember?;
  }

  /** The loop's next turn starts at a closing bracket or at a value. */
  lemma {:induction false} MembersStart(r: Reader, t: string, i: nat, depth: nat, isObject: bool)
    requires Follows(r, t) && i <= |t| && MembersAt(t, i, depth, isObject).ParsedMembers?
    requires i < |t| ==> !IsSpace(t[i])
    ensures i < |t| && IsSolid(t[i])
  {
    if !At(t, i, Close(isObject)) {
      TurnStart(t, i, depth, isObject);
      LiteralStart(r, t, i, depth);
    }
  }

  lemma {:induction false} SeparatorReads(r: Reader, t: string, end: nat, isObject: bool, next: nat)
    requires Follows(r, t) && end <= |t| && Separator(t, end, isObject) == Some(next)
    requires next < |t| && IsSolid(t[next])
    ensures NextTurn(isObject, r, t, end) == Some(next)
  {
  }

  lemma {:induction false} SeparatorStays(t: string, end: nat, isObject: bool, next: nat)
    requires end <= |t| && Separator(t, end, isObject) == Some(next)
    ensures next < |t| ==> !IsSpace(t[next])
  {
  }

  lemma {:induction false} ParsedReads(r: Reader, t: string, i: nat, depth: nat)
    requires i <= |t| && LiteralAt(t, i, depth).Parsed? && Follows(r, t)
    ensures ReadAs(LiteralAt(t, i, depth).value, r, t, i) == Some(LiteralAt(t, i, depth).end)
    decreases |t| - i, 3
  {
    LiteralStart(r, t, i, depth);
    var p := SkipSpace(t, i);
    if t[p] == '[' || t[p] == '{' {
      CollectionReads(r, t, i, p, depth + 1, t[p] == '{');
    }
  }

  lemma {:induction false} CollectionParts(t: string, p: nat, depth: nat, isObject: bool) returns (all: MembersParse)
    requires At(t, p, OpenChar(isObject)) && CollectionAt(t, p, depth).Parsed?
    ensures all == MembersAt(t, SkipSpace(t, p + 1), depth, isObject) && all.ParsedMembers?
    ensures CollectionAt(t, p, depth) == Parsed(Collection(isObject, all.members), all.end)
  {
    all := MembersAt(t, SkipSpace(t, p + 1), depth, isObject);
  }

  lemma {:induction false} CollectionUnfold(isObject: bool, members: seq<Member>, r: Reader, t: string, i: nat)
    requires Scans(r, t) && i <= |t| && At(t, r.skip(i), OpenChar(isObject))
    ensures ReadAs(Collection(isObject, members), r, t, i)
         == MembersReadAs(members, isObject, r, t, r.skip(r.skip(i) + 1))
  {
  }

  lemma {:induction false} CollectionReads(r: Reader, t: string, i: nat, p: nat, depth: nat, isObject: bool)
    requires Follows(r, t) && i <= p && r.skip(i) == p && At(t, p, OpenChar(isObject))
    requires CollectionAt(t, p, depth).Parsed?
    ensures ReadAs(CollectionAt(t, p, depth).value, r, t, i) == Some(CollectionAt(t, p, depth).end)
    decreases |t| - p, 2
  {
    var all := CollectionParts(t, p, depth, isObject);
    FirstTurn(r, t, p + 1, depth, isObject);
    MembersRead(r, t, SkipSpace(t, p + 1), depth, isObject);
    CollectionUnfold(isObject, all.members, r, t, i);
  }

  /** Behind the opening bracket both skip to the first turn. */
  lemma {:induction false} FirstTurn(r: Reader, t: string, i: nat, depth: nat, isObject: bool)
    requires Follows(r, t) && i <= |t| && MembersAt(t, SkipSpace(t, i), depth, isObject).ParsedMembers?
    ensures r.skip(i) == SkipSpace(t, i)
  {
    MembersStart(r, t, SkipSpace(t, i), depth, isObject);
  }

  lemma {:induction false} EntryParts(t: string, i: nat, depth: nat) returns (key: Parse, colon: nat, value: Parse)
    requires i <= |t| && MemberAt(t, i, depth, true).ParsedMember?
    ensures key == LiteralAt(t, i, depth) && key.Parsed?
    ensures colon == SkipSpace(t, key.end) && At(t, colon, ':')
    ensures value == LiteralAt(t, colon + 1, depth) && value.Parsed?
    ensures MemberAt(t, i, depth, true) == ParsedMember(Entry(key.value, value.value), value.end)
  {
    key := LiteralAt(t, i, depth);
    colon := SkipSpace(t, key.end);
    value := LiteralAt(t, colon + 1, depth);
  }

  lemma {:induction false} EntryJoins(
    key: SearchValue, value: SearchValue, r: Reader, t: string, i: nat, end: nat, colon: nat, last: nat)
    requires Scans(r, t) && i <= end <= colon < |t| && t[colon] == ':' && r.skip(end) == colon
    requires ReadAs(key, r, t, i) == Some(end) && ReadAs(value, r, t, colon + 1) == Some(last)
    ensures MemberReadAs(Entry(key, value), true, r, t, i) == Some(last)
  {
  }

  lemma {:induction false} MemberReads(r: Reader, t: string, i: nat, depth: nat, isObject: bool)
    requires i <= |t| && MemberAt(t, i, depth, isObject).ParsedMember? && Follows(r, t)
    ensures MemberReadAs(MemberAt(t, i, depth, isObject).member, isObject, r, t, i)
         == Some(MemberAt(t, i, depth, isObject).end)
    decreases |t| - i, 4
  {
    ParsedReads(r, t, i, depth);
    if isObject {
      var key, colon, value := EntryParts(t, i, depth);
      ParsedReads(r, t, colon + 1, depth);
      EntryJoins(key.value, value.value, r, t, i, key.end, colon, value.end);
    }
  }

  lemma {:induction false} MembersRead(r: Reader, t: string, i: nat, depth: nat, isObject: bool)
    requires i <= |t| && MembersAt(t, i, depth, isObject).ParsedMembers? && Follows(r, t)
    ensures MembersReadAs(MembersAt(t, i, depth, isObject).members, isObject, r, t, i)
         == Some(MembersAt(t, i, depth, isObject).end)
    decreases |t| - i, 6
  {
    if !At(t, i, Close(isObject)) {
      var turn := TurnAt(t, i, depth, isObject);
      MemberReads(r, t, i, depth, isObject);
      SeparatorStays(t, MemberAt(t, i, depth, isObject).end, isObject, turn.end);
      MembersStart(r, t, turn.end, depth, isObject);
      SeparatorReads(r, t, MemberAt(t, i, depth, isObject).end, isObject, turn.end);
      MembersRead(r, t, turn.end, depth, isObject);
      MembersUnfold(turn.member, MembersAt(t, turn.end, depth, isObject).members, isObject, r, t, i);
    }
  }

  lemma {:induction false} MembersUnfold(m: Member, rest: seq<Member>, isObject: bool, r: Reader, t: string, i: nat)
    requires Scans(r, t) && i <= |t|
    ensures MembersReadAs([m] + rest, isObject, r, t, i) ==
      match MemberReadAs(m, isObject, r, t, i)
      case None => None
      case Some(end) =>
        match NextTurn(isObject, r, t, end)
        case None => None
        case Some(next) => MembersReadAs(rest, isObject, r, t, next)
  {
    assert ([m] + rest)[1..] == rest;
  }

  // ---- The patterns' white space ----

  function SkipWide(t: string, i: nat): (r: nat)
    requires i <= |t|
    ensures i <= r <= |t|
    ensures r < |t| ==> !IsRegexSpace(t[r])
    decreases |t| - i
  {
    if i < |t| && IsRegexSpace(t[i]) then SkipWide(t, i + 1) else i
  }

  /** Where the parser stops at something that is no white space for the engine either, both skips end there. */
  lemma {:induction false} SkipsAgree(t: string, i: nat)
    requires i <= |t|
    requires SkipSpace(t, i) < |t| ==> !IsRegexSpace(t[SkipSpace(t, i)])
    ensures SkipWide(t, i) == SkipSpace(t, i)
    decreases |t| - i
  {
    if i < |t| && IsSpace(t[i]) { SkipsAgree(t, i + 1); }
  }

  function TextReader(t: string): Reader {
    Reader((p: nat) => if p < |t| then ScalarAt(t, p) else NoLiteral,
           (p: nat) => if p <= |t| then SkipWide(t, p) else p)
  }

  lemma {:induction false} ScalarStart(t: string, p: nat)
    requires p < |t| && ScalarAt(t, p).Parsed?
    ensures StartsScalar(t[p])
  {
  }

  lemma {:induction false} SolidStays(t: string, p: nat)
    requires p < |t| && IsSolid(t[p])
    ensures SkipWide(t, p) == p
  {
  }

  lemma {:induction false} TextReaderScans(t: string)
    ensures Scans(TextReader(t), t)
  {
    forall p: nat | p < |t| && ScalarAt(t, p).Parsed? ensures StartsScalar(t[p]) {
      ScalarStart(t, p);
    }
    forall p: nat | p < |t| && IsSolid(t[p]) ensures TextReader(t).skip(p) == p {
      SolidStays(t, p);
    }
  }

  lemma {:induction false} SolidSkip(t: string, p: nat)
    requires p <= |t| && SkipSpace(t, p) < |t| && IsSolid(t[SkipSpace(t, p)])
    ensures SkipWide(t, p) == SkipSpace(t, p)
  {
    SkipsAgree(t, p);
  }

  lemma {:induction false} TextReaderFollows(t: string)
    ensures Follows(TextReader(t), t)
  {
    TextReaderScans(t);
    forall p: nat | p <= |t| && SkipSpace(t, p) < |t| && IsSolid(t[SkipSpace(t, p)])
      ensures TextReader(t).skip(p) == SkipSpace(t, p)
    {
      SolidSkip(t, p);
    }
  }
}
