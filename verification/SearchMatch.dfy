/**
  A text without a backslash that matches the pattern of a value is read as exactly that value, ending where the
  match ends.
 */
module SearchMatch {
  import opened Options
  import opened SearchText
  import opened SearchValue
  import opened SearchScalars
  import opened SearchPattern
  import opened SearchShape

  ghost predicate SkipsSpaces(r: Reader, t: string) {
    forall i: nat, p: nat {:trigger SpacesBetween(t, i, p)} :: SpacesBetween(t, i, p) && p < |t| && IsSolid(t[p]) ==>
      r.skip(i) == p
  }

  /** A reader that reads the parser's scalars and skips the patterns' white space. */
  ghost predicate ReadsMatches(r: Reader, t: string) {
    Follows(r, t) && SkipsSpaces(r, t) && NoBackslash(t)
  }

  /** A text with a reader for it, and what the patterns take for nonprintable. */
  datatype Context = Context(nonprintable: char -> bool, r: Reader, t: string) {
    ghost predicate Valid() { ReadsMatches(r, t) }

    ghost predicate Matches(v: SearchValue, i: nat, j: nat) {
      MatchesAt(PatternOf(nonprintable, v), t, i, j) && MayFollow(t, j)
    }
  }

  type Matching = c: Context | c.Valid() ghost witness EmptyText()

  function EmptyText(): Context {
    Context((c: char) => false, Reader((p: nat) => NoLiteral, (p: nat) => p), "")
  }

  lemma {:induction false} MatchStart(c: Matching, v: SearchValue, i: nat, j: nat)
    requires WellFormed(v) && c.Matches(v, i, j)
    ensures i < j <= |c.t| && StartsValue(c.t[i])
  {
    if v.Collection? {
      var a, b := CollectionSplit(v.isObject, PatternsOf(c.nonprintable, v.members), c.t, i, j);
      assert c.t[i] == c.t[i..i + 1][0];
    } else {
      ScalarMatch(c.nonprintable, v, c.t, i, j);
    }
  }

  /** The three parts of an entry's match, as a reader meets them. */
  lemma {:induction false} EntryTurn(
    c: Matching, key: SearchValue, value: SearchValue, i: nat, j: nat) returns (k: nat, colon: nat, v: nat)
    requires MatchesAt(MemberPattern(c.nonprintable, Entry(key, value)), c.t, i, j) && MayFollow(c.t, j)
    ensures i <= k <= colon < v <= j
    ensures c.Matches(key, i, k) && c.r.skip(k) == colon && c.t[colon] == ':'
    ensures SpacesBetween(c.t, colon + 1, v) && c.Matches(value, v, j)
  {
    k, colon, v := EntrySplit(PatternOf(c.nonprintable, key), PatternOf(c.nonprintable, value), c.t, i, j);
    MayFollowSpacedChar(c.t, k, colon, ':');
  }

  ghost predicate MatchesMember(c: Matching, m: Member, i: nat, j: nat) {
    MatchesAt(MemberPattern(c.nonprintable, m), c.t, i, j) && MayFollow(c.t, j)
  }

  lemma {:induction false} MemberMatchStart(c: Matching, m: Member, isObject: bool, i: nat, j: nat)
    requires WellFormedMember(m, isObject) && MatchesMember(c, m, i, j)
    ensures i < j <= |c.t| && StartsValue(c.t[i])
  {
    if m.Entry? {
      var k, colon, v := EntryTurn(c, m.key, m.value, i, j);
      MatchStart(c, m.key, i, k);
    } else {
      MatchStart(c, m.value, i, j);
    }
  }

  lemma {:induction false} MatchReads(c: Matching, v: SearchValue, i: nat, p: nat, j: nat)
    requires WellFormed(v) && SpacesBetween(c.t, i, p) && c.Matches(v, p, j)
    ensures ReadAs(v, c.r, c.t, i) == Some(j)
    decreases v, 5
  {
    MatchStart(c, v, p, j);
    if v.Collection? {
      CollectionMatchReads(c, v, p, j);
      CollectionUnfold(v.isObject, v.members, c.r, c.t, i);
    } else {
      ScalarMatch(c.nonprintable, v, c.t, p, j);
    }
  }

  lemma {:induction false} CollectionMatchReads(c: Matching, v: SearchValue, p: nat, j: nat)
    requires v.Collection? && WellFormed(v) && c.Matches(v, p, j)
    ensures At(c.t, p, OpenChar(v.isObject))
    ensures MembersReadAs(v.members, v.isObject, c.r, c.t, c.r.skip(p + 1)) == Some(j)
    decreases v, 2
  {
    if v.members == [] {
      EmptyMatchReads(c, v.isObject, p, j);
    } else {
      var b := CollectionTurn(c, v, p, j);
      MembersMatchRead(c, v.members, v.isObject, c.r.skip(p + 1), b, j - 1);
    }
  }

  lemma {:induction false} EmptyMatchReads(c: Matching, isObject: bool, p: nat, j: nat)
    requires MatchesAt(CollectionPattern(isObject, []), c.t, p, j)
    ensures At(c.t, p, OpenChar(isObject))
    ensures MembersReadAs([], isObject, c.r, c.t, c.r.skip(p + 1)) == Some(j)
  {
    var a, b := CollectionSplit(isObject, [], c.t, p, j);
    assert c.t[p] == c.t[p..p + 1][0];
    assert SpacesBetween(c.t, p + 1, j - 1);
  }

  /** Behind the opening bracket stand the joined members, and where they end the collection closes. */
  lemma {:induction false} CollectionTurn(c: Matching, v: SearchValue, p: nat, j: nat) returns (b: nat)
    requires v.Collection? && WellFormed(v) && c.Matches(v, p, j) && v.members != []
    ensures At(c.t, p, OpenChar(v.isObject)) && j > 0
    ensures Joined(c, v.members, c.r.skip(p + 1), b) && Closes(c, v.isObject, b, j - 1)
  {
    var a;
    a, b := CollectionSplit(v.isObject, PatternsOf(c.nonprintable, v.members), c.t, p, j);
    assert c.t[p] == c.t[p..p + 1][0];
    MayFollowSpacedChar(c.t, b, j - 1, Close(v.isObject));
    LastTurn(c, v.isObject, b, j - 1);
    JoinedStart(c, v.members, v.isObject, a, b);
  }

  lemma {:induction false} EntryMatchReads(c: Matching, m: Member, i: nat, j: nat)
    requires m.Entry? && WellFormedMember(m, true) && MatchesMember(c, m, i, j)
    ensures MemberReadAs(m, true, c.r, c.t, i) == Some(j)
    decreases m, 6
  {
    var k, colon, v := EntryTurn(c, m.key, m.value, i, j);
    MatchReads(c, m.key, i, i, k);
    MatchReads(c, m.value, colon + 1, v, j);
  }

  lemma {:induction false} MemberMatchReads(c: Matching, m: Member, isObject: bool, i: nat, j: nat)
    requires WellFormedMember(m, isObject) && MatchesMember(c, m, i, j)
    ensures MemberReadAs(m, isObject, c.r, c.t, i) == Some(j)
    decreases m, 7
  {
    if m.Entry? {
      EntryMatchReads(c, m, i, j);
    } else {
      MatchReads(c, m.value, i, i, j);
    }
  }

  lemma {:induction false} LastTurn(c: Matching, isObject: bool, end: nat, close: nat)
    requires SpacesBetween(c.t, end, close) && At(c.t, close, Close(isObject))
    ensures NextTurn(isObject, c.r, c.t, end) == Some(close)
  {
  }

  lemma {:induction false} CommaTurn(c: Matching, isObject: bool, end: nat, comma: nat)
    requires SpacesBetween(c.t, end, comma) && At(c.t, comma, ',')
    ensures NextTurn(isObject, c.r, c.t, end) == Some(c.r.skip(comma + 1))
  {
  }

  /** Where joined members end, their collection closes. */
  ghost predicate Closes(c: Matching, isObject: bool, b: nat, close: nat) {
    && b <= |c.t| && MayFollow(c.t, b)
    && NextTurn(isObject, c.r, c.t, b) == Some(close) && At(c.t, close, Close(isObject))
  }

  ghost predicate Joined(c: Matching, members: seq<Member>, a: nat, b: nat) {
    MatchesAt(Join(PatternsOf(c.nonprintable, members)), c.t, a, b)
  }

  /** Joined members start with a value. */
  lemma {:induction false} JoinedStart(c: Matching, members: seq<Member>, isObject: bool, a: nat, b: nat)
    requires members != [] && WellFormedMember(members[0], isObject)
    requires Joined(c, members, a, b) && MayFollow(c.t, b)
    ensures a < |c.t| && StartsValue(c.t[a])
  {
    if |members| == 1 {
      MemberMatchStart(c, members[0], isObject, a, b);
    } else {
      var k, comma, next := JoinSplit(PatternsOf(c.nonprintable, members), c.t, a, b);
      MayFollowSpacedChar(c.t, k, comma, ',');
      MemberMatchStart(c, members[0], isObject, a, k);
    }
  }

  /** The first of several members, and the next turn behind its comma. */
  lemma {:induction false} CommaSplit(
    c: Matching, members: seq<Member>, isObject: bool, a: nat, b: nat) returns (k: nat, next: nat)
    requires |members| > 1 && WellFormedMember(members[1], isObject) && Joined(c, members, a, b) && MayFollow(c.t, b)
    ensures MatchesMember(c, members[0], a, k) && k <= |c.t|
    ensures NextTurn(isObject, c.r, c.t, k) == Some(next) && Joined(c, members[1..], next, b)
  {
    var comma;
    k, comma, next := JoinSplit(PatternsOf(c.nonprintable, members), c.t, a, b);
    MayFollowSpacedChar(c.t, k, comma, ',');
    CommaTurn(c, isObject, k, comma);
    JoinedStart(c, members[1..], isObject, next, b);
  }

  /** The first member is read, and reading goes on with the rest. */
  lemma {:induction false} FirstRead(c: Matching, members: seq<Member>, isObject: bool, a: nat, end: nat)
    requires members != [] && WellFormedMember(members[0], isObject) && MatchesMember(c, members[0], a, end)
    requires NextTurn(isObject, c.r, c.t, end).Some?
    ensures MembersReadAs(members, isObject, c.r, c.t, a)
         == MembersReadAs(members[1..], isObject, c.r, c.t, NextTurn(isObject, c.r, c.t, end).value)
    decreases members, 0
  {
    MemberMatchReads(c, members[0], isObject, a, end);
  }

  /** Joined members from a to b are read one by one. */
  lemma {:induction false} MembersMatchRead(
    c: Matching, members: seq<Member>, isObject: bool, a: nat, b: nat, close: nat)
    requires members != [] && forall m <- members :: WellFormedMember(m, isObject)
    requires Joined(c, members, a, b) && Closes(c, isObject, b, close)
    ensures a <= |c.t| && MembersReadAs(members, isObject, c.r, c.t, a) == Some(close + 1)
    decreases members, 2
  {
    if |members| == 1 {
      FirstRead(c, members, isObject, a, b);
    } else {
      var next := FirstTurn(c, members, isObject, a, b);
      MembersMatchRead(c, members[1..], isObject, next, b, close);
    }
  }

  lemma {:induction false} FirstTurn(
    c: Matching, members: seq<Member>, isObject: bool, a: nat, b: nat) returns (next: nat)
    requires |members| > 1 && WellFormedMember(members[0], isObject) && WellFormedMember(members[1], isObject)
    requires Joined(c, members, a, b) && MayFollow(c.t, b)
    ensures a <= |c.t| && next <= |c.t| && Joined(c, members[1..], next, b)
    ensures MembersReadAs(members, isObject, c.r, c.t, a) == MembersReadAs(members[1..], isObject, c.r, c.t, next)
    decreases members, 1
  {
    var k;
    k, next := CommaSplit(c, members, isObject, a, b);
    FirstRead(c, members, isObject, a, k);
  }
}
