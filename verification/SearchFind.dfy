/**
  Where a key can stand: behind every `{` or `,` at a token boundary of a value's text, an entry that reads
  there is an entry of the value, at some depth.
 */
module SearchFind {
  import opened Options
  import opened SearchText
  import opened SearchValue
  import opened SearchShape
  import opened SearchTokens

  /** What starts a token of a value: neither a bytes literal's `b` nor a custom repr's `<`. */
  const Clean := (c: char) => c != 'b' && c != '<'

  predicate IsDelimiter(c: char) {
    c == ',' || c == '{'
  }

  /** What starts a token inside a scalar or white space. */
  const Inner := (c: char) => Clean(c) && !IsDelimiter(c)

  ghost predicate Tokenized(r: Reader, t: string) {
    && Scans(r, t)
    && (forall p: nat {:trigger r.scan(p)} | p < |t| && r.scan(p).Parsed? :: Path(t, Inner, p, r.scan(p).end))
    && (forall p: nat {:trigger r.skip(p)} | p <= |t| :: Path(t, Inner, p, r.skip(p)))
  }

  // ---- A value's text is tokens ----

  lemma {:induction false} InnerPath(t: string, a: nat, b: nat)
    requires Path(t, Inner, a, b)
    ensures Path(t, Clean, a, b)
  {
    PathWeaken(t, Inner, Clean, a, b);
  }

  lemma {:induction false} CharPath(t: string, a: nat, c: char)
    requires At(t, a, c) && !IsQuote(c) && Clean(c)
    ensures Path(t, Clean, a, a + 1)
  {
  }

  /** White space, then one character. */
  lemma {:induction false} SpacedCharPath(r: Reader, t: string, i: nat, c: char)
    requires Tokenized(r, t) && i <= |t| && At(t, r.skip(i), c) && !IsQuote(c) && Clean(c)
    ensures Path(t, Clean, i, r.skip(i) + 1)
  {
    InnerPath(t, i, r.skip(i));
    CharPath(t, r.skip(i), c);
    PathJoin(t, Clean, i, r.skip(i), r.skip(i) + 1);
  }

  lemma {:induction false} ReadPath(v: SearchValue, r: Reader, t: string, i: nat)
    requires Tokenized(r, t) && i <= |t| && ReadAs(v, r, t, i).Some?
    ensures Path(t, Clean, i, ReadAs(v, r, t, i).value)
    decreases v, 1
  {
    var p := r.skip(i);
    var end := ReadAs(v, r, t, i).value;
    if v.Collection? {
      MembersReadPath(v.members, v.isObject, r, t, r.skip(p + 1));
      OpenPath(r, t, i, OpenChar(v.isObject), end);
    } else {
      InnerPath(t, i, p);
      InnerPath(t, p, end);
      PathJoin(t, Clean, i, p, end);
    }
  }

  lemma {:induction false} MemberReadPath(m: Member, isObject: bool, r: Reader, t: string, i: nat)
    requires Tokenized(r, t) && i <= |t| && MemberReadAs(m, isObject, r, t, i).Some?
    ensures Path(t, Clean, i, MemberReadAs(m, isObject, r, t, i).value)
    decreases m, 2
  {
    match m
    case Item(value) => ReadPath(value, r, t, i);
    case Entry(key, value) =>
      ReadPath(key, r, t, i);
      var end := ReadAs(key, r, t, i).value;
      var colon := r.skip(end);
      ReadPath(value, r, t, colon + 1);
      ColonPath(r, t, i, end, ReadAs(value, r, t, colon + 1).value);
  }

  lemma {:induction false} ColonPath(r: Reader, t: string, i: nat, end: nat, last: nat)
    requires Tokenized(r, t) && end <= |t| && Path(t, Clean, i, end)
    requires At(t, r.skip(end), ':') && Path(t, Clean, r.skip(end) + 1, last)
    ensures Path(t, Clean, i, last)
  {
    SpacedCharPath(r, t, end, ':');
    PathJoin(t, Clean, end, r.skip(end) + 1, last);
    PathJoin(t, Clean, i, end, last);
  }

  /** An opening bracket, white space and the rest. */
  lemma {:induction false} OpenPath(r: Reader, t: string, i: nat, c: char, last: nat)
    requires Tokenized(r, t) && i <= |t| && At(t, r.skip(i), c) && !IsQuote(c) && Clean(c)
    requires Path(t, Clean, r.skip(r.skip(i) + 1), last)
    ensures Path(t, Clean, i, last)
  {
    SpacedCharPath(r, t, i, c);
    InnerPath(t, r.skip(i) + 1, r.skip(r.skip(i) + 1));
    PathJoin(t, Clean, r.skip(i) + 1, r.skip(r.skip(i) + 1), last);
    PathJoin(t, Clean, i, r.skip(i) + 1, last);
  }

  lemma {:induction false} TurnPath(isObject: bool, r: Reader, t: string, end: nat)
    requires Tokenized(r, t) && end <= |t| && NextTurn(isObject, r, t, end).Some?
    ensures Path(t, Clean, end, NextTurn(isObject, r, t, end).value)
  {
    var j := r.skip(end);
    if At(t, j, ',') {
      SpacedCharPath(r, t, end, ',');
      InnerPath(t, j + 1, r.skip(j + 1));
      PathJoin(t, Clean, end, j + 1, r.skip(j + 1));
    } else {
      InnerPath(t, end, j);
    }
  }

  lemma {:induction false} MembersReadPath(members: seq<Member>, isObject: bool, r: Reader, t: string, i: nat)
    requires Tokenized(r, t) && i <= |t| && MembersReadAs(members, isObject, r, t, i).Some?
    ensures Path(t, Clean, i, MembersReadAs(members, isObject, r, t, i).value)
    decreases members, 0
  {
    if members == [] {
      CharPath(t, i, Close(isObject));
    } else {
      MemberReadPath(members[0], isObject, r, t, i);
      var end := MemberReadAs(members[0], isObject, r, t, i).value;
      var next := NextTurn(isObject, r, t, end).value;
      TurnPath(isObject, r, t, end);
      PathJoin(t, Clean, i, end, next);
      MembersReadPath(members[1..], isObject, r, t, next);
      PathJoin(t, Clean, i, next, MembersReadAs(members, isObject, r, t, i).value);
    }
  }

  // ---- Entries behind delimiters ----

  /** m is a member of v or of a value nested in v, keys included. */
  ghost predicate HasEntry(v: SearchValue, m: Member)
    decreases v, 1
  {
    v.Collection? && MembersHave(v.members, m)
  }

  ghost predicate MembersHave(members: seq<Member>, m: Member)
    decreases members, 0
  {
    members != [] && (members[0] == m || MemberHas(members[0], m) || MembersHave(members[1..], m))
  }

  ghost predicate MemberHas(n: Member, m: Member)
    decreases n, 2
  {
    HasEntry(n.value, m) || (n.Entry? && HasEntry(n.key, m))
  }

  /** A delimiter at x, reached token by token from i, with an entry behind it. */
  ghost predicate DelimitsEntry(r: Reader, t: string, i: nat, x: nat, m: Member)
    requires Scans(r, t)
  {
    && i <= x < |t| && Path(t, Any, i, x) && IsDelimiter(t[x])
    && m.Entry? && MemberReadAs(m, true, r, t, x + 1).Some?
  }

  /** No delimiter stands inside a scalar or white space. */
  lemma {:induction false} Beyond(r: Reader, t: string, i: nat, p: nat, x: nat, m: Member)
    requires Scans(r, t) && DelimitsEntry(r, t, i, x, m) && Path(t, Inner, i, p)
    ensures p <= x && DelimitsEntry(r, t, p, x, m)
  {
    PathRest(t, Inner, i, p, x);
  }

  lemma {:induction false} BeyondClean(r: Reader, t: string, i: nat, p: nat, x: nat, m: Member)
    requires Scans(r, t) && DelimitsEntry(r, t, i, x, m) && Path(t, Clean, i, p) && p <= x
    ensures DelimitsEntry(r, t, p, x, m)
  {
    PathRest(t, Clean, i, p, x);
  }

  lemma {:induction false} BeyondChar(r: Reader, t: string, i: nat, x: nat, m: Member, c: char)
    requires Scans(r, t) && DelimitsEntry(r, t, i, x, m) && At(t, i, c) && !IsQuote(c) && i < x
    ensures DelimitsEntry(r, t, i + 1, x, m)
  {
    assert TokenEnd(t, i) == Some(i + 1);
  }

  lemma {:induction false} MemberSkip(m: Member, isObject: bool, r: Reader, t: string, i: nat)
    requires Scans(r, t) && i <= |t| && MemberReadAs(m, isObject, r, t, i).Some?
    ensures MemberReadAs(m, isObject, r, t, r.skip(i)) == MemberReadAs(m, isObject, r, t, i)
  {
    MemberReadStart(m, isObject, r, t, i);
  }

  /** Where an object's turn starts, an entry that reads there is the next member. */
  lemma {:induction false} FirstEntry(members: seq<Member>, r: Reader, t: string, i: nat, m: Member)
    requires Scans(r, t) && i <= |t| && m.Entry? && MemberReadAs(m, true, r, t, i).Some?
    requires MembersReadAs(members, true, r, t, r.skip(i)).Some?
    ensures members != [] && members[0] == m
  {
    MemberSkip(m, true, r, t, i);
    MemberReadStart(m, true, r, t, i);
    if members != [] {
      MemberReadUnique(members[0], m, true, r, t, r.skip(i));
    }
  }

  /** Where a list's item reads, no entry reads: the entry's colon is no separator of the list. */
  lemma {:induction false} ItemOrEntry(n: Member, r: Reader, t: string, i: nat, m: Member)
    requires Scans(r, t) && i <= |t| && m.Entry? && MemberReadAs(m, true, r, t, i).Some?
    requires MemberReadAs(n, false, r, t, i).Some?
    ensures NextTurn(false, r, t, MemberReadAs(n, false, r, t, i).value).None?
  {
    assert ReadAs(m.key, r, t, i).Some?;
    ReadUnique(n.value, m.key, r, t, i);
  }

  lemma {:induction false} NoEntryInList(members: seq<Member>, r: Reader, t: string, i: nat, m: Member)
    requires Scans(r, t) && i <= |t| && m.Entry? && MemberReadAs(m, true, r, t, i).Some?
    ensures MembersReadAs(members, false, r, t, r.skip(i)).None?
  {
    MemberSkip(m, true, r, t, i);
    MemberReadStart(m, true, r, t, i);
    if members != [] && MemberReadAs(members[0], false, r, t, r.skip(i)).Some? {
      ItemOrEntry(members[0], r, t, r.skip(i), m);
    }
  }

  lemma {:induction false} FindInValue(v: SearchValue, r: Reader, t: string, i: nat, x: nat, m: Member)
    requires Tokenized(r, t) && i <= |t| && ReadAs(v, r, t, i).Some?
    requires DelimitsEntry(r, t, i, x, m) && x < ReadAs(v, r, t, i).value
    ensures HasEntry(v, m)
    decreases v, 1
  {
    var p := r.skip(i);
    Beyond(r, t, i, p, x, m);
    if v.Collection? {
      var first := r.skip(p + 1);
      if x == p {
        FirstEntry(v.members, r, t, p + 1, m);
      } else {
        BeyondChar(r, t, p, x, m, OpenChar(v.isObject));
        Beyond(r, t, p + 1, first, x, m);
        FindInMembers(v.members, v.isObject, r, t, first, x, m);
      }
    } else {
      Beyond(r, t, p, r.scan(p).end, x, m);
    }
  }

  lemma {:induction false} FindInMember(n: Member, isObject: bool, r: Reader, t: string, i: nat, x: nat, m: Member)
    requires Tokenized(r, t) && i <= |t| && MemberReadAs(n, isObject, r, t, i).Some?
    requires DelimitsEntry(r, t, i, x, m) && x < MemberReadAs(n, isObject, r, t, i).value
    ensures MemberHas(n, m)
    decreases n, 2
  {
    match n
    case Item(value) => FindInValue(value, r, t, i, x, m);
    case Entry(key, value) =>
      var end := ReadAs(key, r, t, i).value;
      if x < end {
        FindInValue(key, r, t, i, x, m);
      } else {
        var colon := r.skip(end);
        ReadPath(key, r, t, i);
        BeyondClean(r, t, i, end, x, m);
        Beyond(r, t, end, colon, x, m);
        BeyondChar(r, t, colon, x, m, ':');
        FindInValue(value, r, t, colon + 1, x, m);
      }
  }

  /** The delimiter is the comma before the next turn, or stands later. */
  lemma {:induction false} FindAtComma(
    rest: seq<Member>, isObject: bool, r: Reader, t: string, comma: nat, x: nat, m: Member)
    requires Tokenized(r, t) && At(t, comma, ',')
    requires MembersReadAs(rest, isObject, r, t, r.skip(comma + 1)).Some?
    requires DelimitsEntry(r, t, comma, x, m)
    ensures MembersHave(rest, m) || DelimitsEntry(r, t, r.skip(comma + 1), x, m)
  {
    if x > comma {
      BeyondChar(r, t, comma, x, m, ',');
      Beyond(r, t, comma + 1, r.skip(comma + 1), x, m);
    } else if isObject {
      FirstEntry(rest, r, t, comma + 1, m);
    } else {
      NoEntryInList(rest, r, t, comma + 1, m);
    }
  }

  lemma {:induction false} FindInTurn(
    rest: seq<Member>, isObject: bool, r: Reader, t: string, end: nat, x: nat, m: Member)
    requires Tokenized(r, t) && end <= |t| && NextTurn(isObject, r, t, end).Some?
    requires MembersReadAs(rest, isObject, r, t, NextTurn(isObject, r, t, end).value).Some?
    requires DelimitsEntry(r, t, end, x, m)
    ensures MembersHave(rest, m) || DelimitsEntry(r, t, NextTurn(isObject, r, t, end).value, x, m)
  {
    var j := r.skip(end);
    Beyond(r, t, end, j, x, m);
    if At(t, j, ',') {
      FindAtComma(rest, isObject, r, t, j, x, m);
    }
  }

  lemma {:induction false} FindInMembers(
    members: seq<Member>, isObject: bool, r: Reader, t: string, i: nat, x: nat, m: Member)
    requires Tokenized(r, t) && i <= |t| && MembersReadAs(members, isObject, r, t, i).Some?
    requires DelimitsEntry(r, t, i, x, m) && x < MembersReadAs(members, isObject, r, t, i).value
    ensures MembersHave(members, m)
    decreases members, 0
  {
    if members != [] {
      var end := MemberReadAs(members[0], isObject, r, t, i).value;
      if x < end {
        FindInMember(members[0], isObject, r, t, i, x, m);
      } else {
        MemberReadPath(members[0], isObject, r, t, i);
        BeyondClean(r, t, i, end, x, m);
        FindInTurn(members[1..], isObject, r, t, end, x, m);
        if !MembersHave(members[1..], m) {
          FindInMembers(members[1..], isObject, r, t, NextTurn(isObject, r, t, end).value, x, m);
        }
      }
    }
  }
}
