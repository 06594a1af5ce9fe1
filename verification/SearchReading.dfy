/** A text without a backslash, read by the parser: its tokens, its matches, and the values it gives. */
module SearchReading {
  import opened Options
  import opened SearchText
  import opened SearchValue
  import opened SearchScalars
  import opened SearchParser
  import opened SearchShape
  import opened SearchPattern
  import opened SearchMatch
  import opened SearchTokens
  import opened SearchFind

  // ---- Scalars and white space are inner tokens ----

  lemma {:induction false} UnquotePlain(t: string, i: nat, quote: char)
    requires NoBackslash(t) && i <= |t| && Unquote(t, i, quote).Some?
    ensures QuoteEnd(t, i, quote) == Some(Unquote(t, i, quote).value.end)
    decreases |t| - i
  {
    if t[i] != quote {
      assert t[i] in t;
      UnquotePlain(t, i + 1, quote);
    }
  }

  lemma {:induction false} QuotedPath(t: string, p: nat)
    requires NoBackslash(t) && p < |t| && IsQuote(t[p]) && QuotedAt(t, p).Parsed?
    ensures Path(t, Inner, p, QuotedAt(t, p).end)
  {
    UnquotePlain(t, p + 1, t[p]);
    assert TokenEnd(t, p) == Some(QuotedAt(t, p).end);
    assert Path(t, Inner, QuotedAt(t, p).end, QuotedAt(t, p).end);
  }

  predicate IsNumeric(c: char) {
    IsDigit(c) || c == '-' || c == '+' || c == '.' || c == 'e' || c == 'E'
  }

  ghost predicate NumericRun(t: string, i: nat, j: nat) {
    i <= j <= |t| && forall k :: i <= k < j ==> IsNumeric(t[k])
  }

  lemma {:induction false} FractionNumeric(t: string, i: nat)
    requires i <= |t|
    ensures NumericRun(t, i, FractionEnd(t, i))
  {
  }

  lemma {:induction false} ExponentNumeric(t: string, i: nat)
    requires i <= |t|
    ensures NumericRun(t, i, ExponentEnd(t, i))
  {
  }

  lemma {:induction false} NumberNumeric(t: string, i: nat)
    requires i <= |t|
    ensures NumericRun(t, i, NumberEnd(t, i))
  {
    var digits := if At(t, i, '-') then i + 1 else i;
    var k := DigitsEnd(t, digits);
    if k > digits {
      FractionNumeric(t, k);
      ExponentNumeric(t, FractionEnd(t, k));
    }
  }

  lemma {:induction false} NumberPath(t: string, p: nat)
    requires p < |t|
    ensures Path(t, Inner, p, NumberEnd(t, p))
  {
    NumberNumeric(t, p);
    PlainPath(t, Inner, p, NumberEnd(t, p));
  }

  predicate IsWord(word: string) {
    word == "true" || word == "false" || word == "none" || word == "null"
  }

  lemma {:induction false} NoBInWord(word: string, k: nat)
    requires IsWord(word) && k < |word|
    ensures word[k] != 'b'
  {
  }

  lemma {:induction false} WordClean(word: string)
    requires IsWord(Lower(word))
    ensures forall k :: 0 <= k < |word| ==> word[k] != 'b'
  {
    forall k | 0 <= k < |word| ensures word[k] != 'b' {
      NoBInWord(Lower(word), k);
      assert Lower(word)[k] == LowerChar(word[k]);
    }
  }

  lemma {:induction false} WordPath(t: string, p: nat)
    requires p < |t| && WordValue(t[p..WordEnd(t, p)]).Some?
    ensures Path(t, Inner, p, WordEnd(t, p))
  {
    var word := t[p..WordEnd(t, p)];
    WordClean(word);
    forall k | p <= k < WordEnd(t, p) ensures !IsQuote(t[k]) && Inner(t[k]) {
      assert t[k] == word[k - p] && IsLetter(t[k]);
    }
    PlainPath(t, Inner, p, WordEnd(t, p));
  }

  lemma {:induction false} ScalarPath(t: string, p: nat)
    requires NoBackslash(t) && p < |t| && ScalarAt(t, p).Parsed?
    ensures Path(t, Inner, p, ScalarAt(t, p).end)
  {
    if t[p] == '\"' || t[p] == '\'' {
      QuotedPath(t, p);
    } else if NumberEnd(t, p) > p {
      NumberPath(t, p);
    } else {
      WordPath(t, p);
    }
  }

  lemma {:induction false} SkipWideRange(t: string, i: nat)
    requires i <= |t|
    ensures SpacesBetween(t, i, SkipWide(t, i))
    decreases |t| - i
  {
    if i < |t| && IsRegexSpace(t[i]) { SkipWideRange(t, i + 1); }
  }

  lemma {:induction false} SpacesPath(t: string, i: nat, j: nat)
    requires SpacesBetween(t, i, j)
    ensures Path(t, Inner, i, j)
  {
    forall k | i <= k < j ensures !IsQuote(t[k]) && Inner(t[k]) {
      assert IsRegexSpace(t[k]);
    }
    PlainPath(t, Inner, i, j);
  }

  lemma {:induction false} TextReaderTokenized(t: string)
    requires NoBackslash(t)
    ensures Tokenized(TextReader(t), t)
  {
    TextReaderScans(t);
    forall p: nat | p < |t| && ScalarAt(t, p).Parsed? ensures Path(t, Inner, p, ScalarAt(t, p).end) {
      ScalarPath(t, p);
    }
    forall p: nat | p <= |t| ensures Path(t, Inner, p, SkipWide(t, p)) {
      SkipWideRange(t, p);
      SpacesPath(t, p, SkipWide(t, p));
    }
  }

  lemma {:induction false} SkipOverSpaces(t: string, i: nat, p: nat)
    requires SpacesBetween(t, i, p) && p < |t| && IsSolid(t[p])
    ensures SkipWide(t, i) == p
    decreases p - i
  {
    if i < p { SkipOverSpaces(t, i + 1, p); } else { SolidStays(t, p); }
  }

  function Matcher(nonprintable: char -> bool, t: string): Context {
    Context(nonprintable, TextReader(t), t)
  }

  lemma {:induction false} MatcherValid(nonprintable: char -> bool, t: string)
    requires NoBackslash(t)
    ensures Matcher(nonprintable, t).Valid()
  {
    TextReaderFollows(t);
    forall i: nat, p: nat | SpacesBetween(t, i, p) && p < |t| && IsSolid(t[p]) ensures TextReader(t).skip(i) == p {
      SkipOverSpaces(t, i, p);
    }
  }

  // ---- One text, one value ----

  /** A pattern that matches where the parser reads describes the value that the parser reads, to the same end. */
  lemma {:induction false} MatchIsParse(
    nonprintable: char -> bool, v: SearchValue, t: string, i: nat, p: nat, j: nat, depth: nat)
    requires NoBackslash(t) && WellFormed(v)
    requires i <= |t| && LiteralAt(t, i, depth).Parsed?
    requires SpacesBetween(t, i, p) && MatchesAt(PatternOf(nonprintable, v), t, p, j) && MayFollow(t, j)
    ensures LiteralAt(t, i, depth) == Parsed(v, j)
  {
    MatcherValid(nonprintable, t);
    MatchReads(Matcher(nonprintable, t), v, i, p, j);
    ParsedReads(TextReader(t), t, i, depth);
    ReadUnique(v, LiteralAt(t, i, depth).value, TextReader(t), t, i);
  }

  // ---- Parsed values are well formed ----

  lemma {:induction false} DigitsPrefix(t: string, i: nat, k: nat, end: nat)
    requires i <= k <= end <= |t| && DigitsEnd(t, k) <= end
    ensures i + DigitsEnd(t[i..end], k - i) == DigitsEnd(t, k)
    decreases end - k
  {
    if k < end && IsDigit(t[k]) { DigitsPrefix(t, i, k + 1, end); }
  }

  lemma {:induction false} FractionPrefix(t: string, i: nat, k: nat, end: nat)
    requires i <= k <= end <= |t| && FractionEnd(t, k) <= end
    requires k < end && FractionEnd(t, k) == k ==> t[k] != '.'
    ensures i + FractionEnd(t[i..end], k - i) == FractionEnd(t, k)
  {
    if k < end && t[k] == '.' { DigitsPrefix(t, i, k + 1, end); }
  }

  lemma {:induction false} ExponentPrefix(t: string, i: nat, k: nat, end: nat)
    requires i <= k <= end <= |t| && ExponentEnd(t, k) == end
    ensures i + ExponentEnd(t[i..end], k - i) == end
  {
    if k < end {
      var digits := if At(t, k + 1, '+') || At(t, k + 1, '-') then k + 2 else k + 1;
      assert k + 1 < end;
      DigitsPrefix(t, i, digits, end);
    }
  }

  lemma {:induction false} TailPrefix(t: string, i: nat, k: nat, end: nat)
    requires i <= k <= end <= |t| && TailEnd(t, k) == end
    ensures i + TailEnd(t[i..end], k - i) == end
  {
    FractionPrefix(t, i, k, end);
    ExponentPrefix(t, i, FractionEnd(t, k), end);
  }

  /** What NUMBER_PATTERN takes from a text, it takes whole when it stands alone. */
  lemma {:induction false} NumberPrefix(t: string, i: nat, end: nat, n: string)
    requires i < |t| && end == NumberEnd(t, i) > i && n == t[i..end]
    ensures NumberEnd(n, 0) == |n|
  {
    NumberParts(t, i);
    NumberParts(n, 0);
    assert i + SignEnd(n, 0) == SignEnd(t, i);
    DigitsPrefix(t, i, SignEnd(t, i), end);
    TailPrefix(t, i, DigitsEnd(t, SignEnd(t, i)), end);
  }

  lemma {:induction false} ScalarWellFormed(t: string, p: nat)
    requires p < |t| && ScalarAt(t, p).Parsed?
    ensures WellFormed(ScalarAt(t, p).value)
  {
    if t[p] != '\"' && t[p] != '\'' && NumberEnd(t, p) > p {
      NumberPrefix(t, p, NumberEnd(t, p), t[p..NumberEnd(t, p)]);
    }
  }

  /** Whatever a reader of well-formed scalars reads is well formed. */
  lemma {:induction false} ReadWellFormed(v: SearchValue, r: Reader, t: string, i: nat)
    requires Scans(r, t) && i <= |t| && ReadAs(v, r, t, i).Some?
    requires forall p: nat {:trigger r.scan(p)} | p < |t| && r.scan(p).Parsed? :: WellFormed(r.scan(p).value)
    ensures WellFormed(v)
    decreases v, 1
  {
    if v.Collection? {
      var p := r.skip(i);
      MembersWellFormed(v.members, v.isObject, r, t, r.skip(p + 1));
    }
  }

  lemma {:induction false} MembersWellFormed(members: seq<Member>, isObject: bool, r: Reader, t: string, i: nat)
    requires Scans(r, t) && i <= |t| && MembersReadAs(members, isObject, r, t, i).Some?
    requires forall p: nat {:trigger r.scan(p)} | p < |t| && r.scan(p).Parsed? :: WellFormed(r.scan(p).value)
    ensures forall m <- members :: WellFormedMember(m, isObject)
    decreases members, 0
  {
    if members != [] {
      MemberWellFormed(members[0], isObject, r, t, i);
      var end := MemberReadAs(members[0], isObject, r, t, i).value;
      MembersWellFormed(members[1..], isObject, r, t, NextTurn(isObject, r, t, end).value);
    }
  }

  lemma {:induction false} MemberWellFormed(m: Member, isObject: bool, r: Reader, t: string, i: nat)
    requires Scans(r, t) && i <= |t| && MemberReadAs(m, isObject, r, t, i).Some?
    requires forall p: nat {:trigger r.scan(p)} | p < |t| && r.scan(p).Parsed? :: WellFormed(r.scan(p).value)
    ensures WellFormedMember(m, isObject)
    decreases m, 2
  {
    match m
    case Item(value) => ReadWellFormed(value, r, t, i);
    case Entry(key, value) =>
      ReadWellFormed(key, r, t, i);
      ReadWellFormed(value, r, t, r.skip(ReadAs(key, r, t, i).value) + 1);
  }

  lemma {:induction false} ParsedWellFormed(t: string, i: nat, depth: nat)
    requires i <= |t| && LiteralAt(t, i, depth).Parsed?
    ensures WellFormed(LiteralAt(t, i, depth).value)
  {
    TextReaderFollows(t);
    ParsedReads(TextReader(t), t, i, depth);
    forall p: nat | p < |t| && TextReader(t).scan(p).Parsed? ensures WellFormed(TextReader(t).scan(p).value) {
      ScalarWellFormed(t, p);
    }
    ReadWellFormed(LiteralAt(t, i, depth).value, TextReader(t), t, i);
  }
}
