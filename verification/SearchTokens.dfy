/**
  The token regexes of task_search.py, and what they say about a text without a backslash: its split into
  plain characters and quoted strings is unique.
 */
module SearchTokens {
  import opened Options
  import opened SearchText

  predicate IsQuote(c: char) {
    c == '\'' || c == '\"'
  }

  // ---- The regexes, backslashes included ----

  /** The inside of QUOTED from i to j; a single-quoted string may also hold a plain backslash. */
  ghost predicate QuotedBody(t: string, i: nat, j: nat, quote: char)
    requires j <= |t|
    decreases if i <= j then j - i else 0
  {
    i == j || (i < j && (
      || (t[i] != quote && t[i] != '\\' && QuotedBody(t, i + 1, j, quote))
      || (t[i] == '\\' && i + 2 <= j && t[i + 1] != '\n' && QuotedBody(t, i + 2, j, quote))
      || (t[i] == '\\' && quote == '\'' && QuotedBody(t, i + 1, j, quote))))
  }

  /** QUOTED matches t[i..j]. */
  ghost predicate QuotedMatches(t: string, i: nat, j: nat) {
    i + 2 <= j <= |t| && IsQuote(t[i]) && t[j - 1] == t[i] && QuotedBody(t, i + 1, j - 1, t[i])
  }

  /** TOKEN matches t[i..j]. */
  ghost predicate TokenMatches(t: string, i: nat, j: nat) {
    || (j == i + 1 && j <= |t| && !IsQuote(t[i]) && t[i] != '\\')
    || QuotedMatches(t, i, j)
  }

  /** TOKEN* matches t[i..j]. */
  ghost predicate TokensMatch(t: string, i: nat, j: nat)
    decreases if i <= j then j - i else 0
  {
    i <= j <= |t| && (i == j || exists m: nat :: i < m <= j && TokenMatches(t, i, m) && TokensMatch(t, m, j))
  }

  /** A run of plain characters. */
  lemma {:induction false} PlainTokens(t: string, i: nat, j: nat)
    requires i <= j <= |t| && forall k :: i <= k < j ==> !IsQuote(t[k]) && t[k] != '\\'
    ensures TokensMatch(t, i, j)
    decreases j - i
  {
    if i < j {
      assert TokenMatches(t, i, i + 1);
      PlainTokens(t, i + 1, j);
    }
  }

  // ---- Without backslashes a text has one reading ----

  /** Behind the next such quote. */
  function QuoteEnd(t: string, i: nat, quote: char): (end: Option<nat>)
    requires i <= |t|
    ensures end.Some? ==> i < end.value <= |t| && t[end.value - 1] == quote
    decreases |t| - i
  {
    if i == |t| then None else if t[i] == quote then Some(i + 1) else QuoteEnd(t, i + 1, quote)
  }

  function TokenEnd(t: string, i: nat): (end: Option<nat>)
    requires i < |t|
    ensures end.Some? ==> i < end.value <= |t|
  {
    if IsQuote(t[i]) then QuoteEnd(t, i + 1, t[i]) else Some(i + 1)
  }

  lemma {:induction false} BodyIsPlain(t: string, i: nat, j: nat, quote: char)
    requires NoBackslash(t) && i <= j < |t| && t[j] == quote && IsQuote(quote) && QuotedBody(t, i, j, quote)
    ensures QuoteEnd(t, i, quote) == Some(j + 1)
    decreases j - i
  {
    if i < j {
      assert t[i] in t;
      BodyIsPlain(t, i + 1, j, quote);
    }
  }

  lemma {:induction false} TokenIsNext(t: string, i: nat, j: nat)
    requires NoBackslash(t) && TokenMatches(t, i, j)
    ensures i < |t| && TokenEnd(t, i) == Some(j)
  {
    if QuotedMatches(t, i, j) {
      BodyIsPlain(t, i + 1, j - 1, t[i]);
    }
  }

  lemma {:induction false} PlainIsBody(t: string, i: nat, quote: char)
    requires NoBackslash(t) && i <= |t| && QuoteEnd(t, i, quote).Some?
    ensures QuotedBody(t, i, QuoteEnd(t, i, quote).value - 1, quote)
    decreases |t| - i
  {
    if t[i] != quote {
      assert t[i] in t;
      PlainIsBody(t, i + 1, quote);
    }
  }

  lemma {:induction false} NextIsToken(t: string, i: nat)
    requires NoBackslash(t) && i < |t| && TokenEnd(t, i).Some?
    ensures TokenMatches(t, i, TokenEnd(t, i).value)
  {
    assert t[i] in t;
    if IsQuote(t[i]) { PlainIsBody(t, i + 1, t[i]); }
  }

  /** Going token by token from a leads to b, and every token on the way starts with an `ok` character. */
  ghost predicate Path(t: string, ok: char -> bool, a: nat, b: nat)
    decreases if a <= b then b - a else 0
  {
    a <= b <= |t| && (a == b || (ok(t[a]) && TokenEnd(t, a).Some? && Path(t, ok, TokenEnd(t, a).value, b)))
  }

  const Any := (c: char) => true

  lemma {:induction false} TokensPath(t: string, a: nat, b: nat)
    requires NoBackslash(t) && TokensMatch(t, a, b)
    ensures Path(t, Any, a, b)
    decreases b - a
  {
    if a < b {
      var m: nat :| a < m <= b && TokenMatches(t, a, m) && TokensMatch(t, m, b);
      TokenIsNext(t, a, m);
      TokensPath(t, m, b);
    }
  }

  lemma {:induction false} PathTokens(t: string, ok: char -> bool, a: nat, b: nat)
    requires NoBackslash(t) && Path(t, ok, a, b)
    ensures TokensMatch(t, a, b)
    decreases b - a
  {
    if a < b {
      NextIsToken(t, a);
      PathTokens(t, ok, TokenEnd(t, a).value, b);
    }
  }

  lemma {:induction false} PathJoin(t: string, ok: char -> bool, a: nat, b: nat, c: nat)
    requires Path(t, ok, a, b) && Path(t, ok, b, c)
    ensures Path(t, ok, a, c)
    decreases b - a
  {
    if a < b { PathJoin(t, ok, TokenEnd(t, a).value, b, c); }
  }

  /** Two paths from one place: the longer one goes through the end of the shorter one. */
  lemma {:induction false} PathRest(t: string, ok: char -> bool, a: nat, b: nat, c: nat)
    requires Path(t, ok, a, b) && Path(t, Any, a, c)
    ensures b <= c ==> Path(t, Any, b, c)
    ensures c < b ==> ok(t[c])
    decreases b - a
  {
    if a < b && a < c { PathRest(t, ok, TokenEnd(t, a).value, b, c); }
  }

  lemma {:induction false} PathWeaken(t: string, ok: char -> bool, weaker: char -> bool, a: nat, b: nat)
    requires Path(t, ok, a, b) && forall c: char :: ok(c) ==> weaker(c)
    ensures Path(t, weaker, a, b)
    decreases b - a
  {
    if a < b { PathWeaken(t, ok, weaker, TokenEnd(t, a).value, b); }
  }

  /** A run of characters that are no quotes is a path. */
  lemma {:induction false} PlainPath(t: string, ok: char -> bool, a: nat, b: nat)
    requires a <= b <= |t| && forall k :: a <= k < b ==> !IsQuote(t[k]) && ok(t[k])
    ensures Path(t, ok, a, b)
    decreases b - a
  {
    if a < b { PlainPath(t, ok, a + 1, b); }
  }
}
