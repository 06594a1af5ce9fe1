/** Where numbers, words and quoted strings end, and what the parser makes of them. */
module SearchScalars {
  import opened Options
  import opened SearchText
  import opened SearchValue

  datatype Parse = TooDeep | NoLiteral | Parsed(value: SearchValue, end: nat)

  function DigitsEnd(t: string, i: nat): (r: nat)
    requires i <= |t|
    ensures i <= r <= |t|
    ensures forall k :: i <= k < r ==> IsDigit(t[k])
    ensures r < |t| ==> !IsDigit(t[r])
    decreases |t| - i
  {
    if i < |t| && IsDigit(t[i]) then DigitsEnd(t, i + 1) else i
  }

  function FractionEnd(t: string, i: nat): (r: nat)
    requires i <= |t|
    ensures i <= r <= |t|
  {
    if At(t, i, '.') && DigitsEnd(t, i + 1) > i + 1 then DigitsEnd(t, i + 1) else i
  }

  function ExponentEnd(t: string, i: nat): (r: nat)
    requires i <= |t|
    ensures i <= r <= |t|
  {
    if At(t, i, 'e') || At(t, i, 'E') then
      var digits := if At(t, i + 1, '+') || At(t, i + 1, '-') then i + 2 else i + 1;
      if DigitsEnd(t, digits) > digits then DigitsEnd(t, digits) else i
    else i
  }

  function TailEnd(t: string, i: nat): (r: nat)
    requires i <= |t|
    ensures i <= r <= |t|
  {
    ExponentEnd(t, FractionEnd(t, i))
  }

  /** NUMBER_PATTERN from i, greedy; i itself when nothing matches. */
  function NumberEnd(t: string, i: nat): (r: nat)
    requires i <= |t|
    ensures i <= r <= |t|
  {
    var digits := if At(t, i, '-') then i + 1 else i;
    if DigitsEnd(t, digits) == digits then i else TailEnd(t, DigitsEnd(t, digits))
  }

  /** WORD_PATTERN from i. */
  function WordEnd(t: string, i: nat): (r: nat)
    requires i <= |t|
    ensures i <= r <= |t|
    ensures forall k :: i <= k < r ==> IsLetter(t[k])
    ensures r < |t| ==> !IsLetter(t[r])
    decreases |t| - i
  {
    if i < |t| && IsLetter(t[i]) then WordEnd(t, i + 1) else i
  }

  function WordValue(word: string): Option<SearchValue> {
    var lower := Lower(word);
    if lower == "true" then Some(Bool(true))
    else if lower == "false" then Some(Bool(false))
    else if lower == "none" || lower == "null" then Some(Null)
    else None
  }

  function QuotedAt(t: string, i: nat): (r: Parse)
    requires i < |t|
    ensures r.Parsed? ==> i < r.end <= |t| && r.value.Str?
    ensures !r.TooDeep?
  {
    match Unquote(t, i + 1, t[i])
    case None => NoLiteral
    case Some(piece) => Parsed(Str(piece.text), piece.end)
  }

  function ScalarAt(t: string, i: nat): (r: Parse)
    requires i < |t|
    ensures r.Parsed? ==> i < r.end <= |t| && !r.value.Collection?
    ensures !r.TooDeep?
  {
    if t[i] == '\"' || t[i] == '\'' then QuotedAt(t, i)
    else if NumberEnd(t, i) > i then Parsed(Num(t[i..NumberEnd(t, i)]), NumberEnd(t, i))
    else
      match WordValue(t[i..WordEnd(t, i)])
      case None => NoLiteral
      case Some(value) => if WordEnd(t, i) > i then Parsed(value, WordEnd(t, i)) else NoLiteral
  }

  predicate StartsScalar(c: char) {
    c == '\'' || c == '\"' || c == '-' || IsDigit(c) || IsLetter(c)
  }

  predicate StartsValue(c: char) {
    StartsScalar(c) || c == '[' || c == '{'
  }
}
