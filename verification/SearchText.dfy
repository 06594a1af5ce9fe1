/**
  Characters, escapes and the four string printers of server/tasks/task_search.py.
  A `char` is a Unicode scalar value, that is, a Python code point that is no surrogate.
 */
module SearchText {
  import opened Options

  /** " \t\n\r\f\v": the separators both ports spell out. */
  predicate IsSpace(c: char) {
    c == ' ' || '\t' <= c <= '\r'
  }

  /** The other characters of the Unicode White_Space property, as ranges of code points. */
  const WIDE_SPACES: seq<(char, char)> := [
    ('\U{85}', '\U{85}'), ('\U{A0}', '\U{A0}'), ('\U{1680}', '\U{1680}'), ('\U{2000}', '\U{200A}'),
    ('\U{2028}', '\U{2029}'), ('\U{202F}', '\U{202F}'), ('\U{205F}', '\U{205F}'), ('\U{3000}', '\U{3000}')]

  predicate InRanges(c: char, ranges: seq<(char, char)>) {
    ranges != [] && (ranges[0].0 <= c <= ranges[0].1 || InRanges(c, ranges[1..]))
  }

  lemma {:induction false} RangesAbove(c: char, ranges: seq<(char, char)>, bound: char)
    requires InRanges(c, ranges) && forall range <- ranges :: bound <= range.0
    ensures bound <= c
  {
    if !(ranges[0].0 <= c <= ranges[0].1) { RangesAbove(c, ranges[1..], bound); }
  }

  predicate IsWideSpace(c: char)
    ensures IsWideSpace(c) ==> '\U{85}' <= c
  {
    var wide := InRanges(c, WIDE_SPACES);
    if wide then RangesAbove(c, WIDE_SPACES, '\U{85}'); true else false
  }

  /** What `\s` covers in the database's regex engine. */
  predicate IsRegexSpace(c: char) {
    IsSpace(c) || IsWideSpace(c)
  }

  predicate At(t: string, i: nat, c: char) {
    i < |t| && t[i] == c
  }

  predicate NoBackslash(t: string) {
    '\\' !in t
  }

  function SkipSpace(t: string, i: nat): (r: nat)
    requires i <= |t|
    ensures i <= r <= |t|
    ensures r < |t| ==> !IsSpace(t[r])
    decreases |t| - i
  {
    if i < |t| && IsSpace(t[i]) then SkipSpace(t, i + 1) else i
  }

  lemma {:induction false} SkipSpaceRange(t: string, i: nat)
    requires i <= |t|
    ensures forall k :: i <= k < SkipSpace(t, i) ==> IsSpace(t[k])
    decreases |t| - i
  {
    if i < |t| && IsSpace(t[i]) { SkipSpaceRange(t, i + 1); }
  }

  predicate IsDigit(c: char) {
    '0' <= c <= '9'
  }

  predicate IsOctal(c: char) {
    '0' <= c <= '7'
  }

  predicate IsLetter(c: char) {
    'a' <= c <= 'z' || 'A' <= c <= 'Z'
  }

  predicate IsHex(c: char) {
    IsDigit(c) || 'a' <= c <= 'f' || 'A' <= c <= 'F'
  }

  function LowerChar(c: char): char {
    if 'A' <= c <= 'Z' then (c as int + 32) as char else c
  }

  /** str.lower on ASCII text; the parser only lowers runs of ASCII letters. */
  function Lower(s: string): (r: string)
    ensures |r| == |s|
    ensures forall i :: 0 <= i < |s| ==> r[i] == LowerChar(s[i])
  {
    seq(|s|, i requires 0 <= i < |s| => LowerChar(s[i]))
  }

  // ---- Hexadecimal text ----

  function HexDigit(n: nat): char
    requires n < 16
  {
    if n < 10 then ('0' as int + n) as char else ('a' as int + n - 10) as char
  }

  function DigitValue(c: char): (n: nat)
    requires IsHex(c)
    ensures n < 16
  {
    if IsDigit(c) then c as int - '0' as int
    else if 'a' <= c <= 'f' then c as int - 'a' as int + 10
    else c as int - 'A' as int + 10
  }

  predicate AllHex(t: string, i: nat, count: nat) {
    i + count <= |t| && forall k :: i <= k < i + count ==> IsHex(t[k])
  }

  /** int(t[i:i + count], 16) */
  function HexValue(t: string, i: nat, count: nat): nat
    requires AllHex(t, i, count)
  {
    if count == 0 then 0 else HexValue(t, i, count - 1) * 16 + DigitValue(t[i + count - 1])
  }

  /** format(n, "0{width}x") for an n that fits the width. */
  function HexText(n: nat, width: nat): (s: string)
    ensures |s| == width
    ensures forall c <- s :: IsHex(c)
  {
    if width == 0 then "" else HexText(n / 16, width - 1) + [HexDigit(n % 16)]
  }

  function Pow16(width: nat): (r: nat)
    ensures r > 0
  {
    if width == 0 then 1 else 16 * Pow16(width - 1)
  }

  // ---- Reading a quoted string ----

  datatype Piece = Piece(text: string, end: nat)

  predicate IsScalar(code: int) {
    0 <= code < 0xD800 || 0xE000 <= code <= 0x10FFFF
  }

  /**
    HEX_PATTERN and int(digits, 16). Python's `$` also matches before a final newline and int()
    strips it, so a last digit may be a newline; the TypeScript port rejects that text.
   */
  function HexCode(t: string, i: nat, width: nat): Option<nat>
    requires i + width <= |t|
  {
    var count := if width > 0 && t[i + width - 1] == '\n' then width - 1 else width;
    if count > 0 && AllHex(t, i, count) then Some(HexValue(t, i, count)) else None
  }

  function EscapeWidth(c: char): nat {
    if c == 'x' then 2 else if c == 'u' then 4 else if c == 'U' then 8 else 0
  }

  /** LOW_SURROGATE_PATTERN at t[i..]: the code of a second `\uDC00`..`\uDFFF` escape. */
  function LowSurrogate(t: string, i: nat): (r: Option<nat>)
    ensures r.Some? ==> i + 6 <= |t|
  {
    if i + 6 <= |t| && t[i] == '\\' && t[i + 1] == 'u' && (t[i + 2] == 'd' || t[i + 2] == 'D')
       && AllHex(t, i + 2, 4) && DigitValue(t[i + 3]) >= 12
    then Some(HexValue(t, i + 2, 4))
    else None
  }

  /** A `\x`, `\u` or `\U` escape whose letter is t[j]. */
  function HexEscape(t: string, j: nat, width: nat): (r: Option<Piece>)
    requires j < |t|
    ensures r.Some? ==> j < r.value.end <= |t|
  {
    if j + 1 + width > |t| then None
    else match HexCode(t, j + 1, width)
      case None => None
      case Some(code) =>
        if 0xD800 <= code <= 0xDBFF then
          match LowSurrogate(t, j + width + 1)
          case None => None
          case Some(low) =>
            var pair := 0x10000 + (code - 0xD800) * 0x400 + (low as int - 0xDC00);
            if IsScalar(pair) then Some(Piece([pair as char], j + width + 7)) else None
        else if IsScalar(code) then Some(Piece([code as char], j + width + 1))
        else None
  }

  /** OCTAL_PATTERN: up to three octal digits from i. */
  function OctalEnd(t: string, i: nat, room: nat): (r: nat)
    requires i <= |t|
    ensures i <= r <= |t|
    ensures r <= i + room
    ensures forall k :: i <= k < r ==> IsOctal(t[k])
    ensures room > 0 && i < |t| && IsOctal(t[i]) ==> i < r
    decreases room
  {
    if room > 0 && i < |t| && IsOctal(t[i]) then OctalEnd(t, i + 1, room - 1) else i
  }

  function OctalDigit(c: char): (n: nat)
    requires IsOctal(c)
    ensures n < 8
  {
    c as int - '0' as int
  }

  function OctalValue(t: string, i: nat, end: nat): (n: nat)
    requires i <= end <= |t| && end <= i + 3
    requires forall k :: i <= k < end ==> IsOctal(t[k])
    ensures n <= 511
    ensures end <= i + 2 ==> n <= 63
    ensures end <= i + 1 ==> n <= 7
    ensures end == i ==> n == 0
  {
    if i == end then 0 else OctalValue(t, i, end - 1) * 8 + OctalDigit(t[end - 1])
  }

  /** STRING_ESCAPES; an unrecognized escape keeps its backslash. */
  function SimpleEscape(c: char): string {
    match c
    case '\\' => "\\"
    case '\'' => "'"
    case '\"' => "\""
    case '/' => "/"
    case 'a' => "\U{7}"
    case 'b' => "\U{8}"
    case 'f' => "\U{c}"
    case 'n' => "\n"
    case 'r' => "\r"
    case 't' => "\t"
    case 'v' => "\U{b}"
    case _ => ['\\', c]
  }

  /** What one turn of the loop in parse_quoted decodes at i: a plain character or an escape. */
  function DecodeUnit(t: string, i: nat): (r: Option<Piece>)
    requires i < |t|
    ensures r.Some? ==> i < r.value.end <= |t|
  {
    if t[i] != '\\' then Some(Piece([t[i]], i + 1))
    else if i + 1 == |t| then None
    else
      var width := EscapeWidth(t[i + 1]);
      if width > 0 then HexEscape(t, i + 1, width)
      else if IsOctal(t[i + 1]) then
        var end := OctalEnd(t, i + 1, 3);
        Some(Piece([OctalValue(t, i + 1, end) as char], end))
      else Some(Piece(SimpleEscape(t[i + 1]), i + 2))
  }

  /** The decoded text from i up to the closing quote, and the index behind that quote. */
  function Unquote(t: string, i: nat, quote: char): (r: Option<Piece>)
    requires i <= |t|
    ensures r.Some? ==> i < r.value.end <= |t|
    decreases |t| - i
  {
    if i == |t| then None
    else if t[i] == quote then Some(Piece("", i + 1))
    else match DecodeUnit(t, i)
      case None => None
      case Some(unit) =>
        match Unquote(t, unit.end, quote)
        case None => None
        case Some(rest) => Some(Piece(unit.text + rest.text, rest.end))
  }

  // ---- The four printers ----

  /** json.dumps(text, ensure_ascii=False), json.dumps(text), python_repr and celery_safe_repr. */
  datatype Style = Json | AsciiJson | Repr | SafeRepr

  datatype Printer = Printer(style: Style, quote: char) {
    predicate Valid() {
      match style
      case Json => quote == '\"'
      case AsciiJson => quote == '\"'
      case Repr => quote == '\'' || quote == '\"'
      case SafeRepr => quote == '\''
    }
  }

  function UnicodeEscape(code: nat): string {
    "\\u" + HexText(code, 4)
  }

  /** JSON's escapes of quote, backslash and the controls below space; None for other characters. */
  function JsonEscape(c: char): Option<string> {
    if c == '\"' then Some("\\\"")
    else if c == '\\' then Some("\\\\")
    else if c == '\n' then Some("\\n")
    else if c == '\r' then Some("\\r")
    else if c == '\t' then Some("\\t")
    else if c == '\U{c}' then Some("\\f")
    else if c == '\U{8}' then Some("\\b")
    else if c as int < 0x20 then Some(UnicodeEscape(c as int))
    else None
  }

  /** json.dumps writes everything outside space..~ as one \u escape, or as a surrogate pair. */
  function AsciiEscape(c: char): string {
    if c as int < 0x10000 then UnicodeEscape(c as int)
    else
      UnicodeEscape(0xD800 + (c as int - 0x10000) / 0x400) + UnicodeEscape(0xDC00 + (c as int - 0x10000) % 0x400)
  }

  function PythonEscape(c: char): string {
    var code := c as int;
    if code < 0x100 then "\\x" + HexText(code, 2)
    else if code < 0x10000 then "\\u" + HexText(code, 4)
    else "\\U" + HexText(code, 8)
  }

  /** Printable ASCII has no Unicode category C or Z, and space is exempt by name. */
  ghost predicate PrintsAscii(nonprintable: char -> bool) {
    forall c: char :: 0x20 <= c as int <= 0x7E ==> !nonprintable(c)
  }

  function PrintChar(p: Printer, nonprintable: char -> bool, c: char): string {
    match p.style
    case Json => JsonEscape(c).Or([c])
    case AsciiJson =>
      if JsonEscape(c).Some? then JsonEscape(c).value
      else if c as int <= 0x7E then [c]
      else AsciiEscape(c)
    case Repr =>
      if c == '\\' then "\\\\"
      else if c == p.quote then ['\\', p.quote]
      else if c == '\n' then "\\n"
      else if c == '\r' then "\\r"
      else if c == '\t' then "\\t"
      else if nonprintable(c) then PythonEscape(c)
      else [c]
    case SafeRepr => if c == '\'' then "\\'" else [c]
  }

  function Encoder(p: Printer, nonprintable: char -> bool): char -> string {
    c => PrintChar(p, nonprintable, c)
  }

  function PrintBody(encode: char -> string, s: string): string {
    if s == "" then "" else encode(s[0]) + PrintBody(encode, s[1..])
  }

  function Print(p: Printer, nonprintable: char -> bool, s: string): string {
    [p.quote] + PrintBody(Encoder(p, nonprintable), s) + [p.quote]
  }

  /** str.replace of one character. */
  function Replace(s: string, c: char, with: string): string {
    if s == "" then "" else (if s[0] == c then with else [s[0]]) + Replace(s[1..], c, with)
  }

  function EscapeOne(nonprintable: char -> bool, c: char): string {
    if nonprintable(c) then PythonEscape(c) else [c]
  }

  function EscapeNonprintable(nonprintable: char -> bool, s: string): string {
    if s == "" then "" else EscapeOne(nonprintable, s[0]) + EscapeNonprintable(nonprintable, s[1..])
  }

  /** Double quotes only when the text has a single quote and no double quote. */
  function ReprQuote(s: string): char {
    if '\'' in s && '\"' !in s then '\"' else '\''
  }

  /** python_repr as the source computes it: five replacements in a row, then the nonprintable pass. */
  function PythonRepr(nonprintable: char -> bool, s: string): string {
    var quote := ReprQuote(s);
    var body := Replace(Replace(Replace(Replace(Replace(s,
      '\\', "\\\\"), quote, ['\\', quote]), '\n', "\\n"), '\r', "\\r"), '\t', "\\t");
    [quote] + EscapeNonprintable(nonprintable, body) + [quote]
  }

  function JsonText(s: string): string {
    Print(Printer(Json, '\"'), (c: char) => false, s)
  }

  function AsciiJsonText(s: string): string {
    Print(Printer(AsciiJson, '\"'), (c: char) => false, s)
  }

  function CelerySafeRepr(s: string): string {
    "'" + Replace(s, '\'', "\\'") + "'"
  }
}
