/** Every printed string reads back: the printers of string_pattern against parse_quoted. */
module SearchRoundTrip {
  import opened Options
  import opened SearchText

  lemma {:induction false} PowersOf16()
    ensures Pow16(2) == 0x100 && Pow16(4) == 0x10000 && Pow16(8) == 0x1_0000_0000
  {
    assert Pow16(1) == 16;
    assert Pow16(3) == 16 * Pow16(2);
    assert Pow16(4) == 0x10000;
    assert Pow16(5) == 0x10_0000;
    assert Pow16(6) == 0x100_0000;
    assert Pow16(7) == 0x1000_0000;
  }

  predicate StartsAt(t: string, i: nat, s: string) {
    i + |s| <= |t| && forall k :: 0 <= k < |s| ==> t[i + k] == s[k]
  }

  lemma {:induction false} StartsAtSplit(t: string, i: nat, a: string, b: string)
    requires StartsAt(t, i, a + b)
    ensures StartsAt(t, i, a) && StartsAt(t, i + |a|, b)
  {
    forall k | 0 <= k < |a| ensures t[i + k] == a[k] {
      assert (a + b)[k] == a[k];
    }
    forall k | 0 <= k < |b| ensures t[i + |a| + k] == b[k] {
      assert (a + b)[|a| + k] == b[k];
    }
  }

  lemma {:induction false} StartsAtChar(t: string, i: nat, c: char)
    requires StartsAt(t, i, [c])
    ensures At(t, i, c)
  {
    assert t[i + 0] == [c][0];
  }

  lemma {:induction false} HexRoundTrip(n: nat, width: nat, t: string, i: nat)
    requires n < Pow16(width) && StartsAt(t, i, HexText(n, width))
    ensures AllHex(t, i, width) && HexValue(t, i, width) == n
  {
    if width > 0 {
      var high, low := HexText(n / 16, width - 1), HexDigit(n % 16);
      StartsAtSplit(t, i, high, [low]);
      StartsAtChar(t, i + width - 1, low);
      HexRoundTrip(n / 16, width - 1, t, i);
      assert DigitValue(low) == n % 16;
    }
  }

  lemma {:induction false} HexCodeOfText(code: nat, width: nat, t: string, i: nat)
    requires 0 < width && code < Pow16(width) && StartsAt(t, i, HexText(code, width))
    ensures HexCode(t, i, width) == Some(code)
  {
    HexRoundTrip(code, width, t, i);
    assert IsHex(t[i + width - 1]);
  }

  lemma {:induction false} HexEscapeDecodes(t: string, j: nat, code: nat, width: nat)
    requires width in {2, 4, 8} && code < Pow16(width) && IsScalar(code)
    requires StartsAt(t, j + 1, HexText(code, width))
    ensures HexEscape(t, j, width) == Some(Piece([code as char], j + width + 1))
  {
    HexCodeOfText(code, width, t, j + 1);
  }

  /** The low half of a pair is written `\udXXX` with a second digit from c on. */
  lemma {:induction false} LowSurrogateReads(t: string, i: nat, low: nat)
    requires 0xDC00 <= low <= 0xDFFF
    requires StartsAt(t, i, UnicodeEscape(low))
    ensures LowSurrogate(t, i) == Some(low)
  {
    PowersOf16();
    assert "\\u" == ['\\'] + ['u'];
    StartsAtSplit(t, i, "\\u", HexText(low, 4));
    StartsAtSplit(t, i, ['\\'], ['u']);
    StartsAtChar(t, i, '\\');
    StartsAtChar(t, i + 1, 'u');
    HexRoundTrip(low, 4, t, i + 2);
    var high := HexText(low / 0x100, 2);
    assert low / 16 / 16 == low / 0x100;
    StartsAtSplit(t, i + 2, HexText(low / 16, 3), [HexDigit(low % 16)]);
    StartsAtSplit(t, i + 2, high, [HexDigit(low / 16 % 16)]);
    assert low / 0x100 / 16 == 13;
    StartsAtSplit(t, i + 2, HexText(13, 1), [HexDigit(low / 0x100 % 16)]);
    StartsAtChar(t, i + 3, HexDigit(low / 0x100 % 16));
    assert HexText(13, 1) == HexText(0, 0) + ['d'] == ['d'];
    StartsAtChar(t, i + 2, 'd');
  }

  lemma {:induction false} SurrogatePairDecodes(t: string, j: nat, code: nat)
    requires 0x10000 <= code <= 0x10FFFF
    requires StartsAt(t, j + 1, HexText(0xD800 + (code - 0x10000) / 0x400, 4))
    requires StartsAt(t, j + 5, UnicodeEscape(0xDC00 + (code - 0x10000) % 0x400))
    ensures HexEscape(t, j, 4) == Some(Piece([code as char], j + 11))
  {
    var high, low := 0xD800 + (code - 0x10000) / 0x400, 0xDC00 + (code - 0x10000) % 0x400;
    PowersOf16();
    HexCodeOfText(high, 4, t, j + 1);
    LowSurrogateReads(t, j + 5, low);
    assert 0x10000 + (high - 0xD800) * 0x400 + (low - 0xDC00) == code;
  }

  /** saferepr leaves backslashes raw, so its output only reads back for text without one. */
  predicate Readable(p: Printer, s: string) {
    p.Valid() && (p.style.SafeRepr? ==> NoBackslash(s))
  }

  lemma {:induction false} PlainDecodes(t: string, i: nat, c: char)
    requires StartsAt(t, i, [c]) && c != '\\'
    ensures DecodeUnit(t, i) == Some(Piece([c], i + 1))
  {
    StartsAtChar(t, i, c);
  }

  /** A backslash, a letter and what the escape says. */
  lemma {:induction false} EscapeParts(t: string, i: nat, letter: char, rest: string)
    requires StartsAt(t, i, ['\\', letter] + rest)
    ensures At(t, i, '\\') && At(t, i + 1, letter) && StartsAt(t, i + 2, rest)
  {
    StartsAtSplit(t, i, ['\\', letter], rest);
    assert t[i + 0] == ['\\', letter][0] && t[i + 1] == ['\\', letter][1];
  }

  lemma {:induction false} SimpleDecodes(t: string, i: nat, letter: char, c: char)
    requires StartsAt(t, i, ['\\', letter])
    requires EscapeWidth(letter) == 0 && !IsOctal(letter) && SimpleEscape(letter) == [c]
    ensures At(t, i, '\\') && DecodeUnit(t, i) == Some(Piece([c], i + 2))
  {
    assert ['\\', letter] == ['\\', letter] + "";
    EscapeParts(t, i, letter, "");
  }

  lemma {:induction false} HexDecodes(t: string, i: nat, letter: char, c: char, width: nat)
    requires EscapeWidth(letter) == width > 0 && c as int < Pow16(width)
    requires StartsAt(t, i, ['\\', letter] + HexText(c as int, width))
    ensures At(t, i, '\\') && DecodeUnit(t, i) == Some(Piece([c], i + 2 + width))
  {
    EscapeParts(t, i, letter, HexText(c as int, width));
    HexEscapeDecodes(t, i + 1, c as int, width);
  }

  lemma {:induction false} PairDecodes(t: string, i: nat, c: char)
    requires c as int >= 0x10000 && StartsAt(t, i, AsciiEscape(c))
    ensures At(t, i, '\\') && DecodeUnit(t, i) == Some(Piece([c], i + 12))
  {
    var high, low := 0xD800 + (c as int - 0x10000) / 0x400, 0xDC00 + (c as int - 0x10000) % 0x400;
    StartsAtSplit(t, i, UnicodeEscape(high), UnicodeEscape(low));
    assert "\\u" == ['\\', 'u'];
    EscapeParts(t, i, 'u', HexText(high, 4));
    SurrogatePairDecodes(t, i + 1, c as int);
  }

  lemma {:induction false} UnicodeDecodes(t: string, i: nat, c: char)
    requires c as int < 0x10000 && StartsAt(t, i, UnicodeEscape(c as int))
    ensures At(t, i, '\\') && DecodeUnit(t, i) == Some(Piece([c], i + 6))
  {
    PowersOf16();
    assert "\\u" == ['\\', 'u'];
    HexDecodes(t, i, 'u', c, 4);
  }

  lemma {:induction false} PythonEscapeDecodes(t: string, i: nat, c: char)
    requires StartsAt(t, i, PythonEscape(c))
    ensures At(t, i, '\\') && DecodeUnit(t, i) == Some(Piece([c], i + |PythonEscape(c)|))
  {
    PowersOf16();
    if c as int < 0x100 {
      assert "\\x" == ['\\', 'x'];
      HexDecodes(t, i, 'x', c, 2);
    } else if c as int < 0x10000 {
      assert "\\u" == ['\\', 'u'];
      HexDecodes(t, i, 'u', c, 4);
    } else {
      assert "\\U" == ['\\', 'U'];
      HexDecodes(t, i, 'U', c, 8);
    }
  }

  lemma {:induction false} JsonEscapeDecodes(t: string, i: nat, c: char)
    requires JsonEscape(c).Some? && StartsAt(t, i, JsonEscape(c).value)
    ensures At(t, i, '\\') && DecodeUnit(t, i) == Some(Piece([c], i + |JsonEscape(c).value|))
  {
    var e := JsonEscape(c).value;
    if c == '\"' || c == '\\' || c == '\n' || c == '\r' || c == '\t' || c == '\U{c}' || c == '\U{8}' {
      assert e == ['\\', e[1]];
      SimpleDecodes(t, i, e[1], c);
    } else {
      UnicodeDecodes(t, i, c);
    }
  }

  lemma {:induction false} ReprCharDecodes(p: Printer, nonprintable: char -> bool, c: char, t: string, i: nat)
    requires PrintsAscii(nonprintable) && p.Valid() && p.style.Repr?
    requires StartsAt(t, i, PrintChar(p, nonprintable, c))
    ensures i < |t| && t[i] != p.quote
    ensures DecodeUnit(t, i) == Some(Piece([c], i + |PrintChar(p, nonprintable, c)|))
  {
    if c == '\\' {
      SimpleDecodes(t, i, '\\', c);
    } else if c == p.quote {
      SimpleDecodes(t, i, p.quote, c);
    } else if c == '\n' {
      SimpleDecodes(t, i, 'n', c);
    } else if c == '\r' {
      SimpleDecodes(t, i, 'r', c);
    } else if c == '\t' {
      SimpleDecodes(t, i, 't', c);
    } else if nonprintable(c) {
      PythonEscapeDecodes(t, i, c);
    } else {
      PlainDecodes(t, i, c);
      StartsAtChar(t, i, c);
    }
  }

  /** One printed character is decoded by one turn of the loop, and never mistaken for the closing quote. */
  lemma {:induction false} PrintedCharDecodes(p: Printer, nonprintable: char -> bool, c: char, t: string, i: nat)
    requires PrintsAscii(nonprintable) && Readable(p, [c])
    requires StartsAt(t, i, PrintChar(p, nonprintable, c))
    ensures i < |t| && t[i] != p.quote
    ensures DecodeUnit(t, i) == Some(Piece([c], i + |PrintChar(p, nonprintable, c)|))
  {
    match p.style
    case Repr => ReprCharDecodes(p, nonprintable, c, t, i);
    case SafeRepr =>
      if c == '\'' {
        SimpleDecodes(t, i, '\'', c);
      } else {
        assert c in [c];
        PlainDecodes(t, i, c);
        StartsAtChar(t, i, c);
      }
    case _ =>
      if JsonEscape(c).Some? {
        JsonEscapeDecodes(t, i, c);
      } else if p.style.AsciiJson? && c as int > 0x7E {
        if c as int < 0x10000 { UnicodeDecodes(t, i, c); } else { PairDecodes(t, i, c); }
      } else {
        PlainDecodes(t, i, c);
        StartsAtChar(t, i, c);
      }
  }

  /** The loop of parse_quoted takes one turn at i, adds c and goes on at `next`. */
  ghost predicate DecodesTo(t: string, i: nat, quote: char, c: char, next: nat) {
    i < |t| && t[i] != quote && DecodeUnit(t, i) == Some(Piece([c], next))
  }

  ghost predicate Decodable(encode: char -> string, t: string, quote: char, s: string) {
    forall c: char, i: nat :: c in s && StartsAt(t, i, encode(c)) ==> DecodesTo(t, i, quote, c, i + |encode(c)|)
  }

  lemma {:induction false} UnquoteStep(t: string, i: nat, quote: char, c: char, next: nat, rest: Piece)
    requires next <= |t| && DecodesTo(t, i, quote, c, next)
    requires Unquote(t, next, quote) == Some(rest)
    ensures Unquote(t, i, quote) == Some(Piece([c] + rest.text, rest.end))
  {
  }

  lemma {:induction false} BodySplit(encode: char -> string, s: string, t: string, i: nat) returns (next: nat)
    requires s != "" && StartsAt(t, i, PrintBody(encode, s))
    ensures next == i + |encode(s[0])| <= |t| && next + |PrintBody(encode, s[1..])| == i + |PrintBody(encode, s)|
    ensures StartsAt(t, i, encode(s[0])) && StartsAt(t, next, PrintBody(encode, s[1..]))
  {
    StartsAtSplit(t, i, encode(s[0]), PrintBody(encode, s[1..]));
    next := i + |encode(s[0])|;
  }

  /** A text whose characters each decode by themselves decodes as a whole. */
  lemma {:induction false} BodyReads(
    encode: char -> string, quote: char, all: string, s: string, t: string, i: nat, end: nat)
    requires Decodable(encode, t, quote, all) && forall c <- s :: c in all
    requires StartsAt(t, i, PrintBody(encode, s)) && end == i + |PrintBody(encode, s)| && At(t, end, quote)
    ensures Unquote(t, i, quote) == Some(Piece(s, end + 1))
    decreases |s|
  {
    if s != "" {
      var next := BodySplit(encode, s, t, i);
      BodyReads(encode, quote, all, s[1..], t, next, end);
      assert s[0] in all;
      UnquoteStep(t, i, quote, s[0], next, Piece(s[1..], end + 1));
      assert [s[0]] + s[1..] == s;
    }
  }

  lemma {:induction false} PrinterDecodable(p: Printer, nonprintable: char -> bool, s: string, t: string)
    requires PrintsAscii(nonprintable) && Readable(p, s)
    ensures Decodable(Encoder(p, nonprintable), t, p.quote, s)
  {
    var encode := Encoder(p, nonprintable);
    forall c: char, i: nat | c in s && StartsAt(t, i, encode(c)) ensures DecodesTo(t, i, p.quote, c, i + |encode(c)|) {
      PrintedCharDecodes(p, nonprintable, c, t, i);
    }
  }

  lemma {:induction false} QuotedSplit(t: string, i: nat, quote: char, body: string)
    requires StartsAt(t, i, [quote] + body + [quote])
    ensures At(t, i, quote) && StartsAt(t, i + 1, body) && At(t, i + 1 + |body|, quote)
  {
    StartsAtSplit(t, i, [quote] + body, [quote]);
    StartsAtSplit(t, i, [quote], body);
    StartsAtChar(t, i, quote);
    StartsAtChar(t, i + 1 + |body|, quote);
  }

  /** Each printer's text, wherever it stands and whatever follows it, reads back as the string it was printed from. */
  lemma {:induction false} PrintedStringReads(p: Printer, nonprintable: char -> bool, s: string, t: string, i: nat)
    requires PrintsAscii(nonprintable) && Readable(p, s)
    requires StartsAt(t, i, Print(p, nonprintable, s))
    ensures At(t, i, p.quote)
    ensures Unquote(t, i + 1, p.quote) == Some(Piece(s, i + |Print(p, nonprintable, s)|))
  {
    var encode := Encoder(p, nonprintable);
    var body := PrintBody(encode, s);
    QuotedSplit(t, i, p.quote, body);
    PrinterDecodable(p, nonprintable, s, t);
    BodyReads(encode, p.quote, s, s, t, i + 1, i + 1 + |body|);
  }

  // ---- python_repr's replacements in a row are one pass ----

  lemma {:induction false} Regroup(a: string, b: string, c: string)
    ensures a + b + c == a + (b + c)
  {
  }

  lemma {:induction false} ReplaceConcat(a: string, b: string, c: char, with: string)
    ensures Replace(a + b, c, with) == Replace(a, c, with) + Replace(b, c, with)
  {
    if a == "" {
      assert a + b == b;
    } else {
      var head := if a[0] == c then with else [a[0]];
      assert (a + b)[1..] == a[1..] + b && (a + b)[0] == a[0];
      ReplaceConcat(a[1..], b, c, with);
      Regroup(head, Replace(a[1..], c, with), Replace(b, c, with));
    }
  }

  lemma {:induction false} EscapeConcat(nonprintable: char -> bool, a: string, b: string)
    ensures EscapeNonprintable(nonprintable, a + b)
         == EscapeNonprintable(nonprintable, a) + EscapeNonprintable(nonprintable, b)
  {
    if a == "" {
      assert a + b == b;
    } else {
      assert (a + b)[1..] == a[1..] + b && (a + b)[0] == a[0];
      EscapeConcat(nonprintable, a[1..], b);
      Regroup(EscapeOne(nonprintable, a[0]), EscapeNonprintable(nonprintable, a[1..]),
        EscapeNonprintable(nonprintable, b));
    }
  }

  function ReprSteps(quote: char, s: string): string {
    Replace(Replace(Replace(Replace(Replace(s,
      '\\', "\\\\"), quote, ['\\', quote]), '\n', "\\n"), '\r', "\\r"), '\t', "\\t")
  }

  lemma {:induction false} ReprStepsConcat(quote: char, a: string, b: string)
    ensures ReprSteps(quote, a + b) == ReprSteps(quote, a) + ReprSteps(quote, b)
  {
    ReplaceConcat(a, b, '\\', "\\\\");
    var a1, b1 := Replace(a, '\\', "\\\\"), Replace(b, '\\', "\\\\");
    ReplaceConcat(a1, b1, quote, ['\\', quote]);
    var a2, b2 := Replace(a1, quote, ['\\', quote]), Replace(b1, quote, ['\\', quote]);
    ReplaceConcat(a2, b2, '\n', "\\n");
    var a3, b3 := Replace(a2, '\n', "\\n"), Replace(b2, '\n', "\\n");
    ReplaceConcat(a3, b3, '\r', "\\r");
    ReplaceConcat(Replace(a3, '\r', "\\r"), Replace(b3, '\r', "\\r"), '\t', "\\t");
  }

  lemma {:induction false} ReplaceOne(x: char, c: char, with: string)
    ensures Replace([x], c, with) == if x == c then with else [x]
  {
    assert [x][1..] == "";
  }

  lemma {:induction false} ReplaceTwo(x: char, y: char, c: char, with: string)
    requires x != c && y != c
    ensures Replace([x, y], c, with) == [x, y]
  {
    ReplaceOne(x, c, with);
    ReplaceOne(y, c, with);
    ReplaceConcat([x], [y], c, with);
    assert [x] + [y] == [x, y];
  }

  /** The five steps on one character: at most the first step that matches changes it. */
  lemma {:induction false} ReprStepsOne(quote: char, c: char)
    requires quote in {'\'', '\"'}
    ensures ReprSteps(quote, [c]) ==
      if c == '\\' then "\\\\" else if c == quote then ['\\', quote]
      else if c == '\n' then "\\n" else if c == '\r' then "\\r" else if c == '\t' then "\\t" else [c]
  {
    ReplaceOne(c, '\\', "\\\\");
    if c == '\\' {
      ReplaceTwo('\\', '\\', quote, ['\\', quote]);
      ReplaceTwo('\\', '\\', '\n', "\\n");
      ReplaceTwo('\\', '\\', '\r', "\\r");
      ReplaceTwo('\\', '\\', '\t', "\\t");
    } else {
      ReplaceOne(c, quote, ['\\', quote]);
      if c == quote {
        ReplaceTwo('\\', quote, '\n', "\\n");
        ReplaceTwo('\\', quote, '\r', "\\r");
        ReplaceTwo('\\', quote, '\t', "\\t");
      } else {
        ReplaceOne(c, '\n', "\\n");
        if c == '\n' {
          ReplaceTwo('\\', 'n', '\r', "\\r");
          ReplaceTwo('\\', 'n', '\t', "\\t");
        } else {
          ReplaceOne(c, '\r', "\\r");
          if c == '\r' {
            ReplaceTwo('\\', 'r', '\t', "\\t");
          } else {
            ReplaceOne(c, '\t', "\\t");
          }
        }
      }
    }
  }

  lemma {:induction false} EscapeSingle(nonprintable: char -> bool, c: char)
    ensures EscapeNonprintable(nonprintable, [c]) == EscapeOne(nonprintable, c)
  {
    assert [c][1..] == "";
  }

  lemma {:induction false} EscapePair(nonprintable: char -> bool, x: char, y: char)
    requires !nonprintable(x) && !nonprintable(y)
    ensures EscapeNonprintable(nonprintable, [x, y]) == [x, y]
  {
    EscapeSingle(nonprintable, x);
    EscapeSingle(nonprintable, y);
    EscapeConcat(nonprintable, [x], [y]);
    assert [x] + [y] == [x, y];
  }

  lemma {:induction false} ReprIsOnePass(nonprintable: char -> bool, quote: char, s: string)
    requires PrintsAscii(nonprintable) && quote in {'\'', '\"'}
    ensures EscapeNonprintable(nonprintable, ReprSteps(quote, s)) ==
      PrintBody(Encoder(Printer(Repr, quote), nonprintable), s)
  {
    if s != "" {
      var c := s[0];
      var step := ReprSteps(quote, [c]);
      ReprStepsOne(quote, c);
      EscapeSingle(nonprintable, c);
      if step != [c] {
        EscapePair(nonprintable, step[0], step[1]);
      }
      assert EscapeNonprintable(nonprintable, step) == PrintChar(Printer(Repr, quote), nonprintable, c);
      ReprIsOnePass(nonprintable, quote, s[1..]);
      ReprStepsConcat(quote, [c], s[1..]);
      EscapeConcat(nonprintable, step, ReprSteps(quote, s[1..]));
      assert s == [c] + s[1..];
    }
  }

  lemma {:induction false} PythonReprIsPrint(nonprintable: char -> bool, s: string)
    requires PrintsAscii(nonprintable)
    ensures PythonRepr(nonprintable, s) == Print(Printer(Repr, ReprQuote(s)), nonprintable, s)
  {
    ReprIsOnePass(nonprintable, ReprQuote(s), s);
  }

  // ---- parse_quoted on each of the four texts ----

  lemma {:induction false} SafeReprBody(nonprintable: char -> bool, s: string)
    ensures Replace(s, '\'', "\\'") == PrintBody(Encoder(Printer(SafeRepr, '\''), nonprintable), s)
  {
    if s != "" { SafeReprBody(nonprintable, s[1..]); }
  }

  /** Where text stands at i, parse_quoted there gives s and stops behind the text's closing quote. */
  ghost predicate ReadsBack(t: string, i: nat, text: string, s: string) {
    StartsAt(t, i, text) ==> i < |t| && Unquote(t, i + 1, t[i]) == Some(Piece(s, i + |text|))
  }

  lemma {:induction false} PrintReadsBack(
    p: Printer, nonprintable: char -> bool, s: string, t: string, i: nat, text: string)
    requires PrintsAscii(nonprintable) && Readable(p, s) && text == Print(p, nonprintable, s)
    ensures ReadsBack(t, i, text, s)
  {
    if StartsAt(t, i, text) { PrintedStringReads(p, nonprintable, s, t, i); }
  }

  /**
    Wherever they stand and whatever follows, three of string_pattern's texts read back as their string,
    and the fourth does for a string without a backslash.
   */
  lemma {:induction false} PrintedTextsReadBack(nonprintable: char -> bool, s: string, t: string, i: nat)
    requires PrintsAscii(nonprintable)
    ensures ReadsBack(t, i, JsonText(s), s) && ReadsBack(t, i, AsciiJsonText(s), s)
    ensures ReadsBack(t, i, PythonRepr(nonprintable, s), s)
    ensures NoBackslash(s) ==> ReadsBack(t, i, CelerySafeRepr(s), s)
  {
    var none := (c: char) => false;
    PrintReadsBack(Printer(Json, '\"'), none, s, t, i, JsonText(s));
    PrintReadsBack(Printer(AsciiJson, '\"'), none, s, t, i, AsciiJsonText(s));
    PythonReprIsPrint(nonprintable, s);
    PrintReadsBack(Printer(Repr, ReprQuote(s)), nonprintable, s, t, i, PythonRepr(nonprintable, s));
    SafeReprBody(none, s);
    if NoBackslash(s) { PrintReadsBack(Printer(SafeRepr, '\''), none, s, t, i, CelerySafeRepr(s)); }
  }

  /** python_repr writes single quotes unless double ones save escapes; a quote is only escaped in a text with both. */
  lemma {:induction false} ReprQuoteFits(s: string)
    ensures ReprQuote(s) in s ==> '\'' in s && '\"' in s
    ensures ReprQuote(s) == '\"' <==> '\'' in s && '\"' !in s
  {
  }

  // ---- What no printer writes ----

  const DIGITS := "0123456789"
  const SMALL := "abcdefghijklmnopqrstuvwxyz"
  const CAPITALS := "ABCDEFGHIJKLMNOPQRSTUVWXYZ"

  /** The character classes, member by member. */
  lemma {:induction false} CharacterClasses(c: char)
    ensures IsSpace(c) <==> c in " \t\n\r\U{b}\U{c}"
    ensures IsDigit(c) <==> c in DIGITS
    ensures IsOctal(c) <==> c in "01234567"
    ensures IsHex(c) <==> c in "0123456789abcdefABCDEF"
    ensures IsLetter(c) <==> c in SMALL || c in CAPITALS
  {
  }

  /** `\s` of the database's engine takes these beyond the parser's white space. */
  lemma {:induction false} WideSpacesAre(c: char)
    ensures IsWideSpace(c) <==>
      || c in "\U{85}\U{a0}\U{1680}\U{2028}\U{2029}\U{202f}\U{205f}\U{3000}" || '\U{2000}' <= c <= '\U{200a}'
  {
    var w8 := [('\U{3000}', '\U{3000}')];
    var w7 := [('\U{205f}', '\U{205f}')] + w8;
    var w6 := [('\U{202f}', '\U{202f}')] + w7;
    var w5 := [('\U{2028}', '\U{2029}')] + w6;
    var w4 := [('\U{2000}', '\U{200a}')] + w5;
    var w3 := [('\U{1680}', '\U{1680}')] + w4;
    var w2 := [('\U{a0}', '\U{a0}')] + w3;
    assert WIDE_SPACES == [('\U{85}', '\U{85}')] + w2;
    assert w8 == w8 + [];
    InOneOrMore(c, ('\U{3000}', '\U{3000}'), []);
    InOneOrMore(c, ('\U{205f}', '\U{205f}'), w8);
    InOneOrMore(c, ('\U{202f}', '\U{202f}'), w7);
    InOneOrMore(c, ('\U{2028}', '\U{2029}'), w6);
    InOneOrMore(c, ('\U{2000}', '\U{200a}'), w5);
    InOneOrMore(c, ('\U{1680}', '\U{1680}'), w4);
    InOneOrMore(c, ('\U{a0}', '\U{a0}'), w3);
    InOneOrMore(c, ('\U{85}', '\U{85}'), w2);
  }

  lemma {:induction false} InOneOrMore(c: char, range: (char, char), rest: seq<(char, char)>)
    ensures InRanges(c, [range] + rest) <==> range.0 <= c <= range.1 || InRanges(c, rest)
  {
    assert ([range] + rest)[1..] == rest;
  }

  lemma {:induction false} LowerIs(k: nat)
    requires k < 26
    ensures LowerChar(CAPITALS[k]) == SMALL[k] == LowerChar(SMALL[k])
  {
  }

  /** Hexadecimal digits mean the same in either case. */
  lemma {:induction false} HexDigitsAre(k: nat)
    requires k < 16
    ensures DigitValue("0123456789abcdef"[k]) == k && DigitValue("0123456789ABCDEF"[k]) == k
  {
  }

  /** The named escapes, in the order of their letters. */
  lemma {:induction false} NamedEscapes(t: string, i: nat, k: nat)
    requires k < 11 && i + 1 < |t| && t[i] == '\\' && t[i + 1] == "\\'\"/abfnrtv"[k]
    ensures DecodeUnit(t, i) == Some(Piece(["\\'\"/\U{7}\U{8}\U{c}\n\r\t\U{b}"[k]], i + 2))
  {
  }

  /** Any other letter but x, u, U and octal digits keeps its backslash. */
  lemma {:induction false} OtherEscapesStay(t: string, i: nat)
    requires i + 1 < |t| && t[i] == '\\' && t[i + 1] !in "\\'\"/abfnrtvxuU01234567"
    ensures DecodeUnit(t, i) == Some(Piece(['\\', t[i + 1]], i + 2))
  {
  }

  /** Up to three octal digits are one character. */
  lemma {:induction false} OctalDecodes(t: string, i: nat, n: nat, end: nat)
    requires At(t, i, '\\') && i + 2 <= end <= i + 4 && end <= |t| && forall k :: i < k < end ==> IsOctal(t[k])
    requires end < i + 4 ==> end == |t| || !IsOctal(t[end])
    requires n == (if end == i + 2 then t[i + 1] as int - 48
                   else if end == i + 3 then 8 * (t[i + 1] as int - 48) + (t[i + 2] as int - 48)
                   else 64 * (t[i + 1] as int - 48) + 8 * (t[i + 2] as int - 48) + (t[i + 3] as int - 48))
    requires n <= 511
    ensures DecodeUnit(t, i) == Some(Piece([n as char], end))
  {
    OctalEndIs(t, i + 1, 3, end);
    OctalValueIs(t, i + 1, end);
  }

  lemma {:induction false} OctalEndIs(t: string, i: nat, room: nat, end: nat)
    requires i <= end <= |t| && end <= i + room && forall k :: i <= k < end ==> IsOctal(t[k])
    requires end < i + room ==> end == |t| || !IsOctal(t[end])
    ensures OctalEnd(t, i, room) == end
    decreases room
  {
    if i < end { OctalEndIs(t, i + 1, room - 1, end); }
  }

  lemma {:induction false} OctalValueIs(t: string, i: nat, end: nat)
    requires i < end <= |t| && end <= i + 3 && forall k :: i <= k < end ==> IsOctal(t[k])
    ensures OctalValue(t, i, end) ==
      if end == i + 1 then t[i] as int - 48
      else if end == i + 2 then 8 * (t[i] as int - 48) + (t[i + 1] as int - 48)
      else 64 * (t[i] as int - 48) + 8 * (t[i + 1] as int - 48) + (t[i + 2] as int - 48)
  {
    assert OctalValue(t, i, i) == 0;
    assert OctalValue(t, i, i + 1) == t[i] as int - 48;
    if end > i + 1 { assert OctalValue(t, i, i + 2) == 8 * (t[i] as int - 48) + (t[i + 1] as int - 48); }
  }

  /** A backslash at the end, and a hexadecimal escape that is cut short, are no escapes. */
  lemma {:induction false} CutEscapesFail(t: string, i: nat)
    requires At(t, i, '\\')
    requires i + 1 == |t| || (t[i + 1] == 'x' && i + 4 > |t|) || (t[i + 1] == 'u' && i + 6 > |t|)
      || (t[i + 1] == 'U' && i + 10 > |t|)
    ensures DecodeUnit(t, i).None?
  {
  }
}
