/** Parsed values and the regular expressions that server/tasks/task_search.py builds for them. */
module SearchValue {
  import opened SearchText

  /** Tagged values keep numeric spelling and member order. An object's members are entries, a list's are items. */
  datatype SearchValue =
    | Str(text: string)
    | Num(spelling: string)
    | Bool(truth: bool)
    | Null
    | Collection(isObject: bool, members: seq<Member>)

  datatype Member = Item(value: SearchValue) | Entry(key: SearchValue, value: SearchValue)

  // ---- Regular expressions, as far as the patterns use them ----

  datatype Regex =
    | Exactly(text: string)                 // escape_regex(text)
    | OneOf(alternatives: seq<string>)      // (?:a|b|...) of escaped texts
    | IgnoreCase(word: string)              // (?i:word)
    | Spaces                                // \s*
    | Then(first: Regex, second: Regex)

  predicate IsSpecial(c: char) {
    c in ".*+?^${}()|[]\\"
  }

  function EscapeRegex(s: string): string {
    if s == "" then "" else (if IsSpecial(s[0]) then ['\\', s[0]] else [s[0]]) + EscapeRegex(s[1..])
  }

  function JoinEscaped(alternatives: seq<string>): string {
    if alternatives == [] then ""
    else if |alternatives| == 1 then EscapeRegex(alternatives[0])
    else EscapeRegex(alternatives[0]) + "|" + JoinEscaped(alternatives[1..])
  }

  /** The pattern text, whose length build_task_search bounds. */
  function Render(r: Regex): string {
    match r
    case Exactly(text) => EscapeRegex(text)
    case OneOf(alternatives) => "(?:" + JoinEscaped(alternatives) + ")"
    case IgnoreCase(word) => "(?i:" + word + ")"
    case Spaces => "\\s*"
    case Then(first, second) => Render(first) + Render(second)
  }

  /** dict.fromkeys of the four printings: first occurrences, in order. */
  function Distinct(items: seq<string>): seq<string> {
    if items == [] then []
    else
      var init, last := items[..|items| - 1], items[|items| - 1];
      if last in init then Distinct(init) else Distinct(init) + [last]
  }

  function Alternatives(nonprintable: char -> bool, s: string): seq<string> {
    Distinct([JsonText(s), AsciiJsonText(s), PythonRepr(nonprintable, s), CelerySafeRepr(s)])
  }

  function StringPattern(nonprintable: char -> bool, s: string): Regex {
    OneOf(Alternatives(nonprintable, s))
  }

  const COMMA := Then(Spaces, Then(Exactly(","), Spaces))
  const COLON := Then(Spaces, Then(Exactly(":"), Spaces))

  /** "\s*,\s*".join(items) */
  function Join(items: seq<Regex>): Regex {
    if items == [] then Exactly("")
    else if |items| == 1 then items[0]
    else Then(items[0], Then(COMMA, Join(items[1..])))
  }

  function OpenText(isObject: bool): string { if isObject then "{" else "[" }
  function Close(isObject: bool): char { if isObject then '}' else ']' }

  function CollectionPattern(isObject: bool, items: seq<Regex>): Regex {
    Then(Exactly(OpenText(isObject)), Then(Spaces, Then(Join(items), Then(Spaces, Exactly([Close(isObject)])))))
  }

  function EntryPattern(key: Regex, value: Regex): Regex {
    Then(key, Then(COLON, value))
  }

  /** The pattern a value gets, wherever it was read: build_task_search's string patterns are the Str case. */
  function PatternOf(nonprintable: char -> bool, v: SearchValue): Regex
    decreases v, 1
  {
    match v
    case Str(text) => StringPattern(nonprintable, text)
    case Num(spelling) => Exactly(spelling)
    case Bool(truth) => IgnoreCase(if truth then "true" else "false")
    case Null => OneOf(["None", "null"])
    case Collection(isObject, members) => CollectionPattern(isObject, PatternsOf(nonprintable, members))
  }

  function PatternsOf(nonprintable: char -> bool, members: seq<Member>): (patterns: seq<Regex>)
    ensures |patterns| == |members|
    decreases members, 0
  {
    if members == [] then []
    else [MemberPattern(nonprintable, members[0])] + PatternsOf(nonprintable, members[1..])
  }

  function MemberPattern(nonprintable: char -> bool, m: Member): Regex
    decreases m, 2
  {
    match m
    case Item(value) => PatternOf(nonprintable, value)
    case Entry(key, value) => EntryPattern(PatternOf(nonprintable, key), PatternOf(nonprintable, value))
  }
}
