/**
  The text of an index term, json.dumps([key, value]) with tagged values. No two pairs share a term: a tagged
  value's text is no proper prefix of another's.
 */
module SearchTermText {
  import opened SearchText
  import opened SearchRoundTrip
  import opened SearchValue

  function Tagged(v: SearchValue): string
    decreases v, 1
  {
    match v
    case Str(text) => "[\"string\"," + (JsonText(text) + "]")
    case Num(spelling) => "[\"number\"," + (JsonText(spelling) + "]")
    case Bool(truth) => if truth then "[\"bool\",true]" else "[\"bool\",false]"
    case Null => "[\"null\",null]"
    case Collection(isObject, members) =>
      if isObject then "[\"object\",[" + (Elements(members, true) + "]")
        else "[\"list\",[" + (Elements(members, true) + "]")
  }

  /** The rest of an array, closing bracket included. */
  function Elements(members: seq<Member>, first: bool): string
    decreases members, 0
  {
    if members == [] then "]"
    else (if first then "" else ",") + (Element(members[0]) + Elements(members[1..], false))
  }

  /** A list's element, or an object's key and value as an array of two. */
  function Element(m: Member): string
    decreases m, 2
  {
    match m
    case Item(value) => Tagged(value)
    case Entry(key, value) => "[" + (Tagged(key) + ("," + (Tagged(value) + "]")))
  }

  function TermText(key: string, value: SearchValue): string {
    "[" + (JsonText(key) + ("," + (Tagged(value) + "]")))
  }

  // ---- Prefixes ----

  lemma {:induction false} Cut(head: string, a: string, b: string)
    requires head + a == head + b
    ensures a == b
  {
    assert a == (head + a)[|head|..];
    assert b == (head + b)[|head|..];
  }

  lemma {:induction false} CutAfter(head: string, a: string, b: string, x: string, y: string)
    requires head + a + x == head + b + y
    ensures a + x == b + y
  {
    assert head + a + x == head + (a + x);
    assert head + b + y == head + (b + y);
    Cut(head, a + x, b + y);
  }

  /** What follows a JSON string does not change what the string says. */
  lemma {:induction false} JsonPrefix(s: string, w: string, x: string, y: string)
    requires JsonText(s) + x == JsonText(w) + y
    ensures s == w && x == y
  {
    var t := JsonText(s) + x;
    var p, np := Printer(Json, '\"'), (c: char) => false;
    forall k | 0 <= k < |JsonText(w)| ensures t[k] == JsonText(w)[k] {
      assert t[k] == (JsonText(w) + y)[k];
    }
    PrintedStringReads(p, np, s, t, 0);
    PrintedStringReads(p, np, w, t, 0);
    Cut(JsonText(s), x, y);
  }

  lemma {:induction false} JsonClosedPrefix(s: string, w: string, x: string, y: string)
    requires JsonText(s) + "]" + x == JsonText(w) + "]" + y
    ensures s == w && x == y
  {
    assert JsonText(s) + "]" + x == JsonText(s) + ("]" + x);
    assert JsonText(w) + "]" + y == JsonText(w) + ("]" + y);
    JsonPrefix(s, w, "]" + x, "]" + y);
    Cut("]", x, y);
  }

  /** The first six characters tell the tags and truth values apart. */
  function TagOf(v: SearchValue): string {
    match v
    case Str(_) => "[\"stri"
    case Num(_) => "[\"numb"
    case Bool(_) => "[\"bool"
    case Null => "[\"null"
    case Collection(isObject, _) => if isObject then "[\"obje" else "[\"list"
  }

  lemma {:induction false} TaggedStart(v: SearchValue, x: string)
    ensures |Tagged(v)| >= 6 && (Tagged(v) + x)[..6] == TagOf(v)
  {
    match v
    case Str(text) => assert Tagged(v)[..6] == TagOf(v);
    case Num(spelling) => assert Tagged(v)[..6] == TagOf(v);
    case Bool(truth) => assert Tagged(v)[..6] == TagOf(v);
    case Null => assert Tagged(v)[..6] == TagOf(v);
    case Collection(isObject, members) => assert Tagged(v)[..6] == TagOf(v);
  }

  lemma {:induction false} SameTag(v: SearchValue, w: SearchValue, x: string, y: string)
    requires Tagged(v) + x == Tagged(w) + y
    ensures TagOf(v) == TagOf(w)
  {
    TaggedStart(v, x);
    TaggedStart(w, y);
  }

  lemma {:induction false} TagKinds(v: SearchValue, w: SearchValue)
    requires TagOf(v) == TagOf(w)
    ensures v.Str? == w.Str? && v.Num? == w.Num? && v.Bool? == w.Bool? && v.Null? == w.Null?
    ensures v.Collection? ==> w.Collection? && v.isObject == w.isObject
  {
    assert TagOf(v)[2] == TagOf(w)[2] && TagOf(v)[4] == TagOf(w)[4];
  }

  lemma {:induction false} BoolPrefix(v: bool, w: bool, x: string, y: string)
    requires Tagged(Bool(v)) + x == Tagged(Bool(w)) + y
    ensures v == w && x == y
  {
    assert (Tagged(Bool(v)) + x)[8] == (if v then 't' else 'f');
    assert (Tagged(Bool(w)) + y)[8] == (if w then 't' else 'f');
    Cut(Tagged(Bool(v)), x, y);
  }

  lemma {:induction false} TaggedPrefix(v: SearchValue, w: SearchValue, x: string, y: string)
    requires Tagged(v) + x == Tagged(w) + y
    ensures v == w && x == y
    decreases v, 1
  {
    SameTag(v, w, x, y);
    TagKinds(v, w);
    match v
    case Str(text) =>
      CutAfter("[\"string\",", JsonText(text) + "]", JsonText(w.text) + "]", x, y);
      JsonClosedPrefix(text, w.text, x, y);
    case Num(spelling) =>
      CutAfter("[\"number\",", JsonText(spelling) + "]", JsonText(w.spelling) + "]", x, y);
      JsonClosedPrefix(spelling, w.spelling, x, y);
    case Bool(truth) => BoolPrefix(truth, w.truth, x, y);
    case Null => Cut(Tagged(Null), x, y);
    case Collection(isObject, members) =>
      CutAfter(if isObject then "[\"object\",[" else "[\"list\",[", Elements(members, true) + "]",
               Elements(w.members, true) + "]", x, y);
      assert Elements(members, true) + "]" + x == Elements(members, true) + ("]" + x);
      assert Elements(w.members, true) + "]" + y == Elements(w.members, true) + ("]" + y);
      ElementsPrefix(members, w.members, true, "]" + x, "]" + y);
      Cut("]", x, y);
  }

  lemma {:induction false} ElementStart(m: Member, x: string)
    ensures |Element(m)| >= 2 && (Element(m) + x)[0] == '['
    ensures (Element(m) + x)[1] == if m.Item? then '\"' else '['
  {
    TaggedStart(m.value, "");
    assert Tagged(m.value) + "" == Tagged(m.value);
    if m.Entry? {
      TaggedStart(m.key, "");
      assert Tagged(m.key) + "" == Tagged(m.key);
      assert Element(m)[1] == Tagged(m.key)[0] == TagOf(m.key)[0];
    } else {
      assert Tagged(m.value)[..6] == TagOf(m.value);
      assert Element(m)[1] == TagOf(m.value)[1];
    }
  }

  lemma {:induction false} ElementPrefix(m: Member, n: Member, x: string, y: string)
    requires Element(m) + x == Element(n) + y
    ensures m == n && x == y
    decreases m, 3
  {
    ElementStart(m, x);
    ElementStart(n, y);
    if m.Item? {
      TaggedPrefix(m.value, n.value, x, y);
    } else {
      EntryPrefix(m, n, x, y);
    }
  }

  lemma {:induction false} EntryPrefix(m: Member, n: Member, x: string, y: string)
    requires m.Entry? && n.Entry? && Element(m) + x == Element(n) + y
    ensures m == n && x == y
    decreases m, 2
  {
    var a, b := "," + (Tagged(m.value) + "]"), "," + (Tagged(n.value) + "]");
    CutAfter("[", Tagged(m.key) + a, Tagged(n.key) + b, x, y);
    Regroup(Tagged(m.key), a, x);
    Regroup(Tagged(n.key), b, y);
    TaggedPrefix(m.key, n.key, a + x, b + y);
    CutAfter(",", Tagged(m.value) + "]", Tagged(n.value) + "]", x, y);
    Regroup(Tagged(m.value), "]", x);
    Regroup(Tagged(n.value), "]", y);
    TaggedPrefix(m.value, n.value, "]" + x, "]" + y);
    Cut("]", x, y);
  }

  lemma {:induction false} ElementsStart(members: seq<Member>, first: bool, x: string)
    ensures |Elements(members, first)| > 0
    ensures (Elements(members, first) + x)[0] == ']' <==> members == []
  {
    if members != [] { ElementStart(members[0], Elements(members[1..], false)); }
  }

  lemma {:induction false} ElementsPrefix(ms: seq<Member>, ns: seq<Member>, first: bool, x: string, y: string)
    requires Elements(ms, first) + x == Elements(ns, first) + y
    ensures ms == ns && x == y
    decreases ms, 0
  {
    ElementsStart(ms, first, x);
    ElementsStart(ns, first, y);
    if ms == [] {
      Cut("]", x, y);
    } else {
      var comma := if first then "" else ",";
      var a, b := Elements(ms[1..], false), Elements(ns[1..], false);
      CutAfter(comma, Element(ms[0]) + a, Element(ns[0]) + b, x, y);
      assert Element(ms[0]) + a + x == Element(ms[0]) + (a + x);
      assert Element(ns[0]) + b + y == Element(ns[0]) + (b + y);
      ElementPrefix(ms[0], ns[0], a + x, b + y);
      ElementsPrefix(ms[1..], ns[1..], false, x, y);
      assert ms == [ms[0]] + ms[1..] && ns == [ns[0]] + ns[1..];
    }
  }

  /** A term stands for exactly one key and value. */
  lemma {:induction false} TermIdentifies(key: string, value: SearchValue, other: string, otherValue: SearchValue)
    requires TermText(key, value) == TermText(other, otherValue)
    ensures key == other && value == otherValue
  {
    var a, b := "," + (Tagged(value) + "]"), "," + (Tagged(otherValue) + "]");
    Cut("[", JsonText(key) + a, JsonText(other) + b);
    JsonPrefix(key, other, a, b);
    Cut(",", Tagged(value) + "]", Tagged(otherValue) + "]");
    TaggedPrefix(value, otherValue, "]", "]");
  }
}
