/** The object scanner of `pr_reviewer/semantic_judge.py` (`_balanced_object_end`,
    `_first_json_object`) against JSON text as RFC 8259 writes it. */
module JsonScanner {
  import opened Options
  import opened Texts

  // ---------------------------------------------------------------- the scanner

  datatype Mode = Outside | InString | Escaped

  /** One character of the scan: the new depth and mode. */
  function Next(c: char, depth: int, mode: Mode): (int, Mode) {
    match mode
    case Escaped => (depth, InString)
    case InString => (depth, if c == '\\' then Escaped else if c == '"' then Outside else InString)
    case Outside =>
      if c == '"' then (depth, InString)
      else if c == '{' then (depth + 1, Outside)
      else if c == '}' then (depth - 1, Outside)
      else (depth, Outside)
  }

  /** A closing brace outside strings that brings the depth back to zero ends the object. */
  predicate Closes(c: char, depth: int, mode: Mode) {
    mode.Outside? && c == '}' && depth == 1
  }

  /** Where the scan of `s` ends, counted from its start. */
  function Scan(s: string, depth: int, mode: Mode): Option<nat> {
    if s == [] then None
    else if Closes(s[0], depth, mode) then Some(0)
    else
      var (d, m) := Next(s[0], depth, mode);
      After(1, Scan(s[1..], d, m))
  }

  function After(n: nat, r: Option<nat>): Option<nat> {
    if r.Some? then Some(n + r.value) else None
  }

  /** `_balanced_object_end`. */
  method BalancedObjectEnd(text: string, start: nat) returns (end: Option<nat>)
    requires start <= |text|
    ensures end == After(start, Scan(text[start..], 0, Outside))
  {
    var depth, inString, escaped := 0, false, false;
    for index := start to |text|
      invariant escaped ==> inString
      invariant After(start, Scan(text[start..], 0, Outside))
             == After(index, Scan(text[index..], depth, ModeOf(inString, escaped)))
    {
      var c := text[index];
      assert text[index..][0] == c && text[index..][1..] == text[index + 1..];
      if inString {
        if escaped {
          escaped := false;
        } else if c == '\\' {
          escaped := true;
        } else if c == '"' {
          inString := false;
        }
        continue;
      }
      if c == '"' {
        inString := true;
      } else if c == '{' {
        depth := depth + 1;
      } else if c == '}' {
        depth := depth - 1;
        if depth == 0 {
          return Some(index);
        }
      }
    }
    return None;
  }

  function ModeOf(inString: bool, escaped: bool): Mode {
    if escaped then Escaped else if inString then InString else Outside
  }

  // ---------------------------------------------------------------- JSON text

  /** A character of a string literal, section 7 of RFC 8259. */
  datatype StrChar = Plain(c: char) | Esc(c: char) | Unicode(hex: string)

  type Space = string

  /** A JSON value as it is written, section 2 of RFC 8259. `Scalar` is a number or one of
      the three literal names. */
  datatype Json =
    | Scalar(text: string)
    | Text(chars: seq<StrChar>)
    | Array(open: Space, elements: seq<Element>)
    | Object(open: Space, members: seq<Member>)
  datatype Element = Element(before: Space, value: Json, after: Space)
  datatype Member = Member(before: Space, name: seq<StrChar>, afterName: Space, beforeValue: Space, value: Json, after: Space)

  predicate IsSpace(s: Space) {
    forall c :: c in s ==> c == ' ' || c == '\t' || c == '\n' || c == '\r'
  }

  predicate ValidChar(c: StrChar) {
    match c
    case Plain(x) => x >= ' ' && x != '"' && x != '\\'
    case Esc(x) => x in {'"', '\\', '/', 'b', 'f', 'n', 'r', 't'}
    case Unicode(hex) => |hex| == 4 && forall x :: x in hex ==> '0' <= x <= '9' || 'a' <= x <= 'f' || 'A' <= x <= 'F'
  }

  predicate ValidChars(cs: seq<StrChar>) {
    forall c :: c in cs ==> ValidChar(c)
  }

  predicate ScalarChar(c: char) {
    '0' <= c <= '9' || 'a' <= c <= 'z' || c == 'E' || c == '+' || c == '-' || c == '.'
  }

  predicate Valid(v: Json) {
    match v
    case Scalar(text) => forall c :: c in text ==> ScalarChar(c)
    case Text(chars) => ValidChars(chars)
    case Array(open, elements) => IsSpace(open) && forall e :: e in elements ==> ValidElement(e)
    case Object(open, members) => IsSpace(open) && forall m :: m in members ==> ValidMember(m)
  }

  predicate ValidElement(e: Element) {
    IsSpace(e.before) && Valid(e.value) && IsSpace(e.after)
  }

  predicate ValidMember(m: Member) {
    IsSpace(m.before) && ValidChars(m.name) && IsSpace(m.afterName) && IsSpace(m.beforeValue) && Valid(m.value) && IsSpace(m.after)
  }

  function PrintChar(c: StrChar): string {
    match c
    case Plain(x) => [x]
    case Esc(x) => ['\\', x]
    case Unicode(hex) => "\\u" + hex
  }

  function PrintChars(cs: seq<StrChar>): string {
    if cs == [] then "" else PrintChar(cs[0]) + PrintChars(cs[1..])
  }

  function PrintText(cs: seq<StrChar>): string {
    "\"" + PrintChars(cs) + "\""
  }

  function Print(v: Json): string {
    match v
    case Scalar(text) => text
    case Text(chars) => PrintText(chars)
    case Array(open, elements) => "[" + (open + (PrintElements(elements) + "]"))
    case Object(open, members) => "{" + (open + (PrintMembers(members) + "}"))
  }

  function PrintElements(es: seq<Element>): string {
    if es == [] then "" else PrintElement(es[0], if |es| > 1 then "," else "") + PrintElements(es[1..])
  }

  function PrintElement(e: Element, comma: string): string {
    e.before + (Print(e.value) + (e.after + comma))
  }

  function PrintMembers(ms: seq<Member>): string {
    if ms == [] then "" else PrintMember(ms[0], if |ms| > 1 then "," else "") + PrintMembers(ms[1..])
  }

  function PrintMember(m: Member, comma: string): string {
    m.before + (PrintText(m.name) + ((m.afterName + ":" + m.beforeValue) + (Print(m.value) + (m.after + comma))))
  }

  // ---------------------------------------------------------------- values are skipped

  /** The scan walks over `w` and comes out where it went in. */
  ghost predicate Skips(w: string, depth: int, rest: string) {
    Scan(w + rest, depth, Outside) == After(|w|, Scan(rest, depth, Outside))
  }

  lemma {:induction false} SkipBoth(a: string, b: string, depth: int, rest: string)
    requires Skips(a, depth, b + rest) && Skips(b, depth, rest)
    ensures Skips(a + b, depth, rest)
  {
    assert a + b + rest == a + (b + rest);
  }

  lemma {:induction false} SkipQuiet(w: string, depth: int, rest: string)
    requires forall c :: c in w ==> c != '"' && c != '{' && c != '}'
    ensures Skips(w, depth, rest)
  {
    if w == [] {
      assert w + rest == rest;
    } else {
      assert w[0] in w && (w + rest)[1..] == w[1..] + rest && forall c :: c in w[1..] ==> c in w;
      SkipQuiet(w[1..], depth, rest);
    }
  }

  lemma {:induction false} InsideText(cs: seq<StrChar>, depth: int, rest: string)
    requires ValidChars(cs)
    ensures Scan(PrintChars(cs) + rest, depth, InString) == After(|PrintChars(cs)|, Scan(rest, depth, InString))
  {
    if cs == [] {
      assert PrintChars(cs) + rest == rest;
    } else {
      assert cs[0] in cs && forall c :: c in cs[1..] ==> c in cs;
      var tail := PrintChars(cs[1..]) + rest;
      assert PrintChars(cs) + rest == PrintChar(cs[0]) + tail;
      InsideText(cs[1..], depth, rest);
      match cs[0]
      case Plain(x) =>
        assert ([x] + tail)[1..] == tail;
      case Esc(x) =>
        OverEscape(x, [], depth, tail);
      case Unicode(hex) =>
        OverUnicode(hex, depth, tail);
    }
  }

  lemma {:induction false} OverUnicode(hex: string, depth: int, tail: string)
    requires forall c :: c in hex ==> c != '"' && c != '\\'
    ensures Scan("\\u" + hex + tail, depth, InString) == After(|"\\u" + hex|, Scan(tail, depth, InString))
  {
    assert "\\u" + hex == ['\\', 'u'] + hex;
    OverEscape('u', hex, depth, tail);
  }

  lemma {:induction false} OverEscape(x: char, hex: string, depth: int, tail: string)
    requires forall c :: c in hex ==> c != '"' && c != '\\'
    ensures Scan(['\\', x] + hex + tail, depth, InString) == After(2 + |hex|, Scan(tail, depth, InString))
  {
    var s := ['\\', x] + hex + tail;
    assert s[1..][0] == x && s[1..][1..] == hex + tail;
    QuietInside(hex, depth, tail);
  }

  lemma {:induction false} QuietInside(w: string, depth: int, tail: string)
    requires forall c :: c in w ==> c != '"' && c != '\\'
    ensures Scan(w + tail, depth, InString) == After(|w|, Scan(tail, depth, InString))
  {
    if w == [] {
      assert w + tail == tail;
    } else {
      assert w[0] in w && (w + tail)[1..] == w[1..] + tail && forall c :: c in w[1..] ==> c in w;
      QuietInside(w[1..], depth, tail);
    }
  }

  /** Whatever quotes, backslashes and braces a string contains, it is skipped whole. */
  lemma {:induction false} SkipText(cs: seq<StrChar>, depth: int, rest: string)
    requires ValidChars(cs)
    ensures Skips(PrintText(cs), depth, rest)
  {
    var inner := PrintChars(cs) + ("\"" + rest);
    assert PrintText(cs) + rest == "\"" + inner;
    assert ("\"" + inner)[1..] == inner && ("\"" + rest)[1..] == rest;
    InsideText(cs, depth, "\"" + rest);
  }

  lemma {:induction false} SkipValue(v: Json, depth: nat, rest: string)
    requires Valid(v) && depth >= 1
    ensures Skips(Print(v), depth, rest)
    decreases v, 2
  {
    match v
    case Scalar(text) =>
      SkipQuiet(text, depth, rest);
    case Text(chars) =>
      SkipText(chars, depth, rest);
    case Array(open, elements) =>
      SkipElements(elements, depth, "]" + rest);
      SkipClosed(open, PrintElements(elements), depth, rest);
    case Object(open, members) =>
      ToClosingBrace(open, members, depth, rest);
      BraceSkips(open + PrintMembers(members), depth, rest);
      assert "{" + (open + (PrintMembers(members) + "}")) == "{" + (open + PrintMembers(members)) + "}";
  }

  lemma {:induction false} SkipClosed(open: Space, body: string, depth: nat, rest: string)
    requires IsSpace(open) && Skips(body, depth, "]" + rest)
    ensures Skips("[" + (open + (body + "]")), depth, rest)
  {
    SkipQuiet("]", depth, rest);
    SkipBoth(body, "]", depth, rest);
    SkipQuiet(open, depth, body + "]" + rest);
    SkipBoth(open, body + "]", depth, rest);
    SkipQuiet("[", depth, open + (body + "]") + rest);
    SkipBoth("[", open + (body + "]"), depth, rest);
  }

  /** From just inside an opening brace the scan reaches the matching closing brace. */
  lemma {:induction false} ToClosingBrace(open: Space, members: seq<Member>, depth: nat, rest: string)
    requires IsSpace(open) && forall m :: m in members ==> ValidMember(m)
    ensures Skips(open + PrintMembers(members), depth + 1, "}" + rest)
    decreases members, |members| + 2
  {
    SkipMembers(members, depth + 1, "}" + rest);
    SkipQuiet(open, depth + 1, PrintMembers(members) + ("}" + rest));
    SkipBoth(open, PrintMembers(members), depth + 1, "}" + rest);
  }

  lemma {:induction false} BraceSkips(inner: string, depth: nat, rest: string)
    requires depth >= 1 && Skips(inner, depth + 1, "}" + rest)
    ensures Skips("{" + inner + "}", depth, rest)
  {
    var s := "{" + inner + "}" + rest;
    assert s[1..] == inner + ("}" + rest);
    assert ("}" + rest)[1..] == rest;
  }

  lemma {:induction false} SkipElements(es: seq<Element>, depth: nat, rest: string)
    requires depth >= 1 && forall e :: e in es ==> ValidElement(e)
    ensures Skips(PrintElements(es), depth, rest)
    decreases es, |es|
  {
    if es == [] {
      assert PrintElements(es) + rest == rest;
    } else {
      assert es[0] in es && forall x :: x in es[1..] ==> x in es;
      SkipElements(es[1..], depth, rest);
      SkipElement(es[0], if |es| > 1 then "," else "", depth, PrintElements(es[1..]) + rest);
      SkipBoth(PrintElement(es[0], if |es| > 1 then "," else ""), PrintElements(es[1..]), depth, rest);
    }
  }

  lemma {:induction false} SkipElement(e: Element, comma: string, depth: nat, rest: string)
    requires depth >= 1 && ValidElement(e) && (comma == "," || comma == "")
    ensures Skips(PrintElement(e, comma), depth, rest)
    decreases e, 3
  {
    SkipQuiet(e.after + comma, depth, rest);
    SkipValue(e.value, depth, e.after + comma + rest);
    SkipBoth(Print(e.value), e.after + comma, depth, rest);
    SkipQuiet(e.before, depth, Print(e.value) + (e.after + comma) + rest);
    SkipBoth(e.before, Print(e.value) + (e.after + comma), depth, rest);
  }

  lemma {:induction false} SkipMembers(ms: seq<Member>, depth: nat, rest: string)
    requires depth >= 1 && forall m :: m in ms ==> ValidMember(m)
    ensures Skips(PrintMembers(ms), depth, rest)
    decreases ms, |ms|
  {
    if ms == [] {
      assert PrintMembers(ms) + rest == rest;
    } else {
      assert ms[0] in ms && forall x :: x in ms[1..] ==> x in ms;
      SkipMembers(ms[1..], depth, rest);
      SkipMember(ms[0], if |ms| > 1 then "," else "", depth, PrintMembers(ms[1..]) + rest);
      SkipBoth(PrintMember(ms[0], if |ms| > 1 then "," else ""), PrintMembers(ms[1..]), depth, rest);
    }
  }

  lemma {:induction false} SkipMember(m: Member, comma: string, depth: nat, rest: string)
    requires depth >= 1 && ValidMember(m) && (comma == "," || comma == "")
    ensures Skips(PrintMember(m, comma), depth, rest)
    decreases m, 3
  {
    SkipQuiet(m.after + comma, depth, rest);
    SkipValue(m.value, depth, m.after + comma + rest);
    SkipBoth(Print(m.value), m.after + comma, depth, rest);
    SkipName(m, Print(m.value) + (m.after + comma), depth, rest);
  }

  lemma {:induction false} SkipName(m: Member, tail: string, depth: nat, rest: string)
    requires ValidMember(m) && Skips(tail, depth, rest)
    ensures Skips(m.before + (PrintText(m.name) + ((m.afterName + ":" + m.beforeValue) + tail)), depth, rest)
  {
    var colon := m.afterName + ":" + m.beforeValue;
    SkipQuiet(colon, depth, tail + rest);
    SkipBoth(colon, tail, depth, rest);
    SkipText(m.name, depth, colon + tail + rest);
    SkipBoth(PrintText(m.name), colon + tail, depth, rest);
    SkipQuiet(m.before, depth, PrintText(m.name) + (colon + tail) + rest);
    SkipBoth(m.before, PrintText(m.name) + (colon + tail), depth, rest);
  }

  /** Started at the opening brace of an object, in any text, the scanner ends at exactly
      the closing brace of that object. */
  lemma {:induction false} ScannerFindsObject(before: string, open: Space, members: seq<Member>, after: string)
    requires Valid(Object(open, members))
    ensures var text := before + Print(Object(open, members)) + after;
            After(|before|, Scan(text[|before|..], 0, Outside)) == Some(|before| + |Print(Object(open, members))| - 1)
  {
    var inner := open + PrintMembers(members);
    ToClosingBrace(open, members, 0, after);
    PrintedObject(open, members, inner);
    FromBrace(before, Print(Object(open, members)), inner, after);
    BraceScan(inner, after);
  }

  lemma {:induction false} PrintedObject(open: Space, members: seq<Member>, inner: string)
    requires inner == open + PrintMembers(members)
    ensures Print(Object(open, members)) == "{" + (inner + "}")
  {
    assert open + (PrintMembers(members) + "}") == inner + "}";
  }

  lemma {:induction false} FromBrace(before: string, printed: string, inner: string, after: string)
    requires printed == "{" + (inner + "}")
    ensures (before + printed + after)[|before|..] == "{" + (inner + ("}" + after)) && |printed| == |inner| + 2
  {
  }

  lemma {:induction false} BraceScan(inner: string, after: string)
    requires Skips(inner, 1, "}" + after)
    ensures Scan("{" + (inner + ("}" + after)), 0, Outside) == Some(1 + |inner|)
  {
    var s := "{" + (inner + ("}" + after));
    assert s[0] == '{' && s[1..] == inner + ("}" + after);
  }

  // ---------------------------------------------------------------- the retry scan

  /** `json.loads`, as far as it yields an object. */
  type Parser = string -> Option<Json>

  /** The text from `start` to the end that the scanner finds, if any. */
  function SpanAt(text: string, start: nat): Option<string>
    requires start <= |text|
  {
    var end := Scan(text[start..], 0, Outside);
    if end.Some? then (ScanInside(text[start..], 0, Outside); Some(text[start..start + end.value + 1])) else None
  }

  lemma {:induction false} ScanInside(s: string, depth: int, mode: Mode)
    ensures Scan(s, depth, mode).Some? ==> Scan(s, depth, mode).value < |s|
  {
    if s != [] && !Closes(s[0], depth, mode) {
      var (d, m) := Next(s[0], depth, mode);
      ScanInside(s[1..], d, m);
    }
  }

  /** An object starts here: an opening brace whose balanced span parses. */
  predicate ObjectAt(text: string, parse: Parser, start: nat) {
    start < |text| && text[start] == '{' && SpanAt(text, start).Some? && parse(SpanAt(text, start).value).Some?
  }

  method FindBrace(text: string, from: nat) returns (at: int)
    requires from <= |text|
    ensures at == -1 || from <= at < |text|
    ensures at == -1 ==> forall k :: from <= k < |text| ==> text[k] != '{'
    ensures at != -1 ==> text[at] == '{' && forall k :: from <= k < at ==> text[k] != '{'
  {
    for i := from to |text|
      invariant forall k :: from <= k < i ==> text[k] != '{'
    {
      if text[i] == '{' {
        return i;
      }
    }
    return -1;
  }

  /** The retry loop of `_first_json_object`: the first start that works. */
  method FirstSpan(text: string, parse: Parser) returns (found: Option<Json>)
    ensures found.None? <==> forall s: nat :: !ObjectAt(text, parse, s)
    ensures found.Some? ==> exists s: nat :: ObjectAt(text, parse, s) && (forall t: nat :: t < s ==> !ObjectAt(text, parse, t))
                                          && found == parse(SpanAt(text, s).value)
  {
    var start := FindBrace(text, 0);
    while start != -1
      invariant start == -1 || (0 <= start < |text| && text[start] == '{')
      invariant forall t: nat :: (start == -1 || t < start) ==> !ObjectAt(text, parse, t)
      decreases if start == -1 then 0 else |text| - start
    {
      ScanInside(text[start..], 0, Outside);
      var end := BalancedObjectEnd(text, start);
      if end.Some? {
        assert SpanAt(text, start) == Some(text[start..end.value + 1]);
        found := parse(text[start..end.value + 1]);
        if found.Some? {
          assert ObjectAt(text, parse, start);
          return;
        }
      }
      start := FindBrace(text, start + 1);
    }
    found := None;
  }

  // ---------------------------------------------------------------- fenced blocks

  const FENCE: string := "```"

  /** How many blanks and tabs a text starts with. */
  function Blanks(s: string): (n: nat)
    ensures n <= |s| && (forall k :: 0 <= k < n ==> s[k] == ' ' || s[k] == '\t')
    ensures n < |s| ==> s[n] != ' ' && s[n] != '\t'
  {
    if s != "" && (s[0] == ' ' || s[0] == '\t') then 1 + Blanks(s[1..]) else 0
  }

  /** Where a text first holds `mark`. */
  function Find(s: string, mark: string): (at: Option<nat>)
    ensures at.Some? ==> at.value <= |s| && mark <= s[at.value..]
    ensures at.Some? ==> forall k :: 0 <= k < at.value ==> !(mark <= s[k..])
  {
    if mark <= s then Some(0)
    else if s == "" then None
    else
      assert forall k :: 0 < k <= |s| ==> s[k..] == s[1..][k - 1..];
      After(1, Find(s[1..], mark))
  }

  /** The length of an opening fence at the start of a text. */
  function Opening(s: string): (n: Option<nat>)
    ensures n.Some? ==> 8 <= n.value <= |s|
  {
    if !(FENCE + "json" <= s) then None
    else
      var n := 7 + Blanks(s[7..]);
      if n < |s| && s[n] == '\n' then Some(n + 1) else None
  }

  datatype Fenced = Fenced(body: string, end: nat)

  /** The block that opens at the start of a text, and where it ends. */
  function FenceAt(s: string): (r: Option<Fenced>)
    ensures r.Some? ==> 8 < r.value.end <= |s|
  {
    FenceFrom(s, Opening(s))
  }

  function FenceFrom(s: string, opening: Option<nat>): (r: Option<Fenced>)
    requires opening.Some? ==> 8 <= opening.value <= |s|
    ensures r.Some? ==> 8 < r.value.end <= |s|
  {
    if opening.None? then None else ClosedAt(s, opening.value, Find(s[opening.value..], FENCE))
  }

  function ClosedAt(s: string, n: nat, close: Option<nat>): (r: Option<Fenced>)
    requires 8 <= n <= |s| && (close.Some? ==> close.value + 3 <= |s| - n)
    ensures r.Some? ==> 8 < r.value.end <= |s|
  {
    if close.None? then None else Some(Fenced(s[n..][..close.value], n + close.value + 3))
  }

  /** The fenced blocks of a text, from left to right without overlap: what stands between
      an opening fence and the next closing one. */
  function Fences(s: string): seq<string>
    decreases |s|
  {
    if s == "" then []
    else
      var first := FenceAt(s);
      if first.None? then Fences(s[1..]) else [first.value.body] + Fences(s[first.value.end..])
  }

  /** The first block that parses. */
  function FirstFence(fences: seq<string>, parse: Parser): (r: Option<Json>)
    ensures r.None? <==> forall i :: 0 <= i < |fences| ==> parse(fences[i]).None?
    ensures r.Some? ==> exists i :: 0 <= i < |fences| && r == parse(fences[i]) && forall j :: 0 <= j < i ==> parse(fences[j]).None?
  {
    if fences == [] then None
    else
      var front, last := fences[..|fences| - 1], fences[|fences| - 1];
      var r := FirstFence(front, parse);
      if r.Some? then r else parse(last)
  }

  /** Where the first span from `start` on is that parses. */
  function FirstStart(text: string, parse: Parser, start: nat): (r: Option<nat>)
    requires start <= |text|
    ensures r.None? <==> forall s: nat :: s >= start ==> !ObjectAt(text, parse, s)
    ensures r.Some? ==> start <= r.value && ObjectAt(text, parse, r.value)
    ensures r.Some? ==> forall k: nat :: start <= k < r.value ==> !ObjectAt(text, parse, k)
    decreases |text| - start
  {
    if start == |text| then None
    else if ObjectAt(text, parse, start) then Some(start)
    else FirstStart(text, parse, start + 1)
  }

  function Retry(text: string, parse: Parser): Option<Json> {
    var start := FirstStart(text, parse, 0);
    if start.Some? then parse(SpanAt(text, start.value).value) else None
  }

  /** What `_first_json_object` is to find: the whole stripped text, or else the first
      fenced block, or else the first balanced span that is an object. */
  function FirstObject(text: string, space: char -> bool, parse: Parser): Option<Json> {
    var stripped := Strip(text, space);
    if parse(stripped).Some? then parse(stripped)
    else if FirstFence(Fences(stripped), parse).Some? then FirstFence(Fences(stripped), parse)
    else Retry(stripped, parse)
  }

  /** `_first_json_object`; `space` is Python's white space. */
  method FirstJsonObject(text: string, space: char -> bool, parse: Parser) returns (found: Option<Json>)
    ensures found == FirstObject(text, space, parse)
  {
    var stripped := Strip(text, space);
    found := parse(stripped);
    if found.Some? {
      return;
    }
    var fences := Fences(stripped);
    for i := 0 to |fences|
      invariant FirstFence(fences[..i], parse).None?
    {
      found := parse(fences[i]);
      assert fences[..i + 1][..i] == fences[..i];
      if found.Some? {
        FirstFenceFound(fences, parse, i);
        return;
      }
    }
    assert fences[..|fences|] == fences;
    found := FirstSpan(stripped, parse);
  }

  lemma {:induction false} FirstFenceFound(fences: seq<string>, parse: Parser, i: nat)
    requires i < |fences| && FirstFence(fences[..i], parse).None? && parse(fences[i]).Some?
    ensures FirstFence(fences, parse) == parse(fences[i])
  {
    assert forall j :: 0 <= j < i ==> fences[..i][j] == fences[j];
  }

  // ---------------------------------------------------------------- what a fenced block is

  /** A fence opens a text exactly with three back quotes, `json`, blanks and tabs, and a
      line feed. */
  lemma {:induction false} OpeningIff(s: string, n: nat)
    ensures Opening(s) == Some(n) <==>
            && 8 <= n <= |s| && s[..7] == "```json" && s[n - 1] == '\n'
            && forall k :: 7 <= k < n - 1 ==> s[k] == ' ' || s[k] == '\t'
  {
    if 8 <= n <= |s| && s[..7] == "```json" && s[n - 1] == '\n' && forall k :: 7 <= k < n - 1 ==> s[k] == ' ' || s[k] == '\t' {
      var m := Blanks(s[7..]);
      assert 7 + m < |s| ==> s[7..][m] == s[7 + m];
      assert n - 8 < |s| - 7 && s[7..][n - 8] == s[n - 1];
      assert forall k :: 0 <= k < n - 8 ==> s[7..][k] == s[7 + k];
      assert m == n - 8;
    }
    if Opening(s) == Some(n) {
      assert forall k :: 0 <= k < n - 8 ==> s[7..][k] == s[7 + k];
    }
  }

  /** The first place of a mark. */
  lemma {:induction false} FindIff(s: string, mark: string, n: nat)
    ensures Find(s, mark) == Some(n) <==> n <= |s| && mark <= s[n..] && forall k :: 0 <= k < n ==> !(mark <= s[k..])
  {
    FindNone(s, mark);
    var at := Find(s, mark);
    if at.Some? && n <= |s| && mark <= s[n..] && forall k :: 0 <= k < n ==> !(mark <= s[k..]) {
      assert at.value >= n;
    }
  }

  lemma {:induction false} FindNone(s: string, mark: string)
    ensures Find(s, mark).None? <==> forall k :: 0 <= k <= |s| ==> !(mark <= s[k..])
  {
    assert s[0..] == s;
    if s != "" && !(mark <= s) {
      FindNone(s[1..], mark);
      assert forall k :: 0 < k <= |s| ==> s[k..] == s[1..][k - 1..];
      assert forall k :: 0 <= k < |s| ==> s[1..][k..] == s[k + 1..];
    }
  }

  /** The blocks of a text: none in the empty text; a block is what stands between an
      opening and the next three back quotes, and the search goes on behind them; where no
      closed block opens, it goes on with the next character. */
  lemma {:induction false} FenceRules(blanks: string, body: string, rest: string, s: string)
    requires forall x :: x in blanks ==> x == ' ' || x == '\t'
    requires Find(body + ("```" + rest), "```") == Some(|body|)
    ensures Fences("") == []
    ensures Fences("```json" + (blanks + ("\n" + (body + ("```" + rest))))) == [body] + Fences(rest)
    ensures s != "" && (forall n :: Opening(s) == Some(n) ==> forall k :: n <= k <= |s| ==> !("```" <= s[k..])) ==>
              Fences(s) == Fences(s[1..])
  {
    BlockFirst(blanks, body, rest);
    if s != "" && (forall n :: Opening(s) == Some(n) ==> forall k :: n <= k <= |s| ==> !("```" <= s[k..])) {
      NoBlockHere(s);
    }
  }

  lemma {:induction false} BlockFirst(blanks: string, body: string, rest: string)
    requires forall x :: x in blanks ==> x == ' ' || x == '\t'
    requires Find(body + ("```" + rest), "```") == Some(|body|)
    ensures Fences("```json" + (blanks + ("\n" + (body + ("```" + rest))))) == [body] + Fences(rest)
  {
    OpeningOf(blanks, body + ("```" + rest));
    assert FENCE + "json" == "```json";
    BlockStart("```json" + (blanks + ("\n" + (body + ("```" + rest)))), 8 + |blanks|, body, rest);
  }

  lemma {:induction false} BlockStart(s: string, n: nat, body: string, rest: string)
    requires 8 <= n <= |s| && Opening(s) == Some(n) && s[n..] == body + ("```" + rest)
    requires Find(body + ("```" + rest), "```") == Some(|body|)
    ensures Fences(s) == [body] + Fences(rest)
  {
    var end := BlockBody(s, n, body, rest);
    FirstThenRest(s, n, body, end);
  }

  /** The block behind an opening of `n` characters ends here. */
  lemma {:induction false} BlockBody(s: string, n: nat, body: string, rest: string) returns (end: nat)
    requires 8 <= n <= |s| && s[n..] == body + ("```" + rest)
    requires Find(body + ("```" + rest), "```") == Some(|body|)
    ensures 8 < end <= |s| && s[end..] == rest && FenceFrom(s, Some(n)) == Some(Fenced(body, end))
  {
    var front, back := BodyAndRest(s[n..], body, rest);
    end := BlockAt(s, n, front);
    TailOfTail(s, n, back);
  }

  lemma {:induction false} BlockAt(s: string, n: nat, close: nat) returns (end: nat)
    requires 8 <= n <= |s| && Find(s[n..], FENCE) == Some(close)
    ensures end == n + close + 3 && FenceFrom(s, Some(n)) == Some(Fenced(s[n..][..close], end))
  {
    end := n + close + 3;
  }

  lemma {:induction false} FirstThenRest(s: string, n: nat, body: string, end: nat)
    requires s != "" && 8 <= n <= |s| && Opening(s) == Some(n) && FenceFrom(s, Some(n)) == Some(Fenced(body, end))
    ensures Fences(s) == [body] + Fences(s[end..])
  {
    assert FenceAt(s) == Some(Fenced(body, end));
  }

  lemma {:induction false} BodyAndRest(t: string, body: string, rest: string) returns (front: nat, back: nat)
    requires t == body + ("```" + rest)
    ensures front == |body| && back == front + 3 && |t| >= back && t[..front] == body && t[back..] == rest
  {
    front, back := |body|, |body| + 3;
  }

  lemma {:induction false} TailOfTail(s: string, n: nat, m: nat)
    requires n + m <= |s|
    ensures s[n..][m..] == s[n + m..]
  {
  }

  lemma {:induction false} NoBlockHere(s: string)
    requires s != "" && forall n :: Opening(s) == Some(n) ==> forall k :: n <= k <= |s| ==> !("```" <= s[k..])
    ensures Fences(s) == Fences(s[1..])
  {
    var n := Opening(s);
    if n.Some? {
      var tail := s[n.value..];
      forall k | 0 <= k <= |tail| ensures !(FENCE <= tail[k..]) {
        assert tail[k..] == s[n.value + k..];
      }
      FindNone(tail, FENCE);
    }
  }

  // ---------------------------------------------------------------- what is found

  /** A text that is an object, up to white space around it, is what is found, whatever
      fences and braces it has inside. */
  lemma {:induction false} WholeTextFirst(left: string, text: string, right: string, space: char -> bool, parse: Parser)
    requires (forall c :: c in left ==> space(c)) && (forall c :: c in right ==> space(c))
    requires text != "" && !space(text[0]) && !space(text[|text| - 1]) && parse(text).Some?
    ensures FirstObject(left + text + right, space, parse) == parse(text)
  {
    StripAround(left, text, right, space);
    StripEnds(text, space);
  }

  /** The span from an opening brace to the end that the scan finds for it parses. */
  ghost predicate ParsesFrom(text: string, parse: Parser, start: nat) {
    && start < |text| && text[start] == '{'
    && exists end: nat :: start + end < |text| && Scan(text[start..], 0, Outside) == Some(end) && parse(text[start..start + end + 1]).Some?
  }

  lemma {:induction false} ObjectAtIff(text: string, parse: Parser, start: nat)
    ensures ObjectAt(text, parse, start) <==> ParsesFrom(text, parse, start)
  {
    if start < |text| {
      ScanInside(text[start..], 0, Outside);
    }
  }

  /** Nothing is found exactly when neither the stripped text, nor a fenced block, nor a
      balanced span is an object. */
  lemma {:induction false} NothingFound(text: string, space: char -> bool, parse: Parser)
    ensures FirstObject(text, space, parse).None? <==>
            var stripped := Strip(text, space);
            && parse(stripped).None? && (forall b :: b in Fences(stripped) ==> parse(b).None?)
            && forall start: nat :: !ParsesFrom(stripped, parse, start)
  {
    var stripped := Strip(text, space);
    forall start: nat ensures ObjectAt(stripped, parse, start) <==> ParsesFrom(stripped, parse, start) {
      ObjectAtIff(stripped, parse, start);
    }
    NoneIsNone(Fences(stripped), parse);
  }

  lemma {:induction false} NoneIsNone(fences: seq<string>, parse: Parser)
    ensures FirstFence(fences, parse).None? <==> forall b :: b in fences ==> parse(b).None?
  {
    forall b | b in fences ensures exists i :: 0 <= i < |fences| && fences[i] == b {
    }
  }

  /** A judge that wraps its object in prose is still read: after text without a brace, the
      object is what is found, whatever follows it, unless the whole text or a fenced block
      in it is an object too. */
  lemma {:induction false} ProseThenObject(left: string, before: string, open: Space, members: seq<Member>, after: string,
                                           right: string, space: char -> bool, parse: Parser)
    requires Valid(Object(open, members)) && '{' !in before && parse(Print(Object(open, members))).Some?
    requires (forall c :: c in left ==> space(c)) && (forall c :: c in right ==> space(c))
    requires var text := before + Print(Object(open, members)) + after;
             Strip(text, space) == text && parse(text).None? && FirstFence(Fences(text), parse).None?
    ensures FirstObject(left + (before + Print(Object(open, members)) + after) + right, space, parse) ==
            parse(Print(Object(open, members)))
  {
    var printed := Print(Object(open, members));
    var text := before + printed + after;
    StripAround(left, text, right, space);
    ObjectAfterProse(before, open, members, after, parse);
  }

  lemma {:induction false} ObjectAfterProse(before: string, open: Space, members: seq<Member>, after: string, parse: Parser)
    requires Valid(Object(open, members)) && '{' !in before && parse(Print(Object(open, members))).Some?
    ensures var text := before + Print(Object(open, members)) + after;
            Retry(text, parse) == parse(Print(Object(open, members)))
  {
    var printed := Print(Object(open, members));
    var text := before + printed + after;
    ScannerFindsObject(before, open, members, after);
    assert text[|before|] == printed[0] == '{';
    assert text[|before|..|before| + |printed|] == printed;
    forall t: nat | t < |before| ensures !ObjectAt(text, parse, t) {
      assert text[t] == before[t];
    }
    assert ObjectAt(text, parse, |before|);
  }

  /** No opening fence starts anywhere in a text. */
  ghost predicate Unfenced(s: string) {
    forall k :: 0 <= k < |s| ==> Opening(s[k..]).None?
  }

  /** An opening fence that starts in one text does not end in the next, when that one
      starts with a fence. */
  lemma {:induction false} OpeningStays(s: string, block: string)
    requires s != "" && FENCE + "json" <= block && Opening(s + block).Some?
    ensures Opening(s).Some?
  {
    var all := s + block;
    assert all[3] == 'j' && forall k :: 0 <= k < |s| ==> all[k] == s[k];
    assert forall k :: 0 <= k < |block| ==> all[|s| + k] == block[k];
    assert all[|s|] == '`' && all[|s| + 1] == '`' && all[|s| + 2] == '`';
    OpeningEnds(s, block);
  }

  lemma {:induction false} OpeningEnds(s: string, block: string)
    requires |s| >= 7 && block != "" && block[0] == '`' && Opening(s + block).Some?
    ensures Opening(s).Some?
  {
    var all := s + block;
    assert all[..7] == s[..7] == FENCE + "json";
    assert all[7..] == s[7..] + block;
    BlanksOfBoth(s[7..], block);
  }

  lemma {:induction false} BlanksOfBoth(a: string, b: string)
    requires b != "" && b[0] == '`'
    ensures Blanks(a + b) == Blanks(a)
  {
    if a == "" {
      assert a + b == b;
    } else {
      assert (a + b)[0] == a[0] && (a + b)[1..] == a[1..] + b;
      BlanksOfBoth(a[1..], b);
    }
  }

  /** Text in which no fence opens adds no block. */
  lemma {:induction false} FencesAfter(before: string, block: string)
    requires Unfenced(before) && FENCE + "json" <= block
    ensures Fences(before + block) == Fences(block)
  {
    if before == "" {
      assert before + block == block;
    } else {
      var all := before + block;
      assert before[0..] == before && all[1..] == before[1..] + block;
      if Opening(all).Some? {
        OpeningStays(before, block);
        assert false;
      }
      forall k | 0 <= k < |before[1..]| ensures Opening(before[1..][k..]).None? {
        assert before[1..][k..] == before[k + 1..];
      }
      FencesAfter(before[1..], block);
    }
  }

  lemma {:induction false} BlanksThen(blanks: string, c: char, rest: string)
    requires (forall x :: x in blanks ==> x == ' ' || x == '\t') && c != ' ' && c != '\t'
    ensures Blanks(blanks + ([c] + rest)) == |blanks|
  {
    var s := blanks + ([c] + rest);
    if blanks != "" {
      assert s[0] == blanks[0] && s[1..] == blanks[1..] + ([c] + rest);
      assert blanks[0] in blanks && forall x :: x in blanks[1..] ==> x in blanks;
      BlanksThen(blanks[1..], c, rest);
    }
  }

  lemma {:induction false} OpeningOf(blanks: string, rest: string)
    requires forall x :: x in blanks ==> x == ' ' || x == '\t'
    ensures var s := (FENCE + "json") + (blanks + ("\n" + rest));
            Opening(s) == Some(8 + |blanks|) && s[8 + |blanks|..] == rest
  {
    var s := (FENCE + "json") + (blanks + ("\n" + rest));
    BlanksThen(blanks, '\n', rest);
    assert s[7..] == blanks + ("\n" + rest);
    assert s[7 + |blanks|] == '\n';
  }

  /** An object in a fenced block, behind text in which no fence opens, is what is found,
      whatever braces stand around the block, unless the whole text is an object. The block
      ends at the first fence after its start. */
  lemma {:induction false} FencedObject(left: string, before: string, blanks: string, body: string, after: string,
                                        right: string, space: char -> bool, parse: Parser)
    requires Unfenced(before) && (forall x :: x in blanks ==> x == ' ' || x == '\t')
    requires Find(body + (FENCE + after), FENCE) == Some(|body|) && parse(body).Some?
    requires (forall c :: c in left ==> space(c)) && (forall c :: c in right ==> space(c))
    requires var text := before + ((FENCE + "json") + (blanks + ("\n" + (body + (FENCE + after)))));
             Strip(text, space) == text && parse(text).None?
    ensures var text := before + ((FENCE + "json") + (blanks + ("\n" + (body + (FENCE + after)))));
            FirstObject(left + text + right, space, parse) == parse(body)
  {
    var block := (FENCE + "json") + (blanks + ("\n" + (body + (FENCE + after))));
    StripAround(left, before + block, right, space);
    FencesAfter(before, block);
    FirstBlock(blanks, body, after);
    FirstFenceFound(Fences(block), parse, 0);
  }

  lemma {:induction false} FirstBlock(blanks: string, body: string, after: string)
    requires Find(body + (FENCE + after), FENCE) == Some(|body|)
    requires forall x :: x in blanks ==> x == ' ' || x == '\t'
    ensures var fences := Fences((FENCE + "json") + (blanks + ("\n" + (body + (FENCE + after)))));
            fences != [] && fences[0] == body
  {
    var tail := body + (FENCE + after);
    var block := (FENCE + "json") + (blanks + ("\n" + tail));
    OpeningOf(blanks, tail);
    HeadBlock(block, 8 + |blanks|, |body|);
    assert tail[..|body|] == body;
  }

  lemma {:induction false} HeadBlock(s: string, n: nat, close: nat)
    requires Opening(s) == Some(n) && Find(s[n..], FENCE) == Some(close)
    ensures Fences(s) != [] && Fences(s)[0] == s[n..][..close]
  {
    assert FenceAt(s).Some? && FenceAt(s).value.body == s[n..][..close];
  }
}
