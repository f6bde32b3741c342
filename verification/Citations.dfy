/** Citation checking of `pr_reviewer/semantic_judge.py`: a judge may quote exactly what it
    was shown. */
module Citations {
  import opened Texts

  /** The character tables Python brings: case folding, `isalnum` and what `strip` removes. */
  datatype Tables = Tables(fold: char -> string, alnum: char -> bool, space: char -> bool)

  /** White space folds to itself and is not alphanumeric; the two quote marks are not
      white space, the line feed is. */
  ghost predicate Sane(u: Tables) {
    && (forall c :: u.space(c) ==> u.fold(c) == [c] && !u.alnum(c))
    && u.space('\n') && !u.space('`') && !u.space('\U{2019}')
  }

  // ---------------------------------------------------------------- normalization

  function Fold(u: Tables, s: string): string {
    if s == [] then [] else u.fold(s[0]) + Fold(u, s[1..])
  }

  function ReplaceChar(s: string, c: char, r: string): string {
    if s == [] then [] else (if s[0] == c then r else [s[0]]) + ReplaceChar(s[1..], c, r)
  }

  /** `_normalize_for_citation`. */
  function Normalize(u: Tables, s: string): string {
    ReplaceChar(ReplaceChar(Fold(u, s), '`', ""), '\U{2019}', "'")
  }

  lemma {:induction false} FoldAppend(u: Tables, s: string, t: string)
    ensures Fold(u, s + t) == Fold(u, s) + Fold(u, t)
  {
    if s == [] {
      assert s + t == t;
    } else {
      assert (s + t)[1..] == s[1..] + t;
      FoldAppend(u, s[1..], t);
    }
  }

  lemma {:induction false} ReplaceAppend(s: string, t: string, c: char, r: string)
    ensures ReplaceChar(s + t, c, r) == ReplaceChar(s, c, r) + ReplaceChar(t, c, r)
  {
    if s == [] {
      assert s + t == t;
    } else {
      assert (s + t)[1..] == s[1..] + t;
      ReplaceAppend(s[1..], t, c, r);
    }
  }

  /** Normalization is taken piece by piece. */
  lemma {:induction false} NormalizeAppend(u: Tables, s: string, t: string)
    ensures Normalize(u, s + t) == Normalize(u, s) + Normalize(u, t)
  {
    FoldAppend(u, s, t);
    ReplaceAppend(Fold(u, s), Fold(u, t), '`', "");
    ReplaceAppend(ReplaceChar(Fold(u, s), '`', ""), ReplaceChar(Fold(u, t), '`', ""), '\U{2019}', "'");
  }

  lemma {:induction false} NormalizeSpace(u: Tables, c: char)
    requires Sane(u) && u.space(c)
    ensures Normalize(u, [c]) == [c]
  {
    assert [c][1..] == [] && Fold(u, [c]) == [c] + Fold(u, []);
    assert ReplaceChar([c], '`', "") == [c] + ReplaceChar([], '`', "");
    assert ReplaceChar([c], '\U{2019}', "'") == [c] + ReplaceChar([], '\U{2019}', "'");
  }

  // ---------------------------------------------------------------- what normalization reads

  /** Folding leaves the back quote and both apostrophes alone, and makes no back quote and
      no typographic apostrophe out of anything else. */
  ghost predicate KeepsQuotes(u: Tables) {
    && u.fold('`') == "`" && u.fold('\U{2019}') == "\U{2019}" && u.fold('\'') == "'"
    && forall c :: c != '`' && c != '\U{2019}' ==> '`' !in u.fold(c) && '\U{2019}' !in u.fold(c)
  }

  /** What a text says: its characters one by one, without its back quotes, with straight
      apostrophes, and folded. */
  function Reading(u: Tables, s: string): string {
    if s == [] then []
    else (if s[0] == '`' then "" else if s[0] == '\U{2019}' then "'" else u.fold(s[0])) + Reading(u, s[1..])
  }

  lemma {:induction false} NotReplaced(s: string, c: char, r: string)
    requires c !in s
    ensures ReplaceChar(s, c, r) == s
  {
    if s != [] {
      NotReplaced(s[1..], c, r);
    }
  }

  lemma {:induction false} NormalOfChar(u: Tables, c: char)
    requires KeepsQuotes(u)
    ensures Normalize(u, [c]) == if c == '`' then "" else if c == '\U{2019}' then "'" else u.fold(c)
  {
    FoldOfChar(u, c);
    if c == '`' {
      assert "`"[1..] == "";
      assert ReplaceChar("`", '`', "") == "" + ReplaceChar("", '`', "");
    } else {
      NotReplaced(u.fold(c), '`', "");
      if c == '\U{2019}' {
        assert "\U{2019}"[1..] == "";
        assert ReplaceChar("\U{2019}", '\U{2019}', "'") == "'" + ReplaceChar("", '\U{2019}', "'");
      } else {
        NotReplaced(u.fold(c), '\U{2019}', "'");
      }
    }
  }

  lemma {:induction false} FoldOfChar(u: Tables, c: char)
    ensures Fold(u, [c]) == u.fold(c)
  {
    assert [c][1..] == [];
    assert Fold(u, [c]) == u.fold(c) + Fold(u, []);
  }

  /** The three passes of normalization are that one reading. */
  lemma {:induction false} NormalizeReads(u: Tables, s: string)
    requires KeepsQuotes(u)
    ensures Normalize(u, s) == Reading(u, s)
  {
    if s != [] {
      assert s == [s[0]] + s[1..];
      NormalizeAppend(u, [s[0]], s[1..]);
      NormalOfChar(u, s[0]);
      NormalizeReads(u, s[1..]);
    }
  }

  /** No normal form holds a back quote or a typographic apostrophe. */
  lemma {:induction false} NoQuotesLeft(u: Tables, s: string)
    requires KeepsQuotes(u)
    ensures '`' !in Normalize(u, s) && '\U{2019}' !in Normalize(u, s)
  {
    NormalizeReads(u, s);
    if s != [] {
      NoQuotesLeft(u, s[1..]);
      NormalizeReads(u, s[1..]);
    }
  }

  // ---------------------------------------------------------------- the search

  predicate Occurs(needle: string, hay: string, k: nat) {
    k + |needle| <= |hay| && hay[k..k + |needle|] == needle
  }

  /** `needle` stands at `k`, with no alphanumeric neighbour on either side. */
  predicate StandsAt(u: Tables, needle: string, hay: string, k: nat) {
    && Occurs(needle, hay, k)
    && (k > 0 ==> !u.alnum(hay[k - 1]))
    && (k + |needle| < |hay| ==> !u.alnum(hay[k + |needle|]))
  }

  method Find(hay: string, needle: string, from: nat) returns (at: int)
    ensures at == -1 || (from <= at && Occurs(needle, hay, at))
    ensures forall k: nat :: from <= k && (at == -1 || k < at) ==> !Occurs(needle, hay, k)
  {
    at := from;
    while at + |needle| <= |hay|
      invariant from <= at
      invariant forall k: nat :: from <= k < at ==> !Occurs(needle, hay, k)
    {
      if Occurs(needle, hay, at) {
        return;
      }
      at := at + 1;
    }
    at := -1;
  }

  /** `_citation_appears`. */
  method CitationAppears(u: Tables, needle: string, hay: string) returns (appears: bool)
    ensures appears <==> needle != [] && exists k: nat :: StandsAt(u, needle, hay, k)
  {
    if needle == [] {
      return false;
    }
    var offset: nat := 0;
    while true
      invariant forall k: nat :: k < offset ==> !StandsAt(u, needle, hay, k)
      decreases |hay| - offset
    {
      var found := Find(hay, needle, offset);
      if found == -1 {
        return false;
      }
      var afterIndex := found + |needle|;
      var before := found > 0 && u.alnum(hay[found - 1]);
      var after := afterIndex < |hay| && u.alnum(hay[afterIndex]);
      if !before && !after {
        assert StandsAt(u, needle, hay, found);
        return true;
      }
      offset := found + 1;
    }
  }

  /** `validate_citations`, on citations that are strings. */
  method ValidateCitations(u: Tables, citations: seq<string>, text: string) returns (errors: seq<string>)
    ensures errors == [] <==> forall c :: c in citations ==> Quotes(u, c, text)
    ensures forall c :: c in errors <==> c in citations && !Quotes(u, c, text)
    ensures KeepsQuotes(u) ==> forall c :: c in citations ==> (c in errors <==> !Said(u, c, text))
  {
    errors := [];
    var hay := Normalize(u, text);
    for i := 0 to |citations|
      invariant forall c :: c in errors <==> c in citations[..i] && !Quotes(u, c, text)
    {
      assert citations[..i + 1] == citations[..i] + [citations[i]];
      var appears := CitationAppears(u, Normalize(u, citations[i]), hay);
      if !appears {
        errors := errors + [citations[i]];
      }
    }
    assert citations[..|citations|] == citations;
    assert errors != [] ==> errors[0] in errors;
    if KeepsQuotes(u) {
      forall c | c in citations ensures Quotes(u, c, text) <==> Said(u, c, text) {
        QuotesIsSaid(u, c, text);
      }
    }
  }

  /** A citation that is accepted: its normal form stands somewhere in that of the text. */
  ghost predicate Quotes(u: Tables, citation: string, text: string) {
    Normalize(u, citation) != [] && exists k: nat :: StandsAt(u, Normalize(u, citation), Normalize(u, text), k)
  }

  /** `n` is what stands in `h` between the first `k` characters and the rest, cut off on
      both sides by the end or by a character that is not alphanumeric. */
  ghost predicate CutOff(u: Tables, n: string, h: string, k: nat) {
    && k <= |h| && n <= h[k..]
    && (k == 0 || !u.alnum(h[..k][k - 1]))
    && (h[k..] == n || !u.alnum(h[k..][|n|]))
  }

  /** The reading of the citation is such a part of that of the text. */
  ghost predicate Said(u: Tables, citation: string, text: string) {
    Reading(u, citation) != [] && exists k: nat :: CutOff(u, Reading(u, citation), Reading(u, text), k)
  }

  lemma {:induction false} StandsCutOff(u: Tables, n: string, h: string, k: nat)
    ensures StandsAt(u, n, h, k) <==> CutOff(u, n, h, k)
  {
    if k + |n| <= |h| {
      assert h[k..][..|n|] == h[k..k + |n|];
      assert h[k..] == n <==> k + |n| == |h| && h[k..k + |n|] == n;
    }
  }

  lemma {:induction false} QuotesIsSaid(u: Tables, citation: string, text: string)
    requires KeepsQuotes(u)
    ensures Quotes(u, citation, text) <==> Said(u, citation, text)
  {
    NormalizeReads(u, citation);
    NormalizeReads(u, text);
    var n, h := Reading(u, citation), Reading(u, text);
    forall k: nat ensures StandsAt(u, n, h, k) <==> CutOff(u, n, h, k) {
      StandsCutOff(u, n, h, k);
    }
  }

  // ---------------------------------------------------------------- what acceptance ignores

  /** The same text with straight apostrophes. */
  function Straight(s: string): string {
    if s == [] then [] else [if s[0] == '\U{2019}' then '\'' else s[0]] + Straight(s[1..])
  }

  /** The same text without its back quotes. */
  function Unticked(s: string): string {
    if s == [] then [] else (if s[0] == '`' then [] else [s[0]]) + Unticked(s[1..])
  }

  /** The same text up to case: letter for letter of the same fold. */
  ghost predicate SameLetters(u: Tables, s: string, t: string) {
    |s| == |t| && forall i :: 0 <= i < |s| ==> u.fold(s[i]) == u.fold(t[i])
  }

  lemma {:induction false} ReadingStraight(u: Tables, s: string)
    requires KeepsQuotes(u)
    ensures Reading(u, Straight(s)) == Reading(u, s)
  {
    if s != [] {
      ReadingStraight(u, s[1..]);
      assert Straight(s)[1..] == Straight(s[1..]);
    }
  }

  lemma {:induction false} ReadingUnticked(u: Tables, s: string)
    ensures Reading(u, Unticked(s)) == Reading(u, s)
  {
    if s != [] {
      ReadingUnticked(u, s[1..]);
      assert s[0] == '`' ==> Unticked(s) == Unticked(s[1..]);
      assert s[0] != '`' ==> Unticked(s)[0] == s[0] && Unticked(s)[1..] == Unticked(s[1..]);
    }
  }

  lemma {:induction false} ReadingLetters(u: Tables, s: string, t: string)
    requires KeepsQuotes(u) && SameLetters(u, s, t)
    ensures Reading(u, s) == Reading(u, t)
  {
    if s != [] {
      ReadingLetters(u, s[1..], t[1..]);
      SameFoldSameMark(u, s[0], t[0]);
    }
  }

  lemma {:induction false} SameFoldSameMark(u: Tables, c: char, d: char)
    requires KeepsQuotes(u) && u.fold(c) == u.fold(d)
    ensures (c == '`' <==> d == '`') && (c == '\U{2019}' <==> d == '\U{2019}')
  {
    assert "`"[0] == '`' && "\U{2019}"[0] == '\U{2019}';
  }

  lemma {:induction false} SameReading(u: Tables, c: string, d: string, text: string, other: string)
    requires KeepsQuotes(u) && Reading(u, c) == Reading(u, d) && Reading(u, text) == Reading(u, other)
    ensures Quotes(u, c, text) <==> Quotes(u, d, other)
  {
    QuotesIsSaid(u, c, text);
    QuotesIsSaid(u, d, other);
  }

  /** Whether a citation is accepted depends neither on the apostrophes, nor on back quotes,
      nor on case, in the citation or in the text. */
  lemma {:induction false} AcceptanceIgnores(u: Tables, c: string, text: string, d: string, other: string)
    requires KeepsQuotes(u)
    ensures Quotes(u, Straight(c), text) <==> Quotes(u, c, text)
    ensures Quotes(u, c, Straight(text)) <==> Quotes(u, c, text)
    ensures Quotes(u, Unticked(c), text) <==> Quotes(u, c, text)
    ensures Quotes(u, c, Unticked(text)) <==> Quotes(u, c, text)
    ensures SameLetters(u, c, d) && SameLetters(u, text, other) ==> (Quotes(u, d, other) <==> Quotes(u, c, text))
  {
    ReadingStraight(u, c);
    ReadingStraight(u, text);
    ReadingUnticked(u, c);
    ReadingUnticked(u, text);
    SameReading(u, Straight(c), c, text, text);
    SameReading(u, c, c, Straight(text), text);
    SameReading(u, Unticked(c), c, text, text);
    SameReading(u, c, c, Unticked(text), text);
    if SameLetters(u, c, d) && SameLetters(u, text, other) {
      ReadingLetters(u, c, d);
      ReadingLetters(u, text, other);
      SameReading(u, d, c, other, text);
    }
  }

  /** A text on which nothing is left to do. */
  ghost predicate Settled(u: Tables, s: string) {
    forall c :: c in s ==> c != '`' && c != '\U{2019}' && u.fold(c) == [c]
  }

  lemma {:induction false} SettledReading(u: Tables, s: string)
    requires Settled(u, s)
    ensures Reading(u, s) == s
  {
    if s != [] {
      assert s[0] in s && forall c :: c in s[1..] ==> c in s;
      SettledReading(u, s[1..]);
    }
  }

  /** Between two such texts acceptance is the plain bounded search. */
  lemma {:induction false} SettledSearch(u: Tables, c: string, text: string)
    requires KeepsQuotes(u) && Settled(u, c) && Settled(u, text)
    ensures Quotes(u, c, text) <==> c != "" && exists k: nat :: CutOff(u, c, text, k)
  {
    SettledReading(u, c);
    SettledReading(u, text);
    QuotesIsSaid(u, c, text);
  }

  // ---------------------------------------------------------------- what the judge is shown

  /** A finding as the judge sees it; an absent or non-string field is empty. */
  datatype Finding = Finding(message: string, description: string, file: string, category: string, severity: string)
  datatype Response = Response(findings: seq<Finding>, body: string)

  function Present(s: string): seq<string> {
    if s == "" then [] else [s]
  }

  function FieldParts(f: Finding): seq<string> {
    Present(f.message) + Present(f.description) + Present(f.file) + Present(f.category) + Present(f.severity)
  }

  function FindingParts(fs: seq<Finding>): seq<string> {
    if fs == [] then [] else FieldParts(fs[0]) + FindingParts(fs[1..])
  }

  function Join(parts: seq<string>): string {
    if parts == [] then ""
    else if |parts| == 1 then parts[0]
    else parts[0] + ("\n" + Join(parts[1..]))
  }

  /** `response_text_for_citation`. */
  function ResponseText(r: Response): string {
    Join(FindingParts(r.findings) + Present(r.body))
  }

  /** A text that ends in white space, or is empty. */
  predicate EndsSpaced(u: Tables, s: string) {
    s != [] ==> u.space(s[|s| - 1])
  }

  predicate StartsSpaced(u: Tables, s: string) {
    s != [] ==> u.space(s[0])
  }

  /** A part of a joined text is cut off by line feeds. */
  lemma {:induction false} PartOfJoin(u: Tables, parts: seq<string>, i: nat) returns (a: string, b: string)
    requires Sane(u) && i < |parts|
    ensures Join(parts) == a + parts[i] + b
    ensures EndsSpaced(u, a) && StartsSpaced(u, b)
  {
    if i == 0 {
      a, b := "", if |parts| == 1 then "" else "\n" + Join(parts[1..]);
    } else {
      a, b := PartOfJoin(u, parts[1..], i - 1);
      assert Join(parts) == parts[0] + "\n" + a + parts[i] + b;
      a := parts[0] + "\n" + a;
    }
  }

  /** The last character of a text that ends in white space keeps its place. */
  lemma {:induction false} NormalEnd(u: Tables, s: string)
    requires Sane(u) && EndsSpaced(u, s)
    ensures EndsSpaced(u, Normalize(u, s))
  {
    if s != [] {
      var c := s[|s| - 1];
      assert s == s[..|s| - 1] + [c];
      NormalizeAppend(u, s[..|s| - 1], [c]);
      NormalizeSpace(u, c);
    }
  }

  lemma {:induction false} NormalStart(u: Tables, s: string)
    requires Sane(u) && StartsSpaced(u, s)
    ensures StartsSpaced(u, Normalize(u, s))
  {
    if s != [] {
      assert s == [s[0]] + s[1..];
      NormalizeAppend(u, [s[0]], s[1..]);
      NormalizeSpace(u, s[0]);
    }
  }

  /** What white space cuts off on both sides is quotable. */
  lemma {:induction false} SpacedIsQuotable(u: Tables, a: string, core: string, b: string)
    requires Sane(u) && EndsSpaced(u, a) && StartsSpaced(u, b) && Normalize(u, core) != []
    ensures Quotes(u, core, a + core + b)
  {
    NormalizeAppend(u, a + core, b);
    NormalizeAppend(u, a, core);
    NormalEnd(u, a);
    NormalStart(u, b);
    var x, n, y := Normalize(u, a), Normalize(u, core), Normalize(u, b);
    assert (x + n + y)[|x|..|x| + |n|] == n;
    assert StandsAt(u, n, Normalize(u, a + core + b), |x|);
  }

  /** Every value the judge was shown can be cited, stripped as its citation is. */
  lemma {:induction false} VisibleIsQuotable(u: Tables, r: Response, value: string)
    requires Sane(u) && value in FindingParts(r.findings) + Present(r.body)
    requires Normalize(u, Strip(value, u.space)) != []
    ensures Quotes(u, Strip(value, u.space), ResponseText(r))
  {
    var parts := FindingParts(r.findings) + Present(r.body);
    var i :| 0 <= i < |parts| && parts[i] == value;
    var a, b := PartOfJoin(u, parts, i);
    var x, y := StripLeaves(value, u.space);
    assert EndsSpaced(u, x) && StartsSpaced(u, y);
    SpacedEnds(u, a, x);
    SpacedStarts(u, y, b);
    SpacedIsQuotable(u, a + x, Strip(value, u.space), y + b);
    Regroup(a, x, Strip(value, u.space), y, b);
  }

  lemma {:induction false} Regroup(a: string, x: string, core: string, y: string, b: string)
    ensures a + (x + core + y) + b == (a + x) + core + (y + b)
  {
  }

  lemma {:induction false} SpacedEnds(u: Tables, a: string, x: string)
    requires EndsSpaced(u, a) && EndsSpaced(u, x)
    ensures EndsSpaced(u, a + x)
  {
  }

  lemma {:induction false} SpacedStarts(u: Tables, y: string, b: string)
    requires StartsSpaced(u, y) && StartsSpaced(u, b)
    ensures StartsSpaced(u, y + b)
  {
  }

  /** The values shown are the fields of the findings that are not empty, and nothing else. */
  lemma {:induction false} FieldsAreShown(fs: seq<Finding>, value: string)
    ensures value in FindingParts(fs) <==>
            value != "" && exists f :: f in fs && value in {f.message, f.description, f.file, f.category, f.severity}
  {
    if fs != [] {
      FieldsAreShown(fs[1..], value);
      assert fs == [fs[0]] + fs[1..];
      assert value in FieldParts(fs[0]) <==>
             value != "" && value in {fs[0].message, fs[0].description, fs[0].file, fs[0].category, fs[0].severity};
    }
  }

  lemma {:induction false} JoinAppend(a: seq<string>, b: seq<string>)
    requires a != [] && b != []
    ensures Join(a + b) == Join(a) + "\n" + Join(b)
  {
    if |a| == 1 {
      assert (a + b)[1..] == b;
    } else {
      assert (a + b)[1..] == a[1..] + b;
      JoinAppend(a[1..], b);
    }
  }

  /** What the judge is shown of a finding and of the body, line after line. */
  lemma {:induction false} ShownInOrder(f: Finding, more: seq<Finding>, body: string)
    requires "" !in {f.message, f.description, f.file, f.category, f.severity} && body != ""
    ensures ResponseText(Response([f], "")) ==
            f.message + "\n" + f.description + "\n" + f.file + "\n" + f.category + "\n" + f.severity
    ensures ResponseText(Response([f] + more, body)) ==
            ResponseText(Response([f], "")) + "\n" + ResponseText(Response(more, body))
    ensures ResponseText(Response([], body)) == body
  {
    var own := [f.message, f.description, f.file, f.category, f.severity];
    assert FieldParts(f) == own;
    assert [f][1..] == [] && FindingParts([f]) == own + FindingParts([]);
    assert FindingParts([f]) + Present("") == own;
    FiveLines(f.message, f.description, f.file, f.category, f.severity);
    assert ([f] + more)[1..] == more;
    assert FindingParts([f] + more) + Present(body) == own + (FindingParts(more) + Present(body));
    JoinAppend(own, FindingParts(more) + Present(body));
  }

  lemma {:induction false} FiveLines(a: string, b: string, c: string, d: string, e: string)
    ensures Join([a, b, c, d, e]) == a + "\n" + b + "\n" + c + "\n" + d + "\n" + e
  {
    JoinAppend([a, b, c, d], [e]);
    JoinAppend([a, b, c], [d]);
    JoinAppend([a, b], [c]);
    JoinAppend([a], [b]);
    assert [a, b, c, d, e] == [a, b, c, d] + [e] && [a, b, c, d] == [a, b, c] + [d];
    assert [a, b, c] == [a, b] + [c] && [a, b] == [a] + [b];
  }
}
