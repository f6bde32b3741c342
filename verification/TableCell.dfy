/** The published table-cell escape (`src/gates/ci-wait.ts`, `escapeTableCell`) against its
    decoder (`scripts/confidence_dogfood_evidence.py`, `unescape_table_cell`). */
module TableCell {

  /** `str.replace(pattern, replacement)`: leftmost matches, never re-scanned. */
  function Replace(s: string, pattern: string, replacement: string): string
    requires pattern != []
    decreases |s|
  {
    if |s| < |pattern| then s
    else if s[..|pattern|] == pattern then replacement + Replace(s[|pattern|..], pattern, replacement)
    else [s[0]] + Replace(s[1..], pattern, replacement)
  }

  // ---------------------------------------------------------------- the encoder

  predicate BreaksCell(c: char) {
    c <= '\U{1F}' || '\U{7F}' <= c <= '\U{9F}' || c == '\U{2028}' || c == '\U{2029}'
  }

  /** Runs of control characters and line separators become one space. */
  function Collapse(s: string): string {
    CollapseFrom(s, false)
  }

  function CollapseFrom(s: string, inRun: bool): string {
    if s == [] then []
    else if BreaksCell(s[0]) then (if inRun then [] else " ") + CollapseFrom(s[1..], true)
    else [s[0]] + CollapseFrom(s[1..], false)
  }

  /** The six whole-string replacements, in the documented order. */
  function Escape(s: string): string {
    var a := Replace(s, "\\", "\\\\");
    var b := Replace(a, "|", "\\|");
    var c := Replace(b, "`", "\\`");
    var d := Replace(c, "&", "&amp;");
    var e := Replace(d, "<", "&lt;");
    Replace(e, ">", "&gt;")
  }

  function EscapeTableCell(s: string): string {
    Escape(Collapse(s))
  }

  // ---------------------------------------------------------------- the decoder

  /** One pass over the entities: a decoded character is never read again. */
  function DecodeEntities(s: string): string
    decreases |s|
  {
    if s == [] then []
    else if |s| >= 5 && s[..5] == "&amp;" then "&" + DecodeEntities(s[5..])
    else if |s| >= 4 && s[..4] == "&lt;" then "<" + DecodeEntities(s[4..])
    else if |s| >= 4 && s[..4] == "&gt;" then ">" + DecodeEntities(s[4..])
    else [s[0]] + DecodeEntities(s[1..])
  }

  /** `unescape_table_cell`. */
  function UnescapeTableCell(text: string): string {
    DecodeEntities(Replace(Replace(Replace(text, "\\`", "`"), "\\|", "|"), "\\\\", "\\"))
  }

  // ---------------------------------------------------------------- character codes

  /** Replacing one character rewrites each of its occurrences and nothing else. */
  lemma {:induction false} ReplaceChar(a: string, b: string, c: char, r: string)
    ensures Replace(a + b, [c], r) == Replace(a, [c], r) + Replace(b, [c], r)
  {
    if a == [] {
      assert a + b == b;
    } else {
      assert (a + b)[1..] == a[1..] + b && (a + b)[..1] == [a[0]] && a[..1] == [a[0]];
      ReplaceChar(a[1..], b, c, r);
    }
  }

  /** How one character reads after the first `n` replacements of the encoder. */
  function Stage(c: char, n: nat): string {
    if c == '\\' then (if n >= 1 then "\\\\" else [c])
    else if c == '|' then (if n >= 2 then "\\|" else [c])
    else if c == '`' then (if n >= 3 then "\\`" else [c])
    else if c == '&' then (if n >= 4 then "&amp;" else [c])
    else if c == '<' then (if n >= 5 then "&lt;" else [c])
    else if c == '>' then (if n >= 6 then "&gt;" else [c])
    else [c]
  }

  function Staged(s: string, n: nat): string {
    if s == [] then [] else Stage(s[0], n) + Staged(s[1..], n)
  }

  function Pattern(n: nat): char
    requires n < 6
  {
    ['\\', '|', '`', '&', '<', '>'][n]
  }

  function Replacement(n: nat): string
    requires n < 6
  {
    ["\\\\", "\\|", "\\`", "&amp;", "&lt;", "&gt;"][n]
  }

  /** A later replacement never touches what an earlier one wrote. */
  lemma {:induction false} OneStage(s: string, n: nat)
    requires n < 6
    ensures Replace(Staged(s, n), [Pattern(n)], Replacement(n)) == Staged(s, n + 1)
  {
    if s != [] {
      OneStage(s[1..], n);
      ReplaceChar(Stage(s[0], n), Staged(s[1..], n), Pattern(n), Replacement(n));
      StageOfChar(s[0], n);
    }
  }

  lemma {:induction false} ReplaceNothing(s: string, c: char, r: string)
    requires c !in s
    ensures Replace(s, [c], r) == s
  {
    if s != [] {
      assert s[..1] == [s[0]] && s[0] in s;
      ReplaceNothing(s[1..], c, r);
    }
  }

  lemma {:induction false} StageOfChar(c: char, n: nat)
    requires n < 6
    ensures Replace(Stage(c, n), [Pattern(n)], Replacement(n)) == Stage(c, n + 1)
  {
    if c == Pattern(n) {
      assert Stage(c, n) == [c] && [c][..1] == [c] && [c][1..] == [];
      assert Replace([], [c], Replacement(n)) == [];
    } else {
      ReplaceNothing(Stage(c, n), Pattern(n), Replacement(n));
    }
  }

  lemma {:induction false} NoStage(s: string)
    ensures Staged(s, 0) == s
  {
    if s != [] {
      NoStage(s[1..]);
    }
  }

  lemma {:induction false} EscapeIsCharByChar(s: string)
    ensures Escape(s) == Staged(s, 6)
  {
    NoStage(s);
    OneStage(s, 0);
    OneStage(s, 1);
    OneStage(s, 2);
    OneStage(s, 3);
    OneStage(s, 4);
    OneStage(s, 5);
  }

  /** How one character reads after `n` of the three backslash decodes. */
  function Undone(c: char, n: nat): string {
    if c == '`' && n >= 1 then "`"
    else if c == '|' && n >= 2 then "|"
    else if c == '\\' && n >= 3 then "\\"
    else Stage(c, 6)
  }

  function Undo(s: string, n: nat): string {
    if s == [] then [] else Undone(s[0], n) + Undo(s[1..], n)
  }

  lemma {:induction false} UndoNothing(s: string)
    ensures Undo(s, 0) == Staged(s, 6)
  {
    if s != [] {
      UndoNothing(s[1..]);
    }
  }

  function Doubled(n: nat): char
    requires n < 3
  {
    ['`', '|', '\\'][n]
  }

  /** Each backslash decode finds exactly the pairs its encoder wrote: a pair is never made
      of the end of one code and the start of the next. */
  lemma {:induction false} OneDecode(s: string, n: nat)
    requires n < 3
    ensures Replace(Undo(s, n), ['\\', Doubled(n)], [Doubled(n)]) == Undo(s, n + 1)
  {
    if s != [] {
      OneDecode(s[1..], n);
      FirstIsNot(s[1..], n);
      DecodeHead(Undone(s[0], n), Undo(s[1..], n), s[0], n);
    }
  }

  /** What follows a code does not start with the character a decode of stage `n` looks
      for, unless it is a doubled backslash. */
  lemma {:induction false} FirstIsNot(s: string, n: nat)
    requires n < 3
    ensures Undo(s, n) != [] && n < 2 ==> Undo(s, n)[0] != Doubled(n)
  {
  }

  lemma {:induction false} DecodeHead(code: string, rest: string, c: char, n: nat)
    requires n < 3 && code == Undone(c, n)
    requires rest != [] && n < 2 ==> rest[0] != Doubled(n)
    ensures Replace(code + rest, ['\\', Doubled(n)], [Doubled(n)])
         == Undone(c, n + 1) + Replace(rest, ['\\', Doubled(n)], [Doubled(n)])
  {
    var pattern, text := ['\\', Doubled(n)], code + rest;
    if c == Doubled(n) {
      assert text[..2] == pattern && text[2..] == rest;
    } else {
      forall i | 0 <= i < |code| && i + 1 < |text| ensures text[i] != '\\' || text[i + 1] != Doubled(n) {
        assert text[i] == code[i];
        if i + 1 < |code| {
          assert text[i + 1] == code[i + 1];
        } else {
          assert text[i + 1] == rest[0];
        }
      }
      SkipCode(code, rest, pattern, [Doubled(n)]);
    }
  }

  /** A code without a match inside or across its end is copied. */
  lemma {:induction false} SkipCode(code: string, rest: string, pattern: string, r: string)
    requires |pattern| == 2
    requires forall i :: 0 <= i < |code| && i + 1 < |code + rest| ==>
               (code + rest)[i] != pattern[0] || (code + rest)[i + 1] != pattern[1]
    ensures Replace(code + rest, pattern, r) == code + Replace(rest, pattern, r)
  {
    if code == [] {
      assert code + rest == rest;
    } else {
      var text, shorter := code + rest, code[1..] + rest;
      assert text[1..] == shorter;
      forall i | 0 <= i < |code[1..]| && i + 1 < |shorter| ensures shorter[i] != pattern[0] || shorter[i + 1] != pattern[1] {
        assert shorter[i] == text[i + 1] && shorter[i + 1] == text[i + 2];
      }
      SkipCode(code[1..], rest, pattern, r);
      NoMatchHere(text, pattern, r);
      assert code == [code[0]] + code[1..];
    }
  }

  lemma {:induction false} NoMatchHere(text: string, pattern: string, r: string)
    requires |pattern| == 2 && text != []
    requires |text| >= 2 ==> text[0] != pattern[0] || text[1] != pattern[1]
    ensures Replace(text, pattern, r) == [text[0]] + Replace(text[1..], pattern, r)
  {
    if |text| >= 2 {
      assert text[..2][0] == text[0] && text[..2][1] == text[1];
    } else {
      assert text == [text[0]] && text[1..] == [];
    }
  }

  /** One entity, or any other character, is decoded and the rest is left to the rest. */
  lemma {:induction false} EntityHead(c: char, rest: string)
    ensures DecodeEntities(Undone(c, 3) + rest) == [c] + DecodeEntities(rest)
  {
    var text := Undone(c, 3) + rest;
    if c == '&' {
      assert text[..5] == "&amp;" && text[5..] == rest;
    } else if c == '<' {
      assert text[..4] == "&lt;" && text[4..] == rest && text[1] != 'a';
    } else if c == '>' {
      assert text[..4] == "&gt;" && text[4..] == rest && text[1] != 'a';
    } else {
      assert text[0] == c && text[1..] == rest;
    }
  }

  /** The single entity pass inverts the three entity replacements. */
  lemma {:induction false} EntitiesDecode(s: string)
    ensures DecodeEntities(Undo(s, 3)) == s
  {
    if s != [] {
      EntitiesDecode(s[1..]);
      EntityHead(s[0], Undo(s[1..], 3));
      assert s == [s[0]] + s[1..];
    }
  }

  /** The decoder inverts the six sequential encodes, for every string. */
  lemma {:induction false} UnescapeInvertsEscape(s: string)
    ensures UnescapeTableCell(Escape(s)) == s
  {
    EscapeIsCharByChar(s);
    UndoNothing(s);
    OneDecode(s, 0);
    OneDecode(s, 1);
    OneDecode(s, 2);
    EntitiesDecode(s);
  }

  lemma {:induction false} CollapseClean(s: string, inRun: bool)
    ensures forall c :: c in CollapseFrom(s, inRun) ==> !BreaksCell(c)
    ensures (forall c :: c in s ==> !BreaksCell(c)) ==> CollapseFrom(s, inRun) == s
  {
    if s != [] {
      CollapseClean(s[1..], BreaksCell(s[0]));
      assert s == [s[0]] + s[1..];
    }
  }

  /** The published value is recovered up to the collapsed control runs, and so exactly
      when it had none. */
  lemma {:induction false} PublishedValueRecovered(s: string)
    ensures UnescapeTableCell(EscapeTableCell(s)) == Collapse(s)
    ensures UnescapeTableCell(EscapeTableCell(s)) == s <==> forall c :: c in s ==> !BreaksCell(c)
  {
    UnescapeInvertsEscape(Collapse(s));
    CollapseClean(s, false);
  }

  // ---------------------------------------------------------------- the row stays one row

  /** How many backslashes stand right before position `i`. */
  function Slashes(s: string, i: nat): nat
    requires i <= |s|
  {
    if i == 0 || s[i - 1] != '\\' then 0 else Slashes(s, i - 1) + 1
  }

  lemma {:induction false} SlashesPrefix(s: string, t: string, i: nat)
    requires i <= |s|
    ensures Slashes(s + t, i) == Slashes(s, i)
  {
    if i > 0 && s[i - 1] == '\\' {
      SlashesPrefix(s, t, i - 1);
    }
  }

  lemma {:induction false} StagedAppend(s: string, t: string)
    ensures Staged(s + t, 6) == Staged(s, 6) + Staged(t, 6)
  {
    if s == [] {
      assert s + t == t;
    } else {
      assert (s + t)[1..] == s[1..] + t;
      StagedAppend(s[1..], t);
    }
  }

  /** Every pipe and backtick of the escaped text stands behind an odd number of
      backslashes, so none of them can end the cell. */
  lemma {:induction false} SeparatorsAreEscaped(s: string)
    ensures Guarded(Staged(s, 6))
  {
    if s != [] {
      var front, c := s[..|s| - 1], s[|s| - 1];
      assert s == front + [c] && Staged([c], 6) == Stage(c, 6);
      SeparatorsAreEscaped(front);
      StagedAppend(front, [c]);
      OneMoreCode(Staged(front, 6), c);
    }
  }

  /** Every pipe and backtick stands behind an odd number of backslashes, and a code that
      follows starts a pair of its own. */
  ghost predicate Guarded(y: string) {
    Slashes(y, |y|) % 2 == 0 && SeparatorsGuarded(y)
  }

  lemma {:induction false} OneMoreCode(a: string, c: char)
    requires Guarded(a)
    ensures Guarded(a + Stage(c, 6))
  {
    if c == '|' || c == '`' || c == '\\' {
      EscapedPair(a, c);
    } else {
      PlainCode(a, Stage(c, 6));
    }
  }

  /** One more character: harmless, or right behind an odd number of backslashes. */
  lemma {:induction false} SlashesStep(a: string, c: char)
    ensures Slashes(a + [c], |a|) == Slashes(a, |a|)
    ensures Slashes(a + [c], |a| + 1) == if c == '\\' then Slashes(a, |a|) + 1 else 0
  {
    SlashesPrefix(a, [c], |a|);
  }

  ghost predicate SeparatorsGuarded(y: string) {
    forall i :: 0 <= i < |y| && (y[i] == '|' || y[i] == '`') ==> Slashes(y, i) % 2 == 1
  }

  lemma {:induction false} GuardedStep(a: string, c: char)
    requires SeparatorsGuarded(a)
    requires c == '|' || c == '`' ==> Slashes(a, |a|) % 2 == 1
    ensures SeparatorsGuarded(a + [c])
  {
    var y := a + [c];
    forall i | 0 <= i < |y| && (y[i] == '|' || y[i] == '`') ensures Slashes(y, i) % 2 == 1 {
      SlashesPrefix(a, [c], i);
    }
  }

  lemma {:induction false} EscapedPair(a: string, c: char)
    requires Guarded(a)
    ensures Guarded(a + ['\\', c])
  {
    var mid := a + ['\\'];
    SlashesStep(a, '\\');
    SlashesStep(mid, c);
    GuardedStep(a, '\\');
    GuardedStep(mid, c);
    assert a + ['\\', c] == mid + [c];
  }

  lemma {:induction false} PlainCode(a: string, b: string)
    requires Guarded(a)
    requires forall c :: c in b ==> c != '|' && c != '`' && c != '\\'
    ensures Guarded(a + b)
    decreases |b|
  {
    if b == [] {
      assert a + b == a;
    } else {
      assert b[0] in b && forall c :: c in b[1..] ==> c in b;
      SlashesStep(a, b[0]);
      GuardedStep(a, b[0]);
      PlainCode(a + [b[0]], b[1..]);
      assert a + [b[0]] + b[1..] == a + b;
    }
  }

  lemma {:induction false} CellStaysOneCell(s: string)
    ensures var y := EscapeTableCell(s);
            && (forall i :: 0 <= i < |y| && (y[i] == '|' || y[i] == '`') ==> Slashes(y, i) % 2 == 1)
            && (forall c :: c in y ==> !BreaksCell(c) && c != '<' && c != '>')
  {
    EscapeIsCharByChar(Collapse(s));
    SeparatorsAreEscaped(Collapse(s));
    CollapseClean(s, false);
    HarmlessChars(Collapse(s));
  }

  lemma {:induction false} HarmlessChars(s: string)
    requires forall c :: c in s ==> !BreaksCell(c)
    ensures forall c :: c in Staged(s, 6) ==> !BreaksCell(c) && c != '<' && c != '>'
  {
    if s != [] {
      assert s[0] in s && forall c :: c in s[1..] ==> c in s;
      HarmlessChars(s[1..]);
      forall c | c in Stage(s[0], 6) ensures !BreaksCell(c) && c != '<' && c != '>' {
      }
    }
  }

  // ---------------------------------------------------------------- character by character

  /** The six replacements together write one code for each character. */
  lemma {:induction false} EscapeEach(s: string, t: string, c: char)
    ensures Escape("") == "" && Escape(s + t) == Escape(s) + Escape(t)
    ensures Escape([c]) ==
            if c == '\\' then "\\\\"
            else if c == '|' then "\\|"
            else if c == '`' then "\\`"
            else if c == '&' then "&amp;"
            else if c == '<' then "&lt;"
            else if c == '>' then "&gt;"
            else [c]
  {
    EscapeIsCharByChar("");
    EscapeIsCharByChar(s);
    EscapeIsCharByChar(t);
    EscapeIsCharByChar(s + t);
    StagedAppend(s, t);
    EscapeIsCharByChar([c]);
    assert [c][1..] == [];
    assert Staged([c], 6) == Stage(c, 6) + Staged([], 6);
  }

  lemma {:induction false} CollapseAppend(a: string, b: string, inRun: bool)
    ensures CollapseFrom(a + b, inRun) ==
            CollapseFrom(a, inRun) + CollapseFrom(b, if a == "" then inRun else BreaksCell(a[|a| - 1]))
  {
    if a == "" {
      assert a + b == b;
    } else {
      assert (a + b)[1..] == a[1..] + b;
      var head := if !BreaksCell(a[0]) then [a[0]] else if inRun then [] else " ";
      assert |a| > 1 ==> a[1..][|a| - 2] == a[|a| - 1];
      CollapseAppend(a[1..], b, BreaksCell(a[0]));
      assert CollapseFrom(a + b, inRun) == head + CollapseFrom(a[1..] + b, BreaksCell(a[0]));
    }
  }

  lemma {:induction false} RunGoes(run: string)
    requires forall c :: c in run ==> BreaksCell(c)
    ensures CollapseFrom(run, true) == ""
  {
    if run != "" {
      assert run[0] in run && forall c :: c in run[1..] ==> c in run;
      RunGoes(run[1..]);
    }
  }

  /** A run of control characters, line and paragraph separators between other characters
      becomes one space, and a text without any stays as it is. */
  lemma {:induction false} RunsBecomeSpaces(before: string, run: string, after: string)
    requires run != "" && forall c :: c in run ==>
               c <= '\U{1F}' || '\U{7F}' <= c <= '\U{9F}' || c == '\U{2028}' || c == '\U{2029}'
    requires forall c :: c in before ==>
               !(c <= '\U{1F}' || '\U{7F}' <= c <= '\U{9F}' || c == '\U{2028}' || c == '\U{2029}')
    requires after != "" ==>
               !(after[0] <= '\U{1F}' || '\U{7F}' <= after[0] <= '\U{9F}' || after[0] == '\U{2028}' || after[0] == '\U{2029}')
    ensures Collapse(before) == before
    ensures Collapse(before + (run + after)) == before + " " + Collapse(after)
  {
    CollapseClean(before, false);
    CollapseAppend(before, run + after, false);
    assert before != "" ==> before[|before| - 1] in before;
    CollapseAppend(run, after, false);
    assert run[0] in run && run[|run| - 1] in run && forall c :: c in run[1..] ==> c in run;
    RunGoes(run[1..]);
    assert CollapseFrom(run, false) == " ";
    FirstInRun(after);
  }

  /** Behind a run, what does not start with a control character reads as at the start. */
  lemma {:induction false} FirstInRun(after: string)
    requires after != "" ==> !BreaksCell(after[0])
    ensures CollapseFrom(after, true) == Collapse(after)
  {
  }
}
