/** The path matcher of `scripts/eval_harness.py` (`_normalize_path_for_match`,
    `_finding_file_matches_anchor`) against lists of path segments. */
module PathMatch {
  import opened Texts

  // ---------------------------------------------------------------- segments

  /** `s.split("/")`. */
  function Split(s: string): (r: seq<string>)
    ensures r != [] && forall p :: p in r ==> '/' !in p
  {
    if s == "" then [""]
    else
      var rest := Split(s[1..]);
      if s[0] == '/' then [""] + rest else [[s[0]] + rest[0]] + rest[1..]
  }

  /** `"/".join(parts)`. */
  function Join(parts: seq<string>): string {
    if parts == [] then ""
    else if |parts| == 1 then parts[0]
    else parts[0] + "/" + Join(parts[1..])
  }

  lemma {:induction false} SplitSlash(x: string, y: string)
    ensures Split(x + "/" + y) == Split(x) + Split(y)
  {
    var s := x + "/" + y;
    if x == "" {
      assert s[1..] == y;
    } else {
      assert s[0] == x[0] && s[1..] == x[1..] + "/" + y;
      SplitSlash(x[1..], y);
      Prepend(Split(x[1..]), Split(y), x[0]);
    }
  }

  lemma {:induction false} Prepend(a: seq<string>, b: seq<string>, c: char)
    requires a != []
    ensures [[c] + (a + b)[0]] + (a + b)[1..] == ([[c] + a[0]] + a[1..]) + b
    ensures [""] + (a + b) == ([""] + a) + b
  {
  }

  lemma {:induction false} JoinSplit(s: string)
    ensures Join(Split(s)) == s
  {
    if s != "" {
      JoinSplit(s[1..]);
      var rest := Split(s[1..]);
      if s[0] == '/' {
        assert ([""] + rest)[1..] == rest;
      } else if |rest| > 1 {
        assert ([[s[0]] + rest[0]] + rest[1..])[1..] == rest[1..];
      }
    }
  }

  lemma {:induction false} JoinAppend(p: seq<string>, q: seq<string>)
    requires p != [] && q != []
    ensures Join(p + q) == Join(p) + "/" + Join(q)
  {
    if |p| == 1 {
      assert (p + q)[1..] == q;
    } else {
      assert (p + q)[1..] == p[1..] + q;
      JoinAppend(p[1..], q);
    }
  }

  /** Different texts have different segments. */
  lemma {:induction false} SplitInjective(s: string, t: string)
    requires Split(s) == Split(t)
    ensures s == t
  {
    JoinSplit(s);
    JoinSplit(t);
  }

  predicate IsSuffix<T(==)>(a: seq<T>, b: seq<T>) {
    |a| <= |b| && b[|b| - |a|..] == a
  }

  predicate StandsAt<T(==)>(a: seq<T>, b: seq<T>, i: nat) {
    i + |a| <= |b| && b[i..i + |a|] == a
  }

  /** `b` has `a` in it, with at least one more element after it. */
  ghost predicate HasInside<T>(a: seq<T>, b: seq<T>) {
    exists i: nat :: StandsAt(a, b, i) && i + |a| < |b|
  }

  predicate IsProperPrefix<T(==)>(a: seq<T>, b: seq<T>) {
    |a| < |b| && b[..|a|] == a
  }

  // ---------------------------------------------------------------- text and segments

  predicate EndsWith(s: string, t: string) {
    |t| <= |s| && s[|s| - |t|..] == t
  }

  predicate StartsWith(s: string, t: string) {
    t <= s
  }

  /** `needle in hay`. */
  ghost predicate Contains(hay: string, needle: string) {
    exists k: nat :: StandsAt(needle, hay, k)
  }

  lemma {:induction false} SuffixOfText(t: string, s: string)
    requires EndsWith(t, "/" + s)
    ensures IsSuffix(Split(s), Split(t))
  {
    var x := t[..|t| - |s| - 1];
    assert t == x + "/" + s;
    SplitSlash(x, s);
  }

  lemma {:induction false} SuffixOfSegments(t: string, s: string, p: seq<string>)
    requires p != [] && Split(t) == p + Split(s)
    ensures EndsWith(t, "/" + s)
  {
    JoinSplit(t);
    JoinSplit(s);
    JoinAppend(p, Split(s));
    EndsAfter(t, Join(p), s);
  }

  lemma {:induction false} EndsAfter(t: string, x: string, s: string)
    requires t == x + "/" + s
    ensures EndsWith(t, "/" + s)
  {
    assert t == x + ("/" + s);
  }

  /** Equality, or a suffix after a slash, is a suffix of the segments. */
  lemma {:induction false} SuffixIsSegments(t: string, s: string)
    ensures t == s || EndsWith(t, "/" + s) <==> IsSuffix(Split(s), Split(t))
  {
    if EndsWith(t, "/" + s) {
      SuffixOfText(t, s);
    }
    if IsSuffix(Split(s), Split(t)) {
      var p := Split(t)[..|Split(t)| - |Split(s)|];
      assert Split(t) == p + Split(s);
      if p == [] {
        SplitInjective(s, t);
      } else {
        SuffixOfSegments(t, s, p);
      }
    }
  }

  /** A prefix up to a slash is a proper prefix of the segments. */
  lemma {:induction false} PrefixIsSegments(f: string, s: string)
    ensures StartsWith(f, s + "/") <==> IsProperPrefix(Split(s), Split(f))
  {
    if StartsWith(f, s + "/") {
      var y := f[|s| + 1..];
      assert f == s + "/" + y;
      SplitSlash(s, y);
    }
    if IsProperPrefix(Split(s), Split(f)) {
      var q := Split(f)[|Split(s)|..];
      assert Split(f) == Split(s) + q;
      JoinAppend(Split(s), q);
      JoinSplit(f);
      JoinSplit(s);
      assert f == (s + "/") + Join(q);
    }
  }

  /** A directory somewhere inside, between slashes, is a run of segments with something
      after it. */
  lemma {:induction false} InsideIsSegments(f: string, d: string)
    ensures Contains("/" + f, "/" + d + "/") <==> HasInside(Split(d), Split(f))
  {
    var hay, needle := "/" + f, "/" + d + "/";
    if Contains(hay, needle) {
      var k: nat :| StandsAt(needle, hay, k);
      InsideFound(f, d, k);
    }
    if HasInside(Split(d), Split(f)) {
      var i: nat :| StandsAt(Split(d), Split(f), i) && i + |Split(d)| < |Split(f)|;
      SegmentsFound(f, d, i);
    }
  }

  /** Cutting a text at an occurrence. */
  lemma {:induction false} CutAt(needle: string, hay: string, k: nat) returns (x: string, y: string)
    requires StandsAt(needle, hay, k)
    ensures hay == x + needle + y && |x| == k
  {
    x, y := hay[..k], hay[k + |needle|..];
  }

  lemma {:induction false} InsideFound(f: string, d: string, k: nat)
    requires StandsAt("/" + d + "/", "/" + f, k)
    ensures HasInside(Split(d), Split(f))
  {
    var x, y := CutAt("/" + d + "/", "/" + f, k);
    if k == 0 {
      Unslash(f, d + "/" + y);
      SplitSlash(d, y);
      assert StandsAt(Split(d), Split(f), 0);
    } else {
      assert ("/" + f)[0] == x[0];
      Unslash(f, x[1..] + "/" + (d + "/" + y));
      TwoSlashes(x[1..], d, y);
    }
  }

  lemma {:induction false} Unslash(f: string, g: string)
    requires "/" + f == "/" + g
    ensures f == g
  {
    assert f == ("/" + f)[1..] && g == ("/" + g)[1..];
  }

  lemma {:induction false} TwoSlashes(x: string, d: string, y: string)
    ensures HasInside(Split(d), Split(x + "/" + (d + "/" + y)))
  {
    SplitSlash(x, d + "/" + y);
    SplitSlash(d, y);
    assert StandsAt(Split(d), Split(x) + (Split(d) + Split(y)), |Split(x)|);
  }

  lemma {:induction false} SegmentsFound(f: string, d: string, i: nat)
    requires StandsAt(Split(d), Split(f), i) && i + |Split(d)| < |Split(f)|
    ensures Contains("/" + f, "/" + d + "/")
  {
    var p, q := Split(f)[..i], Split(f)[i + |Split(d)|..];
    assert Split(f) == p + (Split(d) + q);
    JoinSplit(f);
    JoinSplit(d);
    JoinAppend(Split(d), q);
    if i == 0 {
      assert p + (Split(d) + q) == Split(d) + q;
      FromStart(f, d, Join(q));
    } else {
      JoinAppend(p, Split(d) + q);
      FromInside(f, Join(p), d, Join(q));
    }
  }

  lemma {:induction false} FromStart(f: string, d: string, y: string)
    requires f == d + "/" + y
    ensures Contains("/" + f, "/" + d + "/")
  {
    TextInside("", d, y);
    assert "/" + f == "" + ("/" + d + "/") + y;
  }

  lemma {:induction false} FromInside(f: string, x: string, d: string, y: string)
    requires f == x + "/" + (d + "/" + y)
    ensures Contains("/" + f, "/" + d + "/")
  {
    TextInside("/" + x, d, y);
    assert "/" + f == ("/" + x) + ("/" + d + "/") + y;
  }

  lemma {:induction false} TextInside(x: string, d: string, y: string)
    ensures Contains(x + ("/" + d + "/") + y, "/" + d + "/")
  {
    assert StandsAt("/" + d + "/", x + ("/" + d + "/") + y, |x|);
  }

  // ---------------------------------------------------------------- the matcher

  /** `_finding_file_matches_anchor` on normalized paths. */
  ghost predicate Matches(f: string, a: string) {
    if f == "" || a == "" then false
    else if EndsWith(a, "/") then
      var dir := DropTrailing(a);
      if dir == "" then false
      else if f == dir || Contains("/" + f, "/" + dir + "/") then true
      else exists i :: 0 <= i < |Split(dir)| && StartsWith(f, Join(Split(dir)[i..]) + "/")
    else f == a || EndsWith(f, "/" + a) || EndsWith(a, "/" + f)
  }

  /** For a file anchor the matcher is the symmetric relation "one path is a suffix of the
      other", segment by segment. */
  lemma {:induction false} FileAnchorMatches(f: string, a: string)
    requires f != "" && a != "" && !EndsWith(a, "/")
    ensures Matches(f, a) <==> IsSuffix(Split(a), Split(f)) || IsSuffix(Split(f), Split(a))
  {
    SuffixIsSegments(f, a);
    SuffixIsSegments(a, f);
  }

  lemma {:induction false} FileAnchorsAreSymmetric(f: string, a: string)
    requires !EndsWith(a, "/") && !EndsWith(f, "/")
    ensures Matches(f, a) <==> Matches(a, f)
  {
    if f != "" && a != "" {
      FileAnchorMatches(f, a);
      FileAnchorMatches(a, f);
    }
  }

  lemma {:induction false} SplitJoin(parts: seq<string>)
    requires parts != [] && forall p :: p in parts ==> '/' !in p
    ensures Split(Join(parts)) == parts
  {
    if |parts| == 1 {
      SplitWhole(parts[0]);
    } else {
      assert parts[0] in parts && forall p :: p in parts[1..] ==> p in parts;
      SplitJoin(parts[1..]);
      SplitSlash(parts[0], Join(parts[1..]));
      SplitWhole(parts[0]);
      assert Join(parts) == parts[0] + "/" + Join(parts[1..]);
      assert parts == [parts[0]] + parts[1..];
    }
  }

  lemma {:induction false} SplitWhole(s: string)
    requires '/' !in s
    ensures Split(s) == [s]
  {
    if s != "" {
      assert s[0] in s && forall c :: c in s[1..] ==> c in s;
      SplitWhole(s[1..]);
      assert s == [s[0]] + s[1..];
    }
  }

  /** For a directory anchor the finding is the directory, or has its segments in a row with
      something after them, or starts with a tail of them followed by something. */
  lemma {:induction false} DirectoryAnchorMatches(f: string, a: string)
    requires f != "" && EndsWith(a, "/") && DropTrailing(a) != ""
    ensures var d, p := Split(DropTrailing(a)), Split(f);
            Matches(f, a) <==>
            (p == d || HasInside(d, p) || exists i :: 0 <= i < |d| && IsProperPrefix(d[i..], p))
  {
    var dir := DropTrailing(a);
    var d, p := Split(dir), Split(f);
    if p == d {
      SplitInjective(f, dir);
    }
    InsideIsSegments(f, dir);
    forall i | 0 <= i < |d|
      ensures StartsWith(f, Join(d[i..]) + "/") <==> IsProperPrefix(d[i..], p)
    {
      assert forall x :: x in d[i..] ==> x in d;
      SplitJoin(d[i..]);
      PrefixIsSegments(f, Join(d[i..]));
    }
    TailsAgree(f, d);
  }

  lemma {:induction false} TailsAgree(f: string, d: seq<string>)
    requires forall i :: 0 <= i < |d| ==> (StartsWith(f, Join(d[i..]) + "/") <==> IsProperPrefix(d[i..], Split(f)))
    ensures (exists i :: 0 <= i < |d| && StartsWith(f, Join(d[i..]) + "/")) <==>
            (exists i :: 0 <= i < |d| && IsProperPrefix(d[i..], Split(f)))
  {
  }

  // ---------------------------------------------------------------- normalization

  /** White space and lower-casing, character by character. */
  datatype Tables = Tables(space: char -> bool, lower: char -> string)

  predicate Special(u: Tables, c: char) {
    c == '/' || c == '\\' || c == '.' || u.space(c)
  }

  /** Lower-casing is settled after once and keeps white space, dots and slashes apart from
      everything else. */
  ghost predicate Sane(u: Tables) {
    && !u.space('/') && !u.space('\\') && !u.space('.')
    && (forall c :: Special(u, c) ==> u.lower(c) == [c])
    && forall c :: !Special(u, c) ==>
         u.lower(c) != [] && forall x :: x in u.lower(c) ==> !Special(u, x) && u.lower(x) == [x]
  }

  function Slashed(s: string): string {
    if s == "" then "" else [if s[0] == '\\' then '/' else s[0]] + Slashed(s[1..])
  }

  function DropDots(s: string): string {
    if StartsWith(s, "./") then DropDots(s[2..]) else s
  }

  function Lower(u: Tables, s: string): string {
    if s == "" then "" else u.lower(s[0]) + Lower(u, s[1..])
  }

  /** The path without white space around it, leading "./" and leading slashes. */
  function Cleaned(u: Tables, path: string): string {
    DropSlashes(DropDots(Slashed(Strip(path, u.space))))
  }

  function Normalize(u: Tables, path: string): string {
    Lower(u, Cleaned(u, path))
  }

  /** `_normalize_path_for_match`. */
  method NormalizePath(u: Tables, path: string) returns (r: string)
    ensures r == Normalize(u, path)
  {
    var normalized := Slashed(Strip(path, u.space));
    while StartsWith(normalized, "./")
      invariant DropDots(normalized) == DropDots(Slashed(Strip(path, u.space)))
      decreases |normalized|
    {
      normalized := normalized[2..];
    }
    r := Lower(u, DropSlashes(normalized));
  }

  lemma {:induction false} SlashedChars(u: Tables, s: string)
    requires Sane(u)
    ensures |Slashed(s)| == |s| && '\\' !in Slashed(s)
    ensures '\\' !in s ==> Slashed(s) == s
    ensures s != "" ==> (u.space(Slashed(s)[|s| - 1]) <==> u.space(s[|s| - 1]))
  {
    if s != "" {
      SlashedChars(u, s[1..]);
      assert s == [s[0]] + s[1..];
    }
  }

  lemma {:induction false} EndOfTail(s: string, n: nat, r: string)
    requires n <= |s| && EndsWith(s[n..], r)
    ensures EndsWith(s, r)
  {
    assert s[n..][|s| - n - |r|..] == s[|s| - |r|..];
  }

  /** Dropping from the front keeps the end. */
  lemma {:induction false} DropsKeepEnd(s: string)
    ensures EndsWith(s, DropSlashes(DropDots(s)))
    ensures DropSlashes(DropDots(s)) != "" ==> DropSlashes(DropDots(s))[0] != '/'
  {
    DotsKeepEnd(s);
    SlashesKeepEnd(DropDots(s));
  }

  lemma {:induction false} DotsKeepEnd(s: string)
    ensures EndsWith(s, DropDots(s)) && !StartsWith(DropDots(s), "./")
    ensures DropDots(s) == s <==> !StartsWith(s, "./")
  {
    if StartsWith(s, "./") {
      DotsKeepEnd(s[2..]);
      EndOfTail(s, 2, DropDots(s[2..]));
    }
  }

  lemma {:induction false} SlashesKeepEnd(s: string)
    ensures EndsWith(s, DropSlashes(s)) && (DropSlashes(s) != "" ==> DropSlashes(s)[0] != '/')
  {
    if s != "" && s[0] == '/' {
      SlashesKeepEnd(s[1..]);
      EndOfTail(s, 1, DropSlashes(s[1..]));
    }
  }

  /** What is left after cleaning: no backslash, no leading slash, no white space at the end. */
  lemma {:induction false} CleanedShape(u: Tables, path: string)
    requires Sane(u)
    ensures var r := Cleaned(u, path);
            '\\' !in r && (r != "" ==> r[0] != '/' && !u.space(r[|r| - 1]))
  {
    var a := Strip(path, u.space);
    StripEnds(path, u.space);
    SlashedChars(u, a);
    DropsKeepEnd(Slashed(a));
    var r := Cleaned(u, path);
    forall c | c in r ensures c in Slashed(a) {
      var k :| 0 <= k < |r| && r[k] == c;
      assert Slashed(a)[|a| - |r| + k] == c;
    }
    if r != "" {
      assert r[|r| - 1] == Slashed(a)[|a| - 1];
    }
  }

  /** Lower-casing keeps the first and the last character special, or not special. */
  lemma {:induction false} LowerShape(u: Tables, s: string)
    requires Sane(u) && '\\' !in s
    ensures var t := Lower(u, s);
            && '\\' !in t && (forall x :: x in t ==> u.lower(x) == [x])
            && (t == "" <==> s == "")
            && (s != "" ==> (u.space(t[0]) <==> u.space(s[0])) && (u.space(t[|t| - 1]) <==> u.space(s[|s| - 1])))
            && (s != "" ==> (t[0] == '/' <==> s[0] == '/'))
            && (StartsWith(t, "./") <==> StartsWith(s, "./"))
  {
    if s != "" {
      assert s[0] in s && forall c :: c in s[1..] ==> c in s;
      LowerShape(u, s[1..]);
      LowerHead(u, s[0], Lower(u, s[1..]));
      assert u.lower(s[0])[|u.lower(s[0])| - 1] in u.lower(s[0]);
    }
  }

  lemma {:induction false} LowerHead(u: Tables, c: char, rest: string)
    requires Sane(u) && c != '\\' && '\\' !in rest && forall x :: x in rest ==> u.lower(x) == [x]
    ensures var t := u.lower(c) + rest;
            && '\\' !in t && (forall x :: x in t ==> u.lower(x) == [x]) && t != ""
            && (u.space(t[0]) <==> u.space(c)) && (t[0] == '/' <==> c == '/')
            && (StartsWith(t, "./") <==> c == '.' && rest != "" && rest[0] == '/')
  {
    var t := u.lower(c) + rest;
    assert u.lower(c)[0] in u.lower(c) && t[0] == u.lower(c)[0];
    assert StartsWith(t, "./") <==> |t| >= 2 && t[0] == '.' && t[1] == '/';
    if c == '.' {
      assert t[1..] == rest;
    }
  }

  lemma {:induction false} LowerSettled(u: Tables, t: string)
    requires forall x :: x in t ==> u.lower(x) == [x]
    ensures Lower(u, t) == t
  {
    if t != "" {
      assert t[0] in t && forall x :: x in t[1..] ==> x in t;
      LowerSettled(u, t[1..]);
    }
  }

  lemma {:induction false} CleanedIsEnd(u: Tables, t: string)
    requires Sane(u) && '\\' !in t
    ensures Cleaned(u, t) == DropSlashes(DropDots(Strip(t, u.space)))
    ensures forall x :: x in Cleaned(u, t) ==> x in t
  {
    var a := Strip(t, u.space);
    StripEnds(t, u.space);
    SlashedChars(u, a);
    DropsKeepEnd(a);
    var r := Cleaned(u, t);
    forall x | x in r ensures x in t {
      var k :| 0 <= k < |r| && r[k] == x;
      assert a[|a| - |r| + k] == x;
    }
  }

  /** On a settled text normalization only drops from the ends. */
  lemma {:induction false} NormalizeSettled(u: Tables, t: string)
    requires Sane(u) && '\\' !in t && (forall x :: x in t ==> u.lower(x) == [x]) && (t != "" ==> t[0] != '/')
    ensures Normalize(u, t) == t <==> Strip(t, u.space) == t && !StartsWith(t, "./")
  {
    var a, r := Strip(t, u.space), Cleaned(u, t);
    CleanedIsEnd(u, t);
    LowerSettled(u, r);
    StripEnds(t, u.space);
    DotsKeepEnd(a);
    SlashesKeepEnd(DropDots(a));
    assert |r| <= |DropDots(a)| <= |a| <= |t|;
    if r == t {
      assert a == t && DropDots(a) == a;
    }
  }

  /** Normalizing twice is normalizing once exactly when what is left under the leading
      "./" and slashes starts neither with "./" nor with white space. */
  lemma {:induction false} NormalizeTwice(u: Tables, path: string)
    requires Sane(u)
    ensures Normalize(u, Normalize(u, path)) == Normalize(u, path) <==>
            var r := Cleaned(u, path); !StartsWith(r, "./") && (r != "" ==> !u.space(r[0]))
  {
    var r := Cleaned(u, path);
    CleanedShape(u, path);
    LowerShape(u, r);
    NormalizeSettled(u, Lower(u, r));
    StripEnds(Lower(u, r), u.space);
  }

  /** So it is not idempotent: a slash can hide a second "./". */
  lemma {:induction false} NotIdempotent(u: Tables)
    requires Sane(u) && !u.space('x')
    ensures Normalize(u, Normalize(u, ".//./x")) != Normalize(u, ".//./x")
  {
    var s := ".//./x";
    StripEnds(s, u.space);
    SlashedChars(u, s);
    assert s[2..] == "/./x" && "/./x"[1..] == "./x";
    assert DropDots("/./x") == "/./x" && DropSlashes("/./x") == DropSlashes("./x") == "./x";
    assert Cleaned(u, s) == "./x";
    NormalizeTwice(u, s);
  }

  // ---------------------------------------------------------------- what normalization ignores

  lemma {:induction false} SlashedFirst(u: Tables, s: string)
    requires Sane(u)
    ensures Slashed(Strip(s, u.space)) == Strip(Slashed(s), u.space)
    decreases |s|
  {
    SlashedEach(s);
    if s != "" {
      if u.space(s[0]) {
        SlashedFirst(u, s[1..]);
        assert Slashed(s)[1..] == Slashed(s[1..]);
      } else if u.space(s[|s| - 1]) {
        SlashedFirst(u, s[..|s| - 1]);
        SlashedEach(s[..|s| - 1]);
        assert Slashed(s)[..|s| - 1] == Slashed(s[..|s| - 1]);
      }
    }
  }

  lemma {:induction false} SlashedEach(s: string)
    ensures |Slashed(s)| == |s|
    ensures forall i :: 0 <= i < |s| ==> Slashed(s)[i] == if s[i] == '\\' then '/' else s[i]
  {
    if s != "" {
      SlashedEach(s[1..]);
    }
  }

  /** Character by character the same, up to the direction of the slashes. */
  ghost predicate SameButSlashes(s: string, t: string) {
    |s| == |t| && forall i :: 0 <= i < |s| ==> s[i] == t[i] || (s[i] in "/\\" && t[i] in "/\\")
  }

  /** Character by character the same, up to case. */
  ghost predicate SameButCase(u: Tables, s: string, t: string) {
    |s| == |t| && forall i :: 0 <= i < |s| ==> u.lower(s[i]) == u.lower(t[i])
  }

  lemma {:induction false} SpecialsAgree(u: Tables, c: char, d: char)
    requires Sane(u) && u.lower(c) == u.lower(d)
    ensures c == d || (!Special(u, c) && !Special(u, d))
  {
    FirstLower(u, c);
    FirstLower(u, d);
  }

  lemma {:induction false} FirstLower(u: Tables, c: char)
    requires Sane(u)
    ensures u.lower(c) != [] && (Special(u, u.lower(c)[0]) <==> Special(u, c))
    ensures Special(u, c) ==> u.lower(c)[0] == c
  {
    assert u.lower(c) != [] ==> u.lower(c)[0] in u.lower(c);
  }

  lemma {:induction false} StripCase(u: Tables, s: string, t: string)
    requires Sane(u) && SameButCase(u, s, t)
    ensures SameButCase(u, Strip(s, u.space), Strip(t, u.space))
    decreases |s|
  {
    if s != "" {
      SpecialsAgree(u, s[0], t[0]);
      SpecialsAgree(u, s[|s| - 1], t[|s| - 1]);
      if u.space(s[0]) {
        StripCase(u, s[1..], t[1..]);
      } else if u.space(s[|s| - 1]) {
        StripCase(u, s[..|s| - 1], t[..|s| - 1]);
      }
    }
  }

  lemma {:induction false} SlashedCase(u: Tables, s: string, t: string)
    requires Sane(u) && SameButCase(u, s, t)
    ensures SameButCase(u, Slashed(s), Slashed(t))
  {
    SlashedEach(s);
    SlashedEach(t);
    forall i | 0 <= i < |s| ensures u.lower(Slashed(s)[i]) == u.lower(Slashed(t)[i]) {
      SpecialsAgree(u, s[i], t[i]);
    }
  }

  lemma {:induction false} DotsCase(u: Tables, s: string, t: string)
    requires Sane(u) && SameButCase(u, s, t)
    ensures SameButCase(u, DropDots(s), DropDots(t))
  {
    if |s| >= 2 {
      SpecialsAgree(u, s[0], t[0]);
      SpecialsAgree(u, s[1], t[1]);
      assert StartsWith(s, "./") <==> s[0] == '.' && s[1] == '/';
      assert StartsWith(t, "./") <==> t[0] == '.' && t[1] == '/';
      if StartsWith(s, "./") {
        DotsCase(u, s[2..], t[2..]);
      }
    }
  }

  lemma {:induction false} SlashesCase(u: Tables, s: string, t: string)
    requires Sane(u) && SameButCase(u, s, t)
    ensures SameButCase(u, DropSlashes(s), DropSlashes(t))
  {
    if s != "" {
      SpecialsAgree(u, s[0], t[0]);
      if s[0] == '/' {
        SlashesCase(u, s[1..], t[1..]);
      }
    }
  }

  lemma {:induction false} LowerCase(u: Tables, s: string, t: string)
    requires SameButCase(u, s, t)
    ensures Lower(u, s) == Lower(u, t)
  {
    if s != "" {
      LowerCase(u, s[1..], t[1..]);
    }
  }

  lemma {:induction false} NormalizeCase(u: Tables, s: string, t: string)
    requires Sane(u) && SameButCase(u, s, t)
    ensures Normalize(u, s) == Normalize(u, t)
  {
    var a, b := Strip(s, u.space), Strip(t, u.space);
    StripCase(u, s, t);
    SlashedCase(u, a, b);
    DotsCase(u, Slashed(a), Slashed(b));
    SlashesCase(u, DropDots(Slashed(a)), DropDots(Slashed(b)));
    LowerCase(u, Cleaned(u, s), Cleaned(u, t));
  }

  lemma {:induction false} NormalizeSlashes(u: Tables, s: string, t: string)
    requires Sane(u) && SameButSlashes(s, t)
    ensures Normalize(u, s) == Normalize(u, t)
  {
    SlashedFirst(u, s);
    SlashedFirst(u, t);
    SlashedEach(s);
    SlashedEach(t);
    assert Slashed(s) == Slashed(t);
  }

  lemma {:induction false} StripBehind(u: Tables, a: string, s: string)
    requires a != "" && !u.space(a[0]) && !u.space(a[|a| - 1]) && (s != "" ==> !u.space(s[0]))
    ensures Strip(a + s, u.space) == a + Strip(s, u.space)
  {
    StripAnchored(a, s, u.space);
    StripAnchoredSelf(u, s);
  }

  lemma {:induction false} StripAnchoredSelf(u: Tables, s: string)
    requires s != "" ==> !u.space(s[0])
    ensures Strip(s, u.space) == StripRight(s, u.space)
  {
    if s != "" {
      StripAnchored([s[0]], s[1..], u.space);
      RightBehind(s[0], s[1..], u.space);
      assert s == [s[0]] + s[1..];
    }
  }

  lemma {:induction false} RightBehind(c: char, s: string, drop: char -> bool)
    requires !drop(c)
    ensures StripRight([c] + s, drop) == [c] + StripRight(s, drop)
    decreases |s|
  {
    if s != "" && drop(s[|s| - 1]) {
      assert ([c] + s)[..|s|] == [c] + s[..|s| - 1];
      RightBehind(c, s[..|s| - 1], drop);
    }
  }

  lemma {:induction false} LeadingDot(u: Tables, s: string)
    requires Sane(u) && (s != "" ==> !u.space(s[0]))
    ensures Normalize(u, "./" + s) == Normalize(u, s)
  {
    var a := Strip(s, u.space);
    StripBehind(u, "./", s);
    SlashedEach("./" + a);
    SlashedEach(a);
    assert Slashed("./" + a) == "./" + Slashed(a);
    assert ("./" + Slashed(a))[2..] == Slashed(a);
  }

  lemma {:induction false} LeadingSlash(u: Tables, s: string)
    requires Sane(u) && (s != "" ==> !u.space(s[0])) && !(|s| >= 2 && s[0] == '.' && s[1] in "/\\")
    ensures Normalize(u, "/" + s) == Normalize(u, s)
  {
    var a := Strip(s, u.space);
    StripBehind(u, "/", s);
    StripAnchoredSelf(u, s);
    SlashedEach("/" + a);
    SlashedEach(a);
    assert Slashed("/" + a) == "/" + Slashed(a);
    assert ("/" + Slashed(a))[1..] == Slashed(a);
    assert !StartsWith("/" + Slashed(a), "./") && !StartsWith(Slashed(a), "./");
  }

  lemma {:induction false} NothingToDo(u: Tables, s: string)
    requires '\\' !in s && forall c :: c in s ==> u.lower(c) == [c]
    requires s != "" ==> !u.space(s[0]) && !u.space(s[|s| - 1]) && s[0] != '/'
    requires !(|s| >= 2 && s[0] == '.' && s[1] == '/')
    ensures Normalize(u, s) == s
  {
    SlashedEach(s);
    assert Slashed(s) == s;
    LowerSettled(u, s);
    StripEnds(s, u.space);
  }

  /** White space around a path, the direction of its slashes, its case, a leading "./" and
      a leading slash do not matter, and a path without any of these is its own normal form. */
  lemma {:induction false} NormalizeIgnores(u: Tables, path: string, before: string, after: string, other: string)
    requires Sane(u) && (forall c :: c in before ==> u.space(c)) && (forall c :: c in after ==> u.space(c))
    ensures Normalize(u, before + path + after) == Normalize(u, path)
    ensures SameButSlashes(path, other) ==> Normalize(u, other) == Normalize(u, path)
    ensures SameButCase(u, path, other) ==> Normalize(u, other) == Normalize(u, path)
    ensures (path == "" || !u.space(path[0])) ==> Normalize(u, "./" + path) == Normalize(u, path)
    ensures (path == "" || !u.space(path[0])) && !(|path| >= 2 && path[0] == '.' && path[1] in "/\\") ==>
              Normalize(u, "/" + path) == Normalize(u, path)
    ensures '\\' !in path && (forall c :: c in path ==> u.lower(c) == [c])
            && (path == "" || (!u.space(path[0]) && !u.space(path[|path| - 1]) && path[0] != '/'))
            && !(|path| >= 2 && path[0] == '.' && path[1] == '/') ==>
              Normalize(u, path) == path
  {
    StripAround(before, path, after, u.space);
    if SameButSlashes(path, other) {
      NormalizeSlashes(u, path, other);
    }
    if SameButCase(u, path, other) {
      NormalizeCase(u, path, other);
    }
    if path == "" || !u.space(path[0]) {
      LeadingDot(u, path);
      if !(|path| >= 2 && path[0] == '.' && path[1] in "/\\") {
        LeadingSlash(u, path);
      }
    }
    if '\\' !in path && (forall c :: c in path ==> u.lower(c) == [c])
       && (path == "" || (!u.space(path[0]) && !u.space(path[|path| - 1]) && path[0] != '/'))
       && !(|path| >= 2 && path[0] == '.' && path[1] == '/') {
      NothingToDo(u, path);
    }
  }

  // ---------------------------------------------------------------- the whole matcher

  /** `_finding_file_matches_anchor`. */
  ghost predicate FindingMatches(u: Tables, finding: string, anchor: string) {
    finding != "" && Matches(Normalize(u, finding), Normalize(u, anchor))
  }

  /** The documented relation between the segments of a finding and of an anchor: the same
      file up to a shorter or longer root, or a file under the directory, whose own root may
      be shorter in the finding. */
  ghost predicate SegmentsMatch(finding: seq<string>, anchor: seq<string>, directory: bool) {
    if directory then
      finding == anchor || HasInside(anchor, finding) || exists i :: 0 <= i < |anchor| && IsProperPrefix(anchor[i..], finding)
    else IsSuffix(anchor, finding) || IsSuffix(finding, anchor)
  }

  /** On any two paths the matcher is that relation between what they normalize to, and
      never holds of a path of which nothing is left. */
  lemma {:induction false} FindingMatchesSegments(u: Tables, finding: string, anchor: string)
    requires Sane(u)
    ensures var f, a := Normalize(u, finding), Normalize(u, anchor);
            FindingMatches(u, finding, anchor) <==>
            f != "" && a != "" && SegmentsMatch(Split(f), Split(DropTrailing(a)), EndsWith(a, "/"))
  {
    var f, a := Normalize(u, finding), Normalize(u, anchor);
    NothingLeft(u, finding);
    NoLeadingSlash(u, anchor);
    if f != "" && a != "" {
      if EndsWith(a, "/") {
        FirstStays(a);
        DirectoryAnchorMatches(f, a);
      } else {
        FileAnchorMatches(f, a);
        assert DropTrailing(a) == a;
      }
    }
  }

  lemma {:induction false} NothingLeft(u: Tables, path: string)
    ensures path == "" ==> Normalize(u, path) == ""
  {
  }

  lemma {:induction false} NoLeadingSlash(u: Tables, path: string)
    requires Sane(u)
    ensures Normalize(u, path) != "" ==> Normalize(u, path)[0] != '/'
  {
    CleanedShape(u, path);
    LowerShape(u, Cleaned(u, path));
  }

  lemma {:induction false} FirstStays(s: string)
    requires s != "" && s[0] != '/'
    ensures DropTrailing(s) != ""
  {
    if s[|s| - 1] == '/' {
      FirstStays(s[..|s| - 1]);
    }
  }
}
