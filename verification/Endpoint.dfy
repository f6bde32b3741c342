/** Endpoint URLs in `pr_reviewer/http_safe.py`: splitting, resolving into a
    credential-free target, redacting, and the recorded identity. */
module Endpoint {
  import opened Options
  import opened Texts

  // ---------------------------------------------------------------- urlsplit and urlunsplit

  /** What Python brings: white space, percent-decoding, and which authority `urlsplit`
      takes and which host and port `resolve_endpoint` takes. */
  datatype Tables = Tables(space: char -> bool, unquote: string -> string, accepts: string -> bool, port: string -> bool)

  /** Python's white space: the usual control characters, and no printable ASCII. */
  ghost predicate PythonSpace(u: Tables) {
    && u.space(' ') && u.space('\t') && u.space('\r') && u.space('\n')
    && forall c :: '!' <= c <= '~' ==> !u.space(c)
  }

  datatype Parts = Parts(scheme: string, netloc: string, path: string, query: string, fragment: string)

  /** The first position of a character of `stop`, or the length. */
  function Index(s: string, stop: set<char>): (i: nat)
    ensures i <= |s| && (forall k :: 0 <= k < i ==> s[k] !in stop) && (i < |s| ==> s[i] in stop)
  {
    if s == "" || s[0] in stop then 0 else 1 + Index(s[1..], stop)
  }

  predicate IsLetter(c: char) {
    'a' <= c <= 'z' || 'A' <= c <= 'Z'
  }

  predicate SchemeChar(c: char) {
    IsLetter(c) || '0' <= c <= '9' || c == '+' || c == '-' || c == '.'
  }

  function LowerLetter(c: char): char {
    if 'A' <= c <= 'Z' then (c as int + 32) as char else c
  }

  function LowerScheme(s: string): string {
    if s == "" then "" else [LowerLetter(s[0])] + LowerScheme(s[1..])
  }

  /** Does the text start with a scheme and a colon? */
  predicate HasScheme(s: string) {
    var i := Index(s, {':'});
    0 < i < |s| && IsLetter(s[0]) && forall k :: 0 <= k < i ==> SchemeChar(s[k])
  }

  const UNSAFE: set<char> := {'\t', '\r', '\n'}

  predicate Clean(s: string) {
    forall c :: c in s ==> c !in UNSAFE
  }

  /** Leading control characters and spaces go. */
  function DropControls(s: string): string {
    if s != "" && s[0] <= ' ' then DropControls(s[1..]) else s
  }

  /** Tabs and line ends go wherever they are. */
  function DropUnsafe(s: string): (r: string)
    ensures Clean(r) && (forall c :: c in r ==> c in s)
  {
    if s == "" then "" else (if s[0] in UNSAFE then "" else [s[0]]) + DropUnsafe(s[1..])
  }

  function Cleanse(s: string): (r: string)
    ensures Clean(r)
  {
    DropUnsafe(DropControls(s))
  }

  /** `urllib.parse.urlsplit`; nothing when it raises. */
  function SplitUrl(u: Tables, s: string): Option<Parts> {
    SplitClean(u, Cleanse(s))
  }

  function SplitClean(u: Tables, s: string): Option<Parts> {
    var i := Index(s, {':'});
    if HasScheme(s) then SplitAfterScheme(u, LowerScheme(s[..i]), s[i + 1..]) else SplitAfterScheme(u, "", s)
  }

  function SplitAfterScheme(u: Tables, scheme: string, rest: string): Option<Parts> {
    if "//" <= rest then
      var after := rest[2..];
      var n := Index(after, {'/', '?', '#'});
      if n == 0 || u.accepts(after[..n]) then Some(SplitTail(scheme, after[..n], after[n..])) else None
    else Some(SplitTail(scheme, "", rest))
  }

  /** `s.split(c, 1)`, before and after the mark. */
  function BeforeMark(s: string, c: char): string {
    s[..Index(s, {c})]
  }

  function AfterMark(s: string, c: char): string {
    var i := Index(s, {c});
    if i < |s| then s[i + 1..] else ""
  }

  function SplitTail(scheme: string, netloc: string, rest: string): Parts {
    Parts(scheme, netloc, BeforeMark(BeforeMark(rest, '#'), '?'), QueryOf(rest), AfterMark(rest, '#'))
  }

  function QueryOf(rest: string): string {
    AfterMark(BeforeMark(rest, '#'), '?')
  }

  /** `urllib.parse.urlunsplit` of parts with an authority. */
  function Unsplit(p: Parts): string {
    (if p.scheme == "" then "" else p.scheme + ":") + "//" + p.netloc +
    (if p.path != "" && p.path[0] != '/' then "/" else "") + p.path +
    (if p.query == "" then "" else "?" + p.query) + (if p.fragment == "" then "" else "#" + p.fragment)
  }

  // ---------------------------------------------------------------- '@', literal or encoded

  predicate HasEncodedAt(s: string) {
    exists k :: 0 <= k < |s| && "%40" <= s[k..]
  }

  /** `"@" in unquote(s)`. */
  predicate HasAt(s: string) {
    '@' in s || HasEncodedAt(s)
  }

  /** `s.rpartition("@")[2]`, for a text that has one. */
  function AfterLastAt(s: string): (h: string)
    ensures '@' !in h
    ensures '@' in s ==> |h| < |s|
    ensures '@' !in s ==> h == s
  {
    if s == "" then ""
    else if '@' in s then AfterLastAt(s[1..])
    else s
  }

  /** `s.rpartition("@")[0]`. */
  function BeforeLastAt(s: string): string
    requires '@' in s
  {
    s[..|s| - |AfterLastAt(s)| - 1]
  }

  // ---------------------------------------------------------------- resolving

  datatype Endpoint = Endpoint(url: string, credential: Option<string>)

  /** `resolve_endpoint`; nothing where it refuses. */
  function Resolve(u: Tables, text: string): Option<Endpoint> {
    var split := SplitUrl(u, Strip(text, u.space));
    if split.None? then None
    else
      var p := split.value;
      if (p.scheme != "http" && p.scheme != "https") || p.netloc == "" then None
      else if p.query != "" || p.fragment != "" then None
      else if !u.port(AfterLastAt(p.netloc)) then None
      else if '@' !in p.netloc then
        if HasAt(p.netloc) || HasAt(p.path) then None else Some(Endpoint(Unsplit(p), None))
      else if AfterLastAt(p.netloc) == "" then None
      else
        var userinfo := BeforeLastAt(p.netloc);
        Some(Endpoint(Unsplit(p.(netloc := AfterLastAt(p.netloc))),
                      if userinfo == "" then None else Some(u.unquote(userinfo))))
  }

  // ---------------------------------------------------------------- splitting what was joined

  /** Parts that an absolute http(s) URL without query and fragment can have. */
  ghost predicate Plain(scheme: string, netloc: string, path: string) {
    && (scheme == "http" || scheme == "https")
    && netloc != "" && Authority(netloc) && Path(path)
  }

  ghost predicate Authority(netloc: string) {
    Clean(netloc) && forall c :: c in netloc ==> c != '/' && c != '?' && c != '#'
  }

  ghost predicate Path(path: string) {
    && Clean(path) && (path != "" ==> path[0] == '/')
    && forall c :: c in path ==> c != '?' && c != '#'
  }

  function UrlOf(scheme: string, netloc: string, path: string): string {
    scheme + ("://" + (netloc + path))
  }

  lemma {:induction false} IndexOfFirst(a: string, c: char, b: string, stop: set<char>)
    requires c in stop && forall x :: x in a ==> x !in stop
    ensures Index(a + ([c] + b), stop) == |a|
  {
    var s := a + ([c] + b);
    assert s[|a|] == c;
    forall k | 0 <= k < |a| ensures s[k] !in stop {
      assert s[k] == a[k] && a[k] in a;
    }
  }

  lemma {:induction false} IndexOfNone(a: string, stop: set<char>)
    requires forall x :: x in a ==> x !in stop
    ensures Index(a, stop) == |a|
  {
    forall k | 0 <= k < |a| ensures a[k] !in stop {
      assert a[k] in a;
    }
  }

  lemma {:induction false} LowerOfLower(s: string)
    requires forall c :: c in s ==> 'a' <= c <= 'z'
    ensures LowerScheme(s) == s
  {
    if s != "" {
      assert s[0] in s && forall c :: c in s[1..] ==> c in s;
      LowerOfLower(s[1..]);
    }
  }

  /** A scheme as it stands in a text. */
  ghost predicate RawScheme(s: string) {
    s != "" && IsLetter(s[0]) && forall c :: c in s ==> SchemeChar(c)
  }

  /** What follows the path: nothing, or a query or a fragment. */
  ghost predicate Rest(rest: string) {
    rest != "" ==> rest[0] == '?' || rest[0] == '#'
  }

  function Joined(raw: string, netloc: string, path: string, rest: string): string {
    raw + ("://" + (netloc + (path + rest)))
  }

  /** Splitting what was joined gives back the pieces. */
  lemma {:induction false} SplitJoined(u: Tables, raw: string, netloc: string, path: string, rest: string)
    requires RawScheme(raw) && netloc != "" && Authority(netloc) && Path(path) && Rest(rest)
    ensures SplitClean(u, Joined(raw, netloc, path, rest)) ==
            if u.accepts(netloc) then Some(Parts(LowerScheme(raw), netloc, path, QueryOf(rest), AfterMark(rest, '#'))) else None
  {
    var after := netloc + (path + rest);
    assert [':'] + ("//" + after) == "://" + after;
    SchemeSplits(u, raw, "//" + after);
    AuthoritySplits(u, LowerScheme(raw), netloc, path, rest);
  }

  lemma {:induction false} AuthoritySplits(u: Tables, scheme: string, netloc: string, path: string, rest: string)
    requires netloc != "" && Authority(netloc) && Path(path) && Rest(rest)
    ensures SplitAfterScheme(u, scheme, "//" + (netloc + (path + rest))) ==
            if u.accepts(netloc) then Some(Parts(scheme, netloc, path, QueryOf(rest), AfterMark(rest, '#'))) else None
  {
    var s, after, stop := "//" + (netloc + (path + rest)), netloc + (path + rest), {'/', '?', '#'};
    assert "//" <= s && s[2..] == after;
    if path + rest == "" {
      assert after == netloc;
      IndexOfNone(netloc, stop);
    } else {
      var next := path + rest;
      assert next == [next[0]] + next[1..];
      IndexOfFirst(netloc, next[0], next[1..], stop);
    }
    assert after[..|netloc|] == netloc && after[|netloc|..] == path + rest;
    TailSplits(scheme, netloc, path, rest);
  }

  lemma {:induction false} TailSplits(scheme: string, netloc: string, path: string, rest: string)
    requires Path(path) && Rest(rest)
    ensures SplitTail(scheme, netloc, path + rest) == Parts(scheme, netloc, path, QueryOf(rest), AfterMark(rest, '#'))
  {
    MarkAfter(path, rest, '#');
    MarkAfter(path, BeforeMark(rest, '#'), '?');
    NoHead(rest);
  }

  lemma {:induction false} NoHead(rest: string)
    requires Rest(rest)
    ensures BeforeMark(BeforeMark(rest, '#'), '?') == ""
  {
    var head := BeforeMark(rest, '#');
    assert head != "" ==> head[0] == rest[0];
  }

  lemma {:induction false} MarkAfter(a: string, b: string, c: char)
    requires c !in a
    ensures BeforeMark(a + b, c) == a + BeforeMark(b, c) && AfterMark(a + b, c) == AfterMark(b, c)
  {
    IndexAfter(a, b, {c});
    var i := Index(b, {c});
    assert (a + b)[..|a| + i] == a + b[..i];
    if i < |b| {
      assert (a + b)[|a| + i + 1..] == b[i + 1..];
    }
  }

  lemma {:induction false} IndexAfter(a: string, b: string, stop: set<char>)
    requires forall c :: c in a ==> c !in stop
    ensures Index(a + b, stop) == |a| + Index(b, stop)
  {
    if a == "" {
      assert a + b == b;
    } else {
      assert a[0] in a && (a + b)[1..] == a[1..] + b;
      IndexAfter(a[1..], b, stop);
    }
  }

  lemma {:induction false} DropUnsafeAppend(a: string, b: string)
    ensures DropUnsafe(a + b) == DropUnsafe(a) + DropUnsafe(b)
  {
    if a == "" {
      assert a + b == b;
    } else {
      assert (a + b)[1..] == a[1..] + b;
      DropUnsafeAppend(a[1..], b);
    }
  }

  lemma {:induction false} DropUnsafeClean(s: string)
    requires Clean(s)
    ensures DropUnsafe(s) == s
  {
    if s != "" {
      assert s[0] in s && forall c :: c in s[1..] ==> c in s;
      DropUnsafeClean(s[1..]);
    }
  }

  lemma {:induction false} UrlIsClean(scheme: string, netloc: string, path: string, rest: string)
    requires RawScheme(scheme) && Authority(netloc) && Path(path) && Clean(rest)
    ensures Cleanse(Joined(scheme, netloc, path, rest)) == Joined(scheme, netloc, path, rest)
  {
    var s := Joined(scheme, netloc, path, rest);
    assert s[0] == scheme[0];
    forall c | c in s ensures c !in UNSAFE {
      assert c in scheme || c in "://" || c in netloc || c in path || c in rest;
    }
    DropUnsafeClean(s);
  }

  lemma {:induction false} HttpIsRaw(scheme: string)
    requires scheme == "http" || scheme == "https"
    ensures RawScheme(scheme) && LowerScheme(scheme) == scheme && scheme[0] == 'h'
  {
    LowerOfLower(scheme);
  }

  /** Splitting a joined URL gives back its parts, or nothing when its authority is refused. */
  lemma {:induction false} SplitOfUrl(u: Tables, scheme: string, netloc: string, path: string)
    requires Plain(scheme, netloc, path)
    ensures SplitUrl(u, UrlOf(scheme, netloc, path)) ==
            if u.accepts(netloc) then Some(Parts(scheme, netloc, path, "", "")) else None
  {
    HttpIsRaw(scheme);
    assert path + "" == path;
    assert Joined(scheme, netloc, path, "") == UrlOf(scheme, netloc, path);
    UrlIsClean(scheme, netloc, path, "");
    SplitJoined(u, scheme, netloc, path, "");
  }

  /** The parts stand one after the other in the text, and `rest` holds query and fragment. */
  ghost predicate Holds(p: Parts, after: string, rest: string) {
    && after == p.netloc + (p.path + rest) && Rest(rest) && Clean(rest)
    && Authority(p.netloc) && Path(p.path)
    && p.query == QueryOf(rest) && p.fragment == AfterMark(rest, '#')
  }

  /** A text with a scheme and an authority is joined from its parts. */
  lemma {:induction false} Pieces(u: Tables, s: string) returns (raw: string, rest: string)
    requires Clean(s) && SplitClean(u, s).Some?
    requires SplitClean(u, s).value.scheme != "" && SplitClean(u, s).value.netloc != ""
    ensures var p := SplitClean(u, s).value;
            && s == Joined(raw, p.netloc, p.path, rest) && Holds(p, p.netloc + (p.path + rest), rest)
            && RawScheme(raw) && LowerScheme(raw) == p.scheme && u.accepts(p.netloc)
  {
    var tail, after;
    raw, tail := SchemeFound(u, s);
    after, rest := PiecesAfterScheme(u, LowerScheme(raw), tail);
    JoinedIs(raw, tail, after, SplitClean(u, s).value, rest);
  }

  lemma {:induction false} JoinedIs(raw: string, tail: string, after: string, p: Parts, rest: string)
    requires tail == "//" + after && after == p.netloc + (p.path + rest)
    ensures raw + ([':'] + tail) == Joined(raw, p.netloc, p.path, rest)
  {
    assert [':'] + ("//" + after) == "://" + after;
  }

  lemma {:induction false} NoScheme(u: Tables, s: string)
    requires SplitClean(u, s).Some?
    ensures SplitClean(u, s).value.scheme != "" ==> HasScheme(s)
  {
  }

  lemma {:induction false} SchemeFound(u: Tables, s: string) returns (raw: string, tail: string)
    requires Clean(s) && SplitClean(u, s).Some? && SplitClean(u, s).value.scheme != ""
    ensures s == raw + ([':'] + tail) && Clean(tail) && RawScheme(raw)
    ensures SplitClean(u, s) == SplitAfterScheme(u, LowerScheme(raw), tail)
  {
    var i := Index(s, {':'});
    NoScheme(u, s);
    raw, tail := s[..i], s[i + 1..];
    SchemeIsRaw(s);
    assert forall c :: c in tail ==> c in s;
  }

  lemma {:induction false} SchemeIsRaw(s: string)
    requires HasScheme(s)
    ensures var i := Index(s, {':'}); RawScheme(s[..i]) && s == s[..i] + ([':'] + s[i + 1..])
  {
    var i := Index(s, {':'});
    var raw := s[..i];
    assert forall k :: 0 <= k < i ==> raw[k] == s[k];
    assert s[i] == ':';
  }

  lemma {:induction false} PiecesAfterScheme(u: Tables, scheme: string, s: string) returns (after: string, rest: string)
    requires Clean(s) && SplitAfterScheme(u, scheme, s).Some? && SplitAfterScheme(u, scheme, s).value.netloc != ""
    ensures var p := SplitAfterScheme(u, scheme, s).value;
            s == "//" + after && Holds(p, after, rest) && u.accepts(p.netloc) && p.scheme == scheme
  {
    after := s[2..];
    assert s == "//" + after;
    assert forall c :: c in after ==> c in s;
    rest := PiecesOfAuthority(scheme, after);
  }

  lemma {:induction false} PiecesOfAuthority(scheme: string, after: string) returns (rest: string)
    requires Clean(after)
    ensures var n := Index(after, {'/', '?', '#'});
            Holds(SplitTail(scheme, after[..n], after[n..]), after, rest)
  {
    var n := Index(after, {'/', '?', '#'});
    var netloc, tail := after[..n], after[n..];
    assert after == netloc + tail;
    assert forall c :: c in netloc ==> c in after;
    assert forall c :: c in tail ==> c in after;
    assert tail != "" ==> tail[0] == after[n];
    rest := PiecesOfTail(scheme, netloc, tail);
  }

  lemma {:induction false} PiecesOfTail(scheme: string, netloc: string, tail: string) returns (rest: string)
    requires Clean(tail) && (tail != "" ==> tail[0] in {'/', '?', '#'})
    ensures var p := SplitTail(scheme, netloc, tail);
            && tail == p.path + rest && Rest(rest) && Clean(rest) && Path(p.path)
            && p.query == QueryOf(rest) && p.fragment == AfterMark(rest, '#')
  {
    var head := BeforeMark(tail, '#');
    var path := BeforeMark(head, '?');
    rest := tail[|path|..];
    assert path == tail[..|path|] && tail == path + rest;
    assert forall c :: c in path ==> c in head && c in tail;
    assert forall c :: c in rest ==> c in tail;
    assert |path| < |tail| ==> rest[0] == tail[|path|];
    assert |path| < |head| ==> head[|path|] == tail[|path|];
    assert path != "" ==> path[0] == tail[0];
    TailSplits(scheme, netloc, path, rest);
  }

  lemma {:induction false} UnsplitIsUrl(scheme: string, netloc: string, path: string)
    requires scheme != "" && (path != "" ==> path[0] == '/')
    ensures Unsplit(Parts(scheme, netloc, path, "", "")) == UrlOf(scheme, netloc, path)
  {
    assert scheme + ":" + "//" + netloc + "" + path + "" + "" == scheme + ("://" + (netloc + path));
  }

  lemma {:induction false} HostChars(netloc: string)
    ensures forall c :: c in AfterLastAt(netloc) ==> c in netloc
    ensures '@' in netloc ==> netloc == BeforeLastAt(netloc) + "@" + AfterLastAt(netloc)
  {
    if netloc != "" && '@' in netloc {
      HostChars(netloc[1..]);
      assert netloc == [netloc[0]] + netloc[1..];
      if '@' !in netloc[1..] {
        assert AfterLastAt(netloc) == netloc[1..];
      }
    }
  }

  lemma {:induction false} HostOfUserinfo(userinfo: string, host: string)
    requires '@' !in host
    ensures var n := userinfo + "@" + host;
            '@' in n && AfterLastAt(n) == host && BeforeLastAt(n) == userinfo
  {
    var n := userinfo + "@" + host;
    assert n[|userinfo|] == '@';
    if userinfo == "" {
      assert n[1..] == host;
    } else {
      assert n[1..] == userinfo[1..] + "@" + host;
      HostOfUserinfo(userinfo[1..], host);
    }
  }

  /** The scheme, host and path of a text that resolves. */
  function SchemeOf(u: Tables, text: string): string
    requires Resolve(u, text).Some?
  {
    SplitUrl(u, Strip(text, u.space)).value.scheme
  }

  function HostOf(u: Tables, text: string): string
    requires Resolve(u, text).Some?
  {
    AfterLastAt(SplitUrl(u, Strip(text, u.space)).value.netloc)
  }

  function PathOf(u: Tables, text: string): string
    requires Resolve(u, text).Some?
  {
    SplitUrl(u, Strip(text, u.space)).value.path
  }

  /** The authority as it stands in a text that resolves. */
  function NetlocOf(u: Tables, text: string): string
    requires Resolve(u, text).Some?
  {
    SplitUrl(u, Strip(text, u.space)).value.netloc
  }

  /** A resolved endpoint is the scheme, the host after the last '@', and the path. */
  lemma {:induction false} ResolvedUrl(u: Tables, text: string)
    requires Resolve(u, text).Some?
    ensures Resolve(u, text).value.url == UrlOf(SchemeOf(u, text), HostOf(u, text), PathOf(u, text))
    ensures Plain(SchemeOf(u, text), HostOf(u, text), PathOf(u, text)) && u.port(HostOf(u, text))
    ensures Plain(SchemeOf(u, text), NetlocOf(u, text), PathOf(u, text)) && u.accepts(NetlocOf(u, text))
    ensures '@' !in HostOf(u, text)
  {
    var s := Cleanse(Strip(text, u.space));
    var p := SplitClean(u, s).value;
    var raw, rest := Pieces(u, s);
    HostChars(p.netloc);
    UnsplitIsUrl(p.scheme, AfterLastAt(p.netloc), p.path);
  }

  /** The authority of a resolved endpoint is the bare host: no userinfo rides in it. */
  lemma {:induction false} ResolvedAuthorityIsBare(u: Tables, text: string)
    requires Resolve(u, text).Some?
    ensures var split := SplitUrl(u, Resolve(u, text).value.url);
            && '@' !in HostOf(u, text)
            && split == if u.accepts(HostOf(u, text))
                        then Some(Parts(SchemeOf(u, text), HostOf(u, text), PathOf(u, text), "", "")) else None
  {
    ResolvedUrl(u, text);
    SplitOfUrl(u, SchemeOf(u, text), HostOf(u, text), PathOf(u, text));
  }

  // ---------------------------------------------------------------- resolving twice

  /** The last character of a target can be white space, behind which only an empty query
      or fragment stood. */
  predicate Ragged(u: Tables, text: string)
    requires Resolve(u, text).Some?
  {
    var url := Resolve(u, text).value.url;
    url != "" && u.space(url[|url| - 1])
  }

  /** A plain URL resolves to itself exactly when nothing about its host or path is refused. */
  lemma {:induction false} ResolvePlain(u: Tables, scheme: string, host: string, path: string)
    requires Plain(scheme, host, path) && '@' !in host && u.port(host)
    requires var url := UrlOf(scheme, host, path); Strip(url, u.space) == url
    ensures var url := UrlOf(scheme, host, path);
            Resolve(u, url) == if u.accepts(host) && !HasAt(host) && !HasAt(path) then Some(Endpoint(url, None)) else None
  {
    SplitOfUrl(u, scheme, host, path);
    UnsplitIsUrl(scheme, host, path);
  }

  /** A prefix of two texts joined ends in the second or in the first. */
  lemma {:induction false} PrefixOfBoth(a: string, b: string, kept: string) returns (n: string, p: string)
    requires kept <= a + b
    ensures kept == n + p && n <= a && p <= b && (p != "" ==> n == a)
    ensures n == a && p == b <==> kept == a + b
  {
    assert kept == (a + b)[..|kept|];
    if |kept| <= |a| {
      n, p := a[..|kept|], "";
      assert kept == n;
    } else {
      n, p := a, b[..|kept| - |a|];
      assert kept == n + p;
    }
  }

  /** Stripping takes white space off the end of the path, or of the host when there is no
      path, and nothing off the front. */
  lemma {:induction false} StripUrl(u: Tables, scheme: string, netloc: string, path: string) returns (n: string, p: string)
    requires PythonSpace(u) && Plain(scheme, netloc, path)
    ensures Strip(UrlOf(scheme, netloc, path), u.space) == UrlOf(scheme, n, p)
    ensures n <= netloc && p <= path && (p != "" ==> n == netloc)
    ensures n + p == StripRight(netloc + path, u.space)
    ensures n == netloc && p == path <==> !u.space((netloc + path)[|netloc + path| - 1])
  {
    HttpIsRaw(scheme);
    var front, all := scheme + "://", netloc + path;
    assert front[0] == 'h' && front[|front| - 1] == '/';
    assert UrlOf(scheme, netloc, path) == front + all;
    StripAnchored(front, all, u.space);
    var kept := StripRight(all, u.space);
    n, p := PrefixOfBoth(netloc, path, kept);
    assert front + (n + p) == UrlOf(scheme, n, p);
  }

  lemma {:induction false} NoSpaceAround(u: Tables, scheme: string, netloc: string, path: string)
    requires PythonSpace(u) && Plain(scheme, netloc, path)
    requires !u.space((netloc + path)[|netloc + path| - 1])
    ensures var url := UrlOf(scheme, netloc, path); Strip(url, u.space) == url
  {
    var n, p := StripUrl(u, scheme, netloc, path);
  }

  lemma {:induction false} PrefixStaysPlain(scheme: string, netloc: string, path: string, n: string, p: string)
    requires Plain(scheme, netloc, path) && n <= netloc && p <= path && n != ""
    ensures Plain(scheme, n, p)
  {
    assert forall c :: c in n ==> c in netloc;
    assert forall c :: c in p ==> c in path;
  }

  lemma {:induction false} PrefixWithoutAt(a: string, b: string)
    requires a <= b && '@' !in b
    ensures '@' !in a
  {
    assert forall c :: c in a ==> c in b;
  }

  lemma {:induction false} LastOfUrl(scheme: string, netloc: string, path: string)
    requires Plain(scheme, netloc, path)
    ensures var url := UrlOf(scheme, netloc, path);
            url != "" && url[|url| - 1] == (netloc + path)[|netloc + path| - 1]
  {
    assert UrlOf(scheme, netloc, path) == (scheme + "://") + (netloc + path);
  }

  /** Resolving is idempotent exactly when the host and path that are left carry no '@',
      literal or encoded, the host is accepted without the userinfo, and no white space
      ends the target. The first pass checks the '@' only of a text without a literal
      userinfo. */
  lemma {:induction false} ResolveTwice(u: Tables, text: string)
    requires Resolve(u, text).Some? && PythonSpace(u)
    ensures var url, host, path := Resolve(u, text).value.url, HostOf(u, text), PathOf(u, text);
            Resolve(u, url) == Some(Endpoint(url, None)) <==>
            u.accepts(host) && !HasAt(host) && !HasAt(path) && !Ragged(u, text)
  {
    var scheme, host, path := SchemeOf(u, text), HostOf(u, text), PathOf(u, text);
    ResolvedUrl(u, text);
    LastOfUrl(scheme, host, path);
    if Ragged(u, text) {
      RaggedResolvesElsewhere(u, scheme, host, path);
    } else {
      NoSpaceAround(u, scheme, host, path);
      ResolvePlain(u, scheme, host, path);
    }
  }

  lemma {:induction false} RaggedResolvesElsewhere(u: Tables, scheme: string, host: string, path: string)
    requires PythonSpace(u) && Plain(scheme, host, path) && '@' !in host
    requires u.space((host + path)[|host + path| - 1])
    ensures var url := UrlOf(scheme, host, path); Resolve(u, url).Some? ==> Resolve(u, url).value.url != url
  {
    var n, p := StripUrl(u, scheme, host, path);
    assert |n| + |p| < |host| + |path|;
    StrippedIsAnother(u, UrlOf(scheme, host, path), scheme, host, path, n, p);
  }

  /** A text whose strip has a shorter host or path does not resolve to the longer one. */
  lemma {:induction false} StrippedIsAnother(u: Tables, text: string, scheme: string, host: string, path: string,
                                             n: string, p: string)
    requires Strip(text, u.space) == UrlOf(scheme, n, p) && Plain(scheme, host, path) && '@' !in host
    requires n <= host && p <= path && |n| + |p| < |host| + |path| && (p != "" ==> n == host)
    ensures Resolve(u, text).Some? ==> Resolve(u, text).value.url != UrlOf(scheme, host, path)
  {
    if n == "" {
      NoAuthority(u, scheme);
    } else {
      PrefixStaysPlain(scheme, host, path, n, p);
      PrefixWithoutAt(n, host);
      SplitOfUrl(u, scheme, n, p);
      UnsplitIsUrl(scheme, n, p);
    }
  }

  lemma {:induction false} NoAuthority(u: Tables, scheme: string)
    requires scheme == "http" || scheme == "https"
    ensures SplitUrl(u, UrlOf(scheme, "", "")) == Some(Parts(scheme, "", "", "", ""))
  {
    HttpIsRaw(scheme);
    var s, none := UrlOf(scheme, "", ""), "";
    assert s == Joined(scheme, none, none, none) && s == scheme + ([':'] + "//");
    UrlIsClean(scheme, none, none, none);
    SchemeSplits(u, scheme, "//");
    assert "//"[2..] == none;
  }

  lemma {:induction false} SchemeSplits(u: Tables, raw: string, tail: string)
    requires RawScheme(raw)
    ensures SplitClean(u, raw + ([':'] + tail)) == SplitAfterScheme(u, LowerScheme(raw), tail)
  {
    var s := raw + ([':'] + tail);
    IndexOfFirst(raw, ':', tail, {':'});
    assert s[..|raw|] == raw && s[|raw| + 1..] == tail && s[0] == raw[0];
    forall k | 0 <= k < |raw| ensures SchemeChar(s[k]) {
      assert s[k] == raw[k] && raw[k] in raw;
    }
  }

  /** A userinfo is moved out of the target, whatever it is, and nothing else of it stays. */
  lemma {:induction false} ResolveWithUserinfo(u: Tables, scheme: string, userinfo: string, host: string, path: string)
    requires Plain(scheme, userinfo + "@" + host, path) && host != "" && '@' !in host && u.port(host)
    requires var url := UrlOf(scheme, userinfo + "@" + host, path); Strip(url, u.space) == url
    ensures Resolve(u, UrlOf(scheme, userinfo + "@" + host, path)) ==
            if u.accepts(userinfo + "@" + host)
            then Some(Endpoint(UrlOf(scheme, host, path), if userinfo == "" then None else Some(u.unquote(userinfo))))
            else None
  {
    HostOfUserinfo(userinfo, host);
    SplitOfUrl(u, scheme, userinfo + "@" + host, path);
    UnsplitIsUrl(scheme, host, path);
  }

  lemma {:induction false} ExampleIsPlain()
    ensures Plain("http", "u@h", "/%40") && Plain("http", "h", "/%40")
    ensures HasAt("/%40") && "u" + "@" + "h" == "u@h"
  {
    assert "%40" <= "/%40"[1..];
  }

  lemma {:induction false} LastOf(netloc: string)
    ensures (netloc + "/%40")[|netloc + "/%40"| - 1] == '0'
  {
  }

  /** An encoded '@' in the path rides along with a literal userinfo the first time and is
      refused the second time. */
  lemma {:induction false} ResolveTwiceFails(u: Tables)
    requires PythonSpace(u) && u.port("h") && u.accepts("u@h")
    ensures Resolve(u, UrlOf("http", "u@h", "/%40")) == Some(Endpoint(UrlOf("http", "h", "/%40"), Some(u.unquote("u"))))
    ensures Resolve(u, UrlOf("http", "h", "/%40")) == None
  {
    ExampleIsPlain();
    var path, netloc, host, name := "/%40", "u@h", "h", "u";
    LastOf(netloc);
    LastOf(host);
    NoSpaceAround(u, "http", netloc, path);
    ResolveWithUserinfo(u, "http", name, host, path);
    NoSpaceAround(u, "http", host, path);
    ResolvePlain(u, "http", host, path);
  }

  // ---------------------------------------------------------------- the recorded identity

  /** `normalize_base_url`. */
  function NormalizeBaseUrl(u: Tables, url: string): string {
    DropTrailing(Strip(url, u.space))
  }

  /** `base_url_identity_digest`, with the hash as a parameter. */
  function IdentityDigest(u: Tables, digest: string -> string, text: string): Option<string> {
    var r := Resolve(u, text);
    if r.None? then None else Some(digest(NormalizeBaseUrl(u, r.value.url)))
  }

  /** Rotating, adding or removing the credential keeps the identity. */
  lemma {:induction false} IdentityIgnoresUserinfo(u: Tables, digest: string -> string, a: string, b: string)
    requires Resolve(u, a).Some? && Resolve(u, b).Some?
    requires SchemeOf(u, a) == SchemeOf(u, b) && HostOf(u, a) == HostOf(u, b) && PathOf(u, a) == PathOf(u, b)
    ensures IdentityDigest(u, digest, a) == IdentityDigest(u, digest, b)
    ensures Resolve(u, a).value.url == Resolve(u, b).value.url
  {
    ResolvedUrl(u, a);
    ResolvedUrl(u, b);
  }

  lemma {:induction false} UrlInjective(s1: string, n1: string, p1: string, s2: string, n2: string, p2: string)
    requires Plain(s1, n1, p1) && Plain(s2, n2, p2) && UrlOf(s1, n1, p1) == UrlOf(s2, n2, p2)
    ensures s1 == s2 && n1 == n2 && p1 == p2
  {
    SchemeEnds(s1, n1, p1);
    SchemeEnds(s2, n2, p2);
    HostEnds(n1, p1);
    HostEnds(n2, p2);
    assert (n1 + p1)[..|n1|] == n1 && (n1 + p1)[|n1|..] == p1;
    assert (n2 + p2)[..|n2|] == n2 && (n2 + p2)[|n2|..] == p2;
  }

  lemma {:induction false} SchemeEnds(scheme: string, netloc: string, path: string)
    requires Plain(scheme, netloc, path)
    ensures var url := UrlOf(scheme, netloc, path); var i := Index(url, {':'});
            |url| >= i + 3 && url[..i] == scheme && url[i + 3..] == netloc + path
  {
    var url, rest := UrlOf(scheme, netloc, path), "//" + (netloc + path);
    assert url == scheme + ([':'] + rest);
    IndexOfFirst(scheme, ':', rest, {':'});
    assert url[|scheme| + 1..] == rest && rest[2..] == netloc + path;
    assert url[|scheme| + 3..] == url[|scheme| + 1..][2..];
  }

  lemma {:induction false} HostEnds(netloc: string, path: string)
    requires (forall c :: c in netloc ==> c != '/' && c != '?' && c != '#') && (path != "" ==> path[0] == '/')
    ensures Index(netloc + path, {'/', '?', '#'}) == |netloc|
  {
    if path == "" {
      assert netloc + path == netloc;
      IndexOfNone(netloc, {'/', '?', '#'});
    } else {
      assert path == [path[0]] + path[1..];
      IndexOfFirst(netloc, path[0], path[1..], {'/', '?', '#'});
    }
  }

  /** Trailing slashes come off the path, never off the host. */
  lemma {:induction false} SlashesOffUrl(scheme: string, host: string, path: string)
    requires Plain(scheme, host, path)
    ensures DropTrailing(UrlOf(scheme, host, path)) == UrlOf(scheme, host, DropTrailing(path))
    ensures Plain(scheme, host, DropTrailing(path))
  {
    var front := scheme + ("://" + host);
    assert host[|host| - 1] in host && front[|front| - 1] == host[|host| - 1];
    assert UrlOf(scheme, host, path) == front + path;
    DropTrailingAfter(front, path);
    assert UrlOf(scheme, host, DropTrailing(path)) == front + DropTrailing(path);
    PrefixStaysPlain(scheme, host, path, host, DropTrailing(path));
  }

  /** The same request target, up to trailing slashes. */
  predicate SameTarget(u: Tables, a: string, b: string)
    requires Resolve(u, a).Some? && Resolve(u, b).Some?
  {
    && SchemeOf(u, a) == SchemeOf(u, b) && HostOf(u, a) == HostOf(u, b)
    && DropTrailing(PathOf(u, a)) == DropTrailing(PathOf(u, b))
  }

  predicate SameIdentity(u: Tables, digest: string -> string, a: string, b: string) {
    IdentityDigest(u, digest, a) == IdentityDigest(u, digest, b)
  }

  ghost predicate Injective(digest: string -> string) {
    forall s, t :: digest(s) == digest(t) ==> s == t
  }

  /** What the digest is taken of, for a target that does not end in white space. */
  lemma {:induction false} ResolvedNormalizes(u: Tables, a: string)
    requires Resolve(u, a).Some? && PythonSpace(u) && !Ragged(u, a)
    ensures NormalizeBaseUrl(u, Resolve(u, a).value.url) == UrlOf(SchemeOf(u, a), HostOf(u, a), DropTrailing(PathOf(u, a)))
    ensures Plain(SchemeOf(u, a), HostOf(u, a), DropTrailing(PathOf(u, a)))
  {
    ResolvedUrl(u, a);
    LastOfUrl(SchemeOf(u, a), HostOf(u, a), PathOf(u, a));
    NoSpaceAround(u, SchemeOf(u, a), HostOf(u, a), PathOf(u, a));
    SlashesOffUrl(SchemeOf(u, a), HostOf(u, a), PathOf(u, a));
  }

  /** Between targets that do not end in white space, the identity separates exactly by
      scheme, host with port, and path up to trailing slashes, as far as the hash separates
      anything. */
  lemma {:induction false} IdentitySeparates(u: Tables, digest: string -> string, a: string, b: string)
    requires Resolve(u, a).Some? && Resolve(u, b).Some? && PythonSpace(u) && Injective(digest)
    ensures !Ragged(u, a) && !Ragged(u, b) ==> (SameIdentity(u, digest, a, b) <==> SameTarget(u, a, b))
  {
    if !Ragged(u, a) && !Ragged(u, b) {
      ResolvedNormalizes(u, a);
      ResolvedNormalizes(u, b);
      var x, y := NormalizeBaseUrl(u, Resolve(u, a).value.url), NormalizeBaseUrl(u, Resolve(u, b).value.url);
      assert digest(x) == digest(y) <==> x == y;
      if x == y {
        UrlInjective(SchemeOf(u, a), HostOf(u, a), DropTrailing(PathOf(u, a)),
                     SchemeOf(u, b), HostOf(u, b), DropTrailing(PathOf(u, b)));
      }
    }
  }

  /** Identity and target agree, in both directions, between an endpoint and all of those
      exactly when its own target does not end in white space either. */
  lemma {:induction false} IdentitySeparatesIff(u: Tables, digest: string -> string, a: string)
    requires Resolve(u, a).Some? && PythonSpace(u) && Injective(digest)
    ensures (forall b :: Resolve(u, b).Some? && !Ragged(u, b) ==> (SameIdentity(u, digest, a, b) <==> SameTarget(u, a, b))) <==>
            !Ragged(u, a)
  {
    forall b | !Ragged(u, a) && Resolve(u, b).Some? && !Ragged(u, b)
      ensures SameIdentity(u, digest, a, b) <==> SameTarget(u, a, b)
    {
      IdentitySeparates(u, digest, a, b);
    }
    if Ragged(u, a) {
      var b := RaggedTwin(u, a);
      RaggedTwinDiffers(u, digest, a, b);
    }
  }

  /** What is documented of the identity of one endpoint: of the targets that do not end in
      white space, no different one compares equal. */
  ghost predicate ToldApart(u: Tables, digest: string -> string, a: string)
    requires Resolve(u, a).Some?
  {
    forall b :: Resolve(u, b).Some? && !Ragged(u, b) && SameIdentity(u, digest, a, b) ==> SameTarget(u, a, b)
  }

  /** Some authority without a hidden '@' is accepted for this host. */
  ghost predicate HostTaken(u: Tables, host: string) {
    host != "" && u.port(host) && exists netloc :: AuthorityFor(u, netloc, host)
  }

  ghost predicate AuthorityFor(u: Tables, netloc: string, host: string) {
    netloc != "" && Authority(netloc) && AfterLastAt(netloc) == host && u.accepts(netloc) && ('@' in netloc || !HasAt(netloc))
  }

  /** There is a target without the white space at the end of this one. */
  ghost predicate Trims(u: Tables, a: string)
    requires Resolve(u, a).Some?
  {
    PathOf(u, a) != "" || HostTaken(u, StripRight(HostOf(u, a), u.space))
  }

  /** It holds exactly of the endpoints whose own target does not end in white space, or
      would be no target without it; the latter can only be a host without a path. */
  lemma {:induction false} ToldApartIff(u: Tables, digest: string -> string, a: string)
    requires Resolve(u, a).Some? && PythonSpace(u) && Injective(digest)
    ensures ToldApart(u, digest, a) <==> !Ragged(u, a) || !Trims(u, a)
    ensures PathOf(u, a) != "" ==> (ToldApart(u, digest, a) <==> !Ragged(u, a))
  {
    if Ragged(u, a) && Trims(u, a) {
      var b;
      if PathOf(u, a) != "" {
        b := TrimmedPath(u, digest, a);
      } else {
        b := TrimmedHost(u, digest, a);
      }
    }
    forall b | (!Ragged(u, a) || !Trims(u, a)) && Resolve(u, b).Some? && !Ragged(u, b) && SameIdentity(u, digest, a, b)
      ensures SameTarget(u, a, b)
    {
      if Ragged(u, a) {
        SharesWithTaken(u, digest, a, b);
      } else {
        IdentitySeparates(u, digest, a, b);
      }
    }
  }

  lemma {:induction false} PrefixHasNoAt(a: string, b: string)
    requires a <= b && !HasAt(b)
    ensures !HasAt(a)
  {
    assert forall k :: 0 <= k < |a| ==> a[k] == b[k];
    forall k | 0 <= k < |a| ensures !("%40" <= a[k..]) {
      assert a[k..] <= b[k..];
    }
  }

  /** What the white space at the end of a target hides, behind something that stays. */
  lemma {:induction false} StripsBehind(u: Tables, scheme: string, netloc: string, path: string) returns (p: string)
    requires PythonSpace(u) && Plain(scheme, netloc, path) && path != ""
    ensures Strip(UrlOf(scheme, netloc, path), u.space) == UrlOf(scheme, netloc, p)
    ensures p <= path && p != "" && p[0] == '/' && !u.space(p[|p| - 1])
    ensures p == "/" + StripRight(path[1..], u.space)
  {
    HttpIsRaw(scheme);
    var front, tail := scheme + ("://" + (netloc + "/")), path[1..];
    p := "/" + StripRight(tail, u.space);
    assert path == "/" + tail;
    assert front + tail == UrlOf(scheme, netloc, path);
    assert front + StripRight(tail, u.space) == UrlOf(scheme, netloc, p);
    assert front[0] == 'h' && front[|front| - 1] == '/';
    StripAnchored(front, tail, u.space);
  }

  /** The target that is left of a ragged one with a path is another one, with its identity. */
  lemma {:induction false} TrimmedPath(u: Tables, digest: string -> string, a: string) returns (b: string)
    requires Resolve(u, a).Some? && PythonSpace(u) && Ragged(u, a) && PathOf(u, a) != ""
    ensures Resolve(u, b).Some? && !Ragged(u, b) && SameIdentity(u, digest, a, b) && !SameTarget(u, a, b)
  {
    var p := TrimmedOf(u, a);
    b := UrlOf(SchemeOf(u, a), NetlocOf(u, a), p);
    TrimmedPathResolves(u, a, SchemeOf(u, a), NetlocOf(u, a), p);
    StrippedShares(u, digest, a, b);
  }

  /** The path without the white space at its end. */
  lemma {:induction false} TrimmedOf(u: Tables, a: string) returns (p: string)
    requires Resolve(u, a).Some? && PythonSpace(u) && Ragged(u, a) && PathOf(u, a) != ""
    ensures Strip(Resolve(u, a).value.url, u.space) == UrlOf(SchemeOf(u, a), HostOf(u, a), p)
    ensures p <= PathOf(u, a) && p != "" && !u.space(p[|p| - 1]) && DropTrailing(PathOf(u, a)) != DropTrailing(p)
  {
    ResolvedUrl(u, a);
    RaggedPathEnds(u, a);
    p := TrimmedUrl(u, SchemeOf(u, a), HostOf(u, a), PathOf(u, a));
  }

  lemma {:induction false} TrimmedUrl(u: Tables, scheme: string, host: string, path: string) returns (p: string)
    requires PythonSpace(u) && Plain(scheme, host, path) && path != "" && u.space(path[|path| - 1])
    ensures Strip(UrlOf(scheme, host, path), u.space) == UrlOf(scheme, host, p)
    ensures p <= path && p != "" && !u.space(p[|p| - 1]) && DropTrailing(path) != DropTrailing(p)
  {
    p := StripsBehind(u, scheme, host, path);
    TrimmedPathDiffers(u, path, p);
  }

  lemma {:induction false} StripTwice(s: string, drop: char -> bool)
    ensures Strip(Strip(s, drop), drop) == Strip(s, drop)
  {
    StripEnds(s, drop);
    StripEnds(Strip(s, drop), drop);
  }

  /** A target that is another one stripped shares its identity. */
  lemma {:induction false} StrippedShares(u: Tables, digest: string -> string, a: string, b: string)
    requires Resolve(u, a).Some? && Resolve(u, b).Some? && Strip(Resolve(u, a).value.url, u.space) == Resolve(u, b).value.url
    ensures !Ragged(u, b) && SameIdentity(u, digest, a, b)
  {
    StripEnds(Resolve(u, a).value.url, u.space);
    StripTwice(Resolve(u, a).value.url, u.space);
  }

  lemma {:induction false} TrimmedPathDiffers(u: Tables, path: string, p: string)
    requires PythonSpace(u) && path != "" && p <= path && p != "" && !u.space(p[|p| - 1]) && u.space(path[|path| - 1])
    ensures DropTrailing(path) != DropTrailing(p)
  {
    assert |DropTrailing(p)| <= |p| < |path|;
  }

  lemma {:induction false} RaggedPathEnds(u: Tables, a: string)
    requires Resolve(u, a).Some? && Ragged(u, a) && PathOf(u, a) != ""
    ensures u.space(PathOf(u, a)[|PathOf(u, a)| - 1])
  {
    ResolvedUrl(u, a);
    LastIsPath(SchemeOf(u, a), HostOf(u, a), PathOf(u, a));
  }

  lemma {:induction false} LastIsPath(scheme: string, host: string, path: string)
    requires path != ""
    ensures var url := UrlOf(scheme, host, path); url != "" && url[|url| - 1] == path[|path| - 1]
  {
  }

  lemma {:induction false} TrimmedPathResolves(u: Tables, a: string, scheme: string, netloc: string, p: string)
    requires Resolve(u, a).Some? && PythonSpace(u) && scheme == SchemeOf(u, a) && netloc == NetlocOf(u, a)
    requires p <= PathOf(u, a) && p != "" && !u.space(p[|p| - 1])
    ensures var b := UrlOf(scheme, netloc, p);
            && Resolve(u, b).Some? && SchemeOf(u, b) == scheme && HostOf(u, b) == HostOf(u, a) && PathOf(u, b) == p
            && Resolve(u, b).value.url == UrlOf(scheme, HostOf(u, a), p)
  {
    ResolvedUrl(u, a);
    PrefixStaysPlain(scheme, netloc, PathOf(u, a), netloc, p);
    assert (netloc + p)[|netloc + p| - 1] == p[|p| - 1];
    if '@' !in netloc {
      PrefixHasNoAt(p, PathOf(u, a));
    }
    UrlResolves(u, scheme, netloc, p);
    ResolvedUrl(u, UrlOf(scheme, netloc, p));
  }

  /** A URL with an accepted authority and no hidden '@' resolves. */
  lemma {:induction false} UrlResolves(u: Tables, scheme: string, netloc: string, path: string)
    requires PythonSpace(u) && Plain(scheme, netloc, path) && !u.space((netloc + path)[|netloc + path| - 1])
    requires u.accepts(netloc) && AfterLastAt(netloc) != "" && u.port(AfterLastAt(netloc))
    requires '@' in netloc || (!HasAt(netloc) && !HasAt(path))
    ensures var b := UrlOf(scheme, netloc, path);
            Resolve(u, b).Some? && SchemeOf(u, b) == scheme && NetlocOf(u, b) == netloc && PathOf(u, b) == path
  {
    NoSpaceAround(u, scheme, netloc, path);
    SplitOfUrl(u, scheme, netloc, path);
  }

  lemma {:induction false} StripsHost(u: Tables, scheme: string, host: string)
    requires PythonSpace(u) && (scheme == "http" || scheme == "https")
    ensures Strip(UrlOf(scheme, host, ""), u.space) == UrlOf(scheme, StripRight(host, u.space), "")
  {
    HttpIsRaw(scheme);
    var front := scheme + "://";
    assert front[0] == 'h' && front[|front| - 1] == '/';
    assert forall h: string :: front + h == UrlOf(scheme, h, "");
    StripAnchored(front, host, u.space);
  }

  /** So is a host that can be taken without the white space behind it. */
  lemma {:induction false} TrimmedHost(u: Tables, digest: string -> string, a: string) returns (b: string)
    requires Resolve(u, a).Some? && PythonSpace(u) && Ragged(u, a) && PathOf(u, a) == ""
    requires HostTaken(u, StripRight(HostOf(u, a), u.space))
    ensures Resolve(u, b).Some? && !Ragged(u, b) && SameIdentity(u, digest, a, b) && !SameTarget(u, a, b)
  {
    ResolvedUrl(u, a);
    var scheme, h := SchemeOf(u, a), StripRight(HostOf(u, a), u.space);
    var netloc :| AuthorityFor(u, netloc, h);
    b := UrlOf(scheme, netloc, "");
    TakenResolves(u, scheme, netloc, h);
    TrimmedHostShares(u, digest, a, b, h);
  }

  lemma {:induction false} TrimmedHostShares(u: Tables, digest: string -> string, a: string, b: string, h: string)
    requires Resolve(u, a).Some? && PythonSpace(u) && Ragged(u, a) && PathOf(u, a) == ""
    requires Resolve(u, b).Some? && SchemeOf(u, b) == SchemeOf(u, a) && HostOf(u, b) == h && PathOf(u, b) == ""
    requires h == StripRight(HostOf(u, a), u.space) && h != ""
    ensures !Ragged(u, b) && SameIdentity(u, digest, a, b) && !SameTarget(u, a, b)
  {
    var scheme, host := SchemeOf(u, a), HostOf(u, a);
    ResolvedUrl(u, a);
    ResolvedUrl(u, b);
    assert host + "" == host;
    LastOfUrl(scheme, host, "");
    StripsHost(u, scheme, host);
    StrippedShares(u, digest, a, b);
  }

  lemma {:induction false} TakenResolves(u: Tables, scheme: string, netloc: string, h: string)
    requires PythonSpace(u) && (scheme == "http" || scheme == "https") && AuthorityFor(u, netloc, h)
    requires h != "" && u.port(h) && !u.space(h[|h| - 1])
    ensures var b := UrlOf(scheme, netloc, "");
            Resolve(u, b).Some? && SchemeOf(u, b) == scheme && NetlocOf(u, b) == netloc && PathOf(u, b) == ""
  {
    HostChars(netloc);
    assert netloc[|netloc| - 1] == h[|h| - 1] && netloc + "" == netloc;
    UrlResolves(u, scheme, netloc, "");
  }

  /** A ragged host without a path shares its identity only with itself cut short. */
  lemma {:induction false} SharesWithTaken(u: Tables, digest: string -> string, a: string, b: string)
    requires Resolve(u, a).Some? && PythonSpace(u) && Injective(digest) && PathOf(u, a) == ""
    requires Resolve(u, b).Some? && !Ragged(u, b) && SameIdentity(u, digest, a, b)
    ensures HostTaken(u, StripRight(HostOf(u, a), u.space))
  {
    ResolvedUrl(u, a);
    ResolvedUrl(u, b);
    var scheme, h := SchemeOf(u, a), StripRight(HostOf(u, a), u.space);
    StripsHost(u, scheme, HostOf(u, a));
    ResolvedNormalizes(u, b);
    assert DropTrailing(UrlOf(scheme, h, "")) == UrlOf(SchemeOf(u, b), HostOf(u, b), DropTrailing(PathOf(u, b)));
    if h == "" {
      BareScheme(scheme);
    } else {
      PrefixStaysPlain(scheme, HostOf(u, a), "", h, "");
      SlashesOffUrl(scheme, h, "");
      UrlInjective(scheme, h, "", SchemeOf(u, b), HostOf(u, b), DropTrailing(PathOf(u, b)));
      assert AuthorityFor(u, NetlocOf(u, b), h);
    }
  }

  lemma {:induction false} BareScheme(scheme: string)
    requires scheme == "http" || scheme == "https"
    ensures |DropTrailing(UrlOf(scheme, "", ""))| < 7
  {
    var front := scheme + ":";
    assert UrlOf(scheme, "", "") == front + "//";
    DropTrailingAfter(front, "//");
    assert "//"[..1] == "/" && "/"[..0] == "";
  }

  /** The same target with one more slash at its end: no white space ends it. */
  lemma {:induction false} RaggedTwin(u: Tables, a: string) returns (b: string)
    requires Resolve(u, a).Some? && PythonSpace(u)
    ensures Resolve(u, b).Some? && !Ragged(u, b)
    ensures SchemeOf(u, b) == SchemeOf(u, a) && HostOf(u, b) == HostOf(u, a) && PathOf(u, b) == PathOf(u, a) + "/"
  {
    ResolvedUrl(u, a);
    b := UrlOf(SchemeOf(u, a), NetlocOf(u, a), PathOf(u, a) + "/");
    TwinResolves(u, a, SchemeOf(u, a), NetlocOf(u, a), PathOf(u, a) + "/");
    ResolvedUrl(u, b);
    SlashEnds(SchemeOf(u, b), HostOf(u, b), PathOf(u, b));
  }

  lemma {:induction false} TwinResolves(u: Tables, a: string, scheme: string, netloc: string, path: string)
    requires Resolve(u, a).Some? && PythonSpace(u) && Plain(scheme, netloc, path) && u.accepts(netloc)
    requires scheme == SchemeOf(u, a) && netloc == NetlocOf(u, a) && path == PathOf(u, a) + "/"
    ensures var b := UrlOf(scheme, netloc, path);
            Resolve(u, b).Some? && SchemeOf(u, b) == scheme && NetlocOf(u, b) == netloc && PathOf(u, b) == path
  {
    SlashEnds(scheme, netloc, path);
    OneMoreIsNoAt(PathOf(u, a), '/');
    UrlResolves(u, scheme, netloc, path);
  }

  lemma {:induction false} SlashEnds(scheme: string, netloc: string, path: string)
    requires path != "" && path[|path| - 1] == '/'
    ensures (netloc + path)[|netloc + path| - 1] == '/'
    ensures var url := UrlOf(scheme, netloc, path); url != "" && url[|url| - 1] == '/'
  {
  }

  lemma {:induction false} OneMoreIsNoAt(s: string, c: char)
    requires c != '@' && c != '%' && c != '4' && c != '0'
    ensures HasAt(s + [c]) == HasAt(s)
  {
    var longer := s + [c];
    forall k | 0 <= k < |longer| && "%40" <= longer[k..] ensures k < |s| && "%40" <= s[k..] {
      assert longer[k..][0] == longer[k] && longer[k..][2] == longer[k + 2];
      assert longer[k..] == s[k..] + [c];
    }
    forall k | 0 <= k < |s| && "%40" <= s[k..] ensures "%40" <= longer[k..] {
      assert longer[k..] == s[k..] + [c];
    }
  }

  lemma {:induction false} RaggedTwinDiffers(u: Tables, digest: string -> string, a: string, b: string)
    requires Resolve(u, a).Some? && PythonSpace(u) && Injective(digest) && Ragged(u, a)
    requires Resolve(u, b).Some? && !Ragged(u, b)
    requires SchemeOf(u, b) == SchemeOf(u, a) && HostOf(u, b) == HostOf(u, a) && PathOf(u, b) == PathOf(u, a) + "/"
    ensures SameTarget(u, a, b) && !SameIdentity(u, digest, a, b)
  {
    var path, url := PathOf(u, a), Resolve(u, a).value.url;
    ResolvedUrl(u, a);
    RaggedPath(u, SchemeOf(u, a), HostOf(u, a), path);
    ResolvedNormalizes(u, b);
    RaggedIsCut(u, url);
    assert digest(NormalizeBaseUrl(u, url)) != digest(url);
  }

  lemma {:induction false} RaggedPath(u: Tables, scheme: string, host: string, path: string)
    requires PythonSpace(u) && Plain(scheme, host, path)
    requires var url := UrlOf(scheme, host, path); u.space(url[|url| - 1])
    ensures DropTrailing(path) == path == DropTrailing(path + "/")
  {
    LastOfUrl(scheme, host, path);
    assert path != "" ==> path[|path| - 1] == (host + path)[|host + path| - 1];
    assert (path + "/")[..|path|] == path;
  }

  lemma {:induction false} RaggedIsCut(u: Tables, url: string)
    requires url != "" && u.space(url[|url| - 1])
    ensures NormalizeBaseUrl(u, url) != url
  {
    StripEnds(url, u.space);
    assert |NormalizeBaseUrl(u, url)| <= |Strip(url, u.space)|;
  }

  /** A target that ends in a space has the identity of the target without it. */
  lemma {:induction false} SpaceSharesIdentity(u: Tables, digest: string -> string, scheme: string, host: string, path: string)
    requires PythonSpace(u) && Plain(scheme, host, path) && u.accepts(host) && u.port(host)
    requires path != "" && path[|path| - 1] != '/' && !u.space(path[|path| - 1])
    requires '@' !in host && !HasAt(host) && !HasAt(path)
    ensures var spaced, url := Joined(scheme, host, path + " ", "?"), UrlOf(scheme, host, path);
            && Resolve(u, spaced) == Some(Endpoint(UrlOf(scheme, host, path + " "), None))
            && Resolve(u, url) == Some(Endpoint(url, None))
            && SameIdentity(u, digest, spaced, url) && !SameTarget(u, spaced, url)
  {
    var spaced, url := Joined(scheme, host, path + " ", "?"), UrlOf(scheme, host, path);
    SpacedResolves(u, scheme, host, path);
    UnspacedResolves(u, scheme, host, path);
    SpaceIsStripped(u, scheme, host, path);
  }

  /** A space before an empty query is neither stripped nor refused. */
  lemma {:induction false} SpacedSplits(u: Tables, scheme: string, netloc: string, path: string)
    requires PythonSpace(u) && Plain(scheme, netloc, path) && path != "" && u.accepts(netloc)
    ensures var spaced := Joined(scheme, netloc, path + " ", "?");
            && Strip(spaced, u.space) == spaced
            && SplitUrl(u, spaced) == Some(Parts(scheme, netloc, path + " ", "", ""))
  {
    var spaced, longer := Joined(scheme, netloc, path + " ", "?"), path + " ";
    HttpIsRaw(scheme);
    assert Path(longer);
    assert spaced[0] == 'h' && spaced[|spaced| - 1] == '?';
    StripEnds(spaced, u.space);
    UrlIsClean(scheme, netloc, longer, "?");
    SplitJoined(u, scheme, netloc, longer, "?");
    assert QueryOf("?") == "" && AfterMark("?", '#') == "";
  }

  lemma {:induction false} SpacedResolves(u: Tables, scheme: string, host: string, path: string)
    requires PythonSpace(u) && Plain(scheme, host, path) && path != "" && u.accepts(host) && u.port(host)
    requires '@' !in host && !HasAt(host) && !HasAt(path)
    ensures var spaced := Joined(scheme, host, path + " ", "?");
            && Resolve(u, spaced) == Some(Endpoint(UrlOf(scheme, host, path + " "), None))
            && PathOf(u, spaced) == path + " "
  {
    SpacedSplits(u, scheme, host, path);
    OneMoreIsNoAt(path, ' ');
    UnsplitIsUrl(scheme, host, path + " ");
  }

  lemma {:induction false} UnspacedResolves(u: Tables, scheme: string, host: string, path: string)
    requires PythonSpace(u) && Plain(scheme, host, path) && u.accepts(host) && u.port(host)
    requires path != "" && !u.space(path[|path| - 1])
    requires '@' !in host && !HasAt(host) && !HasAt(path)
    ensures var url := UrlOf(scheme, host, path);
            Resolve(u, url) == Some(Endpoint(url, None)) && PathOf(u, url) == path
  {
    assert (host + path)[|host + path| - 1] == path[|path| - 1];
    NoSpaceAround(u, scheme, host, path);
    SplitOfUrl(u, scheme, host, path);
    ResolvePlain(u, scheme, host, path);
  }

  lemma {:induction false} SpaceIsStripped(u: Tables, scheme: string, host: string, path: string)
    requires PythonSpace(u) && Plain(scheme, host, path)
    requires path != "" && path[|path| - 1] != '/' && !u.space(path[|path| - 1])
    ensures NormalizeBaseUrl(u, UrlOf(scheme, host, path + " ")) == UrlOf(scheme, host, path)
    ensures NormalizeBaseUrl(u, UrlOf(scheme, host, path)) == UrlOf(scheme, host, path)
    ensures DropTrailing(path + " ") != DropTrailing(path)
  {
    var url := UrlOf(scheme, host, path);
    HttpIsRaw(scheme);
    assert url[0] == 'h' && url[|url| - 1] == path[|path| - 1];
    assert url + " " == UrlOf(scheme, host, path + " ");
    StripAnchored(url, " ", u.space);
    StripAnchored(url, "", u.space);
    assert url + "" == url;
  }

  // ---------------------------------------------------------------- redaction

  const MARKER: string := "***"

  /** `text.count("://") > 1`. */
  ghost predicate ManyUrls(text: string) {
    exists i, j :: 0 <= i < j < |text| && "://" <= text[i..] && "://" <= text[j..]
  }

  /** The host behind the marker that stands for a userinfo. */
  function Marked(host: string): string {
    MARKER + "@" + host
  }

  /** The scheme-less form `user:pass@host/path`, which splits as a bogus scheme. */
  function RedactSchemeless(text: string, rest: string): string {
    var n := Index(rest, {'/'});
    var head, tail := rest[..n], rest[n..];
    if '@' in head then
      var host := AfterLastAt(head);
      if host != "" then Marked(host) + tail else MARKER + tail
    else if '@' in rest then MARKER else text
  }

  /** `redact_url_userinfo`. */
  ghost function Redact(u: Tables, text: string): string {
    var split := SplitUrl(u, text);
    if ManyUrls(text) || split.None? then MARKER
    else
      var p := split.value;
      if '@' !in p.netloc && HasAt(p.netloc) then MARKER
      else if p.scheme == "" && p.netloc == "" then (if HasAt(text) then MARKER else text)
      else if '@' !in p.netloc then
        if p.scheme != "" && p.netloc == "" then RedactSchemeless(text, DropSlashes(text[Min(|p.scheme| + 1, |text|)..]))
        else if HasAt(text) then MARKER else text
      else Unsplit(p.(netloc := if AfterLastAt(p.netloc) != "" then Marked(AfterLastAt(p.netloc)) else MARKER))
  }

  function Min(a: nat, b: nat): nat {
    if a <= b then a else b
  }

  /** What the userinfo was cannot be told from the redacted form: two texts that differ in
      it only redact to the same text, unless one of them is all marker. */
  lemma {:induction false} RedactionForgetsUserinfo(u: Tables, raw: string, a: string, b: string, host: string, path: string,
                                                    rest: string)
    requires RawScheme(raw) && '@' !in host && Path(path) && Rest(rest) && Clean(rest)
    requires Authority(a + "@" + host) && Authority(b + "@" + host)
    ensures var x, y := Redact(u, Joined(raw, a + "@" + host, path, rest)), Redact(u, Joined(raw, b + "@" + host, path, rest));
            x == MARKER || y == MARKER || x == y
  {
    RedactedUserinfo(u, raw, a, host, path, rest);
    RedactedUserinfo(u, raw, b, host, path, rest);
  }

  lemma {:induction false} RedactedUserinfo(u: Tables, raw: string, userinfo: string, host: string, path: string, rest: string)
    requires RawScheme(raw) && '@' !in host && Path(path) && Rest(rest) && Clean(rest) && Authority(userinfo + "@" + host)
    ensures var r := Redact(u, Joined(raw, userinfo + "@" + host, path, rest));
            || r == MARKER
            || r == Unsplit(Parts(LowerScheme(raw), if host != "" then Marked(host) else MARKER, path,
                                  QueryOf(rest), AfterMark(rest, '#')))
  {
    HostOfUserinfo(userinfo, host);
    UrlIsClean(raw, userinfo + "@" + host, path, rest);
    SplitJoined(u, raw, userinfo + "@" + host, path, rest);
  }

  // ---------------------------------------------------------------- resolving what was redacted

  lemma {:induction false} ControlsAround(before: string, s: string, after: string)
    requires (forall c :: c in before ==> c <= ' ') && DropControls(s) != ""
    ensures DropControls(before + s + after) == DropControls(s) + after
    decreases |before| + |s|
  {
    var all := before + s + after;
    if before != "" {
      assert all[0] == before[0] && all[1..] == before[1..] + s + after;
      assert before[0] in before && forall c :: c in before[1..] ==> c in before;
      ControlsAround(before[1..], s, after);
    } else if s[0] <= ' ' {
      assert all[0] == s[0] && all[1..] == "" + s[1..] + after;
      ControlsAround("", s[1..], after);
    } else {
      assert all == s + after && all[0] == s[0];
    }
  }

  /** White space that `strip` takes and `urlsplit` does not hides the scheme. */
  lemma {:induction false} ForeignSpace(u: Tables, before: string, s: string)
    requires PythonSpace(u) && (forall c :: c in before ==> u.space(c)) && !forall c :: c in before ==> c <= ' '
    ensures SplitUrl(u, before + s).Some?
    ensures SplitUrl(u, before + s).value.scheme == "" && SplitUrl(u, before + s).value.netloc == ""
  {
    var all := before + s;
    assert all[0] == before[0] && all[1..] == before[1..] + s;
    if before[0] <= ' ' {
      assert before == [before[0]] + before[1..];
      ForeignSpace(u, before[1..], s);
    } else {
      assert before[0] in before && Cleanse(all)[0] == before[0];
      ForeignStart(u, Cleanse(all));
    }
  }

  lemma {:induction false} ForeignStart(u: Tables, s: string)
    requires s != "" && s[0] > '~'
    ensures SplitClean(u, s) == Some(SplitTail("", "", s))
  {
    assert !HasScheme(s) && !("//" <= s);
  }

  lemma {:induction false} ControlsInside(s: string)
    ensures forall c :: c in DropControls(s) ==> c in s
    ensures s != "" && DropControls(s) != "" ==> DropControls(s)[|DropControls(s)| - 1] == s[|s| - 1]
  {
    if s != "" && s[0] <= ' ' {
      ControlsInside(s[1..]);
    }
  }

  /** The authority of a split holds only characters of the text. */
  lemma {:induction false} AuthorityInside(u: Tables, text: string)
    requires SplitUrl(u, text).Some?
    ensures forall c :: c in SplitUrl(u, text).value.netloc ==> c in text
  {
    ControlsInside(text);
    var s := Cleanse(text);
    var i := Index(s, {':'});
    if HasScheme(s) {
      AuthorityAfterScheme(u, LowerScheme(s[..i]), s[i + 1..]);
      assert forall c :: c in s[i + 1..] ==> c in s;
    } else {
      AuthorityAfterScheme(u, "", s);
    }
  }

  lemma {:induction false} AuthorityAfterScheme(u: Tables, scheme: string, rest: string)
    requires SplitAfterScheme(u, scheme, rest).Some?
    ensures forall c :: c in SplitAfterScheme(u, scheme, rest).value.netloc ==> c in rest
  {
    if "//" <= rest {
      assert forall c :: c in rest[2..] ==> c in rest;
    }
  }

  /** The text around what is resolved: on the left nothing that counts, on the right a gap
      of white space. */
  lemma {:induction false} SurroundedText(u: Tables, text: string) returns (gap: string)
    requires PythonSpace(u) && Resolve(u, text).Some? && '@' in NetlocOf(u, text) && Redact(u, text) != MARKER
    ensures Cleanse(text) == Cleanse(Strip(text, u.space)) + gap
    ensures Clean(gap) && forall c :: c in gap ==> u.space(c)
  {
    var before, after := StripLeaves(text, u.space);
    var s := Strip(text, u.space);
    AtInside(u, text, before, s, after);
    OnlyControlsBefore(u, text, before, s + after);
    ControlsAround(before, s, after);
    DropUnsafeAppend(DropControls(s), after);
    gap := DropUnsafe(after);
  }

  lemma {:induction false} OnlyControlsBefore(u: Tables, text: string, before: string, s: string)
    requires PythonSpace(u) && '@' in text && Redact(u, text) != MARKER
    requires text == before + s && forall c :: c in before ==> u.space(c)
    ensures forall c :: c in before ==> c <= ' '
  {
    if !forall c :: c in before ==> c <= ' ' {
      ForeignSpace(u, before, s);
      assert false;
    }
  }

  lemma {:induction false} AtInside(u: Tables, text: string, before: string, s: string, after: string)
    requires Resolve(u, text).Some? && '@' in NetlocOf(u, text) && s == Strip(text, u.space) && text == before + s + after
    ensures '@' in text && DropControls(s) != "" && text == before + (s + after)
  {
    AuthorityInside(u, s);
    Middle(before, s, after, '@');
    if DropControls(s) == "" {
      NoAuthorityInNothing(u);
    }
  }

  lemma {:induction false} Middle(before: string, s: string, after: string, c: char)
    requires c in s
    ensures before + s + after == before + (s + after) && c in before + s + after
  {
    assert c in before + s;
  }

  lemma {:induction false} NoAuthorityInNothing(u: Tables)
    ensures SplitClean(u, "") == Some(SplitTail("", "", ""))
  {
  }

  /** An empty query and an empty fragment leave at most their marks. */
  lemma {:induction false} EmptyRest(rest: string)
    requires Rest(rest) && QueryOf(rest) == "" && AfterMark(rest, '#') == ""
    ensures rest == "" || rest == "?" || rest == "#" || rest == "?#"
  {
    var f := Index(rest, {'#'});
    var head := BeforeMark(rest, '#');
    assert head != "" ==> head[0] == rest[0];
    assert head == "" || head == "?";
    assert rest == head + rest[f..];
    assert f < |rest| ==> rest[f..] == "#";
  }

  lemma {:induction false} UnsafeEnds(s: string)
    requires s != "" && s[|s| - 1] !in UNSAFE
    ensures DropUnsafe(s) != "" && DropUnsafe(s)[|DropUnsafe(s)| - 1] == s[|s| - 1]
  {
    if |s| > 1 {
      assert s[1..][|s[1..]| - 1] == s[|s| - 1];
      UnsafeEnds(s[1..]);
    }
  }

  /** What is split from a resolvable text does not end in white space. */
  lemma {:induction false} CleanEnds(u: Tables, s: string)
    requires PythonSpace(u) && Strip(s, u.space) == s && Cleanse(s) != ""
    ensures !u.space(Cleanse(s)[|Cleanse(s)| - 1])
  {
    assert DropUnsafe("") == "";
    StripEnds(s, u.space);
    ControlsInside(s);
    UnsafeEnds(DropControls(s));
  }

  /** Some query or fragment is left when the text is split with the white space around it. */
  predicate RawTail(u: Tables, text: string) {
    SplitUrl(u, text).Some? && (SplitUrl(u, text).value.query != "" || SplitUrl(u, text).value.fragment != "")
  }

  lemma {:induction false} AfterLastAtGap(netloc: string, gap: string)
    requires '@' in netloc && '@' !in gap
    ensures AfterLastAt(netloc + gap) == AfterLastAt(netloc) + gap
  {
    HostChars(netloc);
    var before, host := BeforeLastAt(netloc), AfterLastAt(netloc);
    assert netloc + gap == before + "@" + (host + gap);
    HostOfUserinfo(before, host + gap);
  }

  lemma {:induction false} GapChars(u: Tables, gap: string)
    requires PythonSpace(u) && Clean(gap) && forall c :: c in gap ==> u.space(c)
    ensures forall c :: c in gap ==> c != '/' && c != '?' && c != '#' && c != '@'
  {
  }

  /** The redacted form of a text whose authority holds a literal '@'. */
  lemma {:induction false} RedactSplit(u: Tables, text: string, p: Parts)
    requires SplitUrl(u, text) == Some(p) && '@' in p.netloc && AfterLastAt(p.netloc) != "" && Redact(u, text) != MARKER
    ensures Redact(u, text) == Unsplit(p.(netloc := Marked(AfterLastAt(p.netloc))))
  {
  }

  lemma {:induction false} GapAfterHost(u: Tables, text: string, raw: string, netloc: string, gap: string)
    requires Cleanse(text) == Joined(raw, netloc, "", "") + gap && Redact(u, text) != MARKER
    requires RawScheme(raw) && Authority(netloc + gap) && '@' in netloc && '@' !in gap && AfterLastAt(netloc) != ""
    ensures Redact(u, text) == UrlOf(LowerScheme(raw), Marked(AfterLastAt(netloc) + gap), "") && !RawTail(u, text)
  {
    JoinedGap(raw, netloc, "", "", gap);
    SplitJoined(u, raw, netloc + gap, "", "");
    AfterLastAtGap(netloc, gap);
    RedactSplit(u, text, Parts(LowerScheme(raw), netloc + gap, "", "", ""));
    UnsplitIsUrl(LowerScheme(raw), Marked(AfterLastAt(netloc) + gap), "");
  }

  lemma {:induction false} GapAfterPath(u: Tables, text: string, raw: string, netloc: string, path: string, gap: string)
    requires Cleanse(text) == Joined(raw, netloc, path, "") + gap && Redact(u, text) != MARKER
    requires RawScheme(raw) && Authority(netloc) && '@' in netloc && Path(path + gap) && AfterLastAt(netloc) != ""
    ensures Redact(u, text) == UrlOf(LowerScheme(raw), Marked(AfterLastAt(netloc)), path + gap) && !RawTail(u, text)
  {
    JoinedGap(raw, netloc, path, "", gap);
    SplitJoined(u, raw, netloc, path + gap, "");
    RedactSplit(u, text, Parts(LowerScheme(raw), netloc, path + gap, "", ""));
    UnsplitIsUrl(LowerScheme(raw), Marked(AfterLastAt(netloc)), path + gap);
  }

  lemma {:induction false} JoinedGap(raw: string, netloc: string, path: string, rest: string, gap: string)
    ensures Joined(raw, netloc, path, rest) + gap == Joined(raw, netloc, path, rest + gap)
    ensures rest == "" ==> Joined(raw, netloc, path, rest) + gap == Joined(raw, netloc, path + gap, "")
    ensures rest == "" && path == "" ==> Joined(raw, netloc, path, rest) + gap == Joined(raw, netloc + gap, "", "")
  {
  }

  lemma {:induction false} UrlGap(scheme: string, host: string, path: string, gap: string)
    ensures UrlOf(scheme, Marked(host), path + gap) == UrlOf(scheme, Marked(host), path) + gap
    ensures path == "" ==> UrlOf(scheme, Marked(host + gap), path) == UrlOf(scheme, Marked(host), path) + gap
  {
  }

  /** The redacted text, when nothing but a gap of white space follows the target. */
  lemma {:induction false} RedactedWithGap(u: Tables, text: string, raw: string, netloc: string, path: string, gap: string)
    requires Cleanse(text) == Joined(raw, netloc, path, "") + gap && Redact(u, text) != MARKER
    requires RawScheme(raw) && Authority(netloc) && Path(path) && '@' in netloc && AfterLastAt(netloc) != ""
    requires PythonSpace(u) && Clean(gap) && forall c :: c in gap ==> u.space(c)
    ensures Redact(u, text) == UrlOf(LowerScheme(raw), Marked(AfterLastAt(netloc)), path) + gap && !RawTail(u, text)
  {
    GapChars(u, gap);
    UrlGap(LowerScheme(raw), AfterLastAt(netloc), path, gap);
    if path == "" {
      GapAfterHost(u, text, raw, netloc, gap);
    } else {
      GapAfterPath(u, text, raw, netloc, path, gap);
    }
  }

  /** The redacted text, when an empty query or fragment stands between the two. */
  lemma {:induction false} RedactedWithMark(u: Tables, text: string, raw: string, netloc: string, path: string, rest: string,
                                            gap: string) returns (mark: string)
    requires Cleanse(text) == Joined(raw, netloc, path, rest) + gap && Redact(u, text) != MARKER
    requires RawScheme(raw) && Authority(netloc) && Path(path) && '@' in netloc && AfterLastAt(netloc) != ""
    requires rest == "?" || rest == "#" || rest == "?#"
    requires PythonSpace(u) && Clean(gap) && forall c :: c in gap ==> u.space(c)
    ensures Redact(u, text) ==
            UrlOf(LowerScheme(raw), Marked(AfterLastAt(netloc)), path) + (if gap == "" then "" else mark + gap)
    ensures (mark == "?" || mark == "#") && (RawTail(u, text) <==> gap != "")
  {
    var scheme := LowerScheme(raw);
    GapChars(u, gap);
    mark := if rest == "?" then "?" else "#";
    JoinedGap(raw, netloc, path, rest, gap);
    RestWithGap(rest, gap);
    SplitJoined(u, raw, netloc, path, rest + gap);
    MarksOfRest(rest, gap);
    RedactSplit(u, text, if mark == "?" then Parts(scheme, netloc, path, gap, "") else Parts(scheme, netloc, path, "", gap));
    UnsplitWithTail(scheme, Marked(AfterLastAt(netloc)), path, mark, gap);
  }

  lemma {:induction false} RestWithGap(rest: string, gap: string)
    requires rest == "?" || rest == "#" || rest == "?#"
    ensures Rest(rest + gap)
  {
  }

  lemma {:induction false} MarksOfRest(rest: string, gap: string)
    requires (rest == "?" || rest == "#" || rest == "?#") && '#' !in gap && '?' !in gap
    ensures QueryOf(rest + gap) == if rest == "?" then gap else ""
    ensures AfterMark(rest + gap, '#') == if rest == "?" then "" else gap
  {
    var all := rest + gap;
    if rest == "?" {
      IndexOfNone(all, {'#'});
      assert all[..|all|] == all && all[1..] == gap;
    } else if rest == "#" {
      assert all[..0] == "" && all[1..] == gap;
    } else {
      assert all[1] == '#' && all[..1] == "?" && all[2..] == gap;
      assert Index(all, {'#'}) == 1 + Index(all[1..], {'#'});
    }
  }

  lemma {:induction false} UnsplitWithTail(scheme: string, netloc: string, path: string, mark: string, gap: string)
    requires scheme != "" && (path != "" ==> path[0] == '/') && (mark == "?" || mark == "#")
    ensures Unsplit(if mark == "?" then Parts(scheme, netloc, path, gap, "") else Parts(scheme, netloc, path, "", gap)) ==
            UrlOf(scheme, netloc, path) + (if gap == "" then "" else mark + gap)
  {
    UnsplitIsUrl(scheme, netloc, path);
    var url := UrlOf(scheme, netloc, path);
    assert url + "" == url;
    assert url + (mark + gap) == url + mark + gap;
  }

  /** The redacted form of a resolvable text with a userinfo: the target with the marker in
      its authority, and behind it at most a mark and white space. */
  lemma {:induction false} RedactedForm(u: Tables, text: string) returns (mark: string, gap: string)
    requires PythonSpace(u) && Resolve(u, text).Some? && '@' in NetlocOf(u, text) && Redact(u, text) != MARKER
    ensures Redact(u, text) == UrlOf(SchemeOf(u, text), Marked(HostOf(u, text)), PathOf(u, text)) + (mark + gap)
    ensures (mark == "" || mark == "?" || mark == "#") && (mark != "" <==> RawTail(u, text))
    ensures (forall c :: c in gap ==> u.space(c)) && (mark == "" && Ragged(u, text) ==> gap == "")
  {
    var s := Strip(text, u.space);
    var x := Cleanse(s);
    gap := SurroundedText(u, text);
    var raw, rest := Pieces(u, x);
    EmptyRest(rest);
    ResolvedUrl(u, text);
    if rest == "" {
      mark := "";
      RedactedWithGap(u, text, raw, NetlocOf(u, text), PathOf(u, text), gap);
      NotRagged(u, text, raw);
    } else {
      mark := RedactedWithMark(u, text, raw, NetlocOf(u, text), PathOf(u, text), rest, gap);
      mark := if gap == "" then "" else mark;
    }
    assert mark + gap == gap || gap != "";
  }

  lemma {:induction false} NotRagged(u: Tables, text: string, raw: string)
    requires PythonSpace(u) && Resolve(u, text).Some?
    requires Cleanse(Strip(text, u.space)) == Joined(raw, NetlocOf(u, text), PathOf(u, text), "")
    ensures !Ragged(u, text)
  {
    var netloc, host, path := NetlocOf(u, text), HostOf(u, text), PathOf(u, text);
    ResolvedUrl(u, text);
    StripTwice(text, u.space);
    CleanEnds(u, Strip(text, u.space));
    LastOfUrl(SchemeOf(u, text), host, path);
    HostChars(netloc);
    assert path + "" == path;
    var all := Joined(raw, netloc, path, "");
    assert all[|all| - 1] == (netloc + path)[|netloc + path| - 1];
    assert netloc[|netloc| - 1] == host[|host| - 1];
  }

  lemma {:induction false} SplitMarked(u: Tables, scheme: string, host: string, path: string, mark: string)
    requires Plain(scheme, host, path) && (mark == "" || mark == "?" || mark == "#")
    ensures SplitUrl(u, UrlOf(scheme, Marked(host), path) + mark) ==
            if u.accepts(Marked(host)) then Some(Parts(scheme, Marked(host), path, "", "")) else None
  {
    HttpIsRaw(scheme);
    var url := UrlOf(scheme, Marked(host), path);
    assert path + "" == path && url == Joined(scheme, Marked(host), path, "");
    JoinedGap(scheme, Marked(host), path, "", mark);
    assert "" + mark == mark;
    UrlIsClean(scheme, Marked(host), path, mark);
    SplitJoined(u, scheme, Marked(host), path, mark);
    MarkIsEmpty(mark);
  }

  lemma {:induction false} MarkIsEmpty(mark: string)
    requires mark == "" || mark == "?" || mark == "#"
    ensures QueryOf(mark) == "" && AfterMark(mark, '#') == ""
  {
  }

  /** What the marked target resolves to, with an empty query or fragment or none. */
  lemma {:induction false} ResolveMarked(u: Tables, text: string, scheme: string, host: string, path: string, mark: string)
    requires Plain(scheme, host, path) && '@' !in host && u.port(host) && (mark == "" || mark == "?" || mark == "#")
    requires Strip(text, u.space) == UrlOf(scheme, Marked(host), path) + mark
    ensures Resolve(u, text) == if u.accepts(Marked(host))
                                then Some(Endpoint(UrlOf(scheme, host, path), Some(u.unquote(MARKER)))) else None
  {
    SplitMarked(u, scheme, host, path, mark);
    HostOfUserinfo(MARKER, host);
    UnsplitIsUrl(scheme, host, path);
  }

  lemma {:induction false} StripRightAnchored(a: string, b: string, drop: char -> bool)
    requires a != "" && !drop(a[|a| - 1])
    ensures StripRight(a + b, drop) == a + StripRight(b, drop)
    decreases |b|
  {
    if b == "" {
      assert a + b == a;
    } else if drop(b[|b| - 1]) {
      assert (a + b)[..|a + b| - 1] == a + b[..|b| - 1];
      StripRightAnchored(a, b[..|b| - 1], drop);
    }
  }

  /** Without a mark, the white space at the end of the target is stripped from it. */
  lemma {:induction false} MarkedRagged(u: Tables, scheme: string, host: string, path: string)
    requires PythonSpace(u) && Plain(scheme, host, path) && '@' !in host
    requires u.space((host + path)[|host + path| - 1])
    ensures var r := Resolve(u, UrlOf(scheme, Marked(host), path)); r.Some? ==> r.value.url != UrlOf(scheme, host, path)
  {
    assert Authority(Marked(host));
    var front := MARKER + "@";
    var n, p := StripUrl(u, scheme, Marked(host), path);
    assert Marked(host) + path == front + (host + path);
    StripRightAnchored(front, host + path, u.space);
    var h := MarkedPrefix(host, path, n, p, StripRight(host + path, u.space));
    MarkedResolvesShort(u, UrlOf(scheme, Marked(host), path), scheme, host, path, h, p);
  }

  lemma {:induction false} MarkedPrefix(host: string, path: string, n: string, p: string, kept: string) returns (h: string)
    requires n <= Marked(host) && (p != "" ==> n == Marked(host)) && n + p == MARKER + "@" + kept
    requires |kept| < |host| + |path|
    ensures n == Marked(h) && h <= host && |h| + |p| < |host| + |path|
  {
    var front := MARKER + "@";
    assert |n| >= |front| && n == Marked(host)[..|n|];
    assert Marked(host)[..|front|] == front;
    h := n[|front|..];
    assert n == front + h;
  }

  lemma {:induction false} MarkedResolvesShort(u: Tables, text: string, scheme: string, host: string, path: string,
                                               h: string, p: string)
    requires Strip(text, u.space) == UrlOf(scheme, Marked(h), p) && Plain(scheme, host, path) && '@' !in host
    requires h <= host && p <= path && |h| + |p| < |host| + |path|
    ensures Resolve(u, text).Some? ==> Resolve(u, text).value.url != UrlOf(scheme, host, path)
  {
    PrefixWithoutAt(h, host);
    HostOfUserinfo(MARKER, h);
    assert forall c :: c in h ==> c in host;
    assert forall c :: c in p ==> c in path;
    assert Plain(scheme, Marked(h), p);
    SplitOfUrl(u, scheme, Marked(h), p);
    UnsplitIsUrl(scheme, h, p);
  }

  /** Redacting keeps the target: what a text with a userinfo redacts to, when it is not all
      marker, resolves to the same target as the text itself, with the marker for a
      credential, exactly when the authority with the marker in it is accepted and no white
      space ends the target, or a query or fragment stands behind it. */
  lemma {:induction false} RedactedResolvesTheSame(u: Tables, text: string)
    requires PythonSpace(u) && Resolve(u, text).Some? && '@' in NetlocOf(u, text) && Redact(u, text) != MARKER
    ensures var r := Resolve(u, Redact(u, text));
            && ((r.Some? && r.value.url == Resolve(u, text).value.url) <==>
                (u.accepts(Marked(HostOf(u, text))) && (!Ragged(u, text) || RawTail(u, text))))
            && (r.Some? && r.value.url == Resolve(u, text).value.url ==> r.value.credential == Some(u.unquote(MARKER)))
  {
    var scheme, host, path := SchemeOf(u, text), HostOf(u, text), PathOf(u, text);
    var mark, gap := RedactedForm(u, text);
    ResolvedUrl(u, text);
    LastOfUrl(scheme, host, path);
    if Ragged(u, text) && !RawTail(u, text) {
      assert UrlOf(scheme, Marked(host), path) + (mark + gap) == UrlOf(scheme, Marked(host), path);
      MarkedRagged(u, scheme, host, path);
    } else {
      RedactedStrips(u, scheme, host, path, mark, gap);
      ResolveMarked(u, Redact(u, text), scheme, host, path, mark);
    }
  }

  lemma {:induction false} RedactedStrips(u: Tables, scheme: string, host: string, path: string, mark: string, gap: string)
    requires PythonSpace(u) && Plain(scheme, host, path) && (forall c :: c in gap ==> u.space(c))
    requires mark == "?" || mark == "#" || (mark == "" && !u.space((host + path)[|host + path| - 1]))
    ensures Strip(UrlOf(scheme, Marked(host), path) + (mark + gap), u.space) == UrlOf(scheme, Marked(host), path) + mark
  {
    HttpIsRaw(scheme);
    var front := UrlOf(scheme, Marked(host), path) + mark;
    assert front[0] == 'h';
    assert UrlOf(scheme, Marked(host), path) == (scheme + "://" + MARKER + "@") + (host + path);
    assert mark == "" ==> front[|front| - 1] == (host + path)[|host + path| - 1];
    StripAnchored(front, gap, u.space);
    assert front + gap == UrlOf(scheme, Marked(host), path) + (mark + gap);
  }

  /** A target that ends in a space, with a userinfo, is redacted to a text that resolves to
      the target without the space, if at all. */
  lemma {:induction false} SpaceRedactsElsewhere(u: Tables, scheme: string, userinfo: string, host: string, path: string)
    requires PythonSpace(u) && Plain(scheme, userinfo + "@" + host, path) && host != "" && '@' !in host
    requires u.accepts(userinfo + "@" + host) && u.port(host) && path != "" && !u.space(path[|path| - 1])
    requires !ManyUrls(Joined(scheme, userinfo + "@" + host, path + " ", "?"))
    ensures var text := Joined(scheme, userinfo + "@" + host, path + " ", "?");
            && Resolve(u, text).Some? && Resolve(u, text).value.url == UrlOf(scheme, host, path + " ")
            && Redact(u, text) == UrlOf(scheme, Marked(host), path + " ") && Redact(u, text) != MARKER
            && Resolve(u, Redact(u, text)) == (if u.accepts(Marked(host))
                 then Some(Endpoint(UrlOf(scheme, host, path), Some(u.unquote(MARKER)))) else None)
            && UrlOf(scheme, host, path) != UrlOf(scheme, host, path + " ")
  {
    assert |UrlOf(scheme, host, path)| < |UrlOf(scheme, host, path + " ")|;
    var netloc := userinfo + "@" + host;
    HostOfUserinfo(userinfo, host);
    HostChars(netloc);
    SpacedSplits(u, scheme, netloc, path);
    UnsplitIsUrl(scheme, host, path + " ");
    UnsplitIsUrl(scheme, Marked(host), path + " ");
    SpacedIsNoMarker(scheme, Marked(host), path + " ");
    SpacedStrips(u, scheme, host, path);
    ResolveMarked(u, UrlOf(scheme, Marked(host), path + " "), scheme, host, path, "");
  }

  lemma {:induction false} SpacedIsNoMarker(scheme: string, netloc: string, path: string)
    requires scheme == "http" || scheme == "https"
    ensures UrlOf(scheme, netloc, path) != MARKER
  {
    assert UrlOf(scheme, netloc, path)[0] == scheme[0];
  }

  lemma {:induction false} SpacedStrips(u: Tables, scheme: string, host: string, path: string)
    requires PythonSpace(u) && Plain(scheme, host, path) && path != "" && !u.space(path[|path| - 1])
    ensures Strip(UrlOf(scheme, Marked(host), path + " "), u.space) == UrlOf(scheme, Marked(host), path) + ""
  {
    assert (host + path)[|host + path| - 1] == path[|path| - 1];
    RedactedStrips(u, scheme, host, path, "", " ");
    UrlGap(scheme, host, path, " ");
  }

  lemma {:induction false} OneColon(a: string, b: string)
    requires ':' !in a && ':' !in b
    ensures !ManyUrls(a + (":" + b))
  {
    var text := a + (":" + b);
    forall k | 0 <= k < |text| && k != |a| ensures text[k] != ':' {
      if k < |a| {
        assert text[k] == a[k] && a[k] in a;
      } else {
        assert text[k] == b[k - |a| - 1] && b[k - |a| - 1] in b;
      }
    }
    forall k | 0 <= k < |text| && k != |a| ensures !("://" <= text[k..]) {
      assert text[k..][0] == text[k];
    }
  }

  lemma {:induction false} OneUrl()
    ensures !ManyUrls(Joined("http", "u" + "@" + "h", "/a" + " ", "?"))
  {
    var tail := "//u@h/a ?";
    assert Joined("http", "u" + "@" + "h", "/a" + " ", "?") == "http" + (":" + tail);
    OneColon("http", tail);
  }

  lemma {:induction false} SpacedIsPlain()
    ensures Plain("http", "u" + "@" + "h", "/a")
  {
    assert "u" + "@" + "h" == "u@h";
  }

  /** `http://u@h/a ?` resolves to the target `http://h/a `, its redacted form to `http://h/a`. */
  lemma {:induction false} RedactedElsewhere(u: Tables)
    requires PythonSpace(u) && u.accepts("u" + "@" + "h") && u.port("h")
    ensures var text := Joined("http", "u" + "@" + "h", "/a" + " ", "?");
            && Resolve(u, text).Some? && Resolve(u, text).value.url == UrlOf("http", "h", "/a" + " ") && Redact(u, text) != MARKER
            && Resolve(u, Redact(u, text)) == (if u.accepts(Marked("h"))
                 then Some(Endpoint(UrlOf("http", "h", "/a"), Some(u.unquote(MARKER)))) else None)
            && UrlOf("http", "h", "/a") != Resolve(u, text).value.url
  {
    OneUrl();
    SpacedIsPlain();
    SpaceRedactsElsewhere(u, "http", "u", "h", "/a");
  }

  // ---------------------------------------------------------------- texts without '@'

  lemma {:induction false} DropSlashesChars(s: string)
    ensures forall c :: c in DropSlashes(s) ==> c in s
  {
    if s != "" && s[0] == '/' {
      DropSlashesChars(s[1..]);
    }
  }

  /** An encoded '@' can stand anywhere behind a bogus scheme, and nowhere else. */
  ghost predicate NoHiddenAt(p: Parts, text: string) {
    !HasEncodedAt(p.netloc) && ((p.scheme != "" && p.netloc == "") || !HasEncodedAt(text))
  }

  /** A text without '@' is documented to be echoed unchanged. It is, exactly when it holds
      at most one "://", splits, and no encoded '@' stands in its authority, beside an
      authority, or in a text with neither scheme nor authority; or when it is the marker
      itself. Otherwise it becomes the marker. */
  lemma {:induction false} WithoutAtUnchanged(u: Tables, text: string)
    requires '@' !in text
    ensures Redact(u, text) == text <==>
            text == MARKER || (!ManyUrls(text) && SplitUrl(u, text).Some? && NoHiddenAt(SplitUrl(u, text).value, text))
    ensures Redact(u, text) == text || Redact(u, text) == MARKER
  {
    if SplitUrl(u, text).Some? {
      AuthorityInside(u, text);
      var tail := text[Min(|SplitUrl(u, text).value.scheme| + 1, |text|)..];
      DropSlashesChars(tail);
      assert forall c :: c in tail ==> c in text;
      SchemelessWithoutAt(text, DropSlashes(tail));
      RedactWithoutAt(u, text, SplitUrl(u, text).value);
    }
  }

  lemma {:induction false} RedactWithoutAt(u: Tables, text: string, p: Parts)
    requires SplitUrl(u, text) == Some(p) && '@' !in text && '@' !in p.netloc
    requires RedactSchemeless(text, DropSlashes(text[Min(|p.scheme| + 1, |text|)..])) == text
    ensures Redact(u, text) == if !ManyUrls(text) && NoHiddenAt(p, text) then text else MARKER
  {
  }

  lemma {:induction false} SchemelessWithoutAt(text: string, rest: string)
    requires '@' !in rest
    ensures RedactSchemeless(text, rest) == text
  {
    var n := Index(rest, {'/'});
    assert forall c :: c in rest[..n] ==> c in rest;
  }

  lemma {:induction false} EncodedAtBehind(a: string, b: string)
    requires HasEncodedAt(b)
    ensures HasEncodedAt(a + b)
  {
    var k :| 0 <= k < |b| && "%40" <= b[k..];
    assert (a + b)[|a| + k..] == b[k..];
  }

  /** Two families of texts without '@' that become the marker: those with an encoded '@'
      in the path, such as `http://h/%40`, and those with a second URL in the path. */
  lemma {:induction false} EncodedAtIsRedacted(u: Tables, scheme: string, host: string, path: string)
    requires Plain(scheme, host, path) && '@' !in host && '@' !in path && HasEncodedAt(path)
    ensures '@' !in UrlOf(scheme, host, path) && Redact(u, UrlOf(scheme, host, path)) == MARKER
  {
    var text := UrlOf(scheme, host, path);
    assert text == (scheme + "://" + host) + path;
    EncodedAtBehind(scheme + "://" + host, path);
    SplitOfUrl(u, scheme, host, path);
    assert forall c :: c in text ==> c in scheme || c in "://" || c in host || c in path;
    WithoutAtUnchanged(u, text);
  }

  lemma {:induction false} SecondUrlIsRedacted(u: Tables, a: string, b: string)
    ensures Redact(u, "http://" + a + "/http://" + b) == MARKER
  {
    var text := "http://" + a + "/http://" + b;
    var j := 12 + |a|;
    assert text[4..] == "://" + (a + "/http://" + b) && "://" <= text[4..];
    assert text[j..] == "://" + b && "://" <= text[j..];
    assert ManyUrls(text);
  }

  // ---------------------------------------------------------------- branch by branch

  /** ASCII letters are lowered, nothing else changes. */
  lemma {:induction false} LowerSchemeEach(s: string)
    ensures |LowerScheme(s)| == |s|
    ensures forall i :: 0 <= i < |s| ==>
              LowerScheme(s)[i] == if 'A' <= s[i] <= 'Z' then 'a' + (s[i] - 'A') else s[i]
  {
    if s != "" {
      LowerSchemeEach(s[1..]);
    }
  }

  /** White space around a text makes no difference to what it resolves to. */
  lemma {:induction false} ResolveIgnoresSpace(u: Tables, before: string, text: string, after: string)
    requires (forall c :: c in before ==> u.space(c)) && forall c :: c in after ==> u.space(c)
    ensures Resolve(u, before + text + after) == Resolve(u, text)
  {
    StripAround(before, text, after, u.space);
  }

  lemma {:induction false} NothingInRest(rest: string)
    requires Rest(rest)
    ensures QueryOf(rest) == "" && AfterMark(rest, '#') == "" <==> rest in {"", "?", "#", "?#"}
  {
    if QueryOf(rest) == "" && AfterMark(rest, '#') == "" {
      EmptyRest(rest);
    }
    assert "?#"[..1] == "?" && "?#"[2..] == "" && "?"[..1] == "?" && "?"[1..] == "" && "#"[1..] == "" && "?#"[1..] == "#";
    Marks("?", "#");
    Marks("", "#");
    Marks("?", "");
  }

  lemma {:induction false} Marks(query: string, fragment: string)
    requires query in {"", "?"} && fragment in {"", "#"}
    ensures QueryOf(query + fragment) == "" && AfterMark(query + fragment, '#') == ""
  {
    var rest := query + fragment;
    MarkAfter(query, fragment, '#');
    assert BeforeMark(fragment, '#') == "" && AfterMark(fragment, '#') == "";
    assert BeforeMark(rest, '#') == query;
    assert AfterMark(query, '?') == "";
  }

  /** A text without userinfo resolves to itself, with a lower-case scheme and without an
      empty query or fragment, exactly when its scheme is http or https, its authority and
      port are accepted, it has no query and no fragment, and no '@', literal or encoded,
      stands in host or path. */
  lemma {:induction false} ResolveBare(u: Tables, raw: string, host: string, path: string, rest: string)
    requires RawScheme(raw) && host != "" && '@' !in host && Authority(host) && Path(path) && Rest(rest) && Clean(rest)
    requires Strip(Joined(raw, host, path, rest), u.space) == Joined(raw, host, path, rest)
    ensures Resolve(u, Joined(raw, host, path, rest)) ==
            if LowerScheme(raw) in {"http", "https"} && u.accepts(host) && u.port(host) && rest in {"", "?", "#", "?#"}
               && '@' !in path && !HasEncodedAt(path) && !HasEncodedAt(host)
            then Some(Endpoint(LowerScheme(raw) + ("://" + (host + path)), None))
            else None
  {
    UrlIsClean(raw, host, path, rest);
    SplitJoined(u, raw, host, path, rest);
    NothingInRest(rest);
    if u.accepts(host) {
      ResolveBareParts(u, Joined(raw, host, path, rest),
                       Parts(LowerScheme(raw), host, path, QueryOf(rest), AfterMark(rest, '#')));
    }
  }

  lemma {:induction false} ResolveBareParts(u: Tables, text: string, p: Parts)
    requires SplitUrl(u, Strip(text, u.space)) == Some(p) && p.netloc != "" && '@' !in p.netloc && (p.path != "" ==> p.path[0] == '/')
    ensures Resolve(u, text) ==
            if p.scheme in {"http", "https"} && u.port(p.netloc) && p.query == "" && p.fragment == ""
               && '@' !in p.path && !HasEncodedAt(p.path) && !HasEncodedAt(p.netloc)
            then Some(Endpoint(p.scheme + ("://" + (p.netloc + p.path)), None))
            else None
  {
    if p.scheme in {"http", "https"} && p.query == "" && p.fragment == "" {
      UnsplitIsUrl(p.scheme, p.netloc, p.path);
      assert p == Parts(p.scheme, p.netloc, p.path, "", "");
    }
  }

  /** A text with userinfo, everything before the last '@' of the authority, resolves to the
      URL without it and a credential, exactly when the scheme is http or https, authority
      and port are accepted, a host is left, and there is no query and no fragment. */
  lemma {:induction false} ResolveUserinfo(u: Tables, raw: string, userinfo: string, host: string, path: string, rest: string)
    requires RawScheme(raw) && '@' !in host && Authority(userinfo + "@" + host) && Path(path) && Rest(rest) && Clean(rest)
    requires var text := Joined(raw, userinfo + "@" + host, path, rest); Strip(text, u.space) == text
    ensures Resolve(u, Joined(raw, userinfo + "@" + host, path, rest)) ==
            if LowerScheme(raw) in {"http", "https"} && u.accepts(userinfo + "@" + host) && u.port(host) && host != ""
               && rest in {"", "?", "#", "?#"}
            then Some(Endpoint(LowerScheme(raw) + ("://" + (host + path)), if userinfo == "" then None else Some(u.unquote(userinfo))))
            else None
  {
    HostOfUserinfo(userinfo, host);
    UrlIsClean(raw, userinfo + "@" + host, path, rest);
    SplitJoined(u, raw, userinfo + "@" + host, path, rest);
    NothingInRest(rest);
    if LowerScheme(raw) in {"http", "https"} {
      UnsplitIsUrl(LowerScheme(raw), host, path);
    }
  }

  /** A userinfo becomes three stars, and everything else stays, where the text holds one
      "://" and its authority is accepted; otherwise the whole text becomes three stars. */
  lemma {:induction false} RedactUserinfo(u: Tables, raw: string, userinfo: string, host: string, path: string)
    requires RawScheme(raw) && '@' !in host && Authority(userinfo + "@" + host) && Path(path)
    ensures var text := Joined(raw, userinfo + "@" + host, path, "");
            Redact(u, text) ==
            if ManyUrls(text) || !u.accepts(userinfo + "@" + host) then "***"
            else LowerScheme(raw) + ("://" + ((if host != "" then "***@" + host else "***") + path))
  {
    var text := Joined(raw, userinfo + "@" + host, path, "");
    SplitUserinfo(u, raw, userinfo, host, path);
    if u.accepts(userinfo + "@" + host) {
      HostOfUserinfo(userinfo, host);
      LowerSchemeEach(raw);
      RedactNetloc(u, text, Parts(LowerScheme(raw), userinfo + "@" + host, path, "", ""), host);
    }
  }

  lemma {:induction false} SplitUserinfo(u: Tables, raw: string, userinfo: string, host: string, path: string)
    requires RawScheme(raw) && Authority(userinfo + "@" + host) && Path(path)
    ensures SplitUrl(u, Joined(raw, userinfo + "@" + host, path, "")) ==
            if u.accepts(userinfo + "@" + host) then Some(Parts(LowerScheme(raw), userinfo + "@" + host, path, "", "")) else None
  {
    UrlIsClean(raw, userinfo + "@" + host, path, "");
    SplitJoined(u, raw, userinfo + "@" + host, path, "");
  }

  lemma {:induction false} RedactNetloc(u: Tables, text: string, p: Parts, host: string)
    requires SplitUrl(u, text) == Some(p) && '@' in p.netloc && AfterLastAt(p.netloc) == host
    requires p.query == "" && p.fragment == "" && p.scheme != "" && (p.path != "" ==> p.path[0] == '/')
    ensures Redact(u, text) ==
            if ManyUrls(text) then "***" else p.scheme + ("://" + ((if host != "" then "***@" + host else "***") + p.path))
  {
    RedactsAuthority(u, text, p);
    MarkedUrl(p, if host != "" then Marked(host) else MARKER);
    MarkedText(host);
  }

  lemma {:induction false} RedactsAuthority(u: Tables, text: string, p: Parts)
    requires SplitUrl(u, text) == Some(p) && '@' in p.netloc
    ensures Redact(u, text) ==
            if ManyUrls(text) then MARKER
            else Unsplit(p.(netloc := if AfterLastAt(p.netloc) != "" then Marked(AfterLastAt(p.netloc)) else MARKER))
  {
  }

  lemma {:induction false} MarkedUrl(p: Parts, shown: string)
    requires p.query == "" && p.fragment == "" && p.scheme != "" && (p.path != "" ==> p.path[0] == '/')
    ensures Unsplit(p.(netloc := shown)) == p.scheme + ("://" + (shown + p.path))
  {
    assert p.(netloc := shown) == Parts(p.scheme, shown, p.path, "", "");
    UnsplitIsUrl(p.scheme, shown, p.path);
  }

  lemma {:induction false} MarkedText(host: string)
    ensures Marked(host) == "***@" + host
  {
    assert "***" + "@" == "***@";
  }

  /** An '@' behind an authority without one makes the whole text three stars: it could be
      the end of a userinfo with a slash in it. */
  lemma {:induction false} AtBehindAuthority(u: Tables, raw: string, host: string, path: string, rest: string)
    requires RawScheme(raw) && host != "" && '@' !in host && Authority(host) && Path(path) && Rest(rest) && Clean(rest)
    requires '@' in path || '@' in rest
    ensures Redact(u, Joined(raw, host, path, rest)) == "***"
  {
    UrlIsClean(raw, host, path, rest);
    SplitJoined(u, raw, host, path, rest);
    LowerSchemeEach(raw);
    JoinedHolds(raw, host, path, rest);
    AtOutside(u, Joined(raw, host, path, rest));
  }

  lemma {:induction false} JoinedHolds(raw: string, host: string, path: string, rest: string)
    ensures forall c :: c in path || c in rest ==> c in Joined(raw, host, path, rest)
  {
    var text := Joined(raw, host, path, rest);
    assert text == (raw + "://" + host) + path + rest;
  }

  lemma {:induction false} AtOutside(u: Tables, text: string)
    requires '@' in text
    requires SplitUrl(u, text).Some? ==>
               var p := SplitUrl(u, text).value; p.scheme != "" && p.netloc != "" && '@' !in p.netloc
    ensures Redact(u, text) == "***"
  {
  }

  /** A text with no scheme and no authority to attribute an '@' to. */
  lemma {:induction false} AtWithoutAuthority(u: Tables, text: string)
    requires '@' in text && SplitUrl(u, text).Some?
    requires SplitUrl(u, text).value.scheme == "" && SplitUrl(u, text).value.netloc == ""
    ensures Redact(u, text) == "***"
  {
  }

  /** `user:rest` splits into a bogus scheme and a path. */
  lemma {:induction false} BogusScheme(u: Tables, user: string, rest: string)
    requires RawScheme(user) && Clean(rest) && !("//" <= rest)
    ensures var p := SplitUrl(u, user + ([':'] + rest));
            p.Some? && p.value.netloc == "" && p.value.scheme == LowerScheme(user)
    ensures (user + ([':'] + rest))[|user| + 1..] == rest
  {
    BogusIsClean(user, rest);
    SchemeSplits(u, user, rest);
  }

  lemma {:induction false} BogusIsClean(user: string, rest: string)
    requires RawScheme(user) && Clean(rest)
    ensures var text := user + ([':'] + rest);
            Cleanse(text) == text && |text| == |user| + 1 + |rest| && text[|user| + 1..] == rest
  {
    var text := user + ([':'] + rest);
    assert text[0] == user[0] && text[|user| + 1..] == rest;
    forall c | c in text ensures c !in UNSAFE {
      assert c in user || c == ':' || c in rest;
    }
    DropUnsafeClean(text);
  }

  lemma {:induction false} HeadOfRest(pass: string, host: string, tail: string)
    requires '/' !in pass && '/' !in host && '@' !in host && (tail != "" ==> tail[0] == '/')
    ensures var rest := (pass + "@" + host) + tail; var n := Index(rest, {'/'});
            rest[..n] == pass + "@" + host && rest[n..] == tail && DropSlashes(rest) == rest && !("//" <= rest)
  {
    var head := pass + "@" + host;
    var rest := head + tail;
    assert forall c :: c in head ==> c in pass || c == '@' || c in host;
    IndexAfter(head, tail, {'/'});
    assert rest[..|head|] == head && rest[|head|..] == tail;
    assert rest[0] == head[0] && head[0] in head;
  }

  /** In a scheme-less `user:pass@host/path` everything before the last '@' of the part
      before the first slash becomes three stars. */
  lemma {:induction false} SchemelessUserinfo(u: Tables, user: string, pass: string, host: string, tail: string)
    requires RawScheme(user) && Clean(pass) && Clean(host) && Clean(tail)
    requires '/' !in pass && '/' !in host && '@' !in host && (tail != "" ==> tail[0] == '/')
    ensures var text := user + ([':'] + ((pass + "@" + host) + tail));
            Redact(u, text) == if ManyUrls(text) then "***" else (if host != "" then "***@" + host else "***") + tail
  {
    var rest := (pass + "@" + host) + tail;
    assert forall c :: c in rest ==> c in pass || c == '@' || c in host || c in tail;
    HeadOfRest(pass, host, tail);
    HostOfUserinfo(pass, host);
    RedactBogus(u, user, rest);
    SchemelessHead(user + ([':'] + rest), rest, pass + "@" + host, tail, host);
  }

  lemma {:induction false} RedactBogus(u: Tables, user: string, rest: string)
    requires RawScheme(user) && Clean(rest) && !("//" <= rest)
    ensures var text := user + ([':'] + rest);
            Redact(u, text) == if ManyUrls(text) then "***" else RedactSchemeless(text, DropSlashes(rest))
  {
    var text := user + ([':'] + rest);
    BogusScheme(u, user, rest);
    LowerSchemeEach(user);
    RedactBogusParts(u, text, SplitUrl(u, text).value, |user| + 1);
  }

  lemma {:induction false} RedactBogusParts(u: Tables, text: string, p: Parts, n: nat)
    requires SplitUrl(u, text) == Some(p) && p.scheme != "" && p.netloc == "" && n == |p.scheme| + 1 <= |text|
    ensures Redact(u, text) == if ManyUrls(text) then "***" else RedactSchemeless(text, DropSlashes(text[n..]))
  {
    assert !HasAt(p.netloc);
  }

  lemma {:induction false} SchemelessHead(text: string, rest: string, head: string, tail: string, host: string)
    requires '@' in head && AfterLastAt(head) == host
    requires var n := Index(rest, {'/'}); rest[..n] == head && rest[n..] == tail
    ensures RedactSchemeless(text, rest) == (if host != "" then "***@" + host else "***") + tail
  {
  }

  /** An '@' only behind the first slash of a scheme-less text makes it three stars. */
  lemma {:induction false} SchemelessAtDeeper(u: Tables, user: string, head: string, tail: string)
    requires RawScheme(user) && Clean(head) && Clean(tail)
    requires head != "" && '/' !in head && '@' !in head && tail != "" && tail[0] == '/' && '@' in tail
    ensures Redact(u, user + ([':'] + (head + tail))) == "***"
  {
    var rest := head + tail;
    assert forall c :: c in rest ==> c in head || c in tail;
    HeadAndTail(head, tail);
    RedactBogus(u, user, rest);
    SchemelessDeep(user + ([':'] + rest), rest, head, tail);
  }

  lemma {:induction false} HeadAndTail(head: string, tail: string)
    requires head != "" && '/' !in head && tail != "" && tail[0] == '/'
    ensures var rest := head + tail; var n := Index(rest, {'/'});
            rest[..n] == head && DropSlashes(rest) == rest && !("//" <= rest)
  {
    var rest := head + tail;
    assert rest[0] == head[0] && head[0] in head;
    IndexAfter(head, tail, {'/'});
    assert rest[..|head|] == head;
  }

  lemma {:induction false} SchemelessDeep(text: string, rest: string, head: string, tail: string)
    requires rest == head + tail && '@' !in head && '@' in tail && rest[..Index(rest, {'/'})] == head
    ensures RedactSchemeless(text, rest) == "***"
  {
    assert forall c :: c in tail ==> c in rest;
  }
}
