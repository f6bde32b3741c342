/** `scripts/harvest_human_findings.py`: how raw findings become corpus entries. */
module Harvest {
  import opened CorpusMerge
  import opened Numerals
  import Seqs

  /** A raw finding. `file` is empty when no file could be resolved; `body` is the rest
      of the corpus entry the finding turns into. */
  datatype Finding = Finding(repo: string, number: int, headSha: string, file: string, body: string)

  /** Findings on the same pull request head share one sequence of entry numbers. */
  datatype Series = Series(repo: string, number: int, head: string)

  function HeadPrefix(sha: string): string {
    if |sha| <= 8 then sha else sha[..8]
  }

  function SeriesOf(f: Finding): Series {
    Series(f.repo, f.number, HeadPrefix(f.headSha))
  }

  function MakeEntryId(s: Series, seqNo: int): (id: string)
    ensures id != ""
  {
    var base := s.repo + "#" + Render(s.number) + "@" + s.head;
    if seqNo <= 1 then base else base + "-" + Render(seqNo)
  }

  /** How many of the findings have a file and belong to series `s`. */
  function Occurrences(findings: seq<Finding>, s: Series): nat {
    if findings == [] then 0
    else
      var last := findings[|findings| - 1];
      Occurrences(findings[..|findings| - 1], s)
        + if last.file != "" && SeriesOf(last) == s then 1 else 0
  }

  /** The id position `i` is given: its series and its rank in that series. */
  function IdAt(findings: seq<Finding>, i: nat): (id: string)
    requires i < |findings|
    ensures id != ""
  {
    MakeEntryId(SeriesOf(findings[i]), Occurrences(findings[..i + 1], SeriesOf(findings[i])))
  }

  datatype Built = Built(entries: seq<Entry>, noFile: nat, existing: nat, ids: set<string>)

  /** What `build_entries` returns, with the id set it leaves behind. */
  function Build(findings: seq<Finding>, ids: set<string>): Built {
    if findings == [] then Built([], 0, 0, ids)
    else
      var n := |findings| - 1;
      var b := Build(findings[..n], ids);
      var id := IdAt(findings, n);
      if findings[n].file == "" then b.(noFile := b.noFile + 1)
      else if id in b.ids then b.(existing := b.existing + 1)
      else b.(entries := b.entries + [Object(Text(id), findings[n].body)], ids := b.ids + {id})
  }

  /** The counter of each series holds how many of its findings have been seen. */
  ghost predicate Counting(findings: seq<Finding>, seqByKey: map<Series, nat>) {
    forall s :: Occurrences(findings, s) == if s in seqByKey then seqByKey[s] else 0
  }

  lemma {:induction false} OccurrencesSnoc(done: seq<Finding>, f: Finding, s: Series)
    ensures Occurrences(done + [f], s) == Occurrences(done, s) + if f.file != "" && SeriesOf(f) == s then 1 else 0
  {
    assert (done + [f])[..|done|] == done;
  }

  lemma {:induction false} CountingStep(done: seq<Finding>, f: Finding, seqByKey: map<Series, nat>)
    requires Counting(done, seqByKey)
    ensures f.file == "" ==> Counting(done + [f], seqByKey)
    ensures f.file != "" ==> Counting(done + [f], seqByKey[SeriesOf(f) := Occurrences(done, SeriesOf(f)) + 1])
  {
    forall s ensures Occurrences(done + [f], s) == Occurrences(done, s) + if f.file != "" && SeriesOf(f) == s then 1 else 0 {
      OccurrencesSnoc(done, f, s);
    }
  }

  lemma {:induction false} BuildSnoc(done: seq<Finding>, f: Finding, ids: set<string>)
    ensures var b := Build(done, ids);
            var id := MakeEntryId(SeriesOf(f), Occurrences(done, SeriesOf(f)) + 1);
            Build(done + [f], ids) ==
            if f.file == "" then b.(noFile := b.noFile + 1)
            else if id in b.ids then b.(existing := b.existing + 1)
            else b.(entries := b.entries + [Object(Text(id), f.body)], ids := b.ids + {id})
  {
    var longer := done + [f];
    assert longer[..|done|] == done && longer[..|done| + 1] == longer;
    OccurrencesSnoc(done, f, SeriesOf(f));
  }

  /** One finding of the loop. */
  method BuildOne(ghost done: seq<Finding>, ghost existingIds: set<string>, f: Finding, b0: Built, counts: map<Series, nat>)
    returns (b: Built, seqByKey: map<Series, nat>)
    requires b0 == Build(done, existingIds) && Counting(done, counts)
    ensures b == Build(done + [f], existingIds) && Counting(done + [f], seqByKey)
    ensures |b.entries| + b.noFile + b.existing == |b0.entries| + b0.noFile + b0.existing + 1
  {
    b, seqByKey := b0, counts;
    CountingStep(done, f, counts);
    BuildSnoc(done, f, existingIds);
    if f.file == "" {
      b := b.(noFile := b.noFile + 1);
      return;
    }
    var key := SeriesOf(f);
    var seqNo := (if key in seqByKey then seqByKey[key] else 0) + 1;
    seqByKey := seqByKey[key := seqNo];
    var id := MakeEntryId(key, seqNo);
    if id in b.ids {
      b := b.(existing := b.existing + 1);
    } else {
      b := b.(entries := b.entries + [Object(Text(id), f.body)], ids := b.ids + {id});
    }
  }

  method BuildEntries(findings: seq<Finding>, existingIds: set<string>)
    returns (entries: seq<Entry>, noFile: nat, existing: nat, ids: set<string>)
    ensures Built(entries, noFile, existing, ids) == Build(findings, existingIds)
    ensures |entries| + noFile + existing == |findings|
  {
    var b := Built([], 0, 0, existingIds);
    var seqByKey: map<Series, nat> := map[];
    for i := 0 to |findings|
      invariant b == Build(findings[..i], existingIds) && Counting(findings[..i], seqByKey)
      invariant |b.entries| + b.noFile + b.existing == i
    {
      b, seqByKey := BuildOne(findings[..i], existingIds, findings[i], b, seqByKey);
      assert findings[..i + 1] == findings[..i] + [findings[i]];
    }
    assert findings[..|findings|] == findings;
    entries, noFile, existing, ids := b.entries, b.noFile, b.existing, b.ids;
  }

  // ---------------------------------------------------------------- ids over a whole list

  /** The ids of all positions that have a file. */
  function AllIds(findings: seq<Finding>): set<string> {
    if findings == [] then {}
    else
      var n := |findings| - 1;
      AllIds(findings[..n]) + if findings[n].file == "" then {} else {IdAt(findings, n)}
  }

  lemma {:induction false} AllIdsMembers(findings: seq<Finding>, id: string)
    requires id in AllIds(findings)
    ensures exists i: nat :: i < |findings| && findings[i].file != "" && IdAt(findings, i) == id
  {
    var n := |findings| - 1;
    if id in AllIds(findings[..n]) {
      AllIdsMembers(findings[..n], id);
      var i: nat :| i < n && findings[..n][i].file != "" && IdAt(findings[..n], i) == id;
      IdAtPrefix(findings, n, i);
      assert findings[i].file != "";
    }
  }

  lemma IdAtPrefix(findings: seq<Finding>, n: nat, i: nat)
    requires i < n <= |findings|
    ensures IdAt(findings[..n], i) == IdAt(findings, i)
  {
    assert findings[..n][..i + 1] == findings[..i + 1];
  }

  lemma {:induction false} BuildIds(findings: seq<Finding>, ids: set<string>)
    ensures Build(findings, ids).ids == ids + AllIds(findings)
  {
    if findings != [] {
      BuildIds(findings[..|findings| - 1], ids);
    }
  }

  /** The new entries carry exactly the ids that were not known, each of them once. */
  lemma {:induction false} BuildIsExact(findings: seq<Finding>, ids: set<string>)
    ensures Keys(Build(findings, ids).entries) == AllIds(findings) - ids
    ensures UniqueKeys(Build(findings, ids).entries)
  {
    if findings != [] {
      var n := |findings| - 1;
      BuildIsExact(findings[..n], ids);
      BuildIds(findings[..n], ids);
      if findings[n].file != "" {
        AppendOne(Build(findings[..n], ids).entries, Object(Text(IdAt(findings, n)), findings[n].body));
      }
    }
  }

  lemma AppendOne(entries: seq<Entry>, e: Entry)
    ensures Keys(entries + [e]) == Keys(entries) + {Key(e)}
    ensures UniqueKeys(entries) && Key(e) !in Keys(entries) ==> UniqueKeys(entries + [e])
  {
    KeysAppend(entries, [e]);
    assert Keys([e]) == {Key(e)};
    assert forall x :: x in entries ==> Key(x) in Keys(entries);
  }

  /** Position `i` is the first one to be given its id, and the corpus does not carry it. */
  ghost predicate FirstUnknown(findings: seq<Finding>, ids: set<string>, i: nat)
    requires i < |findings|
  {
    && findings[i].file != "" && IdAt(findings, i) !in ids
    && forall j :: 0 <= j < i && findings[j].file != "" ==> IdAt(findings, j) != IdAt(findings, i)
  }

  /** The new entries are those of the findings at these positions, in their order. */
  ghost predicate Picks(findings: seq<Finding>, entries: seq<Entry>, at: seq<nat>) {
    && |at| == |entries|
    && (forall k :: 0 <= k < |at| ==> at[k] < |findings|)
    && (forall k :: 0 <= k < |at| ==> entries[k] == Object(Text(IdAt(findings, at[k])), findings[at[k]].body))
    && forall k, l :: 0 <= k < l < |at| ==> at[k] < at[l]
  }

  /** Every finding with a file whose id comes up for the first time makes one entry, with
      that finding's own contents, in the order of the findings; nothing else makes one. */
  lemma {:induction false} BuildPositions(findings: seq<Finding>, ids: set<string>) returns (at: seq<nat>)
    ensures Picks(findings, Build(findings, ids).entries, at)
    ensures forall i: nat :: i < |findings| ==> (i in at <==> FirstUnknown(findings, ids, i))
  {
    if findings == [] {
      at := [];
    } else {
      var n := |findings| - 1;
      var front := BuildPositions(findings[..n], ids);
      LastIsNew(findings, ids);
      at := front + if FirstUnknown(findings, ids, n) then [n] else [];
      PicksGrow(findings, ids, front, at);
      forall i: nat | i < n ensures i in at <==> FirstUnknown(findings, ids, i) {
        FirstUnknownStays(findings, ids, i);
      }
    }
  }

  lemma {:induction false} FirstUnknownStays(findings: seq<Finding>, ids: set<string>, i: nat)
    requires i < |findings| - 1
    ensures FirstUnknown(findings, ids, i) <==> FirstUnknown(findings[..|findings| - 1], ids, i)
  {
    var front := findings[..|findings| - 1];
    forall j: nat | j <= i ensures front[j] == findings[j] && IdAt(front, j) == IdAt(findings, j) {
      IdAtPrefix(findings, |findings| - 1, j);
    }
  }

  lemma {:induction false} LastIsNew(findings: seq<Finding>, ids: set<string>)
    requires findings != []
    ensures var n := |findings| - 1;
            FirstUnknown(findings, ids, n) <==>
            findings[n].file != "" && IdAt(findings, n) !in Build(findings[..n], ids).ids
  {
    var n := |findings| - 1;
    var id := IdAt(findings, n);
    BuildIds(findings[..n], ids);
    if id in AllIds(findings[..n]) {
      AllIdsMembers(findings[..n], id);
      var i: nat :| i < n && findings[..n][i].file != "" && IdAt(findings[..n], i) == id;
      IdAtPrefix(findings, n, i);
      assert findings[i].file != "";
    }
    forall j | 0 <= j < n && findings[j].file != "" && id !in AllIds(findings[..n]) ensures IdAt(findings, j) != id {
      IdAtPrefix(findings, n, j);
      AllIdsHold(findings[..n], j);
    }
  }

  lemma {:induction false} AllIdsHold(findings: seq<Finding>, j: nat)
    requires j < |findings| && findings[j].file != ""
    ensures IdAt(findings, j) in AllIds(findings)
  {
    var n := |findings| - 1;
    if j < n {
      AllIdsHold(findings[..n], j);
      IdAtPrefix(findings, n, j);
    }
  }

  lemma {:induction false} PicksGrow(findings: seq<Finding>, ids: set<string>, front: seq<nat>, at: seq<nat>)
    requires findings != [] && Picks(findings[..|findings| - 1], Build(findings[..|findings| - 1], ids).entries, front)
    requires var n := |findings| - 1;
             && (FirstUnknown(findings, ids, n) <==>
                 findings[n].file != "" && IdAt(findings, n) !in Build(findings[..n], ids).ids)
             && at == front + if FirstUnknown(findings, ids, n) then [n] else []
    ensures Picks(findings, Build(findings, ids).entries, at)
  {
    var n := |findings| - 1;
    forall k | 0 <= k < |front| ensures IdAt(findings[..n], front[k]) == IdAt(findings, front[k]) {
      IdAtPrefix(findings, n, front[k]);
    }
  }

  // ---------------------------------------------------------------- series and ranks

  /** Two heads are one when they are equal or agree in their first eight characters. */
  lemma HeadsMatch(a: string, b: string)
    ensures HeadPrefix(a) == HeadPrefix(b) <==> a == b || (|a| >= 8 && |b| >= 8 && a[..8] == b[..8])
  {
    if HeadPrefix(a) == HeadPrefix(b) {
      assert |HeadPrefix(a)| == if |a| <= 8 then |a| else 8;
      assert |HeadPrefix(b)| == if |b| <= 8 then |b| else 8;
      assert |a| == 8 ==> a[..8] == a;
      assert |b| == 8 ==> b[..8] == b;
    }
    if |a| >= 8 && |b| >= 8 && a[..8] == b[..8] {
      assert |a| == 8 ==> a[..8] == a;
      assert |b| == 8 ==> b[..8] == b;
    }
  }

  ghost predicate OnePullRequestHead(f: Finding, g: Finding) {
    f.repo == g.repo && f.number == g.number && HeadPrefix(f.headSha) == HeadPrefix(g.headSha)
  }

  /** The rank in an id counts the findings up to it that have a file and are about the same
      pull request and head; findings without a file leave no gap. */
  lemma {:induction false} RankCounts(findings: seq<Finding>, f: Finding)
    ensures Occurrences(findings, SeriesOf(f)) ==
            |set i | 0 <= i < |findings| && findings[i].file != "" && OnePullRequestHead(findings[i], f)|
  {
    var p := (g: Finding) => g.file != "" && OnePullRequestHead(g, f);
    assert (set i | 0 <= i < |findings| && findings[i].file != "" && OnePullRequestHead(findings[i], f))
        == Seqs.Positions(findings, p);
    if findings != [] {
      var n := |findings| - 1;
      RankCounts(findings[..n], f);
      assert (set i | 0 <= i < n && findings[..n][i].file != "" && OnePullRequestHead(findings[..n][i], f))
          == Seqs.Positions(findings[..n], p);
      Seqs.PositionsSnoc(findings, p);
    }
  }

  /** The later entries of a pull request head are numbered from two on behind the first. */
  lemma LaterIds(s: Series, n: nat)
    ensures MakeEntryId(s, 1) == s.repo + "#" + Render(s.number) + "@" + s.head
    ensures n >= 2 ==> MakeEntryId(s, n) == MakeEntryId(s, 1) + "-" + Digits(n)
  {
  }

  /** `noFile` is the number of findings without a file. */
  lemma {:induction false} NoFileCounts(findings: seq<Finding>, ids: set<string>)
    ensures Build(findings, ids).noFile == |set i | 0 <= i < |findings| && findings[i].file == ""|
  {
    var p := (g: Finding) => g.file == "";
    assert (set i | 0 <= i < |findings| && findings[i].file == "") == Seqs.Positions(findings, p);
    if findings != [] {
      var n := |findings| - 1;
      NoFileCounts(findings[..n], ids);
      assert (set i | 0 <= i < n && findings[..n][i].file == "") == Seqs.Positions(findings[..n], p);
      Seqs.PositionsSnoc(findings, p);
    }
  }

  // ---------------------------------------------------------------- incremental harvest

  lemma {:induction false} RerunAddsNothing(findings: seq<Finding>, ids: set<string>)
    requires AllIds(findings) <= ids
    ensures Build(findings, ids).entries == []
    ensures Build(findings, ids).ids == ids
  {
    if findings != [] {
      RerunAddsNothing(findings[..|findings| - 1], ids);
    }
  }

  /** What the last finding adds to a list of entries that already carries `ids`. */
  function LastAdded(findings: seq<Finding>, ids: set<string>): seq<Entry>
    requires findings != []
  {
    var n := |findings| - 1;
    if findings[n].file == "" || IdAt(findings, n) in ids then []
    else [Object(Text(IdAt(findings, n)), findings[n].body)]
  }

  lemma BuildLast(findings: seq<Finding>, ids: set<string>)
    requires findings != []
    ensures var front := Build(findings[..|findings| - 1], ids);
            var added := LastAdded(findings, front.ids);
            Build(findings, ids).entries == front.entries + added
            && Build(findings, ids).ids == front.ids + Keys(added)
  {
    var n := |findings| - 1;
    var front := Build(findings[..n], ids);
    var added := LastAdded(findings, front.ids);
    if findings[n].file == "" || IdAt(findings, n) in front.ids {
      assert Build(findings, ids).entries == front.entries == front.entries + [];
      assert Keys([]) == {};
    } else {
      KeysCons(added);
      assert added[1..] == [];
    }
  }

  /** Harvesting `f` and then `f + g` adds the same entries, in the same order, as
      harvesting `f + g` at once. */
  lemma {:induction false} IncrementalIsBatch(f: seq<Finding>, g: seq<Finding>, ids: set<string>)
    ensures var first := Build(f, ids);
            var second := Build(f + g, first.ids);
            var batch := Build(f + g, ids);
            batch.entries == first.entries + second.entries && batch.ids == second.ids
    decreases |g|
  {
    var known := Build(f, ids).ids;
    if g == [] {
      assert f + g == f;
      BuildIds(f, ids);
      RerunAddsNothing(f, known);
    } else {
      var front := f + g[..|g| - 1];
      assert (f + g)[..|f + g| - 1] == front;
      IncrementalIsBatch(f, g[..|g| - 1], ids);
      BuildLast(f + g, ids);
      BuildLast(f + g, known);
      AppendAssociative(Build(f, ids).entries, Build(front, known).entries,
                        LastAdded(f + g, Build(front, ids).ids));
    }
  }

  // ---------------------------------------------------------------- ids are injective

  lemma SplitAtFirst(c: char, a: string, x: string, b: string, y: string)
    requires c !in a && c !in b
    requires a + [c] + x == b + [c] + y
    ensures a == b && x == y
  {
    var s := a + [c] + x;
    assert s[|a|] == c && s[|b|] == c;
    assert forall i :: 0 <= i < |a| ==> s[i] == a[i] && a[i] in a;
    assert forall i :: 0 <= i < |b| ==> s[i] == b[i] && b[i] in b;
    assert |a| == |b|;
    assert a == s[..|a|] && b == s[..|b|];
    assert x == s[|a| + 1..] && y == s[|b| + 1..];
  }

  /** `owner/name` repositories hold no `#`, and a commit sha holds no `-`. */
  predicate PlainSeries(s: Series) {
    '#' !in s.repo && '-' !in s.head
  }

  function Suffix(seqNo: int): string {
    if seqNo <= 1 then "" else "-" + Render(seqNo)
  }

  lemma EntryIdParts(s: Series, n: nat)
    ensures MakeEntryId(s, n) == s.repo + ['#'] + (Render(s.number) + ['@'] + (s.head + Suffix(n)))
  {
  }

  lemma EntryIdInjective(s: Series, m: nat, t: Series, n: nat)
    requires PlainSeries(s) && PlainSeries(t) && m >= 1 && n >= 1
    requires MakeEntryId(s, m) == MakeEntryId(t, n)
    ensures s == t && m == n
  {
    EntryIdParts(s, m);
    EntryIdParts(t, n);
    var x, y := s.head + Suffix(m), t.head + Suffix(n);
    SplitAtFirst('#', s.repo, Render(s.number) + ['@'] + x, t.repo, Render(t.number) + ['@'] + y);
    SplitAtFirst('@', Render(s.number), x, Render(t.number), y);
    RenderInjective(s.number, t.number);
    TailInjective(s.head, m, t.head, n);
  }

  lemma TailInjective(a: string, m: nat, b: string, n: nat)
    requires '-' !in a && '-' !in b && m >= 1 && n >= 1
    requires a + Suffix(m) == b + Suffix(n)
    ensures a == b && m == n
  {
    DashOnlyInSuffix(a, m);
    DashOnlyInSuffix(b, n);
    if m > 1 {
      assert a + Suffix(m) == a + ['-'] + Render(m);
      assert b + Suffix(n) == b + ['-'] + Render(n);
      SplitAtFirst('-', a, Render(m), b, Render(n));
      RenderInjective(m, n);
    } else {
      assert a + Suffix(m) == a && b + Suffix(n) == b;
    }
  }

  lemma DashOnlyInSuffix(head: string, n: nat)
    requires '-' !in head
    ensures '-' in head + Suffix(n) <==> n > 1
  {
    if n > 1 {
      assert (head + Suffix(n))[|head|] == '-';
    }
  }

  lemma {:induction false} OccurrencesMonotone(findings: seq<Finding>, i: nat, j: nat, s: Series)
    requires i <= j <= |findings|
    ensures Occurrences(findings[..i], s) <= Occurrences(findings[..j], s)
    decreases j
  {
    if i < j {
      OccurrencesMonotone(findings, i, j - 1, s);
      assert findings[..j][..j - 1] == findings[..j - 1];
    }
  }

  lemma OccurrencesStep(findings: seq<Finding>, i: nat)
    requires i < |findings| && findings[i].file != ""
    ensures Occurrences(findings[..i + 1], SeriesOf(findings[i]))
         == Occurrences(findings[..i], SeriesOf(findings[i])) + 1
  {
    assert findings[..i + 1][..i] == findings[..i];
  }

  ghost predicate Plain(findings: seq<Finding>) {
    forall f :: f in findings ==> PlainSeries(SeriesOf(f))
  }

  /** No two positions of a plain list are given the same id. */
  lemma IdsDistinct(findings: seq<Finding>, i: nat, j: nat)
    requires Plain(findings) && i < j < |findings|
    requires findings[i].file != "" && findings[j].file != ""
    ensures IdAt(findings, i) != IdAt(findings, j)
  {
    if IdAt(findings, i) == IdAt(findings, j) {
      var s, t := SeriesOf(findings[i]), SeriesOf(findings[j]);
      OccurrencesStep(findings, i);
      OccurrencesStep(findings, j);
      EntryIdInjective(s, Occurrences(findings[..i + 1], s), t, Occurrences(findings[..j + 1], t));
      OccurrencesMonotone(findings, i + 1, j, s);
    }
  }

  /** From an empty corpus no finding that has a file is lost. */
  lemma {:induction false} NothingLost(findings: seq<Finding>)
    requires Plain(findings)
    ensures Build(findings, {}).existing == 0
    ensures |Build(findings, {}).entries| + Build(findings, {}).noFile == |findings|
  {
    if findings != [] {
      var n := |findings| - 1;
      NothingLost(findings[..n]);
      BuildIds(findings[..n], {});
      if findings[n].file != "" && IdAt(findings, n) in AllIds(findings[..n]) {
        AllIdsMembers(findings[..n], IdAt(findings, n));
        var i: nat :| i < n && findings[i].file != "" && IdAt(findings[..n], i) == IdAt(findings, n);
        IdAtPrefix(findings, n, i);
        IdsDistinct(findings, i, n);
      }
    }
  }

  /** Both halves of `PlainSeries` matter: without them two series share an id. */
  lemma UnplainSeriesCollide()
    ensures MakeEntryId(Series("o/r", 1, "abc"), 2) == MakeEntryId(Series("o/r", 1, "abc-2"), 1)
    ensures MakeEntryId(Series("x#1@y", 2, "z"), 1) == MakeEntryId(Series("x", 1, "y#2@z"), 1)
  {
    assert Render(2) == "2" && Render(1) == "1";
    assert "x#1@y" + "#" + "2" + "@" + "z" == "x" + "#" + "1" + "@" + "y#2@z";
    assert "o/r" + "#" + "1" + "@" + "abc" + "-" + "2" == "o/r" + "#" + "1" + "@" + "abc-2";
  }
}
