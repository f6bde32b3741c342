/** `scripts/eval_adjudicate.py`, the score side: verdicts are joined to the blinded
    findings, the runs are rebuilt, and the arms are counted. */
module Unblinding {
  import opened Options
  import opened Seqs
  import opened RunKeys
  import opened Adjudication

  datatype Verdict = Verdict(sameDefect: string, fpLabel: Option<string>)
  datatype Judged = Judged(finding: Finding, verdict: Verdict)

  const BLOCKER_MAJOR: set<string> := {"blocker", "major"}
  const VALID_SAME_DEFECT: set<string> := {"yes", "partial", "no"}
  const VALID_FP_LABEL: set<string> := {"real", "false_positive", "unverifiable"}

  // ---------------------------------------------------------------- loading

  /** `byFid` is the dictionary of a list of named values without repeats. */
  ghost predicate Dictionary<V>(names: seq<string>, values: seq<V>, byFid: map<string, V>)
    requires |names| == |values|
  {
    && Distinct(names)
    && (forall fid :: fid in byFid <==> fid in names)
    && forall i :: 0 <= i < |names| ==> names[i] in byFid && byFid[names[i]] == values[i]
  }

  lemma {:induction false} DictionaryStep<V>(names: seq<string>, values: seq<V>, byFid: map<string, V>, fid: string, v: V)
    requires |names| == |values| && Dictionary(names, values, byFid)
    ensures fid !in byFid ==> Dictionary(names + [fid], values + [v], byFid[fid := v])
    ensures fid in byFid ==> !Distinct(names + [fid])
  {
    if fid in byFid {
      var k :| 0 <= k < |names| && names[k] == fid;
      assert (names + [fid])[k] == (names + [fid])[|names|];
    } else {
      DistinctAppend(names, fid);
      forall i | 0 <= i < |names| ensures names[i] != fid {
        assert names[i] in byFid;
      }
    }
  }

  lemma {:induction false} RepeatInPrefixOf(a: seq<string>, b: seq<string>)
    requires a <= b && !Distinct(a)
    ensures !Distinct(b)
  {
    var i, j :| 0 <= i < j < |a| && a[i] == a[j];
    assert b[i] == b[j];
  }

  lemma {:induction false} DictionaryGrows<V>(names: seq<string>, values: seq<V>, n: nat, byFid: map<string, V>)
    requires |names| == |values| && n < |names| && Dictionary(names[..n], values[..n], byFid)
    ensures names[n] !in byFid ==> Dictionary(names[..n + 1], values[..n + 1], byFid[names[n] := values[n]])
    ensures names[n] in byFid ==> !Distinct(names)
  {
    DictionaryStep(names[..n], values[..n], byFid, names[n], values[n]);
    assert names[..n + 1] == names[..n] + [names[n]] && values[..n + 1] == values[..n] + [values[n]];
    if names[n] in byFid {
      RepeatInPrefixOf(names[..n + 1], names);
    }
  }

  function FindingOf(i: Item): Finding { i.finding }

  /** `_load_packets` over everything the packets hold. */
  method LoadPackets(loaded: seq<Item>) returns (repeated: bool, byFid: map<string, Finding>)
    ensures repeated <==> !Distinct(Fids(loaded))
    ensures !repeated ==> Dictionary(Fids(loaded), Map(loaded, FindingOf), byFid)
  {
    repeated, byFid := false, map[];
    ghost var names, values := Fids(loaded), Map(loaded, FindingOf);
    for n := 0 to |loaded|
      invariant !repeated && Dictionary(names[..n], values[..n], byFid)
    {
      DictionaryGrows(names, values, n, byFid);
      if loaded[n].fid in byFid {
        repeated := true;
        return;
      }
      byFid := byFid[loaded[n].fid := loaded[n].finding];
    }
    assert names[..|loaded|] == names && values[..|loaded|] == values;
  }

  predicate WellFormed(v: Verdict) {
    v.sameDefect in VALID_SAME_DEFECT && (v.fpLabel.Some? ==> v.fpLabel.value in VALID_FP_LABEL)
  }

  function NameOf(v: (string, Verdict)): string { v.0 }

  function LabelOf(v: (string, Verdict)): Verdict { v.1 }

  ghost predicate AllWellFormed(verdicts: seq<Verdict>) {
    forall i :: 0 <= i < |verdicts| ==> WellFormed(verdicts[i])
  }

  ghost predicate LoadedUpTo(labels: seq<(string, Verdict)>, n: nat, byFid: map<string, Verdict>)
    requires n <= |labels|
  {
    && Dictionary(Map(labels, NameOf)[..n], Map(labels, LabelOf)[..n], byFid)
    && forall i :: 0 <= i < n ==> WellFormed(labels[i].1)
  }

  lemma {:induction false} LoadStep(labels: seq<(string, Verdict)>, n: nat, byFid: map<string, Verdict>)
    requires n < |labels| && LoadedUpTo(labels, n, byFid)
    ensures labels[n].0 in byFid ==> !Distinct(Map(labels, NameOf))
    ensures labels[n].0 !in byFid && WellFormed(labels[n].1) ==> LoadedUpTo(labels, n + 1, byFid[labels[n].0 := labels[n].1])
  {
    var names, values := Map(labels, NameOf), Map(labels, LabelOf);
    assert names[n] == labels[n].0 && values[n] == labels[n].1;
    DictionaryGrows(names, values, n, byFid);
  }

  lemma {:induction false} OneIllFormed(labels: seq<(string, Verdict)>, n: nat)
    requires n < |labels| && !WellFormed(labels[n].1)
    ensures !AllWellFormed(Map(labels, LabelOf))
  {
    assert Map(labels, LabelOf)[n] == labels[n].1;
  }

  lemma {:induction false} LoadedAll(labels: seq<(string, Verdict)>, byFid: map<string, Verdict>)
    requires LoadedUpTo(labels, |labels|, byFid)
    ensures Distinct(Map(labels, NameOf)) && AllWellFormed(Map(labels, LabelOf))
    ensures Dictionary(Map(labels, NameOf), Map(labels, LabelOf), byFid)
  {
    var names, values := Map(labels, NameOf), Map(labels, LabelOf);
    assert names[..|labels|] == names && values[..|labels|] == values;
  }

  /** `_load_verdicts`. */
  method LoadVerdicts(labels: seq<(string, Verdict)>) returns (refused: bool, byFid: map<string, Verdict>)
    ensures refused <==> !Distinct(Map(labels, NameOf)) || !AllWellFormed(Map(labels, LabelOf))
    ensures !refused ==> Dictionary(Map(labels, NameOf), Map(labels, LabelOf), byFid)
  {
    refused, byFid := false, map[];
    for n := 0 to |labels|
      invariant !refused && LoadedUpTo(labels, n, byFid)
    {
      LoadStep(labels, n, byFid);
      if labels[n].0 in byFid {
        refused := true;
        return;
      }
      if !WellFormed(labels[n].1) {
        OneIllFormed(labels, n);
        refused := true;
        return;
      }
      byFid := byFid[labels[n].0 := labels[n].1];
    }
    LoadedAll(labels, byFid);
  }

  // ---------------------------------------------------------------- validation

  predicate IsBlockerMajor(j: Judged) { j.finding.severity in BLOCKER_MAJOR }

  /** A false-positive label is given exactly to the blocker and major findings that are
      not the caught defect. */
  predicate LabelFits(j: Judged) {
    j.verdict.fpLabel.Some? <==> IsBlockerMajor(j) && j.verdict.sameDefect != "yes"
  }

  /** `_validate`. */
  predicate Accepts(unblind: map<string, Key>, packets: map<string, Finding>, verdicts: map<string, Verdict>) {
    && unblind.Keys == verdicts.Keys && unblind.Keys <= packets.Keys
    && forall fid :: fid in unblind && fid in packets && fid in verdicts ==> LabelFits(Judged(packets[fid], verdicts[fid]))
  }

  // ---------------------------------------------------------------- the runs map

  const NOT_JUDGED: Judged := Judged(Finding("", ""), Verdict("", None))

  function Join(packets: map<string, Finding>, verdicts: map<string, Verdict>): string -> Judged {
    (fid: string) => if fid in packets && fid in verdicts then Judged(packets[fid], verdicts[fid]) else NOT_JUDGED
  }

  function Behind(unblind: map<string, Key>, key: Key): string -> bool {
    (fid: string) => fid in unblind && unblind[fid] == key
  }

  /** What the rebuilt run of `key` holds after the ids `fids`. */
  function Rebuilt(fids: seq<string>, unblind: map<string, Key>, packets: map<string, Finding>,
                   verdicts: map<string, Verdict>, key: Key): seq<Judged> {
    Map(Filter(fids, Behind(unblind, key)), Join(packets, verdicts))
  }

  /** The first loop of `_build_runs_map`: an empty run for every roster entry. */
  method EmptyRuns(roster: seq<Key>) returns (keys: seq<Key>, rows: map<Key, seq<Judged>>)
    ensures Distinct(keys) && forall k :: k in keys <==> k in roster
    ensures forall k :: k in rows <==> k in roster
    ensures forall k :: k in rows ==> rows[k] == []
    ensures Distinct(roster) ==> keys == roster
  {
    keys, rows := [], map[];
    for i := 0 to |roster|
      invariant Distinct(keys)
      invariant forall k :: k in keys <==> k in roster[..i]
      invariant forall k :: k in rows <==> k in roster[..i]
      invariant forall k :: k in rows ==> rows[k] == []
      invariant Distinct(roster) ==> keys == roster[..i]
    {
      assert roster[..i + 1] == roster[..i] + [roster[i]];
      if roster[i] !in rows {
        DistinctAppend(keys, roster[i]);
        keys := keys + [roster[i]];
      }
      rows := rows[roster[i] := []];
    }
    assert roster[..|roster|] == roster;
  }

  ghost predicate RunsBuilt(roster: seq<Key>, fids: seq<string>, unblind: map<string, Key>, packets: map<string, Finding>,
                            verdicts: map<string, Verdict>, keys: seq<Key>, rows: map<Key, seq<Judged>>) {
    && (forall k :: k in keys <==> k in rows)
    && (forall k :: k in roster ==> k in rows)
    && (forall k :: k in rows ==> rows[k] == Rebuilt(fids, unblind, packets, verdicts, k))
    && (forall k :: k !in rows ==> Rebuilt(fids, unblind, packets, verdicts, k) == [])
  }

  lemma {:induction false} RebuiltStep(fids: seq<string>, fid: string, unblind: map<string, Key>, packets: map<string, Finding>,
                                       verdicts: map<string, Verdict>, key: Key)
    ensures Rebuilt(fids + [fid], unblind, packets, verdicts, key)
         == Rebuilt(fids, unblind, packets, verdicts, key) +
            if Behind(unblind, key)(fid) then [Join(packets, verdicts)(fid)] else []
  {
    FilterAppend(fids, [fid], Behind(unblind, key));
    assert Filter([fid][1..], Behind(unblind, key)) == [];
  }

  /** `_build_runs_map`; `fids` is the order in which the key file lists its ids. */
  method BuildRunsMap(roster: seq<Key>, fids: seq<string>, unblind: map<string, Key>, packets: map<string, Finding>,
                      verdicts: map<string, Verdict>)
    returns (keys: seq<Key>, rows: map<Key, seq<Judged>>)
    requires forall fid :: fid in fids ==> fid in unblind && fid in packets && fid in verdicts
    ensures RunsBuilt(roster, fids, unblind, packets, verdicts, keys, rows)
    ensures Distinct(roster) && (forall fid :: fid in fids ==> unblind[fid] in roster) ==> keys == roster
  {
    keys, rows := EmptyRuns(roster);
    for i := 0 to |fids|
      invariant RunsBuilt(roster, fids[..i], unblind, packets, verdicts, keys, rows)
      invariant Distinct(roster) && (forall fid :: fid in fids ==> unblind[fid] in roster) ==> keys == roster
    {
      assert fids[..i + 1] == fids[..i] + [fids[i]];
      keys, rows := AddFinding(roster, fids[..i], fids[i], unblind, packets, verdicts, keys, rows);
    }
    assert fids[..|fids|] == fids;
  }

  /** One id of the key file: its run gets its judged finding, made if need be. */
  method AddFinding(ghost roster: seq<Key>, ghost done: seq<string>, fid: string, unblind: map<string, Key>,
                    packets: map<string, Finding>, verdicts: map<string, Verdict>,
                    keys0: seq<Key>, rows0: map<Key, seq<Judged>>)
    returns (keys: seq<Key>, rows: map<Key, seq<Judged>>)
    requires fid in unblind && fid in packets && fid in verdicts
    requires RunsBuilt(roster, done, unblind, packets, verdicts, keys0, rows0)
    ensures RunsBuilt(roster, done + [fid], unblind, packets, verdicts, keys, rows)
    ensures unblind[fid] in roster ==> keys == keys0
  {
    keys, rows := keys0, rows0;
    var key := unblind[fid];
    forall k ensures Rebuilt(done + [fid], unblind, packets, verdicts, k)
                  == Rebuilt(done, unblind, packets, verdicts, k) +
                     if key == k then [Join(packets, verdicts)(fid)] else [] {
      RebuiltStep(done, fid, unblind, packets, verdicts, k);
    }
    if key !in rows {
      keys := keys + [key];
      rows := rows[key := []];
    }
    rows := rows[key := rows[key] + [Judged(packets[fid], verdicts[fid])]];
  }

  // ---------------------------------------------------------------- counting

  predicate IsCatch(j: Judged) { j.verdict.sameDefect == "yes" }
  predicate IsPartialCatch(j: Judged) { j.verdict.sameDefect == "yes" || j.verdict.sameDefect == "partial" }
  predicate IsFalsePositive(j: Judged) { IsBlockerMajor(j) && j.verdict.fpLabel == Some("false_positive") }
  predicate IsRealOther(j: Judged) { IsBlockerMajor(j) && j.verdict.fpLabel == Some("real") }

  /** What one run contributes to its arm. */
  datatype Tally = Tally(arm: string, caught: bool, caughtInclPartial: bool,
                         blockerMajor: nat, falsePositive: nat, realOther: nat)

  function TallyOf(key: Key, judged: seq<Judged>): Tally {
    Tally(key.arm, Count(judged, IsCatch) > 0, Count(judged, IsPartialCatch) > 0,
          Count(judged, IsBlockerMajor), Count(judged, IsFalsePositive), Count(judged, IsRealOther))
  }

  datatype Totals = Totals(runs: nat, semanticCatch: nat, catchInclPartial: nat, blockerMajor: int,
                           bmFalsePositive: int, bmRealOther: int, runsWithBmFp: nat)

  /** `_arm_totals` over the runs of one arm. */
  function ArmTotals(tallies: seq<Tally>, arm: string): Totals {
    var mine := Filter(tallies, (t: Tally) => t.arm == arm);
    Totals(|mine|, Count(mine, (t: Tally) => t.caught), Count(mine, (t: Tally) => t.caughtInclPartial),
           Sum(mine, (t: Tally) => t.blockerMajor), Sum(mine, (t: Tally) => t.falsePositive),
           Sum(mine, (t: Tally) => t.realOther), Count(mine, (t: Tally) => t.falsePositive > 0))
  }

  function RowOf(rows: map<Key, seq<Judged>>): Key -> seq<Judged> {
    (key: Key) => if key in rows then rows[key] else []
  }

  function TallyIn(rows: map<Key, seq<Judged>>): Key -> Tally {
    (key: Key) => TallyOf(key, RowOf(rows)(key))
  }

  /** A tally does not depend on the order of the findings of its run. */
  lemma {:induction false} TallyOrder(key: Key, a: seq<Judged>, b: seq<Judged>)
    requires multiset(a) == multiset(b)
    ensures TallyOf(key, a) == TallyOf(key, b)
  {
    CountPermutation(a, b, IsCatch);
    CountPermutation(a, b, IsPartialCatch);
    CountPermutation(a, b, IsBlockerMajor);
    CountPermutation(a, b, IsFalsePositive);
    CountPermutation(a, b, IsRealOther);
  }

  /** Totals do not depend on the order of the runs. */
  lemma {:induction false} TotalsOrder(a: seq<Tally>, b: seq<Tally>, arm: string)
    requires multiset(a) == multiset(b)
    ensures ArmTotals(a, arm) == ArmTotals(b, arm)
  {
    var f := (t: Tally) => t.arm == arm;
    FilterPermutation(a, b, f);
    var x, y := Filter(a, f), Filter(b, f);
    assert |multiset(x)| == |x| && |multiset(y)| == |y|;
    CountPermutation(x, y, (t: Tally) => t.caught);
    CountPermutation(x, y, (t: Tally) => t.caughtInclPartial);
    SumPermutation(x, y, (t: Tally) => t.blockerMajor);
    SumPermutation(x, y, (t: Tally) => t.falsePositive);
    SumPermutation(x, y, (t: Tally) => t.realOther);
    CountPermutation(x, y, (t: Tally) => t.falsePositive > 0);
  }

  // ---------------------------------------------------------------- what the totals count

  /** The positions of the runs of an arm. */
  ghost function RunsOf(keys: seq<Key>, arm: string): set<nat> {
    set i: nat | i < |keys| && keys[i].arm == arm
  }

  /** The runs of an arm with some finding that was judged in one of these ways. */
  ghost function RunsJudged(keys: seq<Key>, judged: seq<seq<Judged>>, arm: string, answers: set<string>): set<nat>
    requires |keys| == |judged|
  {
    set i: nat | i in RunsOf(keys, arm) && exists j: nat :: j < |judged[i]| && judged[i][j].verdict.sameDefect in answers
  }

  /** The blocker and major findings of an arm, as run and place in the run. */
  ghost function Severe(keys: seq<Key>, judged: seq<seq<Judged>>, arm: string): set<(nat, nat)>
    requires |keys| == |judged|
  {
    set i: nat, j: nat | i in RunsOf(keys, arm) && j < |judged[i]| && judged[i][j].finding.severity in {"blocker", "major"} :: (i, j)
  }

  ghost function SevereLabelled(keys: seq<Key>, judged: seq<seq<Judged>>, arm: string, verdict: string): set<(nat, nat)>
    requires |keys| == |judged|
  {
    set i: nat, j: nat | i in RunsOf(keys, arm) && j < |judged[i]| && judged[i][j].finding.severity in {"blocker", "major"}
                         && judged[i][j].verdict.fpLabel == Some(verdict) :: (i, j)
  }

  ghost function RunsLabelled(keys: seq<Key>, judged: seq<seq<Judged>>, arm: string, verdict: string): set<nat>
    requires |keys| == |judged|
  {
    set i: nat | i in RunsOf(keys, arm) && exists j: nat :: (i, j) in SevereLabelled(keys, judged, arm, verdict)
  }

  /** The totals of an arm, counted on the positions of the runs and of their findings. */
  ghost predicate Reported(t: Totals, keys: seq<Key>, judged: seq<seq<Judged>>, arm: string)
    requires |keys| == |judged|
  {
    && t.runs == |RunsOf(keys, arm)|
    && t.semanticCatch == |RunsJudged(keys, judged, arm, {"yes"})|
    && t.catchInclPartial == |RunsJudged(keys, judged, arm, {"yes", "partial"})|
    && t.blockerMajor == |Severe(keys, judged, arm)|
    && t.bmFalsePositive == |SevereLabelled(keys, judged, arm, "false_positive")|
    && t.bmRealOther == |SevereLabelled(keys, judged, arm, "real")|
    && t.runsWithBmFp == |RunsLabelled(keys, judged, arm, "false_positive")|
  }

  /** `tallies` are those of the runs `keys` with the findings `judged`. */
  ghost predicate Tallied(tallies: seq<Tally>, keys: seq<Key>, judged: seq<seq<Judged>>) {
    && |tallies| == |keys| == |judged|
    && forall i :: 0 <= i < |keys| ==> tallies[i] == TallyOf(keys[i], judged[i])
  }

  lemma {:induction false} CountedAbove<T>(s: seq<T>, p: T -> bool)
    ensures Count(s, p) > 0 <==> exists j: nat :: j < |s| && p(s[j])
  {
    CountBounds(s, p);
    if x :| x in s && p(x) {
      var j :| 0 <= j < |s| && s[j] == x;
    }
  }

  /** How many tallies of the arm have a property. */
  lemma {:induction false} MineCounted(tallies: seq<Tally>, arm: string, q: Tally -> bool, at: set<nat>)
    requires forall i: nat :: i in at <==> i < |tallies| && tallies[i].arm == arm && q(tallies[i])
    ensures Count(Filter(tallies, (t: Tally) => t.arm == arm), q) == |at|
  {
    var both := (t: Tally) => t.arm == arm && q(t);
    CountFiltered(tallies, (t: Tally) => t.arm == arm, q, both);
    CountIsPositions(tallies, both);
    assert Positions(tallies, both) == at;
  }

  /** How many findings of a kind the tallies of the arm add up to. */
  lemma {:induction false} MineSummed(tallies: seq<Tally>, keys: seq<Key>, judged: seq<seq<Judged>>, arm: string,
                                      size: Tally -> int, p: Judged -> bool, at: set<(nat, nat)>)
    requires Tallied(tallies, keys, judged)
    requires forall key: Key, js: seq<Judged> :: size(TallyOf(key, js)) == Count(js, p)
    requires forall i: nat, j: nat :: (i, j) in at <==> i in RunsOf(keys, arm) && j < |judged[i]| && p(judged[i][j])
    ensures Sum(Filter(tallies, (t: Tally) => t.arm == arm), size) == |at|
  {
    assert judged[..|judged|] == judged && tallies[..|tallies|] == tallies;
    SummedUpTo(tallies, keys, judged, arm, size, p, |keys|);
    forall x: (nat, nat) ensures x in Pairs(judged, RunsOf(keys, arm), p) <==> x in at {
      assert x == (x.0, x.1);
    }
    assert Pairs(judged, RunsOf(keys, arm), p) == at;
  }

  lemma {:induction false} SummedUpTo(tallies: seq<Tally>, keys: seq<Key>, judged: seq<seq<Judged>>, arm: string,
                                      size: Tally -> int, p: Judged -> bool, n: nat)
    requires Tallied(tallies, keys, judged) && n <= |keys|
    requires forall key: Key, js: seq<Judged> :: size(TallyOf(key, js)) == Count(js, p)
    ensures Sum(Filter(tallies[..n], (t: Tally) => t.arm == arm), size) == |Pairs(judged[..n], RunsOf(keys, arm), p)|
  {
    if n > 0 {
      var f := (t: Tally) => t.arm == arm;
      SummedUpTo(tallies, keys, judged, arm, size, p, n - 1);
      assert tallies[..n] == tallies[..n - 1] + [tallies[n - 1]];
      FilterAppend(tallies[..n - 1], [tallies[n - 1]], f);
      SumAppend(Filter(tallies[..n - 1], f), Filter([tallies[n - 1]], f), size);
      assert [tallies[n - 1]][1..] == [];
      assert judged[..n][..n - 1] == judged[..n - 1];
      PairsSnoc(judged[..n], RunsOf(keys, arm), p);
      assert tallies[n - 1] == TallyOf(keys[n - 1], judged[n - 1]);
    } else {
      assert Pairs(judged[..0], RunsOf(keys, arm), p) == {};
    }
  }

  lemma {:induction false} RunsReport(tallies: seq<Tally>, keys: seq<Key>, arm: string)
    requires |tallies| == |keys| && forall i :: 0 <= i < |keys| ==> tallies[i].arm == keys[i].arm
    ensures ArmTotals(tallies, arm).runs == |RunsOf(keys, arm)|
  {
    var any := (t: Tally) => true;
    MineCounted(tallies, arm, any, RunsOf(keys, arm));
    CountBounds(Filter(tallies, (t: Tally) => t.arm == arm), any);
  }

  /** The runs of an arm with some finding of a kind. */
  lemma {:induction false} RunsWith(tallies: seq<Tally>, keys: seq<Key>, judged: seq<seq<Judged>>, arm: string,
                                    q: Tally -> bool, p: Judged -> bool, at: set<nat>)
    requires Tallied(tallies, keys, judged)
    requires forall key: Key, js: seq<Judged> :: q(TallyOf(key, js)) <==> Count(js, p) > 0
    requires forall i: nat :: i in at <==> i in RunsOf(keys, arm) && exists j: nat :: j < |judged[i]| && p(judged[i][j])
    ensures Count(Filter(tallies, (t: Tally) => t.arm == arm), q) == |at|
  {
    forall i: nat ensures i in at <==> i < |tallies| && tallies[i].arm == arm && q(tallies[i]) {
      if i < |keys| {
        assert tallies[i] == TallyOf(keys[i], judged[i]);
        CountedAbove(judged[i], p);
      }
    }
    MineCounted(tallies, arm, q, at);
  }

  lemma {:induction false} CatchesReport(tallies: seq<Tally>, keys: seq<Key>, judged: seq<seq<Judged>>, arm: string)
    requires Tallied(tallies, keys, judged)
    ensures ArmTotals(tallies, arm).semanticCatch == |RunsJudged(keys, judged, arm, {"yes"})|
    ensures ArmTotals(tallies, arm).catchInclPartial == |RunsJudged(keys, judged, arm, {"yes", "partial"})|
  {
    RunsWith(tallies, keys, judged, arm, (t: Tally) => t.caught, IsCatch, RunsJudged(keys, judged, arm, {"yes"}));
    RunsWith(tallies, keys, judged, arm, (t: Tally) => t.caughtInclPartial, IsPartialCatch,
             RunsJudged(keys, judged, arm, {"yes", "partial"}));
  }

  lemma {:induction false} FalseRunsReport(tallies: seq<Tally>, keys: seq<Key>, judged: seq<seq<Judged>>, arm: string)
    requires Tallied(tallies, keys, judged)
    ensures ArmTotals(tallies, arm).runsWithBmFp == |RunsLabelled(keys, judged, arm, "false_positive")|
  {
    var at := RunsLabelled(keys, judged, arm, "false_positive");
    forall i: nat
      ensures i in at <==> i in RunsOf(keys, arm) && exists j: nat :: j < |judged[i]| && IsFalsePositive(judged[i][j])
    {
      if i in RunsOf(keys, arm) {
        forall j: nat
          ensures (i, j) in SevereLabelled(keys, judged, arm, "false_positive")
             <==> j < |judged[i]| && IsFalsePositive(judged[i][j])
        {
        }
      }
    }
    RunsWith(tallies, keys, judged, arm, (t: Tally) => t.falsePositive > 0, IsFalsePositive, at);
  }

  lemma {:induction false} FindingsReport(tallies: seq<Tally>, keys: seq<Key>, judged: seq<seq<Judged>>, arm: string)
    requires Tallied(tallies, keys, judged)
    ensures ArmTotals(tallies, arm).blockerMajor == |Severe(keys, judged, arm)|
    ensures ArmTotals(tallies, arm).bmFalsePositive == |SevereLabelled(keys, judged, arm, "false_positive")|
    ensures ArmTotals(tallies, arm).bmRealOther == |SevereLabelled(keys, judged, arm, "real")|
  {
    MineSummed(tallies, keys, judged, arm, (t: Tally) => t.blockerMajor, IsBlockerMajor, Severe(keys, judged, arm));
    MineSummed(tallies, keys, judged, arm, (t: Tally) => t.falsePositive, IsFalsePositive,
               SevereLabelled(keys, judged, arm, "false_positive"));
    MineSummed(tallies, keys, judged, arm, (t: Tally) => t.realOther, IsRealOther, SevereLabelled(keys, judged, arm, "real"));
  }

  /** Every field of the totals is a number of positions. */
  lemma {:induction false} TotalsReport(tallies: seq<Tally>, keys: seq<Key>, judged: seq<seq<Judged>>, arm: string)
    requires Tallied(tallies, keys, judged)
    ensures Reported(ArmTotals(tallies, arm), keys, judged, arm)
  {
    RunsReport(tallies, keys, arm);
    CatchesReport(tallies, keys, judged, arm);
    FalseRunsReport(tallies, keys, judged, arm);
    FindingsReport(tallies, keys, judged, arm);
  }

  // ---------------------------------------------------------------- counting directly

  function VerdictFor(verdicts: map<string, Verdict>): Item -> Judged {
    (item: Item) => Judged(item.finding, if item.fid in verdicts then verdicts[item.fid] else NOT_JUDGED.verdict)
  }

  /** The tally of a run straight from its report, with the verdicts on its own findings. */
  function DirectTally(hash: Hash, verdicts: map<string, Verdict>): Run -> Tally {
    (run: Run) => TallyOf(run.key, Map(Items(AllTagsOf(hash, run)), VerdictFor(verdicts)))
  }

  function DirectTotals(hash: Hash, runs: seq<Run>, verdicts: map<string, Verdict>, arm: string): Totals {
    ArmTotals(Map(runs, DirectTally(hash, verdicts)), arm)
  }

  // ---------------------------------------------------------------- blinding is a no-op

  /** The ids behind a key, in the order they were made, are those of its run. */
  lemma {:induction false} OwnIds(hash: Hash, runs: seq<Run>, i: nat)
    requires i < |runs| && Distinct(Keys(runs))
    ensures Filter(Tagged(hash, runs), HiddenBehind(runs[i].key)) == AllTagsOf(hash, runs[i])
    decreases |runs|
  {
    var n := |runs| - 1;
    var key, front, last := runs[i].key, runs[..n], runs[n];
    FilterAppend(Tagged(hash, front), AllTagsOf(hash, last), HiddenBehind(key));
    if i == n {
      assert forall j :: 0 <= j < n ==> Keys(runs)[j] != Keys(runs)[n];
      OthersHide(hash, front, key);
      FilterAll(AllTagsOf(hash, last), HiddenBehind(key));
    } else {
      assert Keys(front) == Keys(runs)[..n];
      OwnIds(hash, front, i);
      assert last.key != key by {
        assert Keys(runs)[i] != Keys(runs)[n];
      }
      FilterNone(AllTagsOf(hash, last), HiddenBehind(key));
    }
  }

  lemma {:induction false} OthersHide(hash: Hash, runs: seq<Run>, key: Key)
    requires forall i :: 0 <= i < |runs| ==> runs[i].key != key
    ensures Filter(Tagged(hash, runs), HiddenBehind(key)) == []
  {
    if runs != [] {
      var n := |runs| - 1;
      OthersHide(hash, runs[..n], key);
      FilterAppend(Tagged(hash, runs[..n]), AllTagsOf(hash, runs[n]), HiddenBehind(key));
      FilterNone(AllTagsOf(hash, runs[n]), HiddenBehind(key));
    }
  }

  /** The findings behind a key, joined to their verdicts, are those of its run, in the
      order the ids happen to be listed. */
  lemma {:induction false} RunIsRebuilt(hash: Hash, runs: seq<Run>, i: nat, fids: seq<string>, loaded: seq<Item>,
                                        packets: map<string, Finding>, verdicts: map<string, Verdict>)
    requires i < |runs| && Distinct(Keys(runs))
    requires var tags := Tagged(hash, runs);
             && Distinct(Fids(Items(tags))) && multiset(fids) == multiset(Fids(Items(tags)))
             && multiset(loaded) == multiset(Items(tags)) && Dictionary(Fids(loaded), Map(loaded, FindingOf), packets)
             && forall fid :: fid in fids ==> fid in verdicts
    ensures multiset(Rebuilt(fids, UnblindOf(Tagged(hash, runs)), packets, verdicts, runs[i].key))
         == multiset(Map(Items(AllTagsOf(hash, runs[i])), VerdictFor(verdicts)))
  {
    var tags, key := Tagged(hash, runs), runs[i].key;
    var behind, join := Behind(UnblindOf(tags), key), Join(packets, verdicts);
    FilterPermutation(fids, Fids(Items(tags)), behind);
    MapPermutation(Filter(fids, behind), Filter(Fids(Items(tags)), behind), join);
    forall j | 0 <= j < |tags| ensures behind(tags[j].item.fid) == HiddenBehind(key)(tags[j]) {
      UnblindReveals(tags, j);
    }
    FilterThroughIds(tags, behind, HiddenBehind(key));
    OwnIds(hash, runs, i);
    JoinedItems(tags, AllTagsOf(hash, runs[i]), HiddenBehind(key), fids, loaded, packets, verdicts);
  }

  /** Filtering ids by what they hide is filtering the tags by what they hide. */
  lemma {:induction false} FilterThroughIds(tags: seq<Tag>, p: string -> bool, q: Tag -> bool)
    requires forall i :: 0 <= i < |tags| ==> p(tags[i].item.fid) == q(tags[i])
    ensures Filter(Fids(Items(tags)), p) == Fids(Items(Filter(tags, q)))
  {
    if tags != [] {
      assert Fids(Items(tags))[0] == tags[0].item.fid;
      assert Fids(Items(tags))[1..] == Fids(Items(tags[1..]));
      FilterThroughIds(tags[1..], p, q);
    }
  }

  lemma {:induction false} JoinedItems(tags: seq<Tag>, own: seq<Tag>, q: Tag -> bool, fids: seq<string>, loaded: seq<Item>,
                                       packets: map<string, Finding>, verdicts: map<string, Verdict>)
    requires own == Filter(tags, q)
    requires multiset(fids) == multiset(Fids(Items(tags))) && forall fid :: fid in fids ==> fid in verdicts
    requires multiset(loaded) == multiset(Items(tags)) && Dictionary(Fids(loaded), Map(loaded, FindingOf), packets)
    ensures Map(Fids(Items(own)), Join(packets, verdicts)) == Map(Items(own), VerdictFor(verdicts))
  {
    FilterMembers(tags, q);
    forall k | 0 <= k < |own|
      ensures Join(packets, verdicts)(own[k].item.fid) == VerdictFor(verdicts)(own[k].item)
    {
      assert own[k] in tags;
      KnownItem(tags, own[k], fids, loaded, packets);
    }
  }

  lemma {:induction false} KnownItem(tags: seq<Tag>, t: Tag, fids: seq<string>, loaded: seq<Item>, packets: map<string, Finding>)
    requires t in tags && multiset(fids) == multiset(Fids(Items(tags)))
    requires multiset(loaded) == multiset(Items(tags)) && Dictionary(Fids(loaded), Map(loaded, FindingOf), packets)
    ensures t.item.fid in fids && t.item.fid in packets && packets[t.item.fid] == t.item.finding
  {
    var i :| 0 <= i < |tags| && tags[i] == t;
    assert Items(tags)[i] == t.item && Fids(Items(tags))[i] == t.item.fid;
    assert t.item in multiset(Items(tags)) && t.item.fid in multiset(Fids(Items(tags)));
    assert t.item in loaded && t.item.fid in fids;
    var k :| 0 <= k < |loaded| && loaded[k] == t.item;
    assert Fids(loaded)[k] == t.item.fid && Map(loaded, FindingOf)[k] == t.item.finding;
  }

  /** The key file, the packets and the verdicts that `score` was given fit what `pack` made
      of these runs: same ids, same findings, in whatever order. */
  ghost predicate Fit(tags: seq<Tag>, fids: seq<string>, loaded: seq<Item>, packets: map<string, Finding>,
                      verdicts: map<string, Verdict>) {
    && Distinct(Fids(Items(tags))) && multiset(fids) == multiset(Fids(Items(tags)))
    && multiset(loaded) == multiset(Items(tags)) && Dictionary(Fids(loaded), Map(loaded, FindingOf), packets)
    && forall fid :: fid in fids ==> fid in verdicts
  }

  lemma {:induction false} TallyMatches(hash: Hash, runs: seq<Run>, i: nat, roster: seq<Key>, fids: seq<string>,
                                        loaded: seq<Item>, packets: map<string, Finding>, verdicts: map<string, Verdict>,
                                        keys: seq<Key>, rows: map<Key, seq<Judged>>)
    requires i < |runs| && Distinct(Keys(runs)) && runs[i].key in roster
    requires Fit(Tagged(hash, runs), fids, loaded, packets, verdicts)
    requires RunsBuilt(roster, fids, UnblindOf(Tagged(hash, runs)), packets, verdicts, keys, rows)
    ensures TallyIn(rows)(runs[i].key) == DirectTally(hash, verdicts)(runs[i])
  {
    RunIsRebuilt(hash, runs, i, fids, loaded, packets, verdicts);
    assert RowOf(rows)(runs[i].key) == Rebuilt(fids, UnblindOf(Tagged(hash, runs)), packets, verdicts, runs[i].key);
    TallyOrder(runs[i].key, Rebuilt(fids, UnblindOf(Tagged(hash, runs)), packets, verdicts, runs[i].key),
               Map(Items(AllTagsOf(hash, runs[i])), VerdictFor(verdicts)));
  }

  lemma {:induction false} TotalsMatch(hash: Hash, runs: seq<Run>, roster: seq<Key>, fids: seq<string>,
                                       loaded: seq<Item>, packets: map<string, Finding>, verdicts: map<string, Verdict>,
                                       keys: seq<Key>, rows: map<Key, seq<Judged>>, arm: string)
    requires Distinct(Keys(runs)) && multiset(roster) == multiset(Keys(runs)) && keys == roster
    requires Fit(Tagged(hash, runs), fids, loaded, packets, verdicts)
    requires RunsBuilt(roster, fids, UnblindOf(Tagged(hash, runs)), packets, verdicts, keys, rows)
    ensures ArmTotals(Map(keys, TallyIn(rows)), arm) == DirectTotals(hash, runs, verdicts, arm)
  {
    forall i | 0 <= i < |runs| ensures TallyIn(rows)(runs[i].key) == DirectTally(hash, verdicts)(runs[i]) {
      OnRoster(runs, i, roster);
      TallyMatches(hash, runs, i, roster, fids, loaded, packets, verdicts, keys, rows);
    }
    SameTallies(runs, roster, TallyIn(rows), DirectTally(hash, verdicts), arm);
  }

  lemma {:induction false} OnRoster(runs: seq<Run>, i: nat, roster: seq<Key>)
    requires i < |runs| && multiset(roster) == multiset(Keys(runs))
    ensures runs[i].key in roster
  {
    assert Keys(runs)[i] in multiset(Keys(runs));
    assert Keys(runs)[i] in multiset(roster);
  }

  lemma {:induction false} SameTallies(runs: seq<Run>, roster: seq<Key>, f: Key -> Tally, g: Run -> Tally, arm: string)
    requires multiset(roster) == multiset(Keys(runs))
    requires forall i :: 0 <= i < |runs| ==> f(runs[i].key) == g(runs[i])
    ensures ArmTotals(Map(roster, f), arm) == ArmTotals(Map(runs, g), arm)
  {
    assert Map(Keys(runs), f) == Map(runs, g);
    MapPermutation(roster, Keys(runs), f);
    TotalsOrder(Map(roster, f), Map(runs, g), arm);
  }

  lemma {:induction false} IdsJudged(tags: seq<Tag>, fids: seq<string>, verdicts: map<string, Verdict>)
    requires multiset(fids) == multiset(Fids(Items(tags))) && UnblindOf(tags).Keys == verdicts.Keys
    ensures forall fid :: fid in fids ==> fid in verdicts
  {
    UnblindKnows(tags);
    forall fid | fid in fids ensures fid in verdicts {
      assert fid in multiset(fids);
      assert fid in multiset(Fids(Items(tags)));
    }
  }

  // ---------------------------------------------------------------- pack, then score

  /** Each finding lands in the packets exactly once, and the packets always load. */
  lemma {:induction false} PacketsLoad(hash: Hash, raws: seq<RawRun>, order: seq<string>, shuffled: map<string, seq<Item>>,
                                       packetFiles: seq<seq<Group>>)
    requires Packed(hash, raws, order, shuffled, packetFiles)
    ensures multiset(Loaded(packetFiles)) == multiset(Items(Tagged(hash, Labelled(raws))))
    ensures Distinct(Fids(Loaded(packetFiles)))
  {
    var tags := Tagged(hash, Labelled(raws));
    PacketsHoldEverything(tags, order, shuffled, packetFiles);
    MapPermutation(Items(tags), Loaded(packetFiles), FidOf);
    DistinctIsPermutationInvariant(Fids(Items(tags)), Fids(Loaded(packetFiles)));
  }

  /** Every key the key file names is on the roster, so `score` never adds a run. */
  lemma {:induction false} KeysOnRoster(hash: Hash, runs: seq<Run>, fid: string)
    requires fid in UnblindOf(Tagged(hash, runs))
    ensures UnblindOf(Tagged(hash, runs))[fid] in Keys(runs)
  {
    UnblindNames(Tagged(hash, runs), fid);
    TagsNameRuns(hash, runs);
  }

  lemma {:induction false} UnblindNames(tags: seq<Tag>, fid: string)
    requires fid in UnblindOf(tags)
    ensures exists t :: t in tags && t.key == UnblindOf(tags)[fid]
  {
    var n := |tags| - 1;
    assert tags == tags[..n] + [tags[n]];
    if fid != tags[n].item.fid {
      UnblindNames(tags[..n], fid);
    }
  }

  lemma {:induction false} TagsNameRuns(hash: Hash, runs: seq<Run>)
    ensures forall t :: t in Tagged(hash, runs) ==> t.key in Keys(runs)
  {
    if runs != [] {
      TagsNameRuns(hash, runs[..|runs| - 1]);
    }
  }

  lemma {:induction false} DictionaryUnique<V>(names: seq<string>, values: seq<V>, a: map<string, V>, b: map<string, V>)
    requires |names| == |values| && Dictionary(names, values, a) && Dictionary(names, values, b)
    ensures a == b
  {
    forall fid | fid in a ensures fid in b && a[fid] == b[fid] {
      var i :| 0 <= i < |names| && names[i] == fid;
    }
    forall fid | fid in b ensures fid in a {
      assert fid in names;
    }
  }

  /** Packets and labels that load, and verdicts that fit them. */
  ghost predicate Scorable(unblind: map<string, Key>, loaded: seq<Item>, labels: seq<(string, Verdict)>,
                           packets: map<string, Finding>, verdicts: map<string, Verdict>) {
    && Dictionary(Fids(loaded), Map(loaded, FindingOf), packets)
    && Dictionary(Map(labels, NameOf), Map(labels, LabelOf), verdicts) && AllWellFormed(Map(labels, LabelOf))
    && Accepts(unblind, packets, verdicts)
  }

  lemma {:induction false} NotScorable(unblind: map<string, Key>, loaded: seq<Item>, labels: seq<(string, Verdict)>,
                                       packets: map<string, Finding>, verdicts: map<string, Verdict>)
    requires Dictionary(Fids(loaded), Map(loaded, FindingOf), packets)
    requires Dictionary(Map(labels, NameOf), Map(labels, LabelOf), verdicts)
    requires !Accepts(unblind, packets, verdicts)
    ensures forall p, v :: !Scorable(unblind, loaded, labels, p, v)
  {
    forall p, v | Scorable(unblind, loaded, labels, p, v) ensures false {
      DictionaryUnique(Fids(loaded), Map(loaded, FindingOf), packets, p);
      DictionaryUnique(Map(labels, NameOf), Map(labels, LabelOf), verdicts, v);
    }
  }

  /** `cmd_score` from its loaded inputs: refuse, or count one arm. */
  method Score(unblind: map<string, Key>, roster: seq<Key>, fids: seq<string>, loaded: seq<Item>,
               labels: seq<(string, Verdict)>, arm: string)
    returns (refused: bool, packets: map<string, Finding>, verdicts: map<string, Verdict>,
             keys: seq<Key>, rows: map<Key, seq<Judged>>, totals: Totals)
    requires forall fid :: fid in fids <==> fid in unblind
    ensures refused <==> forall p, v :: !Scorable(unblind, loaded, labels, p, v)
    ensures !refused ==> Scorable(unblind, loaded, labels, packets, verdicts)
    ensures !refused ==> RunsBuilt(roster, fids, unblind, packets, verdicts, keys, rows)
    ensures !refused && Distinct(roster) && (forall fid :: fid in fids ==> unblind[fid] in roster) ==> keys == roster
    ensures !refused ==> totals == ArmTotals(Map(keys, TallyIn(rows)), arm)
    ensures !refused ==> Reported(totals, keys, Map(keys, RowOf(rows)), arm)
  {
    keys, rows, totals, verdicts := [], map[], Totals(0, 0, 0, 0, 0, 0, 0), map[];
    refused, packets := LoadPackets(loaded);
    if refused {
      return;
    }
    refused, verdicts := LoadVerdicts(labels);
    if refused {
      return;
    }
    if !Accepts(unblind, packets, verdicts) {
      NotScorable(unblind, loaded, labels, packets, verdicts);
      refused := true;
      return;
    }
    assert Scorable(unblind, loaded, labels, packets, verdicts);
    keys, rows := BuildRunsMap(roster, fids, unblind, packets, verdicts);
    totals := ArmTotals(Map(keys, TallyIn(rows)), arm);
    TotalsReport(Map(keys, TallyIn(rows)), keys, Map(keys, RowOf(rows)), arm);
  }

  /** Scoring what packing made counts every arm as if nothing had been hidden, shuffled or
      dealt: whatever the hash (without a collision), the shuffles, the number of packets,
      the order of the files and the accepted verdicts. */
  lemma {:induction false} ScoringIsCounting(hash: Hash, raws: seq<RawRun>, order: seq<string>, shuffled: map<string, seq<Item>>,
                                             packetFiles: seq<seq<Group>>, roster: seq<Key>, fids: seq<string>,
                                             packets: map<string, Finding>, verdicts: map<string, Verdict>,
                                             keys: seq<Key>, rows: map<Key, seq<Judged>>, arm: string)
    requires Packed(hash, raws, order, shuffled, packetFiles)
    requires multiset(roster) == multiset(Keys(Labelled(raws)))
    requires multiset(fids) == multiset(Fids(Items(Tagged(hash, Labelled(raws)))))
    requires Dictionary(Fids(Loaded(packetFiles)), Map(Loaded(packetFiles), FindingOf), packets)
    requires Accepts(UnblindOf(Tagged(hash, Labelled(raws))), packets, verdicts)
    requires RunsBuilt(roster, fids, UnblindOf(Tagged(hash, Labelled(raws))), packets, verdicts, keys, rows) && keys == roster
    ensures ArmTotals(Map(keys, TallyIn(rows)), arm) == DirectTotals(hash, Labelled(raws), verdicts, arm)
    ensures Reported(ArmTotals(Map(keys, TallyIn(rows)), arm), Keys(Labelled(raws)),
                     WithVerdicts(hash, Labelled(raws), verdicts), arm)
  {
    RunKeysDistinct(raws);
    PacketsLoad(hash, raws, order, shuffled, packetFiles);
    IdsJudged(Tagged(hash, Labelled(raws)), fids, verdicts);
    TotalsMatch(hash, Labelled(raws), roster, fids, Loaded(packetFiles), packets, verdicts, keys, rows, arm);
    DirectReport(hash, Labelled(raws), verdicts, arm);
  }

  /** The names in the key file, and the runs they stand for. */
  lemma {:induction false} KeyFileNames(hash: Hash, raws: seq<RawRun>, fids: seq<string>)
    requires multiset(fids) == multiset(Fids(Items(Tagged(hash, Labelled(raws)))))
    ensures var unblind := UnblindOf(Tagged(hash, Labelled(raws)));
            (forall fid :: fid in fids <==> fid in unblind) &&
            forall fid :: fid in fids ==> unblind[fid] in Keys(Labelled(raws))
  {
    var tags := Tagged(hash, Labelled(raws));
    UnblindKnows(tags);
    forall fid ensures fid in fids <==> fid in Fids(Items(tags)) {
      assert fid in multiset(fids) <==> fid in multiset(Fids(Items(tags)));
    }
    forall fid | fid in UnblindOf(tags) ensures UnblindOf(tags)[fid] in Keys(Labelled(raws)) {
      KeysOnRoster(hash, Labelled(raws), fid);
    }
  }

  // ---------------------------------------------------------------- in terms of the reports and the labels

  /** `judged` gives every finding of every run the verdict written down for its id. */
  ghost predicate JudgedAs(hash: Hash, runs: seq<Run>, labels: seq<(string, Verdict)>, judged: seq<seq<Judged>>) {
    && |judged| == |runs|
    && (forall i: nat :: i < |runs| ==> |judged[i]| == |runs[i].findings|)
    && forall i: nat, j: nat :: i < |runs| && j < |runs[i].findings| ==>
         && judged[i][j].finding == runs[i].findings[j]
         && (IdAt(hash, runs[i], j), judged[i][j].verdict) in labels
  }

  /** Some finding of the reports has this id. */
  ghost predicate Asked(hash: Hash, runs: seq<Run>, fid: string) {
    exists i: nat, j: nat :: i < |runs| && j < |runs[i].findings| && IdAt(hash, runs[i], j) == fid
  }

  /** Some label with this id fits the finding: a label is given exactly to the blocker and
      major findings that are not the caught defect. */
  ghost predicate DulyLabelled(labels: seq<(string, Verdict)>, fid: string, f: Finding) {
    exists a: nat :: a < |labels| && labels[a].0 == fid
      && (labels[a].1.fpLabel.Some? <==> f.severity in {"blocker", "major"} && labels[a].1.sameDefect != "yes")
  }

  /** The labels are about the findings, each of which has one that fits. */
  ghost predicate Fitting(hash: Hash, runs: seq<Run>, labels: seq<(string, Verdict)>) {
    && (forall l :: l in labels ==> Asked(hash, runs, l.0))
    && forall i: nat, j: nat :: i < |runs| && j < |runs[i].findings| ==>
         DulyLabelled(labels, IdAt(hash, runs[i], j), runs[i].findings[j])
  }

  /** Each id once, with known answers. */
  ghost predicate Legible(labels: seq<(string, Verdict)>) {
    && (forall a: nat, b: nat :: a < b < |labels| ==> labels[a].0 != labels[b].0)
    && forall l :: l in labels ==>
         && l.1.sameDefect in {"yes", "partial", "no"}
         && (l.1.fpLabel.None? || l.1.fpLabel.value in {"real", "false_positive", "unverifiable"})
  }

  /** The judges answered what they were asked. */
  ghost predicate Answered(hash: Hash, runs: seq<Run>, labels: seq<(string, Verdict)>) {
    Legible(labels) && Fitting(hash, runs, labels)
  }

  lemma {:induction false} TagHasIdAt(hash: Hash, runs: seq<Run>, i: nat, j: nat)
    requires i < |runs| && j < |runs[i].findings|
    ensures TagAt(hash, runs[i], j).item == Item(IdAt(hash, runs[i], j), runs[i].findings[j])
  {
  }

  /** The ids of the key file are those of the findings. */
  lemma {:induction false} IdsOfFindings(hash: Hash, runs: seq<Run>, fid: string)
    ensures fid in UnblindOf(Tagged(hash, runs)) <==> Asked(hash, runs, fid)
  {
    var tags := Tagged(hash, runs);
    UnblindKnows(tags);
    if fid in UnblindOf(tags) {
      IdIsAsked(hash, runs, tags, fid);
    }
    if Asked(hash, runs, fid) {
      AskedIsId(hash, runs, tags, fid);
    }
  }

  lemma {:induction false} IdIsAsked(hash: Hash, runs: seq<Run>, tags: seq<Tag>, fid: string)
    requires tags == Tagged(hash, runs) && fid in Fids(Items(tags))
    ensures Asked(hash, runs, fid)
  {
    var k :| 0 <= k < |tags| && Fids(Items(tags))[k] == fid;
    var i, j := PlaceOf(hash, runs, k);
    PlaceHolds(hash, runs, i, j);
    TagHasIdAt(hash, runs, i, j);
  }

  lemma {:induction false} AskedIsId(hash: Hash, runs: seq<Run>, tags: seq<Tag>, fid: string)
    requires tags == Tagged(hash, runs) && Asked(hash, runs, fid)
    ensures fid in Fids(Items(tags))
  {
    var i: nat, j: nat :| i < |runs| && j < |runs[i].findings| && IdAt(hash, runs[i], j) == fid;
    PlaceHolds(hash, runs, i, j);
    TagHasIdAt(hash, runs, i, j);
    TagHasId(tags, TagAt(hash, runs[i], j));
  }

  lemma {:induction false} TagHasId(tags: seq<Tag>, t: Tag)
    requires t in tags
    ensures t.item.fid in Fids(Items(tags))
  {
    var k :| 0 <= k < |tags| && tags[k] == t;
    assert Items(tags)[k] == t.item;
    assert Fids(Items(tags))[k] == t.item.fid;
  }

  /** The packets hold every finding under its id. */
  lemma {:induction false} PacketsKnow(hash: Hash, runs: seq<Run>, loaded: seq<Item>, packets: map<string, Finding>, i: nat, j: nat)
    requires i < |runs| && j < |runs[i].findings|
    requires multiset(loaded) == multiset(Items(Tagged(hash, runs)))
    requires Dictionary(Fids(loaded), Map(loaded, FindingOf), packets)
    ensures IdAt(hash, runs[i], j) in packets && packets[IdAt(hash, runs[i], j)] == runs[i].findings[j]
  {
    var tags := Tagged(hash, runs);
    PlaceHolds(hash, runs, i, j);
    TagHasIdAt(hash, runs, i, j);
    KnownItem(tags, TagAt(hash, runs[i], j), Fids(Items(tags)), loaded, packets);
  }

  /** Labels without a repeated id are a dictionary. */
  lemma {:induction false} DictionaryExists<V>(names: seq<string>, values: seq<V>) returns (byFid: map<string, V>)
    requires |names| == |values| && Distinct(names)
    ensures Dictionary(names, values, byFid)
  {
    byFid := map[];
    for n := 0 to |names|
      invariant Dictionary(names[..n], values[..n], byFid)
    {
      DictionaryGrows(names, values, n, byFid);
      byFid := byFid[names[n] := values[n]];
    }
    assert names[..|names|] == names && values[..|names|] == values;
  }

  /** `verdicts` is the labels, by id. */
  ghost predicate Filed(labels: seq<(string, Verdict)>, verdicts: map<string, Verdict>) {
    && (forall l :: l in labels ==> l.0 in verdicts && verdicts[l.0] == l.1)
    && forall fid :: fid in verdicts ==> (fid, verdicts[fid]) in labels
  }

  lemma {:induction false} LabelsFiled(labels: seq<(string, Verdict)>, verdicts: map<string, Verdict>)
    requires Dictionary(Map(labels, NameOf), Map(labels, LabelOf), verdicts)
    ensures Filed(labels, verdicts)
  {
    var names, values := Map(labels, NameOf), Map(labels, LabelOf);
    forall l | l in labels ensures l.0 in verdicts && verdicts[l.0] == l.1 {
      var a :| 0 <= a < |labels| && labels[a] == l;
      assert names[a] == l.0 && values[a] == l.1;
    }
    forall fid | fid in verdicts ensures (fid, verdicts[fid]) in labels {
      var a :| 0 <= a < |names| && names[a] == fid;
      assert values[a] == labels[a].1 && labels[a] == (fid, verdicts[fid]);
    }
  }

  /** `packets` holds every finding under its id. */
  ghost predicate Shown(hash: Hash, runs: seq<Run>, packets: map<string, Finding>) {
    forall i: nat, j: nat :: i < |runs| && j < |runs[i].findings| ==>
      IdAt(hash, runs[i], j) in packets && packets[IdAt(hash, runs[i], j)] == runs[i].findings[j]
  }

  lemma {:induction false} FitsIsDuly(labels: seq<(string, Verdict)>, verdicts: map<string, Verdict>, fid: string, f: Finding)
    requires Filed(labels, verdicts)
    ensures DulyLabelled(labels, fid, f) <==> fid in verdicts && LabelFits(Judged(f, verdicts[fid]))
  {
    if fid in verdicts && LabelFits(Judged(f, verdicts[fid])) {
      var a :| 0 <= a < |labels| && labels[a] == (fid, verdicts[fid]);
    }
    if DulyLabelled(labels, fid, f) {
      var a: nat :| a < |labels| && labels[a].0 == fid
        && (labels[a].1.fpLabel.Some? <==> f.severity in {"blocker", "major"} && labels[a].1.sameDefect != "yes");
      assert labels[a] in labels;
    }
  }

  lemma {:induction false} AcceptedFits(hash: Hash, runs: seq<Run>, labels: seq<(string, Verdict)>, unblind: map<string, Key>,
                                        packets: map<string, Finding>, verdicts: map<string, Verdict>)
    requires Filed(labels, verdicts) && Shown(hash, runs, packets)
    requires forall fid :: fid in unblind <==> Asked(hash, runs, fid)
    requires Accepts(unblind, packets, verdicts)
    ensures Fitting(hash, runs, labels)
  {
    forall l | l in labels ensures Asked(hash, runs, l.0) {
      assert l.0 in verdicts.Keys && l.0 in unblind;
    }
    forall i: nat, j: nat | i < |runs| && j < |runs[i].findings|
      ensures DulyLabelled(labels, IdAt(hash, runs[i], j), runs[i].findings[j])
    {
      var fid := IdAt(hash, runs[i], j);
      assert Asked(hash, runs, fid);
      assert fid in unblind.Keys && fid in verdicts;
      FitsIsDuly(labels, verdicts, fid, runs[i].findings[j]);
    }
  }

  lemma {:induction false} AskedIsAccepted(hash: Hash, runs: seq<Run>, labels: seq<(string, Verdict)>,
                                           packets: map<string, Finding>, verdicts: map<string, Verdict>, fid: string)
    requires Filed(labels, verdicts) && Shown(hash, runs, packets) && Asked(hash, runs, fid)
    requires forall i: nat, j: nat :: i < |runs| && j < |runs[i].findings| ==>
               DulyLabelled(labels, IdAt(hash, runs[i], j), runs[i].findings[j])
    ensures fid in packets && fid in verdicts && LabelFits(Judged(packets[fid], verdicts[fid]))
  {
    var i: nat, j: nat :| i < |runs| && j < |runs[i].findings| && IdAt(hash, runs[i], j) == fid;
    FitsIsDuly(labels, verdicts, fid, runs[i].findings[j]);
  }

  lemma {:induction false} FiledIsAsked(hash: Hash, runs: seq<Run>, labels: seq<(string, Verdict)>,
                                        verdicts: map<string, Verdict>, fid: string)
    requires Filed(labels, verdicts) && forall l :: l in labels ==> Asked(hash, runs, l.0)
    requires fid in verdicts
    ensures Asked(hash, runs, fid)
  {
    assert (fid, verdicts[fid]) in labels;
  }

  lemma {:induction false} FittingAccepted(hash: Hash, runs: seq<Run>, labels: seq<(string, Verdict)>, unblind: map<string, Key>,
                                           packets: map<string, Finding>, verdicts: map<string, Verdict>)
    requires Filed(labels, verdicts) && Shown(hash, runs, packets)
    requires forall fid :: fid in unblind <==> Asked(hash, runs, fid)
    requires Fitting(hash, runs, labels)
    ensures Accepts(unblind, packets, verdicts)
  {
    forall fid | fid in unblind ensures fid in packets && fid in verdicts && LabelFits(Judged(packets[fid], verdicts[fid])) {
      AskedIsAccepted(hash, runs, labels, packets, verdicts, fid);
    }
    forall fid | fid in verdicts ensures fid in unblind {
      FiledIsAsked(hash, runs, labels, verdicts, fid);
    }
    assert unblind.Keys == verdicts.Keys;
  }

  lemma {:induction false} PacketsShow(hash: Hash, runs: seq<Run>, loaded: seq<Item>, packets: map<string, Finding>)
    requires multiset(loaded) == multiset(Items(Tagged(hash, runs)))
    requires Dictionary(Fids(loaded), Map(loaded, FindingOf), packets)
    ensures Shown(hash, runs, packets)
  {
    forall i: nat, j: nat | i < |runs| && j < |runs[i].findings|
      ensures IdAt(hash, runs[i], j) in packets && packets[IdAt(hash, runs[i], j)] == runs[i].findings[j]
    {
      PacketsKnow(hash, runs, loaded, packets, i, j);
    }
  }

  lemma {:induction false} KnownAnswers(labels: seq<(string, Verdict)>)
    ensures AllWellFormed(Map(labels, LabelOf)) <==> forall l :: l in labels ==> WellFormed(l.1)
  {
    if AllWellFormed(Map(labels, LabelOf)) {
      forall l | l in labels ensures WellFormed(l.1) {
        var a :| 0 <= a < |labels| && labels[a] == l;
        assert Map(labels, LabelOf)[a] == l.1;
      }
    } else {
      var a :| 0 <= a < |labels| && !WellFormed(Map(labels, LabelOf)[a]);
      assert labels[a] in labels;
    }
  }

  lemma {:induction false} EachOnce(labels: seq<(string, Verdict)>)
    ensures Distinct(Map(labels, NameOf)) <==> forall a: nat, b: nat :: a < b < |labels| ==> labels[a].0 != labels[b].0
  {
    var names := Map(labels, NameOf);
    assert forall a :: 0 <= a < |labels| ==> names[a] == labels[a].0;
    if Distinct(names) {
      forall a: nat, b: nat | a < b < |labels| ensures labels[a].0 != labels[b].0 {
        assert names[a] != names[b];
      }
    }
  }

  lemma {:induction false} LegibleLabels(labels: seq<(string, Verdict)>)
    ensures Legible(labels) <==> Distinct(Map(labels, NameOf)) && AllWellFormed(Map(labels, LabelOf))
  {
    EachOnce(labels);
    KnownAnswers(labels);
    assert Legible(labels) <==> (Distinct(Map(labels, NameOf)) && forall l :: l in labels ==> WellFormed(l.1));
  }

  lemma {:induction false} ScorableFits(hash: Hash, runs: seq<Run>, loaded: seq<Item>, labels: seq<(string, Verdict)>,
                                        packets: map<string, Finding>, verdicts: map<string, Verdict>)
    requires multiset(loaded) == multiset(Items(Tagged(hash, runs)))
    requires Dictionary(Fids(loaded), Map(loaded, FindingOf), packets)
    requires Dictionary(Map(labels, NameOf), Map(labels, LabelOf), verdicts)
    requires Accepts(UnblindOf(Tagged(hash, runs)), packets, verdicts)
    ensures Fitting(hash, runs, labels)
  {
    LabelsFiled(labels, verdicts);
    PacketsShow(hash, runs, loaded, packets);
    forall fid ensures fid in UnblindOf(Tagged(hash, runs)) <==> Asked(hash, runs, fid) {
      IdsOfFindings(hash, runs, fid);
    }
    AcceptedFits(hash, runs, labels, UnblindOf(Tagged(hash, runs)), packets, verdicts);
  }

  /** What `score` accepts is what the judges were asked. */
  lemma {:induction false} ScorableIsAnswered(hash: Hash, runs: seq<Run>, loaded: seq<Item>, labels: seq<(string, Verdict)>,
                                              packets: map<string, Finding>, verdicts: map<string, Verdict>)
    requires multiset(loaded) == multiset(Items(Tagged(hash, runs)))
    requires Scorable(UnblindOf(Tagged(hash, runs)), loaded, labels, packets, verdicts)
    ensures Answered(hash, runs, labels)
  {
    LegibleLabels(labels);
    ScorableFits(hash, runs, loaded, labels, packets, verdicts);
  }

  lemma {:induction false} AnsweredParts(hash: Hash, runs: seq<Run>, labels: seq<(string, Verdict)>)
    requires Answered(hash, runs, labels)
    ensures Distinct(Map(labels, NameOf)) && AllWellFormed(Map(labels, LabelOf)) && Fitting(hash, runs, labels)
  {
    LegibleLabels(labels);
  }

  lemma {:induction false} AnsweredIsScorable(hash: Hash, runs: seq<Run>, loaded: seq<Item>, labels: seq<(string, Verdict)>)
    requires multiset(loaded) == multiset(Items(Tagged(hash, runs))) && Distinct(Fids(loaded))
    requires Answered(hash, runs, labels)
    ensures exists p, v :: Scorable(UnblindOf(Tagged(hash, runs)), loaded, labels, p, v)
  {
    var unblind := UnblindOf(Tagged(hash, runs));
    AnsweredParts(hash, runs, labels);
    var packets := DictionaryExists(Fids(loaded), Map(loaded, FindingOf));
    var verdicts := DictionaryExists(Map(labels, NameOf), Map(labels, LabelOf));
    LabelsFiled(labels, verdicts);
    PacketsShow(hash, runs, loaded, packets);
    forall fid ensures fid in unblind <==> Asked(hash, runs, fid) {
      IdsOfFindings(hash, runs, fid);
    }
    FittingAccepted(hash, runs, labels, unblind, packets, verdicts);
    assert Scorable(unblind, loaded, labels, packets, verdicts);
  }

  /** The findings of the reports, with the verdicts written down for them. */
  ghost function WithVerdicts(hash: Hash, runs: seq<Run>, verdicts: map<string, Verdict>): seq<seq<Judged>> {
    Map(runs, (run: Run) => Map(Items(AllTagsOf(hash, run)), VerdictFor(verdicts)))
  }

  lemma {:induction false} DirectIsJudged(hash: Hash, runs: seq<Run>, labels: seq<(string, Verdict)>, verdicts: map<string, Verdict>)
    requires Filed(labels, verdicts)
    requires forall i: nat, j: nat :: i < |runs| && j < |runs[i].findings| ==>
               DulyLabelled(labels, IdAt(hash, runs[i], j), runs[i].findings[j])
    ensures JudgedAs(hash, runs, labels, WithVerdicts(hash, runs, verdicts))
  {
    var judged: seq<seq<Judged>> := WithVerdicts(hash, runs, verdicts);
    forall i: nat, j: nat | i < |runs| && j < |runs[i].findings|
      ensures judged[i][j].finding == runs[i].findings[j]
      ensures (IdAt(hash, runs[i], j), judged[i][j].verdict) in labels
    {
      JudgedAt(hash, runs, verdicts, i, j);
      assert DulyLabelled(labels, IdAt(hash, runs[i], j), runs[i].findings[j]);
      FitsIsDuly(labels, verdicts, IdAt(hash, runs[i], j), runs[i].findings[j]);
    }
  }

  lemma {:induction false} JudgedAt(hash: Hash, runs: seq<Run>, verdicts: map<string, Verdict>, i: nat, j: nat)
    requires i < |runs| && j < |runs[i].findings|
    ensures var judged: seq<seq<Judged>> := WithVerdicts(hash, runs, verdicts);
            && judged[i][j].finding == runs[i].findings[j]
            && (IdAt(hash, runs[i], j) in verdicts ==> judged[i][j].verdict == verdicts[IdAt(hash, runs[i], j)])
  {
    var run := runs[i];
    TagHasIdAt(hash, runs, i, j);
    assert AllTagsOf(hash, run)[j] == TagAt(hash, run, j);
    assert Items(AllTagsOf(hash, run))[j] == Item(IdAt(hash, runs[i], j), runs[i].findings[j]);
  }

  lemma {:induction false} DirectReport(hash: Hash, runs: seq<Run>, verdicts: map<string, Verdict>, arm: string)
    ensures Reported(DirectTotals(hash, runs, verdicts, arm), Keys(runs), WithVerdicts(hash, runs, verdicts), arm)
  {
    TotalsReport(Map(runs, DirectTally(hash, verdicts)), Keys(runs), WithVerdicts(hash, runs, verdicts), arm);
  }

  /** Packing some runs and scoring what was written: `reorder` is the order of the key
      file, `labels` what the judges wrote down. The run aborts when two findings get one
      id, refuses when the judges did not answer what they were asked, and otherwise
      counts the findings of the reports with the verdicts on their ids. */
  method PackAndScore(hash: Hash, raws: seq<RawRun>, prs: seq<string>, order: seq<string>, shuffle: seq<Item> -> seq<Item>,
                      n: nat, reorder: seq<string> -> seq<string>, labels: seq<(string, Verdict)>, arm: string)
    returns (aborted: bool, packetFiles: seq<seq<Group>>, refused: bool, totals: Totals, ghost judged: seq<seq<Judged>>)
    requires n >= 1 && (forall r :: r in raws ==> r.pr in prs)
    requires Distinct(order) && forall pr :: pr in order <==> pr in prs
    requires (forall s :: multiset(shuffle(s)) == multiset(s)) && forall s :: multiset(reorder(s)) == multiset(s)
    ensures aborted <==> !Distinct(Fids(Items(Tagged(hash, Labelled(raws)))))
    ensures !aborted ==> (refused <==> !Answered(hash, Labelled(raws), labels))
    ensures !aborted && !refused ==>
              JudgedAs(hash, Labelled(raws), labels, judged) && Reported(totals, Keys(Labelled(raws)), judged, arm)
  {
    refused, totals, judged := false, Totals(0, 0, 0, 0, 0, 0, 0), [];
    var unblind, roster;
    aborted, packetFiles, unblind, roster := Pack(hash, raws, prs, order, shuffle, n);
    if aborted {
      return;
    }
    var fids := reorder(Fids(Items(Tagged(hash, Labelled(raws)))));
    KeyFileNames(hash, raws, fids);
    ghost var shuffled :| Packed(hash, raws, order, shuffled, packetFiles);
    PacketsLoad(hash, raws, order, shuffled, packetFiles);
    var packets, verdicts, keys, rows;
    refused, packets, verdicts, keys, rows, totals := Score(unblind, roster, fids, Loaded(packetFiles), labels, arm);
    RunKeysDistinct(raws);
    if refused {
      RefusedFor(hash, Labelled(raws), Loaded(packetFiles), labels);
    } else {
      ScorableIsAnswered(hash, Labelled(raws), Loaded(packetFiles), labels, packets, verdicts);
      ScoringIsCounting(hash, raws, order, shuffled, packetFiles, roster, fids, packets, verdicts, keys, rows, arm);
      AnsweredParts(hash, Labelled(raws), labels);
      LabelsFiled(labels, verdicts);
      DirectIsJudged(hash, Labelled(raws), labels, verdicts);
      judged := WithVerdicts(hash, Labelled(raws), verdicts);
    }
  }

  lemma {:induction false} RefusedFor(hash: Hash, runs: seq<Run>, loaded: seq<Item>, labels: seq<(string, Verdict)>)
    requires multiset(loaded) == multiset(Items(Tagged(hash, runs))) && Distinct(Fids(loaded))
    requires forall p, v :: !Scorable(UnblindOf(Tagged(hash, runs)), loaded, labels, p, v)
    ensures !Answered(hash, runs, labels)
  {
    if Answered(hash, runs, labels) {
      AnsweredIsScorable(hash, runs, loaded, labels);
    }
  }

  // ---------------------------------------------------------------- what acceptance buys

  predicate IsUnverifiable(j: Judged) { IsBlockerMajor(j) && j.verdict.fpLabel == Some("unverifiable") }
  predicate IsBlockerCatch(j: Judged) { IsBlockerMajor(j) && IsCatch(j) }

  /** No blocker or major finding vanishes: each one is the caught defect, or is counted
      under exactly one of the three labels. */
  lemma {:induction false} BlockersAreAccountedFor(judged: seq<Judged>)
    requires forall i :: 0 <= i < |judged| ==> LabelFits(judged[i]) && WellFormed(judged[i].verdict)
    ensures Count(judged, IsBlockerMajor) == Count(judged, IsBlockerCatch) + Count(judged, IsFalsePositive)
                                             + Count(judged, IsRealOther) + Count(judged, IsUnverifiable)
  {
    if judged != [] {
      assert LabelFits(judged[0]) && WellFormed(judged[0].verdict);
      BlockersAreAccountedFor(judged[1..]);
    }
  }
}
