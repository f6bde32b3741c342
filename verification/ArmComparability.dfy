/** `validate_arms` and `score_arm` of `scripts/live_judge_score.py`: which pairs of arms are
    scored against each other, and what an accepted pair guarantees. */
module ArmComparability {
  import opened Options
  import opened Seqs

  // ---------------------------------------------------------------- payloads

  /** A rep id as it is read: an integer, or a Boolean, which counts as 0 or 1. */
  datatype Rep = Number(n: int) | Flag(b: bool)

  function Value(r: Rep): int {
    match r case Number(n) => n case Flag(b) => if b then 1 else 0
  }

  datatype Run = BadRun | Run(rep: Rep, hasResponse: bool)
  datatype Entry = BadEntry | Entry(scenario: int, runs: seq<Run>)

  /** `reps` is missing when it is not an integer of at least 1. */
  datatype Payload = Payload(role: string, reps: Option<nat>, scenarios: seq<Entry>)

  predicate DeclaresReps(p: Payload) {
    p.reps.Some? && p.reps.value >= 1
  }

  /** `rep_ids`: the ids of the runs that have one, Booleans included. */
  function RepIds(runs: seq<Run>): seq<int> {
    if runs == [] then []
    else RepIds(runs[..|runs| - 1]) + if runs[|runs| - 1].BadRun? then [] else [Value(runs[|runs| - 1].rep)]
  }

  /** `raw_rep_ids`: only the ids that are integers and not Booleans. */
  function NumberIds(runs: seq<Run>): seq<int> {
    if runs == [] then []
    else
      var last := runs[|runs| - 1];
      NumberIds(runs[..|runs| - 1]) + if last.Run? && last.rep.Number? then [last.rep.n] else []
  }

  // ---------------------------------------------------------------- the checks

  predicate GoodRuns(runs: seq<Run>) {
    runs != [] && forall i :: 0 <= i < |runs| ==> runs[i].Run? && runs[i].hasResponse
  }

  ghost predicate GoodEntry(e: Entry) {
    e.Entry? && GoodRuns(e.runs) && Distinct(RepIds(e.runs))
  }

  /** Counting is enough: as many ids as declared, no repeats, smallest 1, largest the
      declared number. */
  ghost predicate Complete(e: Entry, declared: nat) {
    e.Entry? && var ids := NumberIds(e.runs);
    |ids| == declared && Distinct(ids) && IsMin(ids, 1) && IsMax(ids, declared)
  }

  ghost predicate IsMin(ids: seq<int>, m: int) {
    m in ids && forall x :: x in ids ==> m <= x
  }

  ghost predicate IsMax(ids: seq<int>, m: int) {
    m in ids && forall x :: x in ids ==> x <= m
  }

  /** The ids 1 to n. */
  function OneTo(n: nat): (r: seq<int>)
    ensures |r| == n && forall i :: 0 <= i < n ==> r[i] == i + 1
  {
    if n == 0 then [] else OneTo(n - 1) + [n]
  }

  lemma {:induction false} DropLargest(ids: seq<int>, i: nat, n: nat) returns (rest: seq<int>)
    requires i < |ids| && ids[i] == n && Distinct(ids) && forall x :: x in ids ==> 1 <= x <= n
    ensures |rest| == |ids| - 1 && Distinct(rest) && forall x :: x in rest ==> 1 <= x <= n - 1
    ensures multiset(ids) == multiset(rest) + multiset{n}
  {
    rest := ids[..i] + ids[i + 1..];
    forall j | 0 <= j < |rest| ensures 1 <= rest[j] <= n - 1 {
      var k := if j < i then j else j + 1;
      assert rest[j] == ids[k] && ids[k] in ids && ids[k] != ids[i];
    }
    assert ids == ids[..i] + [n] + ids[i + 1..];
  }

  /** n + 1 distinct integers do not fit between 1 and n. */
  lemma {:induction false} TooFew(ids: seq<int>, n: nat)
    requires Distinct(ids) && forall x :: x in ids ==> 1 <= x <= n
    ensures |ids| <= n
    decreases n
  {
    if ids != [] {
      assert ids[0] in ids && 1 <= ids[0] <= n;
      if n in ids {
        var i :| 0 <= i < |ids| && ids[i] == n;
        var rest := DropLargest(ids, i, n);
        TooFew(rest, n - 1);
      } else {
        TooFew(ids, n - 1);
      }
    }
  }

  /** Pigeonhole: n distinct integers between 1 and n are exactly 1 to n. */
  lemma {:induction false} Pigeonhole(ids: seq<int>, n: nat)
    requires |ids| == n && Distinct(ids) && forall x :: x in ids ==> 1 <= x <= n
    ensures multiset(ids) == multiset(OneTo(n))
    decreases n
  {
    if n > 0 {
      if n !in ids {
        TooFew(ids, n - 1);
        assert false;
      }
      var i :| 0 <= i < n && ids[i] == n;
      var rest := DropLargest(ids, i, n);
      Pigeonhole(rest, n - 1);
    }
  }

  lemma {:induction false} CompleteMeansOneToN(e: Entry, declared: nat)
    requires Complete(e, declared)
    ensures multiset(NumberIds(e.runs)) == multiset(OneTo(declared))
  {
    Pigeonhole(NumberIds(e.runs), declared);
  }

  // ---------------------------------------------------------------- Booleans among the reps

  function Falses(runs: seq<Run>): nat {
    if runs == [] then 0
    else Falses(runs[..|runs| - 1]) + if runs[|runs| - 1].Run? && runs[|runs| - 1].rep == Flag(false) then 1 else 0
  }

  function Trues(runs: seq<Run>): nat {
    if runs == [] then 0
    else Trues(runs[..|runs| - 1]) + if runs[|runs| - 1].Run? && runs[|runs| - 1].rep == Flag(true) then 1 else 0
  }

  /** The ids the first check sees, against those the second check sees. */
  lemma {:induction false} BooleansHide(runs: seq<Run>)
    requires forall i :: 0 <= i < |runs| ==> runs[i].Run?
    ensures |RepIds(runs)| == |runs|
    ensures multiset(RepIds(runs))[0] == multiset(NumberIds(runs))[0] + Falses(runs)
    ensures multiset(RepIds(runs))[1] == multiset(NumberIds(runs))[1] + Trues(runs)
    ensures |runs| == |NumberIds(runs)| + Falses(runs) + Trues(runs)
  {
    if runs != [] {
      BooleansHide(runs[..|runs| - 1]);
    }
  }

  lemma {:induction false} AtMostOnce(ids: seq<int>, x: int)
    requires Distinct(ids)
    ensures multiset(ids)[x] == if x in ids then 1 else 0
  {
    MultisetOfDistinct(ids);
  }

  /** An accepted scenario: its numbered reps are exactly 1 to n, no rep is `true`, and at
      most one more run carries the rep id `false`. */
  lemma {:induction false} AcceptedScenario(e: Entry, n: nat)
    requires n >= 1 && GoodEntry(e) && Complete(e, n)
    ensures multiset(NumberIds(e.runs)) == multiset(OneTo(n))
    ensures Trues(e.runs) == 0 && Falses(e.runs) <= 1
    ensures |e.runs| == n + Falses(e.runs)
    ensures 0 in RepIds(e.runs) <==> Falses(e.runs) == 1
  {
    CompleteMeansOneToN(e, n);
    BooleansHide(e.runs);
    AtMostOnce(RepIds(e.runs), 0);
    AtMostOnce(RepIds(e.runs), 1);
    AtMostOnce(NumberIds(e.runs), 1);
    AtMostOnce(NumberIds(e.runs), 0);
    assert OneTo(n)[0] == 1;
    assert 1 in multiset(OneTo(n));
    assert 1 in multiset(NumberIds(e.runs));
  }

  lemma {:induction false} NoBooleans(runs: seq<Run>)
    requires (forall i :: 0 <= i < |runs| ==> runs[i].Run?) && Falses(runs) == 0 && Trues(runs) == 0
    ensures RepIds(runs) == NumberIds(runs)
  {
    if runs != [] {
      NoBooleans(runs[..|runs| - 1]);
    }
  }

  /** The rep ids of an accepted scenario are a permutation of 1 to n exactly when none of
      them is `false`. */
  lemma {:induction false} RepsAreOneToN(e: Entry, n: nat)
    requires n >= 1 && GoodEntry(e) && Complete(e, n)
    ensures multiset(RepIds(e.runs)) == multiset(OneTo(n)) <==> Falses(e.runs) == 0
  {
    AcceptedScenario(e, n);
    if Falses(e.runs) == 0 {
      NoBooleans(e.runs);
    } else {
      assert 0 in multiset(RepIds(e.runs));
      assert 0 !in multiset(OneTo(n));
    }
  }

  // ---------------------------------------------------------------- both arms

  function Ids(scenarios: seq<Entry>): seq<int> {
    if scenarios == [] then []
    else
      var last := scenarios[|scenarios| - 1];
      Ids(scenarios[..|scenarios| - 1]) + if last.Entry? then [last.scenario] else []
  }

  function ToSet(s: seq<int>): set<int> {
    set x | x in s
  }

  /** What is asked of one arm: its role, its reps, and complete scenarios without repeats. */
  ghost predicate GoodArm(p: Payload, role: string) {
    && p.role == role && DeclaresReps(p) && p.scenarios != []
    && (forall i :: 0 <= i < |p.scenarios| ==> GoodEntry(p.scenarios[i]) && Complete(p.scenarios[i], p.reps.value))
    && Distinct(Ids(p.scenarios))
  }

  /** What the frozen corpus asks of an arm. */
  ghost predicate Covers(ids: seq<int>, expected: Option<set<int>>, allowSubset: bool) {
    expected.Some? ==> ToSet(ids) <= expected.value && (allowSubset || expected.value <= ToSet(ids))
  }

  ghost predicate SameReps(a: Entry, b: Entry)
    requires a.Entry? && b.Entry?
  {
    |RepIds(a.runs)| == |RepIds(b.runs)| && ToSet(RepIds(a.runs)) == ToSet(RepIds(b.runs))
  }

  /** The reps of an entry of the one arm fit those of every entry of the other arm that
      is about the same scenario. */
  ghost predicate FitsEntry(a: Entry, others: seq<Entry>) {
    a.Entry? && forall j :: 0 <= j < |others| ==> (others[j].Entry? ==> a.scenario == others[j].scenario ==> SameReps(a, others[j]))
  }

  /** Every scenario of one arm fits the other arm. */
  ghost predicate Fitting(scenarios: seq<Entry>, n: nat, others: seq<Entry>)
    requires n <= |scenarios|
  {
    forall i :: 0 <= i < n ==> FitsEntry(scenarios[i], others)
  }

  /** Two arms that describe the same experiment. */
  ghost predicate Comparable(base: Payload, treat: Payload, expected: Option<set<int>>, allowSubset: bool) {
    && GoodArm(base, "baseline") && GoodArm(treat, "treatment") && base.reps == treat.reps
    && ToSet(Ids(base.scenarios)) == ToSet(Ids(treat.scenarios))
    && Covers(Ids(base.scenarios), expected, allowSubset) && Covers(Ids(treat.scenarios), expected, allowSubset)
    && Fitting(base.scenarios, |base.scenarios|, treat.scenarios)
  }

  /** A scenario has as many runs in one arm as in the other, whatever Booleans slipped in. */
  lemma {:induction false} EqualRunCounts(a: Entry, b: Entry, n: nat)
    requires n >= 1 && GoodEntry(a) && Complete(a, n) && GoodEntry(b) && Complete(b, n) && SameReps(a, b)
    ensures |a.runs| == |b.runs| == n + Falses(a.runs) && Falses(a.runs) == Falses(b.runs)
  {
    AcceptedScenario(a, n);
    AcceptedScenario(b, n);
    assert 0 in ToSet(RepIds(a.runs)) <==> 0 in RepIds(a.runs);
    assert 0 in ToSet(RepIds(b.runs)) <==> 0 in RepIds(b.runs);
  }

  // ---------------------------------------------------------------- validate_arms

  /** `len(set(ids)) == len(ids)` tests for repeats. */
  lemma {:induction false} SizeTellsRepeats(s: seq<int>)
    ensures |ToSet(s)| <= |s|
    ensures |ToSet(s)| == |s| <==> Distinct(s)
  {
    if s != [] {
      var front, last := s[..|s| - 1], s[|s| - 1];
      SizeTellsRepeats(front);
      assert s == front + [last];
      if last in front {
        assert ToSet(s) == ToSet(front);
        var k :| 0 <= k < |front| && front[k] == last;
        assert s[k] == s[|s| - 1];
      } else {
        assert ToSet(s) == ToSet(front) + {last};
        if Distinct(front) {
          DistinctAppend(front, last);
        }
        if Distinct(s) {
          DistinctFront(s);
        }
      }
    }
  }

  ghost predicate AllEntries(scenarios: seq<Entry>) {
    forall e :: e in scenarios ==> e.Entry?
  }

  /** The index that `scenario_map` builds. */
  ghost predicate Indexed(scenarios: seq<Entry>, index: map<int, Entry>) {
    && AllEntries(scenarios) && Distinct(Ids(scenarios))
    && index.Keys == ToSet(Ids(scenarios))
    && forall e :: e in scenarios ==> e.scenario in index && index[e.scenario] == e
  }

  lemma {:induction false} IndexStep(front: seq<Entry>, index: map<int, Entry>, last: Entry)
    requires Indexed(front, index) && last.Entry?
    ensures last.scenario in index ==> !Distinct(Ids(front + [last]))
    ensures last.scenario !in index ==> Indexed(front + [last], index[last.scenario := last])
  {
    assert (front + [last])[..|front|] == front;
    assert Ids(front + [last]) == Ids(front) + [last.scenario];
    if last.scenario in index {
      var k :| 0 <= k < |Ids(front)| && Ids(front)[k] == last.scenario;
      assert Ids(front + [last])[k] == Ids(front + [last])[|Ids(front)|];
    } else {
      DistinctAppend(Ids(front), last.scenario);
      assert ToSet(Ids(front) + [last.scenario]) == ToSet(Ids(front)) + {last.scenario};
      assert forall e :: e in front + [last] <==> e in front || e == last;
    }
  }

  lemma {:induction false} IdsPrefix(scenarios: seq<Entry>, n: nat)
    requires n <= |scenarios|
    ensures Ids(scenarios[..n]) <= Ids(scenarios)
    decreases |scenarios|
  {
    if n < |scenarios| {
      var m := |scenarios| - 1;
      IdsPrefix(scenarios[..m], n);
      assert scenarios[..m][..n] == scenarios[..n];
    } else {
      assert scenarios[..n] == scenarios;
    }
  }

  lemma {:induction false} RepeatInPrefix(a: seq<int>, b: seq<int>)
    requires a <= b && !Distinct(a)
    ensures !Distinct(b)
  {
    var i, j :| 0 <= i < j < |a| && a[i] == a[j];
    assert b[i] == b[j];
  }

  /** `scenario_map`, up to the wording of its errors. */
  method ScenarioMap(scenarios: seq<Entry>) returns (ok: bool, index: map<int, Entry>)
    ensures ok <==> scenarios != [] && AllEntries(scenarios) && Distinct(Ids(scenarios))
    ensures ok ==> Indexed(scenarios, index)
  {
    ok, index := scenarios != [], map[];
    if !ok {
      return;
    }
    for i := 0 to |scenarios|
      invariant ok && Indexed(scenarios[..i], index)
    {
      var last := scenarios[i];
      assert last in scenarios;
      if last.BadEntry? {
        ok := false;
        return;
      }
      IndexStep(scenarios[..i], index, last);
      assert scenarios[..i + 1] == scenarios[..i] + [last];
      if last.scenario in index {
        IdsPrefix(scenarios, i + 1);
        RepeatInPrefix(Ids(scenarios[..i + 1]), Ids(scenarios));
        ok := false;
        return;
      }
      index := index[last.scenario := last];
    }
    assert scenarios[..|scenarios|] == scenarios;
  }

  /** `rep_ids`, up to the wording of its errors. */
  method CheckRuns(runs: seq<Run>) returns (ok: bool, ids: seq<int>)
    ensures ok <==> GoodRuns(runs) && Distinct(RepIds(runs))
    ensures ids == RepIds(runs)
  {
    ok, ids := runs != [], [];
    for i := 0 to |runs|
      invariant ok <==> runs != [] && forall j :: 0 <= j < i ==> runs[j].Run? && runs[j].hasResponse
      invariant ids == RepIds(runs[..i])
    {
      assert runs[..i + 1][..i] == runs[..i];
      if runs[i].BadRun? {
        ok := false;
        continue;
      }
      if !runs[i].hasResponse {
        ok := false;
      }
      ids := ids + [Value(runs[i].rep)];
    }
    assert runs[..|runs|] == runs;
    SizeTellsRepeats(ids);
    if |ToSet(ids)| != |ids| {
      ok := false;
    }
  }

  /** The completeness test, from counts, minimum and maximum alone. */
  method CheckComplete(e: Entry, declared: nat) returns (ok: bool)
    requires e.Entry? && declared >= 1
    ensures ok <==> Complete(e, declared)
  {
    var ids := NumberIds(e.runs);
    SizeTellsRepeats(ids);
    if |ToSet(ids)| != declared || |ids| != declared {
      return false;
    }
    var low, high := ids[0], ids[0];
    for i := 0 to |ids|
      invariant low in ids && high in ids
      invariant forall j :: 0 <= j < i ==> low <= ids[j] <= high
    {
      if ids[i] < low { low := ids[i]; }
      if ids[i] > high { high := ids[i]; }
    }
    ok := low == 1 && high == declared;
  }

  /** The checks on one arm alone. */
  method CheckArm(p: Payload, role: string) returns (ok: bool, index: map<int, Entry>)
    ensures ok <==> GoodArm(p, role)
    ensures ok ==> Indexed(p.scenarios, index)
  {
    ok, index := ScenarioMap(p.scenarios);
    if !ok || p.role != role || !DeclaresReps(p) {
      assert forall i :: 0 <= i < |p.scenarios| ==> p.scenarios[i] in p.scenarios;
      ok := false;
      return;
    }
    for i := 0 to |p.scenarios|
      invariant forall j :: 0 <= j < i ==> GoodEntry(p.scenarios[j]) && Complete(p.scenarios[j], p.reps.value)
    {
      assert p.scenarios[i] in p.scenarios;
      var good, ids := CheckRuns(p.scenarios[i].runs);
      var complete := CheckComplete(p.scenarios[i], p.reps.value);
      if !good || !complete {
        ok := false;
        return;
      }
    }
  }

  lemma {:induction false} IdsKnow(scenarios: seq<Entry>, i: nat)
    requires i < |scenarios| && scenarios[i].Entry?
    ensures scenarios[i].scenario in Ids(scenarios)
  {
    if i < |scenarios| - 1 {
      IdsKnow(scenarios[..|scenarios| - 1], i);
    }
  }

  lemma {:induction false} IdsCome(scenarios: seq<Entry>, n: int)
    requires n in Ids(scenarios)
    ensures exists e :: e in scenarios && e.Entry? && e.scenario == n
  {
    var m := |scenarios| - 1;
    assert scenarios == scenarios[..m] + [scenarios[m]];
    if !(scenarios[m].Entry? && scenarios[m].scenario == n) {
      IdsCome(scenarios[..m], n);
    }
  }

  lemma {:induction false} FindEntry(scenarios: seq<Entry>, index: map<int, Entry>, n: int)
    requires Indexed(scenarios, index) && n in index
    ensures index[n] in scenarios && index[n].Entry? && index[n].scenario == n
  {
    IdsCome(scenarios, n);
  }

  /** The comparison of one scenario, looked up in the index of the other arm. */
  method CompareEntry(entry: Entry, others: seq<Entry>, index: map<int, Entry>) returns (same: bool)
    requires entry.Entry? && Indexed(others, index) && entry.scenario in index
    ensures same <==> FitsEntry(entry, others)
  {
    var other := index[entry.scenario];
    FindEntry(others, index, entry.scenario);
    same := ToSet(RepIds(entry.runs)) == ToSet(RepIds(other.runs)) && |RepIds(entry.runs)| == |RepIds(other.runs)|;
    forall j | 0 <= j < |others| && others[j].Entry? && entry.scenario == others[j].scenario ensures others[j] == other {
      assert others[j] in others;
    }
    ghost var j :| 0 <= j < |others| && others[j] == other;
  }

  /** The loop over the scenarios of the two arms. */
  method CompareArms(scenarios: seq<Entry>, others: seq<Entry>, index: map<int, Entry>) returns (same: bool)
    requires AllEntries(scenarios) && Indexed(others, index) && ToSet(Ids(scenarios)) == index.Keys
    ensures same <==> Fitting(scenarios, |scenarios|, others)
  {
    for i := 0 to |scenarios|
      invariant Fitting(scenarios, i, others)
    {
      IdsKnow(scenarios, i);
      same := CompareEntry(scenarios[i], others, index);
      if !same {
        return;
      }
    }
    same := true;
  }

  // ---------------------------------------------------------------- acceptance, spelled out

  /** A scenario with the reps 1 to n, each in one run that has a response, and perhaps one
      more run whose rep is `false`. */
  ghost predicate SoundEntry(e: Entry, n: nat) {
    && e.Entry?
    && (forall r :: r in e.runs ==> r.Run? && r.hasResponse && (r.rep == Flag(false) || (r.rep.Number? && 1 <= r.rep.n <= n)))
    && (forall a: nat, b: nat :: a < b < |e.runs| && e.runs[a].Run? && e.runs[b].Run? ==> e.runs[a].rep != e.runs[b].rep)
    && forall m: nat :: 1 <= m <= n ==> HasRep(e.runs, Number(m))
  }

  ghost predicate HasRep(runs: seq<Run>, rep: Rep) {
    exists r :: r in runs && r.Run? && r.rep == rep
  }

  lemma {:induction false} IdsOfReps(runs: seq<Run>, x: int)
    ensures x in RepIds(runs) <==> exists r :: r in runs && r.Run? && Value(r.rep) == x
    ensures x in NumberIds(runs) <==> HasRep(runs, Number(x))
  {
    if runs != [] {
      var n := |runs| - 1;
      IdsOfReps(runs[..n], x);
      assert runs == runs[..n] + [runs[n]];
      assert forall r :: r in runs <==> r in runs[..n] || r == runs[n];
    }
  }

  lemma {:induction false} DistinctRepIds(runs: seq<Run>)
    requires forall i :: 0 <= i < |runs| ==> runs[i].Run?
    ensures |RepIds(runs)| == |runs| && forall i :: 0 <= i < |runs| ==> RepIds(runs)[i] == Value(runs[i].rep)
  {
    if runs != [] {
      DistinctRepIds(runs[..|runs| - 1]);
    }
  }

  lemma {:induction false} DistinctNumbers(runs: seq<Run>)
    requires forall a: nat, b: nat :: a < b < |runs| && runs[a].Run? && runs[b].Run? ==> runs[a].rep != runs[b].rep
    ensures Distinct(NumberIds(runs))
  {
    if runs != [] {
      var n := |runs| - 1;
      DistinctNumbers(runs[..n]);
      if runs[n].Run? && runs[n].rep.Number? {
        assert forall r :: r in runs[..n] && r.Run? ==> r.rep != runs[n].rep;
        IdsOfReps(runs[..n], runs[n].rep.n);
        DistinctAppend(NumberIds(runs[..n]), runs[n].rep.n);
      }
    }
  }

  lemma {:induction false} EveryRepIsThere(e: Entry, n: nat)
    requires GoodEntry(e) && Complete(e, n)
    ensures forall m: nat :: 1 <= m <= n ==> HasRep(e.runs, Number(m))
  {
    CompleteMeansOneToN(e, n);
    forall m: nat | 1 <= m <= n ensures HasRep(e.runs, Number(m)) {
      assert OneTo(n)[m - 1] == m && m in multiset(OneTo(n)) && m in multiset(NumberIds(e.runs));
      IdsOfReps(e.runs, m);
    }
  }

  lemma {:induction false} CheckedIsSound(e: Entry, n: nat)
    requires n >= 1 && GoodEntry(e) && Complete(e, n)
    ensures SoundEntry(e, n)
  {
    DistinctRepIds(e.runs);
    EveryRepIsThere(e, n);
    var one: nat := 1;
    assert HasRep(e.runs, Number(one));
    var i :| 0 <= i < |e.runs| && e.runs[i].Run? && e.runs[i].rep == Number(one);
    forall j | 0 <= j < |e.runs|
      ensures e.runs[j].rep == Flag(false) || (e.runs[j].rep.Number? && 1 <= e.runs[j].rep.n <= n)
    {
      SoundRun(e, n, i, j);
    }
    forall a: nat, b: nat | a < b < |e.runs| ensures e.runs[a].rep != e.runs[b].rep {
      assert RepIds(e.runs)[a] != RepIds(e.runs)[b];
    }
  }

  lemma {:induction false} SoundRun(e: Entry, n: nat, i: nat, j: nat)
    requires GoodEntry(e) && Complete(e, n) && i < |e.runs| && j < |e.runs| && e.runs[i].rep == Number(1)
    ensures e.runs[j].rep == Flag(false) || (e.runs[j].rep.Number? && 1 <= e.runs[j].rep.n <= n)
  {
    DistinctRepIds(e.runs);
    var rep := e.runs[j].rep;
    assert i != j ==> RepIds(e.runs)[i] != RepIds(e.runs)[j];
    if rep.Number? {
      assert e.runs[j] in e.runs && HasRep(e.runs, Number(rep.n));
      IdsOfReps(e.runs, rep.n);
    }
  }

  lemma {:induction false} SoundIsChecked(e: Entry, n: nat)
    requires n >= 1 && SoundEntry(e, n)
    ensures GoodEntry(e) && Complete(e, n)
  {
    forall i | 0 <= i < |e.runs| ensures e.runs[i].Run? && e.runs[i].hasResponse {
      assert e.runs[i] in e.runs;
    }
    DistinctRepIds(e.runs);
    forall a, b | 0 <= a < b < |e.runs| ensures Value(e.runs[a].rep) != Value(e.runs[b].rep) {
      assert e.runs[a] in e.runs && e.runs[b] in e.runs;
    }
    var one: nat := 1;
    assert HasRep(e.runs, Number(one));
    DistinctNumbers(e.runs);
    var ids := NumberIds(e.runs);
    forall x ensures x in ids <==> x in OneTo(n) {
      IdsOfReps(e.runs, x);
      OneToHolds(n, x);
      if x in OneTo(n) {
        var m: nat := x;
        assert HasRep(e.runs, Number(m));
      }
    }
    OneToHolds(n, 1);
    OneToHolds(n, n);
    DistinctPermutation(ids, OneTo(n));
  }

  lemma {:induction false} OneToHolds(n: nat, x: int)
    ensures x in OneTo(n) <==> 1 <= x <= n
  {
    if 1 <= x <= n {
      assert OneTo(n)[x - 1] == x;
    }
  }

  /** Both arms have an additional run with the rep `false`, or neither has. */
  lemma {:induction false} SameRepsIff(a: Entry, b: Entry, n: nat)
    requires n >= 1 && SoundEntry(a, n) && SoundEntry(b, n)
    ensures SameReps(a, b) <==> (HasRep(a.runs, Flag(false)) <==> HasRep(b.runs, Flag(false)))
  {
    SoundIds(a, n);
    SoundIds(b, n);
    SoundSize(a, n);
    SoundSize(b, n);
    assert 0 in ToSet(RepIds(a.runs)) <==> 0 in RepIds(a.runs);
    assert 0 in ToSet(RepIds(b.runs)) <==> 0 in RepIds(b.runs);
  }

  /** The ids of a sound entry. */
  lemma {:induction false} SoundIds(e: Entry, n: nat)
    requires n >= 1 && SoundEntry(e, n)
    ensures ToSet(RepIds(e.runs)) == ToSet(OneTo(n)) + if HasRep(e.runs, Flag(false)) then {0} else {}
    ensures 0 in RepIds(e.runs) <==> HasRep(e.runs, Flag(false))
  {
    forall x ensures x in RepIds(e.runs) <==> x in OneTo(n) || (x == 0 && HasRep(e.runs, Flag(false))) {
      IdsOfReps(e.runs, x);
      OneToHolds(n, x);
      if 1 <= x <= n {
        var m: nat := x;
        assert HasRep(e.runs, Number(m));
      }
    }
  }

  lemma {:induction false} SoundSize(e: Entry, n: nat)
    requires n >= 1 && SoundEntry(e, n)
    ensures |RepIds(e.runs)| == n + if 0 in RepIds(e.runs) then 1 else 0
  {
    SoundIsChecked(e, n);
    AcceptedScenario(e, n);
    DistinctRepIds(e.runs);
  }

  /** One arm: its role, its reps, sound scenarios, each once. */
  ghost predicate SoundArm(p: Payload, role: string) {
    && p.role == role && p.reps.Some? && p.reps.value >= 1 && p.scenarios != []
    && (forall e :: e in p.scenarios ==> SoundEntry(e, p.reps.value))
    && forall a: nat, b: nat :: a < b < |p.scenarios| && p.scenarios[a].Entry? && p.scenarios[b].Entry? ==>
         p.scenarios[a].scenario != p.scenarios[b].scenario
  }

  ghost predicate HasScenario(scenarios: seq<Entry>, n: int) {
    exists e :: e in scenarios && e.Entry? && e.scenario == n
  }

  /** Two arms over one experiment: the same number of reps, the same scenarios, those of
      the corpus, and the additional run of a scenario in both arms or in neither. */
  ghost predicate SameExperiment(base: Payload, treat: Payload, expected: Option<set<int>>, allowSubset: bool) {
    && SoundArm(base, "baseline") && SoundArm(treat, "treatment") && base.reps == treat.reps
    && (forall n :: HasScenario(base.scenarios, n) <==> HasScenario(treat.scenarios, n))
    && (expected.Some? ==> forall n :: HasScenario(base.scenarios, n) ==> n in expected.value)
    && (expected.Some? && !allowSubset ==> forall n :: n in expected.value ==> HasScenario(base.scenarios, n))
    && forall e, f :: e in base.scenarios && f in treat.scenarios && e.Entry? && f.Entry? && e.scenario == f.scenario ==>
         (HasRep(e.runs, Flag(false)) <==> HasRep(f.runs, Flag(false)))
  }

  lemma {:induction false} ScenarioIds(scenarios: seq<Entry>)
    ensures forall n :: n in Ids(scenarios) <==> HasScenario(scenarios, n)
  {
    forall n ensures n in Ids(scenarios) <==> HasScenario(scenarios, n) {
      if n in Ids(scenarios) {
        IdsCome(scenarios, n);
      }
      if HasScenario(scenarios, n) {
        var i :| 0 <= i < |scenarios| && scenarios[i].Entry? && scenarios[i].scenario == n;
        IdsKnow(scenarios, i);
      }
    }
  }

  lemma {:induction false} IdsByPlace(scenarios: seq<Entry>)
    requires AllEntries(scenarios)
    ensures |Ids(scenarios)| == |scenarios| && forall i :: 0 <= i < |scenarios| ==> Ids(scenarios)[i] == scenarios[i].scenario
  {
    if scenarios != [] {
      var n := |scenarios| - 1;
      assert scenarios[n] in scenarios && forall e :: e in scenarios[..n] ==> e in scenarios;
      IdsByPlace(scenarios[..n]);
    }
  }

  lemma {:induction false} GoodArmIsSound(p: Payload, role: string)
    ensures GoodArm(p, role) <==> SoundArm(p, role)
  {
    if GoodArm(p, role) {
      forall e | e in p.scenarios ensures SoundEntry(e, p.reps.value) {
        CheckedIsSound(e, p.reps.value);
      }
      IdsByPlace(p.scenarios);
    }
    if SoundArm(p, role) {
      forall i | 0 <= i < |p.scenarios| ensures GoodEntry(p.scenarios[i]) && Complete(p.scenarios[i], p.reps.value) {
        assert p.scenarios[i] in p.scenarios;
        SoundIsChecked(p.scenarios[i], p.reps.value);
      }
      assert forall e :: e in p.scenarios ==> SoundEntry(e, p.reps.value);
      IdsByPlace(p.scenarios);
    }
  }

  lemma {:induction false} FittingIff(base: seq<Entry>, treat: seq<Entry>, n: nat)
    requires n >= 1 && (forall e :: e in base ==> SoundEntry(e, n)) && forall f :: f in treat ==> SoundEntry(f, n)
    ensures Fitting(base, |base|, treat) <==>
            forall e, f :: e in base && f in treat && e.Entry? && f.Entry? && e.scenario == f.scenario ==>
              (HasRep(e.runs, Flag(false)) <==> HasRep(f.runs, Flag(false)))
  {
    forall e, f | e in base && f in treat
      ensures SameReps(e, f) <==> (HasRep(e.runs, Flag(false)) <==> HasRep(f.runs, Flag(false)))
    {
      SameRepsIff(e, f, n);
    }
    FittingPairs(base, treat);
  }

  lemma {:induction false} FittingPairs(base: seq<Entry>, treat: seq<Entry>)
    requires AllEntries(base) && AllEntries(treat)
    ensures Fitting(base, |base|, treat) <==>
            forall e, f :: e in base && f in treat && e.scenario == f.scenario ==> SameReps(e, f)
  {
    if Fitting(base, |base|, treat) {
      forall e, f | e in base && f in treat && e.scenario == f.scenario ensures SameReps(e, f) {
        var i :| 0 <= i < |base| && base[i] == e;
        var j :| 0 <= j < |treat| && treat[j] == f;
        assert FitsEntry(base[i], treat);
      }
    }
  }

  /** The checks accept exactly the pairs of arms over one experiment. */
  lemma {:induction false} AcceptedIff(base: Payload, treat: Payload, expected: Option<set<int>>, allowSubset: bool)
    ensures Comparable(base, treat, expected, allowSubset) <==> SameExperiment(base, treat, expected, allowSubset)
  {
    GoodArmIsSound(base, "baseline");
    GoodArmIsSound(treat, "treatment");
    if SoundArm(base, "baseline") && SoundArm(treat, "treatment") && base.reps == treat.reps {
      ScenarioIds(base.scenarios);
      ScenarioIds(treat.scenarios);
      SameScenarios(base.scenarios, treat.scenarios, expected, allowSubset);
      FittingIff(base.scenarios, treat.scenarios, base.reps.value);
    }
  }

  lemma {:induction false} SameSets(base: seq<Entry>, treat: seq<Entry>)
    requires forall n :: n in Ids(base) <==> HasScenario(base, n)
    requires forall n :: n in Ids(treat) <==> HasScenario(treat, n)
    ensures ToSet(Ids(base)) == ToSet(Ids(treat)) <==> forall n :: HasScenario(base, n) <==> HasScenario(treat, n)
  {
    var a, b := ToSet(Ids(base)), ToSet(Ids(treat));
    assert forall n :: n in a <==> HasScenario(base, n);
    assert forall n :: n in b <==> HasScenario(treat, n);
    if forall n :: HasScenario(base, n) <==> HasScenario(treat, n) {
      forall n ensures n in a <==> n in b {
        assert HasScenario(base, n) <==> HasScenario(treat, n);
      }
      assert a == b;
    }
  }

  lemma {:induction false} SubsetIff(a: set<int>, b: set<int>)
    ensures a <= b <==> forall n :: n in a ==> n in b
  {
    if forall n :: n in a ==> n in b {
      forall n | n in a ensures n in b {
      }
    }
  }

  lemma {:induction false} CoversIff(scenarios: seq<Entry>, expected: Option<set<int>>, allowSubset: bool)
    requires forall n :: n in Ids(scenarios) <==> HasScenario(scenarios, n)
    ensures Covers(Ids(scenarios), expected, allowSubset) <==>
            && (expected.Some? ==> forall n :: HasScenario(scenarios, n) ==> n in expected.value)
            && (expected.Some? && !allowSubset ==> forall n :: n in expected.value ==> HasScenario(scenarios, n))
  {
    var a := ToSet(Ids(scenarios));
    assert forall n :: n in a <==> HasScenario(scenarios, n);
    if expected.Some? {
      var e := expected.value;
      SubsetIff(a, e);
      SubsetIff(e, a);
    }
  }

  lemma {:induction false} SameScenarios(base: seq<Entry>, treat: seq<Entry>, expected: Option<set<int>>, allowSubset: bool)
    requires forall n :: n in Ids(base) <==> HasScenario(base, n)
    requires forall n :: n in Ids(treat) <==> HasScenario(treat, n)
    ensures (ToSet(Ids(base)) == ToSet(Ids(treat))
             && Covers(Ids(base), expected, allowSubset) && Covers(Ids(treat), expected, allowSubset)) <==>
            && (forall n :: HasScenario(base, n) <==> HasScenario(treat, n))
            && (expected.Some? ==> forall n :: HasScenario(base, n) ==> n in expected.value)
            && (expected.Some? && !allowSubset ==> forall n :: n in expected.value ==> HasScenario(base, n))
  {
    SameSets(base, treat);
    CoversIff(base, expected, allowSubset);
  }

  /** `validate_arms`, up to the wording and the number of its errors. */
  method ValidateArms(base: Payload, treat: Payload, expected: Option<set<int>>, allowSubset: bool) returns (accepted: bool)
    ensures accepted <==> Comparable(base, treat, expected, allowSubset)
    ensures accepted <==> SameExperiment(base, treat, expected, allowSubset)
  {
    AcceptedIff(base, treat, expected, allowSubset);
    var ok, baseMap := CheckArm(base, "baseline");
    var ok', treatMap := CheckArm(treat, "treatment");
    if !ok || !ok' || base.reps != treat.reps || baseMap.Keys != treatMap.Keys {
      return false;
    }
    if expected.Some? && !(baseMap.Keys <= expected.value && (allowSubset || expected.value <= baseMap.Keys)) {
      return false;
    }
    accepted := CompareArms(base.scenarios, treat.scenarios, treatMap);
  }

  /** Two arms with one declared rep are accepted although each carries a second run whose
      rep id is `false`: the first check counts it as the id 0, the second leaves it out. */
  lemma {:induction false} FalseRepIsAccepted()
    ensures var runs := [Run(Number(1), true), Run(Flag(false), true)];
            Comparable(Payload("baseline", Some(1), [Entry(7, runs)]), Payload("treatment", Some(1), [Entry(7, runs)]), None, false)
  {
    var runs := [Run(Number(1), true), Run(Flag(false), true)];
    var e := Entry(7, runs);
    assert runs[..1][..0] == [] && runs[..1] == [runs[0]];
    assert RepIds(runs) == [1, 0] && NumberIds(runs) == [1];
    assert [e][..0] == [] && Ids([e]) == [7];
    assert GoodEntry(e) && Complete(e, 1) && SameReps(e, e);
  }
}
