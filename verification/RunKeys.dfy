/** `scripts/eval_adjudicate.py`, the run keys of `pack`: every run of every report gets a
    repeat label that is unique for its arm and pull request. */
module RunKeys {
  import opened Seqs
  import opened Numerals

  datatype Finding = Finding(severity: string, content: string)
  datatype RawRun = RawRun(arm: string, pr: string, mode: string, findings: seq<Finding>)
  datatype Key = Key(arm: string, pr: string, rep: string)
  datatype Run = Run(key: Key, findings: seq<Finding>)

  // ---------------------------------------------------------------- collecting

  /** A scenario of a report of an arm; `id` is empty in the older schema. */
  datatype Scenario = Scenario(arm: string, id: string, olderId: string, meta: string, runs: seq<(string, seq<seq<Finding>>)>)

  /** `_scenario_id`. */
  function ScenarioKey(s: Scenario): string {
    if s.id != "" then s.id else s.olderId
  }

  function RunsOfMode(arm: string, pr: string, mode: string, runs: seq<seq<Finding>>): seq<RawRun> {
    if runs == [] then [] else RunsOfMode(arm, pr, mode, runs[..|runs| - 1]) + [RawRun(arm, pr, mode, runs[|runs| - 1])]
  }

  /** `_iter_runs`: every run of a scenario, mode by mode. */
  function RunsOfScenario(arm: string, pr: string, modes: seq<(string, seq<seq<Finding>>)>): seq<RawRun> {
    if modes == [] then []
    else
      var last := modes[|modes| - 1];
      RunsOfScenario(arm, pr, modes[..|modes| - 1]) + RunsOfMode(arm, pr, last.0, last.1)
  }

  function RawRuns(scenarios: seq<Scenario>): seq<RawRun> {
    if scenarios == [] then []
    else
      var s := scenarios[|scenarios| - 1];
      RawRuns(scenarios[..|scenarios| - 1]) + RunsOfScenario(s.arm, ScenarioKey(s), s.runs)
  }

  /** Two scenarios that cannot go into one pack: different identity schemas, or one
      scenario under two descriptions. */
  predicate Clashing(a: Scenario, b: Scenario) {
    (a.id == "") != (b.id == "") || (ScenarioKey(a) == ScenarioKey(b) && a.meta != b.meta)
  }

  ghost predicate Consistent(scenarios: seq<Scenario>) {
    forall i, j :: 0 <= i < j < |scenarios| ==> !Clashing(scenarios[i], scenarios[j])
  }

  /** The group table of the scenarios so far. */
  ghost predicate Collected(done: seq<Scenario>, groups: map<string, string>) {
    && Consistent(done)
    && (forall s :: s in done ==> ScenarioKey(s) in groups && groups[ScenarioKey(s)] == s.meta)
    && forall pr :: pr in groups ==> exists s :: s in done && ScenarioKey(s) == pr
  }

  lemma {:induction false} ConsistentStep(done: seq<Scenario>, groups: map<string, string>, s: Scenario)
    requires Collected(done, groups)
    requires done != [] ==> (done[0].id == "" <==> s.id == "")
    requires ScenarioKey(s) in groups ==> groups[ScenarioKey(s)] == s.meta
    ensures Consistent(done + [s])
  {
    forall i | 0 <= i < |done| ensures !Clashing(done[i], s) {
      assert done[i] in done;
      if i > 0 {
        assert !Clashing(done[0], done[i]);
      }
    }
  }

  lemma {:induction false} TableStep(done: seq<Scenario>, groups: map<string, string>, s: Scenario)
    requires Collected(done, groups) && Consistent(done + [s])
    requires ScenarioKey(s) in groups ==> groups[ScenarioKey(s)] == s.meta
    ensures Collected(done + [s], groups[ScenarioKey(s) := s.meta])
  {
    assert forall x :: x in done + [s] <==> x in done || x == s;
  }

  method AddScenario(done: seq<Scenario>, groups0: map<string, string>, s: Scenario)
    returns (refused: bool, groups: map<string, string>)
    requires Collected(done, groups0)
    ensures refused ==> !Consistent(done + [s])
    ensures !refused ==> Collected(done + [s], groups)
  {
    refused, groups := false, groups0;
    var pr := ScenarioKey(s);
    if done != [] && (done[0].id == "") != (s.id == "") {
      assert Clashing((done + [s])[0], (done + [s])[|done|]);
      refused := true;
    } else if pr in groups && groups[pr] != s.meta {
      ghost var i :| 0 <= i < |done| && ScenarioKey(done[i]) == pr;
      assert Clashing((done + [s])[i], (done + [s])[|done|]);
      refused := true;
    } else {
      ConsistentStep(done, groups, s);
      TableStep(done, groups, s);
      groups := groups[pr := s.meta];
    }
  }

  lemma {:induction false} InconsistentPrefix(a: seq<Scenario>, b: seq<Scenario>)
    requires a <= b && !Consistent(a)
    ensures !Consistent(b)
  {
    var i, j :| 0 <= i < j < |a| && Clashing(a[i], a[j]);
    assert Clashing(b[i], b[j]);
  }

  lemma {:induction false} OneMoreScenario(scenarios: seq<Scenario>, n: nat)
    requires n < |scenarios|
    ensures scenarios[..n + 1] == scenarios[..n] + [scenarios[n]]
    ensures RawRuns(scenarios[..n + 1]) ==
            RawRuns(scenarios[..n]) + RunsOfScenario(scenarios[n].arm, ScenarioKey(scenarios[n]), scenarios[n].runs)
  {
    assert scenarios[..n + 1][..n] == scenarios[..n];
  }

  /** The first pass of `pack` over every scenario of every report of every arm. */
  method Collect(scenarios: seq<Scenario>) returns (refused: bool, groups: map<string, string>, raws: seq<RawRun>)
    ensures refused <==> !Consistent(scenarios)
    ensures !refused ==> raws == RawRuns(scenarios) && Collected(scenarios, groups)
  {
    refused, groups, raws := false, map[], [];
    for n := 0 to |scenarios|
      invariant !refused && Collected(scenarios[..n], groups) && raws == RawRuns(scenarios[..n])
    {
      OneMoreScenario(scenarios, n);
      refused, groups := AddScenario(scenarios[..n], groups, scenarios[n]);
      if refused {
        InconsistentPrefix(scenarios[..n + 1], scenarios);
        return;
      }
      raws := raws + RunsOfScenario(scenarios[n].arm, ScenarioKey(scenarios[n]), scenarios[n].runs);
    }
    assert scenarios[..|scenarios|] == scenarios;
  }

  /** What the pass refuses: some scenarios with an id and some without, or one scenario
      under two descriptions. */
  lemma {:induction false} ConsistentIff(scenarios: seq<Scenario>)
    ensures Consistent(scenarios) <==>
            && ((forall s :: s in scenarios ==> s.id == "") || (forall s :: s in scenarios ==> s.id != ""))
            && forall a, b :: a in scenarios && b in scenarios && a.meta != b.meta ==>
                 (if a.id != "" then a.id else a.olderId) != (if b.id != "" then b.id else b.olderId)
  {
    if Consistent(scenarios) {
      forall a, b | a in scenarios && b in scenarios ensures !Clashing(a, b) {
        var i :| 0 <= i < |scenarios| && scenarios[i] == a;
        var j :| 0 <= j < |scenarios| && scenarios[j] == b;
        assert i == j || !Clashing(scenarios[i], scenarios[j]) || !Clashing(scenarios[j], scenarios[i]);
      }
    }
    if scenarios != [] {
      assert scenarios[0] in scenarios;
    }
  }

  lemma {:induction false} ModeRuns(arm: string, pr: string, mode: string, runs: seq<seq<Finding>>)
    ensures |RunsOfMode(arm, pr, mode, runs)| == |runs|
    ensures forall k :: 0 <= k < |runs| ==> RunsOfMode(arm, pr, mode, runs)[k] == RawRun(arm, pr, mode, runs[k])
  {
    if runs != [] {
      ModeRuns(arm, pr, mode, runs[..|runs| - 1]);
    }
  }

  lemma {:induction false} ModesInOrder(arm: string, pr: string, x: seq<(string, seq<seq<Finding>>)>, y: seq<(string, seq<seq<Finding>>)>)
    ensures RunsOfScenario(arm, pr, x + y) == RunsOfScenario(arm, pr, x) + RunsOfScenario(arm, pr, y)
  {
    if y == [] {
      assert x + y == x;
    } else {
      assert (x + y)[..|x + y| - 1] == x + y[..|y| - 1];
      ModesInOrder(arm, pr, x, y[..|y| - 1]);
    }
  }

  lemma {:induction false} Associate(a: seq<RawRun>, b: seq<RawRun>, c: seq<RawRun>)
    ensures a + (b + c) == (a + b) + c
  {
  }

  lemma {:induction false} LastScenario(a: seq<Scenario>, s: Scenario) returns (own: seq<RawRun>)
    ensures own == RawRuns([s]) && RawRuns(a + [s]) == RawRuns(a) + own
  {
    own := RunsOfScenario(s.arm, ScenarioKey(s), s.runs);
    OneScenario(s);
    assert (a + [s])[..|a|] == a;
  }

  lemma {:induction false} ScenariosInOrder(a: seq<Scenario>, b: seq<Scenario>)
    ensures RawRuns(a + b) == RawRuns(a) + RawRuns(b)
  {
    if b == [] {
      assert a + b == a;
    } else {
      var c, s := b[..|b| - 1], b[|b| - 1];
      ScenariosInOrder(a, c);
      assert b == c + [s] && a + b == (a + c) + [s];
      var own := LastScenario(a + c, s);
      own := LastScenario(c, s);
      Associate(RawRuns(a), RawRuns(c), own);
    }
  }

  lemma {:induction false} OneScenario(s: Scenario)
    ensures RawRuns([s]) == RunsOfScenario(s.arm, ScenarioKey(s), s.runs)
  {
    assert [s][..0] == [];
    assert RawRuns([s][..0]) == [];
  }

  /** The collected runs are those of the reports in their order, scenario by scenario and
      mode by mode, with the empty ones: these four facts determine the list. */
  lemma {:induction false} RunsOfReports(a: seq<Scenario>, b: seq<Scenario>, s: Scenario,
                                         x: seq<(string, seq<seq<Finding>>)>, y: seq<(string, seq<seq<Finding>>)>,
                                         mode: string, runs: seq<seq<Finding>>)
    ensures RawRuns([]) == RawRuns([s.(runs := [])]) == []
    ensures RawRuns(a + b) == RawRuns(a) + RawRuns(b)
    ensures RawRuns([s.(runs := x + y)]) == RawRuns([s.(runs := x)]) + RawRuns([s.(runs := y)])
    ensures |RawRuns([s.(runs := [(mode, runs)])])| == |runs|
    ensures forall k :: 0 <= k < |runs| ==>
              RawRuns([s.(runs := [(mode, runs)])])[k] == RawRun(s.arm, if s.id != "" then s.id else s.olderId, mode, runs[k])
  {
    ScenariosInOrder(a, b);
    OneScenario(s.(runs := []));
    OneScenario(s.(runs := x));
    OneScenario(s.(runs := y));
    OneScenario(s.(runs := x + y));
    ModesInOrder(s.arm, ScenarioKey(s), x, y);
    OneScenario(s.(runs := [(mode, runs)]));
    OneMode(s.arm, ScenarioKey(s), mode, runs);
    ModeRuns(s.arm, ScenarioKey(s), mode, runs);
  }

  lemma {:induction false} OneMode(arm: string, pr: string, mode: string, runs: seq<seq<Finding>>)
    ensures RunsOfScenario(arm, pr, [(mode, runs)]) == RunsOfMode(arm, pr, mode, runs)
  {
    assert [(mode, runs)][..0] == [];
    assert RunsOfScenario(arm, pr, [(mode, runs)][..0]) == [];
  }

  // ---------------------------------------------------------------- rep labels

  /** `_rep_label`. */
  function RepLabel(mode: string, index: nat, multiMode: bool): string {
    if multiMode then mode + ".r" + Digits(index) else "r" + Digits(index)
  }

  predicate SameSeries(a: RawRun, b: RawRun) {
    a.arm == b.arm && a.pr == b.pr && a.mode == b.mode
  }

  /** How many runs of a list belong to the series of `r`. */
  function InSeries(raws: seq<RawRun>, r: RawRun): nat {
    if raws == [] then 0
    else InSeries(raws[..|raws| - 1], r) + if SameSeries(raws[|raws| - 1], r) then 1 else 0
  }

  predicate Contributes(r: RawRun, arm: string, pr: string, mode: string) {
    r.arm == arm && r.pr == pr && r.mode == mode
  }

  /** More than one mode contributes runs to this arm and pull request. */
  predicate MultiMode(raws: seq<RawRun>, arm: string, pr: string) {
    exists r, s :: r in raws && s in raws && Contributes(r, arm, pr, r.mode) && Contributes(s, arm, pr, s.mode)
                   && r.mode != s.mode
  }

  function KeyAt(raws: seq<RawRun>, i: nat): Key
    requires i < |raws|
  {
    var r := raws[i];
    Key(r.arm, r.pr, RepLabel(r.mode, InSeries(raws[..i], r) + 1, MultiMode(raws, r.arm, r.pr)))
  }

  function LabelledUpTo(raws: seq<RawRun>, n: nat): (runs: seq<Run>)
    requires n <= |raws|
    ensures |runs| == n
    ensures forall i :: 0 <= i < n ==> runs[i] == Run(KeyAt(raws, i), raws[i].findings)
  {
    if n == 0 then [] else LabelledUpTo(raws, n - 1) + [Run(KeyAt(raws, n - 1), raws[n - 1].findings)]
  }

  function Labelled(raws: seq<RawRun>): seq<Run> {
    LabelledUpTo(raws, |raws|)
  }

  function Keys(runs: seq<Run>): (keys: seq<Key>)
    ensures |keys| == |runs|
    ensures forall i :: 0 <= i < |runs| ==> keys[i] == runs[i].key
  {
    if runs == [] then [] else Keys(runs[..|runs| - 1]) + [runs[|runs| - 1].key]
  }

  lemma {:induction false} InSeriesGrows(raws: seq<RawRun>, i: nat, j: nat, r: RawRun)
    requires i <= j <= |raws|
    ensures InSeries(raws[..i], r) <= InSeries(raws[..j], r)
    ensures (exists k :: i <= k < j && SameSeries(raws[k], r)) ==> InSeries(raws[..i], r) < InSeries(raws[..j], r)
    decreases j
  {
    if i < j {
      assert raws[..j][..j - 1] == raws[..j - 1];
      InSeriesGrows(raws, i, j - 1, r);
    }
  }

  lemma {:induction false} SameSeriesCounts(raws: seq<RawRun>, a: RawRun, b: RawRun)
    requires SameSeries(a, b)
    ensures InSeries(raws, a) == InSeries(raws, b)
  {
    if raws != [] {
      SameSeriesCounts(raws[..|raws| - 1], a, b);
    }
  }

  /** A label determines its index and, when it carries one, its mode: neither "r" nor a
      digit is a dot, so the mode ends before the last dot. */
  lemma {:induction false} RepLabelInjective(m1: string, i1: nat, m2: string, i2: nat, multiMode: bool)
    requires RepLabel(m1, i1, multiMode) == RepLabel(m2, i2, multiMode)
    ensures i1 == i2 && (multiMode ==> m1 == m2)
  {
    var d1, d2 := Digits(i1), Digits(i2);
    ValueOfDigits(i1);
    ValueOfDigits(i2);
    if multiMode {
      var s1, s2 := m1 + ".r" + d1, m2 + ".r" + d2;
      NoLaterDot(m1, d1);
      NoLaterDot(m2, d2);
      assert s1[|m1|] == '.' && s2[|m2|] == '.';
      assert m1 == s1[..|m1|] && m2 == s2[..|m2|];
      assert d1 == s1[|m1| + 2..] && d2 == s2[|m2| + 2..];
    } else {
      assert d1 == ("r" + d1)[1..] && d2 == ("r" + d2)[1..];
    }
  }

  lemma {:induction false} NoLaterDot(mode: string, digits: string)
    requires forall c :: c in digits ==> IsDigit(c)
    ensures forall k :: |mode| < k < |mode + ".r" + digits| ==> (mode + ".r" + digits)[k] != '.'
  {
    var s := mode + ".r" + digits;
    forall k | |mode| < k < |s| ensures s[k] != '.' {
      if k > |mode| + 1 {
        assert s[k] == digits[k - |mode| - 2] && digits[k - |mode| - 2] in digits;
      }
    }
  }

  /** The runs of a list with the arm, the pull request and the mode of `r`. */
  ghost function SeriesPlaces(raws: seq<RawRun>, r: RawRun): set<nat> {
    set k: nat | k < |raws| && raws[k].arm == r.arm && raws[k].pr == r.pr && raws[k].mode == r.mode
  }

  lemma {:induction false} InSeriesCounts(raws: seq<RawRun>, r: RawRun)
    ensures InSeries(raws, r) == |SeriesPlaces(raws, r)|
  {
    if raws == [] {
      assert SeriesPlaces(raws, r) == {};
    } else {
      var n := |raws| - 1;
      InSeriesCounts(raws[..n], r);
      assert SeriesPlaces(raws, r) == SeriesPlaces(raws[..n], r) + if SameSeries(raws[n], r) then {n} else {};
    }
  }

  /** A run keeps its arm, its pull request and its findings. Its label is `r` and one more
      than the number of earlier runs of its series, after its mode and a dot when some run
      of the same arm and pull request has another mode. */
  lemma {:induction false} LabelledRun(raws: seq<RawRun>, i: nat)
    requires i < |raws|
    ensures var run, raw, runs := Labelled(raws)[i], raws[i], Labelled(raws);
            && |runs| == |raws| && run.key.arm == raw.arm && run.key.pr == raw.pr && run.findings == raw.findings
            && run.key.rep ==
               (if exists k: nat :: k < |raws| && raws[k].arm == raw.arm && raws[k].pr == raw.pr && raws[k].mode != raw.mode
                then raw.mode + "." else "") + "r" + Digits(1 + |SeriesPlaces(raws[..i], raw)|)
  {
    var raw := raws[i];
    InSeriesCounts(raws[..i], raw);
    OtherMode(raws, i);
    LabelText(raw.mode, Digits(1 + |SeriesPlaces(raws[..i], raw)|));
  }

  lemma {:induction false} LabelText(mode: string, digits: string)
    ensures mode + ".r" + digits == (mode + ".") + "r" + digits
    ensures "r" + digits == "" + "r" + digits
  {
  }

  lemma {:induction false} OtherMode(raws: seq<RawRun>, i: nat)
    requires i < |raws|
    ensures MultiMode(raws, raws[i].arm, raws[i].pr) <==>
            exists k: nat :: k < |raws| && raws[k].arm == raws[i].arm && raws[k].pr == raws[i].pr && raws[k].mode != raws[i].mode
  {
    var raw := raws[i];
    if r, s :| r in raws && s in raws && Contributes(r, raw.arm, raw.pr, r.mode) && Contributes(s, raw.arm, raw.pr, s.mode)
               && r.mode != s.mode {
      var other := if r.mode != raw.mode then r else s;
      var k :| 0 <= k < |raws| && raws[k] == other;
    }
    if k: nat :| k < |raws| && raws[k].arm == raw.arm && raws[k].pr == raw.pr && raws[k].mode != raw.mode {
      assert Contributes(raws[k], raw.arm, raw.pr, raws[k].mode) && Contributes(raw, raw.arm, raw.pr, raw.mode);
    }
  }

  /** No two runs share a key, whatever arms, shards, modes and repeats went in. */
  lemma {:induction false} RunKeysDistinct(raws: seq<RawRun>)
    ensures Distinct(Keys(Labelled(raws)))
  {
    forall i, j | 0 <= i < j < |raws| ensures KeyAt(raws, i) != KeyAt(raws, j) {
      KeysDiffer(raws, i, j);
    }
  }

  lemma {:induction false} KeysDiffer(raws: seq<RawRun>, i: nat, j: nat)
    requires i < j < |raws|
    ensures KeyAt(raws, i) != KeyAt(raws, j)
  {
    var a, b := raws[i], raws[j];
    if KeyAt(raws, i) == KeyAt(raws, j) {
      RepLabelInjective(a.mode, InSeries(raws[..i], a) + 1, b.mode, InSeries(raws[..j], b) + 1, MultiMode(raws, a.arm, a.pr));
      assert SameSeries(a, b);
      SameSeriesCounts(raws[..i], a, b);
      InSeriesGrows(raws, i, j, b);
      assert false;
    }
  }

  type Series = (string, string, string)

  function SeriesOf(r: RawRun): Series { (r.arm, r.pr, r.mode) }

  /** The running counters hold, for every series, how many of its runs have been seen. */
  ghost predicate Counting(raws: seq<RawRun>, counters: map<Series, nat>) {
    forall r: RawRun ::
      (if SeriesOf(r) in counters then counters[SeriesOf(r)] else 0) == InSeries(raws, r)
  }

  lemma {:induction false} CountingStep(raws: seq<RawRun>, i: nat, counters: map<Series, nat>)
    requires i < |raws| && Counting(raws[..i], counters)
    ensures Counting(raws[..i + 1], counters[SeriesOf(raws[i]) := InSeries(raws[..i], raws[i]) + 1])
  {
    var after := counters[SeriesOf(raws[i]) := InSeries(raws[..i], raws[i]) + 1];
    assert raws[..i + 1][..i] == raws[..i];
    forall r: RawRun
      ensures (if SeriesOf(r) in after then after[SeriesOf(r)] else 0) == InSeries(raws[..i + 1], r)
    {
      if SameSeries(raws[i], r) {
        SameSeriesCounts(raws[..i], raws[i], r);
      }
    }
  }

  type Modes = map<(string, string), set<string>>

  function ModesAt(modes: Modes, arm: string, pr: string): set<string> {
    if (arm, pr) in modes then modes[(arm, pr)] else {}
  }

  ghost predicate ModesKnown(raws: seq<RawRun>, modes: Modes) {
    forall arm, pr, m :: m in ModesAt(modes, arm, pr) <==> exists r :: r in raws && Contributes(r, arm, pr, m)
  }

  lemma {:induction false} ModesStep(raws: seq<RawRun>, r: RawRun, modes: Modes)
    requires ModesKnown(raws, modes)
    ensures ModesKnown(raws + [r], modes[(r.arm, r.pr) := ModesAt(modes, r.arm, r.pr) + {r.mode}])
  {
    var after, longer := modes[(r.arm, r.pr) := ModesAt(modes, r.arm, r.pr) + {r.mode}], raws + [r];
    forall arm, pr, m
      ensures m in ModesAt(after, arm, pr) <==> exists x :: x in longer && Contributes(x, arm, pr, m)
    {
      assert m in ModesAt(after, arm, pr) <==> m in ModesAt(modes, arm, pr) || Contributes(r, arm, pr, m);
      assert forall x :: x in longer <==> x in raws || x == r;
    }
  }

  lemma {:induction false} ModesTellMulti(raws: seq<RawRun>, modes: Modes, r: RawRun)
    requires r in raws && ModesKnown(raws, modes)
    ensures |ModesAt(modes, r.arm, r.pr)| > 1 <==> MultiMode(raws, r.arm, r.pr)
  {
    var here := ModesAt(modes, r.arm, r.pr);
    SizeAboveOne(here);
    if MultiMode(raws, r.arm, r.pr) {
      var x, y :| x in raws && y in raws && Contributes(x, r.arm, r.pr, x.mode) && Contributes(y, r.arm, r.pr, y.mode)
                  && x.mode != y.mode;
      assert x.mode in here && y.mode in here;
    }
    if |here| > 1 {
      var a, b :| a in here && b in here && a != b;
      var x :| x in raws && Contributes(x, r.arm, r.pr, a);
      var y :| y in raws && Contributes(y, r.arm, r.pr, b);
      assert Contributes(x, r.arm, r.pr, x.mode) && Contributes(y, r.arm, r.pr, y.mode);
    }
  }

  /** The modes that contribute to each arm and pull request. */
  method CollectModes(raws: seq<RawRun>) returns (modes: Modes)
    ensures ModesKnown(raws, modes)
  {
    modes := map[];
    for i := 0 to |raws|
      invariant ModesKnown(raws[..i], modes)
    {
      var r := raws[i];
      ModesStep(raws[..i], r, modes);
      assert raws[..i + 1] == raws[..i] + [r];
      modes := modes[(r.arm, r.pr) := ModesAt(modes, r.arm, r.pr) + {r.mode}];
    }
    assert raws[..|raws|] == raws;
  }

  /** The key of one run, from the running counters. */
  method NextKey(raws: seq<RawRun>, i: nat, modes: Modes, counters: map<Series, nat>)
    returns (key: Key, after: map<Series, nat>)
    requires i < |raws| && ModesKnown(raws, modes) && Counting(raws[..i], counters)
    ensures key == KeyAt(raws, i) && Counting(raws[..i + 1], after)
  {
    var r := raws[i];
    var index := (if SeriesOf(r) in counters then counters[SeriesOf(r)] else 0) + 1;
    assert index == InSeries(raws[..i], r) + 1;
    CountingStep(raws, i, counters);
    ModesTellMulti(raws, modes, r);
    after := counters[SeriesOf(r) := index];
    key := Key(r.arm, r.pr, RepLabel(r.mode, index, |ModesAt(modes, r.arm, r.pr)| > 1));
  }

  /** Only keys of the first `n` runs have been seen. */
  ghost predicate SeenUpTo(keys: seq<Key>, n: nat, seen: set<Key>)
    requires n <= |keys|
  {
    forall k :: k in seen ==> k in keys[..n]
  }

  lemma {:induction false} SeenStep(keys: seq<Key>, n: nat, seen: set<Key>)
    requires n < |keys| && SeenUpTo(keys, n, seen)
    ensures SeenUpTo(keys, n + 1, seen + {keys[n]})
    ensures keys[n] in seen ==> !Distinct(keys)
  {
    assert keys[..n + 1] == keys[..n] + [keys[n]];
    if keys[n] in seen {
      var j :| 0 <= j < n && keys[..n][j] == keys[n];
      assert keys[j] == keys[n];
    }
  }

  /** The run-key pass of `pack`, with its abort on a repeated key. */
  method AssignReps(raws: seq<RawRun>) returns (aborted: bool, runs: seq<Run>)
    ensures aborted ==> !Distinct(Keys(Labelled(raws)))
    ensures !aborted ==> runs == Labelled(raws)
  {
    aborted, runs := false, [];
    var modes := CollectModes(raws);
    var counters: map<Series, nat> := map[];
    var seen: set<Key> := {};
    ghost var keys := Keys(Labelled(raws));
    for i := 0 to |raws|
      invariant runs == LabelledUpTo(raws, i)
      invariant SeenUpTo(keys, i, seen)
      invariant Counting(raws[..i], counters)
      invariant !aborted
    {
      var key;
      key, counters := NextKey(raws, i, modes, counters);
      SeenStep(keys, i, seen);
      if key in seen {
        aborted := true;
        return;
      }
      seen := seen + {key};
      runs := runs + [Run(key, raws[i].findings)];
    }
  }

  lemma {:induction false} SizeAboveOne<T>(s: set<T>)
    ensures |s| > 1 <==> exists a, b :: a in s && b in s && a != b
  {
    if |s| > 1 {
      var a :| a in s;
      assert |s - {a}| > 0;
      var b :| b in s - {a};
    } else if s != {} {
      var a :| a in s;
      assert |s - {a}| == 0;
    }
  }
}
