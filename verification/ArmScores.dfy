/** `score_arm` of `scripts/live_judge_score.py`, and what comparable arms have in common. */
module ArmScores {
  import opened Options
  import opened Seqs
  import opened JudgeRetry
  import Arms = ArmComparability

  /** What the judge made of one run: a disposition, or nothing. */
  datatype Outcome = Judged(d: Disposition) | Unavailable

  datatype Scored = Scored(scenario: int, vulnerable: bool, outcome: Outcome)

  /** A scenario with the outcome of each of its runs. */
  datatype Graded = Graded(scenario: int, outcomes: seq<Outcome>)

  function RowsOf(scenario: int, vulnerable: bool, outcomes: seq<Outcome>): (r: seq<Scored>)
    ensures |r| == |outcomes|
    ensures forall i :: 0 <= i < |r| ==> r[i] == Scored(scenario, vulnerable, outcomes[i])
  {
    if outcomes == [] then []
    else RowsOf(scenario, vulnerable, outcomes[..|outcomes| - 1]) + [Scored(scenario, vulnerable, outcomes[|outcomes| - 1])]
  }

  /** Every run of an arm, in order. */
  function Rows(arm: seq<Graded>, vulnerable: map<int, bool>): seq<Scored>
    requires forall g :: g in arm ==> g.scenario in vulnerable
  {
    if arm == [] then []
    else
      var last := arm[|arm| - 1];
      assert last in arm;
      Rows(arm[..|arm| - 1], vulnerable) + RowsOf(last.scenario, vulnerable[last.scenario], last.outcomes)
  }

  predicate IsVulnerable(r: Scored) { r.vulnerable }
  predicate IsDetection(r: Scored) { r.vulnerable && r.outcome == Judged(Correct) }
  predicate IsJudgedControl(r: Scored) { !r.vulnerable && r.outcome.Judged? }
  predicate IsFalseAlarm(r: Scored) { IsJudgedControl(r) && r.outcome.d != NotFound }
  predicate IsUnjudgedControl(r: Scored) { !r.vulnerable && r.outcome.Unavailable? }

  function HasOutcome(o: Outcome): Scored -> bool {
    (r: Scored) => r.outcome == o
  }

  datatype Totals = Totals(dispositions: map<Outcome, nat>, vulnerableRuns: nat, vulnerableCorrect: nat,
                           controlRuns: nat, controlFalsePositives: nat, unavailable: nat)

  const ALL_OUTCOMES: set<Outcome> :=
    {Judged(Correct), Judged(NotFound), Judged(InvalidRemediation), Judged(SuppressedPreExisting),
     Judged(SpeculativeFalsePositive), Unavailable}

  /** The counters after the runs `rows`. */
  ghost predicate Counted(t: Totals, rows: seq<Scored>) {
    && t.dispositions.Keys == ALL_OUTCOMES
    && (forall o :: o in ALL_OUTCOMES ==> t.dispositions[o] == Count(rows, HasOutcome(o)))
    && t.vulnerableRuns == Count(rows, IsVulnerable) && t.vulnerableCorrect == Count(rows, IsDetection)
    && t.controlRuns == Count(rows, IsJudgedControl) && t.controlFalsePositives == Count(rows, IsFalseAlarm)
    && t.unavailable == Count(rows, HasOutcome(Unavailable))
  }

  /** The counters after one more run. */
  function CountRun(t: Totals, r: Scored): Totals
    requires t.dispositions.Keys == ALL_OUTCOMES
  {
    var d := t.dispositions[r.outcome := (if r.outcome in t.dispositions then t.dispositions[r.outcome] else 0) + 1];
    var u := if r.outcome.Unavailable? then t.unavailable + 1 else t.unavailable;
    if r.vulnerable then
      Totals(d, t.vulnerableRuns + 1, t.vulnerableCorrect + (if r.outcome == Judged(Correct) then 1 else 0),
             t.controlRuns, t.controlFalsePositives, u)
    else if r.outcome.Judged? then
      Totals(d, t.vulnerableRuns, t.vulnerableCorrect, t.controlRuns + 1,
             t.controlFalsePositives + (if r.outcome.d != NotFound then 1 else 0), u)
    else Totals(d, t.vulnerableRuns, t.vulnerableCorrect, t.controlRuns, t.controlFalsePositives, u)
  }

  lemma {:induction false} CountStep(rows: seq<Scored>, r: Scored, p: Scored -> bool)
    ensures Count(rows + [r], p) == Count(rows, p) + if p(r) then 1 else 0
  {
    CountAppend(rows, [r], p);
    assert [r][1..] == [];
  }

  lemma {:induction false} CountedStep(t: Totals, rows: seq<Scored>, r: Scored)
    requires Counted(t, rows)
    ensures Counted(CountRun(t, r), rows + [r])
  {
    KnownOutcome(r.outcome);
    forall o | o in ALL_OUTCOMES
      ensures Count(rows + [r], HasOutcome(o)) == Count(rows, HasOutcome(o)) + if r.outcome == o then 1 else 0
    {
      CountStep(rows, r, HasOutcome(o));
    }
    CountStep(rows, r, IsVulnerable);
    CountStep(rows, r, IsDetection);
    CountStep(rows, r, IsJudgedControl);
    CountStep(rows, r, IsFalseAlarm);
    assert CountRun(t, r).dispositions.Keys == ALL_OUTCOMES;
  }

  lemma {:induction false} KnownOutcome(o: Outcome)
    ensures o in ALL_OUTCOMES
  {
    match o
    case Unavailable =>
    case Judged(d) =>
      match d
      case Correct =>
      case NotFound =>
      case InvalidRemediation =>
      case SuppressedPreExisting =>
      case SpeculativeFalsePositive =>
  }

  /** `score_arm`. */
  method ScoreArm(arm: seq<Graded>, vulnerable: map<int, bool>) returns (t: Totals)
    requires forall g :: g in arm ==> g.scenario in vulnerable
    ensures Counted(t, Rows(arm, vulnerable)) && Tabulated(t, arm, vulnerable)
  {
    t := Totals(map o | o in ALL_OUTCOMES :: 0, 0, 0, 0, 0, 0);
    for i := 0 to |arm|
      invariant Counted(t, Rows(arm[..i], vulnerable))
    {
      assert arm[..i + 1][..i] == arm[..i] && arm[i] in arm;
      t := ScoreScenario(t, Rows(arm[..i], vulnerable), arm[i], vulnerable[arm[i].scenario]);
    }
    assert arm[..|arm|] == arm;
    CountersTabulate(t, arm, vulnerable);
  }

  // ---------------------------------------------------------------- what the counters count

  /** The runs of an arm in a class of scenarios with one of some outcomes, as scenario and
      place in the scenario. */
  ghost function RunPlaces(arm: seq<Graded>, vulnerable: map<int, bool>, classes: set<bool>, outcomes: set<Outcome>): set<(nat, nat)>
    requires forall g :: g in arm ==> g.scenario in vulnerable
  {
    set i: nat, k: nat | i < |arm| && k < |arm[i].outcomes| && arm[i].scenario in vulnerable && vulnerable[arm[i].scenario] in classes
                         && arm[i].outcomes[k] in outcomes :: (i, k)
  }

  /** The counters of an arm, on the places of its runs. A judge that was not available
      counts as an outcome, but not as a run of a control. */
  ghost predicate Tabulated(t: Totals, arm: seq<Graded>, vulnerable: map<int, bool>)
    requires forall g :: g in arm ==> g.scenario in vulnerable
  {
    var any, judged := {false, true}, {Judged(Correct), Judged(NotFound), Judged(InvalidRemediation),
                                       Judged(SuppressedPreExisting), Judged(SpeculativeFalsePositive)};
    && (forall o :: o in t.dispositions && t.dispositions[o] == |RunPlaces(arm, vulnerable, any, {o})|)
    && t.vulnerableRuns == |RunPlaces(arm, vulnerable, {true}, judged + {Unavailable})|
    && t.vulnerableCorrect == |RunPlaces(arm, vulnerable, {true}, {Judged(Correct)})|
    && t.controlRuns == |RunPlaces(arm, vulnerable, {false}, judged)|
    && t.controlFalsePositives == |RunPlaces(arm, vulnerable, {false}, judged - {Judged(NotFound)})|
    && t.unavailable == |RunPlaces(arm, vulnerable, any, {Unavailable})|
  }

  lemma {:induction false} PlacesCounted(arm: seq<Graded>, vulnerable: map<int, bool>, p: Scored -> bool,
                                         classes: set<bool>, outcomes: set<Outcome>)
    requires forall g :: g in arm ==> g.scenario in vulnerable
    requires forall r: Scored :: p(r) <==> r.vulnerable in classes && r.outcome in outcomes
    ensures Count(Rows(arm, vulnerable), p) == |RunPlaces(arm, vulnerable, classes, outcomes)|
  {
    if arm == [] {
      assert RunPlaces(arm, vulnerable, classes, outcomes) == {};
    } else {
      var n := |arm| - 1;
      var last := arm[n];
      assert last in arm && forall g :: g in arm[..n] ==> g in arm;
      var mine := RowsOf(last.scenario, vulnerable[last.scenario], last.outcomes);
      PlacesCounted(arm[..n], vulnerable, p, classes, outcomes);
      CountAppend(Rows(arm[..n], vulnerable), mine, p);
      CountIsPositions(mine, p);
      BesideSize(n, Positions(mine, p));
      LastPlaces(arm, vulnerable, p, classes, outcomes, mine);
    }
  }

  lemma {:induction false} LastPlaces(arm: seq<Graded>, vulnerable: map<int, bool>, p: Scored -> bool,
                                      classes: set<bool>, outcomes: set<Outcome>, mine: seq<Scored>)
    requires arm != [] && forall g :: g in arm ==> g.scenario in vulnerable
    requires forall r: Scored :: p(r) <==> r.vulnerable in classes && r.outcome in outcomes
    requires var last := arm[|arm| - 1]; last in arm && mine == RowsOf(last.scenario, vulnerable[last.scenario], last.outcomes)
    ensures var n := |arm| - 1;
            && (forall g :: g in arm[..n] ==> g.scenario in vulnerable)
            && |RunPlaces(arm, vulnerable, classes, outcomes)|
               == |RunPlaces(arm[..n], vulnerable, classes, outcomes)| + |Beside(n, Positions(mine, p))|
  {
    var n := |arm| - 1;
    assert forall g :: g in arm[..n] ==> g in arm;
    var all, front, own := RunPlaces(arm, vulnerable, classes, outcomes), RunPlaces(arm[..n], vulnerable, classes, outcomes),
                           Beside(n, Positions(mine, p));
    forall x: (nat, nat) ensures x in all <==> x in front || x in own {
      PlaceIn(arm, vulnerable, p, classes, outcomes, mine, x.0, x.1);
      assert x == (x.0, x.1);
    }
    assert all == front + own && front * own == {};
  }

  lemma {:induction false} PlaceIn(arm: seq<Graded>, vulnerable: map<int, bool>, p: Scored -> bool,
                                   classes: set<bool>, outcomes: set<Outcome>, mine: seq<Scored>, i: nat, k: nat)
    requires arm != [] && forall g :: g in arm ==> g.scenario in vulnerable
    requires forall r: Scored :: p(r) <==> r.vulnerable in classes && r.outcome in outcomes
    requires var last := arm[|arm| - 1]; last in arm && mine == RowsOf(last.scenario, vulnerable[last.scenario], last.outcomes)
    ensures var n := |arm| - 1;
            && (forall g :: g in arm[..n] ==> g.scenario in vulnerable)
            && ((i, k) in RunPlaces(arm, vulnerable, classes, outcomes) <==>
                (i, k) in RunPlaces(arm[..n], vulnerable, classes, outcomes) || (i, k) in Beside(n, Positions(mine, p)))
  {
    var n := |arm| - 1;
    assert forall g :: g in arm[..n] ==> g in arm;
    assert i < n ==> arm[..n][i] == arm[i];
  }

  lemma {:induction false} CountersTabulate(t: Totals, arm: seq<Graded>, vulnerable: map<int, bool>)
    requires (forall g :: g in arm ==> g.scenario in vulnerable) && Counted(t, Rows(arm, vulnerable))
    ensures Tabulated(t, arm, vulnerable)
  {
    var any, judged := {false, true}, {Judged(Correct), Judged(NotFound), Judged(InvalidRemediation),
                                       Judged(SuppressedPreExisting), Judged(SpeculativeFalsePositive)};
    forall o ensures o in judged + {Unavailable} && (o.Judged? <==> o in judged) {
      KnownOutcome(o);
    }
    forall o ensures o in t.dispositions && t.dispositions[o] == |RunPlaces(arm, vulnerable, any, {o})| {
      PlacesCounted(arm, vulnerable, HasOutcome(o), any, {o});
    }
    PlacesCounted(arm, vulnerable, IsVulnerable, {true}, judged + {Unavailable});
    PlacesCounted(arm, vulnerable, IsDetection, {true}, {Judged(Correct)});
    PlacesCounted(arm, vulnerable, IsJudgedControl, {false}, judged);
    PlacesCounted(arm, vulnerable, IsFalseAlarm, {false}, judged - {Judged(NotFound)});
    PlacesCounted(arm, vulnerable, HasOutcome(Unavailable), any, {Unavailable});
  }

  method ScoreScenario(t0: Totals, ghost rows: seq<Scored>, g: Graded, vulnerable: bool) returns (t: Totals)
    requires Counted(t0, rows)
    ensures Counted(t, rows + RowsOf(g.scenario, vulnerable, g.outcomes))
  {
    t := t0;
    ghost var mine := RowsOf(g.scenario, vulnerable, g.outcomes);
    assert rows + mine[..0] == rows;
    for k := 0 to |g.outcomes|
      invariant Counted(t, rows + mine[..k])
    {
      var r := Scored(g.scenario, vulnerable, g.outcomes[k]);
      CountedStep(t, rows + mine[..k], r);
      assert rows + mine[..k + 1] == rows + mine[..k] + [r];
      t := CountRun(t, r);
    }
    assert mine[..|g.outcomes|] == mine;
  }

  function DispositionSum(rows: seq<Scored>): nat {
    Count(rows, HasOutcome(Judged(Correct))) + Count(rows, HasOutcome(Judged(NotFound)))
    + Count(rows, HasOutcome(Judged(InvalidRemediation))) + Count(rows, HasOutcome(Judged(SuppressedPreExisting)))
    + Count(rows, HasOutcome(Judged(SpeculativeFalsePositive))) + Count(rows, HasOutcome(Unavailable))
  }

  /** No run is lost: the disposition counts add up to the runs, and so do the vulnerable
      runs, the judged control runs and the unjudged ones. */
  lemma {:induction false} NoRunIsLost(rows: seq<Scored>)
    ensures DispositionSum(rows) == |rows|
    ensures Count(rows, IsVulnerable) + Count(rows, IsJudgedControl) + Count(rows, IsUnjudgedControl) == |rows|
  {
    if rows != [] {
      NoRunIsLost(rows[1..]);
      KnownOutcome(rows[0].outcome);
    }
  }

  // ---------------------------------------------------------------- comparable arms

  /** The graded runs of an arm: one outcome for each run of each of its scenarios. */
  ghost predicate Grades(arm: seq<Graded>, p: Arms.Payload) {
    && |arm| == |p.scenarios|
    && forall i :: 0 <= i < |arm| ==> GradesEntry(arm[i], p.scenarios[i])
  }

  predicate GradesEntry(g: Graded, e: Arms.Entry) {
    e.Entry? && g.scenario == e.scenario && |g.outcomes| == |e.runs|
  }

  function RunsIfVulnerable(vulnerable: map<int, bool>): Graded -> int {
    (g: Graded) => if g.scenario in vulnerable && vulnerable[g.scenario] then |g.outcomes| else 0
  }

  function RunsIn(g: Graded): int { |g.outcomes| }

  lemma {:induction false} SumSnoc(arm: seq<Graded>, f: Graded -> int)
    requires arm != []
    ensures Sum(arm, f) == Sum(arm[..|arm| - 1], f) + f(arm[|arm| - 1])
  {
    assert arm == arm[..|arm| - 1] + [arm[|arm| - 1]];
    SumAppend(arm[..|arm| - 1], [arm[|arm| - 1]], f);
    assert [arm[|arm| - 1]][1..] == [];
  }

  lemma {:induction false} CountRowsOf(scenario: int, v: bool, outcomes: seq<Outcome>)
    ensures Count(RowsOf(scenario, v, outcomes), IsVulnerable) == if v then |outcomes| else 0
  {
    CountBounds(RowsOf(scenario, v, outcomes), IsVulnerable);
  }

  /** The vulnerable runs of an arm, scenario by scenario. */
  lemma {:induction false} VulnerableRunsAre(arm: seq<Graded>, vulnerable: map<int, bool>)
    requires forall g :: g in arm ==> g.scenario in vulnerable
    ensures Count(Rows(arm, vulnerable), IsVulnerable) == Sum(arm, RunsIfVulnerable(vulnerable))
    ensures |Rows(arm, vulnerable)| == Sum(arm, RunsIn)
  {
    if arm != [] {
      var front, last := arm[..|arm| - 1], arm[|arm| - 1];
      assert last in arm && forall g :: g in front ==> g in arm;
      VulnerableRunsAre(front, vulnerable);
      CountAppend(Rows(front, vulnerable), RowsOf(last.scenario, vulnerable[last.scenario], last.outcomes), IsVulnerable);
      CountRowsOf(last.scenario, vulnerable[last.scenario], last.outcomes);
      SumSnoc(arm, RunsIfVulnerable(vulnerable));
      SumSnoc(arm, RunsIn);
    }
  }

  /** How many runs a list of scenarios has for one of them. */
  function RunsFor(scenarios: seq<Arms.Entry>, id: int): int {
    if scenarios == [] then 0
    else
      var last := scenarios[|scenarios| - 1];
      if last.Entry? && last.scenario == id then |last.runs| else RunsFor(scenarios[..|scenarios| - 1], id)
  }

  function VulnerableRunsFor(scenarios: seq<Arms.Entry>, vulnerable: map<int, bool>): int -> int {
    (id: int) => if id in vulnerable && vulnerable[id] then RunsFor(scenarios, id) else 0
  }

  lemma {:induction false} IdsInOrder(scenarios: seq<Arms.Entry>)
    requires Arms.AllEntries(scenarios)
    ensures |Arms.Ids(scenarios)| == |scenarios|
    ensures forall i :: 0 <= i < |scenarios| ==> Arms.Ids(scenarios)[i] == scenarios[i].scenario
  {
    if scenarios != [] {
      assert scenarios[|scenarios| - 1] in scenarios;
      assert forall e :: e in scenarios[..|scenarios| - 1] ==> e in scenarios;
      IdsInOrder(scenarios[..|scenarios| - 1]);
    }
  }

  lemma {:induction false} RunsForOwn(scenarios: seq<Arms.Entry>, i: nat)
    requires Arms.AllEntries(scenarios) && Distinct(Arms.Ids(scenarios)) && i < |scenarios|
    ensures scenarios[i].Entry? && RunsFor(scenarios, scenarios[i].scenario) == |scenarios[i].runs|
  {
    var m := |scenarios| - 1;
    assert scenarios[m] in scenarios && scenarios[i] in scenarios;
    if i < m {
      IdsInOrder(scenarios);
      assert Arms.Ids(scenarios)[i] != Arms.Ids(scenarios)[m];
      assert forall e :: e in scenarios[..m] ==> e in scenarios;
      DistinctFront(Arms.Ids(scenarios));
      RunsForOwn(scenarios[..m], i);
    }
  }

  lemma {:induction false} SumByIds(arm: seq<Graded>, p: Arms.Payload, vulnerable: map<int, bool>)
    requires Grades(arm, p) && Distinct(Arms.Ids(p.scenarios)) && Arms.AllEntries(p.scenarios)
    ensures Sum(arm, RunsIfVulnerable(vulnerable)) == Sum(Arms.Ids(p.scenarios), VulnerableRunsFor(p.scenarios, vulnerable))
  {
    IdsInOrder(p.scenarios);
    forall i | 0 <= i < |arm|
      ensures RunsIfVulnerable(vulnerable)(arm[i]) == VulnerableRunsFor(p.scenarios, vulnerable)(Arms.Ids(p.scenarios)[i])
    {
      assert GradesEntry(arm[i], p.scenarios[i]);
      RunsForOwn(p.scenarios, i);
    }
    SumCongruent(arm, Arms.Ids(p.scenarios), RunsIfVulnerable(vulnerable), VulnerableRunsFor(p.scenarios, vulnerable));
  }

  lemma {:induction false} GoodArmEntries(p: Arms.Payload, role: string)
    requires Arms.GoodArm(p, role)
    ensures Arms.AllEntries(p.scenarios) && Distinct(Arms.Ids(p.scenarios))
  {
  }

  /** The runs of one scenario are as many in both arms. */
  lemma {:induction false} SameRunsFor(base: Arms.Payload, treat: Arms.Payload, expected: Option<set<int>>, allowSubset: bool, i: nat)
    requires Arms.Comparable(base, treat, expected, allowSubset) && i < |base.scenarios|
    ensures base.scenarios[i].Entry?
    ensures var id := base.scenarios[i].scenario; RunsFor(base.scenarios, id) == RunsFor(treat.scenarios, id)
  {
    GoodArmEntries(base, "baseline");
    GoodArmEntries(treat, "treatment");
    IdsInOrder(base.scenarios);
    var id := Arms.Ids(base.scenarios)[i];
    assert id in Arms.ToSet(Arms.Ids(base.scenarios));
    assert id in Arms.ToSet(Arms.Ids(treat.scenarios));
    IdsInOrder(treat.scenarios);
    var j :| 0 <= j < |treat.scenarios| && Arms.Ids(treat.scenarios)[j] == id;
    assert Arms.FitsEntry(base.scenarios[i], treat.scenarios);
    Arms.EqualRunCounts(base.scenarios[i], treat.scenarios[j], base.reps.value);
    RunsForOwn(base.scenarios, i);
    RunsForOwn(treat.scenarios, j);
  }

  /** Arms that were accepted have equally many vulnerable runs, so their detection rates
      are over the same denominator. */
  lemma {:induction false} EqualVulnerableRuns(base: Arms.Payload, treat: Arms.Payload, expected: Option<set<int>>, allowSubset: bool,
                                               a: seq<Graded>, b: seq<Graded>, vulnerable: map<int, bool>)
    requires Arms.Comparable(base, treat, expected, allowSubset) && Grades(a, base) && Grades(b, treat)
    requires (forall g :: g in a ==> g.scenario in vulnerable) && forall g :: g in b ==> g.scenario in vulnerable
    ensures Count(Rows(a, vulnerable), IsVulnerable) == Count(Rows(b, vulnerable), IsVulnerable)
  {
    VulnerableRunsAre(a, vulnerable);
    VulnerableRunsAre(b, vulnerable);
    GoodArmEntries(base, "baseline");
    GoodArmEntries(treat, "treatment");
    SumByIds(a, base, vulnerable);
    SumByIds(b, treat, vulnerable);
    SameSums(base, treat, expected, allowSubset, vulnerable);
  }

  lemma {:induction false} SameSums(base: Arms.Payload, treat: Arms.Payload, expected: Option<set<int>>, allowSubset: bool,
                                    vulnerable: map<int, bool>)
    requires Arms.Comparable(base, treat, expected, allowSubset)
    ensures Sum(Arms.Ids(base.scenarios), VulnerableRunsFor(base.scenarios, vulnerable))
         == Sum(Arms.Ids(treat.scenarios), VulnerableRunsFor(treat.scenarios, vulnerable))
  {
    var x, y := Arms.Ids(base.scenarios), Arms.Ids(treat.scenarios);
    var f, g := VulnerableRunsFor(base.scenarios, vulnerable), VulnerableRunsFor(treat.scenarios, vulnerable);
    GoodArmEntries(base, "baseline");
    IdsInOrder(base.scenarios);
    forall i | 0 <= i < |x| ensures f(x[i]) == g(x[i]) {
      SameRunsFor(base, treat, expected, allowSubset, i);
    }
    SumCongruent(x, x, f, g);
    forall n ensures n in x <==> n in y {
      assert n in Arms.ToSet(x) <==> n in x;
      assert n in Arms.ToSet(y) <==> n in y;
    }
    DistinctPermutation(x, y);
    SumPermutation(x, y, g);
  }

  // ---------------------------------------------------------------- the size of an arm

  function FalsesIn(scenarios: seq<Arms.Entry>): nat {
    if scenarios == [] then 0
    else
      var last := scenarios[|scenarios| - 1];
      FalsesIn(scenarios[..|scenarios| - 1]) + if last.Entry? then Arms.Falses(last.runs) else 0
  }

  ghost predicate Sized(g: Graded, e: Arms.Entry, n: nat) {
    e.Entry? && |g.outcomes| == n + Arms.Falses(e.runs)
  }

  lemma {:induction false} OneMore(n: nat, m: nat)
    ensures n * (m + 1) == n * m + n
  {
  }

  /** An accepted arm has reps times scenarios runs, and one more for each rep id `false`. */
  lemma {:induction false} ArmSize(scenarios: seq<Arms.Entry>, n: nat, arm: seq<Graded>)
    requires |arm| == |scenarios| && forall i :: 0 <= i < |scenarios| ==> Sized(arm[i], scenarios[i], n)
    ensures Sum(arm, RunsIn) == n * |scenarios| + FalsesIn(scenarios)
  {
    if scenarios != [] {
      var m := |scenarios| - 1;
      ArmSize(scenarios[..m], n, arm[..m]);
      SumSnoc(arm, RunsIn);
      assert Sized(arm[m], scenarios[m], n);
      OneMore(n, m);
    }
  }

  /** So its disposition counts sum to scenarios times reps exactly when no rep id is
      `false`. */
  lemma {:induction false} DispositionsSumToReps(p: Arms.Payload, role: string, arm: seq<Graded>, vulnerable: map<int, bool>)
    requires Arms.GoodArm(p, role) && Grades(arm, p) && forall g :: g in arm ==> g.scenario in vulnerable
    ensures DispositionSum(Rows(arm, vulnerable)) == p.reps.value * |p.scenarios| + FalsesIn(p.scenarios)
    ensures DispositionSum(Rows(arm, vulnerable)) == p.reps.value * |p.scenarios| <==> FalsesIn(p.scenarios) == 0
  {
    NoRunIsLost(Rows(arm, vulnerable));
    VulnerableRunsAre(arm, vulnerable);
    forall i | 0 <= i < |arm| ensures Sized(arm[i], p.scenarios[i], p.reps.value) {
      assert GradesEntry(arm[i], p.scenarios[i]);
      Arms.AcceptedScenario(p.scenarios[i], p.reps.value);
    }
    ArmSize(p.scenarios, p.reps.value, arm);
  }
}
