/** The corpus gate of `pr_reviewer/semantic_eval.py`: per-run decisions become rounded
    rates, and the rates are compared with exactly 1.0 and 0.0. */
module EvalGate {
  import opened Options
  import opened Seqs
  import opened Numerals

  // ---------------------------------------------------------------- rounding

  /** A rate in ten-thousandths: `round(part / whole, 4)`, halves to even. */
  function Rate(part: nat, whole: nat): nat
    requires whole >= 1
  {
    var q, r := 10000 * part / whole, 10000 * part % whole;
    if 2 * r < whole then q else if 2 * r > whole then q + 1 else if q % 2 == 0 then q else q + 1
  }

  const ONE: nat := 10000

  /** The rate reads 1.0 exactly when at most one part in 20000 is missing. */
  lemma {:induction false} RateIsOne(missing: nat, whole: nat)
    requires whole >= 1 && missing <= whole
    ensures Rate(whole - missing, whole) == ONE <==> 20000 * missing <= whole
  {
    var a := 10000 * (whole - missing);
    var q, r := a / whole, a % whole;
    assert a == q * whole + r;
    if 20000 * missing <= whole {
      if missing == 0 {
        Division(a, whole, 10000, 0);
      } else {
        Division(a, whole, 9999, whole - 10000 * missing);
      }
    } else {
      Difference(q, 10000, whole);
      AtLeast(q - 10000, whole);
      if q == 9999 {
        assert r == whole - 10000 * missing;
      }
    }
  }

  /** The rate reads 0.0 exactly when at most one part in 20000 is present. */
  lemma {:induction false} RateIsZero(part: nat, whole: nat)
    requires whole >= 1
    ensures Rate(part, whole) == 0 <==> 20000 * part <= whole
  {
    var a := 10000 * part;
    if 20000 * part <= whole {
      Division(a, whole, 0, a);
    } else {
      var q, r := a / whole, a % whole;
      assert a == q * whole + r;
      if q == 0 {
        assert r == a;
      }
    }
  }

  /** The rate is the nearest ten-thousandth, and the even one of two that are as near. */
  lemma {:induction false} RateIsNearest(part: nat, whole: nat)
    requires whole >= 1
    ensures var off := 10000 * part - Rate(part, whole) * whole;
            && 0 <= whole + 2 * off <= 2 * whole
            && (whole + 2 * off == 0 || whole + 2 * off == 2 * whole ==> Rate(part, whole) % 2 == 0)
  {
    var a := 10000 * part;
    var q, r := a / whole, a % whole;
    assert a == q * whole + r;
    Difference(q + 1, q, whole);
  }

  // ---------------------------------------------------------------- the aggregate

  datatype Disposition = NotFound | SpeculativeFalsePositive | SuppressedPreExisting | InvalidRemediation | Correct

  /** One evaluated run. */
  datatype Run = Run(calibration: bool, passed: bool, forbidden: bool, calibrationPass: bool, disposition: Disposition)

  datatype Scenario = Scenario(negativeControl: bool, runs: seq<Run>)

  predicate IsReviewer(r: Run) { !r.calibration }
  predicate IsCalibration(r: Run) { r.calibration }
  predicate HasPassed(r: Run) { r.passed }
  predicate IsForbidden(r: Run) { r.forbidden }
  predicate IsCalibrated(r: Run) { r.calibrationPass }

  function Reviewers(s: Scenario): seq<Run> { Filter(s.runs, IsReviewer) }

  function Calibrations(s: Scenario): seq<Run> { Filter(s.runs, IsCalibration) }

  datatype Aggregate = Aggregate(runs: nat, passRate: nat, falsePositiveRate: nat, calibrationRate: Option<nat>,
                                 negativeControl: bool)

  function RateOf(runs: seq<Run>, p: Run -> bool): nat {
    if runs == [] then 0 else Rate(Count(runs, p), |runs|)
  }

  /** `aggregate_semantic_runs`, as far as the gate reads it. */
  function AggregateRuns(s: Scenario): Aggregate {
    var reviewers, calibrations := Reviewers(s), Calibrations(s);
    Aggregate(|s.runs|, RateOf(reviewers, HasPassed),
              if s.negativeControl then RateOf(reviewers, IsForbidden) else 0,
              if calibrations == [] then None else Some(Rate(Count(calibrations, IsCalibrated), |calibrations|)),
              s.negativeControl)
  }

  /** The `passed` field of `evaluate_semantic_corpus`. */
  predicate GatePasses(corpus: seq<Scenario>) {
    && (exists s :: s in corpus && AggregateRuns(s).runs > 0)
    && (forall s :: s in corpus && AggregateRuns(s).runs > 0 ==> AggregateRuns(s).passRate == ONE)
    && (forall s :: s in corpus && AggregateRuns(s).negativeControl ==> AggregateRuns(s).falsePositiveRate == 0)
    && (forall s :: s in corpus && AggregateRuns(s).runs > 0 && AggregateRuns(s).calibrationRate.Some? ==>
          AggregateRuns(s).calibrationRate.value == ONE)
  }

  // ---------------------------------------------------------------- what the gate means

  /** At most one run in 20000 deviates. */
  ghost predicate Nearly(runs: seq<Run>, p: Run -> bool) {
    20000 * (|runs| - Count(runs, p)) <= |runs|
  }

  ghost predicate NearlyNever(runs: seq<Run>, p: Run -> bool) {
    20000 * Count(runs, p) <= |runs|
  }

  /** What the rounded comparison accepts. */
  ghost predicate Tolerated(s: Scenario) {
    && (s.runs != [] ==> Reviewers(s) != [] && Nearly(Reviewers(s), HasPassed))
    && (s.negativeControl ==> NearlyNever(Reviewers(s), IsForbidden))
    && Nearly(Calibrations(s), IsCalibrated)
  }

  /** The places of the reviewer runs that fail a test, and of all of them. */
  ghost function ReviewerPlaces(s: Scenario): set<nat> {
    set i: nat | i < |s.runs| && !s.runs[i].calibration
  }

  ghost function FailedPlaces(s: Scenario): set<nat> {
    set i: nat | i < |s.runs| && !s.runs[i].calibration && !s.runs[i].passed
  }

  ghost function ForbiddenPlaces(s: Scenario): set<nat> {
    set i: nat | i < |s.runs| && !s.runs[i].calibration && s.runs[i].forbidden
  }

  ghost function CalibrationPlaces(s: Scenario): set<nat> {
    set i: nat | i < |s.runs| && s.runs[i].calibration
  }

  ghost function MiscalibratedPlaces(s: Scenario): set<nat> {
    set i: nat | i < |s.runs| && s.runs[i].calibration && !s.runs[i].calibrationPass
  }

  /** The tolerance on the places of the runs: some reviewer run, and for each test at most
      one deviating run in 20000. */
  ghost predicate WithinOneIn20000(s: Scenario) {
    && (s.runs != [] ==> ReviewerPlaces(s) != {} && 20000 * |FailedPlaces(s)| <= |ReviewerPlaces(s)|)
    && (s.negativeControl ==> 20000 * |ForbiddenPlaces(s)| <= |ReviewerPlaces(s)|)
    && 20000 * |MiscalibratedPlaces(s)| <= |CalibrationPlaces(s)|
  }

  /** Counting what a filter leaves is counting places. */
  lemma {:induction false} PlacesCounted(runs: seq<Run>, p: Run -> bool, q: Run -> bool, all: set<nat>, some: set<nat>, others: set<nat>)
    requires forall i: nat :: i in all <==> i < |runs| && p(runs[i])
    requires forall i: nat :: i in some <==> i < |runs| && p(runs[i]) && q(runs[i])
    requires forall i: nat :: i in others <==> i < |runs| && p(runs[i]) && !q(runs[i])
    ensures |Filter(runs, p)| == |all|
    ensures Count(Filter(runs, p), q) == |some| && |Filter(runs, p)| - Count(Filter(runs, p), q) == |others|
  {
    var any, both := (r: Run) => true, (r: Run) => p(r) && q(r);
    CountFiltered(runs, p, any, p);
    CountBounds(Filter(runs, p), any);
    CountFiltered(runs, p, q, both);
    CountIsPositions(runs, p);
    CountIsPositions(runs, both);
    assert Positions(runs, p) == all && Positions(runs, both) == some;
    assert all == some + others && some * others == {};
  }

  lemma {:induction false} ToleratedIsWithin(s: Scenario)
    ensures Tolerated(s) <==> WithinOneIn20000(s)
  {
    PlacesCounted(s.runs, IsReviewer, HasPassed, ReviewerPlaces(s), ReviewerPlaces(s) - FailedPlaces(s), FailedPlaces(s));
    PlacesCounted(s.runs, IsReviewer, IsForbidden, ReviewerPlaces(s), ForbiddenPlaces(s), ReviewerPlaces(s) - ForbiddenPlaces(s));
    PlacesCounted(s.runs, IsCalibration, IsCalibrated, CalibrationPlaces(s), CalibrationPlaces(s) - MiscalibratedPlaces(s),
                  MiscalibratedPlaces(s));
  }

  /** What the gate is meant to accept. */
  ghost predicate Clean(s: Scenario) {
    && (s.runs != [] ==> exists r :: r in s.runs && !r.calibration)
    && (forall r :: r in s.runs && !r.calibration ==> r.passed)
    && (s.negativeControl ==> forall r :: r in s.runs && !r.calibration ==> !r.forbidden)
    && (forall r :: r in s.runs && r.calibration ==> r.calibrationPass)
  }

  lemma {:induction false} RateOfIsOne(runs: seq<Run>, p: Run -> bool)
    requires runs != []
    ensures RateOf(runs, p) == ONE <==> Nearly(runs, p)
  {
    CountBounds(runs, p);
    RateIsOne(|runs| - Count(runs, p), |runs|);
  }

  lemma {:induction false} RateOfIsZero(runs: seq<Run>, p: Run -> bool)
    ensures RateOf(runs, p) == 0 <==> NearlyNever(runs, p)
  {
    if runs != [] {
      RateIsZero(Count(runs, p), |runs|);
    }
  }

  lemma {:induction false} EmptyRuns(s: Scenario)
    requires s.runs == []
    ensures Reviewers(s) == [] && Calibrations(s) == []
  {
  }

  /** What the gate asks of one scenario. */
  ghost predicate ScenarioPasses(s: Scenario) {
    var a := AggregateRuns(s);
    && (a.runs > 0 ==> a.passRate == ONE)
    && (a.negativeControl ==> a.falsePositiveRate == 0)
    && (a.runs > 0 && a.calibrationRate.Some? ==> a.calibrationRate.value == ONE)
  }

  lemma {:induction false} ScenarioToleratedIff(s: Scenario)
    ensures ScenarioPasses(s) <==> Tolerated(s)
  {
    RateOfIsZero(Reviewers(s), IsForbidden);
    if Reviewers(s) != [] {
      RateOfIsOne(Reviewers(s), HasPassed);
    }
    if Calibrations(s) != [] {
      RateOfIsOne(Calibrations(s), IsCalibrated);
    }
    if s.runs == [] {
      EmptyRuns(s);
    }
  }

  /** The gate passes exactly when some scenario is scored and every scenario is within the
      tolerance that four decimal places leave. */
  lemma {:induction false} GateIsTolerance(corpus: seq<Scenario>)
    ensures GatePasses(corpus) <==>
            ((exists s :: s in corpus && s.runs != []) && forall s :: s in corpus ==> WithinOneIn20000(s))
  {
    forall s | s in corpus ensures ScenarioPasses(s) <==> WithinOneIn20000(s) {
      ScenarioToleratedIff(s);
      ToleratedIsWithin(s);
    }
    assert GatePasses(corpus) ==> forall s :: s in corpus ==> ScenarioPasses(s);
  }

  lemma {:induction false} FewMeansNone(runs: seq<Run>, p: Run -> bool)
    requires |runs| < 20000
    ensures Nearly(runs, p) <==> forall r :: r in runs ==> p(r)
    ensures NearlyNever(runs, p) <==> forall r :: r in runs ==> !p(r)
  {
    CountBounds(runs, p);
  }

  lemma {:induction false} FilterShorter<T>(s: seq<T>, p: T -> bool)
    ensures |Filter(s, p)| <= |s|
  {
    if s != [] {
      FilterShorter(s[1..], p);
    }
  }

  lemma {:induction false} ToleratedIsClean(s: Scenario)
    requires |s.runs| < 20000
    ensures Tolerated(s) <==> Clean(s)
  {
    FilterMembers(s.runs, IsReviewer);
    FilterMembers(s.runs, IsCalibration);
    FilterShorter(s.runs, IsReviewer);
    FilterShorter(s.runs, IsCalibration);
    FewMeansNone(Reviewers(s), HasPassed);
    FewMeansNone(Reviewers(s), IsForbidden);
    FewMeansNone(Calibrations(s), IsCalibrated);
    SomeReviewer(s);
  }

  lemma {:induction false} SomeReviewer(s: Scenario)
    ensures Reviewers(s) != [] <==> exists r :: r in s.runs && !r.calibration
  {
    FilterMembers(s.runs, IsReviewer);
    if Reviewers(s) != [] {
      assert Reviewers(s)[0] in Reviewers(s);
    }
  }

  /** Below 20000 runs a scenario, the gate passes exactly when it is meant to. */
  lemma {:induction false} GateIsHonest(corpus: seq<Scenario>)
    requires forall s :: s in corpus ==> |s.runs| < 20000
    ensures GatePasses(corpus) <==>
            ((exists s :: s in corpus && s.runs != []) && forall s :: s in corpus ==> Clean(s))
  {
    GateIsTolerance(corpus);
    forall s | s in corpus ensures WithinOneIn20000(s) <==> Clean(s) {
      ToleratedIsWithin(s);
      ToleratedIsClean(s);
    }
  }

  function Copies(r: Run, n: nat): (s: seq<Run>)
    ensures |s| == n && forall x :: x in s ==> x == r
  {
    if n == 0 then [] else [r] + Copies(r, n - 1)
  }

  /** The bound is tight: from 20000 runs on, one failing reviewer run goes unnoticed. */
  lemma {:induction false} OneFailureIn20000(n: nat)
    requires n >= 19999
    ensures var good := Run(false, true, false, false, Correct);
            var s := Scenario(false, [good.(passed := false)] + Copies(good, n));
            GatePasses([s]) && !Clean(s)
  {
    var good := Run(false, true, false, false, Correct);
    var bad := good.(passed := false);
    var s := Scenario(false, [bad] + Copies(good, n));
    assert bad in s.runs;
    FilterAll(Copies(good, n), IsReviewer);
    FilterNone(Copies(good, n), IsCalibration);
    assert s.runs[1..] == Copies(good, n);
    assert Reviewers(s) == s.runs && Calibrations(s) == [];
    CountBounds(Copies(good, n), HasPassed);
    assert Count(s.runs, HasPassed) == n;
    assert Tolerated(s);
    ToleratedIsWithin(s);
    GateIsTolerance([s]);
  }

  // ---------------------------------------------------------------- dispositions

  function HasDisposition(d: Disposition): Run -> bool {
    (r: Run) => r.disposition == d
  }

  function DispositionSum(runs: seq<Run>): nat {
    Count(runs, HasDisposition(NotFound)) + Count(runs, HasDisposition(SpeculativeFalsePositive))
    + Count(runs, HasDisposition(SuppressedPreExisting)) + Count(runs, HasDisposition(InvalidRemediation))
    + Count(runs, HasDisposition(Correct))
  }

  lemma {:induction false} DispositionsAddUp(runs: seq<Run>)
    ensures DispositionSum(runs) == |runs|
  {
    if runs != [] {
      DispositionsAddUp(runs[1..]);
    }
  }

  /** Every run of a scenario is in exactly one disposition count, the reviewer's or the
      calibration's. */
  lemma {:induction false} EveryRunIsCounted(s: Scenario)
    ensures DispositionSum(Reviewers(s)) + DispositionSum(Calibrations(s)) == |s.runs|
  {
    DispositionsAddUp(Reviewers(s));
    DispositionsAddUp(Calibrations(s));
    FilterSizes(s.runs);
  }

  lemma {:induction false} FilterSizes(runs: seq<Run>)
    ensures |Filter(runs, IsReviewer)| + |Filter(runs, IsCalibration)| == |runs|
  {
    if runs != [] {
      FilterSizes(runs[1..]);
    }
  }
}
