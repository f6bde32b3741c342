/** The bounded judge retry of `scripts/live_judge_score.py` (`judge_disposition`) and
    `scripts/run_judge_calibration.py` (`grade_reference`). Both loops reuse variables that
    survive from earlier attempts; both still report the first well-formed answer. */
module JudgeRetry {
  import opened Options

  datatype Disposition = Correct | NotFound | InvalidRemediation | SuppressedPreExisting | SpeculativeFalsePositive

  /** A parsed answer: its disposition, how many citations it carries, and whether one of
      them is not in the reviewed text. */
  datatype Answer = Answer(disposition: Disposition, citations: nat, misquoted: bool)

  /** What one judge call comes to. */
  datatype Attempt = TransportFault | Unparseable | Parsed(answer: Answer)

  const MAX_ATTEMPTS: nat := 3

  predicate WellFormed(a: Attempt) {
    a.Parsed? && !a.answer.misquoted && (a.answer.disposition.NotFound? || a.answer.citations >= 1)
  }

  /** The first well-formed attempt from `i` on, within the limit. */
  function First(attempts: nat -> Attempt, i: nat): (r: Option<nat>)
    ensures r.Some? ==> i <= r.value < MAX_ATTEMPTS && WellFormed(attempts(r.value))
    ensures r.Some? ==> forall k :: i <= k < r.value ==> !WellFormed(attempts(k))
    ensures r.None? ==> forall k :: i <= k < MAX_ATTEMPTS ==> !WellFormed(attempts(k))
    decreases MAX_ATTEMPTS - i
  {
    if i >= MAX_ATTEMPTS then None else if WellFormed(attempts(i)) then Some(i) else First(attempts, i + 1)
  }

  /** The disposition of the attempt that decides, if one does. */
  function DispositionAt(attempts: nat -> Attempt, at: Option<nat>): Option<Disposition>
    requires at.Some? ==> attempts(at.value).Parsed?
  {
    if at.Some? then Some(attempts(at.value).answer.disposition) else None
  }

  /** How many calls are made when that attempt decides, or none does. */
  function CallsFor(at: Option<nat>): nat {
    if at.Some? then at.value + 1 else MAX_ATTEMPTS
  }

  predicate AllFaults(attempts: nat -> Attempt) {
    forall k :: 0 <= k < MAX_ATTEMPTS ==> attempts(k).TransportFault?
  }

  datatype Judgement = Judgement(disposition: Option<Disposition>, citationsValid: bool, transportError: bool)

  /** Call `k` is the first of the three whose answer parses, quotes only what is there, and
      cites something unless it found nothing; it says `d`. */
  ghost predicate Answers(attempts: nat -> Attempt, k: nat, d: Disposition) {
    && k < 3 && attempts(k).Parsed? && attempts(k).answer.disposition == d
    && !attempts(k).answer.misquoted && (d == NotFound || attempts(k).answer.citations > 0)
    && forall j: nat :: j < k ==>
         || attempts(j) == TransportFault || attempts(j) == Unparseable || attempts(j).answer.misquoted
         || (attempts(j).answer.disposition != NotFound && attempts(j).answer.citations == 0)
  }

  lemma {:induction false} FirstAnswers(attempts: nat -> Attempt, k: nat, d: Disposition)
    ensures First(attempts, 0) == Some(k) && DispositionAt(attempts, Some(k)) == Some(d) <==> Answers(attempts, k, d)
  {
    var first := First(attempts, 0);
    if Answers(attempts, k, d) {
      assert WellFormed(attempts(k)) && forall j: nat :: j < k ==> !WellFormed(attempts(j));
      assert first.Some?;
    }
  }

  /** The variables that survive an attempt. */
  ghost predicate Carried(attempts: nat -> Attempt, n: nat, parsed: Option<Answer>, unparsed: bool, misquoted: bool,
                          transportError: bool) {
    && (forall k :: 0 <= k < n ==> !WellFormed(attempts(k)))
    && (transportError <==> forall k :: 0 <= k < n ==> attempts(k).TransportFault?)
    && (parsed.Some? ==>
          !unparsed && misquoted == parsed.value.misquoted && !transportError && !WellFormed(Parsed(parsed.value)))
  }

  /** The loop both callers share: `calls` judge calls, the last parse, the last citation
      check. The citation check is not reset by an attempt that does not parse. */
  method RunAttempts(attempts: nat -> Attempt)
    returns (parsed: Option<Answer>, unparsed: bool, misquoted: bool, transportError: bool, calls: nat)
    ensures First(attempts, 0).Some? ==>
              && calls == First(attempts, 0).value + 1
              && parsed == Some(attempts(First(attempts, 0).value).answer)
              && !unparsed && !misquoted && !transportError
    ensures First(attempts, 0).None? ==>
              calls == MAX_ATTEMPTS && Carried(attempts, MAX_ATTEMPTS, parsed, unparsed, misquoted, transportError)
  {
    parsed, unparsed, misquoted, transportError, calls := None, false, false, true, 0;
    for attempt := 0 to MAX_ATTEMPTS
      invariant calls == attempt
      invariant Carried(attempts, attempt, parsed, unparsed, misquoted, transportError)
    {
      calls := calls + 1;
      var outcome := attempts(attempt);
      if outcome.TransportFault? {
        continue;
      }
      transportError := false;
      if outcome.Unparseable? {
        parsed, unparsed := None, true;
        continue;
      }
      parsed, unparsed := Some(outcome.answer), false;
      misquoted := outcome.answer.misquoted;
      if misquoted || (!outcome.answer.disposition.NotFound? && outcome.answer.citations == 0) {
        continue;
      }
      assert WellFormed(attempts(attempt));
      return;
    }
  }

  /** `judge_disposition`: exactly the first well-formed attempt, or none; and a missing
      disposition is blamed on transport exactly when no attempt returned content. */
  method JudgeDisposition(attempts: nat -> Attempt) returns (r: Judgement, calls: nat)
    ensures r.disposition == DispositionAt(attempts, First(attempts, 0))
    ensures r.citationsValid <==> r.disposition.Some?
    ensures r.transportError <==> AllFaults(attempts)
    ensures calls == CallsFor(First(attempts, 0))
    ensures forall d :: r.disposition == Some(d) <==> Answers(attempts, calls - 1, d)
    ensures r.transportError <==> attempts(0) == attempts(1) == attempts(2) == TransportFault
    ensures r.disposition.None? ==> calls == 3
  {
    var parsed, unparsed, misquoted, transportError;
    parsed, unparsed, misquoted, transportError, calls := RunAttempts(attempts);
    forall k: nat, d ensures First(attempts, 0) == Some(k) && DispositionAt(attempts, Some(k)) == Some(d) <==> Answers(attempts, k, d) {
      FirstAnswers(attempts, k, d);
    }
    if parsed.None? {
      r := Judgement(None, false, transportError);
      return;
    }
    var answer := parsed.value;
    var valid := !misquoted && (answer.disposition.NotFound? || answer.citations >= 1);
    r := Judgement(if valid then Some(answer.disposition) else None, valid, false);
  }

  /** `grade_reference`: it passes exactly when the first well-formed attempt has the
      expected disposition; a later attempt never repairs a wrong one. */
  method GradeReference(attempts: nat -> Attempt, expected: Disposition) returns (passed: bool, calls: nat)
    ensures passed <==> First(attempts, 0).Some? && attempts(First(attempts, 0).value).answer.disposition == expected
    ensures calls == CallsFor(First(attempts, 0))
    ensures passed <==> Answers(attempts, calls - 1, expected)
  {
    var parsed, unparsed, misquoted, transportError;
    parsed, unparsed, misquoted, transportError, calls := RunAttempts(attempts);
    FirstAnswers(attempts, calls - 1, expected);
    var dispositionOk := parsed.Some? && parsed.value.disposition == expected;
    var citationRuleOk := parsed.Some? && (parsed.value.disposition.NotFound? || parsed.value.citations >= 1);
    passed := dispositionOk && !unparsed && !misquoted && citationRuleOk && !transportError;
  }

  /** No fishing: what comes after the first well-formed attempt cannot change the verdict,
      and neither can what ill-formed attempts before it claimed. */
  lemma {:induction false} OnlyTheFirstCounts(a: nat -> Attempt, b: nat -> Attempt, k: nat)
    requires k < MAX_ATTEMPTS && WellFormed(a(k)) && a(k) == b(k)
    requires forall i :: 0 <= i < k ==> !WellFormed(a(i)) && !WellFormed(b(i))
    ensures First(a, 0) == First(b, 0) == Some(k)
  {
  }
}
