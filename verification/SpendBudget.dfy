/** The spend vocabulary of `scripts/confidence_calibration.py`: the ledger file, the
    calls that really went out, and the per-call budget projection. */
module SpendBudget {
  import opened Numerals
  import opened Texts

  const SCORER_MAX_TOKENS: nat := 4096
  const SCORER_PROMPT_TOKENS: nat := 98304

  /** `scorer-spend.json`: absent, a readable lifetime counter, or anything else. */
  datatype Ledger = Absent | Counter(calls: nat) | Malformed

  /** What outlives an invocation: the ledger on disk, and in `wire` one completion budget
      for every call that was really dispatched (known to the provider, not to the script). */
  datatype World = World(ledger: Ledger, wire: seq<nat>)

  function Recorded(w: World): nat {
    if w.ledger.Counter? then w.ledger.calls else 0
  }

  /** How an invocation is cut: not at all, just before the ledger write, between the
      write and the dispatch, or after the dispatch. */
  datatype Fate = Survives | DiesBeforeWrite | DiesBeforeDispatch | DiesAfterDispatch

  // ---------------------------------------------------------------- declared budgets

  const JS_TRIM_CHARS: set<char> := {
    '\t', '\n', '\U{0B}', '\U{0C}', '\r', ' ', '\U{A0}', '\U{1680}', '\U{2000}', '\U{2001}',
    '\U{2002}', '\U{2003}', '\U{2004}', '\U{2005}', '\U{2006}', '\U{2007}', '\U{2008}', '\U{2009}',
    '\U{200A}', '\U{2028}', '\U{2029}', '\U{202F}', '\U{205F}', '\U{3000}', '\U{FEFF}' }

  const MAX_SAFE_INTEGER: nat := 0x1F_FFFF_FFFF_FFFF

  function Trim(s: string): string {
    Strip(s, c => c in JS_TRIM_CHARS)
  }

  /** A per-call budget, and whether it comes from the declaration or is the default. */
  datatype Budget = Budget(tokens: nat, declared: bool)

  /** `_declared_budget`. */
  function DeclaredBudget(raw: string, fallback: nat): (b: Budget)
    ensures b == Budget(fallback, false) || (b.declared && 1 <= b.tokens <= MAX_SAFE_INTEGER)
  {
    var text := Trim(raw);
    if text != "" && (forall c :: c in text ==> IsDigit(c)) && 1 <= ValueOf(text) <= MAX_SAFE_INTEGER
    then Budget(ValueOf(text), true)
    else Budget(fallback, false)
  }

  function CompletionBudget(declared: string): (b: nat)
    ensures b >= 1
  {
    DeclaredBudget(declared, SCORER_MAX_TOKENS).tokens
  }

  /** Surrounding JavaScript white space never changes what a declaration means, and the
      decimal rendering of every safe positive integer is a declaration of that integer. */
  lemma DeclaredRoundTrip(before: string, n: nat, after: string, fallback: nat)
    requires 1 <= n <= MAX_SAFE_INTEGER
    requires (forall c :: c in before ==> c in JS_TRIM_CHARS) && (forall c :: c in after ==> c in JS_TRIM_CHARS)
    ensures DeclaredBudget(before + Digits(n) + after, fallback) == Budget(n, true)
  {
    var d := Digits(n);
    ValueOfDigits(n);
    DigitsStay(d[0]);
    DigitsStay(d[|d| - 1]);
    StripAround(before, d, after, c => c in JS_TRIM_CHARS);
    StripEnds(d, c => c in JS_TRIM_CHARS);
  }

  /** `raw` is a run of ASCII digits between JavaScript white space. */
  ghost predicate Spells(raw: string, before: string, digits: string, after: string) {
    && raw == before + digits + after
    && (forall c :: c in before ==> c in JS_TRIM_CHARS) && (forall c :: c in after ==> c in JS_TRIM_CHARS)
    && digits != "" && forall c :: c in digits ==> '0' <= c <= '9'
  }

  /** Nothing else is a declaration: no sign, no unit, no separator, and no number out of
      range. */
  lemma {:induction false} DeclaredIff(raw: string, fallback: nat)
    ensures var b := DeclaredBudget(raw, fallback);
            && (b.declared <==> exists before, digits, after :: Spells(raw, before, digits, after)
                                                               && 1 <= ValueOf(digits) <= 0x1F_FFFF_FFFF_FFFF)
            && (forall before, digits, after :: b.declared && Spells(raw, before, digits, after) ==> b.tokens == ValueOf(digits))
            && (!b.declared ==> b.tokens == fallback)
  {
    var text := Trim(raw);
    if DeclaredBudget(raw, fallback).declared {
      var before, after := StripLeaves(raw, c => c in JS_TRIM_CHARS);
      assert Spells(raw, before, text, after);
    }
    forall before, digits, after | Spells(raw, before, digits, after) ensures text == digits {
      SpelledStays(raw, before, digits, after);
    }
  }

  lemma {:induction false} SpelledStays(raw: string, before: string, digits: string, after: string)
    requires Spells(raw, before, digits, after)
    ensures Trim(raw) == digits
  {
    StripAround(before, digits, after, c => c in JS_TRIM_CHARS);
    StripEnds(digits, c => c in JS_TRIM_CHARS);
    assert digits[0] in digits && digits[|digits| - 1] in digits;
    DigitsStay(digits[0]);
    DigitsStay(digits[|digits| - 1]);
  }

  /** A character that is neither a digit nor white space spoils a declaration, wherever it
      stands. */
  lemma {:induction false} StrayCharacter(raw: string, c: char, fallback: nat)
    requires c in raw && !('0' <= c <= '9') && c !in JS_TRIM_CHARS
    ensures DeclaredBudget(raw, fallback) == Budget(fallback, false)
  {
    var before, after := StripLeaves(raw, x => x in JS_TRIM_CHARS);
    assert c in Trim(raw);
  }

  lemma DigitsStay(x: char)
    requires IsDigit(x)
    ensures x !in JS_TRIM_CHARS
  {
  }

  // ---------------------------------------------------------------- the projection

  /** What one condition declares, and what the projection records of it. */
  datatype Declaration = Declaration(id: string, completion: string, prompt: string)
  datatype Record = Record(id: string, completion: Budget, prompt: Budget)

  /** One record for each condition, in order. */
  function Records(ds: seq<Declaration>): (r: seq<Record>)
    ensures |r| == |ds|
    ensures forall i :: 0 <= i < |ds| ==> r[i] == RecordOf(ds[i])
  {
    if ds == [] then [] else Records(ds[..|ds| - 1]) + [RecordOf(ds[|ds| - 1])]
  }

  function RecordOf(d: Declaration): (r: Record)
    ensures r.completion.tokens >= 1 && r.prompt.tokens >= 1
  {
    Record(d.id, DeclaredBudget(d.completion, SCORER_MAX_TOKENS), DeclaredBudget(d.prompt, SCORER_PROMPT_TOKENS))
  }

  function Completions(records: seq<Record>): (r: seq<Budget>)
    ensures |r| == |records| && forall i :: 0 <= i < |records| ==> r[i] == records[i].completion
  {
    if records == [] then [] else Completions(records[..|records| - 1]) + [records[|records| - 1].completion]
  }

  function Prompts(records: seq<Record>): (r: seq<Budget>)
    ensures |r| == |records| && forall i :: 0 <= i < |records| ==> r[i] == records[i].prompt
  {
    if records == [] then [] else Prompts(records[..|records| - 1]) + [records[|records| - 1].prompt]
  }

  /** The aggregate of one dimension: the largest budget, called declared exactly when some
      declaration is that largest value, and the default when there is no condition. */
  ghost predicate Aggregates(b: Budget, budgets: seq<Budget>, fallback: nat) {
    if budgets == [] then b == Budget(fallback, false)
    else
      && b in budgets && (forall x :: x in budgets ==> x.tokens <= b.tokens)
      && (b.declared <==> Budget(b.tokens, true) in budgets)
  }

  /** These demands leave no choice. */
  lemma AggregateUnique(a: Budget, b: Budget, budgets: seq<Budget>, fallback: nat)
    requires Aggregates(a, budgets, fallback) && Aggregates(b, budgets, fallback)
    ensures a == b
  {
  }

  lemma {:induction false} AggregateStep(seen: seq<Budget>, best: Budget, next: Budget)
    requires Aggregates(best, seen, 0) && next.tokens >= 1
    ensures next.tokens > best.tokens ==> Aggregates(next, seen + [next], 0)
    ensures next.tokens == best.tokens && next.declared ==> Aggregates(best.(declared := true), seen + [next], 0)
    ensures !(next.tokens > best.tokens) && !(next.tokens == best.tokens && next.declared) ==>
              Aggregates(best, seen + [next], 0)
  {
    assert forall x :: x in seen + [next] <==> x in seen || x == next;
  }

  /** The body of the loop, for one of the two dimensions. */
  method Raise(ghost seen: seq<Budget>, best0: Budget, next: Budget) returns (best: Budget)
    requires Aggregates(best0, seen, 0) && next.tokens >= 1
    ensures Aggregates(best, seen + [next], 0)
  {
    AggregateStep(seen, best0, next);
    best := best0;
    if next.tokens > best.tokens {
      best := next;
    } else if next.tokens == best.tokens && next.declared {
      best := best.(declared := true);
    }
  }

  /** The projection over the conditions recorded so far. */
  ghost predicate Projected(records: seq<Record>, completion: Budget, prompt: Budget) {
    Aggregates(completion, Completions(records), 0) && Aggregates(prompt, Prompts(records), 0)
  }

  /** The body of the loop. */
  method ProjectOne(records: seq<Record>, completion0: Budget, prompt0: Budget, next: Record)
    returns (completion: Budget, prompt: Budget)
    requires Projected(records, completion0, prompt0) && next.completion.tokens >= 1 && next.prompt.tokens >= 1
    ensures Projected(records + [next], completion, prompt)
  {
    completion := Raise(Completions(records), completion0, next.completion);
    prompt := Raise(Prompts(records), prompt0, next.prompt);
    assert (records + [next])[..|records|] == records;
  }

  lemma {:induction false} RecordsStep(ds: seq<Declaration>, i: nat)
    requires i < |ds|
    ensures Records(ds[..i + 1]) == Records(ds[..i]) + [RecordOf(ds[i])]
  {
    assert ds[..i + 1][..i] == ds[..i];
  }

  /** The loop over the conditions. */
  method ProjectAll(ds: seq<Declaration>) returns (completion: Budget, prompt: Budget, records: seq<Record>)
    ensures records == Records(ds) && Projected(records, completion, prompt)
  {
    completion, prompt, records := Budget(0, false), Budget(0, false), [];
    for i := 0 to |ds|
      invariant records == Records(ds[..i]) && Projected(records, completion, prompt)
    {
      RecordsStep(ds, i);
      completion, prompt := ProjectOne(records, completion, prompt, RecordOf(ds[i]));
      records := records + [RecordOf(ds[i])];
    }
    assert ds[..|ds|] == ds;
  }

  /** `project_spend_budget`: the two aggregates and the record of every condition. */
  method ProjectSpendBudget(ds: seq<Declaration>) returns (completion: Budget, prompt: Budget, records: seq<Record>)
    ensures records == Records(ds)
    ensures |records| == |ds| && forall i :: 0 <= i < |ds| ==>
              records[i] == Record(ds[i].id, DeclaredBudget(ds[i].completion, 4096), DeclaredBudget(ds[i].prompt, 98304))
    ensures Aggregates(completion, Completions(records), SCORER_MAX_TOKENS)
    ensures Aggregates(prompt, Prompts(records), SCORER_PROMPT_TOKENS)
  {
    completion, prompt, records := ProjectAll(ds);
    if records == [] {
      completion, prompt := Budget(SCORER_MAX_TOKENS, false), Budget(SCORER_PROMPT_TOKENS, false);
    }
  }

  /** The aggregate of one dimension, as a function. */
  function Aggregate(budgets: seq<Budget>, fallback: nat): (b: Budget)
    requires fallback >= 1 && forall x :: x in budgets ==> x.tokens >= 1
    ensures Aggregates(b, budgets, fallback) && b.tokens >= 1
  {
    if budgets == [] then Budget(fallback, false)
    else
      var front, last := budgets[..|budgets| - 1], budgets[|budgets| - 1];
      assert budgets == front + [last];
      if front == [] then last
      else
        var best := Aggregate(front, fallback);
        if last.tokens > best.tokens || (last.tokens == best.tokens && last.declared) then last else best
  }

  // ---------------------------------------------------------------- totals

  function Tokens(wire: seq<nat>): nat {
    if wire == [] then 0 else Tokens(wire[..|wire| - 1]) + wire[|wire| - 1]
  }

  lemma {:induction false} TokensAppend(a: seq<nat>, b: seq<nat>)
    ensures Tokens(a + b) == Tokens(a) + Tokens(b)
  {
    if b == [] {
      assert a + b == a;
    } else {
      assert (a + b)[..|a + b| - 1] == a + b[..|b| - 1];
      TokensAppend(a, b[..|b| - 1]);
    }
  }

  /** The tokens that so many calls are worth at most. */
  function Worth(calls: nat, perCall: nat): nat {
    if calls == 0 then 0 else Worth(calls - 1, perCall) + perCall
  }

  lemma {:induction false} WorthIsProduct(calls: nat, perCall: nat)
    ensures Worth(calls, perCall) == calls * perCall
  {
    if calls > 0 {
      WorthIsProduct(calls - 1, perCall);
      assert calls * perCall == (calls - 1) * perCall + perCall;
    }
  }

  lemma {:induction false} WorthMonotone(a: nat, b: nat, perCall: nat)
    requires a <= b
    ensures Worth(a, perCall) <= Worth(b, perCall)
    ensures a < b && perCall >= 1 ==> Worth(a, perCall) < Worth(b, perCall)
    decreases b
  {
    if a < b {
      WorthMonotone(a, b - 1, perCall);
    }
  }

  lemma {:induction false} TokensBound(wire: seq<nat>, perCall: nat)
    requires forall b :: b in wire ==> b <= perCall
    ensures Tokens(wire) <= Worth(|wire|, perCall)
  {
    if wire != [] {
      var front := wire[..|wire| - 1];
      assert forall b :: b in front ==> b in wire;
      TokensBound(front, perCall);
      assert wire[|wire| - 1] in wire;
    }
  }

  lemma {:induction false} EqualCalls(wire: seq<nat>, perCall: nat)
    requires forall b :: b in wire ==> b == perCall
    ensures Tokens(wire) == Worth(|wire|, perCall)
  {
    if wire != [] {
      var front := wire[..|wire| - 1];
      assert forall b :: b in front ==> b in wire;
      EqualCalls(front, perCall);
      assert wire[|wire| - 1] in wire;
    }
  }

  /** Calls within a ceiling, each within the projection, spend within the token ceiling. */
  lemma SpendWithin(wire: seq<nat>, calls: nat, perCall: nat, ceiling: nat)
    requires |wire| <= calls && calls * perCall <= ceiling
    requires forall b :: b in wire ==> b <= perCall
    ensures Tokens(wire) <= ceiling
  {
    TokensBound(wire, perCall);
    WorthMonotone(|wire|, calls, perCall);
    WorthIsProduct(calls, perCall);
  }
}
