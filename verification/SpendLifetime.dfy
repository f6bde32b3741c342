/** The lifetime ceilings: what any number of canary and score invocations on one work
    directory, each of which may die at any step, can have spent altogether. */
module SpendLifetime {
  import opened Numerals
  import opened Seqs
  import opened SpendBudget
  import opened Slots
  import Canary
  import Score

  datatype Ceiling = Ceiling(calls: nat, tokens: nat)

  /** One invocation, as far as the ledger and the wire are concerned. `perCall` is the
      projection of this invocation: it is made anew every time. */
  ghost predicate Invocation(c: Ceiling, perCall: nat, w: World, w': World) {
    || w' == w
    || (&& !w.ledger.Malformed? && w'.ledger.Counter?
        && w.wire <= w'.wire && (forall b :: b in w'.wire[|w.wire|..] ==> b <= perCall)
        && |w'.wire| - |w.wire| <= Recorded(w') - Recorded(w)
        && Recorded(w') <= c.calls && Worth(Recorded(w'), perCall) <= c.tokens)
  }

  /** Between invocations the ledger file may be damaged. */
  ghost predicate Damage(w: World, w': World) {
    w' == w.(ledger := Malformed)
  }

  ghost predicate Step(c: Ceiling, perCall: nat, w: World, w': World) {
    Invocation(c, perCall, w, w') || Damage(w, w')
  }

  ghost predicate History(c: Ceiling, projections: seq<nat>, states: seq<World>) {
    && |states| == |projections| + 1 && states[0] == World(Absent, [])
    && forall i: nat :: i < |projections| ==> Step(c, projections[i], states[i], states[i + 1])
  }

  // ---------------------------------------------------------------- calls

  /** Over every history: the calls that went out never exceed the ledger, and the ledger
      never exceeds the call ceiling. */
  lemma {:induction false} LifetimeCalls(c: Ceiling, projections: seq<nat>, states: seq<World>, i: nat)
    requires History(c, projections, states) && i < |states|
    ensures |states[i].wire| <= c.calls
    ensures !states[i].ledger.Malformed? ==> |states[i].wire| <= Recorded(states[i]) <= c.calls
  {
    if i > 0 {
      LifetimeCalls(c, projections, states, i - 1);
      assert Step(c, projections[i - 1], states[i - 1], states[i]);
    }
  }

  lemma {:induction false} LedgerNeverDecreases(c: Ceiling, projections: seq<nat>, states: seq<World>, i: nat, j: nat)
    requires History(c, projections, states) && i <= j < |states|
    ensures states[i].wire <= states[j].wire
    ensures states[i].ledger.Malformed? ==> states[j] == states[i]
    ensures !states[j].ledger.Malformed? ==> !states[i].ledger.Malformed? && Recorded(states[i]) <= Recorded(states[j])
    decreases j
  {
    if i < j {
      LedgerNeverDecreases(c, projections, states, i, j - 1);
      assert Step(c, projections[j - 1], states[j - 1], states[j]);
    }
  }

  // ---------------------------------------------------------------- tokens

  /** A call on the wire went out under the projection of some earlier invocation. */
  lemma {:induction false} CallHasProjection(c: Ceiling, projections: seq<nat>, states: seq<World>, i: nat, b: nat)
    returns (j: nat)
    requires History(c, projections, states) && i < |states| && b in states[i].wire
    ensures j < i && b <= projections[j]
  {
    assert i > 0;
    assert Step(c, projections[i - 1], states[i - 1], states[i]);
    if b in states[i - 1].wire {
      j := CallHasProjection(c, projections, states, i - 1, b);
    } else {
      j := i - 1;
      assert states[i].wire == states[i - 1].wire + states[i].wire[|states[i - 1].wire|..];
    }
  }

  /** An invocation that takes the tokens over their ceiling has a smaller projection than
      the budget of some call already on the wire. */
  lemma {:induction false} OverspendFindsDearerCall(c: Ceiling, perCall: nat, w: World, w': World)
    requires Invocation(c, perCall, w, w') && |w'.wire| <= Recorded(w')
    requires Tokens(w.wire) <= c.tokens < Tokens(w'.wire)
    ensures exists b :: b in w.wire && b > perCall
  {
    if forall b :: b in w.wire ==> b <= perCall {
      assert w'.wire == w.wire + w'.wire[|w.wire|..];
      TokensBound(w'.wire, perCall);
      WorthMonotone(|w'.wire|, Recorded(w'), perCall);
      assert false;
    }
  }

  ghost predicate Shrinks(projections: seq<nat>, j: nat, k: nat) {
    j < k < |projections| && projections[k] < projections[j]
  }

  /** Over every history: the tokens pass their ceiling only after the projection has
      shrunk from one invocation to a later one. */
  lemma {:induction false} LifetimeTokens(c: Ceiling, projections: seq<nat>, states: seq<World>, i: nat)
    requires History(c, projections, states) && i < |states|
    ensures Tokens(states[i].wire) <= c.tokens || exists j: nat, k: nat :: k < i && Shrinks(projections, j, k)
  {
    if i > 0 && Tokens(states[i].wire) > c.tokens {
      LifetimeTokens(c, projections, states, i - 1);
      if Tokens(states[i - 1].wire) <= c.tokens {
        assert Step(c, projections[i - 1], states[i - 1], states[i]);
        LifetimeCalls(c, projections, states, i);
        OverspendFindsDearerCall(c, projections[i - 1], states[i - 1], states[i]);
        var b :| b in states[i - 1].wire && b > projections[i - 1];
        var j := CallHasProjection(c, projections, states, i - 1, b);
        assert Shrinks(projections, j, i - 1);
      }
    }
  }

  /** So the ceilings hold over every history whose projection never decreases. */
  lemma {:induction false} LifetimeCeilings(c: Ceiling, projections: seq<nat>, states: seq<World>, i: nat)
    requires History(c, projections, states) && i < |states|
    requires forall j, k :: 0 <= j < k < |projections| ==> projections[j] <= projections[k]
    ensures |states[i].wire| <= c.calls && Tokens(states[i].wire) <= c.tokens
    ensures !states[i].ledger.Malformed? ==> |states[i].wire| <= Recorded(states[i]) <= c.calls
  {
    LifetimeCalls(c, projections, states, i);
    LifetimeTokens(c, projections, states, i);
    assert forall j: nat, k: nat :: !Shrinks(projections, j, k);
  }

  function Copies(n: nat, b: nat): (r: seq<nat>)
    ensures |r| == n && forall x :: x in r ==> x == b
  {
    if n == 0 then [] else Copies(n - 1, b) + [b]
  }

  /** An invocation of `n` planned calls that was let start can take the tokens over their
      ceiling exactly when what already went out leaves no room for `n` calls at its
      projection. */
  lemma {:induction false} OverspendIff(c: Ceiling, perCall: nat, w: World, n: nat)
    requires !w.ledger.Malformed?
    requires Recorded(w) + n <= c.calls && Worth(Recorded(w) + n, perCall) <= c.tokens
    ensures (exists w' :: Invocation(c, perCall, w, w') && Recorded(w') <= Recorded(w) + n && Tokens(w'.wire) > c.tokens) <==>
            Tokens(w.wire) + Worth(n, perCall) > c.tokens
  {
    forall w' | Invocation(c, perCall, w, w') && Recorded(w') <= Recorded(w) + n
      ensures Tokens(w'.wire) <= Tokens(w.wire) + Worth(n, perCall)
    {
      CostsAtMost(c, perCall, w, w', n);
    }
    if Tokens(w.wire) + Worth(n, perCall) > c.tokens {
      var w' := CostsAsMuch(c, perCall, w, n);
      assert Invocation(c, perCall, w, w') && Recorded(w') <= Recorded(w) + n && Tokens(w'.wire) > c.tokens;
    }
  }

  lemma {:induction false} CostsAsMuch(c: Ceiling, perCall: nat, w: World, n: nat) returns (w': World)
    requires !w.ledger.Malformed?
    requires Recorded(w) + n <= c.calls && Worth(Recorded(w) + n, perCall) <= c.tokens
    ensures Invocation(c, perCall, w, w') && Recorded(w') <= Recorded(w) + n
    ensures Tokens(w'.wire) == Tokens(w.wire) + Worth(n, perCall)
  {
    var sent := Copies(n, perCall);
    w' := if n == 0 then w else World(Counter(Recorded(w) + n), w.wire + sent);
    TokensAppend(w.wire, sent);
    EqualCalls(sent, perCall);
    assert (w.wire + sent)[|w.wire|..] == sent;
  }

  lemma {:induction false} CostsAtMost(c: Ceiling, perCall: nat, w: World, w': World, n: nat)
    requires Invocation(c, perCall, w, w') && Recorded(w') <= Recorded(w) + n
    ensures Tokens(w'.wire) <= Tokens(w.wire) + Worth(n, perCall)
  {
    if w' != w {
      var sent := w'.wire[|w.wire|..];
      assert w'.wire == w.wire + sent;
      TokensAppend(w.wire, sent);
      TokensBound(sent, perCall);
      WorthMonotone(|sent|, n, perCall);
    }
  }

  // ---------------------------------------------------------------- the two commands

  lemma {:induction false} CanaryIsInvocation(plan: Canary.Plan, w: World, w': World, perCall: nat)
    requires !w.ledger.Malformed? && Canary.Metered(w, w', perCall) && Canary.Fits(plan, Recorded(w'), perCall)
    ensures Invocation(Ceiling(plan.maxCalls, plan.maxTokens), perCall, w, w')
  {
    if w'.ledger == w.ledger {
      assert w' == w;
    }
  }

  /** Every canary run is such an invocation, at its own plan's projection. */
  method InvokeCanary(w: World, plan: Canary.Plan, requested: seq<string>, weather: nat -> Canary.Weather)
    returns (w': World)
    requires Canary.ValidPlan(plan)
    ensures Invocation(Ceiling(plan.maxCalls, plan.maxTokens), Canary.PerCall(plan), w, w')
  {
    var rows, outcome;
    w', rows, outcome := Canary.RunCanary(w, plan, requested, weather);
    if outcome.Done? || outcome.Died? {
      CanaryIsInvocation(plan, w, w', Canary.PerCall(plan));
    }
  }

  /** A score run keeps the ceilings whose evidence stayed as usable as it was when planned. */
  lemma {:induction false} ScoreIsInvocation(job: Score.Job, w: World, w': World)
    requires !w.ledger.Malformed? && Recorded(w) <= job.carried
    requires Score.Metered(w, w', job.carried) && Score.WithinTriggers(job, w, w')
    requires Score.StableEvidence(job) && !Score.Overspends(job)
    ensures Invocation(Ceiling(job.plan.maxCalls, job.plan.maxTokens), SCORER_MAX_TOKENS, w, w')
  {
    Score.ChancesArePlanned(job);
    WorthIsProduct(Recorded(w'), SCORER_MAX_TOKENS);
    if w'.ledger == w.ledger {
      assert w' == w;
    }
  }

  /** Whatever the evidence does, the call ceiling stands and the token ceiling is passed
      by less than one call. */
  lemma {:induction false} ScoreIsInvocationWithin(job: Score.Job, w: World, w': World)
    requires !w.ledger.Malformed? && Recorded(w) <= job.carried
    requires Score.Metered(w, w', job.carried) && Score.WithinTriggers(job, w, w')
    ensures Invocation(Ceiling(job.plan.maxCalls, job.plan.maxTokens + SCORER_MAX_TOKENS - 1), SCORER_MAX_TOKENS, w, w')
  {
    WorthIsProduct(Recorded(w'), SCORER_MAX_TOKENS);
    if w'.ledger == w.ledger {
      assert w' == w;
    }
  }

  /** Every score run is such an invocation: under its plan's ceilings when the evidence was
      stable, and in any case with less than one call to spare. */
  method InvokeScore(w: World, plan: Score.Plan, prs: seq<string>, requested: seq<string>, repeats: int,
                     prior: Score.Prior, env: Score.Env)
    returns (w': World)
    requires Score.ValidPlan(plan) && Distinct(prs)
    ensures (forall pr :: pr in prs ==> env.planned(pr) == env.sees(pr)) ==>
              Invocation(Ceiling(plan.maxCalls, plan.maxTokens), SCORER_MAX_TOKENS, w, w')
    ensures Invocation(Ceiling(plan.maxCalls, plan.maxTokens + SCORER_MAX_TOKENS - 1), SCORER_MAX_TOKENS, w, w')
  {
    var newer, results, outcome;
    w', newer, results, outcome := Score.RunScore(w, plan, prs, requested, repeats, prior, env);
    if !outcome.Invalid? && !outcome.Refused? {
      ghost var job := Score.JobOf(w, plan, prs, requested, repeats, prior, env);
      ScoreIsInvocationWithin(job, w, w');
      if Score.StableEvidence(job) {
        ScoreIsInvocation(job, w, w');
      }
    }
  }

  // ---------------------------------------------------------------- a shrinking projection

  /** A canary run that was let start can overspend only if what already went out leaves no
      room for one call of every entry and selected condition, and does so when every call
      is made and none scores. */
  lemma {:induction false} CanaryOverspendsIff(plan: Canary.Plan, selected: seq<string>, w: World, w': World, rows: seq<Canary.Row>,
                                               weather: nat -> Canary.Weather, exhausted: bool, perCall: nat)
    requires Canary.Dispatched(plan, selected, w, w')
    ensures Tokens(w'.wire) > plan.maxTokens ==> Tokens(w.wire) + Canary.WorstTokens(plan, selected) > plan.maxTokens
    ensures Canary.EveryCallMade(weather) && Canary.Complete(plan, selected, rows, weather, exhausted)
            && Canary.Spent(w, w', Canary.Budgets(plan, rows), perCall) ==>
              (Tokens(w'.wire) > plan.maxTokens <==> Tokens(w.wire) + Canary.WorstTokens(plan, selected) > plan.maxTokens)
  {
    Canary.RunCostsAtMost(plan, selected, w, w');
    if Canary.EveryCallMade(weather) && Canary.Complete(plan, selected, rows, weather, exhausted)
       && Canary.Spent(w, w', Canary.Budgets(plan, rows), perCall)
    {
      Canary.RunCosts(plan, selected, w, w', rows, weather, exhausted, perCall);
    }
  }

  /** One entry, one condition, whose declared budget has been resolved to `budget`. */
  function OneCall(pr: string, id: string, budget: nat, tokens: nat): Canary.Plan {
    Canary.Plan([pr], [id], map[id := Canary.Condition(Canary.Primary, Digits(budget), "")], 2, tokens)
  }

  lemma {:induction false} OneCallPlan(pr: string, id: string, budget: nat, tokens: nat)
    requires 1 <= budget <= MAX_SAFE_INTEGER && tokens >= 1
    ensures var plan := OneCall(pr, id, budget, tokens);
            Canary.ValidPlan(plan) && Canary.BudgetOf(plan, id) == budget && Canary.PerCall(plan) == budget
  {
    var plan := OneCall(pr, id, budget, tokens);
    DeclaredRoundTrip("", budget, "", SCORER_MAX_TOKENS);
    assert "" + Digits(budget) + "" == Digits(budget);
    OneBudget(Canary.PlanBudgets(plan), SCORER_MAX_TOKENS);
  }

  lemma OneBudget(budgets: seq<Budget>, fallback: nat)
    requires |budgets| == 1 && budgets[0].tokens >= 1 && fallback >= 1
    ensures Aggregate(budgets, fallback) == budgets[0]
  {
  }

  lemma {:induction false} OneCallPairs(plan: Canary.Plan, pr: string, id: string)
    requires plan.entries == [pr]
    ensures Product(plan.entries, [id]) == [(pr, id)]
    ensures Canary.FullBudgets(plan, [(pr, id)]) == [Canary.BudgetOf(plan, id)]
  {
    Score.SingleProduct(pr, id);
    assert [(pr, id)][..0] == [];
  }

  /** One run of such a plan, in which the call is made. */
  method RunOneCall(w: World, pr: string, id: string, budget: nat, tokens: nat) returns (w': World)
    requires 1 <= budget <= MAX_SAFE_INTEGER && tokens >= 1
    requires !w.ledger.Malformed? && Recorded(w) <= 1 && Worth(Recorded(w) + 1, budget) <= tokens
    ensures w' == World(Counter(Recorded(w) + 1), w.wire + [budget])
  {
    OneCallPlan(pr, id, budget, tokens);
    w' := RunOnePair(w, OneCall(pr, id, budget, tokens), pr, id);
  }

  method RunOnePair(w: World, plan: Canary.Plan, pr: string, id: string) returns (w': World)
    requires Canary.ValidPlan(plan) && plan.entries == [pr] && plan.order == [id]
    requires !w.ledger.Malformed? && Canary.Fits(plan, Recorded(w) + 1, Canary.PerCall(plan))
    ensures w' == World(Counter(Recorded(w) + 1), w.wire + [Canary.BudgetOf(plan, id)])
  {
    var weather := (k: nat) => Canary.Weather(true, false, true, false, Survives);
    var rows, outcome;
    OneMoreCall(w, plan, id);
    w', rows, outcome := Canary.RunCanary(w, plan, [], weather);
    OnePairRan(w, w', plan, pr, id, rows, weather, outcome.exhausted, Canary.PerCall(plan));
  }

  lemma OneMoreCall(w: World, plan: Canary.Plan, id: string)
    requires |plan.entries| == 1 && plan.order == [id]
    ensures Canary.WorstCase(w, plan, Canary.Selected(plan, [])) == Recorded(w) + 1
  {
  }

  lemma {:induction false} OnePairRan(w: World, w': World, plan: Canary.Plan, pr: string, id: string, rows: seq<Canary.Row>,
                                      weather: nat -> Canary.Weather, exhausted: bool, perCall: nat)
    requires plan.entries == [pr] && Canary.EveryCallMade(weather)
    requires Canary.Complete(plan, [id], rows, weather, exhausted)
    requires Canary.Spent(w, w', Canary.Budgets(plan, rows), perCall)
    ensures w' == World(Counter(Recorded(w) + 1), w.wire + [Canary.BudgetOf(plan, id)])
  {
    OneCallPairs(plan, pr, id);
    Canary.RunCosts(plan, [id], w, w', rows, weather, exhausted, perCall);
  }

  /** The projection is made anew on every run: under a token ceiling of `big` a call of
      that budget goes out, and then, once the declared budget resolves to something small,
      another one. */
  method ShrinkingProjectionOverspends(pr: string, id: string, big: nat, small: nat) returns (w1: World, w2: World)
    requires 1 <= small && 2 * small <= big <= MAX_SAFE_INTEGER
    ensures w1 == World(Counter(1), [big]) && w2 == World(Counter(2), [big, small])
    ensures Tokens(w2.wire) == big + small
  {
    WorthIsProduct(1, big);
    WorthIsProduct(2, small);
    w1 := RunOneCall(World(Absent, []), pr, id, big, big);
    w2 := RunOneCall(w1, pr, id, small, big);
    TokensAppend([big], [small]);
  }

  /** The history of that example. */
  lemma {:induction false} ShrinkingHistory(big: nat, small: nat)
    requires 1 <= small && 2 * small <= big
    ensures var states := [World(Absent, []), World(Counter(1), [big]), World(Counter(2), [big, small])];
            && History(Ceiling(2, big), [big, small], states)
            && Tokens(states[2].wire) > big
  {
    WorthIsProduct(1, big);
    WorthIsProduct(2, small);
    assert [big][0..] == [big] && [big, small][1..] == [small];
    assert [big] + [small] == [big, small];
    TokensAppend([big], [small]);
  }
}
