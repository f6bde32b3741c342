/** `cmd_canary` of `scripts/confidence_calibration.py`: one verifier call per (entry,
    condition) pair under a lifetime spend ledger that is written before each call. */
module Canary {
  import opened Seqs
  import opened Slots
  import opened SpendBudget

  datatype Role = Primary | Fallback(target: string)
  datatype Condition = Condition(role: Role, completion: string, prompt: string)

  /** `order` is the plan's condition list; every condition in it is declared. */
  datatype Plan = Plan(
    entries: seq<string>, order: seq<string>, conditions: map<string, Condition>,
    maxCalls: nat, maxTokens: nat)

  /** What the plan validator has established before the sweep starts. */
  ghost predicate ValidPlan(plan: Plan) {
    && plan.entries != [] && plan.order != [] && Distinct(plan.order)
    && (forall id :: id in plan.order <==> id in plan.conditions)
    && plan.maxCalls >= 1 && plan.maxTokens >= 1
  }

  datatype Kind = NotRun | NoCall | LedgerDown | Called(scored: bool) | BudgetExhausted
  datatype Row = Row(pr: string, condition: string, kind: Kind)

  /** What the environment decides for one row: whether the retained evidence can be used,
      the wall time has run out, the ledger write works, the answer scores, and whether
      the process dies. */
  datatype Weather = Weather(usable: bool, elapsed: bool, writable: bool, scores: bool, fate: Fate)

  datatype Outcome = UnknownCondition | Refused | Died | Done(exhausted: bool)

  function Selected(plan: Plan, requested: seq<string>): seq<string> {
    if requested == [] then plan.order else requested
  }

  /** What the conditions declare, as the projection reads it. */
  function Declarations(plan: Plan, ids: seq<string>): (r: seq<Declaration>)
    requires forall id :: id in ids ==> id in plan.conditions
    ensures |r| == |ids|
    ensures forall i :: 0 <= i < |ids| ==>
              r[i] == Declaration(ids[i], plan.conditions[ids[i]].completion, plan.conditions[ids[i]].prompt)
  {
    if ids == [] then []
    else
      var n := |ids| - 1;
      Declarations(plan, ids[..n]) +
      [Declaration(ids[n], plan.conditions[ids[n]].completion, plan.conditions[ids[n]].prompt)]
  }

  /** The completion budgets of every condition of the plan, selected or not. */
  function PlanBudgets(plan: Plan): (r: seq<Budget>)
    requires forall id :: id in plan.order ==> id in plan.conditions
    ensures |r| == |plan.order|
    ensures forall i :: 0 <= i < |r| ==> r[i].tokens == BudgetOf(plan, plan.order[i])
  {
    Completions(Records(Declarations(plan, plan.order)))
  }

  /** The per-call budget the ceilings multiply: the largest of them. */
  function PerCall(plan: Plan): (p: nat)
    requires forall id :: id in plan.order ==> id in plan.conditions
    ensures p >= 1
  {
    Aggregate(PlanBudgets(plan), SCORER_MAX_TOKENS).tokens
  }

  /** The completion budget a call under this condition resolves to. */
  function BudgetOf(plan: Plan, id: string): (b: nat)
    ensures b >= 1
  {
    CompletionBudget(if id in plan.conditions then plan.conditions[id].completion else "")
  }

  function PairsOf(rows: seq<Row>): (r: seq<(string, string)>)
    ensures |r| == |rows|
    ensures forall i :: 0 <= i < |rows| ==> r[i] == (rows[i].pr, rows[i].condition)
  {
    if rows == [] then []
    else PairsOf(rows[..|rows| - 1]) + [(rows[|rows| - 1].pr, rows[|rows| - 1].condition)]
  }

  /** The budgets of the calls that these rows made, in order. */
  function Budgets(plan: Plan, rows: seq<Row>): seq<nat> {
    if rows == [] then []
    else
      var last := rows[|rows| - 1];
      Budgets(plan, rows[..|rows| - 1]) + if last.kind.Called? then [BudgetOf(plan, last.condition)] else []
  }

  lemma {:induction false} AppendRow(plan: Plan, rows: seq<Row>, r: Row)
    ensures PairsOf(rows + [r]) == PairsOf(rows) + [(r.pr, r.condition)]
    ensures Budgets(plan, rows + [r]) == Budgets(plan, rows) + if r.kind.Called? then [BudgetOf(plan, r.condition)] else []
  {
    assert (rows + [r])[..|rows|] == rows;
  }

  /** The dictionary of scored conditions silences this one: the call it falls back for
      has scored. */
  predicate Silenced(c: Condition, scored: map<string, bool>) {
    c.role.Fallback? && c.role.target in scored && scored[c.role.target]
  }

  /** The dictionary after a row: a silenced condition leaves no entry. */
  function After(scored: map<string, bool>, r: Row): map<string, bool> {
    if r.kind == NotRun then scored else scored[r.condition := r.kind == Called(true)]
  }

  /** What the dictionary holds once the rows `before` are made: it starts empty with every
      entry, that is with every `n` rows. */
  function Memory(n: nat, before: seq<Row>): map<string, bool> {
    if n == 0 || InRound(|before|, n) == 0 || before == [] then map[]
    else After(Memory(n, before[..|before| - 1]), before[|before| - 1])
  }

  /** Why a row is what it is, given the rows before it, how many conditions are run for
      each entry, and the weather at its turn. */
  predicate Explained(plan: Plan, n: nat, before: seq<Row>, r: Row, now: Weather) {
    && r.condition in plan.conditions
    && if Silenced(plan.conditions[r.condition], Memory(n, before)) then r.kind == NotRun
       else
         && !now.elapsed
         && r.kind == Verdict(now)
  }

  /** What becomes of a row that gets its turn. */
  function Verdict(now: Weather): Kind {
    if !now.usable then NoCall else if !now.writable then LedgerDown else Called(now.scores)
  }

  predicate ExplainedAt(plan: Plan, n: nat, rows: seq<Row>, weather: nat -> Weather, k: nat) {
    k < |rows| && Explained(plan, n, rows[..k], rows[k], weather(k))
  }

  /** The rows up to `stop` are what the weather made of them; a failed ledger write ends
      the sweep; the rest are the explicit fillers. */
  ghost predicate Chronicle(plan: Plan, n: nat, rows: seq<Row>, weather: nat -> Weather, stop: nat) {
    && stop <= |rows|
    && (forall k: nat :: k < stop ==> ExplainedAt(plan, n, rows, weather, k))
    && (forall k :: 0 <= k < stop - 1 ==> rows[k].kind != LedgerDown)
    && (forall k :: stop <= k < |rows| ==> rows[k].kind == BudgetExhausted)
  }

  lemma {:induction false} ChronicleAppend(plan: Plan, n: nat, rows: seq<Row>, weather: nat -> Weather, r: Row)
    requires Chronicle(plan, n, rows, weather, |rows|)
    requires forall k :: 0 <= k < |rows| ==> rows[k].kind != LedgerDown
    requires Explained(plan, n, rows, r, weather(|rows|))
    ensures Chronicle(plan, n, rows + [r], weather, |rows| + 1)
  {
    var longer := rows + [r];
    assert longer[..|rows|] == rows;
    forall k: nat | k < |rows| ensures ExplainedAt(plan, n, longer, weather, k) {
      assert ExplainedAt(plan, n, rows, weather, k) && longer[..k] == rows[..k];
    }
  }

  /** What a run may do to the world, even when it dies: every dispatched call was
      recorded first, and at most one recorded call was not dispatched. */
  ghost predicate Metered(w: World, w': World, perCall: nat) {
    && w.wire <= w'.wire
    && (forall b :: b in w'.wire[|w.wire|..] ==> b <= perCall)
    && |w'.wire| - |w.wire| <= Recorded(w') - Recorded(w) <= |w'.wire| - |w.wire| + 1
    && (w'.ledger == w.ledger || w'.ledger.Counter?)
  }

  /** What a run that does not die has done to the world: the budgets `sent` went out. */
  ghost predicate Spent(w: World, w': World, sent: seq<nat>, perCall: nat) {
    Metered(w, w', perCall) && w'.wire == w.wire + sent && Recorded(w') == Recorded(w) + |sent|
  }

  /** The calls that went out, even in a run that dies, were made by rows of the sweep. */
  ghost predicate Dispatched(plan: Plan, selected: seq<string>, w: World, w': World) {
    exists rows: seq<Row> ::
      PairsOf(rows) <= Product(plan.entries, selected) && w'.wire == w.wire + Budgets(plan, rows)
  }

  /** What the explicit filler rows may look like. */
  ghost predicate Fills(plan: Plan, rows: seq<Row>, full: seq<Row>) {
    && rows <= full && Budgets(plan, full) == Budgets(plan, rows)
    && forall k :: |rows| <= k < |full| ==> full[k].kind == BudgetExhausted
  }

  /** The fillers so far: one for every pair of `done` that no row has. */
  ghost predicate Filling(plan: Plan, rows: seq<Row>, full: seq<Row>, done: seq<(string, string)>) {
    Fills(plan, rows, full) && PairsOf(full) == PairsOf(rows) + Missing(done, PairsOf(rows))
  }

  /** One filler, unless the pair is already present. */
  method FillPair(plan: Plan, selected: seq<string>, ghost rows: seq<Row>, full0: seq<Row>,
                  present: set<(string, string)>, e: nat, c: nat)
    returns (full: seq<Row>)
    requires e < |plan.entries| && c < |selected| && present == set pair | pair in PairsOf(rows)
    requires Filling(plan, rows, full0, Visited(plan.entries, selected, e, c))
    ensures Filling(plan, rows, full, Visited(plan.entries, selected, e, c + 1))
  {
    full := full0;
    FillStep(plan, rows, full, Visited(plan.entries, selected, e, c), plan.entries[e], selected[c]);
    VisitedStep(plan.entries, selected, e, c);
    if (plan.entries[e], selected[c]) !in present {
      full := full + [Row(plan.entries[e], selected[c], BudgetExhausted)];
    }
  }

  lemma {:induction false} FillStep(plan: Plan, rows: seq<Row>, full: seq<Row>, done: seq<(string, string)>,
                                    pr: string, id: string)
    requires Filling(plan, rows, full, done)
    ensures var longer := if (pr, id) in PairsOf(rows) then full else full + [Row(pr, id, BudgetExhausted)];
            Filling(plan, rows, longer, done + [(pr, id)])
  {
    MissingAppend(done, (pr, id), PairsOf(rows));
    AppendRow(plan, full, Row(pr, id, BudgetExhausted));
    Regroup(PairsOf(rows), Missing(done, PairsOf(rows)), (pr, id));
  }

  lemma {:induction false} Regroup(a: seq<(string, string)>, b: seq<(string, string)>, pair: (string, string))
    ensures a + (b + [pair]) == (a + b) + [pair] && a + (b + []) == a + b
  {
  }

  /** The explicit rows for every pair the sweep did not reach. */
  method FillRows(plan: Plan, selected: seq<string>, rows: seq<Row>) returns (full: seq<Row>)
    ensures Fills(plan, rows, full)
    ensures PairsOf(full) == PairsOf(rows) + Missing(Product(plan.entries, selected), PairsOf(rows))
  {
    var present := set pair | pair in PairsOf(rows);
    full := rows;
    for e := 0 to |plan.entries|
      invariant Filling(plan, rows, full, Product(plan.entries[..e], selected))
    {
      VisitedRound(plan.entries, selected, e);
      for c := 0 to |selected|
        invariant Filling(plan, rows, full, Visited(plan.entries, selected, e, c))
      {
        full := FillPair(plan, selected, rows, full, present, e, c);
      }
    }
    assert plan.entries[..|plan.entries|] == plan.entries;
  }

  /** Both ceilings leave room for this many calls. */
  predicate Fits(plan: Plan, calls: nat, perCall: nat) {
    calls <= plan.maxCalls && Worth(calls, perCall) <= plan.maxTokens
  }

  lemma {:induction false} FitsDownward(plan: Plan, fewer: nat, calls: nat, perCall: nat)
    requires fewer <= calls && Fits(plan, calls, perCall)
    ensures Fits(plan, fewer, perCall)
  {
    WorthMonotone(fewer, calls, perCall);
  }

  /** The progressive cut-offs: so many calls reach one of the ceilings. */
  predicate AtCeiling(plan: Plan, made: nat, perCall: nat) {
    made >= plan.maxCalls || made * perCall >= plan.maxTokens
  }

  /** Fewer calls than `limit` reach no ceiling. */
  ghost predicate Clears(plan: Plan, limit: nat, perCall: nat) {
    forall made: nat :: made < limit ==> !AtCeiling(plan, made, perCall)
  }

  /** The progressive call and token cut-offs never fire in a sweep that was let start:
      only the wall clock and a broken ledger stop it. */
  lemma {:induction false} CutOffsNeverFire(plan: Plan, calls: nat, perCall: nat)
    requires Fits(plan, calls, perCall) && perCall >= 1
    ensures Clears(plan, calls, perCall)
  {
    forall made: nat | made < calls ensures !AtCeiling(plan, made, perCall) {
      WorthMonotone(made, calls, perCall);
      WorthIsProduct(made, perCall);
    }
  }

  /** `_canary_row` with its `reserve_slot`: the ledger is written before the dispatch. */
  method CanaryRow(w: World, w0: World, callsMade: nat, perCall: nat, ghost sent: seq<nat>, budget: nat, now: Weather)
    returns (w1: World, made: nat, kind: Kind, died: bool)
    requires callsMade == Recorded(w) + |sent| && Spent(w, w0, sent, perCall)
    requires budget <= perCall
    ensures Metered(w, w1, perCall) && Recorded(w1) <= callsMade + 1
    ensures !died ==> Spent(w, w1, if kind.Called? then sent + [budget] else sent, perCall)
    ensures !died ==> (kind.NoCall? <==> !now.usable) && (kind.LedgerDown? <==> now.usable && !now.writable)
    ensures !died ==> (kind.Called? <==> now.usable && now.writable) && (kind.Called? ==> kind.scored == now.scores)
    ensures !died ==> made == callsMade + if kind.Called? then 1 else 0
    ensures died ==> !now.fate.Survives?
    ensures died ==> w1.wire == w.wire + sent || w1.wire == w.wire + (sent + [budget])
  {
    w1, made, kind, died := w0, callsMade, NoCall, false;
    if !now.usable {
      return;
    }
    if now.fate.DiesBeforeWrite? {
      died := true;
      return;
    }
    made := made + 1;
    if !now.writable {
      made := made - 1;
      kind := LedgerDown;
      return;
    }
    w1 := w1.(ledger := Counter(made));
    if now.fate.DiesBeforeDispatch? {
      died := true;
      return;
    }
    assert (w0.wire + [budget])[|w.wire|..] == w0.wire[|w.wire|..] + [budget];
    w1 := w1.(wire := w1.wire + [budget]);
    kind := Called(now.scores);
    died := now.fate.DiesAfterDispatch?;
  }

  /** The calls of a sweep so far, as the counter, the ledger and the rows tell them. */
  ghost predicate Account(plan: Plan, w: World, w1: World, rows: seq<Row>, callsMade: nat, perCall: nat) {
    && |Budgets(plan, rows)| <= |rows|
    && callsMade == Recorded(w) + |Budgets(plan, rows)|
    && Spent(w, w1, Budgets(plan, rows), perCall)
  }

  /** Every row so far is explained, and none of them ended the sweep. */
  ghost predicate Told(plan: Plan, n: nat, rows: seq<Row>, weather: nat -> Weather) {
    && Chronicle(plan, n, rows, weather, |rows|)
    && forall k :: 0 <= k < |rows| ==> rows[k].kind != LedgerDown
  }

  /** The clock stops the sweep: it ran out when the next pair, one that is not silenced, was due. */
  ghost predicate ClockStops(plan: Plan, selected: seq<string>, rows: seq<Row>, weather: nat -> Weather) {
    var all := Product(plan.entries, selected);
    && |rows| < |all| && weather(|rows|).elapsed && all[|rows|].1 in plan.conditions
    && !Silenced(plan.conditions[all[|rows|].1], Memory(|selected|, rows))
  }

  /** Every row so far is explained, and the sweep has to stop here. */
  ghost predicate Stopped(plan: Plan, selected: seq<string>, rows: seq<Row>, weather: nat -> Weather) {
    && Chronicle(plan, |selected|, rows, weather, |rows|)
    && (ClockStops(plan, selected, rows, weather) || (rows != [] && rows[|rows| - 1].kind == LedgerDown))
  }

  /** Every selected condition is declared and within the projection. */
  ghost predicate Projects(plan: Plan, selected: seq<string>, perCall: nat) {
    perCall >= 1 && forall id :: id in selected ==> id in plan.conditions && BudgetOf(plan, id) <= perCall
  }

  datatype Step = Rowed(kind: Kind) | Cut | Crash

  /** What one turn of the inner loop amounts to. */
  ghost predicate Visits(w: World, w1: World, plan: Plan, id: string, scored: map<string, bool>, rows: seq<Row>,
                         made: nat, perCall: nat, now: Weather, step: Step)
    requires id in plan.conditions
  {
    var sent := Budgets(plan, rows);
    match step
    case Crash =>
      !now.fate.Survives? && (w1.wire == w.wire + sent || w1.wire == w.wire + (sent + [BudgetOf(plan, id)]))
    case Cut =>
      && now.elapsed && !Silenced(plan.conditions[id], scored)
      && Spent(w, w1, sent, perCall) && made == Recorded(w) + |sent|
    case Rowed(kind) =>
      && (if Silenced(plan.conditions[id], scored) then kind == NotRun else kind == Verdict(now) && !now.elapsed)
      && var more := if kind.Called? then [BudgetOf(plan, id)] else [];
         Spent(w, w1, sent + more, perCall) && made == Recorded(w) + |sent| + |more|
  }

  /** One turn of the inner loop. */
  method VisitPair(w: World, w0: World, plan: Plan, id: string, scored: map<string, bool>, ghost rows: seq<Row>,
                   callsMade: nat, perCall: nat, ghost planned: nat, now: Weather)
    returns (w1: World, made: nat, step: Step)
    requires Projects(plan, [id], perCall) && id in plan.conditions
    requires Clears(plan, Recorded(w) + planned, perCall) && |rows| < planned
    requires Account(plan, w, w0, rows, callsMade, perCall)
    ensures Metered(w, w1, perCall) && Recorded(w1) <= Recorded(w) + planned
    ensures Visits(w, w1, plan, id, scored, rows, made, perCall, now, step)
  {
    assert id in [id];
    w1, made, step := w0, callsMade, Rowed(NotRun);
    if !Silenced(plan.conditions[id], scored) {
      if AtCeiling(plan, made, perCall) || now.elapsed {
        step := Cut;
        return;
      }
      var kind, died;
      w1, made, kind, died := CanaryRow(w, w1, made, perCall, Budgets(plan, rows), BudgetOf(plan, id), now);
      step := if died then Crash else Rowed(kind);
    }
  }

  datatype Progress = Running | Exhausted | Dead

  /** The sweep stands where the rows made are those of the pairs `done`. */
  ghost predicate Sweeping(w: World, w1: World, plan: Plan, selected: seq<string>, done: seq<(string, string)>,
                           rows: seq<Row>, callsMade: nat, perCall: nat, weather: nat -> Weather) {
    && PairsOf(rows) == done && done <= Product(plan.entries, selected)
    && Account(plan, w, w1, rows, callsMade, perCall)
    && Told(plan, |selected|, rows, weather)
  }

  /** What holds when a loop ends early. */
  ghost predicate Halted(w: World, w1: World, plan: Plan, selected: seq<string>, rows: seq<Row>, callsMade: nat,
                         perCall: nat, progress: Progress, weather: nat -> Weather) {
    && (progress.Dead? ==> !weather(|rows|).fate.Survives?)
    && (progress.Exhausted? ==>
          && PairsOf(rows) <= Product(plan.entries, selected)
          && Account(plan, w, w1, rows, callsMade, perCall)
          && Stopped(plan, selected, rows, weather))
  }

  /** What holds of the world whatever happens. */
  ghost predicate Bounded(w: World, w1: World, plan: Plan, selected: seq<string>, perCall: nat) {
    && Metered(w, w1, perCall) && Dispatched(plan, selected, w, w1)
    && Recorded(w1) <= Recorded(w) + |Product(plan.entries, selected)|
  }

  /** The dictionary when condition `c` of an entry is due: after the last one it is dropped. */
  ghost predicate Recalls(scored: map<string, bool>, selected: seq<string>, rows: seq<Row>, c: nat) {
    c < |selected| ==> scored == Memory(|selected|, rows)
  }

  /** The sweep stands before condition `c` of entry `e`. */
  ghost predicate AtPair(w: World, w0: World, plan: Plan, selected: seq<string>, e: nat, c: nat, rows: seq<Row>,
                         scored: map<string, bool>, callsMade: nat, perCall: nat, weather: nat -> Weather) {
    && e < |plan.entries| && c <= |selected|
    && Sweeping(w, w0, plan, selected, Visited(plan.entries, selected, e, c), rows, callsMade, perCall, weather)
    && Recalls(scored, selected, rows, c)
  }

  /** How the inner loop goes on after a step. */
  function ProgressAfter(step: Step): Progress {
    match step
    case Crash => Dead
    case Cut => Exhausted
    case Rowed(kind) => if kind.LedgerDown? then Exhausted else Running
  }

  /** What the inner loop leaves behind, whether it goes on or not. */
  ghost predicate Turned(w: World, w1: World, plan: Plan, selected: seq<string>, e: nat, c: nat, rows: seq<Row>,
                         scored: map<string, bool>, made: nat, perCall: nat, progress: Progress, weather: nat -> Weather) {
    && Dispatched(plan, selected, w, w1)
    && if progress.Running? then AtPair(w, w1, plan, selected, e, c, rows, scored, made, perCall, weather)
       else Halted(w, w1, plan, selected, rows, made, perCall, progress, weather)
  }

  /** One iteration of the inner loop. */
  method Turn(w: World, w0: World, plan: Plan, selected: seq<string>, e: nat, c: nat, rows0: seq<Row>,
              scored0: map<string, bool>, callsMade: nat, perCall: nat, weather: nat -> Weather)
    returns (w1: World, rows: seq<Row>, scored: map<string, bool>, made: nat, progress: Progress)
    requires c < |selected| && Projects(plan, selected, perCall)
    requires Clears(plan, Recorded(w) + |Product(plan.entries, selected)|, perCall)
    requires AtPair(w, w0, plan, selected, e, c, rows0, scored0, callsMade, perCall, weather)
    ensures Metered(w, w1, perCall) && Recorded(w1) <= Recorded(w) + |Product(plan.entries, selected)|
    ensures Turned(w, w1, plan, selected, e, c + 1, rows, scored, made, perCall, progress, weather)
  {
    NextPair(plan, selected, e, c, rows0);
    var step;
    w1, made, step := VisitPair(w, w0, plan, selected[c], scored0, rows0, callsMade, perCall,
                                |Product(plan.entries, selected)|, weather(|rows0|));
    if step.Rowed? {
      var row := Row(plan.entries[e], selected[c], step.kind);
      RowedTurn(w, w0, w1, plan, selected, e, c, rows0, row, scored0, callsMade, made, perCall, weather);
      rows, scored, progress := rows0 + [row], After(scored0, row), ProgressAfter(step);
    } else {
      EndedTurn(w, w0, w1, plan, selected, e, c, rows0, scored0, callsMade, made, perCall, weather, step);
      rows, scored, progress := rows0, scored0, ProgressAfter(step);
    }
  }

  lemma {:induction false} EndedTurn(w: World, w0: World, w1: World, plan: Plan, selected: seq<string>, e: nat, c: nat,
                                     rows: seq<Row>, scored: map<string, bool>, before: nat, made: nat,
                                     perCall: nat, weather: nat -> Weather, step: Step)
    requires c < |selected| && AtPair(w, w0, plan, selected, e, c, rows, scored, before, perCall, weather)
    requires selected[c] in plan.conditions && !step.Rowed?
    requires Visits(w, w1, plan, selected[c], scored, rows, made, perCall, weather(|rows|), step)
    ensures Turned(w, w1, plan, selected, e, c + 1, rows, scored, made, perCall, ProgressAfter(step), weather)
  {
    NextPair(plan, selected, e, c, rows);
    VisitDispatches(w, w1, plan, selected, plan.entries[e], selected[c], scored, rows, made, perCall, weather(|rows|), step);
  }

  lemma {:induction false} RowedTurn(w: World, w0: World, w1: World, plan: Plan, selected: seq<string>, e: nat, c: nat,
                                     rows: seq<Row>, r: Row, scored: map<string, bool>, before: nat, made: nat,
                                     perCall: nat, weather: nat -> Weather)
    requires c < |selected| && AtPair(w, w0, plan, selected, e, c, rows, scored, before, perCall, weather)
    requires r.pr == plan.entries[e] && r.condition == selected[c] && selected[c] in plan.conditions
    requires Visits(w, w1, plan, r.condition, scored, rows, made, perCall, weather(|rows|), Rowed(r.kind))
    ensures Turned(w, w1, plan, selected, e, c + 1, rows + [r], After(scored, r), made, perCall,
                   ProgressAfter(Rowed(r.kind)), weather)
  {
    NextPair(plan, selected, e, c, rows);
    VisitDispatches(w, w1, plan, selected, r.pr, r.condition, scored, rows, made, perCall, weather(|rows|), Rowed(r.kind));
    RowStep(w, w1, plan, selected, e, c, rows, r, made, perCall, weather);
    MemoryStep(plan.entries, selected, e, c, rows, r);
  }

  lemma {:induction false} VisitDispatches(w: World, w1: World, plan: Plan, selected: seq<string>, pr: string, id: string,
                                           scored: map<string, bool>, rows: seq<Row>, made: nat, perCall: nat,
                                           now: Weather, step: Step)
    requires id in plan.conditions && PairsOf(rows) + [(pr, id)] <= Product(plan.entries, selected)
    requires Visits(w, w1, plan, id, scored, rows, made, perCall, now, step)
    ensures Dispatched(plan, selected, w, w1)
  {
    if w1.wire == w.wire + Budgets(plan, rows) {
      assert PairsOf(rows) <= Product(plan.entries, selected);
    } else {
      AppendRow(plan, rows, Row(pr, id, Called(false)));
    }
  }

  /** The pair that is due. */
  lemma {:induction false} NextPair(plan: Plan, selected: seq<string>, e: nat, c: nat, rows: seq<Row>)
    requires e < |plan.entries| && c < |selected| && PairsOf(rows) == Visited(plan.entries, selected, e, c)
    ensures PairsOf(rows) + [(plan.entries[e], selected[c])] <= Product(plan.entries, selected)
    ensures |rows| < |Product(plan.entries, selected)|
    ensures Product(plan.entries, selected)[|rows|] == (plan.entries[e], selected[c])
    ensures Visited(plan.entries, selected, e, c + 1) == PairsOf(rows) + [(plan.entries[e], selected[c])]
  {
    VisitedStep(plan.entries, selected, e, c);
    VisitedIsPrefix(plan.entries, selected, e, c + 1);
    var longer := PairsOf(rows) + [(plan.entries[e], selected[c])];
    assert Product(plan.entries, selected)[|rows|] == longer[|rows|];
  }

  /** One more row keeps the sweep in step, or ends it. */
  lemma {:induction false} RowStep(w: World, w1: World, plan: Plan, selected: seq<string>, e: nat, c: nat, rows: seq<Row>,
                                   r: Row, made: nat, perCall: nat, weather: nat -> Weather)
    requires e < |plan.entries| && c < |selected|
    requires PairsOf(rows) == Visited(plan.entries, selected, e, c)
    requires PairsOf(rows) + [(r.pr, r.condition)] <= Product(plan.entries, selected)
    requires Visited(plan.entries, selected, e, c + 1) == PairsOf(rows) + [(r.pr, r.condition)]
    requires |Budgets(plan, rows)| <= |rows| && Told(plan, |selected|, rows, weather)
    requires made == Recorded(w) + |Budgets(plan, rows)| + if r.kind.Called? then 1 else 0
    requires Spent(w, w1, Budgets(plan, rows) + if r.kind.Called? then [BudgetOf(plan, r.condition)] else [], perCall)
    requires Explained(plan, |selected|, rows, r, weather(|rows|))
    ensures r.kind != LedgerDown ==>
              Sweeping(w, w1, plan, selected, Visited(plan.entries, selected, e, c + 1), rows + [r], made, perCall, weather)
    ensures r.kind == LedgerDown ==> Halted(w, w1, plan, selected, rows + [r], made, perCall, Exhausted, weather)
  {
    AppendRow(plan, rows, r);
    ChronicleAppend(plan, |selected|, rows, weather, r);
  }

  /** The dictionary follows the rows until the entry is done. */
  lemma {:induction false} MemoryStep(entries: seq<string>, selected: seq<string>, e: nat, c: nat, rows: seq<Row>, r: Row)
    requires e < |entries| && c < |selected| && |rows| == |Visited(entries, selected, e, c)|
    ensures Recalls(After(Memory(|selected|, rows), r), selected, rows + [r], c + 1)
  {
    if c + 1 < |selected| {
      VisitedStep(entries, selected, e, c);
      InRoundOfVisited(entries, selected, e, c + 1);
      assert (rows + [r])[..|rows|] == rows;
    }
  }

  /** A new entry starts with an empty dictionary. */
  lemma {:induction false} MemoryStarts(entries: seq<string>, selected: seq<string>, e: nat, rows: seq<Row>)
    requires e < |entries| && PairsOf(rows) == Visited(entries, selected, e, 0)
    ensures Recalls(map[], selected, rows, 0)
  {
    if selected != [] {
      InRoundOfVisited(entries, selected, e, 0);
    }
  }

  /** The inner loop of the sweep, for one entry. */
  method SweepEntry(w: World, w0: World, plan: Plan, selected: seq<string>, e: nat, rows0: seq<Row>,
                    callsMade: nat, perCall: nat, weather: nat -> Weather)
    returns (w1: World, rows: seq<Row>, made: nat, progress: Progress)
    requires e < |plan.entries| && Projects(plan, selected, perCall)
    requires Clears(plan, Recorded(w) + |Product(plan.entries, selected)|, perCall)
    requires Sweeping(w, w0, plan, selected, Product(plan.entries[..e], selected), rows0, callsMade, perCall, weather)
    requires Bounded(w, w0, plan, selected, perCall)
    ensures Bounded(w, w1, plan, selected, perCall)
    ensures Halted(w, w1, plan, selected, rows, made, perCall, progress, weather)
    ensures progress.Running? ==>
              Sweeping(w, w1, plan, selected, Product(plan.entries[..e + 1], selected), rows, made, perCall, weather)
  {
    w1, rows, made, progress := w0, rows0, callsMade, Running;
    var scored: map<string, bool> := map[];
    VisitedRound(plan.entries, selected, e);
    MemoryStarts(plan.entries, selected, e, rows);
    for c := 0 to |selected|
      invariant AtPair(w, w1, plan, selected, e, c, rows, scored, made, perCall, weather)
      invariant progress.Running? && Bounded(w, w1, plan, selected, perCall)
    {
      w1, rows, scored, made, progress := Turn(w, w1, plan, selected, e, c, rows, scored, made, perCall, weather);
      if !progress.Running? {
        return;
      }
    }
  }

  /** The filler rows continue a stopped tale. */
  lemma {:induction false} FillerTail(plan: Plan, n: nat, rows: seq<Row>, full: seq<Row>, weather: nat -> Weather)
    requires Chronicle(plan, n, rows, weather, |rows|) && Fills(plan, rows, full)
    ensures Chronicle(plan, n, full, weather, |rows|)
  {
    forall k: nat | k < |rows| ensures ExplainedAt(plan, n, full, weather, k) && full[k] == rows[k] {
      assert full[k] == full[..|rows|][k] && full[..k] == rows[..k];
      assert ExplainedAt(plan, n, rows, weather, k);
    }
  }

  lemma {:induction false} SelectedWithinProjection(plan: Plan, selected: seq<string>)
    requires ValidPlan(plan) && forall id :: id in selected ==> id in plan.conditions
    ensures Projects(plan, selected, PerCall(plan))
  {
    forall id | id in selected ensures BudgetOf(plan, id) <= PerCall(plan) {
      var i :| 0 <= i < |plan.order| && plan.order[i] == id;
      assert PlanBudgets(plan)[i] in PlanBudgets(plan);
    }
  }

  /** The outer loop of the sweep. */
  method Sweep(w: World, plan: Plan, selected: seq<string>, perCall: nat, weather: nat -> Weather)
    returns (w1: World, rows: seq<Row>, made: nat, progress: Progress)
    requires Projects(plan, selected, perCall)
    requires Clears(plan, Recorded(w) + |Product(plan.entries, selected)|, perCall)
    ensures Bounded(w, w1, plan, selected, perCall)
    ensures Halted(w, w1, plan, selected, rows, made, perCall, progress, weather)
    ensures progress.Running? ==>
              Sweeping(w, w1, plan, selected, Product(plan.entries, selected), rows, made, perCall, weather)
  {
    w1, rows, made, progress := w, [], Recorded(w), Running;
    NothingDispatched(plan, selected, w);
    for e := 0 to |plan.entries|
      invariant Sweeping(w, w1, plan, selected, Product(plan.entries[..e], selected), rows, made, perCall, weather)
      invariant progress.Running? && Bounded(w, w1, plan, selected, perCall)
    {
      w1, rows, made, progress := SweepEntry(w, w1, plan, selected, e, rows, made, perCall, weather);
      if !progress.Running? {
        return;
      }
    }
    assert plan.entries[..|plan.entries|] == plan.entries;
  }

  lemma {:induction false} NothingDispatched(plan: Plan, selected: seq<string>, w: World)
    ensures Dispatched(plan, selected, w, w)
  {
    assert PairsOf([]) <= Product(plan.entries, selected) && w.wire == w.wire + Budgets(plan, []);
  }

  /** A finished sweep: the first `stop` pairs have their rows in loop order, each of them
      explained, and every pair that has no row among them has a filler. The sweep ended
      because it had visited everything, the wall clock ran out, or the ledger could not
      be written. */
  ghost predicate CompleteAt(plan: Plan, selected: seq<string>, rows: seq<Row>, weather: nat -> Weather,
                             exhausted: bool, stop: nat) {
    var all := Product(plan.entries, selected);
    && stop <= |all| && Chronicle(plan, |selected|, rows, weather, stop)
    && PairsOf(rows) == all[..stop] + Missing(all, all[..stop])
    && if exhausted then ClockStops(plan, selected, rows[..stop], weather) || (stop > 0 && rows[stop - 1].kind == LedgerDown)
       else stop == |all| && forall k :: 0 <= k < stop ==> rows[k].kind != LedgerDown
  }

  ghost predicate Complete(plan: Plan, selected: seq<string>, rows: seq<Row>, weather: nat -> Weather, exhausted: bool) {
    exists stop :: CompleteAt(plan, selected, rows, weather, exhausted, stop)
  }

  lemma {:induction false} SweptIsComplete(plan: Plan, selected: seq<string>, rows: seq<Row>, weather: nat -> Weather)
    requires PairsOf(rows) == Product(plan.entries, selected) && Told(plan, |selected|, rows, weather)
    ensures CompleteAt(plan, selected, rows, weather, false, |rows|)
  {
    var all := Product(plan.entries, selected);
    assert all[..|rows|] == all;
    NothingMissing(all, all);
  }

  lemma {:induction false} FilledIsComplete(plan: Plan, selected: seq<string>, rows: seq<Row>, full: seq<Row>,
                                            weather: nat -> Weather)
    requires PairsOf(rows) <= Product(plan.entries, selected) && Stopped(plan, selected, rows, weather)
    requires Fills(plan, rows, full)
    requires PairsOf(full) == PairsOf(rows) + Missing(Product(plan.entries, selected), PairsOf(rows))
    ensures CompleteAt(plan, selected, full, weather, true, |rows|)
  {
    FillerTail(plan, |selected|, rows, full, weather);
    assert Product(plan.entries, selected)[..|rows|] == PairsOf(rows) && full[..|rows|] == rows;
  }

  /** Every pair has its row, in loop order, in a sweep that visited everything; and in any
      other one exactly one, when no entry and no condition is repeated. */
  lemma {:induction false} RowsInLoopOrder(plan: Plan, selected: seq<string>, rows: seq<Row>, weather: nat -> Weather,
                                           exhausted: bool, stop: nat)
    requires CompleteAt(plan, selected, rows, weather, exhausted, stop)
    ensures !exhausted || (Distinct(plan.entries) && Distinct(selected)) ==> PairsOf(rows) == Product(plan.entries, selected)
    ensures Distinct(plan.entries) && Distinct(selected) ==> Distinct(PairsOf(rows))
  {
    var all := Product(plan.entries, selected);
    if !exhausted {
      assert all[..stop] == all;
      NothingMissing(all, all);
    }
    if Distinct(plan.entries) && Distinct(selected) {
      ProductDistinct(plan.entries, selected);
      MissingIsTheRest(all, all[..stop]);
    }
  }

  /** The sweep and the fillers of an invocation that was let start. */
  method Conduct(w: World, plan: Plan, selected: seq<string>, perCall: nat, ghost worst: nat, weather: nat -> Weather)
    returns (w1: World, rows: seq<Row>, outcome: Outcome)
    requires Projects(plan, selected, perCall)
    requires Fits(plan, worst, perCall) && worst == Recorded(w) + |Product(plan.entries, selected)|
    ensures outcome.Died? || outcome.Done?
    ensures Bounded(w, w1, plan, selected, perCall) && Fits(plan, Recorded(w1), perCall)
    ensures outcome.Done? ==> Spent(w, w1, Budgets(plan, rows), perCall)
    ensures outcome.Died? ==> exists k: nat :: !weather(k).fate.Survives?
    ensures outcome.Done? ==> Complete(plan, selected, rows, weather, outcome.exhausted)
  {
    var progress, made;
    CutOffsNeverFire(plan, worst, perCall);
    w1, rows, made, progress := Sweep(w, plan, selected, perCall, weather);
    FitsDownward(plan, Recorded(w1), worst, perCall);
    match progress
    case Dead =>
      assert !weather(|rows|).fate.Survives?;
      outcome := Died;
    case Running =>
      outcome := Done(false);
      SweptIsComplete(plan, selected, rows, weather);
    case Exhausted =>
      outcome := Done(true);
      ghost var reached := rows;
      rows := FillRows(plan, selected, rows);
      FilledIsComplete(plan, selected, reached, rows, weather);
  }

  /** The lookup of the requested conditions. */
  method LookUp(plan: Plan, ids: seq<string>) returns (known: bool)
    ensures known <==> forall id :: id in ids ==> id in plan.conditions
  {
    known := true;
    for i := 0 to |ids|
      invariant known <==> forall j :: 0 <= j < i ==> ids[j] in plan.conditions
    {
      if ids[i] !in plan.conditions {
        known := false;
        return;
      }
    }
  }

  /** The pre-flight refusal: prior spend that cannot be read, or a worst case over a ceiling. */
  predicate RefusedBeforeStart(w: World, plan: Plan, worst: nat, perCall: nat) {
    w.ledger.Malformed? || !Fits(plan, worst, perCall)
  }

  /** The calls already spent and the most that this invocation can add. */
  function WorstCase(w: World, plan: Plan, selected: seq<string>): nat {
    Recorded(w) + |plan.entries| * |selected|
  }

  lemma {:induction false} WorstCaseIs(w: World, plan: Plan, selected: seq<string>)
    ensures WorstCase(w, plan, selected) == Recorded(w) + |Product(plan.entries, selected)|
  {
    ProductLength(plan.entries, selected);
    StartIsProduct(|plan.entries|, |selected|);
  }

  /** The projection of a plan. */
  method Project(plan: Plan) returns (perCall: nat)
    requires ValidPlan(plan)
    ensures perCall == PerCall(plan)
  {
    var ds := Declarations(plan, plan.order);
    var completion, prompt, records := ProjectSpendBudget(ds);
    ProjectionIs(plan, completion, Completions(Records(ds)));
    perCall := completion.tokens;
  }

  lemma {:induction false} ProjectionIs(plan: Plan, completion: Budget, budgets: seq<Budget>)
    requires ValidPlan(plan) && budgets == PlanBudgets(plan) && Aggregates(completion, budgets, SCORER_MAX_TOKENS)
    ensures completion.tokens == PerCall(plan)
  {
    AggregateUnique(completion, Aggregate(budgets, SCORER_MAX_TOKENS), budgets, SCORER_MAX_TOKENS);
  }

  /** What is decided before the sweep. */
  method Decide(w: World, plan: Plan, selected: seq<string>) returns (known: bool, refused: bool, perCall: nat)
    requires ValidPlan(plan)
    ensures known <==> forall id :: id in selected ==> id in plan.conditions
    ensures known ==> perCall == PerCall(plan)
    ensures known ==> (refused <==> RefusedBeforeStart(w, plan, WorstCase(w, plan, selected), perCall))
  {
    refused, perCall := false, 0;
    known := LookUp(plan, selected);
    if known {
      perCall := Project(plan);
      var worst := WorstCase(w, plan, selected);
      refused := RefusedBeforeStart(w, plan, worst, perCall);
    }
  }

  /** `cmd_canary` from the condition lookup to the results record. */
  method RunCanary(w: World, plan: Plan, requested: seq<string>, weather: nat -> Weather)
    returns (w1: World, rows: seq<Row>, outcome: Outcome)
    requires ValidPlan(plan)
    ensures outcome.UnknownCondition? <==> exists id :: id in requested && id !in plan.conditions
    ensures outcome.Refused? <==> !outcome.UnknownCondition? && RefusedBeforeStart(
              w, plan, WorstCase(w, plan, Selected(plan, requested)), PerCall(plan))
    ensures outcome.UnknownCondition? || outcome.Refused? ==> w1 == w && rows == []
    ensures Bounded(w, w1, plan, Selected(plan, requested), PerCall(plan))
    ensures outcome.Done? || outcome.Died? ==> Fits(plan, Recorded(w1), PerCall(plan))
    ensures outcome.Done? ==> Spent(w, w1, Budgets(plan, rows), PerCall(plan))
    ensures outcome.Died? ==> exists k: nat :: !weather(k).fate.Survives?
    ensures outcome.Done? ==>
              Complete(plan, if requested == [] then plan.order else requested, rows, weather, outcome.exhausted)
  {
    var selected := Selected(plan, requested);
    w1, rows := w, [];
    NothingDispatched(plan, selected, w);
    var known, refused, perCall := Decide(w, plan, selected);
    if !known {
      outcome := UnknownCondition;
    } else if refused {
      outcome := Refused;
    } else {
      SelectedWithinProjection(plan, selected);
      WorstCaseIs(w, plan, selected);
      w1, rows, outcome := Conduct(w, plan, selected, perCall, WorstCase(w, plan, selected), weather);
    }
  }

  // ---------------------------------------------------------------- what the rows mean

  /** A row that was reached: silenced, which only a fallback can be, or what its retained
      evidence, the ledger and the answer made of it, in this order. */
  lemma {:induction false} ReachedRow(plan: Plan, selected: seq<string>, rows: seq<Row>, weather: nat -> Weather,
                                      exhausted: bool, stop: nat, k: nat)
    requires CompleteAt(plan, selected, rows, weather, exhausted, stop) && k < stop
    ensures rows[k].condition in plan.conditions
    ensures rows[k].kind == NotRun ==> plan.conditions[rows[k].condition].role.Fallback?
    ensures rows[k].kind != NotRun ==>
              && !weather(k).elapsed
              && (rows[k].kind == NoCall <==> !weather(k).usable)
              && (rows[k].kind == LedgerDown <==> weather(k).usable && !weather(k).writable)
              && (forall s :: rows[k].kind == Called(s) <==> weather(k).usable && weather(k).writable && weather(k).scores == s)
  {
    assert ExplainedAt(plan, |selected|, rows, weather, k);
  }

  /** Why a sweep stopped early: the clock ran out when a pair was due, or a row with usable
      evidence found the ledger unwritable. Such a row is always the last one. */
  lemma {:induction false} WhyStopped(plan: Plan, selected: seq<string>, rows: seq<Row>, weather: nat -> Weather,
                                      exhausted: bool, stop: nat)
    requires CompleteAt(plan, selected, rows, weather, exhausted, stop)
    ensures exhausted ==>
              || (stop < |plan.entries| * |selected| && weather(stop).elapsed)
              || (stop > 0 && rows[stop - 1].kind != NotRun && weather(stop - 1).usable && !weather(stop - 1).writable)
    ensures forall k: nat :: k < stop && rows[k].kind != NotRun && weather(k).usable && !weather(k).writable ==>
              exhausted && k == stop - 1
    ensures !exhausted ==> stop == |plan.entries| * |selected|
    ensures forall k :: stop <= k < |rows| ==> rows[k].kind == BudgetExhausted
  {
    ProductLength(plan.entries, selected);
    StartIsProduct(|plan.entries|, |selected|);
    forall k: nat | k < stop && rows[k].kind != NotRun && weather(k).usable && !weather(k).writable
      ensures exhausted && k == stop - 1
    {
      ReachedRow(plan, selected, rows, weather, exhausted, stop, k);
    }
    if stop > 0 {
      ReachedRow(plan, selected, rows, weather, exhausted, stop, stop - 1);
    }
  }

  // ---------------------------------------------------------------- fallbacks

  /** The row of entry `e` under condition `c`. */
  lemma {:induction false} RowAt(plan: Plan, selected: seq<string>, rows: seq<Row>, weather: nat -> Weather,
                                 exhausted: bool, stop: nat, e: nat, c: nat)
    requires CompleteAt(plan, selected, rows, weather, exhausted, stop)
    requires e < |plan.entries| && c < |selected| && Start(e, |selected|) + c < stop
    ensures StandsAt(rows, Start(e, |selected|) + c, plan.entries[e], selected[c])
  {
    SlotAt(plan.entries, selected, e, c);
    assert PairsOf(rows)[Start(e, |selected|) + c] == (plan.entries[e], selected[c]);
  }

  predicate StandsAt(rows: seq<Row>, k: nat, pr: string, id: string) {
    k < |rows| && rows[k].pr == pr && rows[k].condition == id
  }

  /** From position `s` on, the rows of one entry stand in the order of the conditions. */
  ghost predicate InOrder(rows: seq<Row>, pr: string, selected: seq<string>, s: nat, c: nat) {
    && s + c <= |rows| && c <= |selected|
    && forall j: nat :: j < c ==> StandsAt(rows, s + j, pr, selected[j])
  }

  lemma {:induction false} EarlierRows(plan: Plan, selected: seq<string>, rows: seq<Row>, weather: nat -> Weather,
                                       exhausted: bool, stop: nat, e: nat, c: nat)
    requires CompleteAt(plan, selected, rows, weather, exhausted, stop)
    requires e < |plan.entries| && c < |selected| && Start(e, |selected|) + c < stop
    ensures InOrder(rows, plan.entries[e], selected, Start(e, |selected|), c)
  {
    forall j: nat | j < c ensures StandsAt(rows, Start(e, |selected|) + j, plan.entries[e], selected[j])
    {
      RowAt(plan, selected, rows, weather, exhausted, stop, e, j);
    }
  }

  /** The dictionary at condition `c` of an entry holds a condition as scored exactly when
      its row was made earlier in the same entry and its call scored. */
  lemma {:induction false} MemoryOf(selected: seq<string>, rows: seq<Row>, pr: string, e: nat, c: nat, i: nat)
    requires Distinct(selected) && c < |selected| && i < |selected|
    requires InOrder(rows, pr, selected, Start(e, |selected|), c)
    ensures var scored := Memory(|selected|, rows[..Start(e, |selected|) + c]);
            (selected[i] in scored && scored[selected[i]]) <==>
            (i < c && rows[Start(e, |selected|) + i].kind == Called(true))
  {
    var s := Start(e, |selected|);
    InRoundOf(e, c, |selected|);
    if c > 0 {
      MemoryOf(selected, rows, pr, e, c - 1, i);
      var before := rows[..s + c];
      assert before[..|before| - 1] == rows[..s + c - 1] && before[|before| - 1] == rows[s + c - 1];
      assert Memory(|selected|, before) == After(Memory(|selected|, rows[..s + c - 1]), rows[s + c - 1]);
      assert StandsAt(rows, s + (c - 1), pr, selected[c - 1]);
    }
  }

  /** Condition `id` took its last turn so far at `p`, and its call scored. */
  predicate LastScored(selected: seq<string>, rows: seq<Row>, s: nat, c: nat, p: nat, id: string)
    requires c <= |selected| && s + c <= |rows|
  {
    && p < c && selected[p] == id && rows[s + p].kind == Called(true)
    && forall l: nat :: p < l < c && selected[l] == id ==> rows[s + l].kind == NotRun
  }

  lemma {:induction false} MemoryTells(selected: seq<string>, rows: seq<Row>, pr: string, e: nat, c: nat, id: string)
    requires c < |selected| && InOrder(rows, pr, selected, Start(e, |selected|), c)
    ensures var s := Start(e, |selected|);
            var scored := Memory(|selected|, rows[..s + c]);
            (id in scored && scored[id]) <==> exists p: nat :: LastScored(selected, rows, s, c, p, id)
  {
    var s := Start(e, |selected|);
    InRoundOf(e, c, |selected|);
    if c > 0 {
      var d := c - 1;
      MemoryTells(selected, rows, pr, e, d, id);
      MemoryGrows(|selected|, rows, s + d);
      assert StandsAt(rows, s + d, pr, selected[d]);
      OneTurnMore(selected, rows, s, d, c, id);
    }
  }

  lemma {:induction false} MemoryGrows(n: nat, rows: seq<Row>, k: nat)
    requires k < |rows| && n > 0 && InRound(k + 1, n) != 0
    ensures Memory(n, rows[..k + 1]) == After(Memory(n, rows[..k]), rows[k])
  {
    assert rows[..k + 1][..k] == rows[..k];
  }

  lemma {:induction false} OneTurnMore(selected: seq<string>, rows: seq<Row>, s: nat, d: nat, c: nat, id: string)
    requires c == d + 1 <= |selected| && s + c <= |rows|
    ensures (exists p: nat :: LastScored(selected, rows, s, c, p, id)) <==>
            if selected[d] == id && rows[s + d].kind != NotRun then rows[s + d].kind == Called(true)
            else exists p: nat :: LastScored(selected, rows, s, d, p, id)
  {
    if p: nat :| LastScored(selected, rows, s, d, p, id) {
      assert (selected[d] == id && rows[s + d].kind != NotRun) || LastScored(selected, rows, s, c, p, id);
    }
    if p: nat :| LastScored(selected, rows, s, c, p, id) {
      assert p == d || LastScored(selected, rows, s, d, p, id);
    }
    if selected[d] == id && rows[s + d].kind == Called(true) {
      assert LastScored(selected, rows, s, c, d, id);
    }
  }

  /** A condition is silenced exactly when it is a fallback and its primary had its turn
      before it in the same entry, the last time with a call that scored. */
  lemma {:induction false} SilencedIff(plan: Plan, selected: seq<string>, rows: seq<Row>, weather: nat -> Weather,
                                       exhausted: bool, stop: nat, e: nat, f: nat)
    requires CompleteAt(plan, selected, rows, weather, exhausted, stop)
    requires e < |plan.entries| && f < |selected| && Start(e, |selected|) + f < stop
    ensures var s := Start(e, |selected|);
            && selected[f] in plan.conditions && s + f <= |rows|
            && (rows[s + f].kind == NotRun <==>
                plan.conditions[selected[f]].role.Fallback? &&
                exists p: nat :: LastScored(selected, rows, s, f, p, plan.conditions[selected[f]].role.target))
  {
    RowAt(plan, selected, rows, weather, exhausted, stop, e, f);
    ReachedRow(plan, selected, rows, weather, exhausted, stop, Start(e, |selected|) + f);
    if plan.conditions[selected[f]].role.Fallback? {
      var target := plan.conditions[selected[f]].role.target;
      SilencedRow(plan, |selected|, rows, weather, stop, Start(e, |selected|) + f, target);
      EarlierRows(plan, selected, rows, weather, exhausted, stop, e, f);
      MemoryTells(selected, rows, plan.entries[e], e, f, target);
    }
  }

  /** What becomes of a fallback whose primary is selected too: it is silenced exactly when
      the row of its primary stands before it and its call scored. */
  lemma {:induction false} FallbackRow(plan: Plan, selected: seq<string>, rows: seq<Row>, weather: nat -> Weather,
                                       exhausted: bool, stop: nat, e: nat, f: nat, p: nat)
    requires CompleteAt(plan, selected, rows, weather, exhausted, stop)
    requires Distinct(selected) && e < |plan.entries| && f < |selected| && p < |selected|
    requires selected[f] in plan.conditions && plan.conditions[selected[f]].role == Fallback(selected[p])
    requires Start(e, |selected|) + f < stop
    ensures rows[Start(e, |selected|) + f].kind == NotRun <==>
            (p < f && rows[Start(e, |selected|) + p].kind == Called(true))
  {
    RowAt(plan, selected, rows, weather, exhausted, stop, e, f);
    MemoryAt(plan, selected, rows, weather, exhausted, stop, e, f, p);
    SilencedRow(plan, |selected|, rows, weather, stop, Start(e, |selected|) + f, selected[p]);
  }

  lemma {:induction false} MemoryAt(plan: Plan, selected: seq<string>, rows: seq<Row>, weather: nat -> Weather,
                                    exhausted: bool, stop: nat, e: nat, c: nat, i: nat)
    requires CompleteAt(plan, selected, rows, weather, exhausted, stop)
    requires Distinct(selected) && e < |plan.entries| && c < |selected| && i < |selected|
    requires Start(e, |selected|) + c < stop
    ensures var scored := Memory(|selected|, rows[..Start(e, |selected|) + c]);
            (selected[i] in scored && scored[selected[i]]) <==>
            (i < c && rows[Start(e, |selected|) + i].kind == Called(true))
  {
    EarlierRows(plan, selected, rows, weather, exhausted, stop, e, c);
    MemoryOf(selected, rows, plan.entries[e], e, c, i);
  }

  lemma {:induction false} SilencedRow(plan: Plan, n: nat, rows: seq<Row>, weather: nat -> Weather, stop: nat, k: nat,
                                       primary: string)
    requires Chronicle(plan, n, rows, weather, stop) && k < stop && rows[k].condition in plan.conditions
    requires plan.conditions[rows[k].condition].role == Fallback(primary)
    ensures var scored := Memory(n, rows[..k]);
            rows[k].kind == NotRun <==> primary in scored && scored[primary]
  {
    assert ExplainedAt(plan, n, rows, weather, k);
  }

  /** A fallback looks its primary up among the rows of its entry already made: selected no
      later than its primary, it is never silenced, whatever the primary goes on to score. */
  lemma {:induction false} FallbackBeforePrimary(plan: Plan, selected: seq<string>, rows: seq<Row>, weather: nat -> Weather,
                                                 exhausted: bool, stop: nat, e: nat, f: nat, p: nat)
    requires CompleteAt(plan, selected, rows, weather, exhausted, stop)
    requires Distinct(selected) && e < |plan.entries| && f <= p < |selected|
    requires selected[f] in plan.conditions && plan.conditions[selected[f]].role == Fallback(selected[p])
    ensures var k := Start(e, |selected|) + f;
            && (k < stop ==> StandsAt(rows, k, plan.entries[e], selected[f]))
            && (k < |rows| ==> rows[k].kind != NotRun)
  {
    if Start(e, |selected|) + f < stop {
      RowAt(plan, selected, rows, weather, exhausted, stop, e, f);
      FallbackRow(plan, selected, rows, weather, exhausted, stop, e, f, p);
    }
  }

  /** Selected after its primary, it runs exactly when the primary's call did not score. */
  lemma {:induction false} FallbackAfterPrimary(plan: Plan, selected: seq<string>, rows: seq<Row>, weather: nat -> Weather,
                                                exhausted: bool, stop: nat, e: nat, p: nat, f: nat)
    requires CompleteAt(plan, selected, rows, weather, exhausted, stop)
    requires Distinct(selected) && e < |plan.entries| && p < f < |selected|
    requires selected[f] in plan.conditions && plan.conditions[selected[f]].role == Fallback(selected[p])
    requires Start(e, |selected|) + f < stop
    ensures var k, q := Start(e, |selected|) + f, Start(e, |selected|) + p;
            && StandsAt(rows, k, plan.entries[e], selected[f]) && StandsAt(rows, q, plan.entries[e], selected[p])
            && (rows[k].kind == NotRun <==> rows[q].kind == Called(true))
  {
    RowAt(plan, selected, rows, weather, exhausted, stop, e, f);
    RowAt(plan, selected, rows, weather, exhausted, stop, e, p);
    FallbackRow(plan, selected, rows, weather, exhausted, stop, e, f, p);
  }

  // ---------------------------------------------------------------- what a run is worth

  /** The budgets of one call for every pair. */
  function FullBudgets(plan: Plan, pairs: seq<(string, string)>): seq<nat> {
    if pairs == [] then []
    else FullBudgets(plan, pairs[..|pairs| - 1]) + [BudgetOf(plan, pairs[|pairs| - 1].1)]
  }

  /** The tokens of one call for every entry and selected condition. */
  function WorstTokens(plan: Plan, selected: seq<string>): nat {
    |plan.entries| * Tokens(SelectedBudgets(plan, selected))
  }

  function SelectedBudgets(plan: Plan, selected: seq<string>): seq<nat> {
    if selected == [] then []
    else SelectedBudgets(plan, selected[..|selected| - 1]) + [BudgetOf(plan, selected[|selected| - 1])]
  }

  lemma {:induction false} FullBudgetsAppend(plan: Plan, a: seq<(string, string)>, b: seq<(string, string)>)
    ensures FullBudgets(plan, a + b) == FullBudgets(plan, a) + FullBudgets(plan, b)
  {
    if b == [] {
      assert a + b == a;
    } else {
      assert (a + b)[..|a + b| - 1] == a + b[..|b| - 1];
      FullBudgetsAppend(plan, a, b[..|b| - 1]);
    }
  }

  lemma {:induction false} BudgetsOfRound(plan: Plan, entry: string, selected: seq<string>)
    ensures FullBudgets(plan, RowOf(entry, selected)) == SelectedBudgets(plan, selected)
  {
    if selected != [] {
      var n := |selected| - 1;
      BudgetsOfRound(plan, entry, selected[..n]);
      assert RowOf(entry, selected)[..n] == RowOf(entry, selected[..n]);
    }
  }

  lemma {:induction false} BudgetsOfProduct(plan: Plan, entries: seq<string>, selected: seq<string>)
    ensures Tokens(FullBudgets(plan, Product(entries, selected))) == |entries| * Tokens(SelectedBudgets(plan, selected))
  {
    if entries != [] {
      var n := |entries| - 1;
      var front, round := Product(entries[..n], selected), RowOf(entries[n], selected);
      BudgetsOfProduct(plan, entries[..n], selected);
      BudgetsOfRound(plan, entries[n], selected);
      FullBudgetsAppend(plan, front, round);
      TokensAppend(FullBudgets(plan, front), FullBudgets(plan, round));
      OneMore(n, Tokens(SelectedBudgets(plan, selected)));
    }
  }

  lemma OneMore(n: nat, t: nat)
    ensures (n + 1) * t == n * t + t
  {
  }

  /** Rows cost at most one call each. */
  lemma {:induction false} RowsCostAtMost(plan: Plan, rows: seq<Row>)
    ensures Tokens(Budgets(plan, rows)) <= Tokens(FullBudgets(plan, PairsOf(rows)))
    ensures (forall r :: r in rows ==> r.kind.Called?) ==> Budgets(plan, rows) == FullBudgets(plan, PairsOf(rows))
  {
    if rows != [] {
      var front, last := rows[..|rows| - 1], rows[|rows| - 1];
      assert rows == front + [last];
      RowsCostAtMost(plan, front);
      AppendRow(plan, front, last);
      TokensAppend(Budgets(plan, front), if last.kind.Called? then [BudgetOf(plan, last.condition)] else []);
      TokensAppend(FullBudgets(plan, PairsOf(front)), [BudgetOf(plan, last.condition)]);
      assert PairsOf(rows)[..|front|] == PairsOf(front);
    }
  }

  lemma {:induction false} PrefixCostsLess(plan: Plan, some: seq<(string, string)>, all: seq<(string, string)>)
    requires some <= all
    ensures Tokens(FullBudgets(plan, some)) <= Tokens(FullBudgets(plan, all))
  {
    var rest := all[|some|..];
    assert all == some + rest;
    FullBudgetsAppend(plan, some, rest);
    TokensAppend(FullBudgets(plan, some), FullBudgets(plan, rest));
  }

  /** Whatever happens, a run is worth at most one call for every entry and selected
      condition. */
  lemma {:induction false} RunCostsAtMost(plan: Plan, selected: seq<string>, w: World, w1: World)
    requires Dispatched(plan, selected, w, w1)
    ensures Tokens(w1.wire) <= Tokens(w.wire) + WorstTokens(plan, selected)
  {
    var rows: seq<Row> :| PairsOf(rows) <= Product(plan.entries, selected) && w1.wire == w.wire + Budgets(plan, rows);
    RowsCostAtMost(plan, rows);
    PrefixCostsLess(plan, PairsOf(rows), Product(plan.entries, selected));
    BudgetsOfProduct(plan, plan.entries, selected);
    TokensAppend(w.wire, Budgets(plan, rows));
  }

  /** Every row gets to make its call, and no answer scores. */
  ghost predicate EveryCallMade(weather: nat -> Weather) {
    forall k: nat :: weather(k) == Weather(true, false, true, false, Survives)
  }

  lemma {:induction false} NothingScores(n: nat, rows: seq<Row>)
    requires forall r :: r in rows ==> r.kind == Called(false)
    ensures forall id :: id in Memory(n, rows) ==> !Memory(n, rows)[id]
  {
    if rows != [] {
      assert rows == rows[..|rows| - 1] + [rows[|rows| - 1]];
      NothingScores(n, rows[..|rows| - 1]);
    }
  }

  lemma {:induction false} EveryRowCalls(plan: Plan, selected: seq<string>, rows: seq<Row>, weather: nat -> Weather,
                                         exhausted: bool, stop: nat, k: nat)
    requires EveryCallMade(weather) && CompleteAt(plan, selected, rows, weather, exhausted, stop) && k <= stop
    ensures forall i :: 0 <= i < k ==> rows[i].kind == Called(false)
  {
    if k > 0 {
      EveryRowCalls(plan, selected, rows, weather, exhausted, stop, k - 1);
      NothingScores(|selected|, rows[..k - 1]);
      assert ExplainedAt(plan, |selected|, rows, weather, k - 1);
    }
  }

  /** That bound is reached by the run in which every call is made and none scores. */
  lemma {:induction false} RunCosts(plan: Plan, selected: seq<string>, w: World, w1: World, rows: seq<Row>,
                                    weather: nat -> Weather, exhausted: bool, perCall: nat)
    requires EveryCallMade(weather) && Complete(plan, selected, rows, weather, exhausted)
    requires Spent(w, w1, Budgets(plan, rows), perCall)
    ensures !exhausted && Budgets(plan, rows) == FullBudgets(plan, Product(plan.entries, selected))
    ensures Tokens(w1.wire) == Tokens(w.wire) + WorstTokens(plan, selected)
  {
    var stop :| CompleteAt(plan, selected, rows, weather, exhausted, stop);
    EveryRowCalls(plan, selected, rows, weather, exhausted, stop, stop);
    assert !exhausted;
    RowsInLoopOrder(plan, selected, rows, weather, exhausted, stop);
    RowsCostAtMost(plan, rows);
    BudgetsOfProduct(plan, plan.entries, selected);
    TokensAppend(w.wire, Budgets(plan, rows));
  }
}
