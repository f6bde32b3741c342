/** `cmd_score` of `scripts/confidence_calibration.py`: the three nested scoring loops under
    a lifetime spend ledger, the explicit filler rows, and the merge of result files. */
module Score {
  import opened Seqs
  import opened Slots
  import opened SpendBudget

  datatype Backend = Baseline | Mock | Live

  /** `order` is the plan's condition list; every condition in it is declared. A live
      condition of this kind of plan declares no budget of its own, so each live call is
      worth the documented default. */
  datatype Plan = Plan(order: seq<string>, conditions: map<string, Backend>, maxCalls: nat, maxTokens: nat)

  ghost predicate ValidPlan(plan: Plan) {
    Distinct(plan.order) && forall id :: id in plan.order <==> id in plan.conditions
  }

  datatype Kind = Disabled | Unscored | Scored | BudgetExhausted
  datatype Row = Row(pr: string, condition: string, rep: nat, wire: nat, kind: Kind)

  /** What the environment decides for one row: whether the wall time has run out, the
      prompt could be prepared with every pin resolved, the ledger write works, the answer
      scores, and whether the process dies. */
  datatype Weather = Weather(elapsed: bool, prepared: bool, writable: bool, scores: bool, fate: Fate)

  /** The usability of primary evidence is read from disk three times: when the spend is
      planned, in the loop, and for the fillers. */
  datatype Env = Env(planned: string -> bool, sees: string -> bool, later: string -> bool,
                     resolvable: string -> bool, weather: nat -> Weather)

  datatype Job = Job(plan: Plan, prs: seq<string>, selected: seq<string>, repeats: nat, carried: nat, env: Env)

  ghost predicate ValidJob(job: Job) {
    Distinct(job.prs) && forall id :: id in job.selected ==> id in job.plan.conditions
  }

  function Range(n: nat): (r: seq<nat>)
    ensures |r| == n && forall i :: 0 <= i < n ==> r[i] == i
  {
    if n == 0 then [] else Range(n - 1) + [n - 1]
  }

  type Triple = (string, (string, nat))

  function SlotsOf(job: Job): seq<(string, nat)> {
    Product(job.selected, Range(job.repeats))
  }

  /** Every (pull request, condition, repeat) the invocation owns, in loop order. */
  function Owned(job: Job): seq<Triple> {
    Product(job.prs, SlotsOf(job))
  }

  function TriplesOf(rows: seq<Row>): (r: seq<Triple>)
    ensures |r| == |rows|
    ensures forall i :: 0 <= i < |rows| ==> r[i] == (rows[i].pr, (rows[i].condition, rows[i].rep))
  {
    if rows == [] then []
    else
      var last := rows[|rows| - 1];
      TriplesOf(rows[..|rows| - 1]) + [(last.pr, (last.condition, last.rep))]
  }

  function Wires(rows: seq<Row>): nat {
    if rows == [] then 0 else Wires(rows[..|rows| - 1]) + rows[|rows| - 1].wire
  }

  lemma {:induction false} AppendRow(rows: seq<Row>, r: Row)
    ensures TriplesOf(rows + [r]) == TriplesOf(rows) + [(r.pr, (r.condition, r.rep))]
    ensures Wires(rows + [r]) == Wires(rows) + r.wire
  {
    assert (rows + [r])[..|rows|] == rows;
  }

  /** A slot that may cost a call, when `ok` tells which evidence is usable. */
  predicate IsLive(plan: Plan, ok: string -> bool, t: Triple) {
    t.1.0 in plan.conditions && plan.conditions[t.1.0].Live? && ok(t.0)
  }

  function LiveSlots(plan: Plan, ok: string -> bool, ts: seq<Triple>): nat {
    if ts == [] then 0
    else LiveSlots(plan, ok, ts[..|ts| - 1]) + if IsLive(plan, ok, ts[|ts| - 1]) then 1 else 0
  }

  function PlannedCalls(job: Job): nat {
    LiveSlots(job.plan, job.env.planned, Owned(job))
  }

  // ---------------------------------------------------------------- what a row means

  /** What becomes of a slot that gets its turn. */
  function Verdict(b: Backend, usable: bool, now: Weather): (Kind, nat) {
    if b.Baseline? || !usable then (Disabled, 0)
    else if !now.prepared then (Unscored, 0)
    else (if now.scores then Scored else Unscored, if b.Live? then 1 else 0)
  }

  /** A row that was run, after the rows `before`: it is what the weather made of its slot,
      and a live slot on usable evidence got its turn only while no budget had run out. */
  predicate Explained(job: Job, before: seq<Row>, r: Row, now: Weather) {
    && r.condition in job.plan.conditions
    && (r.kind, r.wire) == Verdict(job.plan.conditions[r.condition], job.env.sees(r.pr), now)
    && (IsLive(job.plan, job.env.sees, (r.pr, (r.condition, r.rep))) ==>
          !Cut(job.plan, job.carried + Wires(before), now))
  }

  ghost predicate Told(job: Job, rows: seq<Row>) {
    forall k :: 0 <= k < |rows| ==> Explained(job, rows[..k], rows[k], job.env.weather(k))
  }

  lemma {:induction false} ToldFront(job: Job, rows: seq<Row>)
    requires rows != [] && Told(job, rows)
    ensures Told(job, rows[..|rows| - 1])
  {
    var front := rows[..|rows| - 1];
    forall k | 0 <= k < |front| ensures Explained(job, front[..k], front[k], job.env.weather(k)) {
      assert front[..k] == rows[..k] && Explained(job, rows[..k], rows[k], job.env.weather(k));
    }
  }

  lemma {:induction false} ToldStep(job: Job, rows: seq<Row>, r: Row)
    requires Told(job, rows) && Explained(job, rows, r, job.env.weather(|rows|))
    ensures Told(job, rows + [r])
  {
    var longer := rows + [r];
    forall k | 0 <= k < |longer| ensures Explained(job, longer[..k], longer[k], job.env.weather(k)) {
      assert longer[..k] == rows[..k];
      assert rows[..|rows|] == rows;
    }
  }

  /** The explicit row of a slot that was not reached: no wire attempt, and unscored
      unless the slot could not have been scored anyway. */
  predicate Filler(job: Job, r: Row) {
    && r.condition in job.plan.conditions && r.wire == 0
    && r.kind == if job.env.later(r.pr) && !job.plan.conditions[r.condition].Baseline? then BudgetExhausted else Disabled
  }

  predicate Cut(plan: Plan, made: nat, now: Weather) {
    made >= plan.maxCalls || made * SCORER_MAX_TOKENS >= plan.maxTokens || now.elapsed
  }

  /** Why the sweep stopped after `stop` rows: the next slot was a live one on usable
      evidence, and a budget had run out. */
  predicate StoppedAt(job: Job, rows: seq<Row>, stop: nat) {
    && stop < |Owned(job)| && stop <= |rows|
    && IsLive(job.plan, job.env.sees, Owned(job)[stop])
    && Cut(job.plan, job.carried + Wires(rows[..stop]), job.env.weather(stop))
  }

  /** A finished sweep: the first `stop` slots have their rows in loop order, each of them
      run, and every slot that has no row among them has a filler. */
  ghost predicate Complete(job: Job, rows: seq<Row>, exhausted: bool, stop: nat) {
    && stop <= |Owned(job)| && stop <= |rows|
    && TriplesOf(rows) == Owned(job)[..stop] + Missing(Owned(job), Owned(job)[..stop])
    && Told(job, rows[..stop])
    && (forall k :: stop <= k < |rows| ==> Filler(job, rows[k]))
    && if exhausted then StoppedAt(job, rows, stop) else stop == |Owned(job)|
  }

  /** Every slot has its row, in loop order, in a sweep that visited everything; and in any
      other one exactly one, when no condition was requested twice. */
  lemma {:induction false} RowsInLoopOrder(job: Job, rows: seq<Row>, exhausted: bool, stop: nat)
    requires ValidJob(job) && Complete(job, rows, exhausted, stop)
    ensures !exhausted || Distinct(job.selected) ==> TriplesOf(rows) == Owned(job)
    ensures Distinct(job.selected) ==> Distinct(TriplesOf(rows))
  {
    var all := Owned(job);
    if !exhausted {
      assert all[..stop] == all;
      NothingMissing(all, all);
    }
    if Distinct(job.selected) {
      OwnedDistinct(job);
      MissingIsTheRest(all, all[..stop]);
    }
  }

  // ---------------------------------------------------------------- the ledger

  function Max(a: nat, b: nat): nat {
    if a >= b then a else b
  }

  /** The ledger after `n` recorded calls of an invocation that carried `carried`. */
  function LedgerAfter(w: World, carried: nat, n: nat): Ledger {
    if n == 0 then w.ledger else Counter(carried + n)
  }

  /** Calls that went out during an invocation, each worth the documented default. */
  ghost predicate Sent(w: World, w1: World) {
    && w.wire <= w1.wire
    && forall b :: b in w1.wire[|w.wire|..] ==> b == SCORER_MAX_TOKENS
  }

  /** The world after `made - carried` calls of this invocation. */
  ghost predicate Charged(w: World, w1: World, carried: nat, made: nat) {
    && Sent(w, w1) && carried <= made
    && |w1.wire| - |w.wire| == made - carried
    && w1.ledger == LedgerAfter(w, carried, made - carried)
  }

  /** The world at any moment of an invocation: at most one recorded call never went out. */
  ghost predicate Metered(w: World, w1: World, carried: nat) {
    && Sent(w, w1)
    && var n := |w1.wire| - |w.wire|;
      w1.ledger == LedgerAfter(w, carried, n) || w1.ledger == Counter(carried + n + 1)
  }

  /** The live slots on evidence that is usable when the loop gets to it. */
  function Chances(job: Job): nat {
    LiveSlots(job.plan, job.env.sees, Owned(job))
  }

  /** A recorded total that the progressive triggers let through. */
  predicate Allowed(job: Job, total: nat) {
    && job.carried < total <= job.carried + Chances(job)
    && total <= job.plan.maxCalls && (total - 1) * SCORER_MAX_TOKENS < job.plan.maxTokens
  }

  /** Whatever was recorded was allowed. */
  predicate WithinTriggers(job: Job, w: World, w1: World) {
    w1.ledger == w.ledger || (w1.ledger.Counter? && Allowed(job, w1.ledger.calls))
  }

  lemma {:induction false} LiveSlotsPrefix(plan: Plan, ok: string -> bool, a: seq<Triple>, b: seq<Triple>)
    requires a <= b
    ensures LiveSlots(plan, ok, a) <= LiveSlots(plan, ok, b)
    decreases |b|
  {
    if |a| < |b| {
      assert a <= b[..|b| - 1];
      LiveSlotsPrefix(plan, ok, a, b[..|b| - 1]);
    } else {
      assert a == b;
    }
  }

  lemma {:induction false} WiresBound(job: Job, rows: seq<Row>)
    requires Told(job, rows)
    ensures Wires(rows) <= LiveSlots(job.plan, job.env.sees, TriplesOf(rows))
  {
    if rows != [] {
      var front := rows[..|rows| - 1];
      ToldFront(job, rows);
      WiresBound(job, front);
      AppendRow(front, rows[|rows| - 1]);
      assert rows == front + [rows[|rows| - 1]];
      assert Explained(job, front, rows[|rows| - 1], job.env.weather(|rows| - 1));
      assert TriplesOf(rows)[..|rows| - 1] == TriplesOf(front);
    }
  }

  /** A live slot that is next still has a chance of its own. */
  lemma {:induction false} ChanceLeft(job: Job, rows: seq<Row>, t: Triple)
    requires Told(job, rows) && TriplesOf(rows) + [t] <= Owned(job) && IsLive(job.plan, job.env.sees, t)
    ensures Wires(rows) < Chances(job)
  {
    WiresBound(job, rows);
    LiveSlotsPrefix(job.plan, job.env.sees, TriplesOf(rows) + [t], Owned(job));
    assert (TriplesOf(rows) + [t])[..|rows|] == TriplesOf(rows);
  }

  // ---------------------------------------------------------------- the loops

  datatype Step = Rowed(kind: Kind, wire: nat) | CutOff | WriteFailed | Crash

  /** The live branch: record the spend, then call. */
  method Dispatch(job: Job, w: World, w0: World, made0: nat, total0: nat, now: Weather)
    returns (w1: World, made: nat, total: nat, step: Step)
    requires Charged(w, w0, job.carried, made0) && WithinTriggers(job, w, w0)
    requires Recorded(w) <= job.carried && total0 == (if made0 == job.carried then Recorded(w) else made0)
    requires !Cut(job.plan, made0, now) && made0 < job.carried + Chances(job)
    ensures Metered(w, w1, job.carried) && WithinTriggers(job, w, w1)
    ensures step.Rowed? || step.WriteFailed? || step.Crash?
    ensures step.WriteFailed? ==> !now.writable
    ensures step.Crash? ==> !now.fate.Survives?
    ensures step.Rowed? || step.WriteFailed? ==> Charged(w, w1, job.carried, made)
    ensures step.Rowed? ==> made == made0 + 1 && total == made && step.wire == 1
    ensures step.Rowed? ==> step.kind == (if now.scores then Scored else Unscored)
  {
    w1, made, total := w0, made0, total0;
    if now.fate.DiesBeforeWrite? {
      step := Crash;
      return;
    }
    total := Max(total, job.carried) + 1;
    if !now.writable {
      step := WriteFailed;
      return;
    }
    w1 := w1.(ledger := Counter(total));
    if now.fate.DiesBeforeDispatch? {
      step := Crash;
      return;
    }
    assert (w0.wire + [SCORER_MAX_TOKENS])[|w.wire|..] == w0.wire[|w.wire|..] + [SCORER_MAX_TOKENS];
    w1 := w1.(wire := w1.wire + [SCORER_MAX_TOKENS]);
    made := made + 1;
    step := if now.fate.DiesAfterDispatch? then Crash else Rowed(if now.scores then Scored else Unscored, 1);
  }

  datatype Progress = Running | Exhausted | Aborted | Dead

  /** The sweep stands after the slots `done`. */
  ghost predicate Sweeping(job: Job, w: World, w1: World, rows: seq<Row>, made: nat, total: nat, done: seq<Triple>) {
    && TriplesOf(rows) == done && done <= Owned(job)
    && Told(job, rows)
    && made == job.carried + Wires(rows)
    && Charged(w, w1, job.carried, made) && WithinTriggers(job, w, w1)
    && total == if made == job.carried then Recorded(w) else made
  }

  /** What holds when a loop ends early. */
  ghost predicate Halted(job: Job, w: World, w1: World, rows: seq<Row>, made: nat, progress: Progress) {
    && (progress.Exhausted? || progress.Aborted? ==> Charged(w, w1, job.carried, made))
    && (progress.Aborted? ==> !job.env.weather(|rows|).writable)
    && (progress.Dead? ==> !job.env.weather(|rows|).fate.Survives?)
    && (progress.Exhausted? ==>
          && made == job.carried + Wires(rows)
          && TriplesOf(rows) <= Owned(job) && Told(job, rows) && StoppedAt(job, rows, |rows|))
  }

  /** The body of the innermost loop, up to the row it makes. */
  method Attempt(job: Job, w: World, w0: World, ghost rows: seq<Row>, made0: nat, total0: nat,
                 pr: string, id: string, rep: nat, now: Weather)
    returns (w1: World, made: nat, total: nat, step: Step)
    requires id in job.plan.conditions && Recorded(w) <= job.carried
    requires Told(job, rows) && TriplesOf(rows) + [(pr, (id, rep))] <= Owned(job)
    requires made0 == job.carried + Wires(rows)
    requires Charged(w, w0, job.carried, made0) && WithinTriggers(job, w, w0)
    requires total0 == if made0 == job.carried then Recorded(w) else made0
    ensures Metered(w, w1, job.carried) && WithinTriggers(job, w, w1)
    ensures !step.Crash? ==> Charged(w, w1, job.carried, made)
    ensures step.Rowed? ==>
              && Explained(job, rows, Row(pr, id, rep, step.wire, step.kind), now)
              && made == made0 + step.wire && total == if made == job.carried then Recorded(w) else made
    ensures step.WriteFailed? ==> !now.writable
    ensures step.Crash? ==> !now.fate.Survives?
    ensures step.CutOff? ==>
              made == made0 && IsLive(job.plan, job.env.sees, (pr, (id, rep))) && Cut(job.plan, made, now)
  {
    w1, made, total := w0, made0, total0;
    var backend := job.plan.conditions[id];
    if backend.Baseline? || !job.env.sees(pr) {
      step := Rowed(Disabled, 0);
    } else if backend.Live? && Cut(job.plan, made, now) {
      step := CutOff;
    } else if !now.prepared {
      step := Rowed(Unscored, 0);
    } else if backend.Mock? {
      step := Rowed(if now.scores then Scored else Unscored, 0);
    } else {
      ChanceLeft(job, rows, (pr, (id, rep)));
      w1, made, total, step := Dispatch(job, w, w1, made, total, now);
    }
  }

  /** One more row keeps the sweep in step. */
  lemma {:induction false} SweepStep(job: Job, w: World, w1: World, rows: seq<Row>, made: nat, total: nat, r: Row)
    requires TriplesOf(rows) + [(r.pr, (r.condition, r.rep))] <= Owned(job)
    requires Told(job, rows) && Explained(job, rows, r, job.env.weather(|rows|))
    requires made == job.carried + Wires(rows) + r.wire
    requires Charged(w, w1, job.carried, made) && WithinTriggers(job, w, w1)
    requires total == if made == job.carried then Recorded(w) else made
    ensures Sweeping(job, w, w1, rows + [r], made, total, TriplesOf(rows) + [(r.pr, (r.condition, r.rep))])
  {
    AppendRow(rows, r);
    ToldStep(job, rows, r);
  }

  lemma {:induction false} NextSlot(job: Job, rows: seq<Row>, t: Triple)
    requires TriplesOf(rows) + [t] <= Owned(job)
    ensures |rows| < |Owned(job)| && Owned(job)[|rows|] == t && rows[..|rows|] == rows
  {
    assert (TriplesOf(rows) + [t])[|rows|] == t;
  }

  /** How many slots of an entry come before condition `c`. */
  function Offset(job: Job, c: nat): nat {
    Start(c, job.repeats)
  }

  /** The slots before entry `e`, condition `c`, repeat `r`. */
  ghost function Before(job: Job, e: nat, c: nat, r: nat): seq<Triple>
    requires e < |job.prs| && Offset(job, c) + r <= |SlotsOf(job)|
  {
    Visited(job.prs, SlotsOf(job), e, Offset(job, c) + r)
  }

  lemma {:induction false} BeforeStep(job: Job, e: nat, c: nat, r: nat)
    requires e < |job.prs| && c < |job.selected| && r < job.repeats
    ensures Offset(job, c) + r < |SlotsOf(job)|
    ensures Before(job, e, c, r + 1) == Before(job, e, c, r) + [(job.prs[e], (job.selected[c], r))]
    ensures Before(job, e, c, r + 1) <= Owned(job)
  {
    SlotAt(job.selected, Range(job.repeats), c, r);
    OneSlot(job.prs, SlotsOf(job), e, Offset(job, c) + r);
  }

  lemma {:induction false} OneSlot(prs: seq<string>, slots: seq<(string, nat)>, e: nat, k: nat)
    requires e < |prs| && k < |slots|
    ensures Visited(prs, slots, e, k + 1) == Visited(prs, slots, e, k) + [(prs[e], slots[k])] <= Product(prs, slots)
  {
    VisitedStep(prs, slots, e, k);
    VisitedIsPrefix(prs, slots, e, k + 1);
  }

  lemma {:induction false} OffsetBound(job: Job, c: nat)
    requires c <= |job.selected|
    ensures Offset(job, c) <= Offset(job, |job.selected|) == |SlotsOf(job)|
  {
    StartMonotone(c, |job.selected|, job.repeats);
    ProductLength(job.selected, Range(job.repeats));
  }

  lemma {:induction false} BeforeEntry(job: Job, e: nat)
    requires e < |job.prs|
    ensures Before(job, e, 0, 0) == Product(job.prs[..e], SlotsOf(job)) <= Owned(job)
    ensures Offset(job, |job.selected|) == |SlotsOf(job)|
    ensures Before(job, e, |job.selected|, 0) == Product(job.prs[..e + 1], SlotsOf(job))
  {
    OffsetBound(job, |job.selected|);
    VisitedRound(job.prs, SlotsOf(job), e);
    VisitedIsPrefix(job.prs, SlotsOf(job), e, 0);
  }

  /** The sweep stands before repeat `r` of condition `c` of entry `e`. */
  ghost predicate SweepingAt(job: Job, w: World, w1: World, rows: seq<Row>, made: nat, total: nat, e: nat, c: nat, r: nat) {
    && e < |job.prs| && Offset(job, c) + r <= |SlotsOf(job)|
    && Sweeping(job, w, w1, rows, made, total, Before(job, e, c, r))
  }

  /** One iteration of the innermost loop. */
  method Turn(job: Job, w: World, w0: World, rows0: seq<Row>, made0: nat, total0: nat, e: nat, c: nat, r: nat)
    returns (w1: World, rows: seq<Row>, made: nat, total: nat, progress: Progress)
    requires ValidJob(job) && Recorded(w) <= job.carried && c < |job.selected| && r < job.repeats
    requires SweepingAt(job, w, w0, rows0, made0, total0, e, c, r)
    ensures Metered(w, w1, job.carried) && WithinTriggers(job, w, w1)
    ensures progress.Running? ==> SweepingAt(job, w, w1, rows, made, total, e, c, r + 1)
    ensures Halted(job, w, w1, rows, made, progress)
  {
    rows, progress := rows0, Running;
    var pr, id := job.prs[e], job.selected[c];
    BeforeStep(job, e, c, r);
    var step;
    w1, made, total, step := Attempt(job, w, w0, rows, made0, total0, pr, id, r, job.env.weather(|rows|));
    match step
    case Rowed(kind, wire) =>
      SweepStep(job, w, w1, rows, made, total, Row(pr, id, r, wire, kind));
      rows := rows + [Row(pr, id, r, wire, kind)];
    case CutOff =>
      NextSlot(job, rows, (pr, (id, r)));
      progress := Exhausted;
    case WriteFailed =>
      progress := Aborted;
    case Crash =>
      progress := Dead;
  }

  /** After the last repeat of a condition comes the first of the next. */
  lemma {:induction false} NextCondition(job: Job, w: World, w1: World, rows: seq<Row>, made: nat, total: nat, e: nat, c: nat)
    requires SweepingAt(job, w, w1, rows, made, total, e, c, job.repeats)
    ensures SweepingAt(job, w, w1, rows, made, total, e, c + 1, 0)
  {
    assert Offset(job, c + 1) + 0 == Offset(job, c) + job.repeats;
  }

  /** The innermost loop: the repeats of one condition. */
  method ScoreCondition(job: Job, w: World, w0: World, rows0: seq<Row>, made0: nat, total0: nat, e: nat, c: nat)
    returns (w1: World, rows: seq<Row>, made: nat, total: nat, progress: Progress)
    requires ValidJob(job) && Recorded(w) <= job.carried && c < |job.selected|
    requires SweepingAt(job, w, w0, rows0, made0, total0, e, c, 0)
    ensures Metered(w, w1, job.carried) && WithinTriggers(job, w, w1)
    ensures progress.Running? ==> SweepingAt(job, w, w1, rows, made, total, e, c + 1, 0)
    ensures Halted(job, w, w1, rows, made, progress)
  {
    w1, rows, made, total, progress := w0, rows0, made0, total0, Running;
    for r := 0 to job.repeats
      invariant SweepingAt(job, w, w1, rows, made, total, e, c, r)
      invariant progress.Running?
    {
      w1, rows, made, total, progress := Turn(job, w, w1, rows, made, total, e, c, r);
      if !progress.Running? {
        return;
      }
    }
    NextCondition(job, w, w1, rows, made, total, e, c);
  }

  /** The middle loop: the selected conditions of one entry. */
  method ScoreEntry(job: Job, w: World, w0: World, rows0: seq<Row>, made0: nat, total0: nat, e: nat)
    returns (w1: World, rows: seq<Row>, made: nat, total: nat, progress: Progress)
    requires ValidJob(job) && Recorded(w) <= job.carried
    requires SweepingAt(job, w, w0, rows0, made0, total0, e, 0, 0)
    ensures Metered(w, w1, job.carried) && WithinTriggers(job, w, w1)
    ensures progress.Running? ==> SweepingAt(job, w, w1, rows, made, total, e, |job.selected|, 0)
    ensures Halted(job, w, w1, rows, made, progress)
  {
    w1, rows, made, total, progress := w0, rows0, made0, total0, Running;
    for c := 0 to |job.selected|
      invariant SweepingAt(job, w, w1, rows, made, total, e, c, 0)
      invariant progress.Running?
    {
      w1, rows, made, total, progress := ScoreCondition(job, w, w1, rows, made, total, e, c);
      if !progress.Running? {
        return;
      }
    }
  }

  /** The outer loop; `missing` tells that an entry was in no corpus. */
  method Sweep(job: Job, w: World)
    returns (w1: World, rows: seq<Row>, made: nat, progress: Progress, missing: bool)
    requires ValidJob(job) && Recorded(w) <= job.carried
    ensures Metered(w, w1, job.carried) && WithinTriggers(job, w, w1)
    ensures !progress.Dead? ==> Charged(w, w1, job.carried, made)
    ensures progress.Running? && !missing ==>
              made == job.carried + Wires(rows) && TriplesOf(rows) == Owned(job) && Told(job, rows)
    ensures Halted(job, w, w1, rows, made, progress)
    ensures missing ==> progress.Running? && exists pr :: pr in job.prs && !job.env.resolvable(pr)
    ensures progress.Running? && !missing ==> forall pr :: pr in job.prs ==> job.env.resolvable(pr)
  {
    var total: nat := Recorded(w);
    w1, rows, made, progress, missing := w, [], job.carried, Running, false;
    for e := 0 to |job.prs|
      invariant Sweeping(job, w, w1, rows, made, total, Product(job.prs[..e], SlotsOf(job)))
      invariant forall i :: 0 <= i < e ==> job.env.resolvable(job.prs[i])
      invariant progress.Running? && !missing
    {
      if !job.env.resolvable(job.prs[e]) {
        missing := true;
        return;
      }
      BeforeEntry(job, e);
      assert SweepingAt(job, w, w1, rows, made, total, e, 0, 0);
      w1, rows, made, total, progress := ScoreEntry(job, w, w1, rows, made, total, e);
      if !progress.Running? {
        return;
      }
    }
    assert job.prs[..|job.prs|] == job.prs;
  }

  // ---------------------------------------------------------------- the fillers

  ghost predicate Fills(job: Job, rows: seq<Row>, full: seq<Row>) {
    && rows <= full
    && forall k :: |rows| <= k < |full| ==> Filler(job, full[k])
  }

  /** The fillers so far: one for every slot of `done` that no row has. */
  ghost predicate Filling(job: Job, rows: seq<Row>, full: seq<Row>, done: seq<Triple>) {
    Fills(job, rows, full) && TriplesOf(full) == TriplesOf(rows) + Missing(done, TriplesOf(rows))
  }

  ghost predicate FillingAt(job: Job, rows: seq<Row>, full: seq<Row>, e: nat, c: nat, r: nat) {
    && e < |job.prs| && Offset(job, c) + r <= |SlotsOf(job)|
    && Filling(job, rows, full, Before(job, e, c, r))
  }

  /** The row made for a slot that was not reached. */
  function FillerFor(job: Job, t: Triple): Row
    requires t.1.0 in job.plan.conditions
  {
    Row(t.0, t.1.0, t.1.1, 0,
        if job.env.later(t.0) && !job.plan.conditions[t.1.0].Baseline? then BudgetExhausted else Disabled)
  }

  lemma {:induction false} FillStep(job: Job, rows: seq<Row>, full: seq<Row>, done: seq<Triple>, t: Triple)
    requires t.1.0 in job.plan.conditions && Filling(job, rows, full, done)
    ensures var longer := if t in TriplesOf(rows) then full else full + [FillerFor(job, t)];
            Filling(job, rows, longer, done + [t])
  {
    MissingAppend(done, t, TriplesOf(rows));
    AppendRow(full, FillerFor(job, t));
    Regroup(TriplesOf(rows), Missing(done, TriplesOf(rows)), t);
  }

  lemma {:induction false} Regroup(a: seq<Triple>, b: seq<Triple>, t: Triple)
    ensures a + (b + [t]) == (a + b) + [t] && a + (b + []) == a + b
  {
  }

  /** One filler, unless the slot is already present. */
  method FillSlot(job: Job, ghost rows: seq<Row>, full0: seq<Row>, present: set<Triple>, e: nat, c: nat, r: nat)
    returns (full: seq<Row>)
    requires ValidJob(job) && c < |job.selected| && r < job.repeats && present == PresentIn(rows)
    requires FillingAt(job, rows, full0, e, c, r)
    ensures FillingAt(job, rows, full, e, c, r + 1)
  {
    var t := (job.prs[e], (job.selected[c], r));
    BeforeStep(job, e, c, r);
    FillStep(job, rows, full0, Before(job, e, c, r), t);
    full := if t in present then full0 else full0 + [FillerFor(job, t)];
  }

  function PresentIn(rows: seq<Row>): set<Triple> {
    set t | t in TriplesOf(rows)
  }

  lemma {:induction false} OwnedDistinct(job: Job)
    requires ValidJob(job) && Distinct(job.selected)
    ensures Distinct(Owned(job))
  {
    ProductDistinct(job.selected, Range(job.repeats));
    ProductDistinct(job.prs, SlotsOf(job));
  }

  lemma {:induction false} NextFilling(job: Job, rows: seq<Row>, full: seq<Row>, e: nat, c: nat)
    requires FillingAt(job, rows, full, e, c, job.repeats)
    ensures FillingAt(job, rows, full, e, c + 1, 0)
  {
    assert Offset(job, c + 1) + 0 == Offset(job, c) + job.repeats;
  }

  method FillCondition(job: Job, ghost rows: seq<Row>, full0: seq<Row>, present: set<Triple>, e: nat, c: nat)
    returns (full: seq<Row>)
    requires ValidJob(job) && c < |job.selected| && present == PresentIn(rows)
    requires FillingAt(job, rows, full0, e, c, 0)
    ensures FillingAt(job, rows, full, e, c + 1, 0)
  {
    full := full0;
    for r := 0 to job.repeats
      invariant FillingAt(job, rows, full, e, c, r)
    {
      full := FillSlot(job, rows, full, present, e, c, r);
    }
    NextFilling(job, rows, full, e, c);
  }

  method FillEntry(job: Job, ghost rows: seq<Row>, full0: seq<Row>, present: set<Triple>, e: nat)
    returns (full: seq<Row>)
    requires ValidJob(job) && present == PresentIn(rows) && FillingAt(job, rows, full0, e, 0, 0)
    ensures FillingAt(job, rows, full, e, |job.selected|, 0)
  {
    full := full0;
    for c := 0 to |job.selected|
      invariant FillingAt(job, rows, full, e, c, 0)
    {
      full := FillCondition(job, rows, full, present, e, c);
    }
  }

  /** The explicit rows for every slot the sweep did not reach. */
  method FillRows(job: Job, rows: seq<Row>) returns (full: seq<Row>)
    requires ValidJob(job)
    ensures Fills(job, rows, full)
    ensures TriplesOf(full) == TriplesOf(rows) + Missing(Owned(job), TriplesOf(rows))
  {
    var present := PresentIn(rows);
    full := rows;
    for e := 0 to |job.prs|
      invariant Filling(job, rows, full, Product(job.prs[..e], SlotsOf(job)))
    {
      BeforeEntry(job, e);
      assert FillingAt(job, rows, full, e, 0, 0);
      full := FillEntry(job, rows, full, present, e);
    }
    assert job.prs[..|job.prs|] == job.prs;
  }

  lemma {:induction false} WiresOfFillers(job: Job, rows: seq<Row>, full: seq<Row>)
    requires Fills(job, rows, full)
    ensures Wires(full) == Wires(rows)
    decreases |full|
  {
    if |full| > |rows| {
      var shorter := full[..|full| - 1];
      assert rows <= shorter && forall k :: |rows| <= k < |shorter| ==> shorter[k] == full[k];
      WiresOfFillers(job, rows, shorter);
    } else {
      assert full == rows;
    }
  }

  // ---------------------------------------------------------------- the merge

  datatype Results = Results(conditions: seq<string>, rows: seq<Row>, lifetime: nat, exhausted: bool)
  datatype Prior = NoMerge | Existing(results: Results)

  /** The spend a results file knows of: the larger of its row sum and its own counter. */
  function FileSpend(prior: Prior): nat {
    if prior.Existing? then Max(Wires(prior.results.rows), prior.results.lifetime) else 0
  }

  function RowsOutside(rows: seq<Row>, ids: seq<string>): seq<Row> {
    if rows == [] then []
    else
      var last := rows[|rows| - 1];
      RowsOutside(rows[..|rows| - 1], ids) + if last.condition in ids then [] else [last]
  }

  function IdsOutside(ids: seq<string>, others: seq<string>): seq<string> {
    if ids == [] then []
    else
      var last := ids[|ids| - 1];
      IdsOutside(ids[..|ids| - 1], others) + if last in others then [] else [last]
  }

  /** The results record, merged over the one already in the file. */
  function Merged(prior: Prior, selected: seq<string>, results: Results): Results {
    if prior.NoMerge? then results
    else
      var keptIds := IdsOutside(prior.results.conditions, selected);
      Results(keptIds + IdsOutside(selected, keptIds), RowsOutside(prior.results.rows, selected) + results.rows,
              results.lifetime, prior.results.exhausted || results.exhausted)
  }

  function RowsOf(rows: seq<Row>, id: string): seq<Row> {
    if rows == [] then []
    else
      var last := rows[|rows| - 1];
      RowsOf(rows[..|rows| - 1], id) + if last.condition == id then [last] else []
  }

  lemma {:induction false} RowsOfAppend(a: seq<Row>, b: seq<Row>, id: string)
    ensures RowsOf(a + b, id) == RowsOf(a, id) + RowsOf(b, id)
  {
    if b == [] {
      assert a + b == a;
    } else {
      assert (a + b)[..|a + b| - 1] == a + b[..|b| - 1];
      RowsOfAppend(a, b[..|b| - 1], id);
    }
  }

  lemma {:induction false} RowsOfOutside(rows: seq<Row>, ids: seq<string>, id: string)
    ensures RowsOf(RowsOutside(rows, ids), id) == if id in ids then [] else RowsOf(rows, id)
  {
    if rows != [] {
      var last := rows[|rows| - 1];
      RowsOfOutside(rows[..|rows| - 1], ids, id);
      RowsOfAppend(RowsOutside(rows[..|rows| - 1], ids), if last.condition in ids then [] else [last], id);
      assert [last][..0] == [];
    }
  }

  lemma {:induction false} NoRowsOf(rows: seq<Row>, id: string)
    requires forall r :: r in rows ==> r.condition != id
    ensures RowsOf(rows, id) == []
  {
    if rows != [] {
      assert rows[|rows| - 1] in rows;
      assert forall r :: r in rows[..|rows| - 1] ==> r in rows;
      NoRowsOf(rows[..|rows| - 1], id);
    }
  }

  /** A re-run owns its conditions: their rows are exactly the fresh ones. Every other
      condition keeps exactly the rows it had, in their order. */
  lemma {:induction false} MergeReplacesSelected(prior: Results, selected: seq<string>, newer: Results, id: string)
    requires forall r :: r in newer.rows ==> r.condition in selected
    ensures var merged := Merged(Existing(prior), selected, newer);
            RowsOf(merged.rows, id) == if id in selected then RowsOf(newer.rows, id) else RowsOf(prior.rows, id)
  {
    RowsOfOutside(prior.rows, selected, id);
    RowsOfAppend(RowsOutside(prior.rows, selected), newer.rows, id);
    if id !in selected {
      NoRowsOf(newer.rows, id);
    }
  }

  lemma {:induction false} OutsideMembers(rows: seq<Row>, ids: seq<string>)
    ensures forall r :: r in RowsOutside(rows, ids) <==> r in rows && r.condition !in ids
  {
    if rows != [] {
      assert rows == rows[..|rows| - 1] + [rows[|rows| - 1]];
      OutsideMembers(rows[..|rows| - 1], ids);
    }
  }

  lemma {:induction false} OutsideDistinct(rows: seq<Row>, ids: seq<string>)
    requires Distinct(TriplesOf(rows))
    ensures Distinct(TriplesOf(RowsOutside(rows, ids)))
  {
    if rows != [] {
      var front, last := rows[..|rows| - 1], rows[|rows| - 1];
      assert TriplesOf(front) == TriplesOf(rows)[..|front|];
      OutsideDistinct(front, ids);
      LastIsNew(rows, ids);
      AppendRow(RowsOutside(front, ids), last);
    }
  }

  lemma {:induction false} LastIsNew(rows: seq<Row>, ids: seq<string>)
    requires rows != [] && Distinct(TriplesOf(rows))
    ensures TriplesOf(rows)[|rows| - 1] !in TriplesOf(RowsOutside(rows[..|rows| - 1], ids))
  {
    var n := |rows| - 1;
    var kept := RowsOutside(rows[..n], ids);
    OutsideMembers(rows[..n], ids);
    forall k | 0 <= k < |kept| ensures TriplesOf(kept)[k] != TriplesOf(rows)[n] {
      assert kept[k] in rows[..n];
      var i :| 0 <= i < n && rows[i] == kept[k];
      assert TriplesOf(rows)[i] != TriplesOf(rows)[n];
    }
  }

  /** A merge of files without repeated triples has no repeated triples. */
  lemma {:induction false} MergeKeepsTriplesUnique(prior: Results, selected: seq<string>, newer: Results)
    requires forall r :: r in newer.rows ==> r.condition in selected
    requires Distinct(TriplesOf(prior.rows)) && Distinct(TriplesOf(newer.rows))
    ensures Distinct(TriplesOf(Merged(Existing(prior), selected, newer).rows))
  {
    var kept := RowsOutside(prior.rows, selected);
    OutsideMembers(prior.rows, selected);
    OutsideDistinct(prior.rows, selected);
    var all := kept + newer.rows;
    forall i, j | 0 <= i < j < |all| ensures TriplesOf(all)[i] != TriplesOf(all)[j] {
      if i < |kept| && j >= |kept| {
        assert all[i] in kept && all[j] in newer.rows;
      } else if j < |kept| {
        assert TriplesOf(kept)[i] != TriplesOf(kept)[j];
      } else {
        assert TriplesOf(newer.rows)[i - |kept|] != TriplesOf(newer.rows)[j - |kept|];
      }
    }
  }

  lemma {:induction false} IdsOutsideMembers(ids: seq<string>, others: seq<string>)
    ensures forall id :: id in IdsOutside(ids, others) <==> id in ids && id !in others
    ensures (forall id :: id in ids ==> id !in others) ==> IdsOutside(ids, others) == ids
  {
    if ids != [] {
      assert ids == ids[..|ids| - 1] + [ids[|ids| - 1]];
      IdsOutsideMembers(ids[..|ids| - 1], others);
    }
  }

  lemma {:induction false} IdsOutsideDistinct(ids: seq<string>, others: seq<string>)
    requires Distinct(ids)
    ensures Distinct(IdsOutside(ids, others))
  {
    if ids != [] {
      var front, last := ids[..|ids| - 1], ids[|ids| - 1];
      IdsOutsideDistinct(front, others);
      IdsOutsideMembers(front, others);
      assert last !in front;
      if last !in others {
        DistinctAppend(IdsOutside(front, others), last);
      }
    }
  }

  lemma {:induction false} KeptThenSelected(kept: seq<string>, selected: seq<string>)
    requires forall id :: id in kept ==> id !in selected
    ensures IdsOutside(selected, kept) == selected
    ensures Distinct(kept) && Distinct(selected) ==> Distinct(kept + selected)
  {
    IdsOutsideMembers(selected, kept);
    var all := kept + selected;
    if Distinct(kept) && Distinct(selected) {
      forall i, j | 0 <= i < |kept| <= j < |all| ensures all[i] != all[j] {
        assert all[i] in kept && all[j] in selected;
      }
    }
  }

  /** The merged condition list: the old ones that were not re-run, then the selected. */
  lemma {:induction false} MergeConditions(prior: Results, selected: seq<string>, newer: Results)
    ensures var merged := Merged(Existing(prior), selected, newer);
            && (forall id :: id in merged.conditions <==> id in prior.conditions || id in selected)
            && (Distinct(prior.conditions) && Distinct(selected) ==> Distinct(merged.conditions))
            && (exists kept :: merged.conditions == kept + selected && forall id :: id in kept ==> id !in selected)
  {
    var kept := IdsOutside(prior.conditions, selected);
    IdsOutsideMembers(prior.conditions, selected);
    if Distinct(prior.conditions) {
      IdsOutsideDistinct(prior.conditions, selected);
    }
    KeptThenSelected(kept, selected);
    assert Merged(Existing(prior), selected, newer).conditions == kept + selected;
  }

  // ---------------------------------------------------------------- the command

  datatype Outcome = Invalid | Refused | MissingEntry | LedgerAbort | Died | Done(exhausted: bool)

  function NotBaseline(plan: Plan, ids: seq<string>): seq<string> {
    if ids == [] then []
    else
      var last := ids[|ids| - 1];
      NotBaseline(plan, ids[..|ids| - 1]) +
      if last in plan.conditions && plan.conditions[last].Baseline? then [] else [last]
  }

  lemma {:induction false} NotBaselineMembers(plan: Plan, ids: seq<string>)
    ensures forall id :: id in NotBaseline(plan, ids) ==> id in ids
    ensures Distinct(ids) ==> Distinct(NotBaseline(plan, ids))
  {
    if ids != [] {
      assert ids == ids[..|ids| - 1] + [ids[|ids| - 1]];
      NotBaselineMembers(plan, ids[..|ids| - 1]);
      assert Distinct(ids) ==> ids[|ids| - 1] !in ids[..|ids| - 1];
    }
  }

  function SelectedIds(plan: Plan, requested: seq<string>): seq<string> {
    if requested == [] then NotBaseline(plan, plan.order) else requested
  }

  /** The conditions of a run that names none are those of the plan that are not the
      baseline, in the plan's order; `at` gives their places. */
  lemma {:induction false} DefaultSelection(plan: Plan) returns (at: seq<nat>)
    requires ValidPlan(plan)
    ensures var selected := SelectedIds(plan, []);
            && |at| == |selected| && Distinct(selected)
            && (forall k :: 0 <= k < |at| ==> at[k] < |plan.order| && selected[k] == plan.order[at[k]])
            && (forall k, l :: 0 <= k < l < |at| ==> at[k] < at[l])
            && (forall id :: id in selected <==> id in plan.order && plan.conditions[id] != Baseline)
  {
    NotBaselineMembers(plan, plan.order);
    at := NotBaselinePlaces(plan, plan.order);
  }

  lemma {:induction false} NotBaselinePlaces(plan: Plan, ids: seq<string>) returns (at: seq<nat>)
    requires forall id :: id in ids ==> id in plan.conditions
    ensures var chosen := NotBaseline(plan, ids);
            && |at| == |chosen|
            && (forall k :: 0 <= k < |at| ==> at[k] < |ids| && chosen[k] == ids[at[k]])
            && (forall k, l :: 0 <= k < l < |at| ==> at[k] < at[l])
            && (forall id :: id in chosen <==> id in ids && plan.conditions[id] != Baseline)
  {
    if ids == [] {
      at := [];
    } else {
      var n := |ids| - 1;
      assert ids == ids[..n] + [ids[n]];
      at := NotBaselinePlaces(plan, ids[..n]);
      at := at + if plan.conditions[ids[n]] == Baseline then [] else [n];
    }
  }

  predicate BadSelection(plan: Plan, requested: seq<string>) {
    SelectedIds(plan, requested) == [] || exists id :: id in requested && id !in plan.conditions
  }

  /** Both ceilings leave room for this many calls. */
  predicate Fits(plan: Plan, calls: nat) {
    calls <= plan.maxCalls && calls * SCORER_MAX_TOKENS <= plan.maxTokens
  }

  /** The invocation that the arguments ask for. */
  function JobOf(w: World, plan: Plan, prs: seq<string>, requested: seq<string>, repeats: nat, prior: Prior, env: Env): Job {
    Job(plan, prs, SelectedIds(plan, requested), repeats, Max(Recorded(w), FileSpend(prior)), env)
  }

  method LookUp(plan: Plan, ids: seq<string>) returns (known: bool)
    ensures known <==> forall id :: id in ids ==> id in plan.conditions
  {
    known := true;
    for i := 0 to |ids|
      invariant known <==> forall j :: 0 <= j < i ==> ids[j] in plan.conditions
    {
      if ids[i] !in plan.conditions {
        known := false;
        return;
      }
    }
  }

  /** The worst case of an invocation is over a ceiling. */
  predicate Overspends(job: Job) {
    !Fits(job.plan, job.carried + PlannedCalls(job))
  }

  /** What an invocation that was let start leaves behind. */
  ghost predicate Finished(job: Job, w: World, w1: World, newer: seq<Row>, outcome: Outcome) {
    && Metered(w, w1, job.carried) && WithinTriggers(job, w, w1)
    && (!outcome.Died? ==> Charged(w, w1, job.carried, job.carried + |w1.wire| - |w.wire|))
    && (outcome.Died? ==> exists k: nat :: !job.env.weather(k).fate.Survives?)
    && (outcome.LedgerAbort? ==> exists k: nat :: !job.env.weather(k).writable)
    && (outcome.MissingEntry? ==> exists pr :: pr in job.prs && !job.env.resolvable(pr))
    && (outcome == Done(false) ==> forall pr :: pr in job.prs ==> job.env.resolvable(pr))
    && (outcome.Done? ==> |w1.wire| - |w.wire| == Wires(newer))
    && (outcome.Done? ==> exists stop :: Complete(job, newer, outcome.exhausted, stop))
  }

  /** The sweep and the fillers of an invocation that was let start. */
  method Conduct(job: Job, w: World) returns (w1: World, rows: seq<Row>, made: nat, outcome: Outcome)
    requires ValidJob(job) && Recorded(w) <= job.carried
    ensures outcome.MissingEntry? || outcome.LedgerAbort? || outcome.Died? || outcome.Done?
    ensures Finished(job, w, w1, rows, outcome)
    ensures outcome.Done? ==> made == job.carried + Wires(rows)
  {
    var progress, missing;
    w1, rows, made, progress, missing := Sweep(job, w);
    if missing {
      outcome := MissingEntry;
      return;
    }
    match progress
    case Dead =>
      outcome := Died;
      assert !job.env.weather(|rows|).fate.Survives?;
    case Aborted =>
      outcome := LedgerAbort;
      assert !job.env.weather(|rows|).writable;
    case Running =>
      outcome := Done(false);
      SweptIsComplete(job, rows);
    case Exhausted =>
      outcome := Done(true);
      ghost var reached := rows;
      rows := FillRows(job, rows);
      WiresOfFillers(job, reached, rows);
      FilledIsComplete(job, reached, rows);
  }

  lemma {:induction false} SweptIsComplete(job: Job, rows: seq<Row>)
    requires TriplesOf(rows) == Owned(job) && Told(job, rows)
    ensures Complete(job, rows, false, |rows|)
  {
    assert rows[..|rows|] == rows && Owned(job)[..|rows|] == Owned(job);
    NothingMissing(Owned(job), Owned(job));
  }

  lemma {:induction false} FilledIsComplete(job: Job, rows: seq<Row>, full: seq<Row>)
    requires TriplesOf(rows) <= Owned(job) && Told(job, rows) && StoppedAt(job, rows, |rows|) && Fills(job, rows, full)
    requires TriplesOf(full) == TriplesOf(rows) + Missing(Owned(job), TriplesOf(rows))
    ensures Complete(job, full, true, |rows|)
  {
    assert full[..|rows|] == rows == rows[..|rows|];
    assert Owned(job)[..|rows|] == TriplesOf(rows);
  }

  datatype Decision = InvalidStart | RefusedStart | Started(job: Job)

  /** Everything that is checked before the sweep, in the order of the source. */
  method Preflight(w: World, plan: Plan, prs: seq<string>, requested: seq<string>, repeats: int, prior: Prior, env: Env)
    returns (start: Decision)
    requires ValidPlan(plan) && Distinct(prs)
    ensures start.InvalidStart? <==> BadSelection(plan, requested) || (!w.ledger.Malformed? && repeats < 1)
    ensures !start.InvalidStart? && w.ledger.Malformed? ==> start.RefusedStart?
    ensures !start.InvalidStart? && !w.ledger.Malformed? ==>
              var job := JobOf(w, plan, prs, requested, repeats, prior, env);
              start == if Fits(plan, job.carried + PlannedCalls(job)) then Started(job) else RefusedStart
    ensures start.Started? ==> ValidJob(start.job) && Recorded(w) <= start.job.carried
  {
    var selected := SelectedIds(plan, requested);
    NotBaselineMembers(plan, plan.order);
    var known := LookUp(plan, requested);
    if !known || selected == [] {
      return InvalidStart;
    }
    if w.ledger.Malformed? {
      return RefusedStart;
    }
    if repeats < 1 {
      return InvalidStart;
    }
    var job := JobOf(w, plan, prs, requested, repeats, prior, env);
    start := if Fits(plan, job.carried + PlannedCalls(job)) then Started(job) else RefusedStart;
  }

  /** The record a finished invocation writes. */
  function Written(job: Job, prior: Prior, newer: seq<Row>, exhausted: bool): Results {
    Merged(prior, job.selected, Results(job.selected, newer, job.carried + Wires(newer), exhausted))
  }

  method Execute(job: Job, w: World, prior: Prior)
    returns (w1: World, newer: seq<Row>, results: Results, outcome: Outcome)
    requires ValidJob(job) && Recorded(w) <= job.carried
    ensures outcome.MissingEntry? || outcome.LedgerAbort? || outcome.Died? || outcome.Done?
    ensures Finished(job, w, w1, newer, outcome)
    ensures outcome.Done? ==> results == Written(job, prior, newer, outcome.exhausted)
  {
    var made;
    w1, newer, made, outcome := Conduct(job, w);
    results := if outcome.Done?
      then Merged(prior, job.selected, Results(job.selected, newer, made, outcome.exhausted))
      else Results([], [], 0, false);
  }

  /** `cmd_score` from the condition lookup to the results record. `newer` are the rows of
      this invocation, `results` the record that is written. */
  method RunScore(w: World, plan: Plan, prs: seq<string>, requested: seq<string>, repeats: int, prior: Prior, env: Env)
    returns (w1: World, newer: seq<Row>, results: Results, outcome: Outcome)
    requires ValidPlan(plan) && Distinct(prs)
    ensures outcome.Invalid? <==> BadSelection(plan, requested) || (!w.ledger.Malformed? && repeats < 1)
    ensures !outcome.Invalid? ==>
              (outcome.Refused? <==>
               w.ledger.Malformed? || Overspends(JobOf(w, plan, prs, requested, repeats, prior, env)))
    ensures outcome.Invalid? || outcome.Refused? ==> w1 == w
    ensures !outcome.Invalid? && !outcome.Refused? ==>
              Finished(JobOf(w, plan, prs, requested, repeats, prior, env), w, w1, newer, outcome)
    ensures outcome.Done? ==>
              results == Written(JobOf(w, plan, prs, requested, repeats, prior, env), prior, newer, outcome.exhausted)
  {
    w1, newer, results := w, [], Results([], [], 0, false);
    var start := Preflight(w, plan, prs, requested, repeats, prior, env);
    match start
    case InvalidStart =>
      outcome := Invalid;
    case RefusedStart =>
      outcome := Refused;
    case Started(job) =>
      w1, newer, results, outcome := Execute(job, w, prior);
  }

  // ---------------------------------------------------------------- what the rows mean

  /** A row that was run: disabled for the baseline and for evidence that cannot be used,
      otherwise unscored when its prompt could not be prepared, otherwise what the answer
      was; and it made a wire attempt exactly when a live condition got that far. */
  lemma {:induction false} RunRow(job: Job, rows: seq<Row>, exhausted: bool, stop: nat, k: nat)
    requires Complete(job, rows, exhausted, stop) && k < stop
    ensures rows[k].condition in job.plan.conditions
    ensures var backend, usable, now := job.plan.conditions[rows[k].condition], job.env.sees(rows[k].pr), job.env.weather(k);
            && (rows[k].kind == Disabled <==> backend == Baseline || !usable)
            && (rows[k].kind == Scored <==> backend != Baseline && usable && now.prepared && now.scores)
            && (rows[k].kind == Unscored <==> backend != Baseline && usable && !(now.prepared && now.scores))
            && rows[k].wire == (if backend == Live && usable && now.prepared then 1 else 0)
  {
    assert rows[..stop][..k] == rows[..k] && rows[..stop][k] == rows[k];
    assert Explained(job, rows[..stop][..k], rows[..stop][k], job.env.weather(k));
  }

  /** A row that was not run: no wire attempt, out of budget unless it could not have been
      scored anyway; and why the sweep stopped: at a live slot on usable evidence, with the
      calls or their tokens at a ceiling or the clock run out. */
  lemma {:induction false} FilledRow(job: Job, rows: seq<Row>, exhausted: bool, stop: nat)
    requires Complete(job, rows, exhausted, stop)
    ensures forall k :: stop <= k < |rows| ==> rows[k].condition in job.plan.conditions && rows[k].wire == 0
    ensures forall k :: stop <= k < |rows| && rows[k].condition in job.plan.conditions ==>
              rows[k].kind == (if job.plan.conditions[rows[k].condition] == Baseline || !job.env.later(rows[k].pr)
                               then Disabled else BudgetExhausted)
    ensures exhausted ==>
              var made, slot := job.carried + Wires(rows[..stop]), Owned(job)[stop];
              && slot.1.0 in job.plan.conditions && job.plan.conditions[slot.1.0] == Live && job.env.sees(slot.0)
              && (made >= job.plan.maxCalls || made * 4096 >= job.plan.maxTokens || job.env.weather(stop).elapsed)
  {
  }

  /** A finished run that names no condition has a row for every pull request, every
      condition that is not the baseline, and every repeat. */
  lemma {:induction false} DefaultRunCovers(w: World, plan: Plan, prs: seq<string>, repeats: nat, prior: Prior, env: Env,
                                            rows: seq<Row>, exhausted: bool, stop: nat, pr: string, id: string, rep: nat)
    requires ValidPlan(plan) && Distinct(prs)
    requires Complete(JobOf(w, plan, prs, [], repeats, prior, env), rows, exhausted, stop)
    requires pr in prs && id in plan.order && plan.conditions[id] != Baseline && rep < repeats
    ensures exists k :: 0 <= k < |rows| && rows[k].pr == pr && rows[k].condition == id && rows[k].rep == rep
  {
    var job := JobOf(w, plan, prs, [], repeats, prior, env);
    var at := DefaultSelection(plan);
    RowsInLoopOrder(job, rows, exhausted, stop);
    assert Range(repeats)[rep] == rep;
    ProductCovers(job.selected, Range(repeats), id, rep);
    ProductCovers(prs, SlotsOf(job), pr, (id, rep));
    var k :| 0 <= k < |Owned(job)| && Owned(job)[k] == (pr, (id, rep));
    assert TriplesOf(rows)[k] == (pr, (id, rep));
  }

  /** The spend an invocation starts from: the largest of what the ledger says, what the
      rows of the merged file say, and what that file's own counter says. */
  lemma CarriedIsLargest(w: World, plan: Plan, prs: seq<string>, requested: seq<string>, repeats: nat, prior: Prior, env: Env)
    ensures var carried := JobOf(w, plan, prs, requested, repeats, prior, env).carried;
            && carried >= Recorded(w)
            && (prior.Existing? ==> carried >= Wires(prior.results.rows) && carried >= prior.results.lifetime)
            && (carried == Recorded(w) ||
                (prior.Existing? && (carried == Wires(prior.results.rows) || carried == prior.results.lifetime)))
  {
  }

  // ---------------------------------------------------------------- stable evidence

  lemma {:induction false} LiveSlotsAgree(plan: Plan, a: string -> bool, b: string -> bool, ts: seq<Triple>)
    requires forall i :: 0 <= i < |ts| ==> a(ts[i].0) == b(ts[i].0)
    ensures LiveSlots(plan, a, ts) == LiveSlots(plan, b, ts)
  {
    if ts != [] {
      LiveSlotsAgree(plan, a, b, ts[..|ts| - 1]);
    }
  }

  /** Evidence that is as usable in the loop as it was when the spend was planned. */
  ghost predicate StableEvidence(job: Job) {
    forall pr :: pr in job.prs ==> job.env.planned(pr) == job.env.sees(pr)
  }

  lemma {:induction false} ChancesArePlanned(job: Job)
    requires StableEvidence(job)
    ensures Chances(job) == PlannedCalls(job)
  {
    ProductMembers(job.prs, SlotsOf(job));
    LiveSlotsAgree(job.plan, job.env.sees, job.env.planned, Owned(job));
  }

  /** On stable evidence a sweep that was let start is only ever stopped by the clock. */
  lemma {:induction false} OnlyTheClockStops(job: Job, rows: seq<Row>, stop: nat)
    requires StableEvidence(job) && Fits(job.plan, job.carried + PlannedCalls(job))
    requires Complete(job, rows, true, stop)
    ensures job.env.weather(stop).elapsed
  {
    ChancesArePlanned(job);
    var t := Owned(job)[stop];
    assert TriplesOf(rows[..stop]) + [t] == Owned(job)[..stop + 1];
    ChanceLeft(job, rows[..stop], t);
  }

  // ---------------------------------------------------------------- overspending

  /** Nothing but a ceiling can stop such a run. */
  ghost predicate Calm(job: Job) {
    && (forall k: nat :: Undisturbed(job.env.weather(k)))
    && forall pr :: pr in job.prs ==> job.env.resolvable(pr)
  }

  predicate Undisturbed(now: Weather) {
    !now.elapsed && now.prepared && now.writable && now.fate.Survives?
  }

  /** Every live slot that gets its turn in such a run costs its call. */
  lemma {:induction false} CalmWires(job: Job, rows: seq<Row>)
    requires Calm(job) && Told(job, rows)
    ensures Wires(rows) == LiveSlots(job.plan, job.env.sees, TriplesOf(rows))
  {
    if rows != [] {
      var front, last := rows[..|rows| - 1], rows[|rows| - 1];
      ToldFront(job, rows);
      CalmWires(job, front);
      AppendRow(front, last);
      assert rows == front + [last];
      assert Undisturbed(job.env.weather(|front|)) && Explained(job, front, last, job.env.weather(|front|));
      assert TriplesOf(rows)[..|front|] == TriplesOf(front);
    }
  }

  /** What such a run comes to: every chance is taken, or a ceiling has been reached. */
  lemma {:induction false} CalmTotal(job: Job, rows: seq<Row>, exhausted: bool, stop: nat)
    requires Calm(job) && Complete(job, rows, exhausted, stop)
    ensures !exhausted ==> Wires(rows) == Chances(job)
    ensures exhausted ==> job.carried + Wires(rows) >= job.plan.maxCalls
                          || (job.carried + Wires(rows)) * SCORER_MAX_TOKENS >= job.plan.maxTokens
  {
    assert Fills(job, rows[..stop], rows);
    WiresOfFillers(job, rows[..stop], rows);
    if exhausted {
      assert Undisturbed(job.env.weather(stop));
    } else {
      CalmWires(job, rows[..stop]);
      assert TriplesOf(rows[..stop]) == Owned(job)[..stop] == Owned(job);
    }
  }

  /** The token ceiling is not a whole number of calls, the call ceiling lets one call more
      go than the token ceiling holds, and so does the evidence. */
  predicate CeilingGap(job: Job) {
    var full := job.plan.maxTokens / SCORER_MAX_TOKENS;
    && job.plan.maxTokens % SCORER_MAX_TOKENS != 0
    && full < job.plan.maxCalls && job.carried <= full < job.carried + Chances(job)
  }

  /** A recorded total over the ceiling, when it is not over without its last call. */
  lemma OneCallOver(job: Job, total: nat)
    requires Allowed(job, total)
    ensures total * SCORER_MAX_TOKENS > job.plan.maxTokens ==> CeilingGap(job)
    ensures CeilingGap(job) && total > job.plan.maxTokens / SCORER_MAX_TOKENS ==>
              total * SCORER_MAX_TOKENS > job.plan.maxTokens
  {
  }

  lemma {:induction false} SentTokens(w: World, w1: World)
    requires Sent(w, w1)
    ensures Tokens(w1.wire) == Tokens(w.wire) + (|w1.wire| - |w.wire|) * SCORER_MAX_TOKENS
  {
    var sent := w1.wire[|w.wire|..];
    assert w1.wire == w.wire + sent;
    TokensAppend(w.wire, sent);
    EqualCalls(sent, SCORER_MAX_TOKENS);
    WorthIsProduct(|sent|, SCORER_MAX_TOKENS);
  }

  /** An invocation that was let start can take the recorded spend over the token ceiling
      only if there is such a gap, and does so in every run that nothing else disturbs. */
  lemma {:induction false} OvershootIff(job: Job, w: World, w1: World, newer: seq<Row>, outcome: Outcome)
    requires !Overspends(job) && Recorded(w) <= job.carried
    requires outcome.MissingEntry? || outcome.LedgerAbort? || outcome.Died? || outcome.Done?
    requires Finished(job, w, w1, newer, outcome)
    ensures Recorded(w1) * SCORER_MAX_TOKENS > job.plan.maxTokens ==> CeilingGap(job)
    ensures Calm(job) ==> (Recorded(w1) * SCORER_MAX_TOKENS > job.plan.maxTokens <==> CeilingGap(job))
    ensures Tokens(w1.wire) == Tokens(w.wire) + (|w1.wire| - |w.wire|) * SCORER_MAX_TOKENS
  {
    SentTokens(w, w1);
    if w1.ledger != w.ledger {
      OneCallOver(job, Recorded(w1));
    }
    if Calm(job) {
      CalmRunIsDone(job, w, w1, newer, outcome);
      var stop :| Complete(job, newer, outcome.exhausted, stop);
      CalmTotal(job, newer, outcome.exhausted, stop);
    }
  }

  lemma {:induction false} CalmRunIsDone(job: Job, w: World, w1: World, newer: seq<Row>, outcome: Outcome)
    requires Calm(job) && Finished(job, w, w1, newer, outcome)
    ensures !outcome.MissingEntry? && !outcome.LedgerAbort? && !outcome.Died?
  {
    assert forall k: nat :: Undisturbed(job.env.weather(k));
  }

  lemma {:induction false} SingleProduct<A, B>(a: A, b: B)
    ensures Product([a], [b]) == [(a, b)]
  {
    var none: seq<A> := [];
    assert [a][..0] == none && Product(none, [b]) == [];
    assert RowOf(a, [b]) == [(a, b)];
  }

  lemma {:induction false} OneLiveSlot(plan: Plan, ok: string -> bool, t: Triple)
    ensures LiveSlots(plan, ok, [t]) == if IsLive(plan, ok, t) then 1 else 0
  {
    var ts := [t];
    assert |ts[..0]| == 0 && ts[0] == t;
  }

  lemma {:induction false} OneSlotOwned(job: Job, pr: string, id: string)
    requires job.prs == [pr] && job.selected == [id] && job.repeats == 1
    ensures Owned(job) == [(pr, (id, 0))]
  {
    var reps := Range(1);
    assert reps == [reps[0]] && reps[0] == 0;
    SingleProduct(id, reps[0]);
    SingleProduct(pr, (id, reps[0]));
  }

  /** A job of one live slot, whose evidence becomes usable after the spend was planned. */
  ghost predicate OneLateSlot(job: Job, pr: string, id: string) {
    && job.prs == [pr] && job.selected == [id] && job.repeats == 1 && job.carried == 0
    && id in job.plan.conditions && job.plan.conditions[id].Live?
    && !job.env.planned(pr) && job.env.sees(pr)
  }

  /** Nothing is planned, and there is one chance. */
  lemma {:induction false} LateSlot(job: Job, pr: string, id: string)
    requires OneLateSlot(job, pr, id)
    ensures PlannedCalls(job) == 0 && Chances(job) == 1
  {
    OneSlotOwned(job, pr, id);
    OneLiveSlot(job.plan, job.env.planned, (pr, (id, 0)));
    OneLiveSlot(job.plan, job.env.sees, (pr, (id, 0)));
  }

  /** With both ceilings at one, such a job is let start and spends 4096 tokens. */
  lemma {:induction false} LateSlotOverspends(job: Job, w1: World, newer: seq<Row>, outcome: Outcome, pr: string, id: string)
    requires OneLateSlot(job, pr, id) && Calm(job) && job.plan.maxCalls == 1 && job.plan.maxTokens == 1
    requires outcome.MissingEntry? || outcome.LedgerAbort? || outcome.Died? || outcome.Done?
    requires Finished(job, World(Absent, []), w1, newer, outcome)
    ensures !Overspends(job) && w1 == World(Counter(1), [SCORER_MAX_TOKENS])
  {
    var w := World(Absent, []);
    LateSlot(job, pr, id);
    OvershootIff(job, w, w1, newer, outcome);
    CalmRunIsDone(job, w, w1, newer, outcome);
    assert w1.wire[0..] == w1.wire;
    assert |w1.wire| == 1 && w1.wire[0] in w1.wire;
  }

  /** Such an invocation: nothing is planned, so it starts; its one call then goes out, and
      it is worth 4096 tokens where the ceiling is 1. */
  method OvershootExample(pr: string, id: string) returns (plan: Plan, w1: World)
    ensures plan.maxTokens == 1 && w1 == World(Counter(1), [SCORER_MAX_TOKENS])
  {
    plan := Plan([id], map[id := Live], 1, 1);
    var env := Env((p: string) => false, (p: string) => true, (p: string) => true, (p: string) => true,
                   (k: nat) => Weather(false, true, true, true, Survives));
    w1 := LateRun(plan, pr, id, env);
  }

  method LateRun(plan: Plan, pr: string, id: string, env: Env) returns (w1: World)
    requires plan == Plan([id], map[id := Live], 1, 1) && !env.planned(pr) && env.sees(pr) && env.resolvable(pr)
    requires forall k: nat :: Undisturbed(env.weather(k))
    ensures w1 == World(Counter(1), [SCORER_MAX_TOKENS])
  {
    var newer, results, outcome;
    ghost var job := LateJob(plan, pr, id, env);
    LateSlot(job, pr, id);
    w1, newer, results, outcome := RunScore(World(Absent, []), plan, [pr], [id], 1, NoMerge, env);
    LateSlotOverspends(job, w1, newer, outcome, pr, id);
  }

  lemma {:induction false} LateJob(plan: Plan, pr: string, id: string, env: Env) returns (job: Job)
    requires plan == Plan([id], map[id := Live], 1, 1) && !env.planned(pr) && env.sees(pr) && env.resolvable(pr)
    requires forall k: nat :: Undisturbed(env.weather(k))
    ensures ValidPlan(plan) && Distinct([pr]) && !BadSelection(plan, [id])
    ensures job == JobOf(World(Absent, []), plan, [pr], [id], 1, NoMerge, env)
    ensures OneLateSlot(job, pr, id) && Calm(job) && job.plan.maxCalls == 1 && job.plan.maxTokens == 1
  {
    job := JobOf(World(Absent, []), plan, [pr], [id], 1, NoMerge, env);
  }

  // ---------------------------------------------------------------- the rows owned

  lemma {:induction false} RunRowsAreOwned(job: Job, rows: seq<Row>, exhausted: bool, stop: nat)
    requires ValidJob(job) && Distinct(job.selected) && Complete(job, rows, exhausted, stop)
    ensures Distinct(TriplesOf(rows))
    ensures forall r :: r in rows ==> r.pr in job.prs && r.condition in job.selected && r.rep < job.repeats
  {
    RowsInLoopOrder(job, rows, exhausted, stop);
    forall r | r in rows ensures r.pr in job.prs && r.condition in job.selected && r.rep < job.repeats {
      var i :| 0 <= i < |rows| && rows[i] == r;
      assert TriplesOf(rows)[i] == (r.pr, (r.condition, r.rep));
      OwnedSlot(job, i);
    }
  }

  lemma {:induction false} OwnedSlot(job: Job, i: nat)
    requires i < |Owned(job)|
    ensures var t := Owned(job)[i]; t.0 in job.prs && t.1.0 in job.selected && t.1.1 < job.repeats
  {
    ProductMembers(job.prs, SlotsOf(job));
    ProductMembers(job.selected, Range(job.repeats));
    assert Owned(job)[i].1 in SlotsOf(job);
  }

  /** A finished run merged over a file without repeats leaves no repeats: its own
      conditions have one row per slot, the others keep the rows they had. */
  lemma {:induction false} MergeAfterRun(job: Job, rows: seq<Row>, exhausted: bool, stop: nat, prior: Results,
                                         written: Results, id: string)
    requires ValidJob(job) && Distinct(job.selected) && Complete(job, rows, exhausted, stop)
    requires Distinct(TriplesOf(prior.rows)) && written.rows == rows
    ensures var merged := Merged(Existing(prior), job.selected, written);
            && Distinct(TriplesOf(merged.rows))
            && RowsOf(merged.rows, id) == if id in job.selected then RowsOf(rows, id) else RowsOf(prior.rows, id)
  {
    RunRowsAreOwned(job, rows, exhausted, stop);
    MergeKeepsTriplesUnique(prior, job.selected, written);
    MergeReplacesSelected(prior, job.selected, written, id);
  }

  /** The rows of a run are free of repeats exactly when no condition was requested twice. */
  lemma {:induction false} RepeatedConditionsRepeatRows(job: Job)
    requires ValidJob(job) && job.prs != [] && job.repeats >= 1
    ensures Distinct(Owned(job)) <==> Distinct(job.selected)
  {
    if Distinct(job.selected) {
      OwnedDistinct(job);
    } else {
      var i, j :| 0 <= i < j < |job.selected| && job.selected[i] == job.selected[j];
      SameSlotTwice(job, i, j);
    }
  }

  lemma {:induction false} SameSlotTwice(job: Job, i: nat, j: nat)
    requires i < j < |job.selected| && job.selected[i] == job.selected[j]
    requires job.prs != [] && job.repeats >= 1
    ensures !Distinct(Owned(job))
  {
    StartMonotone(i + 1, j, job.repeats);
    FirstEntry(job, i);
    FirstEntry(job, j);
    assert Owned(job)[Offset(job, i)] == Owned(job)[Offset(job, j)];
  }

  /** The first slot of condition `c` in the first entry. */
  lemma {:induction false} FirstEntry(job: Job, c: nat)
    requires c < |job.selected| && job.prs != [] && job.repeats >= 1
    ensures Offset(job, c) < |Owned(job)|
    ensures Owned(job)[Offset(job, c)] == (job.prs[0], (job.selected[c], 0))
  {
    SlotAt(job.selected, Range(job.repeats), c, 0);
    SlotAt(job.prs, SlotsOf(job), 0, Offset(job, c));
    assert Start(0, |SlotsOf(job)|) == 0;
  }
}
