/** The life of the bot branch under concurrent harvest workflow runs
    (`scripts/merge_bot_branch_corpus.py`, `scripts/harvest_human_findings.py` and
    `scripts/push_harvest_branch.sh`, in the order the workflow calls them).

    A run works on the checkout of main it began with, which goes stale. Steps of any
    number of runs interleave with merges of the branch into main; a run that crashes
    simply takes no further step. A step that is not enabled changes nothing. */
module BranchProtocol {
  import opened CorpusMerge
  import Harvest
  import opened Options

  /** The name of a commit. The corpus file at a commit never changes. */
  type Sha = nat

  /** The corpus file of a commit: a well-shaped list, or missing, unparseable or misshapen. */
  datatype Corpus = Listed(items: seq<Item>) | Unreadable

  datatype Run =
    | CheckedOut(base: seq<Item>)
    | Leased(base: seq<Item>, lease: Option<Sha>)
    | Carrying(base: seq<Item>, lease: Option<Sha>, work: seq<Item>)
    | Harvested(base: seq<Item>, lease: Option<Sha>, work: seq<Item>)
    | Finished
    | Failed

  /** `ever` records the ids the branch has carried at any time. */
  datatype World = World(
    store: map<Sha, Corpus>,
    branch: Option<Sha>,
    main: seq<Item>,
    runs: map<nat, Run>,
    ever: set<string>)

  /** How `git ls-remote --exit-code` ends: with an answer (a line, or "no such ref"),
      with status 0 but no line, or with a transport error. */
  datatype LsRemote = Answer | BlankAnswer | TransportError

  datatype Step =
    | Checkout(run: nat)
    | Capture(run: nat, remote: LsRemote)
    | ReadAndMerge(run: nat, localOk: bool, fetchOk: bool)
    | HarvestInto(run: nat, findings: seq<Harvest.Finding>, valid: bool)
    | Push(run: nat, commit: Sha, reformatted: bool, delivered: bool)
    | GrowMain(main: seq<Item>)
    | MergeBranch(main: seq<Item>)
    | DeleteMergedBranch

  function CorpusIds(c: Corpus): set<string> {
    match c
    case Listed(items) => Ids(items)
    case Unreadable => {}
  }

  function IdsAt(store: map<Sha, Corpus>, at: Option<Sha>): set<string> {
    if at.Some? && at.value in store then CorpusIds(store[at.value]) else {}
  }

  function BranchIds(w: World): set<string> { IdsAt(w.store, w.branch) }

  function SetRun(w: World, run: nat, r: Run): World { w.(runs := w.runs[run := r]) }

  function Apply(w: World, s: Step): World {
    match s
    case GrowMain(main) =>
      if Ids(w.main) <= Ids(main) then w.(main := main) else w
    case MergeBranch(main) =>
      if Ids(w.main) + BranchIds(w) <= Ids(main) then w.(main := main) else w
    case DeleteMergedBranch =>
      if BranchIds(w) <= Ids(w.main) then w.(branch := None) else w
    case Checkout(run) =>
      if run in w.runs then w else SetRun(w, run, CheckedOut(w.main))
    case Capture(run, remote) =>
      if run in w.runs && w.runs[run].CheckedOut? then DoCapture(w, run, remote) else w
    case ReadAndMerge(run, localOk, fetchOk) =>
      if run in w.runs && w.runs[run].Leased? then DoReadAndMerge(w, run, localOk, fetchOk) else w
    case HarvestInto(run, findings, valid) =>
      if run in w.runs && w.runs[run].Carrying? then DoHarvest(w, run, findings, valid) else w
    case Push(run, commit, reformatted, delivered) =>
      if run in w.runs && w.runs[run].Harvested? && commit !in w.store
      then DoPush(w, run, commit, reformatted, delivered) else w
  }

  /** `resolve_bot_branch_sha`: a blank answer is read as "absent". */
  function DoCapture(w: World, run: nat, remote: LsRemote): World
    requires run in w.runs && w.runs[run].CheckedOut?
  {
    match remote
    case Answer => SetRun(w, run, Leased(w.runs[run].base, w.branch))
    case BlankAnswer => SetRun(w, run, Leased(w.runs[run].base, None))
    case TransportError => SetRun(w, run, Failed)
  }

  /** The rest of `merge_bot_branch_corpus.main`: the content is read at the captured sha. */
  function DoReadAndMerge(w: World, run: nat, localOk: bool, fetchOk: bool): World
    requires run in w.runs && w.runs[run].Leased?
  {
    var Leased(base, lease) := w.runs[run];
    if !localOk then SetRun(w, run, Failed)
    else if lease.None? then SetRun(w, run, Carrying(base, lease, base))
    else if !fetchOk || lease.value !in w.store || w.store[lease.value].Unreadable?
    then SetRun(w, run, Failed)
    else SetRun(w, run, Carrying(base, lease, Merge(base, w.store[lease.value].items)))
  }

  /** `harvest_human_findings.main`; the step fails when the file no longer validates. */
  function DoHarvest(w: World, run: nat, findings: seq<Harvest.Finding>, valid: bool): World
    requires run in w.runs && w.runs[run].Carrying?
  {
    var Carrying(base, lease, work) := w.runs[run];
    if !valid then SetRun(w, run, Failed)
    else SetRun(w, run, Harvested(base, lease, work + Harvest.Build(findings, Ids(work)).entries))
  }

  /** `push_harvest_branch.sh`: nothing to push without a diff, else `--force-with-lease`. */
  function DoPush(w: World, run: nat, commit: Sha, reformatted: bool, delivered: bool): World
    requires run in w.runs && w.runs[run].Harvested?
  {
    var Harvested(base, lease, work) := w.runs[run];
    if work == base && !reformatted then SetRun(w, run, Finished)
    else if !delivered || w.branch != lease then SetRun(w, run, Failed)
    else SetRun(Overwrite(w, commit, work), run, Finished)
  }

  /** The branch now points at a new commit with this corpus, whatever it pointed at. */
  function Overwrite(w: World, commit: Sha, work: seq<Item>): World {
    w.(store := w.store[commit := Listed(work)], branch := Some(commit), ever := w.ever + Ids(work))
  }

  function RunAll(w: World, steps: seq<Step>): World
    decreases |steps|
  {
    if steps == [] then w else RunAll(Apply(w, steps[0]), steps[1..])
  }

  // ---------------------------------------------------------------- the invariant

  /** No run has begun, and the branch is absent or points at a commit. */
  ghost predicate Start(w: World) {
    w.runs == map[] && (w.branch.Some? ==> w.branch.value in w.store) && w.ever == BranchIds(w)
  }

  ghost predicate Safe(w: World) {
    w.ever <= BranchIds(w) + Ids(w.main)
  }

  /** What the merge step put in a run's working copy for the sha it captured. */
  ghost predicate CarriesForward(w: World, base: seq<Item>, lease: Option<Sha>, work: seq<Item>) {
    match lease
    case None => base <= work
    case Some(sha) =>
      && sha in w.store && w.store[sha].Listed?
      && Merge(base, w.store[sha].items) <= work
  }

  ghost predicate RunInv(w: World, r: Run) {
    match r
    case Leased(_, lease) => lease.Some? ==> lease.value in w.store
    case Carrying(base, lease, work) => CarriesForward(w, base, lease, work)
    case Harvested(base, lease, work) => CarriesForward(w, base, lease, work)
    case _ => true
  }

  ghost predicate Inv(w: World) {
    && Safe(w)
    && (w.branch.Some? ==> w.branch.value in w.store)
    && forall run :: run in w.runs ==> RunInv(w, w.runs[run])
  }

  lemma {:induction false} PrefixIds(a: seq<Item>, b: seq<Item>)
    requires a <= b
    ensures Ids(a) <= Ids(b)
  {
    ValidEntriesFacts(a);
    ValidEntriesFacts(b);
    forall id | id in Ids(a) ensures id in Ids(b) {
      var e :| e in ValidEntries(a) && Key(e) == id;
      assert e in b;
    }
  }

  /** Commits are only ever added, so what a run read stays what is stored. */
  lemma RunInvStable(w: World, w': World, r: Run)
    requires RunInv(w, r)
    requires forall sha :: sha in w.store ==> sha in w'.store && w'.store[sha] == w.store[sha]
    ensures RunInv(w', r)
  {
  }

  /** A push that goes through carries forward every id of the commit it replaces. */
  lemma PushKeepsBranch(w: World, run: nat, commit: Sha)
    requires Inv(w) && run in w.runs && w.runs[run].Harvested? && commit !in w.store
    requires w.branch == w.runs[run].lease
    ensures BranchIds(w) <= Ids(w.runs[run].work)
    ensures Safe(Overwrite(w, commit, w.runs[run].work))
  {
    var Harvested(base, lease, work) := w.runs[run];
    if lease.Some? {
      var replaced := w.store[lease.value].items;
      MergeIsUnion(base, replaced);
      PrefixIds(Merge(base, replaced), work);
    }
  }

  lemma StoreOnlyGrows(w: World, s: Step)
    ensures forall sha :: sha in w.store ==>
              sha in Apply(w, s).store && Apply(w, s).store[sha] == w.store[sha]
  {
  }

  lemma {:induction false} ReadKeepsRunInv(w: World, run: nat, localOk: bool, fetchOk: bool)
    requires Inv(w) && run in w.runs && w.runs[run].Leased?
    ensures var after := DoReadAndMerge(w, run, localOk, fetchOk); RunInv(after, after.runs[run])
  {
    assert RunInv(w, w.runs[run]);
  }

  lemma {:induction false} HarvestKeepsRunInv(w: World, run: nat, findings: seq<Harvest.Finding>, valid: bool)
    requires Inv(w) && run in w.runs && w.runs[run].Carrying?
    ensures var after := DoHarvest(w, run, findings, valid); RunInv(after, after.runs[run])
  {
    assert RunInv(w, w.runs[run]);
    var work := w.runs[run].work;
    assert work <= work + Harvest.Build(findings, Ids(work)).entries;
  }

  /** The other steps leave a run that has nothing to carry yet, or nothing any more. */
  lemma {:induction false} OtherStepRunInv(w: World, s: Step, run: nat)
    requires Inv(w) && !s.ReadAndMerge? && !s.HarvestInto? && run in Apply(w, s).runs
    requires !(run in w.runs && Apply(w, s).runs[run] == w.runs[run])
    ensures RunInv(Apply(w, s), Apply(w, s).runs[run])
  {
  }

  lemma {:induction false} StepKeepsRunInv(w: World, s: Step, run: nat)
    requires Inv(w) && run in Apply(w, s).runs
    ensures RunInv(Apply(w, s), Apply(w, s).runs[run])
  {
    StoreOnlyGrows(w, s);
    if run in w.runs && Apply(w, s).runs[run] == w.runs[run] {
      RunInvStable(w, Apply(w, s), w.runs[run]);
    } else {
      match s
      case ReadAndMerge(_, localOk, fetchOk) => ReadKeepsRunInv(w, run, localOk, fetchOk);
      case HarvestInto(_, findings, valid) => HarvestKeepsRunInv(w, run, findings, valid);
      case _ => OtherStepRunInv(w, s, run);
    }
  }

  lemma StepKeepsSafe(w: World, s: Step)
    requires Inv(w)
    ensures Safe(Apply(w, s))
  {
    if s.Push? && Apply(w, s).store != w.store {
      PushKeepsBranch(w, s.run, s.commit);
    }
  }

  lemma ApplyKeepsInv(w: World, s: Step)
    requires Inv(w)
    ensures Inv(Apply(w, s))
  {
    StepKeepsSafe(w, s);
    forall run | run in Apply(w, s).runs ensures RunInv(Apply(w, s), Apply(w, s).runs[run]) {
      StepKeepsRunInv(w, s, run);
    }
  }

  lemma {:induction false} RunKeepsInv(w: World, steps: seq<Step>)
    requires Inv(w)
    ensures Inv(RunAll(w, steps))
    decreases |steps|
  {
    if steps != [] {
      ApplyKeepsInv(w, steps[0]);
      RunKeepsInv(Apply(w, steps[0]), steps[1..]);
    }
  }

  // ---------------------------------------------------------------- main results

  /** Data loss is impossible: in every interleaving, an entry id that was ever on the
      bot branch is on the branch or on main. */
  lemma NoEntryLost(w: World, steps: seq<Step>)
    requires Start(w)
    ensures RunAll(w, steps).ever <= BranchIds(RunAll(w, steps)) + Ids(RunAll(w, steps).main)
  {
    RunKeepsInv(w, steps);
  }

  /** What a push publishes, at any point of any interleaving: the entries of main's
      checkout, then what the replaced commit had beyond them, then the harvested ones. */
  lemma PushedContent(w: World, steps: seq<Step>, run: nat, commit: Sha, reformatted: bool)
    requires Start(w)
    ensures var before := RunAll(w, steps);
            var after := Apply(before, Push(run, commit, reformatted, true));
            after.branch != before.branch ==>
              && run in before.runs && before.runs[run].Harvested?
              && before.branch == before.runs[run].lease
              && after.branch == Some(commit)
              && after.store == before.store[commit := Listed(before.runs[run].work)]
              && CarriesForward(before, before.runs[run].base, before.branch, before.runs[run].work)
  {
    RunKeepsInv(w, steps);
  }

  // ---------------------------------------------------------------- what a working copy holds

  /** What a run carries of the commit it captured, entry by entry: main's checkout comes
      first, every id of the commit is there and no other, an entry main does not have is
      the commit's, and no id is repeated that the checkout did not repeat. */
  ghost predicate Carried(w: World, base: seq<Item>, lease: Option<Sha>, work: seq<Item>) {
    match lease
    case None => work == base
    case Some(sha) =>
      && sha in w.store && w.store[sha].Listed?
      && Ids(work) == Ids(base) + Ids(w.store[sha].items)
      && ValidEntries(base) <= work
      && (forall e :: e in work[|ValidEntries(base)|..] ==> e in w.store[sha].items && Usable(e) && Key(e) !in Ids(base))
      && OnceMore(base, work)
  }

  /** An id is repeated in the one list exactly when one is repeated in the other. */
  ghost predicate OnceMore(base: seq<Item>, work: seq<Item>) {
    UniqueKeys(ValidEntries(work)) <==> UniqueKeys(ValidEntries(base))
  }

  ghost predicate WorkInv(w: World, r: Run) {
    match r
    case Carrying(base, lease, work) => Carried(w, base, lease, work) && OnceMore(base, work)
    case Harvested(base, lease, work) => OnceMore(base, work)
    case _ => true
  }

  lemma {:induction false} MergeCarries(w: World, base: seq<Item>, sha: Sha)
    requires sha in w.store && w.store[sha].Listed?
    ensures var work := Merge(base, w.store[sha].items);
            Carried(w, base, Some(sha), work) && OnceMore(base, work)
  {
    var items := w.store[sha].items;
    var work := Merge(base, items);
    MergeIsUnion(base, items);
    MergeUniqueIds(base, items);
    ValidEntriesFixed(work);
    MergeAdds(base, items);
  }

  /** The harvest step, whatever the findings: the working copy stays as it was, and behind
      it come the harvested ids that it did not have, each of them once. */
  lemma HarvestStep(w: World, run: nat, findings: seq<Harvest.Finding>)
    requires run in w.runs && w.runs[run].Carrying?
    ensures var before := w.runs[run];
            var after := Apply(w, HarvestInto(run, findings, true)).runs[run];
            && after.Harvested? && after.base == before.base && after.lease == before.lease
            && before.work <= after.work
            && Ids(after.work[|before.work|..]) == Harvest.AllIds(findings) - Ids(before.work)
            && UniqueKeys(ValidEntries(after.work[|before.work|..]))
            && OnceMore(before.work, after.work)
    ensures Harvest.AllIds(findings) <= Ids(w.runs[run].work) ==>
              Apply(w, HarvestInto(run, findings, true)).runs[run]
              == Harvested(w.runs[run].base, w.runs[run].lease, w.runs[run].work)
  {
    var work := w.runs[run].work;
    var after := Apply(w, HarvestInto(run, findings, true)).runs[run];
    var added := after.work[|work|..];
    Harvest.BuildIsExact(findings, Ids(work));
    assert after.work == work + added;
    ValidEntriesFixed(added);
    ValidEntriesAppend(work, added);
    UniqueKeysAppend(ValidEntries(work), added);
    if Harvest.AllIds(findings) <= Ids(work) {
      Harvest.RerunAddsNothing(findings, Ids(work));
    }
  }

  lemma {:induction false} StepKeepsWork(w: World, s: Step, run: nat)
    requires run in Apply(w, s).runs && (run in w.runs ==> WorkInv(w, w.runs[run]))
    ensures WorkInv(Apply(w, s), Apply(w, s).runs[run])
  {
    StoreOnlyGrows(w, s);
    if run in w.runs && Apply(w, s).runs[run] == w.runs[run] {
      WorkInvStable(w, Apply(w, s), w.runs[run]);
    } else {
      match s
      case ReadAndMerge(_, _, _) => ReadKeepsWork(w, s, run);
      case HarvestInto(_, findings, valid) => HarvestKeepsWork(w, run, findings, valid);
      case _ => OtherStepWork(w, s, run);
    }
  }

  lemma WorkInvStable(w: World, w': World, r: Run)
    requires WorkInv(w, r)
    requires forall sha :: sha in w.store ==> sha in w'.store && w'.store[sha] == w.store[sha]
    ensures WorkInv(w', r)
  {
  }

  lemma {:induction false} ReadKeepsWork(w: World, s: Step, run: nat)
    requires s.ReadAndMerge? && run in Apply(w, s).runs
    requires !(run in w.runs && Apply(w, s).runs[run] == w.runs[run])
    ensures WorkInv(Apply(w, s), Apply(w, s).runs[run])
  {
    var Leased(base, lease) := w.runs[run];
    if lease.Some? && lease.value in w.store && w.store[lease.value].Listed? {
      MergeCarries(w, base, lease.value);
    }
  }

  lemma {:induction false} HarvestKeepsWork(w: World, run: nat, findings: seq<Harvest.Finding>, valid: bool)
    requires run in w.runs && WorkInv(w, w.runs[run])
    requires var after := Apply(w, HarvestInto(run, findings, valid)); run in after.runs && after.runs[run] != w.runs[run]
    ensures var after := Apply(w, HarvestInto(run, findings, valid)); WorkInv(after, after.runs[run])
  {
    if valid {
      HarvestStep(w, run, findings);
    }
  }

  lemma {:induction false} OtherStepWork(w: World, s: Step, run: nat)
    requires !s.ReadAndMerge? && !s.HarvestInto? && run in Apply(w, s).runs
    requires !(run in w.runs && Apply(w, s).runs[run] == w.runs[run])
    ensures WorkInv(Apply(w, s), Apply(w, s).runs[run])
  {
  }

  lemma {:induction false} RunKeepsWork(w: World, steps: seq<Step>)
    requires forall run :: run in w.runs ==> WorkInv(w, w.runs[run])
    ensures forall run :: run in RunAll(w, steps).runs ==> WorkInv(RunAll(w, steps), RunAll(w, steps).runs[run])
    decreases |steps|
  {
    if steps != [] {
      var next := Apply(w, steps[0]);
      forall run | run in next.runs ensures WorkInv(next, next.runs[run]) {
        StepKeepsWork(w, steps[0], run);
      }
      RunKeepsWork(next, steps[1..]);
    }
  }

  /** At any point of any interleaving, what a run carries is exactly its checkout and what
      the captured commit had beyond it. */
  lemma CarriedContent(w: World, steps: seq<Step>, run: nat)
    requires Start(w) && run in RunAll(w, steps).runs && RunAll(w, steps).runs[run].Carrying?
    ensures var r := RunAll(w, steps).runs[run]; Carried(RunAll(w, steps), r.base, r.lease, r.work)
  {
    RunKeepsWork(w, steps);
    assert WorkInv(RunAll(w, steps), RunAll(w, steps).runs[run]);
  }

  /** At any point of any interleaving, a run's working copy repeats an id exactly when its
      checkout of main did, and so does what it pushes. */
  lemma WorkingCopyIdsUnique(w: World, steps: seq<Step>, run: nat, commit: Sha, reformatted: bool)
    requires Start(w) && run in RunAll(w, steps).runs && RunAll(w, steps).runs[run].Harvested?
    ensures var r := RunAll(w, steps).runs[run];
            UniqueKeys(ValidEntries(r.work)) <==> UniqueKeys(ValidEntries(r.base))
    ensures var before := RunAll(w, steps);
            var after := Apply(before, Push(run, commit, reformatted, true));
            after.store != before.store ==>
              && after.store.Keys == before.store.Keys + {commit} && after.store[commit].Listed?
              && (UniqueKeys(ValidEntries(after.store[commit].items)) <==> UniqueKeys(ValidEntries(before.runs[run].base)))
  {
    RunKeepsWork(w, steps);
    assert WorkInv(RunAll(w, steps), RunAll(w, steps).runs[run]);
  }

  // ---------------------------------------------------------------- reading fails

  /** The steps in which a run fails to read something it needs. */
  predicate ReadFails(w: World, s: Step) {
    match s
    case Capture(run, remote) =>
      run in w.runs && w.runs[run].CheckedOut? && remote.TransportError?
    case ReadAndMerge(run, localOk, fetchOk) =>
      && run in w.runs && w.runs[run].Leased?
      && (!localOk || (w.runs[run].lease.Some?
           && (!fetchOk || IdsUnknown(w.store, w.runs[run].lease.value))))
    case _ => false
  }

  predicate IdsUnknown(store: map<Sha, Corpus>, sha: Sha) {
    sha !in store || store[sha].Unreadable?
  }

  lemma {:induction false} FailedForGood(w: World, run: nat, steps: seq<Step>)
    requires run in w.runs && w.runs[run].Failed?
    ensures run in RunAll(w, steps).runs && RunAll(w, steps).runs[run].Failed?
    decreases |steps|
  {
    if steps != [] {
      FailedForGood(Apply(w, steps[0]), run, steps[1..]);
    }
  }

  /** A failed read is never followed by a push of the same run. */
  lemma FailedReadNeverPushes(w: World, s: Step, later: seq<Step>, push: Step)
    requires ReadFails(w, s) && push.Push? && push.run == s.run
    ensures Apply(RunAll(Apply(w, s), later), push) == RunAll(Apply(w, s), later)
  {
    FailedForGood(Apply(w, s), s.run, later);
  }

  const EMPTY := World(map[], None, [], map[], {})

  lemma {:induction false} RunOneMore(w: World, steps: seq<Step>, s: Step)
    ensures RunAll(w, steps + [s]) == Apply(RunAll(w, steps), s)
    decreases |steps|
  {
    if steps == [] {
      assert [s][1..] == [];
    } else {
      assert (steps + [s])[1..] == steps[1..] + [s];
      RunOneMore(Apply(w, steps[0]), steps[1..], s);
    }
  }

  /** Two runs, both started from nothing and both past the merge step. */
  const OVERLAPPING := EMPTY.(runs := map[0 := Carrying([], None, []), 1 := Carrying([], None, [])])

  lemma OverlapReachable() returns (steps: seq<Step>)
    ensures RunAll(EMPTY, steps) == OVERLAPPING
  {
    steps := ExtendRun([], Checkout(0));
    steps := ExtendRun(steps, Capture(0, Answer));
    steps := ExtendRun(steps, ReadAndMerge(0, true, true));
    assert RunAll(EMPTY, steps) == EMPTY.(runs := map[0 := Carrying([], None, [])]);
    steps := ExtendRun(steps, Checkout(1));
    steps := ExtendRun(steps, Capture(1, Answer));
    steps := ExtendRun(steps, ReadAndMerge(1, true, true));
  }

  /** The first of the two has published its entry. */
  lemma FirstPublished(f: Harvest.Finding, work: seq<Item>) returns (steps: seq<Step>)
    requires work == Harvest.Build([f], {}).entries && work != []
    ensures RunAll(EMPTY, steps)
         == World(map[0 := Listed(work)], Some(0), [], map[0 := Finished, 1 := Carrying([], None, [])], {} + Ids(work))
  {
    assert Ids([]) == {} && [] + work == work;
    steps := OverlapReachable();
    steps := ExtendRun(steps, HarvestInto(0, [f], true));
    assert RunAll(EMPTY, steps) == EMPTY.(runs := map[0 := Harvested([], None, work), 1 := Carrying([], None, [])]);
    steps := ExtendRun(steps, Push(0, 0, false, true));
  }

  /** The lease is needed: two overlapping runs reach a state in which the second one's
      push, without the lease, would lose the entry the first one just published. */
  lemma LeaseIsNeeded(f: Harvest.Finding) returns (steps: seq<Step>)
    requires f.file != ""
    ensures var w := RunAll(EMPTY, steps);
            && Start(EMPTY) && 1 in w.runs && w.runs[1].Harvested? && 1 !in w.store
            && !Safe(Overwrite(w, 1, w.runs[1].work))
            && Apply(w, Push(1, 1, true, true)).branch == w.branch
  {
    var work := Harvest.Build([f], {}).entries;
    PublishedEntry(f);
    steps := FirstPublished(f, work);
    steps := ExtendRun(steps, HarvestInto(1, [], true));
    var nothing: seq<Item> := Harvest.Build([], {}).entries;
    assert [] + nothing == [];
    assert RunAll(EMPTY, steps)
        == World(map[0 := Listed(work)], Some(0), [],
                 map[0 := Finished, 1 := Harvested([], None, [])], Ids(work));
  }

  lemma PublishedEntry(f: Harvest.Finding)
    requires f.file != ""
    ensures Harvest.Build([f], {}).entries != []
    ensures Ids(Harvest.Build([f], {}).entries) != {}
  {
    var work := Harvest.Build([f], {}).entries;
    var one := [f];
    assert one[..0] == [];
    assert Harvest.Build(one[..0], {}) == Harvest.Built([], 0, 0, {});
    assert Harvest.Build(one, {}).entries == [] + [Object(Text(Harvest.IdAt(one, 0)), f.body)];
    assert work == [Object(Text(Harvest.IdAt([f], 0)), f.body)];
    KeysCons(work);
    ValidEntriesFixed(work);
  }

  lemma ExtendRun(steps: seq<Step>, s: Step) returns (longer: seq<Step>)
    ensures longer == steps + [s]
    ensures RunAll(EMPTY, longer) == Apply(RunAll(EMPTY, steps), s)
  {
    longer := steps + [s];
    RunOneMore(EMPTY, steps, s);
  }

  // ---------------------------------------------------------------- an undisturbed run

  /** The steps of one run, without anything in between and with nothing that fails. */
  function OneRun(run: nat, remote: LsRemote, findings: seq<Harvest.Finding>, commit: Sha, reformatted: bool): seq<Step> {
    [Checkout(run), Capture(run, remote), ReadAndMerge(run, true, true), HarvestInto(run, findings, true),
     Push(run, commit, reformatted, true)]
  }

  lemma {:induction false} FiveSteps(w: World, a: Step, b: Step, c: Step, d: Step, e: Step)
    ensures RunAll(w, [a, b, c, d, e]) == Apply(Apply(Apply(Apply(Apply(w, a), b), c), d), e)
  {
    var v := Apply(w, a);
    assert [a, b, c, d, e][1..] == [b, c, d, e] && [b, c, d, e][1..] == [c, d, e];
    assert RunAll(w, [a, b, c, d, e]) == RunAll(v, [b, c, d, e]) == RunAll(Apply(v, b), [c, d, e]);
    ThreeSteps(Apply(v, b), c, d, e);
  }

  lemma {:induction false} ThreeSteps(w: World, a: Step, b: Step, c: Step)
    ensures RunAll(w, [a, b, c]) == Apply(Apply(Apply(w, a), b), c)
  {
    assert [a, b, c][1..] == [b, c] && [b, c][1..] == [c] && [c][1..] == [];
    assert RunAll(Apply(Apply(w, a), b), [c]) == Apply(Apply(Apply(w, a), b), c);
  }

  lemma {:induction false} SetAgain(w: World, run: nat, r: Run, s: Run)
    ensures SetRun(SetRun(w, run, r), run, s) == SetRun(w, run, s)
  {
    assert w.runs[run := r][run := s] == w.runs[run := s];
  }

  /** The first three steps read and merge. */
  lemma {:induction false} ReadingSteps(w: World, run: nat, remote: LsRemote, lease: Option<Sha>, carried: seq<Item>)
    requires run !in w.runs && remote != TransportError && lease == (if remote == Answer then w.branch else None)
    requires lease.Some? ==> lease.value in w.store && w.store[lease.value].Listed?
    requires carried == if lease.None? then w.main else Merge(w.main, w.store[lease.value].items)
    ensures Apply(Apply(Apply(w, Checkout(run)), Capture(run, remote)), ReadAndMerge(run, true, true))
         == SetRun(w, run, Carrying(w.main, lease, carried))
  {
    SetAgain(w, run, CheckedOut(w.main), Leased(w.main, lease));
    SetAgain(w, run, Leased(w.main, lease), Carrying(w.main, lease, carried));
  }

  lemma {:induction false} WritingSteps(w: World, run: nat, lease: Option<Sha>, carried: seq<Item>, findings: seq<Harvest.Finding>,
                                        commit: Sha, reformatted: bool)
    requires commit !in w.store
    ensures var before := SetRun(w, run, Carrying(w.main, lease, carried));
            var work := carried + Harvest.Build(findings, Ids(carried)).entries;
            var after := Apply(Apply(before, HarvestInto(run, findings, true)), Push(run, commit, reformatted, true));
            && after.main == w.main && run in after.runs
            && (work == w.main && !reformatted ==> after.branch == w.branch && after.store == w.store && after.runs[run] == Finished)
            && ((work != w.main || reformatted) && w.branch != lease ==>
                  after.branch == w.branch && after.store == w.store && after.runs[run] == Failed)
            && ((work != w.main || reformatted) && w.branch == lease ==>
                  after.branch == Some(commit) && after.store == w.store[commit := Listed(work)])
  {
    var work := carried + Harvest.Build(findings, Ids(carried)).entries;
    SetAgain(w, run, Carrying(w.main, lease, carried), Harvested(w.main, lease, work));
  }

  /** Such a run is not in vain: it publishes main, the entries of the branch that main lacks,
      and the new findings, and only leaves the branch alone when that is main itself and the
      file was not reformatted either. A blank answer about a branch that is not there is
      as good as an answer. */
  lemma {:induction false} UndisturbedRun(w: World, run: nat, remote: LsRemote, findings: seq<Harvest.Finding>,
                                          commit: Sha, reformatted: bool)
    requires run !in w.runs && commit !in w.store
    requires remote == Answer || (remote == BlankAnswer && w.branch == None)
    requires w.branch.Some? ==> w.branch.value in w.store && w.store[w.branch.value].Listed?
    ensures var after := RunAll(w, OneRun(run, remote, findings, commit, reformatted));
            var carried := if w.branch.None? then w.main else Merge(w.main, w.store[w.branch.value].items);
            var work := carried + Harvest.Build(findings, Ids(carried)).entries;
            && after.main == w.main
            && if work == w.main && !reformatted then after.branch == w.branch && after.store == w.store
               else after.branch == Some(commit) && after.store == w.store[commit := Listed(work)]
  {
    var carried := if w.branch.None? then w.main else Merge(w.main, w.store[w.branch.value].items);
    FiveSteps(w, Checkout(run), Capture(run, remote), ReadAndMerge(run, true, true), HarvestInto(run, findings, true),
              Push(run, commit, reformatted, true));
    ReadingSteps(w, run, remote, w.branch, carried);
    WritingSteps(w, run, w.branch, carried, findings, commit, reformatted);
  }

  /** When the branch is there, a blank answer is taken for its absence: such a run cannot
      push, since the lease does not hold, and changes neither the branch nor its content. */
  lemma {:induction false} BlankAnswerIsHarmless(w: World, run: nat, findings: seq<Harvest.Finding>, commit: Sha, reformatted: bool)
    requires run !in w.runs && commit !in w.store && w.branch.Some?
    ensures var after := RunAll(w, OneRun(run, BlankAnswer, findings, commit, reformatted));
            && after.branch == w.branch && after.store == w.store && run in after.runs
            && (after.runs[run] == Failed <==>
                w.main + Harvest.Build(findings, Ids(w.main)).entries != w.main || reformatted)
  {
    FiveSteps(w, Checkout(run), Capture(run, BlankAnswer), ReadAndMerge(run, true, true), HarvestInto(run, findings, true),
              Push(run, commit, reformatted, true));
    ReadingSteps(w, run, BlankAnswer, None, w.main);
    WritingSteps(w, run, None, w.main, findings, commit, reformatted);
  }
}
